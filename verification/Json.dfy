/** JSON values, the accessors both adapters read them with, and the foreign code they call. */
module Json {
  import opened Prelude

  datatype Json =
    | Null
    | Bool(b: bool)
    | Uint(n: U64)
    | OtherNumber(id: int)
    | Str(s: string)
    | Arr(items: seq<Json>)
    | Obj(fields: map<string, Json>)

  /** Foreign code taken as given: the JSON parser, the printer, and the SHA-256 of a printed value in hex. */
  datatype Env = Env(parse: string -> Option<Json>, render: Json -> string, digest: Json -> string)

  function Get(v: Json, key: string): Option<Json> {
    if v.Obj? && key in v.fields then Some(v.fields[key]) else None
  }

  function AsStr(v: Option<Json>): Option<string> {
    if v.Some? && v.value.Str? then Some(v.value.s) else None
  }

  function AsU64(v: Option<Json>): Option<U64> {
    if v.Some? && v.value.Uint? then Some(v.value.n) else None
  }

  function AsArr(v: Option<Json>): Option<seq<Json>> {
    if v.Some? && v.value.Arr? then Some(v.value.items) else None
  }

  function GetStr(v: Json, key: string): Option<string> {
    AsStr(Get(v, key))
  }

  /** `value.pointer("/outer/inner")`. */
  function Pointer(v: Json, outer: string, inner: string): Option<Json> {
    match Get(v, outer)
    case None => None
    case Some(o) => Get(o, inner)
  }

  /** What the last of a list of events to say anything about a quantity says about it. */
  function LastReport<T>(events: seq<Json>, says: Json -> Option<T>): Option<T> {
    if events == [] then None
    else Later(LastReport(events[..|events| - 1], says), says(events[|events| - 1]))
  }

  /** It is the report of the event after which none reports anything, or nothing if none ever did. */
  lemma {:induction false} LastReportIs<T>(events: seq<Json>, says: Json -> Option<T>, i: nat)
    requires i <= |events| && forall j :: i < j < |events| ==> says(events[j]).None?
    requires i < |events| ==> says(events[i]).Some?
    requires i == |events| ==> forall j :: 0 <= j < |events| ==> says(events[j]).None?
    ensures LastReport(events, says) == if i < |events| then says(events[i]) else None
  {
    var last := |events| - 1;
    if i == |events| && events != [] {
      LastReportIs(events[..last], says, i - 1);
    } else if i < last {
      LastReportIs(events[..last], says, i);
    }
  }

  /** The events that satisfy a test, in order. */
  function Filter(events: seq<Json>, keep: Json -> bool): seq<Json> {
    if events == [] then []
    else
      var last := events[|events| - 1];
      Filter(events[..|events| - 1], keep) + if keep(last) then [last] else []
  }

  /** Events that say nothing can be dropped. */
  lemma {:induction false} LastReportOfFiltered<T>(events: seq<Json>, says: Json -> Option<T>, keep: Json -> bool)
    requires forall v :: v in events && says(v).Some? ==> keep(v)
    ensures LastReport(Filter(events, keep), says) == LastReport(events, says)
  {
    if events != [] {
      var before, last := events[..|events| - 1], events[|events| - 1];
      LastReportOfFiltered(before, says, keep);
      var kept := Filter(before, keep);
      assert (kept + [last])[..|kept + [last]| - 1] == kept;
      assert kept + [] == kept;
    }
  }

  function EmptyObject(): Json {
    Obj(map[])
  }
}

/** The normalized response both provider adapters produce. */
module Canonical {
  import opened Prelude
  import opened Json

  datatype Block =
    | TextBlock(text: string)
    | ToolUse(id: string, name: string, input: Json)
    | ToolResult(toolUseId: string, content: string, isError: bool)
    | Opaque(kind: string, descriptor: string)

  datatype Usage = Usage(input: U64, cacheCreation: U64, cacheRead: U64, output: U64)

  datatype Response = Response(model: string, content: seq<Block>, stopReason: string, usage: Usage)

  datatype ProviderMeta = ProviderMeta(stopReason: string, serviceTier: Option<string>, inferenceGeo: Option<string>)

  /** The canonical response, its metadata and the provider's request id. */
  type Assembled = (Response, ProviderMeta, string)

  datatype DecodeFailure = DecodeFailure
}
