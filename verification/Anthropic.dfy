/** The Anthropic adapter: the non-streaming response parser and the streaming accumulator. */
module Anthropic {
  import opened Prelude
  import opened TextOps
  import opened Json
  import opened Canonical
  import opened Utf8
  import opened Sse

  const SEPARATOR: string := "\n\n"

  // --- Non-streaming ----------------------------------------------------------

  datatype WireUsage = WireUsage(input: U64, output: U64, cacheCreation: U64, cacheRead: U64)

  const NO_USAGE: WireUsage := WireUsage(0, 0, 0, 0)

  function ToCanonicalUsage(u: WireUsage): Usage {
    Usage(u.input, u.cacheCreation, u.cacheRead, u.output)
  }

  /** A counter that may be absent but, when present, must be an unsigned integer. */
  function Counter(v: Json, key: string): Result<U64, DecodeFailure> {
    match Get(v, key)
    case None => Ok(0)
    case Some(c) => if c.Uint? then Ok(c.n) else Err(DecodeFailure)
  }

  function DecodeUsage(v: Json): Result<WireUsage, DecodeFailure> {
    if !v.Obj? then Err(DecodeFailure)
    else
      var input :- Counter(v, "input_tokens");
      var output :- Counter(v, "output_tokens");
      var cacheCreation :- Counter(v, "cache_creation_input_tokens");
      var cacheRead :- Counter(v, "cache_read_input_tokens");
      Ok(WireUsage(input, output, cacheCreation, cacheRead))
  }

  /** The parts of a response the typed decoder reads. */
  datatype WireResponse = WireResponse(model: string, content: seq<Json>, stopReason: Option<string>, usage: WireUsage)

  function DecodeResponse(raw: Json): Result<WireResponse, DecodeFailure> {
    var model := GetStr(raw, "model");
    var content := Get(raw, "content");
    var stop := Get(raw, "stop_reason");
    if model.None? then Err(DecodeFailure)
    else if content.Some? && !content.value.Arr? then Err(DecodeFailure)
    else if stop.Some? && !stop.value.Str? && !stop.value.Null? then Err(DecodeFailure)
    else
      var usage :- if Get(raw, "usage").None? then Ok(NO_USAGE) else DecodeUsage(Get(raw, "usage").value);
      Ok(WireResponse(model.value, AsArr(content).GetOr([]), AsStr(stop), usage))
  }

  function Join(parts: seq<string>, sep: string): string {
    if parts == [] then ""
    else if |parts| == 1 then parts[0]
    else parts[0] + sep + Join(parts[1..], sep)
  }

  function StringifyToolResult(env: Env, content: Option<Json>): string {
    match content
    case None => ""
    case Some(Str(s)) => s
    case Some(Arr(items)) =>
      Join(seq(|items|, i requires 0 <= i < |items| => GetStr(items[i], "text").GetOr(env.render(items[i]))), "\n")
    case Some(other) => env.render(other)
  }

  function BlockToCanonical(env: Env, block: Json): Block {
    var kind := GetStr(block, "type");
    if kind == Some("text") then TextBlock(GetStr(block, "text").GetOr(""))
    else if kind == Some("tool_use") then
      ToolUse(GetStr(block, "id").GetOr(""), GetStr(block, "name").GetOr(""), Get(block, "input").GetOr(Null))
    else if kind == Some("tool_result") then
      ToolResult(GetStr(block, "tool_use_id").GetOr(""), StringifyToolResult(env, Get(block, "content")),
                 Get(block, "is_error") == Some(Bool(true)))
    else Opaque(kind.GetOr("unknown"), env.digest(block))
  }

  function BlocksToCanonical(env: Env, blocks: seq<Json>): (r: seq<Block>)
    ensures |r| == |blocks|
    ensures forall i :: 0 <= i < |r| ==> r[i] == BlockToCanonical(env, blocks[i])
  {
    if blocks == [] then [] else [BlockToCanonical(env, blocks[0])] + BlocksToCanonical(env, blocks[1..])
  }

  function ToCanonicalResponse(env: Env, raw: Json): Result<Assembled, DecodeFailure> {
    var response :- DecodeResponse(raw);
    var stop := response.stopReason.GetOr("");
    Ok((Response(response.model, BlocksToCanonical(env, response.content), stop, ToCanonicalUsage(response.usage)),
        ProviderMeta(stop, GetStr(raw, "service_tier"), GetStr(raw, "inference_geo")),
        GetStr(raw, "id").GetOr("")))
  }

  // --- Streaming: one event -----------------------------------------------------

  datatype AccBlock =
    | AccText(text: string)
    | AccToolUse(id: string, name: string, partialJson: string)
    | AccOpaque(kind: string, raw: Json)

  function FromStart(block: Json): AccBlock {
    var kind := GetStr(block, "type");
    if kind == Some("text") then AccText(GetStr(block, "text").GetOr(""))
    else if kind == Some("tool_use") then AccToolUse(GetStr(block, "id").GetOr(""), GetStr(block, "name").GetOr(""), "")
    else AccOpaque(kind.GetOr("unknown"), block)
  }

  function ApplyDelta(b: AccBlock, delta: Json): AccBlock {
    var kind := GetStr(delta, "type");
    if b.AccText? && kind == Some("text_delta") then b.(text := b.text + GetStr(delta, "text").GetOr(""))
    else if b.AccToolUse? && kind == Some("input_json_delta") then
      b.(partialJson := b.partialJson + GetStr(delta, "partial_json").GetOr(""))
    else b
  }

  function ToolInput(env: Env, partialJson: string): Json {
    if Trim(partialJson) == "" then EmptyObject() else env.parse(partialJson).GetOr(Null)
  }

  function IntoCanonical(env: Env, b: AccBlock): Block {
    match b
    case AccText(text) => TextBlock(text)
    case AccToolUse(id, name, partialJson) => ToolUse(id, name, ToolInput(env, partialJson))
    case AccOpaque(kind, raw) => Opaque(kind, env.digest(raw))
  }

  function MergeFrom(u: WireUsage, v: Json): WireUsage {
    WireUsage(
      AsU64(Get(v, "input_tokens")).GetOr(u.input),
      AsU64(Get(v, "output_tokens")).GetOr(u.output),
      AsU64(Get(v, "cache_creation_input_tokens")).GetOr(u.cacheCreation),
      AsU64(Get(v, "cache_read_input_tokens")).GetOr(u.cacheRead))
  }

  datatype Acc = Acc(
    model: Option<string>,
    blocks: seq<Option<AccBlock>>,
    stopReason: Option<string>,
    usage: WireUsage,
    id: Option<string>,
    serviceTier: Option<string>,
    inferenceGeo: Option<string>)

  const INITIAL: Acc := Acc(None, [], None, NO_USAGE, None, None, None)

  function EnsureLen(blocks: seq<Option<AccBlock>>, len: nat): (r: seq<Option<AccBlock>>)
    ensures |r| == if |blocks| < len then len else |blocks|
    ensures forall i :: 0 <= i < |r| ==> r[i] == if i < |blocks| then blocks[i] else None
    decreases len - |blocks|
  {
    if |blocks| < len then EnsureLen(blocks + [None], len) else blocks
  }

  function IndexOf(v: Json): nat {
    AsU64(Get(v, "index")).GetOr(0)
  }

  function MessageStart(a: Acc, v: Json): Acc {
    a.(model := Later(a.model, AsStr(Pointer(v, "message", "model"))),
       id := Later(a.id, AsStr(Pointer(v, "message", "id"))),
       serviceTier := Later(a.serviceTier, AsStr(Pointer(v, "message", "service_tier"))),
       inferenceGeo := Later(a.inferenceGeo, AsStr(Pointer(v, "message", "inference_geo"))),
       usage := if Pointer(v, "message", "usage").Some? then MergeFrom(a.usage, Pointer(v, "message", "usage").value)
                else a.usage)
  }

  function BlockStart(a: Acc, v: Json): Acc {
    var index := IndexOf(v);
    a.(blocks := EnsureLen(a.blocks, index + 1)[index := Some(FromStart(Get(v, "content_block").GetOr(Null)))])
  }

  function BlockDelta(a: Acc, v: Json): Acc {
    var index := IndexOf(v);
    var blocks := EnsureLen(a.blocks, index + 1);
    a.(blocks := if blocks[index].None? then blocks
                 else blocks[index := Some(ApplyDelta(blocks[index].value, Get(v, "delta").GetOr(Null)))])
  }

  function MessageDelta(a: Acc, v: Json): Acc {
    a.(stopReason := Later(a.stopReason, AsStr(Pointer(v, "delta", "stop_reason"))),
       usage := if Get(v, "usage").Some? then MergeFrom(a.usage, Get(v, "usage").value) else a.usage)
  }

  function ApplyEvent(a: Acc, v: Json): Acc {
    var kind := GetStr(v, "type");
    if kind == Some("message_start") then MessageStart(a, v)
    else if kind == Some("content_block_start") then BlockStart(a, v)
    else if kind == Some("content_block_delta") then BlockDelta(a, v)
    else if kind == Some("message_delta") then MessageDelta(a, v)
    else a
  }

  /** The accumulator after a list of events. */
  function Run(events: seq<Json>): Acc {
    if events == [] then INITIAL else ApplyEvent(Run(events[..|events| - 1]), events[|events| - 1])
  }

  lemma RunSnoc(events: seq<Json>, v: Json)
    ensures Run(events + [v]) == ApplyEvent(Run(events), v)
  {
    assert (events + [v])[..|events|] == events;
  }

  function Flatten(blocks: seq<Option<AccBlock>>): seq<AccBlock> {
    if blocks == [] then []
    else (if blocks[0].Some? then [blocks[0].value] else []) + Flatten(blocks[1..])
  }

  function AllIntoCanonical(env: Env, bs: seq<AccBlock>): (r: seq<Block>)
    ensures |r| == |bs|
    ensures forall i :: 0 <= i < |r| ==> r[i] == IntoCanonical(env, bs[i])
  {
    if bs == [] then [] else [IntoCanonical(env, bs[0])] + AllIntoCanonical(env, bs[1..])
  }

  function Finish(env: Env, a: Acc, fallbackModel: string): Assembled {
    var stop := a.stopReason.GetOr("");
    (Response(a.model.GetOr(fallbackModel), AllIntoCanonical(env, Flatten(a.blocks)), stop, ToCanonicalUsage(a.usage)),
     ProviderMeta(stop, a.serviceTier, a.inferenceGeo),
     a.id.GetOr(""))
  }

  // --- Streaming: framing ---------------------------------------------------------

  function LineEvent(env: Env, line: string): seq<Json> {
    match DataOf(line)
    case None => []
    case Some(data) => if env.parse(data).None? then [] else [env.parse(data).value]
  }

  function LineEvents(env: Env, lines: seq<string>): seq<Json> {
    if lines == [] then [] else LineEvent(env, lines[0]) + LineEvents(env, lines[1..])
  }

  /** The payloads of an event block, which ends with its blank line. */
  function BlockEvents(env: Env, block: string): seq<Json> {
    LineEvents(env, Lines(block))
  }

  function Extraction(env: Env): Extract {
    piece => BlockEvents(env, piece + SEPARATOR)
  }

  // --- The accumulator ------------------------------------------------------------

  class StreamAccumulator {
    const env: Env
    var buffer: string
    var model: Option<string>
    var blocks: seq<Option<AccBlock>>
    var stopReason: Option<string>
    var usage: WireUsage
    var id: Option<string>
    var serviceTier: Option<string>
    var inferenceGeo: Option<string>
    /** Every payload applied since creation. */
    ghost var applied: seq<Json>

    function State(): Acc
      reads this
    {
      Acc(model, blocks, stopReason, usage, id, serviceTier, inferenceGeo)
    }

    /** The fields are what the applied payloads make of them. */
    ghost predicate Valid()
      reads this
    {
      State() == Run(applied)
    }

    ghost function Abstract(): Stream
      reads this
    {
      Stream(buffer, applied)
    }

    constructor (env: Env)
      ensures this.env == env && Valid() && Abstract() == START
    {
      this.env, buffer, applied := env, "", [];
      model, blocks, stopReason, usage, id, serviceTier, inferenceGeo := None, [], None, NO_USAGE, None, None, None;
    }

    method Feed(chunk: seq<byte>)
      requires Valid()
      modifies this
      ensures Valid()
      ensures Abstract() == Sse.Feed(SEPARATOR, Extraction(env), old(Abstract()), chunk)
    {
      buffer := buffer + Lossy(chunk);
      ghost var whole := Abstract();
      var pos := Find(buffer, SEPARATOR);
      while pos.Some?
        invariant Valid() && pos == Find(buffer, SEPARATOR)
        invariant Settle(SEPARATOR, Extraction(env), Abstract()) == Settle(SEPARATOR, Extraction(env), whole)
        decreases |buffer|
      {
        SettleStep(SEPARATOR, Extraction(env), Abstract(), pos.value);
        var eventBlock := buffer[..pos.value + 2];
        assert eventBlock[..|eventBlock| - |SEPARATOR|] == buffer[..pos.value];
        assert eventBlock[|eventBlock| - |SEPARATOR|..] == SEPARATOR;
        buffer := buffer[pos.value + 2..];
        HandleDrained(eventBlock);
        pos := Find(buffer, SEPARATOR);
      }
      Settled(SEPARATOR, Extraction(env), Abstract());
    }

    /** One drained piece, separator included. */
    method HandleDrained(eventBlock: string)
      requires Valid() && |SEPARATOR| <= |eventBlock| && eventBlock[|eventBlock| - |SEPARATOR|..] == SEPARATOR
      modifies this
      ensures Valid() && buffer == old(buffer)
      ensures applied == old(applied) + Extraction(env)(eventBlock[..|eventBlock| - |SEPARATOR|])
    {
      assert eventBlock == eventBlock[..|eventBlock| - |SEPARATOR|] + SEPARATOR;
      HandleEventBlock(eventBlock);
    }

    method HandleEventBlock(block: string)
      requires Valid()
      modifies this
      ensures Valid() && buffer == old(buffer)
      ensures applied == old(applied) + BlockEvents(env, block)
    {
      var lines := Lines(block);
      assert lines[0..] == lines;
      for i := 0 to |lines|
        invariant Valid() && buffer == old(buffer)
        invariant old(applied) + LineEvents(env, lines) == applied + LineEvents(env, lines[i..])
      {
        assert lines[i..][1..] == lines[i + 1..];
        Associative(applied, LineEvent(env, lines[i]), LineEvents(env, lines[i + 1..]));
        HandleLine(lines[i]);
      }
      assert applied + [] == applied;
    }

    method HandleLine(line: string)
      requires Valid()
      modifies this
      ensures Valid() && buffer == old(buffer)
      ensures applied == old(applied) + LineEvent(env, line)
    {
      var data := DataOf(line);
      if data.Some? {
        var value := env.parse(data.value);
        if value.Some? {
          Apply(value.value);
        }
      }
    }

    method Apply(value: Json)
      requires Valid()
      modifies this
      ensures Valid() && buffer == old(buffer) && applied == old(applied) + [value]
    {
      RunSnoc(applied, value);
      OnEvent(value);
      applied := applied + [value];
    }

    method OnEvent(value: Json)
      modifies this`model, this`id, this`serviceTier, this`inferenceGeo, this`usage
      modifies this`blocks, this`stopReason
      ensures State() == ApplyEvent(old(State()), value)
    {
      var kind := GetStr(value, "type");
      if kind == Some("message_start") {
        OnMessageStart(value);
      } else if kind == Some("content_block_start") {
        OnBlockStart(value);
      } else if kind == Some("content_block_delta") {
        OnBlockDelta(value);
      } else if kind == Some("message_delta") {
        OnMessageDelta(value);
      }
    }

    method OnMessageStart(value: Json)
      modifies this`model, this`id, this`serviceTier, this`inferenceGeo, this`usage
      ensures State() == MessageStart(old(State()), value)
    {
      var m := AsStr(Pointer(value, "message", "model"));
      if m.Some? { model := m; }
      var i := AsStr(Pointer(value, "message", "id"));
      if i.Some? { id := i; }
      var tier := AsStr(Pointer(value, "message", "service_tier"));
      if tier.Some? { serviceTier := tier; }
      var geo := AsStr(Pointer(value, "message", "inference_geo"));
      if geo.Some? { inferenceGeo := geo; }
      var u := Pointer(value, "message", "usage");
      if u.Some? { usage := MergeFrom(usage, u.value); }
    }

    method OnBlockStart(value: Json)
      modifies this`blocks
      ensures State() == BlockStart(old(State()), value)
    {
      var index := IndexOf(value);
      Grow(index + 1);
      blocks := blocks[index := Some(FromStart(Get(value, "content_block").GetOr(Null)))];
    }

    method OnBlockDelta(value: Json)
      modifies this`blocks
      ensures State() == BlockDelta(old(State()), value)
    {
      var index := IndexOf(value);
      Grow(index + 1);
      if blocks[index].Some? {
        blocks := blocks[index := Some(ApplyDelta(blocks[index].value, Get(value, "delta").GetOr(Null)))];
      }
    }

    method OnMessageDelta(value: Json)
      modifies this`stopReason, this`usage
      ensures State() == MessageDelta(old(State()), value)
    {
      var reason := AsStr(Pointer(value, "delta", "stop_reason"));
      if reason.Some? { stopReason := reason; }
      var u := Get(value, "usage");
      if u.Some? { usage := MergeFrom(usage, u.value); }
    }

    /** `ensure_len`: pads with empty slots. */
    method Grow(len: nat)
      modifies this`blocks
      ensures blocks == EnsureLen(old(blocks), len)
    {
      while |blocks| < len
        invariant EnsureLen(blocks, len) == EnsureLen(old(blocks), len)
        decreases len - |blocks|
      {
        blocks := blocks + [None];
      }
    }

    method FinishStream(fallbackModel: string) returns (r: Assembled)
      requires Valid()
      ensures r == Finish(env, Run(applied), fallbackModel)
    {
      r := Finish(env, State(), fallbackModel);
    }
  }
}
