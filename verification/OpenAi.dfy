/** The OpenAI-compatible adapter: the non-streaming response parser and the streaming accumulator. */
module OpenAi {
  import opened Prelude
  import opened TextOps
  import opened Json
  import opened Canonical
  import opened Utf8
  import opened Sse

  const SEPARATOR: string := "\n"

  // --- Non-streaming ------------------------------------------------------------

  datatype WireUsage = WireUsage(prompt: U64, completion: U64, cached: Option<U64>)

  const NO_USAGE: WireUsage := WireUsage(0, 0, None)

  function SaturatingSub(a: U64, b: U64): U64 {
    if a < b then 0 else a - b
  }

  /** A null optional field reads as absent. */
  function NonNull(v: Option<Json>): Option<Json> {
    if v == Some(Null) then None else v
  }

  /** The cached part of the prompt is reported apart from the fresh part. */
  function ToCanonicalUsage(u: WireUsage): Usage {
    var cached := u.cached.GetOr(0);
    Usage(SaturatingSub(u.prompt, cached), 0, cached, u.completion)
  }

  /** A counter that may be absent but, when present, must be an unsigned integer. */
  function Counter(v: Json, key: string): Result<U64, DecodeFailure> {
    match Get(v, key)
    case None => Ok(0)
    case Some(c) => if c.Uint? then Ok(c.n) else Err(DecodeFailure)
  }

  function DecodeUsage(v: Json): Result<WireUsage, DecodeFailure> {
    if !v.Obj? then Err(DecodeFailure)
    else
      var prompt :- Counter(v, "prompt_tokens");
      var completion :- Counter(v, "completion_tokens");
      var details := Get(v, "prompt_tokens_details");
      if details.None? || details.value.Null? then Ok(WireUsage(prompt, completion, None))
      else if !details.value.Obj? then Err(DecodeFailure)
      else
        var cached :- Counter(details.value, "cached_tokens");
        Ok(WireUsage(prompt, completion, Some(cached)))
  }

  datatype WireToolCall = WireToolCall(id: string, name: string, arguments: string)

  function DecodeToolCall(v: Json): Result<WireToolCall, DecodeFailure> {
    var function_ := Get(v, "function").GetOr(Null);
    var arguments := Get(function_, "arguments");
    if GetStr(v, "id").None? || GetStr(function_, "name").None? then Err(DecodeFailure)
    else if arguments.Some? && !arguments.value.Str? then Err(DecodeFailure)
    else Ok(WireToolCall(GetStr(v, "id").value, GetStr(function_, "name").value, AsStr(arguments).GetOr("")))
  }

  function DecodeToolCalls(vs: seq<Json>): Result<seq<WireToolCall>, DecodeFailure> {
    if vs == [] then Ok([])
    else
      var first :- DecodeToolCall(vs[0]);
      var rest :- DecodeToolCalls(vs[1..]);
      Ok([first] + rest)
  }

  /** One choice; null content and null calls read as absent. */
  datatype WireChoice = WireChoice(content: Option<Json>, toolCalls: seq<WireToolCall>, finishReason: Option<string>)

  function DecodeChoice(v: Json): Result<WireChoice, DecodeFailure> {
    var message := Get(v, "message").GetOr(Null);
    var finish := NonNull(Get(v, "finish_reason"));
    var calls := NonNull(Get(message, "tool_calls"));
    if !message.Obj? then Err(DecodeFailure)
    else if finish.Some? && !finish.value.Str? then Err(DecodeFailure)
    else if calls.Some? && !calls.value.Arr? then Err(DecodeFailure)
    else
      var decoded :- DecodeToolCalls(AsArr(calls).GetOr([]));
      Ok(WireChoice(NonNull(Get(message, "content")), decoded, AsStr(finish)))
  }

  function DecodeChoices(vs: seq<Json>): Result<seq<WireChoice>, DecodeFailure> {
    if vs == [] then Ok([])
    else
      var first :- DecodeChoice(vs[0]);
      var rest :- DecodeChoices(vs[1..]);
      Ok([first] + rest)
  }

  datatype WireResponse = WireResponse(model: string, choices: seq<WireChoice>, usage: WireUsage)

  function DecodeResponse(raw: Json): Result<WireResponse, DecodeFailure> {
    var choices := Get(raw, "choices");
    if GetStr(raw, "model").None? then Err(DecodeFailure)
    else if choices.Some? && !choices.value.Arr? then Err(DecodeFailure)
    else
      var decoded :- DecodeChoices(AsArr(choices).GetOr([]));
      var usage :- if Get(raw, "usage").None? then Ok(NO_USAGE) else DecodeUsage(Get(raw, "usage").value);
      Ok(WireResponse(GetStr(raw, "model").value, decoded, usage))
  }

  function PartToBlock(env: Env, part: Json): Block {
    var kind := GetStr(part, "type");
    if kind == Some("text") then TextBlock(GetStr(part, "text").GetOr(""))
    else Opaque(kind.GetOr("unknown"), env.digest(part))
  }

  function StringifyContent(env: Env, content: Json): seq<Block> {
    match content
    case Str(text) => [TextBlock(text)]
    case Arr(parts) => seq(|parts|, i requires 0 <= i < |parts| => PartToBlock(env, parts[i]))
    case Null => []
    case other => [TextBlock(env.render(other))]
  }

  /** Arguments are parsed; what does not parse is kept as the string it is. */
  function ToolInput(env: Env, arguments: string): Json {
    if Trim(arguments) == "" then EmptyObject() else env.parse(arguments).GetOr(Str(arguments))
  }

  function ToolCallToBlock(env: Env, call: WireToolCall): Block {
    ToolUse(call.id, call.name, ToolInput(env, call.arguments))
  }

  function ToolCallsToBlocks(env: Env, calls: seq<WireToolCall>): (r: seq<Block>)
    ensures |r| == |calls|
    ensures forall i :: 0 <= i < |r| ==> r[i] == ToolCallToBlock(env, calls[i])
  {
    if calls == [] then [] else [ToolCallToBlock(env, calls[0])] + ToolCallsToBlocks(env, calls[1..])
  }

  const NO_CHOICE: WireChoice := WireChoice(None, [], None)

  function FirstChoiceOf(w: WireResponse): WireChoice {
    if w.choices == [] then NO_CHOICE else w.choices[0]
  }

  function ContentBlocks(env: Env, choice: WireChoice): seq<Block> {
    (if choice.content.None? then [] else StringifyContent(env, choice.content.value))
    + ToolCallsToBlocks(env, choice.toolCalls)
  }

  function ToCanonicalResponse(env: Env, raw: Json): Result<Assembled, DecodeFailure> {
    var response :- DecodeResponse(raw);
    var choice := FirstChoiceOf(response);
    var stop := choice.finishReason.GetOr("");
    Ok((Response(response.model, ContentBlocks(env, choice), stop, ToCanonicalUsage(response.usage)),
        ProviderMeta(stop, GetStr(raw, "service_tier"), GetStr(raw, "inference_geo")),
        GetStr(raw, "id").GetOr("")))
  }

  // --- Streaming: one chunk -------------------------------------------------------

  datatype AccToolCall = AccToolCall(id: string, name: string, arguments: string)

  const NEW_CALL: AccToolCall := AccToolCall("", "", "")

  /** A `BTreeMap` keyed by call index, as its entries in key order. */
  type Calls = seq<(nat, AccToolCall)>

  function CallAt(calls: Calls, index: nat): Option<AccToolCall> {
    if calls == [] then None
    else if calls[0].0 == index then Some(calls[0].1)
    else CallAt(calls[1..], index)
  }

  function Put(calls: Calls, index: nat, call: AccToolCall): Calls {
    if calls == [] || index < calls[0].0 then [(index, call)] + calls
    else if calls[0].0 == index then [(index, call)] + calls[1..]
    else [calls[0]] + Put(calls[1..], index, call)
  }

  function IndexOf(entry: Json): nat {
    AsU64(Get(entry, "index")).GetOr(0)
  }

  function IdOf(entry: Json): Option<string> {
    GetStr(entry, "id")
  }

  /** The text an entry adds to its call's name or arguments. */
  function FragmentOf(entry: Json, key: string): string {
    AsStr(Pointer(entry, "function", key)).GetOr("")
  }

  function ExtendCall(call: AccToolCall, entry: Json): AccToolCall {
    AccToolCall(
      IdOf(entry).GetOr(call.id), call.name + FragmentOf(entry, "name"),
      call.arguments + FragmentOf(entry, "arguments"))
  }

  function ApplyEntry(calls: Calls, entry: Json): Calls {
    var index := IndexOf(entry);
    Put(calls, index, ExtendCall(CallAt(calls, index).GetOr(NEW_CALL), entry))
  }

  function ApplyEntries(calls: Calls, entries: seq<Json>): Calls
    decreases |entries|
  {
    if entries == [] then calls else ApplyEntries(ApplyEntry(calls, entries[0]), entries[1..])
  }

  datatype Acc = Acc(
    model: Option<string>,
    text: string,
    calls: Calls,
    finishReason: Option<string>,
    usage: WireUsage,
    id: Option<string>,
    serviceTier: Option<string>,
    inferenceGeo: Option<string>)

  const INITIAL: Acc := Acc(None, "", [], None, NO_USAGE, None, None, None)

  function ChoiceOf(v: Json): Option<Json> {
    match AsArr(Get(v, "choices"))
    case None => None
    case Some(choices) => if choices == [] then None else Some(choices[0])
  }

  function DeltaOf(v: Json): Option<Json> {
    match ChoiceOf(v)
    case None => None
    case Some(choice) => Get(choice, "delta")
  }

  function FinishOf(v: Json): Option<string> {
    match ChoiceOf(v)
    case None => None
    case Some(choice) => GetStr(choice, "finish_reason")
  }

  function TextOf(v: Json): string {
    match DeltaOf(v)
    case None => ""
    case Some(delta) => GetStr(delta, "content").GetOr("")
  }

  function EntriesOf(v: Json): seq<Json> {
    match DeltaOf(v)
    case None => []
    case Some(delta) => AsArr(Get(delta, "tool_calls")).GetOr([])
  }

  /** A usage report that decodes; one that does not, such as null, says nothing. */
  function UsageOf(v: Json): Option<WireUsage> {
    match Get(v, "usage")
    case None => None
    case Some(u) => if DecodeUsage(u).Ok? then Some(DecodeUsage(u).value) else None
  }

  function ApplyTopLevel(a: Acc, v: Json): Acc {
    a.(model := Later(a.model, GetStr(v, "model")),
       id := Later(a.id, GetStr(v, "id")),
       serviceTier := Later(a.serviceTier, GetStr(v, "service_tier")),
       inferenceGeo := Later(a.inferenceGeo, GetStr(v, "inference_geo")),
       usage := UsageOf(v).GetOr(a.usage))
  }

  function ApplyChoice(a: Acc, v: Json): Acc {
    a.(finishReason := Later(a.finishReason, FinishOf(v)),
       text := a.text + TextOf(v),
       calls := ApplyEntries(a.calls, EntriesOf(v)))
  }

  function ApplyChunk(a: Acc, v: Json): Acc {
    ApplyChoice(ApplyTopLevel(a, v), v)
  }

  /** The accumulator after a list of chunks. */
  function Run(chunks: seq<Json>): Acc {
    if chunks == [] then INITIAL else ApplyChunk(Run(chunks[..|chunks| - 1]), chunks[|chunks| - 1])
  }

  lemma RunSnoc(chunks: seq<Json>, v: Json)
    ensures Run(chunks + [v]) == ApplyChunk(Run(chunks), v)
  {
    assert (chunks + [v])[..|chunks|] == chunks;
  }

  function CallToBlock(env: Env, call: AccToolCall): Block {
    ToolUse(call.id, call.name, ToolInput(env, call.arguments))
  }

  function CallsToBlocks(env: Env, calls: Calls): (r: seq<Block>)
    ensures |r| == |calls|
    ensures forall i :: 0 <= i < |r| ==> r[i] == CallToBlock(env, calls[i].1)
  {
    if calls == [] then [] else [CallToBlock(env, calls[0].1)] + CallsToBlocks(env, calls[1..])
  }

  function Finish(env: Env, a: Acc, fallbackModel: string): Assembled {
    var stop := a.finishReason.GetOr("");
    (Response(
       a.model.GetOr(fallbackModel),
       (if a.text == "" then [] else [TextBlock(a.text)]) + CallsToBlocks(env, a.calls),
       stop, ToCanonicalUsage(a.usage)),
     ProviderMeta(stop, a.serviceTier, a.inferenceGeo),
     a.id.GetOr(""))
  }

  // --- Streaming: framing -----------------------------------------------------------

  function LineEvents(env: Env, line: string): seq<Json> {
    match DataOf(line)
    case None => []
    case Some(data) =>
      if data == "[DONE]" || env.parse(data).None? then [] else [env.parse(data).value]
  }

  /** A drained line still has its line feed; it is trimmed before it is read. */
  function RawLineEvents(env: Env, line: string): seq<Json> {
    LineEvents(env, Trim(line))
  }

  function Extraction(env: Env): Extract {
    piece => RawLineEvents(env, piece + SEPARATOR)
  }

  // --- The accumulator --------------------------------------------------------------

  class StreamAccumulator {
    const env: Env
    var buffer: string
    var model: Option<string>
    var text: string
    var toolCalls: Calls
    var finishReason: Option<string>
    var usage: WireUsage
    var done: bool
    var id: Option<string>
    var serviceTier: Option<string>
    var inferenceGeo: Option<string>
    /** Every payload applied since creation. */
    ghost var applied: seq<Json>

    function State(): Acc
      reads this
    {
      Acc(model, text, toolCalls, finishReason, usage, id, serviceTier, inferenceGeo)
    }

    ghost predicate Valid()
      reads this
    {
      State() == Run(applied)
    }

    ghost function Abstract(): Stream
      reads this
    {
      Stream(buffer, applied)
    }

    constructor (env: Env)
      ensures this.env == env && Valid() && Abstract() == START && !done
    {
      this.env, buffer, applied, done := env, "", [], false;
      model, text, toolCalls, finishReason, usage := None, "", [], None, NO_USAGE;
      id, serviceTier, inferenceGeo := None, None, None;
    }

    method Feed(chunk: seq<byte>)
      requires Valid()
      modifies this
      ensures Valid()
      ensures Abstract() == Sse.Feed(SEPARATOR, Extraction(env), old(Abstract()), chunk)
    {
      buffer := buffer + Lossy(chunk);
      ghost var whole := Abstract();
      var pos := Find(buffer, SEPARATOR);
      while pos.Some?
        invariant Valid() && pos == Find(buffer, SEPARATOR)
        invariant Settle(SEPARATOR, Extraction(env), Abstract()) == Settle(SEPARATOR, Extraction(env), whole)
        decreases |buffer|
      {
        SettleStep(SEPARATOR, Extraction(env), Abstract(), pos.value);
        var line := buffer[..pos.value + 1];
        assert line[..|line| - |SEPARATOR|] == buffer[..pos.value];
        assert line[|line| - |SEPARATOR|..] == SEPARATOR;
        buffer := buffer[pos.value + 1..];
        HandleDrained(line);
        pos := Find(buffer, SEPARATOR);
      }
      Settled(SEPARATOR, Extraction(env), Abstract());
    }

    /** One drained piece, separator included. */
    method HandleDrained(line: string)
      requires Valid() && |SEPARATOR| <= |line| && line[|line| - |SEPARATOR|..] == SEPARATOR
      modifies this
      ensures Valid() && buffer == old(buffer)
      ensures applied == old(applied) + Extraction(env)(line[..|line| - |SEPARATOR|])
    {
      assert line == line[..|line| - |SEPARATOR|] + SEPARATOR;
      HandleLine(Trim(line));
    }

    method HandleLine(line: string)
      requires Valid()
      modifies this
      ensures Valid() && buffer == old(buffer)
      ensures applied == old(applied) + LineEvents(env, line)
      ensures done == (old(done) || DataOf(line) == Some("[DONE]"))
    {
      var data := DataOf(line);
      if data.None? { return; }
      if data.value == "[DONE]" {
        done := true;
        return;
      }
      var value := env.parse(data.value);
      if value.Some? {
        Apply(value.value);
      }
    }

    method Apply(value: Json)
      requires Valid()
      modifies this
      ensures Valid() && buffer == old(buffer) && done == old(done) && applied == old(applied) + [value]
    {
      RunSnoc(applied, value);
      OnChunk(value);
      applied := applied + [value];
    }

    method OnChunk(value: Json)
      modifies this`model, this`id, this`serviceTier, this`inferenceGeo, this`usage
      modifies this`text, this`toolCalls, this`finishReason
      ensures State() == ApplyChunk(old(State()), value)
    {
      OnTopLevel(value);
      OnChoice(value);
    }

    method OnTopLevel(value: Json)
      modifies this`model, this`id, this`serviceTier, this`inferenceGeo, this`usage
      ensures State() == ApplyTopLevel(old(State()), value)
    {
      hide Run, DecodeUsage;
      var m := GetStr(value, "model");
      if m.Some? { model := m; }
      var i := GetStr(value, "id");
      if i.Some? { id := i; }
      var tier := GetStr(value, "service_tier");
      if tier.Some? { serviceTier := tier; }
      var geo := GetStr(value, "inference_geo");
      if geo.Some? { inferenceGeo := geo; }
      OnUsage(value);
    }

    method OnUsage(value: Json)
      modifies this`usage
      ensures usage == UsageOf(value).GetOr(old(usage))
    {
      hide Run;
      var u := Get(value, "usage");
      if u.Some? {
        var parsed := DecodeUsage(u.value);
        if parsed.Ok? { usage := parsed.value; }
      }
    }

    method OnChoice(value: Json)
      modifies this`text, this`toolCalls, this`finishReason
      ensures State() == ApplyChoice(old(State()), value)
    {
      assert old(text) + "" == old(text);
      var choices := AsArr(Get(value, "choices"));
      if choices.None? || choices.value == [] { return; }
      var choice := choices.value[0];
      var reason := GetStr(choice, "finish_reason");
      if reason.Some? { finishReason := reason; }
      var delta := Get(choice, "delta");
      if delta.None? { return; }
      var content := GetStr(delta.value, "content");
      if content.Some? { text := text + content.value; }
      var entries := AsArr(Get(delta.value, "tool_calls"));
      if entries.Some? {
        OnEntries(entries.value);
      }
    }

    method OnEntries(entries: seq<Json>)
      modifies this`toolCalls
      ensures toolCalls == ApplyEntries(old(toolCalls), entries)
    {
      assert entries[0..] == entries;
      for i := 0 to |entries|
        invariant ApplyEntries(old(toolCalls), entries) == ApplyEntries(toolCalls, entries[i..])
      {
        assert entries[i..][1..] == entries[i + 1..];
        var index := IndexOf(entries[i]);
        var entry := CallAt(toolCalls, index).GetOr(NEW_CALL);
        var newId := GetStr(entries[i], "id");
        if newId.Some? { entry := entry.(id := newId.value); }
        assert entry.name + "" == entry.name && entry.arguments + "" == entry.arguments;
        var called := Get(entries[i], "function");
        if called.Some? {
          var name := GetStr(called.value, "name");
          if name.Some? { entry := entry.(name := entry.name + name.value); }
          var arguments := GetStr(called.value, "arguments");
          if arguments.Some? { entry := entry.(arguments := entry.arguments + arguments.value); }
        }
        toolCalls := Put(toolCalls, index, entry);
      }
    }

    method FinishStream(fallbackModel: string) returns (r: Assembled)
      requires Valid()
      ensures r == Finish(env, Run(applied), fallbackModel)
    {
      var content := if text == "" then [] else [TextBlock(text)];
      var calls := ToolBlocks();
      var stop := finishReason.GetOr("");
      r := (Response(model.GetOr(fallbackModel), content + calls, stop, ToCanonicalUsage(usage)),
            ProviderMeta(stop, serviceTier, inferenceGeo),
            id.GetOr(""));
    }

    method ToolBlocks() returns (blocks: seq<Block>)
      ensures blocks == CallsToBlocks(env, toolCalls)
    {
      blocks := [];
      for i := 0 to |toolCalls|
        invariant |blocks| == i && forall k :: 0 <= k < i ==> blocks[k] == CallToBlock(env, toolCalls[k].1)
      {
        blocks := blocks + [CallToBlock(env, toolCalls[i].1)];
      }
    }
  }
}
