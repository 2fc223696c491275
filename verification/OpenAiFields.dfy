/**
  What the canonical form of an OpenAI completion says, field by field, in terms
  of the JSON that came in: of a whole completion, of a stream's chunks one by
  one, and of a finished stream.
*/
module OpenAiFields {
  import opened Prelude
  import opened TextOps
  import opened Json
  import opened Canonical
  import opened OpenAi
  import opened OpenAiEquality

  // --- Whole completions -----------------------------------------------------------------

  /** A counter that is there is an unsigned integer. */
  predicate IsCounter(v: Json, key: string) {
    Get(v, key).Some? ==> Get(v, key).value.Uint?
  }

  /** Absent, or null. */
  predicate Missing(v: Json, key: string) {
    Get(v, key).None? || Get(v, key).value.Null?
  }

  lemma {:induction false} UsageDecodes(u: Json)
    ensures DecodeUsage(u).Ok? <==>
            && u.Obj? && IsCounter(u, "prompt_tokens") && IsCounter(u, "completion_tokens")
            && (!Missing(u, "prompt_tokens_details") ==>
                  Get(u, "prompt_tokens_details").value.Obj?
                  && IsCounter(Get(u, "prompt_tokens_details").value, "cached_tokens"))
    ensures DecodeUsage(u).Ok? ==>
              && DecodeUsage(u).value.prompt == AsU64(Get(u, "prompt_tokens")).GetOr(0)
              && DecodeUsage(u).value.completion == AsU64(Get(u, "completion_tokens")).GetOr(0)
              && DecodeUsage(u).value.cached.GetOr(0)
                 == AsU64(Pointer(u, "prompt_tokens_details", "cached_tokens")).GetOr(0)
  {}

  lemma {:induction false} ToolCallDecodes(v: Json)
    ensures DecodeToolCall(v).Ok? <==>
            && GetStr(v, "id").Some? && AsStr(Pointer(v, "function", "name")).Some?
            && (Pointer(v, "function", "arguments").Some? ==> Pointer(v, "function", "arguments").value.Str?)
    ensures DecodeToolCall(v).Ok? ==>
              DecodeToolCall(v).value == WireToolCall(
                GetStr(v, "id").value, AsStr(Pointer(v, "function", "name")).value,
                AsStr(Pointer(v, "function", "arguments")).GetOr(""))
  {}

  lemma {:induction false} ToolCallsDecode(vs: seq<Json>)
    ensures DecodeToolCalls(vs).Ok? <==> forall i :: 0 <= i < |vs| ==> DecodeToolCall(vs[i]).Ok?
    ensures DecodeToolCalls(vs).Ok? ==>
              && |DecodeToolCalls(vs).value| == |vs|
              && forall i :: 0 <= i < |vs| ==> Ok(DecodeToolCalls(vs).value[i]) == DecodeToolCall(vs[i])
  {
    if vs != [] {
      ToolCallsDecode(vs[1..]);
      assert forall i :: 0 <= i < |vs[1..]| ==> vs[1..][i] == vs[i + 1];
    }
  }

  lemma {:induction false} ChoicesDecode(vs: seq<Json>)
    ensures DecodeChoices(vs).Ok? <==> forall i :: 0 <= i < |vs| ==> DecodeChoice(vs[i]).Ok?
    ensures DecodeChoices(vs).Ok? ==>
              && |DecodeChoices(vs).value| == |vs|
              && forall i :: 0 <= i < |vs| ==> Ok(DecodeChoices(vs).value[i]) == DecodeChoice(vs[i])
  {
    if vs != [] {
      ChoicesDecode(vs[1..]);
      assert forall i :: 0 <= i < |vs[1..]| ==> vs[1..][i] == vs[i + 1];
    }
  }

  /** The tool calls of a message, if they are an array. */
  function CallsIn(message: Json): seq<Json> {
    AsArr(Get(message, "tool_calls")).GetOr([])
  }

  lemma {:induction false} ChoiceDecodes(v: Json)
    ensures var message := Get(v, "message").GetOr(Null);
            && (DecodeChoice(v).Ok? <==>
                  && message.Obj?
                  && (!Missing(v, "finish_reason") ==> Get(v, "finish_reason").value.Str?)
                  && (!Missing(message, "tool_calls") ==> Get(message, "tool_calls").value.Arr?)
                  && forall i :: 0 <= i < |CallsIn(message)| ==> DecodeToolCall(CallsIn(message)[i]).Ok?)
            && (DecodeChoice(v).Ok? ==>
                  && DecodeChoice(v).value.content
                     == (if Missing(message, "content") then None else Get(message, "content"))
                  && DecodeChoice(v).value.finishReason == GetStr(v, "finish_reason")
                  && Ok(DecodeChoice(v).value.toolCalls) == DecodeToolCalls(CallsIn(message)))
  {
    ToolCallsDecode(CallsIn(Get(v, "message").GetOr(Null)));
  }

  /** A completion decodes exactly when it has a model and what else it has is of its type. */
  lemma {:induction false} DecodesExactly(raw: Json)
    ensures DecodeResponse(raw).Ok? <==>
            && GetStr(raw, "model").Some?
            && (Get(raw, "choices").Some? ==> Get(raw, "choices").value.Arr?)
            && (forall i :: 0 <= i < |AsArr(Get(raw, "choices")).GetOr([])| ==>
                  DecodeChoice(AsArr(Get(raw, "choices")).GetOr([])[i]).Ok?)
            && (Get(raw, "usage").Some? ==> DecodeUsage(Get(raw, "usage").value).Ok?)
  {
    ChoicesDecode(AsArr(Get(raw, "choices")).GetOr([]));
  }

  /** The cached part of the prompt is taken out of the fresh input; nothing is ever reported as cache creation. */
  lemma {:induction false} UsageIsRead(env: Env, raw: Json)
    requires ToCanonicalResponse(env, raw).Ok?
    ensures var u, usage := Get(raw, "usage").GetOr(Null), ToCanonicalResponse(env, raw).value.0.usage;
            var prompt := AsU64(Get(u, "prompt_tokens")).GetOr(0);
            var cached := AsU64(Pointer(u, "prompt_tokens_details", "cached_tokens")).GetOr(0);
            && usage.input == (if cached <= prompt then prompt - cached else 0)
            && usage.cacheCreation == 0
            && usage.cacheRead == cached
            && usage.output == AsU64(Get(u, "completion_tokens")).GetOr(0)
  {
    if Get(raw, "usage").Some? {
      UsageDecodes(Get(raw, "usage").value);
    }
  }

  /** Only the first choice counts. */
  function FirstIn(raw: Json): Json {
    var choices := AsArr(Get(raw, "choices")).GetOr([]);
    if choices == [] then Null else choices[0]
  }

  function MessageIn(raw: Json): Json {
    Get(FirstIn(raw), "message").GetOr(Null)
  }

  lemma {:induction false} FirstChoiceIsRead(raw: Json)
    requires DecodeResponse(raw).Ok?
    ensures var choice := FirstChoiceOf(DecodeResponse(raw).value);
            && choice.content == (if Missing(MessageIn(raw), "content") then None else Get(MessageIn(raw), "content"))
            && choice.finishReason == GetStr(FirstIn(raw), "finish_reason")
            && Ok(choice.toolCalls) == DecodeToolCalls(CallsIn(MessageIn(raw)))
  {
    var choices := AsArr(Get(raw, "choices")).GetOr([]);
    ChoicesDecode(choices);
    if choices != [] {
      ChoiceDecodes(choices[0]);
    }
  }

  lemma {:induction false} WholeIsRead(env: Env, raw: Json)
    requires ToCanonicalResponse(env, raw).Ok?
    ensures var (response, meta, id) := ToCanonicalResponse(env, raw).value;
            && Some(response.model) == GetStr(raw, "model")
            && response.stopReason == meta.stopReason == GetStr(FirstIn(raw), "finish_reason").GetOr("")
            && meta.serviceTier == GetStr(raw, "service_tier")
            && meta.inferenceGeo == GetStr(raw, "inference_geo")
            && id == GetStr(raw, "id").GetOr("")
  {
    FirstChoiceIsRead(raw);
  }

  /** The content's blocks come first, then one for each tool call, in order. */
  lemma {:induction false} ContentIsRead(env: Env, raw: Json)
    requires ToCanonicalResponse(env, raw).Ok?
    ensures var content := StringifyContent(env, Get(MessageIn(raw), "content").GetOr(Null));
            var calls := CallsIn(MessageIn(raw));
            var blocks := ToCanonicalResponse(env, raw).value.0.content;
            && |blocks| == |content| + |calls|
            && (forall i :: 0 <= i < |content| ==> blocks[i] == content[i])
            && (forall i :: 0 <= i < |calls| ==>
                  DecodeToolCall(calls[i]).Ok?
                  && blocks[|content| + i] == ToolCallToBlock(env, DecodeToolCall(calls[i]).value))
  {
    FirstChoiceIsRead(raw);
    ToolCallsDecode(CallsIn(MessageIn(raw)));
    hide DecodeResponse, DecodeToolCall, DecodeToolCalls, ToolCallToBlock, MessageIn, CallsIn;
  }

  /** Content, by its type. */
  lemma {:induction false} ContentBlocksAre(env: Env, content: Json)
    ensures content.Str? ==> StringifyContent(env, content) == [TextBlock(content.s)]
    ensures content.Null? ==> StringifyContent(env, content) == []
    ensures content.Arr? ==>
              && |StringifyContent(env, content)| == |content.items|
              && forall i :: 0 <= i < |content.items| ==>
                   StringifyContent(env, content)[i]
                   == if GetStr(content.items[i], "type") == Some("text")
                      then TextBlock(GetStr(content.items[i], "text").GetOr(""))
                      else Opaque(GetStr(content.items[i], "type").GetOr("unknown"), env.digest(content.items[i]))
    ensures !content.Str? && !content.Null? && !content.Arr? ==>
              StringifyContent(env, content) == [TextBlock(env.render(content))]
  {}

  // --- Tool calls: their arguments are parsed -----------------------------------------------

  /** Arguments that parse are their value, others stay a string, and blank ones are the empty object. */
  predicate InputIs(env: Env, arguments: string, input: Json) {
    && (Trim(arguments) != "" && env.parse(arguments).Some? ==> Some(input) == env.parse(arguments))
    && (Trim(arguments) != "" && env.parse(arguments).None? ==> input == Str(arguments))
    && (Trim(arguments) == "" ==> input == Obj(map[]))
  }

  lemma {:induction false} WholeCallIsRead(env: Env, call: WireToolCall)
    ensures ToolCallToBlock(env, call).ToolUse?
    ensures ToolCallToBlock(env, call).id == call.id && ToolCallToBlock(env, call).name == call.name
    ensures InputIs(env, call.arguments, ToolCallToBlock(env, call).input)
  {}

  lemma {:induction false} StreamedCallIsRead(env: Env, history: seq<Json>)
    requires history != []
    ensures var block := CallToBlock(env, RunCall(history).GetOr(NEW_CALL));
            && block.ToolUse? && block.id == LastReport(history, IdOf).GetOr("")
            && block.name == Fragments(history, "name")
            && InputIs(env, Fragments(history, "arguments"), block.input)
  {
    RunCallCollects(history);
  }

  /** The block is that of the JSON of a call. */
  predicate BlockIsOf(env: Env, block: Block, call: Json) {
    && block.ToolUse? && Some(block.id) == GetStr(call, "id")
    && Some(block.name) == AsStr(Pointer(call, "function", "name"))
    && InputIs(env, AsStr(Pointer(call, "function", "arguments")).GetOr(""), block.input)
  }

  /** The last blocks of a whole completion are those of its tool calls. */
  lemma {:induction false} ResponseCallIsRead(env: Env, raw: Json, blocks: seq<Block>, calls: seq<Json>, i: nat)
    requires ToCanonicalResponse(env, raw).Ok? && blocks == ToCanonicalResponse(env, raw).value.0.content
    requires calls == CallsIn(MessageIn(raw)) && i < |calls|
    ensures |blocks| >= |calls| && BlockIsOf(env, blocks[|blocks| - |calls| + i], calls[i])
  {
    hide ToCanonicalResponse, DecodeToolCall, ToolCallToBlock, CallsIn, MessageIn, InputIs;
    ContentIsRead(env, raw);
    ToolCallDecodes(calls[i]);
    WholeCallIsRead(env, DecodeToolCall(calls[i]).value);
  }

  // --- Chunks, one by one ------------------------------------------------------------------

  /** The top level of a chunk; a usage report that does not decode says nothing. */
  lemma {:induction false} TopLevelIsApplied(a: Acc, v: Json)
    ensures var r := ApplyChunk(a, v);
            && r.model == Later(a.model, GetStr(v, "model")) && r.id == Later(a.id, GetStr(v, "id"))
            && r.serviceTier == Later(a.serviceTier, GetStr(v, "service_tier"))
            && r.inferenceGeo == Later(a.inferenceGeo, GetStr(v, "inference_geo"))
            && r.usage == if Get(v, "usage").Some? && DecodeUsage(Get(v, "usage").value).Ok?
                          then DecodeUsage(Get(v, "usage").value).value else a.usage
  {
    hide DecodeUsage;
  }

  /** The first choice of a chunk, and nothing of the others. */
  lemma {:induction false} ChoiceIsApplied(a: Acc, v: Json, choice: Json, others: seq<Json>)
    requires Get(v, "choices") == Some(Arr([choice] + others))
    ensures var r := ApplyChunk(a, v);
            && r.finishReason == Later(a.finishReason, GetStr(choice, "finish_reason"))
            && r.text == a.text + AsStr(Pointer(choice, "delta", "content")).GetOr("")
            && r.calls == ApplyEntries(a.calls, AsArr(Pointer(choice, "delta", "tool_calls")).GetOr([]))
  {
    hide DecodeUsage;
    assert ChoiceOf(v) == Some(choice);
  }

  lemma {:induction false} NoChoiceIsApplied(a: Acc, v: Json)
    requires AsArr(Get(v, "choices")).GetOr([]) == []
    ensures var r := ApplyChunk(a, v); r.finishReason == a.finishReason && r.text == a.text && r.calls == a.calls
  {
    hide DecodeUsage;
    assert a.text + "" == a.text;
  }

  /** An entry extends the call at its index, 0 if it has none, and no other. */
  lemma {:induction false} EntryIsApplied(calls: Calls, e: Json, k: nat)
    requires Ordered(calls)
    ensures var i := AsU64(Get(e, "index")).GetOr(0);
            var before := CallAt(calls, i).GetOr(AccToolCall("", "", ""));
            CallAt(ApplyEntry(calls, e), k)
            == if k != i then CallAt(calls, k)
               else Some(AccToolCall(
                           GetStr(e, "id").GetOr(before.id),
                           before.name + AsStr(Pointer(e, "function", "name")).GetOr(""),
                           before.arguments + AsStr(Pointer(e, "function", "arguments")).GetOr("")))
  {
    var i := IndexOf(e);
    PutAt(calls, i, ExtendCall(CallAt(calls, i).GetOr(NEW_CALL), e), k);
  }

  // --- Finished streams ------------------------------------------------------------------------

  /** Of each field, what the stream reported last. */
  lemma {:induction false} FinishIsRead(env: Env, chunks: seq<Json>, fallback: string)
    ensures var (response, meta, id) := Finish(env, Run(chunks), fallback);
            var u := LastReport(chunks, UsageOf).GetOr(WireUsage(0, 0, None));
            && response.model == LastReport(chunks, Field("model")).GetOr(fallback)
            && response.stopReason == meta.stopReason == LastReport(chunks, FinishOf).GetOr("")
            && meta.serviceTier == LastReport(chunks, Field("service_tier"))
            && meta.inferenceGeo == LastReport(chunks, Field("inference_geo"))
            && id == LastReport(chunks, Field("id")).GetOr("")
            && response.usage.input == (if u.cached.GetOr(0) <= u.prompt then u.prompt - u.cached.GetOr(0) else 0)
            && response.usage.cacheCreation == 0 && response.usage.cacheRead == u.cached.GetOr(0)
            && response.usage.output == u.completion
  {
    RunFields(chunks);
    hide LastReport, Run;
  }

  /** Text, if there is any, and then the calls in the order of their indexes. */
  lemma {:induction false} FinishedBlocks(env: Env, chunks: seq<Json>, indexes: seq<nat>, fallback: string)
    requires forall i, j :: 0 <= i < j < |indexes| ==> indexes[i] < indexes[j]
    requires forall index: nat :: index in indexes <==> Filter(AllEntries(chunks), At(index)) != []
    ensures var content, text := Finish(env, Run(chunks), fallback).0.content, TotalText(chunks);
            var t := if text == "" then 0 else 1;
            && |content| == t + |indexes|
            && (text != "" ==> content[0] == TextBlock(text))
            && forall k :: 0 <= k < |indexes| ==>
                 content[t + k]
                 == CallToBlock(env, RunCall(Filter(AllEntries(chunks), At(indexes[k]))).GetOr(NEW_CALL))
  {
    var entries := AllEntries(chunks);
    var got := RunEntries(entries);
    var want := seq(|indexes|, k requires 0 <= k < |indexes| =>
      RunCall(Filter(entries, At(indexes[k]))).GetOr(NEW_CALL));
    RunFields(chunks);
    RunCalls(chunks);
    CallsAreIndependent(entries, 0);
    forall k | 0 <= k < |indexes| ensures CallAt(got, indexes[k]) == Some(want[k]) {
      CallsAreIndependent(entries, indexes[k]);
      assert indexes[k] in indexes;
    }
    forall index: nat | CallAt(got, index).Some? ensures index in indexes {
      CallsAreIndependent(entries, index);
    }
    OrderedByLookup(got, indexes, want);
  }
}
