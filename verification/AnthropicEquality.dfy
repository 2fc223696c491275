/**
  The Anthropic accumulator ends where the non-streaming parser ends, for any
  split of the content into deltas and any interleaving across block indexes.
*/
module AnthropicEquality {
  import opened Prelude
  import opened TextOps
  import opened Json
  import opened Canonical
  import opened Anthropic

  // --- Message-level fields: the last report wins -------------------------------

  function TypeIs(v: Json, kind: string): bool {
    GetStr(v, "type") == Some(kind)
  }

  function MessageField(key: string): Json -> Option<string> {
    v => if TypeIs(v, "message_start") then AsStr(Pointer(v, "message", key)) else None
  }

  function StopReport(): Json -> Option<string> {
    v => if TypeIs(v, "message_delta") then AsStr(Pointer(v, "delta", "stop_reason")) else None
  }

  function UsageReport(key: string): Json -> Option<U64> {
    v =>
      var usage := if TypeIs(v, "message_start") then Pointer(v, "message", "usage")
                   else if TypeIs(v, "message_delta") then Get(v, "usage")
                   else None;
      if usage.Some? then AsU64(Get(usage.value, key)) else None
  }

  function UsageReported(events: seq<Json>): WireUsage {
    WireUsage(
      LastReport(events, UsageReport("input_tokens")).GetOr(0),
      LastReport(events, UsageReport("output_tokens")).GetOr(0),
      LastReport(events, UsageReport("cache_creation_input_tokens")).GetOr(0),
      LastReport(events, UsageReport("cache_read_input_tokens")).GetOr(0))
  }

  lemma StepUsage(a: Acc, v: Json)
    ensures var u := ApplyEvent(a, v).usage;
            && u.input == UsageReport("input_tokens")(v).GetOr(a.usage.input)
            && u.output == UsageReport("output_tokens")(v).GetOr(a.usage.output)
            && u.cacheCreation == UsageReport("cache_creation_input_tokens")(v).GetOr(a.usage.cacheCreation)
            && u.cacheRead == UsageReport("cache_read_input_tokens")(v).GetOr(a.usage.cacheRead)
  {}

  /** Each counter is the last one reported for it, by either kind of event, independently of the others. */
  lemma {:induction false} RunUsage(events: seq<Json>)
    ensures Run(events).usage == UsageReported(events)
  {
    if events != [] {
      RunUsage(events[..|events| - 1]);
      StepUsage(Run(events[..|events| - 1]), events[|events| - 1]);
    }
  }

  lemma StepFields(a: Acc, v: Json)
    ensures var r := ApplyEvent(a, v);
            && r.model == Later(a.model, MessageField("model")(v))
            && r.id == Later(a.id, MessageField("id")(v))
            && r.serviceTier == Later(a.serviceTier, MessageField("service_tier")(v))
            && r.inferenceGeo == Later(a.inferenceGeo, MessageField("inference_geo")(v))
            && r.stopReason == Later(a.stopReason, StopReport()(v))
  {}

  lemma {:induction false} RunFields(events: seq<Json>)
    ensures Run(events).model == LastReport(events, MessageField("model"))
    ensures Run(events).id == LastReport(events, MessageField("id"))
    ensures Run(events).serviceTier == LastReport(events, MessageField("service_tier"))
    ensures Run(events).inferenceGeo == LastReport(events, MessageField("inference_geo"))
    ensures Run(events).stopReason == LastReport(events, StopReport())
  {
    if events != [] {
      RunFields(events[..|events| - 1]);
      StepFields(Run(events[..|events| - 1]), events[|events| - 1]);
    }
  }

  // --- Blocks: only events of the same index matter -------------------------------

  function Concerns(i: nat): Json -> bool {
    v => (TypeIs(v, "content_block_start") || TypeIs(v, "content_block_delta")) && IndexOf(v) == i
  }

  function StepBlock(b: Option<AccBlock>, v: Json): Option<AccBlock> {
    if TypeIs(v, "content_block_start") then Some(FromStart(Get(v, "content_block").GetOr(Null)))
    else if b.Some? then Some(ApplyDelta(b.value, Get(v, "delta").GetOr(Null)))
    else None
  }

  /** One block built from its own events alone. */
  function RunBlock(history: seq<Json>): Option<AccBlock> {
    if history == [] then None else StepBlock(RunBlock(history[..|history| - 1]), history[|history| - 1])
  }

  function BlockAt(blocks: seq<Option<AccBlock>>, i: nat): Option<AccBlock> {
    if i < |blocks| then blocks[i] else None
  }

  lemma StepAt(a: Acc, v: Json, i: nat)
    ensures BlockAt(ApplyEvent(a, v).blocks, i)
         == if Concerns(i)(v) then StepBlock(BlockAt(a.blocks, i), v) else BlockAt(a.blocks, i)
  {}

  lemma RunBlockSnoc(history: seq<Json>, v: Json)
    ensures RunBlock(history + [v]) == StepBlock(RunBlock(history), v)
  {
    assert (history + [v])[..|history|] == history;
  }

  /** However the events of different blocks interleave, each block is built from its own. */
  lemma {:induction false} BlocksAreIndependent(events: seq<Json>, i: nat)
    ensures BlockAt(Run(events).blocks, i) == RunBlock(Filter(events, Concerns(i)))
  {
    if events != [] {
      var before, last := events[..|events| - 1], events[|events| - 1];
      BlocksAreIndependent(before, i);
      StepAt(Run(before), last, i);
      var kept := Filter(before, Concerns(i));
      if Concerns(i)(last) {
        RunBlockSnoc(kept, last);
      } else {
        assert kept + [] == kept;
      }
    }
  }

  /** Empty slots do not show, so a block list is what its occupied slots are. */
  lemma {:induction false} FlattenFirst(blocks: seq<Option<AccBlock>>, n: nat)
    requires forall i :: 0 <= i < n ==> BlockAt(blocks, i).Some?
    requires forall i: nat :: n <= i ==> BlockAt(blocks, i).None?
    ensures |Flatten(blocks)| == n
    ensures forall i :: 0 <= i < n ==> Some(Flatten(blocks)[i]) == BlockAt(blocks, i)
    decreases |blocks|
  {
    if blocks == [] {
      assert BlockAt(blocks, 0).None?;
    } else {
      var rest := blocks[1..];
      forall i: nat ensures BlockAt(rest, i) == BlockAt(blocks, i + 1) {}
      assert BlockAt(blocks, 0).Some? <==> n > 0;
      FlattenFirst(rest, if n == 0 then 0 else n - 1);
      assert Flatten(blocks) == (if n == 0 then [] else [blocks[0].value]) + Flatten(rest);
    }
  }

  lemma {:induction false} FlattenByPosition(a: seq<Option<AccBlock>>, b: seq<Option<AccBlock>>)
    requires forall i: nat :: BlockAt(a, i) == BlockAt(b, i)
    ensures Flatten(a) == Flatten(b)
    decreases |a| + |b|
  {
    if a != [] || b != [] {
      assert BlockAt(a, 0) == BlockAt(b, 0);
      var a', b' := if a == [] then [] else a[1..], if b == [] then [] else b[1..];
      forall i: nat ensures BlockAt(a', i) == BlockAt(b', i) {
        assert BlockAt(a, i + 1) == BlockAt(b, i + 1);
      }
      FlattenByPosition(a', b');
    }
  }

  function MessageLevel(): Json -> bool {
    v => TypeIs(v, "message_start") || TypeIs(v, "message_delta")
  }

  /** Two streams with the same message-level events agree on every message-level report. */
  lemma SameReports<T>(a: seq<Json>, b: seq<Json>, says: Json -> Option<T>)
    requires forall v :: says(v).Some? ==> MessageLevel()(v)
    requires Filter(a, MessageLevel()) == Filter(b, MessageLevel())
    ensures LastReport(a, says) == LastReport(b, says)
  {
    LastReportOfFiltered(a, says, MessageLevel());
    LastReportOfFiltered(b, says, MessageLevel());
  }

  lemma SameUsage(a: seq<Json>, b: seq<Json>)
    requires Filter(a, MessageLevel()) == Filter(b, MessageLevel())
    ensures Run(a).usage == Run(b).usage
  {
    RunUsage(a);
    RunUsage(b);
    SameReports(a, b, UsageReport("input_tokens"));
    SameReports(a, b, UsageReport("output_tokens"));
    SameReports(a, b, UsageReport("cache_creation_input_tokens"));
    SameReports(a, b, UsageReport("cache_read_input_tokens"));
  }

  lemma SameFields(a: seq<Json>, b: seq<Json>)
    requires Filter(a, MessageLevel()) == Filter(b, MessageLevel())
    ensures Run(a).(blocks := [], usage := NO_USAGE) == Run(b).(blocks := [], usage := NO_USAGE)
  {
    RunFields(a);
    RunFields(b);
    SameReports(a, b, MessageField("model"));
    SameReports(a, b, MessageField("id"));
    SameReports(a, b, MessageField("service_tier"));
    SameReports(a, b, MessageField("inference_geo"));
    SameReports(a, b, StopReport());
  }

  /** Two streams that agree on each block's events and on the message-level events finish alike. */
  lemma InterleavingDoesNotMatter(env: Env, a: seq<Json>, b: seq<Json>, fallback: string)
    requires forall i: nat :: Filter(a, Concerns(i)) == Filter(b, Concerns(i))
    requires Filter(a, MessageLevel()) == Filter(b, MessageLevel())
    ensures Finish(env, Run(a), fallback) == Finish(env, Run(b), fallback)
  {
    forall i: nat ensures BlockAt(Run(a).blocks, i) == BlockAt(Run(b).blocks, i) {
      BlocksAreIndependent(a, i);
      BlocksAreIndependent(b, i);
    }
    FlattenByPosition(Run(a).blocks, Run(b).blocks);
    SameUsage(a, b);
    SameFields(a, b);
  }

  // --- One block streamed in pieces -------------------------------------------------

  /** The text a delta of the given kind adds. */
  function Fragment(delta: Json, kind: string, key: string): string {
    if TypeIs(delta, kind) then GetStr(delta, key).GetOr("") else ""
  }

  function DeltaOf(v: Json): Json {
    Get(v, "delta").GetOr(Null)
  }

  function Fragments(deltas: seq<Json>, kind: string, key: string): string {
    if deltas == [] then ""
    else Fragments(deltas[..|deltas| - 1], kind, key) + Fragment(DeltaOf(deltas[|deltas| - 1]), kind, key)
  }

  predicate AllDeltas(deltas: seq<Json>) {
    forall v <- deltas :: TypeIs(v, "content_block_delta")
  }

  /** The block a start event makes, with the fragments of its deltas appended, or ignored if it is unmodelled. */
  function Accumulated(b: AccBlock, deltas: seq<Json>): AccBlock {
    match b
    case AccText(text) => AccText(text + Fragments(deltas, "text_delta", "text"))
    case AccToolUse(id, name, json) =>
      AccToolUse(id, name, json + Fragments(deltas, "input_json_delta", "partial_json"))
    case AccOpaque(_, _) => b
  }

  lemma AppendFragment(s: string, deltas: seq<Json>, v: Json, kind: string, key: string)
    ensures s + Fragments(deltas + [v], kind, key) == s + Fragments(deltas, kind, key) + Fragment(DeltaOf(v), kind, key)
  {
    assert (deltas + [v])[..|deltas|] == deltas;
    Associative(s, Fragments(deltas, kind, key), Fragment(DeltaOf(v), kind, key));
  }

  lemma AccumulateOne(b: AccBlock, deltas: seq<Json>, v: Json)
    ensures Accumulated(b, deltas + [v]) == ApplyDelta(Accumulated(b, deltas), DeltaOf(v))
  {
    match b
    case AccText(text) => AppendFragment(text, deltas, v, "text_delta", "text");
    case AccToolUse(_, _, json) => AppendFragment(json, deltas, v, "input_json_delta", "partial_json");
    case AccOpaque(_, _) =>
  }

  lemma {:induction false} RunStartAndDeltas(start: Json, deltas: seq<Json>)
    requires TypeIs(start, "content_block_start") && AllDeltas(deltas)
    ensures RunBlock([start] + deltas)
         == Some(Accumulated(FromStart(Get(start, "content_block").GetOr(Null)), deltas))
  {
    var b := FromStart(Get(start, "content_block").GetOr(Null));
    if deltas == [] {
      assert [start] + deltas == [] + [start];
      RunBlockSnoc([], start);
      assert b.AccText? ==> b.text + "" == b.text;
      assert b.AccToolUse? ==> b.partialJson + "" == b.partialJson;
    } else {
      var before, last := deltas[..|deltas| - 1], deltas[|deltas| - 1];
      RunStartAndDeltas(start, before);
      assert deltas == before + [last];
      assert [start] + deltas == ([start] + before) + [last];
      RunBlockSnoc([start] + before, last);
      AccumulateOne(b, before, last);
      assert TypeIs(last, "content_block_delta");
      assert "content_block_delta"[14] != "content_block_start"[14];
    }
  }

  /**
    `history` streams the block `b` of a whole message: text and tool_use blocks
    in any fragments, other blocks complete in their start event; a tool_result
    block cannot be streamed.
  */
  ghost predicate StreamsBlock(env: Env, history: seq<Json>, b: Json) {
    && history != [] && TypeIs(history[0], "content_block_start") && AllDeltas(history[1..])
    && var start := Get(history[0], "content_block").GetOr(Null);
    && GetStr(start, "type") == GetStr(b, "type")
    && if TypeIs(b, "text") then
         GetStr(start, "text").GetOr("") + Fragments(history[1..], "text_delta", "text") == GetStr(b, "text").GetOr("")
       else if TypeIs(b, "tool_use") then
         && GetStr(start, "id").GetOr("") == GetStr(b, "id").GetOr("")
         && GetStr(start, "name").GetOr("") == GetStr(b, "name").GetOr("")
         && SpellsInput(env, Fragments(history[1..], "input_json_delta", "partial_json"), b)
       else
         !TypeIs(b, "tool_result") && start == b
  }

  /** `json` is the printed input of a tool_use block; nothing at all stands for the empty object. */
  ghost predicate SpellsInput(env: Env, json: string, b: Json) {
    if Trim(json) == "" then Get(b, "input") == Some(EmptyObject())
    else env.parse(json).Some? && Get(b, "input") == env.parse(json)
  }

  lemma BlockStreams(env: Env, history: seq<Json>, b: Json)
    requires StreamsBlock(env, history, b)
    ensures RunBlock(history).Some?
    ensures IntoCanonical(env, RunBlock(history).value) == BlockToCanonical(env, b)
  {
    assert history == [history[0]] + history[1..];
    RunStartAndDeltas(history[0], history[1..]);
    var json := Fragments(history[1..], "input_json_delta", "partial_json");
    assert "" + json == json;
  }

  /** A block that is not a text or tool_use block keeps its start event's JSON, whatever deltas follow. */
  lemma OpaqueDeltasAreDropped(env: Env, start: Json, deltas: seq<Json>, whole: Json)
    requires TypeIs(start, "content_block_start") && AllDeltas(deltas)
    requires var sb := Get(start, "content_block").GetOr(Null);
             GetStr(sb, "type") == GetStr(whole, "type") && !TypeIs(sb, "text") && !TypeIs(sb, "tool_use")
    ensures var sb := Get(start, "content_block").GetOr(Null); var b := RunBlock([start] + deltas);
            && b.Some?
            && (IntoCanonical(env, b.value) == BlockToCanonical(env, whole) <==>
                 !TypeIs(whole, "tool_result") && env.digest(sb) == env.digest(whole))
  {
    RunStartAndDeltas(start, deltas);
  }

  /** A tool_result block, which the accumulator can only keep as unmodelled. */
  lemma ToolResultDiffers(env: Env)
    ensures var b := Obj(map["type" := Str("tool_result")]);
            && IntoCanonical(env, FromStart(b)) == Opaque("tool_result", env.digest(b))
            && BlockToCanonical(env, b) == ToolResult("", "", false)
  {
    var b := Obj(map["type" := Str("tool_result")]);
    assert GetStr(b, "type") == Some("tool_result");
    assert "tool_result"[5] != "text_"[4];
    assert |"tool_result"| != |"text"| && |"tool_result"| != |"tool_use"|;
    assert "tool_use_id" != "type" && "content" != "type" && "is_error" != "type" by {
      assert |"type"| == 4;
    }
  }

  // --- The whole message --------------------------------------------------------------

  /** The events stream the response `raw`. */
  ghost predicate Describes(env: Env, events: seq<Json>, raw: Json) {
    && DecodeResponse(raw).Ok?
    && var w := DecodeResponse(raw).value;
    && LastReport(events, MessageField("model")) == Some(w.model)
    && LastReport(events, MessageField("id")).GetOr("") == GetStr(raw, "id").GetOr("")
    && LastReport(events, MessageField("service_tier")) == GetStr(raw, "service_tier")
    && LastReport(events, MessageField("inference_geo")) == GetStr(raw, "inference_geo")
    && LastReport(events, StopReport()).GetOr("") == w.stopReason.GetOr("")
    && UsageReported(events) == w.usage
    && (forall i :: 0 <= i < |w.content| ==> StreamsBlock(env, Filter(events, Concerns(i)), w.content[i]))
    && (forall i: nat :: |w.content| <= i ==> RunBlock(Filter(events, Concerns(i))).None?)
  }

  lemma ContentStreams(env: Env, events: seq<Json>, content: seq<Json>)
    requires forall i :: 0 <= i < |content| ==> StreamsBlock(env, Filter(events, Concerns(i)), content[i])
    requires forall i: nat :: |content| <= i ==> RunBlock(Filter(events, Concerns(i))).None?
    ensures AllIntoCanonical(env, Flatten(Run(events).blocks)) == BlocksToCanonical(env, content)
  {
    var blocks := Run(events).blocks;
    forall i: nat ensures BlockAt(blocks, i) == RunBlock(Filter(events, Concerns(i))) {
      BlocksAreIndependent(events, i);
    }
    forall i | 0 <= i < |content|
      ensures BlockAt(blocks, i).Some?
      ensures IntoCanonical(env, BlockAt(blocks, i).value) == BlockToCanonical(env, content[i])
    {
      BlockStreams(env, Filter(events, Concerns(i)), content[i]);
    }
    FlattenFirst(blocks, |content|);
    var got, want := AllIntoCanonical(env, Flatten(blocks)), BlocksToCanonical(env, content);
    forall i | 0 <= i < |content| ensures got[i] == want[i] {
      assert Some(Flatten(blocks)[i]) == BlockAt(blocks, i);
    }
  }

  /** The accumulated stream and the whole response give the same canonical response, metadata and request id. */
  lemma StreamEqualsWhole(env: Env, events: seq<Json>, raw: Json, fallback: string)
    requires Describes(env, events, raw)
    ensures ToCanonicalResponse(env, raw) == Ok(Finish(env, Run(events), fallback))
  {
    ContentStreams(env, events, DecodeResponse(raw).value.content);
    RunFields(events);
    RunUsage(events);
  }
}
