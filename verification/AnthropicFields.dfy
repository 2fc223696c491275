/**
  What the canonical form of an Anthropic response says, field by field, in
  terms of the JSON that came in: of a whole response, of a stream's events one
  by one, and of a finished stream.
*/
module AnthropicFields {
  import opened Prelude
  import opened TextOps
  import opened Json
  import opened Canonical
  import opened Anthropic
  import opened AnthropicEquality

  const COUNTERS: set<string> :=
    {"input_tokens", "output_tokens", "cache_creation_input_tokens", "cache_read_input_tokens"}

  // --- Whole responses ---------------------------------------------------------------

  /** A response decodes exactly when it has a model and what else it has is of its type. */
  lemma {:induction false} DecodesExactly(raw: Json)
    ensures DecodeResponse(raw).Ok? <==>
            && GetStr(raw, "model").Some?
            && (Get(raw, "content").Some? ==> Get(raw, "content").value.Arr?)
            && (Get(raw, "stop_reason").Some? ==>
                  Get(raw, "stop_reason").value.Str? || Get(raw, "stop_reason").value.Null?)
            && (Get(raw, "usage").Some? ==>
                  && Get(raw, "usage").value.Obj?
                  && forall key :: key in COUNTERS && Get(Get(raw, "usage").value, key).Some? ==>
                       Get(Get(raw, "usage").value, key).value.Uint?)
  {
    if Get(raw, "usage").Some? {
      UsageDecodes(Get(raw, "usage").value);
    }
  }

  lemma {:induction false} UsageDecodes(u: Json)
    ensures DecodeUsage(u).Ok? <==>
            u.Obj? && forall key :: key in COUNTERS && Get(u, key).Some? ==> Get(u, key).value.Uint?
    ensures DecodeUsage(u).Ok? ==>
              DecodeUsage(u).value == WireUsage(
                AsU64(Get(u, "input_tokens")).GetOr(0), AsU64(Get(u, "output_tokens")).GetOr(0),
                AsU64(Get(u, "cache_creation_input_tokens")).GetOr(0),
                AsU64(Get(u, "cache_read_input_tokens")).GetOr(0))
  {
    assert "input_tokens" in COUNTERS && "output_tokens" in COUNTERS;
    assert "cache_creation_input_tokens" in COUNTERS && "cache_read_input_tokens" in COUNTERS;
  }

  /** The four counters, kept one to one. */
  lemma {:induction false} UsageIsRead(env: Env, raw: Json)
    requires ToCanonicalResponse(env, raw).Ok?
    ensures var u, usage := Get(raw, "usage").GetOr(Null), ToCanonicalResponse(env, raw).value.0.usage;
            && usage.input == AsU64(Get(u, "input_tokens")).GetOr(0)
            && usage.output == AsU64(Get(u, "output_tokens")).GetOr(0)
            && usage.cacheCreation == AsU64(Get(u, "cache_creation_input_tokens")).GetOr(0)
            && usage.cacheRead == AsU64(Get(u, "cache_read_input_tokens")).GetOr(0)
  {
    if Get(raw, "usage").Some? {
      UsageDecodes(Get(raw, "usage").value);
    }
  }

  lemma {:induction false} WholeIsRead(env: Env, raw: Json)
    requires ToCanonicalResponse(env, raw).Ok?
    ensures var (response, meta, id) := ToCanonicalResponse(env, raw).value;
            && Some(response.model) == GetStr(raw, "model")
            && response.stopReason == meta.stopReason == GetStr(raw, "stop_reason").GetOr("")
            && meta.serviceTier == GetStr(raw, "service_tier")
            && meta.inferenceGeo == GetStr(raw, "inference_geo")
            && id == GetStr(raw, "id").GetOr("")
            && var items := AsArr(Get(raw, "content")).GetOr([]);
               |response.content| == |items|
               && forall i :: 0 <= i < |items| ==> response.content[i] == BlockToCanonical(env, items[i])
  {}

  /** A content block, by its type. */
  lemma {:induction false} BlockIsRead(env: Env, b: Json)
    ensures GetStr(b, "type") == Some("text") ==>
              BlockToCanonical(env, b) == TextBlock(GetStr(b, "text").GetOr(""))
    ensures GetStr(b, "type") == Some("tool_use") ==>
              BlockToCanonical(env, b)
              == ToolUse(GetStr(b, "id").GetOr(""), GetStr(b, "name").GetOr(""), Get(b, "input").GetOr(Null))
    ensures GetStr(b, "type") == Some("tool_result") ==>
              BlockToCanonical(env, b)
              == ToolResult(GetStr(b, "tool_use_id").GetOr(""), StringifyToolResult(env, Get(b, "content")),
                            Get(b, "is_error") == Some(Bool(true)))
    ensures GetStr(b, "type") !in {Some("text"), Some("tool_use"), Some("tool_result")} ==>
              BlockToCanonical(env, b) == Opaque(GetStr(b, "type").GetOr("unknown"), env.digest(b))
  {
    TypesDiffer();
  }

  lemma TypesDiffer()
    ensures "text" != "tool_use" && "text" != "tool_result" && "tool_use" != "tool_result"
  {
    assert |"text"| == 4 && |"tool_use"| == 8 && |"tool_result"| == 11;
  }

  /** Joined parts have the separator between them, and nowhere else. */
  lemma {:induction false} JoinSnoc(parts: seq<string>, last: string, sep: string)
    ensures Join([], sep) == ""
    ensures Join(parts + [last], sep) == if parts == [] then last else Join(parts, sep) + sep + last
  {
    var all := parts + [last];
    if parts == [] {
      assert all == [last];
    } else {
      assert all[1..] == parts[1..] + [last];
      JoinSnoc(parts[1..], last, sep);
      if |parts| > 1 {
        var front := parts[0] + sep;
        assert Join(parts, sep) == front + Join(parts[1..], sep);
        assert front + (Join(parts[1..], sep) + sep + last) == front + Join(parts[1..], sep) + sep + last;
      }
    }
  }

  /** A tool result's content as text: as it is, one line an item, or printed. */
  lemma {:induction false} ToolResultIsText(env: Env, content: Json)
    ensures StringifyToolResult(env, None) == ""
    ensures content.Str? ==> StringifyToolResult(env, Some(content)) == content.s
    ensures content.Arr? ==>
              exists parts: seq<string> ::
                && |parts| == |content.items|
                && (forall i :: 0 <= i < |parts| ==>
                      parts[i] == if GetStr(content.items[i], "text").Some? then GetStr(content.items[i], "text").value
                                  else env.render(content.items[i]))
                && StringifyToolResult(env, Some(content)) == Join(parts, "\n")
    ensures !content.Str? && !content.Arr? ==> StringifyToolResult(env, Some(content)) == env.render(content)
  {
    if content.Arr? {
      var items := content.items;
      var parts := seq(|items|, i requires 0 <= i < |items| => GetStr(items[i], "text").GetOr(env.render(items[i])));
      assert StringifyToolResult(env, Some(content)) == Join(parts, "\n");
    }
  }

  // --- Events, one by one --------------------------------------------------------------

  lemma KeysDiffer()
    ensures |"type"| == 4 && |"message"| == 7 && |"index"| == 5 && |"delta"| == 5 && |"content_block"| == 13
    ensures |"usage"| == 5 && "index"[0] != "delta"[0] && "index"[0] != "usage"[0] && "delta"[0] != "usage"[0]
    ensures |"message_start"| == 13 && |"message_delta"| == 13 && |"content_block_start"| == 19
    ensures |"content_block_delta"| == 19 && "content_block_start"[14] != "content_block_delta"[14]
    ensures "message_start"[8] != "message_delta"[8]
  {}

  lemma {:induction false} MessageStartIsApplied(a: Acc, m: Json)
    ensures var r := ApplyEvent(a, Obj(map["type" := Str("message_start"), "message" := m]));
            && r.model == Later(a.model, GetStr(m, "model")) && r.id == Later(a.id, GetStr(m, "id"))
            && r.serviceTier == Later(a.serviceTier, GetStr(m, "service_tier"))
            && r.inferenceGeo == Later(a.inferenceGeo, GetStr(m, "inference_geo"))
            && r.blocks == a.blocks && r.stopReason == a.stopReason
            && r.usage == Updated(a.usage, Get(m, "usage").GetOr(Null))
  {
    KeysDiffer();
    var v := Obj(map["type" := Str("message_start"), "message" := m]);
    assert Get(v, "message") == Some(m);
  }

  /** Each counter that a report has replaces the one before it. */
  function Updated(u: WireUsage, report: Json): (r: WireUsage)
    ensures r.input == Later(Some(u.input), AsU64(Get(report, "input_tokens"))).value
    ensures r.output == Later(Some(u.output), AsU64(Get(report, "output_tokens"))).value
    ensures r.cacheCreation == Later(Some(u.cacheCreation), AsU64(Get(report, "cache_creation_input_tokens"))).value
    ensures r.cacheRead == Later(Some(u.cacheRead), AsU64(Get(report, "cache_read_input_tokens"))).value
  {
    MergeFrom(u, report)
  }

  lemma {:induction false} MessageDeltaIsApplied(a: Acc, delta: Json, usage: Json)
    ensures var r := ApplyEvent(a, Obj(map["type" := Str("message_delta"), "delta" := delta, "usage" := usage]));
            && r.stopReason == Later(a.stopReason, GetStr(delta, "stop_reason"))
            && r.usage == Updated(a.usage, usage)
            && r == a.(stopReason := r.stopReason, usage := r.usage)
  {
    KeysDiffer();
    var v := Obj(map["type" := Str("message_delta"), "delta" := delta, "usage" := usage]);
    assert Get(v, "delta") == Some(delta) && Get(v, "usage") == Some(usage);
  }

  /** A started block stands at its index, by its type; no other block changes. */
  lemma {:induction false} BlockStartIsApplied(a: Acc, i: U64, b: Json, k: nat)
    ensures var v := Obj(map["type" := Str("content_block_start"), "index" := Uint(i), "content_block" := b]);
            var r := ApplyEvent(a, v);
            && r == a.(blocks := r.blocks)
            && BlockAt(r.blocks, k)
               == if k != i then BlockAt(a.blocks, k)
                  else if GetStr(b, "type") == Some("text") then Some(AccText(GetStr(b, "text").GetOr("")))
                  else if GetStr(b, "type") == Some("tool_use") then
                    Some(AccToolUse(GetStr(b, "id").GetOr(""), GetStr(b, "name").GetOr(""), ""))
                  else Some(AccOpaque(GetStr(b, "type").GetOr("unknown"), b))
  {
    KeysDiffer();
    TypesDiffer();
    var v := Obj(map["type" := Str("content_block_start"), "index" := Uint(i), "content_block" := b]);
    assert Get(v, "content_block") == Some(b) && Get(v, "index") == Some(Uint(i));
  }

  /** A delta extends the started block at its index if it is of that block's kind. */
  lemma {:induction false} BlockDeltaIsApplied(a: Acc, i: U64, delta: Json, k: nat)
    ensures var r := ApplyEvent(a, Obj(map["type" := Str("content_block_delta"), "index" := Uint(i), "delta" := delta]));
            var before, after := BlockAt(a.blocks, k), BlockAt(r.blocks, k);
            && r == a.(blocks := r.blocks)
            && (k != i || before.None? || before.value.AccOpaque? ==> after == before)
            && (k == i && before.Some? && before.value.AccText? ==>
                  after == Some(AccText(
                             before.value.text
                             + if GetStr(delta, "type") == Some("text_delta")
                               then GetStr(delta, "text").GetOr("") else "")))
            && (k == i && before.Some? && before.value.AccToolUse? ==>
                  after == Some(AccToolUse(
                             before.value.id, before.value.name, before.value.partialJson
                             + if GetStr(delta, "type") == Some("input_json_delta")
                               then GetStr(delta, "partial_json").GetOr("") else "")))
  {
    KeysDiffer();
    var v := Obj(map["type" := Str("content_block_delta"), "index" := Uint(i), "delta" := delta]);
    assert Get(v, "delta") == Some(delta) && Get(v, "index") == Some(Uint(i));
    var before := BlockAt(a.blocks, k);
    if before.Some? && before.value.AccText? {
      assert before.value.text + "" == before.value.text;
    }
    if before.Some? && before.value.AccToolUse? {
      assert before.value.partialJson + "" == before.value.partialJson;
    }
  }

  /** An event of another type changes nothing; one without an index is for block 0. */
  lemma {:induction false} OtherEventIsSkipped(a: Acc, v: Json)
    ensures GetStr(v, "type") !in {Some("message_start"), Some("message_delta"), Some("content_block_start"),
                                   Some("content_block_delta")} ==>
              ApplyEvent(a, v) == a
    ensures Get(v, "index") == None ==> IndexOf(v) == 0
  {}

  // --- Finished streams ------------------------------------------------------------------

  /** Of each field and counter, what the stream reported last. */
  lemma {:induction false} FinishIsRead(env: Env, events: seq<Json>, fallback: string)
    ensures var (response, meta, id) := Finish(env, Run(events), fallback);
            && response.model == LastReport(events, MessageField("model")).GetOr(fallback)
            && response.stopReason == meta.stopReason == LastReport(events, StopReport()).GetOr("")
            && meta.serviceTier == LastReport(events, MessageField("service_tier"))
            && meta.inferenceGeo == LastReport(events, MessageField("inference_geo"))
            && id == LastReport(events, MessageField("id")).GetOr("")
            && response.usage.input == LastReport(events, UsageReport("input_tokens")).GetOr(0)
            && response.usage.output == LastReport(events, UsageReport("output_tokens")).GetOr(0)
            && response.usage.cacheCreation == LastReport(events, UsageReport("cache_creation_input_tokens")).GetOr(0)
            && response.usage.cacheRead == LastReport(events, UsageReport("cache_read_input_tokens")).GetOr(0)
  {
    RunFields(events);
    RunUsage(events);
  }

  /** What a message_start reports, as it is on the wire. */
  lemma {:induction false} StartReports(m: Json, u: Json, key: string)
    ensures MessageField(key)(Obj(map["type" := Str("message_start"), "message" := m])) == GetStr(m, key)
    ensures UsageReport(key)(Obj(map["type" := Str("message_start"), "message" := Obj(map["usage" := u])]))
         == AsU64(Get(u, key))
  {
    KeysDiffer();
    assert Get(Obj(map["type" := Str("message_start"), "message" := m]), "message") == Some(m);
  }

  lemma {:induction false} DeltaShape(delta: Json, u: Json)
    ensures var v := Obj(map["type" := Str("message_delta"), "delta" := delta, "usage" := u]);
            && TypeIs(v, "message_delta") && !TypeIs(v, "message_start")
            && Get(v, "delta") == Some(delta) && Get(v, "usage") == Some(u)
  {
    KeysDiffer();
  }

  /** What a message_delta reports, as it is on the wire. */
  lemma {:induction false} DeltaReports(delta: Json, u: Json, key: string)
    ensures var v := Obj(map["type" := Str("message_delta"), "delta" := delta, "usage" := u]);
            StopReport()(v) == GetStr(delta, "stop_reason") && UsageReport(key)(v) == AsU64(Get(u, key))
  {
    DeltaShape(delta, u);
    hide TypeIs;
  }

  /** The blocks at the indexes that were started, if those are the first ones. */
  lemma {:induction false} FinishedBlocks(env: Env, events: seq<Json>, n: nat, fallback: string)
    requires forall i: nat :: RunBlock(Filter(events, Concerns(i))).Some? <==> i < n
    ensures var content := Finish(env, Run(events), fallback).0.content;
            |content| == n
            && forall i :: 0 <= i < n ==>
                 content[i] == IntoCanonical(env, RunBlock(Filter(events, Concerns(i))).value)
  {
    var blocks := Run(events).blocks;
    forall i: nat ensures BlockAt(blocks, i) == RunBlock(Filter(events, Concerns(i))) {
      BlocksAreIndependent(events, i);
    }
    FlattenFirst(blocks, n);
    forall i | 0 <= i < n
      ensures AllIntoCanonical(env, Flatten(blocks))[i]
           == IntoCanonical(env, RunBlock(Filter(events, Concerns(i))).value)
    {
      assert Some(Flatten(blocks)[i]) == BlockAt(blocks, i);
    }
  }

  /** A streamed block: text and its fragments, a tool call with its parsed input, or the digest of its start. */
  lemma {:induction false} StreamedBlockIsRead(env: Env, start: Json, deltas: seq<Json>)
    requires TypeIs(start, "content_block_start") && AllDeltas(deltas)
    ensures var b, r := Get(start, "content_block").GetOr(Null), RunBlock([start] + deltas);
            var json := Fragments(deltas, "input_json_delta", "partial_json");
            && r.Some?
            && (GetStr(b, "type") == Some("text") ==>
                  IntoCanonical(env, r.value)
                  == TextBlock(GetStr(b, "text").GetOr("") + Fragments(deltas, "text_delta", "text")))
            && (GetStr(b, "type") == Some("tool_use") ==>
                  IntoCanonical(env, r.value)
                  == ToolUse(GetStr(b, "id").GetOr(""), GetStr(b, "name").GetOr(""),
                             if Trim(json) == "" then Obj(map[])
                             else if env.parse(json).Some? then env.parse(json).value
                             else Null))
            && (GetStr(b, "type") !in {Some("text"), Some("tool_use")} ==>
                  IntoCanonical(env, r.value) == Opaque(GetStr(b, "type").GetOr("unknown"), env.digest(b)))
  {
    TypesDiffer();
    RunStartAndDeltas(start, deltas);
    var json := Fragments(deltas, "input_json_delta", "partial_json");
    assert "" + json == json;
  }
}
