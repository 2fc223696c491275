/**
  Every Anthropic message can be streamed: its blocks cut into fragments anywhere
  and their events interleaved in any order are events that describe it.
*/
module AnthropicStreams {
  import opened Prelude
  import opened Json
  import opened Anthropic
  import opened AnthropicEquality
  import opened Weaving

  // --- One block -----------------------------------------------------------------------

  /** Where a block is cut: what its start event has of it, and the fragments of its deltas. */
  datatype Cut = Cut(first: string, pieces: seq<string>)

  /**
    The cut is one of this block: of its text, or of JSON text that spells its
    input.  Any other block is whole in its start event; a tool_result block
    cannot be streamed.
  */
  ghost predicate Cuts(env: Env, b: Json, c: Cut) {
    if TypeIs(b, "text") then c.first + Concat(c.pieces) == GetStr(b, "text").GetOr("")
    else if TypeIs(b, "tool_use") then c.first == "" && SpellsInput(env, Concat(c.pieces), b)
    else !TypeIs(b, "tool_result") && c == Cut("", [])
  }

  /** The block as its start event shows it. */
  function Started(b: Json, c: Cut): Json {
    if TypeIs(b, "text") then Obj(b.fields["text" := Str(c.first)])
    else if TypeIs(b, "tool_use") then Obj(b.fields - {"input"})
    else b
  }

  function StartEvent(i: U64, block: Json): Json {
    Obj(map["type" := Str("content_block_start"), "index" := Uint(i), "content_block" := block])
  }

  function DeltaEvent(i: U64, kind: string, key: string, piece: string): Json {
    Obj(map["type" := Str("content_block_delta"), "index" := Uint(i),
            "delta" := Obj(map["type" := Str(kind), key := Str(piece)])])
  }

  function Deltas(i: U64, kind: string, key: string, pieces: seq<string>): (r: seq<Json>)
    ensures |r| == |pieces|
  {
    seq(|pieces|, k requires 0 <= k < |pieces| => DeltaEvent(i, kind, key, pieces[k]))
  }

  function BlockEvents(i: U64, b: Json, c: Cut): (r: seq<Json>)
    ensures r != []
  {
    [StartEvent(i, Started(b, c))]
    + if TypeIs(b, "text") then Deltas(i, "text_delta", "text", c.pieces)
      else Deltas(i, "input_json_delta", "partial_json", c.pieces)
  }

  lemma KeysDiffer()
    ensures |"type"| == 4 && |"index"| == 5 && |"delta"| == 5 && |"content_block"| == 13 && "index"[0] != "delta"[0]
    ensures |"text"| == 4 && "text"[1] != "type"[1] && |"input"| == 5 && |"partial_json"| == 12
    ensures |"id"| == 2 && |"name"| == 4 && "name"[0] != "type"[0]
    ensures "content_block_start"[14] != "content_block_delta"[14]
    ensures |"content_block_start"| == 19 && |"content_block_delta"| == 19
    ensures |"message_start"| == 13 && |"message_delta"| == 13 && "message_start"[8] != "message_delta"[8]
  {}

  lemma DeltaShape(i: U64, kind: string, key: string, piece: string)
    requires key != "type"
    ensures var v := DeltaEvent(i, kind, key, piece);
            && TypeIs(v, "content_block_delta") && IndexOf(v) == i
            && Fragment(DeltaOf(v), kind, key) == piece
  {
    KeysDiffer();
    var v := DeltaEvent(i, kind, key, piece);
    assert Get(v, "delta") == Some(Obj(map["type" := Str(kind), key := Str(piece)]));
  }

  lemma StartShape(i: U64, block: Json)
    ensures var v := StartEvent(i, block);
            TypeIs(v, "content_block_start") && IndexOf(v) == i && Get(v, "content_block") == Some(block)
  {
    KeysDiffer();
  }

  lemma {:induction false} FragmentsJoin(i: U64, kind: string, key: string, pieces: seq<string>)
    requires key != "type"
    ensures AllDeltas(Deltas(i, kind, key, pieces))
    ensures Fragments(Deltas(i, kind, key, pieces), kind, key) == Concat(pieces)
  {
    if pieces != [] {
      var before, last := pieces[..|pieces| - 1], pieces[|pieces| - 1];
      FragmentsJoin(i, kind, key, before);
      DeltaShape(i, kind, key, last);
      ConcatSnoc(before, last);
      assert pieces == before + [last];
      assert Deltas(i, kind, key, pieces) == Deltas(i, kind, key, before) + [DeltaEvent(i, kind, key, last)];
    }
  }

  /** The start event shows the block's type and, of a tool call, its id and name. */
  lemma StartedShape(b: Json, c: Cut)
    ensures GetStr(Started(b, c), "type") == GetStr(b, "type")
    ensures TypeIs(b, "text") ==> GetStr(Started(b, c), "text") == Some(c.first)
    ensures TypeIs(b, "tool_use") ==>
              GetStr(Started(b, c), "id") == GetStr(b, "id") && GetStr(Started(b, c), "name") == GetStr(b, "name")
  {
    KeysDiffer();
    assert |"tool_use"| == 8;
  }

  /** The events of a cut block stream the block. */
  lemma BlockIsStreamed(env: Env, i: U64, b: Json, c: Cut)
    requires Cuts(env, b, c)
    ensures StreamsBlock(env, BlockEvents(i, b, c), b)
  {
    hide Fragments, Started, Deltas, StartEvent, SpellsInput;
    StartedShape(b, c);
    KeysDiffer();
    StartShape(i, Started(b, c));
    var events := BlockEvents(i, b, c);
    if TypeIs(b, "text") {
      FragmentsJoin(i, "text_delta", "text", c.pieces);
      assert events[1..] == Deltas(i, "text_delta", "text", c.pieces);
    } else {
      FragmentsJoin(i, "input_json_delta", "partial_json", c.pieces);
      assert events[1..] == Deltas(i, "input_json_delta", "partial_json", c.pieces);
      assert !TypeIs(b, "tool_use") && !TypeIs(b, "tool_result") ==> Started(b, c) == b by {
        StartedOther(b, c);
      }
    }
  }

  lemma StartedOther(b: Json, c: Cut)
    ensures !TypeIs(b, "text") && !TypeIs(b, "tool_use") ==> Started(b, c) == b
  {}

  lemma BlockEventsConcern(i: U64, b: Json, c: Cut, j: nat)
    requires j < |BlockEvents(i, b, c)|
    ensures var v := BlockEvents(i, b, c)[j];
            (TypeIs(v, "content_block_start") || TypeIs(v, "content_block_delta")) && IndexOf(v) == i
  {
    KeysDiffer();
    StartShape(i, Started(b, c));
    if j > 0 && j - 1 < |c.pieces| {
      DeltaShape(i, "text_delta", "text", c.pieces[j - 1]);
      DeltaShape(i, "input_json_delta", "partial_json", c.pieces[j - 1]);
    }
  }

  // --- The message ------------------------------------------------------------------------

  /** The first event has the message without its content, the last one its stop reason and usage. */
  function MessageStartEvent(raw: Json): Json
    requires raw.Obj?
  {
    Obj(map["type" := Str("message_start"), "message" := Obj(raw.fields - {"content", "stop_reason"})])
  }

  function Only(raw: Json, key: string): map<string, Json>
    requires raw.Obj?
  {
    if key in raw.fields then map[key := raw.fields[key]] else map[]
  }

  function MessageDeltaEvent(raw: Json): Json
    requires raw.Obj?
  {
    Obj(map["type" := Str("message_delta"), "delta" := Obj(Only(raw, "stop_reason"))] + Only(raw, "usage"))
  }

  function MessageEvents(raw: Json): seq<Json>
    requires raw.Obj?
  {
    [MessageStartEvent(raw), MessageDeltaEvent(raw)]
  }

  /** Pings, block stops and the like. */
  predicate SaysNothing(v: Json) {
    && !TypeIs(v, "message_start") && !TypeIs(v, "message_delta")
    && !TypeIs(v, "content_block_start") && !TypeIs(v, "content_block_delta")
  }

  /** A message that decodes, with cuts of its blocks, whose number is in range, and other events. */
  ghost predicate Cuttable(env: Env, raw: Json, cuts: seq<Cut>, others: seq<Json>) {
    && DecodeResponse(raw).Ok?
    && var content := DecodeResponse(raw).value.content;
    && |cuts| == |content| && |content| <= 0xFFFF_FFFF_FFFF_FFFF
    && (forall i :: 0 <= i < |content| ==> Cuts(env, content[i], cuts[i]))
    && (forall i :: 0 <= i < |others| ==> SaysNothing(others[i]))
  }

  /** One stream a block, one for the message itself and one for the rest. */
  ghost function Streams(env: Env, raw: Json, cuts: seq<Cut>, others: seq<Json>): (r: seq<seq<Json>>)
    requires Cuttable(env, raw, cuts, others)
    ensures |r| == |cuts| + 2 && r[|cuts|] == MessageEvents(raw)
    ensures forall i :: 0 <= i < |cuts| ==> r[i] == BlockEvents(i, DecodeResponse(raw).value.content[i], cuts[i])
  {
    var content := DecodeResponse(raw).value.content;
    seq(|cuts|, i requires 0 <= i < |cuts| => BlockEvents(i, content[i], cuts[i])) + [MessageEvents(raw), others]
  }

  lemma MessageShape(raw: Json)
    requires DecodeResponse(raw).Ok?
    ensures TypeIs(MessageStartEvent(raw), "message_start") && TypeIs(MessageDeltaEvent(raw), "message_delta")
    ensures Get(MessageStartEvent(raw), "message") == Some(Obj(raw.fields - {"content", "stop_reason"}))
    ensures Get(MessageDeltaEvent(raw), "delta") == Some(Obj(Only(raw, "stop_reason")))
    ensures Get(MessageDeltaEvent(raw), "usage") == Get(raw, "usage")
  {
    KeysDiffer();
    assert |"message"| == 7 && |"usage"| == 5 && "usage"[0] != "delta"[0];
  }

  lemma TypesDiffer()
    ensures "message_start" != "message_delta" && "content_block_start" != "content_block_delta"
    ensures "message_start" != "content_block_start" && "message_start" != "content_block_delta"
    ensures "message_delta" != "content_block_start" && "message_delta" != "content_block_delta"
  {
    KeysDiffer();
  }

  /** What each woven event concerns. */
  lemma EventConcerns(env: Env, raw: Json, cuts: seq<Cut>, others: seq<Json>, k: nat, j: nat)
    requires Cuttable(env, raw, cuts, others)
    requires k < |cuts| + 2 && j < |Streams(env, raw, cuts, others)[k]|
    ensures var v := Streams(env, raw, cuts, others)[k][j];
            && (MessageLevel()(v) <==> k == |cuts|)
            && forall i: nat :: Concerns(i)(v) <==> k < |cuts| && k == i
  {
    hide DecodeResponse, BlockEvents, MessageStartEvent, MessageDeltaEvent, IndexOf;
    TypesDiffer();
    MessageShape(raw);
    if k < |cuts| {
      BlockEventsConcern(k, DecodeResponse(raw).value.content[k], cuts[k], j);
    }
  }

  /** The events of each block, and those of the message, are told from all others. */
  lemma EventsToldApart(env: Env, raw: Json, cuts: seq<Cut>, others: seq<Json>, i: nat)
    requires Cuttable(env, raw, cuts, others)
    ensures TellsApart(Streams(env, raw, cuts, others), |cuts|, MessageLevel())
    ensures TellsApart(Streams(env, raw, cuts, others), if i < |cuts| then i else |cuts| + 2, Concerns(i))
  {
    hide MessageLevel, Concerns;
    var streams := Streams(env, raw, cuts, others);
    forall k, j | 0 <= k < |streams| && 0 <= j < |streams[k]|
      ensures MessageLevel()(streams[k][j]) <==> k == |cuts|
      ensures Concerns(i)(streams[k][j]) <==> k == if i < |cuts| then i else |cuts| + 2
    {
      EventConcerns(env, raw, cuts, others, k, j);
    }
  }

  // --- What the message-level events report --------------------------------------------------

  lemma TwoReports<T>(a: Json, b: Json, says: Json -> Option<T>)
    ensures LastReport([a, b], says) == Later(says(a), says(b))
  {
    assert [a, b][..1] == [a] && [a][..0] == [];
    assert LastReport([a], says) == Later(LastReport([], says), says(a));
    assert LastReport([a, b], says) == Later(LastReport([a], says), says(b));
  }

  /** Only the message-level events report on the message, whatever else is woven in. */
  lemma Reported<T>(events: seq<Json>, raw: Json, says: Json -> Option<T>)
    requires DecodeResponse(raw).Ok? && Filter(events, MessageLevel()) == MessageEvents(raw)
    requires forall v :: says(v).Some? ==> MessageLevel()(v)
    ensures LastReport(events, says) == Later(says(MessageStartEvent(raw)), says(MessageDeltaEvent(raw)))
  {
    LastReportOfFiltered(events, says, MessageLevel());
    TwoReports(MessageStartEvent(raw), MessageDeltaEvent(raw), says);
  }

  lemma FieldReported(events: seq<Json>, raw: Json, key: string)
    requires DecodeResponse(raw).Ok? && Filter(events, MessageLevel()) == MessageEvents(raw)
    requires key != "content" && key != "stop_reason"
    ensures LastReport(events, MessageField(key)) == GetStr(raw, key)
  {
    Reported(events, raw, MessageField(key));
    MessageShape(raw);
    TypesDiffer();
    assert Get(Obj(raw.fields - {"content", "stop_reason"}), key) == Get(raw, key);
  }

  lemma StopReported(events: seq<Json>, raw: Json)
    requires DecodeResponse(raw).Ok? && Filter(events, MessageLevel()) == MessageEvents(raw)
    ensures LastReport(events, StopReport()) == DecodeResponse(raw).value.stopReason
  {
    Reported(events, raw, StopReport());
    MessageShape(raw);
    TypesDiffer();
    assert Get(Obj(Only(raw, "stop_reason")), "stop_reason") == Get(raw, "stop_reason");
  }

  function CounterOf(raw: Json, key: string): Option<U64> {
    if Get(raw, "usage").Some? then AsU64(Get(Get(raw, "usage").value, key)) else None
  }

  /** Both events carry the message's usage. */
  lemma BothSayUsage(raw: Json, key: string)
    requires DecodeResponse(raw).Ok?
    ensures UsageReport(key)(MessageStartEvent(raw)) == CounterOf(raw, key)
    ensures UsageReport(key)(MessageDeltaEvent(raw)) == CounterOf(raw, key)
  {
    MessageShape(raw);
    hide DecodeResponse, MessageStartEvent, MessageDeltaEvent;
    TypesDiffer();
    assert |"content"| == 7 && |"stop_reason"| == 11 && |"usage"| == 5;
    assert Get(Obj(raw.fields - {"content", "stop_reason"}), "usage") == Get(raw, "usage");
  }

  lemma CounterReported(events: seq<Json>, raw: Json, key: string)
    requires DecodeResponse(raw).Ok? && Filter(events, MessageLevel()) == MessageEvents(raw)
    ensures LastReport(events, UsageReport(key)) == CounterOf(raw, key)
  {
    Reported(events, raw, UsageReport(key));
    BothSayUsage(raw, key);
  }

  lemma UsageIsReported(events: seq<Json>, raw: Json)
    requires DecodeResponse(raw).Ok? && Filter(events, MessageLevel()) == MessageEvents(raw)
    ensures UsageReported(events) == DecodeResponse(raw).value.usage
  {
    hide LastReport, Filter, UsageReport;
    CounterReported(events, raw, "input_tokens");
    CounterReported(events, raw, "output_tokens");
    CounterReported(events, raw, "cache_creation_input_tokens");
    CounterReported(events, raw, "cache_read_input_tokens");
  }

  lemma FieldsReported(events: seq<Json>, raw: Json)
    requires DecodeResponse(raw).Ok? && Filter(events, MessageLevel()) == MessageEvents(raw)
    ensures LastReport(events, MessageField("model")) == Some(DecodeResponse(raw).value.model)
    ensures LastReport(events, MessageField("id")) == GetStr(raw, "id")
    ensures LastReport(events, MessageField("service_tier")) == GetStr(raw, "service_tier")
    ensures LastReport(events, MessageField("inference_geo")) == GetStr(raw, "inference_geo")
    ensures LastReport(events, StopReport()) == DecodeResponse(raw).value.stopReason
  {
    assert |"content"| == 7 && |"stop_reason"| == 11 && |"model"| == 5 && |"id"| == 2;
    assert |"service_tier"| == 12 && |"inference_geo"| == 13;
    FieldReported(events, raw, "model");
    FieldReported(events, raw, "id");
    FieldReported(events, raw, "service_tier");
    FieldReported(events, raw, "inference_geo");
    StopReported(events, raw);
  }

  lemma NothingRun()
    ensures RunBlock([]).None?
  {}

  /**
    Any message that decodes, its blocks cut anywhere, the events of its blocks,
    its own events and others that say nothing interleaved in any order: the
    woven events describe it.
  */
  lemma WovenMessageIsDescribed(env: Env, raw: Json, cuts: seq<Cut>, others: seq<Json>, schedule: seq<nat>)
    requires Cuttable(env, raw, cuts, others) && Completes(Streams(env, raw, cuts, others), schedule)
    ensures Describes(env, Weave(Streams(env, raw, cuts, others), schedule), raw)
  {
    hide Weave, TellsApart, LastReport, Filter, Turns, StreamsBlock, Cuts, BlockEvents, Streams, RunBlock;
    var streams := Streams(env, raw, cuts, others);
    var events, content := Weave(streams, schedule), DecodeResponse(raw).value.content;
    EventsToldApart(env, raw, cuts, others, 0);
    StreamIsFound(streams, schedule, |cuts|, MessageLevel());
    FieldsReported(events, raw);
    UsageIsReported(events, raw);
    forall i: nat
      ensures if i < |content| then StreamsBlock(env, Filter(events, Concerns(i)), content[i])
              else RunBlock(Filter(events, Concerns(i))).None?
    {
      EventsToldApart(env, raw, cuts, others, i);
      if i < |content| {
        StreamIsFound(streams, schedule, i, Concerns(i));
        BlockIsStreamed(env, i, content[i], cuts[i]);
      } else {
        StreamIsFound(streams, schedule, |cuts| + 2, Concerns(i));
        NothingRun();
      }
    }
  }
  /** So streaming it that way makes no difference to the response, metadata and id that are committed to. */
  lemma WovenEqualsWhole(
    env: Env, raw: Json, cuts: seq<Cut>, others: seq<Json>, schedule: seq<nat>, fallback: string)
    requires Cuttable(env, raw, cuts, others) && Completes(Streams(env, raw, cuts, others), schedule)
    ensures ToCanonicalResponse(env, raw) == Ok(Finish(env, Run(Weave(Streams(env, raw, cuts, others), schedule)), fallback))
  {
    WovenMessageIsDescribed(env, raw, cuts, others, schedule);
    StreamEqualsWhole(env, Weave(Streams(env, raw, cuts, others), schedule), raw, fallback);
  }

  /** A block in one fragment; a tool call's input as it is spelled. */
  function WholeCut(b: Json, spelled: string): Cut {
    if TypeIs(b, "text") then Cut(GetStr(b, "text").GetOr(""), [])
    else if TypeIs(b, "tool_use") then Cut("", [spelled])
    else Cut("", [])
  }

  lemma WholeCutCuts(env: Env, b: Json, spelled: string)
    requires !TypeIs(b, "tool_result") && (TypeIs(b, "tool_use") ==> SpellsInput(env, spelled, b))
    ensures Cuts(env, b, WholeCut(b, spelled))
  {
    ConcatSnoc([], spelled);
    assert [] + [spelled] == [spelled] && "" + spelled == spelled;
    assert GetStr(b, "text").GetOr("") + "" == GetStr(b, "text").GetOr("");
  }

  /** Every message without tool results whose tool inputs can be spelled has such a stream. */
  lemma EveryMessageStreams(env: Env, raw: Json, spelled: seq<string>) returns (cuts: seq<Cut>, schedule: seq<nat>)
    requires DecodeResponse(raw).Ok?
    requires var content := DecodeResponse(raw).value.content;
             && |spelled| == |content| && |content| <= 0xFFFF_FFFF_FFFF_FFFF
             && forall i :: 0 <= i < |content| ==>
                  !TypeIs(content[i], "tool_result")
                  && (TypeIs(content[i], "tool_use") ==> SpellsInput(env, spelled[i], content[i]))
    ensures Cuttable(env, raw, cuts, []) && Completes(Streams(env, raw, cuts, []), schedule)
    ensures forall i :: 0 <= i < |cuts| ==> cuts[i] == WholeCut(DecodeResponse(raw).value.content[i], spelled[i])
    ensures Describes(env, Weave(Streams(env, raw, cuts, []), schedule), raw)
  {
    hide DecodeResponse, SpellsInput, Describes, Streams;
    var content := DecodeResponse(raw).value.content;
    cuts := seq(|content|, i requires 0 <= i < |content| => WholeCut(content[i], spelled[i]));
    forall i | 0 <= i < |content| ensures Cuts(env, content[i], cuts[i]) {
      WholeCutCuts(env, content[i], spelled[i]);
    }
    var streams := Streams(env, raw, cuts, []);
    schedule := OneByOne(streams, |streams|);
    OneByOneCompletes(streams);
    WovenMessageIsDescribed(env, raw, cuts, [], schedule);
  }
}
