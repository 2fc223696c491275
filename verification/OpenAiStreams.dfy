/**
  Every OpenAI completion can be streamed: its text and the arguments of its tool
  calls cut anywhere and the chunks interleaved in any order describe it.
*/
module OpenAiStreams {
  import opened Prelude
  import opened Json
  import opened OpenAi
  import opened OpenAiEquality
  import opened Weaving

  // --- Chunks -----------------------------------------------------------------------

  const HEAD: set<string> := {"model", "id", "service_tier", "inference_geo"}

  /** What every chunk repeats of the response. */
  function Head(raw: Json): map<string, Json>
    requires raw.Obj?
  {
    map key | key in raw.fields && key in HEAD :: raw.fields[key]
  }

  function Chunk(raw: Json, choice: map<string, Json>): Json
    requires raw.Obj?
  {
    Obj(Head(raw)["choices" := Arr([Obj(choice)])])
  }

  function TextChunk(raw: Json, piece: string): Json
    requires raw.Obj?
  {
    Chunk(raw, map["delta" := Obj(map["content" := Str(piece)])])
  }

  function CallChunk(raw: Json, entry: Json): Json
    requires raw.Obj?
  {
    Chunk(raw, map["delta" := Obj(map["tool_calls" := Arr([entry])])])
  }

  /** The last chunk of the response's own stream: the finish reason and the usage. */
  function LastChunk(raw: Json, finish: Option<string>): Json
    requires raw.Obj?
  {
    var choice := map["delta" := EmptyObject()];
    var last := Chunk(raw, if finish.Some? then choice["finish_reason" := Str(finish.value)] else choice);
    if Get(raw, "usage").Some? then Obj(last.fields["usage" := Get(raw, "usage").value]) else last
  }

  lemma KeysDiffer()
    ensures |"model"| == 5 && |"id"| == 2 && |"service_tier"| == 12 && |"inference_geo"| == 13 && |"choices"| == 7
    ensures |"usage"| == 5 && "usage"[0] != "model"[0] && |"delta"| == 5 && "delta"[0] != "usage"[0]
    ensures |"finish_reason"| == 13 && "finish_reason"[0] != "inference_geo"[0]
    ensures |"content"| == 7 && |"tool_calls"| == 10 && "content"[1] != "choices"[1]
    ensures |"index"| == 5 && |"function"| == 8 && |"name"| == 4 && |"arguments"| == 9
  {}

  /** What any chunk says, by its choice. */
  lemma ChunkShape(raw: Json, choice: map<string, Json>)
    requires raw.Obj?
    ensures var c := Chunk(raw, choice);
            && c.Obj? && ChoiceOf(c) == Some(Obj(choice)) && Get(c, "usage") == None
            && forall key :: key in HEAD ==> Get(c, key) == Get(raw, key)
  {
    KeysDiffer();
    var c := Chunk(raw, choice);
    assert "choices" !in HEAD && "usage" !in HEAD && "usage" != "choices";
    assert Get(c, "choices") == Some(Arr([Obj(choice)]));
  }

  lemma TextChunkShape(raw: Json, piece: string)
    requires raw.Obj?
    ensures var c := TextChunk(raw, piece);
            && DeltaOf(c) == Some(Obj(map["content" := Str(piece)])) && TextOf(c) == piece && EntriesOf(c) == []
            && FinishOf(c) == None && UsageOf(c) == None
  {
    KeysDiffer();
    ChunkShape(raw, map["delta" := Obj(map["content" := Str(piece)])]);
    assert Get(Obj(map["content" := Str(piece)]), "tool_calls") == None;
  }

  lemma CallChunkShape(raw: Json, entry: Json)
    requires raw.Obj?
    ensures var c := CallChunk(raw, entry);
            && DeltaOf(c) == Some(Obj(map["tool_calls" := Arr([entry])])) && TextOf(c) == "" && EntriesOf(c) == [entry]
            && FinishOf(c) == None && UsageOf(c) == None
  {
    KeysDiffer();
    ChunkShape(raw, map["delta" := Obj(map["tool_calls" := Arr([entry])])]);
    assert Get(Obj(map["tool_calls" := Arr([entry])]), "content") == None;
  }

  lemma LastChunkShape(raw: Json, finish: Option<string>)
    requires raw.Obj?
    ensures var c := LastChunk(raw, finish);
            && DeltaOf(c) == Some(EmptyObject()) && TextOf(c) == "" && EntriesOf(c) == []
            && FinishOf(c) == finish && Get(c, "usage") == Get(raw, "usage")
            && forall key :: key in HEAD ==> Get(c, key) == Get(raw, key)
  {
    KeysDiffer();
    var choice := map["delta" := EmptyObject()];
    var full := if finish.Some? then choice["finish_reason" := Str(finish.value)] else choice;
    ChunkShape(raw, full);
    assert "usage" !in HEAD && "usage" != "choices";
    assert ChoiceOf(LastChunk(raw, finish)) == Some(Obj(full));
    assert Get(Obj(full), "delta") == Some(EmptyObject());
    assert GetStr(Obj(full), "finish_reason") == finish;
  }

  // --- One call -----------------------------------------------------------------------

  /** The first entry of a call has its id and name, and every one a fragment of its arguments. */
  function FirstEntry(i: U64, c: WireToolCall, first: string): Json {
    Obj(map["index" := Uint(i), "id" := Str(c.id),
            "function" := Obj(map["name" := Str(c.name), "arguments" := Str(first)])])
  }

  function MoreEntry(i: U64, piece: string): Json {
    Obj(map["index" := Uint(i), "function" := Obj(map["arguments" := Str(piece)])])
  }

  function MoreEntries(i: U64, pieces: seq<string>): (r: seq<Json>)
    ensures |r| == |pieces|
  {
    seq(|pieces|, k requires 0 <= k < |pieces| => MoreEntry(i, pieces[k]))
  }

  /** Where a call's arguments are cut. */
  datatype Cut = Cut(first: string, pieces: seq<string>)

  predicate Cuts(c: WireToolCall, cut: Cut) {
    cut.first + Concat(cut.pieces) == c.arguments
  }

  function Entries(i: U64, c: WireToolCall, cut: Cut): (r: seq<Json>)
    ensures |r| == 1 + |cut.pieces|
  {
    [FirstEntry(i, c, cut.first)] + MoreEntries(i, cut.pieces)
  }

  lemma FirstEntryShape(i: U64, c: WireToolCall, first: string)
    ensures var e := FirstEntry(i, c, first);
            && IndexOf(e) == i && IdOf(e) == Some(c.id) && FragmentOf(e, "name") == c.name
            && FragmentOf(e, "arguments") == first
  {
    KeysDiffer();
    var e := FirstEntry(i, c, first);
    assert Get(e, "function") == Some(Obj(map["name" := Str(c.name), "arguments" := Str(first)]));
  }

  lemma MoreEntryShape(i: U64, piece: string)
    ensures var e := MoreEntry(i, piece);
            && IndexOf(e) == i && IdOf(e) == None && FragmentOf(e, "name") == "" && FragmentOf(e, "arguments") == piece
  {
    KeysDiffer();
    var e := MoreEntry(i, piece);
    assert Get(e, "function") == Some(Obj(map["arguments" := Str(piece)]));
  }

  lemma FragmentsSnoc(entries: seq<Json>, last: Json, key: string)
    ensures Fragments(entries + [last], key) == Fragments(entries, key) + FragmentOf(last, key)
    ensures LastReport(entries + [last], IdOf) == Later(LastReport(entries, IdOf), IdOf(last))
  {
    assert (entries + [last])[..|entries|] == entries;
  }

  /** The entries give the call's id and name, and these arguments. */
  predicate AddsUp(entries: seq<Json>, c: WireToolCall, arguments: string) {
    && LastReport(entries, IdOf) == Some(c.id)
    && Fragments(entries, "name") == c.name
    && Fragments(entries, "arguments") == arguments
  }

  lemma FirstAddsUp(i: U64, c: WireToolCall, first: string)
    ensures AddsUp([FirstEntry(i, c, first)], c, first)
  {
    hide FirstEntry;
    var e := FirstEntry(i, c, first);
    FirstEntryShape(i, c, first);
    FragmentsSnoc([], e, "name");
    FragmentsSnoc([], e, "arguments");
    assert [] + [e] == [e] && "" + c.name == c.name && "" + first == first;
  }

  lemma MoreAddsUp(i: U64, c: WireToolCall, entries: seq<Json>, arguments: string, piece: string)
    requires AddsUp(entries, c, arguments)
    ensures AddsUp(entries + [MoreEntry(i, piece)], c, arguments + piece)
  {
    hide MoreEntry;
    MoreEntryShape(i, piece);
    FragmentsSnoc(entries, MoreEntry(i, piece), "name");
    FragmentsSnoc(entries, MoreEntry(i, piece), "arguments");
    assert c.name + "" == c.name;
  }

  lemma {:induction false} EntriesAddUp(i: U64, c: WireToolCall, first: string, pieces: seq<string>)
    ensures AddsUp(Entries(i, c, Cut(first, pieces)), c, first + Concat(pieces))
    decreases |pieces|
  {
    hide AddsUp, FirstEntry, MoreEntry;
    if pieces == [] {
      FirstAddsUp(i, c, first);
      assert [FirstEntry(i, c, first)] + MoreEntries(i, []) == [FirstEntry(i, c, first)];
      assert first + "" == first;
    } else {
      var before, last := pieces[..|pieces| - 1], pieces[|pieces| - 1];
      var entries := Entries(i, c, Cut(first, before));
      EntriesAddUp(i, c, first, before);
      MoreAddsUp(i, c, entries, first + Concat(before), last);
      assert MoreEntries(i, pieces) == MoreEntries(i, before) + [MoreEntry(i, last)];
      assert Entries(i, c, Cut(first, pieces)) == entries + [MoreEntry(i, last)];
      assert pieces == before + [last];
      ConcatSnoc(before, last);
      Associative(first, Concat(before), last);
    }
  }

  lemma EntriesAtIndex(i: U64, c: WireToolCall, cut: Cut, j: nat)
    requires j < |Entries(i, c, cut)|
    ensures IndexOf(Entries(i, c, cut)[j]) == i
  {
    FirstEntryShape(i, c, cut.first);
    if j > 0 {
      MoreEntryShape(i, cut.pieces[j - 1]);
    }
  }

  // --- The completion -----------------------------------------------------------------

  function ChoiceIn(raw: Json): WireChoice
    requires DecodeResponse(raw).Ok?
  {
    FirstChoiceOf(DecodeResponse(raw).value)
  }

  /**
    A completion that decodes, its content a text that is not empty or nothing,
    with cuts of the text and of the arguments of its calls, whose number is in
    range.
  */
  ghost predicate Cuttable(raw: Json, text: seq<string>, cuts: seq<Cut>) {
    && DecodeResponse(raw).Ok?
    && StreamsText(Concat(text), ContentOf(raw))
    && var calls := ChoiceIn(raw).toolCalls;
    && |cuts| == |calls| && |calls| <= 0xFFFF_FFFF_FFFF_FFFF
    && forall i :: 0 <= i < |calls| ==> Cuts(calls[i], cuts[i])
  }

  function TextChunks(raw: Json, text: seq<string>): (r: seq<Json>)
    requires raw.Obj?
    ensures |r| == |text|
  {
    seq(|text|, k requires 0 <= k < |text| => TextChunk(raw, text[k]))
  }

  function CallChunks(raw: Json, entries: seq<Json>): (r: seq<Json>)
    requires raw.Obj?
    ensures |r| == |entries|
  {
    seq(|entries|, k requires 0 <= k < |entries| => CallChunk(raw, entries[k]))
  }

  /** One stream a call, one for the text and one for the end. */
  ghost function Streams(raw: Json, text: seq<string>, cuts: seq<Cut>): (r: seq<seq<Json>>)
    requires Cuttable(raw, text, cuts)
    ensures |r| == |cuts| + 2
    ensures forall i :: 0 <= i < |cuts| ==> r[i] == CallChunks(raw, Entries(i, ChoiceIn(raw).toolCalls[i], cuts[i]))
    ensures r[|cuts|] == TextChunks(raw, text) && r[|cuts| + 1] == [LastChunk(raw, ChoiceIn(raw).finishReason)]
  {
    var calls := ChoiceIn(raw).toolCalls;
    seq(|cuts|, i requires 0 <= i < |cuts| => CallChunks(raw, Entries(i, calls[i], cuts[i])))
    + [TextChunks(raw, text), [LastChunk(raw, ChoiceIn(raw).finishReason)]]
  }

  function HasContent(): Json -> bool {
    c => DeltaOf(c).Some? && Get(DeltaOf(c).value, "content").Some?
  }

  function IsLast(): Json -> bool {
    c => DeltaOf(c) == Some(EmptyObject())
  }

  function ForCall(i: nat): Json -> bool {
    c => EntriesOf(c) != [] && IndexOf(EntriesOf(c)[0]) == i
  }

  /** Which of the streams a chunk belongs to, and what it says. */
  ghost predicate Belongs(raw: Json, c: Json, hasContent: bool, isLast: bool, call: Option<nat>) {
    && (HasContent()(c) <==> hasContent)
    && (IsLast()(c) <==> isLast)
    && (forall i: nat :: ForCall(i)(c) <==> call == Some(i))
    && |EntriesOf(c)| <= 1
    && (FinishOf(c).Some? || UsageOf(c).Some? ==> isLast)
    && forall key :: key in HEAD ==> Get(c, key) == Get(raw, key)
  }

  lemma CallChunkBelongs(raw: Json, entry: Json)
    requires raw.Obj?
    ensures Belongs(raw, CallChunk(raw, entry), false, false, Some(IndexOf(entry)))
  {
    KeysDiffer();
    ChunkShape(raw, map["delta" := Obj(map["tool_calls" := Arr([entry])])]);
    CallChunkShape(raw, entry);
    hide Chunk, IndexOf;
  }

  lemma TextChunkBelongs(raw: Json, piece: string)
    requires raw.Obj?
    ensures Belongs(raw, TextChunk(raw, piece), true, false, None)
  {
    ChunkShape(raw, map["delta" := Obj(map["content" := Str(piece)])]);
    TextChunkShape(raw, piece);
    hide Chunk, IndexOf;
  }

  lemma LastChunkBelongs(raw: Json, finish: Option<string>)
    requires raw.Obj?
    ensures Belongs(raw, LastChunk(raw, finish), false, true, None)
  {
    LastChunkShape(raw, finish);
    hide LastChunk, IndexOf;
  }

  /** What each woven chunk is. */
  lemma ChunkIs(raw: Json, text: seq<string>, cuts: seq<Cut>, k: nat, j: nat)
    requires Cuttable(raw, text, cuts) && k < |cuts| + 2 && j < |Streams(raw, text, cuts)[k]|
    ensures Belongs(raw, Streams(raw, text, cuts)[k][j], k == |cuts|, k == |cuts| + 1, if k < |cuts| then Some(k) else None)
  {
    assert raw.Obj?;
    hide DecodeResponse, TextChunk, CallChunk, LastChunk, Entries, IndexOf, StreamsText, Belongs;
    var choice := ChoiceIn(raw);
    if k < |cuts| {
      CallChunkBelongs(raw, Entries(k, choice.toolCalls[k], cuts[k])[j]);
      EntriesAtIndex(k, choice.toolCalls[k], cuts[k], j);
    } else if k == |cuts| {
      TextChunkBelongs(raw, text[j]);
    } else {
      LastChunkBelongs(raw, choice.finishReason);
    }
  }

  // --- What the woven chunks report -------------------------------------------------------

  lemma {:induction false} AllReport<T>(chunks: seq<Json>, says: Json -> Option<T>, x: Option<T>)
    requires chunks != [] && forall c :: c in chunks ==> says(c) == x
    ensures LastReport(chunks, says) == x
  {
    if |chunks| > 1 {
      AllReport(chunks[..|chunks| - 1], says, x);
    }
  }

  lemma OneReport<T>(c: Json, says: Json -> Option<T>)
    ensures LastReport([c], says) == says(c)
  {
    assert [c][..0] == [];
    assert LastReport([c], says) == Later(LastReport([], says), says(c));
  }

  lemma {:induction false} TextOfFiltered(chunks: seq<Json>)
    ensures TotalText(chunks) == TotalText(Filter(chunks, HasContent()))
  {
    if chunks != [] {
      var before, last := chunks[..|chunks| - 1], chunks[|chunks| - 1];
      var kept := Filter(before, HasContent());
      TextOfFiltered(before);
      assert (kept + [last])[..|kept|] == kept;
      assert kept + [] == kept;
    }
  }

  lemma {:induction false} EntriesOfFiltered(chunks: seq<Json>, i: nat)
    requires forall c :: c in chunks ==> |EntriesOf(c)| <= 1
    ensures Filter(AllEntries(chunks), At(i)) == AllEntries(Filter(chunks, ForCall(i)))
  {
    if chunks != [] {
      var before, last := chunks[..|chunks| - 1], chunks[|chunks| - 1];
      var kept, entries := Filter(before, ForCall(i)), AllEntries(before);
      EntriesOfFiltered(before, i);
      assert (kept + [last])[..|kept|] == kept && kept + [] == kept;
      if EntriesOf(last) == [] {
        assert entries + [] == entries;
      } else {
        var e := EntriesOf(last)[0];
        assert EntriesOf(last) == [e] && (entries + [e])[..|entries|] == entries;
        assert Filter(entries, At(i)) + [] == Filter(entries, At(i));
      }
    }
  }

  lemma {:induction false} TextJoins(raw: Json, text: seq<string>)
    requires raw.Obj?
    ensures TotalText(TextChunks(raw, text)) == Concat(text)
  {
    if text != [] {
      var before, last := text[..|text| - 1], text[|text| - 1];
      TextJoins(raw, before);
      TextChunkShape(raw, last);
      hide TextChunk, TextOf;
      ConcatSnoc(before, last);
      assert text == before + [last];
      assert TextChunks(raw, text) == TextChunks(raw, before) + [TextChunk(raw, last)];
    }
  }

  lemma {:induction false} EntriesCollect(raw: Json, entries: seq<Json>)
    requires raw.Obj?
    ensures AllEntries(CallChunks(raw, entries)) == entries
  {
    if entries != [] {
      var before, last := entries[..|entries| - 1], entries[|entries| - 1];
      EntriesCollect(raw, before);
      CallChunkShape(raw, last);
      hide CallChunk, EntriesOf;
      assert entries == before + [last];
      assert CallChunks(raw, entries) == CallChunks(raw, before) + [CallChunk(raw, last)];
    }
  }

  lemma WovenChunkIs(raw: Json, text: seq<string>, cuts: seq<Cut>, schedule: seq<nat>, c: Json)
    requires Cuttable(raw, text, cuts) && Completes(Streams(raw, text, cuts), schedule)
    requires c in Weave(Streams(raw, text, cuts), schedule)
    ensures |EntriesOf(c)| <= 1 && (FinishOf(c).Some? || UsageOf(c).Some? ==> IsLast()(c))
    ensures forall key :: key in HEAD ==> Get(c, key) == Get(raw, key)
  {
    var streams := Streams(raw, text, cuts);
    WovenFrom(streams, schedule, c);
    var k, j :| 0 <= k < |streams| && 0 <= j < |streams[k]| && streams[k][j] == c;
    ChunkIs(raw, text, cuts, k, j);
  }

  lemma ChunksToldApart(raw: Json, text: seq<string>, cuts: seq<Cut>, i: nat)
    requires Cuttable(raw, text, cuts)
    ensures TellsApart(Streams(raw, text, cuts), |cuts|, HasContent())
    ensures TellsApart(Streams(raw, text, cuts), |cuts| + 1, IsLast())
    ensures TellsApart(Streams(raw, text, cuts), if i < |cuts| then i else |cuts| + 2, ForCall(i))
  {
    hide HasContent, IsLast, ForCall;
    var streams := Streams(raw, text, cuts);
    forall k, j | 0 <= k < |streams| && 0 <= j < |streams[k]|
      ensures HasContent()(streams[k][j]) <==> k == |cuts|
      ensures IsLast()(streams[k][j]) <==> k == |cuts| + 1
      ensures ForCall(i)(streams[k][j]) <==> k == if i < |cuts| then i else |cuts| + 2
    {
      ChunkIs(raw, text, cuts, k, j);
    }
  }
  /** Every chunk repeats what the response says of itself. */
  lemma HeadReported(raw: Json, text: seq<string>, cuts: seq<Cut>, schedule: seq<nat>, key: string)
    requires Cuttable(raw, text, cuts) && Completes(Streams(raw, text, cuts), schedule) && key in HEAD
    requires Weave(Streams(raw, text, cuts), schedule) != []
    ensures LastReport(Weave(Streams(raw, text, cuts), schedule), Field(key)) == GetStr(raw, key)
  {
    hide Cuttable, Streams, Weave;
    var chunks := Weave(Streams(raw, text, cuts), schedule);
    forall c | c in chunks ensures Field(key)(c) == GetStr(raw, key) {
      WovenChunkIs(raw, text, cuts, schedule, c);
    }
    AllReport(chunks, Field(key), GetStr(raw, key));
  }

  /** Only the last chunk of the response's own stream reports the finish reason and the usage. */
  lemma EndReported(raw: Json, text: seq<string>, cuts: seq<Cut>, schedule: seq<nat>)
    requires Cuttable(raw, text, cuts) && Completes(Streams(raw, text, cuts), schedule)
    ensures var chunks := Weave(Streams(raw, text, cuts), schedule);
            && chunks != []
            && LastReport(chunks, FinishOf) == ChoiceIn(raw).finishReason
            && LastReport(chunks, UsageOf).GetOr(NO_USAGE) == DecodeResponse(raw).value.usage
  {
    var chunks, last := Weave(Streams(raw, text, cuts), schedule), LastChunk(raw, ChoiceIn(raw).finishReason);
    LastChunkShape(raw, ChoiceIn(raw).finishReason);
    hide Cuttable, Streams, Weave, LastChunk, Completes;
    ChunksToldApart(raw, text, cuts, 0);
    StreamIsFound(Streams(raw, text, cuts), schedule, |cuts| + 1, IsLast());
    forall c | c in chunks ensures FinishOf(c).Some? || UsageOf(c).Some? ==> IsLast()(c) {
      WovenChunkIs(raw, text, cuts, schedule, c);
    }
    LastReportOfFiltered(chunks, FinishOf, IsLast());
    LastReportOfFiltered(chunks, UsageOf, IsLast());
    OneReport(last, FinishOf);
    OneReport(last, UsageOf);
  }

  lemma TextStreamed(raw: Json, text: seq<string>, cuts: seq<Cut>, schedule: seq<nat>)
    requires Cuttable(raw, text, cuts) && Completes(Streams(raw, text, cuts), schedule)
    ensures TotalText(Weave(Streams(raw, text, cuts), schedule)) == Concat(text)
  {
    assert raw.Obj?;
    hide Weave;
    ChunksToldApart(raw, text, cuts, 0);
    StreamIsFound(Streams(raw, text, cuts), schedule, |cuts|, HasContent());
    TextOfFiltered(Weave(Streams(raw, text, cuts), schedule));
    TextJoins(raw, text);
  }

  /** The entries woven for an index are those of its call, if there is one. */
  lemma EntriesStreamed(raw: Json, text: seq<string>, cuts: seq<Cut>, schedule: seq<nat>, i: nat)
    requires Cuttable(raw, text, cuts) && Completes(Streams(raw, text, cuts), schedule)
    ensures Filter(AllEntries(Weave(Streams(raw, text, cuts), schedule)), At(i))
         == if i < |cuts| then Entries(i, ChoiceIn(raw).toolCalls[i], cuts[i]) else []
  {
    assert raw.Obj?;
    hide Weave;
    var chunks := Weave(Streams(raw, text, cuts), schedule);
    ChunksToldApart(raw, text, cuts, i);
    forall c | c in chunks ensures |EntriesOf(c)| <= 1 {
      WovenChunkIs(raw, text, cuts, schedule, c);
    }
    EntriesOfFiltered(chunks, i);
    if i < |cuts| {
      StreamIsFound(Streams(raw, text, cuts), schedule, i, ForCall(i));
      EntriesCollect(raw, Entries(i, ChoiceIn(raw).toolCalls[i], cuts[i]));
    } else {
      StreamIsFound(Streams(raw, text, cuts), schedule, |cuts| + 2, ForCall(i));
    }
  }

  function Indexes(n: nat): (r: seq<nat>)
    ensures |r| == n && forall i :: 0 <= i < n ==> r[i] == i
    ensures forall i: nat :: i in r <==> i < n
  {
    if n == 0 then [] else Indexes(n - 1) + [n - 1]
  }

  lemma CallsAreStreamed(raw: Json, text: seq<string>, cuts: seq<Cut>, schedule: seq<nat>)
    requires Cuttable(raw, text, cuts) && Completes(Streams(raw, text, cuts), schedule)
    ensures StreamsCalls(
              AllEntries(Weave(Streams(raw, text, cuts), schedule)), Indexes(|cuts|), ChoiceIn(raw).toolCalls)
  {
    hide Weave, AllEntries, Turns, Filter;
    var entries, calls := AllEntries(Weave(Streams(raw, text, cuts), schedule)), ChoiceIn(raw).toolCalls;
    forall i | 0 <= i < |calls| ensures StreamsCall(Filter(entries, At(Indexes(|cuts|)[i])), calls[i]) {
      EntriesStreamed(raw, text, cuts, schedule, i);
      EntriesAddUp(i, calls[i], cuts[i].first, cuts[i].pieces);
    }
    forall index: nat | index !in Indexes(|cuts|) ensures Filter(entries, At(index)) == [] {
      EntriesStreamed(raw, text, cuts, schedule, index);
    }
  }

  /**
    Any completion that decodes, with text that is not empty or none, its text
    and the arguments of its tool calls cut anywhere, the chunks interleaved in
    any order: the woven chunks describe it.
  */
  lemma WovenCompletionIsDescribed(raw: Json, text: seq<string>, cuts: seq<Cut>, schedule: seq<nat>)
    requires Cuttable(raw, text, cuts) && Completes(Streams(raw, text, cuts), schedule)
    ensures Describes(Weave(Streams(raw, text, cuts), schedule), Indexes(|cuts|), raw)
  {
    hide Weave, Streams, Completes, AllEntries, StreamsCalls, LastReport, TotalText;
    EndReported(raw, text, cuts, schedule);
    HeadReported(raw, text, cuts, schedule, "model");
    HeadReported(raw, text, cuts, schedule, "id");
    HeadReported(raw, text, cuts, schedule, "service_tier");
    HeadReported(raw, text, cuts, schedule, "inference_geo");
    TextStreamed(raw, text, cuts, schedule);
    CallsAreStreamed(raw, text, cuts, schedule);
  }

  /** So streaming it that way makes no difference to the response, metadata and id that are committed to. */
  lemma WovenEqualsWhole(
    env: Env, raw: Json, text: seq<string>, cuts: seq<Cut>, schedule: seq<nat>, fallback: string)
    requires Cuttable(raw, text, cuts) && Completes(Streams(raw, text, cuts), schedule)
    ensures ToCanonicalResponse(env, raw) == Ok(Finish(env, Run(Weave(Streams(raw, text, cuts), schedule)), fallback))
  {
    WovenCompletionIsDescribed(raw, text, cuts, schedule);
    StreamEqualsWhole(env, Weave(Streams(raw, text, cuts), schedule), Indexes(|cuts|), raw, fallback);
  }

  /** Every completion with text that is not empty, or none, has such a stream. */
  lemma EveryCompletionStreams(raw: Json) returns (text: seq<string>, cuts: seq<Cut>, schedule: seq<nat>)
    requires DecodeResponse(raw).Ok? && |ChoiceIn(raw).toolCalls| <= 0xFFFF_FFFF_FFFF_FFFF
    requires ContentOf(raw).Some? ==> ContentOf(raw).value.Str? && ContentOf(raw).value.s != ""
    ensures Cuttable(raw, text, cuts) && Completes(Streams(raw, text, cuts), schedule)
    ensures Describes(Weave(Streams(raw, text, cuts), schedule), Indexes(|cuts|), raw)
  {
    hide DecodeResponse, Describes, Streams;
    var calls := ChoiceIn(raw).toolCalls;
    text := if ContentOf(raw).Some? then [ContentOf(raw).value.s] else [];
    if ContentOf(raw).Some? {
      ConcatSnoc([], ContentOf(raw).value.s);
      assert [] + text == text && "" + ContentOf(raw).value.s == ContentOf(raw).value.s;
    }
    cuts := seq(|calls|, i requires 0 <= i < |calls| => Cut(calls[i].arguments, []));
    forall i | 0 <= i < |calls| ensures Cuts(calls[i], cuts[i]) {
      assert calls[i].arguments + "" == calls[i].arguments;
    }
    var streams := Streams(raw, text, cuts);
    schedule := OneByOne(streams, |streams|);
    OneByOneCompletes(streams);
    WovenCompletionIsDescribed(raw, text, cuts, schedule);
  }
}
