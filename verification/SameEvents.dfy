/**
  What the client yields of an event stream and what the enclave's accumulators
  apply of the same bytes, however either side's bytes are cut into chunks; and
  exactly when the two are the same.
*/
module SameEvents {
  import opened Prelude
  import opened TextOps
  import opened Json
  import opened Utf8
  import opened Sse
  import opened Framing
  import SseClient
  import Anthropic
  import OpenAi

  // --- Streams ---------------------------------------------------------------------

  /**
    A stream: blocks of lines that a blank line ends, the last of them an end
    marker or not, then lines that no blank line ends and text that no line feed
    ends.
  */
  datatype Frames = Frames(blocks: seq<Block>, marker: Option<Block>, open: Block, rest: string) {
    function Ended(): seq<Block> {
      if marker.Some? then blocks + [marker.value] else blocks
    }

    /** What no blank line ends. */
    function Tail(): string {
      Unlines(Texts(open)) + rest
    }

    function Text(): string {
      BlocksText(Ended()) + Tail()
    }

    predicate Valid() {
      && ValidBlocks(blocks) && ValidLines(open) && LF !in rest
      && (marker.Some? ==> IsMarker(marker.value))
    }

    /** One data line in a block at most, and none outside the blocks. */
    predicate OneDataLineEach() {
      OneEach(blocks) && DataCount(open) == 0
    }
  }

  predicate ValidBlocks(blocks: seq<Block>) {
    forall i :: 0 <= i < |blocks| ==> ValidBlock(blocks[i])
  }

  predicate OneEach(blocks: seq<Block>) {
    forall i :: 0 <= i < |blocks| ==> DataCount(blocks[i]) <= 1
  }

  /** A block whose data is the end marker the OpenAI surface adds, by every reader's account. */
  predicate IsMarker(b: Block) {
    && ValidBlock(b) && FieldsIn(b) == ["[DONE]"]
    && forall i :: 0 <= i < |b| && b[i].Data? ==> b[i].payload == "[DONE]"
  }

  function BlocksText(blocks: seq<Block>): string {
    if blocks == [] then "" else Unlines(Texts(blocks[0])) + "\n" + BlocksText(blocks[1..])
  }

  /** The JSON parser reads every payload, and makes the same of the client's data, white space and all. */
  predicate Parsable(env: Env, lines: Block) {
    forall i :: 0 <= i < |lines| && lines[i].Data? ==>
      env.parse(lines[i].payload).Some? && env.parse(lines[i].Fields()[0]) == env.parse(lines[i].payload)
  }

  predicate AllParsable(env: Env, blocks: seq<Block>) {
    forall i :: 0 <= i < |blocks| ==> Parsable(env, blocks[i])
  }

  lemma {:induction false} ParsableCount(env: Env, lines: Block)
    requires Parsable(env, lines)
    ensures |PayloadsIn(env, lines)| == DataCount(lines)
  {
    if lines != [] {
      ParsableCount(env, lines[1..]);
    }
  }

  // --- Draining blocks ----------------------------------------------------------------

  function Pieces(blocks: seq<Block>): seq<string>
    requires ValidBlocks(blocks)
  {
    if blocks == [] then [] else [Piece(blocks[0])] + Pieces(blocks[1..])
  }

  /** A reader that looks for blank lines drains one piece a block. */
  lemma {:induction false} DrainBlocks(blocks: seq<Block>, tail: string)
    requires ValidBlocks(blocks)
    ensures Drain(BlocksText(blocks) + tail, "\n\n").0 == Pieces(blocks) + Drain(tail, "\n\n").0
    ensures Drain(BlocksText(blocks) + tail, "\n\n").1 == Drain(tail, "\n\n").1
    decreases |blocks|
  {
    if blocks == [] {
      EmptyAppended(tail);
      EmptyAppended(Drain(tail, "\n\n").0);
    } else {
      var u, later := Unlines(Texts(blocks[0])), BlocksText(blocks[1..]);
      DrainBlocks(blocks[1..], tail);
      PieceOf(blocks[0]);
      DrainBlank(u, later + tail);
      Associative(u + "\n", later, tail);
      Associative([Piece(blocks[0])], Pieces(blocks[1..]), Drain(tail, "\n\n").0);
    }
  }

  /** The text that no blank line ends is no piece. */
  lemma DrainTail(open: Block, rest: string)
    requires ValidLines(open) && LF !in rest
    ensures Drain(Unlines(Texts(open)) + rest, "\n\n").0 == []
  {
    var u := Unlines(Texts(open));
    LinesAreGood(open);
    if open != [] {
      UnlinesSingleSpaced(Texts(open));
    }
    forall j: nat ensures !OccursAt(u + rest, "\n\n", j) {
      if j + 2 <= |u + rest| {
        assert (u + rest)[j..j + 2] == [(u + rest)[j], (u + rest)[j + 1]];
        if j + 1 >= |u| {
          assert (u + rest)[j + 1] == rest[j + 1 - |u|];
        }
      }
    }
  }

  lemma PiecesAppend(a: seq<Block>, b: Block)
    requires ValidBlocks(a) && ValidBlock(b)
    ensures Pieces(a + [b]) == Pieces(a) + [Piece(b)]
    decreases |a|
  {
    if a == [] {
      assert a + [b] == [b] && [b][1..] == [];
    } else {
      assert (a + [b])[1..] == a[1..] + [b];
      PiecesAppend(a[1..], b);
    }
  }

  // --- The enclave ---------------------------------------------------------------------

  lemma {:induction false} AnthropicReadsPieces(env: Env, blocks: seq<Block>)
    requires ValidBlocks(blocks)
    ensures EventsOf(Anthropic.Extraction(env), Pieces(blocks)) == PayloadsIn(env, Concat(blocks))
  {
    if blocks != [] {
      AnthropicReadsBlock(env, blocks[0]);
      AnthropicReadsPieces(env, blocks[1..]);
      assert Pieces(blocks)[1..] == Pieces(blocks[1..]);
      PayloadsAppend(env, blocks[0], Concat(blocks[1..]));
    }
  }

  /** The Anthropic accumulator applies the payload of every data line that a blank line follows. */
  lemma AnthropicReadsStream(env: Env, blocks: seq<Block>, open: Block, rest: string)
    requires ValidBlocks(blocks) && ValidLines(open) && LF !in rest
    ensures Pending(Anthropic.SEPARATOR, Anthropic.Extraction(env), BlocksText(blocks) + (Unlines(Texts(open)) + rest))
         == PayloadsIn(env, Concat(blocks))
  {
    DrainBlocks(blocks, Unlines(Texts(open)) + rest);
    DrainTail(open, rest);
    EmptyAppended(Pieces(blocks));
    AnthropicReadsPieces(env, blocks);
  }

  lemma OpenAiReadsTail(env: Env, open: Block, rest: string)
    requires ValidLines(open) && LF !in rest && env.parse("[DONE]").None?
    ensures Pending(OpenAi.SEPARATOR, OpenAi.Extraction(env), Unlines(Texts(open)) + rest) == PayloadsIn(env, open)
  {
    LinesAreGood(open);
    DrainLines(Texts(open), rest);
    forall j: nat ensures !OccursAt(rest, "\n", j) {
      if j < |rest| {
        assert rest[j..j + 1] == [rest[j]];
      }
    }
    assert Drain(rest, "\n").0 == [];
    EmptyAppended(Texts(open));
    OpenAiReadsLines(env, open);
  }

  /** The OpenAI accumulator applies the payload of every data line, blank lines or not. */
  lemma {:induction false} OpenAiReadsStream(env: Env, blocks: seq<Block>, open: Block, rest: string)
    requires ValidBlocks(blocks) && ValidLines(open) && LF !in rest && env.parse("[DONE]").None?
    ensures Pending(OpenAi.SEPARATOR, OpenAi.Extraction(env), BlocksText(blocks) + (Unlines(Texts(open)) + rest))
         == PayloadsIn(env, Concat(blocks) + open)
    decreases |blocks|
  {
    var tail := Unlines(Texts(open)) + rest;
    if blocks == [] {
      EmptyAppended(tail);
      EmptyAppended(open);
      OpenAiReadsTail(env, open, rest);
    } else {
      var b, later := blocks[0], BlocksText(blocks[1..]);
      Associative(Unlines(Texts(b)) + "\n", later, tail);
      LinesAreGood(b);
      DrainBlockLines(Texts(b), later + tail);
      PendingPieces(OpenAi.SEPARATOR, OpenAi.Extraction(env), BlocksText(blocks) + tail, Texts(b) + [""], later + tail);
      OpenAiReadsBlock(env, b);
      OpenAiReadsStream(env, blocks[1..], open, rest);
      Associative(b, Concat(blocks[1..]), open);
      PayloadsAppend(env, b, Concat(blocks[1..]) + open);
    }
  }

  // --- The client -----------------------------------------------------------------------

  /** What the client makes of a block in front of others, by its number of data lines. */
  lemma BlockInFront(env: Env, b: Block, later: seq<string>)
    requires ValidBlock(b) && Parsable(env, b) && env.parse("[DONE]").None?
    ensures var (vs, ending) := SseClient.ReadEvents(env, later);
            var all := SseClient.ReadEvents(env, [Piece(b)] + later);
            && (DataCount(b) == 0 ==> all == (vs, ending))
            && (DataCount(b) == 1 ==> all == (PayloadsIn(env, b) + vs, ending))
            && |all.0| <= 1 + |vs|
  {
    hide SseClient.DataFields, SseClient.Split, Piece;
    assert ([Piece(b)] + later)[1..] == later;
    ClientReadsBlock(b);
    FieldsCounted(b);
    if DataCount(b) == 1 {
      OnlyField(env, b);
      assert SseClient.JoinLines(FieldsIn(b)) == FieldsIn(b)[0];
    }
  }

  /** The client's data of a block with one data line is read as that line's payload. */
  lemma {:induction false} OnlyField(env: Env, b: Block)
    requires Parsable(env, b) && DataCount(b) == 1
    ensures |FieldsIn(b)| == 1 && env.parse(FieldsIn(b)[0]).Some?
    ensures PayloadsIn(env, b) == [env.parse(FieldsIn(b)[0]).value]
  {
    FieldsCounted(b);
    FieldsCounted(b[1..]);
    if b[0].Other? {
      OnlyField(env, b[1..]);
    } else {
      assert FieldsIn(b[1..]) == [];
      ParsableCount(env, b[1..]);
    }
  }

  /** How many blocks carry data. */
  function Carrying(blocks: seq<Block>): nat {
    if blocks == [] then 0 else (if DataCount(blocks[0]) > 0 then 1 else 0) + Carrying(blocks[1..])
  }

  lemma {:induction false} CarryingCounts(blocks: seq<Block>)
    ensures Carrying(blocks) <= DataCount(Concat(blocks))
    ensures Carrying(blocks) == DataCount(Concat(blocks)) <==> OneEach(blocks)
  {
    if blocks != [] {
      CarryingCounts(blocks[1..]);
      CountAppend(blocks[0], Concat(blocks[1..]));
      assert OneEach(blocks) ==> OneEach(blocks[1..]) && DataCount(blocks[0]) <= 1;
      assert OneEach(blocks[1..]) && DataCount(blocks[0]) <= 1 ==> OneEach(blocks);
    }
  }

  /** The client yields at most one payload for each block that carries data. */
  lemma {:induction false} ClientYieldsAtMost(env: Env, blocks: seq<Block>)
    requires ValidBlocks(blocks) && AllParsable(env, blocks) && env.parse("[DONE]").None?
    ensures |SseClient.ReadEvents(env, Pieces(blocks)).0| <= Carrying(blocks)
  {
    if blocks != [] {
      ClientYieldsAtMost(env, blocks[1..]);
      BlockInFront(env, blocks[0], Pieces(blocks[1..]));
    }
  }

  /** Of blocks with one data line at most, the client yields every payload. */
  lemma {:induction false} ClientReadsPieces(env: Env, blocks: seq<Block>)
    requires ValidBlocks(blocks) && AllParsable(env, blocks) && env.parse("[DONE]").None? && OneEach(blocks)
    ensures SseClient.ReadEvents(env, Pieces(blocks)) == (PayloadsIn(env, Concat(blocks)), None)
  {
    if blocks != [] {
      ClientReadsPieces(env, blocks[1..]);
      BlockInFront(env, blocks[0], Pieces(blocks[1..]));
      PayloadsAppend(env, blocks[0], Concat(blocks[1..]));
      ParsableCount(env, blocks[0]);
      EmptyAppended(PayloadsIn(env, Concat(blocks[1..])));
    }
  }

  lemma {:induction false} ConcatParsable(env: Env, blocks: seq<Block>)
    requires AllParsable(env, blocks)
    ensures Parsable(env, Concat(blocks))
  {
    if blocks != [] {
      ConcatParsable(env, blocks[1..]);
    }
  }

  /**
    The client yields the payloads of all lines that a blank line follows
    exactly when no block has two data lines.
  */
  lemma ClientYieldsAllExactly(env: Env, blocks: seq<Block>)
    requires ValidBlocks(blocks) && AllParsable(env, blocks) && env.parse("[DONE]").None?
    ensures SseClient.ReadEvents(env, Pieces(blocks)).0 == PayloadsIn(env, Concat(blocks)) <==> OneEach(blocks)
    ensures |SseClient.ReadEvents(env, Pieces(blocks)).0| <= |PayloadsIn(env, Concat(blocks))|
  {
    ConcatParsable(env, blocks);
    ParsableCount(env, Concat(blocks));
    CarryingCounts(blocks);
    ClientYieldsAtMost(env, blocks);
    if OneEach(blocks) {
      ClientReadsPieces(env, blocks);
    }
  }

  lemma MarkerEnds(env: Env, b: Block)
    requires IsMarker(b)
    ensures SseClient.ReadEvents(env, [Piece(b)]) == ([], Some(SseClient.DoneMarker))
  {
    hide Piece;
    ClientReadsBlock(b);
    assert SseClient.JoinLines(["[DONE]"]) == "[DONE]";
  }

  lemma {:induction false} MarkerSaysNothing(env: Env, b: Block)
    requires env.parse("[DONE]").None? && forall i :: 0 <= i < |b| && b[i].Data? ==> b[i].payload == "[DONE]"
    ensures PayloadsIn(env, b) == []
  {
    if b != [] {
      MarkerSaysNothing(env, b[1..]);
    }
  }

  /** The client reads the blocks, and stops at the end marker. */
  lemma ClientReadsFrames(env: Env, frames: Frames)
    requires frames.Valid()
    ensures var read := SseClient.ReadEvents(env, Pieces(frames.blocks));
            SseClient.ReadText(env, frames.Text())
            == (read.0, if read.1.None? && frames.marker.Some? then Some(SseClient.DoneMarker) else read.1)
  {
    var blocks := frames.blocks;
    DrainBlocks(frames.Ended(), frames.Tail());
    DrainTail(frames.open, frames.rest);
    EmptyAppended(Pieces(frames.Ended()));
    if frames.marker.Some? {
      PiecesAppend(blocks, frames.marker.value);
      MarkerEnds(env, frames.marker.value);
      SseClient.ReadEventsAppend(env, Pieces(blocks), [Piece(frames.marker.value)]);
      EmptyAppended(SseClient.ReadEvents(env, Pieces(blocks)).0);
    }
  }

  // --- The same bytes ---------------------------------------------------------------------

  /** The bytes carry the frames, whose payloads all parse; a byte order mark may stand in front. */
  ghost predicate Carries(env: Env, frames: Frames, bom: bool, bytes: seq<byte>) {
    && frames.Valid() && AllParsable(env, frames.blocks) && Parsable(env, frames.open) && env.parse("[DONE]").None?
    && Lossy(bytes) == (if bom then [BYTE_ORDER_MARK] else "") + frames.Text()
    && (!bom ==> SseClient.StripBom(frames.Text()) == frames.Text())
  }

  lemma ClientSeesFrames(env: Env, frames: Frames, bom: bool, bytes: seq<byte>)
    requires Carries(env, frames, bom, bytes)
    ensures var read := SseClient.ReadEvents(env, Pieces(frames.blocks));
            SseClient.ClientSees(env, bytes)
            == (read.0, read.1.GetOr(if frames.marker.Some? then SseClient.DoneMarker else SseClient.Closed))
  {
    var text := frames.Text();
    ClientReadsFrames(env, frames);
    if bom {
      assert ([BYTE_ORDER_MARK] + text)[1..] == text;
    } else {
      EmptyAppended(text);
    }
  }

  lemma EnclaveApplies(sep: string, extract: Extract, payloads: seq<Json>, bytes: seq<byte>, chunks: seq<seq<byte>>)
    requires sep != "" && Concat(chunks) == bytes && Aligned(chunks)
    requires Pending(sep, extract, Lossy(bytes)) == payloads
    ensures FeedAll(sep, extract, START, chunks).events == payloads
  {
    DrainNothing(sep);
    ChunkIndependence(sep, extract, START, chunks);
    EmptyAppended(Lossy(bytes));
    EmptyAppended(payloads);
  }

  /** What the Anthropic accumulator has applied after these chunks. */
  function AnthropicApplied(env: Env, chunks: seq<seq<byte>>): seq<Json> {
    FeedAll(Anthropic.SEPARATOR, Anthropic.Extraction(env), START, chunks).events
  }

  /** What the OpenAI accumulator has applied after these chunks. */
  function OpenAiApplied(env: Env, chunks: seq<seq<byte>>): seq<Json> {
    FeedAll(OpenAi.SEPARATOR, OpenAi.Extraction(env), START, chunks).events
  }

  /** A marker adds nothing to what the enclave applies. */
  lemma EndedPayloads(env: Env, frames: Frames)
    requires frames.Valid() && env.parse("[DONE]").None?
    ensures PayloadsIn(env, Concat(frames.Ended())) == PayloadsIn(env, Concat(frames.blocks))
    ensures PayloadsIn(env, Concat(frames.Ended()) + frames.open) == PayloadsIn(env, Concat(frames.blocks) + frames.open)
  {
    PayloadsAppend(env, Concat(frames.Ended()), frames.open);
    PayloadsAppend(env, Concat(frames.blocks), frames.open);
    if frames.marker.Some? {
      ConcatSnoc(frames.blocks, frames.marker.value);
      PayloadsAppend(env, Concat(frames.blocks), frames.marker.value);
      MarkerSaysNothing(env, frames.marker.value);
      EmptyAppended(PayloadsIn(env, Concat(frames.blocks)));
    }
  }

  /** Whatever character-aligned chunks the enclave receives, each accumulator applies what it reads of the frames. */
  lemma EnclaveReadsFrames(env: Env, frames: Frames, chunks: seq<seq<byte>>)
    requires frames.Valid() && env.parse("[DONE]").None?
    requires Lossy(Concat(chunks)) == frames.Text() && Aligned(chunks)
    ensures AnthropicApplied(env, chunks) == PayloadsIn(env, Concat(frames.blocks))
    ensures OpenAiApplied(env, chunks) == PayloadsIn(env, Concat(frames.blocks) + frames.open)
  {
    var blocks := frames.Ended();
    EndedPayloads(env, frames);
    AnthropicReadsStream(env, blocks, frames.open, frames.rest);
    OpenAiReadsStream(env, blocks, frames.open, frames.rest);
    EnclaveApplies(
      Anthropic.SEPARATOR, Anthropic.Extraction(env), PayloadsIn(env, Concat(blocks)), Concat(chunks), chunks);
    EnclaveApplies(
      OpenAi.SEPARATOR, OpenAi.Extraction(env), PayloadsIn(env, Concat(blocks) + frames.open), Concat(chunks), chunks);
  }

  lemma LongerByOpen(env: Env, lines: Block, open: Block)
    requires Parsable(env, open)
    ensures |PayloadsIn(env, lines + open)| == |PayloadsIn(env, lines)| + DataCount(open)
    ensures DataCount(open) == 0 ==> PayloadsIn(env, lines + open) == PayloadsIn(env, lines)
  {
    PayloadsAppend(env, lines, open);
    ParsableCount(env, open);
    EmptyAppended(PayloadsIn(env, lines));
  }

  /**
    Exactly when the readers agree: the client yields the payloads that the
    Anthropic accumulator applies if and only if no block has two data lines,
    and those that the OpenAI one applies if and only if, besides, no data line
    stands after the last blank line.
  */
  lemma ReadersAgreeExactly(env: Env, frames: Frames, clientChunks: seq<seq<byte>>, enclaveChunks: seq<seq<byte>>)
    requires Carries(env, frames, false, Concat(clientChunks))
    requires Concat(enclaveChunks) == Concat(clientChunks) && Aligned(enclaveChunks)
    ensures var seen := SseClient.ClientSees(env, Concat(clientChunks)).0;
            && (seen == AnthropicApplied(env, enclaveChunks) <==> OneEach(frames.blocks))
            && (seen == OpenAiApplied(env, enclaveChunks) <==> frames.OneDataLineEach())
  {
    hide AnthropicApplied, OpenAiApplied, PayloadsIn, Pieces, SseClient.ClientSees, SseClient.ReadEvents;
    ClientSeesFrames(env, frames, false, Concat(clientChunks));
    ClientYieldsAllExactly(env, frames.blocks);
    EmptyAppended(frames.Text());
    EnclaveReadsFrames(env, frames, enclaveChunks);
    LongerByOpen(env, Concat(frames.blocks), frames.open);
  }

  /**
    Whatever the chunks the client receives, and whatever the character-aligned
    chunks the enclave receives, the client yields the payloads that each
    accumulator applies, and stops at the end marker if there is one.
  */
  lemma ClientAndEnclaveAgree(env: Env, frames: Frames, clientChunks: seq<seq<byte>>, enclaveChunks: seq<seq<byte>>)
    requires Carries(env, frames, false, Concat(clientChunks)) && frames.OneDataLineEach()
    requires Concat(enclaveChunks) == Concat(clientChunks) && Aligned(enclaveChunks)
    ensures var (seen, ending) := SseClient.ClientSees(env, Concat(clientChunks));
            && seen == AnthropicApplied(env, enclaveChunks) == OpenAiApplied(env, enclaveChunks)
            && seen == PayloadsIn(env, Concat(frames.blocks))
            && ending == if frames.marker.Some? then SseClient.DoneMarker else SseClient.Closed
  {
    ReadersAgreeExactly(env, frames, clientChunks, enclaveChunks);
    ClientSeesFrames(env, frames, false, Concat(clientChunks));
    ClientReadsPieces(env, frames.blocks);
  }

  lemma {:induction false} PiecesSplit(blocks: seq<Block>, k: nat)
    requires ValidBlocks(blocks) && k < |blocks|
    ensures Pieces(blocks) == Pieces(blocks[..k]) + ([Piece(blocks[k])] + Pieces(blocks[k + 1..]))
  {
    if k > 0 {
      PiecesSplit(blocks[1..], k - 1);
      assert blocks[1..][..k - 1] == blocks[..k][1..] && blocks[1..][k..] == blocks[k + 1..];
    }
  }

  /** The client stops at the first block whose data does not parse; the accumulators skip it and go on. */
  lemma BadDataEndsClient(
    env: Env, frames: Frames, k: nat, clientChunks: seq<seq<byte>>, enclaveChunks: seq<seq<byte>>)
    requires frames.Valid() && k < |frames.blocks| && env.parse("[DONE]").None?
    requires AllParsable(env, frames.blocks[..k]) && OneEach(frames.blocks[..k])
    requires var fields := FieldsIn(frames.blocks[k]);
             |fields| == 1 && fields[0] != "[DONE]" && env.parse(fields[0]).None?
    requires Lossy(Concat(clientChunks)) == frames.Text() && SseClient.StripBom(frames.Text()) == frames.Text()
    requires Concat(enclaveChunks) == Concat(clientChunks) && Aligned(enclaveChunks)
    ensures SseClient.ClientSees(env, Concat(clientChunks))
         == (PayloadsIn(env, Concat(frames.blocks[..k])), SseClient.BadJson)
    ensures AnthropicApplied(env, enclaveChunks) == PayloadsIn(env, Concat(frames.blocks))
    ensures OpenAiApplied(env, enclaveChunks) == PayloadsIn(env, Concat(frames.blocks) + frames.open)
  {
    hide AnthropicApplied, OpenAiApplied, Piece;
    var blocks := frames.blocks;
    var bad := [Piece(blocks[k])] + Pieces(blocks[k + 1..]);
    ClientReadsFrames(env, frames);
    PiecesSplit(blocks, k);
    ClientReadsPieces(env, blocks[..k]);
    SseClient.ReadEventsAppend(env, Pieces(blocks[..k]), bad);
    ClientReadsBlock(blocks[k]);
    assert SseClient.JoinLines(FieldsIn(blocks[k])) == FieldsIn(blocks[k])[0];
    assert SseClient.ReadEvents(env, bad) == ([], Some(SseClient.BadJson));
    EmptyAppended(PayloadsIn(env, Concat(blocks[..k])));
    EnclaveReadsFrames(env, frames, enclaveChunks);
  }

  // --- A byte order mark ----------------------------------------------------------------------

  /** The first line as the enclave reads it: it keeps the mark, which is no white space. */
  function Marked(b: Block): Block
    requires b != []
  {
    [Other([BYTE_ORDER_MARK] + b[0].Text())] + b[1..]
  }

  lemma MarkedIsValid(b: Block)
    requires ValidBlock(b)
    ensures ValidBlock(Marked(b))
    ensures Unlines(Texts(Marked(b))) == [BYTE_ORDER_MARK] + Unlines(Texts(b))
  {
    LineIsGood(b[0]);
    var first := [BYTE_ORDER_MARK] + b[0].Text();
    assert first[0] == BYTE_ORDER_MARK && TrimStart(first) == first;
    assert Texts(b)[1..] == Texts(b[1..]) && Texts(Marked(b))[1..] == Texts(b[1..]);
    assert [BYTE_ORDER_MARK] + b[0].Text() + "\n" + Unlines(Texts(b[1..]))
        == [BYTE_ORDER_MARK] + (b[0].Text() + "\n" + Unlines(Texts(b[1..])));
  }

  lemma MarkSaysNothing(env: Env, b: Block, lines: Block)
    requires b != []
    ensures PayloadsIn(env, [Marked(b)[0]] + lines) == PayloadsIn(env, lines)
  {
    var first := [Marked(b)[0]];
    assert first[1..] == [] && PayloadsIn(env, first) == [] + [];
    PayloadsAppend(env, first, lines);
    EmptyAppended(PayloadsIn(env, lines));
  }

  /** The lines of frames whose first line is marked. */
  lemma MarkedLines(env: Env, b: Block, others: seq<Block>)
    requires b != []
    ensures PayloadsIn(env, Concat([Marked(b)] + others)) == PayloadsIn(env, Concat([b] + others)[1..])
  {
    hide PayloadsIn, Concat;
    var lines := b[1..] + Concat(others);
    ConcatCons(b, others);
    ConcatCons(Marked(b), others);
    assert Concat([b] + others)[1..] == lines;
    assert Concat([Marked(b)] + others) == [Marked(b)[0]] + lines;
    MarkSaysNothing(env, b, lines);
  }

  lemma MarkedText(b: Block, others: seq<Block>)
    requires ValidBlock(b)
    ensures BlocksText([Marked(b)] + others) == [BYTE_ORDER_MARK] + BlocksText([b] + others)
  {
    MarkedIsValid(b);
    assert ([Marked(b)] + others)[1..] == others && ([b] + others)[1..] == others;
    var u, later := Unlines(Texts(b)), BlocksText(others);
    assert [BYTE_ORDER_MARK] + u + "\n" + later == [BYTE_ORDER_MARK] + (u + "\n" + later);
  }
  /** The frames as the enclave reads them behind a byte order mark. */
  lemma MarkedFrames(env: Env, frames: Frames)
    requires frames.Valid() && frames.blocks != []
    ensures var marked := frames.(blocks := [Marked(frames.blocks[0])] + frames.blocks[1..]);
            && marked.Valid() && marked.Text() == [BYTE_ORDER_MARK] + frames.Text()
            && PayloadsIn(env, Concat(marked.blocks)) == PayloadsIn(env, Concat(frames.blocks)[1..])
  {
    var b, others := frames.blocks[0], frames.blocks[1..];
    MarkedIsValid(b);
    assert frames.blocks == [b] + others;
    MarkedLines(env, b, others);
    MarkedWhole(frames, b, others);
  }

  lemma MarkedWhole(frames: Frames, b: Block, others: seq<Block>)
    requires frames.blocks == [b] + others && ValidBlock(b)
    ensures frames.(blocks := [Marked(b)] + others).Text() == [BYTE_ORDER_MARK] + frames.Text()
  {
    hide Marked, Unlines, Texts, BlocksText;
    var ended := if frames.marker.Some? then others + [frames.marker.value] else others;
    assert frames.Ended() == [b] + ended;
    assert frames.(blocks := [Marked(b)] + others).Ended() == [Marked(b)] + ended;
    MarkedText(b, ended);
    Associative([BYTE_ORDER_MARK], BlocksText(frames.Ended()), frames.Tail());
  }

  /**
    Behind a byte order mark, which the client strips and the enclave keeps, each
    accumulator loses the first line: on frames the readers would agree on, they
    still do exactly when that line carries no data.
  */
  lemma ByteOrderMarkHidesFirstLine(
    env: Env, frames: Frames, clientChunks: seq<seq<byte>>, enclaveChunks: seq<seq<byte>>)
    requires Carries(env, frames, true, Concat(clientChunks)) && frames.OneDataLineEach() && frames.blocks != []
    requires Concat(enclaveChunks) == Concat(clientChunks) && Aligned(enclaveChunks)
    ensures var seen, lines := SseClient.ClientSees(env, Concat(clientChunks)).0, Concat(frames.blocks);
            && seen == PayloadsIn(env, lines)
            && AnthropicApplied(env, enclaveChunks) == OpenAiApplied(env, enclaveChunks)
            && lines != [] && AnthropicApplied(env, enclaveChunks) == PayloadsIn(env, lines[1..])
            && (seen == AnthropicApplied(env, enclaveChunks) <==> lines[0].Other?)
  {
    hide AnthropicApplied, OpenAiApplied, Pieces, SseClient.ClientSees, SseClient.ReadEvents, Unlines, Texts;
    var marked := frames.(blocks := [Marked(frames.blocks[0])] + frames.blocks[1..]);
    ClientSeesFrames(env, frames, true, Concat(clientChunks));
    ClientReadsPieces(env, frames.blocks);
    MarkedFrames(env, frames);
    EnclaveReadsFrames(env, marked, enclaveChunks);
    LongerByOpen(env, Concat(marked.blocks), frames.open);
    ConcatParsable(env, frames.blocks);
    assert Concat(frames.blocks)[0] == frames.blocks[0][0];
  }
}
