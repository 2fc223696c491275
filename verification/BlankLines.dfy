/**
  Blank lines with a carriage return.  The client and the Anthropic accumulator
  look for two line feeds in a row, so such a line ends nothing: to them it is
  one more line of a block.
*/
module BlankLines {
  import opened Prelude
  import opened TextOps
  import opened Json
  import opened Utf8
  import opened Sse
  import opened Framing
  import opened SameEvents
  import SseClient
  import Anthropic

  /** An event's lines, and whether the blank line after them is bare or holds a carriage return. */
  datatype Event = Event(lines: Block, bare: bool)

  const RETURN: Line := Other("\r")

  /** Every event has one data line. */
  predicate ValidEvents(events: seq<Event>) {
    forall i :: 0 <= i < |events| ==> ValidBlock(events[i].lines) && DataCount(events[i].lines) == 1
  }

  predicate EventsParsable(env: Env, events: seq<Event>) {
    forall i :: 0 <= i < |events| ==> Parsable(env, events[i].lines)
  }

  predicate AllBare(events: seq<Event>) {
    forall i :: 0 <= i < |events| ==> events[i].bare
  }

  predicate SomeBare(events: seq<Event>) {
    exists i :: 0 <= i < |events| && events[i].bare
  }

  function EventsText(events: seq<Event>): string {
    if events == [] then ""
    else Unlines(Texts(events[0].lines)) + Ending(events[0].bare) + EventsText(events[1..])
  }

  function EventLines(events: seq<Event>): Block {
    if events == [] then [] else events[0].lines + EventLines(events[1..])
  }

  /** The events up to the last one that a bare blank line ends. */
  function UpToLastBare(events: seq<Event>): seq<Event> {
    if SomeBare(events) then [events[0]] + UpToLastBare(events[1..]) else []
  }

  /** What blocks and open lines become with an event in front. */
  function InFront(e: Event, blocks: seq<Block>, open: Block): (seq<Block>, Block) {
    if e.bare then ([e.lines] + blocks, open)
    else if blocks == [] then ([], e.lines + [RETURN] + open)
    else ([e.lines + [RETURN] + blocks[0]] + blocks[1..], open)
  }

  /** The blocks the events run together to, and the lines that no bare blank line ends. */
  function Grouped(events: seq<Event>): (seq<Block>, Block) {
    if events == [] then ([], [])
    else
      var (blocks, open) := Grouped(events[1..]);
      InFront(events[0], blocks, open)
  }

  function FramesOf(events: seq<Event>): Frames {
    Frames(Grouped(events).0, None, Grouped(events).1, "")
  }

  lemma ReturnIsOther()
    ensures RETURN.Valid() && RETURN.Other? && TrimStart("\r") == "" && Texts([RETURN]) == ["\r"]
  {
    assert "\r"[1..] == "";
  }

  lemma RunTogether(lines: Block, more: Block)
    requires ValidBlock(lines) && ValidLines(more)
    ensures ValidBlock(lines + [RETURN] + more)
    ensures Unlines(Texts(lines + [RETURN] + more)) == Unlines(Texts(lines)) + "\r\n" + Unlines(Texts(more))
  {
    ReturnIsOther();
    assert Texts(lines + [RETURN] + more) == Texts(lines) + (["\r"] + Texts(more));
    UnlinesAppend(Texts(lines), ["\r"] + Texts(more));
    assert (["\r"] + Texts(more))[1..] == Texts(more);
    assert "\r" + "\n" == "\r\n";
    Associative(Unlines(Texts(lines)), "\r\n", Unlines(Texts(more)));
  }

  function TextOf(blocks: seq<Block>, open: Block): string {
    BlocksText(blocks) + Unlines(Texts(open))
  }

  function Ending(bare: bool): string {
    if bare then "\n" else "\r\n"
  }

  lemma BlocksCons(b: Block, blocks: seq<Block>)
    ensures BlocksText([b] + blocks) == Unlines(Texts(b)) + "\n" + BlocksText(blocks)
    ensures Concat([b] + blocks) == b + Concat(blocks)
  {
    assert ([b] + blocks)[1..] == blocks;
  }

  lemma InFrontText(e: Event, blocks: seq<Block>, open: Block)
    requires ValidBlock(e.lines) && ValidBlocks(blocks) && ValidLines(open)
    ensures var (bs, o) := InFront(e, blocks, open);
            && ValidBlocks(bs) && ValidLines(o)
            && TextOf(bs, o) == Unlines(Texts(e.lines)) + Ending(e.bare) + TextOf(blocks, open)
  {
    hide Unlines, Texts, BlocksText;
    var u, tail := Unlines(Texts(e.lines)), Unlines(Texts(open));
    if e.bare {
      BlocksCons(e.lines, blocks);
      Associative(u + "\n", BlocksText(blocks), tail);
    } else if blocks == [] {
      RunTogether(e.lines, open);
      NoBlocks();
      EmptyAppended(tail);
      EmptyAppended(u + "\r\n" + tail);
    } else {
      var b, later := blocks[0], BlocksText(blocks[1..]);
      RunTogether(e.lines, b);
      assert blocks == [b] + blocks[1..];
      BlocksCons(b, blocks[1..]);
      BlocksCons(e.lines + [RETURN] + b, blocks[1..]);
      var v := Unlines(Texts(b));
      assert (u + "\r\n" + v) + "\n" + later + tail == u + "\r\n" + (v + "\n" + later + tail);
    }
  }

  lemma NoBlocks()
    ensures BlocksText([]) == ""
  {}
  /** Running events together does not change the text. */
  lemma {:induction false} GroupedText(events: seq<Event>)
    requires ValidEvents(events)
    ensures FramesOf(events).Valid() && FramesOf(events).Text() == EventsText(events)
  {
    hide InFront, Unlines, Texts, ValidBlock, ValidLines;
    if events == [] {
      NothingGrouped();
    } else {
      GroupedText(events[1..]);
      var (blocks, open) := Grouped(events[1..]);
      InFrontText(events[0], blocks, open);
      EmptyAppended(Unlines(Texts(open)));
      EmptyAppended(Unlines(Texts(Grouped(events).1)));
    }
  }

  lemma NothingGrouped()
    ensures FramesOf([]).Valid() && FramesOf([]).Text() == ""
  {}

  lemma InFrontParsable(env: Env, e: Event, blocks: seq<Block>, open: Block)
    requires Parsable(env, e.lines) && AllParsable(env, blocks) && Parsable(env, open)
    ensures AllParsable(env, InFront(e, blocks, open).0) && Parsable(env, InFront(e, blocks, open).1)
  {}

  lemma {:induction false} GroupedParsable(env: Env, events: seq<Event>)
    requires EventsParsable(env, events)
    ensures AllParsable(env, Grouped(events).0) && Parsable(env, Grouped(events).1)
  {
    if events != [] {
      GroupedParsable(env, events[1..]);
      InFrontParsable(env, events[0], Grouped(events[1..]).0, Grouped(events[1..]).1);
    }
  }

  lemma RunTogetherPayloads(env: Env, lines: Block, more: Block)
    ensures PayloadsIn(env, lines + [RETURN] + more) == PayloadsIn(env, lines) + PayloadsIn(env, more)
  {
    PayloadsAppend(env, lines + [RETURN], more);
    PayloadsAppend(env, lines, [RETURN]);
    assert [RETURN][1..] == [] && PayloadsIn(env, [RETURN]) == [];
    EmptyAppended(PayloadsIn(env, lines));
  }

  lemma InFrontPayloads(env: Env, e: Event, blocks: seq<Block>, open: Block)
    ensures var (bs, o) := InFront(e, blocks, open);
            && (e.bare || blocks != [] ==>
                  bs != [] && PayloadsIn(env, Concat(bs)) == PayloadsIn(env, e.lines) + PayloadsIn(env, Concat(blocks)))
            && (!e.bare && blocks == [] ==> bs == [])
            && PayloadsIn(env, Concat(bs) + o) == PayloadsIn(env, e.lines) + PayloadsIn(env, Concat(blocks) + open)
  {
    if e.bare {
      BlocksCons(e.lines, blocks);
      Associative(e.lines, Concat(blocks), open);
      PayloadsAppend(env, e.lines, Concat(blocks));
      PayloadsAppend(env, e.lines, Concat(blocks) + open);
    } else if blocks == [] {
      EmptyAppended(open);
      EmptyAppended(e.lines + [RETURN] + open);
      RunTogetherPayloads(env, e.lines, open);
    } else {
      var later := Concat(blocks[1..]);
      assert blocks == [blocks[0]] + blocks[1..];
      BlocksCons(blocks[0], blocks[1..]);
      BlocksCons(e.lines + [RETURN] + blocks[0], blocks[1..]);
      Associative(e.lines + [RETURN], blocks[0], later);
      Associative(e.lines + [RETURN], Concat(blocks), open);
      RunTogetherPayloads(env, e.lines, Concat(blocks));
      RunTogetherPayloads(env, e.lines, Concat(blocks) + open);
    }
  }

  lemma SomeBareStep(events: seq<Event>)
    requires events != []
    ensures SomeBare(events) <==> events[0].bare || SomeBare(events[1..])
    ensures AllBare(events) <==> events[0].bare && AllBare(events[1..])
  {
    var rest := events[1..];
    if i :| 0 <= i < |events| && events[i].bare {
      assert i > 0 ==> rest[i - 1].bare;
    }
    if i :| 0 <= i < |rest| && rest[i].bare {
      assert events[i + 1].bare;
    }
    if AllBare(rest) && events[0].bare {
      forall i | 0 <= i < |events| ensures events[i].bare {
        assert i > 0 ==> rest[i - 1].bare;
      }
    }
  }

  /** Blocks hold the events up to the last bare blank line; blocks and open lines hold them all. */
  lemma {:induction false} GroupedPayloads(env: Env, events: seq<Event>)
    ensures var (blocks, open) := Grouped(events);
            && (blocks != [] <==> SomeBare(events))
            && PayloadsIn(env, Concat(blocks)) == PayloadsIn(env, EventLines(UpToLastBare(events)))
            && PayloadsIn(env, Concat(blocks) + open) == PayloadsIn(env, EventLines(events))
  {
    if events != [] {
      var (blocks, open) := Grouped(events[1..]);
      GroupedPayloads(env, events[1..]);
      SomeBareStep(events);
      InFrontPayloads(env, events[0], blocks, open);
      PayloadsAppend(env, events[0].lines, EventLines(events[1..]));
      if SomeBare(events) {
        var kept := UpToLastBare(events[1..]);
        assert ([events[0]] + kept)[1..] == kept;
        PayloadsAppend(env, events[0].lines, EventLines(kept));
      }
    }
  }

  /** Every block carries data. */
  predicate AllCarry(blocks: seq<Block>) {
    forall i :: 0 <= i < |blocks| ==> DataCount(blocks[i]) > 0
  }

  lemma RunTogetherCount(lines: Block, more: Block)
    ensures DataCount(lines + [RETURN] + more) == DataCount(lines) + DataCount(more)
  {
    CountAppend(lines + [RETURN], more);
    CountAppend(lines, [RETURN]);
    assert [RETURN][1..] == [];
  }

  lemma CountsCons(b: Block, blocks: seq<Block>)
    ensures OneEach([b] + blocks) <==> DataCount(b) <= 1 && OneEach(blocks)
    ensures AllCarry([b] + blocks) <==> DataCount(b) > 0 && AllCarry(blocks)
  {
    var all := [b] + blocks;
    assert all[0] == b && forall i :: 0 <= i < |blocks| ==> all[i + 1] == blocks[i];
  }

  lemma InFrontCounts(e: Event, blocks: seq<Block>, open: Block)
    requires DataCount(e.lines) == 1 && AllCarry(blocks)
    ensures var (bs, o) := InFront(e, blocks, open);
            && AllCarry(bs)
            && (OneEach(bs) <==> OneEach(blocks) && (e.bare || blocks == []))
            && (OneEach(bs) && DataCount(o) == 0 <==> e.bare && OneEach(blocks) && DataCount(open) == 0)
  {
    hide OneEach, DataCount;
    if e.bare {
      CountsCons(e.lines, blocks);
    } else if blocks == [] {
      RunTogetherCount(e.lines, open);
    } else {
      RunTogetherCount(e.lines, blocks[0]);
      assert blocks == [blocks[0]] + blocks[1..];
      CountsCons(blocks[0], blocks[1..]);
      CountsCons(e.lines + [RETURN] + blocks[0], blocks[1..]);
    }
  }

  /** Blocks have one data line each exactly when the blank lines are bare. */
  lemma {:induction false} GroupedCounts(events: seq<Event>)
    requires ValidEvents(events)
    ensures var (blocks, open) := Grouped(events);
            && AllCarry(blocks)
            && (OneEach(blocks) <==> AllBare(UpToLastBare(events)))
            && (OneEach(blocks) && DataCount(open) == 0 <==> AllBare(events))
  {
    if events != [] {
      var (blocks, open) := Grouped(events[1..]);
      GroupedCounts(events[1..]);
      GroupedPayloads(Env(_ => None, _ => "", _ => ""), events[1..]);
      SomeBareStep(events);
      InFrontCounts(events[0], blocks, open);
      if SomeBare(events) {
        var kept := UpToLastBare(events[1..]);
        assert ([events[0]] + kept)[1..] == kept;
        SomeBareStep([events[0]] + kept);
      }
    }
  }

  // --- The readers ----------------------------------------------------------------------

  /** The bytes carry the events, and do not begin with a byte order mark. */
  ghost predicate CarriesEvents(env: Env, events: seq<Event>, bytes: seq<byte>) {
    && ValidEvents(events) && EventsParsable(env, events) && env.parse("[DONE]").None?
    && Lossy(bytes) == EventsText(events) && SseClient.StripBom(EventsText(events)) == EventsText(events)
  }

  /**
    Which of the readers agree is decided by the blank lines.  The OpenAI
    accumulator applies every payload; the Anthropic one those up to the last
    bare blank line.  The client yields every payload exactly when every blank
    line is bare, and what the Anthropic accumulator applies exactly when no
    other one comes before a bare one.
  */
  lemma BareBlankLinesDecide(
    env: Env, events: seq<Event>, clientChunks: seq<seq<byte>>, enclaveChunks: seq<seq<byte>>)
    requires CarriesEvents(env, events, Concat(clientChunks))
    requires Concat(enclaveChunks) == Concat(clientChunks) && Aligned(enclaveChunks)
    ensures var seen, all := SseClient.ClientSees(env, Concat(clientChunks)).0, PayloadsIn(env, EventLines(events));
            && OpenAiApplied(env, enclaveChunks) == all
            && AnthropicApplied(env, enclaveChunks) == PayloadsIn(env, EventLines(UpToLastBare(events)))
            && (seen == all <==> AllBare(events))
            && (seen == AnthropicApplied(env, enclaveChunks) <==> AllBare(UpToLastBare(events)))
  {
    hide AnthropicApplied, OpenAiApplied, SseClient.ClientSees;
    GroupedText(events);
    GroupedParsable(env, events);
    GroupedPayloads(env, events);
    GroupedCounts(events);
    EmptyAppended(EventsText(events));
    EnclaveReadsFrames(env, FramesOf(events), enclaveChunks);
    ReadersAgreeExactly(env, FramesOf(events), clientChunks, enclaveChunks);
  }

  /**
    When no blank line is bare, the readers disagree altogether: the OpenAI
    accumulator applies every payload, the Anthropic one and the client none.
  */
  lemma CarriageReturnsDivideReaders(
    env: Env, events: seq<Event>, clientChunks: seq<seq<byte>>, enclaveChunks: seq<seq<byte>>)
    requires CarriesEvents(env, events, Concat(clientChunks)) && !SomeBare(events)
    requires Concat(enclaveChunks) == Concat(clientChunks) && Aligned(enclaveChunks)
    ensures OpenAiApplied(env, enclaveChunks) == PayloadsIn(env, EventLines(events))
    ensures AnthropicApplied(env, enclaveChunks) == [] == SseClient.ClientSees(env, Concat(clientChunks)).0
  {
    BareBlankLinesDecide(env, events, clientChunks, enclaveChunks);
  }

  // --- Any text -------------------------------------------------------------------------

  predicate FollowsReturns(text: string) {
    forall i :: 0 <= i < |text| && text[i] == LF ==> i > 0 && text[i - 1] == CR
  }

  /** In any text whose every line feed follows a carriage return, there is no event for the client to read. */
  lemma CarriageReturnFramingIsNotRead(env: Env, text: string)
    requires FollowsReturns(text)
    ensures SseClient.ReadText(env, text) == ([], None)
    ensures Pending(Anthropic.SEPARATOR, Anthropic.Extraction(env), text) == []
  {
    forall j: nat ensures !OccursAt(text, "\n\n", j) {
      if j + 2 <= |text| {
        assert text[j..j + 2] == [text[j], text[j + 1]];
      }
    }
  }
}
