/**
  Events as bytes: each printed as a text the JSON parser reads back, one data
  line a block.
*/
module Printing {
  import opened Prelude
  import opened TextOps
  import opened Json
  import opened Utf8
  import opened Framing
  import opened SameEvents
  import SseClient

  /** Texts the JSON parser reads as these events, each fit to be a payload. */
  ghost predicate Prints(env: Env, texts: seq<string>, events: seq<Json>) {
    && |texts| == |events| && env.parse("[DONE]").None?
    && forall k :: 0 <= k < |texts| ==>
         && texts[k] != "" && Trimmed(texts[k]) && LF !in texts[k]
         && env.parse(texts[k]) == Some(events[k])
  }

  /** A block of one data line for each text. */
  function Blocks(texts: seq<string>): (r: seq<Block>)
    ensures |r| == |texts| && forall k :: 0 <= k < |r| ==> r[k] == [Data("", texts[k], "")]
  {
    seq(|texts|, k requires 0 <= k < |texts| => [Data("", texts[k], "")])
  }

  function FramesOf(texts: seq<string>): Frames {
    Frames(Blocks(texts), None, [], "")
  }

  lemma BlockCarries(env: Env, text: string)
    requires text != "" && Trimmed(text) && LF !in text && env.parse(text).Some?
    ensures var b := [Data("", text, "")];
            && ValidBlock(b) && DataCount(b) == 1 && Parsable(env, b)
            && PayloadsIn(env, b) == [env.parse(text).value]
  {
    assert "" + text + "" == text;
    assert IsWhitespace(CR) && IsWhitespace(' ');
    var b := [Data("", text, "")];
    assert b[1..] == [] && PayloadsIn(env, []) == [];
  }

  lemma {:induction false} PrintedPayloads(env: Env, texts: seq<string>, events: seq<Json>)
    requires Prints(env, texts, events)
    ensures PayloadsIn(env, Concat(Blocks(texts))) == events
  {
    if texts != [] {
      var n := |texts| - 1;
      PrintedPayloads(env, texts[..n], events[..n]);
      BlockCarries(env, texts[n]);
      assert Blocks(texts) == Blocks(texts[..n]) + [[Data("", texts[n], "")]];
      ConcatSnoc(Blocks(texts[..n]), [Data("", texts[n], "")]);
      PayloadsAppend(env, Concat(Blocks(texts[..n])), [Data("", texts[n], "")]);
      assert events == events[..n] + [events[n]];
    }
  }

  lemma NoMark(texts: seq<string>)
    ensures SseClient.StripBom(FramesOf(texts).Text()) == FramesOf(texts).Text()
  {
    if texts != [] {
      var b := [Data("", texts[0], "")];
      assert Texts(b)[0] == b[0].Text() && b[0].Text()[0] == 'd';
      assert FramesOf(texts).Text()[0] == 'd';
    }
  }

  /** Printed events, framed one a block, are seen by the client and read alike by the enclave. */
  lemma PrintedAreSeen(env: Env, texts: seq<string>, events: seq<Json>, bytes: seq<byte>)
    requires Prints(env, texts, events) && Lossy(bytes) == FramesOf(texts).Text()
    ensures Carries(env, FramesOf(texts), false, bytes) && FramesOf(texts).OneDataLineEach()
    ensures SseClient.ClientSees(env, bytes).0 == events
  {
    var frames := FramesOf(texts);
    forall k | 0 <= k < |frames.blocks|
      ensures ValidBlock(frames.blocks[k]) && DataCount(frames.blocks[k]) == 1 && Parsable(env, frames.blocks[k])
    {
      BlockCarries(env, texts[k]);
    }
    NoMark(texts);
    assert "" + frames.Text() == frames.Text();
    PrintedPayloads(env, texts, events);
    ClientSeesFrames(env, frames, false, bytes);
    ClientReadsPieces(env, frames.blocks);
  }

  // --- Any events can be printed ------------------------------------------------------------

  function Ones(n: nat): (s: string)
    ensures |s| == n && IsOnes(s)
  {
    seq(n, _ => '1')
  }

  predicate IsOnes(s: string) {
    forall i :: 0 <= i < |s| ==> s[i] == '1'
  }

  /** The parser that reads `k + 1` ones as the event at `k`, no end marker, and all else as before. */
  function Counting(env: Env, events: seq<Json>): Env {
    env.(parse := (s: string) =>
      if IsOnes(s) && 0 < |s| <= |events| then Some(events[|s| - 1])
      else if s == "[DONE]" then None
      else env.parse(s))
  }

  function Counted(n: nat): (texts: seq<string>)
    ensures |texts| == n && forall k :: 0 <= k < n ==> texts[k] == Ones(k + 1)
  {
    seq(n, k requires 0 <= k < n => Ones(k + 1))
  }

  lemma CountedPrints(env: Env, events: seq<Json>)
    ensures Prints(Counting(env, events), Counted(|events|), events)
  {
    assert !IsOnes("[DONE]") by {
      assert "[DONE]"[0] != '1';
    }
    assert !IsWhitespace('1') && LF != '1';
  }

  predicate IsAscii(s: string) {
    forall i :: 0 <= i < |s| ==> s[i] as int < 0x80
  }

  /** The bytes of an ASCII text. */
  function AsciiBytes(s: string): (bytes: seq<byte>)
    requires IsAscii(s)
    ensures |bytes| == |s|
  {
    seq(|s|, i requires 0 <= i < |s| => s[i] as int)
  }

  lemma {:induction false} LossyAscii(s: string)
    requires IsAscii(s)
    ensures Lossy(AsciiBytes(s)) == s
  {
    if s != "" {
      LossyAscii(s[1..]);
      var bytes := AsciiBytes(s);
      assert Span(bytes, 1) == 1;
      assert bytes[1..] == AsciiBytes(s[1..]);
      assert Scalar(bytes[..1]) == s[0];
    }
  }

  lemma BlockIsAscii(n: nat)
    ensures IsAscii(Unlines(Texts([Data("", Ones(n), "")])) + "\n")
  {
    var b := [Data("", Ones(n), "")];
    assert Texts(b) == ["data:" + ("" + Ones(n) + "")] && Texts(b)[1..] == [];
    assert Unlines(Texts(b)) == "data:" + ("" + Ones(n) + "") + "\n" + "";
  }

  lemma {:induction false} BlocksAreAscii(n: nat, k: nat)
    requires k <= n
    ensures IsAscii(BlocksText(Blocks(Counted(n))[k..]))
    decreases n - k
  {
    var blocks := Blocks(Counted(n));
    if k < n {
      BlocksAreAscii(n, k + 1);
      BlockIsAscii(k + 1);
      assert blocks[k..][1..] == blocks[k + 1..];
      var first := Unlines(Texts(blocks[k])) + "\n";
      assert BlocksText(blocks[k..]) == first + BlocksText(blocks[k + 1..]);
    }
  }

  /** For any events there are a parser, texts it reads as them, and bytes that carry the texts. */
  lemma SomethingPrints(env: Env, events: seq<Json>) returns (reader: Env, texts: seq<string>, bytes: seq<byte>)
    ensures reader == Counting(env, events) && Prints(reader, texts, events)
    ensures Lossy(bytes) == FramesOf(texts).Text()
  {
    reader, texts := Counting(env, events), Counted(|events|);
    CountedPrints(env, events);
    BlocksAreAscii(|events|, 0);
    var text := BlocksText(Blocks(texts));
    assert Blocks(texts)[0..] == Blocks(texts);
    assert FramesOf(texts).Text() == text + ("" + "") && text + ("" + "") == text;
    bytes := AsciiBytes(text);
    LossyAscii(text);
  }
}
