/**
  Server-sent-event framing as the enclave's accumulators do it: text is
  buffered, complete pieces are drained, and each piece yields the JSON payloads
  of its data lines.  Both accumulators are this machine with a different
  separator and a different way of reading a piece.
*/
module Sse {
  import opened Prelude
  import opened TextOps
  import opened Json
  import opened Utf8

  /** The payloads a drained piece stands for. */
  type Extract = string -> seq<Json>

  /** What an accumulator has buffered, and every payload it has applied so far. */
  datatype Stream = Stream(buffer: string, events: seq<Json>)

  const START: Stream := Stream("", [])

  function EventsOf(extract: Extract, pieces: seq<string>): seq<Json> {
    if pieces == [] then [] else extract(pieces[0]) + EventsOf(extract, pieces[1..])
  }

  /** Takes every complete piece out of the buffer and applies its payloads. */
  function Settle(sep: string, extract: Extract, st: Stream): (r: Stream)
    requires sep != ""
    ensures Find(r.buffer, sep).None?
  {
    var (pieces, rest) := Drain(st.buffer, sep);
    Stream(rest, st.events + EventsOf(extract, pieces))
  }

  /** One call of `feed` with the decoded text of a chunk. */
  function FeedText(sep: string, extract: Extract, st: Stream, text: string): (r: Stream)
    requires sep != ""
    ensures Find(r.buffer, sep).None?
  {
    Settle(sep, extract, Stream(st.buffer + text, st.events))
  }

  /** One call of `feed`: the chunk is decoded on its own. */
  function Feed(sep: string, extract: Extract, st: Stream, chunk: seq<byte>): Stream
    requires sep != ""
  {
    FeedText(sep, extract, st, Lossy(chunk))
  }

  function FeedAll(sep: string, extract: Extract, st: Stream, chunks: seq<seq<byte>>): Stream
    requires sep != ""
    decreases |chunks|
  {
    if chunks == [] then st else FeedAll(sep, extract, Feed(sep, extract, st, chunks[0]), chunks[1..])
  }

  lemma {:induction false} FeedAllSnoc(sep: string, extract: Extract, st: Stream, chunks: seq<seq<byte>>, last: seq<byte>)
    requires sep != ""
    ensures FeedAll(sep, extract, st, chunks + [last]) == Feed(sep, extract, FeedAll(sep, extract, st, chunks), last)
    decreases |chunks|
  {
    if chunks == [] {
      assert chunks + [last] == [last];
    } else {
      FeedAllSnoc(sep, extract, Feed(sep, extract, st, chunks[0]), chunks[1..], last);
      assert (chunks + [last])[1..] == chunks[1..] + [last];
    }
  }

  lemma {:induction false} EventsAppend(extract: Extract, a: seq<string>, b: seq<string>)
    ensures EventsOf(extract, a + b) == EventsOf(extract, a) + EventsOf(extract, b)
  {
    if a == [] {
      assert a + b == b;
    } else {
      assert (a + b)[1..] == a[1..] + b;
      EventsAppend(extract, a[1..], b);
      Associative(extract(a[0]), EventsOf(extract, a[1..]), EventsOf(extract, b));
    }
  }

  /** The payloads still to be applied from a buffer. */
  function Pending(sep: string, extract: Extract, buffer: string): seq<Json>
    requires sep != ""
  {
    EventsOf(extract, Drain(buffer, sep).0)
  }

  /** Taking one piece out of the buffer and applying its payloads is one step of settling. */
  lemma SettleStep(sep: string, extract: Extract, st: Stream, p: nat)
    requires sep != "" && Find(st.buffer, sep) == Some(p)
    ensures Settle(sep, extract, st)
         == Settle(sep, extract, Stream(st.buffer[p + |sep|..], st.events + extract(st.buffer[..p])))
  {
    DrainStep(st.buffer, sep, p);
    var rest := Drain(st.buffer[p + |sep|..], sep).0;
    assert ([st.buffer[..p]] + rest)[1..] == rest;
    Associative(st.events, extract(st.buffer[..p]), EventsOf(extract, rest));
  }

  lemma Settled(sep: string, extract: Extract, st: Stream)
    requires sep != "" && Find(st.buffer, sep).None?
    ensures Settle(sep, extract, st) == st
  {
    assert st.events + [] == st.events;
  }

  /** The pending payloads of a text whose drained pieces are known. */
  lemma PendingPieces(sep: string, extract: Extract, text: string, pieces: seq<string>, rest: string)
    requires sep != "" && Drain(text, sep).0 == pieces + Drain(rest, sep).0
    ensures Pending(sep, extract, text) == EventsOf(extract, pieces) + Pending(sep, extract, rest)
  {
    EventsAppend(extract, pieces, Drain(rest, sep).0);
  }

  lemma OnePiece(extract: Extract, piece: string)
    ensures EventsOf(extract, [piece]) == extract(piece)
  {
    var none: seq<string> := [];
    assert [piece][1..] == none;
    assert extract(piece) + [] == extract(piece);
  }

  /** Two chunks of text leave the same buffer and the same payloads as their concatenation. */
  lemma FeedTwice(sep: string, extract: Extract, st: Stream, a: string, b: string)
    requires sep != ""
    ensures FeedText(sep, extract, FeedText(sep, extract, st, a), b) == FeedText(sep, extract, st, a + b)
  {
    var first := st.buffer + a;
    Associative(st.buffer, a, b);
    DrainAppend(first, b, sep);
    var (pieces, rest) := Drain(first, sep);
    var more := Drain(rest + b, sep).0;
    EventsAppend(extract, pieces, more);
    Associative(st.events, EventsOf(extract, pieces), EventsOf(extract, more));
  }

  /** Every cut between chunks falls between two encoded characters. */
  predicate Aligned(chunks: seq<seq<byte>>) {
    chunks != [] ==> !CutsSequence(chunks[0], Concat(chunks[1..])) && Aligned(chunks[1..])
  }

  /** The texts of separately decoded chunks. */
  function LossyEach(chunks: seq<seq<byte>>): string {
    if chunks == [] then "" else Lossy(chunks[0]) + LossyEach(chunks[1..])
  }

  lemma {:induction false} LossyEachIsLonger(chunks: seq<seq<byte>>)
    ensures |Lossy(Concat(chunks))| <= |LossyEach(chunks)|
    ensures !Aligned(chunks) ==> |Lossy(Concat(chunks))| < |LossyEach(chunks)|
  {
    if chunks == [] {
      assert Lossy([]) == "";
    } else {
      LossyEachIsLonger(chunks[1..]);
      CutsAddCharacters(chunks[0], Concat(chunks[1..]));
    }
  }

  /** Decoding chunk by chunk gives the text of all bytes together exactly when no cut falls inside a character. */
  lemma {:induction false} AlignedText(chunks: seq<seq<byte>>)
    ensures LossyEach(chunks) == Lossy(Concat(chunks)) <==> Aligned(chunks)
  {
    LossyEachIsLonger(chunks);
    if chunks == [] {
      assert Lossy([]) == "";
    } else if Aligned(chunks) {
      AlignedText(chunks[1..]);
      LossyChunksIffAligned(chunks[0], Concat(chunks[1..]));
    }
  }

  lemma {:induction false} FeedAllIsText(sep: string, extract: Extract, st: Stream, chunks: seq<seq<byte>>)
    requires sep != "" && Find(st.buffer, sep).None?
    ensures FeedAll(sep, extract, st, chunks) == FeedText(sep, extract, st, LossyEach(chunks))
    decreases |chunks|
  {
    if chunks == [] {
      assert st.buffer + "" == st.buffer && st.events + [] == st.events;
    } else {
      FeedAllIsText(sep, extract, Feed(sep, extract, st, chunks[0]), chunks[1..]);
      FeedTwice(sep, extract, st, Lossy(chunks[0]), LossyEach(chunks[1..]));
    }
  }

  /**
    Feeding character-aligned chunks one after the other reaches the same state,
    leftover buffer included, as feeding their concatenation at once.
  */
  lemma ChunkIndependence(sep: string, extract: Extract, st: Stream, chunks: seq<seq<byte>>)
    requires sep != "" && Find(st.buffer, sep).None?
    requires Aligned(chunks)
    ensures FeedAll(sep, extract, st, chunks) == Feed(sep, extract, st, Concat(chunks))
  {
    FeedAllIsText(sep, extract, st, chunks);
    AlignedText(chunks);
  }

  /**
    Without a separator in either text, feeding the chunks reaches the state of
    feeding them together exactly when they are aligned: a cut inside a character
    shows in the buffer.
  */
  lemma UnalignedShows(sep: string, extract: Extract, chunks: seq<seq<byte>>)
    requires sep != "" && Find(LossyEach(chunks), sep).None? && Find(Lossy(Concat(chunks)), sep).None?
    ensures FeedAll(sep, extract, START, chunks) == Feed(sep, extract, START, Concat(chunks)) <==> Aligned(chunks)
  {
    var each, whole := LossyEach(chunks), Lossy(Concat(chunks));
    assert Find("", sep).None?;
    assert "" + each == each && "" + whole == whole;
    FeedAllIsText(sep, extract, START, chunks);
    TailOnlyBuffered(sep, extract, START, each);
    TailOnlyBuffered(sep, extract, START, whole);
    AlignedText(chunks);
  }

  /** Without a separator to end it, fed text is only buffered: no payload is applied. */
  lemma TailOnlyBuffered(sep: string, extract: Extract, st: Stream, text: string)
    requires sep != "" && Find(st.buffer + text, sep).None?
    ensures FeedText(sep, extract, st, text) == Stream(st.buffer + text, st.events)
  {
    assert st.events + [] == st.events;
  }

  // --- Lines ------------------------------------------------------------------

  /** Rust's `lines()`: split at each line feed, one carriage return before it dropped; no line after the last one. */
  function Lines(s: string): seq<string> {
    var (pieces, rest) := Drain(s, "\n");
    StripEach(pieces) + if rest == "" then [] else [rest]
  }

  function StripEach(pieces: seq<string>): seq<string> {
    if pieces == [] then [] else [StripSuffixChar(pieces[0], CR)] + StripEach(pieces[1..])
  }

  /** The payload text of a line that carries data: after "data:", trimmed, if anything is left. */
  function DataOf(line: string): Option<string> {
    match StripPrefix(line, "data:")
    case None => None
    case Some(rest) =>
      var data := Trim(rest);
      if data == "" then None else Some(data)
  }
}
