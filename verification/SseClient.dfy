/** The SDK's server-sent-event reader: a stateful text decoder, then blank-line framing, then JSON. */
module SseClient {
  import opened Prelude
  import opened TextOps
  import opened Json
  import opened Utf8

  const BLANK_LINE: string := "\n\n"

  // --- Text decoding -------------------------------------------------------------

  function StripBom(text: string): string {
    if text != "" && text[0] == BYTE_ORDER_MARK then text[1..] else text
  }

  lemma StripBomAppend(a: string, b: string)
    ensures StripBom(a + b) == if a == "" then StripBom(b) else StripBom(a) + b
  {
    if a == "" {
      assert a + b == b;
    } else {
      assert (a + b)[1..] == a[1..] + b;
    }
  }

  /** Text a streaming decoder has produced after `bytes`, an unfinished character held back. */
  function Streamed(bytes: seq<byte>): string {
    StripBom(DecodePrefix(bytes).0)
  }

  /** Text of a whole stream of bytes. */
  function Decoded(bytes: seq<byte>): string {
    StripBom(Lossy(bytes))
  }

  /** What one more chunk adds to the text, to the unfinished tail and to whether any text was seen. */
  lemma StreamedStep(bytes: seq<byte>, chunk: seq<byte>)
    ensures var (text, tail) := DecodePrefix(DecodePrefix(bytes).1 + chunk);
            && DecodePrefix(bytes + chunk).1 == tail
            && (DecodePrefix(bytes + chunk).0 == "" <==> DecodePrefix(bytes).0 == "" && text == "")
            && Streamed(bytes + chunk)
               == Streamed(bytes) + if DecodePrefix(bytes).0 == "" then StripBom(text) else text
  {
    DecodePrefixSplits(bytes, chunk);
    StripBomAppend(DecodePrefix(bytes).0, DecodePrefix(DecodePrefix(bytes).1 + chunk).0);
  }

  /** A `TextDecoder` used with `stream: true`. */
  class TextDecoder {
    var pending: seq<byte>
    var bomSeen: bool
    /** Every byte given to the decoder. */
    ghost var consumed: seq<byte>

    ghost predicate Valid()
      reads this
    {
      pending == DecodePrefix(consumed).1 && bomSeen == (DecodePrefix(consumed).0 != "")
    }

    constructor ()
      ensures Valid() && consumed == []
    {
      pending, bomSeen, consumed := [], false, [];
    }

    method Decode(chunk: seq<byte>) returns (out: string)
      requires Valid()
      modifies this
      ensures Valid() && consumed == old(consumed) + chunk
      ensures Streamed(consumed) == Streamed(old(consumed)) + out
    {
      StreamedStep(consumed, chunk);
      var (text, tail) := DecodePrefix(pending + chunk);
      out := text;
      if !bomSeen && text != "" {
        bomSeen := true;
        out := StripBom(text);
      }
      pending := tail;
      consumed := consumed + chunk;
    }

    /** `decode()`: flushes the unfinished character. */
    method Flush() returns (out: string)
      requires Valid()
      ensures Decoded(consumed) == Streamed(consumed) + out
    {
      LossyOfPrefix(consumed);
      out := Lossy(pending);
      StripBomAppend(DecodePrefix(consumed).0, out);
      if pending != [] {
        LossyUnfinished(pending);
      }
      assert Streamed(consumed) + "" == Streamed(consumed);
    }
  }

  // --- Events ---------------------------------------------------------------------

  datatype Ending = Closed | DoneMarker | BadJson

  function Split(s: string): seq<string> {
    var (pieces, rest) := Drain(s, "\n");
    pieces + [rest]
  }

  /** The data fields of an event's lines, each without its one leading space. */
  function DataFields(lines: seq<string>): seq<string> {
    if lines == [] then []
    else
      var line := StripSuffixChar(lines[0], CR);
      var rest := DataFields(lines[1..]);
      match StripPrefix(line, "data:")
      case None => rest
      case Some(field) => [if field != "" && field[0] == ' ' then field[1..] else field] + rest
  }

  function JoinLines(fields: seq<string>): string
    requires fields != []
  {
    if |fields| == 1 then fields[0] else fields[0] + "\n" + JoinLines(fields[1..])
  }

  /** What reading a list of framed events yields, and how it ends if one of them ends it. */
  function ReadEvents(env: Env, events: seq<string>): (seq<Json>, Option<Ending>) {
    if events == [] then ([], None)
    else
      var fields := DataFields(Split(events[0]));
      if fields == [] then ReadEvents(env, events[1..])
      else
        var data := JoinLines(fields);
        if data == "[DONE]" then ([], Some(DoneMarker))
        else
          match env.parse(data)
          case None => ([], Some(BadJson))
          case Some(v) =>
            var (vs, ending) := ReadEvents(env, events[1..]);
            ([v] + vs, ending)
  }

  /** After the events that end the reading, no more are read. */
  function Then(a: (seq<Json>, Option<Ending>), b: (seq<Json>, Option<Ending>)): (seq<Json>, Option<Ending>) {
    if a.1.Some? then a else (a.0 + b.0, b.1)
  }

  lemma ThenNothing(a: (seq<Json>, Option<Ending>))
    ensures Then(([], None), a) == a
  {
    assert [] + a.0 == a.0;
  }

  lemma {:induction false} ReadEventsAppend(env: Env, a: seq<string>, b: seq<string>)
    ensures ReadEvents(env, a + b) == Then(ReadEvents(env, a), ReadEvents(env, b))
  {
    if a == [] {
      assert a + b == b;
      ThenNothing(ReadEvents(env, b));
    } else {
      assert (a + b)[1..] == a[1..] + b && (a + b)[0] == a[0];
      ReadEventsAppend(env, a[1..], b);
      var fields := DataFields(Split(a[0]));
      if fields != [] && env.parse(JoinLines(fields)).Some? {
        Associative([env.parse(JoinLines(fields)).value], ReadEvents(env, a[1..]).0, ReadEvents(env, b).0);
      }
    }
  }

  /** What the client sees of a text: the events its blank lines end, read in order. */
  function ReadText(env: Env, text: string): (seq<Json>, Option<Ending>) {
    ReadEvents(env, Drain(text, BLANK_LINE).0)
  }

  /** What the client sees of a whole response body. */
  function ClientSees(env: Env, bytes: seq<byte>): (seq<Json>, Ending) {
    var (vs, ending) := ReadText(env, Decoded(bytes));
    (vs, ending.GetOr(Closed))
  }

  /** The inner loop: takes framed events out of the buffer and yields their payloads. */
  method ReadBuffer(env: Env, buffer: string) returns (rest: string, yielded: seq<Json>, ending: Option<Ending>)
    ensures (yielded, ending) == ReadText(env, buffer)
    ensures ending.None? ==> rest == Drain(buffer, BLANK_LINE).1
  {
    rest, yielded, ending := buffer, [], None;
    var separator := Find(rest, BLANK_LINE);
    ThenNothing(ReadText(env, buffer));
    while separator.Some?
      invariant separator == Find(rest, BLANK_LINE)
      invariant ReadText(env, buffer) == Then((yielded, None), ReadText(env, rest))
      invariant Drain(buffer, BLANK_LINE).1 == Drain(rest, BLANK_LINE).1
      decreases |rest|
    {
      DrainStep(rest, BLANK_LINE, separator.value);
      var rawEvent := rest[..separator.value];
      rest := rest[separator.value + 2..];
      var later := Drain(rest, BLANK_LINE).0;
      assert ([rawEvent] + later)[1..] == later;
      var fields := DataFields(Split(rawEvent));
      separator := Find(rest, BLANK_LINE);
      if fields != [] {
        var data := JoinLines(fields);
        if data == "[DONE]" {
          assert yielded + [] == yielded;
          ending := Some(DoneMarker);
          return;
        }
        var value := env.parse(data);
        if value.None? {
          assert yielded + [] == yielded;
          ending := Some(BadJson);
          return;
        }
        Associative(yielded, [value.value], ReadText(env, rest).0);
        yielded := yielded + [value.value];
      }
    }
    assert yielded + [] == yielded;
  }

  /** More text only adds events after those already framed. */
  lemma ReadTextAppend(env: Env, a: string, b: string)
    ensures ReadText(env, a + b) == Then(ReadText(env, a), ReadText(env, Drain(a, BLANK_LINE).1 + b))
    ensures Drain(a + b, BLANK_LINE).1 == Drain(Drain(a, BLANK_LINE).1 + b, BLANK_LINE).1
  {
    DrainAppend(a, b, BLANK_LINE);
    ReadEventsAppend(env, Drain(a, BLANK_LINE).0, Drain(Drain(a, BLANK_LINE).1 + b, BLANK_LINE).0);
  }

  /** Bytes still to come do not change what has been decoded. */
  lemma DecodedExtends(bytes: seq<byte>, more: seq<byte>) returns (text: string)
    ensures Decoded(bytes + more) == Streamed(bytes) + text
  {
    LossySplits(bytes, more);
    var later := Lossy(DecodePrefix(bytes).1 + more);
    StripBomAppend(DecodePrefix(bytes).0, later);
    text := if DecodePrefix(bytes).0 == "" then StripBom(later) else later;
    assert "" + text == text;
  }

  /** `parseSSE`: whatever the chunking of the body, the client sees what the whole body holds. */
  method ParseSse(env: Env, chunks: seq<seq<byte>>) returns (yielded: seq<Json>, ending: Ending)
    ensures (yielded, ending) == ClientSees(env, Concat(chunks))
  {
    var decoder := new TextDecoder();
    var buffer := "";
    yielded := [];
    ghost var text := "";
    var i := 0;
    assert chunks[..0] == [];
    while i < |chunks|
      invariant i <= |chunks|
      invariant fresh(decoder) && decoder.Valid() && decoder.consumed == Concat(chunks[..i])
      invariant text == Streamed(decoder.consumed)
      invariant buffer == Drain(text, BLANK_LINE).1
      invariant ReadText(env, text) == (yielded, None)
    {
      ConcatSnoc(chunks[..i], chunks[i]);
      assert chunks[..i + 1] == chunks[..i] + [chunks[i]];
      var more := decoder.Decode(chunks[i]);
      ReadTextAppend(env, text, more);
      text := text + more;
      var values, stop;
      buffer, values, stop := ReadBuffer(env, buffer + more);
      yielded := yielded + values;
      i := i + 1;
      if stop.Some? {
        ConcatAppend(chunks[..i], chunks[i..]);
        assert chunks == chunks[..i] + chunks[i..];
        ghost var later := DecodedExtends(decoder.consumed, Concat(chunks[i..]));
        ReadTextAppend(env, text, later);
        ending := stop.value;
        return;
      }
    }
    assert chunks[..i] == chunks;
    var more := decoder.Flush();
    ReadTextAppend(env, text, more);
    var values, stop;
    buffer, values, stop := ReadBuffer(env, buffer + more);
    yielded := yielded + values;
    ending := stop.GetOr(Closed);
  }
}
