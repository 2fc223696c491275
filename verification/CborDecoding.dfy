/**
  The reader as a function on the remaining input, and the theorem that it
  accepts exactly the encodings: it returns `v` and leaves `rest` if and only if
  the input is some valid encoding of `v` followed by `rest`.
*/
module CborDecoding {
  import opened Prelude
  import opened CborValues
  import opened CborEncoding

  datatype DecodeError =
    | UnexpectedEnd
    | LengthTooLarge
    | UnsupportedLength(additional: nat)
    | WrongChunk
    | UnsupportedSimple(additional: nat)

  /** What an item sequence closed by a break consists of. */
  datatype StreamKind = AnyItems | OnlyBytes | OnlyText | Pairs

  /** A decoded part together with the input left after it. */
  type Decoded<T> = Result<(T, seq<byte>), DecodeError>

  function Take(s: seq<byte>, n: nat): Decoded<seq<byte>> {
    if n > |s| then Err(UnexpectedEnd) else Ok((s[..n], s[n..]))
  }

  function ReadLength(s: seq<byte>, additional: nat): (r: Decoded<nat>)
    ensures r.Ok? ==> |r.value.1| <= |s|
  {
    if additional < 24 then Ok((additional, s))
    else if additional <= 27 then
      var width := if additional == 24 then 1 else if additional == 25 then 2 else if additional == 26 then 4 else 8;
      var (arg, rest) :- Take(s, width);
      var n := FromBigEndian(arg);
      if additional == 27 && n > MAX_SAFE_INTEGER then Err(LengthTooLarge) else Ok((n, rest))
    else Err(UnsupportedLength(additional))
  }

  function ReadCounted(s: seq<byte>, additional: nat): (r: Decoded<seq<byte>>)
    ensures r.Ok? ==> |r.value.1| <= |s|
  {
    var (n, rest) :- ReadLength(s, additional);
    Take(rest, n)
  }

  function ReadSimple(s: seq<byte>, additional: nat): (r: Decoded<Value>)
    ensures r.Ok? ==> |r.value.1| <= |s|
  {
    if additional == 20 then Ok((Bool(false), s))
    else if additional == 21 then Ok((Bool(true), s))
    else if additional == 22 || additional == 23 then Ok((Null, s))
    else if 25 <= additional <= 27 then
      var (_, rest) :- Take(s, FloatWidth(additional));
      Ok((Null, rest))
    else Err(UnsupportedSimple(additional))
  }

  function Decode(text: TextDecode, s: seq<byte>): (r: Decoded<Value>)
    ensures r.Ok? ==> |r.value.1| < |s|
    decreases |s|, 0
  {
    if s == [] then Err(UnexpectedEnd)
    else
      var major := s[0] / 32;
      var additional := s[0] % 32;
      DecodeBody(text, s[1..], major, additional)
  }

  /** The rest of an item whose initial byte has been read. */
  function DecodeBody(text: TextDecode, s: seq<byte>, major: nat, additional: nat): (r: Decoded<Value>)
    requires major < 8 && additional < 32
    ensures r.Ok? ==> |r.value.1| <= |s|
    decreases |s|, 3
  {
    if major == 0 then
      var (n, rest) :- ReadLength(s, additional);
      Ok((Number(n), rest))
    else if major == 1 then
      var (n, rest) :- ReadLength(s, additional);
      Ok((Number(-1 - n), rest))
    else if major == 2 then
      if additional == 31 then
        var (chunks, rest) :- DecodeStream(text, s, OnlyBytes);
        Ok((Bytes(JoinBytes(chunks)), rest))
      else
        var (data, rest) :- ReadCounted(s, additional);
        Ok((Bytes(data), rest))
    else if major == 3 then
      if additional == 31 then
        var (chunks, rest) :- DecodeStream(text, s, OnlyText);
        Ok((Text(JoinText(chunks)), rest))
      else
        var (data, rest) :- ReadCounted(s, additional);
        Ok((Text(text(data)), rest))
    else if major == 4 then
      var (items, rest) :- DecodeContainer(text, s, additional, false);
      Ok((Array(items), rest))
    else if major == 5 then
      var (kvs, rest) :- DecodeContainer(text, s, additional, true);
      Ok((Map(FromPairs(kvs)), rest))
    else if major == 6 then
      var (tag, rest) :- ReadLength(s, additional);
      var (inner, rest') :- Decode(text, rest);
      Ok((Tagged(tag, inner), rest'))
    else
      ReadSimple(s, additional)
  }

  /** Members of an array, or the keys and values of a map when `pairs` is set. */
  function DecodeContainer(text: TextDecode, s: seq<byte>, additional: nat, pairs: bool): (r: Decoded<seq<Value>>)
    ensures r.Ok? ==> |r.value.1| <= |s|
    decreases |s|, 2
  {
    if additional == 31 then DecodeStream(text, s, if pairs then Pairs else AnyItems)
    else
      var (count, rest) :- ReadLength(s, additional);
      DecodeItems(text, rest, if pairs then 2 * count else count)
  }

  function DecodeItems(text: TextDecode, s: seq<byte>, count: nat): (r: Decoded<seq<Value>>)
    ensures r.Ok? ==> |r.value.1| <= |s|
    decreases |s|, 1
  {
    if count == 0 then Ok(([], s))
    else
      var (v, rest) :- Decode(text, s);
      Prepend([v], DecodeItems(text, rest, count - 1))
  }

  /** Items up to the break. A break is looked for before an item or a key, never before a map value. */
  function DecodeStream(text: TextDecode, s: seq<byte>, kind: StreamKind): (r: Decoded<seq<Value>>)
    ensures r.Ok? ==> |r.value.1| <= |s|
    decreases |s|, 1
  {
    if s == [] then Err(UnexpectedEnd)
    else if s[0] == BREAK then Ok(([], s[1..]))
    else
      var (v, rest) :- Decode(text, s);
      if kind.Pairs? then
        var (w, rest') :- Decode(text, rest);
        Prepend([v, w], DecodeStream(text, rest', kind))
      else if (kind.OnlyBytes? && !v.Bytes?) || (kind.OnlyText? && !v.Text?) then Err(WrongChunk)
      else Prepend([v], DecodeStream(text, rest, kind))
  }

  function Prepend(vs: seq<Value>, r: Decoded<seq<Value>>): Decoded<seq<Value>> {
    if r.Err? then r else Ok((vs + r.value.0, r.value.1))
  }

  // --- Completeness ---------------------------------------------------------

  lemma ReadLengthOfHead(h: Head, rest: seq<byte>)
    requires ValidHead(h)
    ensures ReadLength(Argument(h) + rest, Info(h)) == Ok((h.n, rest))
  {
    Limits();
    var s := Argument(h) + rest;
    assert s[|Argument(h)|..] == rest && s[..|Argument(h)|] == Argument(h);
    match h
    case Inline(_) => assert s == rest;
    case One(n) => BigEndianRoundTrip(1, n);
    case Two(n) => BigEndianRoundTrip(2, n);
    case Four(n) => BigEndianRoundTrip(4, n);
    case Eight(n) => BigEndianRoundTrip(8, n);
  }

  /** Reading an item that starts with a length head continues after that head's argument. */
  lemma DecodeAtHead(text: TextDecode, major: nat, h: Head, tail: seq<byte>)
    requires major < 8 && ValidHead(h)
    ensures Decode(text, HeadBytes(major, h) + tail) == DecodeBody(text, Argument(h) + tail, major, Info(h))
  {
    var s := HeadBytes(major, h) + tail;
    assert s[1..] == Argument(h) + tail;
  }

  lemma DecodeAtInitial(text: TextDecode, major: nat, info: nat, tail: seq<byte>)
    requires major < 8 && info < 32
    ensures Decode(text, [InitialByte(major, info)] + tail) == DecodeBody(text, tail, major, info)
  {
    assert ([InitialByte(major, info)] + tail)[1..] == tail;
  }

  /** Every valid encoding is read back as its value, whatever follows it. */
  lemma {:induction false} DecodeComplete(text: TextDecode, e: Encoding, rest: seq<byte>)
    requires Valid(e)
    ensures Decode(text, BytesOf(e) + rest) == Ok((ValueOf(text, e), rest))
    decreases e, 2
  {
    match e
    case UnsignedInt(h) =>
      IntComplete(text, 0, h, rest);
    case NegativeInt(h) =>
      IntComplete(text, 1, h, rest);
    case ByteString(h, data) =>
      StringComplete(text, 2, h, data, rest);
    case TextString(h, data) =>
      StringComplete(text, 3, h, data, rest);
    case ByteChunks(chunks) =>
      ChunksComplete(text, 2, chunks, rest);
    case TextChunks(chunks) =>
      ChunksComplete(text, 3, chunks, rest);
    case ArrayOf(f, items) =>
      ContainerComplete(text, 4, f, items, rest);
    case MapOf(f, kvs) =>
      ContainerComplete(text, 5, f, kvs, rest);
    case TagOf(h, item) =>
      DecodeComplete(text, item, rest);
      TagComplete(text, h, BytesOf(item), ValueOf(text, item), rest);
    case SimpleValue(info) =>
      SimpleComplete(text, info, rest);
    case FloatBits(info, data) =>
      FloatComplete(text, info, data, rest);
  }

  lemma IntComplete(text: TextDecode, major: nat, h: Head, rest: seq<byte>)
    requires major <= 1 && ValidHead(h)
    ensures Decode(text, HeadBytes(major, h) + rest) == Ok((Number(if major == 0 then h.n else -1 - h.n), rest))
  {
    DecodeAtHead(text, major, h, rest);
    ReadLengthOfHead(h, rest);
  }

  /** What the chunks of an indefinite string join to. */
  function Joined(major: nat, vs: seq<Value>): Value {
    if major == 2 then Bytes(JoinBytes(vs)) else Text(JoinText(vs))
  }

  lemma ChunksComplete(text: TextDecode, major: nat, chunks: seq<Encoding>, rest: seq<byte>)
    requires 2 <= major <= 3 && AllValid(chunks) && FitsKind(chunks, if major == 2 then OnlyBytes else OnlyText)
    ensures Decode(text, Framed(major, Indefinite, AllBytes(chunks)) + rest)
         == Ok((Joined(major, AllValues(text, chunks)), rest))
    decreases chunks, 2
  {
    StreamComplete(text, chunks, if major == 2 then OnlyBytes else OnlyText, rest);
    IndefiniteComplete(text, major, AllBytes(chunks), rest);
  }

  lemma SimpleComplete(text: TextDecode, info: nat, rest: seq<byte>)
    requires 20 <= info <= 23
    ensures Decode(text, [InitialByte(7, info)] + rest)
         == Ok((if info == 20 then Bool(false) else if info == 21 then Bool(true) else Null, rest))
  {
    DecodeAtInitial(text, 7, info, rest);
  }

  lemma TagComplete(text: TextDecode, h: Head, item: seq<byte>, v: Value, rest: seq<byte>)
    requires ValidHead(h) && Decode(text, item + rest) == Ok((v, rest))
    ensures Decode(text, HeadBytes(6, h) + item + rest) == Ok((Tagged(h.n, v), rest))
  {
    Associative(HeadBytes(6, h), item, rest);
    DecodeAtHead(text, 6, h, item + rest);
    ReadLengthOfHead(h, item + rest);
  }

  lemma FloatComplete(text: TextDecode, info: nat, data: seq<byte>, rest: seq<byte>)
    requires 25 <= info <= 27 && |data| == FloatWidth(info)
    ensures Decode(text, [InitialByte(7, info)] + data + rest) == Ok((Null, rest))
  {
    Associative([InitialByte(7, info)], data, rest);
    DecodeAtInitial(text, 7, info, data + rest);
    assert (data + rest)[|data|..] == rest;
  }

  lemma StringComplete(text: TextDecode, major: nat, h: Head, data: seq<byte>, rest: seq<byte>)
    requires 2 <= major <= 3 && ValidHead(h) && h.n == |data|
    ensures Decode(text, HeadBytes(major, h) + data + rest)
         == Ok((if major == 2 then Bytes(data) else Text(text(data)), rest))
  {
    assert HeadBytes(major, h) + data + rest == HeadBytes(major, h) + (data + rest);
    DecodeAtHead(text, major, h, data + rest);
    ReadLengthOfHead(h, data + rest);
    assert (data + rest)[..|data|] == data && (data + rest)[|data|..] == rest;
  }

  lemma IndefiniteComplete(text: TextDecode, major: nat, content: seq<byte>, rest: seq<byte>)
    requires major < 8
    ensures Decode(text, Framed(major, Indefinite, content) + rest)
         == DecodeBody(text, content + [BREAK] + rest, major, 31)
  {
    assert Framed(major, Indefinite, content) + rest == [InitialByte(major, 31)] + (content + [BREAK] + rest);
    DecodeAtInitial(text, major, 31, content + [BREAK] + rest);
  }

  /** What an array or a map holds when its members decode to `vs`. */
  function Container(major: nat, vs: seq<Value>): Value {
    if major == 4 then Array(vs) else Map(FromPairs(vs))
  }

  lemma ContainerComplete(text: TextDecode, major: nat, f: Framing, es: seq<Encoding>, rest: seq<byte>)
    requires 4 <= major <= 5 && AllValid(es)
    requires if major == 4 then ValidFraming(f, |es|) else |es| % 2 == 0 && ValidFraming(f, |es| / 2)
    ensures Decode(text, Framed(major, f, AllBytes(es)) + rest) == Ok((Container(major, AllValues(text, es)), rest))
    decreases es, 2
  {
    match f
    case Indefinite =>
      var kind := if major == 4 then AnyItems else Pairs;
      StreamComplete(text, es, kind, rest);
      IndefiniteComplete(text, major, AllBytes(es), rest);
      ContainerBody(text, AllBytes(es) + [BREAK] + rest, major, 31, AllValues(text, es), rest);
    case Definite(h) =>
      ItemsComplete(text, es, rest);
      DefiniteComplete(text, major, h, AllBytes(es), |es|, AllValues(text, es), rest);
  }

  lemma DefiniteComplete(
    text: TextDecode, major: nat, h: Head, content: seq<byte>, count: nat, vs: seq<Value>, rest: seq<byte>)
    requires 4 <= major <= 5 && ValidHead(h) && count == (if major == 5 then 2 * h.n else h.n)
    requires DecodeItems(text, content + rest, count) == Ok((vs, rest))
    ensures Decode(text, HeadBytes(major, h) + content + rest) == Ok((Container(major, vs), rest))
  {
    var tail := content + rest;
    assert HeadBytes(major, h) + content + rest == HeadBytes(major, h) + tail;
    DecodeAtHead(text, major, h, tail);
    ReadLengthOfHead(h, tail);
    ContainerBody(text, Argument(h) + tail, major, Info(h), vs, rest);
  }

  lemma ContainerBody(
    text: TextDecode, s: seq<byte>, major: nat, additional: nat, vs: seq<Value>, rest: seq<byte>)
    requires 4 <= major <= 5 && additional < 32
    requires DecodeContainer(text, s, additional, major == 5) == Ok((vs, rest))
    ensures DecodeBody(text, s, major, additional) == Ok((Container(major, vs), rest))
  {}

  lemma {:induction false} ItemsComplete(text: TextDecode, es: seq<Encoding>, rest: seq<byte>)
    requires AllValid(es)
    ensures DecodeItems(text, AllBytes(es) + rest, |es|) == Ok((AllValues(text, es), rest))
    decreases es, 0
  {
    if es == [] {
      assert AllBytes(es) + rest == rest;
    } else {
      var tail := AllBytes(es[1..]) + rest;
      assert AllBytes(es) + rest == BytesOf(es[0]) + tail;
      DecodeComplete(text, es[0], tail);
      ItemsComplete(text, es[1..], rest);
    }
  }

  predicate FitsKind(es: seq<Encoding>, kind: StreamKind) {
    match kind
    case AnyItems => true
    case OnlyBytes => forall c <- es :: c.ByteString? || c.ByteChunks?
    case OnlyText => forall c <- es :: c.TextString? || c.TextChunks?
    case Pairs => |es| % 2 == 0
  }

  /** One step of a stream: an item, or a key with its value, was decoded. */
  lemma StreamStep(text: TextDecode, s: seq<byte>, kind: StreamKind, v: Value, rest: seq<byte>)
    requires s != [] && s[0] != BREAK && !kind.Pairs?
    requires Decode(text, s) == Ok((v, rest))
    requires (kind.OnlyBytes? ==> v.Bytes?) && (kind.OnlyText? ==> v.Text?)
    ensures DecodeStream(text, s, kind) == Prepend([v], DecodeStream(text, rest, kind))
  {}

  lemma PairStep(text: TextDecode, s: seq<byte>, k: Value, mid: seq<byte>, v: Value, rest: seq<byte>)
    requires s != [] && s[0] != BREAK
    requires Decode(text, s) == Ok((k, mid)) && Decode(text, mid) == Ok((v, rest))
    ensures DecodeStream(text, s, Pairs) == Prepend([k, v], DecodeStream(text, rest, Pairs))
  {}

  lemma StreamEnd(text: TextDecode, rest: seq<byte>, kind: StreamKind)
    ensures DecodeStream(text, [BREAK] + rest, kind) == Ok(([], rest))
  {
    assert ([BREAK] + rest)[1..] == rest;
  }

  lemma {:induction false} StreamComplete(text: TextDecode, es: seq<Encoding>, kind: StreamKind, rest: seq<byte>)
    requires AllValid(es) && FitsKind(es, kind)
    ensures DecodeStream(text, AllBytes(es) + [BREAK] + rest, kind) == Ok((AllValues(text, es), rest))
    decreases es, 1
  {
    if es == [] {
      StreamEnd(text, rest, kind);
      assert AllBytes(es) + [BREAK] + rest == [BREAK] + rest;
    } else if kind.Pairs? {
      FirstPair(es);
      PairsComplete(text, es, es[0], es[1], es[2..], rest);
    } else {
      var tail := AllBytes(es[1..]) + [BREAK] + rest;
      assert AllBytes(es) + [BREAK] + rest == BytesOf(es[0]) + tail;
      DecodeComplete(text, es[0], tail);
      StreamComplete(text, es[1..], kind, rest);
      StreamStep(text, BytesOf(es[0]) + tail, kind, ValueOf(text, es[0]), tail);
    }
  }

  lemma FirstPair(es: seq<Encoding>)
    requires AllValid(es) && |es| >= 2
    ensures es == [es[0], es[1]] + es[2..] && Valid(es[0]) && Valid(es[1]) && AllValid(es[2..])
  {
    assert es[1..][0] == es[1] && es[1..][1..] == es[2..];
  }

  lemma {:induction false} PairsComplete(
    text: TextDecode, es: seq<Encoding>, e: Encoding, f: Encoding, tail: seq<Encoding>, rest: seq<byte>)
    requires |es| >= 2 && e == es[0] && f == es[1] && tail == es[2..]
    requires Valid(e) && Valid(f) && AllValid(tail) && |tail| % 2 == 0
    ensures AllValid([e, f] + tail)
    ensures DecodeStream(text, AllBytes([e, f] + tail) + [BREAK] + rest, Pairs)
         == Ok((AllValues(text, [e, f] + tail), rest))
    decreases es, 0
  {
    var after := AllBytes(tail) + [BREAK] + rest;
    DecodeComplete(text, e, BytesOf(f) + after);
    DecodeComplete(text, f, after);
    StreamComplete(text, tail, Pairs, rest);
    PairInFront(text, e, f, tail, rest);
  }

  lemma PairInFront(text: TextDecode, e: Encoding, f: Encoding, es: seq<Encoding>, rest: seq<byte>)
    requires Valid(e) && Valid(f) && AllValid(es)
    requires var tail := AllBytes(es) + [BREAK] + rest;
             && Decode(text, BytesOf(e) + (BytesOf(f) + tail)) == Ok((ValueOf(text, e), BytesOf(f) + tail))
             && Decode(text, BytesOf(f) + tail) == Ok((ValueOf(text, f), tail))
             && DecodeStream(text, tail, Pairs) == Ok((AllValues(text, es), rest))
    ensures AllValid([e, f] + es)
    ensures DecodeStream(text, AllBytes([e, f] + es) + [BREAK] + rest, Pairs)
         == Ok((AllValues(text, [e, f] + es), rest))
  {
    var tail := AllBytes(es) + [BREAK] + rest;
    PairBytes(text, e, f, es, rest);
    PairRead(text, BytesOf(e), ValueOf(text, e), BytesOf(f), ValueOf(text, f), tail, AllValues(text, es), rest);
  }

  lemma PairRead(
    text: TextDecode, kBytes: seq<byte>, k: Value, vBytes: seq<byte>, v: Value, tail: seq<byte>,
    vs: seq<Value>, rest: seq<byte>)
    requires kBytes != [] && kBytes[0] != BREAK
    requires Decode(text, kBytes + (vBytes + tail)) == Ok((k, vBytes + tail))
    requires Decode(text, vBytes + tail) == Ok((v, tail))
    requires DecodeStream(text, tail, Pairs) == Ok((vs, rest))
    ensures DecodeStream(text, kBytes + (vBytes + tail), Pairs) == Ok(([k, v] + vs, rest))
  {
    PairStep(text, kBytes + (vBytes + tail), k, vBytes + tail, v, tail);
  }
}
