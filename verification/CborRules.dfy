/**
  The reader's rules on bytes, one for each kind of item (RFC 8949, section 3.1
  and 3.2), the bytes it refuses, and examples from the appendix of that standard.
*/
module CborRules {
  import opened Prelude
  import opened CborValues
  import opened CborEncoding
  import opened CborDecoding

  /** Wherever these bytes stand, they are read as `v`. */
  ghost predicate Reads(text: TextDecode, bytes: seq<byte>, v: Value) {
    forall rest :: Decode(text, bytes + rest) == Ok((v, rest))
  }

  /** Arguments up to 23 stand in the initial byte, others in 1, 2, 4 or 8 bytes, up to 2^53 - 1. */
  predicate Fits(h: CborEncoding.Head) {
    match h
    case Inline(n) => n <= 23
    case One(n) => n <= 0xFF
    case Two(n) => n <= 0xFFFF
    case Four(n) => n <= 0xFFFF_FFFF
    case Eight(n) => n <= 0x1F_FFFF_FFFF_FFFF
  }

  /** Four bytes, the most significant one first. */
  function Word(n: nat): seq<byte>
    requires n < 0x1_0000_0000
  {
    [n / 0x100_0000, n / 0x1_0000 % 0x100, n / 0x100 % 0x100, n % 0x100]
  }

  /** A head whose initial byte counts from `first`: 0x00 for an integer, 0x20 for a negative one, and so on. */
  function Head(first: byte, h: CborEncoding.Head): seq<byte>
    requires first <= 0xE0 && Fits(h)
  {
    match h
    case Inline(n) => [first + n]
    case One(n) => [first + 24, n]
    case Two(n) => [first + 25, n / 0x100, n % 0x100]
    case Four(n) => [first + 26] + Word(n)
    case Eight(n) => [first + 27] + Word(n / 0x1_0000_0000) + Word(n % 0x1_0000_0000)
  }

  lemma TwoBytes(n: nat)
    requires n < 0x1_0000
    ensures BigEndian(2, n) == [n / 0x100, n % 0x100]
  {
    assert BigEndian(1, n / 0x100) == [n / 0x100];
  }

  /** The last four bytes of a number are those of its remainder. */
  lemma LastBytes(n: nat)
    ensures var m := n % 0x1_0000_0000;
            && n % 0x100 == m % 0x100 && n / 0x100 % 0x100 == m / 0x100 % 0x100
            && n / 0x100 / 0x100 % 0x100 == m / 0x1_0000 % 0x100
            && n / 0x100 / 0x100 / 0x100 % 0x100 == m / 0x100_0000
            && n / 0x100 / 0x100 / 0x100 / 0x100 == n / 0x1_0000_0000
  {
    var q, m := n / 0x1_0000_0000, n % 0x1_0000_0000;
    assert n == 0x1_0000_0000 * q + m;
    assert n / 0x100 == 0x100_0000 * q + m / 0x100;
    assert n / 0x100 / 0x100 == 0x1_0000 * q + m / 0x1_0000;
    assert n / 0x100 / 0x100 / 0x100 == 0x100 * q + m / 0x100_0000;
  }

  lemma FourMoreBytes(w: nat, n: nat)
    ensures BigEndian(w + 4, n) == BigEndian(w, n / 0x1_0000_0000) + Word(n % 0x1_0000_0000)
  {
    hide Limit;
    LastBytes(n);
    var third := n / 0x100 / 0x100 / 0x100;
    assert BigEndian(w + 1, third) == BigEndian(w, third / 0x100) + [third % 0x100];
    assert BigEndian(w + 2, n / 0x100 / 0x100) == BigEndian(w + 1, third) + [n / 0x100 / 0x100 % 0x100];
    assert BigEndian(w + 3, n / 0x100) == BigEndian(w + 2, n / 0x100 / 0x100) + [n / 0x100 % 0x100];
  }

  lemma FourBytes(n: nat)
    requires n < 0x1_0000_0000
    ensures BigEndian(4, n) == Word(n)
  {
    hide Word;
    FourMoreBytes(0, n);
    assert BigEndian(0, 0) + Word(n) == Word(n);
  }

  lemma EightBytes(n: nat)
    requires n <= 0xFFFF_FFFF_FFFF_FFFF
    ensures BigEndian(8, n) == Word(n / 0x1_0000_0000) + Word(n % 0x1_0000_0000)
  {
    hide Word, BigEndian;
    FourMoreBytes(4, n);
    FourBytes(n / 0x1_0000_0000);
  }

  lemma {:induction false} HeadIs(major: nat, h: CborEncoding.Head)
    requires major < 8 && Fits(h)
    ensures ValidHead(h) && HeadBytes(major, h) == Head(32 * major, h)
  {
    hide Word, Limit;
    match h
    case Inline(_) =>
    case One(n) => assert BigEndian(1, n) == [n];
    case Two(n) => TwoBytes(n);
    case Four(n) => FourBytes(n);
    case Eight(n) =>
      EightBytes(n);
      Associative([32 * major + 27], Word(n / 0x1_0000_0000), Word(n % 0x1_0000_0000));
  }

  // --- What is read ---------------------------------------------------------------

  lemma {:induction false} IntegersAreRead(text: TextDecode, h: CborEncoding.Head)
    requires Fits(h)
    ensures Reads(text, Head(0x00, h), Number(h.n))
    ensures Reads(text, Head(0x20, h), Number(-1 - h.n))
  {
    HeadIs(0, h);
    HeadIs(1, h);
    forall rest
      ensures Decode(text, Head(0x00, h) + rest) == Ok((Number(h.n), rest))
      ensures Decode(text, Head(0x20, h) + rest) == Ok((Number(-1 - h.n), rest))
    {
      IntComplete(text, 0, h, rest);
      IntComplete(text, 1, h, rest);
    }
  }

  lemma {:induction false} StringsAreRead(text: TextDecode, h: CborEncoding.Head, data: seq<byte>)
    requires Fits(h) && h.n == |data|
    ensures Reads(text, Head(0x40, h) + data, Bytes(data))
    ensures Reads(text, Head(0x60, h) + data, Text(text(data)))
  {
    HeadIs(2, h);
    HeadIs(3, h);
    forall rest
      ensures Decode(text, Head(0x40, h) + data + rest) == Ok((Bytes(data), rest))
      ensures Decode(text, Head(0x60, h) + data + rest) == Ok((Text(text(data)), rest))
    {
      StringComplete(text, 2, h, data, rest);
      StringComplete(text, 3, h, data, rest);
    }
  }

  lemma {:induction false} TagIsRead(text: TextDecode, h: CborEncoding.Head, item: seq<byte>, v: Value)
    requires Fits(h) && Reads(text, item, v)
    ensures Reads(text, Head(0xC0, h) + item, Tagged(h.n, v))
  {
    HeadIs(6, h);
    forall rest ensures Decode(text, Head(0xC0, h) + item + rest) == Ok((Tagged(h.n, v), rest)) {
      TagComplete(text, h, item, v, rest);
    }
  }

  /** False, true, null, undefined, and the three sizes of floating-point number. */
  lemma {:induction false} SimplesAreRead(text: TextDecode, two: seq<byte>, four: seq<byte>, eight: seq<byte>)
    requires |two| == 2 && |four| == 4 && |eight| == 8
    ensures Reads(text, [0xF4], Bool(false)) && Reads(text, [0xF5], Bool(true))
    ensures Reads(text, [0xF6], Null) && Reads(text, [0xF7], Null)
    ensures Reads(text, [0xF9] + two, Null) && Reads(text, [0xFA] + four, Null) && Reads(text, [0xFB] + eight, Null)
  {
    forall rest
      ensures Decode(text, [0xF4] + rest) == Ok((Bool(false), rest))
      ensures Decode(text, [0xF5] + rest) == Ok((Bool(true), rest))
      ensures Decode(text, [0xF6] + rest) == Ok((Null, rest)) && Decode(text, [0xF7] + rest) == Ok((Null, rest))
      ensures Decode(text, [0xF9] + two + rest) == Ok((Null, rest))
      ensures Decode(text, [0xFA] + four + rest) == Ok((Null, rest))
      ensures Decode(text, [0xFB] + eight + rest) == Ok((Null, rest))
    {
      SimpleComplete(text, 20, rest);
      SimpleComplete(text, 21, rest);
      SimpleComplete(text, 22, rest);
      SimpleComplete(text, 23, rest);
      FloatComplete(text, 25, two, rest);
      FloatComplete(text, 26, four, rest);
      FloatComplete(text, 27, eight, rest);
    }
  }

  /** Each of `parts` is read as the value at its place. */
  ghost predicate AllRead(text: TextDecode, parts: seq<seq<byte>>, vs: seq<Value>) {
    |parts| == |vs| && forall i :: 0 <= i < |parts| ==> Reads(text, parts[i], vs[i])
  }

  /** What is read is neither nothing nor a break. */
  lemma ReadIsNoBreak(text: TextDecode, part: seq<byte>, v: Value)
    requires Reads(text, part, v)
    ensures part != [] && part[0] != 0xFF
  {
    assert part + [] == part;
    assert Decode(text, part + []) == Ok((v, []));
  }

  lemma {:induction false} ItemsAreRead(text: TextDecode, parts: seq<seq<byte>>, vs: seq<Value>, rest: seq<byte>)
    requires AllRead(text, parts, vs)
    ensures DecodeItems(text, Concat(parts) + rest, |parts|) == Ok((vs, rest))
    decreases |parts|
  {
    if parts == [] {
      assert Concat(parts) + rest == rest;
    } else {
      var later := Concat(parts[1..]);
      ItemsAreRead(text, parts[1..], vs[1..], rest);
      Associative(parts[0], later, rest);
      assert Decode(text, parts[0] + (later + rest)) == Ok((vs[0], later + rest));
      assert [vs[0]] + vs[1..] == vs;
    }
  }

  lemma {:induction false} StreamIsRead(
    text: TextDecode, parts: seq<seq<byte>>, vs: seq<Value>, kind: StreamKind, rest: seq<byte>)
    requires AllRead(text, parts, vs) && !kind.Pairs?
    requires forall i :: 0 <= i < |vs| ==> (kind.OnlyBytes? ==> vs[i].Bytes?) && (kind.OnlyText? ==> vs[i].Text?)
    ensures DecodeStream(text, Concat(parts) + [0xFF] + rest, kind) == Ok((vs, rest))
    decreases |parts|
  {
    if parts == [] {
      StreamEnd(text, rest, kind);
      assert Concat(parts) + [0xFF] + rest == [BREAK] + rest;
    } else {
      var later := Concat(parts[1..]);
      StreamIsRead(text, parts[1..], vs[1..], kind, rest);
      SplitFirst(parts[0], later, [0xFF], rest);
      ReadIsNoBreak(text, parts[0], vs[0]);
      StreamStep(text, Concat(parts) + [0xFF] + rest, kind, vs[0], later + [0xFF] + rest);
      assert [vs[0]] + vs[1..] == vs;
    }
  }

  lemma {:induction false} PairsAreRead(text: TextDecode, parts: seq<seq<byte>>, vs: seq<Value>, rest: seq<byte>)
    requires AllRead(text, parts, vs) && |parts| % 2 == 0
    ensures DecodeStream(text, Concat(parts) + [0xFF] + rest, Pairs) == Ok((vs, rest))
    decreases |parts|
  {
    if parts == [] {
      StreamEnd(text, rest, Pairs);
      assert Concat(parts) + [0xFF] + rest == [BREAK] + rest;
    } else {
      var later := Concat(parts[2..]);
      PairsAreRead(text, parts[2..], vs[2..], rest);
      assert parts[1..][1..] == parts[2..];
      Regroup(parts[0], parts[1], later, [0xFF], rest);
      assert Concat(parts) == parts[0] + (parts[1] + later);
      Associative(parts[0], parts[1], later);
      ReadIsNoBreak(text, parts[0], vs[0]);
      PairStep(text, Concat(parts) + [0xFF] + rest, vs[0], parts[1] + (later + [0xFF] + rest), vs[1],
               later + [0xFF] + rest);
      assert [vs[0], vs[1]] + vs[2..] == vs;
    }
  }

  /** An item opened by `first` and closed by a break is read after its initial byte. */
  lemma Opened(text: TextDecode, major: nat, content: seq<byte>, rest: seq<byte>)
    requires major < 8
    ensures Decode(text, [32 * major + 31] + content + [0xFF] + rest)
         == DecodeBody(text, content + [0xFF] + rest, major, 31)
  {
    DecodeAtInitial(text, major, 31, content + [0xFF] + rest);
    assert [32 * major + 31] + content + [0xFF] + rest
        == [InitialByte(major, 31)] + (content + [0xFF] + rest);
  }

  /** An item with a counted head is read after that head. */
  lemma Counted(text: TextDecode, major: nat, h: CborEncoding.Head, content: seq<byte>, rest: seq<byte>)
    requires major < 8 && Fits(h)
    ensures Decode(text, Head(32 * major, h) + content + rest)
         == DecodeBody(text, Argument(h) + (content + rest), major, Info(h))
    ensures ReadLength(Argument(h) + (content + rest), Info(h)) == Ok((h.n, content + rest))
  {
    HeadIs(major, h);
    Associative(Head(32 * major, h), content, rest);
    DecodeAtHead(text, major, h, content + rest);
    ReadLengthOfHead(h, content + rest);
  }

  /** Items or pairs, after their number or up to a break. */
  lemma ContentIsRead(
    text: TextDecode, major: nat, h: CborEncoding.Head, parts: seq<seq<byte>>, vs: seq<Value>, rest: seq<byte>)
    requires 4 <= major <= 5 && Fits(h) && AllRead(text, parts, vs)
    requires |parts| == if major == 4 then h.n else 2 * h.n
    ensures DecodeContainer(text, Argument(h) + (Concat(parts) + rest), Info(h), major == 5) == Ok((vs, rest))
    ensures DecodeContainer(text, Concat(parts) + [0xFF] + rest, 31, major == 5) == Ok((vs, rest))
  {
    hide Decode, DecodeItems, DecodeStream, Reads;
    ReadLengthOfHead(h, Concat(parts) + rest);
    ItemsAreRead(text, parts, vs, rest);
    if major == 4 {
      StreamIsRead(text, parts, vs, AnyItems, rest);
    } else {
      PairsAreRead(text, parts, vs, rest);
    }
  }

  lemma ContainerIsRead(
    text: TextDecode, major: nat, h: CborEncoding.Head, parts: seq<seq<byte>>, vs: seq<Value>, rest: seq<byte>)
    requires 4 <= major <= 5 && Fits(h) && AllRead(text, parts, vs)
    requires |parts| == if major == 4 then h.n else 2 * h.n
    ensures var v := if major == 4 then Array(vs) else Map(FromPairs(vs));
            && Decode(text, Head(32 * major, h) + Concat(parts) + rest) == Ok((v, rest))
            && Decode(text, [32 * major + 31] + Concat(parts) + [0xFF] + rest) == Ok((v, rest))
  {
    hide Decode, DecodeContainer, FromPairs, Head, Argument, Concat, AllRead;
    ContentIsRead(text, major, h, parts, vs, rest);
    Counted(text, major, h, Concat(parts), rest);
    Opened(text, major, Concat(parts), rest);
  }

  /** An array: its length and its items, or its items and a break. */
  lemma {:induction false} ArrayIsRead(
    text: TextDecode, h: CborEncoding.Head, parts: seq<seq<byte>>, vs: seq<Value>)
    requires Fits(h) && h.n == |parts| && AllRead(text, parts, vs)
    ensures Reads(text, Head(0x80, h) + Concat(parts), Array(vs))
    ensures Reads(text, [0x9F] + Concat(parts) + [0xFF], Array(vs))
  {
    hide Decode, Head, Concat, AllRead;
    forall rest
      ensures Decode(text, Head(0x80, h) + Concat(parts) + rest) == Ok((Array(vs), rest))
      ensures Decode(text, [0x9F] + Concat(parts) + [0xFF] + rest) == Ok((Array(vs), rest))
    {
      ContainerIsRead(text, 4, h, parts, vs, rest);
    }
  }

  /** A map: the pairs set one after the other, keys and values in turn. */
  lemma {:induction false} MapIsRead(
    text: TextDecode, h: CborEncoding.Head, parts: seq<seq<byte>>, vs: seq<Value>)
    requires Fits(h) && 2 * h.n == |parts| && AllRead(text, parts, vs)
    ensures Reads(text, Head(0xA0, h) + Concat(parts), Map(FromPairs(vs)))
    ensures Reads(text, [0xBF] + Concat(parts) + [0xFF], Map(FromPairs(vs)))
  {
    hide Decode, Head, Concat, AllRead, FromPairs;
    forall rest
      ensures Decode(text, Head(0xA0, h) + Concat(parts) + rest) == Ok((Map(FromPairs(vs)), rest))
      ensures Decode(text, [0xBF] + Concat(parts) + [0xFF] + rest) == Ok((Map(FromPairs(vs)), rest))
    {
      ContainerIsRead(text, 5, h, parts, vs, rest);
    }
  }

  lemma {:induction false} JoinedBytes(vs: seq<Value>, datas: seq<seq<byte>>)
    requires |vs| == |datas| && forall i :: 0 <= i < |vs| ==> vs[i] == Bytes(datas[i])
    ensures JoinBytes(vs) == Concat(datas)
  {
    if vs != [] {
      JoinedBytes(vs[1..], datas[1..]);
    }
  }

  lemma {:induction false} JoinedText(vs: seq<Value>, texts: seq<string>)
    requires |vs| == |texts| && forall i :: 0 <= i < |vs| ==> vs[i] == Text(texts[i])
    ensures JoinText(vs) == Concat(texts)
  {
    if vs != [] {
      JoinedText(vs[1..], texts[1..]);
    }
  }

  /** A string in chunks that are byte strings, and so on inside them: one byte string. */
  lemma {:induction false} ByteChunksAreRead(
    text: TextDecode, parts: seq<seq<byte>>, vs: seq<Value>, datas: seq<seq<byte>>)
    requires AllRead(text, parts, vs)
    requires |vs| == |datas| && forall i :: 0 <= i < |vs| ==> vs[i] == Bytes(datas[i])
    ensures Reads(text, [0x5F] + Concat(parts) + [0xFF], Bytes(Concat(datas)))
  {
    JoinedBytes(vs, datas);
    forall rest ensures Decode(text, [0x5F] + Concat(parts) + [0xFF] + rest) == Ok((Bytes(Concat(datas)), rest)) {
      Opened(text, 2, Concat(parts), rest);
      StreamIsRead(text, parts, vs, OnlyBytes, rest);
    }
  }

  lemma {:induction false} TextChunksAreRead(
    text: TextDecode, parts: seq<seq<byte>>, vs: seq<Value>, texts: seq<string>)
    requires AllRead(text, parts, vs)
    requires |vs| == |texts| && forall i :: 0 <= i < |vs| ==> vs[i] == Text(texts[i])
    ensures Reads(text, [0x7F] + Concat(parts) + [0xFF], Text(Concat(texts)))
  {
    JoinedText(vs, texts);
    forall rest ensures Decode(text, [0x7F] + Concat(parts) + [0xFF] + rest) == Ok((Text(Concat(texts)), rest)) {
      Opened(text, 3, Concat(parts), rest);
      StreamIsRead(text, parts, vs, OnlyText, rest);
    }
  }

  // --- What is refused ----------------------------------------------------------------

  /** Reserved lengths, indefinite integers and tags, and simple values other than the four. */
  lemma {:induction false} InitialBytesRefused(text: TextDecode, b: byte, rest: seq<byte>)
    ensures b < 0xE0 && b % 0x20 >= 28 && b !in [0x5F, 0x7F, 0x9F, 0xBF] ==>
              Decode(text, [b] + rest) == Err(UnsupportedLength(b % 0x20))
    ensures 0xE0 <= b < 0xF4 || b == 0xF8 || b >= 0xFC ==>
              Decode(text, [b] + rest) == Err(UnsupportedSimple(b - 0xE0))
  {
    var major, additional := b / 0x20, b % 0x20;
    DecodeAtInitial(text, major, additional, rest);
    assert InitialByte(major, additional) == b;
  }

  /** How many bytes an initial byte asks for at least. */
  function Width(b: byte): nat {
    if b % 0x20 == 24 && b < 0xE0 then 1 else if b % 0x20 == 25 then 2 else if b % 0x20 == 26 then 4
    else if b % 0x20 == 27 then 8 else 0
  }

  /** Input that ends at the front or inside a length or a float. */
  lemma {:induction false} EndsInHead(text: TextDecode, b: byte, less: seq<byte>)
    requires |less| < Width(b)
    ensures Decode(text, []) == Err(UnexpectedEnd) && Decode(text, [b] + less) == Err(UnexpectedEnd)
  {
    hide FromBigEndian, DecodeItems, DecodeStream, JoinBytes, JoinText, FromPairs;
    var major, additional := b / 0x20, b % 0x20;
    DecodeAtInitial(text, major, additional, less);
    assert InitialByte(major, additional) == b;
  }

  /** Input that ends inside a string. */
  lemma {:induction false} EndsInString(text: TextDecode, h: CborEncoding.Head, data: seq<byte>)
    requires Fits(h) && |data| < h.n
    ensures Decode(text, Head(0x40, h) + data) == Err(UnexpectedEnd)
    ensures Decode(text, Head(0x60, h) + data) == Err(UnexpectedEnd)
  {
    hide Head, Argument, ReadLength;
    Counted(text, 2, h, data, []);
    Counted(text, 3, h, data, []);
    assert data + [] == data;
    assert Head(0x40, h) + data + [] == Head(0x40, h) + data;
    assert Head(0x60, h) + data + [] == Head(0x60, h) + data;
  }

  /** A number above 2^53 - 1, in any place where a number stands. */
  lemma {:induction false} NumberTooLarge(text: TextDecode, b: byte, high: nat, low: nat, rest: seq<byte>)
    requires b < 0xE0 && b % 0x20 == 27
    requires 0x20_0000 <= high < 0x1_0000_0000 && low < 0x1_0000_0000
    ensures Decode(text, [b] + (Word(high) + Word(low) + rest)) == Err(LengthTooLarge)
  {
    hide Word;
    var n, tail := high * 0x1_0000_0000 + low, Word(high) + Word(low) + rest;
    EightBytes(n);
    Limits();
    BigEndianRoundTrip(8, n);
    assert n / 0x1_0000_0000 == high && n % 0x1_0000_0000 == low;
    assert tail[..8] == Word(high) + Word(low);
    DecodeAtInitial(text, b / 0x20, 27, tail);
    assert InitialByte(b / 0x20, 27) == b;
  }

  /** A chunk of another type than the string it is in. */
  lemma {:induction false} OtherChunkRefused(text: TextDecode, part: seq<byte>, v: Value, rest: seq<byte>)
    requires Reads(text, part, v)
    ensures !v.Bytes? ==> Decode(text, [0x5F] + (part + rest)) == Err(WrongChunk)
    ensures !v.Text? ==> Decode(text, [0x7F] + (part + rest)) == Err(WrongChunk)
  {
    ReadIsNoBreak(text, part, v);
    DecodeAtInitial(text, 2, 31, part + rest);
    DecodeAtInitial(text, 3, 31, part + rest);
  }

  /** An item that cannot be read spoils what it is in. */
  lemma {:induction false} ErrorsPass(text: TextDecode, s: seq<byte>, e: DecodeError, key: seq<byte>, k: Value)
    requires Decode(text, s) == Err(e) && Reads(text, key, k)
    ensures Decode(text, [0x81] + s) == Err(e) && Decode(text, [0xA1] + s) == Err(e)
    ensures Decode(text, [0xC0] + s) == Err(e)
    ensures Decode(text, [0xA1] + (key + s)) == Err(e) && Decode(text, [0xBF] + (key + s)) == Err(e)
    ensures s != [] && s[0] != 0xFF ==> Decode(text, [0x9F] + s) == Err(e) && Decode(text, [0xBF] + s) == Err(e)
  {
    hide BigEndian, FromBigEndian;
    ReadIsNoBreak(text, key, k);
    assert Decode(text, key + s) == Ok((k, s));
    SpoiltContainers(text, s, e, key, k);
    DecodeAtInitial(text, 4, 1, s);
    DecodeAtInitial(text, 5, 1, s);
    DecodeAtInitial(text, 6, 0, s);
    DecodeAtInitial(text, 5, 1, key + s);
    DecodeAtInitial(text, 5, 31, key + s);
    DecodeAtInitial(text, 4, 31, s);
    DecodeAtInitial(text, 5, 31, s);
  }

  lemma SpoiltContainers(text: TextDecode, s: seq<byte>, e: DecodeError, key: seq<byte>, k: Value)
    requires Decode(text, s) == Err(e) && Decode(text, key + s) == Ok((k, s)) && key != [] && key[0] != 0xFF
    ensures DecodeItems(text, s, 1) == Err(e) && DecodeItems(text, s, 2) == Err(e)
    ensures DecodeItems(text, key + s, 2) == Err(e) && DecodeStream(text, key + s, Pairs) == Err(e)
    ensures s != [] && s[0] != 0xFF ==>
              DecodeStream(text, s, AnyItems) == Err(e) && DecodeStream(text, s, Pairs) == Err(e)
  {
    hide Decode;
    assert DecodeItems(text, s, 2 - 1) == Err(e);
  }

  // --- Maps -----------------------------------------------------------------------------

  /** Equal numbers, texts, booleans and nulls are one key; anything else is a key of its own. */
  lemma {:induction false} KeysAre(a: Value, b: Value)
    ensures SameKey(a, b) <==> a == b && (a.Number? || a.Text? || a.Bool? || a.Null?)
  {}

  /** A key that is there keeps its place and takes the new value; another is put last. */
  lemma {:induction false} MapSetIs(entries: seq<(Value, Value)>, k: Value, v: Value, i: nat)
    requires i <= |entries| && forall j :: 0 <= j < i ==> !SameKey(entries[j].0, k)
    requires i < |entries| ==> SameKey(entries[i].0, k)
    ensures i == |entries| ==> MapSet(entries, k, v) == entries + [(k, v)] && MapGet(entries, k) == None
    ensures i < |entries| ==>
              && MapSet(entries, k, v) == entries[..i] + [(k, v)] + entries[i + 1..]
              && MapGet(entries, k) == Some(entries[i].1)
  {
    if i < |entries| {
      assert FindKey(entries, k) == Some(i);
    }
  }

  // --- Examples (RFC 8949, appendix A) ---------------------------------------------------------

  /** 1000, -1000 and 2^32 - 1; the empty array either way; a tagged time. */
  lemma {:induction false} NumberExamples(text: TextDecode)
    ensures Reads(text, [0x19, 0x03, 0xE8], Number(1000)) && Reads(text, [0x39, 0x03, 0xE7], Number(-1000))
    ensures Reads(text, [0x1A, 0xFF, 0xFF, 0xFF, 0xFF], Number(4294967295))
    ensures Reads(text, [0xC1, 0x1A, 0x51, 0x4B, 0x67, 0xB0], Tagged(1, Number(1363896240)))
  {
    hide Reads;
    IntegersAreRead(text, Two(1000));
    IntegersAreRead(text, Two(999));
    IntegersAreRead(text, Four(4294967295));
    IntegersAreRead(text, Four(1363896240));
    var time: seq<byte> := [0x1A, 0x51, 0x4B, 0x67, 0xB0];
    assert Head(0x00, Two(1000)) == [0x19, 0x03, 0xE8] && Head(0x20, Two(999)) == [0x39, 0x03, 0xE7];
    assert Head(0x00, Four(4294967295)) == [0x1A, 0xFF, 0xFF, 0xFF, 0xFF];
    assert Head(0x00, Four(1363896240)) == time;
    TagIsRead(text, Inline(1), time, Number(1363896240));
    assert Head(0xC0, Inline(1)) + time == [0xC1, 0x1A, 0x51, 0x4B, 0x67, 0xB0];
  }

  lemma ConcatTwo<T>(a: seq<T>, b: seq<T>)
    ensures Concat([a, b]) == a + b
  {
    assert Concat([a, b][1..]) == b + Concat([b][1..]);
  }

  lemma SmallNumber(text: TextDecode, n: nat)
    requires n < 24
    ensures Reads(text, [n], Number(n))
  {
    IntegersAreRead(text, Inline(n));
  }

  /** [2, 3] in an array of two, and in one closed by a break; {1: 2} likewise. */
  lemma {:induction false} ContainerExamples(text: TextDecode)
    ensures Reads(text, [0x82, 0x02, 0x03], Array([Number(2), Number(3)]))
    ensures Reads(text, [0x9F, 0x02, 0x03, 0xFF], Array([Number(2), Number(3)]))
    ensures Reads(text, [0xA1, 0x02, 0x03], Map([(Number(2), Number(3))]))
    ensures Reads(text, [0xBF, 0x02, 0x03, 0xFF], Map([(Number(2), Number(3))]))
  {
    hide Reads;
    SmallNumber(text, 2);
    SmallNumber(text, 3);
    var parts: seq<seq<byte>>, vs := [[2], [3]], [Number(2), Number(3)];
    ConcatTwo<byte>([2], [3]);
    ArrayIsRead(text, Inline(2), parts, vs);
    MapIsRead(text, Inline(1), parts, vs);
    FromPairsSnoc([], Number(2), Number(3));
    assert [] + vs == vs && FromPairs(vs) == [(Number(2), Number(3))];
    assert Head(0x80, Inline(2)) + Concat(parts) == [0x82, 0x02, 0x03];
    assert Head(0xA0, Inline(1)) + Concat(parts) == [0xA1, 0x02, 0x03];
    assert [0x9F] + Concat(parts) + [0xFF] == [0x9F, 0x02, 0x03, 0xFF];
    assert [0xBF] + Concat(parts) + [0xFF] == [0xBF, 0x02, 0x03, 0xFF];
  }

  /** (_ h'0102', h'030405') is h'0102030405'. */
  lemma {:induction false} ChunkExample(text: TextDecode)
    ensures Reads(text, [0x5F, 0x42, 0x01, 0x02, 0x43, 0x03, 0x04, 0x05, 0xFF], Bytes([1, 2, 3, 4, 5]))
  {
    StringsAreRead(text, Inline(2), [1, 2]);
    StringsAreRead(text, Inline(3), [3, 4, 5]);
    var first, second: seq<byte> := [0x42] + [1, 2], [0x43] + [3, 4, 5];
    ByteChunksAreRead(text, [first, second], [Bytes([1, 2]), Bytes([3, 4, 5])], [[1, 2], [3, 4, 5]]);
    ConcatTwo(first, second);
    ConcatTwo<byte>([1, 2], [3, 4, 5]);
    assert [0x5F] + (first + second) + [0xFF] == [0x5F, 0x42, 0x01, 0x02, 0x43, 0x03, 0x04, 0x05, 0xFF];
    assert [1, 2] + [3, 4, 5] == [1, 2, 3, 4, 5];
  }
}
