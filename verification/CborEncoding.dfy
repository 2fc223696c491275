/**
  The encoding relation the reader is judged by: an encoding tree fixes every
  choice RFC 8949 leaves open (section 3: which of the five length heads;
  section 3.2: definite or indefinite framing), and `BytesOf` writes it out.
*/
module CborEncoding {
  import opened Prelude
  import opened CborValues

  const MAX_SAFE_INTEGER: nat := 0x1F_FFFF_FFFF_FFFF
  const BREAK: byte := 0xFF

  /** A length head: the argument in the initial byte, or in 1, 2, 4 or 8 following bytes. */
  datatype Head =
    | Inline(n: nat)
    | One(n: nat)
    | Two(n: nat)
    | Four(n: nat)
    | Eight(n: nat)

  datatype Framing = Definite(head: Head) | Indefinite

  datatype Encoding =
    | UnsignedInt(head: Head)
    | NegativeInt(head: Head)
    | ByteString(head: Head, data: seq<byte>)
    | ByteChunks(chunks: seq<Encoding>)
    | TextString(head: Head, data: seq<byte>)
    | TextChunks(chunks: seq<Encoding>)
    | ArrayOf(framing: Framing, items: seq<Encoding>)
    | MapOf(framing: Framing, keysAndValues: seq<Encoding>)
    | TagOf(head: Head, item: Encoding)
    | SimpleValue(info: nat)
    | FloatBits(info: nat, data: seq<byte>)

  /** `w` bytes, most significant first. */
  function BigEndian(w: nat, n: nat): (s: seq<byte>)
    ensures |s| == w
  {
    if w == 0 then [] else BigEndian(w - 1, n / 256) + [n % 256]
  }

  function FromBigEndian(s: seq<byte>): nat {
    if s == [] then 0 else FromBigEndian(s[..|s| - 1]) * 256 + s[|s| - 1]
  }

  lemma {:induction false} BigEndianRoundTrip(w: nat, n: nat)
    requires n < Limit(w)
    ensures FromBigEndian(BigEndian(w, n)) == n
  {
    if w > 0 {
      BigEndianRoundTrip(w - 1, n / 256);
      var s := BigEndian(w, n);
      assert s[..|s| - 1] == BigEndian(w - 1, n / 256);
    }
  }

  lemma {:induction false} FromBigEndianRoundTrip(s: seq<byte>)
    ensures FromBigEndian(s) < Limit(|s|)
    ensures BigEndian(|s|, FromBigEndian(s)) == s
  {
    if s != [] {
      FromBigEndianRoundTrip(s[..|s| - 1]);
    }
  }

  lemma Limits()
    ensures Limit(1) == 0x100 && Limit(2) == 0x1_0000 && Limit(4) == 0x1_0000_0000
    ensures Limit(8) == 0x1_0000_0000_0000_0000
  {
    assert Limit(3) == 256 * Limit(2) && Limit(5) == 256 * Limit(4);
    assert Limit(6) == 256 * Limit(5) && Limit(7) == 256 * Limit(6);
  }

  predicate ValidHead(h: Head) {
    match h
    case Inline(n) => n < 24
    case One(n) => n < 0x100
    case Two(n) => n < 0x1_0000
    case Four(n) => n < 0x1_0000_0000
    case Eight(n) => n <= MAX_SAFE_INTEGER
  }

  /** The low five bits of the initial byte. */
  function Info(h: Head): (r: nat)
    requires ValidHead(h)
    ensures r < 28
  {
    match h
    case Inline(n) => n
    case One(_) => 24
    case Two(_) => 25
    case Four(_) => 26
    case Eight(_) => 27
  }

  /** The bytes of the argument that follow the initial byte. */
  function Argument(h: Head): seq<byte> {
    match h
    case Inline(_) => []
    case One(n) => BigEndian(1, n)
    case Two(n) => BigEndian(2, n)
    case Four(n) => BigEndian(4, n)
    case Eight(n) => BigEndian(8, n)
  }

  function InitialByte(major: nat, info: nat): byte
    requires major < 8 && info < 32
  {
    major * 32 + info
  }

  function HeadBytes(major: nat, h: Head): seq<byte>
    requires major < 8 && ValidHead(h)
  {
    [InitialByte(major, Info(h))] + Argument(h)
  }

  predicate ValidFraming(f: Framing, count: nat) {
    f.Definite? ==> ValidHead(f.head) && f.head.n == count
  }

  /** How many bytes a float of additional information `info` carries. */
  function FloatWidth(info: nat): nat {
    if info == 25 then 2 else if info == 26 then 4 else 8
  }

  predicate Valid(e: Encoding)
    decreases e, 1
  {
    match e
    case UnsignedInt(h) => ValidHead(h)
    case NegativeInt(h) => ValidHead(h)
    case ByteString(h, data) => ValidHead(h) && h.n == |data|
    case ByteChunks(chunks) => AllValid(chunks) && forall c <- chunks :: c.ByteString? || c.ByteChunks?
    case TextString(h, data) => ValidHead(h) && h.n == |data|
    case TextChunks(chunks) => AllValid(chunks) && forall c <- chunks :: c.TextString? || c.TextChunks?
    case ArrayOf(f, items) => AllValid(items) && ValidFraming(f, |items|)
    case MapOf(f, kvs) => AllValid(kvs) && |kvs| % 2 == 0 && ValidFraming(f, |kvs| / 2)
    case TagOf(h, item) => ValidHead(h) && Valid(item)
    case SimpleValue(info) => 20 <= info <= 23
    case FloatBits(info, data) => 25 <= info <= 27 && |data| == FloatWidth(info)
  }

  predicate AllValid(es: seq<Encoding>)
    decreases es, 0
  {
    es == [] || (Valid(es[0]) && AllValid(es[1..]))
  }

  /** Container bytes: the initial byte and argument of a definite length, or the indefinite form closed by a break. */
  function Framed(major: nat, f: Framing, content: seq<byte>): seq<byte>
    requires major < 8 && (f.Definite? ==> ValidHead(f.head))
  {
    match f
    case Definite(h) => HeadBytes(major, h) + content
    case Indefinite => [InitialByte(major, 31)] + content + [BREAK]
  }

  function BytesOf(e: Encoding): (s: seq<byte>)
    requires Valid(e)
    ensures s != [] && s[0] != BREAK
    decreases e, 1
  {
    match e
    case UnsignedInt(h) => HeadBytes(0, h)
    case NegativeInt(h) => HeadBytes(1, h)
    case ByteString(h, data) => HeadBytes(2, h) + data
    case ByteChunks(chunks) => Framed(2, Indefinite, AllBytes(chunks))
    case TextString(h, data) => HeadBytes(3, h) + data
    case TextChunks(chunks) => Framed(3, Indefinite, AllBytes(chunks))
    case ArrayOf(f, items) => Framed(4, f, AllBytes(items))
    case MapOf(f, kvs) => Framed(5, f, AllBytes(kvs))
    case TagOf(h, item) => HeadBytes(6, h) + BytesOf(item)
    case SimpleValue(info) => [InitialByte(7, info)]
    case FloatBits(info, data) => [InitialByte(7, info)] + data
  }

  function AllBytes(es: seq<Encoding>): seq<byte>
    requires AllValid(es)
    decreases es, 0
  {
    if es == [] then [] else BytesOf(es[0]) + AllBytes(es[1..])
  }

  /** The value an encoding stands for. Floats and `undefined` read as null. */
  function ValueOf(text: TextDecode, e: Encoding): (v: Value)
    ensures e.ByteString? || e.ByteChunks? ==> v.Bytes?
    ensures e.TextString? || e.TextChunks? ==> v.Text?
    ensures v.Bytes? ==> e.ByteString? || e.ByteChunks?
    ensures v.Text? ==> e.TextString? || e.TextChunks?
    decreases e, 1
  {
    match e
    case UnsignedInt(h) => Number(h.n)
    case NegativeInt(h) => Number(-1 - h.n)
    case ByteString(_, data) => Bytes(data)
    case ByteChunks(chunks) => Bytes(JoinBytes(AllValues(text, chunks)))
    case TextString(_, data) => Text(text(data))
    case TextChunks(chunks) => Text(JoinText(AllValues(text, chunks)))
    case ArrayOf(_, items) => Array(AllValues(text, items))
    case MapOf(_, kvs) => Map(FromPairs(AllValues(text, kvs)))
    case TagOf(h, item) => Tagged(h.n, ValueOf(text, item))
    case SimpleValue(info) => if info == 20 then Bool(false) else if info == 21 then Bool(true) else Null
    case FloatBits(_, _) => Null
  }

  function AllValues(text: TextDecode, es: seq<Encoding>): (vs: seq<Value>)
    ensures |vs| == |es|
    ensures forall i :: 0 <= i < |es| ==> vs[i] == ValueOf(text, es[i])
    decreases es, 0
  {
    if es == [] then [] else [ValueOf(text, es[0])] + AllValues(text, es[1..])
  }

  lemma ConsEncoding(text: TextDecode, e: Encoding, es: seq<Encoding>)
    requires Valid(e) && AllValid(es)
    ensures AllValid([e] + es)
    ensures AllBytes([e] + es) == BytesOf(e) + AllBytes(es)
    ensures AllValues(text, [e] + es) == [ValueOf(text, e)] + AllValues(text, es)
  {
    assert ([e] + es)[1..] == es;
  }

  lemma PairEncodings(text: TextDecode, e: Encoding, f: Encoding, es: seq<Encoding>)
    requires Valid(e) && Valid(f) && AllValid(es)
    ensures AllValid([e, f] + es)
    ensures AllBytes([e, f] + es) == BytesOf(e) + BytesOf(f) + AllBytes(es)
    ensures AllValues(text, [e, f] + es) == [ValueOf(text, e), ValueOf(text, f)] + AllValues(text, es)
  {
    ConsEncoding(text, f, es);
    ConsEncoding(text, e, [f] + es);
    assert [e, f] + es == [e] + ([f] + es);
    Associative(BytesOf(e), BytesOf(f), AllBytes(es));
  }

  lemma PairBytes(text: TextDecode, e: Encoding, f: Encoding, es: seq<Encoding>, rest: seq<byte>)
    requires Valid(e) && Valid(f) && AllValid(es)
    ensures AllValid([e, f] + es)
    ensures AllBytes([e, f] + es) + [BREAK] + rest == BytesOf(e) + (BytesOf(f) + (AllBytes(es) + [BREAK] + rest))
    ensures AllValues(text, [e, f] + es) == [ValueOf(text, e), ValueOf(text, f)] + AllValues(text, es)
  {
    PairEncodings(text, e, f, es);
    Regroup(BytesOf(e), BytesOf(f), AllBytes(es), [BREAK], rest);
  }

  lemma AllValidIndex(es: seq<Encoding>)
    ensures AllValid(es) <==> forall i :: 0 <= i < |es| ==> Valid(es[i])
  {
    if es != [] {
      AllValidIndex(es[1..]);
      assert es == [es[0]] + es[1..];
    }
  }
}
