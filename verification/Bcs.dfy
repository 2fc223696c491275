/** BCS, the binary format receipts are signed in: a struct is its fields one after the other. */
module Bcs {
  import opened Prelude

  /** `w` bytes, least significant first. */
  function LittleEndian(w: nat, n: nat): (s: seq<byte>)
    ensures |s| == w
  {
    if w == 0 then [] else [n % 256] + LittleEndian(w - 1, n / 256)
  }

  function FromLittleEndian(s: seq<byte>): nat {
    if s == [] then 0 else s[0] + 256 * FromLittleEndian(s[1..])
  }

  lemma {:induction false} LittleEndianRoundTrip(w: nat, n: nat)
    requires n < Limit(w)
    ensures FromLittleEndian(LittleEndian(w, n)) == n
  {
    if w > 0 {
      LittleEndianRoundTrip(w - 1, n / 256);
      assert LittleEndian(w, n)[1..] == LittleEndian(w - 1, n / 256);
    }
  }

  lemma {:induction false} FromLittleEndianRoundTrip(s: seq<byte>)
    ensures FromLittleEndian(s) < Limit(|s|)
    ensures LittleEndian(|s|, FromLittleEndian(s)) == s
  {
    if s != [] {
      FromLittleEndianRoundTrip(s[1..]);
      assert s == [s[0]] + s[1..];
    }
  }

  /** A length prefix: seven bits a byte, low bits first, the top bit set on all but the last. */
  function Uleb128(n: nat): (s: seq<byte>)
    ensures s != []
  {
    if n < 128 then [n] else [n % 128 + 128] + Uleb128(n / 128)
  }

  function ReadUleb128(s: seq<byte>): (r: Option<(nat, seq<byte>)>)
    ensures r.Some? ==> |r.value.1| < |s|
  {
    if s == [] then None
    else
      var b: int := s[0];
      if b < 128 then Some((b, s[1..]))
      else
        match ReadUleb128(s[1..])
        case None => None
        case Some((high, rest)) => Some((b - 128 + 128 * high, rest))
  }

  lemma {:induction false} Uleb128RoundTrip(n: nat, rest: seq<byte>)
    ensures ReadUleb128(Uleb128(n) + rest) == Some((n, rest))
  {
    var s := Uleb128(n) + rest;
    if n < 128 {
      assert s[1..] == rest;
    } else {
      Uleb128RoundTrip(n / 128, rest);
      assert s[1..] == Uleb128(n / 128) + rest;
    }
  }

  /** A field of a struct. Strings are the byte vectors of their UTF-8 form. */
  datatype Field = U8(b: byte) | U64(n: nat) | U256(big: nat) | Bytes(bytes: seq<byte>)

  datatype Kind = KU8 | KU64 | KU256 | KBytes

  function KindOf(f: Field): Kind {
    match f
    case U8(_) => KU8
    case U64(_) => KU64
    case U256(_) => KU256
    case Bytes(_) => KBytes
  }

  predicate InRange(f: Field) {
    match f
    case U64(n) => n < Limit(8)
    case U256(n) => n < Limit(32)
    case _ => true
  }

  function WriteField(f: Field): seq<byte> {
    match f
    case U8(b) => [b]
    case U64(n) => LittleEndian(8, n)
    case U256(n) => LittleEndian(32, n)
    case Bytes(bs) => Uleb128(|bs|) + bs
  }

  function Write(fields: seq<Field>): seq<byte> {
    if fields == [] then [] else WriteField(fields[0]) + Write(fields[1..])
  }

  function Take(s: seq<byte>, n: nat): Option<(seq<byte>, seq<byte>)> {
    if n <= |s| then Some((s[..n], s[n..])) else None
  }

  function ReadField(kind: Kind, s: seq<byte>): Option<(Field, seq<byte>)> {
    match kind
    case KU8 => if s == [] then None else Some((U8(s[0]), s[1..]))
    case KU64 =>
      (match Take(s, 8) case None => None case Some((n, rest)) => Some((U64(FromLittleEndian(n)), rest)))
    case KU256 =>
      (match Take(s, 32) case None => None case Some((n, rest)) => Some((U256(FromLittleEndian(n)), rest)))
    case KBytes =>
      (match ReadUleb128(s)
       case None => None
       case Some((len, mid)) =>
         match Take(mid, len) case None => None case Some((bs, rest)) => Some((Bytes(bs), rest)))
  }

  /** Reads a struct by its field kinds. */
  function Read(kinds: seq<Kind>, s: seq<byte>): Option<(seq<Field>, seq<byte>)> {
    if kinds == [] then Some(([], s))
    else
      match ReadField(kinds[0], s)
      case None => None
      case Some((f, mid)) =>
        match Read(kinds[1..], mid)
        case None => None
        case Some((fs, rest)) => Some(([f] + fs, rest))
  }

  function KindsOf(fields: seq<Field>): (kinds: seq<Kind>)
    ensures |kinds| == |fields|
  {
    if fields == [] then [] else [KindOf(fields[0])] + KindsOf(fields[1..])
  }

  predicate AllInRange(fields: seq<Field>) {
    forall i :: 0 <= i < |fields| ==> InRange(fields[i])
  }

  lemma TakeFront(a: seq<byte>, rest: seq<byte>)
    ensures Take(a + rest, |a|) == Some((a, rest))
  {
    assert (a + rest)[..|a|] == a && (a + rest)[|a|..] == rest;
  }

  lemma FieldRoundTrip(f: Field, rest: seq<byte>)
    requires InRange(f)
    ensures ReadField(KindOf(f), WriteField(f) + rest) == Some((f, rest))
  {
    match f
    case U8(b) => assert ([b] + rest)[1..] == rest;
    case U64(n) =>
      LittleEndianRoundTrip(8, n);
      TakeFront(LittleEndian(8, n), rest);
    case U256(n) =>
      LittleEndianRoundTrip(32, n);
      TakeFront(LittleEndian(32, n), rest);
    case Bytes(bs) =>
      Associative(Uleb128(|bs|), bs, rest);
      Uleb128RoundTrip(|bs|, bs + rest);
      TakeFront(bs, rest);
  }

  /** A written struct is read back by its kinds, whatever follows it and however long its vectors are. */
  lemma {:induction false} WriteRoundTrip(fields: seq<Field>, rest: seq<byte>)
    requires AllInRange(fields)
    ensures Read(KindsOf(fields), Write(fields) + rest) == Some((fields, rest))
  {
    if fields == [] {
      assert Write(fields) + rest == rest;
    } else {
      var tail := Write(fields[1..]) + rest;
      Associative(WriteField(fields[0]), Write(fields[1..]), rest);
      FieldRoundTrip(fields[0], tail);
      WriteRoundTrip(fields[1..], rest);
      assert KindsOf(fields)[1..] == KindsOf(fields[1..]);
      assert [fields[0]] + fields[1..] == fields;
    }
  }

  lemma {:induction false} WriteSnoc(fields: seq<Field>, f: Field)
    ensures Write(fields + [f]) == Write(fields) + WriteField(f)
  {
    if fields == [] {
      var none: seq<Field> := [];
      assert fields + [f] == [f] && [f][1..] == none;
      assert WriteField(f) + [] == WriteField(f) && [] + WriteField(f) == WriteField(f);
    } else {
      assert (fields + [f])[1..] == fields[1..] + [f];
      WriteSnoc(fields[1..], f);
      Associative(WriteField(fields[0]), Write(fields[1..]), WriteField(f));
    }
  }
}
