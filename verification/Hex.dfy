/** Hexadecimal text: the enclave's encoder, and the decoders its readers use. */
module Hex {
  import opened Prelude

  function Digit(n: nat): (c: char)
    requires n < 16
    ensures DigitValue(c) == Some(n)
    ensures IsLower(c)
  {
    if n < 10 then '0' + (n as char) else 'a' + ((n - 10) as char)
  }

  predicate IsLower(c: char) {
    '0' <= c <= '9' || 'a' <= c <= 'f'
  }

  function DigitValue(c: char): (v: Option<nat>)
    ensures v.Some? ==> v.value < 16
  {
    if '0' <= c <= '9' then Some(c as int - '0' as int)
    else if 'a' <= c <= 'f' then Some(c as int - 'a' as int + 10)
    else if 'A' <= c <= 'F' then Some(c as int - 'A' as int + 10)
    else None
  }

  predicate IsHex(s: string) {
    forall i :: 0 <= i < |s| ==> DigitValue(s[i]).Some?
  }

  /** `hex::encode`: two lower-case digits a byte. */
  function Encode(bytes: seq<byte>): (s: string)
    ensures |s| == 2 * |bytes|
    ensures forall i :: 0 <= i < |s| ==> IsLower(s[i])
  {
    if bytes == [] then ""
    else [Digit(bytes[0] / 16), Digit(bytes[0] % 16)] + Encode(bytes[1..])
  }

  /** The byte two digits stand for. */
  function Pair(high: char, low: char): Option<byte> {
    match (DigitValue(high), DigitValue(low))
    case (Some(h), Some(l)) => Some(h * 16 + l)
    case _ => None
  }

  /** `Buffer.from(s, "hex")`: stops quietly at the first pair that is not two digits. */
  function DecodePrefix(s: string): seq<byte> {
    if |s| < 2 then []
    else
      match Pair(s[0], s[1])
      case None => []
      case Some(b) => [b] + DecodePrefix(s[2..])
  }

  /** A decoder that refuses what is not a whole number of digit pairs. */
  function DecodeStrict(s: string): Option<seq<byte>> {
    if s == "" then Some([])
    else if |s| < 2 then None
    else
      match (Pair(s[0], s[1]), DecodeStrict(s[2..]))
      case (Some(b), Some(bs)) => Some([b] + bs)
      case _ => None
  }

  lemma {:induction false} DecodeEncode(bytes: seq<byte>)
    ensures DecodePrefix(Encode(bytes)) == bytes
    ensures DecodeStrict(Encode(bytes)) == Some(bytes)
  {
    if bytes != [] {
      DecodeEncode(bytes[1..]);
      var s := Encode(bytes);
      assert s[2..] == Encode(bytes[1..]);
      assert Pair(s[0], s[1]) == Some(bytes[0]);
    }
  }

  /** The digits: sixteen lower-case ones are written, upper-case ones are read too, and no other character. */
  lemma {:induction false} DigitsAre(n: nat, c: char)
    requires n < 16
    ensures Digit(n) == "0123456789abcdef"[n]
    ensures DigitValue("0123456789abcdef"[n]) == Some(n) && DigitValue("0123456789ABCDEF"[n]) == Some(n)
    ensures DigitValue(c) == None <==> c !in "0123456789abcdefABCDEF"
  {
    if DigitValue(c).Some? {
      var v := DigitValue(c).value;
      assert "0123456789abcdefABCDEF"[v] == c || "0123456789abcdefABCDEF"[v + 6] == c;
    }
  }

  /** A byte is written as its high digit and its low digit. */
  lemma {:induction false} ByteIsWritten(bytes: seq<byte>, i: nat)
    requires i < |bytes|
    ensures Encode(bytes)[2 * i] == "0123456789abcdef"[bytes[i] / 16]
    ensures Encode(bytes)[2 * i + 1] == "0123456789abcdef"[bytes[i] % 16]
  {
    if i > 0 {
      ByteIsWritten(bytes[1..], i - 1);
    } else {
      DigitsAre(bytes[0] / 16, '0');
      DigitsAre(bytes[0] % 16, '0');
    }
  }

  lemma EncodeInjective(a: seq<byte>, b: seq<byte>)
    requires Encode(a) == Encode(b)
    ensures a == b
  {
    DecodeEncode(a);
    DecodeEncode(b);
  }
}
