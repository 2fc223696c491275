/**
  The other direction of UTF-8 (RFC 3629, section 3): what a scalar value is
  encoded as, that the decoder undoes it, and that everything else is ill-formed
  and replaced.
*/
module Utf8Encoding {
  import opened Prelude
  import opened Utf8

  /** One to four bytes, by the size of the scalar value. */
  function EncodeChar(c: char): (s: seq<byte>)
    ensures 1 <= |s| <= 4
  {
    var n := c as int;
    if n < 0x80 then [n]
    else if n < 0x800 then [0xC0 + n / 64, 0x80 + n % 64]
    else if n < 0x1_0000 then [0xE0 + n / 4096, 0x80 + n / 64 % 64, 0x80 + n % 64]
    else [0xF0 + n / 262144, 0x80 + n / 4096 % 64, 0x80 + n / 64 % 64, 0x80 + n % 64]
  }

  function Encode(s: string): seq<byte> {
    if s == "" then [] else EncodeChar(s[0]) + Encode(s[1..])
  }

  /** A closed subpart in front of other bytes is one character of the text. */
  lemma {:induction false} SubpartInFront(sub: seq<byte>, rest: seq<byte>)
    requires sub != [] && Unbroken(sub, |sub|)
    requires rest != [] ==> !Continues(sub[0], |sub|, rest[0])
    ensures Lossy(sub + rest) == [Scalar(sub)] + Lossy(rest)
  {
    var whole := sub + rest;
    SpanIsUnique(whole, 1, |sub|);
    assert whole[..|sub|] == sub && whole[|sub|..] == rest;
  }

  /** An encoded character is a whole sequence, and stands for that character. */
  lemma {:induction false} EncodedIsWhole(c: char)
    ensures var s := EncodeChar(c); Unbroken(s, |s|) && |s| == Width(s[0]) && Scalar(s) == c
  {
    var n := c as int;
    if n < 0x80 {
    } else if n < 0x800 {
      TwoBytes(c);
    } else if n < 0x1_0000 {
      ThreeBytes(c);
    } else {
      FourBytes(c);
    }
  }

  lemma {:induction false} TwoBytes(c: char)
    requires 0x80 <= c as int < 0x800
    ensures var s := EncodeChar(c); Unbroken(s, |s|) && |s| == Width(s[0]) && Scalar(s) == c
  {
    var n := c as int;
    assert 2 <= n / 64 < 32 && n == n / 64 * 64 + n % 64;
  }

  lemma {:induction false} ThreeBytes(c: char)
    requires 0x800 <= c as int < 0x1_0000
    ensures var s := EncodeChar(c); Unbroken(s, |s|) && |s| == Width(s[0]) && Scalar(s) == c
  {
    var n := c as int;
    var a, b, d := n / 4096, n / 64 % 64, n % 64;
    assert n / 64 / 64 == a && n / 64 == a * 64 + b && n == (a * 64 + b) * 64 + d;
    assert a == 0 ==> 0x20 <= b;
    assert a == 0xD ==> b < 0x20;
    var s := EncodeChar(c);
    assert s == [0xE0 + a, 0x80 + b, 0x80 + d];
    assert Continues(s[0], 1, s[1]) && Continues(s[0], 2, s[2]);
  }

  lemma {:induction false} FourBytes(c: char)
    requires 0x1_0000 <= c as int
    ensures var s := EncodeChar(c); Unbroken(s, |s|) && |s| == Width(s[0]) && Scalar(s) == c
  {
    var n := c as int;
    var a, b, d, e := n / 262144, n / 4096 % 64, n / 64 % 64, n % 64;
    assert n / 64 / 64 == n / 4096 && n / 4096 / 64 == a;
    assert n == ((a * 64 + b) * 64 + d) * 64 + e;
    assert a == 0 ==> 0x10 <= b;
    assert a <= 4 && (a == 4 ==> b < 0x10);
    var s := EncodeChar(c);
    assert s == [0xF0 + a, 0x80 + b, 0x80 + d, 0x80 + e];
    assert Continues(s[0], 1, s[1]) && Continues(s[0], 2, s[2]) && Continues(s[0], 3, s[3]);
  }

  /** Decoding undoes encoding. */
  lemma {:induction false} DecodeEncode(s: string)
    ensures Lossy(Encode(s)) == s
  {
    if s == "" {
      assert Lossy([]) == "";
    } else {
      DecodeEncode(s[1..]);
      EncodedIsWhole(s[0]);
      var first, rest := EncodeChar(s[0]), Encode(s[1..]);
      assert !Continues(first[0], |first|, 0x80);
      assert rest != [] ==> !Continues(first[0], |first|, rest[0]);
      SubpartInFront(first, rest);
    }
  }

  /** A whole sequence is the encoding of what it stands for; any other subpart is replaced, and encodes nothing. */
  lemma {:induction false} SubpartMeans(s: seq<byte>, c: char)
    requires s != [] && Unbroken(s, |s|)
    ensures if |s| == Width(s[0]) && (|s| > 1 || s[0] < 0x80) then EncodeChar(Scalar(s)) == s
            else Scalar(s) == '\U{FFFD}' && EncodeChar(c) != s
  {
    if |s| == Width(s[0]) && (|s| > 1 || s[0] < 0x80) {
      if |s| >= 2 { assert Continues(s[0], 1, s[1]); }
      if |s| >= 3 { assert Continues(s[0], 2, s[2]); }
      if |s| >= 4 { assert Continues(s[0], 3, s[3]); }
      WholeIsEncoded(s);
    } else {
      EncodedIsWhole(c);
    }
  }

  lemma {:induction false} FourDigits(a: nat, b: nat, d: nat, e: nat)
    requires b < 64 && d < 64 && e < 64
    ensures var n := a * 262144 + b * 4096 + d * 64 + e;
            && n / 262144 == a && n / 4096 % 64 == b && n / 64 % 64 == d && n % 64 == e
  {
    var n := a * 262144 + b * 4096 + d * 64 + e;
    assert n / 64 == a * 4096 + b * 64 + d && n / 4096 == a * 64 + b;
  }

  lemma {:induction false} WholeIsEncoded(s: seq<byte>)
    requires s != [] && Unbroken(s, |s|) && |s| == Width(s[0]) && (|s| > 1 || s[0] < 0x80)
    ensures EncodeChar(Scalar(s)) == s
  {
    var lead: int := s[0];
    if |s| == 2 {
      assert Continues(s[0], 1, s[1]);
    } else if |s| == 3 {
      assert Continues(s[0], 1, s[1]) && Continues(s[0], 2, s[2]);
      var a, b, d: int := lead - 0xE0, s[1] - 0x80, s[2] - 0x80;
      var n := a * 4096 + b * 64 + d;
      assert n / 64 == a * 64 + b && n / 4096 == a && n / 64 % 64 == b && n % 64 == d;
    } else if |s| == 4 {
      assert Continues(s[0], 1, s[1]) && Continues(s[0], 2, s[2]) && Continues(s[0], 3, s[3]);
      var a, b, d, e: int := lead - 0xF0, s[1] - 0x80, s[2] - 0x80, s[3] - 0x80;
      FourDigits(a, b, d, e);
    }
  }

  /** Bytes whose text has no replacement character are the encoding of that text. */
  lemma {:induction false} EncodeDecode(bytes: seq<byte>)
    requires '\U{FFFD}' !in Lossy(bytes)
    ensures Encode(Lossy(bytes)) == bytes
    decreases |bytes|
  {
    if bytes != [] {
      var n := Span(bytes, 1);
      var sub, rest := bytes[..n], bytes[n..];
      SubpartMeans(sub, 'a');
      var text := Lossy(bytes);
      assert text[0] == Scalar(sub) && text[1..] == Lossy(rest);
      EncodeDecode(rest);
      assert bytes == sub + rest;
    }
  }

  // --- Examples ------------------------------------------------------------------------

  /** The first example of RFC 3629, section 7, and the euro sign. */
  lemma {:induction false} EncodedExamples()
    ensures EncodeChar('A') == [0x41] && EncodeChar('\U{2262}') == [0xE2, 0x89, 0xA2]
    ensures EncodeChar('\U{391}') == [0xCE, 0x91] && EncodeChar('\U{20AC}') == [0xE2, 0x82, 0xAC]
    ensures EncodeChar('\U{233B4}') == [0xF0, 0xA3, 0x8E, 0xB4] && EncodeChar('\U{FEFF}') == [0xEF, 0xBB, 0xBF]
  {}

  lemma {:induction false} OneReplaced(sub: seq<byte>, rest: seq<byte>, all: seq<byte>)
    requires sub != [] && Unbroken(sub, |sub|) && (|sub| != Width(sub[0]) || (|sub| == 1 && sub[0] >= 0x80))
    requires rest != [] ==> !Continues(sub[0], |sub|, rest[0])
    requires all == sub + rest
    ensures Lossy(all) == ['\U{FFFD}'] + Lossy(rest)
  {
    SubpartInFront(sub, rest);
    SubpartMeans(sub, 'a');
  }

  /** Each maximal subpart is replaced once: a truncated sequence, an overlong one, and a surrogate. */
  lemma {:induction false} ReplacedExamples(rest: seq<byte>)
    requires rest != [] ==> rest[0] < 0x80
    ensures Lossy([0xF1, 0x80, 0x80] + rest) == ['\U{FFFD}'] + Lossy(rest)
    ensures Lossy([0xC0, 0x80] + rest) == ['\U{FFFD}'] + (['\U{FFFD}'] + Lossy(rest))
    ensures Lossy([0xED, 0xA0] + rest) == ['\U{FFFD}'] + (['\U{FFFD}'] + Lossy(rest))
  {
    hide Lossy, Scalar;
    OneReplaced([0xF1, 0x80, 0x80], rest, [0xF1, 0x80, 0x80] + rest);
    OneReplaced([0x80], rest, [0x80] + rest);
    OneReplaced([0xC0], [0x80] + rest, [0xC0, 0x80] + rest);
    OneReplaced([0xA0], rest, [0xA0] + rest);
    OneReplaced([0xED], [0xA0] + rest, [0xED, 0xA0] + rest);
  }
}
