/**
  UTF-8 decoding with replacement, as Rust's `String::from_utf8_lossy` and the
  WHATWG `TextDecoder` do it: every maximal ill-formed subpart becomes one
  U+FFFD.  The enclave decodes each chunk on its own; the client's decoder
  carries an unfinished sequence from one chunk to the next.
*/
module Utf8 {
  import opened Prelude

  const REPLACEMENT: char := '\U{FFFD}'
  const BYTE_ORDER_MARK: char := '\U{FEFF}'

  /** Length of the sequence a lead byte announces; an invalid lead byte stands alone. */
  function Width(lead: byte): nat {
    if 0xC2 <= lead <= 0xDF then 2
    else if 0xE0 <= lead <= 0xEF then 3
    else if 0xF0 <= lead <= 0xF4 then 4
    else 1
  }

  predicate IsContinuation(b: byte) {
    0x80 <= b <= 0xBF
  }

  /** May `b` stand at index `i` of a sequence that starts with `lead`? */
  predicate Continues(lead: byte, i: nat, b: byte) {
    && i < Width(lead)
    && IsContinuation(b)
    && (i == 1 ==>
          && (lead == 0xE0 ==> 0xA0 <= b)
          && (lead == 0xED ==> b <= 0x9F)
          && (lead == 0xF0 ==> 0x90 <= b)
          && (lead == 0xF4 ==> b <= 0x8F))
  }

  /** Bytes `s[1..k]` continue the lead byte `s[0]`. */
  ghost predicate Unbroken(s: seq<byte>, k: nat)
    requires k <= |s|
  {
    forall i :: 1 <= i < k ==> Continues(s[0], i, s[i])
  }

  /** Length of the maximal subpart at the front of `s`, knowing that its first `k` bytes belong to it. */
  function Span(s: seq<byte>, k: nat): (n: nat)
    requires 1 <= k <= |s|
    requires Unbroken(s, k)
    ensures k <= n <= |s|
    ensures Unbroken(s, n)
    ensures n < |s| ==> !Continues(s[0], n, s[n])
    decreases |s| - k
  {
    if k < |s| && Continues(s[0], k, s[k]) then Span(s, k + 1) else k
  }

  /** The character a subpart of `s` of length `n` stands for. */
  function Scalar(s: seq<byte>): char
    requires s != [] && Unbroken(s, |s|)
  {
    var lead: int := s[0];
    if |s| != Width(s[0]) then REPLACEMENT
    else if |s| == 1 then (if lead < 0x80 then lead as char else REPLACEMENT)
    else
      assert Continues(s[0], 1, s[1]);
      var low: int := s[|s| - 1];
      if |s| == 2 then ((lead - 0xC0) * 64 + (low - 0x80)) as char
      else
        assert Continues(s[0], 2, s[2]);
        var second: int := s[1];
        if |s| == 3 then ((lead - 0xE0) * 4096 + (second - 0x80) * 64 + (low - 0x80)) as char
        else
          assert Continues(s[0], 3, s[3]);
          var third: int := s[2];
          ((lead - 0xF0) * 262144 + (second - 0x80) * 4096 + (third - 0x80) * 64 + (low - 0x80)) as char
  }

  /** Decodes a whole byte string, replacing what is ill-formed. */
  function Lossy(s: seq<byte>): string {
    if s == [] then ""
    else
      var n := Span(s, 1);
      [Scalar(s[..n])] + Lossy(s[n..])
  }

  /** Is `s` a sequence that has started well and is not finished? */
  predicate Unfinished(s: seq<byte>) {
    s != [] && Span(s, 1) == |s| < Width(s[0])
  }

  /** Decodes as far as complete subparts go; the second component is the unfinished tail, if any. */
  function DecodePrefix(s: seq<byte>): (r: (string, seq<byte>))
    ensures r.1 == [] || Unfinished(r.1)
  {
    if s == [] || Unfinished(s) then ("", s)
    else
      var n := Span(s, 1);
      var (text, tail) := DecodePrefix(s[n..]);
      ([Scalar(s[..n])] + text, tail)
  }

  /** Would cutting the byte stream between `a` and `b` fall inside one encoded sequence? */
  predicate CutsSequence(a: seq<byte>, b: seq<byte>) {
    var tail := DecodePrefix(a).1;
    tail != [] && b != [] && Continues(tail[0], |tail|, b[0])
  }

  lemma SpanIsUnique(s: seq<byte>, k: nat, n: nat)
    requires 1 <= k <= n <= |s| && Unbroken(s, n)
    requires n < |s| ==> !Continues(s[0], n, s[n])
    ensures Span(s, k) == n
    decreases n - k
  {
    if k < n {
      SpanIsUnique(s, k + 1, n);
    }
  }

  /** Bytes that follow a subpart which is already closed do not change it. */
  lemma SpanExtends(s: seq<byte>, t: seq<byte>)
    requires s != [] && !Unfinished(s)
    ensures Span(s + t, 1) == Span(s, 1)
    ensures (s + t)[..Span(s, 1)] == s[..Span(s, 1)] && (s + t)[Span(s, 1)..] == s[Span(s, 1)..] + t
  {
    var n := Span(s, 1);
    SpanIsUnique(s + t, 1, n);
  }

  lemma LossyUnfinished(s: seq<byte>)
    requires Unfinished(s)
    ensures Lossy(s) == [REPLACEMENT]
  {
    assert s[..|s|] == s && s[|s|..] == [];
    assert Lossy([]) == "";
  }

  /** Decoding is decoding the finished part and then the unfinished tail. */
  lemma {:induction false} LossySplits(a: seq<byte>, b: seq<byte>)
    ensures Lossy(a + b) == DecodePrefix(a).0 + Lossy(DecodePrefix(a).1 + b)
    decreases |a|
  {
    if a == [] {
      assert a + b == b && DecodePrefix(a) == ("", a);
    } else if !Unfinished(a) {
      var n := Span(a, 1);
      SpanExtends(a, b);
      LossySplits(a[n..], b);
    }
  }

  /** The carried-over tail makes decoding in two steps the same as decoding at once. */
  lemma {:induction false} DecodePrefixSplits(a: seq<byte>, b: seq<byte>)
    ensures DecodePrefix(a + b).0 == DecodePrefix(a).0 + DecodePrefix(DecodePrefix(a).1 + b).0
    ensures DecodePrefix(a + b).1 == DecodePrefix(DecodePrefix(a).1 + b).1
    decreases |a|
  {
    if a == [] || Unfinished(a) {
      assert [] + b == b;
      assert "" + DecodePrefix(a + b).0 == DecodePrefix(a + b).0;
    } else {
      var rest := a[Span(a, 1)..];
      DecodePrefixSplits(rest, b);
      DecodePrefixStep(a, b);
      Associates([Scalar(a[..Span(a, 1)])], DecodePrefix(rest).0, DecodePrefix(DecodePrefix(rest).1 + b).0);
    }
  }

  lemma DecodePrefixStep(a: seq<byte>, b: seq<byte>)
    requires a != [] && !Unfinished(a)
    ensures var n := Span(a, 1);
            && DecodePrefix(a).0 == [Scalar(a[..n])] + DecodePrefix(a[n..]).0
            && DecodePrefix(a).1 == DecodePrefix(a[n..]).1
            && DecodePrefix(a + b).0 == [Scalar(a[..n])] + DecodePrefix(a[n..] + b).0
            && DecodePrefix(a + b).1 == DecodePrefix(a[n..] + b).1
  {
    SpanExtends(a, b);
    assert !Unfinished(a + b);
  }

  lemma Associates(x: string, y: string, z: string)
    ensures (x + y) + z == x + (y + z)
  {}

  lemma LossyOfPrefix(a: seq<byte>)
    ensures Lossy(a) == DecodePrefix(a).0 + Lossy(DecodePrefix(a).1)
  {
    LossySplits(a, []);
    assert a + [] == a && DecodePrefix(a).1 + [] == DecodePrefix(a).1;
  }

  /** Continuation bytes with no lead byte before them become one replacement each. */
  lemma {:induction false} StrayContinuations(s: seq<byte>, k: nat)
    requires k <= |s| && forall i :: 0 <= i < k ==> IsContinuation(s[i])
    ensures |Lossy(s)| == k + |Lossy(s[k..])|
  {
    if k > 0 {
      assert Span(s, 1) == 1;
      StrayContinuations(s[1..], k - 1);
      assert s[1..][k - 1..] == s[k..];
    } else {
      assert s[0..] == s;
    }
  }

  /** An unfinished tail whose next byte does not continue it is one replacement on its own. */
  lemma TailNotContinued(tail: seq<byte>, b: seq<byte>)
    requires Unfinished(tail) && b != [] && !Continues(tail[0], |tail|, b[0])
    ensures Lossy(tail + b) == Lossy(tail) + Lossy(b)
  {
    var whole := tail + b;
    LossyUnfinished(tail);
    SpanIsUnique(whole, 1, |tail|);
    assert whole[..|tail|] == tail && whole[|tail|..] == b;
  }

  /** A tail that the next byte continues decodes to fewer characters than the two parts do. */
  lemma TailContinued(tail: seq<byte>, b: seq<byte>)
    requires Unfinished(tail) && b != [] && Continues(tail[0], |tail|, b[0])
    ensures |Lossy(tail + b)| < |Lossy(tail)| + |Lossy(b)|
  {
    hide Scalar;
    var whole := tail + b;
    LossyUnfinished(tail);
    var n := Span(whole, 1);
    assert |tail| < n;
    var k := n - |tail|;
    assert whole[n..] == b[k..];
    forall i | 0 <= i < k ensures IsContinuation(b[i]) {
      assert b[i] == whole[|tail| + i];
    }
    StrayContinuations(b, k);
  }

  lemma TailChunksIffAligned(tail: seq<byte>, b: seq<byte>)
    requires tail == [] || Unfinished(tail)
    ensures Lossy(tail + b) == Lossy(tail) + Lossy(b) <==>
            !(tail != [] && b != [] && Continues(tail[0], |tail|, b[0]))
  {
    if tail == [] {
      EmptyTail(b);
    } else if b == [] {
      EmptyTail(tail);
    } else if Continues(tail[0], |tail|, b[0]) {
      TailContinued(tail, b);
      ShorterDiffers(Lossy(tail + b), Lossy(tail), Lossy(b));
    } else {
      TailNotContinued(tail, b);
    }
  }

  lemma EmptyTail(s: seq<byte>)
    ensures Lossy([] + s) == Lossy([]) + Lossy(s) && Lossy(s + []) == Lossy(s) + Lossy([])
  {
    assert Lossy([]) == "";
    EmptyAppended(s);
    EmptyAppended(Lossy(s));
  }

  lemma EmptyAppended<T>(s: seq<T>)
    ensures [] + s == s && s + [] == s
  {}

  lemma ShorterDiffers(x: string, y: string, z: string)
    requires |x| < |y| + |z|
    ensures x != y + z
  {}

  lemma PrefixCancels(p: string, x: string, y: string, z: string)
    ensures p + z == (p + x) + y <==> z == x + y
  {
    assert (p + x) + y == p + (x + y);
    assert (p + z)[|p|..] == z && (p + (x + y))[|p|..] == x + y;
  }

  /**
    Decoding two chunks separately, as the enclave does, gives the decoding of
    their concatenation exactly when the cut does not fall inside a sequence.
  */
  lemma LossyChunksIffAligned(a: seq<byte>, b: seq<byte>)
    ensures Lossy(a + b) == Lossy(a) + Lossy(b) <==> !CutsSequence(a, b)
  {
    var (text, tail) := DecodePrefix(a);
    LossySplits(a, b);
    LossyOfPrefix(a);
    TailChunksIffAligned(tail, b);
    PrefixCancels(text, Lossy(tail), Lossy(b), Lossy(tail + b));
  }

  /** Decoding separately never gives fewer characters, and gives more when the cut falls inside a sequence. */
  lemma CutsAddCharacters(a: seq<byte>, b: seq<byte>)
    ensures |Lossy(a + b)| <= |Lossy(a)| + |Lossy(b)|
    ensures CutsSequence(a, b) ==> |Lossy(a + b)| < |Lossy(a)| + |Lossy(b)|
  {
    var (text, tail) := DecodePrefix(a);
    if CutsSequence(a, b) {
      LossySplits(a, b);
      LossyOfPrefix(a);
      TailContinued(tail, b);
    } else {
      LossyChunksIffAligned(a, b);
    }
  }

  /** A two-byte character cut in the middle: the enclave sees two replacements instead. */
  lemma CutCharacterIsLost()
    ensures Lossy([0xC3, 0xA9]) == "\U{E9}"
    ensures Lossy([0xC3]) + Lossy([0xA9]) == [REPLACEMENT, REPLACEMENT]
  {
    var s: seq<byte> := [0xC3, 0xA9];
    SpanIsUnique(s, 1, 2);
    assert s[..2] == s && s[2..] == [];
    assert Lossy([]) == "";
    var a: seq<byte> := [0xC3];
    var b: seq<byte> := [0xA9];
    assert a[..1] == a && a[1..] == [] && b[..1] == b && b[1..] == [];
  }
}
