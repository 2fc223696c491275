/** The converse of completeness: whatever the reader accepts is a valid encoding of what it returns. */
module CborSoundness {
  import opened Prelude
  import opened CborValues
  import opened CborEncoding
  import opened CborDecoding

  function HeadOf(additional: nat, n: nat): Head {
    if additional < 24 then Inline(n)
    else if additional == 24 then One(n)
    else if additional == 25 then Two(n)
    else if additional == 26 then Four(n)
    else Eight(n)
  }

  lemma ReadLengthSound(s: seq<byte>, additional: nat)
    requires ReadLength(s, additional).Ok?
    ensures var (n, rest) := ReadLength(s, additional).value; var h := HeadOf(additional, n);
            ValidHead(h) && Info(h) == additional && h.n == n && s == Argument(h) + rest
  {
    Limits();
    if additional >= 24 {
      var width := if additional == 24 then 1 else if additional == 25 then 2 else if additional == 26 then 4 else 8;
      FromBigEndianRoundTrip(s[..width]);
      assert s == s[..width] + s[width..];
    } else {
      assert [] + s == s;
    }
  }

  /** `e` is a valid encoding of `v`. */
  ghost predicate Encodes(text: TextDecode, e: Encoding, v: Value) {
    Valid(e) && ValueOf(text, e) == v
  }

  lemma {:induction false} DecodeSound(text: TextDecode, s: seq<byte>, v: Value, rest: seq<byte>)
    returns (e: Encoding)
    requires Decode(text, s) == Ok((v, rest))
    ensures Encodes(text, e, v) && s == BytesOf(e) + rest
    decreases |s|, 1
  {
    var major := s[0] / 32;
    var additional := s[0] % 32;
    var t := s[1..];
    assert DecodeBody(text, t, major, additional) == Ok((v, rest));
    assert s == [InitialByte(major, additional)] + t;
    if major <= 1 {
      e := IntSound(text, t, major, additional, v, rest);
    } else if major <= 3 {
      e := StringSound(text, t, major, additional, v, rest);
    } else if major <= 5 {
      e := ContainerSound(text, t, major, additional, v, rest);
    } else if major == 6 {
      e := TagSound(text, t, additional, v, rest);
    } else {
      e := SimpleSound(text, t, additional, v, rest);
    }
  }

  lemma IntSound(text: TextDecode, t: seq<byte>, major: nat, additional: nat, v: Value, rest: seq<byte>)
    returns (e: Encoding)
    requires major <= 1 && additional < 32
    requires DecodeBody(text, t, major, additional) == Ok((v, rest))
    ensures Encodes(text, e, v) && [InitialByte(major, additional)] + t == BytesOf(e) + rest
  {
    ReadLengthSound(t, additional);
    var h := HeadOf(additional, ReadLength(t, additional).value.0);
    e := if major == 0 then UnsignedInt(h) else NegativeInt(h);
    assert [InitialByte(major, additional)] + t == HeadBytes(major, h) + rest;
  }

  lemma StringSound(text: TextDecode, t: seq<byte>, major: nat, additional: nat, v: Value, rest: seq<byte>)
    returns (e: Encoding)
    requires 2 <= major <= 3 && additional < 32
    requires DecodeBody(text, t, major, additional) == Ok((v, rest))
    ensures Encodes(text, e, v) && [InitialByte(major, additional)] + t == BytesOf(e) + rest
    decreases |t|, 5
  {
    if additional == 31 {
      e := ChunksSound(text, t, major, v, rest);
    } else {
      var h, data := CountedSound(t, additional, rest);
      e := if major == 2 then ByteString(h, data) else TextString(h, data);
      FramedDefinite(major, h, data, rest);
    }
  }

  lemma ChunksSound(text: TextDecode, t: seq<byte>, major: nat, v: Value, rest: seq<byte>) returns (e: Encoding)
    requires 2 <= major <= 3 && DecodeBody(text, t, major, 31) == Ok((v, rest))
    ensures Encodes(text, e, v) && [InitialByte(major, 31)] + t == BytesOf(e) + rest
    decreases |t|, 4
  {
    var vs := ChunksOfBody(text, t, major, v, rest);
    var chunks := StreamSound(text, t, if major == 2 then OnlyBytes else OnlyText, vs, rest);
    e := if major == 2 then ByteChunks(chunks) else TextChunks(chunks);
    FramedIndefinite(major, AllBytes(chunks), rest);
  }

  lemma ChunksOfBody(text: TextDecode, t: seq<byte>, major: nat, v: Value, rest: seq<byte>)
    returns (vs: seq<Value>)
    requires 2 <= major <= 3 && DecodeBody(text, t, major, 31) == Ok((v, rest))
    ensures DecodeStream(text, t, if major == 2 then OnlyBytes else OnlyText) == Ok((vs, rest))
    ensures v == if major == 2 then Bytes(JoinBytes(vs)) else Text(JoinText(vs))
  {
    vs := DecodeStream(text, t, if major == 2 then OnlyBytes else OnlyText).value.0;
  }

  lemma FramedDefinite(major: nat, h: Head, content: seq<byte>, rest: seq<byte>)
    requires major < 8 && ValidHead(h)
    ensures [InitialByte(major, Info(h))] + (Argument(h) + content + rest) == HeadBytes(major, h) + content + rest
    ensures [InitialByte(major, Info(h))] + (Argument(h) + (content + rest)) == HeadBytes(major, h) + content + rest
  {
    Associative(Argument(h), content, rest);
    Associative([InitialByte(major, Info(h))], Argument(h), content + rest);
    Associative(HeadBytes(major, h), content, rest);
  }

  lemma FramedIndefinite(major: nat, content: seq<byte>, rest: seq<byte>)
    requires major < 8
    ensures [InitialByte(major, 31)] + (content + [BREAK] + rest) == Framed(major, Indefinite, content) + rest
  {}

  lemma CountedSound(t: seq<byte>, additional: nat, rest: seq<byte>) returns (h: Head, data: seq<byte>)
    requires ReadCounted(t, additional).Ok? && ReadCounted(t, additional).value.1 == rest
    ensures ReadCounted(t, additional) == Ok((data, rest))
    ensures ValidHead(h) && Info(h) == additional && h.n == |data| && t == Argument(h) + data + rest
  {
    ReadLengthSound(t, additional);
    var (n, mid) := ReadLength(t, additional).value;
    h, data := HeadOf(additional, n), mid[..n];
    assert mid == data + rest;
    assert t == Argument(h) + (data + rest);
  }

  lemma SimpleSound(text: TextDecode, t: seq<byte>, additional: nat, v: Value, rest: seq<byte>)
    returns (e: Encoding)
    requires additional < 32 && ReadSimple(t, additional) == Ok((v, rest))
    ensures Encodes(text, e, v) && [InitialByte(7, additional)] + t == BytesOf(e) + rest
  {
    if additional <= 23 {
      e := SimpleValue(additional);
    } else {
      var w := FloatWidth(additional);
      e := FloatBits(additional, t[..w]);
      assert t == t[..w] + rest;
    }
  }

  lemma TagSound(text: TextDecode, t: seq<byte>, additional: nat, v: Value, rest: seq<byte>)
    returns (e: Encoding)
    requires additional < 32 && DecodeBody(text, t, 6, additional) == Ok((v, rest))
    ensures Encodes(text, e, v) && [InitialByte(6, additional)] + t == BytesOf(e) + rest
    decreases |t|, 4
  {
    ReadLengthSound(t, additional);
    var (n, mid) := ReadLength(t, additional).value;
    var h := HeadOf(additional, n);
    var item := DecodeSound(text, mid, Decode(text, mid).value.0, rest);
    e := TagOf(h, item);
    FramedDefinite(6, h, BytesOf(item), rest);
  }

  function ContainerOf(major: nat, f: Framing, es: seq<Encoding>): Encoding {
    if major == 4 then ArrayOf(f, es) else MapOf(f, es)
  }

  /** A framed list of members is an array or a map of their values. */
  lemma ContainerIs(text: TextDecode, major: nat, f: Framing, es: seq<Encoding>)
    requires 4 <= major <= 5 && AllValid(es)
    requires if major == 5 then |es| % 2 == 0 && ValidFraming(f, |es| / 2) else ValidFraming(f, |es|)
    ensures Encodes(text, ContainerOf(major, f, es), Container(major, AllValues(text, es)))
    ensures BytesOf(ContainerOf(major, f, es)) == Framed(major, f, AllBytes(es))
  {
    hide AllValid, AllBytes, AllValues, Framed, FromPairs;
    if major == 4 {
      var e := ArrayOf(f, es);
      assert Valid(e) && ValueOf(text, e) == Array(AllValues(text, es));
      assert BytesOf(e) == Framed(4, f, AllBytes(es));
    } else {
      var e := MapOf(f, es);
      assert Valid(e) && ValueOf(text, e) == Map(FromPairs(AllValues(text, es)));
      assert BytesOf(e) == Framed(5, f, AllBytes(es));
    }
  }

  lemma ContainerSound(text: TextDecode, t: seq<byte>, major: nat, additional: nat, v: Value, rest: seq<byte>)
    returns (e: Encoding)
    requires 4 <= major <= 5 && additional < 32
    requires DecodeBody(text, t, major, additional) == Ok((v, rest))
    ensures Encodes(text, e, v) && [InitialByte(major, additional)] + t == BytesOf(e) + rest
    decreases |t|, 5
  {
    hide DecodeBody, DecodeContainer, Encodes, BytesOf, AllBytes, AllValid, AllValues;
    var vs := MembersOfBody(text, t, major, additional, v, rest);
    var f, es := MembersSound(text, t, additional, major == 5, vs, rest);
    ContainerIs(text, major, f, es);
    if f.Indefinite? {
      FramedIndefinite(major, AllBytes(es), rest);
    } else {
      FramedDefinite(major, f.head, AllBytes(es), rest);
    }
    e := ContainerOf(major, f, es);
  }

  lemma MembersSound(text: TextDecode, t: seq<byte>, additional: nat, pairs: bool, vs: seq<Value>, rest: seq<byte>)
    returns (f: Framing, es: seq<Encoding>)
    requires additional < 32 && DecodeContainer(text, t, additional, pairs) == Ok((vs, rest))
    ensures AllValid(es) && AllValues(text, es) == vs
    ensures if pairs then |es| % 2 == 0 && ValidFraming(f, |es| / 2) else ValidFraming(f, |es|)
    ensures if f.Indefinite? then additional == 31 else Info(f.head) == additional
    ensures t == if f.Indefinite? then AllBytes(es) + [BREAK] + rest else Argument(f.head) + AllBytes(es) + rest
    decreases |t|, 4
  {
    hide AllValid, AllValues, AllBytes;
    if additional == 31 {
      f := Indefinite;
      es := StreamSound(text, t, if pairs then Pairs else AnyItems, vs, rest);
    } else {
      var h;
      h, es := DefiniteSound(text, t, additional, pairs, vs, rest);
      f := Definite(h);
    }
  }

  lemma MembersOfBody(text: TextDecode, t: seq<byte>, major: nat, additional: nat, v: Value, rest: seq<byte>)
    returns (vs: seq<Value>)
    requires 4 <= major <= 5 && additional < 32
    requires DecodeBody(text, t, major, additional) == Ok((v, rest))
    ensures DecodeContainer(text, t, additional, major == 5) == Ok((vs, rest)) && v == Container(major, vs)
  {
    vs := DecodeContainer(text, t, additional, major == 5).value.0;
  }

  lemma DefiniteSound(text: TextDecode, t: seq<byte>, additional: nat, pairs: bool, vs: seq<Value>, rest: seq<byte>)
    returns (h: Head, es: seq<Encoding>)
    requires additional != 31
    requires DecodeContainer(text, t, additional, pairs) == Ok((vs, rest))
    ensures ValidHead(h) && Info(h) == additional
    ensures AllValid(es) && |es| == (if pairs then 2 * h.n else h.n) && AllValues(text, es) == vs
    ensures t == Argument(h) + AllBytes(es) + rest
    decreases |t|, 3
  {
    var n, mid, count := CountOfContainer(text, t, additional, pairs, vs, rest);
    ReadLengthSound(t, additional);
    h := HeadOf(additional, n);
    es := ItemsSound(text, mid, count, vs, rest);
    Associative(Argument(h), AllBytes(es), rest);
  }

  lemma CountOfContainer(text: TextDecode, t: seq<byte>, additional: nat, pairs: bool, vs: seq<Value>, rest: seq<byte>)
    returns (n: nat, mid: seq<byte>, count: nat)
    requires additional != 31 && DecodeContainer(text, t, additional, pairs) == Ok((vs, rest))
    ensures ReadLength(t, additional) == Ok((n, mid)) && |mid| <= |t|
    ensures count == (if pairs then 2 * n else n) && DecodeItems(text, mid, count) == Ok((vs, rest))
  {
    n, mid := ReadLength(t, additional).value.0, ReadLength(t, additional).value.1;
    count := if pairs then 2 * n else n;
  }

  lemma {:induction false} ItemsSound(text: TextDecode, s: seq<byte>, count: nat, vs: seq<Value>, rest: seq<byte>)
    returns (es: seq<Encoding>)
    requires DecodeItems(text, s, count) == Ok((vs, rest))
    ensures AllValid(es) && |es| == count
    ensures s == AllBytes(es) + rest && AllValues(text, es) == vs
    decreases |s|, 2
  {
    if count == 0 {
      es := [];
    } else {
      var (v, mid) := Decode(text, s).value;
      var e := DecodeSound(text, s, v, mid);
      var es' := ItemsSound(text, mid, count - 1, vs[1..], rest);
      es := [e] + es';
      assert s == BytesOf(e) + (AllBytes(es') + rest);
    }
  }

  lemma {:induction false} StreamSound(
    text: TextDecode, s: seq<byte>, kind: StreamKind, vs: seq<Value>, rest: seq<byte>)
    returns (es: seq<Encoding>)
    requires DecodeStream(text, s, kind) == Ok((vs, rest))
    ensures AllValid(es) && FitsKind(es, kind)
    ensures s == AllBytes(es) + [BREAK] + rest && AllValues(text, es) == vs
    decreases |s|, 3
  {
    if s[0] == BREAK {
      es := [];
      assert s == AllBytes(es) + [BREAK] + rest;
    } else if kind.Pairs? {
      var k, mid, v, mid', vs' := PairOfStream(text, s, vs, rest);
      es := PairsSound(text, s, k, mid, v, mid', vs', rest);
    } else {
      var v, mid, vs' := ItemOfStream(text, s, kind, vs, rest);
      var e := DecodeSound(text, s, v, mid);
      var es' := StreamSound(text, mid, kind, vs', rest);
      es := [e] + es';
      ItemBytes(text, e, es', kind, rest);
    }
  }

  lemma ItemBytes(text: TextDecode, e: Encoding, es: seq<Encoding>, kind: StreamKind, rest: seq<byte>)
    requires Valid(e) && AllValid(es) && FitsKind(es, kind) && !kind.Pairs?
    requires (kind.OnlyBytes? ==> ValueOf(text, e).Bytes?) && (kind.OnlyText? ==> ValueOf(text, e).Text?)
    ensures AllValid([e] + es) && FitsKind([e] + es, kind)
    ensures AllBytes([e] + es) + [BREAK] + rest == BytesOf(e) + (AllBytes(es) + [BREAK] + rest)
    ensures AllValues(text, [e] + es) == [ValueOf(text, e)] + AllValues(text, es)
  {
    ConsEncoding(text, e, es);
    SplitFirst(BytesOf(e), AllBytes(es), [BREAK], rest);
  }

  lemma ItemOfStream(text: TextDecode, s: seq<byte>, kind: StreamKind, vs: seq<Value>, rest: seq<byte>)
    returns (v: Value, mid: seq<byte>, vs': seq<Value>)
    requires DecodeStream(text, s, kind) == Ok((vs, rest)) && s[0] != BREAK && !kind.Pairs?
    ensures Decode(text, s) == Ok((v, mid)) && |mid| < |s|
    ensures DecodeStream(text, mid, kind) == Ok((vs', rest)) && vs == [v] + vs'
    ensures (kind.OnlyBytes? ==> v.Bytes?) && (kind.OnlyText? ==> v.Text?)
  {
    v, mid := Decode(text, s).value.0, Decode(text, s).value.1;
    StreamStep(text, s, kind, v, mid);
    vs' := DecodeStream(text, mid, kind).value.0;
  }

  lemma {:induction false} PairsSound(
    text: TextDecode, s: seq<byte>, k: Value, mid: seq<byte>, v: Value, mid': seq<byte>,
    vs: seq<Value>, rest: seq<byte>)
    returns (es: seq<Encoding>)
    requires Decode(text, s) == Ok((k, mid)) && Decode(text, mid) == Ok((v, mid')) && |mid'| < |mid| < |s|
    requires DecodeStream(text, mid', Pairs) == Ok((vs, rest))
    ensures AllValid(es) && |es| % 2 == 0
    ensures s == AllBytes(es) + [BREAK] + rest && AllValues(text, es) == [k, v] + vs
    decreases |s|, 2
  {
    var e := DecodeSound(text, s, k, mid);
    var f := DecodeSound(text, mid, v, mid');
    var es' := StreamSound(text, mid', Pairs, vs, rest);
    es := PairReadBack(text, s, e, k, mid, f, v, mid', es', vs, rest);
  }

  lemma PairReadBack(
    text: TextDecode, s: seq<byte>, e: Encoding, k: Value, mid: seq<byte>, f: Encoding, v: Value, mid': seq<byte>,
    es: seq<Encoding>, vs: seq<Value>, rest: seq<byte>)
    returns (all: seq<Encoding>)
    requires Encodes(text, e, k) && s == BytesOf(e) + mid
    requires Encodes(text, f, v) && mid == BytesOf(f) + mid'
    requires AllValid(es) && |es| % 2 == 0 && mid' == AllBytes(es) + [BREAK] + rest && AllValues(text, es) == vs
    ensures AllValid(all) && |all| % 2 == 0
    ensures s == AllBytes(all) + [BREAK] + rest && AllValues(text, all) == [k, v] + vs
  {
    all := [e, f] + es;
    PairBytes(text, e, f, es, rest);
  }

  lemma PairOfStream(text: TextDecode, s: seq<byte>, vs: seq<Value>, rest: seq<byte>)
    returns (k: Value, mid: seq<byte>, v: Value, mid': seq<byte>, vs': seq<Value>)
    requires DecodeStream(text, s, Pairs) == Ok((vs, rest)) && s[0] != BREAK
    ensures Decode(text, s) == Ok((k, mid)) && Decode(text, mid) == Ok((v, mid'))
    ensures DecodeStream(text, mid', Pairs) == Ok((vs', rest)) && vs == [k, v] + vs'
    ensures |mid'| < |mid| < |s|
  {
    k, mid := Decode(text, s).value.0, Decode(text, s).value.1;
    v, mid' := Decode(text, mid).value.0, Decode(text, mid).value.1;
    PairStep(text, s, k, mid, v, mid');
    vs' := DecodeStream(text, mid', Pairs).value.0;
  }

  /**
    The reader returns `v` and stops before `rest` exactly when its input is a
    valid encoding of `v` followed by `rest`.
  */
  lemma DecodeExactly(text: TextDecode, s: seq<byte>, v: Value, rest: seq<byte>)
    ensures Decode(text, s) == Ok((v, rest)) <==>
            exists e :: Encodes(text, e, v) && s == BytesOf(e) + rest
  {
    if Decode(text, s) == Ok((v, rest)) {
      var e := DecodeSound(text, s, v, rest);
      assert Encodes(text, e, v);
    }
    forall e | Encodes(text, e, v) && s == BytesOf(e) + rest
      ensures Decode(text, s) == Ok((v, rest))
    {
      DecodeComplete(text, e, rest);
    }
  }

  /** The reader throws exactly when no valid encoding stands at the front of the input. */
  lemma DecodeFailsExactly(text: TextDecode, s: seq<byte>)
    ensures Decode(text, s).Err? <==>
            forall e, rest :: Valid(e) ==> s != BytesOf(e) + rest
  {
    if Decode(text, s).Ok? {
      var (v, rest) := Decode(text, s).value;
      var e := DecodeSound(text, s, v, rest);
      assert s == BytesOf(e) + rest;
    } else {
      forall e, rest | Valid(e) ensures s != BytesOf(e) + rest {
        DecodeComplete(text, e, rest);
      }
    }
  }

  /** No encoding is a proper prefix of another, and one byte string encodes one value. */
  lemma EncodingsArePrefixFree(text: TextDecode, e: Encoding, f: Encoding, rest: seq<byte>, rest': seq<byte>)
    requires Valid(e) && Valid(f) && BytesOf(e) + rest == BytesOf(f) + rest'
    ensures rest == rest' && BytesOf(e) == BytesOf(f) && ValueOf(text, e) == ValueOf(text, f)
  {
    DecodeComplete(text, e, rest);
    DecodeComplete(text, f, rest');
    assert |BytesOf(e)| == |BytesOf(f)|;
    assert (BytesOf(e) + rest)[..|BytesOf(e)|] == BytesOf(e);
    assert (BytesOf(f) + rest')[..|BytesOf(f)|] == BytesOf(f);
  }

  /** A break is never accepted where an item or a map value is due. */
  lemma BreakIsNoItem(text: TextDecode, key: Encoding, rest: seq<byte>)
    requires Valid(key)
    ensures Decode(text, [BREAK] + rest).Err?
    ensures DecodeStream(text, BytesOf(key) + [BREAK] + rest, Pairs).Err?
  {
    var s := [BREAK] + rest;
    assert BREAK == InitialByte(7, 31);
    DecodeAtInitial(text, 7, 31, rest);
    assert BytesOf(key) + [BREAK] + rest == BytesOf(key) + s;
    DecodeComplete(text, key, s);
  }
}
