/** A writer of attestation documents: every document within CBOR's number range has an encoding that carries it. */
module AttestationEncoder {
  import opened Prelude
  import opened CborValues
  import opened CborEncoding
  import opened Attestation
  import Hex

  const COSE_SIGN1_TAG: nat := 18

  predicate Fits(n: nat) {
    n <= MAX_SAFE_INTEGER
  }

  /** The shortest head for a number. */
  function HeadFor(n: nat): (h: Head)
    requires Fits(n)
    ensures ValidHead(h) && h.n == n
  {
    if n < 24 then Inline(n)
    else if n < 0x100 then One(n)
    else if n < 0x1_0000 then Two(n)
    else if n < 0x1_0000_0000 then Four(n)
    else Eight(n)
  }

  predicate FitsInt(n: int) {
    if n >= 0 then Fits(n) else Fits(-1 - n)
  }

  function IntItem(text: TextDecode, n: int): (e: Encoding)
    requires FitsInt(n)
    ensures Valid(e) && ValueOf(text, e) == Number(n)
  {
    if n >= 0 then UnsignedInt(HeadFor(n)) else NegativeInt(HeadFor(-1 - n))
  }

  function BytesItem(text: TextDecode, data: seq<byte>): (e: Encoding)
    requires Fits(|data|)
    ensures Valid(e) && ValueOf(text, e) == Bytes(data)
  {
    ByteString(HeadFor(|data|), data)
  }

  /** Absent bytes are written as null. */
  function OptionalItem(text: TextDecode, data: Option<seq<byte>>): (e: Encoding)
    requires data.Some? ==> Fits(|data.value|)
    ensures Valid(e) && BytesOrNull(Some(ValueOf(text, e))) == data
  {
    if data.Some? then BytesItem(text, data.value) else SimpleValue(22)
  }

  // --- Texts -------------------------------------------------------------------------

  /** `encode` writes these texts so that `text` reads them back. */
  ghost predicate Writes(text: TextDecode, encode: string -> seq<byte>, texts: seq<string>) {
    forall i :: 0 <= i < |texts| ==> text(encode(texts[i])) == texts[i] && Fits(|encode(texts[i])|)
  }

  function TextItem(text: TextDecode, encode: string -> seq<byte>, s: string): (e: Encoding)
    requires text(encode(s)) == s && Fits(|encode(s)|)
    ensures Valid(e) && ValueOf(text, e) == Text(s)
  {
    TextString(HeadFor(|encode(s)|), encode(s))
  }

  // --- Maps --------------------------------------------------------------------------

  /** Keys and values, one after the other. */
  function Flat(pairs: seq<(Encoding, Encoding)>): (es: seq<Encoding>)
    ensures |es| == 2 * |pairs|
  {
    if pairs == [] then []
    else Flat(pairs[..|pairs| - 1]) + [pairs[|pairs| - 1].0, pairs[|pairs| - 1].1]
  }

  predicate AllPairsValid(pairs: seq<(Encoding, Encoding)>) {
    forall i :: 0 <= i < |pairs| ==> Valid(pairs[i].0) && Valid(pairs[i].1)
  }

  lemma {:induction false} FlatValid(pairs: seq<(Encoding, Encoding)>)
    requires AllPairsValid(pairs)
    ensures forall i :: 0 <= i < |Flat(pairs)| ==> Valid(Flat(pairs)[i])
    ensures AllValid(Flat(pairs))
  {
    if pairs != [] {
      FlatValid(pairs[..|pairs| - 1]);
    }
    AllValidIndex(Flat(pairs));
  }

  function MapItem(pairs: seq<(Encoding, Encoding)>): (e: Encoding)
    requires AllPairsValid(pairs) && Fits(|pairs|)
    ensures Valid(e) && e.MapOf? && e.keysAndValues == Flat(pairs)
  {
    FlatValid(pairs);
    MapOf(Definite(HeadFor(|pairs|)), Flat(pairs))
  }

  lemma LastValueSnoc(vs: seq<Value>, k: Value, v: Value, wanted: Value)
    ensures LastValue(vs + [k, v], wanted) == if SameKey(k, wanted) then Some(v) else LastValue(vs, wanted)
  {
    assert (vs + [k, v])[..|vs|] == vs;
  }

  lemma FlatValues(text: TextDecode, before: seq<(Encoding, Encoding)>, last: (Encoding, Encoding))
    ensures AllValues(text, Flat(before + [last]))
         == AllValues(text, Flat(before)) + [ValueOf(text, last.0), ValueOf(text, last.1)]
  {
    var pairs := before + [last];
    assert pairs[..|pairs| - 1] == before;
    assert Flat(pairs) == Flat(before) + [last.0, last.1];
  }

  /** The value of the only pair with a key is what a lookup finds. */
  lemma {:induction false} LookupPair(text: TextDecode, pairs: seq<(Encoding, Encoding)>, i: nat)
    requires i < |pairs| && !ByReference(ValueOf(text, pairs[i].0))
    requires forall j :: i < j < |pairs| ==> ValueOf(text, pairs[j].0) != ValueOf(text, pairs[i].0)
    ensures LastValue(AllValues(text, Flat(pairs)), ValueOf(text, pairs[i].0)) == Some(ValueOf(text, pairs[i].1))
    decreases |pairs|
  {
    var before, last := pairs[..|pairs| - 1], pairs[|pairs| - 1];
    var wanted := ValueOf(text, pairs[i].0);
    assert pairs == before + [last];
    FlatValues(text, before, last);
    LastValueSnoc(AllValues(text, Flat(before)), ValueOf(text, last.0), ValueOf(text, last.1), wanted);
    if i < |before| {
      LookupPair(text, before, i);
    }
  }

  // --- PCRs ----------------------------------------------------------------------------

  type Pcrs = seq<(int, seq<byte>)>

  /** The table a list of PCRs stands for, the last of an index winning. */
  function Table(pcrs: Pcrs): map<int, seq<byte>> {
    if pcrs == [] then map[] else Table(pcrs[..|pcrs| - 1])[pcrs[|pcrs| - 1].0 := pcrs[|pcrs| - 1].1]
  }

  predicate PcrsFit(pcrs: Pcrs) {
    Fits(|pcrs|) && forall i :: 0 <= i < |pcrs| ==> FitsInt(pcrs[i].0) && Fits(|pcrs[i].1|)
  }

  function PcrPairsOf(text: TextDecode, pcrs: Pcrs): (pairs: seq<(Encoding, Encoding)>)
    requires PcrsFit(pcrs)
    ensures |pairs| == |pcrs| && AllPairsValid(pairs)
  {
    seq(|pcrs|, i requires 0 <= i < |pcrs| => (IntItem(text, pcrs[i].0), BytesItem(text, pcrs[i].1)))
  }

  lemma PcrPairsGrow(vs: seq<Value>, table: map<int, seq<byte>>, index: int, value: seq<byte>)
    requires PcrPairs(vs, table)
    ensures PcrPairs(vs + [Number(index), Bytes(value)], table[index := value])
  {
    var longer, after := vs + [Number(index), Bytes(value)], table[index := value];
    forall n: int
      ensures BytesOrNull(LastValue(longer, Number(n))) == if n in after then Some(after[n]) else None
    {
      LastValueSnoc(vs, Number(index), Bytes(value), Number(n));
      assert BytesOrNull(LastValue(vs, Number(n))) == if n in table then Some(table[n]) else None;
    }
  }

  lemma NoPcrs(text: TextDecode)
    ensures PcrPairs(AllValues(text, Flat(PcrPairsOf(text, []))), Table([]))
  {
    assert PcrPairsOf(text, []) == [];
  }

  lemma {:induction false} PcrsCarried(text: TextDecode, pcrs: Pcrs)
    requires PcrsFit(pcrs)
    ensures PcrPairs(AllValues(text, Flat(PcrPairsOf(text, pcrs))), Table(pcrs))
    decreases |pcrs|
  {
    hide BytesOrNull, LastValue, PcrPairs, AllValues, Flat, ValueOf;
    if pcrs == [] {
      NoPcrs(text);
    } else {
      var before, last := pcrs[..|pcrs| - 1], pcrs[|pcrs| - 1];
      PcrsCarried(text, before);
      var pair := (IntItem(text, last.0), BytesItem(text, last.1));
      assert PcrPairsOf(text, pcrs) == PcrPairsOf(text, before) + [pair];
      FlatValues(text, PcrPairsOf(text, before), pair);
      PcrPairsGrow(AllValues(text, Flat(PcrPairsOf(text, before))), Table(before), last.0, last.1);
    }
  }

  // --- The document ----------------------------------------------------------------------

  const KEYS: seq<string> := ["module_id", "digest", "timestamp", "pcrs", "public_key", "user_data", "nonce"]

  /** The document's numbers and lengths are in CBOR's range, and its texts can be written. */
  ghost predicate Representable(text: TextDecode, encode: string -> seq<byte>, doc: Document, pcrs: Pcrs) {
    && FitsInt(doc.timestampMs) && PcrsFit(pcrs) && Table(pcrs) == doc.pcrs
    && (doc.publicKey.Some? ==> Fits(|doc.publicKey.value|))
    && (doc.userData.Some? ==> Fits(|doc.userData.value|))
    && (doc.nonce.Some? ==> Fits(|doc.nonce.value|))
    && Writes(text, encode, KEYS) && Writes(text, encode, [doc.moduleId, doc.digest])
  }

  ghost function KeyItem(text: TextDecode, encode: string -> seq<byte>, i: nat): (e: Encoding)
    requires Writes(text, encode, KEYS) && i < |KEYS|
    ensures Valid(e) && ValueOf(text, e) == Text(KEYS[i])
  {
    TextItem(text, encode, KEYS[i])
  }

  ghost function ValueItems(text: TextDecode, encode: string -> seq<byte>, doc: Document, pcrs: Pcrs): (es: seq<Encoding>)
    requires Representable(text, encode, doc, pcrs)
    ensures |es| == |KEYS| && forall i :: 0 <= i < |es| ==> Valid(es[i])
  {
    var texts := [doc.moduleId, doc.digest];
    [TextItem(text, encode, texts[0]), TextItem(text, encode, texts[1]), IntItem(text, doc.timestampMs),
     MapItem(PcrPairsOf(text, pcrs)), OptionalItem(text, doc.publicKey), OptionalItem(text, doc.userData),
     OptionalItem(text, doc.nonce)]
  }

  /** The payload map, one pair a key. */
  ghost function PayloadPairs(text: TextDecode, encode: string -> seq<byte>, doc: Document, pcrs: Pcrs)
    : (pairs: seq<(Encoding, Encoding)>)
    requires Representable(text, encode, doc, pcrs)
    ensures |pairs| == |KEYS| && AllPairsValid(pairs)
  {
    seq(|KEYS|, i requires 0 <= i < |KEYS| => (KeyItem(text, encode, i), ValueItems(text, encode, doc, pcrs)[i]))
  }

  lemma KeysDiffer()
    ensures forall i, j :: 0 <= i < j < |KEYS| ==> KEYS[i] != KEYS[j]
  {
    assert |KEYS[0]| == 9 && |KEYS[1]| == 6 && |KEYS[2]| == 9 && |KEYS[3]| == 4;
    assert |KEYS[4]| == 10 && |KEYS[5]| == 9 && |KEYS[6]| == 5;
    assert KEYS[0][0] == 'm' && KEYS[2][0] == 't' && KEYS[5][0] == 'u';
  }

  lemma FieldWritten(text: TextDecode, encode: string -> seq<byte>, doc: Document, pcrs: Pcrs, i: nat)
    requires Representable(text, encode, doc, pcrs) && i < |KEYS|
    ensures LastValue(AllValues(text, Flat(PayloadPairs(text, encode, doc, pcrs))), Text(KEYS[i]))
         == Some(ValueOf(text, ValueItems(text, encode, doc, pcrs)[i]))
  {
    KeysDiffer();
    LookupPair(text, PayloadPairs(text, encode, doc, pcrs), i);
  }

  /** The payload map carries the document. */
  lemma PayloadCarries(host: Host, encode: string -> seq<byte>, doc: Document, pcrs: Pcrs)
    requires Representable(host.text, encode, doc, pcrs)
    ensures Carries(host, MapItem(PayloadPairs(host.text, encode, doc, pcrs)), MapItem(PcrPairsOf(host.text, pcrs)), doc)
  {
    forall i: nat | i < |KEYS|
      ensures LastValue(AllValues(host.text, Flat(PayloadPairs(host.text, encode, doc, pcrs))), Text(KEYS[i]))
           == Some(ValueOf(host.text, ValueItems(host.text, encode, doc, pcrs)[i]))
    {
      FieldWritten(host.text, encode, doc, pcrs, i);
    }
    FieldsCarry(
      host, AllValues(host.text, Flat(PayloadPairs(host.text, encode, doc, pcrs))), encode, doc, pcrs);
    PcrsCarried(host.text, pcrs);
  }

  lemma FieldsCarry(host: Host, vs: seq<Value>, encode: string -> seq<byte>, doc: Document, pcrs: Pcrs)
    requires Representable(host.text, encode, doc, pcrs)
    requires forall i: nat :: i < |KEYS| ==>
               LastValue(vs, Text(KEYS[i])) == Some(ValueOf(host.text, ValueItems(host.text, encode, doc, pcrs)[i]))
    ensures var w := Written(vs);
            && w.moduleId == Some(Text(doc.moduleId)) && w.digest == Some(Text(doc.digest))
            && w.timestamp == Some(Number(doc.timestampMs))
            && BytesOrNull(w.publicKey) == doc.publicKey && BytesOrNull(w.userData) == doc.userData
            && BytesOrNull(w.nonce) == doc.nonce
            && w.pcrs == Some(ValueOf(host.text, MapItem(PcrPairsOf(host.text, pcrs))))
  {
    hide Table, Flat, ValueOf, Valid, LastValue, PcrsFit;
    assert KEYS[0] == "module_id" && KEYS[1] == "digest" && KEYS[2] == "timestamp" && KEYS[3] == "pcrs";
    assert KEYS[4] == "public_key" && KEYS[5] == "user_data" && KEYS[6] == "nonce";
  }

  /** The COSE_Sign1 array of a payload, tagged or not, with an empty unprotected header. */
  function Sign1(text: TextDecode, tagged: bool, header: seq<byte>, payload: seq<byte>, signature: seq<byte>)
    : (top: Encoding)
    requires Fits(|header|) && Fits(|payload|) && Fits(|signature|)
    ensures Valid(top)
  {
    var items := [BytesItem(text, header), MapItem([]), BytesItem(text, payload), BytesItem(text, signature)];
    AllValidIndex(items);
    var sign1 := ArrayOf(Definite(HeadFor(4)), items);
    if tagged then TagOf(HeadFor(COSE_SIGN1_TAG), sign1) else sign1
  }

  lemma Sign1Wraps(host: Host, tagged: bool, header: seq<byte>, payload: seq<byte>, signature: seq<byte>)
    requires Fits(|header|) && Fits(|payload|) && Fits(|signature|)
    ensures Wraps(host, Sign1(host.text, tagged, header, payload, signature), payload)
  {}

  /**
    Parsing undoes writing: any representable document, written as a payload map
    in a COSE_Sign1 array and hex-encoded, parses to itself.
  */
  lemma WrittenIsParsed(
    host: Host, encode: string -> seq<byte>, doc: Document, pcrs: Pcrs, tagged: bool, header: seq<byte>,
    signature: seq<byte>)
    requires Representable(host.text, encode, doc, pcrs) && Fits(|header|) && Fits(|signature|)
    requires Fits(|BytesOf(MapItem(PayloadPairs(host.text, encode, doc, pcrs)))|)
    ensures var payload := BytesOf(MapItem(PayloadPairs(host.text, encode, doc, pcrs)));
            var hex := Hex.Encode(BytesOf(Sign1(host.text, tagged, header, payload, signature)));
            ParseBytes(host, Hex.DecodePrefix(StripPrefix(hex))) == Ok(doc)
  {
    var m, p := MapItem(PayloadPairs(host.text, encode, doc, pcrs)), MapItem(PcrPairsOf(host.text, pcrs));
    var top := Sign1(host.text, tagged, header, BytesOf(m), signature);
    PayloadCarries(host, encode, doc, pcrs);
    Sign1Wraps(host, tagged, header, BytesOf(m), signature);
    assert BytesOf(m) + [] == BytesOf(m) && BytesOf(top) + [] == BytesOf(top);
    AttestationRecovered(host, top, m, p, doc, [], []);
  }
}
