/**
  The Nitro attestation-document parser: hex, then a COSE_Sign1 array (RFC 9052,
  section 4.2) with or without a tag, then the payload map inside its third member.
*/
module Attestation {
  import opened Prelude
  import opened CborValues
  import opened CborEncoding
  import opened CborDecoding
  import opened CborSoundness
  import opened CborReader
  import Hex

  /** The JavaScript runtime's conversions to text. */
  datatype Host = Host(text: TextDecode, utf8: seq<byte> -> string, show: Value -> string)

  datatype Document = Document(
    moduleId: string,
    timestampMs: int,
    digest: string,
    pcrs: map<int, seq<byte>>,
    publicKey: Option<seq<byte>>,
    userData: Option<seq<byte>>,
    nonce: Option<seq<byte>>)

  datatype ParseError =
    | BadCbor(error: DecodeError)
    | NotCoseSign1
    | PayloadNotBytes
    | PayloadNotMap
    | MissingPcrs

  function StripPrefix(s: string): string {
    if "0x" <= s then s[2..] else s
  }

  /** One level of tag is looked through. */
  function Untag(v: Value): Value {
    if v.Tagged? then v.inner else v
  }

  /** The entries kept: a number for a key and bytes for a value. */
  function PcrsOf(entries: seq<(Value, Value)>): map<int, seq<byte>> {
    if entries == [] then map[]
    else
      var (k, v) := entries[|entries| - 1];
      var before := PcrsOf(entries[..|entries| - 1]);
      if k.Number? && v.Bytes? then before[k.n := v.bytes] else before
  }

  /** `String(value ?? "")`. */
  function Shown(host: Host, v: Option<Value>): string {
    match v
    case None => ""
    case Some(Null) => ""
    case Some(Text(s)) => s
    case Some(other) => host.show(other)
  }

  function BytesOrNull(v: Option<Value>): Option<seq<byte>> {
    if v.Some? && v.value.Bytes? then Some(v.value.bytes) else None
  }

  /** The map entries the parser asks for. */
  datatype Fields = Fields(
    pcrs: Option<Value>,
    moduleId: Option<Value>,
    digest: Option<Value>,
    publicKey: Option<Value>,
    userData: Option<Value>,
    nonce: Option<Value>,
    timestamp: Option<Value>)

  function Fetch(entries: seq<(Value, Value)>): Fields {
    Fields(
      MapGet(entries, Text("pcrs")), MapGet(entries, Text("module_id")), MapGet(entries, Text("digest")),
      MapGet(entries, Text("public_key")), MapGet(entries, Text("user_data")), MapGet(entries, Text("nonce")),
      MapGet(entries, Text("timestamp")))
  }

  function ReadFields(host: Host, f: Fields): Result<Document, ParseError> {
    if f.pcrs.None? || !f.pcrs.value.Map? then Err(MissingPcrs)
    else Ok(ToDocument(host, f, PcrsOf(f.pcrs.value.entries)))
  }

  function ToDocument(host: Host, f: Fields, pcrs: map<int, seq<byte>>): Document {
    Document(
      if f.moduleId.Some? && f.moduleId.value.Bytes? then host.utf8(f.moduleId.value.bytes) else Shown(host, f.moduleId),
      if f.timestamp.Some? && f.timestamp.value.Number? then f.timestamp.value.n else 0,
      if f.digest.Some? && f.digest.value.Bytes? then Hex.Encode(f.digest.value.bytes) else Shown(host, f.digest),
      pcrs, BytesOrNull(f.publicKey), BytesOrNull(f.userData), BytesOrNull(f.nonce))
  }

  function Lift<T>(r: Result<T, DecodeError>): Result<T, ParseError> {
    match r
    case Ok(v) => Ok(v)
    case Err(e) => Err(BadCbor(e))
  }

  function ParseBytes(host: Host, raw: seq<byte>): Result<Document, ParseError> {
    var first :- Lift(FirstItem(host.text, raw));
    var top := Untag(first);
    if !top.Array? || |top.items| != 4 then Err(NotCoseSign1)
    else if !top.items[2].Bytes? then Err(PayloadNotBytes)
    else
      var payload :- Lift(FirstItem(host.text, top.items[2].bytes));
      if !payload.Map? then Err(PayloadNotMap) else ReadFields(host, Fetch(payload.entries))
  }

  method ParseAttestationDocument(host: Host, hex: string) returns (r: Result<Document, ParseError>)
    ensures r == ParseBytes(host, Hex.DecodePrefix(StripPrefix(hex)))
  {
    hide CborDecoding.Decode, FromPairs, PcrsOf, Hex.Encode, Hex.DecodePrefix, MapGet, FindKey;
    var clean := if "0x" <= hex then hex[2..] else hex;
    var raw := Hex.DecodePrefix(clean);
    var first := DecodeCbor(host.text, raw);
    if first.Err? { return Err(BadCbor(first.error)); }
    var top := first.value;
    if top.Tagged? {
      top := top.inner;
    }
    if !top.Array? || |top.items| != 4 { return Err(NotCoseSign1); }
    var payloadBytes := top.items[2];
    if !payloadBytes.Bytes? { return Err(PayloadNotBytes); }
    var doc := DecodeCbor(host.text, payloadBytes.bytes);
    if doc.Err? { return Err(BadCbor(doc.error)); }
    if !doc.value.Map? { return Err(PayloadNotMap); }
    var fields := Fetch(doc.value.entries);
    if fields.pcrs.None? || !fields.pcrs.value.Map? { return Err(MissingPcrs); }
    var pcrs := KeepPcrs(fields.pcrs.value.entries);
    r := Ok(ToDocument(host, fields, pcrs));
  }

  /** Copies the well-typed entries of the PCR map into a fresh one. */
  method KeepPcrs(raws: seq<(Value, Value)>) returns (pcrs: map<int, seq<byte>>)
    ensures pcrs == PcrsOf(raws)
  {
    pcrs := map[];
    for i := 0 to |raws|
      invariant pcrs == PcrsOf(raws[..i])
    {
      assert raws[..i + 1][..i] == raws[..i];
      var (k, v) := raws[i];
      if k.Number? && v.Bytes? {
        pcrs := pcrs[k.n := v.bytes];
      }
    }
    assert raws[..|raws|] == raws;
  }

  // --- Maps as read: the last entry for a key wins ----------------------------

  /** The value of the last pair of a flat key-value list whose key is `k`. */
  function LastValue(vs: seq<Value>, k: Value): Option<Value> {
    if |vs| < 2 then None
    else if SameKey(vs[|vs| - 2], k) then Some(vs[|vs| - 1])
    else LastValue(vs[..|vs| - 2], k)
  }

  predicate KeysUnique(entries: seq<(Value, Value)>) {
    forall i, j :: 0 <= i < j < |entries| ==> !SameKey(entries[i].0, entries[j].0)
  }

  lemma FindKeyIs(entries: seq<(Value, Value)>, k: Value, i: nat)
    requires i < |entries| && SameKey(entries[i].0, k)
    requires forall j :: 0 <= j < i ==> !SameKey(entries[j].0, k)
    ensures FindKey(entries, k) == Some(i)
  {}

  /** What a key is found at depends on the keys alone. */
  lemma {:induction false} FoundByKeys(a: seq<(Value, Value)>, b: seq<(Value, Value)>, k: Value)
    requires |a| == |b| && forall j :: 0 <= j < |a| ==> a[j].0 == b[j].0
    ensures FindKey(a, k) == FindKey(b, k)
  {
    hide ByReference;
    if a != [] {
      FoundByKeys(a[1..], b[1..], k);
    }
  }

  lemma GetAfterUpdate(entries: seq<(Value, Value)>, k: Value, v: Value, k': Value)
    requires FindKey(entries, k).Some?
    ensures MapGet(MapSet(entries, k, v), k') == if SameKey(k, k') then Some(v) else MapGet(entries, k')
  {
    hide ByReference, FindKey;
    FoundByKeys(MapSet(entries, k, v), entries, k');
    if SameKey(k, k') {
      assert k == k';
    }
  }

  lemma GetAfterAppend(entries: seq<(Value, Value)>, k: Value, v: Value, k': Value)
    requires FindKey(entries, k).None?
    ensures MapGet(MapSet(entries, k, v), k') == if SameKey(k, k') then Some(v) else MapGet(entries, k')
  {
    hide ByReference;
    var after := MapSet(entries, k, v);
    if FindKey(entries, k').Some? {
      FindKeyIs(after, k', FindKey(entries, k').value);
    } else if SameKey(k, k') {
      FindKeyIs(after, k', |entries|);
    } else {
      assert forall j :: 0 <= j < |after| ==> !SameKey(after[j].0, k');
    }
  }

  lemma GetAfterSet(entries: seq<(Value, Value)>, k: Value, v: Value, k': Value)
    ensures MapGet(MapSet(entries, k, v), k') == if SameKey(k, k') then Some(v) else MapGet(entries, k')
  {
    if FindKey(entries, k).Some? {
      GetAfterUpdate(entries, k, v, k');
    } else {
      GetAfterAppend(entries, k, v, k');
    }
  }

  lemma SetKeepsUnique(entries: seq<(Value, Value)>, k: Value, v: Value)
    requires KeysUnique(entries)
    ensures KeysUnique(MapSet(entries, k, v))
  {}

  /** Reading a key of a decoded map gives the last pair written under that key. */
  lemma {:induction false} LookupIsLast(vs: seq<Value>, k: Value)
    ensures MapGet(FromPairs(vs), k) == LastValue(vs, k)
    ensures KeysUnique(FromPairs(vs))
  {
    if |vs| >= 2 {
      var before := vs[..|vs| - 2];
      LookupIsLast(before, k);
      GetAfterSet(FromPairs(before), vs[|vs| - 2], vs[|vs| - 1], k);
      SetKeepsUnique(FromPairs(before), vs[|vs| - 2], vs[|vs| - 1]);
    }
  }

  /** The PCR table holds `n` exactly when the map's entry for `n` is a byte string. */
  lemma {:induction false} PcrsOfLookup(entries: seq<(Value, Value)>, n: int)
    requires KeysUnique(entries)
    ensures var got := BytesOrNull(MapGet(entries, Number(n)));
            if got.Some? then n in PcrsOf(entries) && PcrsOf(entries)[n] == got.value else n !in PcrsOf(entries)
  {
    if entries != [] {
      var last := |entries| - 1;
      var before := entries[..last];
      PcrsOfLookup(before, n);
      if SameKey(entries[last].0, Number(n)) {
        FindKeyIs(entries, Number(n), last);
        assert FindKey(before, Number(n)).None?;
      } else if FindKey(before, Number(n)).Some? {
        FindKeyIs(entries, Number(n), FindKey(before, Number(n)).value);
      } else {
        assert FindKey(entries, Number(n)).None?;
      }
    }
  }

  // --- Recovery -----------------------------------------------------------------

  /** What the payload map's encoding puts under each key, the last pair for a key winning. */
  function Written(vs: seq<Value>): Fields {
    Fields(
      LastValue(vs, Text("pcrs")), LastValue(vs, Text("module_id")), LastValue(vs, Text("digest")),
      LastValue(vs, Text("public_key")), LastValue(vs, Text("user_data")), LastValue(vs, Text("nonce")),
      LastValue(vs, Text("timestamp")))
  }

  lemma FetchIsWritten(vs: seq<Value>)
    ensures Fetch(FromPairs(vs)) == Written(vs)
  {
    LookupIsLast(vs, Text("pcrs"));
    LookupIsLast(vs, Text("module_id"));
    LookupIsLast(vs, Text("digest"));
    LookupIsLast(vs, Text("public_key"));
    LookupIsLast(vs, Text("user_data"));
    LookupIsLast(vs, Text("nonce"));
    LookupIsLast(vs, Text("timestamp"));
  }

  /** The payload map `m` carries `doc`: each field under its key, in any order and framing, other keys ignored. */
  ghost predicate Carries(host: Host, m: Encoding, p: Encoding, doc: Document) {
    && Valid(m) && m.MapOf? && Valid(p) && p.MapOf?
    && var f := Written(AllValues(host.text, m.keysAndValues));
    && f.moduleId == Some(Text(doc.moduleId))
    && f.timestamp == Some(Number(doc.timestampMs))
    && f.digest == Some(Text(doc.digest))
    && BytesOrNull(f.publicKey) == doc.publicKey
    && BytesOrNull(f.userData) == doc.userData
    && BytesOrNull(f.nonce) == doc.nonce
    && f.pcrs == Some(ValueOf(host.text, p))
    && PcrPairs(AllValues(host.text, p.keysAndValues), doc.pcrs)
  }

  /** The number-to-bytes pairs of a key-value list are exactly `pcrs`. */
  ghost predicate PcrPairs(vs: seq<Value>, pcrs: map<int, seq<byte>>) {
    forall n: int ::
      BytesOrNull(LastValue(vs, Number(n))) == if n in pcrs then Some(pcrs[n]) else None
  }

  /** `top` is the COSE_Sign1 array, tagged or not, whose payload member holds `payload`. */
  ghost predicate Wraps(host: Host, top: Encoding, payload: seq<byte>) {
    && Valid(top)
    && var sign1 := if top.TagOf? then top.item else top;
    && sign1.ArrayOf? && |sign1.items| == 4
    && ValueOf(host.text, sign1.items[2]) == Bytes(payload)
  }

  lemma WrapsIffPayload(host: Host, top: Encoding, payload: seq<byte>)
    requires Valid(top)
    ensures var v := Untag(ValueOf(host.text, top));
            Wraps(host, top, payload) <==> v.Array? && |v.items| == 4 && v.items[2] == Bytes(payload)
  {
    var sign1 := if top.TagOf? then top.item else top;
    assert Untag(ValueOf(host.text, top)) == ValueOf(host.text, sign1);
  }

  lemma PcrsRecovered(vs: seq<Value>, pcrs: map<int, seq<byte>>)
    ensures PcrPairs(vs, pcrs) <==> PcrsOf(FromPairs(vs)) == pcrs
  {
    var read := PcrsOf(FromPairs(vs));
    forall n: int
      ensures BytesOrNull(LastValue(vs, Number(n))) == if n in read then Some(read[n]) else None
    {
      LookupIsLast(vs, Number(n));
      PcrsOfLookup(FromPairs(vs), n);
    }
    if PcrPairs(vs, pcrs) {
      forall n: int
        ensures n in read <==> n in pcrs
        ensures n in read ==> read[n] == pcrs[n]
      {
        assert BytesOrNull(LastValue(vs, Number(n))) == if n in pcrs then Some(pcrs[n]) else None;
      }
      assert read == pcrs;
    }
  }

  lemma FieldsRecovered(host: Host, m: Encoding, p: Encoding, doc: Document)
    requires Carries(host, m, p, doc)
    ensures ReadFields(host, Fetch(FromPairs(AllValues(host.text, m.keysAndValues)))) == Ok(doc)
  {
    FetchIsWritten(AllValues(host.text, m.keysAndValues));
    PcrsRecovered(AllValues(host.text, p.keysAndValues), doc.pcrs);
  }

  lemma BytesRecovered(
    host: Host, top: Encoding, m: Encoding, p: Encoding, doc: Document, after: seq<byte>, end: seq<byte>)
    requires Carries(host, m, p, doc)
    requires Wraps(host, top, BytesOf(m) + after)
    ensures ParseBytes(host, BytesOf(top) + end) == Ok(doc)
  {
    DecodeComplete(host.text, top, end);
    WrapsIffPayload(host, top, BytesOf(m) + after);
    DecodeComplete(host.text, m, after);
    FieldsRecovered(host, m, p, doc);
  }

  /**
    Any document that carries `doc`, in any entry order and any framing at any
    depth, wrapped as a COSE_Sign1 array with or without a tag and hex-encoded
    with or without "0x", parses to exactly `doc`; trailing bytes are ignored.
  */
  lemma AttestationRecovered(
    host: Host, top: Encoding, m: Encoding, p: Encoding, doc: Document, after: seq<byte>, end: seq<byte>)
    requires Carries(host, m, p, doc)
    requires Wraps(host, top, BytesOf(m) + after)
    ensures var hex := Hex.Encode(BytesOf(top) + end);
            && ParseBytes(host, Hex.DecodePrefix(StripPrefix(hex))) == Ok(doc)
            && ParseBytes(host, Hex.DecodePrefix(StripPrefix("0x" + hex))) == Ok(doc)
  {
    hide ParseBytes, BytesOf;
    var raw := BytesOf(top) + end;
    var hex := Hex.Encode(raw);
    assert |hex| >= 2 ==> Hex.IsLower(hex[1]);
    assert StripPrefix(hex) == hex;
    assert StripPrefix("0x" + hex) == hex;
    Hex.DecodeEncode(raw);
    BytesRecovered(host, top, m, p, doc, after, end);
  }

  /** Reading the fields that the payload map `m` carries, whatever their types, gives `doc`. */
  ghost predicate Yields(host: Host, m: Encoding, doc: Document) {
    Valid(m) && m.MapOf? && ReadFields(host, Written(AllValues(host.text, m.keysAndValues))) == Ok(doc)
  }

  /** The input begins with a COSE_Sign1 array whose payload begins with the map `m`. */
  ghost predicate Holds(host: Host, raw: seq<byte>, top: Encoding, m: Encoding, after: seq<byte>, end: seq<byte>) {
    Valid(m) && Wraps(host, top, BytesOf(m) + after) && raw == BytesOf(top) + end
  }

  lemma HeldIsParsed(
    host: Host, raw: seq<byte>, top: Encoding, m: Encoding, after: seq<byte>, end: seq<byte>, doc: Document)
    requires Yields(host, m, doc) && Holds(host, raw, top, m, after, end)
    ensures ParseBytes(host, raw) == Ok(doc)
  {
    DecodeComplete(host.text, top, end);
    WrapsIffPayload(host, top, BytesOf(m) + after);
    DecodeComplete(host.text, m, after);
    FetchIsWritten(AllValues(host.text, m.keysAndValues));
  }

  lemma MapIsRead(host: Host, m: Encoding, mv: Value, doc: Document)
    requires Encodes(host.text, m, mv) && mv.Map? && ReadFields(host, Fetch(mv.entries)) == Ok(doc)
    ensures Yields(host, m, doc)
  {
    assert m.MapOf?;
    FetchIsWritten(AllValues(host.text, m.keysAndValues));
  }

  lemma ParsedIsHeld(host: Host, raw: seq<byte>, doc: Document)
    returns (top: Encoding, m: Encoding, after: seq<byte>, end: seq<byte>)
    requires ParseBytes(host, raw) == Ok(doc)
    ensures Yields(host, m, doc) && Holds(host, raw, top, m, after, end)
  {
    var first, payload, mv;
    first, end, payload, mv, after := PartsOfParsed(host, raw, doc);
    top := DecodeSound(host.text, raw, first, end);
    WrapsIffPayload(host, top, payload);
    m := DecodeSound(host.text, payload, mv, after);
    MapIsRead(host, m, mv, doc);
  }

  /** The two items a successful parse has decoded. */
  lemma PartsOfParsed(host: Host, raw: seq<byte>, doc: Document)
    returns (first: Value, end: seq<byte>, payload: seq<byte>, mv: Value, after: seq<byte>)
    requires ParseBytes(host, raw) == Ok(doc)
    ensures Decode(host.text, raw) == Ok((first, end))
    ensures Untag(first).Array? && |Untag(first).items| == 4 && Untag(first).items[2] == Bytes(payload)
    ensures Decode(host.text, payload) == Ok((mv, after))
    ensures mv.Map? && ReadFields(host, Fetch(mv.entries)) == Ok(doc)
  {
    first, end := Decode(host.text, raw).value.0, Decode(host.text, raw).value.1;
    payload := Untag(first).items[2].bytes;
    mv, after := Decode(host.text, payload).value.0, Decode(host.text, payload).value.1;
  }

  /** An input parses to `doc` exactly when it holds, in some encoding, a payload map that yields `doc`. */
  lemma ParsesExactly(host: Host, raw: seq<byte>, doc: Document)
    ensures ParseBytes(host, raw) == Ok(doc) <==>
            exists top, m, after, end :: Yields(host, m, doc) && Holds(host, raw, top, m, after, end)
  {
    if ParseBytes(host, raw) == Ok(doc) {
      var top, m, after, end := ParsedIsHeld(host, raw, doc);
    }
    forall top, m, after, end | Yields(host, m, doc) && Holds(host, raw, top, m, after, end)
      ensures ParseBytes(host, raw) == Ok(doc)
    {
      HeldIsParsed(host, raw, top, m, after, end, doc);
    }
  }
}
