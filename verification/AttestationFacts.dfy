/** What the attestation parser takes each field from, and what it refuses, key by key. */
module AttestationFacts {
  import opened Prelude
  import opened CborValues
  import opened CborReader
  import opened Attestation
  import Hex

  /** The prefix is taken off once, and only where it is. */
  lemma {:induction false} PrefixIsStripped(s: string)
    ensures StripPrefix("0x" + s) == s
    ensures |s| < 2 || s[0] != '0' || s[1] != 'x' ==> StripPrefix(s) == s
  {
    assert ("0x" + s)[2..] == s;
    assert "0x" <= s ==> s[0] == "0x"[0] && s[1] == "0x"[1];
  }

  /** Hex is read up to the first pair that is not two digits. */
  lemma {:induction false} HexStops(bytes: seq<byte>, rest: string)
    requires |rest| < 2 || rest[0] !in "0123456789abcdefABCDEF" || rest[1] !in "0123456789abcdefABCDEF"
    ensures Hex.DecodePrefix(Hex.Encode(bytes) + rest) == bytes
  {
    if bytes == [] {
      assert "" + rest == rest;
      if |rest| >= 2 {
        Hex.DigitsAre(0, rest[0]);
        Hex.DigitsAre(0, rest[1]);
      }
    } else {
      HexStops(bytes[1..], rest);
      var s := Hex.Encode(bytes) + rest;
      assert s[2..] == Hex.Encode(bytes[1..]) + rest;
      assert Hex.Pair(s[0], s[1]) == Some(bytes[0]);
    }
  }

  /** A text field: bytes are converted, text stands for itself, nothing and null for the empty string. */
  predicate TextFieldIs(host: Host, v: Option<Value>, convert: seq<byte> -> string, s: string) {
    match v
    case Some(Bytes(b)) => s == convert(b)
    case Some(Text(t)) => s == t
    case Some(Null) => s == ""
    case None => s == ""
    case Some(other) => s == host.show(other)
  }

  /** A field of bytes, or null for anything else. */
  predicate BytesFieldIs(v: Option<Value>, b: Option<seq<byte>>) {
    match v
    case Some(Bytes(data)) => b == Some(data)
    case _ => b == None
  }

  /** Each field comes from the entry under its name. */
  predicate Describes(host: Host, entries: seq<(Value, Value)>, doc: Document) {
    && TextFieldIs(host, MapGet(entries, Text("module_id")), host.utf8, doc.moduleId)
    && TextFieldIs(host, MapGet(entries, Text("digest")), b => Hex.Encode(b), doc.digest)
    && (match MapGet(entries, Text("timestamp"))
        case Some(Number(n)) => doc.timestampMs == n
        case _ => doc.timestampMs == 0)
    && BytesFieldIs(MapGet(entries, Text("public_key")), doc.publicKey)
    && BytesFieldIs(MapGet(entries, Text("user_data")), doc.userData)
    && BytesFieldIs(MapGet(entries, Text("nonce")), doc.nonce)
  }

  /** The array under at most one tag. */
  predicate IsSign1(v: Value, items: seq<Value>) {
    v == Array(items) || (v.Tagged? && v.inner == Array(items))
  }

  function TableEntry(table: map<int, seq<byte>>, n: int): Option<seq<byte>> {
    if n in table then Some(table[n]) else None
  }

  /** A document is read from the map in the third member of an array of four. */
  lemma {:induction false} DocumentIsRead(
    host: Host, raw: seq<byte>, top: Value, items: seq<Value>, payload: seq<byte>, entries: seq<(Value, Value)>,
    pcrs: seq<(Value, Value)>)
    requires FirstItem(host.text, raw) == Ok(top) && IsSign1(top, items)
    requires |items| == 4 && items[2] == Bytes(payload)
    requires FirstItem(host.text, payload) == Ok(Map(entries))
    requires MapGet(entries, Text("pcrs")) == Some(Map(pcrs))
    ensures ParseBytes(host, raw).Ok? && Describes(host, entries, ParseBytes(host, raw).value)
    ensures KeysUnique(pcrs) ==>
              forall n :: BytesFieldIs(MapGet(pcrs, Number(n)), TableEntry(ParseBytes(host, raw).value.pcrs, n))
  {
    hide FirstItem, FindKey, MapGet, PcrsOf;
    if KeysUnique(pcrs) {
      forall n ensures BytesFieldIs(MapGet(pcrs, Number(n)), TableEntry(ParseBytes(host, raw).value.pcrs, n)) {
        PcrsOfLookup(pcrs, n);
      }
    }
  }

  /** Anything else is refused, for the first reason that applies. */
  lemma {:induction false} RefusedWhen(host: Host, raw: seq<byte>, top: Value, payload: Value)
    ensures FirstItem(host.text, raw).Err? ==> ParseBytes(host, raw) == Err(BadCbor(FirstItem(host.text, raw).error))
    ensures FirstItem(host.text, raw) == Ok(top) ==>
      var sign1 := if top.Tagged? then top.inner else top;
      && (!sign1.Array? || |sign1.items| != 4 ==> ParseBytes(host, raw) == Err(NotCoseSign1))
      && (sign1.Array? && |sign1.items| == 4 ==>
          && (!sign1.items[2].Bytes? ==> ParseBytes(host, raw) == Err(PayloadNotBytes))
          && (sign1.items[2].Bytes? ==>
              var inner := FirstItem(host.text, sign1.items[2].bytes);
              && (inner.Err? ==> ParseBytes(host, raw) == Err(BadCbor(inner.error)))
              && (inner == Ok(payload) ==>
                  && (!payload.Map? ==> ParseBytes(host, raw) == Err(PayloadNotMap))
                  && (payload.Map? ==>
                      var pcrs := MapGet(payload.entries, Text("pcrs"));
                      pcrs.None? || !pcrs.value.Map? ==> ParseBytes(host, raw) == Err(MissingPcrs)))))
  {
    hide FirstItem, FindKey, MapGet, PcrsOf;
  }
}
