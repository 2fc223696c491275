/** What the CBOR reader returns, and JavaScript's `Map` semantics for the maps in it. */
module CborValues {
  import opened Prelude

  datatype Value =
    | Number(n: int)
    | Bytes(bytes: seq<byte>)
    | Text(text: string)
    | Bool(b: bool)
    | Null
    | Array(items: seq<Value>)
    | Map(entries: seq<(Value, Value)>)
    | Tagged(tag: nat, inner: Value)

  /** Turns the bytes of a text string into text: the `TextDecoder` call. */
  type TextDecode = seq<byte> -> string

  /** Objects are compared by reference, so two of them are never the same map key. */
  predicate ByReference(v: Value) {
    v.Bytes? || v.Array? || v.Map? || v.Tagged?
  }

  predicate SameKey(a: Value, b: Value) {
    a == b && !ByReference(a)
  }

  /** Position of the entry whose key is `k`. */
  function FindKey(entries: seq<(Value, Value)>, k: Value): (r: Option<nat>)
    ensures r.Some? ==> r.value < |entries| && SameKey(entries[r.value].0, k)
    ensures r.Some? ==> forall j :: 0 <= j < r.value ==> !SameKey(entries[j].0, k)
    ensures r.None? ==> forall j :: 0 <= j < |entries| ==> !SameKey(entries[j].0, k)
  {
    if entries == [] then None
    else if SameKey(entries[0].0, k) then Some(0)
    else
      var r := FindKey(entries[1..], k);
      if r.None? then None else Some(r.value + 1)
  }

  /** `map.set(k, v)`: replaces in place, or appends. */
  function MapSet(entries: seq<(Value, Value)>, k: Value, v: Value): seq<(Value, Value)> {
    match FindKey(entries, k)
    case Some(i) => entries[i := (entries[i].0, v)]
    case None => entries + [(k, v)]
  }

  /** `map.get(k)`; `None` is `undefined`. */
  function MapGet(entries: seq<(Value, Value)>, k: Value): Option<Value> {
    match FindKey(entries, k)
    case Some(i) => Some(entries[i].1)
    case None => None
  }

  /** The map built by setting a flat list of keys and values, pair after pair. */
  function FromPairs(vs: seq<Value>): seq<(Value, Value)> {
    if |vs| < 2 then []
    else MapSet(FromPairs(vs[..|vs| - 2]), vs[|vs| - 2], vs[|vs| - 1])
  }

  lemma FromPairsSnoc(vs: seq<Value>, k: Value, v: Value)
    ensures FromPairs(vs + [k, v]) == MapSet(FromPairs(vs), k, v)
  {
    assert (vs + [k, v])[..|vs|] == vs;
  }

  /** Contents of a run of byte-string chunks. */
  function JoinBytes(vs: seq<Value>): seq<byte> {
    if vs == [] then []
    else (if vs[0].Bytes? then vs[0].bytes else []) + JoinBytes(vs[1..])
  }

  /** Contents of a run of text chunks. */
  function JoinText(vs: seq<Value>): string {
    if vs == [] then ""
    else (if vs[0].Text? then vs[0].text else "") + JoinText(vs[1..])
  }

  lemma {:induction false} JoinBytesSnoc(vs: seq<Value>, v: Value)
    requires v.Bytes?
    ensures JoinBytes(vs + [v]) == JoinBytes(vs) + v.bytes
  {
    if vs == [] {
      assert vs + [v] == [v] && [v][1..] == [];
    } else {
      assert (vs + [v])[1..] == vs[1..] + [v];
      JoinBytesSnoc(vs[1..], v);
      Associative(if vs[0].Bytes? then vs[0].bytes else [], JoinBytes(vs[1..]), v.bytes);
    }
  }

  lemma {:induction false} JoinTextSnoc(vs: seq<Value>, v: Value)
    requires v.Text?
    ensures JoinText(vs + [v]) == JoinText(vs) + v.text
  {
    if vs == [] {
      assert vs + [v] == [v] && [v][1..] == [];
    } else {
      assert (vs + [v])[1..] == vs[1..] + [v];
      JoinTextSnoc(vs[1..], v);
      Associative(if vs[0].Text? then vs[0].text else "", JoinText(vs[1..]), v.text);
    }
  }
}
