/** The bounded receipt store, against the unbounded log of everything inserted. */
module ReceiptStore {
  import opened Prelude
  import opened SdkReceipt
  import Hex
  import Receipts

  /** The last `n` entries of a log, or all of them. */
  function LastOf(log: seq<StoredReceipt>, n: nat): seq<StoredReceipt> {
    if |log| <= n then log else log[|log| - n..]
  }

  function Lower(c: char): char {
    if 'A' <= c <= 'Z' then 'a' + (c - 'A') else c
  }

  /** `replace('-', "").to_ascii_lowercase()`. */
  function Normalize(id: string): string {
    if id == "" then ""
    else (if id[0] == '-' then "" else [Lower(id[0])]) + Normalize(id[1..])
  }

  /** Position of the newest entry with that id. */
  function LastIndex(entries: seq<StoredReceipt>, id: string): (r: Option<nat>)
    ensures r.Some? ==> r.value < |entries| && entries[r.value].receiptId == id
    ensures r.Some? ==> forall j :: r.value < j < |entries| ==> entries[j].receiptId != id
    ensures r.None? ==> forall j :: 0 <= j < |entries| ==> entries[j].receiptId != id
  {
    if entries == [] then None
    else if entries[|entries| - 1].receiptId == id then Some(|entries| - 1)
    else LastIndex(entries[..|entries| - 1], id)
  }

  function Newest(entries: seq<StoredReceipt>, id: string): Option<StoredReceipt> {
    match LastIndex(entries, id)
    case None => None
    case Some(i) => Some(entries[i])
  }

  class Ring {
    const capacity: nat
    var entries: seq<StoredReceipt>
    /** Everything ever inserted. */
    ghost var log: seq<StoredReceipt>

    ghost predicate Valid()
      reads this
    {
      capacity >= 1 && entries == LastOf(log, capacity)
    }

    constructor (capacity: nat)
      ensures Valid() && log == []
      ensures this.capacity == if capacity < 1 then 1 else capacity
    {
      this.capacity := if capacity < 1 then 1 else capacity;
      entries, log := [], [];
    }

    /** Evicts the oldest entry when full. */
    method Insert(receipt: StoredReceipt)
      requires Valid()
      modifies this
      ensures Valid() && log == old(log) + [receipt]
      ensures entries[|entries| - 1] == receipt && |entries| <= capacity
    {
      if |entries| >= capacity {
        entries := entries[1..];
      }
      entries := entries + [receipt];
      log := log + [receipt];
    }

    /** Looks from the newest entry back. */
    method Get(receiptId: string) returns (r: Option<StoredReceipt>)
      requires Valid()
      ensures r == Newest(LastOf(log, capacity), Normalize(receiptId))
    {
      var wanted := Normalize(receiptId);
      var i := |entries|;
      while i > 0
        invariant 0 <= i <= |entries|
        invariant forall j :: i <= j < |entries| ==> entries[j].receiptId != wanted
      {
        i := i - 1;
        if entries[i].receiptId == wanted {
          assert LastIndex(entries, wanted) == Some(i);
          return Some(entries[i]);
        }
      }
      r := None;
    }
  }

  // --- Lookups -----------------------------------------------------------------------

  /** The same letter in either case. */
  predicate SameLetter(c: char, d: char) {
    c == d || ('A' <= c <= 'Z' && d as int == c as int + 32)
  }

  /** A spelling of an id: dashes anywhere, letters in either case. */
  predicate Spells(w: string, id: string) {
    if w == "" then id == ""
    else if w[0] == '-' then Spells(w[1..], id)
    else id != "" && SameLetter(w[0], id[0]) && Spells(w[1..], id[1..])
  }

  predicate IsStoredId(id: string) {
    forall i :: 0 <= i < |id| ==> Hex.IsLower(id[i])
  }

  /** A lookup string finds a stored id exactly when it spells it. */
  lemma {:induction false} SpellingsNormalize(w: string, id: string)
    requires IsStoredId(id)
    ensures Normalize(w) == id <==> Spells(w, id)
  {
    if w != "" {
      if w[0] == '-' {
        SpellingsNormalize(w[1..], id);
        assert "" + Normalize(w[1..]) == Normalize(w[1..]);
      } else if id != "" {
        SpellingsNormalize(w[1..], id[1..]);
        assert Normalize(w) == [Lower(w[0])] + Normalize(w[1..]);
        assert id == [id[0]] + id[1..];
        assert Normalize(w) == id <==> Lower(w[0]) == id[0] && Normalize(w[1..]) == id[1..] by {
          assert Normalize(w)[1..] == Normalize(w[1..]);
        }
        assert Hex.IsLower(id[0]);
      }
    }
  }

  /** The stored ids of two payloads are equal only if their raw ids are. */
  lemma StoredIdsAreFaithful(p: Receipts.Payload, t: U64, sig: seq<byte>, q: Receipts.Payload,
                             t': U64, sig': seq<byte>)
    requires Store(p, t, sig).receiptId == Store(q, t', sig').receiptId
    ensures p.receiptId == q.receiptId
    ensures IsStoredId(Store(p, t, sig).receiptId)
  {
    Hex.EncodeInjective(p.receiptId, q.receiptId);
  }

  /** `r` is the newest receipt with the id among the last `capacity` of the log, if any of those has it. */
  ghost predicate IsNewestRetained(log: seq<StoredReceipt>, capacity: nat, id: string, r: Option<StoredReceipt>) {
    var oldest := if |log| <= capacity then 0 else |log| - capacity;
    match r
    case None => forall i :: oldest <= i < |log| ==> log[i].receiptId != id
    case Some(entry) =>
      exists i :: oldest <= i < |log| && log[i] == entry && entry.receiptId == id
                  && forall j :: i < j < |log| ==> log[j].receiptId != id
  }

  /**
    After any insertions, a lookup by any spelling of an id returns the newest
    receipt with that id among the last `capacity` inserted, or nothing if none
    of those has it.
  */
  lemma LookupFindsNewestRetained(log: seq<StoredReceipt>, capacity: nat, w: string, id: string)
    requires capacity >= 1 && IsStoredId(id) && Spells(w, id)
    ensures IsNewestRetained(log, capacity, id, Newest(LastOf(log, capacity), Normalize(w)))
  {
    SpellingsNormalize(w, id);
    var kept := LastOf(log, capacity);
    var oldest := |log| - |kept|;
    var found := LastIndex(kept, id);
    var from := if found.Some? then oldest + found.value + 1 else oldest;
    forall j | from <= j < |log| ensures log[j].receiptId != id {
      assert log[j] == kept[j - oldest];
    }
    if found.Some? {
      assert log[oldest + found.value] == kept[found.value];
    }
  }
}
