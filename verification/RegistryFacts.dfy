/**
  The transactions in the contract's own terms: which PCR index is which
  measurement, which check aborts first, and what a success leaves on chain.
*/
module RegistryFacts {
  import opened Prelude
  import opened Receipts
  import opened Checkpoints
  import opened Registry

  predicate Lacks(doc: Document, index: byte) {
    forall e :: e in doc.pcrs ==> e.index != index
  }

  /** The document has the entry's measurements under PCR 0, 1 and 2. */
  predicate Measures(doc: Document, e: PcrSet) {
    PcrEntry(0, e.pcr0) in doc.pcrs && PcrEntry(1, e.pcr1) in doc.pcrs && PcrEntry(2, e.pcr2) in doc.pcrs
  }

  predicate DistinctIndexes(doc: Document) {
    forall i, j :: 0 <= i < j < |doc.pcrs| ==> doc.pcrs[i].index != doc.pcrs[j].index
  }

  lemma {:induction false} AttestedIs(doc: Document)
    ensures Attested(doc).None? <==> Lacks(doc, 0) || Lacks(doc, 1) || Lacks(doc, 2)
    ensures Attested(doc).Some? ==>
              && PcrEntry(0, Attested(doc).value.pcr0) in doc.pcrs
              && PcrEntry(1, Attested(doc).value.pcr1) in doc.pcrs
              && PcrEntry(2, Attested(doc).value.pcr2) in doc.pcrs
  {}

  /** The first entry with an index is the one that counts. */
  predicate IsFirst(doc: Document, i: nat, index: byte) {
    i < |doc.pcrs| && doc.pcrs[i].index == index && forall j :: 0 <= j < i ==> doc.pcrs[j].index != index
  }

  lemma {:induction false} FirstEntryCounts(pcrs: seq<PcrEntry>, i: nat)
    requires i < |pcrs| && forall j :: 0 <= j < i ==> pcrs[j].index != pcrs[i].index
    ensures PcrAt(pcrs, pcrs[i].index) == Some(pcrs[i].value)
  {
    if i > 0 {
      FirstEntryCounts(pcrs[1..], i - 1);
    }
  }

  lemma {:induction false} FirstEntriesAreAttested(doc: Document, i: nat, j: nat, k: nat)
    requires IsFirst(doc, i, 0) && IsFirst(doc, j, 1) && IsFirst(doc, k, 2)
    ensures Attested(doc) == Some(Triple(doc.pcrs[i].value, doc.pcrs[j].value, doc.pcrs[k].value))
  {
    FirstEntryCounts(doc.pcrs, i);
    FirstEntryCounts(doc.pcrs, j);
    FirstEntryCounts(doc.pcrs, k);
  }

  /** With distinct indexes, what a document measures is what it attests. */
  lemma {:induction false} MeasuresExactly(doc: Document, e: PcrSet)
    requires DistinctIndexes(doc)
    ensures Attested(doc) == Some(TripleOf(e)) <==> Measures(doc, e)
  {
    AttestedIs(doc);
    if Measures(doc, e) {
      var t := Attested(doc).value;
      SameEntry(doc, 0, t.pcr0, e.pcr0);
      SameEntry(doc, 1, t.pcr1, e.pcr1);
      SameEntry(doc, 2, t.pcr2, e.pcr2);
    }
  }

  lemma {:induction false} SameEntry(doc: Document, index: byte, a: seq<byte>, b: seq<byte>)
    requires DistinctIndexes(doc) && PcrEntry(index, a) in doc.pcrs && PcrEntry(index, b) in doc.pcrs
    ensures a == b
  {
    var i :| 0 <= i < |doc.pcrs| && doc.pcrs[i] == PcrEntry(index, a);
    var j :| 0 <= j < |doc.pcrs| && doc.pcrs[j] == PcrEntry(index, b);
    assert i == j;
  }

  // --- Registration ---------------------------------------------------------------------

  /** Whoever registers has shown the measurements of an approved, unrevoked entry. */
  lemma {:induction false} RegisteredHasMeasured(s: Chain, signed: set<Signature>, doc: Document, sender: Address)
    requires Step(s, signed, Register(doc, sender)).Ok?
    ensures exists v :: 0 <= v < |s.entries| && Measures(doc, s.entries[v]) && !s.entries[v].revoked
  {
    AttestedIs(doc);
    RegistersExactly(s, signed, doc, sender);
  }

  /**
    With distinct indexes: registration succeeds exactly for the address the
    nonce names, with a key, when the first entry the document measures is there
    and unrevoked.
  */
  lemma {:induction false} RegistersWhenMeasured(s: Chain, signed: set<Signature>, doc: Document, sender: Address)
    requires DistinctIndexes(doc)
    ensures Step(s, signed, Register(doc, sender)).Ok? <==>
            && doc.nonce == Some(sender) && doc.publicKey.Some?
            && exists v :: 0 <= v < |s.entries| && Measures(doc, s.entries[v]) && !s.entries[v].revoked
                           && forall j :: 0 <= j < v ==> !Measures(doc, s.entries[j])
  {
    RegistersExactly(s, signed, doc, sender);
    forall v | 0 <= v < |s.entries|
      ensures Measures(doc, s.entries[v]) <==> Attested(doc) == Some(TripleOf(s.entries[v]))
    {
      MeasuresExactly(doc, s.entries[v]);
    }
    hide Step, Measures, Attested, TripleOf, DistinctIndexes;
    if doc.nonce == Some(sender) && doc.publicKey.Some? {
      ForwardIndex(s, doc);
      BackwardIndex(s, doc);
    }
  }

  /** The first approved entry of a triple is there and unrevoked. */
  ghost predicate FirstIsGood(s: Chain, doc: Document) {
    Attested(doc).Some? &&
    exists v :: 0 <= v < |s.entries| && TripleOf(s.entries[v]) == Attested(doc).value && !s.entries[v].revoked
                && forall j :: 0 <= j < v ==> TripleOf(s.entries[j]) != Attested(doc).value
  }

  ghost predicate FirstMeasuredIsGood(s: Chain, doc: Document) {
    exists v :: 0 <= v < |s.entries| && Measures(doc, s.entries[v]) && !s.entries[v].revoked
                && forall j :: 0 <= j < v ==> !Measures(doc, s.entries[j])
  }

  lemma {:induction false} ForwardIndex(s: Chain, doc: Document)
    requires forall v :: 0 <= v < |s.entries| ==>
               (Measures(doc, s.entries[v]) <==> Attested(doc) == Some(TripleOf(s.entries[v])))
    ensures FirstIsGood(s, doc) ==> FirstMeasuredIsGood(s, doc)
  {
    hide Measures, Attested, TripleOf;
    if FirstIsGood(s, doc) {
      var v :| 0 <= v < |s.entries| && TripleOf(s.entries[v]) == Attested(doc).value && !s.entries[v].revoked
               && forall j :: 0 <= j < v ==> TripleOf(s.entries[j]) != Attested(doc).value;
      assert Measures(doc, s.entries[v]);
    }
  }

  lemma {:induction false} BackwardIndex(s: Chain, doc: Document)
    requires forall v :: 0 <= v < |s.entries| ==>
               (Measures(doc, s.entries[v]) <==> Attested(doc) == Some(TripleOf(s.entries[v])))
    ensures FirstMeasuredIsGood(s, doc) ==> FirstIsGood(s, doc)
  {
    hide Measures, Attested, TripleOf;
    if FirstMeasuredIsGood(s, doc) {
      var v :| 0 <= v < |s.entries| && Measures(doc, s.entries[v]) && !s.entries[v].revoked
               && forall j :: 0 <= j < v ==> !Measures(doc, s.entries[j]);
      assert TripleOf(s.entries[v]) == Attested(doc).value;
    }
  }

  /** Which check of a registration fails first. */
  lemma {:induction false} RegistrationAborts(s: Chain, signed: set<Signature>, doc: Document, sender: Address)
    ensures var r := Step(s, signed, Register(doc, sender));
            && (r == Err(MissingPcr) <==> Lacks(doc, 0) || Lacks(doc, 1) || Lacks(doc, 2))
            && (r == Err(NonceNotSender) <==> Attested(doc).Some? && doc.nonce != Some(sender))
            && (r == Err(PcrsNotApproved) <==>
                  && Attested(doc).Some? && doc.nonce == Some(sender)
                  && forall v :: 0 <= v < |s.entries| ==> TripleOf(s.entries[v]) != Attested(doc).value)
            && (r == Err(PcrsRevoked) <==>
                  && Attested(doc).Some? && doc.nonce == Some(sender)
                  && exists v :: 0 <= v < |s.entries| && TripleOf(s.entries[v]) == Attested(doc).value
                                 && s.entries[v].revoked
                                 && forall j :: 0 <= j < v ==> TripleOf(s.entries[j]) != Attested(doc).value)
            && (r == Err(MissingPublicKey) ==> doc.publicKey.None?)
  {
    AttestedIs(doc);
    hide Lacks;
    if Attested(doc).Some? {
      FirstIs(s, Attested(doc).value);
    }
  }

  lemma {:induction false} FirstIs(s: Chain, t: Triple)
    ensures forall v :: 0 <= v < |s.entries| && TripleOf(s.entries[v]) == t
                        && (forall j :: 0 <= j < v ==> TripleOf(s.entries[j]) != t) ==>
              FirstMatch(s.entries, t) == Some(v)
  {}

  /** A registered gateway has the document's key and time, the sender, and the entry's index. */
  lemma {:induction false} RegisteredGatewayIs(s: Chain, signed: set<Signature>, doc: Document, sender: Address)
    requires Step(s, signed, Register(doc, sender)).Ok?
    ensures var s' := Apply(s, signed, Register(doc, sender));
            && s'.nextId == s.nextId + 1 && s.nextId in s'.gateways
            && var g := s'.gateways[s.nextId];
               && Some(g.pk) == doc.publicKey && g.operator == sender && g.registeredAtMs == doc.timestamp
               && g.pcrVersion < |s.entries| && Attested(doc) == Some(TripleOf(s.entries[g.pcrVersion]))
               && s' == s.(gateways := s.gateways[s.nextId := g], registered := s.registered[s.nextId := doc],
                           nextId := s.nextId + 1)
  {}

  // --- The other transactions ---------------------------------------------------------------

  lemma {:induction false} ApprovalAppends(
    s: Chain, signed: set<Signature>, pcr0: seq<byte>, pcr1: seq<byte>, pcr2: seq<byte>, codeRef: string)
    ensures var s' := Apply(s, signed, Approve(pcr0, pcr1, pcr2, codeRef));
            && s' == s.(entries := s'.entries) && |s'.entries| == |s.entries| + 1
            && (forall i :: 0 <= i < |s.entries| ==> s'.entries[i] == s.entries[i])
            && var e := s'.entries[|s.entries|];
               e.pcr0 == pcr0 && e.pcr1 == pcr1 && e.pcr2 == pcr2 && e.codeRef == codeRef && !e.revoked
  {}

  lemma {:induction false} RevocationFlags(s: Chain, signed: set<Signature>, version: nat)
    ensures Step(s, signed, Revoke(version)).Ok? <==> version < |s.entries|
    ensures version >= |s.entries| ==> Step(s, signed, Revoke(version)) == Err(EntryIndexOutOfBounds)
    ensures var s' := Apply(s, signed, Revoke(version));
            && s' == s.(entries := s'.entries) && |s'.entries| == |s.entries|
            && forall i :: 0 <= i < |s.entries| ==>
                 s'.entries[i] == if i == version then s.entries[i].(revoked := true) else s.entries[i]
  {}

  lemma {:induction false} DestructionRemoves(s: Chain, signed: set<Signature>, id: nat, sender: Address)
    ensures Step(s, signed, Destroy(id, sender)).Ok? <==> id in s.gateways && s.gateways[id].operator == sender
    ensures id in s.gateways && s.gateways[id].operator != sender ==>
              Step(s, signed, Destroy(id, sender)) == Err(NotGatewayOperator)
    ensures Step(s, signed, Destroy(id, sender)).Ok? ==>
              var s' := Apply(s, signed, Destroy(id, sender));
              s' == s.(gateways := s'.gateways) && s'.gateways.Keys == s.gateways.Keys - {id}
              && forall other :: other in s'.gateways ==> s'.gateways[other] == s.gateways[other]
  {}

  /** A verified receipt's event: every field of it, the verifier and the time of verification. */
  lemma {:induction false} VerificationEmits(s: Chain, signed: set<Signature>, op: Op)
    requires Inv(s) && op.Verify? && op.id in s.gateways
    ensures var g := s.gateways[op.id];
            && g.pcrVersion < |s.entries|
            && (s.entries[g.pcrVersion].revoked ==> Step(s, signed, op) == Err(RevokedGateway))
            && (!s.entries[g.pcrVersion].revoked
                && Signature(g.pk, MessageBytes(op.timestampMs, op.receipt), op.sig) !in signed ==>
                  Step(s, signed, op) == Err(InvalidSignature))
            && (Step(s, signed, op).Ok? ==>
                  var s' := Apply(s, signed, op);
                  && s' == s.(events := s'.events) && |s'.events| == |s.events| + 1
                  && s'.events[..|s.events|] == s.events
                  && var e := s'.events[|s.events|];
                     && e.gateway == op.id && e.operator == g.operator && e.verifier == op.sender
                     && e.pcrVersion == g.pcrVersion && e.receipt == op.receipt
                     && e.timestampMs == op.timestampMs && e.verifiedAtMs == op.now)
  {
    hide MessageBytes;
    assert GatewayOk(s, op.id);
  }
}
