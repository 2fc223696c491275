/** Whole runs of the on-chain registry: what every sequence of transactions keeps. */
module Registry {
  import opened Prelude
  import opened Receipts
  import opened Checkpoints

  /**
    The shared objects, the event log, and what registration recorded: the
    document each gateway id was registered with, kept after the gateway is gone.
  */
  datatype Chain = Chain(
    entries: seq<PcrSet>,
    gateways: map<nat, Gateway>,
    registered: map<nat, Document>,
    nextId: nat,
    events: seq<ReceiptVerified>)

  const GENESIS: Chain := Chain([], map[], map[], 0, [])

  datatype Op =
    | Approve(pcr0: seq<byte>, pcr1: seq<byte>, pcr2: seq<byte>, codeRef: string)
    | Revoke(version: nat)
    | Register(doc: Document, sender: Address)
    | Destroy(id: nat, sender: Address)
    | Verify(id: nat, timestampMs: nat, receipt: Receipt, sig: seq<byte>, sender: Address, now: nat)

  /** One transaction; an abort rolls everything back. */
  function Step(s: Chain, signed: set<Signature>, op: Op): Result<Chain, Abort> {
    match op
    case Approve(pcr0, pcr1, pcr2, codeRef) =>
      Ok(s.(entries := s.entries + [PcrSet(pcr0, pcr1, pcr2, codeRef, false)]))
    case Revoke(version) =>
      if version >= |s.entries| then Err(EntryIndexOutOfBounds)
      else Ok(s.(entries := s.entries[version := s.entries[version].(revoked := true)]))
    case Register(doc, sender) =>
      var g :- Registered(s.entries, doc, sender);
      Ok(s.(gateways := s.gateways[s.nextId := g], registered := s.registered[s.nextId := doc], nextId := s.nextId + 1))
    case Destroy(id, sender) =>
      if id !in s.gateways then Err(NoSuchObject)
      else if s.gateways[id].operator != sender then Err(NotGatewayOperator)
      else Ok(s.(gateways := s.gateways - {id}))
    case Verify(id, timestampMs, receipt, sig, sender, now) =>
      if id !in s.gateways || s.gateways[id].pcrVersion >= |s.entries| then Err(NoSuchObject)
      else
        var event :- Verified(s.entries, signed, id, s.gateways[id], timestampMs, receipt, sig, sender, now);
        Ok(s.(events := s.events + [event]))
  }

  function Apply(s: Chain, signed: set<Signature>, op: Op): Chain {
    match Step(s, signed, op)
    case Ok(s') => s'
    case Err(_) => s
  }

  /** A run: each transaction with the signatures that exist when it is executed. */
  function Run(s: Chain, txs: seq<(set<Signature>, Op)>): Chain
    decreases |txs|
  {
    if txs == [] then s else Run(Apply(s, txs[0].0, txs[0].1), txs[1..])
  }

  // --- The registry invariant -------------------------------------------------------

  /**
    A gateway's version is the least index whose triple equals the one its
    document attested, its operator is the address the document's nonce names,
    and its key and registration time are the document's.
  */
  ghost predicate GatewayOk(s: Chain, id: nat)
    requires id in s.gateways
  {
    && id in s.registered
    && var g, doc := s.gateways[id], s.registered[id];
    && Attested(doc).Some?
    && FirstMatch(s.entries, Attested(doc).value) == Some(g.pcrVersion)
    && doc.nonce == Some(g.operator)
    && doc.publicKey == Some(g.pk)
    && doc.timestamp == g.registeredAtMs
  }

  ghost predicate Inv(s: Chain) {
    && (forall id :: id in s.gateways ==> id < s.nextId && GatewayOk(s, id))
    && (forall id :: id in s.registered ==> id < s.nextId)
  }

  /** Entries are only appended and flagged: a found triple keeps its index. */
  ghost predicate Extends(old_: seq<PcrSet>, new_: seq<PcrSet>) {
    && |old_| <= |new_|
    && forall i :: 0 <= i < |old_| ==>
         new_[i] == old_[i].(revoked := new_[i].revoked) && (old_[i].revoked ==> new_[i].revoked)
  }

  lemma FirstMatchIs(entries: seq<PcrSet>, t: Triple, i: nat)
    requires i < |entries| && TripleOf(entries[i]) == t && forall j :: 0 <= j < i ==> TripleOf(entries[j]) != t
    ensures FirstMatch(entries, t) == Some(i)
  {}

  lemma FirstMatchStable(old_: seq<PcrSet>, new_: seq<PcrSet>, t: Triple)
    requires Extends(old_, new_) && FirstMatch(old_, t).Some?
    ensures FirstMatch(new_, t) == FirstMatch(old_, t)
  {
    var i := FirstMatch(old_, t).value;
    forall j | 0 <= j <= i ensures TripleOf(new_[j]) == TripleOf(old_[j]) {}
    FirstMatchIs(new_, t, i);
  }

  lemma StepExtends(s: Chain, signed: set<Signature>, op: Op)
    ensures Extends(s.entries, Apply(s, signed, op).entries)
    ensures forall w :: 0 <= w < |s.entries| && op != Revoke(w) ==>
              Apply(s, signed, op).entries[w] == s.entries[w]
  {}

  lemma GatewayStaysOk(s: Chain, s': Chain, id: nat)
    requires id in s.gateways && GatewayOk(s, id) && Extends(s.entries, s'.entries)
    requires id in s'.gateways && s'.gateways[id] == s.gateways[id]
    requires id in s'.registered && s'.registered[id] == s.registered[id]
    ensures GatewayOk(s', id)
  {
    FirstMatchStable(s.entries, s'.entries, Attested(s.registered[id]).value);
  }

  /** What one transaction leaves of the gateways: all but a new one and a destroyed one are untouched. */
  lemma StepGateways(s: Chain, signed: set<Signature>, op: Op)
    requires forall id :: id in s.gateways || id in s.registered ==> id < s.nextId
    ensures var s' := Apply(s, signed, op);
            && s.nextId <= s'.nextId <= s.nextId + 1
            && (forall id :: id in s'.gateways ==>
                  if id == s.nextId then op.Register? && Step(s, signed, op).Ok?
                  else id in s.gateways && s'.gateways[id] == s.gateways[id])
            && (forall id :: id in s.registered ==> id in s'.registered && s'.registered[id] == s.registered[id])
            && (forall id :: id in s'.registered ==> id in s.registered || id == s.nextId < s'.nextId)
            && (forall id :: id in s'.gateways ==> id < s'.nextId)
            && (forall id :: id in s.gateways && id !in s'.gateways ==> op == Destroy(id, s.gateways[id].operator))
  {}

  lemma RegistrationsStay(s: Chain, signed: set<Signature>, op: Op)
    requires Inv(s)
    ensures var s' := Apply(s, signed, op);
            forall id :: id in s.registered ==> id in s'.registered && s'.registered[id] == s.registered[id]
  {}

  lemma OnlyVerifyEmits(s: Chain, signed: set<Signature>, op: Op)
    requires !op.Verify? || Step(s, signed, op).Err?
    ensures Apply(s, signed, op).events == s.events
  {}

  lemma NewGatewayOk(s: Chain, signed: set<Signature>, op: Op)
    requires op.Register? && Step(s, signed, op).Ok?
    ensures var s' := Apply(s, signed, op); s.nextId in s'.gateways && GatewayOk(s', s.nextId)
  {}

  lemma StepKeepsInv(s: Chain, signed: set<Signature>, op: Op)
    requires Inv(s)
    ensures Inv(Apply(s, signed, op))
  {
    var s' := Apply(s, signed, op);
    StepExtends(s, signed, op);
    StepGateways(s, signed, op);
    forall id | id in s'.gateways ensures GatewayOk(s', id) {
      if id == s.nextId {
        NewGatewayOk(s, signed, op);
      } else {
        GatewayStaysOk(s, s', id);
      }
    }
  }

  lemma {:induction false} RunKeepsInv(s: Chain, txs: seq<(set<Signature>, Op)>)
    requires Inv(s)
    ensures Inv(Run(s, txs))
    decreases |txs|
  {
    if txs != [] {
      StepKeepsInv(s, txs[0].0, txs[0].1);
      RunKeepsInv(Apply(s, txs[0].0, txs[0].1), txs[1..]);
    }
  }

  /** The invariant holds in every reachable state. */
  lemma RegistryInvariant(txs: seq<(set<Signature>, Op)>)
    ensures Inv(Run(GENESIS, txs))
  {
    RunKeepsInv(GENESIS, txs);
  }

  /** Gateways that attested the same measurements share one version, and so are revoked together. */
  lemma EqualTriplesShareVersion(txs: seq<(set<Signature>, Op)>, a: nat, b: nat)
    requires var s := Run(GENESIS, txs);
             a in s.gateways && b in s.gateways && a in s.registered && b in s.registered
             && Attested(s.registered[a]) == Attested(s.registered[b])
    ensures var s := Run(GENESIS, txs); s.gateways[a].pcrVersion == s.gateways[b].pcrVersion
  {
    RegistryInvariant(txs);
    var s := Run(GENESIS, txs);
    assert GatewayOk(s, a) && GatewayOk(s, b);
  }

  /** In a reachable state, verifying looks up an entry that exists. */
  lemma VersionsInBounds(txs: seq<(set<Signature>, Op)>, id: nat)
    requires id in Run(GENESIS, txs).gateways
    ensures Run(GENESIS, txs).gateways[id].pcrVersion < |Run(GENESIS, txs).entries|
  {
    RegistryInvariant(txs);
    assert GatewayOk(Run(GENESIS, txs), id);
  }

  // --- Revocation over runs ------------------------------------------------------------

  lemma ExtendsTransitive(a: seq<PcrSet>, b: seq<PcrSet>, c: seq<PcrSet>)
    requires Extends(a, b) && Extends(b, c)
    ensures Extends(a, c)
  {}

  /**
    Over any run, entries keep their index and content, a revoked entry stays
    revoked, and only its own revocation flags an entry.
  */
  lemma {:induction false} RunExtends(s: Chain, txs: seq<(set<Signature>, Op)>)
    ensures Extends(s.entries, Run(s, txs).entries)
    ensures forall w :: 0 <= w < |s.entries| && (forall i :: 0 <= i < |txs| ==> txs[i].1 != Revoke(w)) ==>
              Run(s, txs).entries[w] == s.entries[w]
    decreases |txs|
  {
    if txs != [] {
      var s1 := Apply(s, txs[0].0, txs[0].1);
      StepExtends(s, txs[0].0, txs[0].1);
      RunExtends(s1, txs[1..]);
      ExtendsTransitive(s.entries, s1.entries, Run(s, txs).entries);
      forall w | 0 <= w < |s.entries| && forall i :: 0 <= i < |txs| ==> txs[i].1 != Revoke(w)
        ensures Run(s, txs).entries[w] == s.entries[w]
      {
        assert s1.entries[w] == s.entries[w];
        assert forall i :: 0 <= i < |txs[1..]| ==> txs[1..][i].1 == txs[i + 1].1;
      }
    }
  }

  /**
    Once version `v` has been revoked, then after any further transactions, its
    triple's approval again included, no gateway at `v` is verified and no
    document whose triple is first listed at `v` is registered.
  */
  lemma RevocationIsPermanent(
    before: seq<(set<Signature>, Op)>, v: nat, later: seq<(set<Signature>, Op)>, signed: set<Signature>, op: Op)
    requires v < |Run(GENESIS, before).entries|
    ensures var s := Run(Apply(Run(GENESIS, before), signed, Revoke(v)), later);
            && v < |s.entries| && s.entries[v].revoked
            && (op.Verify? && op.id in s.gateways && s.gateways[op.id].pcrVersion == v ==>
                 Step(s, signed, op) == Err(RevokedGateway))
            && (op.Register? && Attested(op.doc).Some? && FirstMatch(s.entries, Attested(op.doc).value) == Some(v) ==>
                 Step(s, signed, op).Err?)
  {
    var revoked := Apply(Run(GENESIS, before), signed, Revoke(v));
    RunExtends(revoked, later);
  }

  /** Approving a revoked triple again adds an entry that no registration reaches. */
  lemma ApprovingAgainDoesNotHelp(
    s: Chain, signed: set<Signature>, v: nat, codeRef: string, doc: Document, sender: Address)
    requires v < |s.entries| && s.entries[v].revoked && Attested(doc) == Some(TripleOf(s.entries[v]))
    requires FirstMatch(s.entries, TripleOf(s.entries[v])) == Some(v)
    ensures var e := s.entries[v];
            var again := Apply(s, signed, Approve(e.pcr0, e.pcr1, e.pcr2, codeRef));
            && |again.entries| == |s.entries| + 1
            && Step(again, signed, Register(doc, sender)).Err?
  {
    var e := s.entries[v];
    var again := Apply(s, signed, Approve(e.pcr0, e.pcr1, e.pcr2, codeRef));
    StepExtends(s, signed, Approve(e.pcr0, e.pcr1, e.pcr2, codeRef));
    FirstMatchStable(s.entries, again.entries, TripleOf(e));
  }

  /** A gateway is destroyed only by its operator, and its id is never used again. */
  lemma OnlyOperatorDestroys(s: Chain, signed: set<Signature>, op: Op, id: nat)
    requires Inv(s) && id in s.gateways && id !in Apply(s, signed, op).gateways
    ensures op == Destroy(id, s.gateways[id].operator)
  {
    StepGateways(s, signed, op);
  }

  /**
    Registration exactly: the sender is named by the nonce, the triple is
    approved and its first entry unrevoked, and there is a key.
  */
  lemma RegistersExactly(s: Chain, signed: set<Signature>, doc: Document, sender: Address)
    ensures Step(s, signed, Register(doc, sender)).Ok? <==>
            && Attested(doc).Some? && doc.nonce == Some(sender) && doc.publicKey.Some?
            && exists v :: 0 <= v < |s.entries| && TripleOf(s.entries[v]) == Attested(doc).value && !s.entries[v].revoked
                           && forall j :: 0 <= j < v ==> TripleOf(s.entries[j]) != Attested(doc).value
  {
    if Attested(doc).Some? {
      var t := Attested(doc).value;
      if v :| 0 <= v < |s.entries| && TripleOf(s.entries[v]) == t && !s.entries[v].revoked
              && forall j :: 0 <= j < v ==> TripleOf(s.entries[j]) != t {
        FirstMatchIs(s.entries, t, v);
      }
      if FirstMatch(s.entries, t).Some? {
        assert TripleOf(s.entries[FirstMatch(s.entries, t).value]) == t;
      }
    }
  }

  /** Verification exactly: the version is unrevoked and the registered key has signed the message. */
  lemma VerifiesExactly(s: Chain, signed: set<Signature>, op: Op)
    requires Inv(s) && op.Verify? && op.id in s.gateways
    ensures var g := s.gateways[op.id];
            g.pcrVersion < |s.entries|
            && (Step(s, signed, op).Ok? <==>
                  && !s.entries[g.pcrVersion].revoked
                  && Signature(g.pk, MessageBytes(op.timestampMs, op.receipt), op.sig) in signed)
  {
    hide MessageBytes;
    assert GatewayOk(s, op.id);
  }
}
