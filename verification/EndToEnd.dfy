/**
  The whole system: enclaves that sign receipts under their own keys, other key
  holders, and the chain.  A signature exists when its key's holder has made it,
  and an attestation of a gateway build when an enclave runs that build.
*/
module EndToEnd {
  import opened Prelude
  import opened Receipts
  import Checkpoints
  import Policy
  import Registry
  import Server

  type PublicKey = seq<byte>

  /** An enclave since its boot: what it measures, its configuration and its requests. */
  datatype Enclave = Enclave(measurements: Checkpoints.Triple, cfg: Server.Config, gateway: Server.Gateway)

  /** `builds` are the measurements of the gateway's builds; enclaves run those and no other code. */
  datatype World = World(
    builds: set<Checkpoints.Triple>,
    chain: Registry.Chain,
    enclaves: map<PublicKey, Enclave>,
    signed: set<Checkpoints.Signature>)

  function Beginning(builds: set<Checkpoints.Triple>): World {
    World(builds, Registry.GENESIS, map[], {})
  }

  datatype Action =
    | Transact(op: Registry.Op)
    | Boot(pk: PublicKey, measurements: Checkpoints.Triple, cfg: Server.Config)
    | Advance(pk: PublicKey, id: nat, event: Server.Event)
    | SignElsewhere(signature: Checkpoints.Signature)

  /** The signature an issued receipt carries. */
  function SignatureOf(pk: PublicKey, i: Server.Issued): Checkpoints.Signature {
    Checkpoints.Signature(pk, MessageBytes(i.timestampMs, OnChain(i.payload)), i.sig)
  }

  /**
    Could the attestation hardware have made this document?  Measurements of a
    gateway build are attested only for an enclave that runs it, which hands
    over its own key; anything may be attested of other code.
  */
  predicate Genuine(w: World, doc: Checkpoints.Document) {
    doc.publicKey.Some? && Checkpoints.Attested(doc).Some? && Checkpoints.Attested(doc).value in w.builds ==>
      && doc.publicKey.value in w.enclaves
      && w.enclaves[doc.publicKey.value].measurements == Checkpoints.Attested(doc).value
  }

  /** A booted enclave's key is new, only the enclave signs with it, and only genuine documents pass the native check. */
  ghost predicate Can(w: World, a: Action) {
    match a
    case Transact(op) =>
      (op.Verify? ==> InTypes(op.timestampMs, op.receipt)) && (op.Register? ==> Genuine(w, op.doc))
    case Boot(pk, t, _) => t in w.builds && pk !in w.enclaves && forall s :: s in w.signed ==> s.pk != pk
    case Advance(pk, id, e) =>
      pk in w.enclaves && Server.Enabled(w.enclaves[pk].cfg, Server.RequestAt(w.enclaves[pk].gateway, id), e)
    case SignElsewhere(s) => s.pk !in w.enclaves
  }

  /** The signatures a step of an enclave adds. */
  function NewSignatures(pk: PublicKey, before: Server.Gateway, after: Server.Gateway): set<Checkpoints.Signature> {
    if |after.log| == |before.log| + 1 then {SignatureOf(pk, after.log[|before.log|].1)} else {}
  }

  /** The world after an enclave's log has become `after.log`. */
  function WithLog(w: World, pk: PublicKey, after: Server.Gateway): World
    requires pk in w.enclaves
  {
    w.(enclaves := w.enclaves[pk := w.enclaves[pk].(gateway := after)],
       signed := w.signed + NewSignatures(pk, w.enclaves[pk].gateway, after))
  }

  ghost function Act(f: Server.Foreign, w: World, a: Action): World
    requires Can(w, a)
  {
    match a
    case Transact(op) => w.(chain := Registry.Apply(w.chain, w.signed, op))
    case Boot(pk, t, cfg) => w.(enclaves := w.enclaves[pk := Enclave(t, cfg, Server.IDLE)])
    case Advance(pk, id, e) =>
      var before := w.enclaves[pk];
      var after := Server.GatewayStep(f, before.cfg, before.gateway, id, e);
      WithLog(w, pk, after)
    case SignElsewhere(s) => w.(signed := w.signed + {s})
  }

  // --- Reachable worlds ----------------------------------------------------------------

  ghost predicate Moves(f: Server.Foreign, w: World, a: Action, w': World) {
    Can(w, a) && w' == Act(f, w, a)
  }

  ghost predicate IsHistory(f: Server.Foreign, actions: seq<Action>, worlds: seq<World>) {
    && |worlds| == |actions| + 1
    && worlds[0] == Beginning(worlds[0].builds)
    && forall i :: 0 <= i < |actions| ==> Moves(f, worlds[i], actions[i], worlds[i + 1])
  }

  ghost predicate Reachable(f: Server.Foreign, w: World) {
    exists actions, worlds :: IsHistory(f, actions, worlds) && w == worlds[|actions|]
  }

  // --- What every reachable world keeps ---------------------------------------------------

  /** Position `k` of the log issued a receipt with this signature. */
  ghost predicate IssuedAt(e: Enclave, s: Checkpoints.Signature, k: nat) {
    k < |e.gateway.log| && SignatureOf(s.pk, e.gateway.log[k].1) == s
  }

  /** An enclave's key has signed nothing but receipts in its log ... */
  ghost predicate OnlyReceiptsSigned(w: World) {
    forall s :: s in w.signed && s.pk in w.enclaves ==> exists k: nat :: IssuedAt(w.enclaves[s.pk], s, k)
  }

  /** ... and every one of those. */
  ghost predicate AllReceiptsSigned(w: World) {
    forall pk, k :: pk in w.enclaves && 0 <= k < |w.enclaves[pk].gateway.log| ==>
      SignatureOf(pk, w.enclaves[pk].gateway.log[k].1) in w.signed
  }

  ghost predicate EnclavesOk(f: Server.Foreign, w: World) {
    forall pk :: pk in w.enclaves ==> Server.GatewayOk(f, w.enclaves[pk].cfg, w.enclaves[pk].gateway)
  }

  /** The key an event's gateway was registered with has signed the event's receipt and timestamp. */
  ghost predicate EventSigned(w: World, e: Checkpoints.ReceiptVerified) {
    && e.gateway in w.chain.registered
    && w.chain.registered[e.gateway].publicKey.Some?
    && InTypes(e.timestampMs, e.receipt)
    && exists sig :: Checkpoints.Signature(
                       w.chain.registered[e.gateway].publicKey.value, MessageBytes(e.timestampMs, e.receipt), sig)
                     in w.signed
  }

  ghost predicate EventsSigned(w: World) {
    forall i :: 0 <= i < |w.chain.events| ==> EventSigned(w, w.chain.events[i])
  }

  /**
    The event's operator is the one its gateway's document names, and its version
    the least index of the triple that document attested.
  */
  ghost predicate EventRegistered(c: Registry.Chain, e: Checkpoints.ReceiptVerified) {
    && e.gateway in c.registered
    && c.registered[e.gateway].nonce == Some(e.operator)
    && Checkpoints.Attested(c.registered[e.gateway]).Some?
    && Checkpoints.FirstMatch(c.entries, Checkpoints.Attested(c.registered[e.gateway]).value) == Some(e.pcrVersion)
  }

  ghost predicate EventsRegistered(c: Registry.Chain) {
    forall i :: 0 <= i < |c.events| ==> EventRegistered(c, c.events[i])
  }

  /** Gateways were registered with genuine documents. */
  ghost predicate RegisteredGenuine(w: World) {
    forall id :: id in w.chain.registered ==> Genuine(w, w.chain.registered[id])
  }

  ghost predicate WorldOk(f: Server.Foreign, w: World) {
    Registry.Inv(w.chain) && EnclavesOk(f, w) && OnlyReceiptsSigned(w) && AllReceiptsSigned(w) && EventsSigned(w)
    && EventsRegistered(w.chain) && RegisteredGenuine(w)
  }

  lemma EventStaysSigned(w: World, w': World, e: Checkpoints.ReceiptVerified)
    requires EventSigned(w, e) && w.signed <= w'.signed
    requires e.gateway in w'.chain.registered && w'.chain.registered[e.gateway] == w.chain.registered[e.gateway]
    ensures EventSigned(w', e)
  {}

  lemma MoreEventsStaySigned(w: World, chain: Registry.Chain, more: seq<Checkpoints.ReceiptVerified>)
    requires EventsSigned(w) && forall i :: 0 <= i < |more| ==> EventSigned(w, more[i])
    requires chain.events == w.chain.events + more
    requires forall id :: id in w.chain.registered ==>
               id in chain.registered && chain.registered[id] == w.chain.registered[id]
    ensures EventsSigned(w.(chain := chain))
  {
    var w' := w.(chain := chain);
    forall i | 0 <= i < |chain.events| ensures EventSigned(w', chain.events[i]) {
      if i < |w.chain.events| {
        EventStaysSigned(w, w', w.chain.events[i]);
      } else {
        EventStaysSigned(w, w', more[i - |w.chain.events|]);
      }
    }
  }

  /** The event of a successful `verify`. */
  lemma NewEventSigned(w: World, op: Registry.Op) returns (event: Checkpoints.ReceiptVerified)
    requires Registry.Inv(w.chain) && op.Verify? && InTypes(op.timestampMs, op.receipt)
    requires Registry.Step(w.chain, w.signed, op).Ok?
    ensures Registry.Apply(w.chain, w.signed, op).events == w.chain.events + [event] && EventSigned(w, event)
  {
    hide MessageBytes;
    assert Registry.GatewayOk(w.chain, op.id);
    event := Registry.Apply(w.chain, w.signed, op).events[|w.chain.events|];
  }

  lemma TransactKeepsEvents(f: Server.Foreign, w: World, op: Registry.Op)
    requires Registry.Inv(w.chain) && EventsSigned(w) && Can(w, Transact(op))
    ensures EventsSigned(Act(f, w, Transact(op)))
  {
    hide MessageBytes, Server.Step, Server.PayloadOf, Server.RequestOk, Server.Enabled, Server.IssuedTrue;
    Registry.RegistrationsStay(w.chain, w.signed, op);
    var more := [];
    if op.Verify? && Registry.Step(w.chain, w.signed, op).Ok? {
      var event := NewEventSigned(w, op);
      more := [event];
    } else {
      Registry.OnlyVerifyEmits(w.chain, w.signed, op);
      assert w.chain.events + more == w.chain.events;
    }
    MoreEventsStaySigned(w, Registry.Apply(w.chain, w.signed, op), more);
  }

  lemma EventStaysRegistered(c: Registry.Chain, c': Registry.Chain, e: Checkpoints.ReceiptVerified)
    requires EventRegistered(c, e) && Registry.Extends(c.entries, c'.entries)
    requires e.gateway in c'.registered && c'.registered[e.gateway] == c.registered[e.gateway]
    ensures EventRegistered(c', e)
  {
    Registry.FirstMatchStable(c.entries, c'.entries, Checkpoints.Attested(c.registered[e.gateway]).value);
  }

  /** A successful `verify` names its gateway's operator and version, which is unrevoked at that moment. */
  lemma NewEventRegistered(c: Registry.Chain, signed: set<Checkpoints.Signature>, op: Registry.Op)
    returns (event: Checkpoints.ReceiptVerified)
    requires Registry.Inv(c) && op.Verify? && Registry.Step(c, signed, op).Ok?
    ensures Registry.Apply(c, signed, op).events == c.events + [event] && EventRegistered(c, event)
    ensures event.pcrVersion < |c.entries| && !c.entries[event.pcrVersion].revoked
    ensures event.gateway == op.id && event.verifier == op.sender && event.verifiedAtMs == op.now
  {
    assert Registry.GatewayOk(c, op.id);
    event := Registry.Apply(c, signed, op).events[|c.events|];
  }

  lemma StepKeepsRegistered(c: Registry.Chain, signed: set<Checkpoints.Signature>, op: Registry.Op)
    requires Registry.Inv(c) && EventsRegistered(c)
    ensures EventsRegistered(Registry.Apply(c, signed, op))
  {
    var c' := Registry.Apply(c, signed, op);
    Registry.RegistrationsStay(c, signed, op);
    Registry.StepExtends(c, signed, op);
    var more := [];
    if op.Verify? && Registry.Step(c, signed, op).Ok? {
      var event := NewEventRegistered(c, signed, op);
      more := [event];
    } else {
      Registry.OnlyVerifyEmits(c, signed, op);
      assert c.events + more == c.events;
    }
    MoreEventsStayRegistered(c, c', more);
  }

  lemma MoreEventsStayRegistered(c: Registry.Chain, c': Registry.Chain, more: seq<Checkpoints.ReceiptVerified>)
    requires EventsRegistered(c) && forall i :: 0 <= i < |more| ==> EventRegistered(c, more[i])
    requires c'.events == c.events + more && Registry.Extends(c.entries, c'.entries)
    requires forall id :: id in c.registered ==> id in c'.registered && c'.registered[id] == c.registered[id]
    ensures EventsRegistered(c')
  {
    forall i | 0 <= i < |c'.events| ensures EventRegistered(c', c'.events[i]) {
      if i < |c.events| {
        EventStaysRegistered(c, c', c.events[i]);
      } else {
        EventStaysRegistered(c, c', more[i - |c.events|]);
      }
    }
  }

  lemma OthersKeepEvents(f: Server.Foreign, w: World, a: Action)
    requires EventsSigned(w) && Can(w, a) && !a.Transact?
    ensures EventsSigned(Act(f, w, a))
  {
    hide MessageBytes, Server.Step, Server.PayloadOf, Server.RequestOk, Server.Enabled, Server.IssuedTrue;
    var w' := Act(f, w, a);
    forall i | 0 <= i < |w'.chain.events| ensures EventSigned(w', w'.chain.events[i]) {
      EventStaysSigned(w, w', w.chain.events[i]);
    }
  }

  lemma LogGrowsByOne(f: Server.Foreign, cfg: Server.Config, g: Server.Gateway, id: nat, e: Server.Event)
    requires Server.Enabled(cfg, Server.RequestAt(g, id), e)
    ensures var g' := Server.GatewayStep(f, cfg, g, id, e);
            g.log <= g'.log && |g'.log| <= |g.log| + 1
  {
    hide Server.Step, Server.PayloadOf, Server.RequestOk, Server.IssuedTrue;
  }

  lemma LongerLogKeepsOnlyReceipts(w: World, pk: PublicKey, after: Server.Gateway)
    requires OnlyReceiptsSigned(w) && pk in w.enclaves
    requires w.enclaves[pk].gateway.log <= after.log
    ensures OnlyReceiptsSigned(WithLog(w, pk, after))
  {
    hide MessageBytes, Server.Step, Server.PayloadOf, Server.RequestOk, Server.Enabled, Server.IssuedTrue;
    var before, w' := w.enclaves[pk].gateway, WithLog(w, pk, after);
    forall s | s in w'.signed && s.pk in w'.enclaves ensures exists k: nat :: IssuedAt(w'.enclaves[s.pk], s, k) {
      if s in w.signed {
        var k: nat :| IssuedAt(w.enclaves[s.pk], s, k);
        assert IssuedAt(w'.enclaves[s.pk], s, k);
      } else {
        assert IssuedAt(w'.enclaves[s.pk], s, |before.log|);
      }
    }
  }

  lemma LongerLogKeepsAllSigned(w: World, pk: PublicKey, after: Server.Gateway)
    requires AllReceiptsSigned(w) && pk in w.enclaves
    requires w.enclaves[pk].gateway.log <= after.log && |after.log| <= |w.enclaves[pk].gateway.log| + 1
    ensures AllReceiptsSigned(WithLog(w, pk, after))
  {
    hide MessageBytes, Server.Step, Server.PayloadOf, Server.RequestOk, Server.Enabled, Server.IssuedTrue;
    var w' := WithLog(w, pk, after);
    forall key, k | key in w'.enclaves && 0 <= k < |w'.enclaves[key].gateway.log|
      ensures SignatureOf(key, w'.enclaves[key].gateway.log[k].1) in w'.signed
    {
      if k < |w.enclaves[key].gateway.log| {
        assert w'.enclaves[key].gateway.log[k] == w.enclaves[key].gateway.log[k];
      }
    }
  }

  lemma AdvanceKeepsSignatures(f: Server.Foreign, w: World, pk: PublicKey, id: nat, e: Server.Event)
    requires OnlyReceiptsSigned(w) && AllReceiptsSigned(w) && Can(w, Advance(pk, id, e))
    ensures OnlyReceiptsSigned(Act(f, w, Advance(pk, id, e))) && AllReceiptsSigned(Act(f, w, Advance(pk, id, e)))
  {
    hide MessageBytes, Server.Step, Server.PayloadOf, Server.RequestOk, Server.Enabled, Server.IssuedTrue;
    var enclave := w.enclaves[pk];
    var after := Server.GatewayStep(f, enclave.cfg, enclave.gateway, id, e);
    LogGrowsByOne(f, enclave.cfg, enclave.gateway, id, e);
    LongerLogKeepsOnlyReceipts(w, pk, after);
    LongerLogKeepsAllSigned(w, pk, after);
  }

  lemma OthersKeepOnlyReceipts(f: Server.Foreign, w: World, a: Action)
    requires OnlyReceiptsSigned(w) && Can(w, a) && !a.Advance?
    ensures OnlyReceiptsSigned(Act(f, w, a))
  {
    hide MessageBytes, Server.Step, Server.PayloadOf, Server.RequestOk, Server.Enabled, Server.IssuedTrue;
    var w' := Act(f, w, a);
    forall s | s in w'.signed && s.pk in w'.enclaves ensures exists k: nat :: IssuedAt(w'.enclaves[s.pk], s, k) {
      assert s in w.signed && s.pk in w.enclaves;
      var k: nat :| IssuedAt(w.enclaves[s.pk], s, k);
      assert IssuedAt(w'.enclaves[s.pk], s, k);
    }
  }

  lemma OthersKeepAllSigned(f: Server.Foreign, w: World, a: Action)
    requires AllReceiptsSigned(w) && Can(w, a) && !a.Advance?
    ensures AllReceiptsSigned(Act(f, w, a))
  {
    hide MessageBytes, Server.Step, Server.PayloadOf, Server.RequestOk, Server.Enabled, Server.IssuedTrue;
  }

  lemma ActKeepsEnclaves(f: Server.Foreign, w: World, a: Action)
    requires EnclavesOk(f, w) && Can(w, a)
    ensures EnclavesOk(f, Act(f, w, a))
  {
    hide MessageBytes, Server.Step, Server.PayloadOf, Server.RequestOk, Server.Enabled, Server.IssuedTrue;
    if a.Advance? {
      Server.GatewayStepKeepsOk(f, w.enclaves[a.pk].cfg, w.enclaves[a.pk].gateway, a.id, a.event);
    }
  }

  /** Enclaves stay, with what they measure, so a document stays genuine. */
  lemma StaysGenuine(w: World, w': World, doc: Checkpoints.Document)
    requires Genuine(w, doc) && w'.builds == w.builds
    requires forall pk :: pk in w.enclaves ==>
               pk in w'.enclaves && w'.enclaves[pk].measurements == w.enclaves[pk].measurements
    ensures Genuine(w', doc)
  {}

  lemma EnclavesStay(f: Server.Foreign, w: World, a: Action)
    requires Can(w, a)
    ensures Act(f, w, a).builds == w.builds
    ensures forall pk :: pk in w.enclaves ==>
              pk in Act(f, w, a).enclaves && Act(f, w, a).enclaves[pk].measurements == w.enclaves[pk].measurements
  {
    hide MessageBytes, Server.GatewayStep, Server.Enabled, Registry.Apply, Genuine;
  }

  /** A transaction registers its own document or none. */
  lemma OnlyOwnRegistered(c: Registry.Chain, signed: set<Checkpoints.Signature>, op: Registry.Op, id: nat)
    requires Registry.Inv(c) && id in Registry.Apply(c, signed, op).registered
    ensures var doc := Registry.Apply(c, signed, op).registered[id];
            (id in c.registered && doc == c.registered[id]) || (op.Register? && doc == op.doc)
  {
    hide MessageBytes;
  }

  lemma ActKeepsGenuine(f: Server.Foreign, w: World, a: Action)
    requires Registry.Inv(w.chain) && RegisteredGenuine(w) && Can(w, a)
    ensures RegisteredGenuine(Act(f, w, a))
  {
    hide MessageBytes, Server.GatewayStep, Server.Enabled, Registry.Apply, Genuine, Registry.Inv;
    var w' := Act(f, w, a);
    EnclavesStay(f, w, a);
    forall id | id in w'.chain.registered ensures Genuine(w', w'.chain.registered[id]) {
      if a.Transact? {
        OnlyOwnRegistered(w.chain, w.signed, a.op, id);
      }
      StaysGenuine(w, w', w'.chain.registered[id]);
    }
  }

  lemma ActKeepsOk(f: Server.Foreign, w: World, a: Action)
    requires WorldOk(f, w) && Can(w, a)
    ensures WorldOk(f, Act(f, w, a))
  {
    hide Can, EnclavesOk, OnlyReceiptsSigned, AllReceiptsSigned, EventsSigned, EventsRegistered, RegisteredGenuine;
    hide Registry.Inv, Server.GatewayStep;
    ActKeepsEnclaves(f, w, a);
    ActKeepsGenuine(f, w, a);
    if a.Advance? {
      AdvanceKeepsSignatures(f, w, a.pk, a.id, a.event);
    } else {
      OthersKeepOnlyReceipts(f, w, a);
      OthersKeepAllSigned(f, w, a);
    }
    if a.Transact? {
      Registry.StepKeepsInv(w.chain, w.signed, a.op);
      TransactKeepsEvents(f, w, a.op);
      StepKeepsRegistered(w.chain, w.signed, a.op);
    } else {
      OthersKeepEvents(f, w, a);
    }
  }

  lemma BeginningOk(f: Server.Foreign, builds: set<Checkpoints.Triple>)
    ensures WorldOk(f, Beginning(builds))
  {}

  lemma {:induction false} HistoryOk(f: Server.Foreign, actions: seq<Action>, worlds: seq<World>, n: nat)
    requires IsHistory(f, actions, worlds) && n <= |actions|
    ensures WorldOk(f, worlds[n])
  {
    hide WorldOk, Act, Can;
    BeginningOk(f, worlds[0].builds);
    if n > 0 {
      HistoryOk(f, actions, worlds, n - 1);
      assert Moves(f, worlds[n - 1], actions[n - 1], worlds[n - 1 + 1]);
      ActKeepsOk(f, worlds[n - 1], actions[n - 1]);
    }
  }

  lemma ReachableOk(f: Server.Foreign, w: World)
    requires Reachable(f, w)
    ensures WorldOk(f, w)
  {
    hide WorldOk, Act, Can;
    var actions, worlds :| IsHistory(f, actions, worlds) && w == worlds[|actions|];
    HistoryOk(f, actions, worlds, |actions|);
  }

  // --- Verification is exact ----------------------------------------------------------------

  /** Position `k` of the log issued exactly this receipt, timestamp and signature. */
  ghost predicate IssuedThis(e: Enclave, timestampMs: nat, r: Receipt, sig: seq<byte>, k: nat) {
    && k < |e.gateway.log|
    && e.gateway.log[k].1.timestampMs == timestampMs
    && OnChain(e.gateway.log[k].1.payload) == r
    && e.gateway.log[k].1.sig == sig
  }

  /** A signature by an enclave over a message names the receipt and timestamp it was issued for. */
  lemma SignatureNamesReceipt(pk: PublicKey, i: Server.Issued, timestampMs: nat, r: Receipt, sig: seq<byte>)
    requires InTypes(timestampMs, r)
    ensures SignatureOf(pk, i) == Checkpoints.Signature(pk, MessageBytes(timestampMs, r), sig)
       <==> i.timestampMs == timestampMs && OnChain(i.payload) == r && i.sig == sig
  {
    OnChainInTypes(i.payload, i.timestampMs);
    var mine, other := MessageBytes(i.timestampMs, OnChain(i.payload)), MessageBytes(timestampMs, r);
    if mine == other {
      MessagesAreInjective(i.timestampMs, OnChain(i.payload), [], timestampMs, r, []);
    }
  }

  /** The message of a receipt is signed by an enclave exactly when the enclave issued that receipt. */
  lemma SignedIffIssued(w: World, pk: PublicKey, timestampMs: nat, r: Receipt, sig: seq<byte>)
    requires OnlyReceiptsSigned(w) && AllReceiptsSigned(w) && pk in w.enclaves && InTypes(timestampMs, r)
    ensures Checkpoints.Signature(pk, MessageBytes(timestampMs, r), sig) in w.signed
       <==> exists k: nat :: IssuedThis(w.enclaves[pk], timestampMs, r, sig, k)
  {
    var s := Checkpoints.Signature(pk, MessageBytes(timestampMs, r), sig);
    var log := w.enclaves[pk].gateway.log;
    if s in w.signed {
      var k: nat :| IssuedAt(w.enclaves[pk], s, k);
      SignatureNamesReceipt(pk, log[k].1, timestampMs, r, sig);
      assert IssuedThis(w.enclaves[pk], timestampMs, r, sig, k);
    }
    if k: nat :| IssuedThis(w.enclaves[pk], timestampMs, r, sig, k) {
      SignatureNamesReceipt(pk, log[k].1, timestampMs, r, sig);
      assert SignatureOf(pk, log[k].1) in w.signed;
    }
  }

  /**
    In every reachable world, `verify` on a gateway that holds an enclave's key
    succeeds exactly when the gateway's version is unrevoked and that enclave
    issued exactly this receipt with this timestamp and signature.
  */
  lemma VerifyIsExact(f: Server.Foreign, w: World, op: Registry.Op)
    requires Reachable(f, w) && op.Verify? && InTypes(op.timestampMs, op.receipt)
    requires op.id in w.chain.gateways && w.chain.gateways[op.id].pk in w.enclaves
    ensures var g := w.chain.gateways[op.id];
            g.pcrVersion < |w.chain.entries|
            && (Registry.Step(w.chain, w.signed, op).Ok? <==>
                  && !w.chain.entries[g.pcrVersion].revoked
                  && exists k: nat :: IssuedThis(w.enclaves[g.pk], op.timestampMs, op.receipt, op.sig, k))
  {
    hide EnclavesOk, EventsSigned, EventsRegistered, Act, Can, MessageBytes;
    ReachableOk(f, w);
    Registry.VerifiesExactly(w.chain, w.signed, op);
    SignedIffIssued(w, w.chain.gateways[op.id].pk, op.timestampMs, op.receipt, op.sig);
  }

  // --- Gateways of approved builds ------------------------------------------------------------

  /** The approved entry of a version is one of a gateway build. */
  predicate IsBuild(w: World, version: nat) {
    version < |w.chain.entries| && Checkpoints.TripleOf(w.chain.entries[version]) in w.builds
  }

  /** A gateway whose version is that of a gateway build holds the key of an enclave that runs the build. */
  lemma GatewayOfBuildIsEnclave(f: Server.Foreign, w: World, id: nat)
    requires Reachable(f, w) && id in w.chain.gateways && IsBuild(w, w.chain.gateways[id].pcrVersion)
    ensures var g := w.chain.gateways[id];
            && g.pk in w.enclaves
            && w.enclaves[g.pk].measurements == Checkpoints.TripleOf(w.chain.entries[g.pcrVersion])
  {
    hide EnclavesOk, OnlyReceiptsSigned, AllReceiptsSigned, EventsSigned, EventsRegistered, Act, Can;
    ReachableOk(f, w);
    assert Registry.GatewayOk(w.chain, id);
    assert Genuine(w, w.chain.registered[id]);
  }

  /**
    So no key needs to be trusted beforehand: `verify` on a gateway whose
    approved version is that of a gateway build succeeds exactly when the
    version is unrevoked and the enclave behind the gateway issued exactly this
    receipt with this timestamp and signature.
  */
  lemma VerifyOfBuildIsExact(f: Server.Foreign, w: World, op: Registry.Op)
    requires Reachable(f, w) && op.Verify? && InTypes(op.timestampMs, op.receipt)
    requires op.id in w.chain.gateways && IsBuild(w, w.chain.gateways[op.id].pcrVersion)
    ensures var g := w.chain.gateways[op.id];
            && g.pk in w.enclaves
            && (Registry.Step(w.chain, w.signed, op).Ok? <==>
                  && !w.chain.entries[g.pcrVersion].revoked
                  && exists k: nat :: IssuedThis(w.enclaves[g.pk], op.timestampMs, op.receipt, op.sig, k))
  {
    hide Reachable, IsHistory, MessageBytes, Registry.Step;
    GatewayOfBuildIsEnclave(f, w, op.id);
    VerifyIsExact(f, w, op);
  }

  // --- From an event back to the request ------------------------------------------------------

  /** The event shows a receipt this request issued; the request's history bears it out. */
  ghost predicate ShowsRequest(
    f: Server.Foreign, cfg: Server.Config, event: Checkpoints.ReceiptVerified, r: Server.Request, p: Payload)
  {
    && |r.issued| == 1 && r.issued[0].payload == p
    && event.receipt == OnChain(p) && event.timestampMs == r.issued[0].timestampMs
    && Server.IssuedTrue(f, cfg, r, p)
    && (r.dispatches > 0 ==> r.call.Some? && Policy.Permits(cfg.rules, r.call.value.policyRequest))
  }

  lemma EventHasKey(w: World, event: Checkpoints.ReceiptVerified)
    requires EventSigned(w, event)
    ensures event.gateway in w.chain.registered && w.chain.registered[event.gateway].publicKey.Some?
  {
    hide MessageBytes, InTypes;
  }

  lemma WorldOfEvent(f: Server.Foreign, w: World, i: nat)
    requires Reachable(f, w) && i < |w.chain.events|
    ensures EventSigned(w, w.chain.events[i]) && EventRegistered(w.chain, w.chain.events[i])
    ensures OnlyReceiptsSigned(w) && EnclavesOk(f, w)
    ensures var event := w.chain.events[i];
            event.gateway in w.chain.registered && w.chain.registered[event.gateway].publicKey.Some?
  {
    hide EventSigned, EventRegistered, EnclavesOk, OnlyReceiptsSigned, AllReceiptsSigned, RegisteredGenuine;
    hide Reachable, Registry.Inv;
    ReachableOk(f, w);
    EventHasKey(w, w.chain.events[i]);
  }

  /** The enclave whose key a gateway was registered with has logged the receipt of the gateway's event. */
  lemma EventIsLogged(w: World, event: Checkpoints.ReceiptVerified) returns (k: nat)
    requires OnlyReceiptsSigned(w) && EventSigned(w, event)
    requires w.chain.registered[event.gateway].publicKey.value in w.enclaves
    ensures var log := w.enclaves[w.chain.registered[event.gateway].publicKey.value].gateway.log;
            k < |log| && event.receipt == OnChain(log[k].1.payload) && event.timestampMs == log[k].1.timestampMs
  {
    var pk := w.chain.registered[event.gateway].publicKey.value;
    var sig :| Checkpoints.Signature(pk, MessageBytes(event.timestampMs, event.receipt), sig) in w.signed;
    var s := Checkpoints.Signature(pk, MessageBytes(event.timestampMs, event.receipt), sig);
    var n: nat :| IssuedAt(w.enclaves[pk], s, n);
    SignatureNamesReceipt(pk, w.enclaves[pk].gateway.log[n].1, event.timestampMs, event.receipt, sig);
    k := n;
  }

  /** An event with a logged receipt and its timestamp shows the request that the log names. */
  lemma LoggedShows(f: Server.Foreign, e: Enclave, k: nat, event: Checkpoints.ReceiptVerified)
    requires Server.GatewayOk(f, e.cfg, e.gateway) && k < |e.gateway.log|
    requires event.receipt == OnChain(e.gateway.log[k].1.payload)
    requires event.timestampMs == e.gateway.log[k].1.timestampMs
    ensures e.gateway.log[k].0 in e.gateway.requests
    ensures ShowsRequest(f, e.cfg, event, e.gateway.requests[e.gateway.log[k].0], e.gateway.log[k].1.payload)
  {
    hide Server.IssuedTrue, Server.RequestOk, OnChain;
    LoggedIsTrue(f, e, k);
  }

  /**
    Every event for a gateway registered with an enclave's key shows a receipt
    that one request of that enclave issued, true of that request; the event
    determines the signed payload.
  */
  lemma EventsComeFromRequests(f: Server.Foreign, w: World, i: nat)
    requires Reachable(f, w) && i < |w.chain.events|
    ensures var event := w.chain.events[i];
            && EventRegistered(w.chain, event) && w.chain.registered[event.gateway].publicKey.Some?
            && var pk := w.chain.registered[event.gateway].publicKey.value;
               pk in w.enclaves ==>
                 exists id, p :: id in w.enclaves[pk].gateway.requests
                   && ShowsRequest(f, w.enclaves[pk].cfg, event, w.enclaves[pk].gateway.requests[id], p)
                   && forall q: Payload :: OnChain(q) == event.receipt ==> q == p
  {
    hide WorldOk, EventSigned, EventRegistered, Server.IssuedTrue, Server.RequestOk, OnChain, MessageBytes;
    WorldOfEvent(f, w, i);
    var event := w.chain.events[i];
    var pk := w.chain.registered[event.gateway].publicKey.value;
    if pk in w.enclaves {
      var k := EventIsLogged(w, event);
      var e := w.enclaves[pk];
      var p := e.gateway.log[k].1.payload;
      LoggedShows(f, e, k, event);
      forall q: Payload | OnChain(q) == event.receipt ensures q == p {
        OnChainInjective(q, p);
      }
    }
  }

  /**
    Every event at the version of a gateway build, whoever registered its
    gateway, shows a receipt that one request of an enclave of that build issued,
    true of that request; the event determines the signed payload.
  */
  lemma EventsOfBuildsComeFromRequests(f: Server.Foreign, w: World, i: nat)
    requires Reachable(f, w) && i < |w.chain.events| && IsBuild(w, w.chain.events[i].pcrVersion)
    ensures var event := w.chain.events[i];
            exists pk, id, p ::
              && pk in w.enclaves && id in w.enclaves[pk].gateway.requests
              && w.enclaves[pk].measurements == Checkpoints.TripleOf(w.chain.entries[event.pcrVersion])
              && ShowsRequest(f, w.enclaves[pk].cfg, event, w.enclaves[pk].gateway.requests[id], p)
              && forall q: Payload :: OnChain(q) == event.receipt ==> q == p
  {
    hide ShowsRequest, EventSigned, OnChain, EnclavesOk, OnlyReceiptsSigned, AllReceiptsSigned, Act, Can;
    var event := w.chain.events[i];
    EventsComeFromRequests(f, w, i);
    ReachableOk(f, w);
    assert Genuine(w, w.chain.registered[event.gateway]);
    var pk := w.chain.registered[event.gateway].publicKey.value;
    assert pk in w.enclaves;
  }

  // --- The moment an event was emitted --------------------------------------------------------

  /** Step `n` of the history is the `verify` that emitted event `i`, with the event's version unrevoked. */
  ghost predicate EmittedAt(actions: seq<Action>, worlds: seq<World>, i: nat, event: Checkpoints.ReceiptVerified, n: nat) {
    && n < |actions| && n + 1 < |worlds|
    && actions[n].Transact? && actions[n].op.Verify? && actions[n].op.id == event.gateway
    && worlds[n + 1].chain.events == worlds[n].chain.events + [event] && i == |worlds[n].chain.events|
    && event.pcrVersion < |worlds[n].chain.entries|
    && !worlds[n].chain.entries[event.pcrVersion].revoked
  }

  lemma EmittedStep(f: Server.Foreign, w: World, a: Action)
    requires WorldOk(f, w) && Can(w, a)
    ensures var w' := Act(f, w, a);
            || w'.chain.events == w.chain.events
            || (a.Transact? && a.op.Verify? && exists event ::
                  && w'.chain.events == w.chain.events + [event] && a.op.id == event.gateway
                  && event.pcrVersion < |w.chain.entries| && !w.chain.entries[event.pcrVersion].revoked)
  {
    hide MessageBytes, Server.Step, Server.PayloadOf, Server.RequestOk, Server.Enabled, Server.IssuedTrue;
    if a.Transact? {
      if a.op.Verify? && Registry.Step(w.chain, w.signed, a.op).Ok? {
        var event := NewEventRegistered(w.chain, w.signed, a.op);
      } else {
        Registry.OnlyVerifyEmits(w.chain, w.signed, a.op);
      }
    }
  }

  /**
    Every event of a world was emitted at one step of its history, by a `verify`
    of its gateway, when its version was not revoked; so no event for a version
    is emitted after the version's revocation.
  */
  lemma {:induction false} EventsWereUnrevoked(
    f: Server.Foreign, actions: seq<Action>, worlds: seq<World>, n: nat, i: nat)
    requires IsHistory(f, actions, worlds) && n <= |actions| && i < |worlds[n].chain.events|
    ensures exists k: nat :: k < n && EmittedAt(actions, worlds, i, worlds[n].chain.events[i], k)
  {
    hide WorldOk, Act, Can, Server.GatewayStep;
    HistoryOk(f, actions, worlds, n);
    if n > 0 {
      var before := worlds[n - 1];
      HistoryOk(f, actions, worlds, n - 1);
      assert Moves(f, before, actions[n - 1], worlds[n - 1 + 1]);
      EmittedStep(f, before, actions[n - 1]);
      if i < |before.chain.events| {
        EventsWereUnrevoked(f, actions, worlds, n - 1, i);
        assert worlds[n].chain.events[i] == before.chain.events[i];
      } else {
        assert EmittedAt(actions, worlds, i, worlds[n].chain.events[i], n - 1);
      }
    }
  }

  /** What a healthy enclave's log says of the request of an entry. */
  lemma LoggedIsTrue(f: Server.Foreign, e: Enclave, k: nat)
    requires Server.GatewayOk(f, e.cfg, e.gateway) && k < |e.gateway.log|
    ensures e.gateway.log[k].0 in e.gateway.requests
    ensures var r := e.gateway.requests[e.gateway.log[k].0];
            && r.issued == [e.gateway.log[k].1]
            && Server.IssuedTrue(f, e.cfg, r, e.gateway.log[k].1.payload)
            && (r.dispatches > 0 ==> r.call.Some? && Policy.Permits(e.cfg.rules, r.call.value.policyRequest))
  {
    hide Server.IssuedTrue;
    var r := e.gateway.requests[e.gateway.log[k].0];
    assert Server.RequestOk(f, e.cfg, r);
    if r.dispatches > 0 {
      Policy.AllowedIffPermitted(e.cfg.rules, r.call.value.policyRequest, r.verdict.value);
    }
  }
}
