/** The on-chain trust root: approved measurements, gateway registration and receipt verification. */
module Checkpoints {
  import opened Prelude
  import opened Receipts

  /** An address is its 32 bytes, which are also its BCS encoding. */
  type Address = Bytes32

  datatype PcrSet = PcrSet(pcr0: seq<byte>, pcr1: seq<byte>, pcr2: seq<byte>, codeRef: string, revoked: bool)

  datatype Triple = Triple(pcr0: seq<byte>, pcr1: seq<byte>, pcr2: seq<byte>)

  datatype PcrEntry = PcrEntry(index: byte, value: seq<byte>)

  /** A natively verified attestation document. */
  datatype Document = Document(
    pcrs: seq<PcrEntry>, nonce: Option<seq<byte>>, publicKey: Option<seq<byte>>, timestamp: nat)

  datatype Gateway = Gateway(pk: seq<byte>, pcrVersion: nat, operator: Address, registeredAtMs: nat)

  datatype Abort =
    | PcrsNotApproved
    | PcrsRevoked
    | MissingPublicKey
    | NotGatewayOperator
    | EntryIndexOutOfBounds
    | NonceNotSender
    | MissingPcr
    | NoSuchObject
    | RevokedGateway
    | InvalidSignature

  /** What a key holder has signed: the ideal signature functionality. */
  datatype Signature = Signature(pk: seq<byte>, message: seq<byte>, sig: seq<byte>)

  datatype ReceiptVerified = ReceiptVerified(
    gateway: nat, operator: Address, verifier: Address, pcrVersion: nat, receipt: Receipt, timestampMs: nat,
    verifiedAtMs: nat)

  // --- Lookups ----------------------------------------------------------------------

  function TripleOf(e: PcrSet): Triple {
    Triple(e.pcr0, e.pcr1, e.pcr2)
  }

  /** Index of the first approved entry with the triple, revoked or not. */
  function FirstMatch(entries: seq<PcrSet>, t: Triple): (r: Option<nat>)
    ensures r.Some? ==> r.value < |entries| && TripleOf(entries[r.value]) == t
    ensures r.Some? ==> forall j :: 0 <= j < r.value ==> TripleOf(entries[j]) != t
    ensures r.None? ==> forall j :: 0 <= j < |entries| ==> TripleOf(entries[j]) != t
  {
    if entries == [] then None
    else if TripleOf(entries[0]) == t then Some(0)
    else
      match FirstMatch(entries[1..], t)
      case None => None
      case Some(i) => Some(i + 1)
  }

  /** Value of the first document entry for a PCR index. */
  function PcrAt(pcrs: seq<PcrEntry>, wanted: byte): (r: Option<seq<byte>>)
    ensures r.Some? ==> PcrEntry(wanted, r.value) in pcrs
    ensures r.None? ==> forall e :: e in pcrs ==> e.index != wanted
  {
    if pcrs == [] then None
    else if pcrs[0].index == wanted then Some(pcrs[0].value)
    else PcrAt(pcrs[1..], wanted)
  }

  method PcrByIndex(pcrs: seq<PcrEntry>, wanted: byte) returns (r: Result<seq<byte>, Abort>)
    ensures r == match PcrAt(pcrs, wanted) case Some(v) => Ok(v) case None => Err(MissingPcr)
  {
    var i := 0;
    assert pcrs[0..] == pcrs;
    while i < |pcrs|
      invariant 0 <= i <= |pcrs|
      invariant PcrAt(pcrs, wanted) == PcrAt(pcrs[i..], wanted)
    {
      assert pcrs[i..][1..] == pcrs[i + 1..];
      if pcrs[i].index == wanted {
        return Ok(pcrs[i].value);
      }
      i := i + 1;
    }
    r := Err(MissingPcr);
  }

  /** When each PCR index appears once, a document's entry order does not matter. */
  lemma PcrOrderDoesNotMatter(pcrs: seq<PcrEntry>, other: seq<PcrEntry>, wanted: byte)
    requires multiset(pcrs) == multiset(other)
    requires forall i, j :: 0 <= i < j < |pcrs| ==> pcrs[i].index != pcrs[j].index
    ensures PcrAt(pcrs, wanted) == PcrAt(other, wanted)
  {
    forall e ensures e in pcrs <==> e in other {
      assert e in pcrs <==> e in multiset(pcrs);
      assert e in other <==> e in multiset(other);
    }
    var a, b := PcrAt(pcrs, wanted), PcrAt(other, wanted);
    if a.Some? && b.Some? {
      var i :| 0 <= i < |pcrs| && pcrs[i] == PcrEntry(wanted, a.value);
      var j :| 0 <= j < |pcrs| && pcrs[j] == PcrEntry(wanted, b.value);
      assert i == j;
    }
  }

  // --- Registration --------------------------------------------------------------------

  /** The triple a document attests, if it carries all three PCRs. */
  function Attested(doc: Document): Option<Triple> {
    match (PcrAt(doc.pcrs, 0), PcrAt(doc.pcrs, 1), PcrAt(doc.pcrs, 2))
    case (Some(pcr0), Some(pcr1), Some(pcr2)) => Some(Triple(pcr0, pcr1, pcr2))
    case _ => None
  }

  function ValidVersion(entries: seq<PcrSet>, nonce: seq<byte>, sender: seq<byte>, t: Triple): Result<nat, Abort> {
    if nonce != sender then Err(NonceNotSender)
    else
      match FirstMatch(entries, t)
      case None => Err(PcrsNotApproved)
      case Some(version) => if entries[version].revoked then Err(PcrsRevoked) else Ok(version)
  }

  /** The gateway that registering a document makes, or why it is refused. */
  function Registered(entries: seq<PcrSet>, doc: Document, sender: Address): Result<Gateway, Abort> {
    match Attested(doc)
    case None => Err(MissingPcr)
    case Some(t) =>
      if doc.nonce.None? then Err(NonceNotSender)
      else
        var version :- ValidVersion(entries, doc.nonce.value, sender, t);
        if doc.publicKey.None? then Err(MissingPublicKey)
        else Ok(Gateway(doc.publicKey.value, version, sender, doc.timestamp))
  }

  class Checkpoint {
    var approvedPcrs: seq<PcrSet>

    constructor ()
      ensures approvedPcrs == []
    {
      approvedPcrs := [];
    }

    method ApprovePcrs(pcr0: seq<byte>, pcr1: seq<byte>, pcr2: seq<byte>, codeRef: string) returns (version: nat)
      modifies this
      ensures version == |old(approvedPcrs)|
      ensures approvedPcrs == old(approvedPcrs) + [PcrSet(pcr0, pcr1, pcr2, codeRef, false)]
    {
      version := |approvedPcrs|;
      approvedPcrs := approvedPcrs + [PcrSet(pcr0, pcr1, pcr2, codeRef, false)];
    }

    method RevokePcrs(version: nat) returns (r: Result<(), Abort>)
      modifies this
      ensures version < |old(approvedPcrs)| ==>
                r.Ok? && approvedPcrs == old(approvedPcrs)[version := old(approvedPcrs)[version].(revoked := true)]
      ensures version >= |old(approvedPcrs)| ==> r == Err(EntryIndexOutOfBounds) && approvedPcrs == old(approvedPcrs)
    {
      if version >= |approvedPcrs| {
        return Err(EntryIndexOutOfBounds);
      }
      approvedPcrs := approvedPcrs[version := approvedPcrs[version].(revoked := true)];
      r := Ok(());
    }

    method FindMatchingEntry(t: Triple) returns (found: Option<nat>)
      ensures found == FirstMatch(approvedPcrs, t)
    {
      var n := |approvedPcrs|;
      var i := 0;
      found := None;
      while i < n
        invariant 0 <= i <= n && found.None?
        invariant forall j :: 0 <= j < i ==> TripleOf(approvedPcrs[j]) != t
      {
        if TripleOf(approvedPcrs[i]) == t {
          found := Some(i);
          break;
        }
        i := i + 1;
      }
    }

    method ValidateAndFindVersion(nonce: seq<byte>, expectedSender: seq<byte>, t: Triple)
      returns (r: Result<nat, Abort>)
      ensures r == ValidVersion(approvedPcrs, nonce, expectedSender, t)
    {
      if nonce != expectedSender { return Err(NonceNotSender); }
      var version := FindMatchingEntry(t);
      if version.None? { return Err(PcrsNotApproved); }
      if approvedPcrs[version.value].revoked { return Err(PcrsRevoked); }
      r := Ok(version.value);
    }

    method Register(doc: Document, sender: Address) returns (r: Result<Gateway, Abort>)
      ensures r == Registered(approvedPcrs, doc, sender)
    {
      var pcr0 := PcrByIndex(doc.pcrs, 0);
      if pcr0.Err? { return Err(pcr0.error); }
      var pcr1 := PcrByIndex(doc.pcrs, 1);
      if pcr1.Err? { return Err(pcr1.error); }
      var pcr2 := PcrByIndex(doc.pcrs, 2);
      if pcr2.Err? { return Err(pcr2.error); }
      if doc.nonce.None? { return Err(NonceNotSender); }
      var version := ValidateAndFindVersion(doc.nonce.value, sender, Triple(pcr0.value, pcr1.value, pcr2.value));
      if version.Err? { return Err(version.error); }
      if doc.publicKey.None? { return Err(MissingPublicKey); }
      r := Ok(Gateway(doc.publicKey.value, version.value, sender, doc.timestamp));
    }
  }

  // --- Verification ------------------------------------------------------------------------

  /** `receipt::verify`: the event it emits, or why it aborts. */
  function Verified(
    entries: seq<PcrSet>, signed: set<Signature>, id: nat, g: Gateway, timestampMs: nat, receipt: Receipt,
    sig: seq<byte>, verifier: Address, now: nat): Result<ReceiptVerified, Abort>
    requires g.pcrVersion < |entries|
  {
    if entries[g.pcrVersion].revoked then Err(RevokedGateway)
    else if Signature(g.pk, MessageBytes(timestampMs, receipt), sig) !in signed then Err(InvalidSignature)
    else Ok(ReceiptVerified(id, g.operator, verifier, g.pcrVersion, receipt, timestampMs, now))
  }

  /** The chain's event log. */
  class EventLog {
    var events: seq<ReceiptVerified>

    constructor ()
      ensures events == []
    {
      events := [];
    }

    /** `receipt::verify`; `signed` is what the native signature check accepts. */
    method Verify(
      checkpoint: Checkpoint, signed: set<Signature>, id: nat, g: Gateway, timestampMs: nat, receipt: Receipt,
      sig: seq<byte>, verifier: Address, now: nat) returns (r: Result<Receipt, Abort>)
      requires g.pcrVersion < |checkpoint.approvedPcrs|
      modifies this
      ensures var v := Verified(checkpoint.approvedPcrs, signed, id, g, timestampMs, receipt, sig, verifier, now);
              if v.Ok? then r == Ok(receipt) && events == old(events) + [v.value]
              else r == Err(v.error) && events == old(events)
    {
      if checkpoint.approvedPcrs[g.pcrVersion].revoked { return Err(RevokedGateway); }
      var signedBytes := MessageBytes(timestampMs, receipt);
      if Signature(g.pk, signedBytes, sig) !in signed { return Err(InvalidSignature); }
      events := events + [ReceiptVerified(id, g.operator, verifier, g.pcrVersion, receipt, timestampMs, now)];
      r := Ok(receipt);
    }
  }
}
