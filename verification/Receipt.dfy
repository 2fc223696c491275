/** The signed receipt: its on-chain layout, and the enclave's hand-written serializer. */
module Receipts {
  import opened Prelude
  import opened Bcs

  const RECEIPT_INTENT: byte := 0

  // --- On-chain ------------------------------------------------------------------

  /** The payload as the contract sees it: vectors and strings of any length. */
  datatype Receipt = Receipt(
    receiptId: seq<byte>,
    configHash: seq<byte>,
    provider: byte,
    endpointHost: seq<byte>,
    tlsCertSha256: seq<byte>,
    requestBlob: nat,
    upstreamRequestBlob: nat,
    upstreamHeadersHash: seq<byte>,
    modelId: seq<byte>,
    providerRequestId: seq<byte>,
    responseBlob: nat,
    providerMetaHash: seq<byte>,
    inputTokens: nat,
    cacheCreationTokens: nat,
    cacheReadTokens: nat,
    outputTokens: nat,
    outcome: byte)

  /** The integers fit the contract's types. */
  predicate InTypes(timestampMs: nat, r: Receipt) {
    && timestampMs < Limit(8)
    && r.requestBlob < Limit(32) && r.upstreamRequestBlob < Limit(32) && r.responseBlob < Limit(32)
    && r.inputTokens < Limit(8) && r.cacheCreationTokens < Limit(8)
    && r.cacheReadTokens < Limit(8) && r.outputTokens < Limit(8)
  }

  /** `IntentMessage<Receipt>` in field order. */
  function MessageFields(timestampMs: nat, r: Receipt): seq<Field> {
    [U8(RECEIPT_INTENT), U64(timestampMs),
     Bytes(r.receiptId), Bytes(r.configHash), U8(r.provider), Bytes(r.endpointHost), Bytes(r.tlsCertSha256),
     U256(r.requestBlob), U256(r.upstreamRequestBlob), Bytes(r.upstreamHeadersHash), Bytes(r.modelId),
     Bytes(r.providerRequestId), U256(r.responseBlob), Bytes(r.providerMetaHash),
     U64(r.inputTokens), U64(r.cacheCreationTokens), U64(r.cacheReadTokens), U64(r.outputTokens), U8(r.outcome)]
  }

  /** `bcs::to_bytes(&intent_message)`: what `verify` checks the signature over. */
  function MessageBytes(timestampMs: nat, r: Receipt): seq<byte> {
    Write(MessageFields(timestampMs, r))
  }

  const MESSAGE_KINDS: seq<Kind> :=
    [KU8, KU64, KBytes, KBytes, KU8, KBytes, KBytes, KU256, KU256, KBytes, KBytes, KBytes, KU256, KBytes,
     KU64, KU64, KU64, KU64, KU8]

  /** The message a list of fields stands for, if it has the right fields. */
  function Assemble(f: seq<Field>): Option<(nat, Receipt)> {
    if |f| == 19 && f[0] == U8(RECEIPT_INTENT) && f[1].U64? && f[2].Bytes? && f[3].Bytes? && f[4].U8?
       && f[5].Bytes? && f[6].Bytes? && f[7].U256? && f[8].U256? && f[9].Bytes? && f[10].Bytes? && f[11].Bytes?
       && f[12].U256? && f[13].Bytes? && f[14].U64? && f[15].U64? && f[16].U64? && f[17].U64? && f[18].U8?
    then
      Some((f[1].n,
            Receipt(f[2].bytes, f[3].bytes, f[4].b, f[5].bytes, f[6].bytes, f[7].big, f[8].big, f[9].bytes,
                    f[10].bytes, f[11].bytes, f[12].big, f[13].bytes, f[14].n, f[15].n, f[16].n, f[17].n, f[18].b)))
    else None
  }

  /** Reads a message back from the front of a byte string. */
  function ReadMessage(s: seq<byte>): Option<(nat, Receipt, seq<byte>)> {
    match Read(MESSAGE_KINDS, s)
    case None => None
    case Some((fields, rest)) =>
      match Assemble(fields)
      case None => None
      case Some((t, r)) => Some((t, r, rest))
  }

  lemma AssembleMessage(timestampMs: nat, r: Receipt)
    ensures Assemble(MessageFields(timestampMs, r)) == Some((timestampMs, r))
  {}

  lemma MessageKinds(timestampMs: nat, r: Receipt)
    ensures KindsOf(MessageFields(timestampMs, r)) == MESSAGE_KINDS
  {
    KindsAt(MessageFields(timestampMs, r));
  }

  lemma MessageInRange(timestampMs: nat, r: Receipt)
    requires InTypes(timestampMs, r)
    ensures AllInRange(MessageFields(timestampMs, r))
  {}

  lemma {:induction false} KindsAt(fields: seq<Field>)
    ensures forall i :: 0 <= i < |fields| ==> KindsOf(fields)[i] == KindOf(fields[i])
  {
    if fields != [] {
      KindsAt(fields[1..]);
      forall i | 0 <= i < |fields| ensures KindsOf(fields)[i] == KindOf(fields[i]) {
        if i > 0 {
          assert KindsOf(fields)[i] == KindsOf(fields[1..])[i - 1];
        }
      }
    }
  }

  /** The serialization has a left inverse, whatever follows the message. */
  lemma MessageRoundTrip(timestampMs: nat, r: Receipt, rest: seq<byte>)
    requires InTypes(timestampMs, r)
    ensures ReadMessage(MessageBytes(timestampMs, r) + rest) == Some((timestampMs, r, rest))
  {
    MessageKinds(timestampMs, r);
    MessageInRange(timestampMs, r);
    AssembleMessage(timestampMs, r);
    WriteRoundTrip(MessageFields(timestampMs, r), rest);
  }

  /** Two messages with the same bytes, or one a prefix of the other, are the same message. */
  lemma MessagesAreInjective(t: nat, r: Receipt, rest: seq<byte>, t': nat, r': Receipt, rest': seq<byte>)
    requires InTypes(t, r) && InTypes(t', r')
    requires MessageBytes(t, r) + rest == MessageBytes(t', r') + rest'
    ensures t == t' && r == r' && rest == rest'
  {
    MessageRoundTrip(t, r, rest);
    MessageRoundTrip(t', r', rest');
  }

  // --- In the enclave --------------------------------------------------------------

  type Bytes16 = s: seq<byte> | |s| == 16 witness seq(16, _ => 0)
  type Bytes32 = s: seq<byte> | |s| == 32 witness seq(32, _ => 0)

  /** The payload the enclave signs: fixed-length ids and hashes, blob ids as 32 raw bytes, strings as UTF-8. */
  datatype Payload = Payload(
    receiptId: Bytes16,
    configHash: Bytes32,
    provider: byte,
    endpointHost: seq<byte>,
    tlsCertSha256: Bytes32,
    requestBlob: Bytes32,
    upstreamRequestBlob: Bytes32,
    upstreamHeadersHash: Bytes32,
    modelId: seq<byte>,
    providerRequestId: seq<byte>,
    responseBlob: Bytes32,
    providerMetaHash: Bytes32,
    inputTokens: U64,
    cacheCreationTokens: U64,
    cacheReadTokens: U64,
    outputTokens: U64,
    outcome: byte)

  /** The on-chain receipt a payload stands for: blob ids read as little-endian integers. */
  function OnChain(p: Payload): Receipt {
    Receipt(
      p.receiptId, p.configHash, p.provider, p.endpointHost, p.tlsCertSha256,
      FromLittleEndian(p.requestBlob), FromLittleEndian(p.upstreamRequestBlob), p.upstreamHeadersHash,
      p.modelId, p.providerRequestId, FromLittleEndian(p.responseBlob), p.providerMetaHash,
      p.inputTokens, p.cacheCreationTokens, p.cacheReadTokens, p.outputTokens, p.outcome)
  }

  lemma OnChainInTypes(p: Payload, timestampMs: U64)
    ensures InTypes(timestampMs, OnChain(p))
  {
    U64Limit();
    FromLittleEndianRoundTrip(p.requestBlob);
    FromLittleEndianRoundTrip(p.upstreamRequestBlob);
    FromLittleEndianRoundTrip(p.responseBlob);
  }

  lemma U64Limit()
    ensures Limit(8) == 0x1_0000_0000_0000_0000
  {
    assert Limit(2) == 256 * Limit(1) && Limit(3) == 256 * Limit(2) && Limit(4) == 256 * Limit(3);
    assert Limit(5) == 256 * Limit(4) && Limit(6) == 256 * Limit(5) && Limit(7) == 256 * Limit(6);
  }

  /** Distinct payloads are distinct on-chain receipts. */
  lemma OnChainInjective(p: Payload, q: Payload)
    requires OnChain(p) == OnChain(q)
    ensures p == q
  {
    FromLittleEndianRoundTrip(p.requestBlob);
    FromLittleEndianRoundTrip(q.requestBlob);
    FromLittleEndianRoundTrip(p.upstreamRequestBlob);
    FromLittleEndianRoundTrip(q.upstreamRequestBlob);
    FromLittleEndianRoundTrip(p.responseBlob);
    FromLittleEndianRoundTrip(q.responseBlob);
  }

  /** The bytes signed for two payloads agree only if the payloads and timestamps do. */
  lemma SignedBytesInjective(p: Payload, t: U64, q: Payload, t': U64)
    requires MessageBytes(t, OnChain(p)) == MessageBytes(t', OnChain(q))
    ensures p == q && t == t'
  {
    OnChainInTypes(p, t);
    OnChainInTypes(q, t');
    assert MessageBytes(t, OnChain(p)) + [] == MessageBytes(t', OnChain(q)) + [];
    MessagesAreInjective(t, OnChain(p), [], t', OnChain(q), []);
    OnChainInjective(p, q);
  }

  /** The growing output of the serializer, and the fields it holds so far. */
  class ByteBuffer {
    var bytes: seq<byte>
    ghost var fields: seq<Field>

    ghost predicate Valid()
      reads this
    {
      bytes == Write(fields)
    }

    constructor ()
      ensures Valid() && fields == []
    {
      bytes, fields := [], [];
    }

    method Push(b: byte)
      requires Valid()
      modifies this
      ensures Valid() && fields == old(fields) + [U8(b)]
    {
      WriteSnoc(fields, U8(b));
      bytes, fields := bytes + [b], fields + [U8(b)];
    }

    /** `extend_from_slice(&n.to_le_bytes())`. */
    method ExtendU64(n: U64)
      requires Valid()
      modifies this
      ensures Valid() && fields == old(fields) + [U64(n)]
    {
      WriteSnoc(fields, U64(n));
      bytes, fields := bytes + LittleEndian(8, n), fields + [U64(n)];
    }

    /** `write_uleb128`: one byte at least, until no bits are left. */
    method WriteUleb128(value: nat)
      modifies this`bytes
      ensures bytes == old(bytes) + Uleb128(value)
    {
      var left := value;
      var more := true;
      while more
        invariant more ==> old(bytes) + Uleb128(value) == bytes + Uleb128(left)
        invariant !more ==> bytes == old(bytes) + Uleb128(value)
        decreases more, left
      {
        var low := left % 128;
        var high := left / 128;
        var b: int := if high != 0 then low + 128 else low;
        Associative(bytes, [b as byte], Uleb128(high));
        bytes := bytes + [b as byte];
        left := high;
        more := left != 0;
      }
    }

    method WriteBcsBytes(value: seq<byte>)
      requires Valid()
      modifies this
      ensures Valid() && fields == old(fields) + [Bytes(value)]
    {
      WriteSnoc(fields, Bytes(value));
      Associative(bytes, Uleb128(|value|), value);
      WriteUleb128(|value|);
      bytes, fields := bytes + value, fields + [Bytes(value)];
    }

    /** A 32-byte integer, already little-endian: copied without a length prefix. */
    method WriteU256Le(value: Bytes32)
      requires Valid()
      modifies this
      ensures Valid() && fields == old(fields) + [U256(FromLittleEndian(value))]
    {
      FromLittleEndianRoundTrip(value);
      WriteSnoc(fields, U256(FromLittleEndian(value)));
      bytes, fields := bytes + value, fields + [U256(FromLittleEndian(value))];
    }
  }

  function HeadFields(p: Payload, timestampMs: U64): seq<Field> {
    [U8(RECEIPT_INTENT), U64(timestampMs), Bytes(p.receiptId), Bytes(p.configHash), U8(p.provider),
     Bytes(p.endpointHost), Bytes(p.tlsCertSha256)]
  }

  function ContentFields(p: Payload): seq<Field> {
    [U256(FromLittleEndian(p.requestBlob)), U256(FromLittleEndian(p.upstreamRequestBlob)),
     Bytes(p.upstreamHeadersHash), Bytes(p.modelId), Bytes(p.providerRequestId),
     U256(FromLittleEndian(p.responseBlob)), Bytes(p.providerMetaHash)]
  }

  function UsageFields(p: Payload): seq<Field> {
    [U64(p.inputTokens), U64(p.cacheCreationTokens), U64(p.cacheReadTokens), U64(p.outputTokens), U8(p.outcome)]
  }

  method WriteHead(buf: ByteBuffer, p: Payload, timestampMs: U64)
    requires buf.Valid()
    modifies buf
    ensures buf.Valid() && buf.fields == old(buf.fields) + HeadFields(p, timestampMs)
  {
    buf.Push(RECEIPT_INTENT);
    buf.ExtendU64(timestampMs);
    buf.WriteBcsBytes(p.receiptId);
    buf.WriteBcsBytes(p.configHash);
    buf.Push(p.provider);
    buf.WriteBcsBytes(p.endpointHost);
    buf.WriteBcsBytes(p.tlsCertSha256);
  }

  method WriteContent(buf: ByteBuffer, p: Payload)
    requires buf.Valid()
    modifies buf
    ensures buf.Valid() && buf.fields == old(buf.fields) + ContentFields(p)
  {
    buf.WriteU256Le(p.requestBlob);
    buf.WriteU256Le(p.upstreamRequestBlob);
    buf.WriteBcsBytes(p.upstreamHeadersHash);
    buf.WriteBcsBytes(p.modelId);
    buf.WriteBcsBytes(p.providerRequestId);
    buf.WriteU256Le(p.responseBlob);
    buf.WriteBcsBytes(p.providerMetaHash);
  }

  method WriteUsage(buf: ByteBuffer, p: Payload)
    requires buf.Valid()
    modifies buf
    ensures buf.Valid() && buf.fields == old(buf.fields) + UsageFields(p)
  {
    buf.ExtendU64(p.inputTokens);
    buf.ExtendU64(p.cacheCreationTokens);
    buf.ExtendU64(p.cacheReadTokens);
    buf.ExtendU64(p.outputTokens);
    buf.Push(p.outcome);
  }

  /** `serialize_intent_message`: the enclave's bytes are the contract's bytes. */
  method SerializeIntentMessage(p: Payload, timestampMs: U64) returns (bytes: seq<byte>)
    ensures bytes == MessageBytes(timestampMs, OnChain(p))
  {
    var buf := new ByteBuffer();
    WriteHead(buf, p, timestampMs);
    WriteContent(buf, p);
    WriteUsage(buf, p);
    assert buf.fields == MessageFields(timestampMs, OnChain(p));
    bytes := buf.bytes;
  }
}
