/**
  The receipt's bytes, one by one: where each field of the payload stands in the
  signed message, and how its lengths and integers are written.
*/
module ReceiptLayout {
  import opened Prelude
  import opened Bcs
  import opened Receipts

  // --- Length prefixes -----------------------------------------------------------------

  /** `n` without its lowest `i` digits in a base. */
  function Shifted(base: nat, n: nat, i: nat): nat
    requires base > 0
  {
    if i == 0 then n else Shifted(base, n, i - 1) / base
  }

  lemma {:induction false} ShiftedFirst(base: nat, n: nat, i: nat)
    requires base > 0 && i > 0
    ensures Shifted(base, n, i) == Shifted(base, n / base, i - 1)
  {
    if i > 1 {
      ShiftedFirst(base, n, i - 1);
    }
  }

  /** Each byte of a prefix has its seven bits of the length, and the top bit but for the last. */
  lemma {:induction false} PrefixBytes(n: nat, i: nat)
    requires i < |Uleb128(n)|
    ensures Uleb128(n)[i] == Shifted(128, n, i) % 128 + if i < |Uleb128(n)| - 1 then 128 else 0
    decreases i
  {
    if i > 0 {
      PrefixBytes(n / 128, i - 1);
      ShiftedFirst(128, n, i);
      assert Uleb128(n)[1..] == Uleb128(n / 128);
    }
  }

  /** A prefix is as short as it can be: its bytes hold all bits of the length, and the last one is needed. */
  lemma {:induction false} PrefixIsShortest(n: nat)
    ensures Shifted(128, n, |Uleb128(n)|) == 0
    ensures |Uleb128(n)| > 1 ==> Shifted(128, n, |Uleb128(n)| - 1) != 0
    ensures forall i :: 0 <= i < |Uleb128(n)| - 1 ==> Uleb128(n)[i] >= 128
    ensures Uleb128(n)[|Uleb128(n)| - 1] < 128
    ensures |Uleb128(n)| > 1 ==> Uleb128(n)[|Uleb128(n)| - 1] != 0
  {
    if n < 128 {
      assert Shifted(128, n, 1) == Shifted(128, n, 0) / 128;
    } else {
      PrefixIsShortest(n / 128);
      var s, rest := Uleb128(n), Uleb128(n / 128);
      assert s[1..] == rest;
      ShiftedFirst(128, n, |s|);
      ShiftedFirst(128, n, |s| - 1);
      assert |rest| == 1 ==> Shifted(128, n / 128, 0) != 0;
      forall i | 0 <= i < |s| - 1 ensures s[i] >= 128 {
        assert i > 0 ==> s[i] == rest[i - 1];
      }
      if |rest| == 1 {
        PrefixBytes(n / 128, 0);
        assert Shifted(128, n / 128, 1) == Shifted(128, n / 128, 0) / 128;
      }
    }
  }

  /** Any other prefix that reads as this length is longer. */
  lemma {:induction false} OtherPrefixesAreLonger(n: nat, s: seq<byte>)
    requires ReadUleb128(s) == Some((n, []))
    ensures s == Uleb128(n) || |s| > |Uleb128(n)|
    decreases |s|
  {
    if s[0] >= 128 {
      var high := ReadUleb128(s[1..]).value.0;
      OtherPrefixesAreLonger(high, s[1..]);
      assert s == [s[0]] + s[1..];
      if n < 128 {
        assert |Uleb128(n)| == 1;
      }
    } else {
      assert s[1..] == [];
    }
  }

  // --- Integers --------------------------------------------------------------------------

  /** Byte `i` of an integer is its digit `i` in base 256. */
  lemma {:induction false} IntegerBytes(w: nat, n: nat, i: nat)
    requires i < w
    ensures LittleEndian(w, n)[i] == Shifted(256, n, i) % 256
    decreases i
  {
    if i > 0 {
      IntegerBytes(w - 1, n / 256, i - 1);
      ShiftedFirst(256, n, i);
      assert LittleEndian(w, n)[1..] == LittleEndian(w - 1, n / 256);
    }
  }

  // --- The message -----------------------------------------------------------------------

  lemma {:induction false} WrittenUpTo(fields: seq<Field>, k: nat)
    requires k < |fields|
    ensures Write(fields[..k + 1]) == Write(fields[..k]) + WriteField(fields[k])
  {
    assert fields[..k + 1] == fields[..k] + [fields[k]];
    WriteSnoc(fields[..k], fields[k]);
  }

  lemma {:induction false} NextSeven(fields: seq<Field>, k: nat)
    requires k + 7 <= |fields|
    ensures Write(fields[..k + 7])
         == Write(fields[..k]) + WriteField(fields[k]) + WriteField(fields[k + 1]) + WriteField(fields[k + 2])
            + WriteField(fields[k + 3]) + WriteField(fields[k + 4]) + WriteField(fields[k + 5]) + WriteField(fields[k + 6])
  {
    hide Write, WriteField;
    WrittenUpTo(fields, k);
    WrittenUpTo(fields, k + 1);
    WrittenUpTo(fields, k + 2);
    WrittenUpTo(fields, k + 3);
    WrittenUpTo(fields, k + 4);
    WrittenUpTo(fields, k + 5);
    WrittenUpTo(fields, k + 6);
  }

  lemma {:induction false} NextFive(fields: seq<Field>, k: nat)
    requires k + 5 <= |fields|
    ensures Write(fields[..k + 5])
         == Write(fields[..k]) + WriteField(fields[k]) + WriteField(fields[k + 1]) + WriteField(fields[k + 2])
            + WriteField(fields[k + 3]) + WriteField(fields[k + 4])
  {
    hide Write, WriteField;
    WrittenUpTo(fields, k);
    WrittenUpTo(fields, k + 1);
    WrittenUpTo(fields, k + 2);
    WrittenUpTo(fields, k + 3);
    WrittenUpTo(fields, k + 4);
  }

  function Prefixed(s: seq<byte>): seq<byte> {
    Uleb128(|s|) + s
  }

  /** Intent, timestamp, identity and connection: the bytes before the first blob id. */
  function Front(p: Payload, t: U64): seq<byte> {
    [0] + LittleEndian(8, t) + ([16] + p.receiptId) + ([32] + p.configHash) + [p.provider]
    + Prefixed(p.endpointHost) + ([32] + p.tlsCertSha256)
  }

  lemma {:induction false} ScalarsWritten(b: byte, n: nat)
    ensures WriteField(U8(b)) == [b] && WriteField(U64(n)) == LittleEndian(8, n)
  {}

  lemma {:induction false} BytesWritten(s: seq<byte>)
    ensures WriteField(Bytes(s)) == Prefixed(s)
    ensures |s| < 128 ==> WriteField(Bytes(s)) == [|s|] + s
  {}

  /** The payload's bytes and integers are those of the receipt on chain. */
  lemma {:induction false} ChainFields(p: Payload)
    ensures var r := OnChain(p);
            && r.receiptId == p.receiptId && r.configHash == p.configHash && r.provider == p.provider
            && r.endpointHost == p.endpointHost && r.tlsCertSha256 == p.tlsCertSha256
            && r.upstreamHeadersHash == p.upstreamHeadersHash && r.modelId == p.modelId
            && r.providerRequestId == p.providerRequestId && r.providerMetaHash == p.providerMetaHash
            && r.inputTokens == p.inputTokens && r.cacheCreationTokens == p.cacheCreationTokens
            && r.cacheReadTokens == p.cacheReadTokens && r.outputTokens == p.outputTokens && r.outcome == p.outcome
  {}

  lemma {:induction false} FieldBytes(p: Payload, t: U64)
    ensures var fields := MessageFields(t, OnChain(p));
            && |fields| == 19
            && WriteField(fields[0]) == [0] && WriteField(fields[1]) == LittleEndian(8, t)
            && WriteField(fields[2]) == [16] + p.receiptId && WriteField(fields[3]) == [32] + p.configHash
            && WriteField(fields[4]) == [p.provider] && WriteField(fields[5]) == Prefixed(p.endpointHost)
            && WriteField(fields[6]) == [32] + p.tlsCertSha256
            && WriteField(fields[9]) == [32] + p.upstreamHeadersHash && WriteField(fields[10]) == Prefixed(p.modelId)
            && WriteField(fields[11]) == Prefixed(p.providerRequestId)
            && WriteField(fields[13]) == [32] + p.providerMetaHash
            && WriteField(fields[14]) == LittleEndian(8, p.inputTokens)
            && WriteField(fields[15]) == LittleEndian(8, p.cacheCreationTokens)
            && WriteField(fields[16]) == LittleEndian(8, p.cacheReadTokens)
            && WriteField(fields[17]) == LittleEndian(8, p.outputTokens) && WriteField(fields[18]) == [p.outcome]
  {
    hide WriteField, OnChain;
    ScalarsWritten(0, t);
    ScalarsWritten(p.provider, p.inputTokens);
    ScalarsWritten(p.outcome, p.cacheCreationTokens);
    ScalarsWritten(p.outcome, p.cacheReadTokens);
    ScalarsWritten(p.outcome, p.outputTokens);
    BytesWritten(p.receiptId);
    BytesWritten(p.configHash);
    BytesWritten(p.endpointHost);
    BytesWritten(p.tlsCertSha256);
    BytesWritten(p.upstreamHeadersHash);
    BytesWritten(p.modelId);
    BytesWritten(p.providerRequestId);
    BytesWritten(p.providerMetaHash);
    ChainFields(p);
  }

  /** A blob id is copied without a prefix. */
  lemma {:induction false} BlobBytes(p: Payload, t: U64)
    ensures var fields := MessageFields(t, OnChain(p));
            && |fields| == 19
            && WriteField(fields[7]) == p.requestBlob && WriteField(fields[8]) == p.upstreamRequestBlob
            && WriteField(fields[12]) == p.responseBlob
  {
    FromLittleEndianRoundTrip(p.requestBlob);
    FromLittleEndianRoundTrip(p.upstreamRequestBlob);
    FromLittleEndianRoundTrip(p.responseBlob);
    hide LittleEndian, FromLittleEndian;
  }

  lemma {:induction false} FrontIsWritten(p: Payload, t: U64)
    ensures Write(MessageFields(t, OnChain(p))[..7]) == Front(p, t)
  {
    var fields := MessageFields(t, OnChain(p));
    FieldBytes(p, t);
    WriteNothing(fields);
    hide Write, WriteField, MessageFields, LittleEndian, Prefixed;
    NextSeven(fields, 0);
    assert [] + [0 as byte] == [0];
  }

  lemma {:induction false} WriteNothing(fields: seq<Field>)
    ensures Write(fields[..0]) == []
  {}

  lemma {:induction false} MiddleIsWritten(p: Payload, t: U64)
    ensures Write(MessageFields(t, OnChain(p))[..14])
         == Front(p, t) + p.requestBlob + p.upstreamRequestBlob + ([32] + p.upstreamHeadersHash)
            + Prefixed(p.modelId) + Prefixed(p.providerRequestId) + p.responseBlob + ([32] + p.providerMetaHash)
  {
    var fields := MessageFields(t, OnChain(p));
    FieldBytes(p, t);
    BlobBytes(p, t);
    FrontIsWritten(p, t);
    hide Write, WriteField, MessageFields, Front, Prefixed;
    NextSeven(fields, 7);
  }

  /** What the enclave signs, byte by byte. */
  lemma {:induction false} MessageLayout(p: Payload, t: U64)
    ensures MessageBytes(t, OnChain(p))
         == [0] + LittleEndian(8, t) + ([16] + p.receiptId) + ([32] + p.configHash) + [p.provider]
            + Prefixed(p.endpointHost) + ([32] + p.tlsCertSha256)
            + p.requestBlob + p.upstreamRequestBlob + ([32] + p.upstreamHeadersHash) + Prefixed(p.modelId)
            + Prefixed(p.providerRequestId) + p.responseBlob + ([32] + p.providerMetaHash)
            + LittleEndian(8, p.inputTokens) + LittleEndian(8, p.cacheCreationTokens)
            + LittleEndian(8, p.cacheReadTokens) + LittleEndian(8, p.outputTokens) + [p.outcome]
  {
    var fields := MessageFields(t, OnChain(p));
    FieldBytes(p, t);
    MiddleIsWritten(p, t);
    NextFive(fields, 14);
    assert fields[..19] == fields;
    hide Write, WriteField, MessageFields, LittleEndian, Prefixed;
  }
  // --- The reference vectors -------------------------------------------------------------

  /** An eight-byte integer, written out. */
  lemma {:induction false} EightBytes(n: nat)
    ensures LittleEndian(8, n)
         == [n % 256, n / 0x100 % 256, n / 0x1_0000 % 256, n / 0x100_0000 % 256, n / 0x1_0000_0000 % 256,
             n / 0x100_0000_0000 % 256, n / 0x1_0000_0000_0000 % 256, n / 0x100_0000_0000_0000 % 256]
  {
    var a, b, c, d := n / 256, n / 0x1_0000, n / 0x100_0000, n / 0x1_0000_0000;
    var e, f, g := n / 0x100_0000_0000, n / 0x1_0000_0000_0000, n / 0x100_0000_0000_0000;
    assert a / 256 == b && b / 256 == c && c / 256 == d && d / 256 == e && e / 256 == f && f / 256 == g;
    assert LittleEndian(2, f) == [f % 256, g % 256];
    assert LittleEndian(4, d) == [d % 256, e % 256] + LittleEndian(2, f);
    assert LittleEndian(6, b) == [b % 256, c % 256] + LittleEndian(4, d);
    assert LittleEndian(8, n) == [n % 256, a % 256] + LittleEndian(6, b);
  }

  /** The timestamp of the nominal vector, the largest counter, and the prefixes of 17, 127, 128 and 200 bytes. */
  lemma {:induction false} VectorNumbers()
    ensures LittleEndian(8, 1786767276534) == [0xF6, 0xF9, 0xA0, 0x03, 0xA0, 0x01, 0x00, 0x00]
    ensures LittleEndian(8, 0xFFFF_FFFF_FFFF_FFFF) == [0xFF, 0xFF, 0xFF, 0xFF, 0xFF, 0xFF, 0xFF, 0xFF]
    ensures Uleb128(17) == [0x11] && Uleb128(127) == [0x7F]
    ensures Uleb128(128) == [0x80, 0x01] && Uleb128(200) == [0xC8, 0x01]
  {
    hide LittleEndian;
    EightBytes(1786767276534);
    EightBytes(0xFFFF_FFFF_FFFF_FFFF);
  }
}
