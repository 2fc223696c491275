/**
  What the enclave serves for a receipt, and how a client rebuilds the signed
  bytes from it: hex for byte fields, little-endian hex for blob ids.
*/
module SdkReceipt {
  import opened Prelude
  import opened Bcs
  import opened Receipts
  import Hex

  /** A receipt as stored and served: byte fields as lower-case hex. */
  datatype StoredReceipt = StoredReceipt(
    receiptId: string,
    timestampMs: U64,
    configHash: string,
    provider: byte,
    endpointHost: seq<byte>,
    tlsCertSha256: string,
    requestBlob: string,
    upstreamRequestBlob: string,
    upstreamHeadersHash: string,
    modelId: seq<byte>,
    providerRequestId: seq<byte>,
    responseBlob: string,
    providerMetaHash: string,
    inputTokens: U64,
    cacheCreationTokens: U64,
    cacheReadTokens: U64,
    outputTokens: U64,
    outcome: byte,
    signature: string)

  /** `StoredReceipt::new`. */
  function Store(p: Payload, timestampMs: U64, signature: seq<byte>): StoredReceipt {
    StoredReceipt(
      Hex.Encode(p.receiptId), timestampMs, Hex.Encode(p.configHash), p.provider, p.endpointHost,
      Hex.Encode(p.tlsCertSha256), Hex.Encode(p.requestBlob), Hex.Encode(p.upstreamRequestBlob),
      Hex.Encode(p.upstreamHeadersHash), p.modelId, p.providerRequestId, Hex.Encode(p.responseBlob),
      Hex.Encode(p.providerMetaHash), p.inputTokens, p.cacheCreationTokens, p.cacheReadTokens, p.outputTokens,
      p.outcome, Hex.Encode(signature))
  }

  /** The client's receipt: byte fields as hex strings, blob ids and counters as integers. */
  datatype ClientReceipt = ClientReceipt(
    receiptId: string,
    configHash: string,
    provider: byte,
    endpointHost: seq<byte>,
    tlsCertSha256: string,
    requestBlob: nat,
    upstreamRequestBlob: nat,
    upstreamHeadersHash: string,
    modelId: seq<byte>,
    providerRequestId: seq<byte>,
    responseBlob: nat,
    providerMetaHash: string,
    inputTokens: nat,
    cacheCreationTokens: nat,
    cacheReadTokens: nat,
    outputTokens: nat,
    outcome: byte)

  // --- Blob ids --------------------------------------------------------------------

  predicate IsDigits(s: string) {
    s != "" && forall i :: 0 <= i < |s| ==> '0' <= s[i] <= '9'
  }

  predicate IsHexChars(s: string) {
    s != "" && Hex.IsHex(s)
  }

  /** `BigInt(value)` of a string of decimal digits. */
  function Decimal(s: string): nat
    requires forall i :: 0 <= i < |s| ==> '0' <= s[i] <= '9'
  {
    if s == "" then 0 else Decimal(s[..|s| - 1]) * 10 + (s[|s| - 1] as int - '0' as int)
  }

  /** One more digit at the end: ten times as much, and the digit. */
  lemma {:induction false} DecimalSnoc(s: string, d: nat)
    requires d < 10 && forall i :: 0 <= i < |s| ==> '0' <= s[i] <= '9'
    ensures var digit := "0123456789"[d];
            '0' <= digit <= '9' && Decimal("") == 0 && Decimal(s + [digit]) == 10 * Decimal(s) + d
  {
    var digit := "0123456789"[d];
    assert (s + [digit])[..|s|] == s;
  }

  /** `parseInt(pair, 16)`. */
  function PairValue(high: char, low: char): nat
    requires Hex.DigitValue(high).Some? && Hex.DigitValue(low).Some?
  {
    Hex.DigitValue(high).value * 16 + Hex.DigitValue(low).value
  }

  /** The integer whose bytes, least significant first, are the digit pairs of `hex`; an odd first digit is skipped. */
  function HexLittleEndian(hex: string): nat
    requires Hex.IsHex(hex)
  {
    if |hex| < 2 then 0
    else if |hex| % 2 == 1 then HexLittleEndian(hex[1..])
    else PairValue(hex[0], hex[1]) + 256 * HexLittleEndian(hex[2..])
  }

  /** `parseBlobId`: the wire form or a "0x" form is little-endian hex, other digit strings are decimal. */
  function BlobId(value: string): Option<nat> {
    var prefixed := "0x" <= value;
    var hex := if prefixed then value[2..] else value;
    if IsHexChars(hex) && (prefixed || |hex| == 64) then Some(HexLittleEndian(hex))
    else if IsDigits(value) then Some(Decimal(value))
    else None
  }

  method ParseBlobId(value: string) returns (r: Option<nat>)
    ensures r == BlobId(value)
  {
    var prefixed := "0x" <= value;
    var hex := if prefixed then value[2..] else value;
    if IsHexChars(hex) && (prefixed || |hex| == 64) {
      var out := ReadPairs(hex);
      return Some(out);
    }
    if IsDigits(value) {
      return Some(Decimal(value));
    }
    r := None;
  }

  /** The loop of `parseBlobId`: from the last pair, the most significant, to the first. */
  method ReadPairs(hex: string) returns (out: nat)
    requires Hex.IsHex(hex)
    ensures out == HexLittleEndian(hex)
  {
    hide HexLittleEndian, PairValue, Hex.DigitValue;
    out := 0;
    var i := |hex| - 2;
    PairsEnd(hex);
    while i >= 0
      invariant -2 <= i <= |hex| - 2 && (|hex| - i) % 2 == 0
      invariant i + 2 >= 0 && out == HexLittleEndian(hex[i + 2..])
    {
      PairInFront(hex, i);
      out := out * 256 + PairValue(hex[i], hex[i + 1]);
      i := i - 2;
    }
    assert hex[0..] == hex;
  }

  /** Where the pairs end there is nothing, and before the first one at most a digit that is skipped. */
  lemma PairsEnd(hex: string)
    requires Hex.IsHex(hex)
    ensures HexLittleEndian(hex[|hex|..]) == 0
    ensures |hex| % 2 == 1 ==> HexLittleEndian(hex) == HexLittleEndian(hex[1..])
  {}

  lemma PairInFront(hex: string, i: nat)
    requires Hex.IsHex(hex) && i + 2 <= |hex| && (|hex| - i) % 2 == 0
    ensures HexLittleEndian(hex[i..]) == PairValue(hex[i], hex[i + 1]) + 256 * HexLittleEndian(hex[i + 2..])
  {
    var rest := hex[i..];
    assert rest[2..] == hex[i + 2..] && rest[0] == hex[i] && rest[1] == hex[i + 1];
  }

  lemma {:induction false} HexOfBytes(bytes: seq<byte>)
    ensures Hex.IsHex(Hex.Encode(bytes))
    ensures HexLittleEndian(Hex.Encode(bytes)) == FromLittleEndian(bytes)
  {
    var hex := Hex.Encode(bytes);
    forall i | 0 <= i < |hex| ensures Hex.DigitValue(hex[i]).Some? {
      assert Hex.IsLower(hex[i]);
    }
    if bytes != [] {
      HexOfBytes(bytes[1..]);
      assert hex[2..] == Hex.Encode(bytes[1..]);
    }
  }

  /** The wire form of 32 bytes reads as their little-endian integer, also when every digit is decimal. */
  lemma BlobIdOfWireForm(bytes: seq<byte>)
    requires |bytes| == 32
    ensures BlobId(Hex.Encode(bytes)) == Some(FromLittleEndian(bytes))
  {
    HexOfBytes(bytes);
    assert Hex.IsLower(Hex.Encode(bytes)[1]);
    assert !("0x" <= Hex.Encode(bytes)) by {
      assert Hex.Encode(bytes)[1] != 'x';
    }
  }

  /** With the prefix, any number of bytes reads as its little-endian integer. */
  lemma BlobIdOfPrefixed(bytes: seq<byte>)
    requires bytes != []
    ensures BlobId("0x" + Hex.Encode(bytes)) == Some(FromLittleEndian(bytes))
  {
    HexOfBytes(bytes);
    assert ("0x" + Hex.Encode(bytes))[2..] == Hex.Encode(bytes);
  }

  // --- Decimal strings of the wire form's length ------------------------------------

  function Pow10(n: nat): (r: nat)
    ensures r > 0
  {
    if n == 0 then 1 else 10 * Pow10(n - 1)
  }

  lemma {:induction false} DecimalBelow(s: string)
    requires forall i :: 0 <= i < |s| ==> '0' <= s[i] <= '9'
    ensures Decimal(s) < Pow10(|s|)
  {
    if s != "" {
      DecimalBelow(s[..|s| - 1]);
    }
  }

  /** A digit that is not zero puts its pair's weight into the little-endian value. */
  lemma {:induction false} HexAtLeast(hex: string, k: nat)
    requires Hex.IsHex(hex) && |hex| % 2 == 0 && k < |hex| && hex[k] != '0' && Hex.DigitValue(hex[k]) != Some(0)
    ensures HexLittleEndian(hex) >= Limit(k / 2)
  {
    if k >= 2 {
      HexAtLeast(hex[2..], k - 2);
    }
  }

  lemma {:induction false} TrailingZeros(s: string, n: nat)
    requires n <= |s| && forall i :: 0 <= i < |s| ==> '0' <= s[i] <= '9'
    requires forall i :: |s| - n <= i < |s| ==> s[i] == '0'
    ensures Decimal(s) == Decimal(s[..|s| - n]) * Pow10(n)
  {
    if n == 0 {
      assert s[..|s|] == s;
    } else {
      var t := s[..|s| - 1];
      TrailingZeros(t, n - 1);
      assert t[..|t| - (n - 1)] == s[..|s| - n];
      Regrouped(Decimal(s[..|s| - n]), Pow10(n - 1));
    }
  }

  lemma Regrouped(a: nat, b: nat)
    ensures a * b * 10 == a * (10 * b)
  {}

  lemma {:induction false} LeadingZero(s: string)
    requires s != "" && s[0] == '0' && forall i :: 0 <= i < |s| ==> '0' <= s[i] <= '9'
    ensures Decimal(s) == Decimal(s[1..])
  {
    if |s| == 1 {
      assert s[..0] == "" && s[1..] == "";
    } else {
      LeadingZero(s[..|s| - 1]);
      assert s[1..][..|s| - 2] == s[..|s| - 1][1..];
    }
  }

  lemma PowersOfTen(n: nat)
    ensures n == 10 ==> Pow10(n) == 10_000_000_000
    ensures n == 12 ==> Pow10(n) == 1_000_000_000_000
  {
    Pow10Adds(4, 6);
    Pow10Adds(6, 6);
    assert Pow10(2) == 100 && Pow10(4) == 10_000 && Pow10(6) == 1_000_000;
  }

  lemma LargePowers()
    ensures Pow10(62) == 100_000_000_000_000_000_000_000_000_000_000_000_000_000_000_000_000_000_000_000_000
    ensures Pow10(64) == 10_000_000_000_000_000_000_000_000_000_000_000_000_000_000_000_000_000_000_000_000_000
  {
    PowersOfTen(12);
    assert Pow10(2) == 100 && Pow10(4) == 10_000;
    Pow10Adds(12, 4);
    var p := Pow10(16);
    assert p == 10_000_000_000_000_000;
    Pow10Adds(16, 16);
    Pow10Adds(32, 16);
    var q := Pow10(48);
    assert q == p * p * p;
    Pow10Adds(12, 2);
    Pow10Adds(48, 14);
    Pow10Adds(48, 16);
  }

  lemma LargeLimits()
    ensures Limit(26) == 0x1_0000_0000_0000_0000_0000_0000_0000_0000_0000_0000_0000_0000_0000
    ensures Limit(27) == 0x100_0000_0000_0000_0000_0000_0000_0000_0000_0000_0000_0000_0000_0000
  {
    LimitAdds(3, 3);
    LimitAdds(6, 6);
    LimitAdds(12, 12);
    LimitAdds(24, 2);
    LimitAdds(24, 3);
    assert Limit(1) == 256 && Limit(2) == 65536 && Limit(3) == 16777216;
  }

  /** The powers that separate the two readings: 10^64 < 256^27 and 10^62 < 256^26. */
  lemma PowersApart(n: nat, w: nat)
    requires (n == 64 && w == 27) || (n == 62 && w == 26)
    ensures Pow10(n) < Limit(w)
  {
    LargePowers();
    LargeLimits();
  }

  lemma {:induction false} Pow10Adds(a: nat, b: nat)
    ensures Pow10(a + b) == Pow10(a) * Pow10(b)
  {
    if a > 0 {
      Pow10Adds(a - 1, b);
      assert 10 * (Pow10(a - 1) * Pow10(b)) == (10 * Pow10(a - 1)) * Pow10(b);
    }
  }

  lemma {:induction false} LimitAdds(a: nat, b: nat)
    ensures Limit(a + b) == Limit(a) * Limit(b)
  {
    if a > 0 {
      LimitAdds(a - 1, b);
      assert 256 * (Limit(a - 1) * Limit(b)) == (256 * Limit(a - 1)) * Limit(b);
    }
  }

  /** A decimal string of the wire form's length. */
  predicate IsLongDecimal(s: string) {
    IsDigits(s) && |s| == 64
  }

  lemma DigitsAreHex(s: string)
    requires forall i :: 0 <= i < |s| ==> '0' <= s[i] <= '9'
    ensures Hex.IsHex(s) && forall i :: 0 <= i < |s| && s[i] != '0' ==> Hex.DigitValue(s[i]) != Some(0)
  {}

  /** If both readings agree and their value is below 256^w, all digits from the w-th pair on are zero. */
  lemma HighDigitsZero(s: string, w: nat)
    requires IsLongDecimal(s) && w <= 32 && Hex.IsHex(s) && HexLittleEndian(s) < Limit(w)
    ensures forall k :: 2 * w <= k < 64 ==> s[k] == '0'
  {
    DigitsAreHex(s);
    forall k | 2 * w <= k < 64 ensures s[k] == '0' {
      if s[k] != '0' {
        HexAtLeast(s, k);
        LimitGrows(w, k / 2);
      }
    }
  }

  lemma {:induction false} LimitGrows(a: nat, b: nat)
    requires a <= b
    ensures Limit(a) <= Limit(b)
  {
    if a < b {
      LimitGrows(a, b - 1);
    }
  }

  /** A value that is small in decimal has zeros for its high bytes. */
  lemma SmallInDecimal(s: string, n: nat, w: nat)
    requires IsLongDecimal(s) && Hex.IsHex(s) && HexLittleEndian(s) < Pow10(n)
    requires (n == 64 && w == 27) || (n == 62 && w == 26)
    ensures forall k :: 2 * w <= k < 64 ==> s[k] == '0'
  {
    PowersApart(n, w);
    HighDigitsZero(s, w);
  }

  lemma LastTenZero(s: string)
    requires IsLongDecimal(s) && Hex.IsHex(s) && HexLittleEndian(s) == Decimal(s)
    ensures forall k :: 54 <= k < 64 ==> s[k] == '0'
  {
    DecimalBelow(s);
    SmallInDecimal(s, |s|, 27);
  }

  lemma PairDivides(s: string, n: nat)
    requires IsLongDecimal(s) && Hex.IsHex(s) && HexLittleEndian(s) == n * 10_000_000_000
    ensures s[0] == '0' && s[1] == '0'
  {
    var rest := HexLittleEndian(s[2..]);
    assert HexLittleEndian(s) == PairValue(s[0], s[1]) + 256 * rest;
    assert PairValue(s[0], s[1]) == 256 * (n * 39_062_500 - rest);
    assert PairValue(s[0], s[1]) < 256;
  }

  lemma SecondPairDivides(s: string, n: nat)
    requires IsLongDecimal(s) && Hex.IsHex(s) && HexLittleEndian(s) == n * 1_000_000_000_000 && s[0] == s[1] == '0'
    ensures s[3] == '0'
  {
    var t := s[2..];
    var rest := HexLittleEndian(t[2..]);
    assert HexLittleEndian(s) == 256 * HexLittleEndian(t);
    assert HexLittleEndian(t) == PairValue(t[0], t[1]) + 256 * rest;
    assert PairValue(t[0], t[1]) == 16 * (n * 244_140_625 - 16 * rest);
    assert t[1] == s[3];
  }

  lemma EndsInZeros(s: string, n: nat)
    requires IsLongDecimal(s) && (n == 10 || n == 12) && forall k :: 64 - n <= k < 64 ==> s[k] == '0'
    ensures Decimal(s) == Decimal(s[..64 - n]) * if n == 10 then 10_000_000_000 else 1_000_000_000_000
  {
    PowersOfTen(n);
    TrailingZeros(s, n);
  }

  lemma FirstTwoZero(s: string)
    requires IsLongDecimal(s) && Hex.IsHex(s) && HexLittleEndian(s) == Decimal(s)
    requires forall k :: 54 <= k < 64 ==> s[k] == '0'
    ensures s[0] == s[1] == '0'
  {
    EndsInZeros(s, 10);
    PairDivides(s, Decimal(s[..54]));
  }

  lemma LastTwelveZero(s: string)
    requires IsLongDecimal(s) && Hex.IsHex(s) && HexLittleEndian(s) == Decimal(s) && s[0] == s[1] == '0'
    ensures forall k :: 52 <= k < 64 ==> s[k] == '0'
  {
    LeadingZero(s);
    LeadingZero(s[1..]);
    assert s[1..][1..] == s[2..];
    DecimalBelow(s[2..]);
    SmallInDecimal(s, |s| - 2, 26);
  }

  lemma FourthZero(s: string)
    requires IsLongDecimal(s) && Hex.IsHex(s) && HexLittleEndian(s) == Decimal(s) && s[0] == s[1] == '0'
    requires forall k :: 52 <= k < 64 ==> s[k] == '0'
    ensures s[3] == '0'
  {
    EndsInZeros(s, 12);
    SecondPairDivides(s, Decimal(s[..52]));
  }

  lemma ReadAsHex(s: string)
    requires IsLongDecimal(s)
    ensures Hex.IsHex(s) && BlobId(s) == Some(HexLittleEndian(s))
  {
    assert s[1] != 'x';
    DigitsAreHex(s);
  }

  /**
    When a decimal string of 64 digits, which is taken for the wire form, still
    reads as its decimal value, its last twelve digits and its first, second and
    fourth are zero.
  */
  lemma AgreementNeedsZeros(s: string)
    requires IsLongDecimal(s) && BlobId(s) == Some(Decimal(s))
    ensures forall k :: 52 <= k < 64 ==> s[k] == '0'
    ensures s[0] == s[1] == s[3] == '0'
  {
    ReadAsHex(s);
    LastTenZero(s);
    FirstTwoZero(s);
    LastTwelveZero(s);
    FourthZero(s);
  }

  /**
    A 64-digit decimal string with a digit other than zero among its last twelve,
    or in its first, second or fourth place, is misread.
  */
  lemma LongDecimalIsMisread(s: string, k: nat)
    requires IsLongDecimal(s) && k < 64 && s[k] != '0' && (k < 2 || k == 3 || 52 <= k)
    ensures BlobId(s).Some? && BlobId(s) != Some(Decimal(s))
  {
    ReadAsHex(s);
    if BlobId(s) == Some(Decimal(s)) {
      AgreementNeedsZeros(s);
    }
  }

  /** Sixty-four zeros are read as zero. */
  lemma ZerosAreRead()
    ensures var s := seq(64, _ => '0'); IsLongDecimal(s) && Decimal(s) == 0 && BlobId(s) == Some(0)
  {
    var s := seq(64, _ => '0');
    ZerosAreZero(32);
    TrailingZeros(s, 64);
    assert s[..0] == "" && s[1] != 'x';
  }

  lemma {:induction false} ZerosAreZero(n: nat)
    ensures Hex.IsHex(seq(2 * n, _ => '0'))
    ensures HexLittleEndian(seq(2 * n, _ => '0')) == 0
  {
    if n > 0 {
      ZerosAreZero(n - 1);
      assert seq(2 * n, _ => '0')[2..] == seq(2 * (n - 1), _ => '0');
    }
  }

  /** A decimal string reads as its decimal value whenever it does not have the wire form's length. */
  lemma DecimalIsRead(s: string)
    requires IsDigits(s) && |s| != 64
    ensures BlobId(s) == Some(Decimal(s))
  {
    assert |s| >= 2 ==> '0' <= s[1] <= '9';
  }

  // --- What is served ------------------------------------------------------------------

  /** Every field of a stored receipt, in hex where it is bytes, holds that field of the payload. */
  lemma {:induction false} StoredFieldsAre(p: Payload, timestampMs: U64, signature: seq<byte>)
    ensures var s := Store(p, timestampMs, signature);
            && Hex.DecodeStrict(s.receiptId) == Some(p.receiptId) && Hex.DecodeStrict(s.configHash) == Some(p.configHash)
            && Hex.DecodeStrict(s.tlsCertSha256) == Some(p.tlsCertSha256)
            && Hex.DecodeStrict(s.requestBlob) == Some(p.requestBlob)
            && Hex.DecodeStrict(s.upstreamRequestBlob) == Some(p.upstreamRequestBlob)
            && Hex.DecodeStrict(s.upstreamHeadersHash) == Some(p.upstreamHeadersHash)
            && Hex.DecodeStrict(s.responseBlob) == Some(p.responseBlob)
            && Hex.DecodeStrict(s.providerMetaHash) == Some(p.providerMetaHash)
            && Hex.DecodeStrict(s.signature) == Some(signature)
            && s.timestampMs == timestampMs && s.provider == p.provider && s.outcome == p.outcome
            && s.endpointHost == p.endpointHost && s.modelId == p.modelId && s.providerRequestId == p.providerRequestId
            && s.inputTokens == p.inputTokens && s.outputTokens == p.outputTokens
            && s.cacheCreationTokens == p.cacheCreationTokens && s.cacheReadTokens == p.cacheReadTokens
  {
    Hex.DecodeEncode(p.receiptId);
    Hex.DecodeEncode(p.configHash);
    Hex.DecodeEncode(p.tlsCertSha256);
    Hex.DecodeEncode(p.requestBlob);
    Hex.DecodeEncode(p.upstreamRequestBlob);
    Hex.DecodeEncode(p.upstreamHeadersHash);
    Hex.DecodeEncode(p.responseBlob);
    Hex.DecodeEncode(p.providerMetaHash);
    Hex.DecodeEncode(signature);
  }

  /** And the client's view of it, blob ids as the integers that are signed. */
  lemma {:induction false} ViewedFieldsAre(p: Payload, timestampMs: U64, signature: seq<byte>)
    ensures var s := Store(p, timestampMs, signature);
            && ClientView(s).Some?
            && var v := ClientView(s).value;
            && v.requestBlob == FromLittleEndian(p.requestBlob)
            && v.upstreamRequestBlob == FromLittleEndian(p.upstreamRequestBlob)
            && v.responseBlob == FromLittleEndian(p.responseBlob)
            && v.receiptId == s.receiptId && v.configHash == s.configHash && v.tlsCertSha256 == s.tlsCertSha256
            && v.upstreamHeadersHash == s.upstreamHeadersHash && v.providerMetaHash == s.providerMetaHash
            && v.provider == p.provider && v.outcome == p.outcome && v.endpointHost == p.endpointHost
            && v.modelId == p.modelId && v.providerRequestId == p.providerRequestId
            && v.inputTokens == p.inputTokens && v.outputTokens == p.outputTokens
            && v.cacheCreationTokens == p.cacheCreationTokens && v.cacheReadTokens == p.cacheReadTokens
  {
    BlobIdOfWireForm(p.requestBlob);
    BlobIdOfWireForm(p.upstreamRequestBlob);
    BlobIdOfWireForm(p.responseBlob);
  }

  /** Which strings are no blob id at all. */
  lemma {:induction false} NoBlobIdExactly(value: string)
    ensures BlobId(value).None? <==>
            && (value == "" || exists i :: 0 <= i < |value| && !('0' <= value[i] <= '9'))
            && !("0x" <= value && |value| > 2 && Hex.IsHex(value[2..]))
            && !(|value| == 64 && !("0x" <= value) && Hex.IsHex(value))
  {}

  // --- Rebuilding the signed bytes ------------------------------------------------------

  /** The client's view of a served receipt; `None` when a blob id does not parse. */
  method FromStored(s: StoredReceipt) returns (r: Option<ClientReceipt>)
    ensures r == ClientView(s)
    ensures forall p: Payload, t: U64, sig: seq<byte> :: s == Store(p, t, sig) ==>
              r.Some? && SerializeReceipt(r.value, t) == Some(MessageBytes(t, OnChain(p)))
  {
    forall p: Payload, t: U64, sig: seq<byte> | s == Store(p, t, sig)
      ensures ClientView(s).Some? && SerializeReceipt(ClientView(s).value, t) == Some(MessageBytes(t, OnChain(p)))
    {
      ClientRebuildsSignedBytes(p, t, sig);
    }
    var requestBlob := ParseBlobId(s.requestBlob);
    var upstreamRequestBlob := ParseBlobId(s.upstreamRequestBlob);
    var responseBlob := ParseBlobId(s.responseBlob);
    if requestBlob.None? || upstreamRequestBlob.None? || responseBlob.None? {
      return None;
    }
    r := Some(ClientReceipt(
                s.receiptId, s.configHash, s.provider, s.endpointHost, s.tlsCertSha256,
                requestBlob.value, upstreamRequestBlob.value, s.upstreamHeadersHash, s.modelId, s.providerRequestId,
                responseBlob.value, s.providerMetaHash, s.inputTokens, s.cacheCreationTokens, s.cacheReadTokens,
                s.outputTokens, s.outcome));
  }

  function ClientView(s: StoredReceipt): Option<ClientReceipt> {
    if BlobId(s.requestBlob).None? || BlobId(s.upstreamRequestBlob).None? || BlobId(s.responseBlob).None? then None
    else
      Some(ClientReceipt(
             s.receiptId, s.configHash, s.provider, s.endpointHost, s.tlsCertSha256,
             BlobId(s.requestBlob).value, BlobId(s.upstreamRequestBlob).value, s.upstreamHeadersHash, s.modelId,
             s.providerRequestId, BlobId(s.responseBlob).value, s.providerMetaHash, s.inputTokens,
             s.cacheCreationTokens, s.cacheReadTokens, s.outputTokens, s.outcome))
  }

  /** The flattened schema's values, in schema order. */
  function SchemaFields(r: ClientReceipt, timestampMs: nat): Option<seq<Field>> {
    match (Hex.DecodeStrict(r.receiptId), Hex.DecodeStrict(r.configHash), Hex.DecodeStrict(r.tlsCertSha256),
           Hex.DecodeStrict(r.upstreamHeadersHash), Hex.DecodeStrict(r.providerMetaHash))
    case (Some(receiptId), Some(configHash), Some(tlsCertSha256), Some(upstreamHeadersHash), Some(providerMetaHash)) =>
      Some([U8(RECEIPT_INTENT), U64(timestampMs), Bytes(receiptId), Bytes(configHash), U8(r.provider),
            Bytes(r.endpointHost), Bytes(tlsCertSha256), U256(r.requestBlob), U256(r.upstreamRequestBlob),
            Bytes(upstreamHeadersHash), Bytes(r.modelId), Bytes(r.providerRequestId), U256(r.responseBlob),
            Bytes(providerMetaHash), U64(r.inputTokens), U64(r.cacheCreationTokens), U64(r.cacheReadTokens),
            U64(r.outputTokens), U8(r.outcome)])
    case _ => None
  }

  /** `serializeReceipt`; `None` stands for a thrown error: bad hex, or an integer outside its type. */
  function SerializeReceipt(r: ClientReceipt, timestampMs: nat): Option<seq<byte>> {
    match SchemaFields(r, timestampMs)
    case None => None
    case Some(fields) => if AllInRange(fields) then Some(Write(fields)) else None
  }

  lemma ViewOfStored(p: Payload, timestampMs: U64, signature: seq<byte>)
    ensures var v := ClientView(Store(p, timestampMs, signature));
            v.Some? && SchemaFields(v.value, timestampMs) == Some(MessageFields(timestampMs, OnChain(p)))
  {
    BlobIdOfWireForm(p.requestBlob);
    BlobIdOfWireForm(p.upstreamRequestBlob);
    BlobIdOfWireForm(p.responseBlob);
    Hex.DecodeEncode(p.receiptId);
    Hex.DecodeEncode(p.configHash);
    Hex.DecodeEncode(p.tlsCertSha256);
    Hex.DecodeEncode(p.upstreamHeadersHash);
    Hex.DecodeEncode(p.providerMetaHash);
  }

  /** From what the enclave serves, a client rebuilds exactly the bytes the enclave signed. */
  lemma ClientRebuildsSignedBytes(p: Payload, timestampMs: U64, signature: seq<byte>)
    ensures var v := ClientView(Store(p, timestampMs, signature));
            && v.Some?
            && SerializeReceipt(v.value, timestampMs) == Some(MessageBytes(timestampMs, OnChain(p)))
            && Hex.DecodeStrict(Store(p, timestampMs, signature).signature) == Some(signature)
  {
    ViewOfStored(p, timestampMs, signature);
    OnChainInTypes(p, timestampMs);
    MessageInRange(timestampMs, OnChain(p));
    Hex.DecodeEncode(signature);
  }
}
