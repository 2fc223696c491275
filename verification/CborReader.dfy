/** The cursor-driven reader, proved against the decoding function. */
module CborReader {
  import opened Prelude
  import opened CborValues
  import opened CborEncoding
  import opened CborDecoding
  import opened CborSoundness

  /** Wraps to the signed 32-bit range, as JavaScript's `<<` does. */
  function ToInt32(x: int): int {
    (x + 0x8000_0000) % 0x1_0000_0000 - 0x8000_0000
  }

  /** `x >>> 0`. */
  function ToUint32(x: int): nat {
    x % 0x1_0000_0000
  }

  /** `(b[0] << 8) | b[1]`; operands of `|` that have no bit in common are added. */
  function Uint16(b: seq<byte>): nat
    requires |b| == 2
  {
    var high: int, low: int := b[0], b[1];
    high * 0x100 + low
  }

  /** `((b[0] << 24) | (b[1] << 16) | (b[2] << 8) | b[3]) >>> 0`: the first shift can go negative. */
  function Uint32(b: seq<byte>): nat
    requires |b| == 4
  {
    var high: int, second: int, third: int, low: int := b[0], b[1], b[2], b[3];
    ToUint32(ToInt32(high * 0x100_0000) + second * 0x1_0000 + third * 0x100 + low)
  }

  lemma Uint16IsBigEndian(b: seq<byte>)
    requires |b| == 2
    ensures Uint16(b) == FromBigEndian(b)
  {
    assert b[..1][..0] == [] && FromBigEndian(b[..1]) == b[0];
  }

  lemma Uint32IsBigEndian(b: seq<byte>)
    requires |b| == 4
    ensures Uint32(b) == FromBigEndian(b)
  {
    Uint16IsBigEndian(b[..2]);
    assert b[..3][..2] == b[..2];
    var third: int := b[2];
    assert FromBigEndian(b[..3]) == FromBigEndian(b[..2]) * 0x100 + third;
  }

  lemma PrependPrepend(vs: seq<Value>, ws: seq<Value>, r: Decoded<seq<Value>>)
    ensures Prepend(vs, Prepend(ws, r)) == Prepend(vs + ws, r)
  {
    if r.Ok? {
      Associative(vs, ws, r.value.0);
    }
  }

  lemma PrependNothing(r: Decoded<seq<Value>>)
    ensures Prepend([], r) == r
  {
    if r.Ok? {
      assert [] + r.value.0 == r.value.0;
    }
  }

  /** At the break, what has been collected is the stream's content. */
  lemma StreamCloses(text: TextDecode, start: seq<byte>, seen: seq<Value>, kind: StreamKind, here: seq<byte>)
    requires here != [] && here[0] == BREAK
    requires DecodeStream(text, start, kind) == Prepend(seen, DecodeStream(text, here, kind))
    ensures DecodeStream(text, start, kind) == Ok((seen, here[1..]))
  {
    assert seen + [] == seen;
  }

  /** One more item of a stream moves from the input to what has been collected. */
  lemma StreamGrows(
    text: TextDecode, start: seq<byte>, seen: seq<Value>, kind: StreamKind, here: seq<byte>, v: Value, rest: seq<byte>)
    requires here != [] && here[0] != BREAK && !kind.Pairs?
    requires CborDecoding.Decode(text, here) == Ok((v, rest))
    requires (kind.OnlyBytes? ==> v.Bytes?) && (kind.OnlyText? ==> v.Text?)
    requires DecodeStream(text, start, kind) == Prepend(seen, DecodeStream(text, here, kind))
    ensures DecodeStream(text, start, kind) == Prepend(seen + [v], DecodeStream(text, rest, kind))
  {
    StreamStep(text, here, kind, v, rest);
    PrependPrepend(seen, [v], DecodeStream(text, rest, kind));
  }

  lemma PairsGrow(
    text: TextDecode, start: seq<byte>, seen: seq<Value>, here: seq<byte>, k: Value, mid: seq<byte>, v: Value,
    rest: seq<byte>)
    requires here != [] && here[0] != BREAK
    requires CborDecoding.Decode(text, here) == Ok((k, mid)) && CborDecoding.Decode(text, mid) == Ok((v, rest))
    requires DecodeStream(text, start, Pairs) == Prepend(seen, DecodeStream(text, here, Pairs))
    ensures DecodeStream(text, start, Pairs) == Prepend(seen + [k, v], DecodeStream(text, rest, Pairs))
  {
    PairStep(text, here, k, mid, v, rest);
    PrependPrepend(seen, [k, v], DecodeStream(text, rest, Pairs));
  }

  lemma ItemsGrow(
    text: TextDecode, start: seq<byte>, total: nat, seen: seq<Value>, here: seq<byte>, left: nat, v: Value,
    rest: seq<byte>)
    requires left > 0 && CborDecoding.Decode(text, here) == Ok((v, rest))
    requires DecodeItems(text, start, total) == Prepend(seen, DecodeItems(text, here, left))
    ensures DecodeItems(text, start, total) == Prepend(seen + [v], DecodeItems(text, rest, left - 1))
  {
    PrependPrepend(seen, [v], DecodeItems(text, rest, left - 1));
  }

  lemma PairItemsGrow(
    text: TextDecode, start: seq<byte>, total: nat, seen: seq<Value>, here: seq<byte>, left: nat, k: Value,
    mid: seq<byte>, v: Value, rest: seq<byte>)
    requires left > 1 && CborDecoding.Decode(text, here) == Ok((k, mid)) && CborDecoding.Decode(text, mid) == Ok((v, rest))
    requires DecodeItems(text, start, total) == Prepend(seen, DecodeItems(text, here, left))
    ensures DecodeItems(text, start, total) == Prepend(seen + [k, v], DecodeItems(text, rest, left - 2))
  {
    ItemsGrow(text, start, total, seen, here, left, k, mid);
    ItemsGrow(text, start, total, seen + [k], mid, left - 1, v, rest);
    assert seen + [k] + [v] == seen + [k, v];
  }

  class Reader {
    const buf: seq<byte>
    const text: TextDecode
    var pos: nat

    ghost predicate Valid()
      reads this
    {
      pos <= |buf|
    }

    ghost function Remaining(): seq<byte>
      requires Valid()
      reads this
    {
      buf[pos..]
    }

    /** The outcome and the cursor are what `spec` says; after an error only the error matters. */
    ghost predicate Did<T>(r: Result<T, DecodeError>, spec: Decoded<T>)
      reads this
    {
      && Valid()
      && (spec.Ok? ==> r == Ok(spec.value.0) && Remaining() == spec.value.1)
      && (spec.Err? ==> r == Err(spec.error))
    }

    constructor (buf: seq<byte>, text: TextDecode)
      ensures this.buf == buf && this.text == text
      ensures Valid() && Remaining() == buf
    {
      this.buf, this.text, this.pos := buf, text, 0;
    }

    method Byte() returns (r: Result<byte, DecodeError>)
      requires Valid()
      modifies this`pos
      ensures Did(r, if old(Remaining()) == [] then Err(UnexpectedEnd)
                     else Ok((old(Remaining())[0], old(Remaining())[1..])))
    {
      if pos >= |buf| {
        return Err(UnexpectedEnd);
      }
      r := Ok(buf[pos]);
      pos := pos + 1;
    }

    method TakeBytes(n: nat) returns (r: Result<seq<byte>, DecodeError>)
      requires Valid()
      modifies this`pos
      ensures Did(r, Take(old(Remaining()), n))
    {
      if pos + n > |buf| {
        return Err(UnexpectedEnd);
      }
      assert Remaining()[..n] == buf[pos..pos + n] && Remaining()[n..] == buf[pos + n..];
      r := Ok(buf[pos..pos + n]);
      pos := pos + n;
    }

    method AtBreak() returns (r: Result<bool, DecodeError>)
      requires Valid()
      ensures r == if Remaining() == [] then Err(UnexpectedEnd) else Ok(Remaining()[0] == BREAK)
    {
      if pos >= |buf| {
        return Err(UnexpectedEnd);
      }
      r := Ok(buf[pos] == BREAK);
    }

    method ReadLength(additional: nat) returns (r: Result<nat, DecodeError>)
      requires Valid()
      modifies this`pos
      ensures Did(r, CborDecoding.ReadLength(old(Remaining()), additional))
    {
      if additional < 24 {
        return Ok(additional);
      }
      if additional == 24 {
        var b := TakeBytes(1);
        if b.Err? { return Err(b.error); }
        assert FromBigEndian(b.value) == b.value[0];
        return Ok(b.value[0]);
      }
      if additional == 25 {
        var b := TakeBytes(2);
        if b.Err? { return Err(b.error); }
        Uint16IsBigEndian(b.value);
        return Ok(Uint16(b.value));
      }
      if additional == 26 {
        var b := TakeBytes(4);
        if b.Err? { return Err(b.error); }
        Uint32IsBigEndian(b.value);
        return Ok(Uint32(b.value));
      }
      if additional == 27 {
        var b := TakeBytes(8);
        if b.Err? { return Err(b.error); }
        var n: nat := 0;
        for i := 0 to 8
          invariant n == FromBigEndian(b.value[..i])
        {
          assert b.value[..i + 1][..i] == b.value[..i];
          n := n * 256 + b.value[i];
        }
        assert b.value[..8] == b.value;
        if n > MAX_SAFE_INTEGER {
          return Err(LengthTooLarge);
        }
        return Ok(n);
      }
      return Err(UnsupportedLength(additional));
    }

    method Decode() returns (r: Result<Value, DecodeError>)
      requires Valid()
      modifies this`pos
      ensures Did(r, CborDecoding.Decode(text, old(Remaining())))
      decreases |Remaining()|, 0
    {
      var first := Byte();
      if first.Err? { return Err(first.error); }
      var major, additional := first.value / 32, first.value % 32;
      r := DecodeBody(major, additional);
    }

    method DecodeBody(major: nat, additional: nat) returns (r: Result<Value, DecodeError>)
      requires Valid() && major < 8 && additional < 32
      modifies this`pos
      ensures Did(r, CborDecoding.DecodeBody(text, old(Remaining()), major, additional))
      decreases |Remaining()|, 3
    {
      if major == 0 {
        var n := ReadLength(additional);
        if n.Err? { return Err(n.error); }
        return Ok(Number(n.value));
      }
      if major == 1 {
        var n := ReadLength(additional);
        if n.Err? { return Err(n.error); }
        var magnitude: int := n.value;
        return Ok(Number(-1 - magnitude));
      }
      if major == 2 {
        if additional == 31 {
          r := ByteChunks();
          return;
        }
        var data := CountedBytes(additional);
        if data.Err? { return Err(data.error); }
        return Ok(Bytes(data.value));
      }
      if major == 3 {
        if additional == 31 {
          r := TextChunks();
          return;
        }
        var data := CountedBytes(additional);
        if data.Err? { return Err(data.error); }
        return Ok(Text(text(data.value)));
      }
      if major == 4 {
        var items := ArrayItems(additional);
        if items.Err? { return Err(items.error); }
        return Ok(Array(items.value));
      }
      if major == 5 {
        r := MapEntries(additional);
        return;
      }
      if major == 6 {
        var tag := ReadLength(additional);
        if tag.Err? { return Err(tag.error); }
        var inner := Decode();
        if inner.Err? { return Err(inner.error); }
        return Ok(Tagged(tag.value, inner.value));
      }
      r := Simple(additional);
    }

    method CountedBytes(additional: nat) returns (r: Result<seq<byte>, DecodeError>)
      requires Valid()
      modifies this`pos
      ensures Did(r, ReadCounted(old(Remaining()), additional))
    {
      var n := ReadLength(additional);
      if n.Err? { return Err(n.error); }
      r := TakeBytes(n.value);
    }

    method Simple(additional: nat) returns (r: Result<Value, DecodeError>)
      requires Valid()
      modifies this`pos
      ensures Did(r, ReadSimple(old(Remaining()), additional))
    {
      if additional == 20 { return Ok(Bool(false)); }
      if additional == 21 { return Ok(Bool(true)); }
      if additional == 22 || additional == 23 { return Ok(Null); }
      if additional == 25 || additional == 26 || additional == 27 {
        var bits := TakeBytes(if additional == 25 then 2 else if additional == 26 then 4 else 8);
        if bits.Err? { return Err(bits.error); }
        return Ok(Null);
      }
      return Err(UnsupportedSimple(additional));
    }

    /** An indefinite byte string: chunks up to the break, then copied one after the other. */
    method ByteChunks() returns (r: Result<Value, DecodeError>)
      requires Valid()
      modifies this`pos
      ensures Did(r, CborDecoding.DecodeBody(text, old(Remaining()), 2, 31))
      decreases |Remaining()|, 2
    {
      ghost var start := Remaining();
      ghost var seen: seq<Value> := [];
      var chunks: seq<seq<byte>> := [];
      PrependNothing(DecodeStream(text, start, OnlyBytes));
      var done := AtBreak();
      while done == Ok(false)
        invariant Valid() && |Remaining()| <= |start|
        invariant done == if Remaining() == [] then Err(UnexpectedEnd) else Ok(Remaining()[0] == BREAK)
        invariant JoinBytes(seen) == Concat(chunks)
        invariant DecodeStream(text, start, OnlyBytes) == Prepend(seen, DecodeStream(text, Remaining(), OnlyBytes))
        decreases |Remaining()|
      {
        ghost var here := Remaining();
        var chunk := Decode();
        if chunk.Err? { return Err(chunk.error); }
        if !chunk.value.Bytes? { return Err(WrongChunk); }
        StreamGrows(text, start, seen, OnlyBytes, here, chunk.value, Remaining());
        JoinBytesSnoc(seen, chunk.value);
        ConcatSnoc(chunks, chunk.value.bytes);
        chunks := chunks + [chunk.value.bytes];
        seen := seen + [chunk.value];
        done := AtBreak();
      }
      if done.Err? { return Err(done.error); }
      StreamCloses(text, start, seen, OnlyBytes, Remaining());
      var marker := Byte();
      var out := CopyChunks(chunks);
      r := Ok(Bytes(out));
    }

    static method CopyChunks(chunks: seq<seq<byte>>) returns (out: seq<byte>)
      ensures out == Concat(chunks)
    {
      out := [];
      for i := 0 to |chunks|
        invariant out == Concat(chunks[..i])
      {
        ConcatSnoc(chunks[..i], chunks[i]);
        assert chunks[..i + 1] == chunks[..i] + [chunks[i]];
        out := out + chunks[i];
      }
      assert chunks[..|chunks|] == chunks;
    }

    /** An indefinite text string: each chunk is appended as it is decoded. */
    method TextChunks() returns (r: Result<Value, DecodeError>)
      requires Valid()
      modifies this`pos
      ensures Did(r, CborDecoding.DecodeBody(text, old(Remaining()), 3, 31))
      decreases |Remaining()|, 2
    {
      ghost var start := Remaining();
      ghost var seen: seq<Value> := [];
      var out := "";
      PrependNothing(DecodeStream(text, start, OnlyText));
      var done := AtBreak();
      while done == Ok(false)
        invariant Valid() && |Remaining()| <= |start|
        invariant done == if Remaining() == [] then Err(UnexpectedEnd) else Ok(Remaining()[0] == BREAK)
        invariant out == JoinText(seen)
        invariant DecodeStream(text, start, OnlyText) == Prepend(seen, DecodeStream(text, Remaining(), OnlyText))
        decreases |Remaining()|
      {
        ghost var here := Remaining();
        var chunk := Decode();
        if chunk.Err? { return Err(chunk.error); }
        if !chunk.value.Text? { return Err(WrongChunk); }
        StreamGrows(text, start, seen, OnlyText, here, chunk.value, Remaining());
        JoinTextSnoc(seen, chunk.value);
        out := out + chunk.value.text;
        seen := seen + [chunk.value];
        done := AtBreak();
      }
      if done.Err? { return Err(done.error); }
      StreamCloses(text, start, seen, OnlyText, Remaining());
      var marker := Byte();
      r := Ok(Text(out));
    }

    method ArrayItems(additional: nat) returns (r: Result<seq<Value>, DecodeError>)
      requires Valid()
      modifies this`pos
      ensures Did(r, DecodeContainer(text, old(Remaining()), additional, false))
      decreases |Remaining()|, 2
    {
      if additional == 31 {
        r := ArrayUntilBreak();
        return;
      }
      var len := ReadLength(additional);
      if len.Err? { return Err(len.error); }
      r := ArrayOfLength(len.value);
    }

    method ArrayUntilBreak() returns (r: Result<seq<Value>, DecodeError>)
      requires Valid()
      modifies this`pos
      ensures Did(r, DecodeStream(text, old(Remaining()), AnyItems))
      decreases |Remaining()|, 1
    {
      ghost var start := Remaining();
      var arr: seq<Value> := [];
      PrependNothing(DecodeStream(text, start, AnyItems));
      var done := AtBreak();
      while done == Ok(false)
        invariant Valid() && |Remaining()| <= |start|
        invariant done == if Remaining() == [] then Err(UnexpectedEnd) else Ok(Remaining()[0] == BREAK)
        invariant DecodeStream(text, start, AnyItems) == Prepend(arr, DecodeStream(text, Remaining(), AnyItems))
        decreases |Remaining()|
      {
        ghost var here := Remaining();
        var item := Decode();
        if item.Err? { return Err(item.error); }
        StreamGrows(text, start, arr, AnyItems, here, item.value, Remaining());
        arr := arr + [item.value];
        done := AtBreak();
      }
      if done.Err? { return Err(done.error); }
      StreamCloses(text, start, arr, AnyItems, Remaining());
      var marker := Byte();
      r := Ok(arr);
    }

    method ArrayOfLength(len: nat) returns (r: Result<seq<Value>, DecodeError>)
      requires Valid()
      modifies this`pos
      ensures Did(r, DecodeItems(text, old(Remaining()), len))
      decreases |Remaining()|, 1
    {
      ghost var start := Remaining();
      var arr: seq<Value> := [];
      PrependNothing(DecodeItems(text, start, len));
      for i := 0 to len
        invariant Valid() && |Remaining()| <= |start|
        invariant DecodeItems(text, start, len) == Prepend(arr, DecodeItems(text, Remaining(), len - i))
      {
        ghost var here := Remaining();
        var item := Decode();
        if item.Err? { return Err(item.error); }
        ItemsGrow(text, start, len, arr, here, len - i, item.value, Remaining());
        arr := arr + [item.value];
      }
      assert arr + [] == arr;
      r := Ok(arr);
    }

    /** A map: every pair is `set` as soon as its value is decoded. */
    method MapEntries(additional: nat) returns (r: Result<Value, DecodeError>)
      requires Valid() && additional < 32
      modifies this`pos
      ensures Did(r, CborDecoding.DecodeBody(text, old(Remaining()), 5, additional))
      decreases |Remaining()|, 2
    {
      if additional == 31 {
        ghost var kvs;
        r, kvs := MapUntilBreak();
        return;
      }
      var len := ReadLength(additional);
      if len.Err? { return Err(len.error); }
      ghost var kvs;
      r, kvs := MapOfLength(len.value);
    }

    method MapUntilBreak() returns (r: Result<Value, DecodeError>, ghost kvs: Result<seq<Value>, DecodeError>)
      requires Valid()
      modifies this`pos
      ensures Did(kvs, DecodeStream(text, old(Remaining()), Pairs))
      ensures r == if kvs.Ok? then Ok(Map(FromPairs(kvs.value))) else Err(kvs.error)
      decreases |Remaining()|, 1
    {
      ghost var start := Remaining();
      ghost var seen: seq<Value> := [];
      var entries: seq<(Value, Value)> := [];
      PrependNothing(DecodeStream(text, start, Pairs));
      var done := AtBreak();
      while done == Ok(false)
        invariant Valid() && |Remaining()| <= |start|
        invariant done == if Remaining() == [] then Err(UnexpectedEnd) else Ok(Remaining()[0] == BREAK)
        invariant entries == FromPairs(seen)
        invariant DecodeStream(text, start, Pairs) == Prepend(seen, DecodeStream(text, Remaining(), Pairs))
        decreases |Remaining()|
      {
        ghost var here := Remaining();
        var k := Decode();
        if k.Err? { return Err(k.error), Err(k.error); }
        ghost var mid := Remaining();
        var v := Decode();
        if v.Err? { return Err(v.error), Err(v.error); }
        PairsGrow(text, start, seen, here, k.value, mid, v.value, Remaining());
        FromPairsSnoc(seen, k.value, v.value);
        entries := MapSet(entries, k.value, v.value);
        seen := seen + [k.value, v.value];
        done := AtBreak();
      }
      if done.Err? { return Err(done.error), Err(done.error); }
      StreamCloses(text, start, seen, Pairs, Remaining());
      var marker := Byte();
      r, kvs := Ok(Map(entries)), Ok(seen);
    }

    method MapOfLength(len: nat) returns (r: Result<Value, DecodeError>, ghost kvs: Result<seq<Value>, DecodeError>)
      requires Valid()
      modifies this`pos
      ensures Did(kvs, DecodeItems(text, old(Remaining()), 2 * len))
      ensures r == if kvs.Ok? then Ok(Map(FromPairs(kvs.value))) else Err(kvs.error)
      decreases |Remaining()|, 1
    {
      hide CborDecoding.Decode, MapSet, FindKey;
      ghost var start := Remaining();
      ghost var total := 2 * len;
      ghost var seen: seq<Value> := [];
      var entries: seq<(Value, Value)> := [];
      PrependNothing(DecodeItems(text, start, total));
      for i := 0 to len
        invariant Valid() && |Remaining()| <= |start|
        invariant entries == FromPairs(seen)
        invariant DecodeItems(text, start, total) == Prepend(seen, DecodeItems(text, Remaining(), total - 2 * i))
      {
        ghost var here := Remaining();
        var k := Decode();
        if k.Err? { return Err(k.error), Err(k.error); }
        ghost var mid := Remaining();
        var v := Decode();
        if v.Err? { return Err(v.error), Err(v.error); }
        PairItemsGrow(text, start, total, seen, here, total - 2 * i, k.value, mid, v.value, Remaining());
        FromPairsSnoc(seen, k.value, v.value);
        entries := MapSet(entries, k.value, v.value);
        seen := seen + [k.value, v.value];
      }
      assert seen + [] == seen;
      r, kvs := Ok(Map(entries)), Ok(seen);
    }
  }

  /** What `decodeCbor` returns: the first item of the bytes, whatever follows it. */
  function FirstItem(text: TextDecode, bytes: seq<byte>): Result<Value, DecodeError> {
    var (v, _) :- CborDecoding.Decode(text, bytes);
    Ok(v)
  }

  method DecodeCbor(text: TextDecode, bytes: seq<byte>) returns (r: Result<Value, DecodeError>)
    ensures r == FirstItem(text, bytes)
    ensures forall e, rest :: Valid(e) && bytes == BytesOf(e) + rest ==> r == Ok(ValueOf(text, e))
    ensures r.Ok? ==> exists e, rest :: Encodes(text, e, r.value) && bytes == BytesOf(e) + rest
  {
    var reader := new Reader(bytes, text);
    r := reader.Decode();
    forall e, rest | Valid(e) && bytes == BytesOf(e) + rest
      ensures r == Ok(ValueOf(text, e))
    {
      DecodeComplete(text, e, rest);
    }
    if r.Ok? {
      ghost var (v, rest) := CborDecoding.Decode(text, bytes).value;
      ghost var e := DecodeSound(text, bytes, v, rest);
      assert Encodes(text, e, r.value) && bytes == BytesOf(e) + rest;
    }
  }
}
