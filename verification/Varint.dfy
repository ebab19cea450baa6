/** Zigzag and base-128 integers of the compact protocol. */
module Varint {
  import opened Bytes

  const MAX_VARINT64_BYTES := 10

  // ---- zigzag -------------------------------------------------------------

  /** x ^ (s >> 31), or x ^ (s >> 63): the mask is all ones when s is negative, else zero. */
  function XorSign(x: int, s: int): int {
    if s < 0 then -1 - x else x
  }

  function Int32ToZigzag(n: int): (z: int)
    requires IsI32(n)
    ensures IsI32(z)
  {
    XorSign(ToI32(2 * n), n)
  }

  function ZigzagToInt32(z: int): (n: int)
    requires IsI32(z)
    ensures IsI32(n)
  {
    XorSign(ToU32(z) / 2, -(z % 2))
  }

  function Int64ToZigzag(n: int): (z: int)
    requires IsI64(n)
    ensures IsI64(z)
  {
    XorSign(ToI64(2 * n), n)
  }

  function ZigzagToInt64(z: int): (n: int)
    requires IsI64(z)
    ensures IsI64(n)
  {
    XorSign(ToU64(z) / 2, -(z % 2))
  }

  /** The specification's numbering: 0, -1, 1, -2, 2, ... become 0, 1, 2, 3, 4, ... */
  function ZigzagIndex(n: int): nat {
    if n >= 0 then 2 * n else -2 * n - 1
  }

  lemma Zigzag32Index(n: int)
    requires IsI32(n)
    ensures ToU32(Int32ToZigzag(n)) == ZigzagIndex(n)
  {
  }

  lemma Zigzag32(n: int)
    requires IsI32(n)
    ensures ZigzagToInt32(Int32ToZigzag(n)) == n
  {
    Zigzag32Index(n);
  }

  lemma Zigzag32Onto(z: int)
    requires IsI32(z)
    ensures Int32ToZigzag(ZigzagToInt32(z)) == z
  {
  }

  lemma Zigzag64Index(n: int)
    requires IsI64(n)
    ensures ToU64(Int64ToZigzag(n)) == ZigzagIndex(n)
  {
  }

  lemma Zigzag64(n: int)
    requires IsI64(n)
    ensures ZigzagToInt64(Int64ToZigzag(n)) == n
  {
    Zigzag64Index(n);
  }

  lemma Zigzag64Onto(z: int)
    requires IsI64(z)
    ensures Int64ToZigzag(ZigzagToInt64(z)) == z
  {
  }

  // ---- varints ------------------------------------------------------------

  /** Seven bits at a time, least significant first, top bit set on all but the last byte. */
  function Encode(n: nat): (b: ByteSeq)
    ensures |b| >= 1
  {
    if n < 0x80 then [n] else [n % 0x80 + 0x80] + Encode(n / 0x80)
  }

  /** The value of the varint at the front of b and what follows it, reading at most budget bytes. */
  function Decode(b: ByteSeq, budget: nat): (r: Result<(nat, ByteSeq)>)
    ensures r.Ok? ==> |r.value.1| < |b| && r.value.1 == b[|b| - |r.value.1|..]
  {
    if budget == 0 then Err(InvalidData)
    else if b == [] then Err(EndOfFile)
    else if b[0] < 0x80 then Ok((b[0], b[1..]))
    else
      var (high, rest) :- Decode(b[1..], budget - 1);
      var low: int := b[0] - 0x80;
      Ok((low + 0x80 * high, rest))
  }

  function Pow128(k: nat): (p: nat)
    ensures p > 0
  {
    if k == 0 then 1 else 0x80 * Pow128(k - 1)
  }

  lemma Pow128Values()
    ensures Pow128(5) == 0x8_0000_0000
    ensures Pow128(10) == 0x40_0000_0000_0000_0000
  {
    assert Pow128(2) == 0x4000;
    assert Pow128(4) == 0x1000_0000;
    assert Pow128(6) == 0x400_0000_0000;
    assert Pow128(8) == 0x100_0000_0000_0000;
  }

  lemma {:induction false} EncodeLength(n: nat, k: nat)
    requires k >= 1 && n < Pow128(k)
    ensures |Encode(n)| <= k
  {
    if n >= 0x80 {
      EncodeLength(n / 0x80, k - 1);
    }
  }

  /** 32-bit values take at most 5 bytes and 64-bit values at most 10. */
  lemma EncodeFits(n: nat)
    ensures n < 0x1_0000_0000 ==> |Encode(n)| <= 5
    ensures n < 0x1_0000_0000_0000_0000 ==> |Encode(n)| <= 10
  {
    Pow128Values();
    if n < 0x1_0000_0000 {
      EncodeLength(n, 5);
    }
    if n < 0x1_0000_0000_0000_0000 {
      EncodeLength(n, 10);
    }
  }

  lemma {:induction false} DecodeEncode(n: nat, rest: ByteSeq, budget: nat)
    requires |Encode(n)| <= budget
    ensures Decode(Encode(n) + rest, budget) == Ok((n, rest))
  {
    var b := Encode(n) + rest;
    if n < 0x80 {
      assert b[1..] == rest;
    } else {
      assert b[1..] == Encode(n / 0x80) + rest;
      DecodeEncode(n / 0x80, rest, budget - 1);
    }
  }

  /** No encoding is a proper prefix of another, so a varint needs no length of its own. */
  lemma EncodePrefixFree(m: nat, n: nat)
    requires Encode(m) <= Encode(n)
    ensures m == n
  {
    var tail := Encode(n)[|Encode(m)|..];
    assert Encode(n) == Encode(m) + tail == Encode(n) + [];
    DecodeEncode(m, tail, |Encode(n)|);
    DecodeEncode(n, [], |Encode(n)|);
  }

  // The readers: the 32-bit one runs the 64-bit one and truncates.

  function ReadVarint64(b: ByteSeq): (r: Result<(int, ByteSeq)>)
    ensures r.Ok? ==> IsI64(r.value.0) && |r.value.1| < |b|
  {
    var (n, rest) :- Decode(b, MAX_VARINT64_BYTES);
    Ok((ToI64(n), rest))
  }

  function ReadVarint32(b: ByteSeq): (r: Result<(int, ByteSeq)>)
    ensures r.Ok? ==> IsI32(r.value.0) && |r.value.1| < |b|
  {
    var (n, rest) :- ReadVarint64(b);
    Ok((ToI32(n), rest))
  }

  function Varint32(n: int): (b: ByteSeq)
    requires IsI32(n)
    ensures |b| >= 1
  {
    Encode(ToU32(n))
  }

  function Varint64(n: int): (b: ByteSeq)
    requires IsI64(n)
    ensures |b| >= 1
  {
    Encode(ToU64(n))
  }

  lemma ReadUnsigned(u: nat, rest: ByteSeq)
    requires IsU64(u)
    ensures ReadVarint64(Encode(u) + rest) == Ok((ToI64(u), rest))
  {
    EncodeFits(u);
    DecodeEncode(u, rest, MAX_VARINT64_BYTES);
  }

  lemma ReadWriteVarint32(n: int, rest: ByteSeq)
    requires IsI32(n)
    ensures ReadVarint32(Varint32(n) + rest) == Ok((n, rest))
    ensures |Varint32(n)| <= 5
  {
    EncodeFits(ToU32(n));
    ReadUnsigned(ToU32(n), rest);
  }

  lemma ReadWriteVarint64(n: int, rest: ByteSeq)
    requires IsI64(n)
    ensures ReadVarint64(Varint64(n) + rest) == Ok((n, rest))
    ensures |Varint64(n)| <= 10
  {
    EncodeFits(ToU64(n));
    ReadUnsigned(ToU64(n), rest);
  }

  // ---- the loops ----------------------------------------------------------

  /** Writes n into the first five bytes of buf and returns how many it used. */
  method PutVarint32(buf: array<Byte>, value: int) returns (idx: nat)
    requires IsI32(value) && buf.Length >= 5
    modifies buf
    ensures idx <= 5 && buf[..idx] == Varint32(value)
  {
    Pow128Values();
    var n := value;
    idx := 0;
    while !(0 <= n < 0x80)
      invariant IsI32(n) && idx < 5
      invariant ToU32(n) < Pow128(5 - idx)
      invariant Varint32(value) == buf[..idx] + Varint32(n)
      decreases ToU32(n)
    {
      ghost var before := buf[..idx];
      buf[idx] := ToU32(n) % 0x80 + 0x80;
      idx := idx + 1;
      n := ToI32(ToU32(n) / 0x80);
      assert buf[..idx] == before + [buf[idx - 1]];
    }
    ghost var before := buf[..idx];
    buf[idx] := n;
    idx := idx + 1;
    assert buf[..idx] == before + [n];
  }

  /** Writes n into the first ten bytes of buf and returns how many it used. */
  method PutVarint64(buf: array<Byte>, value: int) returns (idx: nat)
    requires IsI64(value) && buf.Length >= 10
    modifies buf
    ensures idx <= 10 && buf[..idx] == Varint64(value)
  {
    Pow128Values();
    var n := value;
    idx := 0;
    while !(0 <= n < 0x80)
      invariant IsI64(n) && idx < 10
      invariant ToU64(n) < Pow128(10 - idx)
      invariant Varint64(value) == buf[..idx] + Varint64(n)
      decreases ToU64(n)
    {
      ghost var before := buf[..idx];
      buf[idx] := ToU64(n) % 0x80 + 0x80;
      idx := idx + 1;
      n := ToI64(ToU64(n) / 0x80);
      assert buf[..idx] == before + [buf[idx - 1]];
    }
    ghost var before := buf[..idx];
    buf[idx] := n;
    idx := idx + 1;
    assert buf[..idx] == before + [n];
  }

  /** Splitting a decode after its first i bytes: their sum plus 128^i times what the rest decodes to. */
  ghost predicate Resumes(b: ByteSeq, i: nat, sum: nat)
    requires i <= |b| && i <= MAX_VARINT64_BYTES
  {
    var whole, tail := Decode(b, MAX_VARINT64_BYTES), Decode(b[i..], MAX_VARINT64_BYTES - i);
    match tail
    case Err(e) => whole == Err(e)
    case Ok((high, rest)) => whole == Ok((sum + Pow128(i) * high, rest))
  }

  lemma ResumesStep(b: ByteSeq, i: nat, sum: nat)
    requires i < |b| && i < MAX_VARINT64_BYTES && Resumes(b, i, sum) && b[i] >= 0x80
    ensures Resumes(b, i + 1, sum + Pow128(i) * (b[i] - 0x80))
  {
    assert b[i..][1..] == b[i + 1..];
    var p, p', tail := Pow128(i), Pow128(i + 1), Decode(b[i + 1..], MAX_VARINT64_BYTES - i - 1);
    assert p' == 0x80 * p;
    if tail.Ok? {
      var low, high := b[i] - 0x80, tail.value.0;
      assert Decode(b[i..], MAX_VARINT64_BYTES - i) == Ok((low + 0x80 * high, tail.value.1));
      hide Decode, Pow128;
      Distribute(p, low, high);
      assert sum + p * (low + 0x80 * high) == (sum + p * low) + p' * high;
    }
  }

  lemma Distribute(p: int, low: int, high: int)
    ensures p * (low + 0x80 * high) == p * low + (0x80 * p) * high
  {
    assert p * (0x80 * high) == (0x80 * p) * high;
  }

  lemma ToI64Absorbs(a: int, b: int)
    ensures ToI64(ToI64(a) + b) == ToI64(a + b)
  {
    var m := 0x1_0000_0000_0000_0000;
    var k := if IsI64(a) then 0 else if a % m < 0x8000_0000_0000_0000 then a / m else a / m + 1;
    assert ToI64(a) == a - k * m;
    assert (a + b - k * m) % m == (a + b) % m;
  }

  /** How a decode starts and the ways it can end. */
  lemma ResumesEnds(b: ByteSeq, i: nat, sum: nat)
    requires i <= |b| && i <= MAX_VARINT64_BYTES
    ensures Resumes(b, 0, 0)
    ensures Resumes(b, i, sum) && i == MAX_VARINT64_BYTES ==> ReadVarint64(b) == Err(InvalidData)
    ensures Resumes(b, i, sum) && i == |b| < MAX_VARINT64_BYTES ==> ReadVarint64(b) == Err(EndOfFile)
    ensures Resumes(b, i, sum) && i < |b| && i < MAX_VARINT64_BYTES && b[i] < 0x80 ==>
              ReadVarint64(b) == Ok((ToI64(sum + Pow128(i) * b[i]), b[i + 1..]))
  {
    assert b[0..] == b;
    assert i < |b| ==> b[i..][1..] == b[i + 1..];
  }

  /** The reading loop: accumulates into a wrapping 64-bit integer, one byte at a time. */
  method GetVarint64(b: ByteSeq) returns (value: int, used: nat, error: Option<Error>)
    ensures match ReadVarint64(b)
            case Err(e) => error == Some(e)
            case Ok((v, rest)) => error == None && value == v && used <= |b| && b[used..] == rest
  {
    hide Decode, Resumes, ReadVarint64, ToI64;
    value, used, error := ToI64(0), 0, None;
    ghost var sum: nat := 0;
    ResumesEnds(b, 0, 0);
    while used < MAX_VARINT64_BYTES
      invariant used <= MAX_VARINT64_BYTES && used <= |b|
      invariant error == None && value == ToI64(sum) && Resumes(b, used, sum)
    {
      ResumesEnds(b, used, sum);
      if used == |b| {
        return 0, used, Some(EndOfFile);
      }
      var low: int := if b[used] < 0x80 then b[used] else b[used] - 0x80;
      var part := Pow128(used) * low;
      ToI64Absorbs(sum, part);
      value := ToI64(value + part);
      if b[used] < 0x80 {
        used := used + 1;
        return;
      }
      ResumesStep(b, used, sum);
      sum := sum + part;
      used := used + 1;
    }
    ResumesEnds(b, used, sum);
    error := Some(InvalidData);
  }
}
