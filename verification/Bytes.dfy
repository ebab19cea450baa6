/** Bytes, machine integers and the fixed-width encodings the wire formats share. */
module Bytes {

  datatype Option<+T> = None | Some(value: T)

  /** The failures the modelled code distinguishes; messages are not modelled. */
  datatype Error =
    | EndOfFile
    | NegativeSize
    | SizeLimit
    | InvalidData
    | DepthLimit
    | BadVersion
    | NotImplemented
    | BadFrame

  datatype Result<+T> = Ok(value: T) | Err(error: Error) {
    predicate IsFailure() { Err? }

    function PropagateFailure<U>(): Result<U>
      requires Err?
    {
      Err(error)
    }

    function Extract(): T
      requires Ok?
    {
      value
    }
  }

  type Byte = x: int | 0 <= x < 0x100
  type ByteSeq = seq<Byte>

  const MAX_I32 := 0x7fff_ffff

  predicate IsI8(x: int) { -0x80 <= x < 0x80 }
  predicate IsI16(x: int) { -0x8000 <= x < 0x8000 }
  predicate IsI32(x: int) { -0x8000_0000 <= x < 0x8000_0000 }
  predicate IsI64(x: int) { -0x8000_0000_0000_0000 <= x < 0x8000_0000_0000_0000 }
  predicate IsU64(x: int) { 0 <= x < 0x1_0000_0000_0000_0000 }

  // Machine conversions keep the low bits of x. The values that fit are named first; the
  // remainder decides the others.

  function ToI8(x: int): (y: int)
    ensures IsI8(y)
  {
    if IsI8(x) then x else var u := x % 0x100; if u < 0x80 then u else u - 0x100
  }

  function ToU8(x: int): (y: Byte)
    ensures 0 <= y < 0x100
  {
    if 0 <= x < 0x100 then x else if IsI8(x) then x + 0x100 else x % 0x100
  }

  function ToI16(x: int): (y: int)
    ensures IsI16(y)
  {
    if IsI16(x) then x else var u := x % 0x1_0000; if u < 0x8000 then u else u - 0x1_0000
  }

  function ToU16(x: int): (y: int)
    ensures 0 <= y < 0x1_0000
  {
    if 0 <= x < 0x1_0000 then x else if IsI16(x) then x + 0x1_0000 else x % 0x1_0000
  }

  function ToI32(x: int): (y: int)
    ensures IsI32(y)
  {
    if IsI32(x) then x else var u := x % 0x1_0000_0000; if u < 0x8000_0000 then u else u - 0x1_0000_0000
  }

  function ToU32(x: int): (y: int)
    ensures 0 <= y < 0x1_0000_0000
  {
    if 0 <= x < 0x1_0000_0000 then x else if IsI32(x) then x + 0x1_0000_0000 else x % 0x1_0000_0000
  }

  function ToI64(x: int): (y: int)
    ensures IsI64(y)
  {
    if IsI64(x) then x
    else
      var u := x % 0x1_0000_0000_0000_0000;
      if u < 0x8000_0000_0000_0000 then u else u - 0x1_0000_0000_0000_0000
  }

  function ToU64(x: int): (y: int)
    ensures 0 <= y < 0x1_0000_0000_0000_0000
  {
    if 0 <= x < 0x1_0000_0000_0000_0000 then x
    else if IsI64(x) then x + 0x1_0000_0000_0000_0000
    else x % 0x1_0000_0000_0000_0000
  }

  // Big-endian fixed-width integers, as encoding/binary lays them out.

  function PutU16(x: int): (b: ByteSeq)
    requires 0 <= x < 0x1_0000
    ensures |b| == 2
  {
    [x / 0x100, x % 0x100]
  }

  function GetU16(b: ByteSeq): (x: int)
    requires |b| == 2
    ensures 0 <= x < 0x1_0000
  {
    var hi: int, lo: int := b[0], b[1];
    hi * 0x100 + lo
  }

  function PutU32(x: int): (b: ByteSeq)
    requires 0 <= x < 0x1_0000_0000
    ensures |b| == 4
  {
    PutU16(x / 0x1_0000) + PutU16(x % 0x1_0000)
  }

  function GetU32(b: ByteSeq): (x: int)
    requires |b| == 4
    ensures 0 <= x < 0x1_0000_0000
  {
    GetU16(b[..2]) * 0x1_0000 + GetU16(b[2..])
  }

  function PutU64(x: int): (b: ByteSeq)
    requires IsU64(x)
    ensures |b| == 8
  {
    PutU32(x / 0x1_0000_0000) + PutU32(x % 0x1_0000_0000)
  }

  function GetU64(b: ByteSeq): (x: int)
    requires |b| == 8
    ensures IsU64(x)
  {
    GetU32(b[..4]) * 0x1_0000_0000 + GetU32(b[4..])
  }

  function Reverse(b: ByteSeq): (r: ByteSeq)
    ensures |r| == |b|
    ensures forall i :: 0 <= i < |b| ==> r[i] == b[|b| - 1 - i]
  {
    seq(|b|, i requires 0 <= i < |b| => b[|b| - 1 - i])
  }

  lemma GetPutU32(x: int)
    requires 0 <= x < 0x1_0000_0000
    ensures GetU32(PutU32(x)) == x
  {
    assert PutU32(x)[..2] == PutU16(x / 0x1_0000);
    assert PutU32(x)[2..] == PutU16(x % 0x1_0000);
  }

  lemma GetPutU64(x: int)
    requires IsU64(x)
    ensures GetU64(PutU64(x)) == x
    ensures GetU64(Reverse(Reverse(PutU64(x)))) == x
  {
    assert PutU64(x)[..4] == PutU32(x / 0x1_0000_0000);
    assert PutU64(x)[4..] == PutU32(x % 0x1_0000_0000);
    GetPutU32(x / 0x1_0000_0000);
    GetPutU32(x % 0x1_0000_0000);
    assert Reverse(Reverse(PutU64(x))) == PutU64(x);
  }
}
