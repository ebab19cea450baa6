/**
 * The operations of TBinaryProtocol and TCompactProtocol as steps on their states. Every step
 * names its protocol through the state it acts on, as a call through the TProtocol interface does.
 */
module Wire {
  import opened Bytes
  import opened Values
  import opened Varint
  import opened Configuration

  datatype Kind = Binary | Compact

  // ---- type codes ---------------------------------------------------------

  const COMPACT_BOOLEAN_TRUE: Byte := 1
  const COMPACT_BOOLEAN_FALSE: Byte := 2

  /** The nibble the compact protocol writes for a type; unknown types map to 0. */
  function CompactType(ty: TType): (c: Byte)
    ensures c < 16
  {
    if ty == BOOL then COMPACT_BOOLEAN_TRUE
    else if ty == BYTE then 3
    else if ty == I16 then 4
    else if ty == I32 then 5
    else if ty == I64 then 6
    else if ty == DOUBLE then 7
    else if ty == STRING then 8
    else if ty == LIST then 9
    else if ty == SET then 10
    else if ty == MAP then 11
    else if ty == STRUCT then 12
    else if ty == UUID then 13
    else 0
  }

  function TypeOfNibble(c: Byte): Result<TType>
    requires c < 16
  {
    if c == 0 then Ok(STOP)
    else if c == 1 || c == 2 then Ok(BOOL)
    else if c == 3 then Ok(BYTE)
    else if c == 4 then Ok(I16)
    else if c == 5 then Ok(I32)
    else if c == 6 then Ok(I64)
    else if c == 7 then Ok(DOUBLE)
    else if c == 8 then Ok(STRING)
    else if c == 9 then Ok(LIST)
    else if c == 10 then Ok(SET)
    else if c == 11 then Ok(MAP)
    else if c == 12 then Ok(STRUCT)
    else if c == 13 then Ok(UUID)
    else Err(InvalidData)
  }

  /** The fewest bytes a value of a type takes, as the size checks count them. */
  function MinSize(kind: Kind, ty: TType): (n: nat)
    ensures 1 <= n <= 16
  {
    match kind
    case Binary =>
      if ty == DOUBLE then 8
      else if ty == I16 then 2
      else if ty == I32 then 4
      else if ty == I64 then 8
      else if ty == STRING || ty == MAP || ty == SET || ty == LIST then 4
      else if ty == UUID then 16
      else 1
    case Compact =>
      if ty == DOUBLE then 8 else if ty == UUID then 16 else 1
  }

  // ---- writing ------------------------------------------------------------

  /** pending is the id of a boolean field whose header waits for its value. */
  datatype Writer = Writer(
    kind: Kind, output: ByteSeq, lastField: seq<int>, lastFieldId: int, pending: Option<int>)
  {
    function Put(b: ByteSeq): Writer { this.(output := output + b) }
  }

  function WriteVarint32(w: Writer, n: int): Writer {
    w.Put(Varint32(ToI32(n)))
  }

  function WriteStructBegin(w: Writer): Writer {
    match w.kind
    case Binary => w
    case Compact => w.(lastField := w.lastField + [w.lastFieldId], lastFieldId := 0)
  }

  function WriteStructEnd(w: Writer): Result<Writer> {
    match w.kind
    case Binary => Ok(w)
    case Compact =>
      if w.lastField == [] then Err(InvalidData)
      else
        var top := |w.lastField| - 1;
        Ok(w.(lastField := w.lastField[..top], lastFieldId := w.lastField[top]))
  }

  /** Type and id share a byte when the id is one to fifteen past the previous one. */
  function WriteFieldHeader(w: Writer, typeToWrite: Byte, id: int): Writer
    requires typeToWrite < 16
  {
    var w' :=
      if id > w.lastFieldId && id - w.lastFieldId <= 15 then w.Put([(id - w.lastFieldId) * 16 + typeToWrite])
      else WriteI16(w.Put([typeToWrite]), id);
    w'.(lastFieldId := id)
  }

  function WriteFieldBegin(w: Writer, ty: TType, id: int): Writer {
    match w.kind
    case Binary => WriteI16(w.Put([ty]), id)
    case Compact =>
      if ty == BOOL then w.(pending := Some(id)) else WriteFieldHeader(w, CompactType(ty), id)
  }

  function WriteFieldStop(w: Writer): Writer {
    w.Put([STOP])
  }

  function WriteMapBegin(w: Writer, kt: TType, vt: TType, size: nat): Writer {
    match w.kind
    case Binary => WriteI32(w.Put([kt]).Put([vt]), size)
    case Compact =>
      if size == 0 then w.Put([0])
      else WriteVarint32(w, size).Put([CompactType(kt) * 16 + CompactType(vt)])
  }

  /** Lists and sets share their header. */
  function WriteListBegin(w: Writer, et: TType, size: nat): Writer {
    match w.kind
    case Binary => WriteI32(w.Put([et]), size)
    case Compact =>
      if size <= 14 then w.Put([size * 16 + CompactType(et)])
      else WriteVarint32(w.Put([0xf0 + CompactType(et)]), size)
  }

  function WriteBool(w: Writer, b: bool): Writer {
    match w.kind
    case Binary => w.Put([if b then 1 else 0])
    case Compact =>
      var v := if b then COMPACT_BOOLEAN_TRUE else COMPACT_BOOLEAN_FALSE;
      if w.pending.Some? then WriteFieldHeader(w, v, w.pending.value).(pending := None) else w.Put([v])
  }

  function WriteByte(w: Writer, n: int): Writer {
    w.Put([ToU8(n)])
  }

  function WriteI16(w: Writer, n: int): Writer {
    match w.kind
    case Binary => w.Put(PutU16(ToU16(n)))
    case Compact => WriteVarint32(w, Int32ToZigzag(ToI16(n)))
  }

  function WriteI32(w: Writer, n: int): Writer {
    match w.kind
    case Binary => w.Put(PutU32(ToU32(n)))
    case Compact => WriteVarint32(w, Int32ToZigzag(ToI32(n)))
  }

  function WriteI64(w: Writer, n: int): Writer {
    match w.kind
    case Binary => w.Put(PutU64(ToU64(n)))
    case Compact => w.Put(Varint64(Int64ToZigzag(ToI64(n))))
  }

  function WriteDouble(w: Writer, bits: int): Writer {
    match w.kind
    case Binary => w.Put(PutU64(ToU64(bits)))
    case Compact => w.Put(Reverse(PutU64(ToU64(bits))))
  }

  function WriteString(w: Writer, s: ByteSeq): Writer {
    match w.kind
    case Binary => WriteI32(w, |s|).Put(s)
    case Compact => WriteVarint32(w, |s|).Put(s)
  }

  function WriteUuid(w: Writer, s: ByteSeq): Writer {
    w.Put(s)
  }

  // ---- reading ------------------------------------------------------------

  /**
   * stash is the value of a boolean field taken from its header and not yet asked for. sized says
   * whether the transport knows how many bytes are left.
   */
  datatype Reader = Reader(
    kind: Kind, cfg: Config, sized: bool, input: ByteSeq,
    lastField: seq<int>, lastFieldId: int, stash: Option<bool>)
  {
    function Remaining(): Option<nat> { if sized then Some(|input|) else None }
  }

  /** What a reading step returns: a value and the reader after it. */
  type Read<T> = Result<(T, Reader)>

  /** The reader r after a step that took at least n bytes and left the settings alone. */
  predicate Advances(r: Reader, r': Reader, n: int) {
    && r'.kind == r.kind && r'.cfg == r.cfg && r'.sized == r.sized
    && |r'.input| + n <= |r.input|
  }

  function Take(r: Reader, n: nat): (x: Read<ByteSeq>)
    ensures x.Ok? ==> |x.value.0| == n && Advances(r, x.value.1, n)
  {
    if |r.input| < n then Err(EndOfFile) else Ok((r.input[..n], r.(input := r.input[n..])))
  }

  function TakeByte(r: Reader): (x: Read<Byte>)
    ensures x.Ok? ==> Advances(r, x.value.1, 1)
  {
    var (b, r1) :- Take(r, 1);
    Ok((b[0], r1))
  }

  function TakeVarint32(r: Reader): (x: Read<int>)
    ensures x.Ok? ==> IsI32(x.value.0) && Advances(r, x.value.1, 1)
  {
    var (n, rest) :- ReadVarint32(r.input);
    Ok((n, r.(input := rest)))
  }

  function ReadStructBegin(r: Reader): (r': Reader)
    ensures Advances(r, r', 0)
  {
    match r.kind
    case Binary => r
    case Compact => r.(lastField := r.lastField + [r.lastFieldId], lastFieldId := 0)
  }

  function ReadStructEnd(r: Reader): (x: Result<Reader>)
    ensures x.Ok? ==> Advances(r, x.value, 0) && x.value.stash == r.stash
  {
    match r.kind
    case Binary => Ok(r)
    case Compact =>
      if r.lastField == [] then Err(InvalidData)
      else
        var top := |r.lastField| - 1;
        Ok(r.(lastField := r.lastField[..top], lastFieldId := r.lastField[top]))
  }

  function ReadFieldBegin(r: Reader): (x: Read<(TType, int)>)
    ensures x.Ok? ==> IsI16(x.value.0.1) && Advances(r, x.value.1, 1)
  {
    var (t, r1) :- TakeByte(r);
    match r.kind
    case Binary =>
      if t == STOP then Ok(((STOP, 0), r1))
      else
        var (id, r2) :- ReadI16(r1);
        Ok(((t, id), r2))
    case Compact =>
      if t % 16 == STOP then Ok(((STOP, 0), r1))
      else
        var (id, r2) :-
          if t / 16 == 0 then ReadI16(r1)
          else Ok((ToI16(ToI16(r1.lastFieldId) + t / 16), r1));
        var ty :- TypeOfNibble(t % 16);
        var r3 := if ty == BOOL then r2.(stash := Some(t % 16 == COMPACT_BOOLEAN_TRUE)) else r2;
        Ok(((ty, id), r3.(lastFieldId := id)))
  }

  /** A nibble no type has reads as STOP here: the map header ignores the lookup's error. */
  function TypeOfNibbleOrStop(c: Byte): TType
    requires c < 16
  {
    match TypeOfNibble(c)
    case Ok(ty) => ty
    case Err(_) => STOP
  }

  function ReadMapBegin(r: Reader): (x: Read<(TType, TType, nat)>)
    ensures x.Ok? ==> Advances(r, x.value.1, 1) && x.value.1.stash == r.stash
  {
    var ((kt, vt, size), r') :-
      match r.kind
      case Binary =>
        var (kt, r1) :- TakeByte(r);
        var (vt, r2) :- TakeByte(r1);
        var (size, r3) :- ReadI32(r2);
        Ok(((kt, vt, size), r3))
      case Compact =>
        var (size, r1) :- TakeVarint32(r);
        var (kv, r2) :- if size == 0 then Ok((0, r1)) else TakeByte(r1);
        Ok(((TypeOfNibbleOrStop(kv / 16), TypeOfNibbleOrStop(kv % 16), size), r2));
    var _ :- CheckContainerSize(size, MinSize(r.kind, kt) + MinSize(r.kind, vt), r'.Remaining(), r.cfg);
    Ok(((kt, vt, size), r'))
  }

  function ReadListBegin(r: Reader): (x: Read<(TType, nat)>)
    ensures x.Ok? ==> Advances(r, x.value.1, 1) && x.value.1.stash == r.stash
  {
    var (b, r1) :- TakeByte(r);
    var ((et, size), r') :-
      match r.kind
      case Binary =>
        var (size, r2) :- ReadI32(r1);
        Ok(((b, size), r2))
      case Compact =>
        var (size, r2) :- if b / 16 == 15 then TakeVarint32(r1) else Ok((b / 16, r1));
        var et :- TypeOfNibble(b % 16);
        Ok(((et, size), r2));
    var _ :- CheckContainerSize(size, MinSize(r.kind, et), r'.Remaining(), r.cfg);
    Ok(((et, size), r'))
  }

  function ReadBool(r: Reader): (x: Read<bool>)
    ensures x.Ok? ==> Advances(r, x.value.1, if r.stash.Some? && r.kind.Compact? then 0 else 1)
    ensures x.Ok? && r.kind.Compact? ==> x.value.1.stash == None
  {
    match r.kind
    case Binary =>
      var (b, r1) :- TakeByte(r);
      Ok((b == 1, r1))
    case Compact =>
      if r.stash.Some? then Ok((r.stash.value, r.(stash := None)))
      else
        var (b, r1) :- TakeByte(r);
        Ok((b == COMPACT_BOOLEAN_TRUE, r1))
  }

  function ReadByte(r: Reader): (x: Read<int>)
    ensures x.Ok? ==> IsI8(x.value.0) && Advances(r, x.value.1, 1) && x.value.1.stash == r.stash
  {
    var (b, r1) :- TakeByte(r);
    Ok((ToI8(b), r1))
  }

  function ReadI16(r: Reader): (x: Read<int>)
    ensures x.Ok? ==> IsI16(x.value.0) && Advances(r, x.value.1, 1) && x.value.1.stash == r.stash
  {
    match r.kind
    case Binary =>
      var (b, r1) :- Take(r, 2);
      Ok((ToI16(GetU16(b)), r1))
    case Compact =>
      var (z, r1) :- TakeVarint32(r);
      Ok((ToI16(ZigzagToInt32(z)), r1))
  }

  function ReadI32(r: Reader): (x: Read<int>)
    ensures x.Ok? ==> IsI32(x.value.0) && Advances(r, x.value.1, 1) && x.value.1.stash == r.stash
  {
    match r.kind
    case Binary =>
      var (b, r1) :- Take(r, 4);
      Ok((ToI32(GetU32(b)), r1))
    case Compact =>
      var (z, r1) :- TakeVarint32(r);
      Ok((ZigzagToInt32(z), r1))
  }

  function ReadI64(r: Reader): (x: Read<int>)
    ensures x.Ok? ==> IsI64(x.value.0) && Advances(r, x.value.1, 1) && x.value.1.stash == r.stash
  {
    match r.kind
    case Binary =>
      var (b, r1) :- Take(r, 8);
      Ok((ToI64(GetU64(b)), r1))
    case Compact =>
      var (z, rest) :- ReadVarint64(r.input);
      Ok((ZigzagToInt64(z), r.(input := rest)))
  }

  function ReadDouble(r: Reader): (x: Read<int>)
    ensures x.Ok? ==> IsU64(x.value.0) && Advances(r, x.value.1, 8) && x.value.1.stash == r.stash
  {
    var (b, r1) :- Take(r, 8);
    Ok((GetU64(if r.kind.Binary? then b else Reverse(b)), r1))
  }

  function ReadString(r: Reader): (x: Read<ByteSeq>)
    ensures x.Ok? ==> |x.value.0| <= MAX_I32 && Advances(r, x.value.1, 1) && x.value.1.stash == r.stash
  {
    var (size, r1) :- if r.kind.Binary? then ReadI32(r) else TakeVarint32(r);
    var _ :- CheckSize(size, r.cfg);
    Take(r1, size)
  }

  function ReadUuid(r: Reader): (x: Read<ByteSeq>)
    ensures x.Ok? ==> |x.value.0| == 16 && Advances(r, x.value.1, 16) && x.value.1.stash == r.stash
  {
    Take(r, 16)
  }
}
