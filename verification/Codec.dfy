/**
 * Whole values over the protocol steps: the calls a generated struct makes to write and to read
 * itself, and the byte grammar of the two wire formats that both are measured against.
 */
module Codec {
  import opened Bytes
  import opened Values
  import opened Varint
  import opened Configuration
  import opened Wire

  // ---- the grammar --------------------------------------------------------

  /** Only the compact protocol tracks the previous field id. */
  function NextLast(kind: Kind, last: int, id: int): int {
    if kind.Compact? then id else last
  }

  function EncCompactHeader(last: int, id: int, code: Byte): (b: ByteSeq)
    requires code < 16
    ensures |b| >= 1
  {
    if last < id <= last + 15 then [(id - last) * 16 + code] else [code] + Encode(ZigzagIndex(id))
  }

  function EncListHeader(kind: Kind, et: TType, n: nat): (b: ByteSeq)
    ensures |b| >= 1
    ensures kind.Binary? ==> |b| >= 4
  {
    match kind
    case Binary => [et] + PutU32(ToU32(n))
    case Compact => if n <= 14 then [n * 16 + CompactType(et)] else [0xf0 + CompactType(et)] + Encode(n)
  }

  function EncMapHeader(kind: Kind, kt: TType, vt: TType, n: nat): (b: ByteSeq)
    ensures |b| >= 1
    ensures kind.Binary? ==> |b| >= 4
  {
    match kind
    case Binary => [kt, vt] + PutU32(ToU32(n))
    case Compact => if n == 0 then [0] else Encode(n) + [CompactType(kt) * 16 + CompactType(vt)]
  }

  function EncScalar(kind: Kind, v: Value): ByteSeq
    requires IsScalar(v)
  {
    match v
    case VBool(b) => if kind.Binary? then [if b then 1 else 0] else [if b then 1 else 2]
    case VByte(n) => [ToU8(n)]
    case VI16(n) => if kind.Binary? then PutU16(ToU16(n)) else Encode(ZigzagIndex(n))
    case VI32(n) => if kind.Binary? then PutU32(ToU32(n)) else Encode(ZigzagIndex(n))
    case VI64(n) => if kind.Binary? then PutU64(ToU64(n)) else Encode(ZigzagIndex(n))
    case VDouble(bits) => if kind.Binary? then PutU64(ToU64(bits)) else Reverse(PutU64(ToU64(bits)))
    case VString(s) => (if kind.Binary? then PutU32(ToU32(|s|)) else Encode(|s|)) + s
    case VUuid(s) => s
  }

  function Enc(kind: Kind, v: Value): ByteSeq
    decreases v
  {
    match v
    case VStruct(fs) => EncFields(kind, 0, fs)
    case VList(et, es) => EncListHeader(kind, et, |es|) + EncElems(kind, es)
    case VSet(et, es) => EncListHeader(kind, et, |es|) + EncElems(kind, es)
    case VMap(kt, vt, es) => EncMapHeader(kind, kt, vt, |es|) + EncEntries(kind, es)
    case _ => EncScalar(kind, v)
  }

  /** A compact boolean field is its header alone. */
  function EncField(kind: Kind, last: int, f: Field): ByteSeq
    decreases f
  {
    match kind
    case Binary => [TypeOf(f.value)] + PutU16(ToU16(f.id)) + Enc(kind, f.value)
    case Compact =>
      if f.value.VBool? then EncCompactHeader(last, f.id, if f.value.b then 1 else 2)
      else EncCompactHeader(last, f.id, CompactType(TypeOf(f.value))) + Enc(kind, f.value)
  }

  function EncFields(kind: Kind, last: int, fs: seq<Field>): (b: ByteSeq)
    ensures |b| >= 1
    decreases fs
  {
    if fs == [] then [STOP]
    else EncField(kind, last, fs[0]) + EncFields(kind, NextLast(kind, last, fs[0].id), fs[1..])
  }

  /** The field id tracked once all fields are through. */
  function LastId(kind: Kind, last: int, fs: seq<Field>): int
    decreases fs
  {
    if fs == [] then last else LastId(kind, NextLast(kind, last, fs[0].id), fs[1..])
  }

  function EncElems(kind: Kind, es: seq<Value>): ByteSeq
    decreases es
  {
    if es == [] then [] else Enc(kind, es[0]) + EncElems(kind, es[1..])
  }

  function EncEntry(kind: Kind, e: Entry): ByteSeq
    decreases e
  {
    Enc(kind, e.key) + Enc(kind, e.value)
  }

  function EncEntries(kind: Kind, es: seq<Entry>): ByteSeq
    decreases es
  {
    if es == [] then [] else EncEntry(kind, es[0]) + EncEntries(kind, es[1..])
  }

  // ---- what a decode can recover ------------------------------------------

  /**
   * Binary values come back as they are. A compact map without entries carries no types: it comes back
   * as a map of STOP to STOP.
   */
  function Canon(kind: Kind, v: Value): Value
    decreases v
  {
    if kind.Binary? then v
    else
      match v
      case VStruct(fs) => VStruct(CanonFields(kind, fs))
      case VList(et, es) => VList(et, CanonElems(kind, es))
      case VSet(et, es) => VSet(et, CanonElems(kind, es))
      case VMap(kt, vt, es) => if es == [] then VMap(STOP, STOP, []) else VMap(kt, vt, CanonEntries(kind, es))
      case _ => v
  }

  function CanonField(kind: Kind, f: Field): Field
    decreases f
  {
    if kind.Binary? then f else Field(f.id, Canon(kind, f.value))
  }

  function CanonFields(kind: Kind, fs: seq<Field>): seq<Field>
    decreases fs
  {
    if kind.Binary? || fs == [] then fs else [CanonField(kind, fs[0])] + CanonFields(kind, fs[1..])
  }

  function CanonElems(kind: Kind, es: seq<Value>): seq<Value>
    decreases es
  {
    if kind.Binary? || es == [] then es else [Canon(kind, es[0])] + CanonElems(kind, es[1..])
  }

  function CanonEntry(kind: Kind, e: Entry): Entry
    decreases e
  {
    if kind.Binary? then e else Entry(Canon(kind, e.key), Canon(kind, e.value))
  }

  function CanonEntries(kind: Kind, es: seq<Entry>): seq<Entry>
    decreases es
  {
    if kind.Binary? || es == [] then es else [CanonEntry(kind, es[0])] + CanonEntries(kind, es[1..])
  }

  /** n elements of at least minElemSize bytes can come out of available bytes. */
  predicate Backed(n: nat, minElemSize: nat, available: nat) {
    n * minElemSize <= available
  }

  /** The value stays within the limits of cfg; nothing here depends on the bytes available. */
  predicate Fits(cfg: Config, kind: Kind, v: Value)
    decreases v
  {
    match v
    case VString(s) => |s| <= cfg.MessageLimit()
    case VStruct(fs) => FitsFields(cfg, kind, fs)
    case VList(et, es) => FitsCount(cfg, |es|, MinSize(kind, et)) && FitsElems(cfg, kind, es)
    case VSet(et, es) => FitsCount(cfg, |es|, MinSize(kind, et)) && FitsElems(cfg, kind, es)
    case VMap(kt, vt, es) =>
      FitsCount(cfg, |es|, MinSize(kind, kt) + MinSize(kind, vt)) && FitsEntries(cfg, kind, es)
    case _ => true
  }

  predicate FitsField(cfg: Config, kind: Kind, f: Field)
    decreases f
  {
    Fits(cfg, kind, f.value)
  }

  predicate FitsFields(cfg: Config, kind: Kind, fs: seq<Field>)
    decreases fs
  {
    fs != [] ==> FitsField(cfg, kind, fs[0]) && FitsFields(cfg, kind, fs[1..])
  }

  predicate FitsElems(cfg: Config, kind: Kind, es: seq<Value>)
    decreases es
  {
    es != [] ==> Fits(cfg, kind, es[0]) && FitsElems(cfg, kind, es[1..])
  }

  predicate FitsEntry(cfg: Config, kind: Kind, e: Entry)
    decreases e
  {
    Fits(cfg, kind, e.key) && Fits(cfg, kind, e.value)
  }

  predicate FitsEntries(cfg: Config, kind: Kind, es: seq<Entry>)
    decreases es
  {
    es != [] ==> FitsEntry(cfg, kind, es[0]) && FitsEntries(cfg, kind, es[1..])
  }

  // ---- writing and reading through the protocol ---------------------------

  function WriteScalar(w: Writer, v: Value): Writer
    requires IsScalar(v)
  {
    match v
    case VBool(b) => WriteBool(w, b)
    case VByte(n) => WriteByte(w, n)
    case VI16(n) => WriteI16(w, n)
    case VI32(n) => WriteI32(w, n)
    case VI64(n) => WriteI64(w, n)
    case VDouble(bits) => WriteDouble(w, bits)
    case VString(s) => WriteString(w, s)
    case VUuid(s) => WriteUuid(w, s)
  }

  function WriteValue(w: Writer, v: Value): Result<Writer>
    decreases v
  {
    match v
    case VStruct(fs) =>
      var w1 :- WriteFields(WriteStructBegin(w), fs);
      WriteStructEnd(w1)
    case VList(et, es) => WriteElems(WriteListBegin(w, et, |es|), es)
    case VSet(et, es) => WriteElems(WriteListBegin(w, et, |es|), es)
    case VMap(kt, vt, es) => WriteEntries(WriteMapBegin(w, kt, vt, |es|), es)
    case _ => Ok(WriteScalar(w, v))
  }

  function WriteField(w: Writer, f: Field): Result<Writer>
    decreases f
  {
    WriteValue(WriteFieldBegin(w, TypeOf(f.value), f.id), f.value)
  }

  function WriteFields(w: Writer, fs: seq<Field>): Result<Writer>
    decreases fs
  {
    if fs == [] then Ok(WriteFieldStop(w))
    else
      var w1 :- WriteField(w, fs[0]);
      WriteFields(w1, fs[1..])
  }

  function WriteElems(w: Writer, es: seq<Value>): Result<Writer>
    decreases es
  {
    if es == [] then Ok(w)
    else
      var w1 :- WriteValue(w, es[0]);
      WriteElems(w1, es[1..])
  }

  function WriteEntry(w: Writer, e: Entry): Result<Writer>
    decreases e
  {
    var w1 :- WriteValue(w, e.key);
    WriteValue(w1, e.value)
  }

  function WriteEntries(w: Writer, es: seq<Entry>): Result<Writer>
    decreases es
  {
    if es == [] then Ok(w)
    else
      var w1 :- WriteEntry(w, es[0]);
      WriteEntries(w1, es[1..])
  }

  function ReadScalar(r: Reader, ty: TType): (x: Read<Value>)
    requires IsScalarType(ty)
    ensures x.Ok? ==>
      && Advances(r, x.value.1, if ty == BOOL && r.kind.Compact? && r.stash.Some? then 0 else 1)
      && TypeOf(x.value.0) == ty && WellTyped(x.value.0)
      && x.value.1.stash == if ty == BOOL && r.kind.Compact? then None else r.stash
  {
    if ty == BOOL then var (b, r') :- ReadBool(r); Ok((VBool(b), r'))
    else if ty == BYTE then var (n, r') :- ReadByte(r); Ok((VByte(n), r'))
    else if ty == I16 then var (n, r') :- ReadI16(r); Ok((VI16(n), r'))
    else if ty == I32 then var (n, r') :- ReadI32(r); Ok((VI32(n), r'))
    else if ty == I64 then var (n, r') :- ReadI64(r); Ok((VI64(n), r'))
    else if ty == DOUBLE then var (n, r') :- ReadDouble(r); Ok((VDouble(n), r'))
    else if ty == STRING then var (s, r') :- ReadString(r); Ok((VString(s), r'))
    else var (s, r') :- ReadUuid(r); Ok((VUuid(s), r'))
  }

  /** Reads any value of a type, whatever the bytes; every nested value is paid for by a byte before it. */
  function ReadValue(r: Reader, ty: TType): (x: Read<Value>)
    ensures x.Ok? ==> Advances(r, x.value.1, 0) && TypeOf(x.value.0) == ty
    decreases |r.input|, 2, 0
  {
    if IsScalarType(ty) then ReadScalar(r, ty)
    else if ty == STRUCT then
      var (fs, r1) :- ReadFields(ReadStructBegin(r));
      var r2 :- ReadStructEnd(r1);
      Ok((VStruct(fs), r2))
    else if ty == MAP then
      var ((kt, vt, n), r1) :- ReadMapBegin(r);
      var (es, r2) :- ReadEntries(r1, kt, vt, n);
      Ok((VMap(kt, vt, es), r2))
    else if ty == SET then
      var ((et, n), r1) :- ReadListBegin(r);
      var (es, r2) :- ReadElems(r1, et, n);
      Ok((VSet(et, es), r2))
    else if ty == LIST then
      var ((et, n), r1) :- ReadListBegin(r);
      var (es, r2) :- ReadElems(r1, et, n);
      Ok((VList(et, es), r2))
    else Err(InvalidData)
  }

  /** One field, or None at the stop that ends the struct. */
  function ReadField(r: Reader): (x: Read<Option<Field>>)
    ensures x.Ok? ==> Advances(r, x.value.1, 1)
    decreases |r.input|, 0, 0
  {
    var ((ty, id), r1) :- ReadFieldBegin(r);
    if ty == STOP then Ok((None, r1))
    else
      var (v, r2) :- ReadValue(r1, ty);
      Ok((Some(Field(id, v)), r2))
  }

  function ReadFields(r: Reader): (x: Read<seq<Field>>)
    ensures x.Ok? ==> Advances(r, x.value.1, 0)
    decreases |r.input|, 1, 0
  {
    var (f, r1) :- ReadField(r);
    if f == None then Ok(([], r1))
    else
      var (fs, r2) :- ReadFields(r1);
      Ok(([f.value] + fs, r2))
  }

  function ReadElems(r: Reader, et: TType, n: nat): (x: Read<seq<Value>>)
    ensures x.Ok? ==> |x.value.0| == n && Advances(r, x.value.1, 0)
    decreases |r.input|, 3, n
  {
    if n == 0 then Ok(([], r))
    else
      var (v, r1) :- ReadValue(r, et);
      var (es, r2) :- ReadElems(r1, et, n - 1);
      Ok(([v] + es, r2))
  }

  function ReadEntry(r: Reader, kt: TType, vt: TType): (x: Read<Entry>)
    ensures x.Ok? ==> Advances(r, x.value.1, 0)
    decreases |r.input|, 3, 0
  {
    var (k, r1) :- ReadValue(r, kt);
    var (v, r2) :- ReadValue(r1, vt);
    Ok((Entry(k, v), r2))
  }

  function ReadEntries(r: Reader, kt: TType, vt: TType, n: nat): (x: Read<seq<Entry>>)
    ensures x.Ok? ==> |x.value.0| == n && Advances(r, x.value.1, 0)
    decreases |r.input|, 4, n
  {
    if n == 0 then Ok(([], r))
    else
      var (e, r1) :- ReadEntry(r, kt, vt);
      var (es, r2) :- ReadEntries(r1, kt, vt, n - 1);
      Ok(([e] + es, r2))
  }
}
