/** Thrift type codes and the values they classify. */
module Values {
  import opened Bytes

  /** A type code as it travels: any byte may arrive. */
  type TType = Byte

  const STOP: TType := 0
  const VOID: TType := 1
  const BOOL: TType := 2
  const BYTE: TType := 3
  const DOUBLE: TType := 4
  const I16: TType := 6
  const I32: TType := 8
  const I64: TType := 10
  const STRING: TType := 11
  const STRUCT: TType := 12
  const MAP: TType := 13
  const SET: TType := 14
  const LIST: TType := 15
  const UUID: TType := 16

  predicate IsValueType(ty: TType) {
    IsScalarType(ty) || ty == STRUCT || ty == MAP || ty == SET || ty == LIST
  }

  predicate IsScalarType(ty: TType) {
    || ty == BOOL || ty == BYTE || ty == DOUBLE || ty == I16
    || ty == I32 || ty == I64 || ty == STRING || ty == UUID
  }

  /** Doubles are their 64-bit patterns; strings and binaries are byte sequences. */
  datatype Value =
    | VBool(b: bool)
    | VByte(n: int)
    | VI16(n: int)
    | VI32(n: int)
    | VI64(n: int)
    | VDouble(bits: int)
    | VString(bytes: ByteSeq)
    | VUuid(bytes: ByteSeq)
    | VStruct(fields: seq<Field>)
    | VList(elemType: TType, elems: seq<Value>)
    | VSet(elemType: TType, elems: seq<Value>)
    | VMap(keyType: TType, valueType: TType, entries: seq<Entry>)

  datatype Field = Field(id: int, value: Value)
  datatype Entry = Entry(key: Value, value: Value)

  function TypeOf(v: Value): (ty: TType)
    ensures IsValueType(ty)
  {
    match v
    case VBool(_) => BOOL
    case VByte(_) => BYTE
    case VI16(_) => I16
    case VI32(_) => I32
    case VI64(_) => I64
    case VDouble(_) => DOUBLE
    case VString(_) => STRING
    case VUuid(_) => UUID
    case VStruct(_) => STRUCT
    case VList(_, _) => LIST
    case VSet(_, _) => SET
    case VMap(_, _, _) => MAP
  }

  predicate IsScalar(v: Value) { IsScalarType(TypeOf(v)) }

  /**
   * Every number fits its width, every count fits 32 bits, and elements have the declared type. A map
   * without entries may declare anything.
   */
  predicate WellTyped(v: Value)
    decreases v
  {
    match v
    case VBool(_) => true
    case VByte(n) => IsI8(n)
    case VI16(n) => IsI16(n)
    case VI32(n) => IsI32(n)
    case VI64(n) => IsI64(n)
    case VDouble(bits) => IsU64(bits)
    case VString(bytes) => |bytes| <= MAX_I32
    case VUuid(bytes) => |bytes| == 16
    case VStruct(fields) => WellTypedFields(fields)
    case VList(et, elems) => IsValueType(et) && |elems| <= MAX_I32 && WellTypedElems(et, elems)
    case VSet(et, elems) => IsValueType(et) && |elems| <= MAX_I32 && WellTypedElems(et, elems)
    case VMap(kt, vt, entries) => |entries| <= MAX_I32 && WellTypedEntries(kt, vt, entries)
  }

  predicate WellTypedField(f: Field)
    decreases f
  {
    IsI16(f.id) && WellTyped(f.value)
  }

  predicate WellTypedFields(fs: seq<Field>)
    decreases fs
  {
    fs != [] ==> WellTypedField(fs[0]) && WellTypedFields(fs[1..])
  }

  predicate WellTypedElems(et: TType, es: seq<Value>)
    decreases es
  {
    es != [] ==> TypeOf(es[0]) == et && WellTyped(es[0]) && WellTypedElems(et, es[1..])
  }

  predicate WellTypedEntry(kt: TType, vt: TType, e: Entry)
    decreases e
  {
    TypeOf(e.key) == kt && WellTyped(e.key) && TypeOf(e.value) == vt && WellTyped(e.value)
  }

  predicate WellTypedEntries(kt: TType, vt: TType, es: seq<Entry>)
    decreases es
  {
    es != [] ==> WellTypedEntry(kt, vt, es[0]) && WellTypedEntries(kt, vt, es[1..])
  }

  function Max(a: nat, b: nat): nat { if a > b then a else b }

  /** Nesting depth: one for a scalar or an empty container. */
  function Depth(v: Value): (d: nat)
    ensures d >= 1
    decreases v
  {
    match v
    case VStruct(fields) => 1 + FieldsDepth(fields)
    case VList(_, elems) => 1 + ElemsDepth(elems)
    case VSet(_, elems) => 1 + ElemsDepth(elems)
    case VMap(_, _, entries) => 1 + EntriesDepth(entries)
    case _ => 1
  }

  function FieldDepth(f: Field): nat
    decreases f
  {
    Depth(f.value)
  }

  function FieldsDepth(fs: seq<Field>): nat
    decreases fs
  {
    if fs == [] then 0 else Max(FieldDepth(fs[0]), FieldsDepth(fs[1..]))
  }

  function ElemsDepth(es: seq<Value>): nat
    decreases es
  {
    if es == [] then 0 else Max(Depth(es[0]), ElemsDepth(es[1..]))
  }

  function EntryDepth(e: Entry): nat
    decreases e
  {
    Max(Depth(e.key), Depth(e.value))
  }

  function EntriesDepth(es: seq<Entry>): nat
    decreases es
  {
    if es == [] then 0 else Max(EntryDepth(es[0]), EntriesDepth(es[1..]))
  }

  lemma FieldsDepthCons(f: Field, fs: seq<Field>)
    ensures FieldsDepth([f] + fs) == Max(FieldDepth(f), FieldsDepth(fs))
  {
    assert ([f] + fs)[1..] == fs;
  }

  lemma ElemsDepthCons(v: Value, es: seq<Value>)
    ensures ElemsDepth([v] + es) == Max(Depth(v), ElemsDepth(es))
  {
    assert ([v] + es)[1..] == es;
  }

  lemma EntriesDepthCons(e: Entry, es: seq<Entry>)
    ensures EntriesDepth([e] + es) == Max(EntryDepth(e), EntriesDepth(es))
  {
    assert ([e] + es)[1..] == es;
  }
}
