/** Writers produce the grammar; readers invert it. */
module RoundTrip {
  import opened Bytes
  import opened Values
  import opened Varint
  import opened Configuration
  import opened Wire
  import opened Codec

  // ---- the writer produces the grammar ------------------------------------

  lemma PutPut(w: Writer, a: ByteSeq, b: ByteSeq)
    ensures w.Put(a).Put(b) == w.Put(a + b)
  {
    assert (w.output + a) + b == w.output + (a + b);
  }

  lemma ZigzagVarint32(w: Writer, n: int)
    requires IsI32(n)
    ensures WriteVarint32(w, Int32ToZigzag(n)) == w.Put(Encode(ZigzagIndex(n)))
  {
    Zigzag32Index(n);
  }

  lemma WriteScalarEncodes(w: Writer, v: Value)
    requires IsScalar(v) && WellTyped(v) && w.pending == None
    ensures WriteScalar(w, v) == w.Put(EncScalar(w.kind, v))
  {
    match v
    case VI16(n) => if w.kind.Compact? { ZigzagVarint32(w, n); }
    case VI32(n) => if w.kind.Compact? { ZigzagVarint32(w, n); }
    case VI64(n) => if w.kind.Compact? { Zigzag64Index(n); }
    case VString(s) => PutPut(w, if w.kind.Binary? then PutU32(ToU32(|s|)) else Encode(|s|), s);
    case _ =>
  }

  lemma WriteFieldHeaderEncodes(w: Writer, code: Byte, id: int)
    requires w.kind.Compact? && code < 16 && IsI16(id)
    ensures WriteFieldHeader(w, code, id) == w.Put(EncCompactHeader(w.lastFieldId, id, code)).(lastFieldId := id)
  {
    ZigzagVarint32(w.Put([code]), id);
    PutPut(w, [code], Encode(ZigzagIndex(id)));
  }

  lemma WriteListBeginEncodes(w: Writer, et: TType, n: nat)
    requires n <= MAX_I32
    ensures WriteListBegin(w, et, n) == w.Put(EncListHeader(w.kind, et, n))
  {
    PutPut(w, [et], PutU32(ToU32(n)));
    PutPut(w, [0xf0 + CompactType(et)], Encode(n));
  }

  lemma WriteMapBeginEncodes(w: Writer, kt: TType, vt: TType, n: nat)
    requires n <= MAX_I32
    ensures WriteMapBegin(w, kt, vt, n) == w.Put(EncMapHeader(w.kind, kt, vt, n))
  {
    PutPut(w, [kt], [vt]);
    assert [kt] + [vt] == [kt, vt];
    PutPut(w, [kt, vt], PutU32(ToU32(n)));
    PutPut(w, Encode(n), [CompactType(kt) * 16 + CompactType(vt)]);
  }

  /**
   * Writing a value appends exactly its encoding; the field-id stack, the current field id and the
   * deferred boolean are as they were.
   */
  lemma {:induction false} WriteValueEncodes(w: Writer, v: Value)
    requires WellTyped(v) && w.pending == None
    ensures WriteValue(w, v) == Ok(w.Put(Enc(w.kind, v)))
    decreases v
  {
    match v
    case VStruct(fs) =>
      var w1 := WriteStructBegin(w);
      WriteFieldsEncode(w1, fs);
      if w.kind.Compact? {
        assert w1.lastField[..|w.lastField|] == w.lastField;
      } else {
        EncFieldsBinary(w.lastFieldId, 0, fs);
        LastIdBinary(w.lastFieldId, fs);
      }
    case VList(et, es) =>
      WriteListBeginEncodes(w, et, |es|);
      WriteElemsEncode(w.Put(EncListHeader(w.kind, et, |es|)), et, es);
      PutPut(w, EncListHeader(w.kind, et, |es|), EncElems(w.kind, es));
    case VSet(et, es) =>
      WriteListBeginEncodes(w, et, |es|);
      WriteElemsEncode(w.Put(EncListHeader(w.kind, et, |es|)), et, es);
      PutPut(w, EncListHeader(w.kind, et, |es|), EncElems(w.kind, es));
    case VMap(kt, vt, es) =>
      WriteMapBeginEncodes(w, kt, vt, |es|);
      WriteEntriesEncode(w.Put(EncMapHeader(w.kind, kt, vt, |es|)), kt, vt, es);
      PutPut(w, EncMapHeader(w.kind, kt, vt, |es|), EncEntries(w.kind, es));
    case _ =>
      WriteScalarEncodes(w, v);
  }

  /** The binary format ignores the previous field id. */
  lemma {:induction false} EncFieldsBinary(a: int, b: int, fs: seq<Field>)
    ensures EncFields(Binary, a, fs) == EncFields(Binary, b, fs)
  {
    if fs != [] {
      EncFieldsBinary(a, b, fs[1..]);
    }
  }

  lemma {:induction false} LastIdBinary(a: int, fs: seq<Field>)
    ensures LastId(Binary, a, fs) == a
  {
    if fs != [] {
      LastIdBinary(a, fs[1..]);
    }
  }

  lemma {:induction false} WriteFieldEncodes(w: Writer, f: Field)
    requires WellTypedField(f) && w.pending == None
    ensures WriteField(w, f) ==
            Ok(w.Put(EncField(w.kind, w.lastFieldId, f)).(lastFieldId := NextLast(w.kind, w.lastFieldId, f.id)))
    decreases f
  {
    var ty := TypeOf(f.value);
    match w.kind
    case Binary =>
      var w1 := WriteFieldBegin(w, ty, f.id);
      PutPut(w, [ty], PutU16(ToU16(f.id)));
      WriteValueEncodes(w1, f.value);
      PutPut(w, [ty] + PutU16(ToU16(f.id)), Enc(w.kind, f.value));
    case Compact =>
      if f.value.VBool? {
        WriteFieldHeaderEncodes(w.(pending := Some(f.id)), if f.value.b then 1 else 2, f.id);
      } else {
        WriteFieldHeaderEncodes(w, CompactType(ty), f.id);
        var w1 := WriteFieldBegin(w, ty, f.id);
        WriteValueEncodes(w1, f.value);
        PutPut(w, EncCompactHeader(w.lastFieldId, f.id, CompactType(ty)), Enc(w.kind, f.value));
      }
  }

  lemma {:induction false} WriteFieldsEncode(w: Writer, fs: seq<Field>)
    requires WellTypedFields(fs) && w.pending == None
    ensures WriteFields(w, fs) ==
            Ok(w.Put(EncFields(w.kind, w.lastFieldId, fs)).(lastFieldId := LastId(w.kind, w.lastFieldId, fs)))
    decreases fs
  {
    if fs != [] {
      WriteFieldEncodes(w, fs[0]);
      var w1 := WriteField(w, fs[0]).value;
      WriteFieldsEncode(w1, fs[1..]);
      PutPut(w, EncField(w.kind, w.lastFieldId, fs[0]), EncFields(w.kind, w1.lastFieldId, fs[1..]));
    }
  }

  lemma {:induction false} WriteElemsEncode(w: Writer, et: TType, es: seq<Value>)
    requires WellTypedElems(et, es) && w.pending == None
    ensures WriteElems(w, es) == Ok(w.Put(EncElems(w.kind, es)))
    decreases es
  {
    if es == [] {
      assert w.output + [] == w.output;
    } else {
      WriteValueEncodes(w, es[0]);
      WriteElemsEncode(w.Put(Enc(w.kind, es[0])), et, es[1..]);
      PutPut(w, Enc(w.kind, es[0]), EncElems(w.kind, es[1..]));
    }
  }

  lemma {:induction false} WriteEntryEncodes(w: Writer, kt: TType, vt: TType, e: Entry)
    requires WellTypedEntry(kt, vt, e) && w.pending == None
    ensures WriteEntry(w, e) == Ok(w.Put(EncEntry(w.kind, e)))
    decreases e
  {
    WriteValueEncodes(w, e.key);
    WriteValueEncodes(w.Put(Enc(w.kind, e.key)), e.value);
    PutPut(w, Enc(w.kind, e.key), Enc(w.kind, e.value));
  }

  lemma {:induction false} WriteEntriesEncode(w: Writer, kt: TType, vt: TType, es: seq<Entry>)
    requires WellTypedEntries(kt, vt, es) && w.pending == None
    ensures WriteEntries(w, es) == Ok(w.Put(EncEntries(w.kind, es)))
    decreases es
  {
    if es == [] {
      assert w.output + [] == w.output;
    } else {
      WriteEntryEncodes(w, kt, vt, es[0]);
      WriteEntriesEncode(w.Put(EncEntry(w.kind, es[0])), kt, vt, es[1..]);
      PutPut(w, EncEntry(w.kind, es[0]), EncEntries(w.kind, es[1..]));
    }
  }

  // ---- no value is shorter than its minimum size --------------------------

  lemma EncAtLeastMinSize(kind: Kind, v: Value)
    requires WellTyped(v)
    ensures |Enc(kind, v)| >= MinSize(kind, TypeOf(v))
  {
  }

  lemma MulStep(n: nat, m: nat)
    requires n > 0
    ensures n * m == (n - 1) * m + m
  {
  }

  /** The elements of a container back its count, whatever follows them. */
  lemma {:induction false} ElemsBackCount(kind: Kind, et: TType, es: seq<Value>, rest: ByteSeq)
    requires WellTypedElems(et, es)
    ensures Backed(|es|, MinSize(kind, et), |EncElems(kind, es) + rest|)
  {
    if es != [] {
      EncAtLeastMinSize(kind, es[0]);
      ElemsBackCount(kind, et, es[1..], rest);
      MulStep(|es|, MinSize(kind, et));
    }
  }

  lemma EncEntryAtLeast(kind: Kind, kt: TType, vt: TType, e: Entry)
    requires WellTypedEntry(kt, vt, e)
    ensures |EncEntry(kind, e)| >= MinSize(kind, kt) + MinSize(kind, vt)
  {
    EncAtLeastMinSize(kind, e.key);
    EncAtLeastMinSize(kind, e.value);
  }

  lemma {:induction false} EntriesBackCount(kind: Kind, kt: TType, vt: TType, es: seq<Entry>, rest: ByteSeq)
    requires WellTypedEntries(kt, vt, es)
    ensures Backed(|es|, MinSize(kind, kt) + MinSize(kind, vt), |EncEntries(kind, es) + rest|)
  {
    if es != [] {
      EncEntryAtLeast(kind, kt, vt, es[0]);
      EntriesBackCount(kind, kt, vt, es[1..], rest);
      MulStep(|es|, MinSize(kind, kt) + MinSize(kind, vt));
    }
  }

  // ---- the reader inverts the grammar -------------------------------------

  /** r after the bytes in front of rest; or the limit error when the value does not fit. */
  function Back<T>(fits: bool, x: T, r: Reader, rest: ByteSeq): Read<T> {
    if fits then Ok((x, r.(input := rest))) else Err(SizeLimit)
  }

  lemma TakeFront(r: Reader, a: ByteSeq, rest: ByteSeq)
    requires r.input == a + rest
    ensures Take(r, |a|) == Back(true, a, r, rest)
    ensures |a| == 1 ==> TakeByte(r) == Back(true, a[0], r, rest)
  {
    assert r.input[..|a|] == a && r.input[|a|..] == rest;
  }

  lemma TakeVarintBack(r: Reader, n: int, rest: ByteSeq)
    requires 0 <= n <= MAX_I32 && r.input == Encode(n) + rest
    ensures TakeVarint32(r) == Back(true, n, r, rest)
  {
    ReadWriteVarint32(n, rest);
  }

  lemma TakeI32Back(r: Reader, n: int, rest: ByteSeq)
    requires IsI32(n) && r.input == Varint32(n) + rest
    ensures TakeVarint32(r) == Back(true, n, r, rest)
  {
    ReadWriteVarint32(n, rest);
  }

  lemma TakeZigzagBack(r: Reader, n: int, rest: ByteSeq)
    requires r.kind.Compact? && IsI32(n) && r.input == Encode(ZigzagIndex(n)) + rest
    ensures ReadI32(r) == Back(true, n, r, rest)
    ensures IsI16(n) ==> ReadI16(r) == Back(true, n, r, rest)
  {
    Zigzag32Index(n);
    Zigzag32(n);
    ReadWriteVarint32(Int32ToZigzag(n), rest);
  }

  lemma TakeU16Back(r: Reader, n: int, rest: ByteSeq)
    requires r.kind.Binary? && IsI16(n) && r.input == PutU16(ToU16(n)) + rest
    ensures ReadI16(r) == Back(true, n, r, rest)
  {
    TakeFront(r, PutU16(ToU16(n)), rest);
  }

  lemma TakeU32Back(r: Reader, n: int, rest: ByteSeq)
    requires r.kind.Binary? && IsI32(n) && r.input == PutU32(ToU32(n)) + rest
    ensures ReadI32(r) == Back(true, n, r, rest)
  {
    TakeFront(r, PutU32(ToU32(n)), rest);
    GetPutU32(ToU32(n));
  }

  lemma TakeU64Back(r: Reader, n: int, rest: ByteSeq)
    requires r.kind.Binary? && IsI64(n) && r.input == PutU64(ToU64(n)) + rest
    ensures ReadI64(r) == Back(true, n, r, rest)
  {
    TakeFront(r, PutU64(ToU64(n)), rest);
    GetPutU64(ToU64(n));
  }

  lemma ReadNumberBack(r: Reader, v: Value, rest: ByteSeq)
    requires v.VI16? || v.VI32? || v.VI64? || v.VDouble?
    requires WellTyped(v) && r.input == EncScalar(r.kind, v) + rest
    ensures ReadScalar(r, TypeOf(v)) == Back(true, v, r, rest)
  {
    match v
    case VI16(n) => if r.kind.Binary? { TakeU16Back(r, n, rest); } else { TakeZigzagBack(r, n, rest); }
    case VI32(n) => if r.kind.Binary? { TakeU32Back(r, n, rest); } else { TakeZigzagBack(r, n, rest); }
    case VI64(n) =>
      if r.kind.Binary? {
        TakeU64Back(r, n, rest);
      } else {
        Zigzag64Index(n);
        Zigzag64(n);
        ReadWriteVarint64(Int64ToZigzag(n), rest);
      }
    case VDouble(bits) =>
      TakeFront(r, EncScalar(r.kind, v), rest);
      GetPutU64(bits);
  }

  lemma ReadStringBack(r: Reader, s: ByteSeq, rest: ByteSeq)
    requires |s| <= MAX_I32 && r.input == EncScalar(r.kind, VString(s)) + rest
    ensures ReadString(r) == Back(|s| <= r.cfg.MessageLimit(), s, r, rest)
  {
    var size := if r.kind.Binary? then PutU32(ToU32(|s|)) else Encode(|s|);
    assert r.input == size + (s + rest);
    if r.kind.Binary? { TakeU32Back(r, |s|, s + rest); } else { TakeVarintBack(r, |s|, s + rest); }
    TakeFront(r.(input := s + rest), s, rest);
  }

  lemma ReadScalarBack(r: Reader, v: Value, rest: ByteSeq)
    requires IsScalar(v) && WellTyped(v) && r.stash == None
    requires r.input == EncScalar(r.kind, v) + rest
    ensures ReadScalar(r, TypeOf(v)) == Back(Fits(r.cfg, r.kind, v), v, r, rest)
  {
    match v
    case VString(s) => ReadStringBack(r, s, rest);
    case VBool(_) => TakeFront(r, EncScalar(r.kind, v), rest);
    case VByte(_) => TakeFront(r, EncScalar(r.kind, v), rest);
    case VUuid(_) => TakeFront(r, EncScalar(r.kind, v), rest);
    case _ => ReadNumberBack(r, v, rest);
  }

  lemma CompactTypeBack(ty: TType)
    requires IsValueType(ty)
    ensures TypeOfNibble(CompactType(ty)) == Ok(ty)
  {
  }

  /** A list header is accepted exactly when the count is within the limits: the bytes left never refuse it. */
  lemma ReadListBeginBack(r: Reader, et: TType, n: nat, rest: ByteSeq)
    requires IsValueType(et) && n <= MAX_I32 && r.input == EncListHeader(r.kind, et, n) + rest
    requires Backed(n, MinSize(r.kind, et), |rest|)
    ensures ReadListBegin(r) == Back(FitsCount(r.cfg, n, MinSize(r.kind, et)), (et, n), r, rest)
  {
    if r.kind.Binary? {
      var tail := PutU32(ToU32(n)) + rest;
      assert r.input == [et] + tail;
      TakeFront(r, [et], tail);
      TakeU32Back(r.(input := tail), n, rest);
    } else {
      CompactTypeBack(et);
      ReadCompactListBeginBack(r, et, CompactType(et), n, rest);
    }
  }

  lemma ReadCompactListBeginBack(r: Reader, et: TType, c: Byte, n: nat, rest: ByteSeq)
    requires r.kind.Compact? && c < 16 && TypeOfNibble(c) == Ok(et) && n <= MAX_I32
    requires r.input == (if n <= 14 then [n * 16 + c] else [0xf0 + c] + Encode(n)) + rest
    requires Backed(n, MinSize(r.kind, et), |rest|)
    ensures ReadListBegin(r) == Back(FitsCount(r.cfg, n, MinSize(r.kind, et)), (et, n), r, rest)
  {
    var b: Byte := if n <= 14 then n * 16 + c else 0xf0 + c;
    assert b / 16 == (if n <= 14 then n else 15) && b % 16 == c;
    if n <= 14 {
      TakeFront(r, [b], rest);
    } else {
      assert r.input == [b] + (Encode(n) + rest);
      TakeFront(r, [b], Encode(n) + rest);
      TakeVarintBack(r.(input := Encode(n) + rest), n, rest);
    }
  }

  lemma ReadMapBeginBack(r: Reader, kt: TType, vt: TType, n: nat, rest: ByteSeq)
    requires n <= MAX_I32 && (n > 0 ==> IsValueType(kt) && IsValueType(vt))
    requires r.input == EncMapHeader(r.kind, kt, vt, n) + rest
    requires Backed(n, MinSize(r.kind, kt) + MinSize(r.kind, vt), |rest|)
    ensures ReadMapBegin(r) ==
            Back(FitsCount(r.cfg, n, MinSize(r.kind, kt) + MinSize(r.kind, vt)),
                 if r.kind.Compact? && n == 0 then (STOP, STOP, 0) else (kt, vt, n), r, rest)
  {
    if r.kind.Binary? {
      ReadBinaryMapBeginBack(r, kt, vt, n, rest);
    } else if n == 0 {
      assert [0] == Encode(0);
      TakeVarintBack(r, 0, rest);
    } else {
      CompactTypeBack(kt);
      CompactTypeBack(vt);
      ReadCompactMapBeginBack(r, kt, vt, CompactType(kt), CompactType(vt), n, rest);
    }
  }

  lemma ReadBinaryMapBeginBack(r: Reader, kt: TType, vt: TType, n: nat, rest: ByteSeq)
    requires r.kind.Binary? && n <= MAX_I32
    requires r.input == [kt, vt] + PutU32(ToU32(n)) + rest
    requires Backed(n, MinSize(r.kind, kt) + MinSize(r.kind, vt), |rest|)
    ensures ReadMapBegin(r) ==
            Back(FitsCount(r.cfg, n, MinSize(r.kind, kt) + MinSize(r.kind, vt)), (kt, vt, n), r, rest)
  {
    var tail := PutU32(ToU32(n)) + rest;
    assert r.input == [kt] + ([vt] + tail);
    TakeFront(r, [kt], [vt] + tail);
    TakeFront(r.(input := [vt] + tail), [vt], tail);
    TakeU32Back(r.(input := tail), n, rest);
  }

  lemma ReadCompactMapBeginBack(r: Reader, kt: TType, vt: TType, k: Byte, v: Byte, n: nat, rest: ByteSeq)
    requires r.kind.Compact? && 0 < n <= MAX_I32
    requires k < 16 && v < 16 && TypeOfNibble(k) == Ok(kt) && TypeOfNibble(v) == Ok(vt)
    requires r.input == Encode(n) + [k * 16 + v] + rest
    requires Backed(n, MinSize(r.kind, kt) + MinSize(r.kind, vt), |rest|)
    ensures ReadMapBegin(r) ==
            Back(FitsCount(r.cfg, n, MinSize(r.kind, kt) + MinSize(r.kind, vt)), (kt, vt, n), r, rest)
  {
    var kv: Byte := k * 16 + v;
    assert kv / 16 == k && kv % 16 == v;
    assert r.input == Encode(n) + ([kv] + rest);
    TakeVarintBack(r, n, [kv] + rest);
    TakeFront(r.(input := [kv] + rest), [kv], rest);
  }

  lemma ReadBinaryFieldBeginBack(r: Reader, id: int, ty: TType, rest: ByteSeq)
    requires r.kind.Binary? && IsI16(id) && ty != STOP && r.input == [ty] + PutU16(ToU16(id)) + rest
    ensures ReadFieldBegin(r) == Back(true, (ty, id), r, rest)
  {
    var tail := PutU16(ToU16(id)) + rest;
    assert r.input == [ty] + tail;
    TakeFront(r, [ty], tail);
    TakeU16Back(r.(input := tail), id, rest);
  }

  lemma ReadCompactFieldBeginBack(r: Reader, id: int, ty: TType, c: Byte, rest: ByteSeq)
    requires r.kind.Compact? && IsI16(id) && IsI16(r.lastFieldId)
    requires 0 < c < 16 && TypeOfNibble(c) == Ok(ty)
    requires r.input == EncCompactHeader(r.lastFieldId, id, c) + rest
    ensures ReadFieldBegin(r) ==
            Back(true, (ty, id), r.(lastFieldId := id, stash := if ty == BOOL then Some(c == 1) else r.stash), rest)
  {
    var last := r.lastFieldId;
    if last < id <= last + 15 {
      var b: Byte := (id - last) * 16 + c;
      assert b / 16 == id - last && b % 16 == c;
      TakeFront(r, [b], rest);
    } else {
      var tail := Encode(ZigzagIndex(id)) + rest;
      assert r.input == [c] + tail;
      TakeFront(r, [c], tail);
      TakeZigzagBack(r.(input := tail), id, rest);
    }
  }

  /**
   * Decoding what the writer produced, whatever follows it: the same value comes back (up to the
   * types of empty compact maps), exactly its bytes are consumed, and the field-id stack, the current
   * field id and the stashed boolean are as they were. It is refused, with a size-limit error, exactly
   * when it does not fit the configured limits.
   */
  lemma {:induction false} ReadValueInverts(r: Reader, v: Value, rest: ByteSeq)
    requires WellTyped(v) && r.stash == None
    requires r.input == Enc(r.kind, v) + rest
    ensures ReadValue(r, TypeOf(v)) == Back(Fits(r.cfg, r.kind, v), Canon(r.kind, v), r, rest)
    decreases v
  {
    match v
    case VStruct(fs) => ReadStructInverts(r, fs, rest);
    case VList(et, es) => ReadListInverts(r, v, et, es, rest);
    case VSet(et, es) => ReadListInverts(r, v, et, es, rest);
    case VMap(kt, vt, es) => ReadMapInverts(r, kt, vt, es, rest);
    case _ => ReadScalarBack(r, v, rest);
  }

  lemma {:induction false} ReadStructInverts(r: Reader, fs: seq<Field>, rest: ByteSeq)
    requires WellTypedFields(fs) && r.stash == None
    requires r.input == EncFields(r.kind, 0, fs) + rest
    ensures ReadValue(r, STRUCT) == Back(FitsFields(r.cfg, r.kind, fs), VStruct(CanonFields(r.kind, fs)), r, rest)
    decreases fs, 1
  {
    var r1 := ReadStructBegin(r);
    if r.kind.Binary? {
      EncFieldsBinary(0, r1.lastFieldId, fs);
      LastIdBinary(r1.lastFieldId, fs);
    } else {
      assert r1.lastField[..|r.lastField|] == r.lastField;
    }
    ReadFieldsInvert(r1, fs, rest);
  }

  /** A list or set: its header, then its elements. */
  lemma {:induction false} ReadListInverts(r: Reader, v: Value, et: TType, es: seq<Value>, rest: ByteSeq)
    requires v == VList(et, es) || v == VSet(et, es)
    requires WellTyped(v) && r.stash == None
    requires r.input == EncListHeader(r.kind, et, |es|) + EncElems(r.kind, es) + rest
    ensures ReadValue(r, TypeOf(v)) == Back(Fits(r.cfg, r.kind, v), Canon(r.kind, v), r, rest)
    decreases es, 1
  {
    hide FitsCount, Backed, MinSize, ReadListBegin;
    var body := EncElems(r.kind, es) + rest;
    assert r.input == EncListHeader(r.kind, et, |es|) + body;
    ElemsBackCount(r.kind, et, es, rest);
    ReadListBeginBack(r, et, |es|, body);
    ReadElemsInvert(r.(input := body), et, es, rest);
  }

  lemma ReadEmptyMapBeginBack(r: Reader, kt: TType, vt: TType, rest: ByteSeq)
    requires r.input == EncMapHeader(r.kind, kt, vt, 0) + rest
    ensures ReadMapBegin(r) == Back(true, if r.kind.Compact? then (STOP, STOP, 0) else (kt, vt, 0), r, rest)
  {
    hide MinSize, ReadMapBegin, EncMapHeader;
    ReadMapBeginBack(r, kt, vt, 0, rest);
  }

  lemma ReadMapValue(r: Reader)
    ensures ReadValue(r, MAP) ==
      var ((kt, vt, n), r1) :- ReadMapBegin(r);
      var (es, r2) :- ReadEntries(r1, kt, vt, n);
      Ok((VMap(kt, vt, es), r2))
  {
  }

  /** An empty map: a compact one gives no types, so none come back. */
  lemma ReadEmptyMapInverts(r: Reader, kt: TType, vt: TType, rest: ByteSeq)
    requires r.input == EncMapHeader(r.kind, kt, vt, 0) + rest
    ensures ReadValue(r, MAP) == Back(true, Canon(r.kind, VMap(kt, vt, [])), r, rest)
  {
    ReadEmptyMapBeginBack(r, kt, vt, rest);
    hide *;
    ReadMapValue(r);
    var r1 := r.(input := rest);
    var (k, v) := if r.kind.Compact? then (STOP, STOP) else (kt, vt);
    assert ReadMapBegin(r) == Ok(((k, v, 0), r1));
    assert ReadEntries(r1, k, v, 0) == Ok(([], r1));
  }

  lemma {:induction false} ReadMapInverts(r: Reader, kt: TType, vt: TType, es: seq<Entry>, rest: ByteSeq)
    requires WellTyped(VMap(kt, vt, es)) && r.stash == None
    requires r.input == EncMapHeader(r.kind, kt, vt, |es|) + EncEntries(r.kind, es) + rest
    ensures ReadValue(r, MAP) ==
            Back(Fits(r.cfg, r.kind, VMap(kt, vt, es)), Canon(r.kind, VMap(kt, vt, es)), r, rest)
    decreases es, 1
  {
    hide MinSize, ReadMapBegin;
    var body := EncEntries(r.kind, es) + rest;
    assert r.input == EncMapHeader(r.kind, kt, vt, |es|) + body;
    if es == [] {
      ReadEmptyMapInverts(r, kt, vt, rest);
    } else {
      hide FitsCount, Backed;
      assert WellTypedEntry(kt, vt, es[0]);
      EntriesBackCount(r.kind, kt, vt, es, rest);
      ReadMapBeginBack(r, kt, vt, |es|, body);
      hide EncMapHeader, EncEntries, CanonEntries, ReadEntries, FitsEntries, WellTypedEntries;
      var r1 := r.(input := body);
      ReadEntriesInvert(r1, kt, vt, es, rest);
      if FitsCount(r.cfg, |es|, MinSize(r.kind, kt) + MinSize(r.kind, vt)) {
        assert ReadMapBegin(r) == Ok(((kt, vt, |es|), r1));
      }
    }
  }

  lemma {:induction false} ReadFieldsInvert(r: Reader, fs: seq<Field>, rest: ByteSeq)
    requires WellTypedFields(fs) && r.stash == None && (r.kind.Compact? ==> IsI16(r.lastFieldId))
    requires r.input == EncFields(r.kind, r.lastFieldId, fs) + rest
    ensures ReadFields(r) ==
            Back(FitsFields(r.cfg, r.kind, fs), CanonFields(r.kind, fs),
                 r.(lastFieldId := LastId(r.kind, r.lastFieldId, fs)), rest)
    decreases fs, 0
  {
    if fs == [] {
      ReadStopBack(r, rest);
    } else {
      hide ReadField, EncField, CanonField, FitsField;
      assert fs == [fs[0]] + fs[1..];
      var last := NextLast(r.kind, r.lastFieldId, fs[0].id);
      var tail := EncFields(r.kind, last, fs[1..]) + rest;
      assert r.input == EncField(r.kind, r.lastFieldId, fs[0]) + tail;
      ReadFieldInverts(r, fs[0], tail);
      var r1 := r.(input := tail, lastFieldId := last);
      if FitsField(r.cfg, r.kind, fs[0]) {
        assert ReadField(r) == Ok((Some(CanonField(r.kind, fs[0])), r1));
        assert WellTypedField(fs[0]);
        hide WellTypedField;
        ReadFieldsInvert(r1, fs[1..], rest);
      }
    }
  }

  lemma ReadStopBack(r: Reader, rest: ByteSeq)
    requires r.input == [STOP] + rest
    ensures ReadFields(r) == Ok(([], r.(input := rest)))
  {
    TakeFront(r, [STOP], rest);
  }

  /** One field: its header, then its value, which a compact boolean takes from the header. */
  lemma {:induction false} ReadFieldInverts(r: Reader, f: Field, rest: ByteSeq)
    requires WellTypedField(f) && r.stash == None && (r.kind.Compact? ==> IsI16(r.lastFieldId))
    requires r.input == EncField(r.kind, r.lastFieldId, f) + rest
    ensures ReadField(r) ==
            Back(FitsField(r.cfg, r.kind, f), Some(CanonField(r.kind, f)),
                 r.(lastFieldId := NextLast(r.kind, r.lastFieldId, f.id)), rest)
    decreases f
  {
    var r2 := r.(input := rest, lastFieldId := NextLast(r.kind, r.lastFieldId, f.id));
    var ty := TypeOf(f.value);
    if r.kind.Binary? {
      hide ReadFieldBegin;
      var tail := Enc(r.kind, f.value) + rest;
      assert r.input == [ty] + PutU16(ToU16(f.id)) + tail;
      ReadBinaryFieldBeginBack(r, f.id, ty, tail);
      ReadValueInverts(r.(input := tail), f.value, rest);
    } else if f.value.VBool? {
      ReadCompactFieldBeginBack(r, f.id, ty, if f.value.b then 1 else 2, rest);
      hide ReadFieldBegin;
    } else {
      hide ReadFieldBegin;
      var tail := Enc(r.kind, f.value) + rest;
      assert r.input == EncCompactHeader(r.lastFieldId, f.id, CompactType(ty)) + tail;
      CompactTypeBack(ty);
      ReadCompactFieldBeginBack(r, f.id, ty, CompactType(ty), tail);
      ReadValueInverts(r2.(input := tail), f.value, rest);
    }
  }

  lemma {:induction false} ReadElemsInvert(r: Reader, et: TType, es: seq<Value>, rest: ByteSeq)
    requires WellTypedElems(et, es) && r.stash == None
    requires r.input == EncElems(r.kind, es) + rest
    ensures ReadElems(r, et, |es|) == Back(FitsElems(r.cfg, r.kind, es), CanonElems(r.kind, es), r, rest)
    decreases es, 0
  {
    if es == [] {
      assert [] + rest == rest;
    } else {
      hide ReadValue, Enc, Canon, Fits, WellTyped, TypeOf;
      assert es == [es[0]] + es[1..];
      var tail := EncElems(r.kind, es[1..]) + rest;
      assert r.input == Enc(r.kind, es[0]) + tail;
      ReadValueInverts(r, es[0], tail);
      if Fits(r.cfg, r.kind, es[0]) {
        var r1 := r.(input := tail);
        ReadElemsInvert(r1, et, es[1..], rest);
        assert ReadValue(r, et) == Ok((Canon(r.kind, es[0]), r1));
      }
    }
  }

  lemma {:induction false} ReadEntriesInvert(r: Reader, kt: TType, vt: TType, es: seq<Entry>, rest: ByteSeq)
    requires WellTypedEntries(kt, vt, es) && r.stash == None
    requires r.input == EncEntries(r.kind, es) + rest
    ensures ReadEntries(r, kt, vt, |es|) == Back(FitsEntries(r.cfg, r.kind, es), CanonEntries(r.kind, es), r, rest)
    decreases es, 0
  {
    if es == [] {
      assert [] + rest == rest;
    } else {
      hide ReadEntry, EncEntry, CanonEntry, FitsEntry, WellTypedEntry;
      assert es == [es[0]] + es[1..];
      var tail := EncEntries(r.kind, es[1..]) + rest;
      assert r.input == EncEntry(r.kind, es[0]) + tail;
      var r1 := r.(input := tail);
      ReadEntryInverts(r, kt, vt, es[0], tail);
      if FitsEntry(r.cfg, r.kind, es[0]) {
        ReadEntriesInvert(r1, kt, vt, es[1..], rest);
        assert ReadEntry(r, kt, vt) == Ok((CanonEntry(r.kind, es[0]), r1));
      }
    }
  }

  lemma {:induction false} ReadEntryInverts(r: Reader, kt: TType, vt: TType, e: Entry, rest: ByteSeq)
    requires WellTypedEntry(kt, vt, e) && r.stash == None
    requires r.input == EncEntry(r.kind, e) + rest
    ensures ReadEntry(r, kt, vt) == Back(FitsEntry(r.cfg, r.kind, e), CanonEntry(r.kind, e), r, rest)
    decreases e
  {
    hide ReadValue, Enc, Fits, WellTyped, TypeOf;
    var middle := Enc(r.kind, e.value) + rest;
    assert r.input == Enc(r.kind, e.key) + middle;
    ReadValueInverts(r, e.key, middle);
    if Fits(r.cfg, r.kind, e.key) {
      var r1 := r.(input := middle);
      assert ReadValue(r, kt) == Ok((Canon(r.kind, e.key), r1));
      ReadValueInverts(r1, e.value, rest);
    }
  }

  // ---- what canonical values keep -----------------------------------------

  lemma {:induction false} CanonKeeps(kind: Kind, v: Value)
    requires WellTyped(v)
    ensures WellTyped(Canon(kind, v)) && TypeOf(Canon(kind, v)) == TypeOf(v) && Depth(Canon(kind, v)) == Depth(v)
    decreases v
  {
    match v
    case VStruct(fs) => CanonFieldsKeep(kind, fs);
    case VList(et, es) => CanonElemsKeep(kind, et, es);
    case VSet(et, es) => CanonElemsKeep(kind, et, es);
    case VMap(kt, vt, es) => CanonEntriesKeep(kind, kt, vt, es);
    case _ =>
  }

  lemma {:induction false} CanonFieldKeeps(kind: Kind, f: Field)
    requires WellTypedField(f)
    ensures WellTypedField(CanonField(kind, f)) && FieldDepth(CanonField(kind, f)) == FieldDepth(f)
    decreases f
  {
    CanonKeeps(kind, f.value);
  }

  lemma {:induction false} CanonFieldsKeep(kind: Kind, fs: seq<Field>)
    requires WellTypedFields(fs)
    ensures WellTypedFields(CanonFields(kind, fs)) && FieldsDepth(CanonFields(kind, fs)) == FieldsDepth(fs)
    decreases fs
  {
    if fs != [] {
      CanonFieldKeeps(kind, fs[0]);
      CanonFieldsKeep(kind, fs[1..]);
      assert CanonFields(kind, fs)[1..] == CanonFields(kind, fs[1..]);
    }
  }

  lemma {:induction false} CanonElemsKeep(kind: Kind, et: TType, es: seq<Value>)
    requires WellTypedElems(et, es)
    ensures WellTypedElems(et, CanonElems(kind, es)) && |CanonElems(kind, es)| == |es|
    ensures ElemsDepth(CanonElems(kind, es)) == ElemsDepth(es)
    decreases es
  {
    if es != [] {
      CanonKeeps(kind, es[0]);
      CanonElemsKeep(kind, et, es[1..]);
      assert CanonElems(kind, es)[1..] == CanonElems(kind, es[1..]);
    }
  }

  lemma {:induction false} CanonEntryKeeps(kind: Kind, kt: TType, vt: TType, e: Entry)
    requires WellTypedEntry(kt, vt, e)
    ensures WellTypedEntry(kt, vt, CanonEntry(kind, e)) && EntryDepth(CanonEntry(kind, e)) == EntryDepth(e)
    decreases e
  {
    CanonKeeps(kind, e.key);
    CanonKeeps(kind, e.value);
  }

  lemma {:induction false} CanonEntriesKeep(kind: Kind, kt: TType, vt: TType, es: seq<Entry>)
    requires WellTypedEntries(kt, vt, es)
    ensures WellTypedEntries(kt, vt, CanonEntries(kind, es)) && |CanonEntries(kind, es)| == |es|
    ensures EntriesDepth(CanonEntries(kind, es)) == EntriesDepth(es)
    decreases es
  {
    if es != [] {
      CanonEntryKeeps(kind, kt, vt, es[0]);
      CanonEntriesKeep(kind, kt, vt, es[1..]);
      assert CanonEntries(kind, es)[1..] == CanonEntries(kind, es[1..]);
    }
  }

  // ---- writing, then reading ----------------------------------------------

  /** Every map without entries already declares no types. */
  predicate EmptyMapsUntyped(v: Value)
    decreases v
  {
    match v
    case VStruct(fs) => FieldsUntyped(fs)
    case VList(_, es) => ElemsUntyped(es)
    case VSet(_, es) => ElemsUntyped(es)
    case VMap(kt, vt, es) => if es == [] then kt == STOP && vt == STOP else EntriesUntyped(es)
    case _ => true
  }

  predicate FieldUntyped(f: Field)
    decreases f
  {
    EmptyMapsUntyped(f.value)
  }

  predicate FieldsUntyped(fs: seq<Field>)
    decreases fs
  {
    fs != [] ==> FieldUntyped(fs[0]) && FieldsUntyped(fs[1..])
  }

  predicate ElemsUntyped(es: seq<Value>)
    decreases es
  {
    es != [] ==> EmptyMapsUntyped(es[0]) && ElemsUntyped(es[1..])
  }

  predicate EntryUntyped(e: Entry)
    decreases e
  {
    EmptyMapsUntyped(e.key) && EmptyMapsUntyped(e.value)
  }

  predicate EntriesUntyped(es: seq<Entry>)
    decreases es
  {
    es != [] ==> EntryUntyped(es[0]) && EntriesUntyped(es[1..])
  }

  /** A compact round trip changes a value if and only if it holds an empty map that declares a type. */
  lemma {:induction false} CanonIsSame(v: Value)
    ensures Canon(Compact, v) == v <==> EmptyMapsUntyped(v)
    decreases v
  {
    match v
    case VStruct(fs) => CanonFieldsSame(fs);
    case VList(_, es) => CanonElemsSame(es);
    case VSet(_, es) => CanonElemsSame(es);
    case VMap(_, _, es) => CanonEntriesSame(es);
    case _ =>
  }

  lemma {:induction false} CanonFieldSame(f: Field)
    ensures CanonField(Compact, f) == f <==> FieldUntyped(f)
    decreases f
  {
    hide Canon, EmptyMapsUntyped;
    CanonIsSame(f.value);
  }

  lemma {:induction false} CanonFieldsSame(fs: seq<Field>)
    ensures CanonFields(Compact, fs) == fs <==> FieldsUntyped(fs)
    ensures |CanonFields(Compact, fs)| == |fs|
    decreases fs
  {
    hide CanonField, FieldUntyped;
    if fs != [] {
      CanonFieldSame(fs[0]);
      CanonFieldsSame(fs[1..]);
      ConsSame(CanonField(Compact, fs[0]), CanonFields(Compact, fs[1..]), fs);
    }
  }

  lemma {:induction false} CanonElemsSame(es: seq<Value>)
    ensures CanonElems(Compact, es) == es <==> ElemsUntyped(es)
    ensures |CanonElems(Compact, es)| == |es|
    decreases es
  {
    hide Canon, EmptyMapsUntyped;
    if es != [] {
      CanonIsSame(es[0]);
      CanonElemsSame(es[1..]);
      ConsSame(Canon(Compact, es[0]), CanonElems(Compact, es[1..]), es);
    }
  }

  lemma {:induction false} CanonEntrySame(e: Entry)
    ensures CanonEntry(Compact, e) == e <==> EntryUntyped(e)
    decreases e
  {
    hide Canon, EmptyMapsUntyped;
    CanonIsSame(e.key);
    CanonIsSame(e.value);
  }

  lemma {:induction false} CanonEntriesSame(es: seq<Entry>)
    ensures CanonEntries(Compact, es) == es <==> EntriesUntyped(es)
    ensures |CanonEntries(Compact, es)| == |es|
    decreases es
  {
    hide CanonEntry, EntryUntyped;
    if es != [] {
      CanonEntrySame(es[0]);
      CanonEntriesSame(es[1..]);
      ConsSame(CanonEntry(Compact, es[0]), CanonEntries(Compact, es[1..]), es);
    }
  }

  lemma ConsSame<T>(x: T, xs: seq<T>, ys: seq<T>)
    requires ys != []
    ensures [x] + xs == ys <==> x == ys[0] && xs == ys[1..]
  {
    if [x] + xs == ys {
      assert ([x] + xs)[0] == x && ([x] + xs)[1..] == xs;
    }
  }

  /** An empty map from 32-bit integers to strings comes back from the compact protocol without its types. */
  lemma EmptyMapLosesItsTypes(r: Reader, rest: ByteSeq)
    requires r.kind.Compact? && r.stash == None && r.input == Enc(Compact, VMap(I32, STRING, [])) + rest
    ensures ReadValue(r, MAP) == Ok((VMap(STOP, STOP, []), r.(input := rest)))
  {
    hide ReadValue, Enc;
    var v := VMap(I32, STRING, []);
    assert Canon(Compact, v) == VMap(STOP, STOP, []);
    assert Fits(r.cfg, Compact, v);
    ReadValueInverts(r, v, rest);
  }

  /** What a writer appended, read back by a reader of the same protocol in front of any other bytes. */
  lemma WriteThenRead(w: Writer, r: Reader, v: Value, rest: ByteSeq)
    requires WellTyped(v) && Fits(r.cfg, r.kind, v)
    requires w.kind == r.kind && w.pending == None && r.stash == None
    ensures WriteValue(w, v).Ok?
    ensures var w' := WriteValue(w, v).value;
            && w' == w.(output := w'.output) && w.output <= w'.output
            && var written := w'.output[|w.output|..];
               ReadValue(r.(input := written + rest), TypeOf(v)) == Ok((Canon(r.kind, v), r.(input := rest)))
  {
    hide Enc, ReadValue, WriteValue, WellTyped, Fits, Canon;
    WriteValueEncodes(w, v);
    var b := Enc(w.kind, v);
    assert (w.output + b)[|w.output|..] == b;
    ReadValueInverts(r.(input := b + rest), v, rest);
  }
}
