/** TDuplicateToProtocol: reading through one protocol while writing what was read to another. */
module Duplicate {
  import opened Bytes
  import opened Values
  import opened Varint
  import opened Configuration
  import opened Wire
  import opened Codec
  import opened RoundTrip

  // ---- the duplicating reader ---------------------------------------------

  /** The delegate being read and the protocol everything read is written to. */
  datatype Tee = Tee(delegate: Reader, duplicateTo: Writer)

  type Teed<T> = Result<(T, Tee)>

  function TeeScalar(t: Tee, ty: TType): (x: Teed<Value>)
    requires IsScalarType(ty)
    ensures x.Ok? ==> Advances(t.delegate, x.value.1.delegate, 0)
  {
    var (v, r) :- ReadScalar(t.delegate, ty);
    Ok((v, Tee(r, WriteScalar(t.duplicateTo, v))))
  }

  function TeeStructBegin(t: Tee): (t': Tee)
    ensures Advances(t.delegate, t'.delegate, 0)
  {
    Tee(ReadStructBegin(t.delegate), WriteStructBegin(t.duplicateTo))
  }

  /** The copy's own errors are dropped. */
  function TeeStructEnd(t: Tee): (x: Result<Tee>)
    ensures x.Ok? ==> Advances(t.delegate, x.value.delegate, 0)
  {
    var r :- ReadStructEnd(t.delegate);
    var w := match WriteStructEnd(t.duplicateTo) { case Ok(w) => w case Err(_) => t.duplicateTo };
    Ok(Tee(r, w))
  }

  function TeeFieldBegin(t: Tee): (x: Teed<(TType, int)>)
    ensures x.Ok? ==> Advances(t.delegate, x.value.1.delegate, 1)
  {
    var ((ty, id), r) :- ReadFieldBegin(t.delegate);
    var w := if ty == STOP then WriteFieldStop(t.duplicateTo) else WriteFieldBegin(t.duplicateTo, ty, id);
    Ok(((ty, id), Tee(r, w)))
  }

  function TeeMapBegin(t: Tee): (x: Teed<(TType, TType, nat)>)
    ensures x.Ok? ==> Advances(t.delegate, x.value.1.delegate, 1)
  {
    var ((kt, vt, n), r) :- ReadMapBegin(t.delegate);
    Ok(((kt, vt, n), Tee(r, WriteMapBegin(t.duplicateTo, kt, vt, n))))
  }

  function TeeListBegin(t: Tee): (x: Teed<(TType, nat)>)
    ensures x.Ok? ==> Advances(t.delegate, x.value.1.delegate, 1)
  {
    var ((et, n), r) :- ReadListBegin(t.delegate);
    Ok(((et, n), Tee(r, WriteListBegin(t.duplicateTo, et, n))))
  }

  /** The generic reader, driven through the duplicating protocol. */
  function TeeValue(t: Tee, ty: TType): (x: Teed<Value>)
    ensures x.Ok? ==> Advances(t.delegate, x.value.1.delegate, 0)
    decreases |t.delegate.input|, 2, 0
  {
    if IsScalarType(ty) then TeeScalar(t, ty)
    else if ty == STRUCT then
      var (fs, t1) :- TeeFields(TeeStructBegin(t));
      var t2 :- TeeStructEnd(t1);
      Ok((VStruct(fs), t2))
    else if ty == MAP then
      var ((kt, vt, n), t1) :- TeeMapBegin(t);
      var (es, t2) :- TeeEntries(t1, kt, vt, n);
      Ok((VMap(kt, vt, es), t2))
    else if ty == SET then
      var ((et, n), t1) :- TeeListBegin(t);
      var (es, t2) :- TeeElems(t1, et, n);
      Ok((VSet(et, es), t2))
    else if ty == LIST then
      var ((et, n), t1) :- TeeListBegin(t);
      var (es, t2) :- TeeElems(t1, et, n);
      Ok((VList(et, es), t2))
    else Err(InvalidData)
  }

  function TeeFields(t: Tee): (x: Teed<seq<Field>>)
    ensures x.Ok? ==> Advances(t.delegate, x.value.1.delegate, 0)
    decreases |t.delegate.input|, 1, 0
  {
    var ((ty, id), t1) :- TeeFieldBegin(t);
    if ty == STOP then Ok(([], t1))
    else
      var (v, t2) :- TeeValue(t1, ty);
      var (fs, t3) :- TeeFields(t2);
      Ok(([Field(id, v)] + fs, t3))
  }

  function TeeElems(t: Tee, et: TType, n: nat): (x: Teed<seq<Value>>)
    ensures x.Ok? ==> Advances(t.delegate, x.value.1.delegate, 0)
    decreases |t.delegate.input|, 3, n
  {
    if n == 0 then Ok(([], t))
    else
      var (v, t1) :- TeeValue(t, et);
      var (es, t2) :- TeeElems(t1, et, n - 1);
      Ok(([v] + es, t2))
  }

  function TeeEntries(t: Tee, kt: TType, vt: TType, n: nat): (x: Teed<seq<Entry>>)
    ensures x.Ok? ==> Advances(t.delegate, x.value.1.delegate, 0)
    decreases |t.delegate.input|, 3, n
  {
    if n == 0 then Ok(([], t))
    else
      var (k, t1) :- TeeValue(t, kt);
      var (v, t2) :- TeeValue(t1, vt);
      var (es, t3) :- TeeEntries(t2, kt, vt, n - 1);
      Ok(([Entry(k, v)] + es, t3))
  }

  // ---- it is a read followed by a write -----------------------------------

  /** Writing a value never fails and leaves the stack of field ids as deep as it was. */
  lemma {:induction false} WriteValueTotal(w: Writer, v: Value)
    ensures WriteValue(w, v).Ok?
    ensures var w' := WriteValue(w, v).value; w'.kind == w.kind && w'.lastField == w.lastField
    decreases v
  {
    match v
    case VStruct(fs) =>
      WriteFieldsTotal(WriteStructBegin(w), fs);
      if w.kind.Compact? {
        assert (w.lastField + [w.lastFieldId])[..|w.lastField|] == w.lastField;
      }
    case VList(et, es) => WriteElemsTotal(WriteListBegin(w, et, |es|), es);
    case VSet(et, es) => WriteElemsTotal(WriteListBegin(w, et, |es|), es);
    case VMap(kt, vt, es) => WriteEntriesTotal(WriteMapBegin(w, kt, vt, |es|), es);
    case _ =>
  }

  lemma {:induction false} WriteFieldTotal(w: Writer, f: Field)
    ensures WriteField(w, f).Ok?
    ensures var w' := WriteField(w, f).value; w'.kind == w.kind && w'.lastField == w.lastField
    decreases f
  {
    WriteValueTotal(WriteFieldBegin(w, TypeOf(f.value), f.id), f.value);
  }

  lemma {:induction false} WriteFieldsTotal(w: Writer, fs: seq<Field>)
    ensures WriteFields(w, fs).Ok?
    ensures var w' := WriteFields(w, fs).value; w'.kind == w.kind && w'.lastField == w.lastField
    decreases fs
  {
    if fs != [] {
      WriteFieldTotal(w, fs[0]);
      WriteFieldsTotal(WriteField(w, fs[0]).value, fs[1..]);
    }
  }

  lemma {:induction false} WriteElemsTotal(w: Writer, es: seq<Value>)
    ensures WriteElems(w, es).Ok?
    ensures var w' := WriteElems(w, es).value; w'.kind == w.kind && w'.lastField == w.lastField
    decreases es
  {
    if es != [] {
      WriteValueTotal(w, es[0]);
      WriteElemsTotal(WriteValue(w, es[0]).value, es[1..]);
    }
  }

  lemma {:induction false} WriteEntryTotal(w: Writer, e: Entry)
    ensures WriteEntry(w, e).Ok?
    ensures var w' := WriteEntry(w, e).value; w'.kind == w.kind && w'.lastField == w.lastField
    decreases e
  {
    WriteValueTotal(w, e.key);
    WriteValueTotal(WriteValue(w, e.key).value, e.value);
  }

  lemma {:induction false} WriteEntriesTotal(w: Writer, es: seq<Entry>)
    ensures WriteEntries(w, es).Ok?
    ensures var w' := WriteEntries(w, es).value; w'.kind == w.kind && w'.lastField == w.lastField
    decreases es
  {
    if es != [] {
      WriteEntryTotal(w, es[0]);
      WriteEntriesTotal(WriteEntry(w, es[0]).value, es[1..]);
    }
  }

  /**
   * On any bytes: reading through the duplicating protocol fails exactly as the delegate's own reader
   * fails, and otherwise yields its value, leaves the delegate where it does, and leaves the copy as
   * if that value had been written to it.
   */
  lemma {:induction false} TeeReadsThenWrites(t: Tee, ty: TType)
    ensures TeeValue(t, ty) ==
            var (v, r) :- ReadValue(t.delegate, ty);
            var w :- WriteValue(t.duplicateTo, v);
            Ok((v, Tee(r, w)))
    decreases |t.delegate.input|, 2, 0
  {
    if IsScalarType(ty) {
    } else if ty == STRUCT {
      TeeFieldsReadsThenWrites(TeeStructBegin(t));
      var x := ReadFields(ReadStructBegin(t.delegate));
      if x.Ok? {
        WriteFieldsTotal(WriteStructBegin(t.duplicateTo), x.value.0);
      }
    } else if ty == MAP {
      var x := TeeMapBegin(t);
      if x.Ok? {
        var ((kt, vt, n), t1) := x.value;
        TeeEntriesReadsThenWrites(t1, kt, vt, n);
      }
    } else if ty == SET || ty == LIST {
      var x := TeeListBegin(t);
      if x.Ok? {
        var ((et, n), t1) := x.value;
        TeeElemsReadsThenWrites(t1, et, n);
      }
    }
  }

  lemma {:induction false} TeeFieldsReadsThenWrites(t: Tee)
    ensures TeeFields(t) ==
            var (fs, r) :- ReadFields(t.delegate);
            var w :- WriteFields(t.duplicateTo, fs);
            Ok((fs, Tee(r, w)))
    decreases |t.delegate.input|, 1, 0
  {
    hide ReadFieldBegin, ReadValue, TeeValue;
    var h := TeeFieldBegin(t);
    if h.Ok? && h.value.0.0 != STOP {
      var ((ty, id), t1) := h.value;
      TeeReadsThenWrites(t1, ty);
      var x := ReadValue(t1.delegate, ty);
      if x.Ok? {
        var (v, r) := x.value;
        WriteValueTotal(t1.duplicateTo, v);
        var t2 := Tee(r, WriteValue(t1.duplicateTo, v).value);
        TeeFieldsReadsThenWrites(t2);
        var y := ReadFields(r);
        if y.Ok? {
          WriteFieldsTotal(t2.duplicateTo, y.value.0);
          WriteFieldsCons(t.duplicateTo, Field(id, v), y.value.0);
        }
      }
    }
  }

  lemma WriteFieldsCons(w: Writer, f: Field, fs: seq<Field>)
    ensures WriteFields(w, [f] + fs) ==
            var w1 :- WriteField(w, f);
            WriteFields(w1, fs)
  {
    assert ([f] + fs)[1..] == fs;
  }

  lemma {:induction false} TeeElemsReadsThenWrites(t: Tee, et: TType, n: nat)
    ensures TeeElems(t, et, n) ==
            var (es, r) :- ReadElems(t.delegate, et, n);
            var w :- WriteElems(t.duplicateTo, es);
            Ok((es, Tee(r, w)))
    decreases |t.delegate.input|, 3, n
  {
    hide ReadValue, TeeValue;
    if n > 0 {
      TeeReadsThenWrites(t, et);
      var x := ReadValue(t.delegate, et);
      if x.Ok? {
        var (v, r) := x.value;
        WriteValueTotal(t.duplicateTo, v);
        var t1 := Tee(r, WriteValue(t.duplicateTo, v).value);
        TeeElemsReadsThenWrites(t1, et, n - 1);
        var y := ReadElems(r, et, n - 1);
        if y.Ok? {
          WriteElemsTotal(t1.duplicateTo, y.value.0);
          assert ([v] + y.value.0)[1..] == y.value.0;
        }
      }
    }
  }

  lemma {:induction false} TeeEntriesReadsThenWrites(t: Tee, kt: TType, vt: TType, n: nat)
    ensures TeeEntries(t, kt, vt, n) ==
            var (es, r) :- ReadEntries(t.delegate, kt, vt, n);
            var w :- WriteEntries(t.duplicateTo, es);
            Ok((es, Tee(r, w)))
    decreases |t.delegate.input|, 3, n
  {
    hide ReadValue, TeeValue;
    if n > 0 {
      TeeReadsThenWrites(t, kt);
      var x := ReadValue(t.delegate, kt);
      if x.Ok? {
        var (k, r1) := x.value;
        WriteValueTotal(t.duplicateTo, k);
        var t1 := Tee(r1, WriteValue(t.duplicateTo, k).value);
        TeeReadsThenWrites(t1, vt);
        var y := ReadValue(r1, vt);
        if y.Ok? {
          var (v, r2) := y.value;
          WriteValueTotal(t1.duplicateTo, v);
          var t2 := Tee(r2, WriteValue(t1.duplicateTo, v).value);
          TeeEntriesReadsThenWrites(t2, kt, vt, n - 1);
          var z := ReadEntries(r2, kt, vt, n - 1);
          if z.Ok? {
            WriteEntriesTotal(t2.duplicateTo, z.value.0);
            assert ([Entry(k, v)] + z.value.0)[1..] == z.value.0;
          }
        }
      }
    }
  }

  /**
   * Reading an encoded value through the duplicating protocol appends to the copy exactly the bytes its
   * own writer emits for that value; between two compact protocols, or from compact to binary, the types
   * of empty maps are the ones the delegate recovered.
   */
  lemma TeeTranscodes(t: Tee, v: Value, rest: ByteSeq)
    requires WellTyped(v) && Fits(t.delegate.cfg, t.delegate.kind, v)
    requires t.delegate.stash == None && t.duplicateTo.pending == None
    requires t.delegate.input == Enc(t.delegate.kind, v) + rest
    ensures var v' := Canon(t.delegate.kind, v);
            TeeValue(t, TypeOf(v)) ==
            Ok((v', Tee(t.delegate.(input := rest), t.duplicateTo.Put(Enc(t.duplicateTo.kind, v')))))
    ensures t.delegate.kind.Binary? ==>
            TeeValue(t, TypeOf(v)) ==
            Ok((v, Tee(t.delegate.(input := rest), t.duplicateTo.Put(Enc(t.duplicateTo.kind, v)))))
  {
    hide Enc, ReadValue, WriteValue, TeeValue, Fits, WellTyped;
    TeeReadsThenWrites(t, TypeOf(v));
    ReadValueInverts(t.delegate, v, rest);
    CanonKeeps(t.delegate.kind, v);
    WriteValueEncodes(t.duplicateTo, Canon(t.delegate.kind, v));
  }
}
