/** Skipping a value of a type without building it, under a depth budget. */
module Skipping {
  import opened Bytes
  import opened Values
  import opened Varint
  import opened Configuration
  import opened Wire
  import opened Codec
  import opened RoundTrip

  /** The reader after the skipped value, and how many nested Skip calls it took. */
  datatype Skipped = Skipped(reader: Reader, calls: nat)

  function Skip(r: Reader, ty: TType, maxDepth: int): (x: Result<Skipped>)
    ensures x.Ok? ==> Advances(r, x.value.reader, 0)
    decreases maxDepth, 1, 0
  {
    if maxDepth <= 0 then Err(DepthLimit)
    else if IsScalarType(ty) then
      var (_, r1) :- ReadScalar(r, ty);
      Ok(Skipped(r1, 0))
    else if ty == STRUCT then
      var s :- SkipFields(ReadStructBegin(r), maxDepth);
      var r1 :- ReadStructEnd(s.reader);
      Ok(Skipped(r1, s.calls))
    else if ty == MAP then
      var ((kt, vt, n), r1) :- ReadMapBegin(r);
      SkipEntries(r1, kt, vt, n, maxDepth)
    else if ty == SET || ty == LIST then
      var ((et, n), r1) :- ReadListBegin(r);
      SkipElems(r1, et, n, maxDepth)
    else Err(InvalidData)
  }

  function SkipFields(r: Reader, maxDepth: int): (x: Result<Skipped>)
    requires maxDepth > 0
    ensures x.Ok? ==> Advances(r, x.value.reader, 0)
    decreases maxDepth, 0, |r.input|
  {
    var ((ty, id), r1) :- ReadFieldBegin(r);
    if ty == STOP then Ok(Skipped(r1, 0))
    else
      var s :- Skip(r1, ty, maxDepth - 1);
      var rest :- SkipFields(s.reader, maxDepth);
      Ok(Skipped(rest.reader, 1 + s.calls + rest.calls))
  }

  function SkipElems(r: Reader, et: TType, n: nat, maxDepth: int): (x: Result<Skipped>)
    requires maxDepth > 0
    ensures x.Ok? ==> Advances(r, x.value.reader, 0)
    decreases maxDepth, 0, n
  {
    if n == 0 then Ok(Skipped(r, 0))
    else
      var s :- Skip(r, et, maxDepth - 1);
      var rest :- SkipElems(s.reader, et, n - 1, maxDepth);
      Ok(Skipped(rest.reader, 1 + s.calls + rest.calls))
  }

  function SkipEntries(r: Reader, kt: TType, vt: TType, n: nat, maxDepth: int): (x: Result<Skipped>)
    requires maxDepth > 0
    ensures x.Ok? ==> Advances(r, x.value.reader, 0)
    decreases maxDepth, 0, n
  {
    if n == 0 then Ok(Skipped(r, 0))
    else
      var k :- Skip(r, kt, maxDepth - 1);
      var v :- Skip(k.reader, vt, maxDepth - 1);
      var rest :- SkipEntries(v.reader, kt, vt, n - 1, maxDepth);
      Ok(Skipped(rest.reader, 2 + k.calls + v.calls + rest.calls))
  }

  // ---- arbitrary bytes ----------------------------------------------------

  /** The bytes taken between two readers. */
  function Consumed(r: Reader, r': Reader): int {
    |r.input| - |r'.input|
  }

  /**
   * On any bytes at all, a successful skip costs at least one byte per Skip call made, itself
   * included, and leaves no stashed boolean behind. The exception is a compact boolean whose value
   * was in its field header; the header pays for that call.
   */
  lemma {:induction false} SkipIsPaidFor(r: Reader, ty: TType, maxDepth: int)
    requires r.kind.Binary? ==> r.stash == None
    requires r.stash.Some? ==> ty == BOOL
    requires Skip(r, ty, maxDepth).Ok?
    ensures var s := Skip(r, ty, maxDepth).value;
            && s.reader.stash == None
            && (if r.stash.Some? then s.calls == 0 else 1 + s.calls <= Consumed(r, s.reader))
    decreases maxDepth, 1, 0
  {
    if IsScalarType(ty) {
    } else if ty == STRUCT {
      SkipFieldsIsPaidFor(ReadStructBegin(r), maxDepth);
    } else if ty == MAP {
      var ((kt, vt, n), r1) := ReadMapBegin(r).value;
      SkipEntriesIsPaidFor(r1, kt, vt, n, maxDepth);
    } else {
      var ((et, n), r1) := ReadListBegin(r).value;
      SkipElemsIsPaidFor(r1, et, n, maxDepth);
    }
  }

  lemma ReadFieldBeginStash(r: Reader)
    requires r.stash == None && ReadFieldBegin(r).Ok?
    ensures var ((ty, _), r1) := ReadFieldBegin(r).value;
            && (r1.stash.Some? ==> ty == BOOL && r.kind.Compact?)
            && Advances(r, r1, 1)
  {
  }

  lemma {:induction false} SkipFieldsIsPaidFor(r: Reader, maxDepth: int)
    requires maxDepth > 0 && r.stash == None && SkipFields(r, maxDepth).Ok?
    ensures var s := SkipFields(r, maxDepth).value;
            s.reader.stash == None && 1 + s.calls <= Consumed(r, s.reader)
    decreases maxDepth, 0, |r.input|
  {
    hide Skip, ReadFieldBegin;
    ReadFieldBeginStash(r);
    var ((ty, id), r1) := ReadFieldBegin(r).value;
    if ty != STOP {
      SkipIsPaidFor(r1, ty, maxDepth - 1);
      SkipFieldsIsPaidFor(Skip(r1, ty, maxDepth - 1).value.reader, maxDepth);
    }
  }

  lemma {:induction false} SkipElemsIsPaidFor(r: Reader, et: TType, n: nat, maxDepth: int)
    requires maxDepth > 0 && r.stash == None && SkipElems(r, et, n, maxDepth).Ok?
    ensures var s := SkipElems(r, et, n, maxDepth).value;
            s.reader.stash == None && s.calls <= Consumed(r, s.reader)
    decreases maxDepth, 0, n
  {
    hide Skip;
    if n > 0 {
      SkipIsPaidFor(r, et, maxDepth - 1);
      SkipElemsIsPaidFor(Skip(r, et, maxDepth - 1).value.reader, et, n - 1, maxDepth);
    }
  }

  lemma {:induction false} SkipEntriesIsPaidFor(r: Reader, kt: TType, vt: TType, n: nat, maxDepth: int)
    requires maxDepth > 0 && r.stash == None && SkipEntries(r, kt, vt, n, maxDepth).Ok?
    ensures var s := SkipEntries(r, kt, vt, n, maxDepth).value;
            s.reader.stash == None && s.calls <= Consumed(r, s.reader)
    decreases maxDepth, 0, n
  {
    hide Skip;
    if n > 0 {
      SkipIsPaidFor(r, kt, maxDepth - 1);
      var r1 := Skip(r, kt, maxDepth - 1).value.reader;
      SkipIsPaidFor(r1, vt, maxDepth - 1);
      SkipEntriesIsPaidFor(Skip(r1, vt, maxDepth - 1).value.reader, kt, vt, n - 1, maxDepth);
    }
  }

  // ---- skipping follows reading -------------------------------------------

  /** How a skip with some budget ends, when a full read of the same bytes finds this depth and ends in r'. */
  predicate EndsAs(s: Result<Skipped>, depth: nat, budget: int, r': Reader) {
    if depth <= budget then s.Ok? && s.value.reader == r' else s == Err(DepthLimit)
  }

  /**
   * On any bytes: a skip ends where a full read ends and in the same state when the value read is no
   * deeper than the budget, fails with the depth error when it is deeper, and fails when the read does.
   */
  lemma {:induction false} SkipFollowsRead(r: Reader, ty: TType, maxDepth: int)
    ensures match ReadValue(r, ty)
            case Err(_) => Skip(r, ty, maxDepth).Err?
            case Ok((v, r')) => EndsAs(Skip(r, ty, maxDepth), Depth(v), maxDepth, r')
    decreases maxDepth, 1, 0
  {
    if maxDepth <= 0 || IsScalarType(ty) {
    } else if ty == STRUCT {
      SkipFieldsFollowRead(ReadStructBegin(r), maxDepth);
    } else if ty == MAP {
      var h := ReadMapBegin(r);
      if h.Ok? {
        var ((kt, vt, n), r1) := h.value;
        SkipEntriesFollowRead(r1, kt, vt, n, maxDepth);
      }
    } else if ty == SET || ty == LIST {
      var h := ReadListBegin(r);
      if h.Ok? {
        var ((et, n), r1) := h.value;
        SkipElemsFollowRead(r1, et, n, maxDepth);
      }
    }
  }

  lemma {:induction false} SkipFieldsFollowRead(r: Reader, maxDepth: int)
    requires maxDepth > 0
    ensures match ReadFields(r)
            case Err(_) => SkipFields(r, maxDepth).Err?
            case Ok((fs, r')) => EndsAs(SkipFields(r, maxDepth), FieldsDepth(fs), maxDepth - 1, r')
    decreases maxDepth, 0, |r.input|
  {
    hide ReadFieldBegin, Depth, ReadValue, Skip;
    var h := ReadFieldBegin(r);
    if h.Ok? && h.value.0.0 != STOP {
      var ((ty, id), r1) := h.value;
      SkipFollowsRead(r1, ty, maxDepth - 1);
      var x := ReadValue(r1, ty);
      if x.Ok? {
        var (v, r2) := x.value;
        SkipFieldsFollowRead(r2, maxDepth);
        var fs := ReadFields(r2);
        if fs.Ok? { FieldsDepthCons(Field(id, v), fs.value.0); }
      }
    }
  }

  lemma {:induction false} SkipElemsFollowRead(r: Reader, et: TType, n: nat, maxDepth: int)
    requires maxDepth > 0
    ensures match ReadElems(r, et, n)
            case Err(_) => SkipElems(r, et, n, maxDepth).Err?
            case Ok((es, r')) => EndsAs(SkipElems(r, et, n, maxDepth), ElemsDepth(es), maxDepth - 1, r')
    decreases maxDepth, 0, n
  {
    hide Depth, ReadValue, Skip;
    if n > 0 {
      SkipFollowsRead(r, et, maxDepth - 1);
      var x := ReadValue(r, et);
      if x.Ok? {
        var (v, r1) := x.value;
        SkipElemsFollowRead(r1, et, n - 1, maxDepth);
        var es := ReadElems(r1, et, n - 1);
        if es.Ok? { ElemsDepthCons(v, es.value.0); }
      }
    }
  }

  lemma {:induction false} SkipEntriesFollowRead(r: Reader, kt: TType, vt: TType, n: nat, maxDepth: int)
    requires maxDepth > 0
    ensures match ReadEntries(r, kt, vt, n)
            case Err(_) => SkipEntries(r, kt, vt, n, maxDepth).Err?
            case Ok((es, r')) => EndsAs(SkipEntries(r, kt, vt, n, maxDepth), EntriesDepth(es), maxDepth - 1, r')
    decreases maxDepth, 0, n
  {
    hide Depth, ReadValue, Skip;
    if n > 0 {
      SkipFollowsRead(r, kt, maxDepth - 1);
      var k := ReadValue(r, kt);
      if k.Ok? {
        var (key, r1) := k.value;
        SkipFollowsRead(r1, vt, maxDepth - 1);
        var v := ReadValue(r1, vt);
        if v.Ok? {
          var (value, r2) := v.value;
          SkipEntriesFollowRead(r2, kt, vt, n - 1, maxDepth);
          var es := ReadEntries(r2, kt, vt, n - 1);
          if es.Ok? { EntriesDepthCons(Entry(key, value), es.value.0); }
        }
      }
    }
  }

  /** Over an encoded value within the limits: past exactly its bytes, or the depth error when it is too deep. */
  lemma SkipEncoded(r: Reader, v: Value, rest: ByteSeq, maxDepth: int)
    requires WellTyped(v) && Fits(r.cfg, r.kind, v) && r.stash == None
    requires r.input == Enc(r.kind, v) + rest
    ensures EndsAs(Skip(r, TypeOf(v), maxDepth), Depth(v), maxDepth, r.(input := rest))
  {
    hide Enc, ReadValue, Skip, WellTyped, Fits, Canon, Depth;
    SkipFollowsRead(r, TypeOf(v), maxDepth);
    ReadValueInverts(r, v, rest);
    CanonKeeps(r.kind, v);
  }
}
