/**
 * The protocol objects. One class stands for both implementations of the TProtocol interface: kind
 * says which, and the binary protocol leaves the fields of the compact one alone. Each method is
 * proved to take the step of the same name on the object's state.
 */
module Protocol {
  import opened Bytes
  import opened Values
  import opened Varint
  import opened Configuration
  import opened Wire
  import opened Codec
  import opened Skipping
  import opened Duplicate

  const MIN_READ := 512

  type Int16 = x: int | IsI16(x) witness 0

  /** What a reading method must have done, when the step of the same name gives x. */
  ghost predicate Agrees<T(!new)>(x: Read<T>, value: T, error: Option<Error>, now: Reader) {
    match x
    case Err(e) => error == Some(e)
    case Ok((v, r)) => error == None && value == v && now == r
  }

  function Min(a: int, b: int): int { if a < b then a else b }

  /**
   * Reads size bytes from the front of trans, which may hand them over in pieces of any size. The buffer
   * never grows past twice what has arrived, so a made-up size costs no more than the bytes sent.
   */
  method SafeReadBytes(trans: ByteSeq, size: int) returns (buf: ByteSeq, capacity: nat, error: Option<Error>)
    ensures size <= 0 ==> buf == [] && error == None
    ensures 0 <= size <= |trans| ==> buf == trans[..size] && error == None
    ensures size > |trans| ==> buf == trans && error == Some(EndOfFile)
    ensures |buf| <= capacity <= if 2 * |buf| > MIN_READ then 2 * |buf| else MIN_READ
    ensures 0 <= size ==> capacity <= size || capacity == MIN_READ
  {
    if size < 0 {
      return [], 0, None;
    }
    if size <= MIN_READ {
      buf, capacity := trans[..Min(size, |trans|)], size;
      error := if |trans| < size then Some(EndOfFile) else None;
      return;
    }
    buf, capacity, error := [], MIN_READ, None;
    while |buf| < size
      invariant buf <= trans && |buf| <= capacity && |buf| <= size
      invariant MIN_READ <= capacity <= size
      invariant capacity <= MIN_READ || capacity <= 2 * |buf|
      invariant error == None
      decreases size - |buf|
    {
      if |buf| == capacity {
        capacity := Min(capacity * 2, size);
      }
      var wanted := Min(capacity - |buf|, |trans| - |buf|);
      if wanted == 0 {
        error := Some(EndOfFile);
        return;
      }
      var n :| 1 <= n <= wanted;
      assert trans[..|buf| + n] == buf + trans[|buf|..|buf| + n];
      buf := buf + trans[|buf|..|buf| + n];
    }
  }

  class TProtocol {
    const kind: Kind
    /** Whether the transport knows how many bytes are left to read. */
    const sized: bool
    const cfg: Config
    const buffer: array<Byte>

    /** The transport: what is left to read and what has been written. */
    var input: ByteSeq
    var output: ByteSeq

    var lastField: seq<int>
    var lastFieldId: int
    var booleanFieldId: Int16
    var booleanFieldPending: bool
    var boolValue: bool
    var boolValueIsNotNull: bool

    ghost predicate Valid() {
      buffer.Length == 64
    }

    ghost function Reading(): Reader
      reads this
    {
      Reader(kind, cfg, sized, input, lastField, lastFieldId, if boolValueIsNotNull then Some(boolValue) else None)
    }

    ghost function Writing(): Writer
      reads this
    {
      Writer(kind, output, lastField, lastFieldId, if booleanFieldPending then Some(booleanFieldId) else None)
    }

    constructor (kind: Kind, cfg: Config, sized: bool, input: ByteSeq)
      ensures Valid() && fresh(buffer)
      ensures Reading() == Reader(kind, cfg, sized, input, [], 0, None)
      ensures Writing() == Writer(kind, [], [], 0, None)
    {
      this.kind, this.cfg, this.sized, this.input, this.output := kind, cfg, sized, input, [];
      lastField, lastFieldId := [], 0;
      booleanFieldId, booleanFieldPending, boolValue, boolValueIsNotNull := 0, false, false, false;
      buffer := new Byte[64](i => 0);
    }

    // ---- writing ----------------------------------------------------------

    method EmitVarint32(n: int)
      requires Valid() && IsI32(n)
      modifies this`output, buffer
      ensures Writing() == WriteVarint32(old(Writing()), n)
    {
      var len := PutVarint32(buffer, n);
      output := output + buffer[..len];
    }

    method WriteStructBegin()
      requires Valid()
      modifies this`lastField, this`lastFieldId
      ensures Writing() == Wire.WriteStructBegin(old(Writing()))
    {
      if kind.Compact? {
        lastField := lastField + [lastFieldId];
        lastFieldId := 0;
      }
    }

    method WriteStructEnd() returns (error: Option<Error>)
      requires Valid()
      modifies this`lastField, this`lastFieldId
      ensures match Wire.WriteStructEnd(old(Writing()))
              case Err(e) => error == Some(e) && Writing() == old(Writing())
              case Ok(w) => error == None && Writing() == w
    {
      error := None;
      if kind.Compact? {
        if |lastField| <= 0 {
          return Some(InvalidData);
        }
        lastFieldId := lastField[|lastField| - 1];
        lastField := lastField[..|lastField| - 1];
      }
    }

    method WriteFieldBeginInternal(typeToWrite: Byte, id: int)
      requires Valid() && kind.Compact? && typeToWrite < 16 && IsI16(id)
      modifies this`output, this`lastFieldId, buffer
      ensures Writing() == WriteFieldHeader(old(Writing()), typeToWrite, id)
    {
      if id > lastFieldId && id - lastFieldId <= 15 {
        output := output + [(id - lastFieldId) * 16 + typeToWrite];
      } else {
        output := output + [typeToWrite];
        WriteI16(id);
      }
      lastFieldId := id;
    }

    method WriteFieldBegin(ty: TType, id: int)
      requires Valid() && IsI16(id)
      modifies this`output, this`lastFieldId, this`booleanFieldId, this`booleanFieldPending, buffer
      ensures Writing() == Wire.WriteFieldBegin(old(Writing()), ty, id)
    {
      match kind
      case Binary =>
        output := output + [ty];
        WriteI16(id);
      case Compact =>
        if ty == BOOL {
          booleanFieldId, booleanFieldPending := id, true;
        } else {
          WriteFieldBeginInternal(CompactType(ty), id);
        }
    }

    method WriteFieldStop()
      requires Valid()
      modifies this`output
      ensures Writing() == Wire.WriteFieldStop(old(Writing()))
    {
      output := output + [STOP];
    }

    method WriteMapBegin(kt: TType, vt: TType, size: nat)
      requires Valid()
      modifies this`output, buffer
      ensures Writing() == Wire.WriteMapBegin(old(Writing()), kt, vt, size)
    {
      hide CompactType, Varint32, PutU32;
      match kind
      case Binary =>
        output := output + [kt];
        output := output + [vt];
        WriteI32(ToI32(size));
      case Compact =>
        if size == 0 {
          output := output + [0];
        } else {
          EmitVarint32(ToI32(size));
          output := output + [CompactType(kt) * 16 + CompactType(vt)];
        }
    }

    method WriteListBegin(et: TType, size: nat)
      requires Valid()
      modifies this`output, buffer
      ensures Writing() == Wire.WriteListBegin(old(Writing()), et, size)
    {
      match kind
      case Binary =>
        output := output + [et];
        WriteI32(ToI32(size));
      case Compact =>
        if size <= 14 {
          output := output + [size * 16 + CompactType(et)];
        } else {
          output := output + [0xf0 + CompactType(et)];
          EmitVarint32(ToI32(size));
        }
    }

    method WriteBool(value: bool)
      requires Valid()
      modifies this`output, this`lastFieldId, this`booleanFieldPending, buffer
      ensures Writing() == Wire.WriteBool(old(Writing()), value)
    {
      match kind
      case Binary =>
        output := output + [if value then 1 else 0];
      case Compact =>
        var v := if value then COMPACT_BOOLEAN_TRUE else COMPACT_BOOLEAN_FALSE;
        if booleanFieldPending {
          WriteFieldBeginInternal(v, booleanFieldId);
          booleanFieldPending := false;
        } else {
          output := output + [v];
        }
    }

    method WriteI16(n: int)
      requires Valid() && IsI16(n)
      modifies this`output, buffer
      ensures Writing() == Wire.WriteI16(old(Writing()), n)
    {
      match kind
      case Binary => output := output + PutU16(ToU16(n));
      case Compact => EmitVarint32(Int32ToZigzag(n));
    }

    method WriteI32(n: int)
      requires Valid() && IsI32(n)
      modifies this`output, buffer
      ensures Writing() == Wire.WriteI32(old(Writing()), n)
    {
      match kind
      case Binary => output := output + PutU32(ToU32(n));
      case Compact => EmitVarint32(Int32ToZigzag(n));
    }

    method WriteI64(n: int)
      requires Valid() && IsI64(n)
      modifies this`output, buffer
      ensures Writing() == Wire.WriteI64(old(Writing()), n)
    {
      match kind
      case Binary => output := output + PutU64(ToU64(n));
      case Compact =>
        var len := PutVarint64(buffer, Int64ToZigzag(n));
        output := output + buffer[..len];
    }

    method WriteString(s: ByteSeq)
      requires Valid()
      modifies this`output, buffer
      ensures Writing() == Wire.WriteString(old(Writing()), s)
    {
      if kind.Binary? { WriteI32(ToI32(|s|)); } else { EmitVarint32(ToI32(|s|)); }
      output := output + s;
    }

    /** The scalar writers behind one name: bytes, doubles and UUIDs need no state of their own. */
    method WriteScalar(v: Value)
      requires Valid() && IsScalar(v) && WellTyped(v)
      modifies this`output, this`lastFieldId, this`booleanFieldPending, buffer
      ensures Writing() == Codec.WriteScalar(old(Writing()), v)
    {
      match v
      case VBool(b) => WriteBool(b);
      case VByte(n) => output := output + [ToU8(n)];
      case VI16(n) => WriteI16(n);
      case VI32(n) => WriteI32(n);
      case VI64(n) => WriteI64(n);
      case VDouble(bits) =>
        output := output + (if kind.Binary? then PutU64(ToU64(bits)) else Reverse(PutU64(ToU64(bits))));
      case VString(s) => WriteString(s);
      case VUuid(s) => output := output + s;
    }

    // ---- reading ----------------------------------------------------------

    method TakeBytes(n: nat) returns (value: ByteSeq, error: Option<Error>)
      requires Valid()
      modifies this`input
      ensures Agrees(Take(old(Reading()), n), value, error, Reading())
    {
      if |input| < n {
        return [], Some(EndOfFile);
      }
      value, error := input[..n], None;
      input := input[n..];
    }

    method NextByte() returns (value: Byte, error: Option<Error>)
      requires Valid()
      modifies this`input
      ensures Agrees(TakeByte(old(Reading())), value, error, Reading())
    {
      if input == [] {
        return 0, Some(EndOfFile);
      }
      value, error := input[0], None;
      input := input[1..];
    }

    method NextVarint32() returns (value: int, error: Option<Error>)
      requires Valid()
      modifies this`input
      ensures Agrees(TakeVarint32(old(Reading())), value, error, Reading())
    {
      var used;
      value, used, error := GetVarint64(input);
      if error == None {
        value, input := ToI32(value), input[used..];
      }
    }

    method ReadI16() returns (value: int, error: Option<Error>)
      requires Valid()
      modifies this`input
      ensures Agrees(Wire.ReadI16(old(Reading())), value, error, Reading())
    {
      value := 0;
      match kind
      case Binary =>
        var b;
        b, error := TakeBytes(2);
        if error == None { value := ToI16(GetU16(b)); }
      case Compact =>
        value, error := NextVarint32();
        if error == None { value := ToI16(ZigzagToInt32(value)); }
    }

    method ReadI32() returns (value: int, error: Option<Error>)
      requires Valid()
      modifies this`input
      ensures Agrees(Wire.ReadI32(old(Reading())), value, error, Reading())
    {
      value := 0;
      match kind
      case Binary =>
        var b;
        b, error := TakeBytes(4);
        if error == None { value := ToI32(GetU32(b)); }
      case Compact =>
        value, error := NextVarint32();
        if error == None { value := ZigzagToInt32(value); }
    }

    method ReadI64() returns (value: int, error: Option<Error>)
      requires Valid()
      modifies this`input
      ensures Agrees(Wire.ReadI64(old(Reading())), value, error, Reading())
    {
      value := 0;
      match kind
      case Binary =>
        var b;
        b, error := TakeBytes(8);
        if error == None { value := ToI64(GetU64(b)); }
      case Compact =>
        var used;
        value, used, error := GetVarint64(input);
        if error == None {
          value, input := ZigzagToInt64(value), input[used..];
        }
    }

    method ReadString() returns (value: ByteSeq, error: Option<Error>)
      requires Valid()
      modifies this`input
      ensures Agrees(Wire.ReadString(old(Reading())), value, error, Reading())
    {
      value := [];
      var size: int;
      if kind.Binary? { size, error := ReadI32(); } else { size, error := NextVarint32(); }
      if error != None {
        return;
      }
      var check := CheckSize(size, cfg);
      if check.Err? {
        error := Some(check.error);
      } else if size < buffer.Length {
        value, error := TakeBytes(size);
      } else {
        var capacity;
        value, capacity, error := SafeReadBytes(input, size);
        input := input[|value|..];
      }
    }

    method ReadBool() returns (value: bool, error: Option<Error>)
      requires Valid()
      modifies this`input, this`boolValueIsNotNull
      ensures Agrees(Wire.ReadBool(old(Reading())), value, error, Reading())
    {
      if kind.Compact? && boolValueIsNotNull {
        boolValueIsNotNull := false;
        return boolValue, None;
      }
      var b;
      b, error := NextByte();
      value := b == 1;
    }

    /** The scalar readers behind one name. */
    method ReadScalar(ty: TType) returns (value: Value, error: Option<Error>)
      requires Valid() && IsScalarType(ty)
      modifies this`input, this`boolValueIsNotNull
      ensures Agrees(Codec.ReadScalar(old(Reading()), ty), value, error, Reading())
    {
      var n: int, s: ByteSeq := 0, [];
      if ty == BOOL {
        var b;
        b, error := ReadBool();
        value := VBool(b);
      } else if ty == BYTE {
        n, error := NextByte();
        value := VByte(ToI8(n));
      } else if ty == I16 {
        n, error := ReadI16();
        value := VI16(n);
      } else if ty == I32 {
        n, error := ReadI32();
        value := VI32(n);
      } else if ty == I64 {
        n, error := ReadI64();
        value := VI64(n);
      } else if ty == DOUBLE {
        s, error := TakeBytes(8);
        value := VDouble(if error != None then 0 else GetU64(if kind.Binary? then s else Reverse(s)));
      } else if ty == STRING {
        s, error := ReadString();
        value := VString(s);
      } else {
        s, error := TakeBytes(16);
        value := VUuid(s);
      }
    }

    method ReadStructBegin()
      requires Valid()
      modifies this`lastField, this`lastFieldId
      ensures Reading() == Wire.ReadStructBegin(old(Reading()))
    {
      if kind.Compact? {
        lastField := lastField + [lastFieldId];
        lastFieldId := 0;
      }
    }

    method ReadStructEnd() returns (error: Option<Error>)
      requires Valid()
      modifies this`lastField, this`lastFieldId
      ensures match Wire.ReadStructEnd(old(Reading()))
              case Err(e) => error == Some(e)
              case Ok(r) => error == None && Reading() == r
    {
      error := None;
      if kind.Compact? {
        if |lastField| <= 0 {
          return Some(InvalidData);
        }
        lastFieldId := lastField[|lastField| - 1];
        lastField := lastField[..|lastField| - 1];
      }
    }

    method ReadFieldBegin() returns (ty: TType, id: int, error: Option<Error>)
      requires Valid()
      modifies this`input, this`lastFieldId, this`boolValue, this`boolValueIsNotNull
      ensures Agrees(Wire.ReadFieldBegin(old(Reading())), (ty, id), error, Reading())
    {
      var t;
      t, error := NextByte();
      ty, id := STOP, 0;
      if error != None {
        return;
      }
      match kind
      case Binary =>
        if t != STOP {
          id, error := ReadI16();
          ty := t;
        }
      case Compact =>
        if t % 16 == STOP {
          return;
        }
        if t / 16 == 0 {
          id, error := ReadI16();
          if error != None {
            return;
          }
        } else {
          id := ToI16(ToI16(lastFieldId) + t / 16);
        }
        var found := TypeOfNibble(t % 16);
        if found.Err? {
          error := Some(found.error);
          return;
        }
        ty := found.value;
        if t % 16 == COMPACT_BOOLEAN_TRUE || t % 16 == COMPACT_BOOLEAN_FALSE {
          boolValue, boolValueIsNotNull := t % 16 == COMPACT_BOOLEAN_TRUE, true;
        }
        lastFieldId := id;
    }

    method ReadMapBegin() returns (kt: TType, vt: TType, size: int, error: Option<Error>)
      requires Valid()
      modifies this`input
      ensures match Wire.ReadMapBegin(old(Reading()))
              case Err(e) => error == Some(e)
              case Ok(((k, v, n), r)) => error == None && kt == k && vt == v && size == n && Reading() == r
    {
      hide MinSize, CheckContainerSize, TypeOfNibble, ReadVarint32, GetU32;
      kt, vt, size := STOP, STOP, 0;
      match kind {
        case Binary =>
          kt, error := NextByte();
          if error != None { return; }
          vt, error := NextByte();
          if error != None { return; }
          size, error := ReadI32();
          if error != None { return; }
        case Compact =>
          size, error := NextVarint32();
          if error != None { return; }
          var kv: Byte := 0;
          if size != 0 {
            kv, error := NextByte();
            if error != None { return; }
          }
          kt, vt := TypeOfNibbleOrStop(kv / 16), TypeOfNibbleOrStop(kv % 16);
      }
      var remaining := if sized then Some(|input|) else None;
      var check := CheckContainerSize(size, MinSize(kind, kt) + MinSize(kind, vt), remaining, cfg);
      if check.Err? {
        error := Some(check.error);
      }
    }

    /** Lists and sets share their header. */
    method ReadListBegin() returns (et: TType, size: int, error: Option<Error>)
      requires Valid()
      modifies this`input
      ensures match Wire.ReadListBegin(old(Reading()))
              case Err(e) => error == Some(e)
              case Ok(((t, n), r)) => error == None && et == t && size == n && Reading() == r
    {
      et, size := STOP, 0;
      var b;
      b, error := NextByte();
      if error != None { return; }
      match kind {
        case Binary =>
          et := b;
          size, error := ReadI32();
          if error != None { return; }
        case Compact =>
          size := b / 16;
          if size == 15 {
            size, error := NextVarint32();
            if error != None { return; }
          }
          var found := TypeOfNibble(b % 16);
          if found.Err? { return et, size, Some(found.error); }
          et := found.value;
      }
      var remaining := if sized then Some(|input|) else None;
      var check := CheckContainerSize(size, MinSize(kind, et), remaining, cfg);
      if check.Err? {
        error := Some(check.error);
      }
    }
  }

  // ---- Skip ---------------------------------------------------------------

  /** A loop that has reached the state now ends as the recursion started in the state of whole does. */
  ghost predicate Resumed(whole: Result<Skipped>, now: Result<Skipped>) {
    match now
    case Err(e) => whole == Err(e)
    case Ok(s) => whole.Ok? && whole.value.reader == s.reader
  }

  ghost predicate SkipAgrees(x: Result<Skipped>, error: Option<Error>, now: Reader) {
    match x
    case Err(e) => error == Some(e)
    case Ok(s) => error == None && now == s.reader
  }

  method SkipValue(self: TProtocol, ty: TType, maxDepth: int) returns (error: Option<Error>)
    requires self.Valid()
    modifies self`input, self`lastField, self`lastFieldId, self`boolValue, self`boolValueIsNotNull
    ensures SkipAgrees(Skip(old(self.Reading()), ty, maxDepth), error, self.Reading())
    decreases maxDepth, 1
  {
    if maxDepth <= 0 {
      return Some(DepthLimit);
    }
    if IsScalarType(ty) {
      var v;
      v, error := self.ReadScalar(ty);
    } else if ty == STRUCT {
      self.ReadStructBegin();
      error := SkipStructFields(self, maxDepth);
      if error == None {
        error := self.ReadStructEnd();
      }
    } else if ty == MAP {
      var kt, vt, size;
      kt, vt, size, error := self.ReadMapBegin();
      if error == None {
        error := SkipMapEntries(self, kt, vt, size, maxDepth);
      }
    } else if ty == SET || ty == LIST {
      var et, size;
      et, size, error := self.ReadListBegin();
      if error == None {
        error := SkipListElems(self, et, size, maxDepth);
      }
    } else {
      error := Some(InvalidData);
    }
  }

  method SkipStructFields(self: TProtocol, maxDepth: int) returns (error: Option<Error>)
    requires self.Valid() && maxDepth > 0
    modifies self`input, self`lastField, self`lastFieldId, self`boolValue, self`boolValueIsNotNull
    ensures SkipAgrees(SkipFields(old(self.Reading()), maxDepth), error, self.Reading())
    decreases maxDepth, 0
  {
    hide Skip;
    ghost var whole := SkipFields(self.Reading(), maxDepth);
    while true
      invariant Resumed(whole, SkipFields(self.Reading(), maxDepth))
      decreases |self.input|
    {
      var ty, id;
      ty, id, error := self.ReadFieldBegin();
      if error != None || ty == STOP {
        return;
      }
      error := SkipValue(self, ty, maxDepth - 1);
      if error != None {
        return;
      }
    }
  }

  method SkipListElems(self: TProtocol, et: TType, size: nat, maxDepth: int) returns (error: Option<Error>)
    requires self.Valid() && maxDepth > 0
    modifies self`input, self`lastField, self`lastFieldId, self`boolValue, self`boolValueIsNotNull
    ensures SkipAgrees(SkipElems(old(self.Reading()), et, size, maxDepth), error, self.Reading())
    decreases maxDepth, 0
  {
    hide Skip;
    ghost var whole := SkipElems(self.Reading(), et, size, maxDepth);
    for i := 0 to size
      invariant Resumed(whole, SkipElems(self.Reading(), et, size - i, maxDepth))
    {
      error := SkipValue(self, et, maxDepth - 1);
      if error != None {
        return;
      }
    }
    error := None;
  }

  method SkipMapEntries(self: TProtocol, kt: TType, vt: TType, size: nat, maxDepth: int) returns (error: Option<Error>)
    requires self.Valid() && maxDepth > 0
    modifies self`input, self`lastField, self`lastFieldId, self`boolValue, self`boolValueIsNotNull
    ensures SkipAgrees(SkipEntries(old(self.Reading()), kt, vt, size, maxDepth), error, self.Reading())
    decreases maxDepth, 0
  {
    hide Skip;
    ghost var whole := SkipEntries(self.Reading(), kt, vt, size, maxDepth);
    for i := 0 to size
      invariant Resumed(whole, SkipEntries(self.Reading(), kt, vt, size - i, maxDepth))
    {
      error := SkipValue(self, kt, maxDepth - 1);
      if error != None {
        return;
      }
      error := SkipValue(self, vt, maxDepth - 1);
      if error != None {
        return;
      }
    }
    error := None;
  }

  // ---- TDuplicateToProtocol -----------------------------------------------

  ghost predicate TeeAgrees<T(!new)>(x: Teed<T>, value: T, error: Option<Error>, now: Tee) {
    match x
    case Err(e) => error == Some(e)
    case Ok((v, t)) => error == None && value == v && now == t
  }

  /** What is left on the copy after a failed read is not specified. */
  class TDuplicateToProtocol {
    const delegate: TProtocol
    const duplicateTo: TProtocol

    ghost predicate Valid() {
      && delegate.Valid() && duplicateTo.Valid()
      && delegate != duplicateTo && delegate.buffer != duplicateTo.buffer
    }

    ghost function State(): Tee
      reads delegate, duplicateTo
    {
      Tee(delegate.Reading(), duplicateTo.Writing())
    }

    constructor (delegate: TProtocol, duplicateTo: TProtocol)
      requires delegate.Valid() && duplicateTo.Valid()
      requires delegate != duplicateTo && delegate.buffer != duplicateTo.buffer
      ensures Valid() && this.delegate == delegate && this.duplicateTo == duplicateTo
    {
      this.delegate, this.duplicateTo := delegate, duplicateTo;
    }

    method ReadScalar(ty: TType) returns (value: Value, error: Option<Error>)
      requires Valid() && IsScalarType(ty)
      modifies delegate, duplicateTo, duplicateTo.buffer
      ensures TeeAgrees(TeeScalar(old(State()), ty), value, error, State())
    {
      value, error := delegate.ReadScalar(ty);
      if error == None {
        duplicateTo.WriteScalar(value);
      }
    }

    method ReadStructBegin()
      requires Valid()
      modifies delegate, duplicateTo
      ensures State() == TeeStructBegin(old(State()))
    {
      delegate.ReadStructBegin();
      duplicateTo.WriteStructBegin();
    }

    method ReadStructEnd() returns (error: Option<Error>)
      requires Valid()
      modifies delegate, duplicateTo
      ensures match TeeStructEnd(old(State()))
              case Err(e) => error == Some(e)
              case Ok(t) => error == None && State() == t
    {
      error := delegate.ReadStructEnd();
      var dropped := duplicateTo.WriteStructEnd();
    }

    method ReadFieldBegin() returns (ty: TType, id: int, error: Option<Error>)
      requires Valid()
      modifies delegate, duplicateTo, duplicateTo.buffer
      ensures TeeAgrees(TeeFieldBegin(old(State())), (ty, id), error, State())
    {
      ty, id, error := delegate.ReadFieldBegin();
      if ty == STOP {
        duplicateTo.WriteFieldStop();
      } else if error == None {
        duplicateTo.WriteFieldBegin(ty, id);
      }
    }

    method ReadMapBegin() returns (kt: TType, vt: TType, size: int, error: Option<Error>)
      requires Valid()
      modifies delegate, duplicateTo, duplicateTo.buffer
      ensures match TeeMapBegin(old(State()))
              case Err(e) => error == Some(e)
              case Ok(((k, v, n), t)) => error == None && kt == k && vt == v && size == n && State() == t
    {
      kt, vt, size, error := delegate.ReadMapBegin();
      if error == None {
        duplicateTo.WriteMapBegin(kt, vt, size);
      }
    }

    method ReadListBegin() returns (et: TType, size: int, error: Option<Error>)
      requires Valid()
      modifies delegate, duplicateTo, duplicateTo.buffer
      ensures match TeeListBegin(old(State()))
              case Err(e) => error == Some(e)
              case Ok(((k, n), t)) => error == None && et == k && size == n && State() == t
    {
      et, size, error := delegate.ReadListBegin();
      if error == None {
        duplicateTo.WriteListBegin(et, size);
      }
    }
  }
}
