/** Whole values driven through the protocol objects, the way generated code drives them. */
module Drivers {
  import opened Bytes
  import opened Values
  import opened Configuration
  import opened Wire
  import opened Codec
  import opened RoundTrip
  import opened Duplicate
  import opened Protocol

  // ---- writing ------------------------------------------------------------

  ghost predicate Wrote(x: Result<Writer>, error: Option<Error>, now: Writer) {
    match x
    case Err(e) => error == Some(e)
    case Ok(w) => error == None && now == w
  }

  method PutValue(self: TProtocol, v: Value) returns (error: Option<Error>)
    requires self.Valid() && WellTyped(v)
    modifies self, self.buffer
    ensures Wrote(WriteValue(old(self.Writing()), v), error, self.Writing())
    decreases v
  {
    match v {
      case VStruct(fs) =>
        self.WriteStructBegin();
        error := PutFields(self, fs);
        if error == None {
          error := self.WriteStructEnd();
        }
      case VList(et, es) =>
        self.WriteListBegin(et, |es|);
        error := PutElems(self, et, es);
      case VSet(et, es) =>
        self.WriteListBegin(et, |es|);
        error := PutElems(self, et, es);
      case VMap(kt, vt, es) =>
        self.WriteMapBegin(kt, vt, |es|);
        error := PutEntries(self, kt, vt, es);
      case _ =>
        self.WriteScalar(v);
        error := None;
    }
  }

  method PutFields(self: TProtocol, fs: seq<Field>) returns (error: Option<Error>)
    requires self.Valid() && WellTypedFields(fs)
    modifies self, self.buffer
    ensures Wrote(WriteFields(old(self.Writing()), fs), error, self.Writing())
    decreases fs
  {
    hide WriteFieldBegin, WriteFieldStop, WriteValue;
    if fs == [] {
      self.WriteFieldStop();
      return None;
    }
    error := PutField(self, fs[0]);
    if error == None {
      error := PutFields(self, fs[1..]);
    }
  }

  method PutField(self: TProtocol, f: Field) returns (error: Option<Error>)
    requires self.Valid() && WellTypedField(f)
    modifies self, self.buffer
    ensures Wrote(WriteField(old(self.Writing()), f), error, self.Writing())
    decreases f
  {
    hide Wire.WriteFieldBegin, WriteValue;
    self.WriteFieldBegin(TypeOf(f.value), f.id);
    error := PutValue(self, f.value);
  }

  method PutElems(self: TProtocol, et: TType, es: seq<Value>) returns (error: Option<Error>)
    requires self.Valid() && WellTypedElems(et, es)
    modifies self, self.buffer
    ensures Wrote(WriteElems(old(self.Writing()), es), error, self.Writing())
    decreases es
  {
    hide WriteValue;
    if es == [] {
      return None;
    }
    error := PutValue(self, es[0]);
    if error == None {
      error := PutElems(self, et, es[1..]);
    }
  }

  method PutEntry(self: TProtocol, kt: TType, vt: TType, e: Entry) returns (error: Option<Error>)
    requires self.Valid() && WellTypedEntry(kt, vt, e)
    modifies self, self.buffer
    ensures Wrote(WriteEntry(old(self.Writing()), e), error, self.Writing())
    decreases e
  {
    hide WriteValue;
    error := PutValue(self, e.key);
    if error == None {
      error := PutValue(self, e.value);
    }
  }

  method PutEntries(self: TProtocol, kt: TType, vt: TType, es: seq<Entry>) returns (error: Option<Error>)
    requires self.Valid() && WellTypedEntries(kt, vt, es)
    modifies self, self.buffer
    ensures Wrote(WriteEntries(old(self.Writing()), es), error, self.Writing())
    decreases es
  {
    hide WriteEntry;
    if es == [] {
      return None;
    }
    error := PutEntry(self, kt, vt, es[0]);
    if error == None {
      error := PutEntries(self, kt, vt, es[1..]);
    }
  }

  // ---- reading ------------------------------------------------------------

  method GetValue(self: TProtocol, ty: TType) returns (value: Value, error: Option<Error>)
    requires self.Valid()
    modifies self`input, self`lastField, self`lastFieldId, self`boolValue, self`boolValueIsNotNull
    ensures Agrees(ReadValue(old(self.Reading()), ty), value, error, self.Reading())
    decreases |self.input|, 2, 0
  {
    hide Wire.ReadListBegin, Wire.ReadMapBegin, Wire.ReadStructEnd;
    value := VStruct([]);
    if IsScalarType(ty) {
      value, error := self.ReadScalar(ty);
    } else if ty == STRUCT {
      self.ReadStructBegin();
      var fs;
      fs, error := GetFields(self);
      if error == None {
        error := self.ReadStructEnd();
        value := VStruct(fs);
      }
    } else if ty == MAP {
      var kt, vt, size, es;
      kt, vt, size, error := self.ReadMapBegin();
      if error == None {
        es, error := GetEntries(self, kt, vt, size);
        value := VMap(kt, vt, es);
      }
    } else if ty == SET || ty == LIST {
      var et, size, es;
      et, size, error := self.ReadListBegin();
      if error == None {
        es, error := GetElems(self, et, size);
        value := if ty == SET then VSet(et, es) else VList(et, es);
      }
    } else {
      error := Some(InvalidData);
    }
  }

  method GetField(self: TProtocol) returns (value: Option<Field>, error: Option<Error>)
    requires self.Valid()
    modifies self`input, self`lastField, self`lastFieldId, self`boolValue, self`boolValueIsNotNull
    ensures Agrees(ReadField(old(self.Reading())), value, error, self.Reading())
    decreases |self.input|, 0, 0
  {
    hide Wire.ReadFieldBegin, ReadValue;
    value := None;
    var ty, id, v;
    ty, id, error := self.ReadFieldBegin();
    if error != None || ty == STOP {
      return;
    }
    v, error := GetValue(self, ty);
    value := Some(Field(id, v));
  }

  method GetFields(self: TProtocol) returns (value: seq<Field>, error: Option<Error>)
    requires self.Valid()
    modifies self`input, self`lastField, self`lastFieldId, self`boolValue, self`boolValueIsNotNull
    ensures Agrees(ReadFields(old(self.Reading())), value, error, self.Reading())
    decreases |self.input|, 1, 0
  {
    hide ReadField;
    value := [];
    var f, fs;
    f, error := GetField(self);
    if error != None || f == None {
      return;
    }
    fs, error := GetFields(self);
    value := [f.value] + fs;
  }

  method GetElems(self: TProtocol, et: TType, n: nat) returns (value: seq<Value>, error: Option<Error>)
    requires self.Valid()
    modifies self`input, self`lastField, self`lastFieldId, self`boolValue, self`boolValueIsNotNull
    ensures Agrees(ReadElems(old(self.Reading()), et, n), value, error, self.Reading())
    decreases |self.input|, 3, n
  {
    hide ReadValue;
    value, error := [], None;
    if n == 0 {
      return;
    }
    var v, rest;
    v, error := GetValue(self, et);
    if error == None {
      rest, error := GetElems(self, et, n - 1);
      value := [v] + rest;
    }
  }

  method GetEntry(self: TProtocol, kt: TType, vt: TType) returns (value: Entry, error: Option<Error>)
    requires self.Valid()
    modifies self`input, self`lastField, self`lastFieldId, self`boolValue, self`boolValueIsNotNull
    ensures Agrees(ReadEntry(old(self.Reading()), kt, vt), value, error, self.Reading())
    decreases |self.input|, 3, 0
  {
    hide ReadValue;
    var k, v;
    k, error := GetValue(self, kt);
    value := Entry(k, k);
    if error == None {
      v, error := GetValue(self, vt);
      value := Entry(k, v);
    }
  }

  method GetEntries(self: TProtocol, kt: TType, vt: TType, n: nat) returns (value: seq<Entry>, error: Option<Error>)
    requires self.Valid()
    modifies self`input, self`lastField, self`lastFieldId, self`boolValue, self`boolValueIsNotNull
    ensures Agrees(ReadEntries(old(self.Reading()), kt, vt, n), value, error, self.Reading())
    decreases |self.input|, 4, n
  {
    hide ReadEntry;
    value, error := [], None;
    if n == 0 {
      return;
    }
    var e, rest;
    e, error := GetEntry(self, kt, vt);
    if error == None {
      rest, error := GetEntries(self, kt, vt, n - 1);
      value := [e] + rest;
    }
  }

  // ---- duplicating --------------------------------------------------------

  method CopyValue(self: TDuplicateToProtocol, ty: TType) returns (value: Value, error: Option<Error>)
    requires self.Valid()
    modifies self.delegate, self.duplicateTo, self.duplicateTo.buffer
    ensures TeeAgrees(TeeValue(old(self.State()), ty), value, error, self.State())
    decreases |self.delegate.input|, 2, 0
  {
    hide TeeScalar, TeeMapBegin, TeeListBegin, TeeStructEnd, TeeStructBegin;
    value := VStruct([]);
    if IsScalarType(ty) {
      value, error := self.ReadScalar(ty);
    } else if ty == STRUCT {
      self.ReadStructBegin();
      var fs;
      fs, error := CopyFields(self);
      if error == None {
        error := self.ReadStructEnd();
        value := VStruct(fs);
      }
    } else if ty == MAP {
      var kt, vt, size, es;
      kt, vt, size, error := self.ReadMapBegin();
      if error == None {
        es, error := CopyEntries(self, kt, vt, size);
        value := VMap(kt, vt, es);
      }
    } else if ty == SET || ty == LIST {
      var et, size, es;
      et, size, error := self.ReadListBegin();
      if error == None {
        es, error := CopyElems(self, et, size);
        value := if ty == SET then VSet(et, es) else VList(et, es);
      }
    } else {
      error := Some(InvalidData);
    }
  }

  method CopyFields(self: TDuplicateToProtocol) returns (value: seq<Field>, error: Option<Error>)
    requires self.Valid()
    modifies self.delegate, self.duplicateTo, self.duplicateTo.buffer
    ensures TeeAgrees(TeeFields(old(self.State())), value, error, self.State())
    decreases |self.delegate.input|, 1, 0
  {
    hide TeeFieldBegin, TeeValue;
    value := [];
    var ty, id, v, fs;
    ty, id, error := self.ReadFieldBegin();
    if error != None || ty == STOP {
      return;
    }
    v, error := CopyValue(self, ty);
    if error == None {
      fs, error := CopyFields(self);
      value := [Field(id, v)] + fs;
    }
  }

  method CopyElems(self: TDuplicateToProtocol, et: TType, n: nat) returns (value: seq<Value>, error: Option<Error>)
    requires self.Valid()
    modifies self.delegate, self.duplicateTo, self.duplicateTo.buffer
    ensures TeeAgrees(TeeElems(old(self.State()), et, n), value, error, self.State())
    decreases |self.delegate.input|, 3, n
  {
    hide TeeValue;
    value, error := [], None;
    if n == 0 {
      return;
    }
    var v, rest;
    v, error := CopyValue(self, et);
    if error == None {
      rest, error := CopyElems(self, et, n - 1);
      value := [v] + rest;
    }
  }

  method CopyEntries(self: TDuplicateToProtocol, kt: TType, vt: TType, n: nat)
    returns (value: seq<Entry>, error: Option<Error>)
    requires self.Valid()
    modifies self.delegate, self.duplicateTo, self.duplicateTo.buffer
    ensures TeeAgrees(TeeEntries(old(self.State()), kt, vt, n), value, error, self.State())
    decreases |self.delegate.input|, 3, n
  {
    hide TeeValue;
    value, error := [], None;
    if n == 0 {
      return;
    }
    var k, v, rest;
    k, error := CopyValue(self, kt);
    if error != None {
      return;
    }
    v, error := CopyValue(self, vt);
    if error == None {
      rest, error := CopyEntries(self, kt, vt, n - 1);
      value := [Entry(k, v)] + rest;
    }
  }

  // ---- end to end ---------------------------------------------------------

  /** A value written through one protocol object, and its bytes. */
  method Serialize(kind: Kind, cfg: Config, v: Value) returns (bytes: ByteSeq)
    requires WellTyped(v)
    ensures bytes == Enc(kind, v)
  {
    hide WriteValue, Enc;
    var p := new TProtocol(kind, cfg, true, []);
    WriteValueEncodes(p.Writing(), v);
    var error := PutValue(p, v);
    bytes := p.output;
    assert [] + Enc(kind, v) == Enc(kind, v);
  }

  /** Bytes read as a value through another, in front of whatever follows them. */
  method Deserialize(kind: Kind, cfg: Config, sized: bool, bytes: ByteSeq, ty: TType, ghost v: Value,
                     ghost rest: ByteSeq)
    returns (value: Value, left: ByteSeq, error: Option<Error>)
    requires WellTyped(v) && TypeOf(v) == ty && bytes == Enc(kind, v) + rest
    ensures if Fits(cfg, kind, v) then error == None && value == Canon(kind, v) && left == rest
            else error == Some(SizeLimit)
  {
    hide ReadValue, Enc, Fits, Canon;
    var p := new TProtocol(kind, cfg, sized, bytes);
    ReadValueInverts(p.Reading(), v, rest);
    value, error := GetValue(p, ty);
    left := p.input;
  }

  /** Out through one object and in through another: the value comes back exactly when it fits the reader's limits. */
  method SendAndReceive(kind: Kind, writer: Config, reader: Config, sized: bool, v: Value)
    returns (value: Value, error: Option<Error>)
    requires WellTyped(v)
    ensures if Fits(reader, kind, v) then error == None && value == Canon(kind, v) else error == Some(SizeLimit)
  {
    hide Enc, Fits, Canon;
    var bytes := Serialize(kind, writer, v);
    var left;
    assert bytes + [] == bytes;
    value, left, error := Deserialize(kind, reader, sized, bytes, TypeOf(v), v, []);
  }

  /** Reading binary through the duplicating object leaves the compact writer's bytes on the copy, and back. */
  method Transcode(from: Kind, to: Kind, cfg: Config, sized: bool, v: Value)
    returns (bytes: ByteSeq, error: Option<Error>)
    requires WellTyped(v)
    ensures Fits(cfg, from, v) ==> error == None && bytes == Enc(to, Canon(from, v))
    ensures !Fits(cfg, from, v) ==> error == Some(SizeLimit)
  {
    hide Enc, Fits, Canon, TeeValue, ReadValue, WriteValue;
    var source := Serialize(from, cfg, v);
    var delegate := new TProtocol(from, cfg, sized, source);
    var copy := new TProtocol(to, cfg, sized, []);
    var both := new TDuplicateToProtocol(delegate, copy);
    assert source + [] == source;
    ReadValueInverts(delegate.Reading(), v, []);
    TeeReadsThenWrites(both.State(), TypeOf(v));
    if Fits(cfg, from, v) {
      TeeTranscodes(both.State(), v, []);
    }
    var value;
    value, error := CopyValue(both, TypeOf(v));
    bytes := copy.output;
    assert [] + Enc(to, Canon(from, v)) == Enc(to, Canon(from, v));
  }
}
