/** Whole values and messages driven through the JSON protocol objects. */
module JsonDrivers {
  import opened Bytes
  import opened Values
  import opened Configuration
  import opened Json
  import opened JsonPrint
  import opened JsonParse
  import opened JsonProtocol
  import JsInterop
  import Js = JsWriter

  // ---- writing ------------------------------------------------------------

  method PutValue(self: TJSONProtocol, v: Value) returns (error: Option<Error>)
    requires Printable(v)
    modifies self`output, self`dumpContext
    ensures self.Printed(WriteValue(old(self.Printing()), v), error)
    decreases v
  {
    hide OutputI64, OutputString, OutputOpen, OutputClose;
    match v {
      case VBool(b) => error := self.OutputI64(if b then 1 else 0);
      case VByte(n) => error := self.OutputI64(n);
      case VI16(n) => error := self.OutputI64(n);
      case VI32(n) => error := self.OutputI64(n);
      case VI64(n) => error := self.OutputI64(n);
      case VString(s) => error := self.OutputString(s);
      case VStruct(fs) =>
        error := self.OutputOpen(LBRACE);
        if error != None {
          return;
        }
        error := PutFields(self, fs);
        if error == None {
          error := self.OutputClose(RBRACE);
        }
      case VList(et, es) => error := PutList(self, et, es);
      case VSet(et, es) => error := PutList(self, et, es);
      case VMap(kt, vt, es) => error := PutMap(self, kt, vt, es);
    }
  }

  method PutList(self: TJSONProtocol, et: TType, es: seq<Value>) returns (error: Option<Error>)
    requires PrintableElems(es)
    modifies self`output, self`dumpContext
    ensures self.Printed(WriteList(old(self.Printing()), et, es), error)
    decreases es, 1
  {
    hide WriteListBegin, WriteElems, OutputClose;
    error := self.WriteListBegin(et, |es|);
    if error != None {
      return;
    }
    error := PutElems(self, es);
    if error == None {
      error := self.OutputClose(RBRACKET);
    }
  }

  method PutMap(self: TJSONProtocol, kt: TType, vt: TType, es: seq<Entry>) returns (error: Option<Error>)
    requires PrintableEntries(es)
    modifies self`output, self`dumpContext
    ensures self.Printed(WriteMap(old(self.Printing()), kt, vt, es), error)
    decreases es, 1
  {
    hide WriteMapBegin, WriteEntries, WriteMapEnd;
    error := self.WriteMapBegin(kt, vt, |es|);
    if error != None {
      return;
    }
    error := PutEntries(self, es);
    if error == None {
      error := self.WriteMapEnd();
    }
  }

  method PutField(self: TJSONProtocol, f: Field) returns (error: Option<Error>)
    requires PrintableField(f)
    modifies self`output, self`dumpContext
    ensures self.Printed(WriteField(old(self.Printing()), f), error)
    decreases f
  {
    hide WriteFieldBegin, WriteValue, OutputClose;
    error := self.WriteFieldBegin(TypeOf(f.value), f.id);
    if error != None {
      return;
    }
    error := PutValue(self, f.value);
    if error == None {
      error := self.OutputClose(RBRACE);
    }
  }

  method PutFields(self: TJSONProtocol, fs: seq<Field>) returns (error: Option<Error>)
    requires PrintableFields(fs)
    modifies self`output, self`dumpContext
    ensures self.Printed(WriteFields(old(self.Printing()), fs), error)
    decreases fs
  {
    hide WriteField;
    error := None;
    if fs == [] {
      return;
    }
    error := PutField(self, fs[0]);
    if error == None {
      error := PutFields(self, fs[1..]);
    }
  }

  method PutElems(self: TJSONProtocol, es: seq<Value>) returns (error: Option<Error>)
    requires PrintableElems(es)
    modifies self`output, self`dumpContext
    ensures self.Printed(WriteElems(old(self.Printing()), es), error)
    decreases es, 0
  {
    hide WriteValue;
    error := None;
    if es == [] {
      return;
    }
    error := PutValue(self, es[0]);
    if error == None {
      error := PutElems(self, es[1..]);
    }
  }

  method PutEntry(self: TJSONProtocol, e: Entry) returns (error: Option<Error>)
    requires PrintableEntry(e)
    modifies self`output, self`dumpContext
    ensures self.Printed(WriteEntry(old(self.Printing()), e), error)
    decreases e
  {
    hide WriteValue;
    error := PutValue(self, e.key);
    if error == None {
      error := PutValue(self, e.value);
    }
  }

  method PutEntries(self: TJSONProtocol, es: seq<Entry>) returns (error: Option<Error>)
    requires PrintableEntries(es)
    modifies self`output, self`dumpContext
    ensures self.Printed(WriteEntries(old(self.Printing()), es), error)
    decreases es, 0
  {
    hide WriteEntry;
    error := None;
    if es == [] {
      return;
    }
    error := PutEntry(self, es[0]);
    if error == None {
      error := PutEntries(self, es[1..]);
    }
  }

  // ---- reading ------------------------------------------------------------

  ghost predicate Agrees<T(!new)>(x: Parsed<T>, value: T, error: Option<Error>, now: Parser) {
    match x
    case Err(e) => error == Some(e)
    case Ok((v, p)) => error == None && value == v && now == p
  }

  method GetScalar(self: TJSONProtocol, ty: TType) returns (value: Value, error: Option<Error>)
    modifies self`input, self`parseContextStack
    ensures Agrees(ReadScalar(old(self.Parsing()), ty), value, error, self.Parsing())
  {
    hide ParseI64, ReadString;
    value := VBool(false);
    if ty == STRING {
      var s;
      s, error := self.ReadString();
      value := VString(s);
    } else if ty == BOOL || ty == BYTE || ty == I16 || ty == I32 || ty == I64 {
      var n;
      n, error := self.ParseI64();
      if error == None {
        value := Narrowed(ty, n);
      }
    } else {
      error := Some(NotImplemented);
    }
  }

  method GetValue(self: TJSONProtocol, ty: TType) returns (value: Value, error: Option<Error>)
    modifies self`input, self`parseContextStack
    ensures Agrees(ReadValue(old(self.Parsing()), ty), value, error, self.Parsing())
    decreases |self.input|, 3, 0
  {
    hide ParseOpen, ParseClose, ReadScalar;
    value := VBool(false);
    if ty == STRUCT {
      var isNull, fs;
      isNull, error := self.ParseOpen(LBRACE);
      if error != None {
        return;
      }
      fs, error := GetFields(self);
      if error == None {
        error := self.ParseClose(RBRACE);
        value := VStruct(fs);
      }
    } else if ty == LIST || ty == SET {
      var et, es;
      et, es, error := GetList(self);
      value := if ty == LIST then VList(et, es) else VSet(et, es);
    } else if ty == MAP {
      var kt, vt, es;
      kt, vt, es, error := GetMap(self);
      value := VMap(kt, vt, es);
    } else {
      value, error := GetScalar(self, ty);
    }
  }

  method GetList(self: TJSONProtocol) returns (et: TType, es: seq<Value>, error: Option<Error>)
    modifies self`input, self`parseContextStack
    ensures Agrees(ReadList(old(self.Parsing())), (et, es), error, self.Parsing())
    decreases |self.input|, 2, 0
  {
    hide ReadListBegin, ParseClose, ReadElems;
    es := [];
    var n;
    et, n, error := self.ReadListBegin();
    if error != None {
      return;
    }
    if n > 0 {
      es, error := GetElems(self, et, n);
    }
    if error == None {
      error := self.ParseClose(RBRACKET);
    }
  }

  method GetMap(self: TJSONProtocol) returns (kt: TType, vt: TType, es: seq<Entry>, error: Option<Error>)
    modifies self`input, self`parseContextStack
    ensures Agrees(ReadMap(old(self.Parsing())), (kt, vt, es), error, self.Parsing())
    decreases |self.input|, 2, 0
  {
    hide ReadMapBegin, ParseClose, ReadEntries;
    es := [];
    var n;
    kt, vt, n, error := self.ReadMapBegin();
    if error != None {
      return;
    }
    if n > 0 {
      es, error := GetEntries(self, kt, vt, n);
    }
    if error != None {
      return;
    }
    error := self.ParseClose(RBRACE);
    if error == None {
      error := self.ParseClose(RBRACKET);
    }
  }

  method GetField(self: TJSONProtocol) returns (value: Option<Field>, error: Option<Error>)
    modifies self`input, self`parseContextStack
    ensures Agrees(ReadField(old(self.Parsing())), value, error, self.Parsing())
    decreases |self.input|, 1, 0
  {
    hide ReadFieldBegin, ParseClose, ReadValue;
    value := None;
    var ty, id, v;
    ty, id, error := self.ReadFieldBegin();
    if error != None || ty == STOP {
      return;
    }
    v, error := GetValue(self, ty);
    if error == None {
      error := self.ParseClose(RBRACE);
      value := Some(Field(id, v));
    }
  }

  method GetFields(self: TJSONProtocol) returns (value: seq<Field>, error: Option<Error>)
    modifies self`input, self`parseContextStack
    ensures Agrees(ReadFields(old(self.Parsing())), value, error, self.Parsing())
    decreases |self.input|, 2, 0
  {
    hide ReadField;
    value := [];
    var f, fs;
    f, error := GetField(self);
    if error != None || f == None {
      return;
    }
    fs, error := GetFields(self);
    value := [f.value] + fs;
  }

  method GetElems(self: TJSONProtocol, et: TType, n: nat) returns (value: seq<Value>, error: Option<Error>)
    modifies self`input, self`parseContextStack
    ensures Agrees(ReadElems(old(self.Parsing()), et, n), value, error, self.Parsing())
    decreases |self.input|, 4, n
  {
    hide ReadValue;
    value, error := [], None;
    if n == 0 {
      return;
    }
    var v, rest;
    v, error := GetValue(self, et);
    if error == None {
      rest, error := GetElems(self, et, n - 1);
      value := [v] + rest;
    }
  }

  method GetEntry(self: TJSONProtocol, kt: TType, vt: TType) returns (value: Entry, error: Option<Error>)
    modifies self`input, self`parseContextStack
    ensures Agrees(ReadEntry(old(self.Parsing()), kt, vt), value, error, self.Parsing())
    decreases |self.input|, 4, 0
  {
    hide ReadValue;
    var k, v;
    k, error := GetValue(self, kt);
    value := Entry(k, k);
    if error == None {
      v, error := GetValue(self, vt);
      value := Entry(k, v);
    }
  }

  method GetEntries(self: TJSONProtocol, kt: TType, vt: TType, n: nat) returns (value: seq<Entry>, error: Option<Error>)
    modifies self`input, self`parseContextStack
    ensures Agrees(ReadEntries(old(self.Parsing()), kt, vt, n), value, error, self.Parsing())
    decreases |self.input|, 5, n
  {
    hide ReadEntry;
    value, error := [], None;
    if n == 0 {
      return;
    }
    var e, rest;
    e, error := GetEntry(self, kt, vt);
    if error == None {
      rest, error := GetEntries(self, kt, vt, n - 1);
      value := [e] + rest;
    }
  }

  // ---- messages, end to end -----------------------------------------------

  method PutMessage(self: TJSONProtocol, h: Header, v: Value) returns (error: Option<Error>)
    requires Printable(v)
    modifies self
    ensures self.Printed(WriteMessage(old(self.Printing()), h, v), error)
  {
    hide WriteMessageBegin, WriteValue, OutputClose;
    error := self.WriteMessageBegin(h);
    if error != None {
      return;
    }
    error := PutValue(self, v);
    if error == None {
      error := self.OutputClose(RBRACKET);
    }
  }

  method GetMessage(self: TJSONProtocol, ty: TType) returns (h: Header, v: Value, error: Option<Error>)
    modifies self
    ensures Agrees(ReadMessage(old(self.Parsing()), ty), (h, v), error, self.Parsing())
  {
    hide ReadMessageBegin, ReadValue, ParseClose;
    v := VBool(false);
    h, error := self.ReadMessageBegin();
    if error != None {
      return;
    }
    v, error := GetValue(self, ty);
    if error == None {
      error := self.ParseClose(RBRACKET);
    }
  }

  /** Out through one object and in through another: the message comes back exactly when it fits the reader's limits. */
  method SendAndReceive(h: Header, v: Value, writer: Config, reader: Config, sized: bool)
    returns (h': Header, v': Value, error: Option<Error>)
    requires WellTyped(v) && Printable(v) && IsI8(h.messageType) && IsI32(h.seqId)
    ensures if HeaderFits(reader, Go, h) && Fits(reader, Go, v) then error == None && h' == h && v' == v
            else error == Some(SizeLimit)
  {
    hide WriteMessage, ReadMessage, HeaderFits, Fits;
    var out := new TJSONProtocol(writer, sized, []);
    MessageRoundTrip(out.Printing(), h, v, reader, sized, [TopLevel, TopLevel]);
    error := PutMessage(out, h, v);
    assert out.output[0..] == out.output;
    var into := new TJSONProtocol(reader, sized, out.output);
    h', v', error := GetMessage(into, TypeOf(v));
  }

  /**
   * Out through the JavaScript object and in through the Go one: the message comes back if and only if it fits
   * the reader's limits and no string in it has a bare control byte.
   */
  method SendFromJavaScript(h: Header, v: Value, reader: Config, sized: bool)
    returns (h': Header, v': Value, error: Option<Error>)
    requires Js.Writable(v) && JsInterop.NeedsNoEscape(h.name) && IsI8(h.messageType) && IsI32(h.seqId)
    requires WellTyped(v) && Printable(v)
    ensures error == None && h' == h && v' == v <==>
            HeaderFits(reader, JavaScript, h) && Fits(reader, JavaScript, v) && Clean(v)
    ensures Clean(v) && error != None ==> error == Some(SizeLimit)
  {
    hide ReadMessage, HeaderFits, Fits, Js.PrintMessage, Clean;
    var out := new Js.Protocol();
    out.WriteMessage(h, v);
    JsInterop.GoReadsJavaScript(h, v, reader, sized, [TopLevel, TopLevel]);
    var into := new TJSONProtocol(reader, sized, out.wbuf);
    h', v', error := GetMessage(into, TypeOf(v));
  }
}
