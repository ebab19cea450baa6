/** The JSON protocol as it runs: context stacks and streams updated in place. */
module JsonProtocol {
  import opened Bytes
  import opened Values
  import opened Configuration
  import opened JsonText
  import opened Json

  /** Collects the characters of a number from a stream, stopping in front of what ends it. */
  method CollectNumeric(s: ByteSeq, limit: nat) returns (buf: ByteSeq, rest: ByteSeq, error: Option<Error>)
    ensures match Json.ReadNumeric(s, Scan([], false, true, false, false), limit)
            case Err(e) => error == Some(e)
            case Ok((b, r)) => error == None && buf == b && rest == r
  {
    buf, rest, error := [], s, None;
    var hasDecimalPoint, nextCanBeSign, hasE, inQuotes := false, true, false, false;
    while true
      invariant error == None
      invariant Json.ReadNumeric(rest, Scan(buf, hasDecimalPoint, nextCanBeSign, hasE, inQuotes), limit) ==
                Json.ReadNumeric(s, Scan([], false, true, false, false), limit)
      decreases |rest|
    {
      if |buf| > limit {
        error := Some(SizeLimit);
        return;
      }
      if rest == [] || EndsNumber(rest[0]) {
        break;
      }
      var c := rest[0];
      if IsDigit(c) {
        buf, nextCanBeSign := buf + [c], false;
      } else if c == 46 {
        if hasDecimalPoint || hasE {
          error := Some(InvalidData);
          return;
        }
        buf, hasDecimalPoint, nextCanBeSign := buf + [c], true, false;
      } else if c == 101 || c == 69 {
        if hasE {
          error := Some(InvalidData);
          return;
        }
        buf, hasE, nextCanBeSign := buf + [c], true, true;
      } else if c == MINUS || c == PLUS {
        if !nextCanBeSign {
          error := Some(InvalidData);
          return;
        }
        buf, nextCanBeSign := buf + [c], false;
      } else if c == QUOTE {
        inQuotes := true;
      } else {
        error := Some(InvalidData);
        return;
      }
      rest := rest[1..];
    }
    if buf == [] {
      error := Some(InvalidData);
    }
  }

  class TJSONProtocol {
    const cfg: Config
    const sized: bool

    /** The transport: what has been written and what is left to read. */
    var output: ByteSeq
    var input: ByteSeq

    var dumpContext: Stack
    var parseContextStack: Stack

    ghost function Printing(): Printer
      reads this
    {
      Printer(output, dumpContext)
    }

    ghost function Parsing(): Parser
      reads this
    {
      Parser(cfg, sized, input, parseContextStack)
    }

    ghost predicate Printed(x: Result<Printer>, error: Option<Error>)
      reads this
    {
      match x
      case Err(e) => error == Some(e)
      case Ok(w) => error == None && Printing() == w
    }

    ghost predicate Parsed(x: Result<Parser>, error: Option<Error>)
      reads this
    {
      match x
      case Err(e) => error == Some(e)
      case Ok(p) => error == None && Parsing() == p
    }

    /** The outermost context is there twice: once from the reset, once from the constructor itself. */
    constructor (cfg: Config, sized: bool, input: ByteSeq)
      ensures Printing() == Printer([], [TopLevel, TopLevel])
      ensures Parsing() == Parser(cfg, sized, input, [TopLevel, TopLevel])
    {
      this.cfg, this.sized, this.input, this.output := cfg, sized, input, [];
      dumpContext, parseContextStack := [TopLevel], [TopLevel];
      dumpContext, parseContextStack := dumpContext + [TopLevel], parseContextStack + [TopLevel];
    }

    // ---- writing ----------------------------------------------------------

    method OutputPreValue() returns (error: Option<Error>)
      modifies this`output
      ensures Printed(Json.OutputPreValue(old(Printing())), error)
    {
      if dumpContext == [] {
        return Some(InvalidData);
      }
      match dumpContext[|dumpContext| - 1] {
        case InList => output := output + [COMMA];
        case NextKey => output := output + [COMMA];
        case NextValue => output := output + [COLON];
        case _ =>
          assert output + [] == output;
      }
      return None;
    }

    method OutputPostValue() returns (error: Option<Error>)
      modifies this`dumpContext
      ensures Printed(Json.OutputPostValue(old(Printing())), error)
    {
      if dumpContext == [] {
        return Some(InvalidData);
      }
      var top := dumpContext[|dumpContext| - 1];
      if !top.TopLevel? && !top.InList? {
        dumpContext := dumpContext[..|dumpContext| - 1];
        dumpContext := dumpContext + [Following(top)];
      }
      return None;
    }

    method OutputI64(n: int) returns (error: Option<Error>)
      modifies this`output, this`dumpContext
      ensures Printed(Json.OutputI64(old(Printing()), n), error)
    {
      error := OutputPreValue();
      if error != None {
        return;
      }
      var v := Decimal(n);
      if IsKey(dumpContext[|dumpContext| - 1]) {
        v := [QUOTE] + v + [QUOTE];
      }
      output := output + v;
      error := OutputPostValue();
    }

    method OutputString(s: ByteSeq) returns (error: Option<Error>)
      modifies this`output, this`dumpContext
      ensures Printed(Json.OutputString(old(Printing()), s), error)
    {
      error := OutputPreValue();
      if error != None {
        return;
      }
      output := output + Quoted(Go, s);
      error := OutputPostValue();
    }

    method OutputOpen(bracket: Byte) returns (error: Option<Error>)
      modifies this`output, this`dumpContext
      ensures Printed(Json.OutputOpen(old(Printing()), bracket), error)
    {
      error := OutputPreValue();
      if error != None {
        return;
      }
      output := output + [bracket];
      dumpContext := dumpContext + [if bracket == LBRACE then ObjectFirst else ListFirst];
    }

    method OutputClose(bracket: Byte) returns (error: Option<Error>)
      modifies this`output, this`dumpContext
      ensures Printed(Json.OutputClose(old(Printing()), bracket), error)
    {
      output := output + [bracket];
      if dumpContext == [] {
        return Some(InvalidData);
      }
      dumpContext := dumpContext[..|dumpContext| - 1];
      error := OutputPostValue();
    }

    method WriteTypeName(ty: TType) returns (error: Option<Error>)
      modifies this`output, this`dumpContext
      ensures Printed(Json.WriteTypeName(old(Printing()), ty), error)
    {
      match TypeName(ty) {
        case Err(e) => return Some(e);
        case Ok(name) => error := OutputString(name);
      }
    }

    method WriteFieldBegin(ty: TType, id: int) returns (error: Option<Error>)
      modifies this`output, this`dumpContext
      ensures Printed(Json.WriteFieldBegin(old(Printing()), ty, id), error)
    {
      hide Json.OutputI64, Json.OutputOpen, Json.WriteTypeName;
      error := OutputI64(id);
      if error != None {
        return;
      }
      error := OutputOpen(LBRACE);
      if error != None {
        return;
      }
      error := WriteTypeName(ty);
    }

    method WriteListBegin(et: TType, size: nat) returns (error: Option<Error>)
      modifies this`output, this`dumpContext
      ensures Printed(Json.WriteListBegin(old(Printing()), et, size), error)
    {
      hide Json.OutputI64, Json.OutputOpen, Json.WriteTypeName;
      error := OutputOpen(LBRACKET);
      if error != None {
        return;
      }
      error := WriteTypeName(et);
      if error != None {
        return;
      }
      error := OutputI64(size);
    }

    method WriteMapBegin(kt: TType, vt: TType, size: nat) returns (error: Option<Error>)
      modifies this`output, this`dumpContext
      ensures Printed(Json.WriteMapBegin(old(Printing()), kt, vt, size), error)
    {
      hide Json.OutputI64, Json.OutputOpen, Json.WriteTypeName;
      error := OutputOpen(LBRACKET);
      if error != None {
        return;
      }
      error := WriteTypeName(kt);
      if error != None {
        return;
      }
      error := WriteTypeName(vt);
      if error != None {
        return;
      }
      error := OutputI64(size);
      if error != None {
        return;
      }
      error := OutputOpen(LBRACE);
    }

    method WriteMapEnd() returns (error: Option<Error>)
      modifies this`output, this`dumpContext
      ensures Printed(Json.WriteMapEnd(old(Printing())), error)
    {
      hide Json.OutputClose;
      error := OutputClose(RBRACE);
      if error != None {
        return;
      }
      error := OutputClose(RBRACKET);
    }

    method WriteMessageBegin(h: Header) returns (error: Option<Error>)
      modifies this
      ensures Printed(Json.WriteMessageBegin(old(Printing()), h), error)
      ensures input == old(input) && parseContextStack == [TopLevel]
    {
      hide Json.OutputI64, Json.OutputOpen, Json.OutputString;
      dumpContext, parseContextStack := [TopLevel], [TopLevel];
      error := OutputOpen(LBRACKET);
      if error != None {
        return;
      }
      error := OutputI64(VERSION);
      if error != None {
        return;
      }
      error := OutputString(h.name);
      if error != None {
        return;
      }
      error := OutputI64(h.messageType);
      if error != None {
        return;
      }
      error := OutputI64(h.seqId);
    }

    // ---- reading ----------------------------------------------------------

    method ReadNonSignificantWhitespace()
      modifies this`input
      ensures Parsing() == SkipSpaces(old(Parsing()))
    {
      while input != [] && IsSpace(input[0])
        invariant SkipSpace(input) == old(SkipSpace(input))
        decreases |input|
      {
        input := input[1..];
      }
    }

    method ParsePreValue() returns (error: Option<Error>)
      modifies this`input
      ensures Parsed(Json.ParsePreValue(old(Parsing())), error)
    {
      hide SkipSpace;
      ReadNonSignificantWhitespace();
      if parseContextStack == [] {
        return Some(InvalidData);
      }
      if input == [] {
        return None;
      }
      var top, c := parseContextStack[|parseContextStack| - 1], input[0];
      if (top.InList? && c == RBRACKET) || (top.NextKey? && c == RBRACE) {
        return None;
      }
      if ((top.InList? || top.NextKey?) && c == COMMA) || (top.NextValue? && c == COLON) {
        input := input[1..];
        ReadNonSignificantWhitespace();
        return None;
      }
      if top.InList? || top.NextKey? || top.NextValue? {
        return Some(InvalidData);
      }
      return None;
    }

    method ParsePostValue()
      requires parseContextStack != []
      modifies this`input, this`parseContextStack
      ensures Parsing() == Json.ParsePostValue(old(Parsing()))
    {
      hide SkipSpace;
      ReadNonSignificantWhitespace();
      var top := parseContextStack[|parseContextStack| - 1];
      if !top.TopLevel? && !top.InList? {
        parseContextStack := parseContextStack[..|parseContextStack| - 1];
        parseContextStack := parseContextStack + [Following(top)];
      }
    }

    method ParseI64() returns (n: int, error: Option<Error>)
      modifies this`input, this`parseContextStack
      ensures match Json.ParseI64(old(Parsing()))
              case Err(e) => error == Some(e)
              case Ok((m, p)) => error == None && n == m && Parsing() == p
    {
      hide Json.ParsePreValue, Json.ReadNumeric, Json.ParsePostValue;
      n := 0;
      error := ParsePreValue();
      if error != None {
        return;
      }
      if NULL <= input {
        input := input[4..];
      } else {
        var buf, rest;
        buf, rest, error := CollectNumeric(input, cfg.MessageLimit());
        if error != None {
          return;
        }
        n, input := ParseInt(buf), rest;
      }
      ParsePostValue();
    }

    method ReadString() returns (v: ByteSeq, error: Option<Error>)
      modifies this`input, this`parseContextStack
      ensures match Json.ReadString(old(Parsing()))
              case Err(e) => error == Some(e)
              case Ok((s, p)) => error == None && v == s && Parsing() == p
    {
      hide Json.ParsePreValue, Json.ParsePostValue, StringBody, Find, Unescape;
      v := [];
      error := ParsePreValue();
      if error != None {
        return;
      }
      if input != [] && input[0] == QUOTE {
        var end, onePiece;
        end, onePiece, error := ReadStringBody(input, 1, cfg.MessageLimit());
        if error != None {
          return;
        }
        match Unescape(input[1..end - 1]) {
          case Some(s) => v := s;
          case None =>
            if !onePiece {
              error := Some(InvalidData);
              return;
            }
        }
        input := input[end..];
      } else if NULL <= input {
        input := input[4..];
      } else {
        error := Some(InvalidData);
        return;
      }
      ParsePostValue();
    }

    method ParseOpen(bracket: Byte) returns (isNull: bool, error: Option<Error>)
      modifies this`input, this`parseContextStack
      ensures match Json.ParseOpen(old(Parsing()), bracket)
              case Err(e) => error == Some(e)
              case Ok((b, p)) => error == None && isNull == b && Parsing() == p
    {
      hide Json.ParsePreValue;
      isNull := false;
      error := ParsePreValue();
      if error != None {
        return;
      }
      if input == [] {
        error := Some(EndOfFile);
      } else if input[0] == bracket {
        parseContextStack := parseContextStack + [if bracket == LBRACE then ObjectFirst else ListFirst];
        input := input[1..];
      } else if NULL <= input {
        isNull := true;
      } else {
        error := Some(InvalidData);
      }
    }

    method ParseClose(bracket: Byte) returns (error: Option<Error>)
      requires bracket == RBRACE || bracket == RBRACKET
      modifies this`input, this`parseContextStack
      ensures Parsed(Json.ParseClose(old(Parsing()), bracket), error)
    {
      hide SkipSpace, Json.ParsePostValue, Find;
      ReadNonSignificantWhitespace();
      if NULL <= input {
        input := input[4..];
        return None;
      }
      if parseContextStack == [] {
        return Some(InvalidData);
      }
      var top := parseContextStack[|parseContextStack| - 1];
      if if bracket == RBRACKET then !top.InList? else !IsKey(top) {
        return Some(InvalidData);
      }
      var end;
      end, error := ReadBinaryBounded(input, 0, bracket, cfg.MessageLimit());
      if error != None {
        return;
      }
      for i := 0 to end - 1
        invariant forall k :: 0 <= k < i ==> IsSpace(input[k])
      {
        if !IsSpace(input[i]) {
          return Some(InvalidData);
        }
      }
      input := input[end..];
      parseContextStack := parseContextStack[..|parseContextStack| - 1];
      if parseContextStack == [] {
        return Some(InvalidData);
      }
      if bracket == RBRACKET && parseContextStack[|parseContextStack| - 1].TopLevel? {
        return None;
      }
      ParsePostValue();
    }

    method ReadTypeName() returns (ty: TType, error: Option<Error>)
      modifies this`input, this`parseContextStack
      ensures match Json.ReadTypeName(old(Parsing()))
              case Err(e) => error == Some(e)
              case Ok((t, p)) => error == None && ty == t && Parsing() == p
    {
      hide Json.ReadString, TypeNamed;
      ty := STOP;
      var s;
      s, error := ReadString();
      if error == None {
        match TypeNamed(s) {
          case Err(e) => error := Some(e);
          case Ok(t) => ty := t;
        }
      }
    }

    method ReadFieldBegin() returns (ty: TType, id: int, error: Option<Error>)
      modifies this`input, this`parseContextStack
      ensures match Json.ReadFieldBegin(old(Parsing()))
              case Err(e) => error == Some(e)
              case Ok((begin, p)) => error == None && (ty, id) == begin && Parsing() == p
    {
      hide Json.ParseI64, Json.ParseOpen, Json.ReadTypeName;
      ty, id, error := STOP, -1, None;
      if input == [] || input[0] == RBRACE || input[0] == RBRACKET {
        return;
      }
      var n, isNull;
      n, error := ParseI64();
      if error != None {
        return;
      }
      id := ToI16(n);
      isNull, error := ParseOpen(LBRACE);
      if error != None {
        return;
      }
      ty, error := ReadTypeName();
    }

    method ReadListBegin() returns (et: TType, size: nat, error: Option<Error>)
      modifies this`input, this`parseContextStack
      ensures match Json.ReadListBegin(old(Parsing()))
              case Err(e) => error == Some(e)
              case Ok((begin, p)) => error == None && (et, size) == begin && Parsing() == p
    {
      hide Json.ParseI64, Json.ParseOpen, Json.ReadTypeName;
      et, size := VOID, 0;
      var isNull, n;
      isNull, error := ParseOpen(LBRACKET);
      if error != None || isNull {
        return;
      }
      et, error := ReadTypeName();
      if error != None {
        return;
      }
      n, error := ParseI64();
      if error != None {
        return;
      }
      match CheckContainerSize(n, MinSize(et), if sized then Some(|input|) else None, cfg) {
        case Err(e) => error := Some(e);
        case Ok(_) => size := n;
      }
    }

    method ReadMapBegin() returns (kt: TType, vt: TType, size: nat, error: Option<Error>)
      modifies this`input, this`parseContextStack
      ensures match Json.ReadMapBegin(old(Parsing()))
              case Err(e) => error == Some(e)
              case Ok((begin, p)) => error == None && (kt, vt, size) == begin && Parsing() == p
    {
      hide Json.ParseI64, Json.ParseOpen, Json.ReadTypeName;
      kt, vt, size := VOID, VOID, 0;
      var isNull, n;
      isNull, error := ParseOpen(LBRACKET);
      if error != None || isNull {
        return;
      }
      kt, error := ReadTypeName();
      if error != None {
        return;
      }
      vt, error := ReadTypeName();
      if error != None {
        return;
      }
      n, error := ParseI64();
      if error != None {
        return;
      }
      match CheckContainerSize(n, MinSize(kt) + MinSize(vt), if sized then Some(|input|) else None, cfg) {
        case Err(e) =>
          error := Some(e);
        case Ok(_) =>
          size := n;
          isNull, error := ParseOpen(LBRACE);
      }
    }

    method ReadMessageBegin() returns (h: Header, error: Option<Error>)
      modifies this
      ensures match Json.ReadMessageBegin(old(Parsing()))
              case Err(e) => error == Some(e)
              case Ok((h', p)) => error == None && h == h' && Parsing() == p
      ensures output == old(output) && dumpContext == [TopLevel]
    {
      hide Json.ParseI64, Json.ParseOpen, Json.ReadString;
      h := Header([], 0, 0);
      dumpContext, parseContextStack := [TopLevel], [TopLevel];
      var isNull, version, name, ty, seqId;
      isNull, error := ParseOpen(LBRACKET);
      if error != None || isNull {
        return;
      }
      version, error := ParseI64();
      if error != None {
        return;
      }
      if ToI32(version) != VERSION {
        error := Some(InvalidData);
        return;
      }
      name, error := ReadString();
      if error != None {
        return;
      }
      ty, error := ParseI64();
      if error != None {
        return;
      }
      seqId, error := ParseI64();
      if error == None {
        h := Header(name, ToI8(ty), ToI32(seqId));
      }
    }
  }
}
