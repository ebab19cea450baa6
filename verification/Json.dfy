/** TJSONProtocol over TSimpleJSONProtocol: printing and parsing, each driven by its own context stack. */
module Json {
  import opened Bytes
  import opened Values
  import opened Configuration
  import opened JsonText

  const COMMA: Byte := 44
  const COLON: Byte := 58
  const LBRACE: Byte := 123
  const RBRACE: Byte := 125
  const LBRACKET: Byte := 91
  const RBRACKET: Byte := 93
  const MINUS: Byte := 45
  const PLUS: Byte := 43
  const ZERO: Byte := 48
  const NULL: ByteSeq := [110, 117, 108, 108]

  datatype Context = TopLevel | ListFirst | InList | ObjectFirst | NextKey | NextValue

  type Stack = seq<Context>

  predicate IsKey(c: Context) { c.ObjectFirst? || c.NextKey? }

  /** The separator a value in this context starts with. */
  function Separator(c: Context): ByteSeq {
    match c
    case InList | NextKey => [COMMA]
    case NextValue => [COLON]
    case TopLevel | ListFirst | ObjectFirst => []
  }

  /** The context once a value in it is complete. */
  function Following(c: Context): Context {
    match c
    case TopLevel => TopLevel
    case ListFirst | InList => InList
    case ObjectFirst | NextKey => NextValue
    case NextValue => NextKey
  }

  function Top(ctx: Stack): Context
    requires ctx != []
  {
    ctx[|ctx| - 1]
  }

  function Pop(ctx: Stack): Stack
    requires ctx != []
  {
    ctx[..|ctx| - 1]
  }

  function Advance(ctx: Stack): (ctx': Stack)
    requires ctx != []
    ensures |ctx'| == |ctx|
  {
    Pop(ctx) + [Following(Top(ctx))]
  }

  // ---- lexemes ------------------------------------------------------------

  function Digits(n: nat): (d: ByteSeq)
    ensures |d| >= 1
    ensures forall i :: 0 <= i < |d| ==> ZERO <= d[i] <= ZERO + 9
  {
    if n < 10 then [ZERO + n] else Digits(n / 10) + [ZERO + n % 10]
  }

  function Decimal(n: int): ByteSeq {
    if n < 0 then [MINUS] + Digits(-n) else Digits(n)
  }

  function HexDigit(n: nat): Byte
    requires n < 16
  {
    if n < 10 then ZERO + n else 97 + (n - 10)
  }

  /** Which of the two writers escaped a string. */
  datatype Style = Go | JavaScript

  /**
   * How one byte of a string is written: short escapes on both sides; other control bytes and < > & as
   * \u00xx on the Go side and as they are on the JavaScript side.
   */
  function EscapeByte(style: Style, b: Byte): (e: ByteSeq)
    ensures |e| >= 1
  {
    if b == QUOTE || b == BACKSLASH then [BACKSLASH, b]
    else if b == 8 then [BACKSLASH, 98]
    else if b == 12 then [BACKSLASH, 102]
    else if b == 10 then [BACKSLASH, 110]
    else if b == 13 then [BACKSLASH, 114]
    else if b == 9 then [BACKSLASH, 116]
    else if style.Go? && (b < 32 || b == 60 || b == 62 || b == 38) then
      [BACKSLASH, 117, ZERO, ZERO, HexDigit(b / 16), HexDigit(b % 16)]
    else [b]
  }

  function Escape(style: Style, s: ByteSeq): ByteSeq {
    if s == [] then [] else EscapeByte(style, s[0]) + Escape(style, s[1..])
  }

  function Quoted(style: Style, s: ByteSeq): ByteSeq {
    [QUOTE] + Escape(style, s) + [QUOTE]
  }

  function HexValue(c: Byte): (h: Option<nat>)
    ensures h.Some? ==> h.value < 16
  {
    if ZERO <= c <= ZERO + 9 then Some(c - ZERO)
    else if 97 <= c <= 102 then Some(c - 97 + 10)
    else if 65 <= c <= 70 then Some(c - 65 + 10)
    else None
  }

  /** The code unit of a \uXXXX escape at the front. */
  function CodeUnit(s: ByteSeq): (u: Option<nat>)
    ensures u.Some? ==> |s| >= 6 && u.value < 0x1_0000
  {
    if |s| < 6 || s[0] != BACKSLASH || s[1] != 117 then None
    else
      match (HexValue(s[2]), HexValue(s[3]), HexValue(s[4]), HexValue(s[5]))
      case (Some(a), Some(b), Some(c), Some(d)) => Some(a * 0x1000 + b * 0x100 + c * 0x10 + d)
      case _ => None
  }

  function Utf8(u: nat): (b: ByteSeq)
    requires u < 0x11_0000
    ensures |b| >= 1
  {
    if u < 0x80 then [u]
    else if u < 0x800 then [0xc0 + u / 0x40, 0x80 + u % 0x40]
    else if u < 0x1_0000 then [0xe0 + u / 0x1000, 0x80 + u / 0x40 % 0x40, 0x80 + u % 0x40]
    else [0xf0 + u / 0x4_0000, 0x80 + u / 0x1000 % 0x40, 0x80 + u / 0x40 % 0x40, 0x80 + u % 0x40]
  }

  const REPLACEMENT := 0xfffd

  /** A code unit decoded: a pair of surrogates is one character, a lone one becomes the replacement character. */
  function DecodeUnit(u: nat, rest: ByteSeq): (x: (ByteSeq, nat))
    requires u < 0x1_0000
    ensures |x.0| >= 1 && (x.1 == 6 || (x.1 == 12 && CodeUnit(rest).Some?))
  {
    if !(0xd800 <= u < 0xe000) then (Utf8(u), 6)
    else
      match CodeUnit(rest)
      case Some(v) =>
        if u < 0xdc00 && 0xdc00 <= v < 0xe000 then (Utf8(0x1_0000 + (u - 0xd800) * 0x400 + (v - 0xdc00)), 12)
        else (Utf8(REPLACEMENT), 6)
      case None => (Utf8(REPLACEMENT), 6)
  }

  /** The bytes that the character or escape at the front stands for, and its length. */
  function UnescapeOne(s: ByteSeq): (x: Option<(ByteSeq, nat)>)
    requires s != []
    ensures x.Some? ==> 1 <= x.value.1 <= |s| && |x.value.0| >= 1
  {
    if s[0] != BACKSLASH then if s[0] < 32 || s[0] == QUOTE then None else Some(([s[0]], 1))
    else if |s| < 2 then None
    else if s[1] == QUOTE || s[1] == BACKSLASH || s[1] == 47 then Some(([s[1]], 2))
    else if s[1] == 98 then Some(([8], 2))
    else if s[1] == 102 then Some(([12], 2))
    else if s[1] == 110 then Some(([10], 2))
    else if s[1] == 114 then Some(([13], 2))
    else if s[1] == 116 then Some(([9], 2))
    else
      match CodeUnit(s)
      case None => None
      case Some(u) => Some(DecodeUnit(u, s[6..]))
  }

  function Unescape(s: ByteSeq): Option<ByteSeq>
    decreases |s|
  {
    if s == [] then Some([])
    else
      match UnescapeOne(s)
      case None => None
      case Some((b, n)) =>
        match Unescape(s[n..])
        case None => None
        case Some(rest) => Some(b + rest)
  }

  function TypeName(ty: TType): Result<ByteSeq> {
    if ty == BOOL then Ok([116, 102])
    else if ty == BYTE then Ok([105, 56])
    else if ty == I16 then Ok([105, 49, 54])
    else if ty == I32 then Ok([105, 51, 50])
    else if ty == I64 then Ok([105, 54, 52])
    else if ty == DOUBLE then Ok([100, 98, 108])
    else if ty == STRING then Ok([115, 116, 114])
    else if ty == STRUCT then Ok([114, 101, 99])
    else if ty == MAP then Ok([109, 97, 112])
    else if ty == SET then Ok([115, 101, 116])
    else if ty == LIST then Ok([108, 115, 116])
    else if ty == UUID then Ok([117, 105, 100])
    else Err(InvalidData)
  }

  function TypeNamed(s: ByteSeq): (x: Result<TType>)
    ensures x.Ok? ==> x.value != STOP
  {
    if s == [116, 102] then Ok(BOOL)
    else if s == [105, 56] then Ok(BYTE)
    else if s == [105, 49, 54] then Ok(I16)
    else if s == [105, 51, 50] then Ok(I32)
    else if s == [105, 54, 52] then Ok(I64)
    else if s == [100, 98, 108] then Ok(DOUBLE)
    else if s == [115, 116, 114] then Ok(STRING)
    else if s == [114, 101, 99] then Ok(STRUCT)
    else if s == [109, 97, 112] then Ok(MAP)
    else if s == [115, 101, 116] then Ok(SET)
    else if s == [108, 115, 116] then Ok(LIST)
    else if s == [117, 105, 100] then Ok(UUID)
    else Err(InvalidData)
  }

  function MinSize(ty: TType): (n: nat)
    ensures 1 <= n <= 16
  {
    if ty == STRING || ty == STRUCT || ty == MAP || ty == SET || ty == LIST then 2
    else if ty == UUID then 16
    else 1
  }

  // ---- printing -----------------------------------------------------------

  datatype Printer = Printer(out: ByteSeq, ctx: Stack)

  function OutputPreValue(w: Printer): (x: Result<Printer>)
    ensures x.Ok? ==> x.value.ctx == w.ctx != []
  {
    if w.ctx == [] then Err(InvalidData) else Ok(w.(out := w.out + Separator(Top(w.ctx))))
  }

  function OutputPostValue(w: Printer): Result<Printer> {
    if w.ctx == [] then Err(InvalidData) else Ok(w.(ctx := Advance(w.ctx)))
  }

  function OutputI64(w: Printer, n: int): Result<Printer> {
    var w1 :- OutputPreValue(w);
    var v := if IsKey(Top(w1.ctx)) then [QUOTE] + Decimal(n) + [QUOTE] else Decimal(n);
    OutputPostValue(w1.(out := w1.out + v))
  }

  /** A string that has been quoted already. */
  function OutputQuoted(w: Printer, text: ByteSeq): Result<Printer> {
    var w1 :- OutputPreValue(w);
    OutputPostValue(w1.(out := w1.out + text))
  }

  function OutputString(w: Printer, s: ByteSeq): Result<Printer> { OutputQuoted(w, Quoted(Go, s)) }

  /** Opens an object or a list: the bracket, and the context of its first value. */
  function OutputOpen(w: Printer, bracket: Byte): Result<Printer> {
    var w1 :- OutputPreValue(w);
    Ok(w1.(out := w1.out + [bracket], ctx := w1.ctx + [if bracket == LBRACE then ObjectFirst else ListFirst]))
  }

  function OutputClose(w: Printer, bracket: Byte): Result<Printer> {
    if w.ctx == [] then Err(InvalidData)
    else OutputPostValue(Printer(w.out + [bracket], Pop(w.ctx)))
  }

  function WriteTypeName(w: Printer, ty: TType): Result<Printer> {
    var name :- TypeName(ty);
    OutputString(w, name)
  }

  function WriteFieldBegin(w: Printer, ty: TType, id: int): Result<Printer> {
    var w1 :- OutputI64(w, id);
    var w2 :- OutputOpen(w1, LBRACE);
    WriteTypeName(w2, ty)
  }

  function WriteMapBegin(w: Printer, kt: TType, vt: TType, size: nat): Result<Printer> {
    var w1 :- OutputOpen(w, LBRACKET);
    var w2 :- WriteTypeName(w1, kt);
    var w3 :- WriteTypeName(w2, vt);
    var w4 :- OutputI64(w3, size);
    OutputOpen(w4, LBRACE)
  }

  function WriteMapEnd(w: Printer): Result<Printer> {
    var w1 :- OutputClose(w, RBRACE);
    OutputClose(w1, RBRACKET)
  }

  function WriteListBegin(w: Printer, et: TType, size: nat): Result<Printer> {
    var w1 :- OutputOpen(w, LBRACKET);
    var w2 :- WriteTypeName(w1, et);
    OutputI64(w2, size)
  }

  /** The values printed here; doubles, UUIDs and binaries go through formats of their own. */
  predicate Printable(v: Value)
    decreases v
  {
    match v
    case VDouble(_) => false
    case VUuid(_) => false
    case VStruct(fs) => PrintableFields(fs)
    case VList(_, es) => PrintableElems(es)
    case VSet(_, es) => PrintableElems(es)
    case VMap(kt, vt, es) => IsValueType(kt) && IsValueType(vt) && PrintableEntries(es)
    case _ => true
  }

  predicate PrintableField(f: Field)
    decreases f
  {
    Printable(f.value)
  }

  predicate PrintableFields(fs: seq<Field>)
    decreases fs
  {
    fs != [] ==> PrintableField(fs[0]) && PrintableFields(fs[1..])
  }

  predicate PrintableElems(es: seq<Value>)
    decreases es
  {
    es != [] ==> Printable(es[0]) && PrintableElems(es[1..])
  }

  predicate PrintableEntry(e: Entry)
    decreases e
  {
    Printable(e.key) && Printable(e.value)
  }

  predicate PrintableEntries(es: seq<Entry>)
    decreases es
  {
    es != [] ==> PrintableEntry(es[0]) && PrintableEntries(es[1..])
  }

  function WriteValue(w: Printer, v: Value): Result<Printer>
    requires Printable(v)
    decreases v
  {
    match v
    case VBool(b) => OutputI64(w, if b then 1 else 0)
    case VByte(n) => OutputI64(w, n)
    case VI16(n) => OutputI64(w, n)
    case VI32(n) => OutputI64(w, n)
    case VI64(n) => OutputI64(w, n)
    case VString(s) => OutputString(w, s)
    case VStruct(fs) =>
      var w1 :- OutputOpen(w, LBRACE);
      var w2 :- WriteFields(w1, fs);
      OutputClose(w2, RBRACE)
    case VList(et, es) => WriteList(w, et, es)
    case VSet(et, es) => WriteList(w, et, es)
    case VMap(kt, vt, es) => WriteMap(w, kt, vt, es)
  }

  function WriteList(w: Printer, et: TType, es: seq<Value>): Result<Printer>
    requires PrintableElems(es)
    decreases es, 1
  {
    var w1 :- WriteListBegin(w, et, |es|);
    var w2 :- WriteElems(w1, es);
    OutputClose(w2, RBRACKET)
  }

  function WriteMap(w: Printer, kt: TType, vt: TType, es: seq<Entry>): Result<Printer>
    requires PrintableEntries(es)
    decreases es, 1
  {
    var w1 :- WriteMapBegin(w, kt, vt, |es|);
    var w2 :- WriteEntries(w1, es);
    WriteMapEnd(w2)
  }

  function WriteField(w: Printer, f: Field): Result<Printer>
    requires PrintableField(f)
    decreases f
  {
    var w1 :- WriteFieldBegin(w, TypeOf(f.value), f.id);
    var w2 :- WriteValue(w1, f.value);
    OutputClose(w2, RBRACE)
  }

  function WriteFields(w: Printer, fs: seq<Field>): Result<Printer>
    requires PrintableFields(fs)
    decreases fs
  {
    if fs == [] then Ok(w)
    else
      var w1 :- WriteField(w, fs[0]);
      WriteFields(w1, fs[1..])
  }

  function WriteElems(w: Printer, es: seq<Value>): Result<Printer>
    requires PrintableElems(es)
    decreases es, 0
  {
    if es == [] then Ok(w)
    else
      var w1 :- WriteValue(w, es[0]);
      WriteElems(w1, es[1..])
  }

  function WriteEntry(w: Printer, e: Entry): Result<Printer>
    requires PrintableEntry(e)
    decreases e
  {
    var w1 :- WriteValue(w, e.key);
    WriteValue(w1, e.value)
  }

  function WriteEntries(w: Printer, es: seq<Entry>): Result<Printer>
    requires PrintableEntries(es)
    decreases es, 0
  {
    if es == [] then Ok(w)
    else
      var w1 :- WriteEntry(w, es[0]);
      WriteEntries(w1, es[1..])
  }

  // ---- parsing ------------------------------------------------------------

  datatype Parser = Parser(cfg: Config, sized: bool, input: ByteSeq, ctx: Stack)

  type Parsed<T> = Result<(T, Parser)>

  predicate IsSpace(c: Byte) { c == 32 || c == 13 || c == 10 || c == 9 }

  function SkipSpace(s: ByteSeq): (t: ByteSeq)
    ensures |t| <= |s|
  {
    if s != [] && IsSpace(s[0]) then SkipSpace(s[1..]) else s
  }

  function SkipSpaces(p: Parser): Parser { p.(input := SkipSpace(p.input)) }

  /** Consumes the separator the context asks for; a closing bracket or the end stands in for it. */
  function ParsePreValue(p: Parser): (x: Result<Parser>)
    ensures x.Ok? ==> x.value.ctx == p.ctx != [] && |x.value.input| <= |p.input|
  {
    var p1 := SkipSpaces(p);
    if p.ctx == [] then Err(InvalidData)
    else if p1.input == [] then Ok(p1)
    else
      var c, next := p1.input[0], SkipSpaces(p1.(input := p1.input[1..]));
      match Top(p.ctx)
      case InList => if c == RBRACKET then Ok(p1) else if c == COMMA then Ok(next) else Err(InvalidData)
      case NextKey => if c == RBRACE then Ok(p1) else if c == COMMA then Ok(next) else Err(InvalidData)
      case NextValue => if c == COLON then Ok(next) else Err(InvalidData)
      case TopLevel | ListFirst | ObjectFirst => Ok(p1)
  }

  /** Marks a value complete; every caller has a context to advance. */
  function ParsePostValue(p: Parser): (p': Parser)
    requires p.ctx != []
    ensures |p'.input| <= |p.input|
  {
    SkipSpaces(p).(ctx := Advance(p.ctx))
  }

  predicate IsDigit(c: Byte) { ZERO <= c <= ZERO + 9 }

  /** Bytes a number stops in front of. */
  predicate EndsNumber(c: Byte) {
    IsSpace(c) || c == 0 || c == RBRACE || c == RBRACKET || c == COMMA || c == COLON
  }

  datatype Scan = Scan(buf: ByteSeq, point: bool, mayBeSign: bool, exponent: bool, inQuotes: bool)

  /** The characters of a number, quotes dropped, up to what ends it. Special values are not modelled. */
  function ReadNumeric(s: ByteSeq, n: Scan, limit: nat): (x: Result<(ByteSeq, ByteSeq)>)
    ensures x.Ok? ==> |x.value.1| <= |s| && (n.buf == [] ==> |x.value.1| < |s|)
    decreases |s|
  {
    if |n.buf| > limit then Err(SizeLimit)
    else if s == [] || EndsNumber(s[0]) then if n.buf == [] then Err(InvalidData) else Ok((n.buf, s))
    else
      var c := s[0];
      var n' := n.(buf := n.buf + [c]);
      if IsDigit(c) then ReadNumeric(s[1..], n'.(mayBeSign := false), limit)
      else if c == 46 then
        if n.point || n.exponent then Err(InvalidData)
        else ReadNumeric(s[1..], n'.(point := true, mayBeSign := false), limit)
      else if c == 101 || c == 69 then
        if n.exponent then Err(InvalidData) else ReadNumeric(s[1..], n'.(exponent := true, mayBeSign := true), limit)
      else if c == MINUS || c == PLUS then
        if !n.mayBeSign then Err(InvalidData) else ReadNumeric(s[1..], n'.(mayBeSign := false), limit)
      else if c == QUOTE then ReadNumeric(s[1..], n.(inQuotes := true), limit)
      else Err(InvalidData)
  }

  function DigitsValue(d: ByteSeq): Option<nat> {
    if d == [] then Some(0)
    else if !IsDigit(d[|d| - 1]) then None
    else
      match DigitsValue(d[..|d| - 1])
      case None => None
      case Some(h) => Some(h * 10 + (d[|d| - 1] - ZERO))
  }

  /** A decimal 64-bit integer: zero when malformed, the nearest bound when out of range. */
  function ParseInt(s: ByteSeq): (n: int)
    ensures IsI64(n)
  {
    var signed := s != [] && (s[0] == MINUS || s[0] == PLUS);
    var d := if signed then s[1..] else s;
    if d == [] then 0
    else
      match DigitsValue(d)
      case None => 0
      case Some(n) =>
        var v: int := if signed && s[0] == MINUS then -(n as int) else n;
        if v < -0x8000_0000_0000_0000 then -0x8000_0000_0000_0000
        else if v > 0x7fff_ffff_ffff_ffff then 0x7fff_ffff_ffff_ffff
        else v
  }

  function ReadNumber(s: ByteSeq, limit: nat): (x: Result<(int, ByteSeq)>)
    ensures x.Ok? ==> |x.value.1| < |s| && IsI64(x.value.0)
  {
    if NULL <= s then Ok((0, s[4..]))
    else
      var (buf, rest) :- ReadNumeric(s, Scan([], false, true, false, false), limit);
      Ok((ParseInt(buf), rest))
  }

  function ParseI64(p: Parser): (x: Parsed<int>)
    ensures x.Ok? ==> |x.value.1.input| < |p.input| && IsI64(x.value.0)
  {
    var p1 :- ParsePreValue(p);
    var (n, rest) :- ReadNumber(p1.input, p.cfg.MessageLimit());
    var p2 := p1.(input := rest);
    Ok((n, ParsePostValue(p2)))
  }

  /** A malformed string in one piece reads as empty, without an error; one in several pieces is refused. */
  function ReadText(s: ByteSeq, limit: nat): (x: Result<(ByteSeq, ByteSeq)>)
    ensures x.Ok? ==> |x.value.1| <= |s|
  {
    if s != [] && s[0] == QUOTE then
      var e :- StringBody(s, 1, limit);
      match Unescape(s[1..e])
      case Some(v) => Ok((v, s[e + 1..]))
      case None => if e == Find(s, 1, QUOTE) then Ok(([], s[e + 1..])) else Err(InvalidData)
    else if NULL <= s then Ok(([], s[4..]))
    else Err(InvalidData)
  }

  function ReadString(p: Parser): (x: Parsed<ByteSeq>)
    ensures x.Ok? ==> |x.value.1.input| <= |p.input|
  {
    var p1 :- ParsePreValue(p);
    var (v, rest) :- ReadText(p1.input, p.cfg.MessageLimit());
    var p2 := p1.(input := rest);
    Ok((v, ParsePostValue(p2)))
  }

  /** Opens an object or a list, or reports a null and leaves it. */
  function ParseOpen(p: Parser, bracket: Byte): (x: Parsed<bool>)
    ensures x.Ok? ==> |x.value.1.input| <= |p.input| && (!x.value.0 ==> |x.value.1.input| < |p.input|)
  {
    var p1 :- ParsePreValue(p);
    if p1.input == [] then Err(EndOfFile)
    else if p1.input[0] == bracket then
      Ok((false, p1.(input := p1.input[1..], ctx := p1.ctx + [if bracket == LBRACE then ObjectFirst else ListFirst])))
    else if NULL <= p1.input then Ok((true, p1))
    else Err(InvalidData)
  }

  predicate OnlySpaceBefore(s: ByteSeq, e: nat)
    requires e <= |s|
  {
    forall i :: 0 <= i < e ==> IsSpace(s[i])
  }

  /** A bracket closes the innermost context, after which the value it closes is complete. */
  function ParseClose(p: Parser, bracket: Byte): (x: Result<Parser>)
    ensures x.Ok? ==> |x.value.input| <= |p.input|
  {
    var p1 := SkipSpaces(p);
    if NULL <= p1.input then Ok(p1.(input := p1.input[4..]))
    else if p.ctx == [] then Err(InvalidData)
    else if bracket == RBRACKET && !Top(p.ctx).InList? then Err(InvalidData)
    else if bracket == RBRACE && !IsKey(Top(p.ctx)) then Err(InvalidData)
    else
      var e :- Bounded(p1.input, 0, bracket, p.cfg.MessageLimit());
      if !OnlySpaceBefore(p1.input, e) then Err(InvalidData)
      else
        var p2 := p1.(input := p1.input[e + 1..], ctx := Pop(p.ctx));
        if p2.ctx == [] then Err(InvalidData)
        else if bracket == RBRACKET && Top(p2.ctx).TopLevel? then Ok(p2)
        else Ok(ParsePostValue(p2))
  }

  function Remaining(p: Parser): Option<nat> { if p.sized then Some(|p.input|) else None }

  function ReadTypeName(p: Parser): (x: Parsed<TType>)
    ensures x.Ok? ==> |x.value.1.input| <= |p.input| && x.value.0 != STOP
  {
    var (s, p1) :- ReadString(p);
    var ty :- TypeNamed(s);
    Ok((ty, p1))
  }

  function ReadFieldBegin(p: Parser): (x: Parsed<(TType, int)>)
    ensures x.Ok? ==> if x.value.0.0 == STOP then x.value.1 == p else |x.value.1.input| < |p.input|
  {
    if p.input == [] || p.input[0] == RBRACE || p.input[0] == RBRACKET then Ok(((STOP, -1), p))
    else
      var (id, p1) :- ParseI64(p);
      var (_, p2) :- ParseOpen(p1, LBRACE);
      var (ty, p3) :- ReadTypeName(p2);
      Ok(((ty, ToI16(id)), p3))
  }

  function ReadListBegin(p: Parser): (x: Parsed<(TType, nat)>)
    ensures x.Ok? ==> |x.value.1.input| <= |p.input| && (x.value.0.1 > 0 ==> |x.value.1.input| < |p.input|)
  {
    var (isNull, p1) :- ParseOpen(p, LBRACKET);
    if isNull then Ok(((VOID, 0), p1))
    else
      var (et, p2) :- ReadTypeName(p1);
      var (n, p3) :- ParseI64(p2);
      var _ :- CheckContainerSize(n, MinSize(et), Remaining(p3), p.cfg);
      Ok(((et, n), p3))
  }

  function ReadMapBegin(p: Parser): (x: Parsed<(TType, TType, nat)>)
    ensures x.Ok? ==> |x.value.1.input| <= |p.input| && (x.value.0.2 > 0 ==> |x.value.1.input| < |p.input|)
  {
    var (isNull, p1) :- ParseOpen(p, LBRACKET);
    if isNull then Ok(((VOID, VOID, 0), p1))
    else
      var (kt, p2) :- ReadTypeName(p1);
      var (vt, p3) :- ReadTypeName(p2);
      var (n, p4) :- ParseI64(p3);
      var _ :- CheckContainerSize(n, MinSize(kt) + MinSize(vt), Remaining(p4), p.cfg);
      var (_, p5) :- ParseOpen(p4, LBRACE);
      Ok(((kt, vt, n), p5))
  }

  function ReadScalar(p: Parser, ty: TType): (x: Parsed<Value>)
    ensures x.Ok? ==> |x.value.1.input| <= |p.input|
  {
    if ty == STRING then
      var (s, p1) :- ReadString(p);
      Ok((VString(s), p1))
    else if ty == BOOL || ty == BYTE || ty == I16 || ty == I32 || ty == I64 then
      var (n, p1) :- ParseI64(p);
      Ok((Narrowed(ty, n), p1))
    else Err(NotImplemented)
  }

  /** Every integer is parsed at 64 bits and cut to its width. */
  function Narrowed(ty: TType, n: int): Value
    requires IsI64(n)
  {
    if ty == BOOL then VBool(ToI32(n) != 0)
    else if ty == BYTE then VByte(ToI8(n))
    else if ty == I16 then VI16(ToI16(n))
    else if ty == I32 then VI32(ToI32(n))
    else VI64(n)
  }

  function ReadValue(p: Parser, ty: TType): (x: Parsed<Value>)
    ensures x.Ok? ==> |x.value.1.input| <= |p.input|
    decreases |p.input|, 3, 0
  {
    if ty == STRUCT then
      var (_, p1) :- ParseOpen(p, LBRACE);
      var (fs, p2) :- ReadFields(p1);
      var p3 :- ParseClose(p2, RBRACE);
      Ok((VStruct(fs), p3))
    else if ty == LIST then
      var ((et, es), p1) :- ReadList(p);
      Ok((VList(et, es), p1))
    else if ty == SET then
      var ((et, es), p1) :- ReadList(p);
      Ok((VSet(et, es), p1))
    else if ty == MAP then
      var ((kt, vt, es), p1) :- ReadMap(p);
      Ok((VMap(kt, vt, es), p1))
    else ReadScalar(p, ty)
  }

  function ReadList(p: Parser): (x: Parsed<(TType, seq<Value>)>)
    ensures x.Ok? ==> |x.value.1.input| <= |p.input|
    decreases |p.input|, 2, 0
  {
    var ((et, n), p1) :- ReadListBegin(p);
    var (es, p2) :- if n == 0 then Ok(([], p1)) else ReadElems(p1, et, n);
    var p3 :- ParseClose(p2, RBRACKET);
    Ok(((et, es), p3))
  }

  function ReadMap(p: Parser): (x: Parsed<(TType, TType, seq<Entry>)>)
    ensures x.Ok? ==> |x.value.1.input| <= |p.input|
    decreases |p.input|, 2, 0
  {
    var ((kt, vt, n), p1) :- ReadMapBegin(p);
    var (es, p2) :- if n == 0 then Ok(([], p1)) else ReadEntries(p1, kt, vt, n);
    var p3 :- ParseClose(p2, RBRACE);
    var p4 :- ParseClose(p3, RBRACKET);
    Ok(((kt, vt, es), p4))
  }

  /** The next field, or None at the end of the struct. */
  function ReadField(p: Parser): (x: Parsed<Option<Field>>)
    ensures x.Ok? ==> |x.value.1.input| <= |p.input| && (x.value.0.Some? ==> |x.value.1.input| < |p.input|)
    decreases |p.input|, 1, 0
  {
    var ((ty, id), p1) :- ReadFieldBegin(p);
    if ty == STOP then Ok((None, p1))
    else
      var (v, p2) :- ReadValue(p1, ty);
      var p3 :- ParseClose(p2, RBRACE);
      Ok((Some(Field(id, v)), p3))
  }

  function ReadFields(p: Parser): (x: Parsed<seq<Field>>)
    ensures x.Ok? ==> |x.value.1.input| <= |p.input|
    decreases |p.input|, 2, 0
  {
    var (f, p1) :- ReadField(p);
    match f
    case None => Ok(([], p1))
    case Some(field) =>
      var (rest, p2) :- ReadFields(p1);
      Ok(([field] + rest, p2))
  }

  function ReadElems(p: Parser, et: TType, n: nat): (x: Parsed<seq<Value>>)
    ensures x.Ok? ==> |x.value.1.input| <= |p.input|
    decreases |p.input|, 4, n
  {
    if n == 0 then Ok(([], p))
    else
      var (v, p1) :- ReadValue(p, et);
      var (rest, p2) :- ReadElems(p1, et, n - 1);
      Ok(([v] + rest, p2))
  }

  function ReadEntry(p: Parser, kt: TType, vt: TType): (x: Parsed<Entry>)
    ensures x.Ok? ==> |x.value.1.input| <= |p.input|
    decreases |p.input|, 4, 0
  {
    var (k, p1) :- ReadValue(p, kt);
    var (v, p2) :- ReadValue(p1, vt);
    Ok((Entry(k, v), p2))
  }

  function ReadEntries(p: Parser, kt: TType, vt: TType, n: nat): (x: Parsed<seq<Entry>>)
    ensures x.Ok? ==> |x.value.1.input| <= |p.input|
    decreases |p.input|, 5, n
  {
    if n == 0 then Ok(([], p))
    else
      var (e, p1) :- ReadEntry(p, kt, vt);
      var (rest, p2) :- ReadEntries(p1, kt, vt, n - 1);
      Ok(([e] + rest, p2))
  }

  // ---- messages -----------------------------------------------------------

  const VERSION := 1

  datatype Header = Header(name: ByteSeq, messageType: int, seqId: int)

  /** The stacks are reset first, whatever an earlier failure left in them. */
  function WriteMessageBegin(w: Printer, h: Header): Result<Printer> {
    var w1 :- OutputOpen(w.(ctx := [TopLevel]), LBRACKET);
    var w2 :- OutputI64(w1, VERSION);
    var w3 :- OutputString(w2, h.name);
    var w4 :- OutputI64(w3, h.messageType);
    OutputI64(w4, h.seqId)
  }

  function ReadMessageBegin(p: Parser): Parsed<Header> {
    var (isNull, p1) :- ParseOpen(p.(ctx := [TopLevel]), LBRACKET);
    if isNull then Ok((Header([], 0, 0), p1))
    else
      var (version, p2) :- ParseI64(p1);
      if ToI32(version) != VERSION then Err(InvalidData)
      else
        var (name, p3) :- ReadString(p2);
        var (ty, p4) :- ParseI64(p3);
        var (seqId, p5) :- ParseI64(p4);
        Ok((Header(name, ToI8(ty), ToI32(seqId)), p5))
  }
}
