/** The tokens of a value, the text and the context stack they lead to, and that the printer writes them. */
module JsonPrint {
  import opened Bytes
  import opened Values
  import opened JsonText
  import opened Json
  import opened JsonLexemes

  // ---- tokens: the grammar both sides follow ------------------------------

  datatype Token = Open(brace: bool) | Shut(brace: bool) | Int(n: int) | Str(style: Style, s: ByteSeq)

  function Lexeme(t: Token, key: bool): (s: ByteSeq)
    ensures |s| >= 1
  {
    match t
    case Open(brace) => [if brace then LBRACE else LBRACKET]
    case Shut(brace) => [if brace then RBRACE else RBRACKET]
    case Int(n) => DecimalStarts(n); NumberText(n, key)
    case Str(style, s) => Quoted(style, s)
  }

  /** The stack after a token; the outermost context cannot be closed. */
  function Next(ctx: Stack, t: Token): (x: Option<Stack>)
    ensures x.Some? ==> ctx != [] && x.value != []
  {
    if ctx == [] then None
    else
      match t
      case Open(brace) => Some(ctx + [if brace then ObjectFirst else ListFirst])
      case Shut(_) => if |ctx| == 1 then None else Some(Advance(Pop(ctx)))
      case Int(_) => Some(Advance(ctx))
      case Str(_, _) => Some(Advance(ctx))
  }

  function Text1(ctx: Stack, t: Token): (s: ByteSeq)
    requires ctx != []
    ensures |s| >= 1
  {
    (if t.Shut? then [] else Separator(Top(ctx))) + Lexeme(t, IsKey(Top(ctx)))
  }

  function After(ctx: Stack, ts: seq<Token>): Option<Stack>
    decreases |ts|
  {
    if ts == [] then Some(ctx)
    else
      match Next(ctx, ts[0])
      case None => None
      case Some(ctx') => After(ctx', ts[1..])
  }

  function Text(ctx: Stack, ts: seq<Token>): ByteSeq
    decreases |ts|
  {
    if ts == [] then []
    else
      match Next(ctx, ts[0])
      case None => []
      case Some(ctx') => Text1(ctx, ts[0]) + Text(ctx', ts[1..])
  }

  lemma AfterStep(ctx: Stack, t: Token, more: seq<Token>)
    requires Next(ctx, t).Some?
    ensures After(ctx, [t] + more) == After(Next(ctx, t).value, more)
    ensures Text(ctx, [t] + more) == Text1(ctx, t) + Text(Next(ctx, t).value, more)
  {
    assert ([t] + more)[1..] == more;
  }

  lemma {:induction false} AfterAppend(ctx: Stack, ts: seq<Token>, more: seq<Token>)
    requires After(ctx, ts).Some?
    ensures After(ctx, ts + more) == After(After(ctx, ts).value, more)
    decreases |ts|
  {
    hide Next;
    if ts == [] {
      assert ts + more == more;
    } else {
      AfterAppend(Next(ctx, ts[0]).value, ts[1..], more);
      assert (ts + more)[1..] == ts[1..] + more;
    }
  }

  function Name(ty: TType): ByteSeq {
    match TypeName(ty)
    case Ok(s) => s
    case Err(_) => []
  }

  function Tokens(style: Style, v: Value): seq<Token>
    decreases v
  {
    match v
    case VBool(b) => [Int(if b then 1 else 0)]
    case VByte(n) => [Int(n)]
    case VI16(n) => [Int(n)]
    case VI32(n) => [Int(n)]
    case VI64(n) => [Int(n)]
    case VDouble(bits) => [Int(bits)]
    case VString(s) => [Str(style, s)]
    case VUuid(s) => [Str(style, s)]
    case VStruct(fs) => [Open(true)] + (FieldsTokens(style, fs) + [Shut(true)])
    case VList(et, es) => ListHead(style, et, |es|) + (ElemsTokens(style, es) + [Shut(false)])
    case VSet(et, es) => ListHead(style, et, |es|) + (ElemsTokens(style, es) + [Shut(false)])
    case VMap(kt, vt, es) => MapHead(style, kt, vt, |es|) + (EntriesTokens(style, es) + [Shut(true), Shut(false)])
  }

  function ListHead(style: Style, et: TType, n: nat): seq<Token> { [Open(false), Str(style, Name(et)), Int(n)] }

  function MapHead(style: Style, kt: TType, vt: TType, n: nat): seq<Token> {
    [Open(false), Str(style, Name(kt)), Str(style, Name(vt)), Int(n), Open(true)]
  }

  function FieldHead(style: Style, ty: TType, id: int): seq<Token> { [Int(id), Open(true), Str(style, Name(ty))] }

  function FieldTokens(style: Style, f: Field): seq<Token>
    decreases f
  {
    FieldHead(style, TypeOf(f.value), f.id) + (Tokens(style, f.value) + [Shut(true)])
  }

  function FieldsTokens(style: Style, fs: seq<Field>): seq<Token>
    decreases fs
  {
    if fs == [] then [] else FieldTokens(style, fs[0]) + FieldsTokens(style, fs[1..])
  }

  function ElemsTokens(style: Style, es: seq<Value>): seq<Token>
    decreases es
  {
    if es == [] then [] else Tokens(style, es[0]) + ElemsTokens(style, es[1..])
  }

  function EntryTokens(style: Style, e: Entry): seq<Token>
    decreases e
  {
    Tokens(style, e.key) + Tokens(style, e.value)
  }

  function EntriesTokens(style: Style, es: seq<Entry>): seq<Token>
    decreases es
  {
    if es == [] then [] else EntryTokens(style, es[0]) + EntriesTokens(style, es[1..])
  }

  // ---- the printer writes the tokens --------------------------------------

  function Put(w: Printer, t: Token): Result<Printer> {
    match t
    case Open(brace) => OutputOpen(w, if brace then LBRACE else LBRACKET)
    case Shut(brace) => OutputClose(w, if brace then RBRACE else RBRACKET)
    case Int(n) => OutputI64(w, n)
    case Str(style, s) => OutputQuoted(w, Quoted(style, s))
  }

  function PutAll(w: Printer, ts: seq<Token>): Result<Printer>
    decreases |ts|
  {
    if ts == [] then Ok(w)
    else
      var w1 :- Put(w, ts[0]);
      PutAll(w1, ts[1..])
  }

  function Then(x: Result<Printer>, more: seq<Token>): Result<Printer> {
    var w :- x;
    PutAll(w, more)
  }

  lemma PutMoves(w: Printer, t: Token)
    ensures match Next(w.ctx, t)
            case None => Put(w, t).Err?
            case Some(ctx) => Put(w, t) == Ok(Printer(w.out + Text1(w.ctx, t), ctx))
  {
    hide Quoted, Decimal;
    if w.ctx != [] {
      var sep, lex := Separator(Top(w.ctx)), Lexeme(t, IsKey(Top(w.ctx)));
      assert w.out + (sep + lex) == w.out + sep + lex;
      assert w.out + ([] + lex) == w.out + lex;
    }
  }

  /** Printing tokens appends their text and leaves the stack they lead to. */
  lemma {:induction false} PutAllMoves(w: Printer, ts: seq<Token>)
    ensures match After(w.ctx, ts)
            case None => PutAll(w, ts).Err?
            case Some(ctx) => PutAll(w, ts) == Ok(Printer(w.out + Text(w.ctx, ts), ctx))
    decreases |ts|
  {
    hide Put, Next, Text1;
    if ts == [] {
      assert w.out + [] == w.out;
    } else {
      PutMoves(w, ts[0]);
      if Next(w.ctx, ts[0]).Some? {
        var w1 := Put(w, ts[0]).value;
        PutAllMoves(w1, ts[1..]);
        assert w1.out + Text(w1.ctx, ts[1..]) == w.out + (Text1(w.ctx, ts[0]) + Text(w1.ctx, ts[1..]));
      }
    }
  }

  lemma {:induction false} PutAllThen(w: Printer, ts: seq<Token>, more: seq<Token>)
    ensures PutAll(w, ts + more) == Then(PutAll(w, ts), more)
    decreases |ts|
  {
    hide Put;
    if ts == [] {
      assert ts + more == more;
    } else {
      assert (ts + more)[1..] == ts[1..] + more;
      if Put(w, ts[0]).Ok? {
        PutAllThen(Put(w, ts[0]).value, ts[1..], more);
      }
    }
  }

  lemma PutName(w: Printer, ty: TType)
    requires IsValueType(ty)
    ensures WriteTypeName(w, ty) == Put(w, Str(Go, Name(ty)))
  {
    hide OutputQuoted;
  }

  function Put2(w: Printer, a: Token, b: Token): Result<Printer> {
    var w1 :- Put(w, a);
    Put(w1, b)
  }

  function Put3(w: Printer, a: Token, b: Token, c: Token): Result<Printer> {
    var w1 :- Put2(w, a, b);
    Put(w1, c)
  }

  lemma PutOne(w: Printer, a: Token)
    ensures PutAll(w, [a]) == Put(w, a)
  {
    hide Put;
    assert [a][1..] == [];
  }

  lemma PutTwo(w: Printer, a: Token, b: Token)
    ensures PutAll(w, [a, b]) == Put2(w, a, b)
  {
    hide Put;
    assert [a, b][1..] == [b];
    if Put(w, a).Ok? {
      PutOne(Put(w, a).value, b);
    }
  }

  lemma PutThree(w: Printer, a: Token, b: Token, c: Token)
    ensures PutAll(w, [a, b, c]) == Put3(w, a, b, c)
  {
    hide Put;
    assert [a, b, c][1..] == [b, c];
    if Put(w, a).Ok? {
      PutTwo(Put(w, a).value, b, c);
    }
  }

  lemma WriteFieldBeginPuts(w: Printer, ty: TType, id: int)
    requires IsValueType(ty)
    ensures WriteFieldBegin(w, ty, id) == PutAll(w, FieldHead(Go, ty, id))
  {
    hide OutputI64, OutputQuoted, OutputOpen, WriteTypeName, Name, PutAll;
    PutThree(w, Int(id), Open(true), Str(Go, Name(ty)));
    forall w' ensures WriteTypeName(w', ty) == Put(w', Str(Go, Name(ty))) {
      PutName(w', ty);
    }
  }

  lemma WriteListBeginPuts(w: Printer, et: TType, n: nat)
    requires IsValueType(et)
    ensures WriteListBegin(w, et, n) == PutAll(w, ListHead(Go, et, n))
  {
    hide OutputI64, OutputQuoted, OutputOpen, WriteTypeName, Name, PutAll;
    PutThree(w, Open(false), Str(Go, Name(et)), Int(n));
    forall w' ensures WriteTypeName(w', et) == Put(w', Str(Go, Name(et))) {
      PutName(w', et);
    }
  }

  lemma WriteMapBeginPuts(w: Printer, kt: TType, vt: TType, n: nat)
    requires IsValueType(kt) && IsValueType(vt)
    ensures WriteMapBegin(w, kt, vt, n) == PutAll(w, MapHead(Go, kt, vt, n))
  {
    hide OutputI64, OutputQuoted, OutputOpen, WriteTypeName, Name, PutAll;
    var ts := MapHead(Go, kt, vt, n);
    assert ts == [ts[0], ts[1], ts[2]] + [ts[3], ts[4]];
    PutAllThen(w, [ts[0], ts[1], ts[2]], [ts[3], ts[4]]);
    PutThree(w, ts[0], ts[1], ts[2]);
    forall w' ensures PutAll(w', [ts[3], ts[4]]) == Put2(w', ts[3], ts[4]) {
      PutTwo(w', ts[3], ts[4]);
    }
    forall w'
      ensures WriteTypeName(w', kt) == Put(w', Str(Go, Name(kt)))
      ensures WriteTypeName(w', vt) == Put(w', Str(Go, Name(vt)))
    {
      PutName(w', kt);
      PutName(w', vt);
    }
  }

  function PutParts(w: Printer, head: seq<Token>, body: seq<Token>, tail: seq<Token>): Result<Printer> {
    var w1 :- PutAll(w, head);
    var w2 :- PutAll(w1, body);
    PutAll(w2, tail)
  }

  lemma PutAllParts(w: Printer, head: seq<Token>, body: seq<Token>, tail: seq<Token>)
    ensures PutAll(w, head + (body + tail)) == PutParts(w, head, body, tail)
  {
    hide PutAll;
    PutAllThen(w, head, body + tail);
    if PutAll(w, head).Ok? {
      PutAllThen(PutAll(w, head).value, body, tail);
    }
  }

  /** The printer's methods, driven over a value, put exactly the value's tokens, in order. */
  lemma {:induction false} WriteValuePuts(w: Printer, v: Value)
    requires WellTyped(v) && Printable(v)
    ensures WriteValue(w, v) == PutAll(w, Tokens(Go, v))
    decreases v
  {
    hide PutAll, OutputI64, OutputQuoted, OutputOpen, OutputClose;
    match v
    case VStruct(fs) =>
      PutAllParts(w, [Open(true)], FieldsTokens(Go, fs), [Shut(true)]);
      PutOne(w, Open(true));
      var x := PutAll(w, [Open(true)]);
      if x.Ok? {
        WriteFieldsPut(x.value, fs);
        var y := PutAll(x.value, FieldsTokens(Go, fs));
        if y.Ok? {
          PutOne(y.value, Shut(true));
        }
      }
    case VList(et, es) =>
      WriteListPuts(w, et, es);
    case VSet(et, es) =>
      WriteListPuts(w, et, es);
    case VMap(kt, vt, es) =>
      WriteMapPuts(w, kt, vt, es);
    case VBool(b) => PutOne(w, Int(if b then 1 else 0));
    case VByte(n) => PutOne(w, Int(n));
    case VI16(n) => PutOne(w, Int(n));
    case VI32(n) => PutOne(w, Int(n));
    case VI64(n) => PutOne(w, Int(n));
    case VString(s) => PutOne(w, Str(Go, s));
  }

  lemma {:induction false} WriteListPuts(w: Printer, et: TType, es: seq<Value>)
    requires IsValueType(et) && WellTypedElems(et, es) && PrintableElems(es)
    ensures WriteList(w, et, es) == PutAll(w, ListHead(Go, et, |es|) + (ElemsTokens(Go, es) + [Shut(false)]))
    decreases es, 1
  {
    hide PutAll, OutputClose, WriteListBegin, ListHead;
    PutAllParts(w, ListHead(Go, et, |es|), ElemsTokens(Go, es), [Shut(false)]);
    WriteListBeginPuts(w, et, |es|);
    var x := PutAll(w, ListHead(Go, et, |es|));
    if x.Ok? {
      WriteElemsPut(x.value, et, es);
      var y := PutAll(x.value, ElemsTokens(Go, es));
      if y.Ok? {
        PutOne(y.value, Shut(false));
      }
    }
  }

  lemma {:induction false} WriteMapPuts(w: Printer, kt: TType, vt: TType, es: seq<Entry>)
    requires IsValueType(kt) && IsValueType(vt) && WellTypedEntries(kt, vt, es) && PrintableEntries(es)
    ensures WriteMap(w, kt, vt, es) ==
            PutAll(w, MapHead(Go, kt, vt, |es|) + (EntriesTokens(Go, es) + [Shut(true), Shut(false)]))
    decreases es, 1
  {
    hide PutAll, OutputClose, WriteMapBegin, MapHead;
    PutAllParts(w, MapHead(Go, kt, vt, |es|), EntriesTokens(Go, es), [Shut(true), Shut(false)]);
    WriteMapBeginPuts(w, kt, vt, |es|);
    var x := PutAll(w, MapHead(Go, kt, vt, |es|));
    if x.Ok? {
      WriteEntriesPut(x.value, kt, vt, es);
      var y := PutAll(x.value, EntriesTokens(Go, es));
      if y.Ok? {
        PutTwo(y.value, Shut(true), Shut(false));
      }
    }
  }

  lemma {:induction false} WriteFieldPuts(w: Printer, f: Field)
    requires WellTypedField(f) && PrintableField(f)
    ensures WriteField(w, f) == PutAll(w, FieldTokens(Go, f))
    decreases f
  {
    hide PutAll, OutputClose, WriteFieldBegin, FieldHead;
    var head := FieldHead(Go, TypeOf(f.value), f.id);
    PutAllParts(w, head, Tokens(Go, f.value), [Shut(true)]);
    WriteFieldBeginPuts(w, TypeOf(f.value), f.id);
    var x := PutAll(w, head);
    if x.Ok? {
      WriteValuePuts(x.value, f.value);
      var y := PutAll(x.value, Tokens(Go, f.value));
      if y.Ok? {
        PutOne(y.value, Shut(true));
      }
    }
  }

  lemma {:induction false} WriteFieldsPut(w: Printer, fs: seq<Field>)
    requires WellTypedFields(fs) && PrintableFields(fs)
    ensures WriteFields(w, fs) == PutAll(w, FieldsTokens(Go, fs))
    decreases fs
  {
    hide Put;
    if fs != [] {
      PutAllThen(w, FieldTokens(Go, fs[0]), FieldsTokens(Go, fs[1..]));
      WriteFieldPuts(w, fs[0]);
      if WriteField(w, fs[0]).Ok? {
        WriteFieldsPut(WriteField(w, fs[0]).value, fs[1..]);
      }
    }
  }

  lemma {:induction false} WriteElemsPut(w: Printer, et: TType, es: seq<Value>)
    requires WellTypedElems(et, es) && PrintableElems(es)
    ensures WriteElems(w, es) == PutAll(w, ElemsTokens(Go, es))
    decreases es, 0
  {
    hide Put;
    if es != [] {
      PutAllThen(w, Tokens(Go, es[0]), ElemsTokens(Go, es[1..]));
      WriteValuePuts(w, es[0]);
      if WriteValue(w, es[0]).Ok? {
        WriteElemsPut(WriteValue(w, es[0]).value, et, es[1..]);
      }
    }
  }

  lemma {:induction false} WriteEntryPuts(w: Printer, kt: TType, vt: TType, e: Entry)
    requires WellTypedEntry(kt, vt, e) && PrintableEntry(e)
    ensures WriteEntry(w, e) == PutAll(w, EntryTokens(Go, e))
    decreases e
  {
    hide PutAll;
    PutAllThen(w, Tokens(Go, e.key), Tokens(Go, e.value));
    WriteValuePuts(w, e.key);
    if WriteValue(w, e.key).Ok? {
      WriteValuePuts(WriteValue(w, e.key).value, e.value);
    }
  }

  lemma {:induction false} WriteEntriesPut(w: Printer, kt: TType, vt: TType, es: seq<Entry>)
    requires WellTypedEntries(kt, vt, es) && PrintableEntries(es)
    ensures WriteEntries(w, es) == PutAll(w, EntriesTokens(Go, es))
    decreases es, 0
  {
    hide Put;
    if es != [] {
      PutAllThen(w, EntryTokens(Go, es[0]), EntriesTokens(Go, es[1..]));
      WriteEntryPuts(w, kt, vt, es[0]);
      if WriteEntry(w, es[0]).Ok? {
        WriteEntriesPut(WriteEntry(w, es[0]).value, kt, vt, es[1..]);
      }
    }
  }

  // ---- where the stack ends up --------------------------------------------

  /** Objects go from key to value and back, and end where a key could follow. */
  function Keyed(ctx: Stack): (ctx': Stack)
    requires ctx != []
    ensures |ctx'| == |ctx| && Top(ctx') == NextKey && Pop(ctx') == Pop(ctx)
  {
    Pop(ctx) + [NextKey]
  }

  lemma FieldHeadMoves(style: Style, ctx: Stack, ty: TType, id: int)
    requires ctx != [] && IsKey(Top(ctx))
    ensures After(ctx, FieldHead(style, ty, id)) == Some(Pop(ctx) + [NextValue, NextValue])
  {
    var c1 := Pop(ctx) + [NextValue];
    var c2 := c1 + [ObjectFirst];
    assert Next(ctx, Int(id)) == Some(c1) && Next(c1, Open(true)) == Some(c2);
    assert Advance(c2) == Pop(ctx) + [NextValue, NextValue];
    AfterThree(ctx, Int(id), Open(true), Str(style, Name(ty)));
  }

  function Next3(ctx: Stack, a: Token, b: Token, c: Token): Option<Stack> {
    match Next(ctx, a)
    case None => None
    case Some(c1) =>
      match Next(c1, b)
      case None => None
      case Some(c2) => Next(c2, c)
  }

  lemma AfterThree(ctx: Stack, a: Token, b: Token, c: Token)
    ensures After(ctx, [a, b, c]) == Next3(ctx, a, b, c)
  {
    hide Next;
    assert [a, b, c][1..] == [b, c] && [b, c][1..] == [c] && [c][1..] == [];
    forall c2 ensures After(c2, [c]) == Next(c2, c) {
      assert [c][1..] == [];
    }
  }

  lemma ListHeadMoves(style: Style, ctx: Stack, et: TType, n: nat)
    requires ctx != []
    ensures After(ctx, ListHead(style, et, n)) == Some(ctx + [InList])
  {
    var c1, c2 := ctx + [ListFirst], ctx + [InList];
    assert Next(ctx, Open(false)) == Some(c1) && Next(c1, Str(style, Name(et))) == Some(c2) &&
           Next(c2, Int(n)) == Some(c2);
    AfterThree(ctx, Open(false), Str(style, Name(et)), Int(n));
  }

  lemma MapHeadMoves(style: Style, ctx: Stack, kt: TType, vt: TType, n: nat)
    requires ctx != []
    ensures After(ctx, MapHead(style, kt, vt, n)) == Some(ctx + [InList, ObjectFirst])
  {
    var c1, c2, c3 := ctx + [ListFirst], ctx + [InList], ctx + [InList, ObjectFirst];
    var a, b := [Open(false), Str(style, Name(kt)), Str(style, Name(vt))], [Int(n), Open(true)];
    assert Next(ctx, Open(false)) == Some(c1) && Next(c1, Str(style, Name(kt))) == Some(c2) &&
           Next(c2, Str(style, Name(vt))) == Some(c2);
    AfterThree(ctx, Open(false), Str(style, Name(kt)), Str(style, Name(vt)));
    assert Next(c2, Int(n)) == Some(c2);
    assert c2 + [ObjectFirst] == c3;
    assert b[1..] == [Open(true)] && [Open(true)][1..] == [];
    AfterAppend(ctx, a, b);
    assert a + b == MapHead(style, kt, vt, n);
  }

  lemma AfterOne(ctx: Stack, t: Token)
    ensures After(ctx, [t]) == Next(ctx, t)
  {
    hide Next;
    assert [t][1..] == [];
  }

  lemma AfterParts(ctx: Stack, head: seq<Token>, body: seq<Token>, tail: seq<Token>)
    requires After(ctx, head).Some? && After(After(ctx, head).value, body).Some?
    ensures After(ctx, head + (body + tail)) == After(After(After(ctx, head).value, body).value, tail)
  {
    AfterAppend(ctx, head, body + tail);
    AfterAppend(After(ctx, head).value, body, tail);
  }

  /** Writing a value completes exactly one value in the context it started in, however deep it nests. */
  lemma {:induction false} ValueMoves(style: Style, ctx: Stack, v: Value)
    requires ctx != []
    ensures After(ctx, Tokens(style, v)) == Some(Advance(ctx))
    decreases v
  {
    hide After, Advance;
    match v
    case VStruct(fs) =>
      var c1 := ctx + [ObjectFirst];
      AfterOne(ctx, Open(true));
      FieldsMove(style, c1, fs);
      AfterParts(ctx, [Open(true)], FieldsTokens(style, fs), [Shut(true)]);
      ShutMoves(ctx, After(c1, FieldsTokens(style, fs)).value, true);
    case VList(et, es) =>
      ListMoves(style, ctx, et, es);
    case VSet(et, es) =>
      ListMoves(style, ctx, et, es);
    case VMap(kt, vt, es) =>
      MapMoves(style, ctx, kt, vt, es);
    case _ =>
      assert |Tokens(style, v)| == 1;
      AfterOne(ctx, Tokens(style, v)[0]);
  }

  lemma ShutMoves(ctx: Stack, ctx': Stack, brace: bool)
    requires ctx != [] && |ctx'| == |ctx| + 1 && Pop(ctx') == ctx
    ensures After(ctx', [Shut(brace)]) == Some(Advance(ctx))
  {
    AfterOne(ctx', Shut(brace));
  }

  lemma {:induction false} ListMoves(style: Style, ctx: Stack, et: TType, es: seq<Value>)
    requires ctx != []
    ensures After(ctx, ListHead(style, et, |es|) + (ElemsTokens(style, es) + [Shut(false)])) == Some(Advance(ctx))
    decreases es, 1
  {
    hide After, Advance;
    var c1 := ctx + [InList];
    ListHeadMoves(style, ctx, et, |es|);
    ElemsMove(style, c1, es);
    AfterParts(ctx, ListHead(style, et, |es|), ElemsTokens(style, es), [Shut(false)]);
    ShutMoves(ctx, c1, false);
  }

  lemma {:induction false} MapMoves(style: Style, ctx: Stack, kt: TType, vt: TType, es: seq<Entry>)
    requires ctx != []
    ensures After(ctx, MapHead(style, kt, vt, |es|) + (EntriesTokens(style, es) + [Shut(true), Shut(false)])) ==
            Some(Advance(ctx))
    decreases es, 1
  {
    hide After, Advance;
    var c1 := ctx + [InList, ObjectFirst];
    MapHeadMoves(style, ctx, kt, vt, |es|);
    EntriesMove(style, c1, es);
    AfterParts(ctx, MapHead(style, kt, vt, |es|), EntriesTokens(style, es), [Shut(true), Shut(false)]);
    var c2 := After(c1, EntriesTokens(style, es)).value;
    assert [Shut(true), Shut(false)] == [Shut(true)] + [Shut(false)];
    assert Pop(c2) == ctx + [InList];
    ShutMoves(ctx + [InList], c2, true);
    AdvanceInList(ctx);
    AfterAppend(c2, [Shut(true)], [Shut(false)]);
    ShutMoves(ctx, ctx + [InList], false);
  }

  lemma AdvanceInList(ctx: Stack)
    ensures Advance(ctx + [InList]) == ctx + [InList]
  {
  }

  lemma {:induction false} FieldMoves(style: Style, ctx: Stack, f: Field)
    requires ctx != [] && IsKey(Top(ctx))
    ensures After(ctx, FieldTokens(style, f)) == Some(Keyed(ctx))
    decreases f
  {
    hide After;
    var head := FieldHead(style, TypeOf(f.value), f.id);
    var c1 := Pop(ctx) + [NextValue, NextValue];
    FieldHeadMoves(style, ctx, TypeOf(f.value), f.id);
    ValueMoves(style, c1, f.value);
    AfterParts(ctx, head, Tokens(style, f.value), [Shut(true)]);
    assert Pop(Advance(c1)) == Pop(ctx) + [NextValue];
    ShutMoves(Pop(ctx) + [NextValue], Advance(c1), true);
    assert Advance(Pop(ctx) + [NextValue]) == Keyed(ctx);
  }

  lemma {:induction false} FieldsMove(style: Style, ctx: Stack, fs: seq<Field>)
    requires ctx != [] && IsKey(Top(ctx))
    ensures After(ctx, FieldsTokens(style, fs)) == Some(if fs == [] then ctx else Keyed(ctx))
    decreases fs
  {
    hide Next;
    if fs != [] {
      FieldMoves(style, ctx, fs[0]);
      FieldsMove(style, Keyed(ctx), fs[1..]);
      AfterAppend(ctx, FieldTokens(style, fs[0]), FieldsTokens(style, fs[1..]));
      assert Keyed(Keyed(ctx)) == Keyed(ctx);
    }
  }

  lemma {:induction false} ElemsMove(style: Style, ctx: Stack, es: seq<Value>)
    requires ctx != [] && Top(ctx).InList?
    ensures After(ctx, ElemsTokens(style, es)) == Some(ctx)
    decreases es, 0
  {
    hide Next;
    if es != [] {
      ValueMoves(style, ctx, es[0]);
      assert Advance(ctx) == ctx;
      ElemsMove(style, ctx, es[1..]);
      AfterAppend(ctx, Tokens(style, es[0]), ElemsTokens(style, es[1..]));
    }
  }

  lemma {:induction false} EntryMoves(style: Style, ctx: Stack, e: Entry)
    requires ctx != [] && IsKey(Top(ctx))
    ensures After(ctx, EntryTokens(style, e)) == Some(Keyed(ctx))
    decreases e
  {
    hide Next;
    ValueMoves(style, ctx, e.key);
    ValueMoves(style, Advance(ctx), e.value);
    AfterAppend(ctx, Tokens(style, e.key), Tokens(style, e.value));
    assert Advance(Advance(ctx)) == Keyed(ctx);
  }

  lemma {:induction false} EntriesMove(style: Style, ctx: Stack, es: seq<Entry>)
    requires ctx != [] && IsKey(Top(ctx))
    ensures After(ctx, EntriesTokens(style, es)) == Some(if es == [] then ctx else Keyed(ctx))
    decreases es, 0
  {
    hide Next;
    if es != [] {
      EntryMoves(style, ctx, es[0]);
      EntriesMove(style, Keyed(ctx), es[1..]);
      AfterAppend(ctx, EntryTokens(style, es[0]), EntriesTokens(style, es[1..]));
      assert Keyed(Keyed(ctx)) == Keyed(ctx);
    }
  }

  /**
   * Printing any value succeeds in any context, appends its text, and leaves the stack as one completed
   * value leaves it.
   */
  lemma WriteValuePrints(w: Printer, v: Value)
    requires w.ctx != [] && WellTyped(v) && Printable(v)
    ensures WriteValue(w, v) == Ok(Printer(w.out + Text(w.ctx, Tokens(Go, v)), Advance(w.ctx)))
  {
    WriteValuePuts(w, v);
    PutAllMoves(w, Tokens(Go, v));
    ValueMoves(Go, w.ctx, v);
  }
}
