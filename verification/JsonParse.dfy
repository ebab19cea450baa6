/** The JSON parser, token by token and value by value, over what the printer wrote. */
module JsonParse {
  import opened Bytes
  import opened Values
  import opened Configuration
  import opened JsonText
  import opened Json
  import opened JsonLexemes
  import opened JsonPrint

  // ---- one token ----------------------------------------------------------

  /** The parser stands in front of these tokens, its stack where the printer's was. */
  predicate Pending(p: Parser, ts: seq<Token>, tail: ByteSeq) {
    && p.ctx != []
    && p.input == Text(p.ctx, ts) + tail
    && Delimited(tail)
  }

  /** The parser in front of other tokens. */
  function At(p: Parser, ctx: Stack, ts: seq<Token>, tail: ByteSeq): Parser {
    p.(ctx := ctx, input := Text(ctx, ts) + tail)
  }

  /** Read back, or refused for its size. */
  function Outcome<T>(fits: bool, value: T, p: Parser): Parsed<T> {
    if fits then Ok((value, p)) else Err(SizeLimit)
  }

  /** Read as this, or refused with this error. */
  function Landed<T>(x: Result<T>, p: Parser): Parsed<T> {
    match x
    case Err(e) => Err(e)
    case Ok(value) => Ok((value, p))
  }

  predicate NumberFits(cfg: Config, n: int) { |Decimal(n)| <= cfg.MessageLimit() }

  predicate StringFits(cfg: Config, style: Style, s: ByteSeq) { TextFits(style, s, cfg.MessageLimit()) }

  function StringArrives(cfg: Config, style: Style, s: ByteSeq): Result<ByteSeq> {
    TextArrives(style, s, cfg.MessageLimit())
  }

  /** At the outermost level nothing follows a value. */
  predicate Settled(ctx: Stack, more: seq<Token>)
    requires ctx != []
  {
    Top(ctx).TopLevel? ==> more == []
  }

  function Rest(ctx: Stack, t: Token, more: seq<Token>, tail: ByteSeq): ByteSeq
    requires Next(ctx, t).Some?
  {
    Text(Next(ctx, t).value, more) + tail
  }

  lemma InFront(p: Parser, t: Token, more: seq<Token>, tail: ByteSeq)
    requires Pending(p, [t] + more, tail) && Next(p.ctx, t).Some?
    ensures var lex := Lexeme(t, IsKey(Top(p.ctx)));
            p.input == (if t.Shut? then [] else Separator(Top(p.ctx))) + (lex + Rest(p.ctx, t, more, tail))
    ensures Pending(At(p, Next(p.ctx, t).value, more, tail), more, tail)
  {
    hide Lexeme, Next;
    AfterStep(p.ctx, t, more);
    var a, lex := if t.Shut? then [] else Separator(Top(p.ctx)), Lexeme(t, IsKey(Top(p.ctx)));
    var rest := Text(Next(p.ctx, t).value, more);
    assert (a + lex) + rest + tail == a + (lex + (rest + tail));
  }

  lemma DelimitedText(ctx: Stack, ts: seq<Token>, tail: ByteSeq)
    requires ctx != [] && Delimited(tail) && (Separator(Top(ctx)) != [] || ts == [])
    ensures Delimited(Text(ctx, ts) + tail)
  {
    hide Lexeme, Next;
    if ts != [] && Next(ctx, ts[0]).Some? {
      var first := Text1(ctx, ts[0]);
      assert Text(ctx, ts)[0] == first[0];
      ShutStarts(ts[0], IsKey(Top(ctx)));
    } else {
      assert [] + tail == tail;
    }
  }

  lemma DelimitedRest(ctx: Stack, t: Token, more: seq<Token>, tail: ByteSeq)
    requires Next(ctx, t).Some? && !t.Open? && Delimited(tail) && Settled(Next(ctx, t).value, more)
    ensures Delimited(Rest(ctx, t, more, tail)) && SkipSpace(Rest(ctx, t, more, tail)) == Rest(ctx, t, more, tail)
  {
    hide Text;
    DelimitedText(Next(ctx, t).value, more, tail);
  }

  lemma ShutStarts(t: Token, key: bool)
    ensures t.Shut? ==> Delimited(Lexeme(t, key))
    ensures !t.Shut? ==> !IsSpace(Lexeme(t, key)[0]) && Lexeme(t, key)[0] != RBRACE && Lexeme(t, key)[0] != RBRACKET
    ensures t.Int? && key ==> Lexeme(t, key)[0] == QUOTE
  {
    if t.Int? {
      DecimalStarts(t.n);
    }
  }

  lemma TakesSeparator(p: Parser, body: ByteSeq)
    requires p.ctx != [] && p.input == Separator(Top(p.ctx)) + body && body != [] && !IsSpace(body[0])
    ensures ParsePreValue(p) == Ok(p.(input := body))
  {
    if Separator(Top(p.ctx)) != [] {
      assert p.input[1..] == body;
    } else {
      assert [] + body == body;
    }
  }

  lemma TakesInt(p: Parser, n: int, more: seq<Token>, tail: ByteSeq)
    requires Pending(p, [Int(n)] + more, tail) && IsI64(n) && Settled(Advance(p.ctx), more)
    ensures ParseI64(p) == Outcome(NumberFits(p.cfg, n), n, At(p, Advance(p.ctx), more, tail))
    ensures Pending(At(p, Advance(p.ctx), more, tail), more, tail)
  {
    hide ParsePreValue, ReadNumber, Text, NumberText, Decimal;
    var t, key := Int(n), IsKey(Top(p.ctx));
    InFront(p, t, more, tail);
    ShutStarts(t, key);
    TakesSeparator(p, Lexeme(t, key) + Rest(p.ctx, t, more, tail));
    DelimitedRest(p.ctx, t, more, tail);
    ReadNumberBack(n, key, Rest(p.ctx, t, more, tail), p.cfg.MessageLimit());
  }

  lemma TakesStr(style: Style, p: Parser, s: ByteSeq, more: seq<Token>, tail: ByteSeq)
    requires Pending(p, [Str(style, s)] + more, tail) && Settled(Advance(p.ctx), more)
    ensures ReadString(p) == Landed(StringArrives(p.cfg, style, s), At(p, Advance(p.ctx), more, tail))
    ensures Pending(At(p, Advance(p.ctx), more, tail), more, tail)
  {
    hide ParsePreValue, ReadText, Text, Quoted, TextArrives;
    var t, key := Str(style, s), IsKey(Top(p.ctx));
    InFront(p, t, more, tail);
    ShutStarts(t, key);
    TakesSeparator(p, Lexeme(t, key) + Rest(p.ctx, t, more, tail));
    DelimitedRest(p.ctx, t, more, tail);
    ReadTextBack(style, s, Rest(p.ctx, t, more, tail), p.cfg.MessageLimit());
  }

  lemma TakesOpen(p: Parser, brace: bool, more: seq<Token>, tail: ByteSeq)
    requires Pending(p, [Open(brace)] + more, tail)
    ensures var ctx := p.ctx + [if brace then ObjectFirst else ListFirst];
            && ParseOpen(p, if brace then LBRACE else LBRACKET) == Ok((false, At(p, ctx, more, tail)))
            && Pending(At(p, ctx, more, tail), more, tail)
  {
    hide ParsePreValue, Text;
    var t, key := Open(brace), IsKey(Top(p.ctx));
    InFront(p, t, more, tail);
    ShutStarts(t, key);
    TakesSeparator(p, Lexeme(t, key) + Rest(p.ctx, t, more, tail));
    assert (Lexeme(t, key) + Rest(p.ctx, t, more, tail))[1..] == Rest(p.ctx, t, more, tail);
  }

  lemma AdvanceTopLevel(ctx: Stack)
    requires ctx != [] && Top(ctx).TopLevel?
    ensures Advance(ctx) == ctx
  {
  }

  lemma ClosesHere(p: Parser, brace: bool, rest: ByteSeq)
    requires p.input == [if brace then RBRACE else RBRACKET] + rest && SkipSpace(rest) == rest
    requires |p.ctx| >= 2 && if brace then IsKey(Top(p.ctx)) else Top(p.ctx).InList?
    ensures ParseClose(p, if brace then RBRACE else RBRACKET) == Ok(p.(input := rest, ctx := Advance(Pop(p.ctx))))
  {
    hide Advance;
    assert SkipSpace(p.input) == p.input && !(NULL <= p.input);
    assert Find(p.input, 0, if brace then RBRACE else RBRACKET) == 0;
    assert p.input[1..] == rest;
    if Top(Pop(p.ctx)).TopLevel? {
      AdvanceTopLevel(Pop(p.ctx));
    }
  }

  lemma TakesShut(p: Parser, brace: bool, more: seq<Token>, tail: ByteSeq)
    requires Pending(p, [Shut(brace)] + more, tail) && |p.ctx| >= 2 && Settled(Advance(Pop(p.ctx)), more)
    requires if brace then IsKey(Top(p.ctx)) else Top(p.ctx).InList?
    ensures var ctx := Advance(Pop(p.ctx));
            && ParseClose(p, if brace then RBRACE else RBRACKET) == Ok(At(p, ctx, more, tail))
            && Pending(At(p, ctx, more, tail), more, tail)
  {
    hide Text, ParseClose, SkipSpace;
    var t := Shut(brace);
    InFront(p, t, more, tail);
    DelimitedRest(p.ctx, t, more, tail);
    var rest := Rest(p.ctx, t, more, tail);
    assert p.input == Lexeme(t, IsKey(Top(p.ctx))) + rest;
    ClosesHere(p, brace, rest);
  }

  // ---- sizes --------------------------------------------------------------

  lemma TextPrepend(ctx: Stack, t: Token, rest: seq<Token>, more: seq<Token>, behind: ByteSeq)
    requires Next(ctx, t).Some? && Text(Next(ctx, t).value, rest + more) == Text(Next(ctx, t).value, rest) + behind
    ensures Text(ctx, [t] + (rest + more)) == Text(ctx, [t] + rest) + behind
  {
    hide Next, Text, Text1;
    AfterStep(ctx, t, rest);
    AfterStep(ctx, t, rest + more);
    var a, b := Text1(ctx, t), Text(Next(ctx, t).value, rest);
    assert a + (b + behind) == (a + b) + behind;
  }

  lemma {:induction false} TextAppend(ctx: Stack, ts: seq<Token>, more: seq<Token>)
    requires After(ctx, ts).Some?
    ensures Text(ctx, ts + more) == Text(ctx, ts) + Text(After(ctx, ts).value, more)
    decreases |ts|
  {
    hide Next, Text1;
    if ts == [] {
      assert ts + more == more;
    } else {
      var ctx' := Next(ctx, ts[0]).value;
      TextAppend(ctx', ts[1..], more);
      TextPrepend(ctx, ts[0], ts[1..], more, Text(After(ctx, ts).value, more));
      assert [ts[0]] + ts[1..] == ts && [ts[0]] + (ts[1..] + more) == ts + more;
    }
  }

  lemma {:induction false} TextAtLeast(ctx: Stack, ts: seq<Token>)
    requires After(ctx, ts).Some?
    ensures |Text(ctx, ts)| >= |ts|
    decreases |ts|
  {
    hide Next, Text1;
    if ts != [] {
      TextAtLeast(Next(ctx, ts[0]).value, ts[1..]);
    }
  }

  /** No value prints shorter than the minimum that counts of its type are charged at. */
  lemma ValueAtLeast(style: Style, ctx: Stack, v: Value)
    requires ctx != [] && Printable(v)
    ensures |Text(ctx, Tokens(style, v))| >= MinSize(TypeOf(v))
  {
    hide Text, After;
    ValueMoves(style, ctx, v);
    if v.VString? {
      AfterStep(ctx, Str(style, v.bytes), []);
      assert [Str(style, v.bytes)] + [] == Tokens(style, v);
      assert |Text1(ctx, Str(style, v.bytes))| >= 2;
    } else {
      TextAtLeast(ctx, Tokens(style, v));
    }
  }

  lemma {:induction false} ElemsAtLeast(style: Style, ctx: Stack, et: TType, es: seq<Value>)
    requires ctx != [] && Top(ctx).InList? && WellTypedElems(et, es) && PrintableElems(es)
    ensures |Text(ctx, ElemsTokens(style, es))| >= |es| * MinSize(et)
    decreases |es|
  {
    hide Next, Text;
    if es != [] {
      ValueMoves(style, ctx, es[0]);
      assert Advance(ctx) == ctx;
      TextAppend(ctx, Tokens(style, es[0]), ElemsTokens(style, es[1..]));
      ValueAtLeast(style, ctx, es[0]);
      ElemsAtLeast(style, ctx, et, es[1..]);
      assert |es| * MinSize(et) == MinSize(et) + |es[1..]| * MinSize(et);
    }
  }

  lemma {:induction false} EntriesAtLeast(style: Style, ctx: Stack, kt: TType, vt: TType, es: seq<Entry>)
    requires ctx != [] && IsKey(Top(ctx)) && WellTypedEntries(kt, vt, es) && PrintableEntries(es)
    ensures |Text(ctx, EntriesTokens(style, es))| >= |es| * (MinSize(kt) + MinSize(vt))
    decreases |es|
  {
    hide Next, Text, MinSize;
    if es != [] {
      var e, m := es[0], MinSize(kt) + MinSize(vt);
      EntryMoves(style, ctx, e);
      TextAppend(ctx, EntryTokens(style, e), EntriesTokens(style, es[1..]));
      ValueMoves(style, ctx, e.key);
      TextAppend(ctx, Tokens(style, e.key), Tokens(style, e.value));
      ValueAtLeast(style, ctx, e.key);
      ValueAtLeast(style, Advance(ctx), e.value);
      EntriesAtLeast(style, Keyed(ctx), kt, vt, es[1..]);
      assert |es| * m == m + |es[1..]| * m;
    }
  }

  // ---- values -------------------------------------------------------------

  /** What the reader is configured to accept: every number and string, every type name, every count. */
  predicate Fits(cfg: Config, style: Style, v: Value)
    decreases v
  {
    match v
    case VBool(b) => NumberFits(cfg, if b then 1 else 0)
    case VByte(n) => NumberFits(cfg, n)
    case VI16(n) => NumberFits(cfg, n)
    case VI32(n) => NumberFits(cfg, n)
    case VI64(n) => NumberFits(cfg, n)
    case VDouble(_) => true
    case VString(s) => StringFits(cfg, style, s)
    case VUuid(_) => true
    case VStruct(fs) => FieldsFit(cfg, style, fs)
    case VList(et, es) => ListHeadFits(cfg, style, et, |es|) && ElemsFit(cfg, style, es)
    case VSet(et, es) => ListHeadFits(cfg, style, et, |es|) && ElemsFit(cfg, style, es)
    case VMap(kt, vt, es) => MapHeadFits(cfg, style, kt, vt, |es|) && EntriesFit(cfg, style, es)
  }

  predicate FieldHeadFits(cfg: Config, style: Style, ty: TType, id: int) {
    NumberFits(cfg, id) && StringFits(cfg, style, Name(ty))
  }

  predicate ListHeadFits(cfg: Config, style: Style, et: TType, n: nat) {
    StringFits(cfg, style, Name(et)) && NumberFits(cfg, n) && FitsCount(cfg, n, MinSize(et))
  }

  predicate MapHeadFits(cfg: Config, style: Style, kt: TType, vt: TType, n: nat) {
    && StringFits(cfg, style, Name(kt)) && StringFits(cfg, style, Name(vt)) && NumberFits(cfg, n)
    && FitsCount(cfg, n, MinSize(kt) + MinSize(vt))
  }

  predicate FieldFits(cfg: Config, style: Style, f: Field)
    decreases f
  {
    FieldHeadFits(cfg, style, TypeOf(f.value), f.id) && Fits(cfg, style, f.value)
  }

  predicate FieldsFit(cfg: Config, style: Style, fs: seq<Field>)
    decreases fs
  {
    fs != [] ==> FieldFits(cfg, style, fs[0]) && FieldsFit(cfg, style, fs[1..])
  }

  predicate ElemsFit(cfg: Config, style: Style, es: seq<Value>)
    decreases es
  {
    es != [] ==> Fits(cfg, style, es[0]) && ElemsFit(cfg, style, es[1..])
  }

  predicate EntryFits(cfg: Config, style: Style, e: Entry)
    decreases e
  {
    Fits(cfg, style, e.key) && Fits(cfg, style, e.value)
  }

  predicate EntriesFit(cfg: Config, style: Style, es: seq<Entry>)
    decreases es
  {
    es != [] ==> EntryFits(cfg, style, es[0]) && EntriesFit(cfg, style, es[1..])
  }

  /** What a written value reads back as, or the first reason to refuse it. */
  function Arrives(cfg: Config, style: Style, v: Value): Result<Value>
    decreases v
  {
    match v
    case VString(s) =>
      var t :- StringArrives(cfg, style, s);
      Ok(VString(t))
    case VStruct(fs) =>
      var gs :- FieldsArrive(cfg, style, fs);
      Ok(VStruct(gs))
    case VList(et, es) =>
      var ds :- ListArrives(cfg, style, et, es);
      Ok(VList(et, ds))
    case VSet(et, es) =>
      var ds :- ListArrives(cfg, style, et, es);
      Ok(VSet(et, ds))
    case VMap(kt, vt, es) =>
      var ds :- MapArrives(cfg, style, kt, vt, es);
      Ok(VMap(kt, vt, ds))
    case _ => Whole(Fits(cfg, style, v), v)
  }

  /** Unchanged, or refused for its size. */
  function Whole<T>(fits: bool, value: T): Result<T> { if fits then Ok(value) else Err(SizeLimit) }

  function FieldArrives(cfg: Config, style: Style, f: Field): Result<Field>
    decreases f
  {
    if !FieldHeadFits(cfg, style, TypeOf(f.value), f.id) then Err(SizeLimit)
    else
      var v :- Arrives(cfg, style, f.value);
      Ok(Field(f.id, v))
  }

  function FieldsArrive(cfg: Config, style: Style, fs: seq<Field>): Result<seq<Field>>
    decreases fs
  {
    if fs == [] then Ok([])
    else
      var f :- FieldArrives(cfg, style, fs[0]);
      var rest :- FieldsArrive(cfg, style, fs[1..]);
      Ok([f] + rest)
  }

  function ListArrives(cfg: Config, style: Style, et: TType, es: seq<Value>): Result<seq<Value>>
    decreases es, 1
  {
    if !ListHeadFits(cfg, style, et, |es|) then Err(SizeLimit) else ElemsArrive(cfg, style, es)
  }

  function ElemsArrive(cfg: Config, style: Style, es: seq<Value>): Result<seq<Value>>
    decreases es, 0
  {
    if es == [] then Ok([])
    else
      var v :- Arrives(cfg, style, es[0]);
      var rest :- ElemsArrive(cfg, style, es[1..]);
      Ok([v] + rest)
  }

  function MapArrives(cfg: Config, style: Style, kt: TType, vt: TType, es: seq<Entry>): Result<seq<Entry>>
    decreases es, 1
  {
    if !MapHeadFits(cfg, style, kt, vt, |es|) then Err(SizeLimit) else EntriesArrive(cfg, style, es)
  }

  function EntryArrives(cfg: Config, style: Style, e: Entry): Result<Entry>
    decreases e
  {
    var k :- Arrives(cfg, style, e.key);
    var v :- Arrives(cfg, style, e.value);
    Ok(Entry(k, v))
  }

  function EntriesArrive(cfg: Config, style: Style, es: seq<Entry>): Result<seq<Entry>>
    decreases es, 0
  {
    if es == [] then Ok([])
    else
      var e :- EntryArrives(cfg, style, es[0]);
      var rest :- EntriesArrive(cfg, style, es[1..]);
      Ok([e] + rest)
  }

  lemma TypeNameBack(ty: TType)
    requires IsValueType(ty)
    ensures TypeNamed(Name(ty)) == Ok(ty)
  {
  }

  lemma NameLegible(style: Style, ty: TType)
    ensures Legible(style, Name(ty))
  {
  }

  lemma TakesName(style: Style, p: Parser, ty: TType, more: seq<Token>, tail: ByteSeq)
    requires Pending(p, [Str(style, Name(ty))] + more, tail) && IsValueType(ty) && Settled(Advance(p.ctx), more)
    ensures ReadTypeName(p) == Outcome(StringFits(p.cfg, style, Name(ty)), ty, At(p, Advance(p.ctx), more, tail))
    ensures Pending(At(p, Advance(p.ctx), more, tail), more, tail)
  {
    hide TypeNamed, Name, ReadString, Text, TextFits;
    TypeNameBack(ty);
    NameLegible(style, ty);
    TakesStr(style, p, Name(ty), more, tail);
  }

  lemma TakesFieldHead(style: Style, p: Parser, ty: TType, id: int, more: seq<Token>, tail: ByteSeq)
    requires Pending(p, FieldHead(style, ty, id) + more, tail) && IsKey(Top(p.ctx)) && IsI16(id) && IsValueType(ty)
    ensures var ctx := Pop(p.ctx) + [NextValue, NextValue];
            && ReadFieldBegin(p) == Outcome(FieldHeadFits(p.cfg, style, ty, id), (ty, id), At(p, ctx, more, tail))
            && Pending(At(p, ctx, more, tail), more, tail)
  {
    hide ParseI64, ParseOpen, ReadTypeName, Text, Name, Lexeme, NumberFits, StringFits;
    var t1 := [Str(style, Name(ty))] + more;
    var t2 := [Open(true)] + t1;
    assert FieldHead(style, ty, id) + more == [Int(id)] + t2;
    InFront(p, Int(id), t2, tail);
    ShutStarts(Int(id), true);
    var c1 := Advance(p.ctx);
    TakesInt(p, id, t2, tail);
    TakesOpen(At(p, c1, t2, tail), true, t1, tail);
    var p2 := At(p, c1 + [ObjectFirst], t1, tail);
    TakesName(style, p2, ty, more, tail);
    assert Advance(p2.ctx) == Pop(p.ctx) + [NextValue, NextValue];
  }

  lemma AdvanceListFirst(ctx: Stack)
    ensures Advance(ctx + [ListFirst]) == ctx + [InList]
  {
  }

  lemma CountChecked(p: Parser, n: nat, min: nat)
    requires 1 <= min <= MAX_I32 && IsI64(n) && n * min <= |p.input|
    ensures CheckContainerSize(n, min, Remaining(p), p.cfg) ==
            if FitsCount(p.cfg, n, min) then Ok(()) else Err(SizeLimit)
  {
  }

  lemma TakesListHead(style: Style, p: Parser, et: TType, n: nat, more: seq<Token>, tail: ByteSeq)
    requires Pending(p, ListHead(style, et, n) + more, tail) && IsValueType(et) && IsI64(n)
    requires n * MinSize(et) <= |Text(p.ctx + [InList], more)|
    ensures var ctx := p.ctx + [InList];
            && ReadListBegin(p) == Outcome(ListHeadFits(p.cfg, style, et, n), (et, n), At(p, ctx, more, tail))
            && Pending(At(p, ctx, more, tail), more, tail)
  {
    hide ParseI64, ParseOpen, ReadTypeName, Text, Name, Lexeme, MinSize, Advance, Delimited, NumberFits, StringFits,
         FitsCount, CheckContainerSize;
    var c := p.ctx + [InList];
    var t1 := [Int(n)] + more;
    var t2 := [Str(style, Name(et))] + t1;
    assert ListHead(style, et, n) + more == [Open(false)] + t2;
    AdvanceInList(p.ctx);
    AdvanceListFirst(p.ctx);
    TakesOpen(p, false, t2, tail);
    TakesName(style, At(p, p.ctx + [ListFirst], t2, tail), et, t1, tail);
    TakesInt(At(p, c, t1, tail), n, more, tail);
    CountChecked(At(p, c, more, tail), n, MinSize(et));
  }

  lemma TakesMapHead(style: Style, p: Parser, kt: TType, vt: TType, n: nat, more: seq<Token>, tail: ByteSeq)
    requires Pending(p, MapHead(style, kt, vt, n) + more, tail) && IsValueType(kt) && IsValueType(vt) && IsI64(n)
    requires n * (MinSize(kt) + MinSize(vt)) <= |Text(p.ctx + [InList, ObjectFirst], more)|
    ensures var ctx := p.ctx + [InList, ObjectFirst];
            && ReadMapBegin(p) == Outcome(MapHeadFits(p.cfg, style, kt, vt, n), (kt, vt, n), At(p, ctx, more, tail))
            && Pending(At(p, ctx, more, tail), more, tail)
  {
    hide ParseI64, ParseOpen, ReadTypeName, Text, Name, Lexeme, MinSize, Advance, Delimited, NumberFits, StringFits,
         FitsCount, CheckContainerSize;
    var t1 := [Open(true)] + more;
    var t2 := [Int(n)] + t1;
    var t3 := [Str(style, Name(vt))] + t2;
    var t4 := [Str(style, Name(kt))] + t3;
    assert MapHead(style, kt, vt, n) + more == [Open(false)] + t4;
    var c := p.ctx + [InList];
    AdvanceInList(p.ctx);
    AdvanceListFirst(p.ctx);
    TakesOpen(p, false, t4, tail);
    TakesName(style, At(p, p.ctx + [ListFirst], t4, tail), kt, t3, tail);
    TakesName(style, At(p, c, t3, tail), vt, t2, tail);
    TakesInt(At(p, c, t2, tail), n, t1, tail);
    var p4 := At(p, c, t1, tail);
    TakesOpen(p4, true, more, tail);
    assert c + [ObjectFirst] == p.ctx + [InList, ObjectFirst];
    AfterStep(c, Open(true), more);
    assert |p4.input| >= |Text(p.ctx + [InList, ObjectFirst], more)|;
    CountChecked(p4, n, MinSize(kt) + MinSize(vt));
  }

  lemma ReadScalarBack(style: Style, p: Parser, v: Value, more: seq<Token>, tail: ByteSeq)
    requires IsScalar(v) && WellTyped(v) && Printable(v)
    requires Pending(p, Tokens(style, v) + more, tail) && Settled(p.ctx, more)
    ensures ReadScalar(p, TypeOf(v)) == Landed(Arrives(p.cfg, style, v), At(p, Advance(p.ctx), more, tail))
    ensures Pending(At(p, Advance(p.ctx), more, tail), more, tail)
  {
    hide ParseI64, ReadString, Text, NumberFits, StringArrives;
    if v.VString? {
      TakesStr(style, p, v.bytes, more, tail);
    } else {
      TakesInt(p, Tokens(style, v)[0].n, more, tail);
    }
  }

  /**
   * The parser undoes the printer: from the stack the printer was in, with the text of the value in front
   * and anything a value may be followed by behind it, it returns the value and stops exactly after it,
   * its stack where the printer's is. What it returns, or the error it refuses the value with, is exactly
   * what Arrives says.
   */
  lemma {:induction false} ReadValueBack(style: Style, p: Parser, v: Value, more: seq<Token>, tail: ByteSeq)
    requires WellTyped(v) && Printable(v)
    requires Pending(p, Tokens(style, v) + more, tail) && Settled(p.ctx, more)
    ensures ReadValue(p, TypeOf(v)) == Landed(Arrives(p.cfg, style, v), At(p, Advance(p.ctx), more, tail))
    ensures Pending(At(p, Advance(p.ctx), more, tail), more, tail)
    decreases v
  {
    hide ParseOpen, ParseClose, Text, ReadScalar, Lexeme, ReadList, ReadMap, ListArrives, MapArrives;
    match v
    case VStruct(fs) =>
      ReadStructBack(style, p, fs, more, tail);
    case VList(et, es) =>
      ReadListBack(style, p, et, es, more, tail);
    case VSet(et, es) =>
      ReadListBack(style, p, et, es, more, tail);
    case VMap(kt, vt, es) =>
      ReadMapBack(style, p, kt, vt, es, more, tail);
    case _ =>
      ReadScalarBack(style, p, v, more, tail);
  }

  lemma {:induction false} ReadStructBack(style: Style, p: Parser, fs: seq<Field>, more: seq<Token>, tail: ByteSeq)
    requires WellTypedFields(fs) && PrintableFields(fs)
    requires Pending(p, [Open(true)] + (FieldsTokens(style, fs) + [Shut(true)]) + more, tail) && Settled(p.ctx, more)
    ensures ReadValue(p, STRUCT) == Landed(Arrives(p.cfg, style, VStruct(fs)), At(p, Advance(p.ctx), more, tail))
    ensures Pending(At(p, Advance(p.ctx), more, tail), more, tail)
    decreases fs, 1
  {
    hide ParseOpen, ParseClose, Text, ReadFields, Next, Delimited, FieldsTokens, WellTypedFields, PrintableFields,
         FieldsArrive;
    var shut := [Shut(true)] + more;
    assert [Open(true)] + (FieldsTokens(style, fs) + [Shut(true)]) + more ==
           [Open(true)] + (FieldsTokens(style, fs) + shut);
    TakesOpen(p, true, FieldsTokens(style, fs) + shut, tail);
    var ctx := p.ctx + [ObjectFirst];
    ReadFieldsBack(style, At(p, ctx, FieldsTokens(style, fs) + shut, tail), fs, more, tail);
    var ctx' := if fs == [] then ctx else Keyed(ctx);
    assert Pop(ctx') == p.ctx;
    TakesShut(At(p, ctx', shut, tail), true, more, tail);
  }

  function Present<T>(x: Result<T>): Result<Option<T>> {
    var v :- x;
    Ok(Some(v))
  }

  function Typed<T>(ty: TType, x: Result<T>): Result<(TType, T)> {
    var v :- x;
    Ok((ty, v))
  }

  function Typed2<T>(kt: TType, vt: TType, x: Result<T>): Result<(TType, TType, T)> {
    var v :- x;
    Ok((kt, vt, v))
  }

  lemma {:induction false} ReadFieldsBack(style: Style, p: Parser, fs: seq<Field>, more: seq<Token>, tail: ByteSeq)
    requires WellTypedFields(fs) && PrintableFields(fs)
    requires Pending(p, FieldsTokens(style, fs) + ([Shut(true)] + more), tail) && |p.ctx| >= 2 && IsKey(Top(p.ctx))
    ensures var p' := At(p, if fs == [] then p.ctx else Keyed(p.ctx), [Shut(true)] + more, tail);
            ReadFields(p) == Landed(FieldsArrive(p.cfg, style, fs), p') && Pending(p', [Shut(true)] + more, tail)
    decreases fs, 0
  {
    hide Text, FieldTokens, ReadField, FieldArrives, Delimited;
    var shut := [Shut(true)] + more;
    if fs == [] {
      assert FieldsTokens(style, fs) + shut == shut;
      StopsHere(p, more, tail);
    } else {
      var f, t1 := fs[0], FieldsTokens(style, fs[1..]) + shut;
      assert FieldsTokens(style, fs) + shut == FieldTokens(style, f) + t1;
      ReadFieldBack(style, p, f, t1, tail);
      ReadFieldsBack(style, At(p, Keyed(p.ctx), t1, tail), fs[1..], more, tail);
      assert Keyed(Keyed(p.ctx)) == Keyed(p.ctx) && [f] + fs[1..] == fs;
    }
  }

  lemma {:induction false} ReadFieldBack(style: Style, p: Parser, f: Field, more: seq<Token>, tail: ByteSeq)
    requires WellTypedField(f) && PrintableField(f)
    requires Pending(p, FieldTokens(style, f) + more, tail) && |p.ctx| >= 2 && IsKey(Top(p.ctx))
    ensures ReadField(p) == Landed(Present(FieldArrives(p.cfg, style, f)), At(p, Keyed(p.ctx), more, tail))
    ensures Pending(At(p, Keyed(p.ctx), more, tail), more, tail)
    decreases f
  {
    hide ParseClose, Text, Tokens, FieldHead, ReadFieldBegin, ReadValue, FieldHeadFits, Arrives, Delimited;
    var c := Pop(p.ctx) + [NextValue, NextValue];
    var t2 := [Shut(true)] + more;
    var t3 := Tokens(style, f.value) + t2;
    assert FieldTokens(style, f) + more == FieldHead(style, TypeOf(f.value), f.id) + t3;
    TakesFieldHead(style, p, TypeOf(f.value), f.id, t3, tail);
    ReadValueBack(style, At(p, c, t3, tail), f.value, t2, tail);
    var c1 := Advance(c);
    assert Pop(c1) == Pop(p.ctx) + [NextValue] && Top(c1) == NextKey;
    TakesShut(At(p, c1, t2, tail), true, more, tail);
    assert Advance(Pop(c1)) == Keyed(p.ctx);
  }

  lemma StopsHere(p: Parser, more: seq<Token>, tail: ByteSeq)
    requires Pending(p, [Shut(true)] + more, tail) && |p.ctx| >= 2
    ensures ReadField(p) == Ok((None, p))
  {
    hide Text;
    InFront(p, Shut(true), more, tail);
    assert p.input[0] == RBRACE;
  }

  lemma {:induction false} ReadListBack(style: Style, p: Parser, et: TType, es: seq<Value>, more: seq<Token>,
                                        tail: ByteSeq)
    requires IsValueType(et) && WellTypedElems(et, es) && PrintableElems(es) && |es| <= MAX_I32
    requires Pending(p, ListHead(style, et, |es|) + (ElemsTokens(style, es) + [Shut(false)]) + more, tail)
    requires Settled(p.ctx, more)
    ensures ReadList(p) == Landed(Typed(et, ListArrives(p.cfg, style, et, es)), At(p, Advance(p.ctx), more, tail))
    ensures Pending(At(p, Advance(p.ctx), more, tail), more, tail)
    decreases es, 1
  {
    hide ParseClose, Text, ReadListBegin, ReadElems, ListHead, ListHeadFits, Delimited;
    var shut, c := [Shut(false)] + more, p.ctx + [InList];
    var t1 := ElemsTokens(style, es) + shut;
    assert ListHead(style, et, |es|) + (ElemsTokens(style, es) + [Shut(false)]) + more ==
           ListHead(style, et, |es|) + t1;
    ElemsMove(style, c, es);
    TextAppend(c, ElemsTokens(style, es), shut);
    ElemsAtLeast(style, c, et, es);
    TakesListHead(style, p, et, |es|, t1, tail);
    ReadElemsBack(style, At(p, c, t1, tail), et, es, shut, tail);
    TakesShut(At(p, c, shut, tail), false, more, tail);
    assert Pop(c) == p.ctx;
    if es == [] {
      assert t1 == shut;
    }
  }

  lemma {:induction false} ReadElemsBack(style: Style, p: Parser, et: TType, es: seq<Value>, more: seq<Token>,
                                         tail: ByteSeq)
    requires WellTypedElems(et, es) && PrintableElems(es)
    requires Pending(p, ElemsTokens(style, es) + more, tail) && Top(p.ctx).InList?
    ensures ReadElems(p, et, |es|) == Landed(ElemsArrive(p.cfg, style, es), At(p, p.ctx, more, tail))
    ensures Pending(At(p, p.ctx, more, tail), more, tail)
    decreases es, 0
  {
    hide Text, ReadValue, Tokens, Arrives, Delimited;
    if es == [] {
      assert ElemsTokens(style, es) + more == more;
    } else {
      var t1 := ElemsTokens(style, es[1..]) + more;
      assert ElemsTokens(style, es) + more == Tokens(style, es[0]) + t1;
      assert Advance(p.ctx) == p.ctx;
      ReadValueBack(style, p, es[0], t1, tail);
      ReadElemsBack(style, At(p, p.ctx, t1, tail), et, es[1..], more, tail);
      assert [es[0]] + es[1..] == es;
    }
  }

  lemma {:induction false} ReadMapBack(style: Style, p: Parser, kt: TType, vt: TType, es: seq<Entry>,
                                       more: seq<Token>, tail: ByteSeq)
    requires IsValueType(kt) && IsValueType(vt) && |es| <= MAX_I32
    requires WellTypedEntries(kt, vt, es) && PrintableEntries(es)
    requires Pending(p, MapHead(style, kt, vt, |es|) + (EntriesTokens(style, es) + [Shut(true), Shut(false)]) + more,
                     tail)
    requires Settled(p.ctx, more)
    ensures ReadMap(p) ==
            Landed(Typed2(kt, vt, MapArrives(p.cfg, style, kt, vt, es)), At(p, Advance(p.ctx), more, tail))
    ensures Pending(At(p, Advance(p.ctx), more, tail), more, tail)
    decreases es, 1
  {
    hide ParseClose, Text, ReadMapBegin, ReadEntries, MapHead, MapHeadFits, Delimited;
    var s1, c := [Shut(false)] + more, p.ctx + [InList, ObjectFirst];
    var s2 := [Shut(true)] + s1;
    var t1 := EntriesTokens(style, es) + s2;
    assert MapHead(style, kt, vt, |es|) + (EntriesTokens(style, es) + [Shut(true), Shut(false)]) + more ==
           MapHead(style, kt, vt, |es|) + t1;
    EntriesMove(style, c, es);
    TextAppend(c, EntriesTokens(style, es), s2);
    EntriesAtLeast(style, c, kt, vt, es);
    TakesMapHead(style, p, kt, vt, |es|, t1, tail);
    ReadEntriesBack(style, At(p, c, t1, tail), kt, vt, es, s2, tail);
    var c' := if es == [] then c else Keyed(c);
    assert Pop(c') == p.ctx + [InList];
    AdvanceInList(p.ctx);
    TakesShut(At(p, c', s2, tail), true, s1, tail);
    TakesShut(At(p, p.ctx + [InList], s1, tail), false, more, tail);
    assert Pop(p.ctx + [InList]) == p.ctx;
    if es == [] {
      assert t1 == s2;
    }
  }

  lemma {:induction false} ReadEntriesBack(style: Style, p: Parser, kt: TType, vt: TType, es: seq<Entry>,
                                           more: seq<Token>, tail: ByteSeq)
    requires WellTypedEntries(kt, vt, es) && PrintableEntries(es)
    requires Pending(p, EntriesTokens(style, es) + more, tail) && IsKey(Top(p.ctx))
    ensures var p' := At(p, if es == [] then p.ctx else Keyed(p.ctx), more, tail);
            ReadEntries(p, kt, vt, |es|) == Landed(EntriesArrive(p.cfg, style, es), p') && Pending(p', more, tail)
    decreases es, 0
  {
    hide Text, ReadEntry, EntryTokens, EntryArrives, Delimited;
    if es == [] {
      assert EntriesTokens(style, es) + more == more;
    } else {
      var t1 := EntriesTokens(style, es[1..]) + more;
      assert EntriesTokens(style, es) + more == EntryTokens(style, es[0]) + t1;
      ReadEntryBack(style, p, kt, vt, es[0], t1, tail);
      ReadEntriesBack(style, At(p, Keyed(p.ctx), t1, tail), kt, vt, es[1..], more, tail);
      assert Keyed(Keyed(p.ctx)) == Keyed(p.ctx) && [es[0]] + es[1..] == es;
    }
  }

  lemma {:induction false} ReadEntryBack(style: Style, p: Parser, kt: TType, vt: TType, e: Entry, more: seq<Token>,
                                         tail: ByteSeq)
    requires WellTypedEntry(kt, vt, e) && PrintableEntry(e)
    requires Pending(p, EntryTokens(style, e) + more, tail) && IsKey(Top(p.ctx))
    ensures ReadEntry(p, kt, vt) == Landed(EntryArrives(p.cfg, style, e), At(p, Keyed(p.ctx), more, tail))
    ensures Pending(At(p, Keyed(p.ctx), more, tail), more, tail)
    decreases e
  {
    hide Text, ReadValue, Tokens, Arrives, Delimited;
    var t1 := Tokens(style, e.value) + more;
    assert EntryTokens(style, e) + more == Tokens(style, e.key) + t1;
    ReadValueBack(style, p, e.key, t1, tail);
    ReadValueBack(style, At(p, Advance(p.ctx), t1, tail), e.value, more, tail);
    assert Advance(Advance(p.ctx)) == Keyed(p.ctx);
  }

  // ---- what arrives whole -------------------------------------------------

  /** No string in the value has a bare control byte. */
  predicate Clean(v: Value)
    decreases v
  {
    match v
    case VString(s) => NoBareControl(s)
    case VStruct(fs) => CleanFields(fs)
    case VList(_, es) => CleanElems(es)
    case VSet(_, es) => CleanElems(es)
    case VMap(_, _, es) => CleanEntries(es)
    case _ => true
  }

  predicate CleanField(f: Field)
    decreases f
  {
    Clean(f.value)
  }

  predicate CleanFields(fs: seq<Field>)
    decreases fs
  {
    fs != [] ==> CleanField(fs[0]) && CleanFields(fs[1..])
  }

  predicate CleanElems(es: seq<Value>)
    decreases es
  {
    es != [] ==> Clean(es[0]) && CleanElems(es[1..])
  }

  predicate CleanEntry(e: Entry)
    decreases e
  {
    Clean(e.key) && Clean(e.value)
  }

  predicate CleanEntries(es: seq<Entry>)
    decreases es
  {
    es != [] ==> CleanEntry(es[0]) && CleanEntries(es[1..])
  }

  /** Legible values arrive whole or are refused for their size; others do not arrive as they were sent. */
  predicate WholeIf<T(==)>(x: Result<T>, legible: bool, fits: bool, value: T) {
    && (legible ==> x == Whole(fits, value))
    && (!legible ==> x != Ok(value))
  }

  /**
   * Of what the Go printer writes everything that fits arrives whole. Of what the JavaScript writer prints,
   * a value arrives whole if and only if it fits and no string in it has a bare control byte.
   */
  lemma {:induction false} ArrivesWhole(cfg: Config, style: Style, v: Value)
    ensures WholeIf(Arrives(cfg, style, v), style.Go? || Clean(v), Fits(cfg, style, v), v)
    decreases v
  {
    hide ListHeadFits, MapHeadFits, NumberFits, TextFits;
    match v
    case VString(s) =>
      assert !Legible(style, s) ==> s != [];
    case VStruct(fs) =>
      FieldsArriveWhole(cfg, style, fs);
    case VList(_, es) =>
      ElemsArriveWhole(cfg, style, es);
    case VSet(_, es) =>
      ElemsArriveWhole(cfg, style, es);
    case VMap(_, _, es) =>
      EntriesArriveWhole(cfg, style, es);
    case _ =>
  }

  lemma {:induction false} FieldArrivesWhole(cfg: Config, style: Style, f: Field)
    ensures WholeIf(FieldArrives(cfg, style, f), style.Go? || CleanField(f), FieldFits(cfg, style, f), f)
    decreases f
  {
    hide FieldHeadFits, Fits, Clean, Arrives;
    ArrivesWhole(cfg, style, f.value);
  }

  lemma {:induction false} FieldsArriveWhole(cfg: Config, style: Style, fs: seq<Field>)
    ensures WholeIf(FieldsArrive(cfg, style, fs), style.Go? || CleanFields(fs), FieldsFit(cfg, style, fs), fs)
    decreases fs
  {
    hide FieldFits, FieldArrives, CleanField;
    if fs != [] {
      FieldArrivesWhole(cfg, style, fs[0]);
      FieldsArriveWhole(cfg, style, fs[1..]);
      assert fs == [fs[0]] + fs[1..];
    }
  }

  lemma {:induction false} ElemsArriveWhole(cfg: Config, style: Style, es: seq<Value>)
    ensures WholeIf(ElemsArrive(cfg, style, es), style.Go? || CleanElems(es), ElemsFit(cfg, style, es), es)
    decreases es
  {
    hide Fits, Arrives, Clean;
    if es != [] {
      ArrivesWhole(cfg, style, es[0]);
      ElemsArriveWhole(cfg, style, es[1..]);
      assert es == [es[0]] + es[1..];
    }
  }

  lemma {:induction false} EntryArrivesWhole(cfg: Config, style: Style, e: Entry)
    ensures WholeIf(EntryArrives(cfg, style, e), style.Go? || CleanEntry(e), EntryFits(cfg, style, e), e)
    decreases e
  {
    hide Fits, Clean, Arrives;
    ArrivesWhole(cfg, style, e.key);
    ArrivesWhole(cfg, style, e.value);
  }

  lemma {:induction false} EntriesArriveWhole(cfg: Config, style: Style, es: seq<Entry>)
    ensures WholeIf(EntriesArrive(cfg, style, es), style.Go? || CleanEntries(es), EntriesFit(cfg, style, es), es)
    decreases es
  {
    hide EntryFits, EntryArrives, CleanEntry;
    if es != [] {
      EntryArrivesWhole(cfg, style, es[0]);
      EntriesArriveWhole(cfg, style, es[1..]);
      assert es == [es[0]] + es[1..];
    }
  }

  // ---- whole texts --------------------------------------------------------

  lemma TextNothing(ctx: Stack)
    ensures Text(ctx, []) + [] == []
  {
  }

  /**
   * Printing a value at the outermost level and parsing the text gives the value back and uses all of it. It
   * is refused, with a size-limit error, exactly when it does not fit the configured limits.
   */
  lemma WriteThenRead(v: Value, cfg: Config, sized: bool, ctx: Stack)
    requires WellTyped(v) && Printable(v) && ctx != [] && Top(ctx).TopLevel?
    ensures var w := WriteValue(Printer([], ctx), v);
            && w.Ok? && w.value.ctx == ctx
            && ReadValue(Parser(cfg, sized, w.value.out, ctx), TypeOf(v)) ==
               Outcome(Fits(cfg, Go, v), v, Parser(cfg, sized, [], ctx))
  {
    hide Text, Tokens, ReadValue, WriteValue, Fits, Arrives, Advance;
    var text := Text(ctx, Tokens(Go, v));
    WriteValuePrints(Printer([], ctx), v);
    assert [] + text == text && text + [] == text && Tokens(Go, v) + [] == Tokens(Go, v);
    AdvanceTopLevel(ctx);
    ReadValueBack(Go, Parser(cfg, sized, text, ctx), v, [], []);
    ArrivesWhole(cfg, Go, v);
    TextNothing(ctx);
  }

  function MessageHead(style: Style, h: Header): seq<Token> {
    [Open(false), Int(VERSION), Str(style, h.name)] + [Int(h.messageType), Int(h.seqId)]
  }

  function MessageTokens(style: Style, h: Header, v: Value): seq<Token> {
    MessageHead(style, h) + (Tokens(style, v) + [Shut(false)])
  }

  /** A whole message: envelope, body, end. */
  function WriteMessage(w: Printer, h: Header, v: Value): Result<Printer>
    requires Printable(v)
  {
    var w1 :- WriteMessageBegin(w, h);
    var w2 :- WriteValue(w1, v);
    OutputClose(w2, RBRACKET)
  }

  function ReadMessage(p: Parser, ty: TType): Parsed<(Header, Value)> {
    var (h, p1) :- ReadMessageBegin(p);
    var (v, p2) :- ReadValue(p1, ty);
    var p3 :- ParseClose(p2, RBRACKET);
    Ok(((h, v), p3))
  }

  lemma WriteMessageBeginPuts(w: Printer, h: Header)
    ensures WriteMessageBegin(w, h) == PutAll(w.(ctx := [TopLevel]), MessageHead(Go, h))
  {
    hide OutputI64, OutputQuoted, OutputOpen, PutAll;
    var w0 := w.(ctx := [TopLevel]);
    PutAllThen(w0, [Open(false), Int(VERSION), Str(Go, h.name)], [Int(h.messageType), Int(h.seqId)]);
    PutThree(w0, Open(false), Int(VERSION), Str(Go, h.name));
    forall w' ensures PutAll(w', [Int(h.messageType), Int(h.seqId)]) == Put2(w', Int(h.messageType), Int(h.seqId)) {
      PutTwo(w', Int(h.messageType), Int(h.seqId));
    }
  }

  lemma MessageHeadMoves(style: Style, h: Header)
    ensures After([TopLevel], MessageHead(style, h)) == Some([TopLevel, InList])
  {
    var a, b := [Open(false), Int(VERSION), Str(style, h.name)], [Int(h.messageType), Int(h.seqId)];
    var c := [TopLevel, InList];
    assert [TopLevel] + [ListFirst] == [TopLevel, ListFirst];
    assert Advance([TopLevel, ListFirst]) == c && Advance(c) == c;
    assert Next([TopLevel], Open(false)) == Some([TopLevel, ListFirst]);
    AfterThree([TopLevel], Open(false), Int(VERSION), Str(style, h.name));
    assert After([TopLevel], a) == Some(c);
    AfterOne(c, Int(h.messageType));
    AfterOne(c, Int(h.seqId));
    AfterAppend(c, [Int(h.messageType)], [Int(h.seqId)]);
    assert b == [Int(h.messageType)] + [Int(h.seqId)];
    AfterAppend([TopLevel], a, b);
  }

  lemma WriteMessagePrints(w: Printer, h: Header, v: Value)
    requires WellTyped(v) && Printable(v)
    ensures WriteMessage(w, h, v) == Ok(Printer(w.out + Text([TopLevel], MessageTokens(Go, h, v)), [TopLevel]))
  {
    hide Text, Tokens, WriteValue, WriteMessageBegin, After, MessageHead, OutputClose, PutAll;
    var w0, c := w.(ctx := [TopLevel]), [TopLevel, InList];
    WriteMessageBeginPuts(w, h);
    PutAllParts(w0, MessageHead(Go, h), Tokens(Go, v), [Shut(false)]);
    PutAllMoves(w0, MessageHead(Go, h));
    MessageHeadMoves(Go, h);
    var w1 := PutAll(w0, MessageHead(Go, h)).value;
    WriteValuePuts(w1, v);
    ValueMoves(Go, c, v);
    PutAllMoves(w1, Tokens(Go, v));
    PutOne(PutAll(w1, Tokens(Go, v)).value, Shut(false));
    assert Advance(c) == c && Advance([TopLevel]) == [TopLevel] && Pop(c) == [TopLevel];
    PutAllMoves(w0, MessageTokens(Go, h, v));
    AfterParts([TopLevel], MessageHead(Go, h), Tokens(Go, v), [Shut(false)]);
    ShutMoves([TopLevel], c, false);
  }

  predicate HeaderFits(cfg: Config, style: Style, h: Header) {
    && NumberFits(cfg, VERSION) && StringFits(cfg, style, h.name)
    && NumberFits(cfg, h.messageType) && NumberFits(cfg, h.seqId)
  }

  function HeaderArrives(cfg: Config, style: Style, h: Header): Result<Header> {
    if !NumberFits(cfg, VERSION) then Err(SizeLimit)
    else
      var name :- StringArrives(cfg, style, h.name);
      if !NumberFits(cfg, h.messageType) || !NumberFits(cfg, h.seqId) then Err(SizeLimit)
      else Ok(h.(name := name))
  }

  function MessageArrives(cfg: Config, style: Style, h: Header, v: Value): Result<(Header, Value)> {
    var h' :- HeaderArrives(cfg, style, h);
    var v' :- Arrives(cfg, style, v);
    Ok((h', v'))
  }

  lemma TakesMessageHead(style: Style, p: Parser, h: Header, more: seq<Token>, tail: ByteSeq)
    requires IsI8(h.messageType) && IsI32(h.seqId)
    requires p.ctx == [TopLevel] && Pending(p, MessageHead(style, h) + more, tail)
    ensures var p' := At(p, [TopLevel, InList], more, tail);
            ReadMessageBegin(p) == Landed(HeaderArrives(p.cfg, style, h), p') && Pending(p', more, tail)
  {
    hide ParseI64, ParseOpen, ReadString, Text, Lexeme, Advance, Delimited, NumberFits, StringArrives;
    var c := [TopLevel, InList];
    var t1 := [Int(h.seqId)] + more;
    var t2 := [Int(h.messageType)] + t1;
    var t3 := [Str(style, h.name)] + t2;
    var t4 := [Int(VERSION)] + t3;
    assert MessageHead(style, h) + more == [Open(false)] + t4;
    assert [TopLevel] + [ListFirst] == [TopLevel, ListFirst] && [TopLevel] + [InList] == c;
    AdvanceListFirst([TopLevel]);
    AdvanceInList([TopLevel]);
    TakesOpen(p, false, t4, tail);
    TakesInt(At(p, [TopLevel, ListFirst], t4, tail), VERSION, t3, tail);
    TakesStr(style, At(p, c, t3, tail), h.name, t2, tail);
    TakesInt(At(p, c, t2, tail), h.messageType, t1, tail);
    TakesInt(At(p, c, t1, tail), h.seqId, more, tail);
  }

  /** A whole message, as either writer prints it, read from whatever state the parser's stack was left in. */
  lemma ReadMessageBack(style: Style, h: Header, v: Value, cfg: Config, sized: bool, ctx: Stack)
    requires WellTyped(v) && Printable(v) && IsI8(h.messageType) && IsI32(h.seqId)
    ensures ReadMessage(Parser(cfg, sized, Text([TopLevel], MessageTokens(style, h, v)), ctx), TypeOf(v)) ==
            Landed(MessageArrives(cfg, style, h, v), Parser(cfg, sized, [], [TopLevel]))
  {
    hide Text, Tokens, ReadValue, MessageHead, ParseClose, ReadMessageBegin, HeaderArrives, Arrives, Delimited;
    var text := Text([TopLevel], MessageTokens(style, h, v));
    assert text + [] == text;
    var p0 := Parser(cfg, sized, text, ctx);
    var p, c := p0.(ctx := [TopLevel]), [TopLevel, InList];
    ReadMessageBeginResets(p0);
    var shut := [Shut(false)] + [];
    assert MessageTokens(style, h, v) == MessageHead(style, h) + (Tokens(style, v) + shut);
    NothingIsDelimited();
    TakesMessageHead(style, p, h, Tokens(style, v) + shut, []);
    ReadValueBack(style, At(p, c, Tokens(style, v) + shut, []), v, shut, []);
    assert Advance(c) == c && Pop(c) == [TopLevel] && Advance([TopLevel]) == [TopLevel];
    TakesShut(At(p, c, shut, []), false, [], []);
    TextNothing([TopLevel]);
  }

  lemma NothingIsDelimited()
    ensures Delimited([])
  {
  }

  /**
   * Whatever state earlier failures left either stack in, a whole message written on one side is read back
   * on the other, and both stacks are back at the outermost level; it is refused exactly when something in
   * it exceeds the limits.
   */
  lemma MessageRoundTrip(w: Printer, h: Header, v: Value, cfg: Config, sized: bool, ctx: Stack)
    requires WellTyped(v) && Printable(v) && IsI8(h.messageType) && IsI32(h.seqId)
    ensures var w' := WriteMessage(w, h, v);
            && w'.Ok? && w.out <= w'.value.out && w'.value.ctx == [TopLevel]
            && ReadMessage(Parser(cfg, sized, w'.value.out[|w.out|..], ctx), TypeOf(v)) ==
               Outcome(HeaderFits(cfg, Go, h) && Fits(cfg, Go, v), (h, v), Parser(cfg, sized, [], [TopLevel]))
  {
    hide Text, Tokens, ReadMessage, WriteMessage, MessageTokens, NumberFits, TextFits, Arrives, Fits;
    var text := Text([TopLevel], MessageTokens(Go, h, v));
    WriteMessagePrints(w, h, v);
    assert (w.out + text)[|w.out|..] == text;
    ReadMessageBack(Go, h, v, cfg, sized, ctx);
    ArrivesWhole(cfg, Go, v);
  }

  lemma ReadMessageBeginResets(p: Parser)
    ensures ReadMessageBegin(p) == ReadMessageBegin(p.(ctx := [TopLevel]))
  {
    hide ParseOpen, ParseI64, ReadString;
    assert p.(ctx := [TopLevel]).(ctx := [TopLevel]) == p.(ctx := [TopLevel]);
  }
}
