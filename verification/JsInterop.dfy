/** What the Go parser makes of what the JavaScript writer prints, and where the two writers print the same. */
module JsInterop {
  import opened Bytes
  import opened Values
  import opened Configuration
  import opened JsonText
  import opened Json
  import opened JsonLexemes
  import opened JsonPrint
  import opened JsonParse
  import Js = JsWriter

  // ---- joining ------------------------------------------------------------

  /** Every part with a comma in front. */
  function Commas(parts: seq<ByteSeq>): ByteSeq {
    if parts == [] then [] else [COMMA] + parts[0] + Commas(parts[1..])
  }

  lemma {:induction false} JoinIs(parts: seq<ByteSeq>)
    requires parts != []
    ensures Js.Join(parts) == parts[0] + Commas(parts[1..])
    decreases |parts|
  {
    if |parts| == 1 {
      assert parts[1..] == [] && parts[0] + [] == parts[0];
    } else {
      var rest := parts[1..];
      JoinIs(rest);
      Js.JoinFront(parts[0], rest);
      assert [parts[0]] + rest == parts;
      assert parts[0] + [COMMA] + (rest[0] + Commas(rest[1..])) == parts[0] + ([COMMA] + rest[0] + Commas(rest[1..]));
    }
  }

  // ---- values -------------------------------------------------------------

  /** The JavaScript text of a value, as a key or not. */
  function PrintAt(v: Value, key: bool): ByteSeq
    requires Js.Writable(v)
  {
    if key && Js.IsNumber(v) then Js.InQuotes(Js.Print(v)) else Js.Print(v)
  }

  /** Bytes that neither side escapes. */
  predicate NeedsNoEscape(s: ByteSeq) {
    forall i :: 0 <= i < |s| ==> s[i] >= 32 && s[i] != QUOTE && s[i] != BACKSLASH
  }

  lemma {:induction false} EscapeNothing(s: ByteSeq)
    requires NeedsNoEscape(s)
    ensures Escape(JavaScript, s) == s
    decreases |s|
  {
    if s != [] {
      EscapeNothing(s[1..]);
    }
  }

  lemma NameQuoted(ty: TType)
    requires Js.HasName(ty)
    ensures Quoted(JavaScript, Name(ty)) == Js.QuotedName(ty)
  {
    NamePlain(ty);
    hide Escape, NeedsNoEscape;
    EscapeNothing(Name(ty));
  }

  lemma TextOne(ctx: Stack, t: Token)
    requires Next(ctx, t).Some?
    ensures Text(ctx, [t]) == Text1(ctx, t)
  {
    hide Next, Text1;
    AfterStep(ctx, t, []);
    assert [t] + [] == [t];
    assert Text1(ctx, t) + [] == Text1(ctx, t);
  }

  lemma TextTwo(ctx: Stack, a: Token, b: Token)
    requires Next(ctx, a).Some? && Next(Next(ctx, a).value, b).Some?
    ensures Text(ctx, [a, b]) == Text1(ctx, a) + Text1(Next(ctx, a).value, b)
  {
    hide Next, Text1;
    AfterStep(ctx, a, [b]);
    assert [a] + [b] == [a, b];
    TextOne(Next(ctx, a).value, b);
  }

  lemma TextThree(ctx: Stack, a: Token, b: Token, c: Token)
    requires Next(ctx, a).Some? && Next(Next(ctx, a).value, b).Some? && Next(Next(Next(ctx, a).value, b).value, c).Some?
    ensures Text(ctx, [a, b, c]) ==
            Text1(ctx, a) + (Text1(Next(ctx, a).value, b) + Text1(Next(Next(ctx, a).value, b).value, c))
  {
    hide Next, Text1;
    AfterStep(ctx, a, [b, c]);
    assert [a] + [b, c] == [a, b, c];
    TextTwo(Next(ctx, a).value, b, c);
  }

  /** A bracketed text: the head, what is between, and the closing tokens. */
  lemma TextParts(ctx: Stack, head: seq<Token>, body: seq<Token>, tail: seq<Token>)
    requires After(ctx, head).Some? && After(After(ctx, head).value, body).Some?
    ensures var c1 := After(ctx, head).value;
            Text(ctx, head + (body + tail)) == Text(ctx, head) + (Text(c1, body) + Text(After(c1, body).value, tail))
  {
    hide Text, After;
    TextAppend(ctx, head, body + tail);
    TextAppend(After(ctx, head).value, body, tail);
  }

  lemma {:induction false} ValueText(ctx: Stack, v: Value)
    requires ctx != [] && Js.Writable(v)
    ensures Text(ctx, Tokens(JavaScript, v)) == Separator(Top(ctx)) + PrintAt(v, IsKey(Top(ctx)))
    decreases v
  {
    match v
    case VStruct(fs) => StructText(ctx, fs);
    case VList(et, es) => ListText(ctx, et, es);
    case VSet(et, es) => ListText(ctx, et, es);
    case VMap(kt, vt, es) => MapText(ctx, kt, vt, es);
    case VString(s) => StringText(ctx, s);
    case VBool(_) => NumberIs(ctx, v);
    case VByte(_) => NumberIs(ctx, v);
    case VI16(_) => NumberIs(ctx, v);
    case VI32(_) => NumberIs(ctx, v);
    case VI64(_) => NumberIs(ctx, v);
  }

  lemma NumberIs(ctx: Stack, v: Value)
    requires ctx != [] && Js.IsNumber(v)
    ensures Text(ctx, Tokens(JavaScript, v)) == Separator(Top(ctx)) + PrintAt(v, IsKey(Top(ctx)))
  {
    hide Decimal, Text;
    TextOne(ctx, Int(Js.NumberOf(v)));
  }

  lemma StringText(ctx: Stack, s: ByteSeq)
    requires ctx != []
    ensures Text(ctx, [Str(JavaScript, s)]) == Separator(Top(ctx)) + Quoted(JavaScript, s)
  {
    hide Escape, Text;
    TextOne(ctx, Str(JavaScript, s));
  }

  lemma {:induction false} StructText(ctx: Stack, fs: seq<Field>)
    requires ctx != [] && Js.WritableFields(fs)
    ensures Text(ctx, [Open(true)] + (FieldsTokens(JavaScript, fs) + [Shut(true)])) ==
            Separator(Top(ctx)) + Js.InBraces(Js.PrintFields(fs))
    decreases fs, 2
  {
    hide Text, After, Js.Join, Js.PrintFields, FieldsTokens, Js.WritableFields;
    var c := ctx + [ObjectFirst];
    AfterOne(ctx, Open(true));
    TextOne(ctx, Open(true));
    FieldsMove(JavaScript, c, fs);
    var c' := After(c, FieldsTokens(JavaScript, fs)).value;
    FieldsText(c, fs);
    TextOne(c', Shut(true));
    TextParts(ctx, [Open(true)], FieldsTokens(JavaScript, fs), [Shut(true)]);
    var sep, mid := Separator(Top(ctx)), Js.Join(Js.PrintFields(fs));
    assert (sep + [LBRACE]) + (mid + [RBRACE]) == sep + ([LBRACE] + mid + [RBRACE]);
  }

  lemma {:induction false} FieldsText(ctx: Stack, fs: seq<Field>)
    requires ctx != [] && Top(ctx).ObjectFirst? && Js.WritableFields(fs)
    ensures Text(ctx, FieldsTokens(JavaScript, fs)) == Js.Join(Js.PrintFields(fs))
    decreases fs, 1
  {
    hide Next, After, Text, FieldTokens, Js.PrintField, Js.Join, Js.FieldKey, Commas;
    if fs == [] {
      JoinNothing();
      TextNothing(ctx);
    } else {
      FieldText(ctx, fs[0]);
      FieldMoves(JavaScript, ctx, fs[0]);
      TextAppend(ctx, FieldTokens(JavaScript, fs[0]), FieldsTokens(JavaScript, fs[1..]));
      MoreFieldsText(Keyed(ctx), fs[1..]);
      JoinIs(Js.PrintFields(fs));
    }
  }

  lemma JoinNothing()
    ensures Js.Join([]) == []
  {
  }

  lemma {:induction false} MoreFieldsText(ctx: Stack, fs: seq<Field>)
    requires ctx != [] && Top(ctx).NextKey? && Js.WritableFields(fs)
    ensures Text(ctx, FieldsTokens(JavaScript, fs)) == Commas(Js.PrintFields(fs))
    decreases fs, 0
  {
    hide Next, Js.PrintField, Js.FieldKey;
    if fs != [] {
      FieldText(ctx, fs[0]);
      FieldMoves(JavaScript, ctx, fs[0]);
      assert Keyed(ctx) == ctx;
      TextAppend(ctx, FieldTokens(JavaScript, fs[0]), FieldsTokens(JavaScript, fs[1..]));
      MoreFieldsText(ctx, fs[1..]);
      assert Js.PrintFields(fs)[1..] == Js.PrintFields(fs[1..]);
    }
  }

  lemma {:induction false} FieldText(ctx: Stack, f: Field)
    requires ctx != [] && IsKey(Top(ctx)) && Js.WritableField(f)
    ensures Text(ctx, FieldTokens(JavaScript, f)) ==
            Separator(Top(ctx)) + (Js.FieldKey(f.id) + [COLON] + Js.PrintField(f))
    decreases f
  {
    hide Text, After, Tokens, Js.Print, FieldHead, Decimal, Js.QuotedName, Js.Writable;
    var ty, c := TypeOf(f.value), Pop(ctx) + [NextValue, NextValue];
    FieldHeadMoves(JavaScript, ctx, ty, f.id);
    FieldHeadText(ctx, ty, f.id);
    ValueText(c, f.value);
    ValueMoves(JavaScript, c, f.value);
    TextOne(Advance(c), Shut(true));
    TextParts(ctx, FieldHead(JavaScript, ty, f.id), Tokens(JavaScript, f.value), [Shut(true)]);
    var sep, key, name, val := Separator(Top(ctx)), Js.FieldKey(f.id), Js.QuotedName(ty), Js.Print(f.value);
    assert (sep + (key + [COLON] + [LBRACE] + name)) + (([COLON] + val) + [RBRACE]) ==
           sep + (key + [COLON] + ([LBRACE] + name + [COLON] + val + [RBRACE]));
  }

  /** The tokens in front of a field's value. */
  lemma FieldTexts(ctx: Stack, ty: TType, id: int)
    requires ctx != [] && IsKey(Top(ctx)) && Js.HasName(ty)
    ensures Text1(ctx, Int(id)) == Separator(Top(ctx)) + Js.FieldKey(id)
    ensures Text1(Pop(ctx) + [NextValue], Open(true)) == [COLON] + [LBRACE]
    ensures Text1(Pop(ctx) + [NextValue] + [ObjectFirst], Str(JavaScript, Name(ty))) == Js.QuotedName(ty)
  {
    hide Decimal, Quoted, Name, Js.QuotedName;
    NameQuoted(ty);
    assert [] + Js.QuotedName(ty) == Js.QuotedName(ty);
  }

  lemma FieldHeadText(ctx: Stack, ty: TType, id: int)
    requires ctx != [] && IsKey(Top(ctx)) && Js.HasName(ty)
    ensures Text(ctx, FieldHead(JavaScript, ty, id)) ==
            Separator(Top(ctx)) + (Js.FieldKey(id) + [COLON] + [LBRACE] + Js.QuotedName(ty))
  {
    hide Text, Text1, Decimal, Quoted, Name, Js.QuotedName, Js.FieldKey;
    assert Advance(ctx) == Pop(ctx) + [NextValue];
    TextThree(ctx, Int(id), Open(true), Str(JavaScript, Name(ty)));
    FieldTexts(ctx, ty, id);
    var sep, key, name := Separator(Top(ctx)), Js.FieldKey(id), Js.QuotedName(ty);
    assert (sep + key) + (([COLON] + [LBRACE]) + name) == sep + (key + [COLON] + [LBRACE] + name);
  }

  lemma {:induction false} ListText(ctx: Stack, et: TType, es: seq<Value>)
    requires ctx != [] && Js.HasName(et) && Js.WritableElems(es)
    ensures Text(ctx, ListHead(JavaScript, et, |es|) + (ElemsTokens(JavaScript, es) + [Shut(false)])) ==
            Separator(Top(ctx)) + Js.InBrackets([Js.QuotedName(et), Decimal(|es|)] + Js.PrintElems(es))
    decreases es, 1
  {
    hide Text, After, ListHead, Js.Join, Js.PrintElems, ElemsTokens, Js.WritableElems, Decimal, Js.QuotedName, Commas;
    var c := ctx + [InList];
    ListHeadMoves(JavaScript, ctx, et, |es|);
    ListHeadText(ctx, et, |es|);
    ElemsMove(JavaScript, c, es);
    ElemsText(c, es);
    TextOne(c, Shut(false));
    TextParts(ctx, ListHead(JavaScript, et, |es|), ElemsTokens(JavaScript, es), [Shut(false)]);
    var sep, name, n, mid := Separator(Top(ctx)), Js.QuotedName(et), Decimal(|es|), Commas(Js.PrintElems(es));
    JoinTwo(name, n, Js.PrintElems(es));
    assert (sep + ([LBRACKET] + name + [COMMA] + n)) + (mid + [RBRACKET]) ==
           sep + ([LBRACKET] + (name + [COMMA] + n + mid) + [RBRACKET]);
  }

  lemma JoinTwo(a: ByteSeq, b: ByteSeq, parts: seq<ByteSeq>)
    ensures Js.Join([a, b] + parts) == a + [COMMA] + b + Commas(parts)
  {
    var all := [a, b] + parts;
    JoinIs(all);
    assert all[1..] == [b] + parts;
    assert ([b] + parts)[1..] == parts;
    assert a + ([COMMA] + b + Commas(parts)) == a + [COMMA] + b + Commas(parts);
  }

  /** The first tokens of a list or a map. */
  lemma FirstTexts(ctx: Stack, ty: TType, n: nat)
    requires ctx != [] && Js.HasName(ty)
    ensures Text1(ctx, Open(false)) == Separator(Top(ctx)) + [LBRACKET]
    ensures Text1(ctx + [ListFirst], Str(JavaScript, Name(ty))) == Js.QuotedName(ty)
    ensures Text1(ctx + [InList], Str(JavaScript, Name(ty))) == [COMMA] + Js.QuotedName(ty)
    ensures Text1(ctx + [InList], Int(n)) == [COMMA] + Decimal(n)
    ensures Text1(ctx + [InList], Open(true)) == [COMMA] + [LBRACE]
  {
    hide Decimal, Quoted, Name, Js.QuotedName;
    NameQuoted(ty);
    assert [] + Js.QuotedName(ty) == Js.QuotedName(ty);
  }

  lemma ListHeadText(ctx: Stack, et: TType, n: nat)
    requires ctx != [] && Js.HasName(et)
    ensures Text(ctx, ListHead(JavaScript, et, n)) ==
            Separator(Top(ctx)) + ([LBRACKET] + Js.QuotedName(et) + [COMMA] + Decimal(n))
  {
    hide Text, Text1, Decimal, Quoted, Name, Js.QuotedName;
    var c1, c2 := ctx + [ListFirst], ctx + [InList];
    assert Advance(c1) == c2;
    TextThree(ctx, Open(false), Str(JavaScript, Name(et)), Int(n));
    FirstTexts(ctx, et, n);
    var sep, name := Separator(Top(ctx)), Js.QuotedName(et);
    assert (sep + [LBRACKET]) + (name + ([COMMA] + Decimal(n))) == sep + ([LBRACKET] + name + [COMMA] + Decimal(n));
  }

  lemma {:induction false} ElemsText(ctx: Stack, es: seq<Value>)
    requires ctx != [] && Top(ctx).InList? && Js.WritableElems(es)
    ensures Text(ctx, ElemsTokens(JavaScript, es)) == Commas(Js.PrintElems(es))
    decreases es, 0
  {
    hide Next, Js.Print, Tokens;
    if es != [] {
      ValueText(ctx, es[0]);
      ValueMoves(JavaScript, ctx, es[0]);
      assert Advance(ctx) == ctx;
      TextAppend(ctx, Tokens(JavaScript, es[0]), ElemsTokens(JavaScript, es[1..]));
      ElemsText(ctx, es[1..]);
      assert Js.PrintElems(es)[1..] == Js.PrintElems(es[1..]);
    }
  }

  lemma {:induction false} MapText(ctx: Stack, kt: TType, vt: TType, es: seq<Entry>)
    requires ctx != [] && Js.HasName(kt) && Js.HasName(vt) && Js.WritableEntries(es)
    ensures Text(ctx, Tokens(JavaScript, VMap(kt, vt, es))) ==
            Separator(Top(ctx)) +
            Js.InBrackets([Js.QuotedName(kt), Js.QuotedName(vt), Decimal(|es|), Js.InBraces(Js.PrintEntries(es))])
    decreases es, 2
  {
    hide Text, After, MapHead, Js.Join, Js.PrintEntries, EntriesTokens, Js.WritableEntries, Decimal, Js.QuotedName,
         Commas, Next;
    var c := ctx + [InList, ObjectFirst];
    MapHeadMoves(JavaScript, ctx, kt, vt, |es|);
    MapHeadText(ctx, kt, vt, |es|);
    EntriesMove(JavaScript, c, es);
    EntriesText(c, es);
    var c' := After(c, EntriesTokens(JavaScript, es)).value;
    assert Pop(c') == ctx + [InList];
    MapTailText(c');
    TextParts(ctx, MapHead(JavaScript, kt, vt, |es|), EntriesTokens(JavaScript, es), [Shut(true), Shut(false)]);
    var sep, k, v, n, mid :=
        Separator(Top(ctx)), Js.QuotedName(kt), Js.QuotedName(vt), Decimal(|es|), Js.Join(Js.PrintEntries(es));
    JoinFour(k, v, n, Js.InBraces(Js.PrintEntries(es)));
    MapSeams(sep, k, v, n, mid);
  }

  lemma MapSeams(sep: ByteSeq, k: ByteSeq, v: ByteSeq, n: ByteSeq, mid: ByteSeq)
    ensures (sep + ([LBRACKET] + k + [COMMA] + v + [COMMA] + n + [COMMA] + [LBRACE])) + (mid + [RBRACE, RBRACKET]) ==
            sep + ([LBRACKET] + (k + [COMMA] + v + [COMMA] + n + [COMMA] + ([LBRACE] + mid + [RBRACE])) + [RBRACKET])
  {
    var a := k + [COMMA] + v + [COMMA] + n + [COMMA];
    assert [LBRACKET] + k + [COMMA] + v + [COMMA] + n + [COMMA] + [LBRACE] == [LBRACKET] + a + [LBRACE];
    assert (sep + ([LBRACKET] + a + [LBRACE])) + (mid + [RBRACE, RBRACKET]) ==
           sep + ([LBRACKET] + (a + ([LBRACE] + mid + [RBRACE])) + [RBRACKET]);
  }

  lemma MapTailText(ctx: Stack)
    requires |ctx| >= 3
    ensures Text(ctx, [Shut(true), Shut(false)]) == [RBRACE, RBRACKET]
  {
    hide Text;
    TextTwo(ctx, Shut(true), Shut(false));
  }

  lemma JoinFour(a: ByteSeq, b: ByteSeq, c: ByteSeq, d: ByteSeq)
    ensures Js.Join([a, b, c, d]) == a + [COMMA] + b + [COMMA] + c + [COMMA] + d
  {
    assert [a, b, c, d] == [a, b] + [c, d];
    JoinTwo(a, b, [c, d]);
    CommasTwo(c, d);
    assert a + [COMMA] + b + ([COMMA] + c + ([COMMA] + d)) == a + [COMMA] + b + [COMMA] + c + [COMMA] + d;
  }

  lemma CommasTwo(c: ByteSeq, d: ByteSeq)
    ensures Commas([c, d]) == [COMMA] + c + ([COMMA] + d)
  {
    assert [c, d][1..] == [d] && [d][1..] == [];
    assert Commas([d]) == [COMMA] + d + [] == [COMMA] + d;
  }

  lemma MapHeadText(ctx: Stack, kt: TType, vt: TType, n: nat)
    requires ctx != [] && Js.HasName(kt) && Js.HasName(vt)
    ensures Text(ctx, MapHead(JavaScript, kt, vt, n)) ==
            Separator(Top(ctx)) +
            ([LBRACKET] + Js.QuotedName(kt) + [COMMA] + Js.QuotedName(vt) + [COMMA] + Decimal(n) + [COMMA] + [LBRACE])
  {
    hide Text, Text1, Decimal, Quoted, Name, Js.QuotedName;
    var c1, c2 := ctx + [ListFirst], ctx + [InList];
    var a, b := [Open(false), Str(JavaScript, Name(kt)), Str(JavaScript, Name(vt))], [Int(n), Open(true)];
    assert Advance(c1) == c2 && Advance(c2) == c2;
    AfterThree(ctx, a[0], a[1], a[2]);
    TextThree(ctx, a[0], a[1], a[2]);
    TextTwo(c2, b[0], b[1]);
    TextAppend(ctx, a, b);
    assert a + b == MapHead(JavaScript, kt, vt, n);
    FirstTexts(ctx, kt, n);
    FirstTexts(ctx, vt, n);
    MapHeadSeams(Separator(Top(ctx)), Js.QuotedName(kt), Js.QuotedName(vt), Decimal(n));
  }

  lemma MapHeadSeams(sep: ByteSeq, k: ByteSeq, v: ByteSeq, n: ByteSeq)
    ensures ((sep + [LBRACKET]) + (k + ([COMMA] + v))) + (([COMMA] + n) + ([COMMA] + [LBRACE])) ==
            sep + ([LBRACKET] + k + [COMMA] + v + [COMMA] + n + [COMMA] + [LBRACE])
  {
    var a, b := [LBRACKET] + k + [COMMA] + v, [COMMA] + n + [COMMA] + [LBRACE];
    assert (sep + [LBRACKET]) + (k + ([COMMA] + v)) == sep + a;
    assert ([COMMA] + n) + ([COMMA] + [LBRACE]) == b;
    assert (sep + a) + b == sep + (a + b);
    assert [LBRACKET] + k + [COMMA] + v + [COMMA] + n + [COMMA] + [LBRACE] == a + b;
  }

  lemma {:induction false} EntriesText(ctx: Stack, es: seq<Entry>)
    requires ctx != [] && Top(ctx).ObjectFirst? && Js.WritableEntries(es)
    ensures Text(ctx, EntriesTokens(JavaScript, es)) == Js.Join(Js.PrintEntries(es))
    decreases es, 1
  {
    hide Next, After, Text, EntryTokens, Js.PrintEntry, Js.Join, Commas;
    if es == [] {
      JoinNothing();
      TextNothing(ctx);
    } else {
      EntryText(ctx, es[0]);
      EntryMoves(JavaScript, ctx, es[0]);
      TextAppend(ctx, EntryTokens(JavaScript, es[0]), EntriesTokens(JavaScript, es[1..]));
      MoreEntriesText(Keyed(ctx), es[1..]);
      JoinIs(Js.PrintEntries(es));
    }
  }

  lemma {:induction false} MoreEntriesText(ctx: Stack, es: seq<Entry>)
    requires ctx != [] && Top(ctx).NextKey? && Js.WritableEntries(es)
    ensures Text(ctx, EntriesTokens(JavaScript, es)) == Commas(Js.PrintEntries(es))
    decreases es, 0
  {
    hide Next, Js.PrintEntry;
    if es != [] {
      EntryText(ctx, es[0]);
      EntryMoves(JavaScript, ctx, es[0]);
      assert Keyed(ctx) == ctx;
      TextAppend(ctx, EntryTokens(JavaScript, es[0]), EntriesTokens(JavaScript, es[1..]));
      MoreEntriesText(ctx, es[1..]);
      assert Js.PrintEntries(es)[1..] == Js.PrintEntries(es[1..]);
    }
  }

  lemma {:induction false} EntryText(ctx: Stack, e: Entry)
    requires ctx != [] && IsKey(Top(ctx)) && Js.WritableEntry(e)
    ensures Text(ctx, EntryTokens(JavaScript, e)) == Separator(Top(ctx)) + Js.PrintEntry(e)
    decreases e
  {
    hide Text, After, Tokens, Js.Print;
    ValueText(ctx, e.key);
    ValueMoves(JavaScript, ctx, e.key);
    ValueText(Advance(ctx), e.value);
    TextAppend(ctx, Tokens(JavaScript, e.key), Tokens(JavaScript, e.value));
    var sep, k, v := Separator(Top(ctx)), PrintAt(e.key, true), Js.Print(e.value);
    assert (sep + k) + ([COLON] + v) == sep + (k + [COLON] + v);
  }

  // ---- messages -----------------------------------------------------------

  lemma EnvelopeText(h: Header)
    requires NeedsNoEscape(h.name)
    ensures Text([TopLevel], MessageHead(JavaScript, h)) ==
            [LBRACKET] +
            (Decimal(VERSION) + [COMMA] + Js.InQuotes(h.name) +
             ([COMMA] + Decimal(h.messageType) + ([COMMA] + Decimal(h.seqId))))
  {
    hide Text, Decimal, Escape;
    var c0, c1, c2 := [TopLevel], [TopLevel, ListFirst], [TopLevel, InList];
    var a, b := [Open(false), Int(VERSION), Str(JavaScript, h.name)], [Int(h.messageType), Int(h.seqId)];
    assert c0 + [ListFirst] == c1;
    assert Advance(c1) == c2 && Advance(c2) == c2;
    AfterThree(c0, a[0], a[1], a[2]);
    TextThree(c0, a[0], a[1], a[2]);
    TextTwo(c2, b[0], b[1]);
    TextAppend(c0, a, b);
    EscapeNothing(h.name);
    EnvelopeSeams(Decimal(VERSION), Js.InQuotes(h.name), Decimal(h.messageType), Decimal(h.seqId));
  }

  lemma EnvelopeSeams(a: ByteSeq, b: ByteSeq, c: ByteSeq, d: ByteSeq)
    ensures (([] + [LBRACKET]) + (([] + a) + ([COMMA] + b))) + (([COMMA] + c) + ([COMMA] + d)) ==
            [LBRACKET] + (a + [COMMA] + b + ([COMMA] + c + ([COMMA] + d)))
    ensures ([LBRACKET] + (a + ([COMMA] + b))) + (([COMMA] + c) + ([COMMA] + d)) ==
            [LBRACKET] + (a + [COMMA] + b + ([COMMA] + c + ([COMMA] + d)))
  {
    assert [] + [LBRACKET] == [LBRACKET] && [] + a == a;
    assert a + ([COMMA] + b) == a + [COMMA] + b;
  }

  /**
   * A message as the JavaScript writer prints it. The name goes out as it is; the names of methods are
   * identifiers and need no escape.
   */
  lemma MessageText(h: Header, v: Value)
    requires Js.Writable(v) && NeedsNoEscape(h.name)
    ensures Js.PrintMessage(h, v) == Text([TopLevel], MessageTokens(JavaScript, h, v))
  {
    hide Text, After, Tokens, Js.Print, Js.Join, MessageHead, Decimal, Commas;
    var c := [TopLevel, InList];
    MessageHeadMoves(JavaScript, h);
    EnvelopeText(h);
    ValueText(c, v);
    ValueMoves(JavaScript, c, v);
    assert Advance(c) == c;
    TextOne(c, Shut(false));
    TextParts([TopLevel], MessageHead(JavaScript, h), Tokens(JavaScript, v), [Shut(false)]);
    var a, b, x, y := Decimal(VERSION), Js.InQuotes(h.name), Decimal(h.messageType), Decimal(h.seqId);
    assert [a, b, x, y, Js.Print(v)] == [a, b] + [x, y, Js.Print(v)];
    JoinTwo(a, b, [x, y, Js.Print(v)]);
    CommasThree(x, y, Js.Print(v));
    MessageSeams(a + [COMMA] + b, [COMMA] + x, [COMMA] + y, [COMMA] + Js.Print(v));
  }

  lemma CommasThree(a: ByteSeq, b: ByteSeq, c: ByteSeq)
    ensures Commas([a, b, c]) == [COMMA] + a + ([COMMA] + b + ([COMMA] + c))
  {
    assert [a, b, c][1..] == [b, c];
    CommasTwo(b, c);
  }

  lemma MessageSeams(a: ByteSeq, b: ByteSeq, c: ByteSeq, d: ByteSeq)
    ensures ([LBRACKET] + (a + (b + c))) + (d + [RBRACKET]) == [LBRACKET] + (a + (b + (c + d))) + [RBRACKET]
  {
    assert a + (b + (c + d)) == (a + (b + c)) + d;
  }

  /**
   * A message printed by the JavaScript writer, read by the Go protocol from whatever state its stack was
   * left in. Unless a string in it has a bare control byte, the envelope and the value come back, or are
   * refused for exceeding the limits.
   */
  lemma GoReadsJavaScript(h: Header, v: Value, cfg: Config, sized: bool, ctx: Stack)
    requires Js.Writable(v) && NeedsNoEscape(h.name) && IsI8(h.messageType) && IsI32(h.seqId)
    requires WellTyped(v) && Printable(v)
    ensures var x := ReadMessage(Parser(cfg, sized, Js.PrintMessage(h, v), ctx), TypeOf(v));
            var end := Parser(cfg, sized, [], [TopLevel]);
            var fits := HeaderFits(cfg, JavaScript, h) && Fits(cfg, JavaScript, v);
            && (Clean(v) ==> x == Outcome(fits, (h, v), end))
            && (x == Ok(((h, v), end)) <==> fits && Clean(v))
            && (x.Ok? ==> x.value.1 == end)
  {
    hide Text, Tokens, Js.PrintMessage, ReadMessage, MessageTokens, NumberFits, TextFits, Fits, Arrives, Clean;
    MessageText(h, v);
    ReadMessageBack(JavaScript, h, v, cfg, sized, ctx);
    ArrivesWhole(cfg, JavaScript, v);
    NameIsLegible(h.name);
  }

  lemma NameIsLegible(s: ByteSeq)
    requires NeedsNoEscape(s)
    ensures Legible(JavaScript, s)
  {
  }

  lemma OneByteArrives(limit: nat)
    requires limit >= 2
    ensures Escape(JavaScript, [1]) == [1]
    ensures TextArrives(JavaScript, [1], limit) == Ok([])
  {
    assert [1][1..] == [];
    var body := Escape(JavaScript, [1]) + [QUOTE];
    assert body == [1, QUOTE] && Find(body, 0, QUOTE) == Find(body, 1, QUOTE) == 1;
    assert IsBareControl([1][0]);
  }

  /** The string of the one byte 1 leaves a JavaScript client and arrives empty, and nothing reports it. */
  lemma BareControlIsLost(cfg: Config, sized: bool)
    requires cfg.MessageLimit() >= 2
    ensures Js.Print(VString([1])) == [QUOTE, 1, QUOTE]
    ensures ReadValue(Parser(cfg, sized, Js.Print(VString([1])), [TopLevel]), STRING) ==
            Ok((VString([]), Parser(cfg, sized, [], [TopLevel])))
  {
    hide ReadValue, Escape, TextArrives, Text;
    var v, ctx := VString([1]), [TopLevel];
    OneByteArrives(cfg.MessageLimit());
    var text := Text(ctx, Tokens(JavaScript, v));
    ValueText(ctx, v);
    assert [] + Js.Print(v) == Js.Print(v) == text && text + [] == text;
    assert Tokens(JavaScript, v) + [] == Tokens(JavaScript, v);
    ReadValueBack(JavaScript, Parser(cfg, sized, text, ctx), v, [], []);
    AdvanceTopLevel(ctx);
    TextNothing(ctx);
  }

  // ---- where the two writers agree ----------------------------------------

  /** A byte both sides write alike: no bare control byte, and none of < > & that only the Go side escapes. */
  predicate IsPlainByte(b: Byte) { !IsBareControl(b) && b != 60 && b != 62 && b != 38 }

  predicate PlainText(s: ByteSeq) { forall i :: 0 <= i < |s| ==> IsPlainByte(s[i]) }

  predicate Plain(v: Value)
    decreases v
  {
    match v
    case VString(s) => PlainText(s)
    case VStruct(fs) => PlainFields(fs)
    case VList(_, es) => PlainElems(es)
    case VSet(_, es) => PlainElems(es)
    case VMap(_, _, es) => PlainEntries(es)
    case _ => true
  }

  predicate PlainField(f: Field)
    decreases f
  {
    Plain(f.value)
  }

  predicate PlainFields(fs: seq<Field>)
    decreases fs
  {
    fs != [] ==> PlainField(fs[0]) && PlainFields(fs[1..])
  }

  predicate PlainElems(es: seq<Value>)
    decreases es
  {
    es != [] ==> Plain(es[0]) && PlainElems(es[1..])
  }

  predicate PlainEntry(e: Entry)
    decreases e
  {
    Plain(e.key) && Plain(e.value)
  }

  predicate PlainEntries(es: seq<Entry>)
    decreases es
  {
    es != [] ==> PlainEntry(es[0]) && PlainEntries(es[1..])
  }

  /** The JavaScript text js is the Go text go when plain, and shorter when not. */
  predicate Agree(js: ByteSeq, go: ByteSeq, plain: bool) {
    if plain then js == go else |js| < |go|
  }

  lemma AgreeThen(js1: ByteSeq, go1: ByteSeq, plain1: bool, js2: ByteSeq, go2: ByteSeq, plain2: bool)
    requires Agree(js1, go1, plain1) && Agree(js2, go2, plain2)
    ensures Agree(js1 + js2, go1 + go2, plain1 && plain2)
  {
  }

  lemma ByteAgrees(b: Byte)
    ensures Agree(EscapeByte(JavaScript, b), EscapeByte(Go, b), IsPlainByte(b))
  {
  }

  lemma {:induction false} EscapesAgree(s: ByteSeq)
    ensures Agree(Escape(JavaScript, s), Escape(Go, s), PlainText(s))
    decreases |s|
  {
    hide EscapeByte, IsPlainByte;
    if s != [] {
      ByteAgrees(s[0]);
      EscapesAgree(s[1..]);
      var e, f := EscapeByte(JavaScript, s[0]), EscapeByte(Go, s[0]);
      AgreeThen(e, f, IsPlainByte(s[0]), Escape(JavaScript, s[1..]), Escape(Go, s[1..]), PlainText(s[1..]));
      assert s == [s[0]] + s[1..];
      assert PlainText(s) <==> IsPlainByte(s[0]) && PlainText(s[1..]);
    }
  }

  /** Texts of tokens that differ in style only, and lead to the same stack. */
  ghost predicate TokensAgree(ctx: Stack, js: seq<Token>, go: seq<Token>, plain: bool) {
    && After(ctx, js).Some? && After(ctx, js) == After(ctx, go)
    && Agree(Text(ctx, js), Text(ctx, go), plain)
  }

  lemma TokensAgreeThen(ctx: Stack, js: seq<Token>, go: seq<Token>, plain: bool,
                        js': seq<Token>, go': seq<Token>, plain': bool)
    requires TokensAgree(ctx, js, go, plain) && TokensAgree(After(ctx, js).value, js', go', plain')
    ensures TokensAgree(ctx, js + js', go + go', plain && plain')
  {
    hide Text, After;
    var c := After(ctx, js).value;
    TextAppend(ctx, js, js');
    TextAppend(ctx, go, go');
    AfterAppend(ctx, js, js');
    AfterAppend(ctx, go, go');
    AgreeThen(Text(ctx, js), Text(ctx, go), plain, Text(c, js'), Text(c, go'), plain');
  }

  lemma StringAgrees(ctx: Stack, s: ByteSeq)
    requires ctx != []
    ensures TokensAgree(ctx, [Str(JavaScript, s)], [Str(Go, s)], PlainText(s))
  {
    hide Text, After, Escape, PlainText;
    var j, g := Str(JavaScript, s), Str(Go, s);
    AfterOne(ctx, j);
    AfterOne(ctx, g);
    TextOne(ctx, j);
    TextOne(ctx, g);
    EscapesAgree(s);
    var sep := Separator(Top(ctx));
    AgreeThen(Escape(JavaScript, s), Escape(Go, s), PlainText(s), [QUOTE], [QUOTE], true);
    AgreeThen([QUOTE], [QUOTE], true, Escape(JavaScript, s) + [QUOTE], Escape(Go, s) + [QUOTE], PlainText(s));
    assert Quoted(JavaScript, s) == [QUOTE] + (Escape(JavaScript, s) + [QUOTE]);
    assert Quoted(Go, s) == [QUOTE] + (Escape(Go, s) + [QUOTE]);
    AgreeThen(sep, sep, true, Quoted(JavaScript, s), Quoted(Go, s), PlainText(s));
  }

  lemma NameAgrees(ctx: Stack, ty: TType)
    requires ctx != []
    ensures TokensAgree(ctx, [Str(JavaScript, Name(ty))], [Str(Go, Name(ty))], true)
  {
    hide Name, Text, After, PlainText;
    StringAgrees(ctx, Name(ty));
    NamePlain(ty);
  }

  lemma NamePlain(ty: TType)
    ensures PlainText(Name(ty)) && NeedsNoEscape(Name(ty))
  {
  }

  lemma SameAgrees(ctx: Stack, ts: seq<Token>)
    requires After(ctx, ts).Some?
    ensures TokensAgree(ctx, ts, ts, true)
  {
  }

  lemma OneAgrees(ctx: Stack, t: Token)
    requires Next(ctx, t).Some?
    ensures After(ctx, [t]) == Next(ctx, t) && TokensAgree(ctx, [t], [t], true)
  {
    hide Next, Text;
    AfterOne(ctx, t);
  }

  lemma FieldHeadAgrees(ctx: Stack, ty: TType, id: int)
    requires ctx != [] && IsKey(Top(ctx))
    ensures TokensAgree(ctx, FieldHead(JavaScript, ty, id), FieldHead(Go, ty, id), true)
  {
    hide Text, After, Name, Decimal;
    var c := Pop(ctx) + [NextValue] + [ObjectFirst];
    FieldHeadMoves(Go, ctx, ty, id);
    assert Advance(ctx) == Pop(ctx) + [NextValue];
    var a := [Int(id)] + [Open(true)];
    AfterOne(ctx, Int(id));
    AfterOne(Pop(ctx) + [NextValue], Open(true));
    AfterAppend(ctx, [Int(id)], [Open(true)]);
    SameAgrees(ctx, a);
    NameAgrees(c, ty);
    TokensAgreeThen(ctx, a, a, true, [Str(JavaScript, Name(ty))], [Str(Go, Name(ty))], true);
    assert FieldHead(JavaScript, ty, id) == a + [Str(JavaScript, Name(ty))];
    assert FieldHead(Go, ty, id) == a + [Str(Go, Name(ty))];
  }

  lemma ListHeadAgrees(ctx: Stack, et: TType, n: nat)
    requires ctx != []
    ensures TokensAgree(ctx, ListHead(JavaScript, et, n), ListHead(Go, et, n), true)
  {
    hide Text, After, Name, Decimal;
    var c, d := ctx + [ListFirst], ctx + [InList];
    var o, j, g, i := [Open(false)], [Str(JavaScript, Name(et))], [Str(Go, Name(et))], [Int(n)];
    OneAgrees(ctx, Open(false));
    NameAgrees(c, et);
    AfterOne(c, j[0]);
    AdvanceListFirst(ctx);
    TokensAgreeThen(ctx, o, o, true, j, g, true);
    AfterAppend(ctx, o, j);
    OneAgrees(d, Int(n));
    TokensAgreeThen(ctx, o + j, o + g, true, i, i, true);
    assert ListHead(JavaScript, et, n) == o + j + i && ListHead(Go, et, n) == o + g + i;
  }

  lemma MapHeadAgrees(ctx: Stack, kt: TType, vt: TType, n: nat)
    requires ctx != []
    ensures TokensAgree(ctx, MapHead(JavaScript, kt, vt, n), MapHead(Go, kt, vt, n), true)
  {
    hide Text, After, Name, Decimal;
    var c, d := ctx + [ListFirst], ctx + [InList];
    var o, i := [Open(false)], [Int(n)] + [Open(true)];
    var jk, gk := [Str(JavaScript, Name(kt))], [Str(Go, Name(kt))];
    var jv, gv := [Str(JavaScript, Name(vt))], [Str(Go, Name(vt))];
    AdvanceListFirst(ctx);
    AdvanceInList(ctx);
    OneAgrees(ctx, Open(false));
    NameAgrees(c, kt);
    AfterOne(c, jk[0]);
    TokensAgreeThen(ctx, o, o, true, jk, gk, true);
    AfterAppend(ctx, o, jk);
    NameAgrees(d, vt);
    AfterOne(d, jv[0]);
    TokensAgreeThen(ctx, o + jk, o + gk, true, jv, gv, true);
    AfterAppend(ctx, o + jk, jv);
    AfterOne(d, Int(n));
    AfterOne(d, Open(true));
    AfterAppend(d, [Int(n)], [Open(true)]);
    SameAgrees(d, i);
    TokensAgreeThen(ctx, o + jk + jv, o + gk + gv, true, i, i, true);
    assert MapHead(JavaScript, kt, vt, n) == o + jk + jv + i && MapHead(Go, kt, vt, n) == o + gk + gv + i;
  }

  lemma BracketedAgrees(ctx: Stack, head: seq<Token>, head': seq<Token>, body: seq<Token>, body': seq<Token>,
                        plain: bool, tail: seq<Token>)
    requires TokensAgree(ctx, head, head', true)
    requires TokensAgree(After(ctx, head).value, body, body', plain)
    requires After(After(After(ctx, head).value, body).value, tail).Some?
    ensures TokensAgree(ctx, head + (body + tail), head' + (body' + tail), plain)
  {
    hide Text, After;
    var c := After(ctx, head).value;
    SameAgrees(After(c, body).value, tail);
    TokensAgreeThen(c, body, body', plain, tail, tail, true);
    TokensAgreeThen(ctx, head, head', true, body + tail, body' + tail, plain);
  }

  /** In every context the two writers print a value alike if every byte of its strings is plain, and only then. */
  lemma {:induction false} ValueAgrees(ctx: Stack, v: Value)
    requires ctx != [] && Js.Writable(v)
    ensures TokensAgree(ctx, Tokens(JavaScript, v), Tokens(Go, v), Plain(v))
    decreases v
  {
    hide Text, After;
    match v
    case VString(s) => StringAgrees(ctx, s);
    case VStruct(fs) => StructAgrees(ctx, fs);
    case VList(et, es) => ListAgrees(ctx, et, es);
    case VSet(et, es) => ListAgrees(ctx, et, es);
    case VMap(kt, vt, es) => MapAgrees(ctx, kt, vt, es);
    case VBool(b) => OneAgrees(ctx, Int(if b then 1 else 0));
    case VByte(n) => OneAgrees(ctx, Int(n));
    case VI16(n) => OneAgrees(ctx, Int(n));
    case VI32(n) => OneAgrees(ctx, Int(n));
    case VI64(n) => OneAgrees(ctx, Int(n));
  }

  lemma {:induction false} StructAgrees(ctx: Stack, fs: seq<Field>)
    requires ctx != [] && Js.WritableFields(fs)
    ensures TokensAgree(ctx, Tokens(JavaScript, VStruct(fs)), Tokens(Go, VStruct(fs)), PlainFields(fs))
    decreases fs, 1
  {
    hide Text, After, PlainFields, FieldsTokens, Js.WritableFields;
    var c := ctx + [ObjectFirst];
    OneAgrees(ctx, Open(true));
    FieldsAgree(c, fs);
    FieldsMove(JavaScript, c, fs);
    ShutMoves(ctx, After(c, FieldsTokens(JavaScript, fs)).value, true);
    BracketedAgrees(ctx, [Open(true)], [Open(true)], FieldsTokens(JavaScript, fs), FieldsTokens(Go, fs),
                    PlainFields(fs), [Shut(true)]);
  }

  lemma {:induction false} FieldsAgree(ctx: Stack, fs: seq<Field>)
    requires ctx != [] && IsKey(Top(ctx)) && Js.WritableFields(fs)
    ensures TokensAgree(ctx, FieldsTokens(JavaScript, fs), FieldsTokens(Go, fs), PlainFields(fs))
    decreases fs, 0
  {
    if fs != [] {
      hide Text, FieldTokens, PlainField, Js.WritableField, Next;
      var f, rest := fs[0], fs[1..];
      FieldAgrees(ctx, f);
      FieldMoves(JavaScript, ctx, f);
      FieldsAgree(Keyed(ctx), rest);
      TokensAgreeThen(ctx, FieldTokens(JavaScript, f), FieldTokens(Go, f), PlainField(f),
                      FieldsTokens(JavaScript, rest), FieldsTokens(Go, rest), PlainFields(rest));
    }
  }

  lemma {:induction false} FieldAgrees(ctx: Stack, f: Field)
    requires ctx != [] && IsKey(Top(ctx)) && Js.WritableField(f)
    ensures TokensAgree(ctx, FieldTokens(JavaScript, f), FieldTokens(Go, f), PlainField(f))
    decreases f
  {
    hide Text, After, Tokens, FieldHead, Plain, Js.Writable;
    var ty, c := TypeOf(f.value), Pop(ctx) + [NextValue, NextValue];
    FieldHeadAgrees(ctx, ty, f.id);
    FieldHeadMoves(JavaScript, ctx, ty, f.id);
    ValueAgrees(c, f.value);
    ValueMoves(JavaScript, c, f.value);
    assert Pop(Advance(c)) == Pop(ctx) + [NextValue];
    ShutMoves(Pop(ctx) + [NextValue], Advance(c), true);
    BracketedAgrees(ctx, FieldHead(JavaScript, ty, f.id), FieldHead(Go, ty, f.id),
                    Tokens(JavaScript, f.value), Tokens(Go, f.value), Plain(f.value), [Shut(true)]);
  }

  lemma {:induction false} ListAgrees(ctx: Stack, et: TType, es: seq<Value>)
    requires ctx != [] && Js.WritableElems(es)
    ensures TokensAgree(ctx, Tokens(JavaScript, VList(et, es)), Tokens(Go, VList(et, es)), PlainElems(es))
    decreases es, 1
  {
    hide Text, After, PlainElems, ElemsTokens, ListHead, Js.WritableElems;
    var c := ctx + [InList];
    ListHeadAgrees(ctx, et, |es|);
    ListHeadMoves(JavaScript, ctx, et, |es|);
    ElemsAgree(c, es);
    ElemsMove(JavaScript, c, es);
    ShutMoves(ctx, c, false);
    BracketedAgrees(ctx, ListHead(JavaScript, et, |es|), ListHead(Go, et, |es|),
                    ElemsTokens(JavaScript, es), ElemsTokens(Go, es), PlainElems(es), [Shut(false)]);
  }

  lemma {:induction false} ElemsAgree(ctx: Stack, es: seq<Value>)
    requires ctx != [] && Top(ctx).InList? && Js.WritableElems(es)
    ensures TokensAgree(ctx, ElemsTokens(JavaScript, es), ElemsTokens(Go, es), PlainElems(es))
    decreases es, 0
  {
    if es != [] {
      hide Text, Tokens, Plain, Js.Writable, Next, Agree;
      var e, rest := es[0], es[1..];
      ValueAgrees(ctx, e);
      ValueMoves(JavaScript, ctx, e);
      assert Advance(ctx) == ctx;
      ElemsAgree(ctx, rest);
      TokensAgreeThen(ctx, Tokens(JavaScript, e), Tokens(Go, e), Plain(e),
                      ElemsTokens(JavaScript, rest), ElemsTokens(Go, rest), PlainElems(rest));
    }
  }

  lemma {:induction false} MapAgrees(ctx: Stack, kt: TType, vt: TType, es: seq<Entry>)
    requires ctx != [] && Js.WritableEntries(es)
    ensures TokensAgree(ctx, Tokens(JavaScript, VMap(kt, vt, es)), Tokens(Go, VMap(kt, vt, es)), PlainEntries(es))
    decreases es, 1
  {
    hide Text, After, PlainEntries, EntriesTokens, MapHead, Js.WritableEntries;
    var c := ctx + [InList, ObjectFirst];
    MapHeadAgrees(ctx, kt, vt, |es|);
    MapHeadMoves(JavaScript, ctx, kt, vt, |es|);
    EntriesAgree(c, es);
    EntriesMove(JavaScript, c, es);
    MapTailMoves(ctx, After(c, EntriesTokens(JavaScript, es)).value);
    BracketedAgrees(ctx, MapHead(JavaScript, kt, vt, |es|), MapHead(Go, kt, vt, |es|),
                    EntriesTokens(JavaScript, es), EntriesTokens(Go, es), PlainEntries(es), [Shut(true), Shut(false)]);
  }

  lemma MapTailMoves(ctx: Stack, ctx': Stack)
    requires ctx != [] && |ctx'| == |ctx| + 2 && Pop(ctx') == ctx + [InList]
    ensures After(ctx', [Shut(true), Shut(false)]).Some?
  {
    hide After;
    ShutMoves(ctx + [InList], ctx', true);
    AdvanceInList(ctx);
    ShutMoves(ctx, ctx + [InList], false);
    AfterAppend(ctx', [Shut(true)], [Shut(false)]);
    assert [Shut(true)] + [Shut(false)] == [Shut(true), Shut(false)];
  }

  lemma {:induction false} EntriesAgree(ctx: Stack, es: seq<Entry>)
    requires ctx != [] && IsKey(Top(ctx)) && Js.WritableEntries(es)
    ensures TokensAgree(ctx, EntriesTokens(JavaScript, es), EntriesTokens(Go, es), PlainEntries(es))
    decreases es, 0
  {
    if es != [] {
      hide Text, EntryTokens, PlainEntry, Js.WritableEntry, Next;
      var e, rest := es[0], es[1..];
      EntryAgrees(ctx, e);
      EntryMoves(JavaScript, ctx, e);
      EntriesAgree(Keyed(ctx), rest);
      TokensAgreeThen(ctx, EntryTokens(JavaScript, e), EntryTokens(Go, e), PlainEntry(e),
                      EntriesTokens(JavaScript, rest), EntriesTokens(Go, rest), PlainEntries(rest));
    }
  }

  lemma {:induction false} EntryAgrees(ctx: Stack, e: Entry)
    requires ctx != [] && IsKey(Top(ctx)) && Js.WritableEntry(e)
    ensures TokensAgree(ctx, EntryTokens(JavaScript, e), EntryTokens(Go, e), PlainEntry(e))
    decreases e
  {
    hide Text, After, Tokens, Plain, Js.Writable;
    ValueAgrees(ctx, e.key);
    ValueMoves(JavaScript, ctx, e.key);
    ValueAgrees(Advance(ctx), e.value);
    TokensAgreeThen(ctx, Tokens(JavaScript, e.key), Tokens(Go, e.key), Plain(e.key),
                    Tokens(JavaScript, e.value), Tokens(Go, e.value), Plain(e.value));
  }

  /**
   * The two sides print the same message if and only if every byte of its name and of its strings is plain:
   * neither a bare control byte nor one of < > &.
   */
  lemma SameMessage(h: Header, v: Value)
    requires Js.Writable(v) && NeedsNoEscape(h.name)
    ensures Js.PrintMessage(h, v) == Text([TopLevel], MessageTokens(Go, h, v)) <==> PlainText(h.name) && Plain(v)
  {
    hide Text, After, Tokens, MessageHead, Js.PrintMessage, Plain, PlainText;
    var c := [TopLevel, InList];
    MessageText(h, v);
    EnvelopeAgrees(h);
    MessageHeadMoves(JavaScript, h);
    ValueAgrees(c, v);
    ValueMoves(JavaScript, c, v);
    assert Advance(c) == c && Pop(c) == [TopLevel];
    ShutMoves([TopLevel], c, false);
    SameAgrees(c, [Shut(false)]);
    TokensAgreeThen(c, Tokens(JavaScript, v), Tokens(Go, v), Plain(v), [Shut(false)], [Shut(false)], true);
    TokensAgreeThen([TopLevel], MessageHead(JavaScript, h), MessageHead(Go, h), PlainText(h.name),
                    Tokens(JavaScript, v) + [Shut(false)], Tokens(Go, v) + [Shut(false)], Plain(v));
  }

  lemma EnvelopeAgrees(h: Header)
    ensures TokensAgree([TopLevel], MessageHead(JavaScript, h), MessageHead(Go, h), PlainText(h.name))
  {
    hide Text, After, PlainText, Decimal;
    var ctx, c1, c := [TopLevel], [TopLevel, ListFirst], [TopLevel, InList];
    var o, i := [Open(false)] + [Int(VERSION)], [Int(h.messageType), Int(h.seqId)];
    var j, g := [Str(JavaScript, h.name)], [Str(Go, h.name)];
    assert ctx + [ListFirst] == c1;
    assert Advance(c1) == c && Advance(c) == c;
    AfterOne(ctx, Open(false));
    AfterOne(c1, Int(VERSION));
    AfterAppend(ctx, [Open(false)], [Int(VERSION)]);
    SameAgrees(ctx, o);
    StringAgrees(c, h.name);
    AfterOne(c, j[0]);
    TokensAgreeThen(ctx, o, o, true, j, g, PlainText(h.name));
    AfterAppend(ctx, o, j);
    AfterOne(c, Int(h.messageType));
    AfterOne(c, Int(h.seqId));
    AfterAppend(c, [Int(h.messageType)], [Int(h.seqId)]);
    assert i == [Int(h.messageType)] + [Int(h.seqId)];
    SameAgrees(c, i);
    TokensAgreeThen(ctx, o + j, o + g, PlainText(h.name), i, i, true);
    assert MessageHead(JavaScript, h) == o + j + i && MessageHead(Go, h) == o + g + i;
  }
}
