/** The JavaScript JSON protocol: a writer over two stacks, and the recursive printer it amounts to. */
module JsWriter {
  import opened Bytes
  import opened Values
  import opened JsonText
  import opened Json
  import opened JsonLexemes

  // ---- the recursive printer ----------------------------------------------

  /** Parts with commas between them. */
  function Join(parts: seq<ByteSeq>): ByteSeq {
    if parts == [] then []
    else if |parts| == 1 then parts[0]
    else Join(parts[..|parts| - 1]) + [COMMA] + parts[|parts| - 1]
  }

  lemma {:induction false} JoinFront(first: ByteSeq, parts: seq<ByteSeq>)
    requires parts != []
    ensures Join([first] + parts) == first + [COMMA] + Join(parts)
    decreases |parts|
  {
    var all, n := [first] + parts, |parts|;
    assert Join(all) == Join(all[..n]) + [COMMA] + parts[n - 1];
    if n == 1 {
      assert all[..n] == [first];
    } else {
      JoinFront(first, parts[..n - 1]);
      assert all[..n] == [first] + parts[..n - 1];
      assert Join(parts) == Join(parts[..n - 1]) + [COMMA] + parts[n - 1];
      hide Join;
      var a, b := first + [COMMA], Join(parts[..n - 1]);
      assert (a + b) + [COMMA] + parts[n - 1] == a + (b + [COMMA] + parts[n - 1]);
    }
  }

  function InBraces(parts: seq<ByteSeq>): ByteSeq { [LBRACE] + Join(parts) + [RBRACE] }

  function InBrackets(parts: seq<ByteSeq>): ByteSeq { [LBRACKET] + Join(parts) + [RBRACKET] }

  function InQuotes(s: ByteSeq): ByteSeq { [QUOTE] + s + [QUOTE] }

  /** The types that have a name; UUIDs have none. */
  predicate HasName(ty: TType) { IsValueType(ty) && ty != UUID }

  function QuotedName(ty: TType): ByteSeq
    requires HasName(ty)
  {
    InQuotes(TypeName(ty).value)
  }

  predicate DistinctIds(fs: seq<Field>) {
    forall i, j :: 0 <= i < j < |fs| ==> fs[i].id != fs[j].id
  }

  /** What the writer is for: named types and no field id twice. Doubles are left to the number formatter. */
  predicate Writable(v: Value)
    decreases v
  {
    match v
    case VDouble(_) => false
    case VUuid(_) => false
    case VStruct(fs) => DistinctIds(fs) && WritableFields(fs)
    case VList(et, es) => HasName(et) && WritableElems(es)
    case VSet(et, es) => HasName(et) && WritableElems(es)
    case VMap(kt, vt, es) => HasName(kt) && HasName(vt) && WritableEntries(es)
    case _ => true
  }

  predicate WritableField(f: Field)
    decreases f
  {
    IsI16(f.id) && Writable(f.value) && HasName(TypeOf(f.value))
  }

  predicate WritableFields(fs: seq<Field>)
    decreases fs
  {
    fs != [] ==> WritableField(fs[0]) && WritableFields(fs[1..])
  }

  predicate WritableElems(es: seq<Value>)
    decreases es
  {
    es != [] ==> Writable(es[0]) && WritableElems(es[1..])
  }

  predicate WritableEntry(e: Entry)
    decreases e
  {
    Writable(e.key) && Writable(e.value)
  }

  predicate WritableEntries(es: seq<Entry>)
    decreases es
  {
    es != [] ==> WritableEntry(es[0]) && WritableEntries(es[1..])
  }

  predicate IsNumber(v: Value) { v.VBool? || v.VByte? || v.VI16? || v.VI32? || v.VI64? }

  function NumberOf(v: Value): int
    requires IsNumber(v)
  {
    if v.VBool? then (if v.b then 1 else 0) else v.n
  }

  /** A value's text. */
  function Print(v: Value): ByteSeq
    requires Writable(v)
    decreases v
  {
    match v
    case VBool(b) => Decimal(if b then 1 else 0)
    case VByte(n) => Decimal(n)
    case VI16(n) => Decimal(n)
    case VI32(n) => Decimal(n)
    case VI64(n) => Decimal(n)
    case VString(s) => Quoted(JavaScript, s)
    case VStruct(fs) => InBraces(PrintFields(fs))
    case VList(et, es) => InBrackets([QuotedName(et), Decimal(|es|)] + PrintElems(es))
    case VSet(et, es) => InBrackets([QuotedName(et), Decimal(|es|)] + PrintElems(es))
    case VMap(kt, vt, es) => InBrackets([QuotedName(kt), QuotedName(vt), Decimal(|es|), InBraces(PrintEntries(es))])
  }

  function FieldKey(id: int): ByteSeq { InQuotes(Decimal(id)) }

  /** The typed value a field id stands for. */
  function PrintField(f: Field): ByteSeq
    requires WritableField(f)
    decreases f
  {
    [LBRACE] + QuotedName(TypeOf(f.value)) + [COLON] + Print(f.value) + [RBRACE]
  }

  function PrintFields(fs: seq<Field>): seq<ByteSeq>
    requires WritableFields(fs)
    decreases fs
  {
    if fs == [] then [] else [FieldKey(fs[0].id) + [COLON] + PrintField(fs[0])] + PrintFields(fs[1..])
  }

  function PrintElems(es: seq<Value>): seq<ByteSeq>
    requires WritableElems(es)
    decreases es
  {
    if es == [] then [] else [Print(es[0])] + PrintElems(es[1..])
  }

  /** Numbers are not allowed as object keys: they are quoted. */
  function PrintEntry(e: Entry): ByteSeq
    requires WritableEntry(e)
    decreases e
  {
    (if IsNumber(e.key) then InQuotes(Print(e.key)) else Print(e.key)) + [COLON] + Print(e.value)
  }

  function PrintEntries(es: seq<Entry>): seq<ByteSeq>
    requires WritableEntries(es)
    decreases es
  {
    if es == [] then [] else [PrintEntry(es[0])] + PrintEntries(es[1..])
  }

  // ---- the two stacks -----------------------------------------------------

  /** What can be on the stack: a number, a text, an object or an array being built, a field being written. */
  datatype Item =
    | Number(n: int)
    | Text(text: ByteSeq)
    | Object(entries: seq<(ByteSeq, ByteSeq)>)
    | Array(parts: seq<Item>)
    | FieldInfo(fieldId: ByteSeq, fieldType: ByteSeq)

  predicate IsDone(x: Item) { x.Number? || x.Text? }

  /** A key as the methods write it: a text starts with a quote or a bracket, so that only numbers pass for numbers. */
  predicate IsKeyItem(x: Item) {
    x.Number? || (x.Text? && x.text != [] && (x.text[0] == QUOTE || x.text[0] == LBRACE || x.text[0] == LBRACKET))
  }

  predicate KeysOk(xs: seq<Item>)
    decreases |xs|
  {
    xs != [] ==> IsKeyItem(xs[0]) && (|xs| >= 2 ==> KeysOk(xs[2..]))
  }

  lemma {:induction false} KeysOkFrom(xs: seq<Item>, m: nat)
    requires KeysOk(xs) && m % 2 == 0 && m <= |xs|
    ensures KeysOk(xs[m..])
    decreases m
  {
    if m == 0 {
      assert xs[0..] == xs;
    } else {
      KeysOkFrom(xs, m - 2);
      assert xs[m - 2..][2..] == xs[m..];
    }
  }

  function Show(x: Item): ByteSeq
    requires IsDone(x)
  {
    if x.Number? then Decimal(x.n) else x.text
  }

  predicate AllDone(xs: seq<Item>) { forall i :: 0 <= i < |xs| ==> IsDone(xs[i]) }

  function Shown(xs: seq<Item>): (ts: seq<ByteSeq>)
    requires AllDone(xs)
    ensures |ts| == |xs| && forall i :: 0 <= i < |xs| ==> ts[i] == Show(xs[i])
  {
    seq(|xs|, i requires 0 <= i < |xs| => Show(xs[i]))
  }

  /** Setting a property: a new one goes last, an old one keeps its place. */
  function Put(entries: seq<(ByteSeq, ByteSeq)>, key: ByteSeq, value: ByteSeq): seq<(ByteSeq, ByteSeq)> {
    if entries == [] then [(key, value)]
    else if entries[0].0 == key then [(key, value)] + entries[1..]
    else [entries[0]] + Put(entries[1..], key, value)
  }

  lemma {:induction false} PutNew(entries: seq<(ByteSeq, ByteSeq)>, key: ByteSeq, value: ByteSeq)
    requires forall i :: 0 <= i < |entries| ==> entries[i].0 != key
    ensures Put(entries, key, value) == entries + [(key, value)]
    decreases |entries|
  {
    if entries != [] {
      PutNew(entries[1..], key, value);
      assert [entries[0]] + (entries[1..] + [(key, value)]) == entries + [(key, value)];
    }
  }

  /** Text of properties, in order. */
  function PairTexts(entries: seq<(ByteSeq, ByteSeq)>): (ts: seq<ByteSeq>)
    ensures |ts| == |entries| && forall i :: 0 <= i < |ts| ==> ts[i] == entries[i].0 + [COLON] + entries[i].1
  {
    seq(|entries|, i requires 0 <= i < |entries| => entries[i].0 + [COLON] + entries[i].1)
  }

  /** Keys and values alternate; keys that are numbers are quoted. */
  function EntryTexts(xs: seq<Item>): (ts: seq<ByteSeq>)
    requires AllDone(xs) && |xs| % 2 == 0 && KeysOk(xs)
    ensures |ts| == |xs| / 2
    decreases |xs|
  {
    if xs == [] then []
    else
      [KeyText(xs[0]) + [COLON] + Show(xs[1])] + EntryTexts(xs[2..])
  }

  function KeyText(k: Item): ByteSeq
    requires IsKeyItem(k)
  {
    if k.Number? then InQuotes(Show(k)) else Show(k)
  }

  /** A key without a value gets an empty one. */
  function Padded(items: seq<Item>): (xs: seq<Item>)
    requires AllDone(items) && KeysOk(items)
    ensures AllDone(xs) && |xs| % 2 == 0 && KeysOk(xs)
  {
    if |items| % 2 == 0 then items
    else
      PaddedKeys(items);
      items + [Text([])]
  }

  lemma {:induction false} PaddedKeys(items: seq<Item>)
    requires KeysOk(items) && |items| % 2 == 1
    ensures KeysOk(items + [Text([])])
    decreases |items|
  {
    var all := items + [Text([])];
    if |items| == 1 {
      assert all[2..] == [];
    } else {
      PaddedKeys(items[2..]);
      assert all[2..] == items[2..] + [Text([])];
    }
  }

  lemma NoEntries(items: seq<Item>)
    requires items == []
    ensures Join(EntryTexts(items)) + [RBRACE] == [RBRACE]
  {
  }

  /** A finished array: its parts between brackets. */
  function ListText(parts: seq<Item>): ByteSeq
    requires AllDone(parts)
  {
    InBrackets(Shown(parts))
  }

  /** A finished map: its types, the number of pairs actually written, and the pairs as an object. */
  function MapText(parts: seq<Item>, items: seq<Item>): ByteSeq
    requires |parts| == 3 && AllDone(parts) && AllDone(items) && |items| % 2 == 0 && KeysOk(items)
  {
    ListText([parts[0], parts[1], Number(|items| / 2), Text(InBraces(EntryTexts(items)))])
  }

  lemma EntryTextsStep(xs: seq<Item>)
    requires AllDone(xs) && |xs| % 2 == 0 && KeysOk(xs) && xs != []
    ensures IsKeyItem(xs[0]) && KeysOk(xs[2..])
    ensures EntryTexts(xs) == [KeyText(xs[0]) + [COLON] + Show(xs[1])] + EntryTexts(xs[2..])
  {
  }

  lemma PrependEntry(xs: seq<Item>)
    requires AllDone(xs) && |xs| % 2 == 0 && KeysOk(xs) && xs != []
    ensures IsKeyItem(xs[0]) && KeysOk(xs[2..])
    ensures Join(EntryTexts(xs)) ==
            KeyText(xs[0]) + [COLON] + Show(xs[1]) + if |xs| == 2 then [] else [COMMA] + Join(EntryTexts(xs[2..]))
  {
    hide KeysOk, EntryTexts, IsKeyItem, KeyText, Show, Join;
    EntryTextsStep(xs);
    var entry, rest := KeyText(xs[0]) + [COLON] + Show(xs[1]), xs[2..];
    if |xs| > 2 {
      JoinFront(entry, EntryTexts(rest));
      assert entry + ([COMMA] + Join(EntryTexts(rest))) == entry + [COMMA] + Join(EntryTexts(rest));
    } else {
      EntryTextsNone(rest);
      JoinOne(entry);
      assert [entry] + [] == [entry] && entry + [] == entry;
    }
  }

  lemma JoinOne(part: ByteSeq)
    ensures Join([part]) == part
  {
  }

  lemma EntrySeams(entry: ByteSeq, rest: ByteSeq)
    ensures entry + ([COMMA] + (rest + [RBRACE])) == entry + ([COMMA] + rest) + [RBRACE]
    ensures entry + [] + [RBRACE] == entry + [RBRACE]
  {
  }

  lemma EntryTextsNone(xs: seq<Item>)
    requires xs == []
    ensures EntryTexts(xs) == []
  {
  }

  // ---- what a written value leaves ----------------------------------------

  /** The one entry a value leaves on the stack. */
  function Finished(v: Value): (x: Item)
    requires Writable(v)
    ensures IsDone(x) && IsKeyItem(x) && Show(x) == Print(v) && (x.Number? <==> IsNumber(v))
  {
    if IsNumber(v) then Number(NumberOf(v)) else Text(Print(v))
  }

  function FinishedElems(es: seq<Value>): (xs: seq<Item>)
    requires WritableElems(es)
    ensures |xs| == |es| && AllDone(xs)
  {
    if es == [] then [] else [Finished(es[0])] + FinishedElems(es[1..])
  }

  function FinishedEntries(es: seq<Entry>): (xs: seq<Item>)
    requires WritableEntries(es)
    ensures |xs| == 2 * |es| && AllDone(xs) && KeysOk(xs)
  {
    if es == [] then []
    else
      assert WritableEntry(es[0]);
      var rest := FinishedEntries(es[1..]);
      assert ([Finished(es[0].key), Finished(es[0].value)] + rest)[2..] == rest;
      [Finished(es[0].key), Finished(es[0].value)] + rest
  }

  function FinishedFields(fs: seq<Field>): seq<(ByteSeq, ByteSeq)>
    requires WritableFields(fs)
  {
    if fs == [] then [] else [(FieldKey(fs[0].id), PrintField(fs[0]))] + FinishedFields(fs[1..])
  }

  lemma {:induction false} FieldsPrinted(fs: seq<Field>)
    requires WritableFields(fs)
    ensures PairTexts(FinishedFields(fs)) == PrintFields(fs)
    decreases |fs|
  {
    hide PrintField, FieldKey;
    if fs != [] {
      FieldsPrinted(fs[1..]);
      var first, rest := (FieldKey(fs[0].id), PrintField(fs[0])), FinishedFields(fs[1..]);
      assert PairTexts([first] + rest) == [first.0 + [COLON] + first.1] + PairTexts(rest);
    }
  }

  lemma {:induction false} ElemsPrinted(es: seq<Value>)
    requires WritableElems(es)
    ensures Shown(FinishedElems(es)) == PrintElems(es)
    decreases |es|
  {
    hide Print, Show, Finished;
    if es != [] {
      ElemsPrinted(es[1..]);
      var first, rest := Finished(es[0]), FinishedElems(es[1..]);
      assert Shown([first] + rest) == [Show(first)] + Shown(rest);
    }
  }

  lemma {:induction false} EntriesPrinted(es: seq<Entry>)
    requires WritableEntries(es)
    ensures EntryTexts(FinishedEntries(es)) == PrintEntries(es)
    decreases |es|
  {
    hide Print, Show, Finished;
    if es != [] {
      EntriesPrinted(es[1..]);
      var xs := FinishedEntries(es);
      assert xs[2..] == FinishedEntries(es[1..]);
    }
  }

  lemma ShownAppend(xs: seq<Item>, ys: seq<Item>)
    requires AllDone(xs) && AllDone(ys)
    ensures AllDone(xs + ys) && Shown(xs + ys) == Shown(xs) + Shown(ys)
  {
    hide Show;
  }

  lemma ListHeadShown(et: TType, n: nat)
    requires HasName(et)
    ensures AllDone([Text(QuotedName(et)), Number(n)])
    ensures Shown([Text(QuotedName(et)), Number(n)]) == [QuotedName(et), Decimal(n)]
  {
    hide Decimal, TypeName;
  }

  lemma ListPrinted(et: TType, es: seq<Value>)
    requires HasName(et) && WritableElems(es)
    ensures AllDone([Text(QuotedName(et)), Number(|es|)] + FinishedElems(es))
    ensures Shown([Text(QuotedName(et)), Number(|es|)] + FinishedElems(es)) ==
            [QuotedName(et), Decimal(|es|)] + PrintElems(es)
  {
    hide *;
    ElemsPrinted(es);
    ListHeadShown(et, |es|);
    ShownAppend([Text(QuotedName(et)), Number(|es|)], FinishedElems(es));
  }

  lemma MapPartsShown(kt: TType, vt: TType, n: nat, body: ByteSeq)
    requires HasName(kt) && HasName(vt) && body != [] && body[0] == LBRACE
    ensures AllDone([Text(QuotedName(kt)), Text(QuotedName(vt)), Number(n), Text(body)])
    ensures Shown([Text(QuotedName(kt)), Text(QuotedName(vt)), Number(n), Text(body)]) ==
            [QuotedName(kt), QuotedName(vt), Decimal(n), body]
  {
    hide Decimal, TypeName;
  }

  lemma MapHeadDone(kt: TType, vt: TType)
    requires HasName(kt) && HasName(vt)
    ensures AllDone([Text(QuotedName(kt)), Text(QuotedName(vt)), Number(0)])
  {
    hide TypeName;
  }

  lemma MapTextIs(kt: TType, vt: TType, items: seq<Item>)
    requires HasName(kt) && HasName(vt) && AllDone(items) && |items| % 2 == 0 && KeysOk(items)
    ensures AllDone([Text(QuotedName(kt)), Text(QuotedName(vt)), Number(0)])
    ensures MapText([Text(QuotedName(kt)), Text(QuotedName(vt)), Number(0)], items) ==
            InBrackets([QuotedName(kt), QuotedName(vt), Decimal(|items| / 2), InBraces(EntryTexts(items))])
  {
    hide Decimal, Join, EntryTexts, QuotedName;
    MapHeadDone(kt, vt);
    MapPartsShown(kt, vt, |items| / 2, InBraces(EntryTexts(items)));
  }

  lemma MapPrinted(kt: TType, vt: TType, es: seq<Entry>)
    requires HasName(kt) && HasName(vt) && WritableEntries(es)
    ensures AllDone([Text(QuotedName(kt)), Text(QuotedName(vt)), Number(0)])
    ensures MapText([Text(QuotedName(kt)), Text(QuotedName(vt)), Number(0)], FinishedEntries(es)) ==
            InBrackets([QuotedName(kt), QuotedName(vt), Decimal(|es|), InBraces(PrintEntries(es))])
  {
    hide *;
    EntriesPrinted(es);
    MapTextIs(kt, vt, FinishedEntries(es));
  }

  lemma FinishedElemsStep(es: seq<Value>)
    requires WritableElems(es)
    ensures es == [] ==> FinishedElems(es) == []
    ensures es != [] ==> Writable(es[0]) && WritableElems(es[1..])
    ensures es != [] ==> FinishedElems(es) == [Finished(es[0])] + FinishedElems(es[1..])
  {
  }

  lemma FinishedEntriesStep(es: seq<Entry>)
    requires WritableEntries(es)
    ensures es == [] ==> FinishedEntries(es) == []
    ensures es != [] ==> WritableEntry(es[0]) && Writable(es[0].key) && Writable(es[0].value)
    ensures es != [] ==> WritableEntries(es[1..])
    ensures es != [] ==> FinishedEntries(es) == [Finished(es[0].key), Finished(es[0].value)] + FinishedEntries(es[1..])
  {
  }

  lemma FinishedFieldsStep(fs: seq<Field>)
    requires WritableFields(fs)
    ensures fs == [] ==> FinishedFields(fs) == []
    ensures fs != [] ==> WritableField(fs[0]) && WritableFields(fs[1..])
    ensures fs != [] ==> FinishedFields(fs) == [(FieldKey(fs[0].id), PrintField(fs[0]))] + FinishedFields(fs[1..])
  {
  }

  /** Different field ids are different properties. */
  lemma FieldKeysDiffer(a: int, b: int)
    requires IsI16(a) && IsI16(b) && a != b
    ensures FieldKey(a) != FieldKey(b)
  {
    hide Decimal, ParseInt;
    ParseIntBack(a);
    ParseIntBack(b);
    assert FieldKey(a)[1..|FieldKey(a)| - 1] == Decimal(a) && FieldKey(b)[1..|FieldKey(b)| - 1] == Decimal(b);
  }

  lemma NoFields()
    ensures WritableFields([]) && FinishedFields([]) == []
  {
  }

  lemma NewId(before: seq<Field>, fs: seq<Field>)
    requires DistinctIds(before + fs) && fs != []
    ensures forall i :: 0 <= i < |before| ==> before[i].id != fs[0].id
  {
    forall i | 0 <= i < |before| ensures before[i].id != fs[0].id {
      assert (before + fs)[i] == before[i] && (before + fs)[|before|] == fs[0];
    }
  }

  lemma {:induction false} KeysBefore(before: seq<Field>, id: int)
    requires WritableFields(before) && IsI16(id) && forall i :: 0 <= i < |before| ==> before[i].id != id
    ensures |FinishedFields(before)| == |before|
    ensures forall i :: 0 <= i < |before| ==> FinishedFields(before)[i].0 != FieldKey(id)
    decreases |before|
  {
    hide FieldKey;
    if before != [] {
      FieldKeysDiffer(before[0].id, id);
      KeysBefore(before[1..], id);
    }
  }

  lemma {:induction false} FinishedFieldsThen(before: seq<Field>, f: Field)
    requires WritableFields(before) && WritableField(f)
    ensures WritableFields(before + [f])
    ensures FinishedFields(before + [f]) == FinishedFields(before) + [(FieldKey(f.id), PrintField(f))]
    decreases |before|
  {
    hide FieldKey, PrintField;
    if before == [] {
      assert before + [f] == [f] && [f][1..] == [];
    } else {
      FinishedFieldsThen(before[1..], f);
      assert (before + [f])[1..] == before[1..] + [f];
    }
  }

  /** The text of a message; its name is taken to need no escaping. */
  function PrintMessage(h: Header, v: Value): ByteSeq
    requires Writable(v)
  {
    InBrackets([Decimal(VERSION), InQuotes(h.name), Decimal(h.messageType), Decimal(h.seqId), Print(v)])
  }

  class Protocol {
    var tstack: seq<Item>
    var tpos: seq<nat>
    var wbuf: ByteSeq

    constructor ()
      ensures tstack == [] && tpos == [] && wbuf == []
    {
      tstack, tpos, wbuf := [], [], [];
    }

    /** The position of the construct being written. */
    ghost function Base(): nat
      reads this
      requires tpos != []
    {
      tpos[|tpos| - 1]
    }

    method WriteStructBegin()
      modifies this`tstack, this`tpos
      ensures tstack == old(tstack) + [Object([])] && tpos == old(tpos) + [|old(tstack)|]
    {
      tpos := tpos + [|tstack|];
      tstack := tstack + [Object([])];
    }

    method WriteStructEnd()
      requires tpos != [] && Base() < |tstack| && tstack[Base()].Object?
      modifies this`tstack, this`tpos
      ensures tpos == old(tpos[..|tpos| - 1])
      ensures tstack == old(tstack[Base() := Text(InBraces(PairTexts(tstack[Base()].entries)))])
    {
      var p := tpos[|tpos| - 1];
      tpos := tpos[..|tpos| - 1];
      var entries := tstack[p].entries;
      ghost var texts := PairTexts(entries);
      var str, first := [LBRACE], true;
      for i := 0 to |entries|
        invariant first <==> i == 0
        invariant str == [LBRACE] + Join(texts[..i])
      {
        if first {
          first := false;
        } else {
          str := str + [COMMA];
        }
        str := str + (entries[i].0 + [COLON] + entries[i].1);
        assert texts[..i + 1][..i] == texts[..i];
      }
      assert texts[..|entries|] == texts;
      str := str + [RBRACE];
      tstack := tstack[p := Text(str)];
    }

    method WriteFieldBegin(ty: TType, id: int)
      requires HasName(ty)
      modifies this`tstack, this`tpos
      ensures tstack == old(tstack) + [FieldInfo(FieldKey(id), QuotedName(ty))] && tpos == old(tpos) + [|old(tstack)|]
    {
      tpos := tpos + [|tstack|];
      tstack := tstack + [FieldInfo([QUOTE] + Decimal(id) + [QUOTE], QuotedName(ty))];
    }

    method WriteFieldEnd()
      requires |tstack| >= 3 && IsDone(tstack[|tstack| - 1])
      requires tstack[|tstack| - 2].FieldInfo? && tstack[|tstack| - 3].Object?
      requires tpos != []
      modifies this`tstack, this`tpos
      ensures tpos == old(tpos[..|tpos| - 1])
      ensures var n := |old(tstack)| - 3;
              var info := old(tstack)[n + 1];
              var value := [LBRACE] + info.fieldType + [COLON] + Show(old(tstack)[n + 2]) + [RBRACE];
              tstack == old(tstack)[..n] + [Object(Put(old(tstack)[n].entries, info.fieldId, value))]
    {
      var value := tstack[|tstack| - 1];
      tstack := tstack[..|tstack| - 1];
      var info := tstack[|tstack| - 1];
      tstack := tstack[..|tstack| - 1];
      var n := |tstack| - 1;
      var text := [LBRACE] + info.fieldType + [COLON] + Show(value) + [RBRACE];
      tstack := tstack[n := Object(Put(tstack[n].entries, info.fieldId, text))];
      tpos := tpos[..|tpos| - 1];
    }

    method WriteMapBegin(kt: TType, vt: TType)
      requires HasName(kt) && HasName(vt)
      modifies this`tstack, this`tpos
      ensures tstack == old(tstack) + [Array([Text(QuotedName(kt)), Text(QuotedName(vt)), Number(0)])]
      ensures tpos == old(tpos) + [|old(tstack)|]
    {
      tpos := tpos + [|tstack|];
      tstack := tstack + [Array([Text(QuotedName(kt)), Text(QuotedName(vt)), Number(0)])];
    }

    /** Pops keys and values from the end, putting each pair in front of the text so far. */
    method PopEntries(p: nat) returns (text: ByteSeq)
      requires p < |tstack| && AllDone(tstack[p + 1..]) && |tstack[p + 1..]| % 2 == 0 && KeysOk(tstack[p + 1..])
      modifies this`tstack
      ensures tstack == old(tstack)[..p + 1]
      ensures text == Join(EntryTexts(old(tstack)[p + 1..])) + [RBRACE]
    {
      hide Join, EntryTexts, KeyText, Show, KeysOk, IsKeyItem;
      ghost var base, items := tstack[..p + 1], tstack[p + 1..];
      ghost var m: nat := |items|;
      var first := true;
      text := [RBRACE];
      KeysOkFrom(items, m);
      NoEntries(items[m..]);
      while |tstack| > p + 1
        invariant m <= |items| && m % 2 == 0 && |tstack| == p + 1 + m && tstack == base + items[..m]
        invariant first <==> m == |items|
        invariant KeysOk(items[m..]) && text == Join(EntryTexts(items[m..])) + [RBRACE]
      {
        var v := tstack[|tstack| - 1];
        var k := tstack[|tstack| - 2];
        assert k == items[m - 2] && v == items[m - 1];
        tstack := tstack[..|tstack| - 2];
        ghost var xs := items[m - 2..];
        KeysOkFrom(items, m - 2);
        assert xs[2..] == items[m..] && xs[0] == k && xs[1] == v && AllDone(xs);
        PrependEntry(xs);
        if first {
          first := false;
        } else {
          text := [COMMA] + text;
        }
        text := KeyText(k) + [COLON] + Show(v) + text;
        EntrySeams(KeyText(k) + [COLON] + Show(v), Join(EntryTexts(xs[2..])));
        m := m - 2;
      }
      assert items[0..] == items;
    }

    method WriteMapEnd()
      requires tpos != [] && Base() <= |tstack|
      requires Base() < |tstack| ==>
        && tstack[Base()].Array? && |tstack[Base()].parts| == 3 && AllDone(tstack[Base()].parts)
        && AllDone(tstack[Base() + 1..]) && KeysOk(tstack[Base() + 1..])
      modifies this`tstack, this`tpos
      ensures tpos == old(tpos[..|tpos| - 1])
      ensures tstack ==
              if old(Base()) == |old(tstack)| then old(tstack)
              else old(tstack[..Base()]) + [Text(old(MapText(tstack[Base()].parts, Padded(tstack[Base() + 1..]))))]
    {
      hide Join, EntryTexts, Show, KeysOk;
      var p := tpos[|tpos| - 1];
      tpos := tpos[..|tpos| - 1];
      if p == |tstack| {
        return;
      }
      ghost var parts, items := tstack[p].parts, Padded(tstack[p + 1..]);
      if (|tstack| - p - 1) % 2 != 0 {
        tstack := tstack + [Text([])];
      }
      var size := (|tstack| - p - 1) / 2;
      tstack := tstack[p := Array(tstack[p].parts[2 := Number(size)])];
      assert tstack[p + 1..] == items;
      var text := PopEntries(p);
      text := [LBRACE] + text;
      tstack := tstack[p := Array(tstack[p].parts + [Text(text)])];
      assert text == [LBRACE] + Join(EntryTexts(items)) + [RBRACE];
      assert tstack[p].parts == [parts[0], parts[1], Number(|items| / 2), Text(text)];
      tstack := tstack[p := Text([LBRACKET] + Join(Shown(tstack[p].parts)) + [RBRACKET])];
    }

    method WriteListBegin(et: TType, size: nat)
      requires HasName(et)
      modifies this`tstack, this`tpos
      ensures tstack == old(tstack) + [Array([Text(QuotedName(et)), Number(size)])]
      ensures tpos == old(tpos) + [|old(tstack)|]
    {
      tpos := tpos + [|tstack|];
      tstack := tstack + [Array([Text(QuotedName(et)), Number(size)])];
    }

    /** Moves what was written after the head into it, one by one from the front. */
    method WriteListEnd()
      requires tpos != [] && Base() < |tstack| && tstack[Base()].Array?
      requires AllDone(tstack[Base()].parts) && AllDone(tstack[Base() + 1..])
      modifies this`tstack, this`tpos
      ensures tpos == old(tpos[..|tpos| - 1])
      ensures tstack == old(tstack[..Base()]) + [Text(old(ListText(tstack[Base()].parts + tstack[Base() + 1..])))]
    {
      hide Join, Show;
      var p := tpos[|tpos| - 1];
      tpos := tpos[..|tpos| - 1];
      ghost var base, parts, items := tstack[..p], tstack[p].parts, tstack[p + 1..];
      ghost var k: nat := 0;
      assert parts + items[..k] == parts;
      while |tstack| > p + 1
        invariant tpos == old(tpos[..|tpos| - 1]) && |base| == p
        invariant k <= |items| && tstack == base + [Array(parts + items[..k])] + items[k..]
      {
        var tmpVal := tstack[p + 1];
        tstack := tstack[..p + 1] + tstack[p + 2..];
        tstack := tstack[p := Array(tstack[p].parts + [tmpVal])];
        assert (parts + items[..k]) + [items[k]] == parts + items[..k + 1];
        assert tstack[p + 1..] == items[k + 1..];
        k := k + 1;
      }
      assert items[..k] == items;
      tstack := tstack[p := Text([LBRACKET] + Join(Shown(tstack[p].parts)) + [RBRACKET])];
    }

    method WriteNumber(n: int)
      modifies this`tstack
      ensures tstack == old(tstack) + [Number(n)]
    {
      tstack := tstack + [Number(n)];
    }

    method WriteString(str: ByteSeq)
      modifies this`tstack
      ensures tstack == old(tstack) + [Text(Quoted(JavaScript, str))]
    {
      var escapedString := [];
      for i := 0 to |str|
        invariant tstack == old(tstack) && escapedString == Escape(JavaScript, str[..i])
      {
        var ch := str[i];
        assert str[..i + 1] == str[..i] + [ch];
        EscapeThen(JavaScript, str[..i], ch);
        if ch == QUOTE {
          escapedString := escapedString + [BACKSLASH, QUOTE];
        } else if ch == BACKSLASH {
          escapedString := escapedString + [BACKSLASH, BACKSLASH];
        } else if ch == 8 {
          escapedString := escapedString + [BACKSLASH, 98];
        } else if ch == 12 {
          escapedString := escapedString + [BACKSLASH, 102];
        } else if ch == 10 {
          escapedString := escapedString + [BACKSLASH, 110];
        } else if ch == 13 {
          escapedString := escapedString + [BACKSLASH, 114];
        } else if ch == 9 {
          escapedString := escapedString + [BACKSLASH, 116];
        } else {
          escapedString := escapedString + [ch];
        }
      }
      assert str[..|str|] == str;
      tstack := tstack + [Text([QUOTE] + escapedString + [QUOTE])];
    }

    // ---- writing values ---------------------------------------------------

    /** Written by any nesting of calls, a value leaves one more entry, its text, and the positions as they were. */
    method WriteValue(v: Value)
      requires Writable(v)
      modifies this`tstack, this`tpos
      ensures tstack == old(tstack) + [Finished(v)] && tpos == old(tpos)
      decreases v
    {
      hide Join, Decimal;
      match v {
        case VBool(b) => WriteNumber(if b then 1 else 0);
        case VByte(n) => WriteNumber(n);
        case VI16(n) => WriteNumber(n);
        case VI32(n) => WriteNumber(n);
        case VI64(n) => WriteNumber(n);
        case VString(s) => WriteString(s);
        case VStruct(fs) => WriteStruct(fs);
        case VList(et, es) =>
          WriteList(et, es);
        case VSet(et, es) =>
          WriteList(et, es);
        case VMap(kt, vt, es) =>
          WriteMap(kt, vt, es);
      }
    }

    method WriteStruct(fs: seq<Field>)
      requires DistinctIds(fs) && WritableFields(fs)
      modifies this`tstack, this`tpos
      ensures tstack == old(tstack) + [Text(InBraces(PrintFields(fs)))] && tpos == old(tpos)
      decreases fs, 1
    {
      hide Join, PrintFields, FinishedFields, InBraces, WritableFields, DistinctIds;
      ghost var base := tstack;
      NoFields();
      assert [] + fs == fs;
      WriteStructBegin();
      WriteFields(fs, base, []);
      assert [] + FinishedFields(fs) == FinishedFields(fs);
      FieldsPrinted(fs);
      WriteStructEnd();
    }

    method WriteFields(fs: seq<Field>, ghost base: seq<Item>, ghost before: seq<Field>)
      requires DistinctIds(before + fs) && WritableFields(before) && WritableFields(fs)
      requires tstack == base + [Object(FinishedFields(before))]
      modifies this`tstack, this`tpos
      ensures tstack == base + [Object(FinishedFields(before) + FinishedFields(fs))] && tpos == old(tpos)
      decreases fs, 0
    {
      hide *;
      FinishedFieldsStep(fs);
      if fs == [] {
        assert FinishedFields(before) + [] == FinishedFields(before);
        return;
      }
      NewId(before, fs);
      WriteField(fs[0], base, before);
      assert before + fs == (before + [fs[0]]) + fs[1..];
      FinishedFieldsThen(before, fs[0]);
      WriteFields(fs[1..], base, before + [fs[0]]);
      ghost var pairs, pair := FinishedFields(before), (FieldKey(fs[0].id), PrintField(fs[0]));
      assert (pairs + [pair]) + FinishedFields(fs[1..]) == pairs + ([pair] + FinishedFields(fs[1..]));
    }

    method WriteField(f: Field, ghost base: seq<Item>, ghost before: seq<Field>)
      requires WritableField(f) && WritableFields(before)
      requires forall i :: 0 <= i < |before| ==> before[i].id != f.id
      requires tstack == base + [Object(FinishedFields(before))]
      modifies this`tstack, this`tpos
      ensures tstack == base + [Object(FinishedFields(before) + [(FieldKey(f.id), PrintField(f))])] && tpos == old(tpos)
      decreases f
    {
      hide Join, FieldKey, FinishedFields;
      WriteFieldBegin(TypeOf(f.value), f.id);
      WriteValue(f.value);
      KeysBefore(before, f.id);
      PutNew(FinishedFields(before), FieldKey(f.id), PrintField(f));
      WriteFieldEnd();
    }

    method WriteList(et: TType, es: seq<Value>)
      requires HasName(et) && WritableElems(es)
      modifies this`tstack, this`tpos
      ensures tpos == old(tpos)
      ensures tstack == old(tstack) + [Text(InBrackets([QuotedName(et), Decimal(|es|)] + PrintElems(es)))]
      decreases es, 1
    {
      hide Join, Print, FinishedElems, Show;
      WriteListBegin(et, |es|);
      WriteElems(es);
      ListPrinted(et, es);
      assert tstack[|old(tstack)| + 1..] == FinishedElems(es);
      WriteListEnd();
    }

    method WriteElems(es: seq<Value>)
      requires WritableElems(es)
      modifies this`tstack, this`tpos
      ensures tstack == old(tstack) + FinishedElems(es) && tpos == old(tpos)
      decreases es, 0
    {
      hide *;
      FinishedElemsStep(es);
      if es == [] {
        return;
      }
      WriteValue(es[0]);
      WriteElems(es[1..]);
    }

    method WriteMap(kt: TType, vt: TType, es: seq<Entry>)
      requires HasName(kt) && HasName(vt) && WritableEntries(es)
      modifies this`tstack, this`tpos
      ensures tpos == old(tpos)
      ensures var parts := [QuotedName(kt), QuotedName(vt), Decimal(|es|), InBraces(PrintEntries(es))];
              tstack == old(tstack) + [Text(InBrackets(parts))]
      decreases es, 1
    {
      hide Join, FinishedEntries, Show, KeysOk, MapText, AllDone, IsKeyItem, PrintEntries, QuotedName, InBrackets,
           InBraces;
      WriteMapBegin(kt, vt);
      WriteEntries(es);
      MapPrinted(kt, vt, es);
      assert Padded(FinishedEntries(es)) == FinishedEntries(es);
      assert tstack[|old(tstack)| + 1..] == FinishedEntries(es);
      WriteMapEnd();
    }

    method WriteEntries(es: seq<Entry>)
      requires WritableEntries(es)
      modifies this`tstack, this`tpos
      ensures tstack == old(tstack) + FinishedEntries(es) && tpos == old(tpos)
      decreases es, 0
    {
      hide *;
      FinishedEntriesStep(es);
      if es == [] {
        return;
      }
      WriteEntry(es[0]);
      WriteEntries(es[1..]);
    }

    method WriteEntry(e: Entry)
      requires WritableEntry(e)
      modifies this`tstack, this`tpos
      ensures tstack == old(tstack) + [Finished(e.key), Finished(e.value)] && tpos == old(tpos)
      decreases e
    {
      WriteValue(e.key);
      WriteValue(e.value);
    }

    method WriteMessageBegin(name: ByteSeq, messageType: int, seqid: int)
      modifies this`tstack, this`tpos
      ensures tstack == [Array([Number(VERSION), Text(InQuotes(name)), Number(messageType), Number(seqid)])]
      ensures tpos == []
    {
      tstack, tpos := [], [];
      tstack := tstack + [Array([Number(VERSION), Text([QUOTE] + name + [QUOTE]), Number(messageType), Number(seqid)])];
    }

    method WriteMessageEnd()
      requires |tstack| >= 2 && IsDone(tstack[|tstack| - 1])
      requires tstack[|tstack| - 2].Array? && AllDone(tstack[|tstack| - 2].parts)
      modifies this`tstack, this`wbuf
      ensures tstack == old(tstack[..|tstack| - 2])
      ensures wbuf == old(ListText(tstack[|tstack| - 2].parts + [tstack[|tstack| - 1]]))
    {
      var obj := tstack[|tstack| - 1];
      tstack := tstack[..|tstack| - 1];
      var wobj := tstack[|tstack| - 1].parts;
      tstack := tstack[..|tstack| - 1];
      wobj := wobj + [obj];
      wbuf := [LBRACKET] + Join(Shown(wobj)) + [RBRACKET];
    }

    /** A whole message, whatever the stacks held before: the envelope's parts and the printed body. */
    method WriteMessage(h: Header, v: Value)
      requires Writable(v)
      modifies this
      ensures tstack == [] && tpos == [] && wbuf == PrintMessage(h, v)
    {
      hide Join, Print, Decimal;
      WriteMessageBegin(h.name, h.messageType, h.seqId);
      WriteValue(v);
      ghost var parts := [Number(VERSION), Text(InQuotes(h.name)), Number(h.messageType), Number(h.seqId), Finished(v)];
      assert tstack[0].parts + [tstack[1]] == parts;
      WriteMessageEnd();
      assert Shown(parts) == [Decimal(VERSION), InQuotes(h.name), Decimal(h.messageType), Decimal(h.seqId), Print(v)];
    }
  }
}
