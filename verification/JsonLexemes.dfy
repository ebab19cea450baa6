/** The texts of numbers and strings, and that reading them back gives them back. */
module JsonLexemes {
  import opened Bytes
  import opened JsonText
  import opened Json

  /** What may follow a value: the end, or a separator or a closing bracket. */
  predicate Delimited(s: ByteSeq) {
    s == [] || s[0] == COMMA || s[0] == COLON || s[0] == RBRACE || s[0] == RBRACKET
  }

  // ---- numbers ------------------------------------------------------------

  function NumberText(n: int, key: bool): ByteSeq {
    if key then [QUOTE] + Decimal(n) + [QUOTE] else Decimal(n)
  }

  lemma {:induction false} DigitsValueBack(n: nat)
    ensures DigitsValue(Digits(n)) == Some(n)
  {
    var d := Digits(n);
    if n >= 10 {
      DigitsValueBack(n / 10);
      assert d[..|d| - 1] == Digits(n / 10);
    } else {
      assert d[..|d| - 1] == [];
    }
  }

  lemma ParseIntBack(n: int)
    requires IsI64(n)
    ensures ParseInt(Decimal(n)) == n
  {
    if n < 0 {
      DigitsValueBack(-n);
      assert Decimal(n)[1..] == Digits(-n);
    } else {
      DigitsValueBack(n);
    }
  }

  lemma {:induction false} ScanDigits(d: ByteSeq, rest: ByteSeq, n: Scan, limit: nat)
    requires forall i :: 0 <= i < |d| ==> IsDigit(d[i])
    requires |n.buf| + |d| <= limit
    ensures ReadNumeric(d + rest, n, limit) ==
            ReadNumeric(rest, n.(buf := n.buf + d, mayBeSign := n.mayBeSign && d == []), limit)
    decreases |d|
  {
    if d == [] {
      assert d + rest == rest && n.buf + d == n.buf;
    } else {
      var n' := n.(buf := n.buf + [d[0]], mayBeSign := false);
      assert (d + rest)[1..] == d[1..] + rest;
      ScanDigits(d[1..], rest, n', limit);
      assert n'.buf + d[1..] == n.buf + d;
    }
  }

  lemma {:induction false} ScanTooMany(d: ByteSeq, rest: ByteSeq, n: Scan, limit: nat)
    requires forall i :: 0 <= i < |d| ==> IsDigit(d[i])
    requires |n.buf| + |d| > limit
    ensures ReadNumeric(d + rest, n, limit) == Err(SizeLimit)
    decreases |d|
  {
    if |n.buf| <= limit {
      assert (d + rest)[1..] == d[1..] + rest;
      ScanTooMany(d[1..], rest, n.(buf := n.buf + [d[0]], mayBeSign := false), limit);
    }
  }

  lemma ScanSign(t: ByteSeq, inQuotes: bool, limit: nat)
    ensures ReadNumeric([MINUS] + t, Scan([], false, true, false, inQuotes), limit) ==
            ReadNumeric(t, Scan([MINUS], false, false, false, inQuotes), limit)
  {
    assert ([MINUS] + t)[1..] == t;
    assert [] + [MINUS] == [MINUS];
  }

  lemma ScanDecimal(n: int, rest: ByteSeq, inQuotes: bool, limit: nat)
    ensures ReadNumeric(Decimal(n) + rest, Scan([], false, true, false, inQuotes), limit) ==
            if |Decimal(n)| <= limit then ReadNumeric(rest, Scan(Decimal(n), false, false, false, inQuotes), limit)
            else Err(SizeLimit)
  {
    hide Digits, ReadNumeric;
    var start := if n < 0 then Scan([MINUS], false, false, false, inQuotes) else Scan([], false, true, false, inQuotes);
    var d := Digits(if n < 0 then -n else n);
    if n < 0 {
      assert Decimal(n) + rest == [MINUS] + (d + rest);
      ScanSign(d + rest, inQuotes, limit);
    } else {
      assert [] + d == d;
    }
    if |Decimal(n)| <= limit {
      ScanDigits(d, rest, start, limit);
    } else {
      ScanTooMany(d, rest, start, limit);
    }
  }

  /**
   * A printed number, quoted or not, reads back and leaves what follows it, unless its digits (the quotes
   * are not counted) exceed the limit.
   */
  lemma ReadNumberBack(n: int, key: bool, rest: ByteSeq, limit: nat)
    requires IsI64(n) && Delimited(rest)
    ensures ReadNumber(NumberText(n, key) + rest, limit) ==
            if |Decimal(n)| <= limit then Ok((n, rest)) else Err(SizeLimit)
  {
    hide ParseInt, Decimal;
    DecimalStarts(n);
    if key {
      var after := [QUOTE] + rest;
      assert (NumberText(n, key) + rest)[1..] == Decimal(n) + after;
      ScanDecimal(n, after, true, limit);
      assert after[1..] == rest;
    } else {
      ScanDecimal(n, rest, false, limit);
    }
    ParseIntBack(n);
  }

  lemma DecimalStarts(n: int)
    ensures Decimal(n) != [] && (Decimal(n)[0] == MINUS || IsDigit(Decimal(n)[0]))
  {
  }

  // ---- what a string is ---------------------------------------------------

  predicate IsShortEscape(c: Byte) {
    || c == QUOTE || c == BACKSLASH || c == 47
    || c == 98 || c == 102 || c == 110 || c == 114 || c == 116
  }

  predicate IsHex(c: Byte) { ZERO <= c <= ZERO + 9 || 97 <= c <= 102 || 65 <= c <= 70 }

  /** The grammar of section 7 of RFC 8259 for what stands between the quotes. */
  predicate WellFormed(s: ByteSeq)
    decreases |s|
  {
    if s == [] then true
    else if s[0] != BACKSLASH then s[0] >= 32 && s[0] != QUOTE && WellFormed(s[1..])
    else if |s| >= 2 && IsShortEscape(s[1]) then WellFormed(s[2..])
    else
      && |s| >= 6 && s[1] == 117
      && IsHex(s[2]) && IsHex(s[3]) && IsHex(s[4]) && IsHex(s[5])
      && WellFormed(s[6..])
  }

  lemma CodeUnitIs(s: ByteSeq)
    ensures CodeUnit(s).Some? <==>
            && |s| >= 6 && s[0] == BACKSLASH && s[1] == 117
            && IsHex(s[2]) && IsHex(s[3]) && IsHex(s[4]) && IsHex(s[5])
  {
  }

  /** Unquoting succeeds on exactly the strings the grammar allows. */
  lemma {:induction false} UnescapeIffWellFormed(s: ByteSeq)
    ensures Unescape(s).Some? <==> WellFormed(s)
    decreases |s|
  {
    hide CodeUnit, DecodeUnit, IsHex;
    if s != [] {
      CodeUnitIs(s);
      var x := UnescapeOne(s);
      if x.Some? {
        UnescapeIffWellFormed(s[x.value.1..]);
        if x.value.1 == 12 {
          CodeUnitIs(s[6..]);
          assert s[6..][6..] == s[12..];
        }
      }
    }
  }

  // ---- strings as they are written ----------------------------------------

  /** A control byte without a short escape: the JavaScript side writes it as it is. */
  predicate IsBareControl(b: Byte) { b < 32 && b != 8 && b != 9 && b != 10 && b != 12 && b != 13 }

  predicate NoBareControl(s: ByteSeq) { forall i :: 0 <= i < |s| ==> !IsBareControl(s[i]) }

  /** What the reader takes: anything from the Go side, no bare control byte from the other. */
  predicate Legible(style: Style, s: ByteSeq) { style.Go? || NoBareControl(s) }

  lemma UnescapeByte(style: Style, b: Byte, rest: ByteSeq)
    ensures UnescapeOne(EscapeByte(style, b) + rest) ==
            if style.JavaScript? && IsBareControl(b) then None else Some(([b], |EscapeByte(style, b)|))
  {
  }

  /** Unescaping undoes escaping, and fails exactly on a bare control byte. */
  lemma {:induction false} UnescapeEscape(style: Style, s: ByteSeq)
    ensures Unescape(Escape(style, s)) == if Legible(style, s) then Some(s) else None
    decreases s
  {
    hide UnescapeOne, EscapeByte, IsBareControl;
    if s != [] {
      var e, t := EscapeByte(style, s[0]), Escape(style, s[1..]);
      UnescapeByte(style, s[0], t);
      assert (e + t)[|e|..] == t;
      UnescapeEscape(style, s[1..]);
      assert s == [s[0]] + s[1..];
      assert NoBareControl(s) <==> !IsBareControl(s[0]) && NoBareControl(s[1..]);
    }
  }

  lemma {:induction false} EscapeThen(style: Style, s: ByteSeq, b: Byte)
    ensures Escape(style, s + [b]) == Escape(style, s) + EscapeByte(style, b)
    decreases |s|
  {
    hide EscapeByte;
    var last := EscapeByte(style, b);
    if s == [] {
      assert s + [b] == [b] && [b][1..] == [];
      assert last + [] == [] + last;
    } else {
      EscapeThen(style, s[1..], b);
      assert (s + [b])[1..] == s[1..] + [b];
      var first, mid := EscapeByte(style, s[0]), Escape(style, s[1..]);
      assert first + (mid + last) == (first + mid) + last;
    }
  }

  lemma {:induction false} QuoteEscaped(style: Style, s: ByteSeq)
    ensures QUOTE in Escape(style, s) <==> QUOTE in s
    decreases s
  {
    if s != [] {
      QuoteEscaped(style, s[1..]);
      assert QUOTE in EscapeByte(style, s[0]) <==> s[0] == QUOTE;
      assert s == [s[0]] + s[1..];
    }
  }

  lemma {:induction false} CloseOverPlain(text: ByteSeq, i: nat, j: nat)
    requires i <= j <= |text| && forall k :: i <= k < j ==> text[k] != QUOTE && text[k] != BACKSLASH
    ensures Close(text, i, false) == Close(text, j, false)
    decreases j - i
  {
    if i < j {
      CloseOverPlain(text, i + 1, j);
    }
  }

  lemma CloseOverByte(style: Style, text: ByteSeq, i: nat, b: Byte)
    requires i + |EscapeByte(style, b)| <= |text| && text[i..i + |EscapeByte(style, b)|] == EscapeByte(style, b)
    ensures Close(text, i, false) == Close(text, i + |EscapeByte(style, b)|, false)
  {
    var e := EscapeByte(style, b);
    assert forall k :: 0 <= k < |e| ==> text[i + k] == e[k];
    assert text[i] == e[0];
    if |e| > 1 {
      assert text[i + 1] == e[1];
      assert Close(text, i, false) == Close(text, i + 1, true) == Close(text, i + 2, false);
      if |e| > 2 {
        assert text[i + 2] == e[2] && text[i + 3] == e[3] && text[i + 4] == e[4] && text[i + 5] == e[5];
        CloseOverPlain(text, i + 2, i + 6);
      }
    }
  }

  lemma CloseHere(text: ByteSeq, i: nat)
    requires i < |text| && text[i] == QUOTE
    ensures Close(text, i, false) == Some(i)
  {
  }

  /** No quote inside an escaped text ends it. */
  lemma {:induction false} CloseOverEscaped(style: Style, text: ByteSeq, i: nat, s: ByteSeq)
    requires i + |Escape(style, s)| < |text| && text[i..i + |Escape(style, s)|] == Escape(style, s)
    requires text[i + |Escape(style, s)|] == QUOTE
    ensures Close(text, i, false) == Some(i + |Escape(style, s)|)
    decreases s
  {
    hide EscapeByte, Close;
    if s == [] {
      CloseHere(text, i);
    } else {
      var e, t := EscapeByte(style, s[0]), Escape(style, s[1..]);
      assert text[i..i + |e|] == (e + t)[..|e|] == e;
      assert text[i + |e|..i + |e| + |t|] == (e + t)[|e|..] == t;
      CloseOverByte(style, text, i, s[0]);
      CloseOverEscaped(style, text, i + |e|, s[1..]);
    }
  }

  // ---- reading a string ---------------------------------------------------

  /** The pieces of the string that s starts with, which the forward scanner closes at p, are within the limit. */
  predicate PiecesFit(s: ByteSeq, p: nat, limit: nat)
    requires 1 <= p <= |s|
  {
    var q := Find(s, 1, QUOTE);
    q <= limit && p - q <= limit
  }

  /**
   * Any input that starts with a quote. Without a closing quote it is refused. With one it is refused when a
   * piece is over the limit. Otherwise a well-formed string gives what it stands for; a malformed one is
   * refused when a quote occurs inside it, and when none does it is read as empty, without an error.
   */
  lemma ReadTextExactly(s: ByteSeq, limit: nat)
    requires s != [] && s[0] == QUOTE
    ensures match Close(s, 1, false)
            case None => ReadText(s, limit).Err?
            case Some(p) =>
              && (!PiecesFit(s, p, limit) ==> ReadText(s, limit) == Err(SizeLimit))
              && (PiecesFit(s, p, limit) && WellFormed(s[1..p]) ==>
                    Unescape(s[1..p]).Some? && ReadText(s, limit) == Ok((Unescape(s[1..p]).value, s[p + 1..])))
              && (PiecesFit(s, p, limit) && !WellFormed(s[1..p]) ==>
                    ReadText(s, limit) == if QUOTE in s[1..p] then Err(InvalidData) else Ok(([], s[p + 1..])))
  {
    hide Close, Find, StringBody, Unescape, WellFormed;
    StringBodyEnds(s, 1, limit);
    if Close(s, 1, false).Some? {
      var p := Close(s, 1, false).value;
      UnescapeIffWellFormed(s[1..p]);
      FirstQuote(s, p);
    }
  }

  lemma FirstQuote(s: ByteSeq, p: nat)
    requires 1 <= p < |s| && s[p] == QUOTE
    ensures Find(s, 1, QUOTE) <= p
    ensures Find(s, 1, QUOTE) == p <==> QUOTE !in s[1..p]
  {
    var q := Find(s, 1, QUOTE);
    if q < p {
      assert s[1..p][q - 1] == QUOTE;
    } else {
      assert forall i :: 0 <= i < |s[1..p]| ==> s[1..p][i] == s[1 + i];
    }
  }

  /**
   * A string that has a closing quote and fits is read without an error if and only if it is well-formed or
   * has no quote inside; in the second case what is returned is empty whatever was sent.
   */
  lemma ReadWithoutError(s: ByteSeq, p: nat, limit: nat)
    requires s != [] && s[0] == QUOTE && Close(s, 1, false) == Some(p) && PiecesFit(s, p, limit)
    ensures ReadText(s, limit).Ok? <==> WellFormed(s[1..p]) || QUOTE !in s[1..p]
    ensures !WellFormed(s[1..p]) && ReadText(s, limit).Ok? ==> ReadText(s, limit) == Ok(([], s[p + 1..]))
  {
    hide Close, Find, ReadText, Unescape, WellFormed, PiecesFit;
    ReadTextExactly(s, limit);
  }

  /** The string "\x" is malformed; it is read as the empty string, and nothing reports it. */
  lemma MalformedReadsAsEmpty(limit: nat)
    requires limit >= 3
    ensures !WellFormed([BACKSLASH, 120])
    ensures ReadText([QUOTE, BACKSLASH, 120, QUOTE], limit) == Ok(([], []))
  {
    var s := [QUOTE, BACKSLASH, 120, QUOTE];
    assert s[1..3] == [BACKSLASH, 120];
    assert Close(s, 1, false) == Close(s, 2, true) == Close(s, 3, false) == Some(3);
    assert Find(s, 1, QUOTE) == Find(s, 2, QUOTE) == Find(s, 3, QUOTE) == 3;
    ReadTextExactly(s, limit);
  }

  /** The string "\u00e9" is well-formed and stands for the two bytes of its character. */
  lemma WideEscapeReads(limit: nat)
    requires limit >= 7
    ensures ReadText([QUOTE, BACKSLASH, 117, ZERO, ZERO, 101, 57, QUOTE], limit) == Ok(([0xc3, 0xa9], []))
  {
    var s := [QUOTE, BACKSLASH, 117, ZERO, ZERO, 101, 57, QUOTE];
    var body := [BACKSLASH, 117, ZERO, ZERO, 101, 57];
    assert s[1..7] == body && body[6..] == [];
    assert Close(s, 1, false) == Close(s, 2, true) == Close(s, 3, false);
    CloseOverPlain(s, 3, 7);
    CloseHere(s, 7);
    FirstQuote(s, 7);
    assert UnescapeOne(body) == Some(([0xc3, 0xa9], 6));
    assert [0xc3, 0xa9] + [] == [0xc3, 0xa9];
    assert Unescape(body) == Some([0xc3, 0xa9]);
    assert QUOTE !in body && PiecesFit(s, 7, limit) && s[8..] == [];
    UnescapeIffWellFormed(body);
    ReadTextExactly(s, limit);
  }

  lemma {:induction false} FindSame(s: ByteSeq, t: ByteSeq, i: nat, k: nat)
    requires i <= |s| && i + k <= |t| && |s| <= |t| - k && t[k..k + |s|] == s && QUOTE in s[i..]
    ensures Find(t, i + k, QUOTE) == Find(s, i, QUOTE) + k
    decreases |s| - i
  {
    assert t[i + k] == t[k..k + |s|][i] == s[i];
    if s[i] != QUOTE {
      FindSame(s, t, i + 1, k);
    }
  }

  /** The reader's two limits: on the bytes up to the first quote, and on those after it. */
  predicate TextFits(style: Style, s: ByteSeq, limit: nat) {
    var body := Escape(style, s) + [QUOTE];
    var q := Find(body, 0, QUOTE);
    q + 1 <= limit && |Escape(style, s)| - q <= limit
  }

  /** What a written string reads back as. */
  function TextArrives(style: Style, s: ByteSeq, limit: nat): Result<ByteSeq> {
    if !TextFits(style, s, limit) then Err(SizeLimit)
    else if Legible(style, s) then Ok(s)
    else if QUOTE in s then Err(InvalidData)
    else Ok([])
  }

  /**
   * A written string in front of any bytes. Within the limits it comes back if and only if it has no bare
   * control byte from the JavaScript side; with one it is refused, or lost when it has no quote in it.
   */
  lemma ReadTextBack(style: Style, s: ByteSeq, rest: ByteSeq, limit: nat)
    ensures ReadText(Quoted(style, s) + rest, limit) ==
            match TextArrives(style, s, limit) case Err(e) => Err(e) case Ok(t) => Ok((t, rest))
  {
    hide Close, Escape, Unescape, Find, ReadText, WellFormed, Legible;
    var text, body, e := Quoted(style, s) + rest, Escape(style, s) + [QUOTE], 1 + |Escape(style, s)|;
    assert text[1..e] == Escape(style, s) && text[e] == QUOTE && text[e + 1..] == rest && text[1..1 + |body|] == body;
    CloseOverEscaped(style, text, 1, s);
    assert body[|Escape(style, s)|] == QUOTE;
    FindSame(body, text, 0, 1);
    assert PiecesFit(text, e, limit) <==> TextFits(style, s, limit);
    UnescapeEscape(style, s);
    UnescapeIffWellFormed(Escape(style, s));
    QuoteEscaped(style, s);
    ReadTextExactly(text, limit);
  }
}
