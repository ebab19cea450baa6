/** Where a quoted JSON string ends: the forward scanner and the parser's piecewise test. */
module JsonText {
  import opened Bytes

  const QUOTE: Byte := 34
  const BACKSLASH: Byte := 92

  /**
   * The left-to-right scanner of section 7 of RFC 8259, from position i: the position of the quote that
   * closes the string, where a backslash takes the byte after it out of consideration.
   */
  function Close(s: ByteSeq, i: nat, escaped: bool): (p: Option<nat>)
    requires i <= |s|
    ensures p.Some? ==> i <= p.value < |s| && s[p.value] == QUOTE
    decreases |s| - i
  {
    if i == |s| then None
    else if escaped then Close(s, i + 1, false)
    else if s[i] == QUOTE then Some(i)
    else Close(s, i + 1, s[i] == BACKSLASH)
  }

  /** The first position of c from i on, or the end. */
  function Find(s: ByteSeq, i: nat, c: Byte): (q: nat)
    requires i <= |s|
    ensures i <= q <= |s| && (q < |s| ==> s[q] == c)
    ensures forall j :: i <= j < q ==> s[j] != c
    decreases |s| - i
  {
    if i == |s| || s[i] == c then i else Find(s, i + 1, c)
  }

  /** How many backslashes the bytes from lo to hi end with. */
  function Trailing(s: ByteSeq, lo: nat, hi: nat): nat
    requires lo <= hi <= |s|
    decreases hi
  {
    if lo == hi || s[hi - 1] != BACKSLASH then 0 else 1 + Trailing(s, lo, hi - 1)
  }

  /** The parser's test on the piece from lo to a quote at hi: an even run of backslashes before it. */
  predicate EndsUnescaped(s: ByteSeq, lo: nat, hi: nat)
    requires lo <= hi <= |s|
  {
    Trailing(s, lo, hi) % 2 == 0
  }

  /** The scanner's state after the bytes from lo to hi, none of them a quote. */
  function StateAfter(s: ByteSeq, lo: nat, hi: nat): bool
    requires lo <= hi <= |s|
    decreases hi
  {
    lo < hi && !StateAfter(s, lo, hi - 1) && s[hi - 1] == BACKSLASH
  }

  /** Looking backwards at the run of backslashes finds the state a forward scan would be in. */
  lemma {:induction false} StateIsParity(s: ByteSeq, lo: nat, hi: nat)
    requires lo <= hi <= |s|
    ensures StateAfter(s, lo, hi) <==> !EndsUnescaped(s, lo, hi)
    decreases hi
  {
    if lo < hi {
      StateIsParity(s, lo, hi - 1);
    }
  }

  lemma {:induction false} CloseSkips(s: ByteSeq, lo: nat, hi: nat)
    requires lo <= hi <= |s| && forall j :: lo <= j < hi ==> s[j] != QUOTE
    ensures Close(s, lo, false) == Close(s, hi, StateAfter(s, lo, hi))
    decreases hi
  {
    if lo < hi {
      CloseSkips(s, lo, hi - 1);
    }
  }

  /** One piece: the first quote closes the string, or is escaped and the scan starts afresh after it. */
  lemma CloseByPieces(s: ByteSeq, i: nat)
    requires i <= |s|
    ensures var q := Find(s, i, QUOTE);
            Close(s, i, false) ==
            if q == |s| then None else if EndsUnescaped(s, i, q) then Some(q) else Close(s, q + 1, false)
  {
    var q := Find(s, i, QUOTE);
    CloseSkips(s, i, q);
    StateIsParity(s, i, q);
  }

  // ---- reading a quoted string in pieces ----------------------------------

  /** The position of delim from i on, unless getting there takes more than limit bytes. */
  function Bounded(s: ByteSeq, i: nat, delim: Byte, limit: nat): (x: Result<nat>)
    requires i <= |s|
    ensures x.Ok? ==> i <= x.value < |s|
  {
    var q := Find(s, i, delim);
    if (if q < |s| then q + 1 else q) - i > limit then Err(SizeLimit)
    else if q == |s| then Err(EndOfFile)
    else Ok(q)
  }

  /** Pieces from i on until one ends the string; sofar bytes have been taken before. */
  function QuotedBody(s: ByteSeq, i: nat, sofar: nat, limit: nat): (x: Result<nat>)
    requires i <= |s|
    ensures x.Ok? ==> i <= x.value < |s|
    decreases |s| - i
  {
    var q :- Bounded(s, i, QUOTE, limit);
    var total := sofar + (q + 1 - i);
    if total > limit then Err(SizeLimit)
    else if EndsUnescaped(s, i, q) then Ok(q)
    else QuotedBody(s, q + 1, total, limit)
  }

  /** The position of the quote that ends the string whose opening quote is just before i. */
  function StringBody(s: ByteSeq, i: nat, limit: nat): (x: Result<nat>)
    requires i <= |s|
    ensures x.Ok? ==> i <= x.value < |s|
  {
    var q :- Bounded(s, i, QUOTE, limit);
    if EndsUnescaped(s, i, q) then Ok(q) else QuotedBody(s, q + 1, 0, limit)
  }

  lemma {:induction false} QuotedBodyEnds(s: ByteSeq, i: nat, sofar: nat, limit: nat)
    requires i <= |s| && sofar <= limit
    ensures match Close(s, i, false)
            case None => QuotedBody(s, i, sofar, limit).Err?
            case Some(p) =>
              QuotedBody(s, i, sofar, limit) == if sofar + (p + 1 - i) <= limit then Ok(p) else Err(SizeLimit)
    decreases |s| - i
  {
    hide Close, Find, EndsUnescaped;
    CloseByPieces(s, i);
    var q := Find(s, i, QUOTE);
    if q < |s| && !EndsUnescaped(s, i, q) && sofar + (q + 1 - i) <= limit {
      QuotedBodyEnds(s, q + 1, sofar + (q + 1 - i), limit);
    }
  }

  /**
   * The piecewise reader stops exactly where the forward scanner stops. The size limit is applied to the
   * part up to the first quote and to the part after it, each on its own: a string is refused exactly when
   * one of the two is too long.
   */
  lemma StringBodyEnds(s: ByteSeq, i: nat, limit: nat)
    requires i <= |s|
    ensures var q := Find(s, i, QUOTE);
            match Close(s, i, false)
            case None => StringBody(s, i, limit).Err?
            case Some(p) =>
              StringBody(s, i, limit) == if q + 1 - i <= limit && p - q <= limit then Ok(p) else Err(SizeLimit)
  {
    hide Close, Find, EndsUnescaped;
    CloseByPieces(s, i);
    var q := Find(s, i, QUOTE);
    if q < |s| && !EndsUnescaped(s, i, q) {
      QuotedBodyEnds(s, q + 1, 0, limit);
    }
  }

  lemma {:induction false} FindAt(s: ByteSeq, i: nat, q: nat)
    requires i <= q < |s| && s[q] == QUOTE && forall j :: i <= j < q ==> s[j] != QUOTE
    ensures Find(s, i, QUOTE) == q
    decreases q - i
  {
    if i < q {
      FindAt(s, i + 1, q);
    }
  }

  /** No string that is accepted is longer than twice the limit. */
  lemma AtMostTwiceTheLimit(s: ByteSeq, i: nat, limit: nat)
    requires i <= |s| && StringBody(s, i, limit).Ok?
    ensures StringBody(s, i, limit).value + 1 - i <= 2 * limit
  {
    hide Close, Find, StringBody;
    StringBodyEnds(s, i, limit);
  }

  /** A string as long as the two parts together may be: an escaped quote ends the first. */
  function TwoParts(limit: nat): ByteSeq
    requires limit >= 2
  {
    seq(2 * limit, k =>
      if k == limit - 2 then BACKSLASH else if k == limit - 1 || k == 2 * limit - 1 then QUOTE else 97)
  }

  /** For every limit there is a string of exactly twice that size that is accepted. */
  lemma TwiceTheLimitAccepted(limit: nat)
    requires limit >= 2
    ensures |TwoParts(limit)| == 2 * limit && StringBody(TwoParts(limit), 0, limit) == Ok(2 * limit - 1)
  {
    var s, q, p := TwoParts(limit), limit - 1, 2 * limit - 1;
    FindAt(s, 0, q);
    assert Trailing(s, 0, q - 1) == 0;
    assert Trailing(s, 0, q) == 1;
    FindAt(s, q + 1, p);
    assert Trailing(s, q + 1, p) == 0;
    CloseByPieces(s, 0);
    CloseByPieces(s, q + 1);
    StringBodyEnds(s, 0, limit);
  }

  // ---- the loops ----------------------------------------------------------

  /** Counts backwards from the closing quote of a piece. */
  method EndsWithoutEscapedQuote(s: ByteSeq) returns (unescaped: bool)
    requires s != []
    ensures unescaped == EndsUnescaped(s, 0, |s| - 1)
  {
    var l, i := |s|, 1;
    while i < l && s[l - i - 1] == BACKSLASH
      invariant 1 <= i <= l
      invariant Trailing(s, 0, l - 1) == i - 1 + Trailing(s, 0, l - i)
    {
      i := i + 1;
    }
    unescaped := i % 2 == 1;
  }

  lemma {:induction false} TrailingOfPiece(s: ByteSeq, lo: nat, hi: nat, k: nat)
    requires lo <= k <= hi < |s|
    ensures Trailing(s[lo..hi + 1], 0, k - lo) == Trailing(s, lo, k)
    decreases k
  {
    if lo < k {
      TrailingOfPiece(s, lo, hi, k - 1);
    }
  }

  lemma {:induction false} FindLater(s: ByteSeq, i: nat, j: nat, c: Byte)
    requires i <= j <= |s| && forall k :: i <= k < j ==> s[k] != c
    ensures Find(s, i, c) == Find(s, j, c)
    decreases j - i
  {
    if i < j {
      FindLater(s, i + 1, j, c);
    }
  }

  /** Reads up to delim through a buffer that hands over pieces of any size, checking the size after each. */
  method ReadBinaryBounded(s: ByteSeq, i: nat, delim: Byte, limit: nat) returns (end: nat, error: Option<Error>)
    requires i <= |s|
    ensures match Bounded(s, i, delim, limit)
            case Err(e) => error == Some(e)
            case Ok(q) => error == None && end == q + 1
  {
    end, error := i, None;
    while true
      invariant i <= end <= |s| && end - i <= limit && error == None
      invariant forall k :: i <= k < end ==> s[k] != delim
      decreases |s| - end
    {
      var q := Find(s, end, delim);
      FindLater(s, i, end, delim);
      var stop := if q < |s| then q + 1 else q;
      if end < stop {
        var n: nat :| end < n <= stop;
        end := n;
      }
      if end - i > limit {
        error := Some(SizeLimit);
        return;
      }
      if end == stop {
        error := if q < |s| then None else Some(EndOfFile);
        return;
      }
    }
  }

  /** The next piece, up to a quote, and whether that quote ends the string. */
  method NextPiece(s: ByteSeq, i: nat, limit: nat) returns (end: nat, done: bool, error: Option<Error>)
    requires i <= |s|
    ensures match Bounded(s, i, QUOTE, limit)
            case Err(e) => error == Some(e)
            case Ok(q) => error == None && end == q + 1 && done == EndsUnescaped(s, i, q)
  {
    hide Find, Trailing;
    done := false;
    end, error := ReadBinaryBounded(s, i, QUOTE, limit);
    if error == None {
      TrailingOfPiece(s, i, end - 1, end - 1);
      done := EndsWithoutEscapedQuote(s[i..end]);
    }
  }

  /** Finds the end of a string piece by piece, testing each piece on its own. */
  method ReadStringBody(s: ByteSeq, i: nat, limit: nat) returns (end: nat, onePiece: bool, error: Option<Error>)
    requires i <= |s|
    ensures match StringBody(s, i, limit)
            case Err(e) => error == Some(e)
            case Ok(p) => error == None && end == p + 1 && onePiece == (p == Find(s, i, QUOTE))
  {
    hide Find, EndsUnescaped;
    end, onePiece, error := NextPiece(s, i, limit);
    if error != None || onePiece {
      return;
    }
    ghost var start := end;
    var total: nat, done := 0, false;
    while !done
      invariant start <= end <= |s| && error == None
      invariant if done then QuotedBody(s, start, 0, limit) == Ok(end - 1)
                else QuotedBody(s, end, total, limit) == QuotedBody(s, start, 0, limit)
      decreases |s| - end, !done
    {
      var before := end;
      end, done, error := NextPiece(s, before, limit);
      if error != None {
        return;
      }
      total := total + (end - before);
      if total > limit {
        error := Some(SizeLimit);
        return;
      }
    }
  }
}
