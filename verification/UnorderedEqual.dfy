/** Comparing slices that stand for unordered collections. */
module UnorderedEqual {

  ghost predicate Equivalence<T(!new)>(eq: (T, T) -> bool) {
    && (forall x :: eq(x, x))
    && (forall x, y :: eq(x, y) ==> eq(y, x))
    && (forall x, y, z :: eq(x, y) && eq(y, z) ==> eq(x, z))
  }

  /** How many elements of s are equal to x. */
  function Count<T>(eq: (T, T) -> bool, s: seq<T>, x: T): nat {
    if s == [] then 0 else (if eq(x, s[|s| - 1]) then 1 else 0) + Count(eq, s[..|s| - 1], x)
  }

  /** The same elements with the same multiplicities, in any order. */
  ghost predicate SameElements<T(!new)>(eq: (T, T) -> bool, a: seq<T>, b: seq<T>) {
    forall x :: Count(eq, a, x) == Count(eq, b, x)
  }

  /** How many marked elements of s are equal to x. */
  function Tally<T>(eq: (T, T) -> bool, s: seq<T>, marks: seq<bool>, x: T): nat
    requires |s| == |marks|
  {
    if s == [] then 0
    else
      (if marks[|s| - 1] && eq(x, s[|s| - 1]) then 1 else 0) + Tally(eq, s[..|s| - 1], marks[..|s| - 1], x)
  }

  function Marked(marks: seq<bool>): nat {
    if marks == [] then 0 else (if marks[|marks| - 1] then 1 else 0) + Marked(marks[..|marks| - 1])
  }

  lemma {:induction false} CountAppend<T>(eq: (T, T) -> bool, a: seq<T>, b: seq<T>, x: T)
    ensures Count(eq, a + b, x) == Count(eq, a, x) + Count(eq, b, x)
    decreases |b|
  {
    if b == [] {
      assert a + b == a;
    } else {
      CountAppend(eq, a, b[..|b| - 1], x);
      assert (a + b)[..|a + b| - 1] == a + b[..|b| - 1];
    }
  }

  lemma {:induction false} PairedCount<T(!new)>(eq: (T, T) -> bool, a: seq<T>, b: seq<T>, x: T)
    requires Equivalence(eq) && |a| == |b| && forall i :: 0 <= i < |a| ==> eq(a[i], b[i])
    ensures Count(eq, a, x) == Count(eq, b, x)
    decreases |a|
  {
    if a != [] {
      PairedCount(eq, a[..|a| - 1], b[..|b| - 1], x);
      assert eq(a[|a| - 1], b[|a| - 1]);
    }
  }

  /** A pair that is equal may be taken off both sides. */
  lemma PrefixDropped<T(!new)>(eq: (T, T) -> bool, a: seq<T>, b: seq<T>, n: nat)
    requires Equivalence(eq) && n <= |a| == |b| && forall i :: 0 <= i < n ==> eq(a[i], b[i])
    ensures SameElements(eq, a, b) <==> SameElements(eq, a[n..], b[n..])
  {
    forall x ensures Count(eq, a, x) - Count(eq, b, x) == Count(eq, a[n..], x) - Count(eq, b[n..], x) {
      CountAppend(eq, a[..n], a[n..], x);
      CountAppend(eq, b[..n], b[n..], x);
      PairedCount(eq, a[..n], b[..n], x);
      assert a[..n] + a[n..] == a && b[..n] + b[n..] == b;
    }
  }

  lemma {:induction false} TallyMarkingOne<T>(eq: (T, T) -> bool, s: seq<T>, marks: seq<bool>, j: nat, x: T)
    requires |s| == |marks| && j < |s| && !marks[j]
    ensures Tally(eq, s, marks[j := true], x) == Tally(eq, s, marks, x) + if eq(x, s[j]) then 1 else 0
    ensures Marked(marks[j := true]) == Marked(marks) + 1
    decreases |s|
  {
    var n := |s| - 1;
    if j == n {
      assert marks[j := true][..n] == marks[..n];
    } else {
      TallyMarkingOne(eq, s[..n], marks[..n], j, x);
      assert marks[j := true][..n] == marks[..n][j := true];
    }
  }

  lemma {:induction false} TallyOfNothing<T>(eq: (T, T) -> bool, s: seq<T>, marks: seq<bool>, x: T)
    requires |s| == |marks| && forall j :: 0 <= j < |s| ==> !marks[j]
    ensures Tally(eq, s, marks, x) == 0 && Marked(marks) == 0
    decreases |s|
  {
    if s != [] {
      TallyOfNothing(eq, s[..|s| - 1], marks[..|s| - 1], x);
    }
  }

  /** Marks that cover every equal element tally to the count. */
  lemma {:induction false} TallyOfAll<T>(eq: (T, T) -> bool, s: seq<T>, marks: seq<bool>, x: T)
    requires |s| == |marks| && forall j :: 0 <= j < |s| && !marks[j] ==> !eq(x, s[j])
    ensures Tally(eq, s, marks, x) == Count(eq, s, x)
    decreases |s|
  {
    if s != [] {
      TallyOfAll(eq, s[..|s| - 1], marks[..|s| - 1], x);
    }
  }

  lemma {:induction false} MarkedAtMost(marks: seq<bool>)
    ensures Marked(marks) <= |marks|
    ensures Marked(marks) == |marks| ==> forall j :: 0 <= j < |marks| ==> marks[j]
  {
    if marks != [] {
      MarkedAtMost(marks[..|marks| - 1]);
    }
  }

  /** The first i elements of a are matched one to one with the marked elements of b. */
  ghost predicate Matching<T(!new)>(eq: (T, T) -> bool, a: seq<T>, b: seq<T>, marks: seq<bool>, i: nat) {
    && i <= |a| && |marks| == |b| && Marked(marks) == i
    && forall x :: Tally(eq, b, marks, x) == Count(eq, a[..i], x)
  }

  lemma MatchingStarts<T(!new)>(eq: (T, T) -> bool, a: seq<T>, b: seq<T>, marks: seq<bool>)
    requires |marks| == |b| && forall j :: 0 <= j < |marks| ==> !marks[j]
    requires a != []
    ensures Matching(eq, a, b, marks, 0)
  {
    TallyOfNothing(eq, b, marks, a[0]);
    forall x ensures Tally(eq, b, marks, x) == Count(eq, a[..0], x) {
      TallyOfNothing(eq, b, marks, x);
    }
  }

  lemma MatchingGrows<T(!new)>(eq: (T, T) -> bool, a: seq<T>, b: seq<T>, marks: seq<bool>, i: nat, j: nat)
    requires Equivalence(eq) && Matching(eq, a, b, marks, i) && i < |a|
    requires j < |b| && !marks[j] && eq(a[i], b[j])
    ensures Matching(eq, a, b, marks[j := true], i + 1)
  {
    TallyMarkingOne(eq, b, marks, j, a[i]);
    var marks', front := marks[j := true], a[..i + 1];
    forall x ensures Tally(eq, b, marks', x) == Count(eq, front, x) {
      TallyMarkingOne(eq, b, marks, j, x);
      assert front[..i] == a[..i] && front[i] == a[i];
      assert eq(x, a[i]) <==> eq(x, b[j]);
    }
  }

  /** An element with no partner left occurs more often in a than in b. */
  lemma Unmatched<T(!new)>(eq: (T, T) -> bool, a: seq<T>, b: seq<T>, marks: seq<bool>, i: nat)
    requires Equivalence(eq) && Matching(eq, a, b, marks, i) && i < |a|
    requires forall j :: 0 <= j < |b| && !marks[j] ==> !eq(a[i], b[j])
    ensures Count(eq, a, a[i]) > Count(eq, b, a[i])
  {
    var x := a[i];
    TallyOfAll(eq, b, marks, x);
    CountAppend(eq, a[..i], a[i..], x);
    CountAppend(eq, [x], a[i + 1..], x);
    assert a[..i] + a[i..] == a && [x] + a[i + 1..] == a[i..];
    assert [x][..0] == [] && Count(eq, [x], x) == 1;
  }

  lemma FullyMatched<T(!new)>(eq: (T, T) -> bool, a: seq<T>, b: seq<T>, marks: seq<bool>)
    requires |a| == |b| && Matching(eq, a, b, marks, |a|)
    ensures SameElements(eq, a, b)
  {
    MarkedAtMost(marks);
    forall x ensures Count(eq, a, x) == Count(eq, b, x) {
      TallyOfAll(eq, b, marks, x);
      assert a[..|a|] == a;
    }
  }

  lemma CountOfNone<T(!new)>(eq: (T, T) -> bool, s: seq<T>)
    requires Equivalence(eq) && forall x :: Count(eq, s, x) == 0
    ensures s == []
  {
    var occurs := s != [] && Count(eq, s, s[|s| - 1]) >= 1;
    assert occurs <==> s != [];
  }

  lemma {:induction false} SameElementsSameLength<T(!new)>(eq: (T, T) -> bool, a: seq<T>, b: seq<T>)
    requires Equivalence(eq) && SameElements(eq, a, b)
    ensures |a| == |b|
    decreases |a|
  {
    if a == [] {
      forall x ensures Count(eq, b, x) == 0 {
        assert Count(eq, a, x) == 0;
      }
      CountOfNone(eq, b);
    } else {
      var n, x := |a| - 1, a[|a| - 1];
      assert Count(eq, a, x) >= 1;
      var k := Position(eq, b, x);
      var b' := b[..k] + b[k + 1..];
      forall y ensures Count(eq, a[..n], y) == Count(eq, b', y) {
        CountWithout(eq, b, k, y);
        assert eq(y, x) <==> eq(y, b[k]);
      }
      SameElementsSameLength(eq, a[..n], b');
    }
  }

  ghost function Position<T>(eq: (T, T) -> bool, s: seq<T>, x: T): (k: nat)
    requires Count(eq, s, x) >= 1
    ensures k < |s| && eq(x, s[k])
  {
    if eq(x, s[|s| - 1]) then |s| - 1 else Position(eq, s[..|s| - 1], x)
  }

  lemma CountWithout<T>(eq: (T, T) -> bool, s: seq<T>, k: nat, x: T)
    requires k < |s|
    ensures Count(eq, s, x) == Count(eq, s[..k] + s[k + 1..], x) + if eq(x, s[k]) then 1 else 0
  {
    CountAppend(eq, s[..k], s[k + 1..], x);
    CountAppend(eq, s[..k], s[k..], x);
    CountAppend(eq, [s[k]], s[k + 1..], x);
    assert s[..k] + s[k..] == s && [s[k]] + s[k + 1..] == s[k..];
    assert [s[k]][..0] == [];
  }

  /** True exactly when both sides hold the same elements with the same multiplicities. */
  method UnorderedEqual<T(!new)>(a: seq<T>, b: seq<T>, eq: (T, T) -> bool) returns (equal: bool)
    requires Equivalence(eq)
    ensures equal <==> SameElements(eq, a, b)
  {
    if |a| != |b| {
      if SameElements(eq, a, b) {
        SameElementsSameLength(eq, a, b);
      }
      return false;
    }
    var n := 0;
    while n < |a| && eq(a[n], b[n])
      invariant 0 <= n <= |a|
      invariant forall i :: 0 <= i < n ==> eq(a[i], b[i])
    {
      n := n + 1;
    }
    PrefixDropped(eq, a, b, n);
    if n == |a| {
      assert a[n..] == b[n..];
      return true;
    }
    equal := MatchUp(a[n..], b[n..], eq);
  }

  /** Pairs every element of a with an unused equal element of b, or finds one without. */
  method MatchUp<T(!new)>(a: seq<T>, b: seq<T>, eq: (T, T) -> bool) returns (equal: bool)
    requires Equivalence(eq) && |a| == |b| > 0
    ensures equal <==> SameElements(eq, a, b)
  {
    var matched := new bool[|b|](_ => false);
    MatchingStarts(eq, a, b, matched[..]);
    for i := 0 to |a|
      invariant Matching(eq, a, b, matched[..], i)
    {
      var j := 0;
      while j < |b| && (matched[j] || !eq(a[i], b[j]))
        invariant 0 <= j <= |b|
        invariant forall k :: 0 <= k < j && !matched[k] ==> !eq(a[i], b[k])
      {
        j := j + 1;
      }
      if j == |b| {
        Unmatched(eq, a, b, matched[..], i);
        return false;
      }
      MatchingGrows(eq, a, b, matched[..], i, j);
      ghost var before := matched[..];
      matched[j] := true;
      assert matched[..] == before[j := true];
    }
    FullyMatched(eq, a, b, matched[..]);
    return true;
  }

  ghost predicate Same<T>(x: T, y: T) { x == y }

  lemma {:induction false} CountIsMultiplicity<T>(s: seq<T>, x: T)
    ensures Count(Same, s, x) == multiset(s)[x]
    decreases |s|
  {
    if s != [] {
      CountIsMultiplicity(s[..|s| - 1], x);
      assert s[..|s| - 1] + [s[|s| - 1]] == s;
    }
  }

  /** With plain equality the comparison is equality of multisets. */
  lemma SameElementsIsMultiset<T(!new)>(a: seq<T>, b: seq<T>)
    ensures SameElements(Same, a, b) <==> multiset(a) == multiset(b)
  {
    forall x ensures Count(Same, a, x) == multiset(a)[x] && Count(Same, b, x) == multiset(b)[x] {
      CountIsMultiplicity(a, x);
      CountIsMultiplicity(b, x);
    }
    if SameElements(Same, a, b) {
      assert forall x :: multiset(a)[x] == multiset(b)[x];
    }
  }
}
