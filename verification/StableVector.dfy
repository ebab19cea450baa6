/** A vector that grows by whole levels and never moves an element. */
module StableVector {
  import opened Bytes

  const INITIAL_POW := 10
  const INITIAL_SIZE := 1024
  const MAX_LEVELS := 64

  // ---- which slot an index has --------------------------------------------

  function Pow2(n: nat): (p: nat)
    ensures p > n
  {
    if n == 0 then 1 else 2 * Pow2(n - 1)
  }

  /** The width of a word minus its leading zeros. */
  function BitLength(n: nat): nat { if n == 0 then 0 else 1 + BitLength(n / 2) }

  /** Levels double: 1024, then 1024 again, then 2048, and so on. */
  function LevelSize(level: nat): nat { if level == 0 then INITIAL_SIZE else Pow2(level + INITIAL_POW - 1) }

  /** The first index of a level. */
  function Start(level: nat): nat { if level == 0 then 0 else Pow2(level + INITIAL_POW - 1) }

  function LevelOf(n: nat): nat { if n < INITIAL_SIZE then 0 else BitLength(n / INITIAL_SIZE) }

  function IndexOf(n: nat): int {
    if n < INITIAL_SIZE then n else n - Pow2(LevelOf(n) + INITIAL_POW - 1)
  }

  lemma {:induction false} BitLengthBounds(n: nat)
    requires n > 0
    ensures BitLength(n) >= 1 && Pow2(BitLength(n) - 1) <= n < Pow2(BitLength(n))
  {
    if n > 1 {
      BitLengthBounds(n / 2);
    } else {
      assert BitLength(1) == 1 + BitLength(0) == 1;
    }
  }

  lemma {:induction false} Pow2Scale(n: nat)
    ensures Pow2(n + INITIAL_POW) == INITIAL_SIZE * Pow2(n)
  {
    if n == 0 {
      assert Pow2(2) == 4 && Pow2(4) == 16 && Pow2(6) == 64 && Pow2(8) == 256;
    } else {
      Pow2Scale(n - 1);
    }
  }

  /** Consecutive levels cover consecutive indexes. */
  lemma LevelsAreAdjacent(level: nat)
    ensures Start(level + 1) == Start(level) + LevelSize(level)
  {
    if level == 0 {
      Pow2Scale(0);
    }
  }

  /** Every index has a slot inside its level. */
  lemma SlotInLevel(n: nat)
    ensures 0 <= IndexOf(n) < LevelSize(LevelOf(n))
    ensures Start(LevelOf(n)) + IndexOf(n) == n
  {
    if n >= INITIAL_SIZE {
      var upper := n / INITIAL_SIZE;
      BitLengthBounds(upper);
      Pow2Scale(LevelOf(n));
      Pow2Scale(LevelOf(n) - 1);
    }
  }

  lemma {:induction false} StartsIncrease(a: nat, b: nat)
    requires a < b
    ensures Start(a) + LevelSize(a) <= Start(b)
    decreases b
  {
    LevelsAreAdjacent(b - 1);
    if a < b - 1 {
      StartsIncrease(a, b - 1);
    }
  }

  /** Every slot belongs to exactly one index: the split is a bijection. */
  lemma SlotHasOneIndex(level: nat, idx: nat, n: nat)
    requires idx < LevelSize(level)
    ensures (LevelOf(n) == level && IndexOf(n) == idx) <==> n == Start(level) + idx
  {
    SlotInLevel(n);
    if n == Start(level) + idx && LevelOf(n) != level {
      if LevelOf(n) < level {
        StartsIncrease(LevelOf(n), level);
      } else {
        StartsIncrease(level, LevelOf(n));
      }
    }
  }

  lemma {:induction false} Pow2Monotone(a: nat, b: nat)
    requires a <= b
    ensures Pow2(a) <= Pow2(b)
    decreases b
  {
    if a < b {
      Pow2Monotone(a, b - 1);
    }
  }

  lemma BigPowers()
    ensures Pow2(30) == 0x4000_0000 && Pow2(31) == 0x8000_0000
  {
    assert Pow2(4) == 16;
    assert Pow2(8) == 256;
    assert Pow2(12) == 4096;
    assert Pow2(16) == 0x1_0000;
    assert Pow2(20) == 0x10_0000;
    assert Pow2(24) == 0x100_0000;
    assert Pow2(28) == 0x1000_0000;
  }

  /**
   * The shifts that place an index and size its level are 32-bit signed. They stay in range exactly for the
   * indexes below 2^31; those need at most 22 levels, well within the space reserved for level pointers.
   */
  lemma SupportedIndexes(n: nat)
    requires n < 0x1_0000_0000
    ensures LevelSize(LevelOf(n)) <= MAX_I32 <==> n <= MAX_I32
    ensures n <= MAX_I32 ==> LevelOf(n) <= 21
    ensures LevelOf(n) + 1 < MAX_LEVELS
  {
    SlotInLevel(n);
    BigPowers();
    var v := LevelOf(n);
    if v + INITIAL_POW - 1 >= 31 {
      Pow2Monotone(31, v + INITIAL_POW - 1);
    } else {
      Pow2Monotone(v + INITIAL_POW - 1, 30);
    }
    if v + INITIAL_POW - 1 >= 32 {
      Pow2Monotone(32, v + INITIAL_POW - 1);
      assert Pow2(32) == 2 * Pow2(31);
    }
  }

  /** The first index that is not supported: its level would be sized by a shift into the sign bit. */
  lemma FirstUnsupportedIndex()
    ensures LevelOf(0x8000_0000) == 22 && LevelSize(22) == 0x8000_0000 == MAX_I32 + 1
  {
    BigPowers();
    SlotInLevel(0x8000_0000);
    SlotHasOneIndex(22, 0, 0x8000_0000);
  }

  // ---- the object ---------------------------------------------------------

  class Vector<T(0)> {
    var size: nat
    var vectLvl: nat
    var vects: seq<array<T>>

    ghost predicate Valid()
      reads this
    {
      && |vects| == vectLvl + 1
      && (forall k :: 0 <= k < |vects| ==> vects[k].Length == LevelSize(k))
      && (forall j, k :: 0 <= j < k < |vects| ==> vects[j] != vects[k])
    }

    ghost predicate Allocated(n: nat)
      reads this
    {
      LevelOf(n) <= vectLvl
    }

    /** The flat vector that the levels stand for. */
    ghost function Element(n: nat): T
      requires Valid() && Allocated(n)
      reads this, vects
    {
      SlotInLevel(n);
      vects[LevelOf(n)][IndexOf(n)]
    }

    constructor ()
      ensures Valid() && size == 0 && fresh(vects[0])
      ensures forall n: nat :: Allocated(n) <==> n < INITIAL_SIZE
    {
      size, vectLvl := 0, 0;
      var storage := new T[INITIAL_SIZE];
      vects := [storage];
      new;
      forall n: nat ensures Allocated(n) <==> n < INITIAL_SIZE {
        if n >= INITIAL_SIZE {
          BitLengthBounds(n / INITIAL_SIZE);
        }
      }
    }

    /** Adds levels until the one asked for exists; the levels there are stay where they are. */
    method Expand(level: nat)
      requires Valid()
      modifies this`vects, this`vectLvl
      ensures Valid() && vectLvl == if level > old(vectLvl) then level else old(vectLvl)
      ensures old(vects) <= vects && forall k :: |old(vects)| <= k < |vects| ==> fresh(vects[k])
    {
      while level > vectLvl
        invariant Valid() && vectLvl >= old(vectLvl) && (vectLvl > old(vectLvl) ==> vectLvl <= level)
        invariant old(vects) <= vects && forall k :: |old(vects)| <= k < |vects| ==> fresh(vects[k])
        decreases level - vectLvl
      {
        var storage := new T[Pow2(vectLvl + INITIAL_POW)];
        vects := vects + [storage];
        vectLvl := vectLvl + 1;
      }
    }

    method Which(n: nat) returns (vno: nat, idx: nat)
      requires Valid() && n <= MAX_I32
      modifies this
      ensures Valid() && Allocated(n) && vno == LevelOf(n) && idx == IndexOf(n)
      ensures size == if n >= old(size) then n + 1 else old(size)
      ensures vectLvl >= old(vectLvl)
      ensures old(vects) <= vects && forall k :: |old(vects)| <= k < |vects| ==> fresh(vects[k])
    {
      SlotInLevel(n);
      if n >= size {
        size := n + 1;
      }
      if n < INITIAL_SIZE {
        vno, idx := 0, n;
      } else {
        vno := BitLength(n / INITIAL_SIZE);
        idx := n - Pow2(vno + INITIAL_POW - 1);
        if vno > vectLvl {
          Expand(vno);
        }
      }
    }

    /** Reads an element, growing the vector if it was not there. */
    method Get(n: nat) returns (x: T)
      requires Valid() && n <= MAX_I32
      modifies this
      ensures Valid() && Allocated(n) && x == Element(n)
      ensures forall m :: old(Allocated(m)) ==> Allocated(m) && Element(m) == old(Element(m))
    {
      var vno, idx := Which(n);
      SlotInLevel(n);
      x := vects[vno][idx];
      forall m | old(Allocated(m)) ensures Allocated(m) && Element(m) == old(Element(m)) {
        SlotInLevel(m);
      }
    }

    /** Writes an element: no other element changes, and no element changes its place. */
    method Set(n: nat, x: T)
      requires Valid() && n <= MAX_I32
      modifies this, vects
      ensures Valid() && Allocated(n) && Element(n) == x
      ensures forall m :: old(Allocated(m)) && m != n ==> Allocated(m) && Element(m) == old(Element(m))
      ensures old(vects) <= vects
    {
      var vno, idx := Which(n);
      SlotInLevel(n);
      vects[vno][idx] := x;
      forall m | old(Allocated(m)) && m != n ensures Allocated(m) && Element(m) == old(Element(m)) {
        SlotInLevel(m);
        SlotHasOneIndex(vno, idx, m);
      }
    }
  }

  // ---- readers and growers at the same time -------------------------------

  /**
   * Where a thread is in an access to an index: at the unlocked test of the level count, waiting to grow,
   * in the growing loop, between adding a level and counting it, or about to use its slot.
   */
  datatype Thread = Idle | Testing(n: nat) | Entering(n: nat) | Looping(n: nat) | Counting(n: nat) | Using(n: nat)

  /** The sizes of the levels in place, the published count, and who has the mutex. */
  datatype Shared = Shared(levels: seq<nat>, vectLvl: nat, holder: Option<nat>, threads: seq<Thread>)

  function At(s: Shared, t: nat, th: Thread): Shared
    requires t < |s.threads|
  {
    s.(threads := s.threads[t := th])
  }

  datatype Event = Begins(t: nat, n: nat) | Moves(t: nat)

  /** One indivisible move of a thread; None when it cannot make one. */
  function Step(s: Shared, e: Event): Option<Shared> {
    if e.t >= |s.threads| then None
    else
      match (e, s.threads[e.t])
      case (Begins(t, n), Idle) => if n <= MAX_I32 then Some(At(s, t, Testing(n))) else None
      case (Moves(t), Testing(n)) => Some(At(s, t, if LevelOf(n) > s.vectLvl then Entering(n) else Using(n)))
      case (Moves(t), Entering(n)) => if s.holder.None? then Some(At(s, t, Looping(n)).(holder := Some(t))) else None
      case (Moves(t), Looping(n)) =>
        if LevelOf(n) > s.vectLvl then
          Some(At(s, t, Counting(n)).(levels := s.levels + [Pow2(s.vectLvl + INITIAL_POW)]))
        else Some(At(s, t, Using(n)).(holder := None))
      case (Moves(t), Counting(n)) => Some(At(s, t, Looping(n)).(vectLvl := s.vectLvl + 1))
      case (Moves(t), Using(_)) => Some(At(s, t, Idle))
      case _ => None
  }

  predicate InMutex(th: Thread) { th.Looping? || th.Counting? }

  predicate ThreadOk(s: Shared, t: nat)
    requires t < |s.threads|
  {
    var th := s.threads[t];
    && (InMutex(th) <==> s.holder == Some(t))
    && (!th.Idle? ==> th.n <= MAX_I32)
    && (th.Counting? ==> LevelOf(th.n) > s.vectLvl && |s.levels| == s.vectLvl + 2)
    && (th.Looping? ==> |s.levels| == s.vectLvl + 1)
    && (th.Using? ==> LevelOf(th.n) <= s.vectLvl)
  }

  /**
   * Published levels are in place and have their sizes. There is one more level than the count says only
   * while the mutex holder is about to count it, and the space reserved for level pointers is never used up.
   */
  predicate Invariant(s: Shared) {
    && |s.levels| >= s.vectLvl + 1
    && (s.holder.None? ==> |s.levels| == s.vectLvl + 1)
    && (s.holder.Some? ==> s.holder.value < |s.threads|)
    && (forall k :: 0 <= k < |s.levels| ==> s.levels[k] == LevelSize(k))
    && s.vectLvl <= 21 && |s.levels| <= MAX_LEVELS
    && (forall t :: 0 <= t < |s.threads| ==> ThreadOk(s, t))
  }

  lemma StepKeeps(s: Shared, e: Event)
    requires Invariant(s) && Step(s, e).Some?
    ensures Invariant(Step(s, e).value)
    ensures s.levels <= Step(s, e).value.levels && s.vectLvl <= Step(s, e).value.vectLvl
  {
    hide BitLength, Pow2, LevelOf;
    var s' := Step(s, e).value;
    assert ThreadOk(s, e.t);
    if !s.threads[e.t].Idle? {
      SupportedIndexes(s.threads[e.t].n);
    }
    forall t | 0 <= t < |s'.threads| ensures ThreadOk(s', t) {
      assert ThreadOk(s, t);
    }
  }

  function Run(s: Shared, es: seq<Event>): Option<Shared>
    decreases |es|
  {
    if es == [] then Some(s)
    else
      match Step(s, es[0])
      case None => None
      case Some(s') => Run(s', es[1..])
  }

  function Initial(threads: nat): Shared {
    Shared([INITIAL_SIZE], 0, None, seq(threads, _ => Idle))
  }

  lemma {:induction false} RunKeeps(s: Shared, es: seq<Event>)
    requires Invariant(s) && Run(s, es).Some?
    ensures Invariant(Run(s, es).value)
    ensures s.levels <= Run(s, es).value.levels
    decreases |es|
  {
    hide Invariant, Step;
    if es != [] {
      StepKeeps(s, es[0]);
      RunKeeps(Step(s, es[0]).value, es[1..]);
    }
  }

  /**
   * However many threads run and however their moves interleave, a thread that uses its slot without the
   * mutex finds the level in place and the slot inside it, and whatever happens from then on, no level is
   * moved or resized.
   */
  lemma UnlockedUseIsSafe(threads: nat, es: seq<Event>, s: Shared, t: nat, later: seq<Event>, s': Shared)
    requires Run(Initial(threads), es) == Some(s) && Run(s, later) == Some(s')
    requires t < |s.threads| && s.threads[t].Using?
    ensures var n := s.threads[t].n;
            LevelOf(n) < |s.levels| && 0 <= IndexOf(n) < s.levels[LevelOf(n)]
    ensures s.levels <= s'.levels
  {
    hide Run;
    assert Invariant(Initial(threads));
    RunKeeps(Initial(threads), es);
    RunKeeps(s, later);
    assert ThreadOk(s, t);
    SlotInLevel(s.threads[t].n);
  }

  /** At most one thread grows the vector at a time, so no level is added twice. */
  lemma OneGrower(threads: nat, es: seq<Event>, t: nat, u: nat)
    requires Run(Initial(threads), es).Some?
    requires var s := Run(Initial(threads), es).value;
             t < |s.threads| && u < |s.threads| && InMutex(s.threads[t]) && InMutex(s.threads[u])
    ensures t == u
  {
    var s := Run(Initial(threads), es).value;
    hide Run;
    assert Invariant(Initial(threads));
    RunKeeps(Initial(threads), es);
    assert ThreadOk(s, t) && ThreadOk(s, u);
  }
}
