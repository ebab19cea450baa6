/** The queue lock that serializes reads on a Tornado stream, over every schedule of its clients. */
module TornadoLock {
  import opened Bytes

  /** One client per future: still yielding on the future before its own, holding the lock, or done with it. */
  datatype Client = Waiting(blocker: nat) | Holding | Released

  /**
   * The deque of futures, the futures with a result, the clients by the order in which they asked (a
   * client's number is also its future's), and the order in which the lock was granted.
   */
  datatype Lock = Lock(waiters: seq<nat>, resolved: set<nat>, clients: seq<Client>, granted: seq<nat>)

  const INITIAL := Lock([], {}, [], [])

  predicate Acquired(s: Lock) { s.waiters != [] }

  /** A client asks: it yields on the last future in the deque, or goes straight on when there is none. */
  function Acquire(s: Lock): Lock {
    var id := |s.clients|;
    if Acquired(s) then
      s.(waiters := s.waiters + [id], clients := s.clients + [Waiting(s.waiters[|s.waiters| - 1])])
    else
      s.(waiters := s.waiters + [id], clients := s.clients + [Holding], granted := s.granted + [id])
  }

  predicate CanResume(s: Lock, i: nat) {
    i < |s.clients| && s.clients[i].Waiting? && s.clients[i].blocker in s.resolved
  }

  /** The event loop resumes a client whose blocker has a result: it now has the lock. */
  function Resume(s: Lock, i: nat): Lock
    requires CanResume(s, i)
  {
    s.(clients := s.clients[i := Holding], granted := s.granted + [i])
  }

  predicate Holds(s: Lock, i: nat) { i < |s.clients| && s.clients[i].Holding? }

  /** A holder leaves its context: the leftmost future gets its result, whosever it is. */
  function Release(s: Lock, i: nat): Option<Lock>
    requires Holds(s, i)
  {
    if !Acquired(s) then None
    else
      Some(s.(waiters := s.waiters[1..], resolved := s.resolved + {s.waiters[0]},
              clients := s.clients[i := Released]))
  }

  datatype Event = Asks | Resumes(client: nat) | Leaves(client: nat)

  /** None when the event cannot happen or the lock's assertion fails. */
  function Step(s: Lock, e: Event): Option<Lock> {
    match e
    case Asks => Some(Acquire(s))
    case Resumes(i) => if CanResume(s, i) then Some(Resume(s, i)) else None
    case Leaves(i) => if Holds(s, i) then Release(s, i) else None
  }

  function Run(s: Lock, es: seq<Event>): Option<Lock>
    decreases |es|
  {
    if es == [] then Some(s)
    else
      match Step(s, es[0])
      case None => None
      case Some(s') => Run(s', es[1..])
  }

  // ---- what every schedule keeps ------------------------------------------

  /** How many clients have come and gone. */
  function Gone(s: Lock): int { |s.clients| - |s.waiters| }

  ghost predicate Invariant(s: Lock) {
    && Gone(s) >= 0
    && (forall k :: 0 <= k < |s.waiters| ==> s.waiters[k] == Gone(s) + k)
    && (forall i :: i in s.resolved <==> 0 <= i < Gone(s))
    && (forall i :: 0 <= i < Gone(s) ==> s.clients[i] == Released)
    && (forall i :: Gone(s) < i < |s.clients| ==> s.clients[i] == Waiting(i - 1))
    && (Acquired(s) ==> s.clients[Gone(s)] == Holding || (Gone(s) > 0 && s.clients[Gone(s)] == Waiting(Gone(s) - 1)))
    && |s.granted| == Gone(s) + (if Holds(s, Gone(s)) then 1 else 0)
    && (forall k :: 0 <= k < |s.granted| ==> s.granted[k] == k)
  }

  lemma AcquireKeeps(s: Lock)
    requires Invariant(s)
    ensures Invariant(Acquire(s))
  {
    var s' := Acquire(s);
    assert Gone(s') == Gone(s);
    assert forall i :: 0 <= i < |s.clients| ==> s'.clients[i] == s.clients[i];
  }

  lemma HolderIsHead(s: Lock, i: nat)
    requires Invariant(s) && Holds(s, i)
    ensures Acquired(s) && i == Gone(s) == s.waiters[0]
  {
  }

  lemma ResumedIsHead(s: Lock, i: nat)
    requires Invariant(s) && CanResume(s, i)
    ensures Acquired(s) && i == Gone(s) == s.waiters[0] && !Holds(s, i)
  {
  }

  lemma ResumeKeeps(s: Lock, i: nat)
    requires Invariant(s) && CanResume(s, i)
    ensures Invariant(Resume(s, i))
  {
    ResumedIsHead(s, i);
    assert Gone(Resume(s, i)) == Gone(s);
  }

  lemma ReleaseKeeps(s: Lock, i: nat)
    requires Invariant(s) && Holds(s, i)
    ensures Release(s, i).Some? && Invariant(Release(s, i).value)
  {
    HolderIsHead(s, i);
    var s' := Release(s, i).value;
    assert Gone(s') == Gone(s) + 1;
    if Acquired(s') {
      assert s'.clients[Gone(s')] == s.clients[Gone(s) + 1];
    }
  }

  lemma {:induction false} RunKeeps(s: Lock, es: seq<Event>)
    requires Invariant(s) && Run(s, es).Some?
    ensures Invariant(Run(s, es).value)
    decreases |es|
  {
    if es != [] {
      StepKeeps(s, es[0]);
      RunKeeps(Step(s, es[0]).value, es[1..]);
    }
  }

  lemma StepKeeps(s: Lock, e: Event)
    requires Invariant(s) && Step(s, e).Some?
    ensures Invariant(Step(s, e).value)
  {
    match e
    case Asks => AcquireKeeps(s);
    case Resumes(i) => ResumeKeeps(s, i);
    case Leaves(i) => ReleaseKeeps(s, i);
  }

  // ---- what that means to its users ---------------------------------------

  ghost predicate Reachable(s: Lock) {
    exists es :: Run(INITIAL, es) == Some(s)
  }

  lemma ReachableKeeps(s: Lock)
    requires Reachable(s)
    ensures Invariant(s)
  {
    var es :| Run(INITIAL, es) == Some(s);
    RunKeeps(INITIAL, es);
  }

  /** At most one client is inside, and it is the one whose future heads the deque. */
  lemma MutualExclusion(s: Lock, i: nat, j: nat)
    requires Reachable(s) && Holds(s, i) && Holds(s, j)
    ensures i == j && Acquired(s) && s.waiters[0] == i
  {
    ReachableKeeps(s);
    HolderIsHead(s, i);
    HolderIsHead(s, j);
  }

  /** The lock is granted in the order in which it was asked for, without a gap. */
  lemma GrantedInOrder(s: Lock, k: nat)
    requires Reachable(s) && k < |s.granted|
    ensures s.granted[k] == k
  {
    ReachableKeeps(s);
  }

  /** Leaving never trips the lock's assertion and takes the leaver's own future off the deque. */
  lemma ReleasesItsOwn(s: Lock, i: nat)
    requires Reachable(s) && Holds(s, i)
    ensures Release(s, i).Some? && Release(s, i).value.resolved == s.resolved + {i}
    ensures Release(s, i).value.waiters == s.waiters[1..] && i !in s.waiters[1..]
  {
    ReachableKeeps(s);
    HolderIsHead(s, i);
  }

  /** Leaving makes the next client in the deque, and only that one, resumable; before that none is. */
  lemma ReleaseWakesTheNext(s: Lock, i: nat, j: nat)
    requires Reachable(s) && Holds(s, i)
    ensures !CanResume(s, j)
    ensures Release(s, i).Some?
    ensures CanResume(Release(s, i).value, j) <==> |s.waiters| > 1 && j == s.waiters[1]
  {
    ReachableKeeps(s);
    HolderIsHead(s, i);
    ReleaseKeeps(s, i);
    var s' := Release(s, i).value;
    if CanResume(s', j) {
      ResumedIsHead(s', j);
    }
    if |s.waiters| > 1 {
      assert s'.clients[s.waiters[1]] == Waiting(i);
    }
  }

  /** No wake-up is lost: while anyone is queued, either a client is inside or the head can go in. */
  lemma NeverStuck(s: Lock)
    requires Reachable(s) && Acquired(s)
    ensures Holds(s, s.waiters[0]) || CanResume(s, s.waiters[0])
  {
    ReachableKeeps(s);
  }

  // ---- the object ---------------------------------------------------------

  /** The deque and its futures; the client side of each call is in the step functions above. */
  class QueueLock {
    var waiters: seq<nat>
    var resolved: set<nat>
    var futures: nat

    ghost predicate Represents(s: Lock)
      reads this
    {
      waiters == s.waiters && resolved == s.resolved && futures == |s.clients|
    }

    constructor ()
      ensures Represents(INITIAL)
    {
      waiters, resolved, futures := [], {}, 0;
    }

    /** Queues a new future; the caller yields on blocker, if there is one. */
    method Enqueue(ghost s: Lock) returns (future: nat, blocker: Option<nat>)
      requires Represents(s)
      modifies this
      ensures Represents(Acquire(s)) && future == |s.clients|
      ensures Acquire(s).clients[future] == if blocker.Some? then Waiting(blocker.value) else Holding
    {
      blocker := if waiters != [] then Some(waiters[|waiters| - 1]) else None;
      future := futures;
      futures := futures + 1;
      waiters := waiters + [future];
    }

    method PopAndResolve(ghost s: Lock, ghost i: nat)
      requires Represents(s) && Invariant(s) && Holds(s, i)
      modifies this
      ensures Release(s, i).Some? && Represents(Release(s, i).value)
      ensures resolved == old(resolved) + {i}
    {
      HolderIsHead(s, i);
      var future := waiters[0];
      waiters := waiters[1..];
      resolved := resolved + {future};
    }
  }
}
