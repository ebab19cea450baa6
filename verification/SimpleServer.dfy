/** The accept loop and Stop of the simple server, over every interleaving of their goroutines. */
module SimpleServer {
  import opened Bytes

  /** The goroutine that serves a client: not scheduled yet, serving, client closed and context cancelled, gone. */
  datatype Handler = HReady | HServing | HCancelled | HExited

  /** The goroutine that watches for Stop: not scheduled yet, selecting on a stop channel, selected, gone. */
  datatype Watcher = WReady | WSelecting(chan: nat) | WLeaving | WExited

  datatype Conn = Conn(handler: Handler, watcher: Watcher)

  /** A goroutine in the accept loop: in Accept, back from it, inside the mutex, leaving the mutex, out of the loop. */
  datatype Acceptor =
    | Accepting
    | Accepted(client: bool, failed: bool)
    | Admitting(client: bool, failed: bool)
    | Leaving(last: bool)
    | Left

  /** A goroutine in Stop; waited tells whether its helper has seen the wait group at zero. */
  datatype Stopper =
    | Called
    | Holding
    | Interrupting
    | Selecting(waited: bool)
    | Joining(waited: bool)
    | Finishing
    | Returned

  datatype Owner = Free | AcceptorHas(i: nat) | StopperHas(i: nat)

  /** Channels are numbered in the order they are made; panicked records a misuse the runtime would not survive. */
  datatype Server = Server(
    timeout: bool, mu: Owner, closed: bool, wg: int, stopChan: nat, closedChans: set<nat>, panicked: bool,
    conns: seq<Conn>, acceptors: seq<Acceptor>, stoppers: seq<Stopper>)

  function Initial(timeout: bool, acceptors: nat, stoppers: nat): Server {
    Server(timeout, Free, false, 0, 0, {}, false, [], seq(acceptors, _ => Accepting), seq(stoppers, _ => Called))
  }

  // ---- the moves ----------------------------------------------------------

  datatype Event =
    | AcceptReturns(i: nat, client: bool, failed: bool)
    | AcceptorMoves(i: nat)
    | StopperMoves(i: nat)
    | HelperSeesZero(i: nat)
    | HandlerMoves(i: nat)
    | WatcherMoves(i: nat)

  function SetAcceptor(s: Server, i: nat, a: Acceptor): Server
    requires i < |s.acceptors|
  {
    s.(acceptors := s.acceptors[i := a])
  }

  function SetStopper(s: Server, i: nat, p: Stopper): Server
    requires i < |s.stoppers|
  {
    s.(stoppers := s.stoppers[i := p])
  }

  /** The body of innerAccept inside the mutex. */
  function Admit(s: Server, i: nat): Server
    requires i < |s.acceptors| && s.acceptors[i].Admitting?
  {
    var a := s.acceptors[i];
    if s.closed || a.failed then SetAcceptor(s, i, Leaving(true))
    else if a.client then
      SetAcceptor(s, i, Leaving(false)).(wg := s.wg + 2, conns := s.conns + [Conn(HReady, WReady)])
    else SetAcceptor(s, i, Leaving(false))
  }

  function MoveAcceptor(s: Server, i: nat): Option<Server>
    requires i < |s.acceptors|
  {
    match s.acceptors[i]
    case Accepting => None
    case Accepted(client, failed) =>
      if s.mu.Free? then Some(SetAcceptor(s, i, Admitting(client, failed)).(mu := AcceptorHas(i))) else None
    case Admitting(_, _) => Some(Admit(s, i))
    case Leaving(last) => Some(SetAcceptor(s, i, if last then Left else Accepting).(mu := Free))
    case Left => None
  }

  /** The helper waits on the wait group and reports once. */
  function SeeZero(s: Server, i: nat): Option<Server>
    requires i < |s.stoppers|
  {
    if s.wg != 0 then None
    else
      match s.stoppers[i]
      case Selecting(false) => Some(SetStopper(s, i, Selecting(true)))
      case Joining(false) => Some(SetStopper(s, i, Joining(true)))
      case _ => None
  }

  function MoveStopper(s: Server, i: nat): Option<Server>
    requires i < |s.stoppers|
  {
    match s.stoppers[i]
    case Called => if s.mu.Free? then Some(SetStopper(s, i, Holding).(mu := StopperHas(i))) else None
    case Holding =>
      if s.closed then Some(SetStopper(s, i, Finishing)) else Some(SetStopper(s, i, Interrupting).(closed := true))
    case Interrupting => Some(SetStopper(s, i, if s.timeout then Selecting(false) else Joining(false)))
    // The timer fires or the helper reports; either way the stop channel is closed.
    case Selecting(waited) =>
      Some(SetStopper(s, i, Joining(waited)).(
        closedChans := s.closedChans + {s.stopChan}, panicked := s.panicked || s.stopChan in s.closedChans))
    case Joining(waited) => if waited then Some(SetStopper(s, i, Finishing).(stopChan := s.stopChan + 1)) else None
    case Finishing => Some(SetStopper(s, i, Returned).(mu := Free))
    case Returned => None
  }

  /** Done panics when the counter would go below zero. */
  function Done(s: Server, conns: seq<Conn>): Server {
    s.(conns := conns, wg := s.wg - 1, panicked := s.panicked || s.wg < 1)
  }

  function MoveHandler(s: Server, i: nat): Option<Server>
    requires i < |s.conns|
  {
    var c := s.conns[i];
    match c.handler
    case HReady => Some(s.(conns := s.conns[i := c.(handler := HServing)]))
    case HServing => Some(s.(conns := s.conns[i := c.(handler := HCancelled)]))
    case HCancelled => Some(Done(s, s.conns[i := c.(handler := HExited)]))
    case HExited => None
  }

  predicate MayLeave(s: Server, c: Conn)
    requires c.watcher.WSelecting?
  {
    c.handler.HCancelled? || c.handler.HExited? || c.watcher.chan in s.closedChans
  }

  function MoveWatcher(s: Server, i: nat): Option<Server>
    requires i < |s.conns|
  {
    var c := s.conns[i];
    match c.watcher
    case WReady => Some(s.(conns := s.conns[i := c.(watcher := WSelecting(s.stopChan))]))
    case WSelecting(_) => if MayLeave(s, c) then Some(s.(conns := s.conns[i := c.(watcher := WLeaving)])) else None
    case WLeaving => Some(Done(s, s.conns[i := c.(watcher := WExited)]))
    case WExited => None
  }

  function Step(s: Server, e: Event): Option<Server> {
    match e
    case AcceptReturns(i, client, failed) =>
      if i < |s.acceptors| && s.acceptors[i].Accepting? then Some(SetAcceptor(s, i, Accepted(client, failed))) else None
    case AcceptorMoves(i) => if i < |s.acceptors| then MoveAcceptor(s, i) else None
    case StopperMoves(i) => if i < |s.stoppers| then MoveStopper(s, i) else None
    case HelperSeesZero(i) => if i < |s.stoppers| then SeeZero(s, i) else None
    case HandlerMoves(i) => if i < |s.conns| then MoveHandler(s, i) else None
    case WatcherMoves(i) => if i < |s.conns| then MoveWatcher(s, i) else None
  }

  function Run(s: Server, es: seq<Event>): Option<Server>
    decreases |es|
  {
    if es == [] then Some(s)
    else
      match Step(s, es[0])
      case None => None
      case Some(s') => Run(s', es[1..])
  }

  // ---- counting goroutines ------------------------------------------------

  function Live(c: Conn): nat {
    (if c.handler.HExited? then 0 else 1) + (if c.watcher.WExited? then 0 else 1)
  }

  function AllLive(cs: seq<Conn>): nat {
    if cs == [] then 0 else AllLive(cs[..|cs| - 1]) + Live(cs[|cs| - 1])
  }

  lemma {:induction false} AllLiveUpdate(cs: seq<Conn>, i: nat, c: Conn)
    requires i < |cs|
    ensures AllLive(cs[i := c]) == AllLive(cs) - Live(cs[i]) + Live(c)
    decreases |cs|
  {
    var n := |cs| - 1;
    if i == n {
      assert cs[i := c][..n] == cs[..n];
    } else {
      AllLiveUpdate(cs[..n], i, c);
      assert cs[i := c][..n] == cs[..n][i := c];
    }
  }

  lemma AllLiveAppend(cs: seq<Conn>, c: Conn)
    ensures AllLive(cs + [c]) == AllLive(cs) + Live(c)
  {
    assert (cs + [c])[..|cs|] == cs;
  }

  lemma {:induction false} LiveIsCounted(cs: seq<Conn>, i: nat)
    requires i < |cs|
    ensures Live(cs[i]) <= AllLive(cs)
    decreases |cs|
  {
    if i < |cs| - 1 {
      LiveIsCounted(cs[..|cs| - 1], i);
    }
  }

  // ---- what every interleaving keeps --------------------------------------

  /** The Stop that closed the server and is not through yet. */
  predicate InProgress(p: Stopper) { p.Interrupting? || p.Selecting? || p.Joining? }

  predicate AcceptorOk(s: Server, i: nat)
    requires i < |s.acceptors|
  {
    s.acceptors[i].Admitting? || s.acceptors[i].Leaving? <==> s.mu == AcceptorHas(i)
  }

  predicate StopperOk(s: Server, i: nat)
    requires i < |s.stoppers|
  {
    var p := s.stoppers[i];
    && (p.Holding? || p.Finishing? || InProgress(p) <==> s.mu == StopperHas(i))
    && (InProgress(p) ==> s.closed)
    && ((p.Selecting? || p.Joining?) && p.waited ==> s.wg == 0)
    && (p.Finishing? || p.Returned? ==> s.closed && s.wg == 0)
  }

  /** A watcher that has looked at the stop channel has looked at the current one. */
  predicate ConnOk(s: Server, i: nat)
    requires i < |s.conns|
  {
    s.conns[i].watcher.WSelecting? ==> s.conns[i].watcher.chan == s.stopChan
  }

  predicate StopInProgress(s: Server) {
    s.mu.StopperHas? && s.mu.i < |s.stoppers| && InProgress(s.stoppers[s.mu.i])
  }

  predicate Invariant(s: Server) {
    && !s.panicked
    && s.wg == AllLive(s.conns)
    && (s.closed && !StopInProgress(s) ==> s.wg == 0)
    && (forall c :: c in s.closedChans ==> c <= s.stopChan)
    && (s.stopChan in s.closedChans ==> StopInProgress(s) && s.stoppers[s.mu.i].Joining?)
    && (s.mu.AcceptorHas? ==> s.mu.i < |s.acceptors|)
    && (s.mu.StopperHas? ==> s.mu.i < |s.stoppers|)
    && (forall i :: 0 <= i < |s.acceptors| ==> AcceptorOk(s, i))
    && (forall i :: 0 <= i < |s.stoppers| ==> StopperOk(s, i))
    && (forall i :: 0 <= i < |s.conns| ==> ConnOk(s, i))
  }

  lemma AcceptorKeeps(s: Server, i: nat)
    requires Invariant(s) && i < |s.acceptors| && MoveAcceptor(s, i).Some?
    ensures Invariant(MoveAcceptor(s, i).value)
  {
    hide AllLive;
    var s' := MoveAcceptor(s, i).value;
    assert AcceptorOk(s, i);
    AllLiveAppend(s.conns, Conn(HReady, WReady));
    assert Live(Conn(HReady, WReady)) == 2;
    forall k | 0 <= k < |s'.acceptors| ensures AcceptorOk(s', k) {
      assert AcceptorOk(s, k);
    }
    forall k | 0 <= k < |s'.stoppers| ensures StopperOk(s', k) {
      assert StopperOk(s, k);
    }
    forall k | 0 <= k < |s'.conns| ensures ConnOk(s', k) {
      assert k < |s.conns| ==> ConnOk(s, k);
    }
  }

  lemma StopperKeeps(s: Server, i: nat)
    requires Invariant(s) && i < |s.stoppers| && MoveStopper(s, i).Some?
    ensures Invariant(MoveStopper(s, i).value)
  {
    hide AllLive;
    var s' := MoveStopper(s, i).value;
    assert StopperOk(s, i);
    forall k | 0 <= k < |s'.acceptors| ensures AcceptorOk(s', k) {
      assert AcceptorOk(s, k);
    }
    forall k | 0 <= k < |s'.stoppers| ensures StopperOk(s', k) {
      assert StopperOk(s, k);
    }
    forall k | 0 <= k < |s'.conns| ensures ConnOk(s', k) {
      assert ConnOk(s, k);
      LiveIsCounted(s.conns, k);
    }
  }

  lemma HelperKeeps(s: Server, i: nat)
    requires Invariant(s) && i < |s.stoppers| && SeeZero(s, i).Some?
    ensures Invariant(SeeZero(s, i).value)
  {
    hide AllLive;
    var s' := SeeZero(s, i).value;
    assert StopperOk(s, i);
    forall k | 0 <= k < |s'.acceptors| ensures AcceptorOk(s', k) {
      assert AcceptorOk(s, k);
    }
    forall k | 0 <= k < |s'.stoppers| ensures StopperOk(s', k) {
      assert StopperOk(s, k);
    }
    forall k | 0 <= k < |s'.conns| ensures ConnOk(s', k) {
      assert ConnOk(s, k);
    }
  }

  /** A goroutine that is still counted can leave: the counter is not at zero. */
  lemma ConnMoveKeeps(s: Server, i: nat, c: Conn)
    requires Invariant(s) && i < |s.conns| && Live(c) <= Live(s.conns[i])
    requires c.watcher.WSelecting? ==> c.watcher.chan == s.stopChan
    requires Live(s.conns[i]) <= Live(c) + 1
    ensures var s' := s.(conns := s.conns[i := c]);
            Invariant(if Live(c) < Live(s.conns[i]) then Done(s, s'.conns) else s')
  {
    hide AllLive, Live;
    AllLiveUpdate(s.conns, i, c);
    LiveIsCounted(s.conns, i);
    var s1 := s.(conns := s.conns[i := c]);
    var s' := if Live(c) < Live(s.conns[i]) then Done(s, s1.conns) else s1;
    forall k | 0 <= k < |s'.acceptors| ensures AcceptorOk(s', k) {
      assert AcceptorOk(s, k);
    }
    forall k | 0 <= k < |s'.stoppers| ensures StopperOk(s', k) {
      assert StopperOk(s, k);
    }
    forall k | 0 <= k < |s'.conns| ensures ConnOk(s', k) {
      assert ConnOk(s, k);
    }
  }

  lemma HandlerKeeps(s: Server, i: nat)
    requires Invariant(s) && i < |s.conns| && MoveHandler(s, i).Some?
    ensures Invariant(MoveHandler(s, i).value)
  {
    assert ConnOk(s, i);
    ConnMoveKeeps(s, i, MoveHandler(s, i).value.conns[i]);
  }

  lemma WatcherKeeps(s: Server, i: nat)
    requires Invariant(s) && i < |s.conns| && MoveWatcher(s, i).Some?
    ensures Invariant(MoveWatcher(s, i).value)
  {
    assert ConnOk(s, i);
    ConnMoveKeeps(s, i, MoveWatcher(s, i).value.conns[i]);
  }

  lemma AcceptReturnKeeps(s: Server, i: nat, client: bool, failed: bool)
    requires Invariant(s) && i < |s.acceptors| && s.acceptors[i].Accepting?
    ensures Invariant(SetAcceptor(s, i, Accepted(client, failed)))
  {
    var s' := SetAcceptor(s, i, Accepted(client, failed));
    forall k | 0 <= k < |s'.acceptors| ensures AcceptorOk(s', k) {
      assert AcceptorOk(s, k) && AcceptorOk(s, i);
    }
    forall k | 0 <= k < |s'.stoppers| ensures StopperOk(s', k) {
      assert StopperOk(s, k);
    }
    forall k | 0 <= k < |s'.conns| ensures ConnOk(s', k) {
      assert ConnOk(s, k);
    }
  }

  lemma StepKeeps(s: Server, e: Event)
    requires Invariant(s) && Step(s, e).Some?
    ensures Invariant(Step(s, e).value)
  {
    hide Invariant, MoveAcceptor, MoveStopper, MoveHandler, MoveWatcher, SeeZero;
    match e
    case AcceptReturns(i, client, failed) => AcceptReturnKeeps(s, i, client, failed);
    case AcceptorMoves(i) => AcceptorKeeps(s, i);
    case StopperMoves(i) => StopperKeeps(s, i);
    case HelperSeesZero(i) => HelperKeeps(s, i);
    case HandlerMoves(i) => HandlerKeeps(s, i);
    case WatcherMoves(i) => WatcherKeeps(s, i);
  }

  lemma {:induction false} RunKeeps(s: Server, es: seq<Event>)
    requires Invariant(s) && Run(s, es).Some?
    ensures Invariant(Run(s, es).value)
    decreases |es|
  {
    hide Invariant, Step;
    if es != [] {
      StepKeeps(s, es[0]);
      RunKeeps(Step(s, es[0]).value, es[1..]);
    }
  }

  /** The state some interleaving of any number of accept loops and Stop calls leads to. */
  ghost predicate Reachable(s: Server) {
    exists timeout, acceptors, stoppers, es :: Run(Initial(timeout, acceptors, stoppers), es) == Some(s)
  }

  lemma ReachableKeeps(s: Server)
    requires Reachable(s)
    ensures Invariant(s)
  {
    var timeout, acceptors, stoppers, es :| Run(Initial(timeout, acceptors, stoppers), es) == Some(s);
    RunKeeps(Initial(timeout, acceptors, stoppers), es);
  }

  // ---- what that means ----------------------------------------------------

  predicate HasReturned(s: Server) {
    exists i :: 0 <= i < |s.stoppers| && s.stoppers[i].Returned?
  }

  /**
   * The wait group counts exactly the goroutines that have not exited, so it never goes negative; the stop
   * channel is never closed twice; and it is replaced only when no watcher is left to miss it.
   */
  lemma NoMisuse(s: Server)
    requires Reachable(s)
    ensures !s.panicked && s.wg == AllLive(s.conns)
    ensures forall i :: 0 <= i < |s.conns| && s.conns[i].watcher.WSelecting? ==> s.conns[i].watcher.chan == s.stopChan
  {
    ReachableKeeps(s);
    forall i | 0 <= i < |s.conns| && s.conns[i].watcher.WSelecting? ensures s.conns[i].watcher.chan == s.stopChan {
      assert ConnOk(s, i);
    }
  }

  /** The mutex admits one goroutine at a time, across accept loops and Stop calls. */
  lemma OneInside(s: Server, i: nat, j: nat)
    requires Reachable(s) && i < |s.stoppers| && j < |s.acceptors|
    requires InProgress(s.stoppers[i])
    ensures !s.acceptors[j].Admitting? && !s.acceptors[j].Leaving?
  {
    ReachableKeeps(s);
    assert StopperOk(s, i) && AcceptorOk(s, j);
  }

  /** When any Stop has returned, every goroutine of every connection has exited. */
  lemma StopWaitsForAll(s: Server, i: nat)
    requires Reachable(s) && HasReturned(s) && i < |s.conns|
    ensures s.conns[i] == Conn(HExited, WExited)
  {
    ReachableKeeps(s);
    var k :| 0 <= k < |s.stoppers| && s.stoppers[k].Returned?;
    assert StopperOk(s, k);
    LiveIsCounted(s.conns, i);
  }

  lemma ReturnedStays(s: Server, e: Event)
    requires Invariant(s) && HasReturned(s) && Step(s, e).Some?
    ensures HasReturned(Step(s, e).value) && Step(s, e).value.conns == s.conns
  {
    hide AllLive;
    var k :| 0 <= k < |s.stoppers| && s.stoppers[k].Returned?;
    assert StopperOk(s, k);
    var s' := Step(s, e).value;
    assert k < |s'.stoppers| && s'.stoppers[k].Returned?;
    if (e.HandlerMoves? || e.WatcherMoves?) {
      LiveIsCounted(s.conns, e.i);
    }
  }

  /** And from then on, whatever still runs, no connection is ever taken up again. */
  lemma {:induction false} StoppedForGood(s: Server, es: seq<Event>)
    requires Invariant(s) && HasReturned(s) && Run(s, es).Some?
    ensures Run(s, es).value.conns == s.conns && HasReturned(Run(s, es).value)
    decreases |es|
  {
    hide Invariant, Step, HasReturned;
    if es != [] {
      ReturnedStays(s, es[0]);
      StepKeeps(s, es[0]);
      StoppedForGood(Step(s, es[0]).value, es[1..]);
    }
  }

  /** Once a Stop has closed the stop channel, nothing keeps a watcher selecting. */
  lemma ClosedChannelFreesWatchers(s: Server, i: nat)
    requires Reachable(s) && s.stopChan in s.closedChans && i < |s.conns| && !s.conns[i].watcher.WExited?
    ensures MoveWatcher(s, i).Some?
  {
    ReachableKeeps(s);
    assert ConnOk(s, i);
  }

  // ---- progress -----------------------------------------------------------

  /** The moves that bring a Stop to its end, as against those of the accept loops. */
  predicate ServesStop(e: Event) { e.StopperMoves? || e.HelperSeesZero? || e.HandlerMoves? || e.WatcherMoves? }

  lemma LiveOneCanMove(s: Server, i: nat)
    requires i < |s.conns| && Live(s.conns[i]) > 0
    ensures MoveHandler(s, i).Some? || MoveWatcher(s, i).Some?
  {
  }

  lemma {:induction false} SomeoneIsLive(cs: seq<Conn>) returns (i: nat)
    requires AllLive(cs) > 0
    ensures i < |cs| && Live(cs[i]) > 0
  {
    var n := |cs| - 1;
    if Live(cs[n]) > 0 {
      i := n;
    } else {
      i := SomeoneIsLive(cs[..n]);
    }
  }

  /** While a Stop is in progress, there is always a move that brings it on: it cannot get stuck. */
  lemma StopCanMove(s: Server) returns (e: Event)
    requires Reachable(s) && StopInProgress(s)
    ensures ServesStop(e) && Step(s, e).Some?
  {
    ReachableKeeps(s);
    var k := s.mu.i;
    if s.stoppers[k] == Joining(false) {
      if s.wg == 0 {
        e := HelperSeesZero(k);
      } else {
        var i := SomeoneIsLive(s.conns);
        LiveOneCanMove(s, i);
        e := if MoveHandler(s, i).Some? then HandlerMoves(i) else WatcherMoves(i);
      }
    } else {
      e := StopperMoves(k);
    }
  }

  function HandlerWork(h: Handler): nat {
    match h
    case HReady => 3
    case HServing => 2
    case HCancelled => 1
    case HExited => 0
  }

  function WatcherWork(w: Watcher): nat {
    match w
    case WReady => 3
    case WSelecting(_) => 2
    case WLeaving => 1
    case WExited => 0
  }

  function StopperWork(p: Stopper): nat {
    match p
    case Interrupting => 5
    case Selecting(waited) => if waited then 3 else 4
    case Joining(waited) => if waited then 1 else 2
    case _ => 0
  }

  function ConnWork(c: Conn): nat { HandlerWork(c.handler) + WatcherWork(c.watcher) }

  function AllWork(cs: seq<Conn>): nat {
    if cs == [] then 0 else AllWork(cs[..|cs| - 1]) + ConnWork(cs[|cs| - 1])
  }

  lemma {:induction false} AllWorkUpdate(cs: seq<Conn>, i: nat, c: Conn)
    requires i < |cs|
    ensures AllWork(cs[i := c]) == AllWork(cs) - ConnWork(cs[i]) + ConnWork(c)
    decreases |cs|
  {
    var n := |cs| - 1;
    if i == n {
      assert cs[i := c][..n] == cs[..n];
    } else {
      AllWorkUpdate(cs[..n], i, c);
      assert cs[i := c][..n] == cs[..n][i := c];
    }
  }

  /** How much is left to do before the Stop in progress can finish. */
  function Work(s: Server): nat
    requires StopInProgress(s)
  {
    AllWork(s.conns) + StopperWork(s.stoppers[s.mu.i])
  }

  /** Every move that serves the Stop does some of what is left, and no other move adds to it. */
  lemma MoveDoesWork(s: Server, e: Event)
    requires Invariant(s) && StopInProgress(s) && Step(s, e).Some?
    ensures var s' := Step(s, e).value;
            StopInProgress(s') ==> Work(s') + (if ServesStop(e) then 1 else 0) <= Work(s)
  {
    hide AllLive, AllWork;
    var s' := Step(s, e).value;
    assert StopperOk(s, s.mu.i);
    if e.HandlerMoves? || e.WatcherMoves? {
      AllWorkUpdate(s.conns, e.i, s'.conns[e.i]);
      assert s'.conns == s.conns[e.i := s'.conns[e.i]];
    } else if e.StopperMoves? || e.HelperSeesZero? {
      assert StopperOk(s, e.i);
    } else {
      assert AcceptorOk(s, e.i);
    }
  }

  /** The Stop is still in progress after each of these events. */
  predicate StaysInProgress(s: Server, es: seq<Event>)
    decreases |es|
  {
    && StopInProgress(s)
    && (es != [] ==> Step(s, es[0]).Some? && StaysInProgress(Step(s, es[0]).value, es[1..]))
  }

  function Served(es: seq<Event>): nat {
    if es == [] then 0 else (if ServesStop(es[0]) then 1 else 0) + Served(es[1..])
  }

  /**
   * However the moves interleave, a Stop that has closed the server is through after at most as many moves of
   * its own side as there was work when it started.
   */
  lemma {:induction false} StopIsBounded(s: Server, es: seq<Event>)
    requires Invariant(s) && StaysInProgress(s, es)
    ensures Served(es) <= Work(s)
    decreases |es|
  {
    hide Invariant, Step, Work;
    if es != [] {
      MoveDoesWork(s, es[0]);
      StepKeeps(s, es[0]);
      StopIsBounded(Step(s, es[0]).value, es[1..]);
    }
  }
}
