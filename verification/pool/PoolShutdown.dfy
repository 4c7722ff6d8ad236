/** Stop: when it is graceful, and that it comes to an end. */
module PoolShutdown {
  import opened PoolProtocol

  function Last(ss: seq<State>): State
    requires ss != []
  {
    ss[|ss| - 1]
  }

  // ----- runs are finite once the listener is closed

  function AcceptorWork(a: Acceptor): nat {
    match a
    case Holding(_) => 6
    case Accepting => 2
    case Checking => 1
    case _ => 0
  }

  function WorkerWork(w: Worker): nat {
    match w
    case Got(_) => 4
    case Serving(_) => 3
    case Closing(_) => 2
    case Idle => 1
    case Left => 0
  }

  function StageWork(s: Stage): nat {
    match s
    case Running => 4
    case Signalled => 3
    case ListenerClosed => 2
    case ChannelClosed => 1
    case Stopped(_) => 0
  }

  function WorkersWork(ws: seq<Worker>): nat {
    if ws == [] then 0 else WorkersWork(ws[..|ws| - 1]) + WorkerWork(ws[|ws| - 1])
  }

  /** The steps that are left at most. */
  function Work(s: State): nat {
    AcceptorWork(s.acceptor) + WorkersWork(s.workers) + StageWork(s.stage)
  }

  lemma {:induction false} WorkUpdate(ws: seq<Worker>, i: nat, w: Worker)
    requires i < |ws|
    ensures WorkersWork(ws[i := w]) == WorkersWork(ws) - WorkerWork(ws[i]) + WorkerWork(w)
    decreases |ws|
  {
    var n := |ws| - 1;
    if i < n {
      assert ws[i := w][..n] == ws[..n][i := w];
      WorkUpdate(ws[..n], i, w);
    } else {
      assert ws[i := w][..n] == ws[..n];
    }
  }

  lemma StepLowersWork(s: State, a: Action)
    requires Enabled(s, a) && !ListenerOpen(s)
    ensures Work(Next(s, a)) < Work(s) && !ListenerOpen(Next(s, a))
  {
    if OfWorker(a) {
      WorkUpdate(s.workers, a.w, Next(s, a).workers[a.w]);
    }
  }

  /** From the closing of the listener on, a run has at most Work steps. */
  lemma {:induction false} RunsEnd(ss: seq<State>, acts: seq<Action>, n: nat, j: nat, k: nat)
    requires Run(ss, acts, n) && j <= k < |ss| && !ListenerOpen(ss[j])
    ensures !ListenerOpen(ss[k]) && (k - j) + Work(ss[k]) <= Work(ss[j])
    decreases k
  {
    if j < k {
      RunsEnd(ss, acts, n, j, k - 1);
      StepLowersWork(ss[k - 1], acts[k - 1]);
    }
  }

  // ----- how runs end

  /** Nothing is left to happen but the timeout. */
  ghost predicate AtRest(s: State) {
    forall a :: Enabled(s, a) ==> a == Timeout
  }

  ghost predicate Patient(acts: seq<Action>) {
    forall k :: 0 <= k < |acts| ==> acts[k] != Timeout
  }

  predicate AllReturned(s: State) {
    s.acceptor.Returned? && forall w :: 0 <= w < |s.workers| ==> s.workers[w].Left?
  }

  lemma WaitGroupZero(s: State)
    requires Accounted(s)
    ensures s.wg == 0 <==> AllReturned(s)
  {
    NoneOf(s.workers, Present);
  }

  // What a worker that has not returned does next.
  function WorkersTurn(s: State, w: nat): Action
    requires w < |s.workers| && !s.workers[w].Left?
  {
    match s.workers[w]
    case Idle => Leave(w)
    case Got(_) => CountIn(w)
    case Serving(_) => Served(w)
    case Closing(_) => CloseConn(w)
  }

  lemma SomethingHappens(s: State) returns (a: Action)
    requires Accounted(s) && !s.acceptor.Panicked? && !s.stage.Stopped?
    ensures Enabled(s, a) && a != Timeout
  {
    WaitGroupZero(s);
    if s.stage.Running? {
      a := CloseShutdown;
    } else if s.stage.Signalled? {
      a := CloseListener;
    } else if s.stage.ListenerClosed? {
      a := CloseChannel;
    } else if s.wg == 0 {
      a := WaitDone;
    } else if !s.acceptor.Returned? {
      a := if s.acceptor.Holding? then SendPanics else if s.acceptor.Accepting? then AcceptFails else Check;
    } else {
      var w :| 0 <= w < |s.workers| && !s.workers[w].Left?;
      a := WorkersTurn(s, w);
    }
  }

  /** Graceful: the acceptor and all workers have returned, and every connection that was accepted has
      been closed exactly once. */
  ghost predicate Graceful(s: State) {
    && s.stage == Stopped(true) && AllReturned(s) && s.wg == 0
    && forall c: nat :: multiset(s.closed)[c] == if c < s.accepted then 1 else 0
  }

  // Stop has returned only if it was allowed to.
  predicate StopSound(s: State) {
    s.stage.Stopped? ==> s.stage == Stopped(true) && s.wg == 0
  }

  lemma {:induction false} StopSoundAlways(ss: seq<State>, acts: seq<Action>, n: nat, k: nat)
    requires Run(ss, acts, n) && Patient(acts) && k < |ss|
    ensures StopSound(ss[k])
  {
    if k > 0 {
      StopSoundAlways(ss, acts, n, k - 1);
    }
  }

  lemma AllReturnedIsGraceful(s: State)
    requires Accounted(s) && Conserved(s) && StopSound(s) && s.stage.Stopped?
    ensures Graceful(s)
  {
    WaitGroupZero(s);
    forall c: nat ensures multiset(s.closed)[c] == if c < s.accepted then 1 else 0 {
      NoneOf(s.workers, With(c));
      assert Places(s, c) == One(c < s.accepted);
    }
  }

  // After the channel is closed: still no connection in the acceptor's hands, or the same one for good.
  predicate Stuck(s: State) {
    s.acceptor.Holding? || s.acceptor.Panicked?
  }

  lemma {:induction false} StuckStays(ss: seq<State>, acts: seq<Action>, n: nat, j: nat, k: nat)
    requires Run(ss, acts, n) && j <= k < |ss| && Shut(ss[j])
    ensures Shut(ss[k]) && (Stuck(ss[k]) <==> Stuck(ss[j]))
    decreases k
  {
    if j < k {
      StuckStays(ss, acts, n, j, k - 1);
    }
  }

  /** A run that nothing but the timeout could continue ends gracefully exactly if the acceptor held no
      undelivered connection when Stop closed the channel. Otherwise its send has panicked. */
  lemma GracefulExactly(ss: seq<State>, acts: seq<Action>, n: nat, j: nat)
    requires Run(ss, acts, n) && Patient(acts) && AtRest(Last(ss)) && j < |acts| && acts[j] == CloseChannel
    ensures Graceful(Last(ss)) <==> !ss[j].acceptor.Holding?
    ensures ss[j].acceptor.Holding? ==> Last(ss).acceptor.Panicked?
  {
    var k := |ss| - 1;
    var s := ss[k];
    AccountedAlways(ss, acts, n, k);
    StopSoundAlways(ss, acts, n, k);
    StuckStays(ss, acts, n, j + 1, k);
    assert !ss[j].acceptor.Panicked?;
    if !s.acceptor.Panicked? && !s.stage.Stopped? {
      var a := SomethingHappens(s);
      assert false;
    }
    if s.stage.Stopped? {
      AllReturnedIsGraceful(s);
    }
  }

  /** Stop returns once, after the channel is closed: when the wait group is at zero, with everybody returned,
      or when the time is up, and then it leaves everything as it finds it. After it the process ends. */
  lemma StopReturns(ss: seq<State>, acts: seq<Action>, n: nat, k: nat)
    requires Run(ss, acts, n) && k < |acts|
    ensures ss[k + 1].stage.Stopped? <==> acts[k] == WaitDone || acts[k] == Timeout
    ensures acts[k] == WaitDone || acts[k] == Timeout ==>
      && k + 1 == |acts| && ss[k].stage == ChannelClosed
      && ss[k + 1] == ss[k].(stage := Stopped(acts[k] == WaitDone))
      && (acts[k] == WaitDone ==> AllReturned(ss[k]))
  {
    assert k + 1 < |acts| ==> Enabled(ss[k + 1], acts[k + 1]);
    AccountedAlways(ss, acts, n, k);
    WaitGroupZero(ss[k]);
  }

  // ----- what can go wrong

  lemma RunExtends(ss: seq<State>, acts: seq<Action>, n: nat, a: Action)
    requires Run(ss, acts, n) && Enabled(Last(ss), a)
    ensures Run(ss + [Next(Last(ss), a)], acts + [a], n)
  {
  }

  lemma Extend(ss: seq<State>, acts: seq<Action>, n: nat, a: Action) returns (ss': seq<State>, acts': seq<Action>)
    requires Run(ss, acts, n) && Enabled(Last(ss), a)
    ensures Run(ss', acts', n) && Last(ss') == Next(Last(ss), a)
  {
    RunExtends(ss, acts, n, a);
    ss', acts' := ss + [Next(Last(ss), a)], acts + [a];
  }

  lemma StartExists(n: nat) returns (s: State)
    ensures Started(s, n)
  {
    s := State(Accepting, seq(n, _ => Idle), Running, 1 + n, 0, 0, 0, []);
  }

  // One worker, at work on its first connection.
  lemma HandlerAtWork() returns (ss: seq<State>, acts: seq<Action>)
    ensures Run(ss, acts, 1) && Last(ss).workers == [Serving(0)] && Last(ss).closed == []
    ensures Last(ss).stage == Running && Last(ss).acceptor == Accepting
  {
    var s := StartExists(1);
    ss, acts := [s], [];
    ss, acts := Extend(ss, acts, 1, Accept);
    ss, acts := Extend(ss, acts, 1, Deliver(0));
    ss, acts := Extend(ss, acts, 1, CountIn(0));
  }

  /** Time can be up with a handler still at work and its connection open. */
  lemma StopCanTimeOut() returns (ss: seq<State>, acts: seq<Action>)
    ensures Run(ss, acts, 1) && Last(ss).stage == Stopped(false)
    ensures Last(ss).workers == [Serving(0)] && Last(ss).closed == []
  {
    ss, acts := HandlerAtWork();
    ss, acts := Extend(ss, acts, 1, CloseShutdown);
    ss, acts := Extend(ss, acts, 1, CloseListener);
    ss, acts := Extend(ss, acts, 1, CloseChannel);
    ss, acts := Extend(ss, acts, 1, Timeout);
  }

  /** With a connection accepted and not delivered, Stop brings the server down. */
  lemma StopCanPanic(n: nat) returns (ss: seq<State>, acts: seq<Action>)
    ensures Run(ss, acts, n) && Last(ss).acceptor.Panicked?
  {
    var s := StartExists(n);
    ss, acts := [s], [];
    ss, acts := Extend(ss, acts, n, Accept);
    ss, acts := Extend(ss, acts, n, CloseShutdown);
    ss, acts := Extend(ss, acts, n, CloseListener);
    ss, acts := Extend(ss, acts, n, CloseChannel);
    ss, acts := Extend(ss, acts, n, SendPanics);
  }

  // Everybody waits, and the count shows `m` malformed requests.
  predicate Quiet(s: State, m: nat) {
    && s.acceptor.Accepting? && s.stage.Running? && (forall w :: 0 <= w < |s.workers| ==> s.workers[w].Idle?)
    && s.count == m && s.malformed == m && |s.workers| > 0
  }

  lemma OneBadRequest(ss: seq<State>, acts: seq<Action>, n: nat, m: nat) returns (ss': seq<State>, acts': seq<Action>)
    requires Run(ss, acts, n) && Quiet(Last(ss), m)
    ensures Run(ss', acts', n) && Quiet(Last(ss'), m + 1)
  {
    ss', acts' := Extend(ss, acts, n, Accept);
    ss', acts' := Extend(ss', acts', n, Deliver(0));
    ss', acts' := Extend(ss', acts', n, CountIn(0));
    ss', acts' := Extend(ss', acts', n, BadRequest(0));
    ss', acts' := Extend(ss', acts', n, CloseConn(0));
  }

  /** The count can be off by any amount while no handler runs at all. */
  lemma {:induction false} CountCanDrift(n: nat, m: nat) returns (ss: seq<State>, acts: seq<Action>)
    requires n > 0
    ensures Run(ss, acts, n) && Tally(Last(ss).workers, Active) == 0 && Last(ss).count == m
    ensures Quiet(Last(ss), m)
  {
    if m == 0 {
      var s := StartExists(n);
      ss, acts := [s], [];
    } else {
      ss, acts := CountCanDrift(n, m - 1);
      ss, acts := OneBadRequest(ss, acts, n, m - 1);
    }
    NoneOf(Last(ss).workers, Active);
  }
}
