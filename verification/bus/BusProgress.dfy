/** In every interleaving: when a wake-up is lost, which runs finish, and when a semaphore gets more tokens
    than it has sleepers. */
module BusProgress {
  import opened BusTypes
  import opened BusProtocol
  import opened BusOrder
  import opened BusHandOff

  // ----- a release that wakes nobody

  // Some class has both.
  predicate Deliverable(tokens: PerClass, tasks: PerClass) {
    || (tokens.send.normal > 0 && tasks.send.normal > 0) || (tokens.send.priority > 0 && tasks.send.priority > 0)
    || (tokens.receive.normal > 0 && tasks.receive.normal > 0)
    || (tokens.receive.priority > 0 && tasks.receive.priority > 0)
  }

  predicate InFlight(b: Bus, n: Census) {
    n.woken.Total() > 0 || Deliverable(b.tokens, n.asleep)
  }

  /** The last task aboard leaves, waiting_task says that all three slots are spoken for, and all it
      counts are tokens that nobody registered can take. */
  predicate LosesWakeUp(b: Bus) {
    && b.onBus == 1 && b.waiting == BUS_CAPACITY && b.tokens.Total() == BUS_CAPACITY
    && b.registered.Total() > 0 && !Deliverable(b.tokens, b.registered)
  }

  // Somebody is aboard or on the way, or the bus is open to the next newcomer.
  predicate Live(b: Bus, n: Census) {
    b.onBus > 0 || InFlight(b, n) || (b.registered.Total() == 0 && b.direction.Idle?)
  }

  lemma NobodyRegistered(b: Bus, d: Direction)
    requires b.onBus == 0 && 0 <= b.waiting <= 200_000 && b.registered.IsZero()
    ensures WakeToward(b, d) == b
  {
    ToWakeMeaning(b, Class(d, PRIORITY));
    ToWakeMeaning(b, Class(d, NORMAL));
  }

  lemma NoSlotToGive(b: Bus, d: Direction)
    requires 0 <= b.onBus <= 3 && b.onBus + b.waiting == BUS_CAPACITY
    requires b.registered.NonNegative() && b.registered.Total() <= 200
    ensures WakeToward(b, d) == b
  {
    ToWakeMeaning(b, Class(d, PRIORITY));
    ToWakeMeaning(b, Class(d, NORMAL));
  }

  // What one half does to an idle bus unless exactly three are counted as waiting.
  lemma IdleHalf(b: Bus, d: Direction)
    requires b.onBus == 0 && b.direction.Idle? && 0 <= b.waiting <= 200_000 && b.waiting != BUS_CAPACITY
    requires b.registered.NonNegative() && b.registered.Total() <= 200 && b.tokens.NonNegative()
    ensures var b', p, q := WakeToward(b, d), Class(d, PRIORITY), Class(d.Other(), PRIORITY);
      && (b.registered.Of(p) > 0 ==> b'.tokens.Of(p) > 0 && b'.direction == Carrying(d))
      && (b.registered.Of(p) == 0 && b.registered.Of(q) == 0 && b.registered.Of(Class(d, NORMAL)) > 0 ==>
           b'.tokens.Of(Class(d, NORMAL)) > 0 && b'.direction == Carrying(d))
      && (b.registered.Of(p) == 0 && (b.registered.Of(q) > 0 || b.registered.Of(Class(d, NORMAL)) == 0) ==> b' == b)
  {
    var p, n := Class(d, PRIORITY), Class(d, NORMAL);
    ToWakeMeaning(b, p);
    SignalEffect(b, p, ToWake(b, p));
    ToWakeMeaning(Signal(b, p, ToWake(b, p)), n);
  }

  lemma WakesSomebody(left: Bus)
    requires left.onBus == 0 && left.direction.Idle? && 0 <= left.waiting <= 160_000 && left.waiting != BUS_CAPACITY
    requires left.registered.NonNegative() && 0 < left.registered.Total() <= 200 && left.tokens.NonNegative()
    ensures var b := WakeToward(WakeToward(left, SEND), RECEIVE);
      b.registered == left.registered && Deliverable(b.tokens, left.registered)
  {
    IdleHalf(left, SEND);
    WakeTowardEffect(left, SEND);
    var half := WakeToward(left, SEND);
    if half.direction.Idle? {
      IdleHalf(left, RECEIVE);
      WakeTowardEffect(left, RECEIVE);
    }
  }

  lemma DeliveredTo(registered: PerClass, tokens: PerClass, n: Census)
    requires Deliverable(tokens, registered) && registered.IsSum(n.asleep, n.woken)
    requires n.asleep.NonNegative() && n.woken.NonNegative()
    ensures n.woken.Total() > 0 || Deliverable(tokens, n.asleep)
  {
  }

  lemma IdleAfterLast(b: Bus)
    requires b.onBus == 1
    ensures Leave(b) == b.(onBus := 0, slots := b.slots + 1, direction := Idle)
  {
  }

  /** After a release of the last task aboard, somebody is on the way exactly if the wake-up is not lost,
      or nobody is left to be woken. */
  lemma LastReleased(b: Bus, n: Census, n': Census)
    requires Balanced(b, n) && Small(b, n) && b.mutex > 0 && b.onBus == 1
    requires n'.asleep == n.asleep && n'.woken == n.woken
    ensures var b' := BusTypes.Release(b);
      b'.onBus == 0 && b'.registered == b.registered && (Live(b', n') <==> !LosesWakeUp(b))
  {
    var left := Leave(b);
    IdleAfterLast(b);
    ReleaseEffect(b);
    if b.registered.Total() == 0 {
      NobodyRegistered(left, SEND);
      NobodyRegistered(left, RECEIVE);
    } else if b.waiting != BUS_CAPACITY {
      WakesSomebody(left);
      DeliveredTo(b.registered, BusTypes.Release(b).tokens, n');
    } else {
      NoSlotToGive(left, SEND);
      NoSlotToGive(left, RECEIVE);
      NobodyWoken(b, n);
    }
  }

  lemma NobodyWoken(b: Bus, n: Census)
    requires Balanced(b, n) && Small(b, n)
    ensures b.waiting == b.tokens.Total() <==> n.woken.Total() == 0
    ensures n.woken.Total() == 0 ==> n.asleep == b.registered
  {
  }

  lemma EnterKeepsLive(b: Bus, n: Census, c: Class)
    requires Balanced(b, n) && Small(b, n) && b.mutex > 0 && Live(b, n)
    ensures Live(BusTypes.Enter(b, c), n.Shift(c, New, if MustWait(b, c) then Asleep else OnBus))
  {
  }

  lemma TakeKeepsLive(b: Bus, n: Census, c: Class)
    requires Balanced(b, n) && Small(b, n) && b.tokens.Of(c) > 0 && n.asleep.Of(c) > 0 && Live(b, n)
    ensures Live(b.(tokens := b.tokens.Add(c, -1)), n.Shift(c, Asleep, Woken))
  {
  }

  lemma ResumeKeepsLive(b: Bus, n: Census, c: Class)
    requires Balanced(b, n) && Small(b, n) && Live(b, n)
    ensures Live(BusTypes.Resume(b, c), n.Shift(c, Woken, if b.slots > 0 then OnBus else Blocked))
  {
  }

  lemma ReleaseMakesLive(b: Bus, n: Census, c: Class)
    requires Balanced(b, n) && Small(b, n) && b.mutex > 0 && n.onBus.Of(c) > 0
    ensures Live(BusTypes.Release(b), n.Shift(c, OnBus, Done)) <==> !LosesWakeUp(b)
  {
    var n' := n.Shift(c, OnBus, Done);
    ReleasedCensus(n, c);
    if b.onBus == 1 {
      LastReleased(b, n, n');
    } else {
      ReleaseEffect(b);
    }
  }

  lemma ReleasedCensus(n: Census, c: Class)
    ensures n.Shift(c, OnBus, Done).asleep == n.asleep && n.Shift(c, OnBus, Done).woken == n.woken
  {
  }

  // ----- over whole runs

  ghost predicate LiveWorld(w: World) {
    Live(w.bus, CensusOf(w.threads))
  }

  predicate Loses(w: World, a: Action) {
    a.Release? && LosesWakeUp(w.bus)
  }

  lemma StepKeepsLive(w: World, a: Action)
    requires Accounting(w) && Enabled(w, a) && !Loses(w, a) && (a.Release? || LiveWorld(w))
    ensures LiveWorld(Next(w, a))
  {
    var b, n, c := w.bus, CensusOf(w.threads), w.threads[a.i].class_;
    CensusMove(w.threads, a.i, NextPhase(w, a));
    TallyMember(w.threads, a.i);
    match a
    case Enter(_) => EnterKeepsLive(b, n, c);
    case Take(_) => TakeKeepsLive(b, n, c);
    case Resume(_) => ResumeKeepsLive(b, n, c);
    case Unblock(i) => NeverUnblocked(w, i); assert false;
    case Release(_) => ReleaseMakesLive(b, n, c);
  }

  lemma StepLosesWakeUp(w: World, a: Action)
    requires Accounting(w) && Enabled(w, a) && Loses(w, a)
    ensures !LiveWorld(Next(w, a)) && Next(w, a).bus.registered.Total() > 0
  {
    var b, n, c := w.bus, CensusOf(w.threads), w.threads[a.i].class_;
    CensusMove(w.threads, a.i, NextPhase(w, a));
    TallyMember(w.threads, a.i);
    ReleaseMakesLive(b, n, c);
    ReleaseEffect(b);
  }

  predicate Waits(t: Thread) {
    t.phase == Asleep || t.phase == Woken
  }

  // Aboard, woken, or asleep with a token of its class to take.
  predicate CanMove(w: World, i: nat)
    requires i < |w.threads|
  {
    var t := w.threads[i];
    t.phase == OnBus || t.phase == Woken || (t.phase == Asleep && w.bus.tokens.Of(t.class_) > 0)
  }

  /** No wake-up is lost: while a task waits, some task can move. */
  ghost predicate Served(w: World) {
    (exists i :: 0 <= i < |w.threads| && Waits(w.threads[i])) ==> exists i :: 0 <= i < |w.threads| && CanMove(w, i)
  }

  lemma MoverExists(w: World) returns (i: nat)
    requires Counted(w) && (w.bus.onBus > 0 || InFlight(w.bus, CensusOf(w.threads)))
    ensures i < |w.threads| && CanMove(w, i)
  {
    var n := CensusOf(w.threads);
    if w.bus.onBus > 0 {
      i := OnBusMeansAboard(w);
    } else if n.woken.Total() > 0 {
      i := SomeTaskIn(w.threads, Woken);
    } else {
      var c := BothIn(w.bus.tokens, n.asleep);
      i := TallyWitness(w.threads, c, Asleep);
    }
  }

  lemma BothIn(tokens: PerClass, tasks: PerClass) returns (c: Class)
    requires Deliverable(tokens, tasks)
    ensures tokens.Of(c) > 0 && tasks.Of(c) > 0
  {
    c := if tokens.send.normal > 0 && tasks.send.normal > 0 then Class(SEND, NORMAL)
         else if tokens.receive.normal > 0 && tasks.receive.normal > 0 then Class(RECEIVE, NORMAL)
         else if tokens.send.priority > 0 && tasks.send.priority > 0 then Class(SEND, PRIORITY)
         else Class(RECEIVE, PRIORITY);
  }

  lemma MoverCounts(w: World, i: nat)
    requires Counted(w) && i < |w.threads| && CanMove(w, i)
    ensures w.bus.onBus > 0 || InFlight(w.bus, CensusOf(w.threads))
  {
    TallyMember(w.threads, i);
  }

  lemma WaiterCounts(w: World)
    requires Counted(w)
    ensures w.bus.registered.Total() > 0 <==> exists i :: 0 <= i < |w.threads| && Waits(w.threads[i])
  {
    if i: nat :| i < |w.threads| && Waits(w.threads[i]) {
      TallyMember(w.threads, i);
    }
    if w.bus.registered.Total() > 0 {
      var c := PositiveClass(w.bus.registered);
      var i: nat;
      if Tally(w.threads, Asleep).Of(c) > 0 {
        i := TallyWitness(w.threads, c, Asleep);
      } else {
        i := TallyWitness(w.threads, c, Woken);
      }
      assert Waits(w.threads[i]);
    }
  }

  lemma LiveIsServed(w: World)
    requires Counted(w)
    ensures LiveWorld(w) ==> Served(w)
    ensures !LiveWorld(w) && w.bus.registered.Total() > 0 ==> !Served(w)
  {
    WaiterCounts(w);
    if w.bus.onBus > 0 || InFlight(w.bus, CensusOf(w.threads)) {
      var i := MoverExists(w);
    } else {
      forall i | 0 <= i < |w.threads| ensures !CanMove(w, i) {
        if CanMove(w, i) {
          MoverCounts(w, i);
        }
      }
    }
  }

  lemma InitiallyLive(w: World)
    requires Initial(w)
    ensures LiveWorld(w)
  {
  }

  predicate IsLatestRelease(acts: seq<Action>, j: nat, k: nat)
    requires j < k <= |acts|
  {
    acts[j].Release? && forall i :: j < i < k ==> !acts[i].Release?
  }

  // The latest release before `k`, if any, has not lost a wake-up.
  predicate LatestKept(ws: seq<World>, acts: seq<Action>, k: nat)
    requires k <= |acts| && |ws| == |acts| + 1
  {
    forall j :: 0 <= j < k && IsLatestRelease(acts, j, k) ==> !Loses(ws[j], acts[j])
  }

  lemma LatestKeptBefore(ws: seq<World>, acts: seq<Action>, k: nat)
    requires 0 < k <= |acts| && |ws| == |acts| + 1 && LatestKept(ws, acts, k)
    ensures acts[k - 1].Release? ==> !Loses(ws[k - 1], acts[k - 1])
    ensures !acts[k - 1].Release? ==> LatestKept(ws, acts, k - 1)
  {
    if acts[k - 1].Release? {
      assert IsLatestRelease(acts, k - 1, k);
    } else {
      forall j | 0 <= j < k - 1 && IsLatestRelease(acts, j, k - 1) ensures !Loses(ws[j], acts[j]) {
        assert IsLatestRelease(acts, j, k);
      }
    }
  }

  lemma LiveStep(ws: seq<World>, acts: seq<Action>, k: nat)
    requires Run(ws, acts) && 0 < k < |ws| && !Loses(ws[k - 1], acts[k - 1])
    requires acts[k - 1].Release? || LiveWorld(ws[k - 1])
    ensures LiveWorld(ws[k])
  {
    AccountingAlways(ws, acts, k - 1);
    StepKeepsLive(ws[k - 1], acts[k - 1]);
  }

  lemma {:induction false} LiveIfLatestKept(ws: seq<World>, acts: seq<Action>, k: nat)
    requires Run(ws, acts) && k < |ws| && LatestKept(ws, acts, k)
    ensures LiveWorld(ws[k])
  {
    if k == 0 {
      InitiallyLive(ws[0]);
    } else {
      LatestKeptBefore(ws, acts, k);
      if !acts[k - 1].Release? {
        LiveIfLatestKept(ws, acts, k - 1);
      }
      LiveStep(ws, acts, k);
    }
  }

  /** Over a whole run of any number of tasks a waiting task always has some task that can move, if and only
      if no release loses a wake-up. */
  lemma NoLostWakeUpExactly(ws: seq<World>, acts: seq<Action>)
    requires Run(ws, acts)
    ensures (forall k :: 0 <= k < |ws| ==> Served(ws[k])) <==> (forall k :: 0 <= k < |acts| ==> !Loses(ws[k], acts[k]))
  {
    if forall k :: 0 <= k < |acts| ==> !Loses(ws[k], acts[k]) {
      forall k | 0 <= k < |ws| ensures Served(ws[k]) {
        LiveIfLatestKept(ws, acts, k);
        AccountingAlways(ws, acts, k);
        LiveIsServed(ws[k]);
      }
    } else {
      var k: nat :| k < |acts| && Loses(ws[k], acts[k]);
      AccountingAlways(ws, acts, k);
      AccountingAlways(ws, acts, k + 1);
      StepLosesWakeUp(ws[k], acts[k]);
      LiveIsServed(ws[k + 1]);
    }
  }

  // ----- runs that cannot go on

  lemma StepMutex(w: World, a: Action)
    requires Accounting(w) && Enabled(w, a)
    ensures Next(w, a).bus.mutex == if a.Resume? && w.bus.slots == 0 then 0 else w.bus.mutex
  {
    match a
    case Enter(_) =>
    case Take(_) =>
    case Resume(_) =>
    case Unblock(i) => NeverUnblocked(w, i); assert false;
    case Release(i) => TallyMember(w.threads, i); ReleaseEffect(w.bus);
  }

  predicate NeverBlocks(ws: seq<World>, acts: seq<Action>, k: nat)
    requires k <= |acts| && |ws| == |acts| + 1
  {
    forall j :: 0 <= j < k && acts[j].Resume? ==> ws[j].bus.slots > 0
  }

  /** `mutex` is free between sections if and only if no woken task has found `bus_slots` at zero. */
  lemma {:induction false} MutexFreeExactly(ws: seq<World>, acts: seq<Action>, k: nat)
    requires Run(ws, acts) && k < |ws|
    ensures ws[k].bus.mutex == 1 <==> NeverBlocks(ws, acts, k)
  {
    if k > 0 {
      MutexFreeExactly(ws, acts, k - 1);
      AccountingAlways(ws, acts, k - 1);
      StepMutex(ws[k - 1], acts[k - 1]);
    }
  }

  /** Only a release makes a task done. */
  lemma {:induction false} NotDoneBefore(ws: seq<World>, acts: seq<Action>, j: nat, k: nat, i: nat)
    requires Run(ws, acts) && j <= k < |ws| && (forall m :: j <= m < k ==> !acts[m].Release?)
    requires i < |ws[j].threads| && ws[j].threads[i].phase != Done
    ensures i < |ws[k].threads| && ws[k].threads[i].phase != Done
  {
    if j < k {
      NotDoneBefore(ws, acts, j, k - 1, i);
    }
  }

  lemma MoverMoves(w: World, i: nat) returns (a: Action)
    requires w.bus.mutex == 1 && i < |w.threads| && CanMove(w, i)
    ensures Enabled(w, a)
  {
    a := if w.threads[i].phase == OnBus then Action.Release(i)
         else if w.threads[i].phase == Woken then Action.Resume(i) else Take(i);
  }

  /** With `mutex` free and somebody on the way, or nobody waiting, some step is possible until all are done. */
  lemma LiveMeansProgress(w: World, i: nat) returns (a: Action)
    requires Accounting(w) && w.bus.mutex == 1 && LiveWorld(w) && i < |w.threads| && w.threads[i].phase != Done
    ensures Enabled(w, a)
  {
    TallyMember(w.threads, i);
    if w.bus.onBus > 0 || InFlight(w.bus, CensusOf(w.threads)) {
      var j := MoverExists(w);
      a := MoverMoves(w, j);
    } else {
      NobodyAtAll(w, i);
      a := Action.Enter(i);
    }
  }

  lemma NobodyAtAll(w: World, i: nat)
    requires Accounting(w) && w.bus.mutex == 1 && w.bus.onBus == 0 && w.bus.registered.Total() == 0
    requires i < |w.threads| && w.threads[i].phase != Done
    ensures w.threads[i].phase == New
  {
    TallyMember(w.threads, i);
    CensusBounds(w.threads);
  }

  lemma LosingMeansNotDone(ws: seq<World>, acts: seq<Action>, j: nat)
    requires Run(ws, acts) && j < |acts| && IsLatestRelease(acts, j, |acts|) && Loses(ws[j], acts[j])
    ensures !AllDone(ws[|acts|])
  {
    AccountingAlways(ws, acts, j);
    AccountingAlways(ws, acts, j + 1);
    StepLosesWakeUp(ws[j], acts[j]);
    WaiterCounts(ws[j + 1]);
    var i :| 0 <= i < |ws[j + 1].threads| && Waits(ws[j + 1].threads[i]);
    NotDoneBefore(ws, acts, j + 1, |acts|, i);
  }

  /** A run that cannot go on has released every task if and only if no woken task has found `bus_slots` at
      zero and the latest release has not lost a wake-up. */
  lemma AllReleasedExactly(ws: seq<World>, acts: seq<Action>)
    requires Run(ws, acts) && forall a :: !Enabled(ws[|acts|], a)
    ensures AllDone(ws[|acts|]) <==> NeverBlocks(ws, acts, |acts|) && LatestKept(ws, acts, |acts|)
  {
    var w := ws[|acts|];
    AccountingAlways(ws, acts, |acts|);
    MutexFreeExactly(ws, acts, |acts|);
    if AllDone(w) {
      NobodyIn(w.threads, Blocked);
      forall j | 0 <= j < |acts| && IsLatestRelease(acts, j, |acts|) ensures !Loses(ws[j], acts[j]) {
        if Loses(ws[j], acts[j]) {
          LosingMeansNotDone(ws, acts, j);
        }
      }
    } else if NeverBlocks(ws, acts, |acts|) && LatestKept(ws, acts, |acts|) {
      var i: nat :| i < |w.threads| && w.threads[i].phase != Done;
      LiveIfLatestKept(ws, acts, |acts|);
      var a := LiveMeansProgress(w, i);
      assert false;
    }
  }
}
