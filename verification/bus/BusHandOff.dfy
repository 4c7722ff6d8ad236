/** The hand-off schedule: while a woken task is on its way (waiting_task > 0), no newcomer and no
    releaser takes `mutex`. Under it the bus is half-duplex, nothing blocks, no wake-up is lost and
    every run finishes. */
module BusHandOff {
  import opened BusTypes
  import opened BusProtocol
  import opened BusOrder

  predicate HandOff(w: World, a: Action) {
    a.Enter? || a.Release? ==> w.bus.waiting == 0
  }

  predicate Permitted(w: World, a: Action) {
    Enabled(w, a) && HandOff(w, a)
  }

  ghost predicate HandOffRun(ws: seq<World>, acts: seq<Action>) {
    Run(ws, acts) && forall k :: 0 <= k < |acts| ==> HandOff(ws[k], acts[k])
  }

  // ----- the invariant, on the counters and the census

  predicate OneWay(b: Bus, n: Census, d: Direction) {
    b.direction != Carrying(d) ==> n.onBus.Toward(d) == 0 && n.woken.Toward(d) == 0 && b.tokens.Toward(d) == 0
  }

  predicate Orderly(b: Bus, n: Census) {
    && b.mutex == 1
    && b.onBus + b.waiting <= BUS_CAPACITY
    && b.tokens.AtMost(n.asleep)
    && OneWay(b, n, SEND) && OneWay(b, n, RECEIVE)
    && (b.registered.Total() > 0 ==> b.onBus > 0 || b.waiting > 0)
  }

  // What a release under the hand-off leaves behind.
  predicate WokenFor(b: Bus, b': Bus) {
    && b'.onBus == b.onBus && b'.onBus + b'.waiting <= BUS_CAPACITY
    && b'.tokens.AtMost(b.registered)
    && (b'.direction != Carrying(SEND) ==> b'.tokens.Toward(SEND) == 0)
    && (b'.direction != Carrying(RECEIVE) ==> b'.tokens.Toward(RECEIVE) == 0)
  }

  lemma WakeFresh(left: Bus, d: Direction)
    requires Roomy(left) && left.waiting == 0 && left.tokens.IsZero() && left.direction != Carrying(d.Other())
    ensures var b := WakeToward(left, d);
      && WokenFor(left, b)
      && (b.waiting > 0 ==> b.direction == Carrying(d))
      && (b.waiting == 0 ==> b == left)
      && (b.waiting == 0 && left.onBus < 3 ==>
            && left.registered.Of(Class(d, PRIORITY)) == 0
            && (left.registered.Toward(d) == 0 || left.registered.Of(Class(d.Other(), PRIORITY)) > 0))
  {
    WakeTowardExact(left, d);
  }

  lemma ReleaseFresh(left: Bus)
    requires Roomy(left) && left.waiting == 0 && left.tokens.IsZero()
    ensures WokenFor(left, WakeToward(WakeToward(left, SEND), RECEIVE))
    ensures left.direction == Idle && left.onBus < 3 && left.registered.Total() > 0 ==>
      WakeToward(WakeToward(left, SEND), RECEIVE).waiting > 0
  {
    if left.direction == Carrying(RECEIVE) {
      WakeFresh(left, RECEIVE);
    } else {
      WakeFresh(left, SEND);
      if left.direction == Idle && WakeToward(left, SEND).waiting == 0 {
        WakeFresh(left, RECEIVE);
      }
    }
  }

  lemma EnterKeepsOrder(b: Bus, n: Census, c: Class)
    requires Balanced(b, n) && Small(b, n) && Orderly(b, n) && b.waiting == 0
    ensures Orderly(BusTypes.Enter(b, c), n.Shift(c, New, if MustWait(b, c) then Asleep else OnBus))
  {
  }

  lemma TakeKeepsOrder(b: Bus, n: Census, c: Class)
    requires Balanced(b, n) && Small(b, n) && Orderly(b, n) && b.tokens.Of(c) > 0
    ensures Orderly(b.(tokens := b.tokens.Add(c, -1)), n.Shift(c, Asleep, Woken))
  {
  }

  lemma ResumeKeepsOrder(b: Bus, n: Census, c: Class)
    requires Balanced(b, n) && Small(b, n) && Orderly(b, n) && n.woken.Of(c) > 0
    ensures b.slots > 0
    ensures Orderly(BusTypes.Resume(b, c), n.Shift(c, Woken, OnBus))
  {
  }

  lemma NobodyOnTheWay(b: Bus, n: Census)
    requires Balanced(b, n) && Small(b, n) && b.waiting == 0
    ensures n.woken.IsZero() && b.tokens.IsZero()
    ensures Roomy(b)
  {
  }

  lemma ReleaseKeepsOrder(b: Bus, n: Census, c: Class)
    requires Balanced(b, n) && Small(b, n) && Orderly(b, n) && b.waiting == 0 && n.onBus.Of(c) > 0
    ensures Orderly(BusTypes.Release(b), n.Shift(c, OnBus, Done))
  {
    NobodyOnTheWay(b, n);
    ReleaseEffect(b);
    ReleaseFresh(Leave(b));
    ShiftToDone(n, c);
    ReleasedOrder(b, BusTypes.Release(b), n, n.Shift(c, OnBus, Done), c);
  }

  // What the census keeps and changes when a task of class `c` leaves.
  predicate LeftBy(n: Census, n': Census, c: Class) {
    n'.asleep == n.asleep && n'.woken == n.woken && n'.onBus == n.onBus.Add(c, -1)
  }

  lemma ShiftToDone(n: Census, c: Class)
    ensures LeftBy(n, n.Shift(c, OnBus, Done), c)
  {
  }

  lemma ReleasedOrder(b: Bus, b': Bus, n: Census, n': Census, c: Class)
    requires Balanced(b, n) && Small(b, n) && Orderly(b, n) && n.onBus.Of(c) > 0
    requires n.woken.IsZero() && LeftBy(n, n', c)
    requires WokenFor(Leave(b), b')
    requires b'.mutex == b.mutex && b'.registered == b.registered
    requires b.onBus > 1 ==> b'.direction == b.direction
    requires b.onBus == 1 && b.registered.Total() > 0 ==> b'.waiting > 0
    ensures Orderly(b', n')
  {
    ReleasedOneWay(b, b', n, n', c, SEND);
    ReleasedOneWay(b, b', n, n', c, RECEIVE);
  }

  lemma ReleasedOneWay(b: Bus, b': Bus, n: Census, n': Census, c: Class, d: Direction)
    requires Small(b, n) && OneWay(b, n, d) && n.onBus.Of(c) > 0 && b.onBus == n.onBus.Total()
    requires n.woken.IsZero() && LeftBy(n, n', c)
    requires WokenFor(Leave(b), b')
    requires b.onBus > 1 ==> b'.direction == b.direction
    ensures OneWay(b', n', d)
  {
    if b'.direction != Carrying(d) {
      LeaveOneWay(n.onBus, c, d);
    }
  }

  lemma LeaveOneWay(onBus: PerClass, c: Class, d: Direction)
    requires onBus.NonNegative() && onBus.Of(c) > 0
    requires onBus.Total() > 1 ==> onBus.Toward(d) == 0
    ensures onBus.Add(c, -1).Toward(d) == 0
  {
  }

  ghost predicate Ordered(w: World) {
    Accounting(w) && Orderly(w.bus, CensusOf(w.threads))
  }

  lemma InitialIsOrderly(b: Bus, n: Census)
    requires IsInitial(b) && Empty(n)
    ensures Orderly(b, n)
  {
  }

  lemma InitialOrder(w: World)
    requires Initial(w)
    ensures Ordered(w)
  {
    assert Accounting(w) by {
      InitialAccounting(w);
    }
    assert Orderly(w.bus, CensusOf(w.threads)) by {
      NewTasksAreNotCounted(w.threads);
      InitialIsOrderly(w.bus, CensusOf(w.threads));
    }
  }

  lemma StepKeepsOrder(w: World, a: Action)
    requires Ordered(w) && Permitted(w, a)
    ensures Ordered(Next(w, a))
  {
    StepKeepsAccounting(w, a);
    var b, n, c := w.bus, CensusOf(w.threads), w.threads[a.i].class_;
    CensusMove(w.threads, a.i, NextPhase(w, a));
    TallyMember(w.threads, a.i);
    match a
    case Enter(_) => EnterKeepsOrder(b, n, c);
    case Take(_) => TakeKeepsOrder(b, n, c);
    case Resume(_) => ResumeKeepsOrder(b, n, c);
    case Unblock(i) => NeverUnblocked(w, i); assert false;
    case Release(_) => ReleaseKeepsOrder(b, n, c);
  }

  lemma {:induction false} OrderlyAlways(ws: seq<World>, acts: seq<Action>, k: nat)
    requires HandOffRun(ws, acts) && k < |ws|
    ensures Ordered(ws[k])
  {
    if k == 0 {
      InitialOrder(ws[0]);
    } else {
      OrderlyAlways(ws, acts, k - 1);
      StepKeepsOrder(ws[k - 1], acts[k - 1]);
    }
  }

  // ----- what it says about the tasks

  /** What the invariant says about one task. */
  lemma OrderedMeans(w: World, i: nat)
    requires Ordered(w) && i < |w.threads|
    ensures w.threads[i].phase != Blocked
    ensures w.threads[i].phase == Woken ==> w.bus.slots > 0
    ensures w.threads[i].phase in {OnBus, Woken} ==> w.bus.direction == Carrying(w.threads[i].class_.direction)
    ensures w.bus.registered.Total() > 0 ==> w.bus.onBus > 0 || w.bus.waiting > 0
  {
    TallyMember(w.threads, i);
  }

  /** Rule 2 and rule 1 of get_slot in every world of every hand-off run: tasks aboard and tasks on
      their way share the bus direction, together they fit, and no class semaphore holds more tokens
      than it has sleepers. */
  lemma HandOffHalfDuplex(ws: seq<World>, acts: seq<Action>, k: nat)
    requires HandOffRun(ws, acts) && k < |ws|
    ensures forall i :: 0 <= i < |ws[k].threads| && ws[k].threads[i].phase in {OnBus, Woken} ==>
      ws[k].bus.direction == Carrying(ws[k].threads[i].class_.direction)
    ensures HalfDuplex(ws[k])
    ensures ws[k].bus.onBus + ws[k].bus.waiting <= BUS_CAPACITY
    ensures ws[k].bus.tokens.AtMost(Tally(ws[k].threads, Asleep))
  {
    OrderlyAlways(ws, acts, k);
    var ts := ws[k].threads;
    forall i | 0 <= i < |ts| && ts[i].phase in {OnBus, Woken}
      ensures ws[k].bus.direction == Carrying(ts[i].class_.direction)
    {
      OrderedMeans(ws[k], i);
    }
  }

  /** A registered task is never forgotten, and `bus_slots` is never down'ed at zero with `mutex` held. */
  lemma HandOffNoLostWakeUp(ws: seq<World>, acts: seq<Action>, k: nat)
    requires HandOffRun(ws, acts) && k < |ws|
    ensures ws[k].bus.registered.Total() > 0 ==> ws[k].bus.onBus > 0 || ws[k].bus.waiting > 0
    ensures forall i :: 0 <= i < |ws[k].threads| ==> ws[k].threads[i].phase != Blocked
    ensures k < |acts| && acts[k].Resume? ==> ws[k].bus.slots > 0
  {
    OrderlyAlways(ws, acts, k);
    forall i | 0 <= i < |ws[k].threads|
      ensures ws[k].threads[i].phase != Blocked
      ensures ws[k].threads[i].phase == Woken ==> ws[k].bus.slots > 0
    {
      OrderedMeans(ws[k], i);
    }
  }

  // ----- every run finishes

  function Rank(phase: Phase): nat {
    match phase
    case New => 4
    case Asleep => 3
    case Woken => 2
    case Blocked => 1
    case OnBus => 1
    case Done => 0
  }

  ghost function Remaining(ts: seq<Thread>): nat {
    if ts == [] then 0 else Rank(ts[0].phase) + Remaining(ts[1..])
  }

  lemma {:induction false} RemainingBound(ts: seq<Thread>)
    ensures Remaining(ts) <= 4 * |ts|
  {
    if ts != [] {
      RemainingBound(ts[1..]);
    }
  }

  lemma {:induction false} RemainingMove(ts: seq<Thread>, i: nat, to: Phase)
    requires i < |ts|
    ensures Remaining(Move(ts, i, to)) == Remaining(ts) - Rank(ts[i].phase) + Rank(to)
  {
    var us := Move(ts, i, to);
    if i == 0 {
      assert us[1..] == ts[1..];
    } else {
      RemainingMove(ts[1..], i - 1, to);
      assert us[1..] == Move(ts[1..], i - 1, to);
    }
  }

  lemma StepLowersRemaining(w: World, a: Action)
    requires Ordered(w) && Permitted(w, a)
    ensures Remaining(Next(w, a).threads) < Remaining(w.threads)
  {
    OrderedMeans(w, a.i);
    RemainingMove(w.threads, a.i, NextPhase(w, a));
  }

  lemma {:induction false} RunsAreShort(ws: seq<World>, acts: seq<Action>, k: nat)
    requires HandOffRun(ws, acts) && k < |ws|
    ensures k + Remaining(ws[k].threads) <= 4 * |ws[0].threads|
  {
    if k == 0 {
      RemainingBound(ws[0].threads);
    } else {
      RunsAreShort(ws, acts, k - 1);
      OrderlyAlways(ws, acts, k - 1);
      StepLowersRemaining(ws[k - 1], acts[k - 1]);
    }
  }

  lemma PositiveClass(n: PerClass) returns (c: Class)
    requires n.NonNegative() && n.Total() > 0
    ensures n.Of(c) > 0
  {
    c := if n.send.normal > 0 then Class(SEND, NORMAL) else if n.receive.normal > 0 then Class(RECEIVE, NORMAL)
         else if n.send.priority > 0 then Class(SEND, PRIORITY) else Class(RECEIVE, PRIORITY);
  }

  lemma SomeTaskIn(ts: seq<Thread>, phase: Phase) returns (i: nat)
    requires Tally(ts, phase).Total() > 0
    ensures i < |ts| && ts[i].phase == phase
  {
    var c := PositiveClass(Tally(ts, phase));
    i := TallyWitness(ts, c, phase);
  }

  /** A task on its way can always move. */
  lemma WaitingCanMove(w: World) returns (a: Action)
    requires Ordered(w) && w.bus.waiting > 0
    ensures Permitted(w, a)
  {
    if w.bus.tokens.Total() > 0 {
      var c := PositiveClass(w.bus.tokens);
      var i := TallyWitness(w.threads, c, Asleep);
      a := Take(i);
    } else {
      var i := SomeTaskIn(w.threads, Woken);
      a := Action.Resume(i);
    }
  }

  /** No deadlock: while some task is not done, some step is permitted. */
  lemma SomethingPermitted(w: World, i: nat) returns (a: Action)
    requires Ordered(w)
    requires i < |w.threads| && w.threads[i].phase != Done
    ensures Permitted(w, a)
  {
    TallyMember(w.threads, i);
    CensusBounds(w.threads);
    if w.bus.waiting > 0 {
      a := WaitingCanMove(w);
    } else if w.threads[i].phase == New {
      a := Action.Enter(i);
    } else {
      var j := SomeTaskIn(w.threads, OnBus);
      a := Action.Release(j);
    }
  }

  predicate AllDone(w: World) {
    forall i :: 0 <= i < |w.threads| ==> w.threads[i].phase == Done
  }

  lemma EmptyMeansInitialBus(b: Bus, n: Census)
    requires Balanced(b, n) && Orderly(b, n)
    requires n.asleep.IsZero() && n.woken.IsZero() && n.onBus.IsZero()
    ensures IsInitial(b)
  {
  }

  lemma AllDoneMeansInitialBus(w: World)
    requires Ordered(w) && AllDone(w)
    ensures IsInitial(w.bus)
  {
    NobodyIn(w.threads, Asleep);
    NobodyIn(w.threads, Woken);
    NobodyIn(w.threads, OnBus);
    EmptyMeansInitialBus(w.bus, CensusOf(w.threads));
  }

  lemma MaximalMeansAllDone(w: World)
    requires Ordered(w)
    ensures (forall a :: !Permitted(w, a)) <==> AllDone(w)
  {
    if i: nat :| i < |w.threads| && w.threads[i].phase != Done {
      var a := SomethingPermitted(w, i);
      assert Permitted(w, a);
    } else {
      assert AllDone(w);
      forall a ensures !Enabled(w, a) {
      }
    }
  }

  /** Every hand-off run of N tasks takes at most 4N steps, and one that cannot be extended has
      released every task and left the bus as init_bus made it. */
  lemma HandOffRunsFinish(ws: seq<World>, acts: seq<Action>)
    requires HandOffRun(ws, acts)
    ensures |acts| <= 4 * |ws[0].threads|
    ensures (forall a :: !Permitted(ws[|acts|], a)) <==> AllDone(ws[|acts|])
    ensures AllDone(ws[|acts|]) ==> IsInitial(ws[|acts|].bus)
  {
    RunsAreShort(ws, acts, |acts|);
    OrderlyAlways(ws, acts, |acts|);
    MaximalMeansAllDone(ws[|acts|]);
    if AllDone(ws[|acts|]) {
      AllDoneMeansInitialBus(ws[|acts|]);
    }
  }
}
