/** Rule 3 of get_slot, which says that a normal task should not get the bus while priority tasks wait: at
    entry and for woken tasks, over whole runs, and under the hand-off schedule. */
module BusPriority {
  import opened BusTypes
  import opened BusProtocol
  import opened BusOrder
  import opened BusHandOff

  predicate PriorityWaits(ts: seq<Thread>) {
    exists i :: 0 <= i < |ts| && ts[i].class_.priority == PRIORITY && ts[i].phase in {Asleep, Woken}
  }

  lemma PriorityIsCounted(w: World)
    requires Counted(w)
    ensures PriorityWaits(w.threads)
       <==> w.bus.registered.Of(Class(SEND, PRIORITY)) > 0 || w.bus.registered.Of(Class(RECEIVE, PRIORITY)) > 0
  {
    var ts := w.threads;
    if i: nat :| i < |ts| && ts[i].class_.priority == PRIORITY && ts[i].phase in {Asleep, Woken} {
      TallyMember(ts, i);
    }
    if w.bus.registered.Of(Class(SEND, PRIORITY)) > 0 {
      var i := SomeRegistered(w, Class(SEND, PRIORITY));
    }
    if w.bus.registered.Of(Class(RECEIVE, PRIORITY)) > 0 {
      var i := SomeRegistered(w, Class(RECEIVE, PRIORITY));
    }
  }

  lemma SomeRegistered(w: World, c: Class) returns (i: nat)
    requires Counted(w) && w.bus.registered.Of(c) > 0
    ensures i < |w.threads| && w.threads[i].class_ == c && w.threads[i].phase in {Asleep, Woken}
  {
    if Tally(w.threads, Asleep).Of(c) > 0 {
      i := TallyWitness(w.threads, c, Asleep);
    } else {
      i := TallyWitness(w.threads, c, Woken);
    }
  }

  // ----- exactly when it is broken

  predicate NormalBoards(w: World, a: Action) {
    Enabled(w, a) && NextPhase(w, a) == OnBus && w.threads[a.i].class_.priority.NORMAL?
  }

  /** By the counters: a normal newcomer boards with a priority task of the other direction registered, which
      get_slot does not look at; or a woken normal task boards with any registered, since then it looks at
      none. */
  predicate Passes(w: World, a: Action) {
    NormalBoards(w, a) &&
    var d := w.threads[a.i].class_.direction;
    if a.Enter? then w.bus.registered.Of(Class(d.Other(), PRIORITY)) > 0
    else w.bus.registered.Of(Class(SEND, PRIORITY)) > 0 || w.bus.registered.Of(Class(RECEIVE, PRIORITY)) > 0
  }

  /** A normal task that boards, at entry or woken, passes a waiting priority task if and only if the counters
      say so. */
  lemma PassesPriorityExactly(ws: seq<World>, acts: seq<Action>, k: nat)
    requires Run(ws, acts) && k < |acts| && NormalBoards(ws[k], acts[k])
    ensures PriorityWaits(ws[k].threads) <==> Passes(ws[k], acts[k])
  {
    AccountingAlways(ws, acts, k);
    PriorityIsCounted(ws[k]);
    RegisteredNonNegative(ws[k]);
  }

  lemma RegisteredNonNegative(w: World)
    requires Counted(w)
    ensures w.bus.registered.NonNegative()
  {
  }

  // A normal task gets on the bus.
  predicate GotBus(t: Thread, t': Thread) {
    t.class_.priority.NORMAL? && t.phase != OnBus && t'.phase == OnBus
  }

  // Between two worlds no normal task has got on the bus past a priority task.
  predicate NobodyPassed(w: World, w': World) {
    && |w'.threads| == |w.threads|
    && forall i :: 0 <= i < |w.threads| && GotBus(w.threads[i], w'.threads[i]) ==> !PriorityWaits(w.threads)
  }

  lemma StepPasses(w: World, a: Action)
    requires Accounting(w) && Enabled(w, a)
    ensures NobodyPassed(w, Next(w, a)) <==> (NormalBoards(w, a) ==> !PriorityWaits(w.threads))
  {
    if NormalBoards(w, a) {
      assert GotBus(w.threads[a.i], Next(w, a).threads[a.i]);
    }
  }

  /** Rule 3 over a whole run of any number of tasks. */
  lemma RuleThreeExactly(ws: seq<World>, acts: seq<Action>)
    requires Run(ws, acts)
    ensures (forall k :: 0 <= k < |acts| ==> NobodyPassed(ws[k], ws[k + 1]))
       <==> (forall k :: 0 <= k < |acts| ==> !Passes(ws[k], acts[k]))
  {
    forall k | 0 <= k < |acts| ensures NobodyPassed(ws[k], ws[k + 1]) <==> !Passes(ws[k], acts[k]) {
      RuleThreeAt(ws, acts, k);
    }
    if k: nat :| k < |acts| && Passes(ws[k], acts[k]) {
      assert !NobodyPassed(ws[k], ws[k + 1]);
    }
  }

  lemma RuleThreeAt(ws: seq<World>, acts: seq<Action>, k: nat)
    requires Run(ws, acts) && k < |acts|
    ensures NobodyPassed(ws[k], ws[k + 1]) <==> !Passes(ws[k], acts[k])
  {
    AccountingAlways(ws, acts, k);
    StepPasses(ws[k], acts[k]);
    if NormalBoards(ws[k], acts[k]) {
      PassesPriorityExactly(ws, acts, k);
    }
  }

  // ----- under the hand-off schedule

  /** While a normal task of a direction has a token or is woken, every sleeping priority task of the direction
      has a token, and none of the other direction is registered. */
  predicate PriorityFirst(b: Bus, n: Census, d: Direction) {
    b.tokens.Of(Class(d, NORMAL)) > 0 || n.woken.Of(Class(d, NORMAL)) > 0 ==>
      && n.asleep.Of(Class(d, PRIORITY)) == b.tokens.Of(Class(d, PRIORITY))
      && b.registered.Of(Class(d.Other(), PRIORITY)) == 0
  }

  lemma EnterKeepsPriority(b: Bus, n: Census, c: Class, d: Direction)
    requires Balanced(b, n) && Small(b, n) && b.waiting == 0
    ensures PriorityFirst(BusTypes.Enter(b, c), n.Shift(c, New, if MustWait(b, c) then Asleep else OnBus), d)
  {
    NobodyOnTheWay(b, n);
  }

  lemma TakeKeepsPriority(b: Bus, n: Census, c: Class, d: Direction)
    requires PriorityFirst(b, n, d) && b.tokens.Of(c) > 0
    ensures PriorityFirst(b.(tokens := b.tokens.Add(c, -1)), n.Shift(c, Asleep, Woken), d)
  {
  }

  lemma ResumeKeepsPriority(b: Bus, n: Census, c: Class, d: Direction)
    requires Balanced(b, n) && Small(b, n) && Orderly(b, n) && PriorityFirst(b, n, d) && n.woken.Of(c) > 0
    ensures PriorityFirst(BusTypes.Resume(b, c), n.Shift(c, Woken, OnBus), d)
  {
    ResumeKeepsOrder(b, n, c);
  }

  lemma ReleaseKeepsPriority(b: Bus, n: Census, c: Class, d: Direction)
    requires Balanced(b, n) && Small(b, n) && Orderly(b, n) && b.mutex > 0 && b.waiting == 0 && n.onBus.Of(c) > 0
    ensures PriorityFirst(BusTypes.Release(b), n.Shift(c, OnBus, Done), d)
  {
    var b', n' := BusTypes.Release(b), n.Shift(c, OnBus, Done);
    NobodyOnTheWay(b, n);
    ShiftToDone(n, c);
    ReleaseKeepsOrder(b, n, c);
    SignalledInOrder(b, d);
    AllAsleep(b, n);
    SignalledFirst(b.registered, b'.tokens, n', d);
    assert b'.registered == b.registered;
  }

  lemma SignalledInOrder(b: Bus, d: Direction)
    requires Roomy(b) && b.onBus > 0 && b.waiting == 0 && b.tokens.IsZero()
    ensures var b' := BusTypes.Release(b);
      && b'.registered == b.registered
      && (b'.tokens.Of(Class(d, NORMAL)) > 0 ==>
           && b'.tokens.Of(Class(d, PRIORITY)) >= b.registered.Of(Class(d, PRIORITY))
           && b.registered.Of(Class(d.Other(), PRIORITY)) == 0)
  {
    ReleaseEffect(b);
    if BusTypes.Release(b).tokens.Of(Class(d, NORMAL)) > 0 {
      ReleasePriorityFirst(b, d);
    }
  }

  lemma AllAsleep(b: Bus, n: Census)
    requires Balanced(b, n) && n.woken.IsZero()
    ensures n.asleep == b.registered
  {
  }

  lemma SignalledFirst(registered: PerClass, tokens: PerClass, n: Census, d: Direction)
    requires tokens.AtMost(n.asleep) && n.asleep == registered && n.woken.IsZero()
    requires tokens.Of(Class(d, NORMAL)) > 0 ==>
      && tokens.Of(Class(d, PRIORITY)) >= registered.Of(Class(d, PRIORITY))
      && registered.Of(Class(d.Other(), PRIORITY)) == 0
    ensures tokens.Of(Class(d, NORMAL)) > 0 || n.woken.Of(Class(d, NORMAL)) > 0 ==>
      && n.asleep.Of(Class(d, PRIORITY)) == tokens.Of(Class(d, PRIORITY))
      && registered.Of(Class(d.Other(), PRIORITY)) == 0
  {
  }

  ghost predicate PriorityOrdered(w: World) {
    PriorityFirst(w.bus, CensusOf(w.threads), SEND) && PriorityFirst(w.bus, CensusOf(w.threads), RECEIVE)
  }

  lemma StepKeepsPriority(w: World, a: Action, d: Direction)
    requires Ordered(w) && Permitted(w, a) && PriorityFirst(w.bus, CensusOf(w.threads), d)
    ensures PriorityFirst(Next(w, a).bus, CensusOf(Next(w, a).threads), d)
  {
    var b, n, c := w.bus, CensusOf(w.threads), w.threads[a.i].class_;
    CensusMove(w.threads, a.i, NextPhase(w, a));
    TallyMember(w.threads, a.i);
    match a
    case Enter(_) => EnterKeepsPriority(b, n, c, d);
    case Take(_) => TakeKeepsPriority(b, n, c, d);
    case Resume(_) => OrderedMeans(w, a.i); ResumeKeepsPriority(b, n, c, d);
    case Unblock(i) => NeverUnblocked(w, i); assert false;
    case Release(_) => ReleaseKeepsPriority(b, n, c, d);
  }

  lemma {:induction false} PriorityOrderedAlways(ws: seq<World>, acts: seq<Action>, k: nat)
    requires HandOffRun(ws, acts) && k < |ws|
    ensures PriorityOrdered(ws[k])
  {
    if k == 0 {
      NewTasksAreNotCounted(ws[0].threads);
    } else {
      PriorityOrderedAlways(ws, acts, k - 1);
      OrderlyAlways(ws, acts, k - 1);
      StepKeepsPriority(ws[k - 1], acts[k - 1], SEND);
      StepKeepsPriority(ws[k - 1], acts[k - 1], RECEIVE);
    }
  }

  /** Rule 3 under the hand-off schedule: a woken normal task that boards passes no priority task but those of
      its own direction that are on their way themselves. */
  lemma HandOffRuleThree(ws: seq<World>, acts: seq<Action>, k: nat)
    requires HandOffRun(ws, acts) && k < |acts| && acts[k].Resume? && NormalBoards(ws[k], acts[k])
    ensures var d := ws[k].threads[acts[k].i].class_.direction;
      && Tally(ws[k].threads, Asleep).Of(Class(d, PRIORITY)) == ws[k].bus.tokens.Of(Class(d, PRIORITY))
      && Tally(ws[k].threads, Asleep).Of(Class(d.Other(), PRIORITY)) == 0
      && Tally(ws[k].threads, Woken).Of(Class(d.Other(), PRIORITY)) == 0
  {
    PriorityOrderedAlways(ws, acts, k);
    AccountingAlways(ws, acts, k);
    TallyMember(ws[k].threads, acts[k].i);
  }
}
