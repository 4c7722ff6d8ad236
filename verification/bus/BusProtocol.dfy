/** Any number of tasks run get_slot and release_slot in any interleaving. What this file proves
    holds without any assumption on the schedule. */
module BusProtocol {
  import opened BusTypes

  // Blocked: woken, counted out of the waiters, stopped at sema_down(&bus_slots) with `mutex` held.
  datatype Phase = New | Asleep | Woken | Blocked | OnBus | Done

  datatype Thread = Thread(class_: Class, phase: Phase)

  datatype World = World(bus: Bus, threads: seq<Thread>)

  /** What task `i` does next. Take is the end of sema_down on a class semaphore. */
  datatype Action = Enter(i: nat) | Take(i: nat) | Resume(i: nat) | Unblock(i: nat) | Release(i: nat)

  predicate Enabled(w: World, a: Action) {
    a.i < |w.threads| &&
    var t := w.threads[a.i];
    match a
    case Enter(_) => t.phase == New && w.bus.mutex > 0
    case Take(_) => t.phase == Asleep && w.bus.tokens.Of(t.class_) > 0
    case Resume(_) => t.phase == Woken && w.bus.mutex > 0
    case Unblock(_) => t.phase == Blocked && w.bus.slots > 0
    case Release(_) => t.phase == OnBus && w.bus.mutex > 0
  }

  function NextBus(w: World, a: Action): Bus
    requires Enabled(w, a)
  {
    var c := w.threads[a.i].class_;
    match a
    case Enter(_) => BusTypes.Enter(w.bus, c)
    case Take(_) => w.bus.(tokens := w.bus.tokens.Add(c, -1))
    case Resume(_) => BusTypes.Resume(w.bus, c)
    case Unblock(_) => Board(w.bus, c).(mutex := w.bus.mutex + 1)
    case Release(_) => BusTypes.Release(w.bus)
  }

  function NextPhase(w: World, a: Action): Phase
    requires Enabled(w, a)
  {
    match a
    case Enter(_) => if MustWait(w.bus, w.threads[a.i].class_) then Asleep else OnBus
    case Take(_) => Woken
    case Resume(_) => if w.bus.slots > 0 then OnBus else Blocked
    case Unblock(_) => OnBus
    case Release(_) => Done
  }

  function Move(ts: seq<Thread>, i: nat, phase: Phase): seq<Thread>
    requires i < |ts|
  {
    ts[i := ts[i].(phase := phase)]
  }

  function Next(w: World, a: Action): World
    requires Enabled(w, a)
  {
    World(NextBus(w, a), Move(w.threads, a.i, NextPhase(w, a)))
  }

  /** batch_scheduler has created the tasks and none has run yet. */
  predicate Initial(w: World) {
    && IsInitial(w.bus)
    && |w.threads| <= MAX_NUM_OF_TASKS
    && forall i :: 0 <= i < |w.threads| ==> w.threads[i].phase == New
  }

  /** `ws` are the worlds passed through when the actions `acts` happen in turn. */
  ghost predicate Run(ws: seq<World>, acts: seq<Action>) {
    && |ws| == |acts| + 1
    && Initial(ws[0])
    && forall k :: 0 <= k < |acts| ==> Enabled(ws[k], acts[k]) && ws[k + 1] == Next(ws[k], acts[k])
  }

  // ----- counting tasks

  /** How many tasks of class `c` are in `phase`. */
  ghost function Count(ts: seq<Thread>, c: Class, phase: Phase): nat {
    if ts == [] then 0
    else Count(ts[1..], c, phase) + if ts[0] == Thread(c, phase) then 1 else 0
  }

  // The tasks in `phase`, class by class.
  ghost function Tally(ts: seq<Thread>, phase: Phase): PerClass {
    PerClass(Pair(Count(ts, Class(SEND, NORMAL), phase), Count(ts, Class(SEND, PRIORITY), phase)),
             Pair(Count(ts, Class(RECEIVE, NORMAL), phase), Count(ts, Class(RECEIVE, PRIORITY), phase)))
  }

  // The tallies of all phases but New, which no counter of the bus depends on.
  datatype Census = Census(asleep: PerClass, woken: PerClass, blocked: PerClass, onBus: PerClass, done: PerClass)
  {
    /** One task of class `c` goes from one phase to another. */
    function Shift(c: Class, from: Phase, to: Phase): Census {
      Census(asleep.Add(c, Delta(from, to, Asleep)), woken.Add(c, Delta(from, to, Woken)),
             blocked.Add(c, Delta(from, to, Blocked)), onBus.Add(c, Delta(from, to, OnBus)),
             done.Add(c, Delta(from, to, Done)))
    }

    predicate NonNegative() {
      asleep.NonNegative() && woken.NonNegative() && blocked.NonNegative() &&
      onBus.NonNegative() && done.NonNegative()
    }

    function Total(): int {
      asleep.Total() + woken.Total() + blocked.Total() + onBus.Total() + done.Total()
    }
  }

  function Delta(from: Phase, to: Phase, phase: Phase): int {
    (if to == phase then 1 else 0) - if from == phase then 1 else 0
  }

  ghost function CensusOf(ts: seq<Thread>): Census {
    Census(Tally(ts, Asleep), Tally(ts, Woken), Tally(ts, Blocked), Tally(ts, OnBus), Tally(ts, Done))
  }

  lemma {:induction false} CensusBounds(ts: seq<Thread>)
    ensures CensusOf(ts).NonNegative() && CensusOf(ts).Total() <= |ts|
  {
    if ts != [] {
      CensusBounds(ts[1..]);
    }
  }

  lemma {:induction false} CountMove(ts: seq<Thread>, i: nat, to: Phase, c: Class, phase: Phase)
    requires i < |ts|
    ensures Count(Move(ts, i, to), c, phase) + (if ts[i] == Thread(c, phase) then 1 else 0)
         == Count(ts, c, phase) + if Thread(ts[i].class_, to) == Thread(c, phase) then 1 else 0
  {
    var us := Move(ts, i, to);
    if i == 0 {
      assert us[1..] == ts[1..];
    } else {
      assert us[1..] == Move(ts[1..], i - 1, to);
      CountMove(ts[1..], i - 1, to, c, phase);
    }
  }

  lemma TallyMove(ts: seq<Thread>, i: nat, to: Phase, phase: Phase)
    requires i < |ts|
    ensures Tally(Move(ts, i, to), phase) == Tally(ts, phase).Add(ts[i].class_, Delta(ts[i].phase, to, phase))
  {
    CountMove(ts, i, to, Class(SEND, NORMAL), phase);
    CountMove(ts, i, to, Class(SEND, PRIORITY), phase);
    CountMove(ts, i, to, Class(RECEIVE, NORMAL), phase);
    CountMove(ts, i, to, Class(RECEIVE, PRIORITY), phase);
  }

  lemma CensusMove(ts: seq<Thread>, i: nat, to: Phase)
    requires i < |ts|
    ensures CensusOf(Move(ts, i, to)) == CensusOf(ts).Shift(ts[i].class_, ts[i].phase, to)
  {
    TallyMove(ts, i, to, Asleep);
    TallyMove(ts, i, to, Woken);
    TallyMove(ts, i, to, Blocked);
    TallyMove(ts, i, to, OnBus);
    TallyMove(ts, i, to, Done);
  }

  lemma {:induction false} CountMember(ts: seq<Thread>, i: nat)
    requires i < |ts|
    ensures Count(ts, ts[i].class_, ts[i].phase) > 0
  {
    if i > 0 {
      CountMember(ts[1..], i - 1);
    }
  }

  /** A task is counted in its own class. */
  lemma TallyMember(ts: seq<Thread>, i: nat)
    requires i < |ts|
    ensures Tally(ts, ts[i].phase).Of(ts[i].class_) > 0
  {
    CountMember(ts, i);
  }

  lemma {:induction false} CountWitness(ts: seq<Thread>, c: Class, phase: Phase) returns (i: nat)
    requires Count(ts, c, phase) > 0
    ensures i < |ts| && ts[i] == Thread(c, phase)
  {
    if ts[0] == Thread(c, phase) {
      i := 0;
    } else {
      i := CountWitness(ts[1..], c, phase);
      i := i + 1;
    }
  }

  /** And what is counted is some task. */
  lemma TallyWitness(ts: seq<Thread>, c: Class, phase: Phase) returns (i: nat)
    requires Tally(ts, phase).Of(c) > 0
    ensures i < |ts| && ts[i] == Thread(c, phase)
  {
    i := CountWitness(ts, c, phase);
  }

  lemma {:induction false} NobodyIn(ts: seq<Thread>, phase: Phase)
    requires forall i :: 0 <= i < |ts| ==> ts[i].phase != phase
    ensures Tally(ts, phase).IsZero()
  {
    if ts != [] {
      NobodyIn(ts[1..], phase);
    }
  }

  predicate Empty(n: Census) {
    n.asleep.IsZero() && n.woken.IsZero() && n.blocked.IsZero() && n.onBus.IsZero() && n.done.IsZero()
  }

  lemma {:induction false} NewTasksAreNotCounted(ts: seq<Thread>)
    requires forall i :: 0 <= i < |ts| ==> ts[i].phase == New
    ensures Empty(CensusOf(ts))
  {
    if ts != [] {
      NewTasksAreNotCounted(ts[1..]);
    }
  }

  // ----- the accounting kept by every step of every interleaving

  /** The counters of the bus against the census of the tasks. */
  predicate Balanced(b: Bus, n: Census) {
    && b.slots + b.onBus == BUS_CAPACITY && 0 <= b.slots
    && b.onBus == n.onBus.Total()
    && b.registered.IsSum(n.asleep, n.woken)
    && b.tokens.NonNegative()
    && b.waiting == b.tokens.Total() + n.woken.Total()
    && (b.direction != Idle ==> b.onBus > 0 || b.waiting > 0)
    && (b.onBus > 0 ==> b.direction != Idle)
    && b.mutex == 1 - n.blocked.Total() && 0 <= b.mutex
    && (b.mutex == 0 ==> b.slots == 0)
  }

  // Every call of release_slot signals each class at most once, and no more often than it has
  // registered tasks, so that no counter comes near the end of a 32-bit int.
  predicate Small(b: Bus, n: Census) {
    && n.NonNegative() && n.Total() <= MAX_NUM_OF_TASKS
    && b.waiting <= 800 * n.done.Total()
  }

  ghost predicate Accounting(w: World) {
    && |w.threads| <= MAX_NUM_OF_TASKS
    && Balanced(w.bus, CensusOf(w.threads))
    && Small(w.bus, CensusOf(w.threads))
  }

  // What of it says who is aboard and who waits.
  ghost predicate Counted(w: World) {
    && w.bus.onBus == Tally(w.threads, OnBus).Total()
    && w.bus.registered.IsSum(Tally(w.threads, Asleep), Tally(w.threads, Woken))
  }

  lemma InitialBalance(b: Bus, n: Census)
    requires IsInitial(b) && Empty(n)
    ensures Balanced(b, n)
  {
  }

  lemma InitialSmall(b: Bus, n: Census)
    requires IsInitial(b) && Empty(n)
    ensures Small(b, n)
  {
  }

  lemma InitialAccounting(w: World)
    requires Initial(w)
    ensures Accounting(w)
  {
    NewTasksAreNotCounted(w.threads);
    InitialBalance(w.bus, CensusOf(w.threads));
    InitialSmall(w.bus, CensusOf(w.threads));
  }

  /** The MIN macro, exactly: a negative number of empty slots selects `waiting`. */
  lemma ToWakeMeaning(b: Bus, c: Class)
    requires -100 <= b.onBus <= 100 && -1_000_000 <= b.waiting <= 1_000_000
    requires 0 <= b.registered.Of(c) <= MAX_NUM_OF_TASKS
    ensures var empty := BUS_CAPACITY - b.onBus - b.waiting;
      ToWake(b, c) == if 0 <= empty < b.registered.Of(c) then empty else b.registered.Of(c)
  {
  }

  lemma SignalEffect(b: Bus, c: Class, n: int)
    requires 0 <= n
    ensures var b' := Signal(b, c, n);
      && b' == b.(waiting := b.waiting + n, tokens := b.tokens.Add(c, n))
      && b'.tokens.Total() == b.tokens.Total() + n
      && b.tokens.AtMost(b'.tokens)
  {
  }

  // What signalling leaves alone and how far it goes.
  predicate Signalled(b: Bus, b': Bus, limit: int) {
    && b' == b.(direction := b'.direction, waiting := b'.waiting, tokens := b'.tokens)
    && b.tokens.AtMost(b'.tokens)
    && b'.waiting - b.waiting == b'.tokens.Total() - b.tokens.Total()
    && b.waiting <= b'.waiting <= b.waiting + limit
  }

  /** One half of release_slot. */
  lemma WakeTowardEffect(b: Bus, d: Direction)
    requires 0 <= b.onBus <= 3 && 0 <= b.waiting <= 200_000
    requires b.registered.NonNegative() && b.registered.Total() <= 200
    ensures var b' := WakeToward(b, d);
      && Signalled(b, b', 400)
      && (b'.direction != b.direction ==> b'.direction == Carrying(d) && b'.waiting > b.waiting)
      && (b.direction == Carrying(d.Other()) ==> b' == b)
  {
    var p, n := Class(d, PRIORITY), Class(d, NORMAL);
    var n1 := ToWake(b, p);
    ToWakeMeaning(b, p);
    SignalEffect(b, p, n1);
    var b1 := Signal(b, p, n1);
    ToWakeMeaning(b1, n);
    SignalEffect(b1, n, ToWake(b1, n));
    SignalEffect(b1, n, 0);
  }

  lemma ReleaseEffect(b: Bus)
    requires 1 <= b.onBus <= 3 && 0 <= b.waiting <= 160_000
    requires b.registered.NonNegative() && b.registered.Total() <= 200
    ensures var b' := BusTypes.Release(b);
      && Signalled(b.(onBus := b.onBus - 1, slots := b.slots + 1), b', 800)
      && (b.onBus > 1 && b.direction != Idle ==> b'.direction == b.direction)
      && (b.onBus == 1 && b'.direction != Idle ==> b'.waiting > b.waiting)
  {
    WakeTowardEffect(Leave(b), SEND);
    WakeTowardEffect(WakeToward(Leave(b), SEND), RECEIVE);
  }

  // How many tasks of each priority one half of release_slot wakes while nobody is in excess.
  function WakesPriority(b: Bus, d: Direction): int {
    Min(BUS_CAPACITY - b.onBus - b.waiting, b.registered.Of(Class(d, PRIORITY)))
  }

  function WakesNormal(b: Bus, d: Direction): int {
    if b.registered.Of(Class(d.Other(), PRIORITY)) == 0
    then Min(BUS_CAPACITY - b.onBus - b.waiting - WakesPriority(b, d), b.registered.Of(Class(d, NORMAL)))
    else 0
  }

  function Min(a: int, b: int): int {
    if a < b then a else b
  }

  predicate Roomy(b: Bus) {
    && 0 <= b.onBus && 0 <= b.waiting && b.onBus + b.waiting <= BUS_CAPACITY
    && b.registered.NonNegative() && b.registered.Total() <= MAX_NUM_OF_TASKS
  }

  /** When the tasks aboard and on their way fit, one half of release_slot wakes exactly that many. */
  lemma WakeTowardExact(b: Bus, d: Direction)
    requires Roomy(b) && b.direction != Carrying(d.Other())
    ensures var n1, n2 := WakesPriority(b, d), WakesNormal(b, d);
      WakeToward(b, d) == b.(
        tokens := b.tokens.Add(Class(d, PRIORITY), n1).Add(Class(d, NORMAL), n2),
        waiting := b.waiting + n1 + n2,
        direction := if n1 + n2 > 0 then Carrying(d) else b.direction)
  {
    var p, n := Class(d, PRIORITY), Class(d, NORMAL);
    ToWakeMeaning(b, p);
    assert ToWake(b, p) == WakesPriority(b, d);
    SignalEffect(b, p, WakesPriority(b, d));
    var b1 := Signal(b, p, WakesPriority(b, d));
    ToWakeMeaning(b1, n);
    assert ToWake(b1, n) == Min(BUS_CAPACITY - b1.onBus - b1.waiting, b.registered.Of(n));
  }

  lemma EnterKeepsBalance(b: Bus, n: Census, c: Class)
    requires Balanced(b, n) && Small(b, n) && b.mutex > 0
    ensures Balanced(BusTypes.Enter(b, c), n.Shift(c, New, if MustWait(b, c) then Asleep else OnBus))
  {
  }

  lemma TakeKeepsBalance(b: Bus, n: Census, c: Class)
    requires Balanced(b, n) && Small(b, n) && b.tokens.Of(c) > 0
    ensures Balanced(b.(tokens := b.tokens.Add(c, -1)), n.Shift(c, Asleep, Woken))
  {
  }

  lemma ResumeKeepsBalance(b: Bus, n: Census, c: Class)
    requires Balanced(b, n) && Small(b, n) && b.mutex > 0
    ensures Balanced(BusTypes.Resume(b, c), n.Shift(c, Woken, if b.slots > 0 then OnBus else Blocked))
  {
  }

  lemma ReleaseKeepsBalance(b: Bus, n: Census, c: Class)
    requires Balanced(b, n) && Small(b, n) && b.mutex > 0 && n.onBus.Of(c) > 0
    ensures Balanced(BusTypes.Release(b), n.Shift(c, OnBus, Done))
    ensures BusTypes.Release(b).waiting <= b.waiting + 800
  {
    ReleaseEffect(b);
  }

  /** A task that blocks on `bus_slots` while it holds `mutex` never gets a slot: nobody can leave. */
  lemma NeverUnblocked(w: World, i: nat)
    requires Accounting(w)
    ensures !Enabled(w, Unblock(i))
  {
    if i < |w.threads| && w.threads[i].phase == Blocked {
      TallyMember(w.threads, i);
    }
  }

  lemma StepKeepsBalance(w: World, a: Action)
    requires Accounting(w) && Enabled(w, a)
    ensures var t := w.threads[a.i];
      Balanced(NextBus(w, a), CensusOf(w.threads).Shift(t.class_, t.phase, NextPhase(w, a)))
    ensures NextBus(w, a).waiting <= w.bus.waiting + if a.Release? then 800 else 0
  {
    var b, n, c := w.bus, CensusOf(w.threads), w.threads[a.i].class_;
    match a
    case Enter(_) => EnterKeepsBalance(b, n, c);
    case Take(_) => TakeKeepsBalance(b, n, c);
    case Resume(_) => ResumeKeepsBalance(b, n, c);
    case Unblock(i) => NeverUnblocked(w, i); assert false;
    case Release(i) => TallyMember(w.threads, i); ReleaseKeepsBalance(b, n, c);
  }

  lemma ShiftKeepsSmall(b: Bus, b': Bus, n: Census, c: Class, from: Phase, to: Phase)
    requires Small(b, n) && from != Done
    requires n.Shift(c, from, to).NonNegative() && n.Shift(c, from, to).Total() <= MAX_NUM_OF_TASKS
    requires b'.waiting <= b.waiting + if to == Done then 800 else 0
    ensures Small(b', n.Shift(c, from, to))
  {
  }

  lemma StepKeepsAccounting(w: World, a: Action)
    requires Accounting(w) && Enabled(w, a)
    ensures Accounting(Next(w, a))
  {
    var t := w.threads[a.i];
    CensusMove(w.threads, a.i, NextPhase(w, a));
    CensusBounds(Next(w, a).threads);
    StepKeepsBalance(w, a);
    ShiftKeepsSmall(w.bus, NextBus(w, a), CensusOf(w.threads), t.class_, t.phase, NextPhase(w, a));
  }

  /** Between critical sections every counter is exact, in every interleaving. */
  lemma {:induction false} AccountingAlways(ws: seq<World>, acts: seq<Action>, k: nat)
    requires Run(ws, acts) && k < |ws|
    ensures Accounting(ws[k]) && |ws[k].threads| == |ws[0].threads|
  {
    if k == 0 {
      InitialAccounting(ws[0]);
    } else {
      AccountingAlways(ws, acts, k - 1);
      StepKeepsAccounting(ws[k - 1], acts[k - 1]);
    }
  }
}
