/** In every interleaving: the order in which release_slot wakes, exactly when a run stays
    half-duplex, and what happens after a task blocks with `mutex` held. */
module BusOrder {
  import opened BusTypes
  import opened BusProtocol

  lemma {:induction false} WakeTowardPriorityFirst(b: Bus, d: Direction)
    requires 0 <= b.onBus <= 3 && 0 <= b.waiting <= 200_000
    requires b.registered.NonNegative() && b.registered.Total() <= 200 && b.tokens.NonNegative()
    ensures var b' := WakeToward(b, d); var normal, priority := Class(d, NORMAL), Class(d, PRIORITY);
      && b'.tokens.Toward(d.Other()) == b.tokens.Toward(d.Other())
      && b.tokens.AtMost(b'.tokens)
      && (b'.tokens.Of(normal) > b.tokens.Of(normal) ==>
            && b'.tokens.Of(priority) >= b.registered.Of(priority)
            && b.registered.Of(Class(d.Other(), PRIORITY)) == 0)
  {
    var p, n := Class(d, PRIORITY), Class(d, NORMAL);
    ToWakeMeaning(b, p);
    ToWakeMeaning(Signal(b, p, ToWake(b, p)), n);
  }

  lemma ReleasePriorityFirst(b: Bus, d: Direction)
    requires 1 <= b.onBus <= 3 && 0 <= b.waiting <= 160_000
    requires b.registered.NonNegative() && b.registered.Total() <= 200 && b.tokens.NonNegative()
    requires BusTypes.Release(b).tokens.Of(Class(d, NORMAL)) > b.tokens.Of(Class(d, NORMAL))
    ensures BusTypes.Release(b).registered == b.registered
    ensures BusTypes.Release(b).tokens.Of(Class(d, PRIORITY)) >= b.registered.Of(Class(d, PRIORITY))
    ensures b.registered.Of(Class(d.Other(), PRIORITY)) == 0
  {
    var left := Leave(b);
    var half := WakeToward(left, SEND);
    WakeTowardEffect(left, SEND);
    WakeTowardPriorityFirst(left, SEND);
    WakeTowardEffect(half, RECEIVE);
    WakeTowardPriorityFirst(half, RECEIVE);
  }

  /** When release_slot signals a normal waiter, every registered priority task of that direction
      has a token already, and no priority task of the other direction is registered; this includes
      the calls where task_on_bus + waiting_task exceeds the capacity. */
  lemma PriorityWokenFirst(ws: seq<World>, acts: seq<Action>, k: nat, d: Direction)
    requires Run(ws, acts) && k < |acts| && acts[k].Release?
    requires ws[k + 1].bus.tokens.Of(Class(d, NORMAL)) > ws[k].bus.tokens.Of(Class(d, NORMAL))
    ensures ws[k + 1].bus.tokens.Of(Class(d, PRIORITY)) >= Tally(ws[k + 1].threads, Asleep).Of(Class(d, PRIORITY))
    ensures ws[k + 1].bus.registered.Of(Class(d.Other(), PRIORITY)) == 0
  {
    AccountingAlways(ws, acts, k);
    AccountingAlways(ws, acts, k + 1);
    CanRelease(ws[k], acts[k]);
    ReleasePriorityFirst(ws[k].bus, d);
    AsleepAreRegistered(ws[k + 1], Class(d, PRIORITY));
  }

  lemma CanRelease(w: World, a: Action)
    requires Accounting(w) && Enabled(w, a) && a.Release?
    ensures 1 <= w.bus.onBus <= 3 && 0 <= w.bus.waiting <= 160_000
    ensures w.bus.registered.NonNegative() && w.bus.registered.Total() <= 200 && w.bus.tokens.NonNegative()
  {
    TallyMember(w.threads, a.i);
    CensusBounds(w.threads);
  }

  lemma AsleepAreRegistered(w: World, c: Class)
    requires Counted(w)
    ensures Tally(w.threads, Asleep).Of(c) <= w.bus.registered.Of(c)
  {
  }

  /** At entry only half of that holds: a normal task that boards at once leaves no priority task of its
      own direction behind, asleep or woken. */
  lemma NoPriorityLeftBehind(ws: seq<World>, acts: seq<Action>, k: nat)
    requires Run(ws, acts) && k < |acts| && acts[k].Enter? && NextPhase(ws[k], acts[k]) == OnBus
    requires ws[k].threads[acts[k].i].class_.priority == NORMAL
    ensures var c := Class(ws[k].threads[acts[k].i].class_.direction, PRIORITY);
      Tally(ws[k].threads, Asleep).Of(c) == 0 && Tally(ws[k].threads, Woken).Of(c) == 0
  {
    AccountingAlways(ws, acts, k);
  }

  // ----- half-duplex, exactly

  predicate HalfDuplex(w: World) {
    forall i, j :: 0 <= i < |w.threads| && 0 <= j < |w.threads| &&
                   w.threads[i].phase == OnBus && w.threads[j].phase == OnBus ==>
                   w.threads[i].class_.direction == w.threads[j].class_.direction
  }

  predicate Aligned(w: World) {
    forall i :: 0 <= i < |w.threads| && w.threads[i].phase == OnBus ==>
                w.bus.direction == Carrying(w.threads[i].class_.direction)
  }

  /** The test that get_slot leaves out at line 270: a woken task boards an empty bus, or one that
      carries its own direction (or it cannot board at all). */
  predicate MayBoard(w: World, a: Action)
    requires Enabled(w, a)
  {
    a.Resume? ==> w.bus.slots == 0 || w.bus.onBus == 0 ||
                  w.bus.direction == Carrying(w.threads[a.i].class_.direction)
  }

  lemma AboardMeansOnBus(w: World, i: nat)
    requires Counted(w) && i < |w.threads| && w.threads[i].phase == OnBus
    ensures w.bus.onBus > 0
  {
    TallyMember(w.threads, i);
  }

  lemma OnBusMeansAboard(w: World) returns (i: nat)
    requires Counted(w) && w.bus.onBus > 0
    ensures i < |w.threads| && w.threads[i].phase == OnBus
  {
    var n := Tally(w.threads, OnBus);
    var c := if n.send.normal > 0 then Class(SEND, NORMAL) else if n.receive.normal > 0 then Class(RECEIVE, NORMAL)
             else if n.send.priority > 0 then Class(SEND, PRIORITY) else Class(RECEIVE, PRIORITY);
    i := TallyWitness(w.threads, c, OnBus);
  }

  lemma StepKeepsAligned(w: World, a: Action)
    requires Accounting(w) && Enabled(w, a) && Aligned(w) && MayBoard(w, a)
    ensures Aligned(Next(w, a))
  {
    var w' := Next(w, a);
    StepKeepsAccounting(w, a);
    NeverUnblocked(w, a.i);
    forall i | 0 <= i < |w'.threads| && w'.threads[i].phase == OnBus
      ensures w'.bus.direction == Carrying(w'.threads[i].class_.direction)
    {
      AboardMeansOnBus(w', i);
      if i != a.i {
        AboardMeansOnBus(w, i);
        if a.Release? {
          CensusBounds(w.threads);
          ReleaseEffect(w.bus);
        }
      }
    }
  }

  lemma StepBreaksHalfDuplex(w: World, a: Action)
    requires Accounting(w) && Enabled(w, a) && Aligned(w) && !MayBoard(w, a)
    ensures !HalfDuplex(Next(w, a))
  {
    var j := OnBusMeansAboard(w);
    var w' := Next(w, a);
    assert w'.threads[j] == w.threads[j] && w'.threads[a.i].phase == OnBus;
  }

  lemma {:induction false} AlignedWhileMayBoard(ws: seq<World>, acts: seq<Action>, k: nat)
    requires Run(ws, acts) && k < |ws|
    requires forall j :: 0 <= j < k ==> MayBoard(ws[j], acts[j])
    ensures Aligned(ws[k])
  {
    if k > 0 {
      AlignedWhileMayBoard(ws, acts, k - 1);
      AccountingAlways(ws, acts, k - 1);
      StepKeepsAligned(ws[k - 1], acts[k - 1]);
    }
  }

  /** Rule 2 of get_slot over a whole run of any number of tasks: it is kept throughout if and only
      if no woken task ever regains `mutex` while the bus carries the other direction. */
  lemma HalfDuplexExactly(ws: seq<World>, acts: seq<Action>)
    requires Run(ws, acts)
    ensures (forall k :: 0 <= k < |ws| ==> HalfDuplex(ws[k]))
       <==> (forall k :: 0 <= k < |acts| ==> MayBoard(ws[k], acts[k]))
  {
    if forall k :: 0 <= k < |acts| ==> MayBoard(ws[k], acts[k]) {
      forall k | 0 <= k < |ws| ensures HalfDuplex(ws[k]) {
        AlignedWhileMayBoard(ws, acts, k);
      }
    } else {
      var k := FirstViolation(ws, acts);
      AlignedWhileMayBoard(ws, acts, k);
      AccountingAlways(ws, acts, k);
      StepBreaksHalfDuplex(ws[k], acts[k]);
      assert !HalfDuplex(ws[k + 1]);
    }
  }

  lemma FirstViolation(ws: seq<World>, acts: seq<Action>) returns (k: nat)
    requires Run(ws, acts)
    requires exists j :: 0 <= j < |acts| && !MayBoard(ws[j], acts[j])
    ensures k < |acts| && !MayBoard(ws[k], acts[k])
    ensures forall j :: 0 <= j < k ==> MayBoard(ws[j], acts[j])
  {
    k := 0;
    while MayBoard(ws[k], acts[k])
      invariant k < |acts|
      invariant forall j :: 0 <= j < k ==> MayBoard(ws[j], acts[j])
      decreases |acts| - k
    {
      k := k + 1;
    }
  }

  // ----- blocking with `mutex` held

  predicate AboardOrGone(t: Thread) {
    t.phase == OnBus || t.phase == Done
  }

  // Nobody has boarded or left between the two worlds.
  predicate SameAboard(w: World, w': World) {
    && |w'.threads| == |w.threads|
    && forall i :: 0 <= i < |w.threads| && (AboardOrGone(w.threads[i]) || AboardOrGone(w'.threads[i])) ==>
                   w'.threads[i] == w.threads[i]
  }

  lemma BlockedWorldStep(w: World, a: Action)
    requires Accounting(w) && Enabled(w, a) && w.bus.mutex == 0
    ensures Next(w, a).bus.mutex == 0 && SameAboard(w, Next(w, a))
  {
    if a.Unblock? {
      NeverUnblocked(w, a.i);
      assert false;
    }
  }

  /** Once a woken task finds `bus_slots` at zero, no task ever boards or leaves again. */
  lemma {:induction false} BlockedForever(ws: seq<World>, acts: seq<Action>, k: nat, m: nat)
    requires Run(ws, acts) && k <= m < |ws|
    requires ws[k].bus.mutex == 0
    ensures ws[m].bus.mutex == 0 && SameAboard(ws[k], ws[m])
  {
    if k < m {
      BlockedForever(ws, acts, k, m - 1);
      BlockedStep(ws, acts, m);
    }
  }

  lemma BlockedStep(ws: seq<World>, acts: seq<Action>, m: nat)
    requires Run(ws, acts) && 0 < m < |ws| && ws[m - 1].bus.mutex == 0
    ensures ws[m].bus.mutex == 0 && SameAboard(ws[m - 1], ws[m])
  {
    AccountingAlways(ws, acts, m - 1);
    BlockedWorldStep(ws[m - 1], acts[m - 1]);
  }
}
