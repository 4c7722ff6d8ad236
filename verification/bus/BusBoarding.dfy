/** What every step of every interleaving does, told by the tasks: who boards, who sleeps, what becomes of
    the direction and of the tokens. */
module BusBoarding {
  import opened BusTypes
  import opened BusProtocol
  import opened BusTokens

  // A priority task of the direction has gone to sleep, and has not been aboard since.
  predicate PriorityWaits(w: World, d: Direction) {
    exists i :: 0 <= i < |w.threads| && w.threads[i].class_ == Class(d, PRIORITY) &&
                (w.threads[i].phase == Asleep || w.threads[i].phase == Woken)
  }

  lemma PriorityWaitsByCount(w: World, d: Direction)
    requires Accounting(w)
    ensures PriorityWaits(w, d) <==> w.bus.registered.Of(Class(d, PRIORITY)) > 0
  {
    var c := Class(d, PRIORITY);
    if i :| 0 <= i < |w.threads| && w.threads[i].class_ == c && (w.threads[i].phase == Asleep || w.threads[i].phase == Woken) {
      TallyMember(w.threads, i);
    }
    if Tally(w.threads, Asleep).Of(c) > 0 {
      var i := TallyWitness(w.threads, c, Asleep);
    } else if Tally(w.threads, Woken).Of(c) > 0 {
      var i := TallyWitness(w.threads, c, Woken);
    }
  }

  /** Nobody but the acting task changes, and its class never does; a token puts a sleeper on its way, and a
      release ends a task. */
  lemma OnlyTheActorMoves(ws: seq<World>, acts: seq<Action>, k: nat)
    requires Run(ws, acts) && k < |acts|
    ensures acts[k].i < |ws[k].threads| == |ws[k + 1].threads|
    ensures forall j :: 0 <= j < |ws[k].threads| && j != acts[k].i ==> ws[k + 1].threads[j] == ws[k].threads[j]
    ensures var t, t' := ws[k].threads[acts[k].i], ws[k + 1].threads[acts[k].i];
      && t'.class_ == t.class_
      && (acts[k].Take? ==> t.phase == Asleep && t'.phase == Woken)
      && (acts[k].Release? ==> t.phase == OnBus && t'.phase == Done)
  {
  }

  /** A newcomer boards if and only if fewer than three tasks are aboard, the bus is idle or carries its
      direction, and no priority task of its direction is waiting, or it is one itself; otherwise it
      sleeps. */
  lemma EntersExactly(ws: seq<World>, acts: seq<Action>, k: nat)
    requires Run(ws, acts) && k < |acts| && acts[k].Enter?
    ensures acts[k].i < |ws[k].threads| == |ws[k + 1].threads|
    ensures var w, t, t' := ws[k], ws[k].threads[acts[k].i], ws[k + 1].threads[acts[k].i];
      && t.phase == New
      && t'.phase == if && Tally(w.threads, OnBus).Total() < 3
                        && (w.bus.direction == Idle || w.bus.direction == Carrying(t.class_.direction))
                        && (t.class_.priority == PRIORITY || !PriorityWaits(w, t.class_.direction))
                     then OnBus else Asleep
  {
    AccountingAlways(ws, acts, k);
    PriorityWaitsByCount(ws[k], ws[k].threads[acts[k].i].class_.direction);
  }

  /** A woken task boards if and only if fewer than three tasks are aboard; otherwise it is stopped with
      `mutex` held. */
  lemma ResumesExactly(ws: seq<World>, acts: seq<Action>, k: nat)
    requires Run(ws, acts) && k < |acts| && acts[k].Resume?
    ensures acts[k].i < |ws[k].threads| == |ws[k + 1].threads|
    ensures var t, t' := ws[k].threads[acts[k].i], ws[k + 1].threads[acts[k].i];
      && t.phase == Woken
      && t'.phase == (if Tally(ws[k].threads, OnBus).Total() < 3 then OnBus else Blocked)
      && (t'.phase == Blocked ==> ws[k + 1].bus.mutex == 0)
  {
    AccountingAlways(ws, acts, k);
  }

  /** The direction of the bus after a release: that of the tasks it wakes, none if the last task has left. */
  function ReleasedDirection(w: World): BusDirection {
    if Signals(w.bus).Toward(SEND) > 0 then Carrying(SEND)
    else if Signals(w.bus).Toward(RECEIVE) > 0 then Carrying(RECEIVE)
    else if w.bus.onBus == 1 then Idle
    else w.bus.direction
  }

  /** Whoever boards, at entry or woken, turns the bus its own way; apart from that only a release touches
      the direction. */
  lemma DirectionExactly(ws: seq<World>, acts: seq<Action>, k: nat)
    requires Run(ws, acts) && k < |acts|
    ensures acts[k].i < |ws[k].threads| == |ws[k + 1].threads|
    ensures ws[k + 1].bus.direction ==
      if acts[k].Release? then ReleasedDirection(ws[k])
      else if ws[k + 1].threads[acts[k].i].phase == OnBus then Carrying(ws[k].threads[acts[k].i].class_.direction)
      else ws[k].bus.direction
  {
    var w, a := ws[k], acts[k];
    AccountingAlways(ws, acts, k);
    match a
    case Enter(_) =>
    case Take(_) =>
    case Resume(_) =>
    case Unblock(i) => NeverUnblocked(w, i); assert false;
    case Release(i) =>
      TallyMember(w.threads, i);
      CensusBounds(w.threads);
      ReleaseSignals(w.bus);
  }

  /** A task that gets on the bus leaves it in that task's direction. */
  lemma BoardingTurnsTheBus(ws: seq<World>, acts: seq<Action>, k: nat, i: nat)
    requires Run(ws, acts) && k < |acts| && i < |ws[k].threads| == |ws[k + 1].threads|
    requires ws[k].threads[i].phase != OnBus && ws[k + 1].threads[i].phase == OnBus
    ensures ws[k + 1].bus.direction == Carrying(ws[k].threads[i].class_.direction)
  {
    OnlyTheActorMoves(ws, acts, k);
    DirectionExactly(ws, acts, k);
  }

  /** Tokens are given by releases, as many as the counters say, and taken one at a time by sleepers. */
  lemma TokensExactly(ws: seq<World>, acts: seq<Action>, k: nat, c: Class)
    requires Run(ws, acts) && k < |acts|
    ensures acts[k].i < |ws[k].threads|
    ensures ws[k + 1].bus.tokens.Of(c) == ws[k].bus.tokens.Of(c) +
      if acts[k].Release? then Signals(ws[k].bus).Of(c)
      else if acts[k].Take? && ws[k].threads[acts[k].i].class_ == c then -1
      else 0
  {
    var w, a := ws[k], acts[k];
    AccountingAlways(ws, acts, k);
    match a
    case Enter(_) =>
    case Take(i) => AddAt(w.bus.tokens, w.threads[i].class_, c, -1);
    case Resume(_) =>
    case Unblock(i) => NeverUnblocked(w, i); assert false;
    case Release(_) => ReleaseExcess(w, a, c);
  }
}
