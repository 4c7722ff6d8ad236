/** Reachable worlds that show what the hand-off schedule is needed for. */
module BusCounterexamples {
  import opened BusTypes
  import opened BusProtocol
  import opened BusOrder
  import opened BusProgress

  ghost predicate Reachable(w: World) {
    exists ws: seq<World>, acts: seq<Action> :: Run(ws, acts) && ws[|acts|] == w
  }

  function NewTasks(cs: seq<Class>): (w: seq<Thread>)
    ensures |w| == |cs|
  {
    seq(|cs|, i requires 0 <= i < |cs| => Thread(cs[i], New))
  }

  // The part of a world that the examples below keep track of.
  predicate Shows(b: Bus, onBus: int, waiting: int, direction: BusDirection, registered: PerClass, tokens: PerClass) {
    b.slots + onBus == 3 && b.mutex > 0 && b.onBus == onBus && b.waiting == waiting &&
    b.direction == direction && b.registered == registered && b.tokens == tokens
  }

  lemma Start(cs: seq<Class>) returns (w: World)
    requires |cs| <= MAX_NUM_OF_TASKS
    ensures w.threads == NewTasks(cs) && Reachable(w)
    ensures Shows(w.bus, 0, 0, Idle, ZERO, ZERO)
  {
    w := World(Bus(BUS_CAPACITY, 1, 0, 0, Idle, ZERO, ZERO), NewTasks(cs));
    assert Run([w], []);
  }

  lemma RunExtends(ws: seq<World>, acts: seq<Action>, a: Action)
    requires Run(ws, acts) && Enabled(ws[|acts|], a)
    ensures Run(ws + [Next(ws[|acts|], a)], acts + [a])
  {
  }

  lemma Step(w: World, a: Action) returns (w': World)
    requires Reachable(w) && Enabled(w, a)
    ensures w' == Next(w, a) && Reachable(w')
  {
    w' := Next(w, a);
    var ws: seq<World>, acts: seq<Action> :| Run(ws, acts) && ws[|acts|] == w;
    RunExtends(ws, acts, a);
    assert (ws + [w'])[|acts + [a]|] == w';
  }

  const SENDER := Class(SEND, NORMAL)
  const RECEIVER := Class(RECEIVE, NORMAL)
  const SENDER_PRIORITY := Class(SEND, PRIORITY)
  const RECEIVER_PRIORITY := Class(RECEIVE, PRIORITY)

  lemma Boards(w: World, i: nat, c: Class) returns (w': World)
    requires Reachable(w) && i < |w.threads| && w.threads[i] == Thread(c, New) && w.bus.mutex > 0
    requires !MustWait(w.bus, c)
    ensures Reachable(w') && w' == World(Board(w.bus, c), w.threads[i := Thread(c, OnBus)])
  {
    w' := Step(w, Action.Enter(i));
  }

  lemma Waits(w: World, i: nat, c: Class) returns (w': World)
    requires Reachable(w) && i < |w.threads| && w.threads[i] == Thread(c, New) && w.bus.mutex > 0
    requires MustWait(w.bus, c)
    ensures Reachable(w')
    ensures w' == World(w.bus.(registered := w.bus.registered.Add(c, 1)), w.threads[i := Thread(c, Asleep)])
  {
    w' := Step(w, Action.Enter(i));
  }

  /** A sleeper takes a token and then gets `mutex`. */
  lemma Wakes(w: World, i: nat, c: Class) returns (w': World)
    requires Reachable(w) && i < |w.threads| && w.threads[i] == Thread(c, Asleep) && w.bus.mutex > 0
    requires w.bus.tokens.Of(c) > 0
    ensures Reachable(w')
    ensures w'.threads == w.threads[i := Thread(c, if w.bus.slots > 0 then OnBus else Blocked)]
    ensures w'.bus == BusTypes.Resume(w.bus.(tokens := w.bus.tokens.Add(c, -1)), c)
  {
    w' := Step(w, Take(i));
    w' := Step(w', Action.Resume(i));
  }

  /** The last task aboard leaves, and senders are woken. */
  lemma LeavesToSenders(w: World, i: nat, c: Class) returns (w': World)
    requires Reachable(w) && i < |w.threads| && w.threads[i] == Thread(c, OnBus) && w.bus.mutex > 0
    requires w.bus.onBus == 1 && 0 <= w.bus.waiting <= 3 && Roomy(Leave(w.bus))
    requires WakesPriority(Leave(w.bus), SEND) + WakesNormal(Leave(w.bus), SEND) > 0
    ensures Reachable(w') && w'.threads == w.threads[i := Thread(c, Done)]
    ensures w'.bus == WakeToward(Leave(w.bus), SEND)
  {
    WakeTowardExact(Leave(w.bus), SEND);
    w' := Step(w, Action.Release(i));
  }

  lemma LeavesToReceivers(w: World, i: nat, c: Class) returns (w': World)
    requires Reachable(w) && i < |w.threads| && w.threads[i] == Thread(c, OnBus) && w.bus.mutex > 0
    requires w.bus.onBus == 1 && 0 <= w.bus.waiting <= 3 && Roomy(Leave(w.bus))
    requires WakesPriority(Leave(w.bus), SEND) + WakesNormal(Leave(w.bus), SEND) == 0
    ensures Reachable(w') && w'.threads == w.threads[i := Thread(c, Done)]
    ensures w'.bus == WakeToward(Leave(w.bus), RECEIVE)
  {
    WakeTowardExact(Leave(w.bus), SEND);
    assert WakeToward(Leave(w.bus), SEND) == Leave(w.bus);
    w' := Step(w, Action.Release(i));
  }

  /** A receiver leaves an idle bus to a sleeping sender, which has a token but not yet `mutex`. */
  lemma SenderOnItsWay(cs: seq<Class>) returns (w: World)
    requires 2 <= |cs| <= MAX_NUM_OF_TASKS && cs[0] == RECEIVER && cs[1] == SENDER
    ensures Reachable(w)
    ensures w.threads == NewTasks(cs)[0 := Thread(RECEIVER, Done)][1 := Thread(SENDER, Asleep)]
    ensures Shows(w.bus, 0, 1, Carrying(SEND), ZERO.Add(SENDER, 1), ZERO.Add(SENDER, 1))
  {
    w := Start(cs);
    w := Boards(w, 0, RECEIVER);
    w := Waits(w, 1, SENDER);
    assert Shows(w.bus, 1, 0, Carrying(RECEIVE), ZERO.Add(SENDER, 1), ZERO);
    WakeTowardExact(Leave(w.bus), SEND);
    w := LeavesToSenders(w, 0, RECEIVER);
  }

  // A normal sender and a priority receiver have a token each.
  lemma BothOnTheirWay() returns (w: World)
    ensures Reachable(w) && |w.threads| == 4
    ensures w.threads[1] == Thread(SENDER, Asleep) && w.threads[3] == Thread(RECEIVER_PRIORITY, Asleep)
    ensures Shows(w.bus, 0, 2, Carrying(RECEIVE), w.bus.registered, w.bus.tokens)
    ensures w.bus.tokens.Of(SENDER) == w.bus.tokens.Of(RECEIVER_PRIORITY) == 1
  {
    w := SenderOnItsWay([RECEIVER, SENDER, SENDER, RECEIVER_PRIORITY]);
    w := Boards(w, 2, SENDER);
    w := Waits(w, 3, RECEIVER_PRIORITY);
    assert Shows(w.bus, 1, 1, Carrying(SEND), ZERO.Add(SENDER, 1).Add(RECEIVER_PRIORITY, 1), ZERO.Add(SENDER, 1));
    WakeTowardExact(Leave(w.bus), RECEIVE);
    w := LeavesToReceivers(w, 2, SENDER);
  }

  /** Two tasks aboard in opposite directions. */
  lemma HalfDuplexCanFail() returns (w: World)
    ensures Reachable(w) && !HalfDuplex(w)
  {
    w := BothOnTheirWay();
    w := Wakes(w, 3, RECEIVER_PRIORITY);
    w := Wakes(w, 1, SENDER);
    assert w.threads[1].phase == OnBus && w.threads[3].phase == OnBus;
  }

  /** Nothing can move any more, with three tasks aboard. */
  lemma DeadlockCanHappen() returns (w: World)
    ensures Reachable(w) && forall a :: !Enabled(w, a)
    ensures w.bus.onBus == 3
  {
    w := SenderOnItsWay([RECEIVER, SENDER, SENDER, SENDER, SENDER]);
    w := Boards(w, 2, SENDER);
    w := Boards(w, 3, SENDER);
    w := Boards(w, 4, SENDER);
    assert Shows(w.bus, 3, 1, Carrying(SEND), ZERO.Add(SENDER, 1), ZERO.Add(SENDER, 1));
    w := Wakes(w, 1, SENDER);
  }

  /** One sleeper is signalled twice: every task finishes, and a token and its unit of waiting_task
      stay behind for good. */
  lemma TokenCanLeak() returns (w: World)
    ensures Reachable(w) && w.bus.waiting == 1
    ensures forall i :: 0 <= i < |w.threads| ==> w.threads[i].phase == Done
  {
    w := SenderOnItsWay([RECEIVER, SENDER, SENDER]);
    w := Boards(w, 2, SENDER);
    WakeTowardExact(Leave(w.bus), SEND);
    w := LeavesToSenders(w, 2, SENDER);
    assert Shows(w.bus, 0, 2, Carrying(SEND), ZERO.Add(SENDER, 1), ZERO.Add(SENDER, 2));
    w := Wakes(w, 1, SENDER);
    assert Shows(w.bus, 1, 1, Carrying(SEND), ZERO, ZERO.Add(SENDER, 1));
    WakeTowardExact(Leave(w.bus), RECEIVE);
    w := LeavesToReceivers(w, 1, SENDER);
  }

  /** Rule 3 as get_slot's comment words it does not hold: a normal sender boards although a priority
      receiver is waiting. */
  lemma NormalCanPassPriority() returns (w: World, w': World)
    ensures Reachable(w) && Enabled(w, Action.Enter(2)) && w' == Next(w, Action.Enter(2))
    ensures w.threads[1] == Thread(RECEIVER_PRIORITY, Asleep)
    ensures w'.threads[2] == Thread(SENDER, OnBus)
  {
    w := Start([SENDER, RECEIVER_PRIORITY, SENDER]);
    w := Boards(w, 0, SENDER);
    w := Waits(w, 1, RECEIVER_PRIORITY);
    w' := Step(w, Action.Enter(2));
  }

  // A normal and a priority sender are registered, and there is a token for the normal one.
  predicate OneOfEach(b: Bus) {
    && b.registered.Of(SENDER) == b.registered.Of(SENDER_PRIORITY) == 1 && b.registered.Toward(RECEIVE) == 0
    && b.registered.NonNegative() && b.tokens.Of(SENDER) == b.tokens.Total() == 1 && b.tokens.NonNegative()
  }

  // Sender 1 is on its way to a full bus, and a priority sender has come too late for it.
  lemma PrioritySenderWaits() returns (w: World)
    ensures Reachable(w) && |w.threads| == 6
    ensures w.threads[1] == Thread(SENDER, Asleep) && w.threads[2] == Thread(SENDER, OnBus)
    ensures w.threads[5] == Thread(SENDER_PRIORITY, Asleep)
    ensures Shows(w.bus, 3, 1, Carrying(SEND), w.bus.registered, w.bus.tokens) && OneOfEach(w.bus)
  {
    w := SenderOnItsWay([RECEIVER, SENDER, SENDER, SENDER, SENDER, SENDER_PRIORITY]);
    w := Boards(w, 2, SENDER);
    w := Boards(w, 3, SENDER);
    w := Boards(w, 4, SENDER);
    w := Waits(w, 5, SENDER_PRIORITY);
  }

  lemma TakesItsToken(w: World) returns (w': World)
    requires Reachable(w) && |w.threads| == 6 && w.threads[1] == Thread(SENDER, Asleep)
    requires Shows(w.bus, 2, 1, Carrying(SEND), w.bus.registered, w.bus.tokens) && OneOfEach(w.bus)
    ensures Reachable(w') && w'.threads == w.threads[1 := Thread(SENDER, Woken)]
    ensures Shows(w'.bus, 2, 1, Carrying(SEND), w.bus.registered, w'.bus.tokens) && w'.bus.tokens.IsZero()
  {
    w' := Step(w, Take(1));
  }

  lemma BoardsWoken(w: World) returns (w': World)
    requires Reachable(w) && |w.threads| == 6 && w.threads[1] == Thread(SENDER, Woken) && w.bus.mutex > 0 && w.bus.slots == 1
    ensures Enabled(w, Action.Resume(1)) && w' == Next(w, Action.Resume(1))
    ensures w'.threads == w.threads[1 := Thread(SENDER, OnBus)]
  {
    w' := Next(w, Action.Resume(1));
  }

  /** Nor does it for woken tasks: a normal sender boards although a priority sender sleeps without a token. */
  lemma WokenCanPassPriority() returns (w: World, w': World)
    ensures Reachable(w) && Enabled(w, Action.Resume(1)) && w' == Next(w, Action.Resume(1))
    ensures |w.threads| == 6 && w.threads[5] == Thread(SENDER_PRIORITY, Asleep) && w.bus.tokens.Of(SENDER_PRIORITY) == 0
    ensures |w'.threads| == 6 && w'.threads[1] == Thread(SENDER, OnBus)
    ensures w.bus.registered.Of(RECEIVER_PRIORITY) == 0
  {
    w := PrioritySenderWaits();
    w := LeavesFullBus(w, 2, w.bus.registered, w.bus.tokens);
    w := TakesItsToken(w);
    w' := BoardsWoken(w);
  }

  // One of three senders leaves, and the slot is spoken for.
  lemma LeavesFullBus(w: World, i: nat, registered: PerClass, tokens: PerClass) returns (w': World)
    requires Reachable(w) && i < |w.threads| && w.threads[i] == Thread(SENDER, OnBus)
    requires Shows(w.bus, 3, 1, Carrying(SEND), registered, tokens)
    requires registered.NonNegative() && registered.Total() <= 200
    ensures Reachable(w') && w'.threads == w.threads[i := Thread(SENDER, Done)]
    ensures Shows(w'.bus, 2, 1, Carrying(SEND), registered, tokens)
  {
    NoSlotToGive(Leave(w.bus), SEND);
    NoSlotToGive(Leave(w.bus), RECEIVE);
    w' := Step(w, Action.Release(i));
  }

  // ----- a lost wake-up

  // Every slot and more is spoken for: release_slot signals all normal senders that are registered.
  lemma CrowdedHalf(b: Bus, n: nat)
    requires b.onBus == 1 && b.waiting == 3 && b.direction == Carrying(SEND) && n <= 200
    requires b.registered == ZERO.Add(SENDER, n)
    ensures WakeToward(WakeToward(b, SEND), RECEIVE)
         == b.(tokens := b.tokens.Add(SENDER, n), waiting := 3 + n)
  {
    ToWakeMeaning(b, Class(SEND, PRIORITY));
    SignalEffect(b, Class(SEND, PRIORITY), 0);
    ToWakeMeaning(b, SENDER);
    SignalEffect(b, SENDER, n);
  }

  lemma LeavesCrowd(w: World, i: nat, n: nat) returns (w': World)
    requires Reachable(w) && i < |w.threads| && w.threads[i] == Thread(SENDER, OnBus) && n <= 200
    requires Shows(w.bus, 2, 3, Carrying(SEND), ZERO.Add(SENDER, n), ZERO.Add(SENDER, 3))
    ensures Reachable(w') && w'.threads == w.threads[i := Thread(SENDER, Done)]
    ensures Shows(w'.bus, 1, 3 + n, Carrying(SEND), ZERO.Add(SENDER, n), ZERO.Add(SENDER, 3 + n))
  {
    CrowdedHalf(Leave(w.bus), n);
    w' := Step(w, Action.Release(i));
  }

  /** A sender boards and leaves again while sender 1 has not got `mutex`, and signals it once more. */
  lemma PassesAndSignals(w: World, i: nat, tokens: nat) returns (w': World)
    requires Reachable(w) && i < |w.threads| && w.threads[i] == Thread(SENDER, New) && 1 <= tokens <= 2
    requires Shows(w.bus, 0, tokens, Carrying(SEND), ZERO.Add(SENDER, 1), ZERO.Add(SENDER, tokens))
    ensures Reachable(w') && w'.threads == w.threads[i := Thread(SENDER, Done)]
    ensures Shows(w'.bus, 0, tokens + 1, Carrying(SEND), ZERO.Add(SENDER, 1), ZERO.Add(SENDER, tokens + 1))
  {
    w' := Boards(w, i, SENDER);
    WakeTowardExact(Leave(w'.bus), SEND);
    w' := LeavesToSenders(w', i, SENDER);
  }

  /** Sender 1 has four tokens, and boards with one of them. */
  lemma SignalledFourTimes(cs: seq<Class>) returns (w: World)
    requires 7 <= |cs| <= MAX_NUM_OF_TASKS && cs[0] == RECEIVER
    requires cs[1] == cs[2] == cs[3] == cs[4] == cs[5] == SENDER
    ensures Reachable(w) && |w.threads| == |cs|
    ensures w.threads[1] == Thread(SENDER, OnBus) && w.threads[5] == Thread(SENDER, OnBus)
    ensures forall i :: 0 <= i < 5 && i != 1 ==> w.threads[i].phase == Done
    ensures forall i :: 6 <= i < |cs| ==> w.threads[i] == Thread(cs[i], New)
    ensures Shows(w.bus, 2, 3, Carrying(SEND), ZERO, ZERO.Add(SENDER, 3))
  {
    w := SenderOnItsWay(cs);
    w := PassesAndSignals(w, 2, 1);
    w := PassesAndSignals(w, 3, 2);
    w := Boards(w, 4, SENDER);
    w := Boards(w, 5, SENDER);
    w := LeavesCrowd(w, 4, 1);
    w := Wakes(w, 1, SENDER);
  }

  lemma LeavesNobodyWoken(w: World, i: nat) returns (w': World)
    requires Reachable(w) && i < |w.threads| && w.threads[i] == Thread(SENDER, OnBus)
    requires Shows(w.bus, 1, 3, Carrying(SEND), ZERO.Add(RECEIVER, 1), ZERO.Add(SENDER, 3))
    ensures Reachable(w') && w'.threads == w.threads[i := Thread(SENDER, Done)]
    ensures Shows(w'.bus, 0, 3, Idle, ZERO.Add(RECEIVER, 1), ZERO.Add(SENDER, 3))
  {
    NoSlotToGive(Leave(w.bus), SEND);
    NoSlotToGive(Leave(w.bus), RECEIVE);
    w' := Step(w, Action.Release(i));
  }

  lemma OneSleeperIsStuck(w: World)
    requires w.bus.tokens.Of(RECEIVER) == 0
    requires forall i :: 0 <= i < |w.threads| ==> w.threads[i].phase == Done || w.threads[i] == Thread(RECEIVER, Asleep)
    ensures forall a :: !Enabled(w, a)
    ensures (exists i :: 0 <= i < |w.threads| && w.threads[i].phase == Asleep) ==> !Served(w)
  {
    forall i | 0 <= i < |w.threads| ensures !CanMove(w, i) {
    }
    if i: nat :| i < |w.threads| && w.threads[i].phase == Asleep {
      assert BusProgress.Waits(w.threads[i]);
    }
  }

  lemma EndOfLostRun(cs: seq<Class>) returns (w: World)
    requires |cs| == 7 && cs[0] == cs[6] == RECEIVER && cs[1] == cs[2] == cs[3] == cs[4] == cs[5] == SENDER
    ensures Reachable(w) && |w.threads| == 7 && w.threads[6] == Thread(RECEIVER, Asleep)
    ensures forall i :: 0 <= i < 6 ==> w.threads[i].phase == Done
    ensures Shows(w.bus, 0, 3, Idle, ZERO.Add(RECEIVER, 1), ZERO.Add(SENDER, 3))
  {
    w := SignalledFourTimes(cs);
    assert ZERO.Add(SENDER, 0) == ZERO;
    w := LeavesCrowd(w, 5, 0);
    w := Waits(w, 6, RECEIVER);
    w := LeavesNobodyWoken(w, 1);
  }

  /** A wake-up is lost: `mutex` is free and the bus empty and idle, but receiver 6 sleeps, and nothing can
      move any more. */
  lemma WakeUpCanBeLost() returns (w: World)
    ensures Reachable(w) && forall a :: !Enabled(w, a)
    ensures w.bus.mutex > 0 && w.bus.slots == 3 && w.bus.direction == Idle
    ensures exists i :: 0 <= i < |w.threads| && w.threads[i].phase == Asleep
    ensures !Served(w)
  {
    w := EndOfLostRun([RECEIVER, SENDER, SENDER, SENDER, SENDER, SENDER, RECEIVER]);
    assert w.threads[6].phase == Asleep;
    OneSleeperIsStuck(w);
  }
}
