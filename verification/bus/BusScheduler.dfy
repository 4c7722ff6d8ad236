/** The scheduler's static variables and functions, updated in place. A function that may put its
    caller to sleep is cut at that point: each method here is what one task does between taking and
    giving back `mutex`. */
module BusScheduler {
  import opened BusTypes

  class Semaphore {
    var value: nat

    constructor (value: nat)
      ensures this.value == value
    {
      this.value := value;
    }

    method Up()
      modifies this
      ensures value == old(value) + 1
    {
      value := value + 1;
    }

    method Down()
      requires value > 0
      modifies this
      ensures value == old(value) - 1
    {
      value := value - 1;
    }
  }

  lemma WakingIgnoresMutex(b: Bus, d: Direction, m: int)
    ensures WakeToward(b.(mutex := m), d) == WakeToward(b, d).(mutex := m)
    ensures WakeToward(b, d).mutex == b.mutex
  {
  }

  lemma ReleaseIgnoresMutex(b: Bus, m: int)
    ensures WakeToward(WakeToward(b.(mutex := m), SEND), RECEIVE)
         == WakeToward(WakeToward(b, SEND), RECEIVE).(mutex := m)
    ensures WakeToward(WakeToward(b, SEND), RECEIVE).mutex == b.mutex
  {
    WakingIgnoresMutex(b, SEND, m);
    WakingIgnoresMutex(WakeToward(b, SEND), RECEIVE, m);
  }

  class Scheduler {
    const busSlots: Semaphore
    const mutex: Semaphore
    const hasSender: Semaphore
    const hasReceiver: Semaphore
    const hasSenderPriority: Semaphore
    const hasReceiverPriority: Semaphore

    var busDirection: BusDirection
    var taskOnBus: int
    var waitingTask: int
    var sendTask: int
    var receiverTask: int
    var sendPriorityTask: int
    var recvPriorityTask: int

    ghost predicate Valid() {
      && busSlots != mutex
      && hasSender !in {busSlots, mutex}
      && hasReceiver !in {busSlots, mutex, hasSender}
      && hasSenderPriority !in {busSlots, mutex, hasSender, hasReceiver}
      && hasReceiverPriority !in {busSlots, mutex, hasSender, hasReceiver, hasSenderPriority}
    }

    ghost function Repr(): set<object> {
      {this, busSlots, mutex, hasSender, hasReceiver, hasSenderPriority, hasReceiverPriority}
    }

    ghost function State(): Bus
      reads Repr()
    {
      Bus(busSlots.value, mutex.value, taskOnBus, waitingTask, busDirection,
          PerClass(Pair(sendTask, sendPriorityTask), Pair(receiverTask, recvPriorityTask)),
          PerClass(Pair(hasSender.value, hasSenderPriority.value), Pair(hasReceiver.value, hasReceiverPriority.value)))
    }

    ghost function SemaphoreOf(c: Class): Semaphore {
      match c
      case Class(SEND, NORMAL) => hasSender
      case Class(RECEIVE, NORMAL) => hasReceiver
      case Class(SEND, PRIORITY) => hasSenderPriority
      case Class(RECEIVE, PRIORITY) => hasReceiverPriority
    }

    constructor ()
      ensures Valid() && fresh(Repr())
      ensures IsInitial(State())
    {
      busSlots := new Semaphore(BUS_CAPACITY);
      mutex := new Semaphore(1);
      hasSender := new Semaphore(0);
      hasReceiver := new Semaphore(0);
      hasSenderPriority := new Semaphore(0);
      hasReceiverPriority := new Semaphore(0);
      busDirection := Idle;
      taskOnBus, waitingTask := 0, 0;
      sendTask, receiverTask, sendPriorityTask, recvPriorityTask := 0, 0, 0, 0;
    }

    /** Adds `n` to the counter of class `c` (the `*total_waiting_count` of the source). */
    method Count(c: Class, n: int)
      modifies this
      ensures State() == old(State()).(registered := old(State()).registered.Add(c, n))
    {
      if c.priority == PRIORITY {
        if c.direction == SEND {
          sendPriorityTask := sendPriorityTask + n;
        } else {
          recvPriorityTask := recvPriorityTask + n;
        }
      } else {
        if c.direction == SEND {
          sendTask := sendTask + n;
        } else {
          receiverTask := receiverTask + n;
        }
      }
    }

    /** get_slot for a newcomer, up to the point where it has boarded or goes to sleep. */
    method GetSlot(c: Class) returns (boarded: bool)
      requires Valid() && mutex.value == 1
      requires taskOnBus < BUS_CAPACITY ==> busSlots.value > 0
      modifies Repr()
      ensures State() == Enter(old(State()), c)
      ensures boarded <==>
        && old(taskOnBus) < BUS_CAPACITY
        && (old(busDirection) == Idle || old(busDirection) == Carrying(c.direction))
        && (c.priority == PRIORITY || (if c.direction == SEND then old(sendPriorityTask) else old(recvPriorityTask)) <= 0)
      ensures taskOnBus == old(taskOnBus) + (if boarded then 1 else 0)
      ensures busDirection == if boarded then Carrying(c.direction) else old(busDirection)
    {
      mutex.Down();
      var mustWait := false;
      if taskOnBus >= BUS_CAPACITY {
        mustWait := true;
      } else if busDirection != Idle && busDirection != Carrying(c.direction) {
        mustWait := true;
      } else if c.priority == NORMAL {
        if c.direction == SEND && sendPriorityTask > 0 {
          mustWait := true;
        } else if c.direction == RECEIVE && recvPriorityTask > 0 {
          mustWait := true;
        }
      }
      if mustWait {
        Count(c, 1);
        mutex.Up();
        return false;
      }
      TakeSlot(c);
      return true;
    }

    /** Lines 270-274: a task that holds `mutex` and finds a slot. */
    method TakeSlot(c: Class)
      requires Valid() && busSlots.value > 0
      modifies this, busSlots, mutex
      ensures State() == Board(old(State()), c).(mutex := old(mutex.value) + 1)
      ensures taskOnBus == old(taskOnBus) + 1 && busDirection == Carrying(c.direction)
    {
      busSlots.Down();
      taskOnBus := taskOnBus + 1;
      busDirection := Carrying(c.direction);
      mutex.Up();
    }

    /** The rest of wait_to_be_onboard and of get_slot, for a task that took a token. When there is
        no slot the task stays blocked and `mutex` stays taken. */
    method ResumeWaiting(c: Class) returns (boarded: bool)
      requires Valid() && mutex.value == 1
      modifies Repr()
      ensures State() == Resume(old(State()), c)
      ensures boarded == (old(busSlots.value) > 0)
      ensures mutex.value == (if boarded then 1 else 0) && waitingTask == old(waitingTask) - 1
      ensures taskOnBus == old(taskOnBus) + (if boarded then 1 else 0)
      ensures busDirection == if boarded then Carrying(c.direction) else old(busDirection)
    {
      mutex.Down();
      Count(c, -1);
      waitingTask := waitingTask - 1;
      if busSlots.value == 0 {
        return false;
      }
      TakeSlot(c);
      return true;
    }

    method WakeupWaitingTask(sem: Semaphore, waiting: int, ghost c: Class) returns (toWake: int)
      requires Valid() && sem == SemaphoreOf(c)
      requires waiting == State().registered.Of(c)
      modifies this`waitingTask, sem
      ensures toWake == ToWake(old(State()), c)
      ensures State() == Signal(old(State()), c, toWake)
    {
      var emptyBusSlots := BUS_CAPACITY - taskOnBus - waitingTask;
      toWake := MixedMin(emptyBusSlots, waiting);
      var i := 0;
      while i < toWake
        invariant 0 <= i <= Max0(toWake)
        invariant State() == Signal(old(State()), c, i)
      {
        sem.Up();
        waitingTask := waitingTask + 1;
        i := i + 1;
      }
    }

    /** The first half of the wake-up in release_slot: lines 297-305. */
    method WakeSenders()
      requires Valid()
      modifies this, hasSender, hasSenderPriority
      ensures State() == WakeToward(old(State()), SEND)
    {
      if busDirection != Carrying(RECEIVE) {
        var canAboard := WakeupWaitingTask(hasSenderPriority, sendPriorityTask, Class(SEND, PRIORITY));
        if recvPriorityTask == 0 {
          var more := WakeupWaitingTask(hasSender, sendTask, Class(SEND, NORMAL));
          canAboard := canAboard + more;
        }
        if canAboard > 0 {
          busDirection := Carrying(SEND);
        }
      }
    }

    /** The second half: lines 307-315. */
    method WakeReceivers()
      requires Valid()
      modifies this, hasReceiver, hasReceiverPriority
      ensures State() == WakeToward(old(State()), RECEIVE)
    {
      if busDirection != Carrying(SEND) {
        var canAboard := WakeupWaitingTask(hasReceiverPriority, recvPriorityTask, Class(RECEIVE, PRIORITY));
        if sendPriorityTask == 0 {
          var more := WakeupWaitingTask(hasReceiver, receiverTask, Class(RECEIVE, NORMAL));
          canAboard := canAboard + more;
        }
        if canAboard > 0 {
          busDirection := Carrying(RECEIVE);
        }
      }
    }

    /** The notification part of release_slot: lines 297-315. */
    method WakeWaiting()
      requires Valid()
      modifies Repr() - {busSlots, mutex}
      ensures State() == WakeToward(WakeToward(old(State()), SEND), RECEIVE)
    {
      WakeSenders();
      WakeReceivers();
    }

    method ReleaseSlot()
      requires Valid() && mutex.value == 1
      modifies Repr()
      ensures State() == Release(old(State()))
    {
      mutex.Down();
      taskOnBus := taskOnBus - 1;
      busSlots.Up();
      if taskOnBus == 0 {
        busDirection := Idle;
      }
      assert State() == Leave(old(State())).(mutex := 0);
      WakeWaiting();
      ReleaseIgnoresMutex(Leave(old(State())), 0);
      mutex.Up();
    }
  }
}
