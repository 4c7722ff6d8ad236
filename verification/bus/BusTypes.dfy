/** The state shared by all tasks of the half-duplex bus, as one value, and the effect of every
    section of code that a task runs while it holds `mutex`. */
module BusTypes {
  const BUS_CAPACITY := 3
  const MAX_NUM_OF_TASKS := 200
  const TWO_TO_THE_31 := 0x8000_0000
  const TWO_TO_THE_32 := 0x1_0000_0000

  datatype Direction = SEND | RECEIVE
  {
    function Other(): Direction {
      if SEND? then RECEIVE else SEND
    }
  }

  datatype Priority = NORMAL | PRIORITY

  // The source's bus_direction, with -1 as Idle.
  datatype BusDirection = Idle | Carrying(direction: Direction)

  // Direction and priority of a task; the source keeps one counter and one semaphore for each.
  datatype Class = Class(direction: Direction, priority: Priority)

  datatype Pair = Pair(normal: int, priority: int)

  /** One integer for each of the four classes. */
  datatype PerClass = PerClass(send: Pair, receive: Pair)
  {
    function Of(c: Class): int {
      var p := if c.direction.SEND? then send else receive;
      if c.priority.NORMAL? then p.normal else p.priority
    }

    function Add(c: Class, n: int): PerClass {
      if c.direction.SEND? then PerClass(AddTo(send, c.priority, n), receive)
      else PerClass(send, AddTo(receive, c.priority, n))
    }

    static function AddTo(p: Pair, priority: Priority, n: int): Pair {
      if priority.NORMAL? then Pair(p.normal + n, p.priority) else Pair(p.normal, p.priority + n)
    }

    predicate IsSum(p: PerClass, q: PerClass) {
      send.normal == p.send.normal + q.send.normal && send.priority == p.send.priority + q.send.priority &&
      receive.normal == p.receive.normal + q.receive.normal && receive.priority == p.receive.priority + q.receive.priority
    }

    function Toward(d: Direction): int {
      if d.SEND? then send.normal + send.priority else receive.normal + receive.priority
    }

    function Total(): int {
      send.normal + send.priority + receive.normal + receive.priority
    }

    predicate NonNegative() {
      0 <= send.normal && 0 <= receive.normal && 0 <= send.priority && 0 <= receive.priority
    }

    predicate IsZero() {
      0 == send.normal && 0 == receive.normal && 0 == send.priority && 0 == receive.priority
    }

    predicate AtMost(o: PerClass) {
      send.normal <= o.send.normal && receive.normal <= o.receive.normal &&
      send.priority <= o.send.priority && receive.priority <= o.receive.priority
    }
  }

  const ZERO := PerClass(Pair(0, 0), Pair(0, 0))

  /** Values of the semaphores `bus_slots`, `mutex` and (in `tokens`) the four class semaphores,
      and of the counters; `registered` holds send_task, receiver_task, send_priority_task and
      recv_priority_task. */
  datatype Bus = Bus(slots: int, mutex: int, onBus: int, waiting: int, direction: BusDirection,
                     registered: PerClass, tokens: PerClass)

  // init_bus
  predicate IsInitial(b: Bus) {
    b.slots == BUS_CAPACITY && b.mutex == 1 && b.onBus == 0 && b.waiting == 0 &&
    b.direction == Idle && b.registered.IsZero() && b.tokens.IsZero()
  }

  /** Conversion of a 32-bit int to unsigned. */
  function AsUnsigned(x: int): int {
    if x < 0 then x + TWO_TO_THE_32 else x
  }

  /** Conversion of a 32-bit unsigned to int. */
  function AsInt(u: int): int {
    if u < TWO_TO_THE_31 then u else u - TWO_TO_THE_32
  }

  /** The MIN macro on an int and an unsigned: both operands are compared as unsigned. */
  function MixedMin(a: int, b: int): int {
    AsInt(if AsUnsigned(a) < AsUnsigned(b) then AsUnsigned(a) else AsUnsigned(b))
  }

  // get_slot, first section: the decision of lines 226-242.
  predicate MustWait(b: Bus, c: Class) {
    || b.onBus >= BUS_CAPACITY
    || (b.direction != Idle && b.direction != Carrying(c.direction))
    || (c.priority == NORMAL && b.registered.Of(c.(priority := PRIORITY)) > 0)
  }

  /** A task takes a slot, with `mutex` held. */
  function Board(b: Bus, c: Class): Bus {
    b.(slots := b.slots - 1, onBus := b.onBus + 1, direction := Carrying(c.direction))
  }

  /** A newcomer holds `mutex`: it boards, or registers and goes to sleep. */
  function Enter(b: Bus, c: Class): Bus {
    if MustWait(b, c) then b.(registered := b.registered.Add(c, 1)) else Board(b, c)
  }

  /** A woken task regains `mutex` and counts itself out of the waiters. */
  function Deregister(b: Bus, c: Class): Bus {
    b.(registered := b.registered.Add(c, -1), waiting := b.waiting - 1)
  }

  /** A woken task regains `mutex`: it boards, or blocks on `bus_slots` with `mutex` still held. */
  function Resume(b: Bus, c: Class): Bus {
    var b' := Deregister(b, c);
    if b.slots > 0 then Board(b', c) else b'.(mutex := 0)
  }

  function ToWake(b: Bus, c: Class): int {
    MixedMin(BUS_CAPACITY - b.onBus - b.waiting, b.registered.Of(c))
  }

  function Max0(n: int): int {
    if n < 0 then 0 else n
  }

  /** `n` rounds of the signalling loop on the semaphore of `c`. */
  function Signal(b: Bus, c: Class, n: int): Bus {
    b.(tokens := b.tokens.Add(c, Max0(n)), waiting := b.waiting + Max0(n))
  }

  /** One of the two symmetric halves of release_slot (lines 297-305 and 307-315). */
  function WakeToward(b: Bus, d: Direction): Bus {
    if b.direction == Carrying(d.Other()) then b
    else
      var priority, normal := Class(d, PRIORITY), Class(d, NORMAL);
      var n1 := ToWake(b, priority);
      var b1 := Signal(b, priority, n1);
      var n2 := if b.registered.Of(Class(d.Other(), PRIORITY)) == 0 then ToWake(b1, normal) else 0;
      var b2 := Signal(b1, normal, n2);
      if n1 + n2 > 0 then b2.(direction := Carrying(d)) else b2
  }

  /** A task leaves the bus: lines 290-295. */
  function Leave(b: Bus): Bus {
    b.(onBus := b.onBus - 1, slots := b.slots + 1,
       direction := if b.onBus == 1 then Idle else b.direction)
  }

  // release_slot
  function Release(b: Bus): Bus {
    WakeToward(WakeToward(Leave(b), SEND), RECEIVE)
  }
}
