/** The timer's list of sleeping threads: insertion in deadline order, and the interrupt handler that
    pops from the front until it meets a deadline still ahead. */
module SleepQueue {
  /** Which call of timer_sleep put a thread in the list, and at which tick. The code keeps no such
      record and nothing below reads it to decide anything; it only lets properties name a sleep. */
  datatype Call = Call(number: nat, tick: int)

  // `deadline` is the thread's sleep_ticks.
  datatype Sleeper = Sleeper(thread: nat, deadline: int, call: Call)

  predicate ThreadComparison(s: Sleeper, t: Sleeper) {
    s.deadline < t.deadline
  }

  /** list_insert_ordered: before the first element that is strictly greater. */
  function InsertOrdered(q: seq<Sleeper>, s: Sleeper): seq<Sleeper> {
    if q == [] || ThreadComparison(s, q[0]) then [s] + q
    else [q[0]] + InsertOrdered(q[1..], s)
  }

  /** The sleepers that an interrupt at tick `now` unblocks, and those it leaves. */
  function Due(q: seq<Sleeper>, now: int): seq<Sleeper> {
    if q == [] then []
    else if q[0].deadline <= now then [q[0]] + Due(q[1..], now)
    else Due(q[1..], now)
  }

  function Later(q: seq<Sleeper>, now: int): seq<Sleeper> {
    if q == [] then []
    else if q[0].deadline <= now then Later(q[1..], now)
    else [q[0]] + Later(q[1..], now)
  }

  // Sorted by deadline, and first come first served among equal deadlines; in particular no call is
  // in the list twice.
  predicate Before(s: Sleeper, t: Sleeper) {
    s.deadline < t.deadline || (s.deadline == t.deadline && s.call.number < t.call.number)
  }

  predicate Ordered(q: seq<Sleeper>) {
    forall i, j :: 0 <= i < j < |q| ==> Before(q[i], q[j])
  }

  lemma {:induction false} InsertElements(q: seq<Sleeper>, s: Sleeper)
    ensures |InsertOrdered(q, s)| == |q| + 1
    ensures forall t :: t in InsertOrdered(q, s) <==> t == s || t in q
  {
    if q != [] && !ThreadComparison(s, q[0]) {
      InsertElements(q[1..], s);
      assert q == [q[0]] + q[1..];
    }
  }

  /** A new call goes behind every equal deadline. */
  lemma {:induction false} InsertKeepsOrder(q: seq<Sleeper>, s: Sleeper)
    requires Ordered(q)
    requires forall i :: 0 <= i < |q| ==> q[i].call.number < s.call.number
    ensures Ordered(InsertOrdered(q, s))
  {
    if q != [] && !ThreadComparison(s, q[0]) {
      InsertKeepsOrder(q[1..], s);
      InsertElements(q[1..], s);
      var r := InsertOrdered(q[1..], s);
      forall i | 0 <= i < |r| ensures Before(q[0], r[i]) {
        assert r[i] in r;
      }
    }
  }

  lemma {:induction false} SplitElements(q: seq<Sleeper>, now: int)
    ensures forall t :: t in Due(q, now) <==> t in q && t.deadline <= now
    ensures forall t :: t in Later(q, now) <==> t in q && t.deadline > now
  {
    if q != [] {
      SplitElements(q[1..], now);
      assert q == [q[0]] + q[1..];
    }
  }

  lemma {:induction false} LaterKeepsOrder(q: seq<Sleeper>, now: int)
    requires Ordered(q)
    ensures Ordered(Later(q, now))
  {
    if q != [] {
      LaterKeepsOrder(q[1..], now);
      var r := Later(q[1..], now);
      SplitElements(q[1..], now);
      forall i | 0 <= i < |r| ensures Before(q[0], r[i]) {
        assert r[i] in r;
      }
    }
  }

  /** In a sorted list nothing behind a deadline still ahead is due: stopping early loses nobody. */
  lemma {:induction false} EarlyExit(q: seq<Sleeper>, now: int)
    requires Ordered(q) && (q == [] || q[0].deadline > now)
    ensures Due(q, now) == [] && Later(q, now) == q
  {
    if q != [] {
      if |q| > 1 {
        assert Before(q[0], q[1]);
      }
      EarlyExit(q[1..], now);
    }
  }

  /** The timer's static variables. `calls` is the bookkeeping behind Call. */
  class Timer {
    var ticks: int
    var threadList: seq<Sleeper>
    var calls: nat

    ghost predicate Valid()
      reads this
    {
      Ordered(threadList) && forall s :: s in threadList ==> s.call.number < calls
    }

    constructor ()
      ensures Valid() && ticks == 0 && threadList == [] && calls == 0
    {
      ticks, threadList, calls := 0, [], 0;
    }

    /** timer_sleep from where interrupts are off; `start` was read from the ticks before that. */
    method TimerSleep(thread: nat, start: int, duration: int)
      requires Valid()
      modifies this
      ensures Valid() && ticks == old(ticks) && calls == old(calls) + 1
      ensures threadList
           == InsertOrdered(old(threadList), Sleeper(thread, start + duration, Call(old(calls), ticks)))
    {
      var current := Sleeper(thread, start + duration, Call(calls, ticks));
      InsertKeepsOrder(threadList, current);
      InsertElements(threadList, current);
      threadList := InsertOrdered(threadList, current);
      calls := calls + 1;
    }

    method TimerInterrupt() returns (unblocked: seq<Sleeper>)
      requires Valid()
      modifies this
      ensures Valid() && ticks == old(ticks) + 1 && calls == old(calls)
      ensures unblocked == Due(old(threadList), ticks)
      ensures threadList == Later(old(threadList), ticks)
    {
      ticks := ticks + 1;
      unblocked := [];
      while threadList != []
        invariant Valid() && ticks == old(ticks) + 1 && calls == old(calls)
        invariant unblocked + Due(threadList, ticks) == Due(old(threadList), ticks)
        invariant Later(threadList, ticks) == Later(old(threadList), ticks)
        decreases |threadList|
      {
        var current := threadList[0];
        if ticks < current.deadline {
          EarlyExit(threadList, ticks);
          break;
        }
        threadList := threadList[1..];
        unblocked := unblocked + [current];
      }
    }
  }
}
