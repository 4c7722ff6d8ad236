/** Whole runs of the sleep queue: when each sleep ends, and when the queue agrees with the countdown
    scan that it replaced. */
module SleepRuns {
  import opened SleepQueue

  // A thread reads the ticks (`start`), and enters the list some time later; or a timer interrupt.
  datatype Event = Sleep(thread: nat, start: int, duration: int) | Tick

  datatype World = World(ticks: int, list: seq<Sleeper>, calls: nat)

  function SleeperOf(w: World, e: Event): Sleeper
    requires e.Sleep?
  {
    Sleeper(e.thread, e.start + e.duration, Call(w.calls, w.ticks))
  }

  function Next(w: World, e: Event): World {
    match e
    case Sleep(_, _, _) => World(w.ticks, InsertOrdered(w.list, SleeperOf(w, e)), w.calls + 1)
    case Tick => World(w.ticks + 1, Later(w.list, w.ticks + 1), w.calls)
  }

  /** The world after the first `k` events. */
  function At(es: seq<Event>, k: nat): World
    requires k <= |es|
  {
    if k == 0 then World(0, [], 0) else Next(At(es, k - 1), es[k - 1])
  }

  function Threads(q: seq<Sleeper>): set<nat> {
    set s | s in q :: s.thread
  }

  function QueueDue(w: World): set<nat> {
    Threads(Due(w.list, w.ticks + 1))
  }

  // The scan: every blocked thread with its sleep_ticks, counted down at every interrupt; a call, also of a
  // thread that is still blocked here, sets the count.
  type Scan = map<nat, int>

  function ScanNext(c: Scan, e: Event): Scan {
    match e
    case Sleep(t, _, duration) => c[t := duration]
    case Tick => map t | t in c && c[t] != 1 :: if c[t] > 0 then c[t] - 1 else c[t]
  }

  function ScanAt(es: seq<Event>, k: nat): Scan
    requires k <= |es|
  {
    if k == 0 then map[] else ScanNext(ScanAt(es, k - 1), es[k - 1])
  }

  function ScanDue(c: Scan): set<nat> {
    set t | t in c && c[t] == 1
  }

  /** A thread that is not asleep can call timer_sleep, whatever its earlier sleeps were. */
  predicate Enabled(w: World, e: Event) {
    e.Sleep? ==> e.start <= w.ticks && e.thread !in Threads(w.list)
  }

  predicate EnabledAt(es: seq<Event>, k: nat)
    requires k < |es|
  {
    Enabled(At(es, k), es[k])
  }

  /** The runs of the queue. */
  predicate Run(es: seq<Event>) {
    forall k :: 0 <= k < |es| ==> EnabledAt(es, k)
  }

  predicate AwakeInScan(es: seq<Event>, k: nat)
    requires k < |es|
  {
    es[k].Sleep? ==> es[k].thread !in ScanAt(es, k)
  }

  /** The runs that the scan can follow: no thread that it still counts down sleeps again. */
  predicate ScanRun(es: seq<Event>) {
    forall k :: 0 <= k < |es| ==> AwakeInScan(es, k)
  }

  // ----- when a sleep ends

  /** The tick that ends a sleep: the deadline, or the next interrupt if that is past. */
  function WakeTick(s: Sleeper): int {
    if s.deadline > s.call.tick then s.deadline else s.call.tick + 1
  }

  predicate Sound(w: World) {
    && Ordered(w.list)
    && (forall s :: s in w.list ==> s.call.number < w.calls && s.call.tick <= w.ticks < WakeTick(s))
    && (forall s, t :: s in w.list && t in w.list && s.thread == t.thread ==> s == t)
  }

  lemma StepKeepsSound(w: World, e: Event)
    requires Sound(w) && Enabled(w, e)
    ensures Sound(Next(w, e))
  {
    match e
    case Sleep(thread, _, _) =>
      var s := SleeperOf(w, e);
      InsertKeepsOrder(w.list, s);
      InsertElements(w.list, s);
      forall t | t in w.list ensures t.thread != thread {
        assert t.thread in Threads(w.list);
      }
    case Tick =>
      SplitElements(w.list, w.ticks + 1);
      LaterKeepsOrder(w.list, w.ticks + 1);
  }

  /** In every run of the queue the list stays sorted, duplicate-free and first come first served among equal
      deadlines, and holds nobody whose time has come; after an interrupt all deadlines are ahead. */
  lemma {:induction false} SoundAlways(es: seq<Event>, k: nat)
    requires Run(es) && k <= |es|
    ensures Sound(At(es, k))
    ensures k > 0 && es[k - 1].Tick? ==> AllAhead(At(es, k))
  {
    if k > 0 {
      SoundAlways(es, k - 1);
      assert EnabledAt(es, k - 1);
      StepKeepsSound(At(es, k - 1), es[k - 1]);
      SplitElements(At(es, k - 1).list, At(es, k - 1).ticks + 1);
    }
  }

  predicate AllAhead(w: World) {
    forall s :: s in w.list ==> s.deadline > w.ticks
  }

  lemma DueExactlyAtWakeTick(w: World)
    requires Sound(w)
    ensures forall s :: s in Due(w.list, w.ticks + 1) <==> s in w.list && WakeTick(s) == w.ticks + 1
    ensures forall s :: s in Later(w.list, w.ticks + 1) ==> s.deadline > w.ticks + 1
  {
    SplitElements(w.list, w.ticks + 1);
  }

  // Whether the call `s`, made earlier, is still in the list.
  predicate Tracked(w: World, s: Sleeper) {
    && s.call.number < w.calls && s.call.tick <= w.ticks
    && (s in w.list <==> w.ticks < WakeTick(s))
  }

  lemma EntersTracked(w: World, e: Event)
    requires Sound(w) && Enabled(w, e) && e.Sleep?
    ensures Tracked(Next(w, e), SleeperOf(w, e))
  {
    InsertElements(w.list, SleeperOf(w, e));
  }

  lemma StepKeepsTracked(w: World, e: Event, s: Sleeper)
    requires Sound(w) && Tracked(w, s)
    ensures Tracked(Next(w, e), s)
  {
    match e
    case Sleep(_, _, _) => InsertElements(w.list, SleeperOf(w, e));
    case Tick => SplitElements(w.list, w.ticks + 1);
  }

  lemma TrackedFrom(es: seq<Event>, k: nat)
    requires Run(es) && k < |es| && es[k].Sleep?
    ensures Tracked(At(es, k + 1), SleeperOf(At(es, k), es[k]))
  {
    SoundAlways(es, k);
    assert EnabledAt(es, k);
    EntersTracked(At(es, k), es[k]);
  }

  lemma TrackedOn(es: seq<Event>, m: nat, s: Sleeper)
    requires Run(es) && m < |es| && Tracked(At(es, m), s)
    ensures Tracked(At(es, m + 1), s)
  {
    SoundAlways(es, m);
    StepKeepsTracked(At(es, m), es[m], s);
  }

  /** A thread that enters the list at tick b with deadline D stays in it until tick max(D, b + 1). */
  lemma {:induction false} AsleepUntilWakeTick(es: seq<Event>, k: nat, m: nat, s: Sleeper)
    requires Run(es) && k < m <= |es| && es[k].Sleep? && s == SleeperOf(At(es, k), es[k])
    ensures Tracked(At(es, m), s)
  {
    if m - 1 > k {
      AsleepUntilWakeTick(es, k, m - 1, s);
      TrackedOn(es, m - 1, s);
    } else {
      TrackedFrom(es, k);
    }
  }

  lemma DueAt(es: seq<Event>, j: nat)
    requires Run(es) && j < |es|
    ensures var w := At(es, j);
      forall s :: s in Due(w.list, w.ticks + 1) <==> s in w.list && WakeTick(s) == w.ticks + 1
  {
    SoundAlways(es, j);
    DueExactlyAtWakeTick(At(es, j));
  }

  /** It is unblocked at exactly one interrupt of the run, the one at that tick. */
  lemma UnblockedExactlyOnce(es: seq<Event>, k: nat, j: nat, s: Sleeper)
    requires Run(es) && k < j < |es| && es[k].Sleep? && s == SleeperOf(At(es, k), es[k])
    ensures s in Due(At(es, j).list, At(es, j).ticks + 1) <==> WakeTick(s) == At(es, j).ticks + 1
  {
    AsleepUntilWakeTick(es, k, j, s);
    DueAt(es, j);
  }

  /** The interrupt handler unblocks in the order of deadlines, and of calls among equal ones. */
  lemma {:induction false} UnblockedInOrder(q: seq<Sleeper>, now: int)
    requires Ordered(q)
    ensures Ordered(Due(q, now))
  {
    if q != [] {
      UnblockedInOrder(q[1..], now);
      SplitElements(q[1..], now);
      var r := Due(q[1..], now);
      forall i | 0 <= i < |r| ensures Before(q[0], r[i]) {
        assert r[i] in r;
      }
    }
  }

  // ----- agreement with the countdown scan

  predicate AgreeAt(es: seq<Event>, k: nat)
    requires k < |es|
  {
    es[k].Tick? ==> QueueDue(At(es, k)) == ScanDue(ScanAt(es, k))
  }

  /** The same threads are unblocked at every interrupt of the run. */
  predicate Agree(es: seq<Event>) {
    forall k :: 0 <= k < |es| ==> AgreeAt(es, k)
  }

  /** A sleep for which both mechanisms mean the same tick. */
  predicate CleanAt(es: seq<Event>, k: nat)
    requires k < |es|
  {
    es[k].Sleep? ==> es[k].duration > 0 && (es[k].start == At(es, k).ticks || es[k].duration == 1)
  }

  predicate Clean(es: seq<Event>) {
    forall k :: 0 <= k < |es| ==> CleanAt(es, k)
  }

  /** Wake tick minus ticks is the countdown value. */
  predicate Matches(w: World, c: Scan) {
    && c.Keys == Threads(w.list)
    && forall s :: s in w.list && s.thread in c ==> c[s.thread] == WakeTick(s) - w.ticks
  }

  lemma MatchingStep(w: World, c: Scan, e: Event)
    requires Sound(w) && Matches(w, c) && Enabled(w, e)
    requires e.Sleep? ==> e.duration > 0 && (e.start == w.ticks || e.duration == 1)
    ensures Matches(Next(w, e), ScanNext(c, e)) && (e.Sleep? ==> e.thread !in c)
    ensures e.Tick? ==> QueueDue(w) == ScanDue(c)
  {
    match e
    case Sleep(_, _, _) => InsertElements(w.list, SleeperOf(w, e));
    case Tick =>
      DueExactlyAtWakeTick(w);
      SplitElements(w.list, w.ticks + 1);
      MatchingTick(w, c);
  }

  lemma MatchingTick(w: World, c: Scan)
    requires Sound(w) && Matches(w, c)
    requires forall s :: s in Due(w.list, w.ticks + 1) <==> s in w.list && WakeTick(s) == w.ticks + 1
    requires forall s :: s in Later(w.list, w.ticks + 1) <==> s in w.list && s.deadline > w.ticks + 1
    ensures QueueDue(w) == ScanDue(c)
    ensures Matches(Next(w, Tick), ScanNext(c, Tick))
  {
    var c' := ScanNext(c, Tick);
    forall t ensures t in QueueDue(w) <==> t in ScanDue(c) {
    }
    forall t ensures t in c' <==> t in Threads(Later(w.list, w.ticks + 1)) {
      if t in c {
        var s :| s in w.list && s.thread == t;
      }
    }
  }

  lemma MatchesOn(es: seq<Event>, k: nat)
    requires Run(es) && Clean(es) && k < |es| && Matches(At(es, k), ScanAt(es, k))
    ensures Matches(At(es, k + 1), ScanAt(es, k + 1)) && AgreeAt(es, k) && AwakeInScan(es, k)
  {
    SoundAlways(es, k);
    assert CleanAt(es, k) && EnabledAt(es, k);
    MatchingStep(At(es, k), ScanAt(es, k), es[k]);
  }

  lemma {:induction false} CleanRunsMatch(es: seq<Event>, k: nat)
    requires Run(es) && Clean(es) && k <= |es|
    ensures Matches(At(es, k), ScanAt(es, k))
  {
    if k > 0 {
      CleanRunsMatch(es, k - 1);
      MatchesOn(es, k - 1);
    } else {
      InitialMatches();
    }
  }

  lemma InitialMatches()
    ensures Matches(World(0, [], 0), map[])
  {
  }

  /** The scan can follow every clean run: the wake tick of every sleeper less the ticks is its countdown
      value after every event, and both mechanisms unblock the same threads at every interrupt. */
  lemma CleanRunsAgree(es: seq<Event>)
    requires Run(es) && Clean(es)
    ensures ScanRun(es) && Agree(es)
    ensures forall k :: 0 <= k <= |es| ==> Matches(At(es, k), ScanAt(es, k))
  {
    forall k | 0 <= k <= |es| ensures Matches(At(es, k), ScanAt(es, k)) {
      CleanRunsMatch(es, k);
    }
    forall k | 0 <= k < |es| ensures AgreeAt(es, k) && AwakeInScan(es, k) {
      CleanRunsMatch(es, k);
      MatchesOn(es, k);
    }
  }

  /** Positive sleeps that enter the list in the tick that they read. */
  predicate PromptAt(es: seq<Event>, k: nat)
    requires k < |es|
  {
    es[k].Sleep? ==> es[k].duration > 0 && es[k].start == At(es, k).ticks
  }

  predicate Prompt(es: seq<Event>) {
    forall k :: 0 <= k < |es| ==> PromptAt(es, k)
  }

  lemma {:induction false} PromptDeadlines(es: seq<Event>, k: nat)
    requires Prompt(es) && k <= |es|
    ensures forall s :: s in At(es, k).list ==> s.deadline > s.call.tick
  {
    if k > 0 {
      PromptDeadlines(es, k - 1);
      assert PromptAt(es, k - 1);
      var w := At(es, k - 1);
      match es[k - 1]
      case Sleep(_, _, _) => InsertElements(w.list, SleeperOf(w, es[k - 1]));
      case Tick => SplitElements(w.list, w.ticks + 1);
    }
  }

  /** For positive sleeps entered in the tick that they read, deadline minus ticks is the countdown value of
      every sleeper, after every event of the run. */
  lemma DeadlineIsCountdown(es: seq<Event>, k: nat, s: Sleeper)
    requires Run(es) && Prompt(es) && k <= |es| && s in At(es, k).list
    ensures s.thread in ScanAt(es, k) && s.deadline - At(es, k).ticks == ScanAt(es, k)[s.thread]
  {
    forall j | 0 <= j < |es| ensures CleanAt(es, j) {
      assert PromptAt(es, j);
    }
    PromptDeadlines(es, k);
    CleanRunsMatch(es, k);
    assert s.thread in Threads(At(es, k).list);
  }

  function Ticks(m: nat): seq<Event> {
    seq(m, i => Tick)
  }

  lemma {:induction false} SameBeforeExtension(es: seq<Event>, m: nat, k: nat)
    requires k <= |es|
    ensures At(es + Ticks(m), k) == At(es, k) && ScanAt(es + Ticks(m), k) == ScanAt(es, k)
  {
    if k > 0 {
      SameBeforeExtension(es, m, k - 1);
    }
  }

  lemma ExtensionRuns(es: seq<Event>, m: nat)
    requires Run(es)
    ensures Run(es + Ticks(m))
  {
    var fs := es + Ticks(m);
    forall k | 0 <= k < |fs| ensures EnabledAt(fs, k) {
      if k < |es| {
        assert EnabledAt(es, k);
        SameBeforeExtension(es, m, k);
      }
    }
  }

  lemma ExtensionClean(es: seq<Event>, m: nat)
    requires Clean(es)
    ensures Clean(es + Ticks(m))
  {
    forall k | 0 <= k < |es + Ticks(m)| ensures CleanAt(es + Ticks(m), k) {
      if k < |es| {
        assert CleanAt(es, k);
        SameBeforeExtension(es, m, k);
      }
    }
  }

  lemma {:induction false} ExtensionTicks(es: seq<Event>, m: nat, n: nat)
    requires n <= m
    ensures At(es + Ticks(m), |es| + n).ticks == At(es, |es|).ticks + n
  {
    if n == 0 {
      SameBeforeExtension(es, m, |es|);
    } else {
      ExtensionTicks(es, m, n - 1);
    }
  }

  // The scan's value for a thread that has slept since tick `b` with sleep_ticks `n`.
  function Countdown(n: int, b: int, now: int): int {
    if n > 0 then n - (now - b) else n
  }

  // The scan counts thread `s.thread` down from `n` since the tick of the call.
  predicate Counting(w: World, c: Scan, s: Sleeper, n: int) {
    s.thread in c && c[s.thread] == Countdown(n, s.call.tick, w.ticks) && (n > 0 ==> c[s.thread] > 0)
  }

  lemma StepKeepsCounting(w: World, c: Scan, e: Event, s: Sleeper, n: int)
    requires Sound(w) && Enabled(w, e) && Tracked(w, s) && Counting(w, c, s, n)
    requires e.Tick? ==> QueueDue(w) == ScanDue(c)
    requires Next(w, e).ticks < WakeTick(s)
    ensures Counting(Next(w, e), ScanNext(c, e), s, n)
  {
    if e.Tick? {
      DueExactlyAtWakeTick(w);
      assert s.thread !in QueueDue(w);
      assert s.thread !in ScanDue(c);
    }
  }

  lemma CountingAdvances(es: seq<Event>, j: nat, s: Sleeper, n: int)
    requires Run(es) && Agree(es) && j < |es|
    requires Tracked(At(es, j), s) && Counting(At(es, j), ScanAt(es, j), s, n)
    requires At(es, j + 1).ticks < WakeTick(s)
    ensures At(es, j).ticks < WakeTick(s)
    ensures Counting(At(es, j + 1), ScanAt(es, j + 1), s, n)
  {
    SoundAlways(es, j);
    assert AgreeAt(es, j) && EnabledAt(es, j);
    StepKeepsCounting(At(es, j), ScanAt(es, j), es[j], s, n);
  }

  lemma CountingStarts(es: seq<Event>, k: nat)
    requires k < |es| && es[k].Sleep?
    ensures Counting(At(es, k + 1), ScanAt(es, k + 1), SleeperOf(At(es, k), es[k]), es[k].duration)
  {
  }

  lemma TicksGrow(es: seq<Event>, j: nat)
    requires j < |es|
    ensures At(es, j).ticks <= At(es, j + 1).ticks
  {
  }

  /** As long as the two agree, a thread asleep in the queue is still counting down in the scan. */
  lemma {:induction false} StillCounting(es: seq<Event>, k: nat, j: nat, s: Sleeper)
    requires Run(es) && Agree(es) && k < j <= |es| && es[k].Sleep? && s == SleeperOf(At(es, k), es[k])
    requires At(es, j).ticks < WakeTick(s)
    ensures Counting(At(es, j), ScanAt(es, j), s, es[k].duration)
  {
    if j - 1 == k {
      CountingStarts(es, k);
    } else {
      TicksGrow(es, j - 1);
      StillCounting(es, k, j - 1, s);
      assert Tracked(At(es, j - 1), s) by {
        AsleepUntilWakeTick(es, k, j - 1, s);
      }
      CountingAdvances(es, j - 1, s, es[k].duration);
    }
  }

  lemma {:induction false} FindTick(es: seq<Event>, k: nat, end: nat, now: int) returns (j: nat)
    requires k < end <= |es| && At(es, k).ticks < now <= At(es, end).ticks
    ensures k <= j < end && es[j].Tick? && At(es, j).ticks + 1 == now
  {
    j := end - 1;
    if At(es, j).ticks >= now {
      j := FindTick(es, k, end - 1, now);
    }
  }

  /** At the interrupt that ends an unclean sleep, the scan's count is not at one. */
  lemma UncleanCount(w: World, c: Scan, s: Sleeper, start: int, n: int)
    requires Counting(w, c, s, n) && s.deadline == start + n && start <= s.call.tick <= w.ticks
    requires s in Due(w.list, w.ticks + 1) && WakeTick(s) == w.ticks + 1
    requires !(n > 0 && (start == s.call.tick || n == 1))
    ensures QueueDue(w) != ScanDue(c)
  {
    assert s.thread in QueueDue(w);
    assert s.thread !in ScanDue(c);
  }

  lemma DisagreeAtWakeTick(es: seq<Event>, k: nat, j: nat, s: Sleeper)
    requires Run(es) && k < j < |es| && !CleanAt(es, k) && es[j].Tick?
    requires s == SleeperOf(At(es, k), es[k]) && WakeTick(s) == At(es, j).ticks + 1
    ensures !Agree(es)
  {
    var w, c := At(es, j), ScanAt(es, j);
    if Agree(es) {
      assert Counting(w, c, s, es[k].duration) by {
        StillCounting(es, k, j, s);
      }
      assert s in Due(w.list, w.ticks + 1) by {
        UnblockedExactlyOnce(es, k, j, s);
      }
      assert es[k].start <= s.call.tick <= w.ticks by {
        CallInThePast(es, k, j);
      }
      assert QueueDue(w) == ScanDue(c) by {
        assert AgreeAt(es, j);
      }
      UncleanCount(w, c, s, es[k].start, es[k].duration);
    }
  }

  lemma CallInThePast(es: seq<Event>, k: nat, j: nat)
    requires Run(es) && k < j <= |es| && es[k].Sleep?
    ensures es[k].start <= At(es, k).ticks <= At(es, j).ticks
  {
    StartsInThePast(es, k);
    AsleepUntilWakeTick(es, k, j, SleeperOf(At(es, k), es[k]));
  }

  lemma StartsInThePast(es: seq<Event>, k: nat)
    requires Run(es) && k < |es| && es[k].Sleep?
    ensures es[k].start <= At(es, k).ticks
  {
    assert EnabledAt(es, k);
  }

  lemma UncleanDisagrees(es: seq<Event>, k: nat) returns (m: nat)
    requires Run(es) && k < |es| && !CleanAt(es, k)
    ensures !Agree(es + Ticks(m))
  {
    var s := SleeperOf(At(es, k), es[k]);
    var wake, now := WakeTick(s), At(es, |es|).ticks;
    m := if wake > now then wake - now else 0;
    var fs := es + Ticks(m);
    ExtensionRuns(es, m);
    ExtensionTicks(es, m, m);
    SameBeforeExtension(es, m, k);
    var j := FindTick(fs, k, |fs|, WakeTick(s));
    DisagreeAtWakeTick(fs, k, j, s);
  }

  /** The queue and the scan unblock the same threads, however long the run goes on, if and only if
      every sleep is positive and entered the list in the tick whose count it read, or lasts one tick. */
  lemma AgreementExactly(es: seq<Event>)
    requires Run(es)
    ensures (forall m: nat :: Agree(es + Ticks(m))) <==> Clean(es)
  {
    if Clean(es) {
      forall m: nat ensures Agree(es + Ticks(m)) {
        ExtensionRuns(es, m);
        ExtensionClean(es, m);
        CleanRunsAgree(es + Ticks(m));
      }
    } else {
      var k: nat :| k < |es| && !CleanAt(es, k);
      var m := UncleanDisagrees(es, k);
    }
  }

  // ----- where they disagree

  /** A sleep of no ticks ends at the next interrupt in the queue, and never in the scan. */
  lemma EmptySleepDisagrees(t: nat) returns (es: seq<Event>)
    ensures es == [Sleep(t, 0, 0), Tick] && Run(es) && ScanRun(es) && !Agree(es)
  {
    es := [Sleep(t, 0, 0), Tick];
    var s := Sleeper(t, 0, Call(0, 0));
    assert At(es, 0) == World(0, [], 0) && ScanAt(es, 0) == map[];
    assert At(es, 1) == World(0, [s], 1) && ScanAt(es, 1) == map[t := 0];
    assert EnabledAt(es, 0) && EnabledAt(es, 1) && AwakeInScan(es, 0) && AwakeInScan(es, 1);
    assert t in QueueDue(At(es, 1)) by {
      assert s in Due([s], 1);
    }
    assert t !in ScanDue(ScanAt(es, 1));
    assert !AgreeAt(es, 1);
  }

  /** A tick between reading the clock and entering the list shortens a sleep in the queue only. */
  lemma LateSleepDisagrees(t: nat) returns (es: seq<Event>)
    ensures es == [Tick, Sleep(t, 0, 2), Tick] && Run(es) && ScanRun(es) && !Agree(es)
  {
    es := [Tick, Sleep(t, 0, 2), Tick];
    var s := Sleeper(t, 2, Call(0, 1));
    assert At(es, 0) == World(0, [], 0) && ScanAt(es, 0) == map[];
    assert At(es, 1) == World(1, [], 0) && ScanAt(es, 1) == map[];
    assert At(es, 2) == World(1, [s], 1) && ScanAt(es, 2) == map[t := 2];
    assert EnabledAt(es, 0) && EnabledAt(es, 1) && EnabledAt(es, 2);
    assert AwakeInScan(es, 0) && AwakeInScan(es, 1) && AwakeInScan(es, 2);
    assert t in QueueDue(At(es, 2)) by {
      assert s in Due([s], 2);
    }
    assert t !in ScanDue(ScanAt(es, 2));
    assert !AgreeAt(es, 2);
  }

  /** A thread woken from a sleep of no ticks sleeps again, while the scan would still have it blocked. */
  lemma SleepsAgain(t: nat) returns (es: seq<Event>)
    ensures es == [Sleep(t, 0, 0), Tick, Sleep(t, 1, 5)] && Run(es) && !ScanRun(es)
  {
    es := [Sleep(t, 0, 0), Tick, Sleep(t, 1, 5)];
    var s := Sleeper(t, 0, Call(0, 0));
    assert At(es, 0) == World(0, [], 0) && ScanAt(es, 0) == map[];
    assert At(es, 1) == World(0, [s], 1) && ScanAt(es, 1) == map[t := 0];
    assert At(es, 2) == World(1, [], 1) by {
      assert [s][1..] == [] && Later([s], 1) == Later([], 1);
    }
    assert ScanAt(es, 2) == ScanNext(map[t := 0], Tick) == map[t := 0];
    assert EnabledAt(es, 0) && EnabledAt(es, 1) && EnabledAt(es, 2);
    assert !AwakeInScan(es, 2);
  }

  /** So does one woken from a sleep that it entered late. */
  lemma SleepsAgainLate(t: nat) returns (es: seq<Event>)
    ensures es == [Tick, Sleep(t, 0, 2), Tick, Sleep(t, 2, 5)] && Run(es) && !ScanRun(es)
  {
    es := [Tick, Sleep(t, 0, 2), Tick, Sleep(t, 2, 5)];
    var s := Sleeper(t, 2, Call(0, 1));
    assert At(es, 0) == World(0, [], 0) && ScanAt(es, 0) == map[];
    assert At(es, 1) == World(1, [], 0) && ScanAt(es, 1) == map[];
    assert At(es, 2) == World(1, [s], 1) && ScanAt(es, 2) == map[t := 2];
    assert At(es, 3) == World(2, [], 1) by {
      assert [s][1..] == [] && Later([s], 2) == Later([], 2);
    }
    assert ScanAt(es, 3) == ScanNext(map[t := 2], Tick) == map[t := 1];
    assert EnabledAt(es, 0) && EnabledAt(es, 1) && EnabledAt(es, 2) && EnabledAt(es, 3);
    assert !AwakeInScan(es, 3);
  }
}
