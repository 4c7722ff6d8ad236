/** In every interleaving: how many tokens release_slot hands out, when they are more than there are
    sleepers to take them, and when tokens are left behind at the end. */
module BusTokens {
  import opened BusTypes
  import opened BusProtocol
  import opened BusHandOff

  // ----- one release, on the counters alone

  /** MIN of the free slots and the registered tasks of a class; a negative number of slots gives them all. */
  function Granted(free: int, registered: int): int {
    if 0 <= free < registered then free else registered
  }

  /** What one half of release_slot gives to its direction: priority first, normal if the other direction has
      no priority task. */
  function HalfGrants(free: int, registered: PerClass, d: Direction): Pair {
    var p := Granted(free, registered.Of(Class(d, PRIORITY)));
    var n := Granted(free - p, registered.Of(Class(d, NORMAL)));
    Pair(if registered.Of(Class(d.Other(), PRIORITY)) > 0 then 0 else n, p)
  }

  const NONE := Pair(0, 0)

  /** The tokens that a release hands out: the receivers' half comes second, and gets nothing after the
      first has woken somebody. */
  function Signals(b: Bus): PerClass {
    var free := BUS_CAPACITY - (b.onBus - 1) - b.waiting;
    var send := if b.onBus == 1 || b.direction != Carrying(RECEIVE) then HalfGrants(free, b.registered, SEND) else NONE;
    var turned := send.normal + send.priority > 0;
    var receive := if !turned && (b.onBus == 1 || b.direction != Carrying(SEND))
                   then HalfGrants(free, b.registered, RECEIVE) else NONE;
    PerClass(send, receive)
  }

  // A half of release_slot with the state that it needs.
  predicate Usual(b: Bus) {
    0 <= b.onBus <= 3 && 0 <= b.waiting <= 200_000 && b.registered.NonNegative() && b.registered.Total() <= 200
  }

  function Grants(free: int, registered: PerClass, d: Direction): PerClass {
    var grants := HalfGrants(free, registered, d);
    if d.SEND? then PerClass(grants, NONE) else PerClass(NONE, grants)
  }

  lemma HalfSignals(b: Bus, d: Direction)
    requires Usual(b) && b.direction != Carrying(d.Other())
    ensures var b', g := WakeToward(b, d), Grants(BUS_CAPACITY - b.onBus - b.waiting, b.registered, d);
      && g.NonNegative() && b'.tokens.IsSum(b.tokens, g) && b'.waiting == b.waiting + g.Total()
      && b'.direction == if g.Total() > 0 then Carrying(d) else b.direction
  {
    var p, n := Class(d, PRIORITY), Class(d, NORMAL);
    var free := BUS_CAPACITY - b.onBus - b.waiting;
    var b1 := Signal(b, p, ToWake(b, p));
    assert ToWake(b, p) == Granted(free, b.registered.Of(p)) by {
      ToWakeMeaning(b, p);
    }
    SignalEffect(b, p, ToWake(b, p));
    assert ToWake(b1, n) == Granted(free - ToWake(b, p), b.registered.Of(n)) by {
      ToWakeMeaning(b1, n);
    }
  }

  /** release_slot hands out exactly these. */
  lemma ReleaseSignals(b: Bus)
    requires 1 <= b.onBus <= 3 && 0 <= b.waiting <= 160_000
    requires b.registered.NonNegative() && b.registered.Total() <= 200
    ensures Signals(b).NonNegative() && BusTypes.Release(b).tokens.IsSum(b.tokens, Signals(b))
    ensures BusTypes.Release(b).waiting == b.waiting + Signals(b).Total()
    ensures BusTypes.Release(b).direction ==
      if Signals(b).Toward(SEND) > 0 then Carrying(SEND)
      else if Signals(b).Toward(RECEIVE) > 0 then Carrying(RECEIVE)
      else if b.onBus == 1 then Idle
      else b.direction
  {
    var left := Leave(b);
    WakeTowardEffect(left, SEND);
    if left.direction != Carrying(RECEIVE) {
      HalfSignals(left, SEND);
    }
    var half := WakeToward(left, SEND);
    if half.direction != Carrying(SEND) {
      HalfSignals(half, RECEIVE);
    }
  }

  // ----- tokens against sleepers

  ghost function Sleepers(w: World, c: Class): int {
    Tally(w.threads, Asleep).Of(c)
  }

  /** How many tokens of a class nobody is asleep for; negative while there are more sleepers. */
  ghost function Excess(w: World, c: Class): int {
    w.bus.tokens.Of(c) - Sleepers(w, c)
  }

  /** What a step does to it: a release signals, a newcomer goes to sleep. */
  function ExcessOf(w: World, a: Action, c: Class): int
    requires Enabled(w, a)
  {
    if a.Release? then Signals(w.bus).Of(c)
    else if a.Enter? && MustWait(w.bus, w.threads[a.i].class_) && w.threads[a.i].class_ == c then -1
    else 0
  }

  lemma ReleaseExcess(w: World, a: Action, c: Class)
    requires Accounting(w) && Enabled(w, a) && a.Release?
    ensures Next(w, a).bus.tokens.Of(c) == w.bus.tokens.Of(c) + Signals(w.bus).Of(c)
  {
    TallyMember(w.threads, a.i);
    ReleaseSignals(w.bus);
  }

  lemma AddAt(p: PerClass, c: Class, d: Class, n: int)
    ensures p.Add(c, n).Of(d) == p.Of(d) + if c == d then n else 0
  {
  }

  lemma StepExcess(w: World, a: Action, c: Class)
    requires Accounting(w) && Enabled(w, a)
    ensures Excess(Next(w, a), c) == Excess(w, c) + ExcessOf(w, a, c)
  {
    var t := w.threads[a.i];
    TallyMove(w.threads, a.i, NextPhase(w, a), Asleep);
    AddAt(Tally(w.threads, Asleep), t.class_, c, Delta(t.phase, NextPhase(w, a), Asleep));
    match a
    case Enter(_) =>
    case Take(_) => AddAt(w.bus.tokens, t.class_, c, -1);
    case Resume(_) =>
    case Unblock(i) => NeverUnblocked(w, i); assert false;
    case Release(_) => ReleaseExcess(w, a, c);
  }

  ghost predicate TokensFit(w: World) {
    forall c :: w.bus.tokens.Of(c) <= Sleepers(w, c)
  }

  // A release signals no class more often than it has sleepers without a token.
  ghost predicate SignalsFit(w: World, a: Action) {
    a.Release? ==> forall c :: Signals(w.bus).Of(c) <= Sleepers(w, c) - w.bus.tokens.Of(c)
  }

  /** While nobody is woken, sleepers are what the counters say. */
  lemma SleepersByCounters(w: World, c: Class)
    requires Accounting(w)
    ensures Sleepers(w, c) == w.bus.registered.Of(c) - Tally(w.threads, Woken).Of(c)
    ensures w.bus.waiting == w.bus.tokens.Total() ==> Sleepers(w, c) == w.bus.registered.Of(c)
  {
  }

  lemma FitStep(w: World, a: Action)
    requires Accounting(w) && Enabled(w, a) && TokensFit(w)
    ensures TokensFit(Next(w, a)) <==> SignalsFit(w, a)
  {
    forall c ensures Excess(Next(w, a), c) == Excess(w, c) + ExcessOf(w, a, c) {
      StepExcess(w, a, c);
    }
    if a.Release? {
      FitRelease(w, Next(w, a), a);
    } else {
      forall c ensures Next(w, a).bus.tokens.Of(c) <= Sleepers(Next(w, a), c) {
        assert Excess(Next(w, a), c) <= Excess(w, c);
      }
    }
  }

  lemma FitRelease(w: World, w': World, a: Action)
    requires a.Release? && forall c :: Excess(w', c) == Excess(w, c) + Signals(w.bus).Of(c)
    ensures TokensFit(w') <==> SignalsFit(w, a)
  {
    forall c
      ensures w'.bus.tokens.Of(c) <= Sleepers(w', c) <==> Signals(w.bus).Of(c) <= Sleepers(w, c) - w.bus.tokens.Of(c)
    {
      assert Excess(w', c) == Excess(w, c) + Signals(w.bus).Of(c);
    }
  }

  lemma InitiallyFit(w: World)
    requires Initial(w)
    ensures TokensFit(w)
    ensures forall c :: Excess(w, c) == 0
  {
    NewTasksAreNotCounted(w.threads);
  }

  ghost predicate SignalsFitUntil(ws: seq<World>, acts: seq<Action>, k: nat)
    requires k <= |acts| && |ws| == |acts| + 1
  {
    forall j :: 0 <= j < k ==> SignalsFit(ws[j], acts[j])
  }

  lemma {:induction false} FitUntil(ws: seq<World>, acts: seq<Action>, k: nat)
    requires Run(ws, acts) && k < |ws| && SignalsFitUntil(ws, acts, k)
    ensures TokensFit(ws[k])
  {
    if k == 0 {
      InitiallyFit(ws[0]);
    } else {
      FitUntil(ws, acts, k - 1);
      AccountingAlways(ws, acts, k - 1);
      FitStep(ws[k - 1], acts[k - 1]);
    }
  }

  /** Over a whole run no semaphore ever holds more tokens than it has sleepers if and only if each release
      signals each class at most as often as it has sleepers without a token. */
  lemma TokensFitExactly(ws: seq<World>, acts: seq<Action>)
    requires Run(ws, acts)
    ensures (forall k :: 0 <= k < |ws| ==> TokensFit(ws[k])) <==> SignalsFitUntil(ws, acts, |acts|)
  {
    if SignalsFitUntil(ws, acts, |acts|) {
      forall k | 0 <= k < |ws| ensures TokensFit(ws[k]) {
        FitUntil(ws, acts, k);
      }
    } else if forall k :: 0 <= k < |ws| ==> TokensFit(ws[k]) {
      forall k | 0 <= k < |acts| ensures SignalsFit(ws[k], acts[k]) {
        AccountingAlways(ws, acts, k);
        assert TokensFit(ws[k]) && TokensFit(ws[k + 1]);
        FitStep(ws[k], acts[k]);
      }
    }
  }

  // ----- over a whole run

  /** Signals so far less newcomers that went to sleep so far, of a class. */
  function Surplus(ws: seq<World>, acts: seq<Action>, k: nat, c: Class): int
    requires k <= |acts| && |ws| == |acts| + 1 && forall j :: 0 <= j < |acts| ==> Enabled(ws[j], acts[j])
  {
    if k == 0 then 0 else Surplus(ws, acts, k - 1, c) + ExcessOf(ws[k - 1], acts[k - 1], c)
  }

  /** Tokens less sleepers are signals less sleeps: every sleeper takes one token, and only one. */
  lemma {:induction false} ExcessIsSurplus(ws: seq<World>, acts: seq<Action>, k: nat, c: Class)
    requires Run(ws, acts) && k < |ws|
    ensures Excess(ws[k], c) == Surplus(ws, acts, k, c)
  {
    if k == 0 {
      InitiallyFit(ws[0]);
    } else {
      ExcessIsSurplus(ws, acts, k - 1, c);
      AccountingAlways(ws, acts, k - 1);
      StepExcess(ws[k - 1], acts[k - 1], c);
    }
  }

  lemma ZeroByClass(p: PerClass)
    ensures p.IsZero() <==> forall c :: p.Of(c) == 0
  {
    if forall c :: p.Of(c) == 0 {
      assert p.Of(Class(SEND, NORMAL)) == 0 && p.Of(Class(SEND, PRIORITY)) == 0;
      assert p.Of(Class(RECEIVE, NORMAL)) == 0 && p.Of(Class(RECEIVE, PRIORITY)) == 0;
    }
  }

  lemma EmptyBus(b: Bus, n: Census)
    requires Balanced(b, n) && n.asleep.IsZero() && n.woken.IsZero() && n.blocked.IsZero() && n.onBus.IsZero()
    ensures IsInitial(b) <==> b.tokens.IsZero()
  {
  }

  lemma CleanEnd(w: World)
    requires Accounting(w) && AllDone(w)
    ensures IsInitial(w.bus) <==> w.bus.tokens.IsZero()
    ensures w.bus.tokens.NonNegative()
  {
    NobodyIn(w.threads, Asleep);
    NobodyIn(w.threads, Woken);
    NobodyIn(w.threads, Blocked);
    NobodyIn(w.threads, OnBus);
    EmptyBus(w.bus, CensusOf(w.threads));
  }

  lemma NoSleepers(w: World, c: Class)
    requires AllDone(w)
    ensures Excess(w, c) == w.bus.tokens.Of(c)
  {
    NobodyIn(w.threads, Asleep);
  }

  lemma TokensLeft(ws: seq<World>, acts: seq<Action>, k: nat, c: Class)
    requires Run(ws, acts) && k < |ws| && AllDone(ws[k])
    ensures ws[k].bus.tokens.Of(c) == Surplus(ws, acts, k, c)
  {
    ExcessIsSurplus(ws, acts, k, c);
    NoSleepers(ws[k], c);
  }

  // Each class was signalled exactly as often as a task of it went to sleep.
  ghost predicate Even(ws: seq<World>, acts: seq<Action>, k: nat)
    requires k <= |acts| && |ws| == |acts| + 1 && forall j :: 0 <= j < |acts| ==> Enabled(ws[j], acts[j])
  {
    forall c :: Surplus(ws, acts, k, c) == 0
  }

  lemma EvenMeansNoTokens(ws: seq<World>, acts: seq<Action>, k: nat, tokens: PerClass)
    requires k <= |acts| && |ws| == |acts| + 1 && forall j :: 0 <= j < |acts| ==> Enabled(ws[j], acts[j])
    requires forall c :: tokens.Of(c) == Surplus(ws, acts, k, c)
    ensures Even(ws, acts, k) <==> tokens.IsZero()
  {
    ZeroByClass(tokens);
  }

  /** When all tasks are done, the bus is as init_bus made it if and only if each class was signalled exactly
      as often as a task of it went to sleep; otherwise tokens and their units of waiting_task are left. */
  lemma CleanEndExactly(ws: seq<World>, acts: seq<Action>, k: nat)
    requires Run(ws, acts) && k < |ws| && AllDone(ws[k])
    ensures IsInitial(ws[k].bus) <==> Even(ws, acts, k)
  {
    AccountingAlways(ws, acts, k);
    CleanEnd(ws[k]);
    forall c ensures ws[k].bus.tokens.Of(c) == Surplus(ws, acts, k, c) {
      TokensLeft(ws, acts, k, c);
    }
    EvenMeansNoTokens(ws, acts, k, ws[k].bus.tokens);
  }
}
