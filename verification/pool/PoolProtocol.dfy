/** The goroutines of the worker-pool server: an acceptor, any number of workers, an unbuffered channel
    between them, and Stop. Every step is one that no other goroutine can split. */
module PoolProtocol {

  /** acceptConnections: in Accept, blocked on the channel with a connection, behind an error of Accept,
      returned, or dead of a send on the closed channel. */
  datatype Acceptor = Accepting | Holding(conn: nat) | Checking | Returned | Panicked

  /** worker: waiting at the channel; with a connection not yet counted, counted, and no longer
      counted; returned. */
  datatype Worker = Idle | Got(conn: nat) | Serving(conn: nat) | Closing(conn: nat) | Left

  /** How far Stop is. */
  datatype Stage = Running | Signalled | ListenerClosed | ChannelClosed | Stopped(graceful: bool)

  /** Connections are numbered as they are accepted; `closed` is every Close so far. */
  datatype State = State(acceptor: Acceptor, workers: seq<Worker>, stage: Stage, wg: int, count: int,
                         accepted: nat, malformed: nat, closed: seq<nat>)

  datatype Action =
    | Accept | AcceptFails | Check
    | Deliver(w: nat) | SendPanics
    | CountIn(w: nat) | WelcomeFails(w: nat) | BadRequest(w: nat) | Served(w: nat) | CloseConn(w: nat)
    | Leave(w: nat)
    | CloseShutdown | CloseListener | CloseChannel | WaitDone | Timeout

  predicate Shut(s: State) {
    s.stage.ChannelClosed? || s.stage.Stopped?
  }

  predicate ListenerOpen(s: State) {
    s.stage.Running? || s.stage.Signalled?
  }

  // A worker that is where the action needs it.
  predicate WorkerMay(a: Action, s: State) {
    match a
    case Deliver(w) => w < |s.workers| && s.workers[w].Idle? && s.acceptor.Holding? && !Shut(s)
    case CountIn(w) => w < |s.workers| && s.workers[w].Got?
    case WelcomeFails(w) => w < |s.workers| && s.workers[w].Serving?
    case BadRequest(w) => w < |s.workers| && s.workers[w].Serving?
    case Served(w) => w < |s.workers| && s.workers[w].Serving?
    case CloseConn(w) => w < |s.workers| && s.workers[w].Closing?
    case Leave(w) => w < |s.workers| && s.workers[w].Idle? && Shut(s)
    case _ => false
  }

  predicate Enabled(s: State, a: Action) {
    !s.acceptor.Panicked? && !s.stage.Stopped? &&
    match a
    case Accept => s.acceptor.Accepting? && ListenerOpen(s)
    case AcceptFails => s.acceptor.Accepting?
    case Check => s.acceptor.Checking?
    case SendPanics => s.acceptor.Holding? && Shut(s)
    case CloseShutdown => s.stage.Running?
    case CloseListener => s.stage.Signalled?
    case CloseChannel => s.stage.ListenerClosed?
    case WaitDone => s.stage.ChannelClosed? && s.wg == 0
    case Timeout => s.stage.ChannelClosed?
    case _ => WorkerMay(a, s)
  }

  function Next(s: State, a: Action): State
    requires Enabled(s, a)
  {
    match a
    case Accept => s.(acceptor := Holding(s.accepted), accepted := s.accepted + 1)
    case AcceptFails => s.(acceptor := Checking)
    case Check => if s.stage.Running? then s.(acceptor := Accepting) else s.(acceptor := Returned, wg := s.wg - 1)
    case Deliver(w) => s.(acceptor := Accepting, workers := s.workers[w := Got(s.acceptor.conn)])
    case SendPanics => s.(acceptor := Panicked)
    case CountIn(w) => s.(workers := s.workers[w := Serving(s.workers[w].conn)], count := s.count + 1)
    case WelcomeFails(w) => s.(workers := s.workers[w := Closing(s.workers[w].conn)], count := s.count - 1)
    case BadRequest(w) => s.(workers := s.workers[w := Closing(s.workers[w].conn)], malformed := s.malformed + 1)
    case Served(w) => s.(workers := s.workers[w := Closing(s.workers[w].conn)], count := s.count - 1)
    case CloseConn(w) => s.(workers := s.workers[w := Idle], closed := s.closed + [s.workers[w].conn])
    case Leave(w) => s.(workers := s.workers[w := Left], wg := s.wg - 1)
    case CloseShutdown => s.(stage := Signalled)
    case CloseListener => s.(stage := ListenerClosed)
    case CloseChannel => s.(stage := ChannelClosed)
    case WaitDone => s.(stage := Stopped(true))
    case Timeout => s.(stage := Stopped(false))
  }

  /** After Start with `n` workers. */
  predicate Started(s: State, n: nat) {
    && s.acceptor.Accepting? && |s.workers| == n && (forall w :: 0 <= w < n ==> s.workers[w].Idle?)
    && s.stage.Running? && s.wg == 1 + n && s.count == 0 && s.accepted == 0 && s.malformed == 0 && s.closed == []
  }

  ghost predicate Run(ss: seq<State>, acts: seq<Action>, n: nat) {
    && |ss| == |acts| + 1 && Started(ss[0], n)
    && forall k :: 0 <= k < |acts| ==> Enabled(ss[k], acts[k]) && ss[k + 1] == Next(ss[k], acts[k])
  }

  // ----- counting workers

  datatype Kind = Present | Active | With(conn: nat)

  predicate IsOf(w: Worker, k: Kind) {
    match k
    case Present => !w.Left?
    case Active => w.Serving?
    case With(c) => !w.Idle? && !w.Left? && w.conn == c
  }

  function One(b: bool): nat {
    if b then 1 else 0
  }

  function Tally(ws: seq<Worker>, k: Kind): (n: nat)
    ensures n <= |ws|
  {
    if ws == [] then 0 else Tally(ws[..|ws| - 1], k) + One(IsOf(ws[|ws| - 1], k))
  }

  lemma {:induction false} TallyUpdate(ws: seq<Worker>, i: nat, w: Worker, k: Kind)
    requires i < |ws|
    ensures Tally(ws[i := w], k) == Tally(ws, k) - One(IsOf(ws[i], k)) + One(IsOf(w, k))
    decreases |ws|
  {
    var n := |ws| - 1;
    if i < n {
      assert ws[i := w][..n] == ws[..n][i := w];
      TallyUpdate(ws[..n], i, w, k);
    } else {
      assert ws[i := w][..n] == ws[..n];
    }
  }

  lemma {:induction false} NoneOf(ws: seq<Worker>, k: Kind)
    ensures Tally(ws, k) == 0 <==> forall i :: 0 <= i < |ws| ==> !IsOf(ws[i], k)
    decreases |ws|
  {
    if ws != [] {
      NoneOf(ws[..|ws| - 1], k);
    }
  }

  lemma {:induction false} AllOf(ws: seq<Worker>, k: Kind)
    requires forall i :: 0 <= i < |ws| ==> IsOf(ws[i], k)
    ensures Tally(ws, k) == |ws|
    decreases |ws|
  {
    if ws != [] {
      AllOf(ws[..|ws| - 1], k);
    }
  }

  // ----- what every interleaving keeps

  /** The wait group counts the goroutines that have not returned; connectionCount counts the handlers
      between its increment and its decrement, and the malformed requests so far. */
  predicate Accounted(s: State) {
    && s.wg == One(!s.acceptor.Returned?) + Tally(s.workers, Present)
    && s.count == Tally(s.workers, Active) + s.malformed
  }

  /** Where a connection is: with the acceptor, with a worker, or closed. */
  function Places(s: State, c: nat): nat {
    One(s.acceptor == Holding(c)) + Tally(s.workers, With(c)) + multiset(s.closed)[c]
  }

  // Each accepted connection is in one place; once the acceptor has died with one, in at most one.
  ghost predicate Conserved(s: State) {
    && (forall c: nat :: Places(s, c) <= One(c < s.accepted))
    && (!s.acceptor.Panicked? ==> forall c: nat :: Places(s, c) == One(c < s.accepted))
  }

  // Only before its listener is closed can the acceptor go on for good.
  predicate Ordered(s: State) {
    (s.acceptor.Returned? ==> !s.stage.Running?) && (s.acceptor.Panicked? ==> Shut(s))
  }

  predicate OfWorker(a: Action) {
    a.Deliver? || a.CountIn? || a.WelcomeFails? || a.BadRequest? || a.Served? || a.CloseConn? || a.Leave?
  }

  lemma StepKeepsAccounted(s: State, a: Action)
    requires Accounted(s) && Enabled(s, a)
    ensures Accounted(Next(s, a))
  {
    if OfWorker(a) {
      var w := Next(s, a).workers[a.w];
      TallyUpdate(s.workers, a.w, w, Present);
      TallyUpdate(s.workers, a.w, w, Active);
    }
  }

  lemma StepKeepsPlaces(s: State, a: Action, c: nat)
    requires Enabled(s, a) && Places(s, c) == One(c < s.accepted)
    ensures Places(Next(s, a), c) <= One(c < Next(s, a).accepted)
    ensures !Next(s, a).acceptor.Panicked? ==> Places(Next(s, a), c) == One(c < Next(s, a).accepted)
  {
    if OfWorker(a) {
      TallyUpdate(s.workers, a.w, Next(s, a).workers[a.w], With(c));
    }
  }

  lemma StepKeepsConserved(s: State, a: Action)
    requires Conserved(s) && Enabled(s, a)
    ensures Conserved(Next(s, a))
  {
    var s' := Next(s, a);
    forall c: nat
      ensures Places(s', c) <= One(c < s'.accepted)
      ensures !s'.acceptor.Panicked? ==> Places(s', c) == One(c < s'.accepted)
    {
      StepKeepsPlaces(s, a, c);
    }
  }

  lemma StartIsSound(s: State, n: nat)
    requires Started(s, n)
    ensures Accounted(s) && Conserved(s) && Ordered(s)
  {
    AllOf(s.workers, Present);
    NoneOf(s.workers, Active);
    forall c: nat ensures Places(s, c) == 0 {
      NoneOf(s.workers, With(c));
    }
  }

  /** In every interleaving. */
  lemma {:induction false} AccountedAlways(ss: seq<State>, acts: seq<Action>, n: nat, k: nat)
    requires Run(ss, acts, n) && k < |ss|
    ensures |ss[k].workers| == n && Accounted(ss[k]) && Conserved(ss[k]) && Ordered(ss[k])
  {
    if k == 0 {
      StartIsSound(ss[0], n);
    } else {
      AccountedAlways(ss, acts, n, k - 1);
      StepKeepsAccounted(ss[k - 1], acts[k - 1]);
      StepKeepsConserved(ss[k - 1], acts[k - 1]);
    }
  }

  // ----- the numbers, by what has happened

  datatype Event = Accepts | Enters | Exits | Malformations | Closes

  predicate IsEvent(a: Action, e: Event) {
    match e
    case Accepts => a == Accept
    case Enters => a.CountIn?
    case Exits => a.WelcomeFails? || a.Served?
    case Malformations => a.BadRequest?
    case Closes => a.CloseConn?
  }

  function HowOften(acts: seq<Action>, k: nat, e: Event): nat
    requires k <= |acts|
  {
    if k == 0 then 0 else HowOften(acts, k - 1, e) + One(IsEvent(acts[k - 1], e))
  }

  lemma EventsCount(s: State, a: Action)
    requires Enabled(s, a)
    ensures Next(s, a).count == s.count + One(IsEvent(a, Enters)) - One(IsEvent(a, Exits))
    ensures Next(s, a).malformed == s.malformed + One(IsEvent(a, Malformations))
    ensures Next(s, a).accepted == s.accepted + One(IsEvent(a, Accepts))
    ensures |Next(s, a).closed| == |s.closed| + One(IsEvent(a, Closes))
  {
  }

  /** connectionCount goes up with each handler that starts, and down with each that ends but for a malformed
      request; every other number is that of its own event. */
  lemma {:induction false} CountedByEvents(ss: seq<State>, acts: seq<Action>, n: nat, k: nat)
    requires Run(ss, acts, n) && k < |ss|
    ensures ss[k].count == HowOften(acts, k, Enters) - HowOften(acts, k, Exits)
    ensures ss[k].malformed == HowOften(acts, k, Malformations)
    ensures ss[k].accepted == HowOften(acts, k, Accepts) && |ss[k].closed| == HowOften(acts, k, Closes)
  {
    if k > 0 {
      CountedByEvents(ss, acts, n, k - 1);
      EventsCount(ss[k - 1], acts[k - 1]);
    }
  }

  /** Behind an error of Accept the acceptor returns exactly if the shutdown has been signalled. */
  lemma AcceptorStops(ss: seq<State>, acts: seq<Action>, n: nat, k: nat)
    requires Run(ss, acts, n) && k < |acts| && acts[k] == Check
    ensures ss[k].acceptor == Checking
    ensures ss[k + 1].acceptor == if ss[k].stage == Running then Accepting else Returned
  {
  }

  /** At most `n` handlers run at once, and connectionCount is their number plus the malformed requests;
      so it is right exactly as long as no request was malformed. */
  lemma CountDriftsByMalformed(ss: seq<State>, acts: seq<Action>, n: nat, k: nat)
    requires Run(ss, acts, n) && k < |ss|
    ensures Tally(ss[k].workers, Active) <= n
    ensures ss[k].count == Tally(ss[k].workers, Active) + ss[k].malformed
    ensures ss[k].count == Tally(ss[k].workers, Active) <==> ss[k].malformed == 0
  {
    AccountedAlways(ss, acts, n, k);
  }

  /** No connection is ever closed twice, and one that is closed was accepted. */
  lemma ClosedOnce(ss: seq<State>, acts: seq<Action>, n: nat, k: nat, c: nat)
    requires Run(ss, acts, n) && k < |ss|
    ensures multiset(ss[k].closed)[c] <= 1 && (c in ss[k].closed ==> c < ss[k].accepted)
  {
    AccountedAlways(ss, acts, n, k);
    assert Places(ss[k], c) <= One(c < ss[k].accepted);
  }
}
