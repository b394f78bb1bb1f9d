/**
 The agent's shutdown protocol: the signal handler, the main thread and the
 plugin threads, interleaved in any order.
 */
module Shutdown {

  // ---------- the machine ----------

  /** Where a plugin thread stands; `i` counts the turns of the current bulk. */
  datatype Thread =
    | NotCreated
    | Looking              // about to read `running`
    | Calling(i: nat)      // about to call its hook
    | Sleeping(i: nat)     // in the sleep after it
    | Publishing           // the bulk is complete
    | Exited

  /** Where the main thread stands; `t` is a thread, `k` a library. */
  datatype MainThread =
    | Creating(t: nat)
    | Waiting
    | Joining(t: nat)
    | Closing(k: nat)
    | Finished
    | Aborted

  datatype Event =
    | HookCalled(t: nat)
    | Published(t: nat)
    | Stopped
    | CleanupBegun
    | LibraryClosed(k: nat)

  datatype State = State(running: bool, main: MainThread, threads: seq<Thread>, log: seq<Event>)

  datatype Action =
    | Create(ok: bool)
    | Wait
    | Join
    | Close
    | Signal
    | Turn(t: nat, interrupted: bool)

  function Init(n: nat): State {
    State(true, Creating(0), seq(n, _ => NotCreated), [])
  }

  /** What thread t does next; `interrupted` matters only to a sleeping thread. */
  function TurnOf(s: State, t: nat, interrupted: bool, bulk: nat): State
    requires t < |s.threads|
  {
    match s.threads[t]
    case Looking => s.(threads := s.threads[t := if !s.running then Exited else if bulk > 0 then Calling(0) else Publishing])
    case Calling(i) => s.(threads := s.threads[t := Sleeping(i)], log := s.log + [HookCalled(t)])
    case Sleeping(i) => s.(threads := s.threads[t := if interrupted || i + 1 >= bulk then Publishing else Calling(i + 1)])
    case Publishing => s.(threads := s.threads[t := Looking], log := s.log + [Published(t)])
    case _ => s
  }

  predicate Enabled(s: State, a: Action) {
    match a
    case Create(_) => s.main.Creating?
    case Wait => s.main.Waiting?
    case Join => s.main.Joining? && (s.main.t < |s.threads| ==> s.threads[s.main.t].Exited?)
    case Close => s.main.Closing?
    case Signal => !s.main.Creating? && !s.main.Aborted?
    case Turn(t, _) => !s.main.Aborted? && t < |s.threads| && !s.threads[t].NotCreated? && !s.threads[t].Exited?
  }

  function Next(s: State, a: Action, bulk: nat): State
    requires Enabled(s, a)
  {
    match a
    case Create(ok) =>
      // The last thread created updates the configuration; it is never joined.
      var t := s.main.t;
      if !ok then s.(main := Aborted)
      else if t < |s.threads| then s.(main := Creating(t + 1), threads := s.threads[t := Looking])
      else s.(main := Waiting)
    case Wait => if s.running then s else s.(main := Joining(0))
    case Join =>
      if s.main.t < |s.threads| then s.(main := Joining(s.main.t + 1))
      else s.(main := Closing(0), log := s.log + [CleanupBegun])
    case Close =>
      if s.main.k < |s.threads| then s.(main := Closing(s.main.k + 1), log := s.log + [LibraryClosed(s.main.k)])
      else s.(main := Finished)
    case Signal => s.(running := false, log := s.log + [Stopped])
    case Turn(t, interrupted) => TurnOf(s, t, interrupted, bulk)
  }

  /** A run that can happen: each action is enabled when it is taken. */
  predicate CanRun(s: State, run: seq<Action>, bulk: nat)
    decreases |run|
  {
    run != [] ==> Enabled(s, run[0]) && CanRun(Next(s, run[0], bulk), run[1..], bulk)
  }

  function After(s: State, run: seq<Action>, bulk: nat): State
    requires CanRun(s, run, bulk)
    decreases |run|
  {
    if run == [] then s else After(Next(s, run[0], bulk), run[1..], bulk)
  }

  // ---------- what the log says ----------

  predicate Has(log: seq<Event>, e: Event) {
    e in log
  }

  /** No hook call and no publication follows the start of the clean-up. */
  predicate QuietCleanup(log: seq<Event>) {
    forall i, j :: 0 <= i < j < |log| && log[i].CleanupBegun? ==> !log[j].HookCalled? && !log[j].Published?
  }

  /** Libraries are closed only after the clean-up began. */
  predicate ClosedInCleanup(log: seq<Event>) {
    forall j :: 0 <= j < |log| && log[j].LibraryClosed? ==> exists i :: 0 <= i < j && log[i].CleanupBegun?
  }

  /** Occurrences of `e` after the first stop signal. */
  function SinceStop(log: seq<Event>, e: Event): nat {
    if log == [] then 0
    else
      var init := log[..|log| - 1];
      SinceStop(init, e) + if log[|log| - 1] == e && Has(init, Stopped) then 1 else 0
  }

  // ---------- the invariant ----------

  predicate Started(x: Thread) {
    !x.NotCreated?
  }

  /** Inside a bulk: one publication is still to come. */
  predicate InBulk(x: Thread) {
    x.Calling? || x.Sleeping? || x.Publishing?
  }

  /** Hook calls the current bulk can still make. */
  function CallsLeft(x: Thread, bulk: nat): nat {
    match x
    case Calling(i) => if i < bulk then bulk - i else 0
    case Sleeping(i) => if i + 1 < bulk then bulk - i - 1 else 0
    case _ => 0
  }

  predicate ThreadInv(s: State, t: nat, bulk: nat)
    requires t < |s.threads|
  {
    var x := s.threads[t];
    && (x.Calling? ==> x.i < bulk)
    && (x.Exited? ==> !s.running)
    && SinceStop(s.log, Published(t)) + (if !s.running && InBulk(x) then 1 else 0) <= 1
    && SinceStop(s.log, HookCalled(t)) + (if !s.running then CallsLeft(x, bulk) else 0) <= bulk
  }

  /** What the main thread's position says about the others. */
  predicate MainInv(s: State) {
    match s.main
    case Creating(t) => s.running && t <= |s.threads|
                        && (forall j :: 0 <= j < |s.threads| ==> (Started(s.threads[j]) <==> j < t))
    case Waiting => AllStarted(s.threads)
    case Joining(t) => !s.running && t <= |s.threads| && AllStarted(s.threads)
                       && (forall j :: 0 <= j < t ==> s.threads[j].Exited?)
    case Closing(k) => !s.running && k <= |s.threads| && AllExited(s.threads)
    case Finished => !s.running && AllExited(s.threads)
    case Aborted => true
  }

  predicate AllStarted(threads: seq<Thread>) {
    forall j :: 0 <= j < |threads| ==> Started(threads[j])
  }

  predicate AllExited(threads: seq<Thread>) {
    forall j :: 0 <= j < |threads| ==> threads[j].Exited?
  }

  predicate LogInv(s: State) {
    && (Has(s.log, Stopped) <==> !s.running)
    && (Has(s.log, CleanupBegun) <==> s.main.Closing? || s.main.Finished?)
    && QuietCleanup(s.log) && ClosedInCleanup(s.log)
  }

  ghost predicate Inv(s: State, bulk: nat) {
    MainInv(s) && LogInv(s) && forall t :: 0 <= t < |s.threads| ==> ThreadInv(s, t, bulk)
  }

  lemma {:induction false} SinceStopGrows(log: seq<Event>, x: Event, e: Event)
    ensures SinceStop(log + [x], e) == SinceStop(log, e) + if x == e && Has(log, Stopped) then 1 else 0
  {
    assert (log + [x])[..|log|] == log;
  }

  lemma {:induction false} NothingSinceStop(log: seq<Event>, e: Event)
    requires !Has(log, Stopped)
    ensures SinceStop(log, e) == 0
  {
    if log != [] {
      NothingSinceStop(log[..|log| - 1], e);
    }
  }

  lemma {:induction false} LogGrows(s: State, x: Event)
    requires QuietCleanup(s.log) && ClosedInCleanup(s.log)
    requires x.HookCalled? || x.Published? ==> !Has(s.log, CleanupBegun)
    requires x.LibraryClosed? ==> Has(s.log, CleanupBegun)
    ensures QuietCleanup(s.log + [x]) && ClosedInCleanup(s.log + [x])
    ensures Has(s.log + [x], Stopped) <==> Has(s.log, Stopped) || x == Stopped
    ensures Has(s.log + [x], CleanupBegun) <==> Has(s.log, CleanupBegun) || x == CleanupBegun
  {
    var log := s.log + [x];
    assert log[|s.log|] == x;
    forall j | 0 <= j < |log| && log[j].LibraryClosed?
      ensures exists i :: 0 <= i < j && log[i].CleanupBegun?
    {
      if j == |s.log| {
        var i :| 0 <= i < |s.log| && s.log[i] == CleanupBegun;
        assert log[i].CleanupBegun?;
      } else {
        var i :| 0 <= i < j && s.log[i].CleanupBegun?;
        assert log[i].CleanupBegun?;
      }
    }
  }

  // ---------- the invariant is kept ----------

  lemma {:induction false} TurnKeepsOwn(s: State, t: nat, interrupted: bool, bulk: nat)
    requires Inv(s, bulk) && Enabled(s, Turn(t, interrupted))
    ensures ThreadInv(TurnOf(s, t, interrupted, bulk), t, bulk)
  {
    hide QuietCleanup, ClosedInCleanup, MainInv, SinceStop;
    assert ThreadInv(s, t, bulk);
    SinceStopGrows(s.log, HookCalled(t), HookCalled(t));
    SinceStopGrows(s.log, HookCalled(t), Published(t));
    SinceStopGrows(s.log, Published(t), HookCalled(t));
    SinceStopGrows(s.log, Published(t), Published(t));
  }

  lemma {:induction false} TurnKeepsOther(s: State, t: nat, interrupted: bool, u: nat, bulk: nat)
    requires Inv(s, bulk) && Enabled(s, Turn(t, interrupted)) && u < |s.threads| && u != t
    ensures ThreadInv(TurnOf(s, t, interrupted, bulk), u, bulk)
  {
    hide QuietCleanup, ClosedInCleanup, MainInv, SinceStop;
    assert ThreadInv(s, u, bulk);
    SinceStopGrows(s.log, HookCalled(t), HookCalled(u));
    SinceStopGrows(s.log, HookCalled(t), Published(u));
    SinceStopGrows(s.log, Published(t), HookCalled(u));
    SinceStopGrows(s.log, Published(t), Published(u));
  }

  lemma {:induction false} TurnKeepsMain(s: State, t: nat, interrupted: bool, bulk: nat)
    requires Inv(s, bulk) && Enabled(s, Turn(t, interrupted))
    ensures var r := TurnOf(s, t, interrupted, bulk); MainInv(r) && LogInv(r)
  {
    hide QuietCleanup, ClosedInCleanup, ThreadInv;
    assert !Has(s.log, CleanupBegun);
    LogGrows(s, HookCalled(t));
    LogGrows(s, Published(t));
  }

  lemma {:induction false} SignalKeeps(s: State, t: nat, bulk: nat)
    requires Inv(s, bulk) && t < |s.threads|
    ensures ThreadInv(s.(running := false, log := s.log + [Stopped]), t, bulk)
  {
    hide QuietCleanup, ClosedInCleanup, MainInv, SinceStop;
    assert ThreadInv(s, t, bulk);
    if s.running {
      NothingSinceStop(s.log, Published(t));
      NothingSinceStop(s.log, HookCalled(t));
    }
    SinceStopGrows(s.log, Stopped, Published(t));
    SinceStopGrows(s.log, Stopped, HookCalled(t));
  }

  lemma {:induction false} MainKeepsThreads(s: State, a: Action, t: nat, bulk: nat)
    requires Inv(s, bulk) && Enabled(s, a) && !a.Turn? && !a.Signal? && t < |s.threads|
    ensures ThreadInv(Next(s, a, bulk), t, bulk)
  {
    hide QuietCleanup, ClosedInCleanup, SinceStop, AllStarted, AllExited;
    assert ThreadInv(s, t, bulk);
    SinceStopGrows(s.log, CleanupBegun, Published(t));
    SinceStopGrows(s.log, CleanupBegun, HookCalled(t));
    if a.Close? {
      SinceStopGrows(s.log, LibraryClosed(s.main.k), Published(t));
      SinceStopGrows(s.log, LibraryClosed(s.main.k), HookCalled(t));
    }
  }

  lemma {:induction false} MainKeepsMain(s: State, a: Action, bulk: nat)
    requires Inv(s, bulk) && Enabled(s, a) && !a.Turn? && !a.Signal?
    ensures var r := Next(s, a, bulk); MainInv(r) && LogInv(r)
  {
    hide QuietCleanup, ClosedInCleanup, ThreadInv;
    LogGrows(s, CleanupBegun);
    if a.Close? {
      LogGrows(s, LibraryClosed(s.main.k));
    }
  }

  /** Every action of every thread keeps the invariant. */
  lemma {:induction false} Kept(s: State, a: Action, bulk: nat)
    requires Inv(s, bulk) && Enabled(s, a)
    ensures Inv(Next(s, a, bulk), bulk)
  {
    var r := Next(s, a, bulk);
    hide ThreadInv, MainInv, LogInv, TurnOf;
    match a {
      case Turn(t, interrupted) =>
        TurnKeepsMain(s, t, interrupted, bulk);
        assert |r.threads| == |s.threads| by { SameThreads(s, t, interrupted, bulk); }
        forall u | 0 <= u < |s.threads| ensures ThreadInv(r, u, bulk) {
          if u == t { TurnKeepsOwn(s, t, interrupted, bulk); } else { TurnKeepsOther(s, t, interrupted, u, bulk); }
        }
      case Signal =>
        SignalKeepsMain(s, bulk);
        forall u | 0 <= u < |s.threads| ensures ThreadInv(r, u, bulk) { SignalKeeps(s, u, bulk); }
      case _ =>
        MainKeepsMain(s, a, bulk);
        forall u | 0 <= u < |s.threads| ensures ThreadInv(r, u, bulk) { MainKeepsThreads(s, a, u, bulk); }
    }
  }

  lemma SameThreads(s: State, t: nat, interrupted: bool, bulk: nat)
    requires t < |s.threads|
    ensures |TurnOf(s, t, interrupted, bulk).threads| == |s.threads|
    ensures TurnOf(s, t, interrupted, bulk).main == s.main
  {
  }

  lemma {:induction false} SignalKeepsMain(s: State, bulk: nat)
    requires Inv(s, bulk) && Enabled(s, Signal)
    ensures var r := Next(s, Signal, bulk); MainInv(r) && LogInv(r)
  {
    hide QuietCleanup, ClosedInCleanup, ThreadInv;
    LogGrows(s, Stopped);
  }

  lemma {:induction false} InitHolds(n: nat, bulk: nat)
    ensures Inv(Init(n), bulk)
  {
  }

  lemma {:induction false} RunKeeps(s: State, run: seq<Action>, bulk: nat)
    requires Inv(s, bulk) && CanRun(s, run, bulk)
    ensures Inv(After(s, run, bulk), bulk)
    decreases |run|
  {
    hide Inv, Enabled;
    if run != [] {
      Kept(s, run[0], bulk);
      RunKeeps(Next(s, run[0], bulk), run[1..], bulk);
    }
  }

  /** In every run of an agent with n plugins: once the clean-up has begun no hook
      is called and nothing is published, every plugin thread has exited before
      it, and libraries are closed only after it. */
  lemma {:induction false} ShutdownIsSafe(n: nat, run: seq<Action>, bulk: nat)
    requires CanRun(Init(n), run, bulk)
    ensures var s := After(Init(n), run, bulk);
            QuietCleanup(s.log) && ClosedInCleanup(s.log) && (Has(s.log, CleanupBegun) ==> AllExited(s.threads))
  {
    InitHolds(n, bulk);
    RunKeeps(Init(n), run, bulk);
  }

  /** After the first stop signal each plugin thread publishes at most one more
      message and calls its hook at most `bulk` more times. */
  lemma {:induction false} FewAfterStop(n: nat, run: seq<Action>, bulk: nat, t: nat)
    requires CanRun(Init(n), run, bulk) && t < n
    ensures var s := After(Init(n), run, bulk);
            SinceStop(s.log, Published(t)) <= 1 && SinceStop(s.log, HookCalled(t)) <= bulk
  {
    InitHolds(n, bulk);
    RunKeeps(Init(n), run, bulk);
    ThreadsStay(Init(n), run, bulk);
    assert ThreadInv(After(Init(n), run, bulk), t, bulk);
  }

  lemma {:induction false} ThreadsStay(s: State, run: seq<Action>, bulk: nat)
    requires CanRun(s, run, bulk)
    ensures |After(s, run, bulk).threads| == |s.threads|
    decreases |run|
  {
    if run != [] {
      ThreadsStay(Next(s, run[0], bulk), run[1..], bulk);
    }
  }

  // ---------- the shutdown comes to an end ----------

  /** Steps a thread can still take once it is told to stop. */
  function ThreadWork(x: Thread, bulk: nat): nat {
    match x
    case Looking => 1
    case Publishing => 2
    case Sleeping(_) => 3 + 2 * CallsLeft(x, bulk)
    case Calling(_) => 2 + 2 * CallsLeft(x, bulk)
    case _ => 0
  }

  function SumWork(threads: seq<Thread>, bulk: nat): nat {
    if threads == [] then 0 else ThreadWork(threads[0], bulk) + SumWork(threads[1..], bulk)
  }

  function MainWork(main: MainThread, n: nat): nat {
    match main
    case Waiting => 2 * n + 3
    case Joining(t) => (if t < n then n - t else 0) + n + 2
    case Closing(k) => (if k < n then n - k else 0) + 1
    case _ => 0
  }

  function Work(s: State, bulk: nat): nat {
    MainWork(s.main, |s.threads|) + SumWork(s.threads, bulk)
  }

  /** Told to stop, with the handler in place. */
  predicate Stopping(s: State) {
    !s.running && !s.main.Creating? && !s.main.Aborted?
  }

  lemma {:induction false} SumWorkUpdate(threads: seq<Thread>, t: nat, x: Thread, bulk: nat)
    requires t < |threads|
    ensures SumWork(threads[t := x], bulk) + ThreadWork(threads[t], bulk) == SumWork(threads, bulk) + ThreadWork(x, bulk)
  {
    if t == 0 {
      assert threads[0 := x][1..] == threads[1..];
    } else {
      SumWorkUpdate(threads[1..], t - 1, x, bulk);
      assert threads[t := x][1..] == threads[1..][t - 1 := x];
    }
  }

  /** Every step but another signal brings the end nearer. */
  lemma {:induction false} StepsRunOut(s: State, a: Action, bulk: nat)
    requires Inv(s, bulk) && Stopping(s) && Enabled(s, a)
    ensures var r := Next(s, a, bulk);
            Stopping(r) && if a.Signal? then Work(r, bulk) == Work(s, bulk) else Work(r, bulk) < Work(s, bulk)
  {
    hide SumWork, QuietCleanup, ClosedInCleanup, SinceStop, LogInv;
    if a.Turn? {
      assert ThreadInv(s, a.t, bulk);
      SumWorkUpdate(s.threads, a.t, TurnOf(s, a.t, a.interrupted, bulk).threads[a.t], bulk);
    }
  }

  function Counted(run: seq<Action>): nat {
    if run == [] then 0 else (if run[0].Signal? then 0 else 1) + Counted(run[1..])
  }

  /** From a stop on, any schedule finishes: no run takes more steps than this. */
  lemma {:induction false} ShutdownEnds(s: State, run: seq<Action>, bulk: nat)
    requires Inv(s, bulk) && Stopping(s) && CanRun(s, run, bulk)
    ensures Counted(run) + Work(After(s, run, bulk), bulk) <= Work(s, bulk)
    ensures Stopping(After(s, run, bulk))
    decreases |run|
  {
    hide Inv, Stopping, Enabled, Next, Work;
    if run != [] {
      StepsRunOut(s, run[0], bulk);
      Kept(s, run[0], bulk);
      ShutdownEnds(Next(s, run[0], bulk), run[1..], bulk);
    }
  }

  /** And none gets stuck before the main thread has finished. */
  lemma {:induction false} NeverStuck(s: State, bulk: nat)
    requires Inv(s, bulk) && Stopping(s) && !s.main.Finished?
    ensures exists a :: Enabled(s, a) && !a.Signal?
  {
    hide LogInv, ThreadInv;
    match s.main {
      case Waiting => assert Enabled(s, Wait);
      case Joining(t) =>
        if t < |s.threads| && !s.threads[t].Exited? {
          assert Started(s.threads[t]);
          assert Enabled(s, Turn(t, false));
        } else {
          assert Enabled(s, Join);
        }
      case Closing(_) => assert Enabled(s, Close);
    }
  }

  /** The bound in numbers: a few steps for the main thread, two per hook call
      left in a bulk and two more for each plugin thread. */
  lemma {:induction false} WorkIsBounded(s: State, bulk: nat)
    requires Inv(s, bulk) && Stopping(s)
    ensures Work(s, bulk) <= 2 * |s.threads| + 3 + |s.threads| * (2 * bulk + 3)
  {
    hide QuietCleanup, ClosedInCleanup, SinceStop, LogInv;
    forall t | 0 <= t < |s.threads| ensures ThreadWork(s.threads[t], bulk) <= 2 * bulk + 3 {
      assert ThreadInv(s, t, bulk);
    }
    SumIsBounded(s.threads, bulk);
  }

  lemma {:induction false} SumIsBounded(threads: seq<Thread>, bulk: nat)
    requires forall t :: 0 <= t < |threads| ==> ThreadWork(threads[t], bulk) <= 2 * bulk + 3
    ensures SumWork(threads, bulk) <= |threads| * (2 * bulk + 3)
  {
    if threads != [] {
      SumIsBounded(threads[1..], bulk);
      assert |threads| * (2 * bulk + 3) == (|threads| - 1) * (2 * bulk + 3) + (2 * bulk + 3);
    }
  }
}
