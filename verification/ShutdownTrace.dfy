/**
 The agent's log, exactly: what each plugin thread and the main thread have done in
 a run is determined by the sleeps that were interrupted and by where they stand.
 */
module ShutdownTrace {
  import opened Shutdown
  import Bulk

  // ---------- a plugin thread's part of the log ----------

  function IsOwn(e: Event, t: nat): bool {
    e == HookCalled(t) || e == Published(t)
  }

  function Own(log: seq<Event>, t: nat): seq<Event> {
    if log == [] then []
    else Own(log[..|log| - 1], t) + if IsOwn(log[|log| - 1], t) then [log[|log| - 1]] else []
  }

  /** Messages published by thread t. */
  function Rounds(log: seq<Event>, t: nat): nat {
    if log == [] then 0 else Rounds(log[..|log| - 1], t) + if log[|log| - 1] == Published(t) then 1 else 0
  }

  function Calls(t: nat, m: nat): seq<Event> {
    seq(m, _ => HookCalled(t))
  }

  /** The turns of the bulk that follows `rounds` bulks. */
  function Turns(tick: Bulk.Ticks, bulk: nat, rounds: nat): nat {
    Bulk.RoundLength(tick, Taken(tick, bulk, rounds), bulk)
  }

  function Taken(tick: Bulk.Ticks, bulk: nat, rounds: nat): nat {
    Bulk.TurnsTaken(tick, bulk, 0, rounds)
  }

  /** What `rounds` bulks leave in the log: a hook call for each turn, then a message. */
  function Traced(tick: Bulk.Ticks, bulk: nat, t: nat, rounds: nat): seq<Event> {
    if rounds == 0 then []
    else Traced(tick, bulk, t, rounds - 1) + Calls(t, Turns(tick, bulk, rounds - 1)) + [Published(t)]
  }

  lemma {:induction false} TakenNext(tick: Bulk.Ticks, bulk: nat, t: nat, rounds: nat)
    ensures Bulk.TurnsTaken(tick, bulk, t, rounds + 1)
         == Bulk.TurnsTaken(tick, bulk, t, rounds)
            + Bulk.RoundLength(tick, t + Bulk.TurnsTaken(tick, bulk, t, rounds), bulk)
    decreases rounds
  {
    hide Bulk.RoundLength;
    if rounds > 0 {
      TakenNext(tick, bulk, t + Bulk.RoundLength(tick, t, bulk), rounds - 1);
    } else {
      assert Bulk.TurnsTaken(tick, bulk, t + Bulk.RoundLength(tick, t, bulk), 0) == 0;
    }
  }

  lemma OwnGrows(log: seq<Event>, x: Event, t: nat)
    ensures Own(log + [x], t) == Own(log, t) + (if IsOwn(x, t) then [x] else [])
    ensures Rounds(log + [x], t) == Rounds(log, t) + (if x == Published(t) then 1 else 0)
  {
    assert (log + [x])[..|log|] == log;
  }

  // ---------- where a thread stands ----------

  /** Turn i of a bulk, uninterrupted so far. */
  predicate InTurn(tick: Bulk.Ticks, bulk: nat, r: nat, i: nat) {
    i < bulk && i + Bulk.RoundLength(tick, Taken(tick, bulk, r) + i, bulk - i) == Turns(tick, bulk, r)
  }

  /** Thread t has slept `slept` times, and its part of the log is its bulks so far
      and the hook calls of the one it is in. */
  predicate Stands(s: State, t: nat, tick: Bulk.Ticks, bulk: nat, slept: nat)
    requires t < |s.threads|
  {
    var r := Rounds(s.log, t);
    var done, taken := Traced(tick, bulk, t, r), Taken(tick, bulk, r);
    match s.threads[t]
    case Calling(i) => InTurn(tick, bulk, r, i) && slept == taken + i && Own(s.log, t) == done + Calls(t, i)
    case Sleeping(i) => InTurn(tick, bulk, r, i) && slept == taken + i && Own(s.log, t) == done + Calls(t, i + 1)
    case Publishing => slept == taken + Turns(tick, bulk, r) && Own(s.log, t) == done + Calls(t, Turns(tick, bulk, r))
    case _ => slept == taken && Own(s.log, t) == done
  }

  /** Interrupted or not, for each sleep of thread t in a run. */
  function Sleeps(s: State, run: seq<Action>, t: nat, bulk: nat): seq<bool>
    requires CanRun(s, run, bulk)
    decreases |run|
  {
    if run == [] then []
    else (if IsSleep(s, run[0], t) then [run[0].interrupted] else []) + Sleeps(Next(s, run[0], bulk), run[1..], t, bulk)
  }

  predicate IsSleep(s: State, a: Action, t: nat) {
    a.Turn? && a.t == t && t < |s.threads| && s.threads[t].Sleeping?
  }

  /** `tick` says the same of the sleeps from number `slept` on. */
  predicate Agrees(tick: Bulk.Ticks, slept: nat, sleeps: seq<bool>) {
    forall k :: 0 <= k < |sleeps| ==> tick(slept + k).interrupted == sleeps[k]
  }

  lemma {:induction false} AgreesRest(tick: Bulk.Ticks, slept: nat, first: bool, rest: seq<bool>)
    requires Agrees(tick, slept, [first] + rest)
    ensures tick(slept).interrupted == first && Agrees(tick, slept + 1, rest)
  {
    var sleeps := [first] + rest;
    assert sleeps[0] == first && tick(slept + 0).interrupted == sleeps[0];
    forall k | 0 <= k < |rest| ensures tick(slept + 1 + k).interrupted == rest[k] {
      assert sleeps[k + 1] == rest[k] && tick(slept + (k + 1)).interrupted == sleeps[k + 1];
    }
  }

  // ---------- every step ----------

  lemma {:induction false} LookingStands(s: State, t: nat, tick: Bulk.Ticks, bulk: nat, slept: nat, interrupted: bool)
    requires t < |s.threads| && Stands(s, t, tick, bulk, slept) && s.threads[t].Looking?
    ensures Stands(TurnOf(s, t, interrupted, bulk), t, tick, bulk, slept)
  {
    hide Bulk.RoundLength, Own, Traced, Rounds, Taken;
    var r := Rounds(s.log, t);
    assert Traced(tick, bulk, t, r) + Calls(t, 0) == Traced(tick, bulk, t, r);
    NoTurns(tick, Taken(tick, bulk, r));
  }

  lemma NoTurns(tick: Bulk.Ticks, t: nat)
    ensures Bulk.RoundLength(tick, t, 0) == 0
  {
  }

  lemma {:induction false} CallingStands(s: State, t: nat, tick: Bulk.Ticks, bulk: nat, slept: nat, interrupted: bool)
    requires t < |s.threads| && Stands(s, t, tick, bulk, slept) && s.threads[t].Calling?
    ensures Stands(TurnOf(s, t, interrupted, bulk), t, tick, bulk, slept)
  {
    hide Bulk.RoundLength, Own, Traced, Rounds, InTurn;
    var i, done := s.threads[t].i, Traced(tick, bulk, t, Rounds(s.log, t));
    OwnGrows(s.log, HookCalled(t), t);
    assert done + Calls(t, i) + [HookCalled(t)] == done + Calls(t, i + 1);
  }

  lemma {:induction false} SleepingStands(s: State, t: nat, tick: Bulk.Ticks, bulk: nat, slept: nat, interrupted: bool)
    requires t < |s.threads| && Stands(s, t, tick, bulk, slept) && s.threads[t].Sleeping?
    requires tick(slept).interrupted == interrupted
    ensures Stands(TurnOf(s, t, interrupted, bulk), t, tick, bulk, slept + 1)
  {
    hide Bulk.RoundLength, Own, Traced, Rounds;
    var i := s.threads[t].i;
    Bulk.RoundTurn(tick, slept, bulk - i);
    NoTurns(tick, slept + 1);
  }

  lemma {:induction false} PublishingStands(s: State, t: nat, tick: Bulk.Ticks, bulk: nat, slept: nat, interrupted: bool)
    requires t < |s.threads| && Stands(s, t, tick, bulk, slept) && s.threads[t].Publishing?
    ensures Stands(TurnOf(s, t, interrupted, bulk), t, tick, bulk, slept)
  {
    hide Bulk.RoundLength, Own, Rounds, InTurn;
    var r := Rounds(s.log, t);
    OwnGrows(s.log, Published(t), t);
    TakenNext(tick, bulk, 0, r);
  }

  /** Steps of the others leave a thread's part of the log alone. */
  lemma {:induction false} OthersStand(s: State, a: Action, t: nat, tick: Bulk.Ticks, bulk: nat, slept: nat)
    requires Inv(s, bulk) && Enabled(s, a) && t < |s.threads| && Stands(s, t, tick, bulk, slept)
    requires !(a.Turn? && a.t == t)
    ensures var r := Next(s, a, bulk); t < |r.threads| && Stands(r, t, tick, bulk, slept)
  {
    hide Own, Rounds, Traced, Taken, Turns, InTurn, Calls, Next, Inv;
    OthersLog(s, a, t, bulk);
  }

  lemma {:induction false} OthersLog(s: State, a: Action, t: nat, bulk: nat)
    requires Inv(s, bulk) && Enabled(s, a) && t < |s.threads| && !(a.Turn? && a.t == t)
    ensures var r := Next(s, a, bulk);
            t < |r.threads| && (r.threads[t] == s.threads[t] || (s.threads[t].NotCreated? && r.threads[t].Looking?))
            && Own(r.log, t) == Own(s.log, t) && Rounds(r.log, t) == Rounds(s.log, t)
  {
    hide Own, Rounds, LogInv, ThreadInv;
    OwnGrows(s.log, CleanupBegun, t);
    OwnGrows(s.log, Stopped, t);
    match a {
      case Turn(u, _) =>
        OwnGrows(s.log, HookCalled(u), t);
        OwnGrows(s.log, Published(u), t);
      case Close => OwnGrows(s.log, LibraryClosed(s.main.k), t);
      case _ =>
    }
  }

  lemma {:induction false} StepStands(s: State, a: Action, t: nat, tick: Bulk.Ticks, bulk: nat, slept: nat)
    requires Inv(s, bulk) && Enabled(s, a) && t < |s.threads| && Stands(s, t, tick, bulk, slept)
    requires IsSleep(s, a, t) ==> tick(slept).interrupted == a.interrupted
    ensures var r := Next(s, a, bulk);
            t < |r.threads| && Stands(r, t, tick, bulk, if IsSleep(s, a, t) then slept + 1 else slept)
  {
    hide Stands, Inv;
    if a.Turn? && a.t == t {
      SameThreads(s, t, a.interrupted, bulk);
      match s.threads[t] {
        case Looking => LookingStands(s, t, tick, bulk, slept, a.interrupted);
        case Calling(_) => CallingStands(s, t, tick, bulk, slept, a.interrupted);
        case Sleeping(_) => SleepingStands(s, t, tick, bulk, slept, a.interrupted);
        case Publishing => PublishingStands(s, t, tick, bulk, slept, a.interrupted);
      }
    } else {
      OthersStand(s, a, t, tick, bulk, slept);
    }
  }

  lemma {:induction false} RunStands(s: State, run: seq<Action>, t: nat, tick: Bulk.Ticks, bulk: nat, slept: nat)
    requires Inv(s, bulk) && CanRun(s, run, bulk) && t < |s.threads| && Stands(s, t, tick, bulk, slept)
    requires Agrees(tick, slept, Sleeps(s, run, t, bulk))
    ensures var r := After(s, run, bulk);
            t < |r.threads| && Stands(r, t, tick, bulk, slept + |Sleeps(s, run, t, bulk)|)
    decreases |run|
  {
    hide Stands, Inv, Enabled, Next, Agrees;
    if run != [] {
      var sleeps, rest := Sleeps(s, run, t, bulk), Sleeps(Next(s, run[0], bulk), run[1..], t, bulk);
      if IsSleep(s, run[0], t) {
        assert sleeps == [run[0].interrupted] + rest;
        AgreesRest(tick, slept, run[0].interrupted, rest);
      } else {
        assert sleeps == rest;
      }
      StepStands(s, run[0], t, tick, bulk, slept);
      Kept(s, run[0], bulk);
      RunStands(Next(s, run[0], bulk), run[1..], t, tick, bulk, if IsSleep(s, run[0], t) then slept + 1 else slept);
    }
  }

  /** In every run of an agent with n plugins, a thread's part of the log is exactly
      its bulks: a message for each, after one hook call for each of its turns; bulks
      have the lengths that the interrupted sleeps give them. */
  lemma {:induction false} RunIsTraced(n: nat, run: seq<Action>, bulk: nat, t: nat, tick: Bulk.Ticks)
    requires CanRun(Init(n), run, bulk) && t < n && Agrees(tick, 0, Sleeps(Init(n), run, t, bulk))
    ensures var s := After(Init(n), run, bulk);
            t < |s.threads| && Stands(s, t, tick, bulk, |Sleeps(Init(n), run, t, bulk)|)
  {
    hide CanRun, After, Sleeps, Enabled, Inv, Agrees;
    InitHolds(n, bulk);
    RunStands(Init(n), run, t, tick, bulk, 0);
  }

  /** So once it has exited, it has made whole bulks and nothing else. */
  lemma {:induction false} ExitedThreadPublished(n: nat, run: seq<Action>, bulk: nat, t: nat, tick: Bulk.Ticks)
    requires CanRun(Init(n), run, bulk) && t < n && Agrees(tick, 0, Sleeps(Init(n), run, t, bulk))
    requires var s := After(Init(n), run, bulk); t < |s.threads| && s.threads[t].Exited?
    ensures var log := After(Init(n), run, bulk).log;
            Own(log, t) == Traced(tick, bulk, t, Rounds(log, t))
            && |Sleeps(Init(n), run, t, bulk)| == Taken(tick, bulk, Rounds(log, t))
  {
    hide CanRun, After, Sleeps, Agrees;
    RunIsTraced(n, run, bulk, t, tick);
  }

  /** Without interruptions every bulk makes `bulk` calls. */
  lemma {:induction false} QuietBulksAreFull(tick: Bulk.Ticks, bulk: nat, rounds: nat)
    requires forall k: nat :: !tick(k).interrupted
    ensures Turns(tick, bulk, rounds) == bulk
  {
    FullRound(tick, Taken(tick, bulk, rounds), bulk);
  }

  lemma {:induction false} FullRound(tick: Bulk.Ticks, t: nat, bulk: nat)
    requires forall k: nat :: !tick(k).interrupted
    ensures Bulk.RoundLength(tick, t, bulk) == bulk
    decreases bulk
  {
    if bulk > 0 {
      FullRound(tick, t + 1, bulk - 1);
    }
  }

  // ---------- the main thread's part of the log ----------

  predicate IsMain(e: Event) {
    e.CleanupBegun? || e.LibraryClosed?
  }

  function Mains(log: seq<Event>): seq<Event> {
    if log == [] then [] else Mains(log[..|log| - 1]) + if IsMain(log[|log| - 1]) then [log[|log| - 1]] else []
  }

  function Stops(log: seq<Event>): nat {
    if log == [] then 0 else Stops(log[..|log| - 1]) + if log[|log| - 1].Stopped? then 1 else 0
  }

  function Signals(run: seq<Action>): nat {
    if run == [] then 0 else (if run[0].Signal? then 1 else 0) + Signals(run[1..])
  }

  /** The clean-up begins once and closes the libraries in order. */
  function Cleaned(k: nat): seq<Event> {
    [CleanupBegun] + seq(k, i requires 0 <= i < k => LibraryClosed(i))
  }

  /** What the main thread has logged, by where it stands. */
  predicate MainStands(s: State) {
    match s.main
    case Closing(k) => k <= |s.threads| && Mains(s.log) == Cleaned(k)
    case Finished => Mains(s.log) == Cleaned(|s.threads|)
    case _ => Mains(s.log) == []
  }

  lemma MainsGrow(log: seq<Event>, x: Event)
    ensures Mains(log + [x]) == Mains(log) + (if IsMain(x) then [x] else [])
    ensures Stops(log + [x]) == Stops(log) + (if x.Stopped? then 1 else 0)
  {
    assert (log + [x])[..|log|] == log;
  }

  lemma {:induction false} MainStep(s: State, a: Action, bulk: nat)
    requires Enabled(s, a) && MainStands(s)
    ensures var r := Next(s, a, bulk); MainStands(r) && Stops(r.log) == Stops(s.log) + (if a.Signal? then 1 else 0)
  {
    hide Mains, Stops;
    MainsGrow(s.log, CleanupBegun);
    MainsGrow(s.log, Stopped);
    match a {
      case Turn(t, _) =>
        MainsGrow(s.log, HookCalled(t));
        MainsGrow(s.log, Published(t));
      case Close =>
        MainsGrow(s.log, LibraryClosed(s.main.k));
        assert Cleaned(s.main.k) + [LibraryClosed(s.main.k)] == Cleaned(s.main.k + 1);
      case Join =>
        assert [] + [CleanupBegun] == Cleaned(0);
      case _ =>
    }
  }

  lemma {:induction false} MainRun(s: State, run: seq<Action>, bulk: nat)
    requires CanRun(s, run, bulk) && MainStands(s)
    ensures var r := After(s, run, bulk); MainStands(r) && Stops(r.log) == Stops(s.log) + Signals(run)
    decreases |run|
  {
    hide Enabled, Next, MainStands, Stops;
    if run != [] {
      MainStep(s, run[0], bulk);
      MainRun(Next(s, run[0], bulk), run[1..], bulk);
    }
  }

  /** In every run the main thread's part of the log is exactly one clean-up as far as
      it has come, each library closed once and in order, and every signal is logged. */
  lemma {:induction false} MainIsTraced(n: nat, run: seq<Action>, bulk: nat)
    requires CanRun(Init(n), run, bulk)
    ensures var s := After(Init(n), run, bulk);
            MainStands(s) && |s.threads| == n && Stops(s.log) == Signals(run)
  {
    MainRun(Init(n), run, bulk);
    ThreadsStay(Init(n), run, bulk);
  }
}
