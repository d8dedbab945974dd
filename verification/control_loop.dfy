/** The engine's control loop (the `select` in `Run`, engine/engine.go) as a
    deterministic step function over the run state, one event at a time.

    The goroutines, channels and tickers are replaced by a sequential trace
    of events; any interleaving the real loop could see is one such trace.
    The loop halts at the terminal snapshot.

    The code checks for the end of the run only when a worker signals done,
    so a run whose last worker drains before the deadline never completes.
    `Shutdown` selects between that behaviour (`QuitOnly`, the code as
    written) and the intended one (`QuitOrDeadline`, which also checks when
    the deadline fires). Every safety property below holds for both. */
module ControlLoop {
  import opened Common
  import opened Actions
  import opened Stats

  /** Whether each of the three tickers is still running (`Stop` turns one
      off). A tick already buffered in a stopped ticker's channel can still
      be delivered, so the step function does not consult these flags. */
  datatype Tickers = Tickers(spawn: bool, progress: bool, deadline: bool)

  /** The mutable fields of `Engine` owned by the loop, the loop's local
      `test_completed`, and whether the terminal snapshot has been sent. */
  datatype RunState = RunState(
    usersSpawned: int,
    currentConcurrentUsers: int,
    hits: int,
    clientErrors: int,
    serverErrors: int,
    timeouts: int,
    log: seq<ActionResult>,
    testCompleted: bool,
    tickers: Tickers,
    finished: bool)

  /** The five cases of the `select`: spawn tick, progress tick, test
      deadline, a worker's result, a worker's done signal. */
  datatype Event = SpawnTick | ProgressTick | Deadline | ResultArrived(result: ActionResult) | Quit

  /** `ProgressEvent` without the wall-clock elapsed time. */
  datatype Snapshot = Snapshot(
    totalUsers: int,
    averageConcurrentUsers: real,
    maxConcurrentUsers: int,
    totalHits: int,
    totalClientErrors: int,
    totalServerErrors: int,
    totalTimeouts: int,
    averageResponseTime: Mean)

  /** What the loop does besides updating its state: launch a worker tagged
      with a concurrency value, send a progress snapshot, send the terminal
      snapshot, or nothing. */
  datatype Output = Silent | Spawned(concurrency: int) | Progress(snapshot: Snapshot) | Completed(snapshot: Snapshot)

  datatype Transition = Transition(state: RunState, output: Output)

  datatype Shutdown = QuitOnly | QuitOrDeadline

  /** The state `Run` starts the loop in: zero counters, empty log, tickers
      running. */
  function Start(): (s: RunState)
    ensures s.usersSpawned == 0 && s.currentConcurrentUsers == 0 && s.hits == 0
    ensures s.clientErrors == 0 && s.serverErrors == 0 && s.timeouts == 0 && s.log == []
    ensures !s.testCompleted && !s.finished
  {
    RunState(0, 0, 0, 0, 0, 0, [], false, Tickers(true, true, true), false)
  }

  /** Nothing the statistics depend on differs between two states. */
  predicate SameCounts(a: RunState, b: RunState)
  {
    && a.usersSpawned == b.usersSpawned
    && a.currentConcurrentUsers == b.currentConcurrentUsers
    && a.hits == b.hits
    && a.clientErrors == b.clientErrors
    && a.serverErrors == b.serverErrors
    && a.timeouts == b.timeouts
    && a.log == b.log
  }

  /** The value of an error counter (0 for the no-error case). */
  function CounterValue(st: RunState, c: Counter): int
  {
    match c
    case ClientErrors => st.clientErrors
    case ServerErrors => st.serverErrors
    case Timeouts => st.timeouts
    case NoErrorCounter => 0
  }

  /** Number of log entries `updateStats` credits to counter `c`. */
  function CountCredited(log: seq<ActionResult>, c: Counter): nat
  {
    if |log| == 0 then 0
    else CountCredited(log[..|log| - 1], c) + (if Credited(log[|log| - 1]) == c then 1 else 0)
  }

  /** The invariant every reachable state keeps: at most `total` users are
      spawned, every result is one hit, every error counter counts exactly
      the log entries credited to it, and a finished run ended with the
      deadline passed and no worker left. */
  predicate Inv(total: int, st: RunState)
  {
    && 0 <= st.usersSpawned
    && (st.usersSpawned <= total || st.usersSpawned == 0)
    && st.hits == |st.log|
    && st.clientErrors == CountCredited(st.log, ClientErrors)
    && st.serverErrors == CountCredited(st.log, ServerErrors)
    && st.timeouts == CountCredited(st.log, Timeouts)
    && (st.finished ==> st.testCompleted && st.currentConcurrentUsers == 0)
  }

  /** `createProgressEvent`: the snapshot of a state. */
  function CreateProgressEvent(st: RunState): (snap: Snapshot)
    ensures Reflects(snap, st)
  {
    var a := ComputeAverages(st.log);
    Snapshot(st.usersSpawned, a.averageConcurrentUsers, a.maxConcurrentUsers,
             st.hits, st.clientErrors, st.serverErrors, st.timeouts, a.averageResponseTime)
  }

  /** A snapshot carries exactly the counters of the state, and the
      averages of its log. */
  predicate Reflects(snap: Snapshot, st: RunState)
  {
    && snap.totalUsers == st.usersSpawned
    && snap.totalHits == st.hits
    && snap.totalClientErrors == st.clientErrors
    && snap.totalServerErrors == st.serverErrors
    && snap.totalTimeouts == st.timeouts
    && snap.averageConcurrentUsers == ComputeAverages(st.log).averageConcurrentUsers
    && snap.maxConcurrentUsers == ComputeAverages(st.log).maxConcurrentUsers
    && snap.averageResponseTime == ComputeAverages(st.log).averageResponseTime
  }

  /** `updateStats`: one more hit, whatever the result, and one more in the
      single error counter the result is credited to, if any. */
  function UpdateStats(st: RunState, r: ActionResult): (s: RunState)
    ensures s.hits == st.hits + 1
    ensures forall c :: c != NoErrorCounter ==>
              CounterValue(s, c) == CounterValue(st, c) + (if Credited(r) == c then 1 else 0)
    ensures s.clientErrors + s.serverErrors + s.timeouts
            == st.clientErrors + st.serverErrors + st.timeouts + (if Successful(r) then 0 else 1)
    ensures s == st.(hits := s.hits, clientErrors := s.clientErrors, serverErrors := s.serverErrors, timeouts := s.timeouts)
  {
    var s := st.(hits := st.hits + 1);
    if r.isClientError then s.(clientErrors := s.clientErrors + 1)
    else if r.isServerError then s.(serverErrors := s.serverErrors + 1)
    else if r.hasTimedOut then s.(timeouts := s.timeouts + 1)
    else s
  }

  /** Spawn tick: below the target population, one more user is spawned and
      becomes concurrent, and the new worker is tagged with the concurrency
      after the increment; at the target, the spawn ticker is stopped and no
      counter moves. */
  function OnSpawnTick(total: int, st: RunState): (t: Transition)
    ensures t.output.Spawned? <==> st.usersSpawned < total
    ensures t.output.Spawned? ==>
              && t.state.usersSpawned == st.usersSpawned + 1
              && t.state.currentConcurrentUsers == st.currentConcurrentUsers + 1
              && t.output.concurrency == t.state.currentConcurrentUsers
    ensures !t.output.Spawned? ==> t.output == Silent && SameCounts(st, t.state) && !t.state.tickers.spawn
    ensures t.state.usersSpawned <= Max(total, st.usersSpawned)
    ensures t.state.log == st.log && t.state.hits == st.hits
    ensures t.state.clientErrors == st.clientErrors && t.state.serverErrors == st.serverErrors && t.state.timeouts == st.timeouts
    ensures t.state.testCompleted == st.testCompleted && t.state.finished == st.finished
  {
    if st.usersSpawned < total then
      var s := st.(usersSpawned := st.usersSpawned + 1, currentConcurrentUsers := st.currentConcurrentUsers + 1);
      Transition(s, Spawned(s.currentConcurrentUsers))
    else
      Transition(st.(tickers := st.tickers.(spawn := false)), Silent)
  }

  /** Progress tick: the state is only read; the snapshot sent carries its
      current counters. */
  function OnProgressTick(st: RunState): (t: Transition)
    ensures t.state == st
    ensures t.output.Progress? && Reflects(t.output.snapshot, st)
  {
    Transition(st, Progress(CreateProgressEvent(st)))
  }

  /** Deadline: the run is marked completed and every ticker is stopped; no
      counter and no log entry changes. As written nothing is sent; with the
      corrected shutdown the terminal snapshot is sent if no worker is left. */
  function OnDeadline(policy: Shutdown, st: RunState): (t: Transition)
    ensures SameCounts(st, t.state)
    ensures t.state.testCompleted
    ensures t.state.tickers == Tickers(false, false, false)
    ensures t.output.Completed? <==> policy == QuitOrDeadline && st.currentConcurrentUsers == 0
    ensures t.output.Completed? ==> Reflects(t.output.snapshot, t.state)
    ensures !t.output.Completed? ==> t.output == Silent
    ensures t.state.finished <==> st.finished || t.output.Completed?
  {
    var s := st.(testCompleted := true, tickers := Tickers(false, false, false));
    if policy == QuitOrDeadline && s.currentConcurrentUsers == 0 then
      Transition(s.(finished := true), Completed(CreateProgressEvent(s)))
    else
      Transition(s, Silent)
  }

  /** Result: appended to the log, and counted by `updateStats`. */
  function OnResult(st: RunState, r: ActionResult): (t: Transition)
    ensures t.state.log == st.log + [r]
    ensures t.state.hits == st.hits + 1
    ensures forall c :: c != NoErrorCounter ==>
              CounterValue(t.state, c) == CounterValue(st, c) + (if Credited(r) == c then 1 else 0)
    ensures t.state.usersSpawned == st.usersSpawned && t.state.currentConcurrentUsers == st.currentConcurrentUsers
    ensures t.state.testCompleted == st.testCompleted && t.state.finished == st.finished
    ensures t.output == Silent
  {
    Transition(UpdateStats(st.(log := st.log + [r]), r), Silent)
  }

  /** Done signal: one fewer concurrent user; the terminal snapshot is sent
      exactly when that leaves none and the deadline has passed. */
  function OnQuit(st: RunState): (t: Transition)
    ensures t.state.currentConcurrentUsers == st.currentConcurrentUsers - 1
    ensures t.output.Completed? <==> t.state.currentConcurrentUsers == 0 && st.testCompleted
    ensures t.output.Completed? ==> Reflects(t.output.snapshot, t.state)
    ensures !t.output.Completed? ==> t.output == Silent
    ensures t.state.finished <==> st.finished || t.output.Completed?
    ensures t.state.usersSpawned == st.usersSpawned && t.state.log == st.log && t.state.hits == st.hits
    ensures t.state.clientErrors == st.clientErrors && t.state.serverErrors == st.serverErrors && t.state.timeouts == st.timeouts
    ensures t.state.testCompleted == st.testCompleted
  {
    var s := st.(currentConcurrentUsers := st.currentConcurrentUsers - 1);
    if s.currentConcurrentUsers == 0 && s.testCompleted then
      Transition(s.(finished := true), Completed(CreateProgressEvent(s)))
    else
      Transition(s, Silent)
  }

  /** One iteration of the loop. A finished run ignores every event; the
      terminal snapshot is sent at most on the event that finishes the run,
      and only once the deadline has passed and no worker is left. */
  function Step(policy: Shutdown, total: int, st: RunState, ev: Event): (t: Transition)
    ensures st.finished ==> t == Transition(st, Silent)
    ensures t.output.Completed? <==> !st.finished && t.state.finished
    ensures t.output.Completed? ==>
              t.state.testCompleted && t.state.currentConcurrentUsers == 0 && Reflects(t.output.snapshot, t.state)
  {
    if st.finished then Transition(st, Silent)
    else
      match ev
      case SpawnTick => OnSpawnTick(total, st)
      case ProgressTick => OnProgressTick(st)
      case Deadline => OnDeadline(policy, st)
      case ResultArrived(r) => OnResult(st, r)
      case Quit => OnQuit(st)
  }

  /** The state after a trace of events, and what each event produced. */
  datatype Trace = Trace(state: RunState, outputs: seq<Output>)

  function RunEvents(policy: Shutdown, total: int, st: RunState, evs: seq<Event>): (t: Trace)
    ensures |t.outputs| == |evs|
    decreases |evs|
  {
    if |evs| == 0 then Trace(st, [])
    else
      var first := Step(policy, total, st, evs[0]);
      var rest := RunEvents(policy, total, first.state, evs[1..]);
      Trace(rest.state, [first.output] + rest.outputs)
  }

  function CountCompleted(outs: seq<Output>): nat
  {
    if |outs| == 0 then 0 else (if outs[0].Completed? then 1 else 0) + CountCompleted(outs[1..])
  }

  function CountSpawned(outs: seq<Output>): nat
  {
    if |outs| == 0 then 0 else (if outs[0].Spawned? then 1 else 0) + CountSpawned(outs[1..])
  }

  /** Done signals the loop handled, up to the one that finished the run. */
  function QuitsHandled(policy: Shutdown, total: int, st: RunState, evs: seq<Event>): nat
    decreases |evs|
  {
    if |evs| == 0 || st.finished then 0
    else (if evs[0].Quit? then 1 else 0) + QuitsHandled(policy, total, Step(policy, total, st, evs[0]).state, evs[1..])
  }

  lemma {:induction false} CountCreditedAppend(log: seq<ActionResult>, r: ActionResult, c: Counter)
    ensures CountCredited(log + [r], c) == CountCredited(log, c) + (if Credited(r) == c then 1 else 0)
  {
    assert (log + [r])[..|log|] == log;
  }

  lemma StartInv(total: int)
    ensures Inv(total, Start())
  {
  }

  lemma StepPreservesInv(policy: Shutdown, total: int, st: RunState, ev: Event)
    requires Inv(total, st)
    ensures Inv(total, Step(policy, total, st, ev).state)
  {
    if !st.finished && ev.ResultArrived? {
      var r := ev.result;
      CountCreditedAppend(st.log, r, ClientErrors);
      CountCreditedAppend(st.log, r, ServerErrors);
      CountCreditedAppend(st.log, r, Timeouts);
      var s := Step(policy, total, st, ev).state;
      assert CounterValue(s, ClientErrors) == CounterValue(st, ClientErrors) + (if Credited(r) == ClientErrors then 1 else 0);
      assert CounterValue(s, ServerErrors) == CounterValue(st, ServerErrors) + (if Credited(r) == ServerErrors then 1 else 0);
      assert CounterValue(s, Timeouts) == CounterValue(st, Timeouts) + (if Credited(r) == Timeouts then 1 else 0);
    }
  }

  lemma {:induction false} RunPreservesInv(policy: Shutdown, total: int, st: RunState, evs: seq<Event>)
    requires Inv(total, st)
    ensures Inv(total, RunEvents(policy, total, st, evs).state)
    decreases |evs|
  {
    if |evs| > 0 {
      StepPreservesInv(policy, total, st, evs[0]);
      RunPreservesInv(policy, total, Step(policy, total, st, evs[0]).state, evs[1..]);
    }
  }

  lemma {:induction false} CreditedAtMostLength(log: seq<ActionResult>)
    ensures CountCredited(log, ClientErrors) + CountCredited(log, ServerErrors) + CountCredited(log, Timeouts) <= |log|
  {
    if |log| > 0 {
      CreditedAtMostLength(log[..|log| - 1]);
    }
  }

  /** From the start state, over any trace of events: no more than `total`
      users (none for a negative `total`) are ever spawned, the number of hits is the length of the log,
      and the three error counters together never exceed the hits. */
  lemma ReachableCounters(policy: Shutdown, total: int, evs: seq<Event>)
    ensures var s := RunEvents(policy, total, Start(), evs).state;
            && 0 <= s.usersSpawned <= Max(total, 0)
            && s.hits == |s.log|
            && s.clientErrors + s.serverErrors + s.timeouts <= s.hits
  {
    StartInv(total);
    RunPreservesInv(policy, total, Start(), evs);
    CreditedAtMostLength(RunEvents(policy, total, Start(), evs).state.log);
  }

  /** A finished run is frozen: later events change nothing and send
      nothing. */
  lemma {:induction false} FinishedIsFrozen(policy: Shutdown, total: int, st: RunState, evs: seq<Event>)
    requires st.finished
    ensures RunEvents(policy, total, st, evs).state == st
    ensures CountCompleted(RunEvents(policy, total, st, evs).outputs) == 0
    ensures forall i :: 0 <= i < |evs| ==> RunEvents(policy, total, st, evs).outputs[i] == Silent
    decreases |evs|
  {
    if |evs| > 0 {
      FinishedIsFrozen(policy, total, st, evs[1..]);
      var rest := RunEvents(policy, total, st, evs[1..]).outputs;
      assert RunEvents(policy, total, st, evs).outputs == [Silent] + rest;
    }
  }

  /** The terminal snapshot is sent at most once over any trace: exactly
      once if the trace takes a running state to a finished one, never
      otherwise. */
  lemma {:induction false} CompletedAtMostOnce(policy: Shutdown, total: int, st: RunState, evs: seq<Event>)
    ensures var t := RunEvents(policy, total, st, evs);
            CountCompleted(t.outputs) == (if !st.finished && t.state.finished then 1 else 0)
    decreases |evs|
  {
    if |evs| == 0 {
    } else if st.finished {
      FinishedIsFrozen(policy, total, st, evs);
    } else {
      var first := Step(policy, total, st, evs[0]);
      CompletedAtMostOnce(policy, total, first.state, evs[1..]);
      var rest := RunEvents(policy, total, first.state, evs[1..]);
      assert RunEvents(policy, total, st, evs).outputs == [first.output] + rest.outputs;
      assert ([first.output] + rest.outputs)[1..] == rest.outputs;
      if first.state.finished {
        FinishedIsFrozen(policy, total, first.state, evs[1..]);
      }
    }
  }

  /** A terminal snapshot sent anywhere in a trace is the snapshot of the
      trace's final state, which has the deadline passed and no worker left. */
  lemma {:induction false} CompletedReflectsFinalState(policy: Shutdown, total: int, st: RunState, evs: seq<Event>, i: nat)
    requires i < |evs| && RunEvents(policy, total, st, evs).outputs[i].Completed?
    ensures Reflects(RunEvents(policy, total, st, evs).outputs[i].snapshot, RunEvents(policy, total, st, evs).state)
    ensures RunEvents(policy, total, st, evs).state.testCompleted
    ensures RunEvents(policy, total, st, evs).state.currentConcurrentUsers == 0
    decreases |evs|
  {
    var first := Step(policy, total, st, evs[0]);
    var t := RunEvents(policy, total, st, evs);
    var rest := RunEvents(policy, total, first.state, evs[1..]);
    assert t.outputs == [first.output] + rest.outputs;
    assert t.state == rest.state;
    if i == 0 {
      FinishedIsFrozen(policy, total, first.state, evs[1..]);
    } else {
      assert t.outputs[i] == rest.outputs[i - 1];
      CompletedReflectsFinalState(policy, total, first.state, evs[1..], i - 1);
    }
  }

  /** Concurrency bookkeeping over any trace: the spawn outputs are exactly
      the new spawns, and the concurrency moved by spawns minus handled done
      signals. */
  lemma {:induction false} ConcurrencyAccounting(policy: Shutdown, total: int, st: RunState, evs: seq<Event>)
    ensures var t := RunEvents(policy, total, st, evs);
            && CountSpawned(t.outputs) == t.state.usersSpawned - st.usersSpawned
            && t.state.currentConcurrentUsers
               == st.currentConcurrentUsers + (t.state.usersSpawned - st.usersSpawned) - QuitsHandled(policy, total, st, evs)
    decreases |evs|
  {
    if |evs| == 0 {
    } else if st.finished {
      FinishedIsFrozen(policy, total, st, evs);
      NoSpawnOutputs(RunEvents(policy, total, st, evs).outputs);
    } else {
      var first := Step(policy, total, st, evs[0]);
      StepAccounting(policy, total, st, evs[0]);
      ConcurrencyAccounting(policy, total, first.state, evs[1..]);
      var rest := RunEvents(policy, total, first.state, evs[1..]);
      assert RunEvents(policy, total, st, evs).outputs == [first.output] + rest.outputs;
      assert ([first.output] + rest.outputs)[1..] == rest.outputs;
    }
  }

  /** One step of a running loop spawns at most one user, announcing it, and
      moves the concurrency by the spawn minus a done signal. */
  lemma StepAccounting(policy: Shutdown, total: int, st: RunState, ev: Event)
    requires !st.finished
    ensures var t := Step(policy, total, st, ev);
            var spawned := if t.output.Spawned? then 1 else 0;
            && t.state.usersSpawned == st.usersSpawned + spawned
            && t.state.currentConcurrentUsers == st.currentConcurrentUsers + spawned - (if ev.Quit? then 1 else 0)
  {
  }

  lemma {:induction false} NoSpawnOutputs(outs: seq<Output>)
    requires forall i :: 0 <= i < |outs| ==> outs[i] == Silent
    ensures CountSpawned(outs) == 0
  {
    if |outs| > 0 {
      NoSpawnOutputs(outs[1..]);
    }
  }

  /** From the start state: concurrency is spawns minus handled done
      signals, so it stays non-negative exactly while no more workers have
      signalled done than were spawned; and a finished run has heard the
      done signal of every spawned worker. */
  lemma FinishedRunDrainedEveryWorker(policy: Shutdown, total: int, evs: seq<Event>)
    ensures var t := RunEvents(policy, total, Start(), evs);
            var quits := QuitsHandled(policy, total, Start(), evs);
            && t.state.currentConcurrentUsers == t.state.usersSpawned - quits
            && (t.state.currentConcurrentUsers >= 0 <==> quits <= t.state.usersSpawned)
            && (t.state.finished ==> quits == t.state.usersSpawned)
  {
    ConcurrencyAccounting(policy, total, Start(), evs);
    StartInv(total);
    RunPreservesInv(policy, total, Start(), evs);
  }

  /** A run the deadline has passed, with no worker left, that has not sent
      its terminal snapshot. */
  predicate Stranded(st: RunState)
  {
    !st.finished && st.testCompleted && st.currentConcurrentUsers == 0
  }

  /** A done signal only arrives from a worker that is still running. */
  predicate Admissible(st: RunState, ev: Event)
  {
    ev.Quit? ==> st.currentConcurrentUsers > 0
  }

  predicate AdmissibleRun(policy: Shutdown, total: int, st: RunState, evs: seq<Event>)
    decreases |evs|
  {
    |evs| == 0 ||
    (Admissible(st, evs[0]) && AdmissibleRun(policy, total, Step(policy, total, st, evs[0]).state, evs[1..]))
  }

  /** As written: one user, one result, its done signal, then the deadline.
      Every event is admissible, and the run is stranded. */
  lemma AsWrittenStrandsRun(r: ActionResult)
    ensures var evs := [SpawnTick, ResultArrived(r), Quit, Deadline];
            && AdmissibleRun(QuitOnly, 1, Start(), evs)
            && Stranded(RunEvents(QuitOnly, 1, Start(), evs).state)
  {
    var evs := [SpawnTick, ResultArrived(r), Quit, Deadline];
    var s1 := Step(QuitOnly, 1, Start(), SpawnTick).state;
    var s2 := Step(QuitOnly, 1, s1, ResultArrived(r)).state;
    var s3 := Step(QuitOnly, 1, s2, Quit).state;
    var s4 := Step(QuitOnly, 1, s3, Deadline).state;
    assert evs[1..] == [ResultArrived(r), Quit, Deadline];
    assert evs[1..][1..] == [Quit, Deadline];
    assert evs[1..][1..][1..] == [Deadline];
    assert s1.currentConcurrentUsers == 1 && s3.currentConcurrentUsers == 0;
    assert RunEvents(QuitOnly, 1, s3, [Deadline]).state == s4;
    assert RunEvents(QuitOnly, 1, s2, [Quit, Deadline]).state == s4;
    assert RunEvents(QuitOnly, 1, s1, [ResultArrived(r), Quit, Deadline]).state == s4;
    assert RunEvents(QuitOnly, 1, Start(), evs).state == s4;
    assert AdmissibleRun(QuitOnly, 1, s3, [Deadline]);
    assert AdmissibleRun(QuitOnly, 1, s2, [Quit, Deadline]);
    assert AdmissibleRun(QuitOnly, 1, s1, [ResultArrived(r), Quit, Deadline]);
    assert Stranded(s4);
  }

  /** As written, once stranded with the population spawned, no admissible
      trace ever sends the terminal snapshot. */
  lemma {:induction false} AsWrittenStaysStranded(total: int, st: RunState, evs: seq<Event>)
    requires Stranded(st) && st.usersSpawned >= total
    requires AdmissibleRun(QuitOnly, total, st, evs)
    ensures var t := RunEvents(QuitOnly, total, st, evs);
            Stranded(t.state) && CountCompleted(t.outputs) == 0
    decreases |evs|
  {
    if |evs| > 0 {
      var first := Step(QuitOnly, total, st, evs[0]);
      AsWrittenStaysStranded(total, first.state, evs[1..]);
      var rest := RunEvents(QuitOnly, total, first.state, evs[1..]);
      assert RunEvents(QuitOnly, total, st, evs).outputs == [first.output] + rest.outputs;
      assert ([first.output] + rest.outputs)[1..] == rest.outputs;
    }
  }

  /** With the corrected shutdown no admissible event strands a run:
      whichever of "deadline passed" and "no worker left" comes second sends
      the terminal snapshot. */
  lemma CorrectedStepNeverStrands(total: int, st: RunState, ev: Event)
    requires st.currentConcurrentUsers >= 0 && !Stranded(st)
    requires Admissible(st, ev)
    ensures var s := Step(QuitOrDeadline, total, st, ev).state;
            s.currentConcurrentUsers >= 0 && !Stranded(s)
  {
  }

  /** Over any admissible trace from the start state, the corrected loop is
      never stranded. */
  lemma {:induction false} CorrectedNeverStranded(total: int, st: RunState, evs: seq<Event>)
    requires st.currentConcurrentUsers >= 0 && !Stranded(st)
    requires AdmissibleRun(QuitOrDeadline, total, st, evs)
    ensures var s := RunEvents(QuitOrDeadline, total, st, evs).state;
            s.currentConcurrentUsers >= 0 && !Stranded(s)
    decreases |evs|
  {
    if |evs| > 0 {
      CorrectedStepNeverStrands(total, st, evs[0]);
      CorrectedNeverStranded(total, Step(QuitOrDeadline, total, st, evs[0]).state, evs[1..]);
    }
  }
}
