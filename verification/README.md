# GoSmashIt engine, modelled in Dafny

GoSmashIt is a load generator. Its engine spawns simulated users at a fixed
cadence until a target population is reached. Each user runs the scenario's
HTTP steps in order and forwards every classified result to a single control
loop. That loop owns all the counters and the result log. It sends a progress
snapshot on every progress tick. It sends one terminal snapshot when a worker
signals done, the test deadline has already passed, and no other worker is
left; a run whose last worker finishes before the deadline never sends it
(see Findings).

This project models the engine's bookkeeping with the goroutines, channels
and timers taken out:

- `Scenarios` (`scenarios.dfy`): the `Scenario` record, `newScenario`, and
  `AddStep`. The step's method is upper-cased and its URL is the base address
  joined with the endpoint. A body is attached when content is given, and the
  supplied headers are set. Building the HTTP request is a parameter that may
  fail.
- `Actions` (`actions.dfy`): `executeAction`'s classification of a call
  outcome, and the counter `updateStats` credits for a result.
- `Stats` (`stats.dfy`): `computeAverages`. It has a recursive reference
  definition and a single-pass method proved equal to it.
- `ControlLoop` (`control_loop.dfy`): the `select` of `Run` as a pure step
  function over a run state. It handles five events: spawn tick, progress
  tick, deadline, result, and done signal. Traces of events are folded with
  `RunEvents`, and trace invariants are proved over them.
- `Workers` (`workers.dfy`): `executeScenario` as the message sequence one
  user produces.
- `Engines` (`engines.dfy`): `New`, first-write-wins `CreateScenario`, and
  what `Run` needs before the loop starts: a scenario, and positive periods
  for the tickers `initializeTickers` creates. `Run` returns an error where
  the code panics.

Durations are integer nanoseconds, as Go's `time.Duration` is. Means are
exact `real`s. A NaN response-time mean (0 / 0 in the code) is the `NaN`
case of `Stats.Mean`.

The model follows the code in two places where the engine's design reads
otherwise:
- `hits` counts every result, errors included.
- A worker tags its results with the concurrency value captured when it was
  spawned, not with a live counter.

The loop's shutdown check is modelled twice; see Findings. `QuitOnly` is the
code as written. `QuitOrDeadline` is the corrected check. Every safety lemma
in `ControlLoop` is proved for both.

## Model

| member | source | states |
|---|---|---|
| `Scenarios.NewScenario` | engine/scenario.go:21-31 | users, address, durations and timeout are stored as given, with no validation; the step list starts empty |
| `Scenarios.ToUpper` | engine/scenario.go:34 | the method keeps its length; each lower-case ASCII letter becomes its capital and every other character is kept, so no lower-case letter remains |
| `Scenarios.ToUpperIdempotent` | engine/scenario.go:34 | upper-casing an already upper-cased method changes nothing |
| `Scenarios.SetHeaders` | engine/scenario.go:48-53 | after the header loop, every supplied key holds its supplied value; headers under other keys are kept; no other key appears |
| `Scenarios.AddStep` | engine/scenario.go:33-56 | if request construction fails, its error is returned and the scenario is unchanged. Otherwise exactly one step is appended at the end and earlier steps keep their order. The new step's method is the upper-cased input and its URL is base address + endpoint. It has a body iff the content is non-empty, and its headers are exactly the supplied map (none for a nil or empty map) |
| `Actions.ExecuteAction` | engine/engine.go:174-197 | a transport error sets only the timeout flag; a status in [400,500) sets only the client-error flag; a status of 500 or above sets only the server-error flag; any other status sets no flag; at most one flag is ever set |
| `Actions.Credited` | engine/engine.go:146-152 | the flags are tested in priority order: a result goes to the client-error counter iff its client flag is set; to the server-error counter iff its server flag is set and its client flag is not; to the timeout counter iff only its timeout flag is set; and to no error counter iff it is successful |
| `Actions.CreditMatchesCategory` | engine/engine.go:182-188 | classification tests the timeout flag first and crediting tests it last, yet every outcome is credited to the counter its category names |
| `ControlLoop.Start` | engine/engine.go:61-84 | the loop starts from the engine's zeroed counters, an empty log, the deadline not yet passed and the run not finished |
| `ControlLoop.CreateProgressEvent` | engine/engine.go:199-213 | a snapshot carries exactly the state's spawned users, hits and three error counters, and the average concurrency, maximum concurrency and response mean of its log |
| `ControlLoop.RunEvents` | engine/engine.go:87-123 | the loop run over a trace of events, one `select` case per event: it produces exactly one output per event |
| `ControlLoop.UpdateStats` | engine/engine.go:144-153 | every result adds one hit, errors included; exactly the credited error counter rises by one, the others are unchanged; the error total rises by one iff the result failed; no other field changes |
| `ControlLoop.OnSpawnTick` | engine/engine.go:90-98 | a worker is spawned iff fewer than `total_users` users have been spawned. A spawn raises spawned and concurrent users by exactly one, and the worker is tagged with the concurrency after the increment. Otherwise no counter moves and the spawn ticker is stopped. Spawned users never exceed max(total, previous) |
| `ControlLoop.OnProgressTick` | engine/engine.go:99-101 | the state is unchanged; the progress snapshot's counters equal the current ones and its averages are those of the current log |
| `ControlLoop.OnDeadline` | engine/engine.go:102-106 | sets `test_completed` and stops all three tickers; no counter or log entry changes. As written nothing is sent; under the corrected shutdown the terminal snapshot is sent iff no worker is left |
| `ControlLoop.OnResult` | engine/engine.go:107-109 | appends exactly this result to the log, adds one hit, and raises only the credited error counter; spawn and concurrency counts are unchanged |
| `ControlLoop.OnQuit` | engine/engine.go:110-119 | concurrency drops by one. The terminal snapshot is sent, and the run finishes, iff the new value is 0 and the deadline has passed. The snapshot carries the counters of the resulting state |
| `ControlLoop.Step` | engine/engine.go:88-123 | a finished run ignores every event. The terminal snapshot is sent exactly on the event that finishes the run, and only when the deadline has passed and concurrency is 0 |
| `ControlLoop.StepPreservesInv` | engine/engine.go:88-123 | every event keeps the invariant: spawned users stay within the target population, hits equal the log length, each error counter counts exactly the log entries credited to it, and a finished run has deadline passed and concurrency 0 |
| `ControlLoop.ReachableCounters` | engine/engine.go:90-109 | over any event trace from the zeroed start, for any `total_users`: 0 ≤ spawned ≤ max(`total_users`, 0), hits equal the log length, and client + server errors + timeouts ≤ hits |
| `ControlLoop.FinishedIsFrozen` | engine/engine.go:112-118 | after the terminal snapshot, later events change nothing and send nothing |
| `ControlLoop.CompletedAtMostOnce` | engine/engine.go:110-119 | over any trace the terminal snapshot is sent exactly once if the trace finishes a running state, and never otherwise |
| `ControlLoop.CompletedReflectsFinalState` | engine/engine.go:112-114 | a terminal snapshot anywhere in a trace carries the counters and averages of the trace's final state, in which the deadline has passed and concurrency is 0 |
| `ControlLoop.ConcurrencyAccounting` | engine/engine.go:90-111 | over any trace, the spawn outputs number exactly the new spawns, and final concurrency = initial + new spawns − done signals handled |
| `ControlLoop.StepAccounting` | engine/engine.go:90-119 | one event handled by a running loop spawns at most one user, and then announces it; concurrency moves by that spawn minus one for a done signal |
| `ControlLoop.FinishedRunDrainedEveryWorker` | engine/engine.go:110-119 | from the start state, concurrency = spawns − done signals. It is non-negative iff done signals ≤ spawns, and a finished run has heard a done signal from every spawned worker |
| `ControlLoop.AsWrittenStrandsRun` | engine/engine.go:102-119 | as written, with one user, the trace spawn, result, done, deadline is admissible. It ends with the deadline passed, no worker left, and no terminal snapshot sent |
| `ControlLoop.AsWrittenStaysStranded` | engine/engine.go:102-119 | as written, once stranded with the population spawned, no admissible trace ever sends the terminal snapshot |
| `ControlLoop.CorrectedStepNeverStrands` | engine/engine.go:102-119 | with the terminal check also made at the deadline, no admissible event leads to a stranded state, and concurrency stays non-negative |
| `ControlLoop.CorrectedNeverStranded` | engine/engine.go:102-119 | with the corrected shutdown, no admissible trace from a non-stranded state ends stranded |
| `Stats.MaxTag` | engine/engine.go:227-229 | the running maximum (starting at 0) bounds every concurrency tag, and is either 0 or one of the tags |
| `Stats.MeanOf` | engine/engine.go:237-238 | a float64 mean is NaN (0 / 0) exactly when it is taken over no values |
| `Stats.ComputeAverages` | engine/engine.go:216-242 | an empty log gives (0, 0, 0). Otherwise average concurrency is the mean of the tags of every entry, and the response time is the mean, in milliseconds, over the successful entries only: NaN iff none succeeded. The maximum bounds every tag and is 0 or one of them |
| `Stats.ComputeAveragesPass` | engine/engine.go:223-239 | the engine's single forward pass, with line 238's scaling corrected as in Findings, computes exactly the reference averages |
| `Stats.SumAtMostCountTimesMax` | engine/engine.go:226-229 | the sum of the tags is at most the log length times their maximum |
| `Stats.MaxAtLeastAverage` | engine/engine.go:224-237 | on a non-empty log the maximum concurrency is at least the average |
| `Stats.FailureLeavesResponseMean` | engine/engine.go:230-235 | appending a failed result to a non-empty log leaves the response mean unchanged |
| `Stats.AllFailuresHaveNoResponseMean` | engine/engine.go:234-238 | a non-empty log of failures only has a NaN response mean, not 0 |
| `Stats.TestLogAverages` | engine/engine_test.go:23-74 | tags 2, 4, 6, 9 with successful times 74, 47, 51, 60 ms give average concurrency 5.25, mean response time 58 ms, maximum 9 |
| `Common.Int64` | engine/engine.go:238 | the wrap-around of a Go int64 lies in the int64 range, is the identity on it, and is congruent to its input modulo 2^64 |
| `Stats.AsWrittenResponseMean` | engine/engine.go:236-238 | the response mean as written: 0 on an empty log; on a non-empty one, NaN iff no entry succeeded |
| `Stats.AsWrittenIsTrillionfold` | engine/engine.go:238 | without overflow, the response mean as written is 10^12 times the mean in milliseconds |
| `Stats.AsWrittenTestLog` | engine/engine.go:238 | on the test data the response mean as written is 5.8e13, not the 58 ms the test expects |
| `Workers.ExecuteScenario` | engine/engine.go:162-171 | one message per step and then one done signal, which is the last message. The i-th message is the classified result of the i-th call, tagged with the spawn-time concurrency, with at most one flag set |
| `Workers.WorkerRunAccounted` | engine/engine.go:162-171 | fed to a running loop, one worker's messages append its results to the log in step order, one hit each. Concurrency drops by one and nobody is spawned |
| `Workers.ResultsThenQuitAccounted` | engine/engine.go:107-119 | fed to a running loop, any run of results followed by one done signal appends exactly those results to the log, adds one hit each, takes one user off the concurrency count and spawns nobody |
| `Engines.New` | engine/engine.go:61-70 | a fresh engine has no scenario and a five-second progress frequency |
| `Engines.CreateScenario` | engine/engine.go:72-78 | a scenario is installed only when none exists; an engine that already has one is returned unchanged |
| `Engines.FirstScenarioWins` | engine/engine.go:72-78 | a second `CreateScenario` call, with any arguments, leaves the first configuration in effect |
| `Engines.Run` | engine/engine.go:80-134 | refused iff there is no scenario or one of the three tickers would get a non-positive period (`time.NewTicker` panics). Otherwise the loop starts with zero counters, an empty log and the deadline not yet passed, in a state satisfying the loop invariant |
| `Engines.SpawnInterval` | engine/engine.go:135-141 | with no users the interval is 0 (the division's infinity or NaN does not parse). Otherwise it is a multiple of 10 ns within 5 ns of each user's share of the duration, and it is positive iff duration and users have the same sign and the share is at least 5 ns |
| `Engines.DeadlinePeriod` | engine/engine.go:132-133 | the deadline period is the test duration (already in nanoseconds) times 10^9, wrapped to int64: it lies in the int64 range and is congruent to the product modulo 2^64 |
| `Engines.NoUsersRefused` | engine/engine.go:126-141 | a scenario with zero users is refused, whatever its duration |
| `Engines.NegativeUsersRefused` | engine/engine.go:126-141 | a negative user count with a positive duration is refused |
| `Engines.DriverConfiguration` | gosmashit.go:10-19 | the driver's 200 users over 60 s are spawned every 300 ms; its deadline period wraps to 4 659 767 778 871 345 152 ns (about 147 years); the run starts |

## Left out

- Goroutines, channels, `select` and the busy-polling `default` branch. The model treats them as a sequential trace of events: any order in which the loop can receive events is one trace. The concurrency itself is not verified.
- Timing. Ticker periods are computed (`Engines.SpawnInterval`, `Engines.DeadlinePeriod`) only to decide whether `Run` can start; the loop does not use them, because the order of events is left open. The wall-clock `Time_elapsed` of a snapshot is not modelled. Ticker stops are kept as flags only. A tick already buffered in a stopped ticker can still arrive, so the step function accepts every event.
- Engines.SpawnInterval: computed in exact arithmetic. The float64 rounding of the share before it is printed is not modelled. Nor is `ParseDuration`'s overflow error for a share within 5 ns of the int64 maximum. An exact half of 10 ns is rounded up here and to even in the code, so a share of exactly 5 ns gives 10 ns here where the code may give 0.
- Behaviour after the terminal snapshot. The code closes its channels but the loop goroutine keeps running. Each receive from the closed result channel then yields `nil`, and `updateStats(nil)` dereferences it, so the goroutine panics, racing with the driver's exit. The model halts instead.
- The HTTP client, its transport and `ResponseHeaderTimeout`, response objects, and the measured response time. The call outcome and the elapsed time are inputs to the worker.
- The request constructor `http.NewRequest` and the lazy base64 decoder of a step body. The constructor's success or error is a parameter of `AddStep`. The body is kept as the raw content.
- `gosmashit.go`: the command-line driver and the console printing of snapshots.
- Scenarios.ToUpper: upper-cases ASCII letters only, whereas Go's `strings.ToUpper` also maps non-ASCII letters.
- Scenarios.SetHeaders: keys are stored verbatim. The library's `Header.Set` canonicalises them, so two keys that canonicalise alike would collide in the code.
- Stats.ComputeAverages: means are exact reals. Float64 rounding of the sums and quotients is not modelled. The response mean is the corrected millisecond mean, and every snapshot (`ControlLoop.CreateProgressEvent`) carries it; the value the code computes is `Stats.AsWrittenResponseMean` (Findings).
- Stats.AsWrittenResponseMean: the int64 wrap-around of the nanosecond total times 10^6 is modelled, but its float64 conversion is taken as exact.

## Findings

| source | as written | input that shows it | evidently intended | confidence | as-written member | corrected member |
|---|---|---|---|---|---|---|
| engine/engine.go:238 | `float64(avg_rt_counter*time.Millisecond) / counter` multiplies the nanosecond total by 10^6 | the test log (74, 47, 51, 60 ms, all successful) gives 5.8e13 instead of 58 | divide the nanosecond total by 10^6, giving the mean in milliseconds that the test expects and the console prints as "ms" | high; not executed | `Stats.AsWrittenTestLog` | `Stats.TestLogAverages` |
| engine/engine.go:102-119 | the end of the run is checked only when a worker signals done | `total_users` = 1, events spawn tick, result, done, deadline: the deadline has passed and no worker is left, but the terminal snapshot is never sent. This is the usual case as written: the deadline period is `test_duration * time.Second`, a duration already in nanoseconds scaled again, which for the driver's 60 s wraps to about 147 years (`Engines.DriverConfiguration`), so every worker has drained long before the deadline | also send the terminal snapshot at the deadline when no worker is left, so the order of the two conditions does not matter | medium; not executed | `ControlLoop.AsWrittenStrandsRun` | `ControlLoop.CorrectedNeverStranded` |
