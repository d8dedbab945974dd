/** The engine's public configuration surface (engine/engine.go): `New`,
    `CreateScenario`, and what `Run` checks before the loop starts: that a
    scenario exists, and that the three tickers `initializeTickers` creates
    get positive periods (`time.NewTicker` panics otherwise). Once started,
    the run is the control loop of module `ControlLoop`, begun in its `Start`
    state. */
module Engines {
  import opened Common
  import opened Scenarios
  import opened ControlLoop

  /** `time.Second`, in nanoseconds. */
  const NanosPerSecond: int := 1_000_000_000

  /** `CLIENT_UPDATE_FREQUENCY`: five seconds, in nanoseconds. */
  const ClientUpdateFrequency: int := 5 * NanosPerSecond

  datatype Engine = Engine(scenario: Option<Scenario>, progressUpdateFrequency: int)

  /** A fresh engine has no scenario and reports every five seconds. */
  function New(): (e: Engine)
    ensures e.scenario.None?
    ensures e.progressUpdateFrequency == ClientUpdateFrequency
  {
    Engine(None, ClientUpdateFrequency)
  }

  /** First write wins: a scenario is installed only if none exists. */
  function CreateScenario(e: Engine, users: int, url: string, testDuration: int,
                          pauseDuration: int, timeoutDuration: int): (r: Engine)
    ensures r.scenario.Some?
    ensures e.scenario.Some? ==> r == e
    ensures e.scenario.None? ==> r == e.(scenario := Some(NewScenario(users, url, testDuration, pauseDuration, timeoutDuration)))
  {
    if e.scenario.None? then
      e.(scenario := Some(NewScenario(users, url, testDuration, pauseDuration, timeoutDuration)))
    else e
  }

  /** Configuring twice leaves the first configuration in effect, whatever
      the second call's arguments. */
  lemma FirstScenarioWins(e: Engine,
                          users: int, url: string, testDuration: int, pauseDuration: int, timeoutDuration: int,
                          users': int, url': string, testDuration': int, pauseDuration': int, timeoutDuration': int)
    requires e.scenario.None?
    ensures var once := CreateScenario(e, users, url, testDuration, pauseDuration, timeoutDuration);
            && CreateScenario(once, users', url', testDuration', pauseDuration', timeoutDuration') == once
            && once.scenario.value.totalUsers == users
            && once.scenario.value.baseAddress == url
            && once.scenario.value.steps == []
  {
  }

  /** `computeSpawnFrequency` on the test duration (nanoseconds) and the
      user count, in exact arithmetic: each user's share of the duration,
      printed in milliseconds with five decimals (so rounded to the nearest
      10 ns; an exact half is rounded up here, where the code's formatting
      rounds it to even) and parsed back. With no users the
      division gives an infinity or NaN, whose text does not parse, and the
      parse error leaves 0. */
  function SpawnInterval(testDuration: int, users: int): (d: int)
    ensures users == 0 ==> d == 0
    ensures users != 0 ==> d % 10 == 0 && Abs(d * users - testDuration) <= 5 * Abs(users)
    ensures d > 0 <==> users != 0 && testDuration * users > 0 && Abs(testDuration) >= 5 * Abs(users)
  {
    if users == 0 then 0
    else
      var magnitude: int := RoundedShare(Abs(testDuration), Abs(users));
      var d := if testDuration * users < 0 then -magnitude else magnitude;
      SignedShare(testDuration, users, magnitude, d);
      d
  }

  /** `t / u` rounded to the nearest multiple of 10, an exact half
      upwards. */
  function RoundedShare(t: nat, u: nat): (m: nat)
    requires u > 0
    ensures m % 10 == 0
    ensures m * u - t <= 5 * u && t - m * u < 5 * u
    ensures m > 0 <==> t >= 5 * u
  {
    RoundingBounds(t, u);
    (t + 5 * u) / (10 * u) * 10
  }

  /** Rounding a non-negative share to the nearest multiple of 10 stays
      within 5 per user of it, and is positive exactly when the share is at
      least half of 10. */
  lemma RoundingBounds(t: nat, u: nat)
    requires u > 0
    ensures var m := (t + 5 * u) / (10 * u) * 10;
            && m * u - t <= 5 * u && t - m * u < 5 * u
            && (m > 0 <==> t >= 5 * u)
  {
    var n, k := t + 5 * u, 10 * u;
    var q, r := n / k, n % k;
    assert n == q * k + r && 0 <= r < k;
    Regroup(q, u);
    QuotientPositive(q, k, r);
  }

  lemma Regroup(q: int, u: int)
    ensures (q * 10) * u == q * (10 * u)
  {
  }

  lemma QuotientPositive(q: int, k: int, r: int)
    requires k > 0 && 0 <= r < k && q * k + r >= 0
    ensures q >= 0
    ensures q > 0 <==> q * k + r >= k
  {
    ScaleBounds(q, k);
  }

  lemma {:induction false} ScaleBounds(q: int, k: int)
    requires k > 0
    ensures q < 0 ==> q * k <= -k
    ensures q > 0 ==> q * k >= k
    ensures q == 0 ==> q * k == 0
    decreases Abs(q)
  {
    if q > 1 {
      ScaleBounds(q - 1, k);
      assert q * k == (q - 1) * k + k;
    } else if q < -1 {
      ScaleBounds(q + 1, k);
      assert q * k == (q + 1) * k - k;
    }
  }

  /** Giving the rounded magnitude the sign of the quotient keeps the
      rounding error of `RoundingBounds`, and makes the result positive
      exactly when the quotient is positive and the magnitude is. */
  lemma SignedShare(t: int, u: int, m: int, d: int)
    requires u != 0 && m >= 0
    requires m * Abs(u) - Abs(t) <= 5 * Abs(u) && Abs(t) - m * Abs(u) < 5 * Abs(u)
    requires m > 0 <==> Abs(t) >= 5 * Abs(u)
    requires d == if t * u < 0 then -m else m
    ensures Abs(d * u - t) <= 5 * Abs(u)
    ensures d > 0 <==> t * u > 0 && Abs(t) >= 5 * Abs(u)
  {
    ProductSign(t, u);
    if u > 0 {
      assert m * Abs(u) == m * u;
      if t < 0 {
        assert (-m) * u == -(m * u);
      }
    } else {
      assert m * Abs(u) == -(m * u);
      if t > 0 {
        assert (-m) * u == -(m * u);
      }
    }
  }

  lemma ProductSign(t: int, u: int)
    requires u != 0
    ensures t * u > 0 <==> (t > 0 && u > 0) || (t < 0 && u < 0)
    ensures t * u < 0 <==> (t > 0 && u < 0) || (t < 0 && u > 0)
  {
    if u > 0 {
      ScaleBounds(t, u);
    } else {
      ScaleBounds(-t, -u);
      assert t * u == (-t) * (-u);
    }
  }

  /** The deadline ticker's period: the test duration, already in
      nanoseconds, multiplied by `time.Second` again, a `Duration` product
      that wraps around. */
  function DeadlinePeriod(testDuration: int): (d: int)
    ensures -0x8000_0000_0000_0000 <= d < 0x8000_0000_0000_0000
    ensures (testDuration * NanosPerSecond - d) % 0x1_0000_0000_0000_0000 == 0
  {
    Int64(testDuration * NanosPerSecond)
  }

  /** `initializeTickers` succeeds: every ticker it creates has a positive
      period. */
  predicate TickersStart(e: Engine, s: Scenario)
  {
    && SpawnInterval(s.testDuration, s.totalUsers) > 0
    && e.progressUpdateFrequency > 0
    && DeadlinePeriod(s.testDuration) > 0
  }

  /** `Run`: refused (the code panics) without a scenario, or when a ticker
      would get a non-positive period; otherwise the loop starts with zero
      counters, an empty log and the deadline not yet passed, in a state that
      satisfies the loop invariant. */
  function Run(e: Engine): (r: Result<RunState>)
    ensures r.Err? <==> e.scenario.None? || !TickersStart(e, e.scenario.value)
    ensures r.Ok? ==>
              && Inv(e.scenario.value.totalUsers, r.value)
              && r.value.usersSpawned == 0 && r.value.currentConcurrentUsers == 0
              && r.value.hits == 0 && r.value.log == []
              && !r.value.testCompleted && !r.value.finished
  {
    if e.scenario.None? then
      Err("a scenario has not been configured for this engine")
    else if !TickersStart(e, e.scenario.value) then
      Err("non-positive ticker interval")
    else
      Ok(Start())
  }

  /** A scenario without users cannot be run: the spawn interval does not
      parse. */
  lemma NoUsersRefused(testDuration: int, pauseDuration: int, timeoutDuration: int, url: string)
    ensures Run(CreateScenario(New(), 0, url, testDuration, pauseDuration, timeoutDuration)).Err?
  {
  }

  /** A negative user count with a positive duration gives a negative spawn
      interval, so the run is refused too. */
  lemma NegativeUsersRefused(users: int, testDuration: int, pauseDuration: int, timeoutDuration: int, url: string)
    requires users < 0 && testDuration > 0
    ensures Run(CreateScenario(New(), users, url, testDuration, pauseDuration, timeoutDuration)).Err?
  {
    assert testDuration * users < 0;
  }

  /** The command-line driver's configuration (200 users, 60 s): users are
      spawned every 300 ms, and the deadline ticker's period wraps around to
      4 659 767 778 871 345 152 ns, about 147 years. The run starts. */
  lemma DriverConfiguration()
    ensures SpawnInterval(60 * NanosPerSecond, 200) == 300_000_000
    ensures DeadlinePeriod(60 * NanosPerSecond) == 4_659_767_778_871_345_152
    ensures Run(CreateScenario(New(), 200, "http://localhost/", 60 * NanosPerSecond,
                               3_000_000_000, 3_000_000_000)).Ok?
  {
  }
}
