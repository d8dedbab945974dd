/** Snapshot statistics over the result log (`computeAverages` in
    engine/engine.go): mean and maximum of the concurrency tags over every
    result, and mean response time over the successful results only.

    The reference definitions are recursive over the log, peeling off its
    last entry; `ComputeAveragesPass` is the engine's single forward pass
    and is proved to agree with them. The response mean here is the
    millisecond mean the engine evidently intends: the code scales the
    nanosecond total up by 10^6 instead of down, which
    `AsWrittenResponseMean` models. */
module Stats {
  import opened Common
  import opened Actions

  /** A float64 mean: a number, or NaN for Go's 0.0 / 0.0. */
  datatype Mean = Num(value: real) | NaN

  datatype Averages = Averages(averageConcurrentUsers: real, averageResponseTime: Mean, maxConcurrentUsers: int)

  /** Nanoseconds per millisecond (`time.Millisecond`). */
  const NanosPerMilli: nat := 1_000_000

  /** Sum of the concurrency tags of every entry. */
  function SumTags(log: seq<ActionResult>): int
  {
    if |log| == 0 then 0 else SumTags(log[..|log| - 1]) + log[|log| - 1].concurrentUsers
  }

  /** Running maximum of the tags, starting from 0 as the engine does: an
      upper bound of every tag that is either 0 or one of the tags. */
  function MaxTag(log: seq<ActionResult>): (m: int)
    ensures m >= 0
    ensures forall i :: 0 <= i < |log| ==> log[i].concurrentUsers <= m
    ensures m == 0 || exists i :: 0 <= i < |log| && log[i].concurrentUsers == m
  {
    if |log| == 0 then 0
    else
      var init := log[..|log| - 1];
      assert forall i :: 0 <= i < |init| ==> init[i] == log[i];
      Max(MaxTag(init), log[|log| - 1].concurrentUsers)
  }

  /** Total response time, in nanoseconds, of the successful entries. */
  function SuccessTime(log: seq<ActionResult>): nat
  {
    if |log| == 0 then 0
    else SuccessTime(log[..|log| - 1]) + (if Successful(log[|log| - 1]) then log[|log| - 1].responseTime else 0)
  }

  /** Number of successful entries. */
  function SuccessCount(log: seq<ActionResult>): (n: nat)
    ensures n <= |log|
  {
    if |log| == 0 then 0
    else SuccessCount(log[..|log| - 1]) + (if Successful(log[|log| - 1]) then 1 else 0)
  }

  /** The mean of `count` values adding up to `total`, as a float64
      division: NaN (0 / 0) when there are none. */
  function MeanOf(total: real, count: nat): (m: Mean)
    ensures m.NaN? <==> count == 0
  {
    if count == 0 then NaN else Num(total / count as real)
  }

  /** A mean taken `count` times gives back the total. */
  lemma MeanTimesCount(total: real, count: nat)
    requires count > 0
    ensures MeanOf(total, count).value * (count as real) == total
  {
  }

  /** A duration in nanoseconds as a float64 number of milliseconds. */
  function Millis(nanos: int): real
  {
    nanos as real / NanosPerMilli as real
  }

  /** `computeAverages`, with the response-time mean in milliseconds. An
      empty log gives zeros. Otherwise average concurrency is the mean of the
      tags of every entry, and the response time is the mean over the
      successful entries only: NaN (0 / 0 in floating point) when there is
      none. The maximum bounds every tag and is 0 or one of them. */
  function ComputeAverages(log: seq<ActionResult>): (a: Averages)
    ensures |log| == 0 ==> a == Averages(0.0, Num(0.0), 0)
    ensures |log| > 0 ==> MeanOf(SumTags(log) as real, |log|) == Num(a.averageConcurrentUsers)
    ensures |log| > 0 ==> a.averageResponseTime == MeanOf(Millis(SuccessTime(log)), SuccessCount(log))
    ensures |log| > 0 ==> (a.averageResponseTime.NaN? <==> SuccessCount(log) == 0)
    ensures forall i :: 0 <= i < |log| ==> log[i].concurrentUsers <= a.maxConcurrentUsers
    ensures a.maxConcurrentUsers == 0 || exists i :: 0 <= i < |log| && log[i].concurrentUsers == a.maxConcurrentUsers
  {
    if |log| == 0 then Averages(0.0, Num(0.0), 0)
    else Averages(MeanOf(SumTags(log) as real, |log|).value, MeanOf(Millis(SuccessTime(log)), SuccessCount(log)), MaxTag(log))
  }

  /** The sum of the tags never exceeds their number times their maximum. */
  lemma {:induction false} SumAtMostCountTimesMax(log: seq<ActionResult>)
    ensures SumTags(log) <= |log| * MaxTag(log)
  {
    if |log| > 0 {
      var init := log[..|log| - 1];
      var last := log[|log| - 1].concurrentUsers;
      SumAtMostCountTimesMax(init);
      assert SumTags(log) == SumTags(init) + last;
      assert MaxTag(log) == Max(MaxTag(init), last);
      BoundStep(SumTags(init), |init|, MaxTag(init), MaxTag(log), last);
    }
  }

  lemma BoundStep(sum: int, n: nat, mi: int, m: int, x: int)
    requires sum <= n * mi && mi <= m && x <= m
    ensures sum + x <= (n + 1) * m
  {
    assert n * mi <= n * m;
  }

  /** On a non-empty log the maximum concurrency is at least the average. */
  lemma MaxAtLeastAverage(log: seq<ActionResult>)
    requires |log| > 0
    ensures ComputeAverages(log).maxConcurrentUsers as real >= ComputeAverages(log).averageConcurrentUsers
  {
    SumAtMostCountTimesMax(log);
    MeanAtMostMax(SumTags(log), |log|, MaxTag(log));
  }

  lemma MeanAtMostMax(sum: int, n: nat, m: int)
    requires n > 0 && sum <= n * m
    ensures MeanOf(sum as real, n).value <= m as real
  {
    var q := MeanOf(sum as real, n).value;
    MeanTimesCount(sum as real, n);
    assert (sum as real) <= (m as real) * (n as real);
    if q > m as real {
      assert q * (n as real) > (m as real) * (n as real);
    }
  }

  /** A failed entry changes neither the successful-time total nor the
      successful count, so it never moves a non-empty log's response mean. */
  lemma FailureLeavesResponseMean(log: seq<ActionResult>, r: ActionResult)
    requires |log| > 0
    requires !Successful(r)
    ensures ComputeAverages(log + [r]).averageResponseTime == ComputeAverages(log).averageResponseTime
  {
    assert (log + [r])[..|log|] == log;
  }

  /** A non-empty log of failures only has a NaN response mean. */
  lemma {:induction false} AllFailuresHaveNoResponseMean(log: seq<ActionResult>)
    requires |log| > 0
    requires forall i :: 0 <= i < |log| ==> !Successful(log[i])
    ensures ComputeAverages(log).averageResponseTime == NaN
  {
    NoSuccessCounted(log);
  }

  lemma {:induction false} NoSuccessCounted(log: seq<ActionResult>)
    requires forall i :: 0 <= i < |log| ==> !Successful(log[i])
    ensures SuccessCount(log) == 0
  {
    if |log| > 0 {
      var init := log[..|log| - 1];
      assert forall i :: 0 <= i < |init| ==> init[i] == log[i];
      NoSuccessCounted(init);
    }
  }

  /** The engine's single forward pass: accumulate the tag sum, the running
      maximum, and the time and number of successful entries, then divide,
      with the final scaling to milliseconds corrected (see
      `AsWrittenResponseMean`). */
  method ComputeAveragesPass(log: seq<ActionResult>) returns (avgCu: real, avgRt: Mean, maxCu: int)
    ensures Averages(avgCu, avgRt, maxCu) == ComputeAverages(log)
  {
    avgCu, avgRt := 0.0, Num(0.0);
    maxCu := 0;
    var cuSum := 0;
    var rtSum: nat := 0;
    var count: nat := 0;
    if |log| > 0 {
      var i := 0;
      while i < |log|
        invariant 0 <= i <= |log|
        invariant cuSum == SumTags(log[..i])
        invariant maxCu == MaxTag(log[..i])
        invariant rtSum == SuccessTime(log[..i])
        invariant count == SuccessCount(log[..i])
      {
        var r := log[i];
        assert log[..i + 1][..i] == log[..i];
        cuSum := cuSum + r.concurrentUsers;
        if r.concurrentUsers > maxCu {
          maxCu := r.concurrentUsers;
        }
        if Successful(r) {
          rtSum := rtSum + r.responseTime;
          count := count + 1;
        }
        i := i + 1;
      }
      assert log[..|log|] == log;
      avgCu := cuSum as real / (|log| as real);
      avgRt := MeanOf(Millis(rtSum), count);
    }
  }

  /** The results used as the engine's test data: tags 2, 4, 6, 9 and
      response times of 74, 47, 51 and 60 ms, all successful. */
  function TestLog(): seq<ActionResult>
  {
    [ ActionResult(false, false, false, 74 * NanosPerMilli, 2),
      ActionResult(false, false, false, 47 * NanosPerMilli, 4),
      ActionResult(false, false, false, 51 * NanosPerMilli, 6),
      ActionResult(false, false, false, 60 * NanosPerMilli, 9) ]
  }

  lemma {:induction false} TestLogTotals()
    ensures SumTags(TestLog()) == 21
    ensures MaxTag(TestLog()) == 9
    ensures SuccessCount(TestLog()) == 4
    ensures SuccessTime(TestLog()) == 232 * NanosPerMilli
  {
    var l := TestLog();
    assert l[..1][..0] == [];
    assert l[..2][..1] == l[..1];
    assert l[..3][..2] == l[..2];
    assert l[..4][..3] == l[..3];
    assert l[..4] == l;
    assert SumTags(l[..1]) == 2 && MaxTag(l[..1]) == 2;
    assert SuccessCount(l[..1]) == 1 && SuccessTime(l[..1]) == 74 * NanosPerMilli;
    assert SumTags(l[..2]) == 6 && MaxTag(l[..2]) == 4;
    assert SuccessCount(l[..2]) == 2 && SuccessTime(l[..2]) == 121 * NanosPerMilli;
    assert SumTags(l[..3]) == 12 && MaxTag(l[..3]) == 6;
    assert SuccessCount(l[..3]) == 3 && SuccessTime(l[..3]) == 172 * NanosPerMilli;
  }

  /** The test data's expected statistics: average concurrency 5.25,
      maximum 9, mean response time 58 ms. */
  lemma TestLogAverages()
    ensures ComputeAverages(TestLog()) == Averages(5.25, Num(58.0), 9)
  {
    TestLogTotals();
  }

  /** The response mean as the engine writes it: the nanosecond total is
      multiplied by `time.Millisecond` (a `Duration` product that wraps) and
      divided by the successful count. */
  function AsWrittenResponseMean(log: seq<ActionResult>): (m: Mean)
    ensures |log| == 0 ==> m == Num(0.0)
    ensures |log| > 0 ==> (m.NaN? <==> SuccessCount(log) == 0)
  {
    if |log| == 0 then Num(0.0)
    else MeanOf(Int64(SuccessTime(log) * NanosPerMilli) as real, SuccessCount(log))
  }

  /** Without wrap-around, the written expression is 10^12 times the mean in
      milliseconds. */
  lemma AsWrittenIsTrillionfold(log: seq<ActionResult>)
    requires |log| > 0 && SuccessCount(log) > 0
    requires SuccessTime(log) * NanosPerMilli < 0x8000_0000_0000_0000
    ensures AsWrittenResponseMean(log) == Num(ComputeAverages(log).averageResponseTime.value * 1_000_000_000_000.0)
  {
    assert (SuccessTime(log) * NanosPerMilli) as real == SuccessTime(log) as real * 1_000_000.0;
    ScaleMean(SuccessTime(log), SuccessCount(log));
  }

  lemma ScaleMean(t: int, c: nat)
    requires c > 0
    ensures MeanOf(Millis(t), c).value * 1_000_000_000_000.0 == MeanOf(t as real * 1_000_000.0, c).value
  {
    var q := MeanOf(Millis(t), c).value;
    MeanTimesCount(Millis(t), c);
    MeanTimesCount(t as real * 1_000_000.0, c);
    assert q * (c as real) * 1_000_000.0 == t as real;
  }

  /** On the test data the written expression yields 5.8e13 instead of the
      58 ms the test expects. */
  lemma AsWrittenTestLog()
    ensures AsWrittenResponseMean(TestLog()) == Num(58_000_000_000_000.0)
    ensures AsWrittenResponseMean(TestLog()) != ComputeAverages(TestLog()).averageResponseTime
  {
    TestLogTotals();
    TestLogAverages();
  }
}
