/** One simulated user (`executeScenario` in engine/engine.go): it runs the
    scenario's steps one after another, tags each classified result with the
    concurrency value it was spawned with, forwards it, and signals done.

    The HTTP exchange is outside the model: `calls[i]` is what the client
    returned for `steps[i]` and how long it took. */
module Workers {
  import opened Actions
  import opened Scenarios
  import opened ControlLoop

  datatype Observation = Observation(outcome: CallOutcome, elapsed: nat)

  /** What a worker sends to the loop: a result, or its done signal. */
  datatype Message = Sent(result: ActionResult) | Done

  /** The classified result of one call, tagged with the spawn-time
      concurrency. */
  function Tagged(call: Observation, concurrency: int): ActionResult
  {
    ExecuteAction(call.outcome, call.elapsed).(concurrentUsers := concurrency)
  }

  /** The worker's messages: one result per step, in step order, each tagged
      with the concurrency captured at spawn time, then exactly one done
      signal. */
  function ExecuteScenario(steps: seq<Request>, calls: seq<Observation>, concurrency: int): (msgs: seq<Message>)
    requires |calls| == |steps|
    ensures |msgs| == |steps| + 1
    ensures forall i :: 0 <= i < |msgs| ==> (msgs[i].Done? <==> i == |steps|)
    ensures forall i :: 0 <= i < |steps| ==> msgs[i].result == Tagged(calls[i], concurrency)
    ensures forall i :: 0 <= i < |steps| ==>
              msgs[i].result.concurrentUsers == concurrency && AtMostOneFlag(msgs[i].result)
    decreases |steps|
  {
    if |steps| == 0 then [Done]
    else [Sent(Tagged(calls[0], concurrency))] + ExecuteScenario(steps[1..], calls[1..], concurrency)
  }

  /** The loop events the worker's messages become. */
  function AsEvents(msgs: seq<Message>): seq<Event>
  {
    seq(|msgs|, i requires 0 <= i < |msgs| => if msgs[i].Done? then Quit else ResultArrived(msgs[i].result))
  }

  function TaggedResults(calls: seq<Observation>, concurrency: int): seq<ActionResult>
  {
    seq(|calls|, i requires 0 <= i < |calls| => Tagged(calls[i], concurrency))
  }

  /** A worker's results as loop events, followed by its done signal. */
  function ResultsThenQuit(rs: seq<ActionResult>): seq<Event>
  {
    seq(|rs|, i requires 0 <= i < |rs| => ResultArrived(rs[i])) + [Quit]
  }

  /** Fed to a running loop without interleaving, a worker's messages add its
      results to the log in step order, one hit each, and take one user off
      the concurrency count; nobody is spawned. */
  lemma WorkerRunAccounted(policy: Shutdown, total: int, st: RunState,
                           steps: seq<Request>, calls: seq<Observation>, concurrency: int)
    requires |calls| == |steps| && !st.finished
    ensures var s := RunEvents(policy, total, st, AsEvents(ExecuteScenario(steps, calls, concurrency))).state;
            && s.log == st.log + TaggedResults(calls, concurrency)
            && s.hits == st.hits + |steps|
            && s.currentConcurrentUsers == st.currentConcurrentUsers - 1
            && s.usersSpawned == st.usersSpawned
  {
    var rs := TaggedResults(calls, concurrency);
    assert AsEvents(ExecuteScenario(steps, calls, concurrency)) == ResultsThenQuit(rs);
    ResultsThenQuitAccounted(policy, total, st, rs);
  }

  lemma {:induction false} ResultsThenQuitAccounted(policy: Shutdown, total: int, st: RunState, rs: seq<ActionResult>)
    requires !st.finished
    ensures var s := RunEvents(policy, total, st, ResultsThenQuit(rs)).state;
            && s.log == st.log + rs
            && s.hits == st.hits + |rs|
            && s.currentConcurrentUsers == st.currentConcurrentUsers - 1
            && s.usersSpawned == st.usersSpawned
    decreases |rs|
  {
    var evs := ResultsThenQuit(rs);
    if |rs| == 0 {
      assert evs == [Quit];
      assert evs[1..] == [];
    } else {
      assert evs[0] == ResultArrived(rs[0]);
      assert evs[1..] == ResultsThenQuit(rs[1..]);
      var next := OnResult(st, rs[0]).state;
      assert Step(policy, total, st, evs[0]).state == next;
      ResultsThenQuitAccounted(policy, total, next, rs[1..]);
      assert st.log + rs == next.log + rs[1..];
    }
  }
}
