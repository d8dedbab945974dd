/** The load-test configuration (engine/scenario.go): the `Scenario` record,
    its constructor and `AddStep`, which appends one request descriptor.

    Building the HTTP request itself is a library call the model cannot see;
    `AddStep` receives it as a total function `newRequest` that, given the
    normalised method and the full URL, either reports a construction error
    (`Some(message)`) or succeeds (`None`). */
module Scenarios {
  import opened Common

  /** One request descriptor of the execution plan. `body` holds the raw,
      still base64-encoded content: the decoder is a lazy reader wrapped
      around it, so nothing is decoded when the step is added. */
  datatype Request = Request(verb: string, url: string, headers: map<string, string>, body: Option<string>)

  /** Durations are Go `time.Duration` values: integer nanoseconds. */
  datatype Scenario = Scenario(
    totalUsers: int,
    baseAddress: string,
    testDuration: int,
    pauseDuration: int,
    timeout: int,
    steps: seq<Request>)

  /** The constructor keeps every argument as given (no validation at all)
      and starts with an empty execution plan. */
  function NewScenario(users: int, url: string, testDuration: int, pauseDuration: int, timeoutDuration: int): (s: Scenario)
    ensures s.totalUsers == users && s.baseAddress == url
    ensures s.testDuration == testDuration && s.pauseDuration == pauseDuration && s.timeout == timeoutDuration
    ensures s.steps == []
  {
    Scenario(users, url, testDuration, pauseDuration, timeoutDuration, [])
  }

  predicate IsLower(c: char)
  {
    'a' <= c <= 'z'
  }

  /** Upper case of one ASCII character; every other character is kept. */
  function UpperChar(c: char): char
  {
    if IsLower(c) then (c as int - 32) as char else c
  }

  /** `strings.ToUpper` on the ASCII range: same length, every lower-case
      letter replaced by its capital, every other character kept. */
  function ToUpper(s: string): (u: string)
    ensures |u| == |s|
    ensures forall i :: 0 <= i < |s| ==> u[i] == UpperChar(s[i])
    ensures forall i :: 0 <= i < |u| ==> !IsLower(u[i])
    ensures forall i :: 0 <= i < |s| && !IsLower(s[i]) ==> u[i] == s[i]
  {
    if s == [] then [] else [UpperChar(s[0])] + ToUpper(s[1..])
  }

  /** Upper-casing twice is upper-casing once. */
  lemma ToUpperIdempotent(s: string)
    ensures ToUpper(ToUpper(s)) == ToUpper(s)
  {
    var u := ToUpper(s);
    var uu := ToUpper(u);
    assert forall i :: 0 <= i < |u| ==> uu[i] == u[i];
  }

  /** The `req.Header.Set(k, v)` loop over the supplied headers: every
      supplied key ends up with its supplied value, every header already
      present under another key is kept, and nothing else is added. Key
      canonicalisation by the HTTP library is not modelled. */
  method SetHeaders(present: map<string, string>, supplied: map<string, string>) returns (r: map<string, string>)
    ensures r.Keys == present.Keys + supplied.Keys
    ensures forall k :: k in supplied ==> r[k] == supplied[k]
    ensures forall k :: k in present && k !in supplied ==> r[k] == present[k]
  {
    r := present;
    var todo := supplied.Keys;
    while todo != {}
      invariant todo <= supplied.Keys
      invariant r.Keys == present.Keys + (supplied.Keys - todo)
      invariant forall k :: k in supplied && k !in todo ==> k in r && r[k] == supplied[k]
      invariant forall k :: k in present && k !in supplied ==> k in r && r[k] == present[k]
      decreases todo
    {
      var k :| k in todo;
      r := r[k := supplied[k]];
      todo := todo - {k};
    }
  }

  /** `AddStep`: upper-cases the method, joins base address and endpoint,
      asks the request library to build the request (with a body exactly
      when `content` is non-empty), sets the supplied headers and appends
      the step. A construction error is returned and the plan is left as it
      was. */
  method AddStep(s: Scenario, headers: Option<map<string, string>>, verb: string, endpoint: string,
                 content: string, newRequest: (string, string) -> Option<string>)
    returns (s': Scenario, err: Option<string>)
    ensures newRequest(ToUpper(verb), s.baseAddress + endpoint).Some? ==>
              err == newRequest(ToUpper(verb), s.baseAddress + endpoint) && s' == s
    ensures newRequest(ToUpper(verb), s.baseAddress + endpoint).None? ==> err.None?
    ensures err.None? ==>
              && |s'.steps| == |s.steps| + 1
              && s'.steps[..|s.steps|] == s.steps
              && s' == s.(steps := s'.steps)
    ensures err.None? ==>
              var step := s'.steps[|s.steps|];
              && step.verb == ToUpper(verb)
              && step.url == s.baseAddress + endpoint
              && (step.body.Some? <==> |content| > 0)
              && (step.body.Some? ==> step.body.value == content)
              && step.headers == (if headers.Some? then headers.value else map[])
  {
    var upper := ToUpper(verb);
    var url := s.baseAddress + endpoint;
    var body: Option<string> := if |content| == 0 then None else Some(content);
    err := newRequest(upper, url);
    if err.Some? {
      s' := s;
      return;
    }
    var h: map<string, string> := map[];
    if headers.Some? && |headers.value| > 0 {
      h := SetHeaders(h, headers.value);
    }
    var step := Request(upper, url, h, body);
    s' := s.(steps := s.steps + [step]);
  }
}
