/**
 * The authentication security probes: the PASS/FAIL verdict of one login
 * request, the fixed list of seven probes, and the GOOD / NEEDS ATTENTION
 * summary over their results.
 */
module Security {
  import opened Optional

  /**
   * What `response.json()` makes of a response body, reduced to what the
   * verdict looks at:
   *  - NonJson: the body is not JSON, so `response.json()` raises;
   *  - JsonObject: a JSON object; `success` is the truthiness of its
   *    `success` member, or None when the key is absent;
   *  - JsonSequence: a JSON array or string; `holdsSuccess` says whether
   *    `'success' in body` is true (then `body['success']` raises);
   *  - JsonScalar: a number, boolean or null, on which `in` raises.
   */
  datatype Body =
    | NonJson
    | JsonObject(success: Option<bool>)
    | JsonSequence(holdsSuccess: bool)
    | JsonScalar

  /** The outcome of `requests.post`: a transport error or a reply. */
  datatype Response = TransportError | Reply(status: int, body: Body)

  /** A Python expression's outcome: a value, or an exception was raised. */
  datatype Evaluation<T> = Value(v: T) | Raised

  /**
   * `'success' in body` followed, when true, by the truthiness of
   * `body['success']`: Value(None) when the test is false, Value(Some(b))
   * when the member is there, Raised when either step raises.
   */
  function SuccessMember(body: Body): Evaluation<Option<bool>> {
    match body
    case NonJson => Raised
    case JsonObject(s) => Value(s)
    case JsonSequence(holds) => if holds then Raised else Value(None)
    case JsonScalar => Raised
  }

  /** The statuses that count as a blocked login. */
  predicate IsRejectionStatus(status: int) {
    status == 401 || status == 403 || status == 400
  }

  /**
   * The expected result a probe names: "BLOCKED", "SUCCESS", or any other
   * text, which the verdict does not test (the suite uses "DEPENDS").
   */
  datatype Expectation = Blocked | Success | Depends

  /**
   * The `if expected_result == ...` chain, evaluated with Python's
   * short-circuit: the body is looked at only when the status is 200 and,
   * under "BLOCKED", only when the status is not a rejection status.
   */
  function Judge(expected: Expectation, status: int, body: Body): Evaluation<bool> {
    if expected == Blocked then
      if IsRejectionStatus(status) then Value(true)
      else if status != 200 then Value(false)
      else
        match SuccessMember(body)
        case Raised => Raised
        case Value(None) => Value(false)
        case Value(Some(b)) => Value(!b)
    else if expected == Success then
      if status != 200 then Value(false)
      else
        match SuccessMember(body)
        case Raised => Raised
        case Value(None) => Value(false)
        case Value(Some(b)) => Value(b)
    else Value(true)
  }

  /** `test_request`: True for PASS; a transport error or any exception gives False. */
  function TestRequest(expected: Expectation, response: Response): (pass: bool)
    ensures response.TransportError? ==> !pass
    ensures response.Reply? && expected == Blocked ==>
      (pass <==> IsRejectionStatus(response.status)
                 || (response.status == 200 && response.body == JsonObject(Some(false))))
    ensures response.Reply? && expected == Success ==>
      (pass <==> response.status == 200 && response.body == JsonObject(Some(true)))
    ensures response.Reply? && expected == Depends ==> pass
  {
    match response
    case TransportError => false
    case Reply(status, body) =>
      match Judge(expected, status, body)
      case Value(v) => v
      case Raised => false
  }

  /** A rejection status passes "BLOCKED" whatever the body, even one that is not JSON. */
  lemma RejectionNeedsNoBody(status: int, body: Body)
    requires IsRejectionStatus(status)
    ensures Judge(Blocked, status, body) == Value(true)
  {
  }

  /** A 200 reply whose body is not JSON fails both "BLOCKED" and "SUCCESS", by an exception. */
  lemma NonJsonOkRaises(expected: Expectation)
    requires expected != Depends
    ensures Judge(expected, 200, NonJson) == Raised
    ensures !TestRequest(expected, Reply(200, NonJson))
  {
  }

  /** One login request of the suite and the verdict it expects. */
  datatype Probe = Probe(name: string, url: string, email: string, password: string, expected: Expectation)

  /** The seven probes of `main`, in the order they run. */
  const Probes: seq<Probe> := [
    Probe("System Admin Main Domain", "http://localhost:3000/login", "sysadmin", "admin123", Success),
    Probe("System Admin from Tenant Domain", "http://demo.localhost:3000/login", "sysadmin", "admin123", Blocked),
    Probe("Trust User from Tenant Domain", "http://demo.localhost:3000/login", "admin@demo.school", "password123", Depends),
    Probe("Trust User from Main Domain", "http://localhost:3000/login", "admin@demo.school", "password123", Blocked),
    Probe("System Creds on Tenant Domain", "http://demo.localhost:3000/login", "admin", "password123", Blocked),
    Probe("Fake Trust Admin", "http://demo.localhost:3000/login", "trustadmin@demo.school", "fakepassword", Blocked),
    Probe("Invalid Subdomain", "http://invalid.localhost:3000/login", "admin", "password", Depends)
  ]

  /** `sum(1 for _, result in results if result)`. */
  function CountPassed(results: seq<(string, bool)>): (passed: nat)
    ensures passed <= |results|
    ensures passed == |results| <==> forall i :: 0 <= i < |results| ==> results[i].1
    ensures passed == 0 <==> forall i :: 0 <= i < |results| ==> !results[i].1
  {
    if results == [] then 0
    else CountPassed(results[..|results| - 1]) + (if results[|results| - 1].1 then 1 else 0)
  }

  /** Counting passes distributes over concatenation of result lists. */
  lemma {:induction false} CountPassedAppend(a: seq<(string, bool)>, b: seq<(string, bool)>)
    ensures CountPassed(a + b) == CountPassed(a) + CountPassed(b)
    decreases |b|
  {
    if b == [] {
      assert a + b == a;
    } else {
      assert (a + b)[..|a + b| - 1] == a + b[..|b| - 1];
      assert (a + b)[|a + b| - 1] == b[|b| - 1];
      CountPassedAppend(a, b[..|b| - 1]);
    }
  }

  datatype SecurityStatus = Good | NeedsAttention

  /** `passed >= total * 0.8`, in exact integer arithmetic. */
  function Status(passed: nat, total: nat): (s: SecurityStatus)
    ensures s == Good <==> 5 * passed >= 4 * total
  {
    if 5 * passed >= 4 * total then Good else NeedsAttention
  }

  /** With seven probes, GOOD needs at least six passes. */
  lemma GoodNeedsSixOfSeven(passed: nat)
    requires passed <= 7
    ensures Status(passed, 7) == Good <==> passed >= 6
  {
  }

  /** The (name, verdict) pair of each probe, in the order the probes run. */
  function Verdicts(responses: seq<Response>): (results: seq<(string, bool)>)
    requires |responses| == |Probes|
    ensures |results| == |Probes|
    ensures forall i :: 0 <= i < |Probes| ==> results[i] == (Probes[i].name, TestRequest(Probes[i].expected, responses[i]))
  {
    seq(|Probes|, i requires 0 <= i < |Probes| => (Probes[i].name, TestRequest(Probes[i].expected, responses[i])))
  }

  /**
   * `main`: runs the probes in order, appending one (name, verdict) pair
   * per probe, then counts the passes and rates the suite.
   * `responses[i]` is what the server answered to the i-th probe.
   */
  method RunSuite(responses: seq<Response>) returns (results: seq<(string, bool)>, passed: nat, total: nat, status: SecurityStatus)
    requires |responses| == |Probes|
    ensures |results| == total == 7
    ensures results == Verdicts(responses)
    ensures passed == CountPassed(results) && passed <= total
    ensures status == Good <==> passed >= 6
  {
    // after the k-th append, results holds the verdicts of the first k probes
    ghost var expected := Verdicts(responses);
    results := [];
    var success := TestRequest(Probes[0].expected, responses[0]);
    results := results + [(Probes[0].name, success)];
    assert results == expected[..1];
    success := TestRequest(Probes[1].expected, responses[1]);
    results := results + [(Probes[1].name, success)];
    assert results == expected[..2];
    success := TestRequest(Probes[2].expected, responses[2]);
    results := results + [(Probes[2].name, success)];
    assert results == expected[..3];
    success := TestRequest(Probes[3].expected, responses[3]);
    results := results + [(Probes[3].name, success)];
    assert results == expected[..4];
    success := TestRequest(Probes[4].expected, responses[4]);
    results := results + [(Probes[4].name, success)];
    assert results == expected[..5];
    success := TestRequest(Probes[5].expected, responses[5]);
    results := results + [(Probes[5].name, success)];
    assert results == expected[..6];
    success := TestRequest(Probes[6].expected, responses[6]);
    results := results + [(Probes[6].name, success)];
    assert results == expected[..7];

    passed := CountPassed(results);
    total := |results|;
    status := Status(passed, total);
    GoodNeedsSixOfSeven(passed);
  }

  /**
   * The two "DEPENDS" probes pass whenever the server answers them, so a
   * suite whose every probe got a reply passes at least two.
   */
  lemma RepliesPassAtLeastTwo(responses: seq<Response>)
    requires |responses| == |Probes|
    requires forall i :: 0 <= i < |responses| ==> responses[i].Reply?
    ensures CountPassed(Verdicts(responses)) >= 2
  {
    var results := Verdicts(responses);
    assert results[2].1 && results[6].1;
    assert results[..6] == results[..3] + results[3..6];
    CountPassedAppend(results[..3], results[3..6]);
    assert results[..3][..2] == results[..2];
  }
}
