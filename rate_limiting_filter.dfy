/**
 * The per-client fixed-window rate limiter that runs in front of every request.
 * Each request is put in one of two traffic classes, its client's counter in that
 * class is bumped, and the request is forwarded down the filter chain only while
 * the bumped count is within the class's ceiling. A periodic reset wipes all counters.
 */
module RateLimiting {
  import opened Text

  /** A request whose URI contains this anywhere is an authentication request. */
  const AuthPathMarker: string := "/api/v1/auth/"

  const MaxApiRequestsPerMinute: nat := 30
  const MaxAuthRequestsPerMinute: nat := 5

  const TooManyRequests: nat := 429
  const AuthRejectMessage: string := "Too many login attempts. Please try again later."
  const ApiRejectMessage: string := "Too many API requests. Please try again later."

  datatype TrafficClass = Auth | Api

  /** The class of a request: a substring test on the URI, not a prefix test. */
  function Classify(requestPath: string): TrafficClass {
    if Contains(requestPath, AuthPathMarker) then Auth else Api
  }

  /** A request is auth-class iff the marker occurs anywhere in its URI. */
  lemma {:induction false} ClassifyIsSubstringTest(requestPath: string)
    ensures Classify(requestPath) == Auth <==> exists i: nat :: OccursAt(requestPath, AuthPathMarker, i)
  {
    ContainsIff(requestPath, AuthPathMarker);
  }

  function Ceiling(c: TrafficClass): nat {
    match c
    case Auth => MaxAuthRequestsPerMinute
    case Api => MaxApiRequestsPerMinute
  }

  function RejectMessage(c: TrafficClass): string {
    match c
    case Auth => AuthRejectMessage
    case Api => ApiRejectMessage
  }

  /** What one call of the filter does with the request: `Forward` stands for the single
      call of the downstream chain with no status set; `Reject` is a short-circuited
      response whose status and body were written by the filter itself. */
  datatype Outcome = Forward | Reject(status: nat, body: string)

  /** The verdict for a request that brought its client's count in class `c` to `n`. */
  function Verdict(c: TrafficClass, n: nat): (o: Outcome)
    ensures o == Forward <==> n <= Ceiling(c)
    ensures o != Forward ==> o.status == TooManyRequests && o.body == RejectMessage(c)
  {
    if n > Ceiling(c) then Reject(TooManyRequests, RejectMessage(c)) else Forward
  }

  /** The two counter tables, client address to count since the last reset. */
  datatype Counters = Counters(api: map<string, nat>, auth: map<string, nat>)
  {
    function Table(c: TrafficClass): map<string, nat> {
      match c
      case Auth => auth
      case Api => api
    }

    /** An absent client counts as 0. */
    function Count(c: TrafficClass, clientIp: string): nat {
      if clientIp in Table(c) then Table(c)[clientIp] else 0
    }
  }

  const NoCounters := Counters(map[], map[])

  datatype Request = Request(path: string, clientIp: string)

  /** One filter call on the tables: classify, count, decide. */
  function Step(s: Counters, r: Request): (res: (Counters, Outcome))
    ensures var c := Classify(r.path);
      && res.0.Count(c, r.clientIp) == s.Count(c, r.clientIp) + 1
      && (forall c', ip :: c' != c || ip != r.clientIp ==> res.0.Count(c', ip) == s.Count(c', ip))
      && res.1 == Verdict(c, res.0.Count(c, r.clientIp))
  {
    var c := Classify(r.path);
    var n := s.Count(c, r.clientIp) + 1;
    var s' := match c
      case Auth => s.(auth := s.auth[r.clientIp := n])
      case Api => s.(api := s.api[r.clientIp := n]);
    (s', Verdict(c, n))
  }

  /** A sequence of filter calls with no reset in between, outcomes in call order. */
  function Run(s: Counters, reqs: seq<Request>): (res: (Counters, seq<Outcome>))
    ensures |res.1| == |reqs|
  {
    if reqs == [] then (s, [])
    else
      var prev := Run(s, reqs[..|reqs| - 1]);
      var last := Step(prev.0, reqs[|reqs| - 1]);
      (last.0, prev.1 + [last.1])
  }

  /** One more call after a run is one more `Step`: this is what ties a sequence of
      `RateLimitingFilter.DoFilter` calls, each of which is one `Step`, to `Run`. */
  lemma {:induction false} RunExtends(s: Counters, reqs: seq<Request>, r: Request)
    ensures Run(s, []) == (s, [])
    ensures var prev := Run(s, reqs); var last := Step(prev.0, r);
      Run(s, reqs + [r]) == (last.0, prev.1 + [last.1])
  {
    assert (reqs + [r])[..|reqs|] == reqs;
  }

  /** How many of `reqs` come from `clientIp` in class `c`. */
  function Matching(reqs: seq<Request>, c: TrafficClass, clientIp: string): nat {
    if reqs == [] then 0
    else
      var r := reqs[|reqs| - 1];
      Matching(reqs[..|reqs| - 1], c, clientIp) + (if Classify(r.path) == c && r.clientIp == clientIp then 1 else 0)
  }

  /** Every counter has grown by the number of matching requests. */
  lemma {:induction false} RunCount(s: Counters, reqs: seq<Request>, c: TrafficClass, ip: string)
    ensures Run(s, reqs).0.Count(c, ip) == s.Count(c, ip) + Matching(reqs, c, ip)
  {
    if reqs != [] {
      RunCount(s, reqs[..|reqs| - 1], c, ip);
    }
  }

  /** The last request's verdict counts every earlier matching request. */
  lemma {:induction false} RunLastOutcome(s: Counters, reqs: seq<Request>)
    requires reqs != []
    ensures var r := reqs[|reqs| - 1]; var c := Classify(r.path);
      Run(s, reqs).1[|reqs| - 1] == Verdict(c, s.Count(c, r.clientIp) + Matching(reqs, c, r.clientIp))
  {
    var init, r := reqs[..|reqs| - 1], reqs[|reqs| - 1];
    var c := Classify(r.path);
    RunCount(s, init, c, r.clientIp);
    var prev := Run(s, init);
    assert Run(s, reqs).1 == prev.1 + [Step(prev.0, r).1];
    assert Matching(reqs, c, r.clientIp) == Matching(init, c, r.clientIp) + 1;
  }

  /** Later requests do not change earlier verdicts. */
  lemma {:induction false} RunPrefix(s: Counters, reqs: seq<Request>, j: nat)
    requires j <= |reqs|
    ensures Run(s, reqs[..j]).1 == Run(s, reqs).1[..j]
  {
    if j < |reqs| {
      var init := reqs[..|reqs| - 1];
      RunPrefix(s, init, j);
      assert init[..j] == reqs[..j];
      var prev := Run(s, init);
      assert Run(s, reqs).1 == prev.1 + [Step(prev.0, reqs[|reqs| - 1]).1];
      assert Run(s, reqs).1[..j] == prev.1[..j];
    } else {
      assert reqs[..j] == reqs;
    }
  }

  /** The i-th request's verdict is decided by its position among the requests of its own
      client and class. */
  lemma {:induction false} RunOutcome(s: Counters, reqs: seq<Request>, i: nat)
    requires i < |reqs|
    ensures var c := Classify(reqs[i].path);
      Run(s, reqs).1[i] == Verdict(c, s.Count(c, reqs[i].clientIp) + Matching(reqs[..i + 1], c, reqs[i].clientIp))
  {
    var upto := reqs[..i + 1];
    RunPrefix(s, reqs, i + 1);
    RunLastOutcome(s, upto);
    assert upto[i] == reqs[i];
    assert Run(s, reqs).1[i] == Run(s, upto).1[i];
  }

  /** Since the last reset, the k-th request of a client in a class is admitted iff k is at
      most the class's ceiling; a rejected request gets 429 and its class's message. */
  lemma {:induction false} AdmittedIffWithinCeiling(reqs: seq<Request>, i: nat)
    requires i < |reqs|
    ensures Matching(reqs[..i + 1], Classify(reqs[i].path), reqs[i].clientIp) >= 1
    ensures Run(NoCounters, reqs).1[i] == Forward
      <==> Matching(reqs[..i + 1], Classify(reqs[i].path), reqs[i].clientIp) <= Ceiling(Classify(reqs[i].path))
    ensures Run(NoCounters, reqs).1[i] != Forward
      ==> Run(NoCounters, reqs).1[i] == Reject(429, RejectMessage(Classify(reqs[i].path)))
  {
    RunOutcome(NoCounters, reqs, i);
    assert reqs[..i + 1][i] == reqs[i];
  }

  lemma {:induction false} MatchingMonotone(reqs: seq<Request>, i: nat, j: nat, c: TrafficClass, ip: string)
    requires i <= j <= |reqs|
    ensures Matching(reqs[..i], c, ip) <= Matching(reqs[..j], c, ip)
    decreases j - i
  {
    if i < j {
      MatchingMonotone(reqs, i, j - 1, c, ip);
      assert reqs[..j][..j - 1] == reqs[..j - 1];
    }
  }

  /** Once a client is rejected in a class, every later request of that client in that class
      is rejected too, until the next reset. */
  lemma {:induction false} RejectedStaysRejected(reqs: seq<Request>, i: nat, j: nat)
    requires i < j < |reqs|
    requires reqs[j].clientIp == reqs[i].clientIp && Classify(reqs[j].path) == Classify(reqs[i].path)
    requires Run(NoCounters, reqs).1[i] != Forward
    ensures Run(NoCounters, reqs).1[j] != Forward
  {
    AdmittedIffWithinCeiling(reqs, i);
    AdmittedIffWithinCeiling(reqs, j);
    MatchingMonotone(reqs, i + 1, j + 1, Classify(reqs[i].path), reqs[i].clientIp);
  }

  /** The first k of n copies of one request are k requests of its client and class. */
  lemma {:induction false} MatchingRepeated(r: Request, n: nat, k: nat)
    requires k <= n
    ensures Matching(seq(n, _ => r)[..k], Classify(r.path), r.clientIp) == k
  {
    if k > 0 {
      var reqs := seq(n, _ => r);
      MatchingRepeated(r, n, k - 1);
      assert reqs[..k][..k - 1] == reqs[..k - 1];
    }
  }

  /** One client repeating one request n times after a reset: exactly the first ceiling
      calls are forwarded, every later one is rejected. */
  lemma {:induction false} RepeatedRequest(r: Request, n: nat, i: nat)
    requires i < n
    ensures Run(NoCounters, seq(n, _ => r)).1[i] == Forward <==> i < Ceiling(Classify(r.path))
  {
    var reqs := seq(n, _ => r);
    AdmittedIffWithinCeiling(reqs, i);
    MatchingRepeated(r, n, i + 1);
  }

  /** The login endpoint is in the authentication class. */
  lemma {:induction false} ClassifyLogin()
    ensures Classify("/api/v1/auth/login") == Auth
  {
    var s := "/api/v1/auth/login";
    assert s[..|AuthPathMarker|] == AuthPathMarker;
  }

  /** Without its trailing slash the marker does not match: "/api/v1/auth" is general. */
  lemma {:induction false} ClassifyNoTrailingSlash()
    ensures Classify("/api/v1/auth") == Api
  {
  }

  /** The employee endpoint is in the general class. */
  lemma {:induction false} ClassifyEmployee()
    ensures Classify("/api/v1/employee") == Api
  {
    var s, t := "/api/v1/employee", AuthPathMarker;
    assert s[..|t|] != t by { assert s[8] != t[8]; }
    assert s[1..][..|t|] != t by { assert s[1] != t[0]; }
    assert s[2..][..|t|] != t by { assert s[2] != t[0]; }
    assert s[3..][..|t|] != t by { assert s[3] != t[0]; }
    assert Contains(s[4..], t) == false;
    assert Contains(s[3..], t) == Contains(s[4..], t) by { assert s[3..][1..] == s[4..]; }
    assert Contains(s[2..], t) == Contains(s[3..], t) by { assert s[2..][1..] == s[3..]; }
    assert Contains(s[1..], t) == Contains(s[2..], t) by { assert s[1..][1..] == s[2..]; }
  }

  /** The marker may stand anywhere in the URI, not only at its start. */
  lemma {:induction false} ClassifyEmbeddedMarker()
    ensures Classify("/static/api/v1/auth/x") == Auth
  {
    var s := "/static/api/v1/auth/x";
    assert OccursAt(s, AuthPathMarker, 7);
    ClassifyIsSubstringTest(s);
  }

  /** Client 10.0.0.1 sends six login requests in one window: five pass, the sixth gets a 429. */
  lemma {:induction false} LoginBurst()
    ensures var reqs := seq(6, _ => Request("/api/v1/auth/login", "10.0.0.1"));
      && (forall i :: 0 <= i < 5 ==> Run(NoCounters, reqs).1[i] == Forward)
      && Run(NoCounters, reqs).1[5] == Reject(429, "Too many login attempts. Please try again later.")
  {
    var r := Request("/api/v1/auth/login", "10.0.0.1");
    ClassifyLogin();
    var outs := Run(NoCounters, seq(6, _ => r)).1;
    forall i | 0 <= i < 6 ensures outs[i] == Forward <==> i < 5 {
      RepeatedRequest(r, 6, i);
    }
    AdmittedIffWithinCeiling(seq(6, _ => r), 5);
  }

  /** Client 10.0.0.2 sends 31 employee requests in one window: 30 pass, the 31st gets a 429. */
  lemma {:induction false} ApiBurst()
    ensures var reqs := seq(31, _ => Request("/api/v1/employee", "10.0.0.2"));
      && (forall i :: 0 <= i < 30 ==> Run(NoCounters, reqs).1[i] == Forward)
      && Run(NoCounters, reqs).1[30] == Reject(429, "Too many API requests. Please try again later.")
  {
    var r := Request("/api/v1/employee", "10.0.0.2");
    ClassifyEmployee();
    var outs := Run(NoCounters, seq(31, _ => r)).1;
    forall i | 0 <= i < 31 ensures outs[i] == Forward <==> i < 30 {
      RepeatedRequest(r, 31, i);
    }
    AdmittedIffWithinCeiling(seq(31, _ => r), 30);
  }

  /** After a reset, any client's next request in either class has count 1 and is admitted. */
  lemma {:induction false} ResetReadmits(r: Request)
    ensures Step(NoCounters, r).0.Count(Classify(r.path), r.clientIp) == 1
    ensures Step(NoCounters, r).1 == Forward
  {
  }

  /** The filter object: the two tables are fields that each call updates in place. */
  class RateLimitingFilter {
    var apiRequestCounts: map<string, nat>
    var authRequestCounts: map<string, nat>

    function Counts(): Counters
      reads this
    {
      Counters(apiRequestCounts, authRequestCounts)
    }

    constructor ()
      ensures Counts() == NoCounters
    {
      apiRequestCounts := map[];
      authRequestCounts := map[];
    }

    /** `doFilter` for a request with URI `requestPath` from address `clientIp`. */
    method DoFilter(requestPath: string, clientIp: string) returns (outcome: Outcome)
      modifies this
      ensures (Counts(), outcome) == Step(old(Counts()), Request(requestPath, clientIp))
      ensures Classify(requestPath) == Auth ==>
        && authRequestCounts == old(authRequestCounts)[clientIp := old(Counts()).Count(Auth, clientIp) + 1]
        && apiRequestCounts == old(apiRequestCounts)
      ensures Classify(requestPath) == Api ==>
        && apiRequestCounts == old(apiRequestCounts)[clientIp := old(Counts()).Count(Api, clientIp) + 1]
        && authRequestCounts == old(authRequestCounts)
      ensures var c := Classify(requestPath);
        outcome == Forward <==> old(Counts()).Count(c, clientIp) + 1 <= Ceiling(c)
    {
      var isAuthRequest := Contains(requestPath, AuthPathMarker);
      var requestCounts := if isAuthRequest then authRequestCounts else apiRequestCounts;
      var maxRequests := if isAuthRequest then MaxAuthRequestsPerMinute else MaxApiRequestsPerMinute;
      if clientIp !in requestCounts {
        requestCounts := requestCounts[clientIp := 0];
      }
      var requests := requestCounts[clientIp] + 1;
      requestCounts := requestCounts[clientIp := requests];
      if isAuthRequest {
        authRequestCounts := requestCounts;
      } else {
        apiRequestCounts := requestCounts;
      }
      if requests > maxRequests {
        var message := if isAuthRequest then AuthRejectMessage else ApiRejectMessage;
        outcome := Reject(TooManyRequests, message);
        assert Counts() == Step(old(Counts()), Request(requestPath, clientIp)).0;
        return;
      }
      outcome := Forward;
      assert Counts() == Step(old(Counts()), Request(requestPath, clientIp)).0;
    }

    /** `resetRequestCounts`: the scheduled wipe of both tables. */
    method ResetRequestCounts()
      modifies this
      ensures apiRequestCounts == map[] && authRequestCounts == map[]
      ensures Counts() == NoCounters
    {
      apiRequestCounts := map[];
      authRequestCounts := map[];
    }
  }

  /** The requests `reqs` reaching the filter `f` one after another with no reset in between,
      each through one `DoFilter` call: the tables and outcomes follow `Run`. */
  method DoFilterAll(f: RateLimitingFilter, reqs: seq<Request>) returns (outcomes: seq<Outcome>)
    modifies f
    ensures (f.Counts(), outcomes) == Run(old(f.Counts()), reqs)
  {
    outcomes := [];
    var i := 0;
    while i < |reqs|
      invariant 0 <= i <= |reqs|
      invariant (f.Counts(), outcomes) == Run(old(f.Counts()), reqs[..i])
    {
      RunExtends(old(f.Counts()), reqs[..i], reqs[i]);
      assert reqs[..i + 1] == reqs[..i] + [reqs[i]];
      var outcome := f.DoFilter(reqs[i].path, reqs[i].clientIp);
      outcomes := outcomes + [outcome];
      i := i + 1;
    }
    assert reqs[..i] == reqs;
  }

}
