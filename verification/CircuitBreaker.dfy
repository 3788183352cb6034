/** The circuit breaker that gates restarts of a local model process. */
module CircuitBreaker {
  import opened Wrappers
  import opened BoundedDeque

  datatype Config = Config(
    failureThreshold: int, successThreshold: int, baseBackoff: real, maxBackoff: real, maxCrashLoops: int,
    historyMax: int)

  datatype Gate = Closed | Open | HalfOpen

  datatype Breaker = Breaker(
    gate: Gate, failures: nat, successes: nat, crashLoops: nat, openedAt: Option<real>, nextAttemptAt: Option<real>,
    lastError: Option<string>, history: seq<string>)

  const Initial := Breaker(Closed, 0, 0, 0, None, None, None, [])

  const MAX_DETAIL := 500

  /** What `str.strip` removes. */
  predicate IsSpace(c: char) {
    var n := c as int;
    || 9 <= n <= 13 || 28 <= n <= 32 || n == 133 || n == 160 || n == 5760 || 8192 <= n <= 8202
    || n == 8232 || n == 8233 || n == 8239 || n == 8287 || n == 12288
  }

  function Strip(s: string): (r: string)
    ensures |r| <= |s| && (r != "" ==> !IsSpace(r[0]) && !IsSpace(r[|r| - 1]))
    decreases |s|
  {
    if s == "" then s
    else if IsSpace(s[0]) then Strip(s[1..])
    else if IsSpace(s[|s| - 1]) then Strip(s[..|s| - 1])
    else s
  }

  /** An error as it is recorded: stripped, cut to 500 characters, never empty. */
  function Detail(error: string): (d: string)
    ensures 0 < |d| <= MAX_DETAIL
  {
    var text := Strip(error);
    if text == "" then "unknown failure" else if |text| <= MAX_DETAIL then text else text[..MAX_DETAIL]
  }

  function MaxInt(a: int, b: int): int { if a < b then b else a }

  function MinReal(a: real, b: real): real { if a < b then a else b }

  function Doubled(x: real, n: nat): real { if n == 0 then x else 2.0 * Doubled(x, n - 1) }

  /** `_compute_backoff` after `failures` consecutive failures. */
  function Backoff(c: Config, failures: nat): real {
    MinReal(c.maxBackoff, Doubled(c.baseBackoff, MaxInt(0, failures - c.failureThreshold)))
  }

  function RecordSuccess(c: Config, b: Breaker): Breaker {
    var n := b.(failures := 0, successes := b.successes + 1, lastError := None);
    if b.gate.HalfOpen? && n.successes >= c.successThreshold
    then n.(gate := Closed, openedAt := None, nextAttemptAt := None, crashLoops := 0)
    else n
  }

  /** The failure to record opens the breaker, anew if it is open already. */
  predicate Opens(c: Config, b: Breaker) { b.failures + 1 >= c.failureThreshold || b.gate.HalfOpen? }

  function RecordFailure(c: Config, b: Breaker, error: string, now: real): (Breaker, real) {
    var detail := Detail(error);
    var n := b.(successes := 0, failures := b.failures + 1, lastError := Some(detail),
                history := Last(b.history + [detail], MaxInt(1, c.historyMax)));
    var backoff := Backoff(c, n.failures);
    if n.failures >= c.failureThreshold then
      (n.(gate := Open, openedAt := Some(now), crashLoops := b.crashLoops + 1, nextAttemptAt := Some(now + backoff)),
       backoff)
    else if b.gate.HalfOpen? then (n.(gate := Open, nextAttemptAt := Some(now + backoff)), backoff)
    else (n, 0.0)
  }

  function AllowAttempt(c: Config, b: Breaker, now: real): (Breaker, bool) {
    if b.crashLoops >= c.maxCrashLoops then (b, false)
    else if b.gate.Closed? || b.gate.HalfOpen? then (b, true)
    else if b.nextAttemptAt.Some? && now >= b.nextAttemptAt.value then (b.(gate := HalfOpen, successes := 0), true)
    else (b, false)
  }

  datatype Call = Succeed(at: real) | Fail(error: string, at: real) | Attempt(at: real)

  function Step(c: Config, b: Breaker, call: Call): Breaker {
    match call
    case Succeed(_) => RecordSuccess(c, b)
    case Fail(error, at) => RecordFailure(c, b, error, at).0
    case Attempt(at) => AllowAttempt(c, b, at).0
  }

  function Run(c: Config, b: Breaker, calls: seq<Call>): Breaker
    decreases |calls|
  {
    if calls == [] then b else Run(c, Step(c, b, calls[0]), calls[1..])
  }

  // ------------------------------------------------------------ over all runs

  /** Closed means no crash loops; at the crash limit the breaker is open; only a closed one has no times set. */
  ghost predicate Inv(c: Config, b: Breaker) {
    && (b.gate.Closed? ==> b.crashLoops == 0)
    && (b.gate.Closed? <==> b.openedAt.None?) && (b.gate.Closed? <==> b.nextAttemptAt.None?)
    && (c.maxCrashLoops >= 1 && b.crashLoops >= c.maxCrashLoops ==> b.gate.Open?)
  }

  lemma {:induction false} RunKeeps(c: Config, b: Breaker, calls: seq<Call>)
    requires Inv(c, b)
    ensures Inv(c, Run(c, b, calls))
    decreases |calls|
  {
    if calls != [] {
      hide Backoff, Last, Detail;
      RunKeeps(c, Step(c, b, calls[0]), calls[1..]);
    }
  }

  /** The crash limit is final: no sequence of calls lowers it again or has an attempt admitted. */
  lemma {:induction false} CrashLimitIsFinal(c: Config, b: Breaker, calls: seq<Call>, now: real)
    requires b.crashLoops >= c.maxCrashLoops && !b.gate.HalfOpen?
    ensures Run(c, b, calls).crashLoops >= c.maxCrashLoops && !Run(c, b, calls).gate.HalfOpen?
    ensures !AllowAttempt(c, Run(c, b, calls), now).1
    decreases |calls|
  {
    if calls != [] {
      hide Backoff, Last, Detail;
      CrashLimitIsFinal(c, Step(c, b, calls[0]), calls[1..], now);
    }
  }

  /** Over every run from the initial state: closed means no crash loops, and once their number reaches the limit the
      breaker is open and never admits again. */
  lemma BreakerIsSafe(c: Config, calls: seq<Call>, more: seq<Call>, now: real)
    requires c.maxCrashLoops >= 1
    ensures var b := Run(c, Initial, calls);
            && (b.gate.Closed? ==> b.crashLoops == 0) && (b.gate.Closed? <==> b.openedAt.None? && b.nextAttemptAt.None?)
            && (b.crashLoops >= c.maxCrashLoops ==>
                  && b.gate.Open? && !AllowAttempt(c, Run(c, b, more), now).1
                  && Run(c, b, more).crashLoops >= c.maxCrashLoops)
  {
    RunKeeps(c, Initial, calls);
    var b := Run(c, Initial, calls);
    if b.crashLoops >= c.maxCrashLoops {
      CrashLimitIsFinal(c, b, more, now);
    }
  }

  lemma StepKeepsErrors(c: Config, b: Breaker, call: Call, before: seq<string>)
    requires b.history == Last(before, MaxInt(1, c.historyMax))
    ensures Step(c, b, call).history
            == Last(before + if call.Fail? then [Detail(call.error)] else [], MaxInt(1, c.historyMax))
  {
    hide Backoff, Detail;
    if call.Fail? {
      var detail, limit := Detail(call.error), MaxInt(1, c.historyMax);
      PushIsLast(before, detail, limit);
      assert Last(b.history + [detail], limit) == Push(b.history, detail, limit);
      hide Last, Push;
    } else {
      assert before + [] == before;
    }
  }

  lemma {:induction false} ErrorsKept(c: Config, b: Breaker, calls: seq<Call>, before: seq<string>)
    requires b.history == Last(before, MaxInt(1, c.historyMax))
    ensures Run(c, b, calls).history == Last(before + Errors(calls), MaxInt(1, c.historyMax))
    decreases |calls|
  {
    if calls == [] {
      assert before + Errors(calls) == before;
    } else {
      hide Last, Detail, Step;
      var call := calls[0];
      var after := before + if call.Fail? then [Detail(call.error)] else [];
      assert before + Errors(calls) == after + Errors(calls[1..]);
      StepKeepsErrors(c, b, call, before);
      ErrorsKept(c, Step(c, b, call), calls[1..], after);
    }
  }

  function Errors(calls: seq<Call>): seq<string> {
    if calls == [] then [] else (if calls[0].Fail? then [Detail(calls[0].error)] else []) + Errors(calls[1..])
  }

  /** The bounded history is the latest errors of the whole run. */
  lemma HistoryIsLatestErrors(c: Config, calls: seq<Call>)
    ensures Run(c, Initial, calls).history == Last(Errors(calls), MaxInt(1, c.historyMax))
  {
    ErrorsKept(c, Initial, calls, []);
    assert [] + Errors(calls) == Errors(calls);
  }

  // ---------------------------------------------------------------- backoff

  lemma {:induction false} DoubledGrows(x: real, m: nat, n: nat)
    requires m <= n
    ensures x >= 0.0 ==> 0.0 <= Doubled(x, m) <= Doubled(x, n)
    ensures x < 0.0 ==> Doubled(x, n) <= Doubled(x, m) <= x
    decreases m + n
  {
    if m > 0 {
      DoubledGrows(x, m - 1, n - 1);
    } else if n > 0 {
      DoubledGrows(x, 0, n - 1);
    }
  }

  /** After `k` doublings a negative delay has fallen to at most `k + 1` times itself. */
  lemma {:induction false} FallsAtLeast(x: real, k: nat)
    requires x < 0.0
    ensures Doubled(x, k) <= (k + 1) as real * x
  {
    if k > 0 {
      FallsAtLeast(x, k - 1);
      DoubledGrows(x, 0, k - 1);
    }
  }

  lemma FallsBelow(x: real, bound: real) returns (n: nat)
    requires x < 0.0
    ensures Doubled(x, n) < bound
  {
    n := 0;
    if bound <= x {
      var q := bound / x;
      assert q * x == bound && q >= 1.0;
      n := q.Floor + 1;
      FallsAtLeast(x, n);
      var r := (n + 1) as real;
      assert r > q;
      assert (r - q) * x < 0.0;
      assert r * x == q * x + (r - q) * x;
    }
  }

  /** Waiting times never shrink as failures accumulate exactly when the base delay is not negative; the cap always
      holds. */
  lemma BackoffGrowsIff(c: Config)
    ensures (forall f: nat, g: nat :: f <= g ==> Backoff(c, f) <= Backoff(c, g)) <==> c.baseBackoff >= 0.0
    ensures forall f: nat :: Backoff(c, f) <= c.maxBackoff
  {
    if c.baseBackoff >= 0.0 {
      forall f: nat, g: nat | f <= g
        ensures Backoff(c, f) <= Backoff(c, g)
      {
        BackoffGrows(c, f, g);
      }
    } else {
      var n := FallsBelow(c.baseBackoff, c.maxBackoff);
      var f := MaxInt(0, c.failureThreshold + n);
      var k := f - c.failureThreshold;
      DoubledGrows(c.baseBackoff, n, k);
      DoubledGrows(c.baseBackoff, 0, k);
      assert Backoff(c, f + 1) < Backoff(c, f);
    }
  }

  lemma BackoffGrows(c: Config, f: nat, g: nat)
    requires c.baseBackoff >= 0.0 && f <= g
    ensures Backoff(c, f) <= Backoff(c, g)
  {
    DoubledGrows(c.baseBackoff, MaxInt(0, f - c.failureThreshold), MaxInt(0, g - c.failureThreshold));
  }

  /** Failures that follow each other and each open the breaker wait no less each time. */
  lemma ConsecutiveFailuresWaitLonger(c: Config, b: Breaker, e1: string, at1: real, e2: string, at2: real)
    requires c.baseBackoff >= 0.0 && Opens(c, b) && Opens(c, RecordFailure(c, b, e1, at1).0)
    ensures var (n, first) := RecordFailure(c, b, e1, at1);
            var second := RecordFailure(c, n, e2, at2).1;
            first <= second <= c.maxBackoff
  {
    BackoffGrows(c, b.failures + 1, b.failures + 2);
  }

  // --------------------------------------------------------------- the gate

  /** The clock does not run backwards, from `start` on and not past `end`. */
  predicate Timed(calls: seq<Call>, start: real, end: real) {
    && (forall i :: 0 <= i < |calls| ==> start <= calls[i].at <= end)
    && forall i, j :: 0 <= i < j < |calls| ==> calls[i].at <= calls[j].at
  }

  /** The least wait an opening failure can set once the failure count was reset. */
  function LeastBackoff(c: Config): real { Backoff(c, MaxInt(1, c.failureThreshold)) }

  /** The breaker is still open, behind the gate it had or behind a later, counted one. */
  ghost predicate Held(c: Config, b: Breaker, crashLoops: nat, gate: real, start: real) {
    && b.gate.Open? && b.nextAttemptAt.Some?
    && (|| (b.crashLoops == crashLoops && b.nextAttemptAt.value == gate)
        || (b.crashLoops >= crashLoops + 1 && b.nextAttemptAt.value >= start + LeastBackoff(c)))
  }

  /** Someone is admitted too early only if a further crash loop is allowed and the least wait ends sooner. */
  predicate Overtakable(c: Config, crashLoops: nat, gate: real, start: real) {
    crashLoops + 1 < c.maxCrashLoops && start + LeastBackoff(c) < gate
  }

  lemma StepHeld(c: Config, b: Breaker, call: Call, crashLoops: nat, gate: real, start: real)
    requires Held(c, b, crashLoops, gate, start) && c.baseBackoff >= 0.0
    requires start <= call.at < gate && !Overtakable(c, crashLoops, gate, start)
    ensures Held(c, Step(c, b, call), crashLoops, gate, start)
    ensures !AllowAttempt(c, b, call.at).1
  {
    if call.Fail? && b.failures + 1 >= c.failureThreshold {
      BackoffGrows(c, MaxInt(1, c.failureThreshold), b.failures + 1);
    }
  }

  lemma {:induction false} RunHeld(c: Config, b: Breaker, calls: seq<Call>, crashLoops: nat, gate: real, start: real,
                                   now: real)
    requires Held(c, b, crashLoops, gate, start) && c.baseBackoff >= 0.0
    requires Timed(calls, start, now) && start <= now < gate && !Overtakable(c, crashLoops, gate, start)
    ensures Held(c, Run(c, b, calls), crashLoops, gate, start)
    ensures !AllowAttempt(c, Run(c, b, calls), now).1
    decreases |calls|
  {
    StepHeld(c, b, if calls == [] then Attempt(now) else calls[0], crashLoops, gate, start);
    if calls != [] {
      hide Step, Held;
      RunHeld(c, Step(c, b, calls[0]), calls[1..], crashLoops, gate, start, now);
    }
  }

  /** `n` failures at one time. */
  function Failures(n: nat, at: real): seq<Call> { if n == 0 then [] else [Fail("", at)] + Failures(n - 1, at) }

  lemma {:induction false} FailuresTimed(n: nat, at: real)
    ensures forall call :: call in Failures(n, at) ==> call.at == at
  {
    if n > 0 {
      FailuresTimed(n - 1, at);
    }
  }

  /** From an open breaker with `f` failures, the failures that are missing to the threshold open it anew. */
  lemma {:induction false} FailuresReopen(c: Config, b: Breaker, n: nat, at: real)
    requires b.gate.Open? && n >= 1 && b.failures + n == MaxInt(1, c.failureThreshold)
    ensures var r := Run(c, b, Failures(n, at));
            r.gate.Open? && r.crashLoops == b.crashLoops + 1 && r.nextAttemptAt == Some(at + LeastBackoff(c))
    decreases n
  {
    var calls := Failures(n, at);
    assert calls[0] == Fail("", at) && calls[1..] == Failures(n - 1, at);
    hide Backoff, Last, Detail;
    var next := RecordFailure(c, b, "", at).0;
    if n > 1 {
      FailuresReopen(c, next, n - 1, at);
    } else {
      assert Failures(0, at) == [];
      assert Run(c, next, []) == next;
    }
  }

  /** A success recorded while the breaker is open resets the count, so that it soon opens anew with the least wait. */
  lemma Overtaken(c: Config, b: Breaker, start: real) returns (calls: seq<Call>)
    requires b.gate.Open?
    ensures forall call :: call in calls ==> call.at == start
    ensures var r := Run(c, b, calls);
            r.gate.Open? && r.crashLoops == b.crashLoops + 1 && r.nextAttemptAt == Some(start + LeastBackoff(c))
  {
    var n := MaxInt(1, c.failureThreshold);
    FailuresTimed(n, start);
    calls := [Succeed(start)] + Failures(n, start);
    assert calls[1..] == Failures(n, start);
    FailuresReopen(c, RecordSuccess(c, b), n, start);
  }

  /** After a failure that opens the breaker at `start` with its gate at `gate`, some run has an attempt admitted
      before that gate exactly when one more crash loop is allowed and the least wait ends before it. */
  lemma AdmittedBeforeGateIff(c: Config, before: Breaker, error: string, start: real)
    requires Opens(c, before)
    ensures var b := RecordFailure(c, before, error, start).0;
            && b.gate.Open? && b.nextAttemptAt.Some?
            && var gate := b.nextAttemptAt.value;
               (exists calls, now :: start <= now < gate && Timed(calls, start, now)
                                     && AllowAttempt(c, Run(c, b, calls), now).1)
               <==> start < gate && Overtakable(c, b.crashLoops, gate, start)
  {
    var b := RecordFailure(c, before, error, start).0;
    var gate := b.nextAttemptAt.value;
    if start < gate && Overtakable(c, b.crashLoops, gate, start) {
      var calls := Overtaken(c, b, start);
      var now := if LeastBackoff(c) <= 0.0 then start else start + LeastBackoff(c);
      assert Timed(calls, start, now);
      assert AllowAttempt(c, Run(c, b, calls), now).1;
    } else {
      forall calls, now | start <= now < gate && Timed(calls, start, now)
        ensures !AllowAttempt(c, Run(c, b, calls), now).1
      {
        if c.baseBackoff < 0.0 {
          DoubledGrows(c.baseBackoff, 0, MaxInt(0, b.failures - c.failureThreshold));
          assert false;
        }
        RunHeld(c, b, calls, b.crashLoops, gate, start, now);
      }
    }
  }

  const DEFAULTS := Config(3, 1, 2.0, 120.0, 5, 32)

  /** With the default settings: four failures at time 0 set the gate at 4, and an attempt can still be admitted
      before that. */
  lemma DefaultGateIsOvertaken()
    ensures var b := Run(DEFAULTS, Initial, Failures(4, 0.0));
            && b.nextAttemptAt == Some(4.0)
            && exists calls, now :: 0.0 <= now < 4.0 && Timed(calls, 0.0, now)
                 && AllowAttempt(DEFAULTS, Run(DEFAULTS, b, calls), now).1
  {
    var f1 := RecordFailure(DEFAULTS, Initial, "", 0.0).0;
    var f2 := RecordFailure(DEFAULTS, f1, "", 0.0).0;
    var f3 := RecordFailure(DEFAULTS, f2, "", 0.0).0;
    var f4 := RecordFailure(DEFAULTS, f3, "", 0.0).0;
    assert Doubled(2.0, 1) == 4.0;
    assert f4.nextAttemptAt == Some(4.0) && f4.crashLoops == 2;
    AdmittedBeforeGateIff(DEFAULTS, f3, "", 0.0);
    hide Backoff, Last, Timed, Detail;
    FailuresStep(f3, 0);
    FailuresStep(f2, 1);
    FailuresStep(f1, 2);
    FailuresStep(Initial, 3);
    assert Run(DEFAULTS, f4, Failures(0, 0.0)) == f4;
  }

  lemma FailuresStep(b: Breaker, n: nat)
    ensures Run(DEFAULTS, b, Failures(n + 1, 0.0))
            == Run(DEFAULTS, RecordFailure(DEFAULTS, b, "", 0.0).0, Failures(n, 0.0))
  {
    assert Failures(n + 1, 0.0)[1..] == Failures(n, 0.0);
  }

  /** While no success is recorded the gate holds: nothing is admitted before it. */
  lemma {:induction false} GateHoldsWithoutSuccess(c: Config, b: Breaker, calls: seq<Call>, start: real, now: real)
    requires c.baseBackoff >= 0.0 && b.gate.Open? && b.nextAttemptAt == Some(start + Backoff(c, b.failures))
    requires start <= now && Timed(calls, start, now) && now < start + Backoff(c, b.failures)
    requires forall i :: 0 <= i < |calls| ==> !calls[i].Succeed?
    ensures !AllowAttempt(c, Run(c, b, calls), now).1
    decreases |calls|
  {
    if calls != [] {
      var call := calls[0];
      var n := Step(c, b, call);
      if call.Fail? {
        BackoffGrows(c, b.failures, b.failures + 1);
        if b.failures + 1 >= c.failureThreshold {
          GateHoldsWithoutSuccess(c, n, calls[1..], call.at, now);
        } else {
          assert Backoff(c, b.failures) == Backoff(c, b.failures + 1);
          GateHoldsWithoutSuccess(c, n, calls[1..], start, now);
        }
      } else {
        GateHoldsWithoutSuccess(c, n, calls[1..], start, now);
      }
    }
  }

  // ------------------------------------------------------- opening and closing

  predicate AllSucceed(calls: seq<Call>) { forall i :: 0 <= i < |calls| ==> calls[i].Succeed? }

  predicate AllFail(calls: seq<Call>) { forall i :: 0 <= i < |calls| ==> calls[i].Fail? }

  lemma {:induction false} SuccessesLeave(c: Config, b: Breaker, calls: seq<Call>)
    requires AllSucceed(calls) && !b.gate.HalfOpen?
    ensures Run(c, b, calls).gate == b.gate && Run(c, b, calls).crashLoops == b.crashLoops
    ensures calls != [] ==> Run(c, b, calls).failures == 0
    decreases |calls|
  {
    if calls != [] {
      SuccessesLeave(c, Step(c, b, calls[0]), calls[1..]);
    }
  }

  /** A breaker on trial closes at exactly the success that reaches the threshold, and forgets its crash loops. */
  lemma {:induction false} TrialClosesIff(c: Config, b: Breaker, calls: seq<Call>)
    requires AllSucceed(calls) && b.gate.HalfOpen?
    ensures var n := Run(c, b, calls);
            && (n.gate.Closed? <==> calls != [] && b.successes + |calls| >= c.successThreshold)
            && (!n.gate.Closed? ==> n.gate.HalfOpen? && n.crashLoops == b.crashLoops)
            && (n.gate.Closed? ==> n.crashLoops == 0 && n.failures == 0)
    decreases |calls|
  {
    if calls != [] {
      var n := Step(c, b, calls[0]);
      if n.gate.HalfOpen? {
        TrialClosesIff(c, n, calls[1..]);
      } else {
        SuccessesLeave(c, n, calls[1..]);
      }
    }
  }

  /** An open breaker admits an attempt exactly when its time has come and crash loops remain. That starts a trial,
      after which enough successes in a row close it. */
  lemma ReopensIff(c: Config, b: Breaker, at: real, calls: seq<Call>)
    requires b.gate.Open? && AllSucceed(calls)
    ensures var (n, admitted) := AllowAttempt(c, b, at);
            && (admitted <==>
                  b.crashLoops < c.maxCrashLoops && b.nextAttemptAt.Some? && b.nextAttemptAt.value <= at)
            && (admitted ==>
                  && n == b.(gate := HalfOpen, successes := 0)
                  && (Run(c, n, calls).gate.Closed? <==> calls != [] && |calls| >= c.successThreshold))
            && (!admitted ==> n == b)
  {
    var (n, admitted) := AllowAttempt(c, b, at);
    if admitted {
      TrialClosesIff(c, n, calls);
    }
  }

  /** A closed breaker opens at exactly the failure in a row that reaches the threshold, and every further one counts
      another crash loop. */
  lemma {:induction false} FailuresOpenIff(c: Config, b: Breaker, calls: seq<Call>)
    requires AllFail(calls) && calls != []
    requires b.gate.Closed? || (b.gate.Open? && b.failures >= c.failureThreshold)
    ensures var n := Run(c, b, calls);
            && n.failures == b.failures + |calls| && n.successes == 0
            && (n.gate.Open? <==> b.failures + |calls| >= c.failureThreshold) && !n.gate.HalfOpen?
            && n.crashLoops == b.crashLoops
                               + MaxInt(0, n.failures - MaxInt(b.failures, c.failureThreshold - 1))
            && (n.gate.Open? ==>
                  && n.openedAt == Some(calls[|calls| - 1].at)
                  && n.nextAttemptAt == Some(calls[|calls| - 1].at + Backoff(c, n.failures)))
    decreases |calls|
  {
    hide Backoff, Last, Detail;
    var n := Step(c, b, calls[0]);
    if |calls| > 1 {
      FailuresOpenIff(c, n, calls[1..]);
    } else {
      assert Run(c, n, calls[1..]) == n;
    }
  }

  /** A failure on trial opens the breaker again, whatever the threshold, and waits anew. */
  lemma TrialFails(c: Config, b: Breaker, error: string, at: real)
    requires b.gate.HalfOpen?
    ensures var (n, wait) := RecordFailure(c, b, error, at);
            && n.gate.Open? && n.failures == b.failures + 1 && n.successes == 0 && wait == Backoff(c, n.failures)
            && n.nextAttemptAt == Some(at + wait)
            && n.crashLoops == b.crashLoops + (if n.failures >= c.failureThreshold then 1 else 0)
  {
    hide Backoff, Last, Detail;
  }

  /** The wait is the base delay up to the threshold and doubles with each failure beyond it, within the cap. */
  lemma BackoffDoubles(c: Config, failures: nat)
    ensures failures <= c.failureThreshold ==> Backoff(c, failures) == MinReal(c.maxBackoff, c.baseBackoff)
    ensures failures >= c.failureThreshold && Backoff(c, failures) < c.maxBackoff ==>
              Backoff(c, failures + 1) == MinReal(c.maxBackoff, 2.0 * Backoff(c, failures))
  {
    var n := MaxInt(0, failures - c.failureThreshold);
    assert Doubled(c.baseBackoff, n + 1) == 2.0 * Doubled(c.baseBackoff, n);
  }

  predicate Blank(s: string) { forall i :: 0 <= i < |s| ==> IsSpace(s[i]) }

  lemma BlankPrepend(c: char, s: string)
    requires Blank(s) && IsSpace(c)
    ensures Blank([c] + s)
  {
    hide IsSpace;
  }

  lemma BlankAppend(s: string, c: char)
    requires Blank(s) && IsSpace(c)
    ensures Blank(s + [c])
  {
    hide IsSpace;
  }

  lemma TailSlices(s: string, i: nat, j: nat)
    requires s != "" && i <= j <= |s| - 1
    ensures s[..i + 1] == [s[0]] + s[1..][..i] && s[i + 1..j + 1] == s[1..][i..j] && s[j + 1..] == s[1..][j..]
  {
    var t := s[1..];
    assert s == [s[0]] + t;
    assert forall k :: 0 <= k < |t| ==> t[k] == s[k + 1];
    assert s[j + 1..] == t[j..];
    assert s[i + 1..j + 1] == t[i..j];
  }

  lemma FrontSlices(s: string, i: nat, j: nat)
    requires s != "" && i <= j <= |s| - 1
    ensures s[..i] == s[..|s| - 1][..i] && s[i..j] == s[..|s| - 1][i..j]
    ensures s[j..] == s[..|s| - 1][j..] + [s[|s| - 1]]
  {
  }

  lemma BlankFront(s: string, i: nat, j: nat)
    requires s != "" && IsSpace(s[0]) && i <= j <= |s| - 1 && Blank(s[1..][..i]) && Blank(s[1..][j..])
    ensures s[i + 1..j + 1] == s[1..][i..j] && Blank(s[..i + 1]) && Blank(s[j + 1..])
  {
    hide IsSpace, Blank;
    TailSlices(s, i, j);
    BlankPrepend(s[0], s[1..][..i]);
  }

  lemma BlankBack(s: string, i: nat, j: nat)
    requires s != "" && IsSpace(s[|s| - 1]) && i <= j <= |s| - 1
    requires Blank(s[..|s| - 1][..i]) && Blank(s[..|s| - 1][j..])
    ensures s[i..j] == s[..|s| - 1][i..j] && Blank(s[..i]) && Blank(s[j..])
  {
    hide IsSpace, Blank;
    FrontSlices(s, i, j);
    BlankAppend(s[..|s| - 1][j..], s[|s| - 1]);
  }

  /** Stripping removes exactly the blanks at both ends. */
  lemma {:induction false} StripTrims(s: string) returns (i: nat, j: nat)
    ensures i <= j <= |s| && Strip(s) == s[i..j] && Blank(s[..i]) && Blank(s[j..])
    decreases |s|
  {
    hide IsSpace, Blank;
    i, j := 0, |s|;
    if s != "" && IsSpace(s[0]) {
      var a, b := StripTrims(s[1..]);
      BlankFront(s, a, b);
      i, j := a + 1, b + 1;
    } else if s != "" && IsSpace(s[|s| - 1]) {
      i, j := StripTrims(s[..|s| - 1]);
      BlankBack(s, i, j);
    } else {
      assert s[0..|s|] == s && s[..0] == "" && s[|s|..] == "";
      NothingIsBlank();
    }
  }

  lemma NothingIsBlank()
    ensures Blank("")
  {
  }

  /** A recorded error is the first 500 characters of what stripping leaves, and a blank one is named as unknown. */
  lemma DetailIs(error: string) returns (i: nat, j: nat)
    ensures i <= j <= |error| && Blank(error[..i]) && Blank(error[j..])
    ensures i < j ==> !IsSpace(error[i]) && !IsSpace(error[j - 1])
    ensures Detail(error) == if Blank(error) then "unknown failure" else error[i..if j - i <= 500 then j else i + 500]
    ensures Blank(error) <==> i == j
  {
    i, j := StripTrims(error);
    if i < j {
      assert Strip(error)[0] == error[i] && Strip(error)[j - i - 1] == error[j - 1];
    } else {
      assert error == error[..i] + error[j..];
    }
  }

  /** What the breaker reports as its last error: that of the last call that recorded anything, if it was a failure. */
  function LatestError(calls: seq<Call>): Option<string> {
    if calls == [] then None
    else
      match calls[|calls| - 1]
      case Succeed(_) => None
      case Fail(error, _) => Some(Detail(error))
      case Attempt(_) => LatestError(calls[..|calls| - 1])
  }

  lemma RunSnoc(c: Config, b: Breaker, calls: seq<Call>, call: Call)
    ensures Run(c, b, calls + [call]) == Step(c, Run(c, b, calls), call)
    decreases |calls|
  {
    hide Step;
    if calls == [] {
      assert ([] + [call])[1..] == [];
    } else {
      assert (calls + [call])[1..] == calls[1..] + [call];
      RunSnoc(c, Step(c, b, calls[0]), calls[1..], call);
    }
  }

  lemma {:induction false} LastErrorIsLatest(c: Config, calls: seq<Call>)
    ensures Run(c, Initial, calls).lastError == LatestError(calls)
    decreases |calls|
  {
    if calls != [] {
      var n := |calls| - 1;
      assert calls == calls[..n] + [calls[n]];
      LastErrorIsLatest(c, calls[..n]);
      RunSnoc(c, Initial, calls[..n], calls[n]);
      hide Run, Detail, Backoff, Last;
    }
  }

  /** After any run an attempt is admitted exactly when crash loops remain and nothing is to be waited for: no time is
      set, it has come, or a trial is on. */
  lemma AdmittedIff(c: Config, calls: seq<Call>, now: real)
    requires c.maxCrashLoops >= 1
    ensures var b := Run(c, Initial, calls);
            AllowAttempt(c, b, now).1 <==>
              && b.crashLoops < c.maxCrashLoops
              && (b.nextAttemptAt.None? || b.nextAttemptAt.value <= now || b.gate.HalfOpen?)
  {
    RunKeeps(c, Initial, calls);
    hide Run;
  }

  class CircuitBreaker {
    const config: Config
    var state: Gate
    var consecutiveFailures: nat
    var consecutiveSuccesses: nat
    var crashLoops: nat
    var openedAt: Option<real>
    var nextAttemptAt: Option<real>
    var lastError: Option<string>
    var errors: seq<string>

    ghost function View(): Breaker
      reads this
    {
      Breaker(state, consecutiveFailures, consecutiveSuccesses, crashLoops, openedAt, nextAttemptAt, lastError, errors)
    }

    constructor (config: Config)
      ensures View() == Initial && this.config == config
    {
      this.config := config;
      state, openedAt, nextAttemptAt, lastError, errors := Closed, None, None, None, [];
      consecutiveFailures, consecutiveSuccesses, crashLoops := 0, 0, 0;
    }

    method RecordSuccess()
      modifies this
      ensures forall at :: View() == Step(config, old(View()), Succeed(at))
    {
      consecutiveFailures := 0;
      consecutiveSuccesses := consecutiveSuccesses + 1;
      lastError := None;
      if state.HalfOpen? && consecutiveSuccesses >= config.successThreshold {
        state := Closed;
        openedAt := None;
        nextAttemptAt := None;
        crashLoops := 0;
      }
    }

    method RecordFailure(error: string, now: real) returns (backoff: real)
      modifies this
      ensures View() == Step(config, old(View()), Fail(error, now))
      ensures nextAttemptAt == if Opens(config, old(View())) then Some(now + backoff) else old(nextAttemptAt)
    {
      hide Detail, Backoff;
      var detail := Detail(error);
      lastError := Some(detail);
      consecutiveSuccesses := 0;
      consecutiveFailures := consecutiveFailures + 1;
      errors := errors + [detail];
      var limit := MaxInt(1, config.historyMax);
      if |errors| > limit {
        errors := errors[|errors| - limit..];
      }
      assert errors == Last(old(errors) + [detail], limit);
      hide Last;
      backoff := Backoff(config, consecutiveFailures);
      if consecutiveFailures >= config.failureThreshold {
        state := Open;
        openedAt := Some(now);
        crashLoops := crashLoops + 1;
        nextAttemptAt := Some(now + backoff);
        return;
      }
      if state.HalfOpen? {
        state := Open;
        nextAttemptAt := Some(now + backoff);
        return;
      }
      return 0.0;
    }

    method AllowAttempt(now: real) returns (allowed: bool)
      modifies this
      ensures View() == Step(config, old(View()), Attempt(now))
      ensures allowed <==> crashLoops < config.maxCrashLoops && !state.Open?
    {
      if crashLoops >= config.maxCrashLoops {
        return false;
      }
      if state.Closed? || state.HalfOpen? {
        return true;
      }
      if nextAttemptAt.None? {
        return false;
      }
      if now >= nextAttemptAt.value {
        state := HalfOpen;
        consecutiveSuccesses := 0;
        return true;
      }
      return false;
    }
  }
}
