/** The trial orchestrator: a rate limiter on the service calls, the three
    trial kinds (C1 baseline, C2 single agent, C3 multi agent) with their
    bounded retries and fallback records, and the run that builds the
    aggregate in the order C1, C2, C3.

    The wall clock and `asyncio.sleep` are a `Clock` object whose time only
    moves when something sleeps or when a request takes time. What a POST to
    a service comes back as, attempt by attempt, is an input, and so is every
    `random.gauss` sample. */
module Evaluation {
  import opened Wrappers
  import opened Text

  /** The three experimental conditions. */
  datatype Condition = C1 | C2 | C3 {
    function Name(): (s: string)
      ensures |s| == 2 && s[0] == 'C'
    {
      match this
      case C1 => "C1"
      case C2 => "C2"
      case C3 => "C3"
    }
  }

  /** `f"{condition}_{trial_id:03d}"` */
  function TrialId(c: Condition, i: nat): (id: string)
    ensures |id| >= 6 && id[..2] == c.Name() && id[2] == '_' && id[3..] == ZeroPadded(i, 3)
  {
    c.Name() + "_" + ZeroPadded(i, 3)
  }

  /** Trial ids never collide: the id gives back the condition and the index. */
  lemma TrialIdInjective(c: Condition, i: nat, d: Condition, j: nat)
    requires TrialId(c, i) == TrialId(d, j)
    ensures c == d && i == j
  {
    assert c.Name() == TrialId(c, i)[..2] == TrialId(d, j)[..2] == d.Name();
    assert ZeroPadded(i, 3) == TrialId(c, i)[3..] == TrialId(d, j)[3..] == ZeroPadded(j, 3);
    ZeroPaddedValue(i, 3);
    ZeroPaddedValue(j, 3);
  }

  // ---------------------------------------------------------------------------
  // Time
  // ---------------------------------------------------------------------------

  /** `time.time()` and `asyncio.sleep`, with exact sleeps. `sleeps` logs
      every sleep taken, in order. */
  class Clock {
    var now: real
    var sleeps: seq<real>

    constructor(start: real)
      ensures now == start && sleeps == []
    {
      now := start;
      sleeps := [];
    }

    /** `await asyncio.sleep(d)` */
    method Sleep(d: real)
      requires d >= 0.0
      modifies this
      ensures now == old(now) + d && sleeps == old(sleeps) + [d]
    {
      now := now + d;
      sleeps := sleeps + [d];
    }

    /** Time spent waiting on a request. */
    method Elapse(d: real)
      requires d >= 0.0
      modifies this
      ensures now == old(now) + d && sleeps == old(sleeps)
    {
      now := now + d;
    }
  }

  /** How long `RateLimiter.wait` sleeps at time `now`: what is left of the
      minimum interval since the previous call, or nothing. */
  function WaitTime(lastCall: real, minInterval: real, now: real): (w: real)
    ensures w >= 0.0
    ensures now + w >= lastCall + minInterval
    ensures w > 0.0 <==> now - lastCall < minInterval
    ensures w > 0.0 ==> now + w == lastCall + minInterval
  {
    var sinceLast := now - lastCall;
    if sinceLast < minInterval then minInterval - sinceLast else 0.0
  }

  class RateLimiter {
    const callsPerMinute: int
    const minInterval: real
    var lastCall: real

    /** `RateLimiter(calls_per_minute)`; a zero rate divides by zero. */
    constructor(callsPerMinute: int := 10)
      requires callsPerMinute != 0
      ensures this.callsPerMinute == callsPerMinute
      ensures minInterval == 60.0 / callsPerMinute as real
      ensures lastCall == 0.0
    {
      this.callsPerMinute := callsPerMinute;
      minInterval := 60.0 / callsPerMinute as real;
      lastCall := 0.0;
    }

    /** `wait`: sleeps out the rest of the minimum interval, then stamps the
        call. The call it admits starts at least `minInterval` after the
        previous one, and no later than needed. */
    method Wait(clock: Clock)
      modifies this, clock
      ensures clock.now == old(clock.now) + WaitTime(old(lastCall), minInterval, old(clock.now))
      ensures clock.sleeps == old(clock.sleeps)
        + (if WaitTime(old(lastCall), minInterval, old(clock.now)) > 0.0
           then [WaitTime(old(lastCall), minInterval, old(clock.now))] else [])
      ensures lastCall == clock.now
      ensures lastCall >= old(lastCall) + minInterval
    {
      var now := clock.now;
      var sinceLast := now - lastCall;
      if sinceLast < minInterval {
        var waitTime := minInterval - sinceLast;
        clock.Sleep(waitTime);
      }
      lastCall := clock.now;
    }
  }

  /** Two waits in a row on an unchanged limiter admit calls at least
      `minInterval` apart, whatever happens on the clock in between. */
  lemma ConsecutiveCallsSpaced(minInterval: real, lastCall: real, now1: real, now2: real)
    requires now2 >= now1 + WaitTime(lastCall, minInterval, now1)
    ensures now2 + WaitTime(now1 + WaitTime(lastCall, minInterval, now1), minInterval, now2)
            >= (now1 + WaitTime(lastCall, minInterval, now1)) + minInterval
  {
  }

  // ---------------------------------------------------------------------------
  // Service replies and retries
  // ---------------------------------------------------------------------------

  type Duration = r: real | r >= 0.0

  /** One attempt at a service call: a reply with its status code and, when
      its body parses to a JSON object, the fields read from it; or an
      exception (timeout, connection error). Either way it took `elapsed`
      seconds. A 200 reply whose body does not parse to an object raises in
      `.json()`/`.get`, like any exception inside the `try`. */
  datatype Attempt<P> = Replied(status: int, payload: Option<P>, elapsed: Duration) | Raised(elapsed: Duration)

  /** The attempt yields a result: a 200 reply with an object body. */
  predicate Succeeded<P>(a: Attempt<P>) {
    a.Replied? && a.status == 200 && a.payload.Some?
  }

  /** `max_retries` */
  const MaxAttempts: nat := 3

  /** What the retry loop did: the result (`None` when every attempt failed),
      how many attempts it made, the backoff sleeps it took, and the time it
      spent. */
  datatype RetryRun<P> = RetryRun(payload: Option<P>, attempts: nat, sleeps: seq<real>, spent: real)

  /** The retry loop from attempt `attempt` on, where `outcomes(k)` is what
      attempt `k` comes back as. A failed attempt is followed by a backoff
      sleep unless it was the last one. */
  function RetryFrom<P>(outcomes: nat -> Attempt<P>, attempt: nat, backoff: real): RetryRun<P>
    requires attempt <= MaxAttempts
    decreases MaxAttempts - attempt
  {
    if attempt == MaxAttempts then RetryRun(None, 0, [], 0.0)
    else
      var o := outcomes(attempt);
      if Succeeded(o) then RetryRun(Some(o.payload.value), 1, [], o.elapsed)
      else
        var pause := if attempt < MaxAttempts - 1 then [backoff] else [];
        var rest := RetryFrom(outcomes, attempt + 1, backoff);
        RetryRun(rest.payload, rest.attempts + 1, pause + rest.sleeps,
                 o.elapsed + (if attempt < MaxAttempts - 1 then backoff else 0.0) + rest.spent)
  }

  /** The retry loop from the first attempt. */
  function Retry<P>(outcomes: nat -> Attempt<P>, backoff: real): RetryRun<P> {
    RetryFrom(outcomes, 0, backoff)
  }

  /** The retry budget: one to three attempts and at most two backoff sleeps,
      each of the configured length, one after every failed attempt but the
      last; a result comes from the first attempt that succeeded, and no
      result means all three attempts failed. */
  lemma RetryBounds<P>(outcomes: nat -> Attempt<P>, backoff: real)
    ensures var r := Retry(outcomes, backoff);
      && 1 <= r.attempts <= MaxAttempts
      && |r.sleeps| == r.attempts - 1 <= 2
      && (forall k :: 0 <= k < |r.sleeps| ==> r.sleeps[k] == backoff)
      && (forall k :: 0 <= k < r.attempts - 1 ==> !Succeeded(outcomes(k)))
      && (r.payload.Some? ==> Succeeded(outcomes(r.attempts - 1)) && r.payload.value == outcomes(r.attempts - 1).payload.value)
      && (r.payload.None? ==> r.attempts == MaxAttempts && !Succeeded(outcomes(MaxAttempts - 1)))
  {
    var r2 := RetryFrom(outcomes, 2, backoff);
    assert r2 == if Succeeded(outcomes(2)) then RetryRun(Some(outcomes(2).payload.value), 1, [], outcomes(2).elapsed)
                 else RetryRun(None, 1, [], outcomes(2).elapsed + 0.0 + 0.0);
    var r1 := RetryFrom(outcomes, 1, backoff);
    var r0 := RetryFrom(outcomes, 0, backoff);
    if !Succeeded(outcomes(0)) {
      assert r0.sleeps == [backoff] + r1.sleeps;
      if !Succeeded(outcomes(1)) {
        assert r1.sleeps == [backoff] + r2.sleeps;
      }
    }
  }

  /** The loop falls back exactly when none of the three attempts succeeds. */
  lemma RetryFallsBackIffAllFail<P>(outcomes: nat -> Attempt<P>, backoff: real)
    ensures Retry(outcomes, backoff).payload.None? <==> forall k :: 0 <= k < MaxAttempts ==> !Succeeded(outcomes(k))
  {
    RetryBounds(outcomes, backoff);
  }

  /** After `attempt` failed attempts, with `slept` the pauses taken and
      `elapsed` the time spent: what remains of the loop completes the run. */
  ghost predicate RetryState<P>(run: RetryRun<P>, outcomes: nat -> Attempt<P>, backoff: real, attempt: nat, slept: seq<real>, elapsed: real)
    requires attempt <= MaxAttempts
  {
    var rest := RetryFrom(outcomes, attempt, backoff);
    run == RetryRun(rest.payload, attempt + rest.attempts, slept + rest.sleeps, elapsed + rest.spent)
  }

  lemma RetryStateSucceeds<P>(run: RetryRun<P>, outcomes: nat -> Attempt<P>, backoff: real, attempt: nat, slept: seq<real>, elapsed: real)
    requires attempt < MaxAttempts && RetryState(run, outcomes, backoff, attempt, slept, elapsed)
    requires Succeeded(outcomes(attempt))
    ensures run.payload == Some(outcomes(attempt).payload.value)
    ensures run.spent == elapsed + outcomes(attempt).elapsed
    ensures run.sleeps == slept
  {
    assert RetryFrom(outcomes, attempt, backoff).sleeps == [];
    assert slept + [] == slept;
  }

  lemma RetryStateFails<P>(run: RetryRun<P>, outcomes: nat -> Attempt<P>, backoff: real, attempt: nat, slept: seq<real>, elapsed: real)
    requires attempt < MaxAttempts && RetryState(run, outcomes, backoff, attempt, slept, elapsed)
    requires !Succeeded(outcomes(attempt))
    ensures attempt < MaxAttempts - 1 ==>
      RetryState(run, outcomes, backoff, attempt + 1, slept + [backoff], elapsed + outcomes(attempt).elapsed + backoff)
    ensures attempt == MaxAttempts - 1 ==>
      RetryState(run, outcomes, backoff, attempt + 1, slept, elapsed + outcomes(attempt).elapsed)
  {
    var next := RetryFrom(outcomes, attempt + 1, backoff);
    if attempt < MaxAttempts - 1 {
      assert slept + ([backoff] + next.sleeps) == slept + [backoff] + next.sleeps;
    } else {
      assert slept + ([] + next.sleeps) == slept + next.sleeps;
    }
  }

  lemma RetryStateEnds<P>(run: RetryRun<P>, outcomes: nat -> Attempt<P>, backoff: real, slept: seq<real>, elapsed: real)
    requires RetryState(run, outcomes, backoff, MaxAttempts, slept, elapsed)
    ensures run.payload.None?
    ensures run.spent == elapsed
    ensures run.sleeps == slept
  {
    assert slept + [] == slept;
  }

  // ---------------------------------------------------------------------------
  // Trial records
  // ---------------------------------------------------------------------------

  /** The fields read from a `/analyze` reply, `None` when absent. */
  datatype CopilotReply = CopilotReply(actions: Option<seq<string>>, summary: Option<string>)

  /** The fields read from an `/orchestrate` reply, `None` when absent. */
  datatype OrchestratorReply = OrchestratorReply(
    actions: Option<seq<string>>,
    brief: Option<string>,
    agentOutputs: Option<map<string, string>>)

  /** A trial record. `agentOutputs` is `None` when the record has no
      `agent_outputs` key; `fallback` is whether it has `fallback: True`.
      The timestamp is not part of this model. */
  datatype TrialRecord = TrialRecord(
    trialId: string,
    condition: Condition,
    t2u: real,
    actions: seq<string>,
    output: string,
    agentOutputs: Option<map<string, string>>,
    fallback: bool)

  const C1Output: string := "Manual dashboard analysis (no AI assistance)"
  const C2FallbackOutput: string := "Analysis unavailable - using fallback"
  const C3FallbackOutput: string := "Multi-agent analysis unavailable - using fallback"

  const C2FallbackActions: seq<string> := [
    "Rollback auth-service to previous version",
    "Check database connection pool"
  ]

  const C3FallbackActions: seq<string> := [
    "Rollback auth-service to v2.3.0",
    "Verify database connection pool settings",
    "Monitor error rates post-rollback"
  ]

  /** Backoff between C2 attempts, and between C3 attempts, in seconds. */
  const C2Backoff: real := 10.0
  const C3Backoff: real := 15.0

  /** How long a C1 trial sleeps. */
  const C1Pause: real := 0.1

  /** A C1 trial for its sampled comprehension time. */
  function C1Record(i: nat, sampledT2u: real): (t: TrialRecord)
    ensures t.trialId == TrialId(C1, i) && t.condition == C1
    ensures t.actions == [] && t.agentOutputs.None? && !t.fallback
  {
    TrialRecord(TrialId(C1, i), C1, sampledT2u, [], C1Output, None, false)
  }

  /** A C2 trial: the reply's actions and summary with the measured time,
      or the fallback record with a sampled time. */
  function C2Record(i: nat, run: RetryRun<CopilotReply>, fallbackT2u: real): (t: TrialRecord)
    ensures t.trialId == TrialId(C2, i) && t.condition == C2 && t.agentOutputs.None?
    ensures t.fallback <==> run.payload.None?
  {
    match run.payload
    case Some(reply) =>
      TrialRecord(TrialId(C2, i), C2, run.spent, reply.actions.GetOr([]), reply.summary.GetOr(""), None, false)
    case None =>
      TrialRecord(TrialId(C2, i), C2, fallbackT2u, C2FallbackActions, C2FallbackOutput, None, true)
  }

  /** A C3 trial: the reply's actions, brief and agent outputs with the
      measured time, or the fallback record with a sampled time. */
  function C3Record(i: nat, run: RetryRun<OrchestratorReply>, fallbackT2u: real): (t: TrialRecord)
    ensures t.trialId == TrialId(C3, i) && t.condition == C3
    ensures t.fallback <==> run.payload.None?
    ensures t.agentOutputs.Some? <==> run.payload.Some?
  {
    match run.payload
    case Some(reply) =>
      TrialRecord(TrialId(C3, i), C3, run.spent, reply.actions.GetOr([]), reply.brief.GetOr(""),
                  Some(reply.agentOutputs.GetOr(map[])), false)
    case None =>
      TrialRecord(TrialId(C3, i), C3, fallbackT2u, C3FallbackActions, C3FallbackOutput, None, true)
  }

  /** What a C2 trial records: a succeeded attempt's actions (default none)
      and its time since the first attempt began, or, after three failed
      attempts, the two fixed fallback actions with the sampled time. */
  lemma C2Outcomes(i: nat, outcomes: nat -> Attempt<CopilotReply>, fallbackT2u: real)
    ensures var t := C2Record(i, Retry(outcomes, C2Backoff), fallbackT2u);
      && (t.fallback <==> forall k :: 0 <= k < MaxAttempts ==> !Succeeded(outcomes(k)))
      && (t.fallback ==> |t.actions| == 2 && t.actions == C2FallbackActions && t.t2u == fallbackT2u)
      && (!t.fallback ==> (exists k :: 0 <= k < MaxAttempts && Succeeded(outcomes(k))
                            && t.actions == outcomes(k).payload.value.actions.GetOr([])))
  {
    RetryBounds(outcomes, C2Backoff);
  }

  /** What a C3 trial records: a succeeded attempt's actions and agent
      outputs (defaults: none and `{}`), or, after three failed attempts, the
      three fixed fallback actions with the sampled time. */
  lemma C3Outcomes(i: nat, outcomes: nat -> Attempt<OrchestratorReply>, fallbackT2u: real)
    ensures var t := C3Record(i, Retry(outcomes, C3Backoff), fallbackT2u);
      && (t.fallback <==> forall k :: 0 <= k < MaxAttempts ==> !Succeeded(outcomes(k)))
      && (t.fallback ==> |t.actions| == 3 && t.actions == C3FallbackActions && t.t2u == fallbackT2u)
      && (!t.fallback ==> (exists k :: 0 <= k < MaxAttempts && Succeeded(outcomes(k))
                            && t.actions == outcomes(k).payload.value.actions.GetOr([])
                            && t.agentOutputs == Some(outcomes(k).payload.value.agentOutputs.GetOr(map[]))))
  {
    RetryBounds(outcomes, C3Backoff);
  }

  // ---------------------------------------------------------------------------
  // The run
  // ---------------------------------------------------------------------------

  const ScenarioName: string := "auth_service_regression"

  /** The `results_summary` written at the end of a run; its timestamp is not
      part of this model. */
  datatype RunSummary = RunSummary(
    totalTrials: int,
    trialsPerCondition: int,
    randomSeed: int,
    scenario: string,
    trials: seq<TrialRecord>)

  /** `len(range(n))`: a negative count runs a loop no times. */
  function RangeLength(n: int): (len: nat)
    ensures n >= 0 ==> len == n
    ensures n < 0 ==> len == 0
  {
    if n < 0 then 0 else n
  }

  /** Where the block of a condition starts in a run of `n` trials per
      condition. */
  function BlockStart(c: Condition, n: nat): nat {
    match c
    case C1 => 0
    case C2 => n
    case C3 => 2 * n
  }

  /** The aggregate's order: the C1 block, then C2, then C3, each with the
      indices 0..n-1 ascending. */
  predicate InRunOrder(trials: seq<TrialRecord>, n: nat) {
    && |trials| == 3 * n
    && forall c: Condition, i: nat :: i < n ==> HoldsTrial(trials, n, c, i)
  }

  /** Position `i` of the block of `c` holds trial `i` of condition `c`. */
  predicate HoldsTrial(trials: seq<TrialRecord>, n: nat, c: Condition, i: nat)
    requires |trials| == 3 * n && i < n
  {
    trials[BlockStart(c, n) + i].condition == c && trials[BlockStart(c, n) + i].trialId == TrialId(c, i)
  }

  /** Every position of a run lies in exactly one block. */
  lemma BlockOf(n: nat, p: nat) returns (c: Condition, i: nat)
    requires p < 3 * n
    ensures i < n && p == BlockStart(c, n) + i
  {
    if p < n {
      c, i := C1, p;
    } else if p < 2 * n {
      c, i := C2, p - n;
    } else {
      c, i := C3, p - 2 * n;
    }
  }

  /** In a run in that order no two trials share an id. */
  lemma RunIdsUnique(trials: seq<TrialRecord>, n: nat)
    requires InRunOrder(trials, n)
    ensures forall j, k :: 0 <= j < k < |trials| ==> trials[j].trialId != trials[k].trialId
  {
    forall j, k | 0 <= j < k < |trials|
      ensures trials[j].trialId != trials[k].trialId
    {
      var c, i := BlockOf(n, j);
      var d, l := BlockOf(n, k);
      assert HoldsTrial(trials, n, c, i) && HoldsTrial(trials, n, d, l);
      if trials[j].trialId == trials[k].trialId {
        TrialIdInjective(c, i, d, l);
        assert false;
      }
    }
  }

  class Evaluator {
    /** `int(os.getenv("TRIALS_PER_CONDITION", "116"))`: any integer,
        negative ones included. */
    const trialsPerCondition: int
    const randomSeed: int
    const rateLimiter: RateLimiter
    /** The trial files written by `save_trial`, in order. */
    var saved: seq<TrialRecord>

    /** `Evaluator()` with its environment settings as parameters: a limiter
        of 10 calls a minute, nothing saved yet. */
    constructor(trialsPerCondition: int := 116, randomSeed: int := 42)
      ensures this.trialsPerCondition == trialsPerCondition && this.randomSeed == randomSeed
      ensures fresh(rateLimiter) && rateLimiter.minInterval == 6.0 && rateLimiter.lastCall == 0.0
      ensures saved == []
    {
      this.trialsPerCondition := trialsPerCondition;
      this.randomSeed := randomSeed;
      rateLimiter := new RateLimiter(10);
      saved := [];
    }

    /** `save_trial` */
    method SaveTrial(trial: TrialRecord)
      modifies this
      ensures saved == old(saved) + [trial]
    {
      saved := saved + [trial];
    }

    /** `run_c1_baseline`: no call, a 0.1-second sleep, the sampled time. */
    method RunC1Baseline(clock: Clock, i: nat, sampledT2u: real) returns (trial: TrialRecord)
      modifies clock
      ensures trial == C1Record(i, sampledT2u)
      ensures clock.now == old(clock.now) + C1Pause && clock.sleeps == old(clock.sleeps) + [C1Pause]
    {
      clock.Sleep(C1Pause);
      trial := TrialRecord(TrialId(C1, i), C1, sampledT2u, [], C1Output, None, false);
    }

    /** The `for attempt in range(max_retries)` loop shared by C2 and C3: the
        first attempt that succeeds ends it; a failed attempt but the last is
        followed by a backoff sleep. */
    static method RetryLoop<P>(clock: Clock, outcomes: nat -> Attempt<P>, backoff: real) returns (payload: Option<P>)
      requires backoff >= 0.0
      modifies clock
      ensures payload == Retry(outcomes, backoff).payload
      ensures clock.now == old(clock.now) + Retry(outcomes, backoff).spent
      ensures clock.sleeps == old(clock.sleeps) + Retry(outcomes, backoff).sleeps
    {
      ghost var start := clock.now;
      ghost var slept: seq<real> := [];
      ghost var elapsed: real := 0.0;
      ghost var run := Retry(outcomes, backoff);
      assert slept + run.sleeps == run.sleeps;
      for attempt := 0 to MaxAttempts
        invariant clock.sleeps == old(clock.sleeps) + slept
        invariant clock.now == start + elapsed
        invariant RetryState(run, outcomes, backoff, attempt, slept, elapsed)
      {
        var o := outcomes(attempt);
        clock.Elapse(o.elapsed);
        if Succeeded(o) {
          RetryStateSucceeds(run, outcomes, backoff, attempt, slept, elapsed);
          return Some(o.payload.value);
        }
        RetryStateFails(run, outcomes, backoff, attempt, slept, elapsed);
        if attempt < MaxAttempts - 1 {
          clock.Sleep(backoff);
          slept := slept + [backoff];
          elapsed := elapsed + o.elapsed + backoff;
        } else {
          elapsed := elapsed + o.elapsed;
        }
      }
      RetryStateEnds(run, outcomes, backoff, slept, elapsed);
      return None;
    }

    /** `run_c2_single_agent`: waits on the limiter, then retries the call
        with a 10-second backoff. */
    method RunC2SingleAgent(clock: Clock, i: nat, outcomes: nat -> Attempt<CopilotReply>, fallbackT2u: real)
      returns (trial: TrialRecord)
      modifies clock, rateLimiter
      ensures trial == C2Record(i, Retry(outcomes, C2Backoff), fallbackT2u)
      ensures rateLimiter.lastCall == old(clock.now) + WaitTime(old(rateLimiter.lastCall), rateLimiter.minInterval, old(clock.now))
      ensures clock.now == rateLimiter.lastCall + Retry(outcomes, C2Backoff).spent
      ensures clock.sleeps == old(clock.sleeps)
        + (if WaitTime(old(rateLimiter.lastCall), rateLimiter.minInterval, old(clock.now)) > 0.0
           then [WaitTime(old(rateLimiter.lastCall), rateLimiter.minInterval, old(clock.now))] else [])
        + Retry(outcomes, C2Backoff).sleeps
    {
      rateLimiter.Wait(clock);
      var tStart := clock.now;
      var payload := RetryLoop(clock, outcomes, C2Backoff);
      match payload
      case Some(reply) =>
        var t2u := clock.now - tStart;
        trial := TrialRecord(TrialId(C2, i), C2, t2u, reply.actions.GetOr([]), reply.summary.GetOr(""), None, false);
      case None =>
        trial := TrialRecord(TrialId(C2, i), C2, fallbackT2u, C2FallbackActions, C2FallbackOutput, None, true);
    }

    /** `run_c3_multi_agent`: waits on the limiter, then retries the call
        with a 15-second backoff. */
    method RunC3MultiAgent(clock: Clock, i: nat, outcomes: nat -> Attempt<OrchestratorReply>, fallbackT2u: real)
      returns (trial: TrialRecord)
      modifies clock, rateLimiter
      ensures trial == C3Record(i, Retry(outcomes, C3Backoff), fallbackT2u)
      ensures rateLimiter.lastCall == old(clock.now) + WaitTime(old(rateLimiter.lastCall), rateLimiter.minInterval, old(clock.now))
      ensures clock.now == rateLimiter.lastCall + Retry(outcomes, C3Backoff).spent
      ensures clock.sleeps == old(clock.sleeps)
        + (if WaitTime(old(rateLimiter.lastCall), rateLimiter.minInterval, old(clock.now)) > 0.0
           then [WaitTime(old(rateLimiter.lastCall), rateLimiter.minInterval, old(clock.now))] else [])
        + Retry(outcomes, C3Backoff).sleeps
    {
      rateLimiter.Wait(clock);
      var tStart := clock.now;
      var payload := RetryLoop(clock, outcomes, C3Backoff);
      match payload
      case Some(reply) =>
        var t2u := clock.now - tStart;
        trial := TrialRecord(TrialId(C3, i), C3, t2u, reply.actions.GetOr([]), reply.brief.GetOr(""),
                             Some(reply.agentOutputs.GetOr(map[])), false);
      case None =>
        trial := TrialRecord(TrialId(C3, i), C3, fallbackT2u, C3FallbackActions, C3FallbackOutput, None, true);
    }

    /** `run_all_trials`: N C1 trials, then N C2 trials, then N C3 trials,
        each saved and then appended. `c1T2u(i)` and the fallback samples are
        the `random.gauss` draws; `c2Outcomes(i)(k)` is what attempt `k` of
        C2 trial `i` comes back as, and likewise for C3. */
    method RunAllTrials(clock: Clock,
                        c1T2u: nat -> real,
                        c2Outcomes: nat -> nat -> Attempt<CopilotReply>, c2FallbackT2u: nat -> real,
                        c3Outcomes: nat -> nat -> Attempt<OrchestratorReply>, c3FallbackT2u: nat -> real)
      returns (summary: RunSummary)
      modifies this, clock, rateLimiter
      ensures summary.totalTrials == 3 * trialsPerCondition && summary.trialsPerCondition == trialsPerCondition
      ensures summary.randomSeed == randomSeed && summary.scenario == ScenarioName
      ensures summary.trials == C1Trials(RangeLength(trialsPerCondition), c1T2u)
                              + C2Trials(RangeLength(trialsPerCondition), c2Outcomes, c2FallbackT2u)
                              + C3Trials(RangeLength(trialsPerCondition), c3Outcomes, c3FallbackT2u)
      ensures InRunOrder(summary.trials, RangeLength(trialsPerCondition))
      ensures |summary.trials| == 3 * RangeLength(trialsPerCondition)
      ensures saved == old(saved) + summary.trials
    {
      var totalTrials := trialsPerCondition * 3;
      var n := RangeLength(trialsPerCondition);
      var c1Block := RunC1Trials(clock, n, c1T2u);
      var c2Block := RunC2Trials(clock, n, c2Outcomes, c2FallbackT2u);
      var c3Block := RunC3Trials(clock, n, c3Outcomes, c3FallbackT2u);
      var allTrials := c1Block + c2Block + c3Block;
      AppendRegroup(old(saved), c1Block, c2Block, c3Block);
      InRunOrderOfBlocks(n, c1T2u, c2Outcomes, c2FallbackT2u, c3Outcomes, c3FallbackT2u);
      summary := RunSummary(totalTrials, trialsPerCondition, randomSeed, ScenarioName, allTrials);
    }

    /** The C1 loop of `run_all_trials`. */
    method RunC1Trials(clock: Clock, n: nat, c1T2u: nat -> real) returns (block: seq<TrialRecord>)
      modifies this, clock
      ensures block == C1Trials(n, c1T2u) && saved == old(saved) + block
    {
      block := [];
      for i := 0 to n
        invariant block == C1Trials(i, c1T2u) && saved == old(saved) + block
      {
        var trial := RunC1Baseline(clock, i, c1T2u(i));
        SaveTrial(trial);
        block := block + [trial];
      }
    }

    /** The C2 loop of `run_all_trials`. */
    method RunC2Trials(clock: Clock, n: nat, c2Outcomes: nat -> nat -> Attempt<CopilotReply>, c2FallbackT2u: nat -> real)
      returns (block: seq<TrialRecord>)
      modifies this, clock, rateLimiter
      ensures block == C2Trials(n, c2Outcomes, c2FallbackT2u) && saved == old(saved) + block
    {
      block := [];
      for i := 0 to n
        invariant block == C2Trials(i, c2Outcomes, c2FallbackT2u) && saved == old(saved) + block
      {
        var trial := RunC2SingleAgent(clock, i, c2Outcomes(i), c2FallbackT2u(i));
        SaveTrial(trial);
        block := block + [trial];
      }
    }

    /** The C3 loop of `run_all_trials`. */
    method RunC3Trials(clock: Clock, n: nat, c3Outcomes: nat -> nat -> Attempt<OrchestratorReply>, c3FallbackT2u: nat -> real)
      returns (block: seq<TrialRecord>)
      modifies this, clock, rateLimiter
      ensures block == C3Trials(n, c3Outcomes, c3FallbackT2u) && saved == old(saved) + block
    {
      block := [];
      for i := 0 to n
        invariant block == C3Trials(i, c3Outcomes, c3FallbackT2u) && saved == old(saved) + block
      {
        var trial := RunC3MultiAgent(clock, i, c3Outcomes(i), c3FallbackT2u(i));
        SaveTrial(trial);
        block := block + [trial];
      }
    }
  }

  lemma AppendRegroup<T>(a: seq<T>, b: seq<T>, c: seq<T>, d: seq<T>)
    ensures a + b + c + d == a + (b + c + d)
  {
  }

  /** The records of trials `0 .. n - 1` of one condition, in index order. */
  function Block(n: nat, record: nat -> TrialRecord): (r: seq<TrialRecord>)
    ensures |r| == n
  {
    if n == 0 then [] else Block(n - 1, record) + [record(n - 1)]
  }

  /** Position `i` of a block holds trial `i`'s record. */
  lemma {:induction false} BlockAt(n: nat, record: nat -> TrialRecord, i: nat)
    requires i < n
    ensures Block(n, record)[i] == record(i)
  {
    if i < n - 1 {
      BlockAt(n - 1, record, i);
    }
  }

  /** Trial `j`'s record, condition by condition. */
  function C1Records(c1T2u: nat -> real): nat -> TrialRecord {
    (j: nat) => C1Record(j, c1T2u(j))
  }

  function C2Records(outcomes: nat -> nat -> Attempt<CopilotReply>, fallbackT2u: nat -> real): nat -> TrialRecord {
    (j: nat) => C2Record(j, Retry(outcomes(j), C2Backoff), fallbackT2u(j))
  }

  function C3Records(outcomes: nat -> nat -> Attempt<OrchestratorReply>, fallbackT2u: nat -> real): nat -> TrialRecord {
    (j: nat) => C3Record(j, Retry(outcomes(j), C3Backoff), fallbackT2u(j))
  }

  /** The first `n` C1 trials. */
  function C1Trials(n: nat, c1T2u: nat -> real): (r: seq<TrialRecord>)
    ensures |r| == n
  {
    Block(n, C1Records(c1T2u))
  }

  /** The first `n` C2 trials, each the outcome of its retried request. */
  function C2Trials(n: nat, outcomes: nat -> nat -> Attempt<CopilotReply>, fallbackT2u: nat -> real): (r: seq<TrialRecord>)
    ensures |r| == n
  {
    Block(n, C2Records(outcomes, fallbackT2u))
  }

  /** The first `n` C3 trials, each the outcome of its retried request. */
  function C3Trials(n: nat, outcomes: nat -> nat -> Attempt<OrchestratorReply>, fallbackT2u: nat -> real): (r: seq<TrialRecord>)
    ensures |r| == n
  {
    Block(n, C3Records(outcomes, fallbackT2u))
  }

  /** Position `i` of each block is trial `i` of its condition. */
  lemma C1TrialsAt(n: nat, c1T2u: nat -> real, i: nat)
    requires i < n
    ensures C1Trials(n, c1T2u)[i] == C1Record(i, c1T2u(i))
  {
    BlockAt(n, C1Records(c1T2u), i);
  }

  lemma C2TrialsAt(n: nat, outcomes: nat -> nat -> Attempt<CopilotReply>, fallbackT2u: nat -> real, i: nat)
    requires i < n
    ensures C2Trials(n, outcomes, fallbackT2u)[i] == C2Record(i, Retry(outcomes(i), C2Backoff), fallbackT2u(i))
  {
    BlockAt(n, C2Records(outcomes, fallbackT2u), i);
  }

  lemma C3TrialsAt(n: nat, outcomes: nat -> nat -> Attempt<OrchestratorReply>, fallbackT2u: nat -> real, i: nat)
    requires i < n
    ensures C3Trials(n, outcomes, fallbackT2u)[i] == C3Record(i, Retry(outcomes(i), C3Backoff), fallbackT2u(i))
  {
    BlockAt(n, C3Records(outcomes, fallbackT2u), i);
  }

  /** The C1, C2 and C3 blocks of a run, concatenated, are in run order:
      position `i` of each block holds trial `i` of its condition, and the
      run holds 3n trials. */
  lemma InRunOrderOfBlocks(n: nat,
                           c1T2u: nat -> real,
                           c2Outcomes: nat -> nat -> Attempt<CopilotReply>, c2FallbackT2u: nat -> real,
                           c3Outcomes: nat -> nat -> Attempt<OrchestratorReply>, c3FallbackT2u: nat -> real)
    ensures InRunOrder(C1Trials(n, c1T2u) + C2Trials(n, c2Outcomes, c2FallbackT2u) + C3Trials(n, c3Outcomes, c3FallbackT2u), n)
  {
    var b1 := C1Trials(n, c1T2u);
    var b2 := C2Trials(n, c2Outcomes, c2FallbackT2u);
    var b3 := C3Trials(n, c3Outcomes, c3FallbackT2u);
    var trials := b1 + b2 + b3;
    forall c: Condition, i: nat | i < n
      ensures HoldsTrial(trials, n, c, i)
    {
      match c
      case C1 =>
        C1TrialsAt(n, c1T2u, i);
        assert trials[i] == b1[i];
      case C2 =>
        C2TrialsAt(n, c2Outcomes, c2FallbackT2u, i);
        assert trials[n + i] == b2[i];
      case C3 =>
        C3TrialsAt(n, c3Outcomes, c3FallbackT2u, i);
        assert trials[2 * n + i] == b3[i];
    }
  }
}
