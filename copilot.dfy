/** The single-agent copilot service: a circuit breaker in front of the
    language-model server, and the parser that turns the model's free text
    into a summary and at most three actions. Clock readings are parameters. */
module Copilot {
  import opened Wrappers
  import opened Text
  import opened Ollama

  // ---------------------------------------------------------------------------
  // The circuit breaker as a state machine on values
  // ---------------------------------------------------------------------------

  datatype BreakerState = Closed | Open | HalfOpen

  /** The breaker's mutable fields. */
  datatype Breaker = Breaker(failureCount: nat, lastFailureTime: Option<real>, state: BreakerState)

  const NewBreaker: Breaker := Breaker(0, None, Closed)

  /** What the three methods keep: an open or half-open breaker has seen at
      least `threshold` failures, the latest at a known time; with a positive
      threshold a closed breaker has seen fewer. */
  predicate BreakerInv(b: Breaker, threshold: int) {
    && (b.state != Closed ==> b.failureCount >= threshold && b.lastFailureTime.Some?)
    && (threshold >= 1 && b.state == Closed ==> b.failureCount < threshold)
  }

  /** `can_attempt` at clock reading `now`: whether a call may go ahead, and
      the breaker afterwards. */
  function AttemptStep(b: Breaker, timeout: real, now: real): (r: (bool, Breaker))
    requires b.state == Open ==> b.lastFailureTime.Some?
    ensures r.1.failureCount == b.failureCount && r.1.lastFailureTime == b.lastFailureTime
    ensures !r.0 <==> b.state == Open && now - b.lastFailureTime.value <= timeout
    ensures r.1.state == (if b.state == Open && r.0 then HalfOpen else b.state)
    ensures forall threshold :: BreakerInv(b, threshold) ==> BreakerInv(r.1, threshold)
  {
    match b.state
    case Closed => (true, b)
    case Open =>
      if now - b.lastFailureTime.value > timeout then (true, b.(state := HalfOpen)) else (false, b)
    case HalfOpen => (true, b)
  }

  /** `record_success` */
  function SuccessStep(b: Breaker): (r: Breaker)
    ensures r.failureCount == 0 && r.state == Closed && r.lastFailureTime == b.lastFailureTime
    ensures forall threshold :: BreakerInv(r, threshold)
  {
    b.(failureCount := 0, state := Closed)
  }

  /** `record_failure` at clock reading `now`. */
  function FailureStep(b: Breaker, threshold: int, now: real): (r: Breaker)
    ensures r.failureCount == b.failureCount + 1 && r.lastFailureTime == Some(now)
    ensures r.state == Open <==> b.failureCount + 1 >= threshold || b.state == Open
    ensures r.state == HalfOpen <==> b.failureCount + 1 < threshold && b.state == HalfOpen
    ensures BreakerInv(b, threshold) ==> BreakerInv(r, threshold)
  {
    var counted := b.(failureCount := b.failureCount + 1, lastFailureTime := Some(now));
    if counted.failureCount >= threshold then counted.(state := Open) else counted
  }

  /** A failure while half-open reopens the breaker at once: the count was
      not reset on the way from open to half-open. */
  lemma HalfOpenFailureReopens(b: Breaker, threshold: int, now: real)
    requires BreakerInv(b, threshold) && b.state == HalfOpen
    ensures FailureStep(b, threshold, now).state == Open
  {
  }

  /** The breaker after a run of failures at the given clock readings. */
  function FailureSteps(b: Breaker, threshold: int, times: seq<real>): (r: Breaker)
    ensures r.failureCount == b.failureCount + |times|
    decreases |times|
  {
    if times == [] then b else FailureSteps(FailureStep(b, threshold, times[0]), threshold, times[1..])
  }

  /** From a closed breaker with a positive threshold, the breaker stays
      closed until the failure that brings the count to the threshold, and
      that failure opens it. */
  lemma {:induction false} FailuresOpenAtThreshold(b: Breaker, threshold: int, times: seq<real>)
    requires threshold >= 1 && BreakerInv(b, threshold) && b.state == Closed
    requires b.failureCount + |times| <= threshold
    ensures FailureSteps(b, threshold, times).state == Open <==> b.failureCount + |times| == threshold
    ensures b.failureCount + |times| < threshold ==> FailureSteps(b, threshold, times).state == Closed
    decreases |times|
  {
    if times != [] {
      var b' := FailureStep(b, threshold, times[0]);
      if b'.state == Closed {
        FailuresOpenAtThreshold(b', threshold, times[1..]);
      } else {
        assert |times| == 1;
      }
    }
  }

  // ---------------------------------------------------------------------------
  // The breaker object
  // ---------------------------------------------------------------------------

  /** `CircuitBreaker`; the service keeps one at module level. */
  class CircuitBreaker {
    var failureCount: nat
    const failureThreshold: int
    const timeout: real
    var lastFailureTime: Option<real>
    var state: BreakerState

    function Snapshot(): Breaker
      reads this
    {
      Breaker(failureCount, lastFailureTime, state)
    }

    predicate Valid()
      reads this
    {
      BreakerInv(Snapshot(), failureThreshold)
    }

    /** A new breaker is closed, with no failures and no failure time. */
    constructor(failureThreshold: int := 5, timeout: real := 60.0)
      ensures Snapshot() == NewBreaker
      ensures this.failureThreshold == failureThreshold && this.timeout == timeout
      ensures Valid()
    {
      this.failureCount := 0;
      this.failureThreshold := failureThreshold;
      this.timeout := timeout;
      this.lastFailureTime := None;
      this.state := Closed;
    }

    /** `can_attempt`: closed and half-open breakers allow the call; an open
        one allows it, turning half-open, only once more than `timeout`
        seconds have passed since the last failure. */
    method CanAttempt(now: real) returns (allowed: bool)
      requires Valid()
      modifies this
      ensures (allowed, Snapshot()) == AttemptStep(old(Snapshot()), timeout, now)
      ensures Valid()
    {
      if state == Closed {
        return true;
      } else if state == Open {
        if now - lastFailureTime.value > timeout {
          state := HalfOpen;
          return true;
        }
        return false;
      } else {
        return true;
      }
    }

    /** `record_success`: back to closed with no failures. */
    method RecordSuccess()
      requires Valid()
      modifies this
      ensures Snapshot() == SuccessStep(old(Snapshot()))
      ensures Valid()
    {
      failureCount := 0;
      state := Closed;
    }

    /** `record_failure`: one more failure, stamped `now`; open once the
        count reaches the threshold. */
    method RecordFailure(now: real)
      requires Valid()
      modifies this
      ensures Snapshot() == FailureStep(old(Snapshot()), failureThreshold, now)
      ensures Valid()
    {
      failureCount := failureCount + 1;
      lastFailureTime := Some(now);
      if failureCount >= failureThreshold {
        state := Open;
      }
    }
  }

  // ---------------------------------------------------------------------------
  // `call_ollama_safe`
  // ---------------------------------------------------------------------------

  /** What `call_ollama_safe` returns and leaves in the breaker, for an attempt
      started at `startTime` whose outcome arrives at `endTime`. A 200 reply
      whose body is not an object first records a success and then, when
      `.json()` raises, a failure. */
  function CallResult(b: Breaker, threshold: int, timeout: real, startTime: real, endTime: real,
                      outcome: Outcome): (r: (Option<string>, Breaker))
    requires b.state == Open ==> b.lastFailureTime.Some?
  {
    var (allowed, b1) := AttemptStep(b, timeout, startTime);
    if !allowed then (None, b1)
    else
      match outcome
      case Replied(status, body) =>
        if status == 200 then
          match body
          case Object(response) => (Some(response.GetOr("")), SuccessStep(b1))
          case NotObject => (None, FailureStep(SuccessStep(b1), threshold, endTime))
        else (None, FailureStep(b1, threshold, endTime))
      case Raised => (None, FailureStep(b1, threshold, endTime))
  }

  /** A refused attempt returns nothing and leaves the counters alone; a
      well-formed 200 reply is returned and records one success; any other
      status or an exception records one failure. */
  lemma CallResultCases(b: Breaker, threshold: int, timeout: real, startTime: real, endTime: real, outcome: Outcome)
    requires BreakerInv(b, threshold)
    ensures var r := CallResult(b, threshold, timeout, startTime, endTime, outcome);
      && (!AttemptStep(b, timeout, startTime).0 ==> r.0.None? && r == (None, b))
      && (AttemptStep(b, timeout, startTime).0 && outcome.Replied? && outcome.status == 200 && outcome.body.Object? ==>
            r.0 == Some(outcome.body.response.GetOr("")) && r.1 == Breaker(0, b.lastFailureTime, Closed))
      && (AttemptStep(b, timeout, startTime).0 && (outcome.Raised? || outcome.status != 200) ==>
            r.0.None? && r.1.failureCount == b.failureCount + 1 && r.1.lastFailureTime == Some(endTime))
      && (AttemptStep(b, timeout, startTime).0 && outcome.Replied? && outcome.status == 200 && outcome.body.NotObject? ==>
            r.0.None? && r.1.failureCount == 1 && r.1.lastFailureTime == Some(endTime))
      && BreakerInv(r.1, threshold)
  {
  }

  /** `call_ollama_safe` on the service's breaker. */
  method CallOllamaSafe(cb: CircuitBreaker, startTime: real, endTime: real, outcome: Outcome) returns (output: Option<string>)
    requires cb.Valid()
    modifies cb
    ensures (output, cb.Snapshot()) == CallResult(old(cb.Snapshot()), cb.failureThreshold, cb.timeout, startTime, endTime, outcome)
    ensures cb.Valid()
  {
    var allowed := cb.CanAttempt(startTime);
    if !allowed {
      return None;
    }
    match outcome
    case Replied(status, body) =>
      if status == 200 {
        cb.RecordSuccess();
        match body
        case Object(response) =>
          return Some(response.GetOr(""));
        case NotObject =>
          cb.RecordFailure(endTime);
          return None;
      } else {
        cb.RecordFailure(endTime);
        return None;
      }
    case Raised =>
      cb.RecordFailure(endTime);
      return None;
  }

  // ---------------------------------------------------------------------------
  // Parsing the reply in `analyze_incident`
  // ---------------------------------------------------------------------------

  datatype Analysis = Analysis(summary: string, actions: seq<string>)

  /** Returned when the model gave nothing usable. */
  const FallbackSummary: string := "Service experiencing errors requiring immediate attention"
  const FallbackActions: seq<string> := ["Rollback recent deployment", "Check system logs and metrics"]

  /** Used when parsing found no summary or no action. */
  const DefaultSummary: string := "Service degradation detected"
  const DefaultActions: seq<string> := ["Investigate recent changes", "Review system metrics"]

  /** The stripped text between the first "SUMMARY:" and the following
      "ACTIONS:", or "" when there is no "SUMMARY:". */
  function SummaryOf(output: string): string {
    if Contains(output, "SUMMARY:") then Strip(Before(SecondPiece(output, "SUMMARY:"), "ACTIONS:")) else ""
  }

  /** The lines of the stripped text between the first and the second
      "ACTIONS:", or none when there is no "ACTIONS:". */
  function ActionLines(output: string): seq<string> {
    if Contains(output, "ACTIONS:") then SplitOn(Strip(SecondPiece(output, "ACTIONS:")), '\n') else []
  }

  predicate IsBullet(c: char) { c == '-' || c == '*' }

  /** The action one line contributes: a stripped line starting with '-' or
      '*', with the leading bullets and then surrounding whitespace removed,
      kept only when longer than 5 characters. */
  function ActionOfLine(line: string): (a: Option<string>)
    ensures a.Some? ==> |a.value| > 5 && !IsSpace(a.value[0]) && !IsSpace(a.value[|a.value| - 1])
    ensures a.Some? ==> var l := Strip(line); l != [] && IsBullet(l[0])
  {
    var l := Strip(line);
    if l != [] && IsBullet(l[0]) then
      var action := Strip(LStripChars(l, {'-', '*'}));
      if |action| > 5 then Some(action) else None
    else None
  }

  /** The actions the lines contribute, in line order. */
  function BulletActions(lines: seq<string>): (actions: seq<string>)
    ensures |actions| <= |lines|
    ensures forall k :: 0 <= k < |actions| ==> |actions[k]| > 5
  {
    FilterMapAll(lines, ActionOfLine, (a: string) => |a| > 5);
    FilterMap(lines, ActionOfLine)
  }

  /** The lines are read one by one: the actions of two runs of lines are
      those of the first run followed by those of the second, and a single
      line gives its own action or none. */
  lemma BulletActionsLineByLine(first: seq<string>, second: seq<string>, line: string)
    ensures BulletActions(first + second) == BulletActions(first) + BulletActions(second)
    ensures BulletActions([line]) == if ActionOfLine(line).Some? then [ActionOfLine(line).value] else []
  {
    FilterMapAppend(first, second, ActionOfLine);
    assert [line][..0] == [];
  }

  /** Every action a line contributes is among the parsed actions, and when
      no line contributes one none is found. */
  lemma BulletActionsFromLines(lines: seq<string>)
    ensures forall i :: 0 <= i < |lines| && ActionOfLine(lines[i]).Some? ==> ActionOfLine(lines[i]).value in BulletActions(lines)
    ensures (forall i :: 0 <= i < |lines| ==> ActionOfLine(lines[i]).None?) ==> BulletActions(lines) == []
  {
    forall i | 0 <= i < |lines| && ActionOfLine(lines[i]).Some?
      ensures ActionOfLine(lines[i]).value in BulletActions(lines)
    {
      FilterMapFound(lines, ActionOfLine, i);
    }
    if forall i :: 0 <= i < |lines| ==> ActionOfLine(lines[i]).None? {
      FilterMapNone(lines, ActionOfLine);
    }
  }

  /** The line loop of `analyze_incident`. */
  method ParseActions(actionsText: string) returns (actions: seq<string>)
    ensures actions == BulletActions(SplitOn(actionsText, '\n'))
  {
    var lines := SplitOn(actionsText, '\n');
    actions := [];
    for i := 0 to |lines|
      invariant actions == BulletActions(lines[..i])
    {
      FilterMapExtend(lines, ActionOfLine, i);
      var line := Strip(lines[i]);
      if line != [] && (line[0] == '-' || line[0] == '*') {
        var action := Strip(LStripChars(line, {'-', '*'}));
        if |action| > 5 {
          assert ActionOfLine(lines[i]) == Some(action);
          actions := actions + [action];
        } else {
          assert ActionOfLine(lines[i]).None?;
        }
      } else {
        assert ActionOfLine(lines[i]).None?;
      }
    }
    assert lines[..|lines|] == lines;
  }

  /** The response `analyze_incident` builds from the model's output. */
  function Respond(output: Option<string>): (r: Analysis)
    ensures output.None? || |output.value| < 20 ==> r == Analysis(FallbackSummary, FallbackActions)
    ensures 1 <= |r.summary| <= 300
    ensures 1 <= |r.actions| <= 3 && forall k :: 0 <= k < |r.actions| ==> |r.actions[k]| > 5
  {
    if output.None? || |output.value| < 20 then Analysis(FallbackSummary, FallbackActions)
    else
      var summary := SummaryOf(output.value);
      var actions := BulletActions(ActionLines(output.value));
      Analysis(Take(if summary == [] then DefaultSummary else summary, 300),
               Take(if actions == [] then DefaultActions else actions, 3))
  }

  /** `analyze_incident`: one guarded model call, then the parse with its
      fallbacks and truncations. */
  method AnalyzeIncident(cb: CircuitBreaker, startTime: real, endTime: real, outcome: Outcome) returns (reply: Analysis)
    requires cb.Valid()
    modifies cb
    ensures var r := CallResult(old(cb.Snapshot()), cb.failureThreshold, cb.timeout, startTime, endTime, outcome);
      reply == Respond(r.0) && cb.Snapshot() == r.1
    ensures cb.Valid()
  {
    var output := CallOllamaSafe(cb, startTime, endTime, outcome);
    if output.None? || |output.value| < 20 {
      return Analysis(FallbackSummary, FallbackActions);
    }
    var text := output.value;
    var summary := "";
    var actions := [];
    if Contains(text, "SUMMARY:") {
      summary := Strip(Before(SecondPiece(text, "SUMMARY:"), "ACTIONS:"));
    }
    if Contains(text, "ACTIONS:") {
      var actionsText := Strip(SecondPiece(text, "ACTIONS:"));
      actions := ParseActions(actionsText);
    }
    if summary == [] {
      summary := DefaultSummary;
    }
    if actions == [] {
      actions := DefaultActions;
    }
    reply := Analysis(Take(summary, 300), Take(actions, 3));
  }

  /** The reply's actions: the fallback pair for a missing or short output;
      otherwise the actions of the bullet lines after the first "ACTIONS:",
      in line order and cut to the first three, or the default pair when no
      line gives one. */
  lemma ParsedActionsAreBullets(output: string)
    ensures var found := BulletActions(ActionLines(output));
      var actions := Respond(Some(output)).actions;
      && (|output| < 20 ==> actions == FallbackActions)
      && (|output| >= 20 && found != [] ==> actions == found[..if |found| < 3 then |found| else 3])
      && (|output| >= 20 && found == [] ==> actions == DefaultActions)
  {
    var found := BulletActions(ActionLines(output));
    if |output| >= 20 && found == [] {
      assert |DefaultActions| <= 3;
    }
  }

  /** The reply's summary: the fallback for a missing or short output;
      otherwise the text after the first "SUMMARY:" cut to 300 characters,
      or the default when there is none. */
  lemma ParsedSummaryIsKept(output: string)
    ensures var found := SummaryOf(output);
      var summary := Respond(Some(output)).summary;
      && (|output| < 20 ==> summary == FallbackSummary)
      && (|output| >= 20 && found != [] ==> summary == found[..if |found| < 300 then |found| else 300])
      && (|output| >= 20 && found == [] ==> summary == DefaultSummary)
  {
    var found := SummaryOf(output);
    if |output| >= 20 && found == [] {
      assert |DefaultSummary| <= 300;
    }
  }
}
