/** The multi-agent service: two model calls (diagnosis and business risk),
    made concurrently under one time limit, assembled into a brief with a
    fixed action list. The concurrency is not modelled: the pair of call
    outcomes, or the expiry of the time limit, is an input. */
module MultiAgent {
  import opened Wrappers
  import opened Text
  import opened Ollama

  /** How many characters of a model reply are kept. */
  const ReplyLimit: nat := 500

  /** How many characters of the incident context the prompts embed. */
  const ContextLimit: nat := 200

  /** `call_ollama_safe`: the `response` text of a 200 reply whose body is an
      object ("" when the key is absent), cut to 500 characters; `None` for
      any other status, for a body that is not an object, and for an
      exception. */
  function CallOllamaSafe(outcome: Outcome): (r: Option<string>)
    ensures r.Some? <==> outcome.Replied? && outcome.status == 200 && outcome.body.Object?
    ensures r.Some? ==> var text := outcome.body.response.GetOr("");
      |r.value| <= ReplyLimit && |r.value| <= |text| && r.value == text[..|r.value|] && (|text| <= ReplyLimit ==> r.value == text)
  {
    match outcome
    case Replied(status, body) =>
      if status == 200 then
        match body
        case Object(response) => Some(Take(response.GetOr(""), ReplyLimit))
        case NotObject => None
      else None
    case Raised => None
  }

  /** The diagnosis prompt. */
  function DiagnosisPrompt(context: string): string {
    "What caused this: " + Take(context, ContextLimit) + "\nAnswer briefly:"
  }

  /** The business-risk prompt. */
  function RiskPrompt(context: string): string {
    "Business impact: " + Take(context, ContextLimit) + "\nAnswer briefly:"
  }

  /** Both prompts depend on the first 200 characters of the context only. */
  lemma PromptsSeeContextPrefix(c1: string, c2: string)
    requires |c1| >= ContextLimit && |c2| >= ContextLimit && c1[..ContextLimit] == c2[..ContextLimit]
    ensures DiagnosisPrompt(c1) == DiagnosisPrompt(c2) && RiskPrompt(c1) == RiskPrompt(c2)
  {
  }

  /** What the two concurrent calls produced: both outcomes, or the expiry of
      the 180-second limit on the pair. */
  datatype Gathered = Completed(diagnosis: Outcome, risk: Outcome) | TimedOut

  const TimeoutDiagnosis: string := "Analysis timeout"
  const TimeoutRisk: string := "Unable to assess"
  const DiagnosisFallback: string := "Database connection issues due to recent deployment"
  const RiskFallback: string := "High impact - authentication failures affecting users"

  /** The fixed recommended actions, in this order. */
  const StandardActions: seq<string> := [
    "Rollback auth-service deployment to v2.3.0",
    "Verify database connection pool configuration",
    "Monitor error rates for 5 minutes"
  ]

  /** A value that is missing, empty or shorter than 10 characters is
      replaced by the fallback. */
  function OrFallback(value: Option<string>, fallback: string): (r: string)
    ensures value.Some? && |value.value| >= 10 ==> r == value.value
    ensures value.None? || |value.value| < 10 ==> r == fallback
  {
    if value.None? || |value.value| < 10 then fallback else value.value
  }

  /** The two texts the brief is built from, after the timeout substitutes
      and the fallbacks. */
  function Assessments(gathered: Gathered): (r: (string, string))
    ensures |r.0| >= 10 && |r.1| >= 10
  {
    var (diagnosis, risk) :=
      match gathered
      case Completed(d, k) => (CallOllamaSafe(d), CallOllamaSafe(k))
      case TimedOut => (Some(TimeoutDiagnosis), Some(TimeoutRisk));
    (OrFallback(diagnosis, DiagnosisFallback), OrFallback(risk, RiskFallback))
  }

  /** The brief, as its f-string builds it. */
  function Brief(diagnosis: string, risk: string, actions: seq<string>): string {
    "DIAGNOSIS: " + diagnosis + "\n" + "\n"
      + "BUSINESS IMPACT: " + risk + "\n" + "\n"
      + "RECOMMENDED ACTIONS:" + "\n"
      + Join(Bullets(actions), "\n")
  }

  /** One "- action" line per action. */
  function Bullets(actions: seq<string>): (r: seq<string>)
    ensures |r| == |actions|
  {
    seq(|actions|, i requires 0 <= i < |actions| => "- " + actions[i])
  }

  /** The brief's lines, one per element. */
  function BriefLines(diagnosis: string, risk: string, actions: seq<string>): seq<string> {
    ["DIAGNOSIS: " + diagnosis, "", "BUSINESS IMPACT: " + risk, "", "RECOMMENDED ACTIONS:"] + Bullets(actions)
  }

  datatype Orchestration = Orchestration(brief: string, actions: seq<string>, agentOutputs: map<string, string>)

  /** The `orchestrate` response for the calls' results. */
  function Orchestrate(gathered: Gathered): (r: Orchestration)
    ensures r.actions == StandardActions
    ensures r.agentOutputs.Keys == {"diagnosis", "risk_assessment"}
    ensures r.brief == Brief(r.agentOutputs["diagnosis"], r.agentOutputs["risk_assessment"], StandardActions)
    ensures |r.agentOutputs["diagnosis"]| >= 10 && |r.agentOutputs["risk_assessment"]| >= 10
  {
    var (diagnosis, risk) := Assessments(gathered);
    Orchestration(Brief(diagnosis, risk, StandardActions), StandardActions,
                  map["diagnosis" := diagnosis, "risk_assessment" := risk])
  }

  /** On timeout the substitutes are long enough to survive the fallback
      check, so they reach the response unchanged. */
  lemma TimeoutKeepsSubstitutes()
    ensures Orchestrate(TimedOut).agentOutputs == map["diagnosis" := TimeoutDiagnosis, "risk_assessment" := TimeoutRisk]
  {
    assert |TimeoutDiagnosis| == 16 && |TimeoutRisk| == 16;
  }

  /** A reply that makes it through is kept, cut to 500 characters, when it
      has at least 10 characters; otherwise the fallback is used. */
  lemma CompletedReplies(d: Outcome, k: Outcome)
    ensures var r := Orchestrate(Completed(d, k)).agentOutputs;
      && (CallOllamaSafe(d).Some? && |CallOllamaSafe(d).value| >= 10 ==> r["diagnosis"] == CallOllamaSafe(d).value)
      && (CallOllamaSafe(d).None? || |CallOllamaSafe(d).value| < 10 ==> r["diagnosis"] == DiagnosisFallback)
      && (CallOllamaSafe(k).Some? && |CallOllamaSafe(k).value| >= 10 ==> r["risk_assessment"] == CallOllamaSafe(k).value)
      && (CallOllamaSafe(k).None? || |CallOllamaSafe(k).value| < 10 ==> r["risk_assessment"] == RiskFallback)
  {
  }

  /** The brief is its lines joined by newlines. */
  lemma BriefIsJoinedLines(diagnosis: string, risk: string, actions: seq<string>)
    requires |actions| >= 1
    ensures Brief(diagnosis, risk, actions) == Join(BriefLines(diagnosis, risk, actions), "\n")
  {
    var head := ["DIAGNOSIS: " + diagnosis, "", "BUSINESS IMPACT: " + risk, "", "RECOMMENDED ACTIONS:"];
    JoinAppend(head, Bullets(actions), "\n");
    JoinFive("DIAGNOSIS: " + diagnosis, "", "BUSINESS IMPACT: " + risk, "", "RECOMMENDED ACTIONS:", "\n");
  }

  /** No line of the brief holds a newline when neither text nor any action does. */
  lemma BriefLinesHaveNoNewline(diagnosis: string, risk: string, actions: seq<string>)
    requires '\n' !in diagnosis && '\n' !in risk
    requires forall i :: 0 <= i < |actions| ==> '\n' !in actions[i]
    ensures forall i :: 0 <= i < |BriefLines(diagnosis, risk, actions)| ==> '\n' !in BriefLines(diagnosis, risk, actions)[i]
  {
    var lines := BriefLines(diagnosis, risk, actions);
    forall i | 0 <= i < |lines| ensures '\n' !in lines[i] {
      if i >= 5 {
        assert lines[i] == "- " + actions[i - 5];
      }
    }
  }

  /** When neither text nor any action holds a newline, splitting the brief
      on newlines gives exactly its lines: the diagnosis line, a blank, the
      impact line, a blank, the heading and one "- action" line per action. */
  lemma BriefSplitsIntoLines(diagnosis: string, risk: string, actions: seq<string>)
    requires |actions| >= 1
    requires '\n' !in diagnosis && '\n' !in risk
    requires forall i :: 0 <= i < |actions| ==> '\n' !in actions[i]
    ensures SplitOn(Brief(diagnosis, risk, actions), '\n') == BriefLines(diagnosis, risk, actions)
  {
    BriefIsJoinedLines(diagnosis, risk, actions);
    BriefLinesHaveNoNewline(diagnosis, risk, actions);
    SplitOnJoin(BriefLines(diagnosis, risk, actions), '\n');
  }
}
