/** The decision-quality (DQ) scorer: a trial's proposed actions, scored
    against a known-correct resolution on validity, specificity and
    correctness, combined with fixed weights. All arithmetic is exact. */
module DQScoring {
  import opened Text

  /** The composite weights fixed by the scorer's constructor. */
  const Alpha: real := 0.40
  const Beta: real := 0.30
  const Gamma: real := 0.30

  /** The resolution every trial of the auth-service incident is scored against. */
  const GroundTruth: string := "rollback auth-service deployment to v2.3.0 verify database connection pool"

  /** Keyword tiers for specificity, most specific first. */
  const VersionKeywords: seq<string> := ["v2.", "version"]
  const ComponentKeywords: seq<string> := ["rollback", "auth", "database"]
  const ServiceKeywords: seq<string> := ["deployment", "service"]

  datatype Scores = Scores(validity: real, specificity: real, correctness: real, dq: real, actionCount: nat)

  const ZeroScores: Scores := Scores(0.0, 0.0, 0.0, 0.0, 0)

  predicate InUnit(x: real) { 0.0 <= x <= 1.0 }

  /** Whether `s` holds one of `keywords` as a substring. */
  predicate MentionsAny(s: string, keywords: seq<string>) {
    keywords != [] && (Contains(s, keywords[0]) || MentionsAny(s, keywords[1..]))
  }

  /** Specificity of one action: the first keyword tier its lower-cased text
      mentions decides the score (SpecificityTiers). */
  function Specificity(action: string): (r: real)
    ensures InUnit(r)
  {
    var a := Lower(action);
    if MentionsAny(a, VersionKeywords) then 1.0
    else if MentionsAny(a, ComponentKeywords) then 0.67
    else if MentionsAny(a, ServiceKeywords) then 0.33
    else 0.0
  }

  /** Each specificity value belongs to exactly one tier, tried in order. */
  lemma SpecificityTiers(action: string)
    ensures var a := Lower(action);
      && (Specificity(action) == 1.0 <==> MentionsAny(a, VersionKeywords))
      && (Specificity(action) == 0.67 <==> !MentionsAny(a, VersionKeywords) && MentionsAny(a, ComponentKeywords))
      && (Specificity(action) == 0.33 <==>
            !MentionsAny(a, VersionKeywords) && !MentionsAny(a, ComponentKeywords) && MentionsAny(a, ServiceKeywords))
      && (Specificity(action) == 0.0 <==>
            !MentionsAny(a, VersionKeywords) && !MentionsAny(a, ComponentKeywords) && !MentionsAny(a, ServiceKeywords))
  {
  }

  /** The discrete correctness score of one action for a given token-overlap ratio. */
  function CorrectnessFor(ratio: real): (r: real)
    ensures InUnit(r)
  {
    if ratio >= 0.7 then 1.0
    else if ratio >= 0.5 then 0.75
    else if ratio >= 0.3 then 0.50
    else if ratio >= 0.1 then 0.25
    else 0.0
  }

  /** A larger overlap never scores lower. */
  lemma CorrectnessForMonotone(x: real, y: real)
    requires x <= y
    ensures CorrectnessFor(x) <= CorrectnessFor(y)
  {
  }

  lemma {:induction false} SubsetCardinality<T>(a: set<T>, b: set<T>)
    requires a <= b
    ensures |a| <= |b|
    decreases |b|
  {
    if a != {} {
      var x :| x in a;
      SubsetCardinality(a - {x}, b - {x});
    }
  }

  /** The share of ground-truth tokens that the lower-cased action also holds;
      0 when the ground truth has no tokens. */
  function OverlapRatio(gtTokens: set<string>, action: string): (r: real)
    ensures InUnit(r)
    ensures gtTokens != {} && gtTokens <= Tokens(Lower(action)) ==> r == 1.0
    ensures gtTokens * Tokens(Lower(action)) == {} ==> r == 0.0
  {
    if |gtTokens| == 0 then 0.0
    else
      var shared := gtTokens * Tokens(Lower(action));
      SubsetCardinality(shared, gtTokens);
      assert gtTokens <= Tokens(Lower(action)) ==> shared == gtTokens;
      Ratio(|shared|, |gtTokens|)
  }

  /** `part / whole` as an exact fraction. */
  function Ratio(part: nat, whole: nat): (r: real)
    requires part <= whole && whole > 0
    ensures InUnit(r)
    ensures r == 1.0 <==> part == whole
    ensures r == 0.0 <==> part == 0
  {
    (part as real) / (whole as real)
  }

  function Sum(xs: seq<real>): real {
    if xs == [] then 0.0 else xs[0] + Sum(xs[1..])
  }

  lemma {:induction false} SumBounds(xs: seq<real>)
    requires forall i :: 0 <= i < |xs| ==> InUnit(xs[i])
    ensures 0.0 <= Sum(xs) <= |xs| as real
  {
    if xs != [] {
      SumBounds(xs[1..]);
    }
  }

  /** `sum(xs) / len(xs) if xs else 0.0` */
  function Mean(xs: seq<real>): (m: real)
    ensures (forall i :: 0 <= i < |xs| ==> InUnit(xs[i])) ==> InUnit(m)
  {
    if xs == [] then 0.0
    else
      var n := |xs| as real;
      SumBounds'(xs);
      Sum(xs) / n
  }

  /** SumBounds under the hypothesis it needs, usable from an expression. */
  lemma SumBounds'(xs: seq<real>)
    ensures (forall i :: 0 <= i < |xs| ==> InUnit(xs[i])) ==> 0.0 <= Sum(xs) <= |xs| as real
  {
    if forall i :: 0 <= i < |xs| ==> InUnit(xs[i]) {
      SumBounds(xs);
    }
  }

  /** Per-action specificities, in action order. */
  function SpecificityScores(actions: seq<string>): (r: seq<real>)
    ensures |r| == |actions|
    ensures forall i :: 0 <= i < |r| ==> InUnit(r[i])
  {
    seq(|actions|, i requires 0 <= i < |actions| => Specificity(actions[i]))
  }

  /** Per-action correctness scores against the ground-truth token set, in action order. */
  function CorrectnessScores(gtTokens: set<string>, actions: seq<string>): (r: seq<real>)
    ensures |r| == |actions|
    ensures forall i :: 0 <= i < |r| ==> InUnit(r[i])
  {
    seq(|actions|, i requires 0 <= i < |actions| => CorrectnessFor(OverlapRatio(gtTokens, actions[i])))
  }

  /** What `score_trial` computes for a scorer whose (already lower-cased)
      ground truth is `groundTruth`, before rounding. */
  function TrialScores(groundTruth: string, actions: seq<string>): (s: Scores)
    ensures s.actionCount == |actions|
    ensures actions == [] ==> s.validity == 0.0 && s.specificity == 0.0 && s.correctness == 0.0 && s.dq == 0.0
    ensures actions != [] ==> s.validity == 1.0
    ensures InUnit(s.validity) && InUnit(s.specificity) && InUnit(s.correctness)
    ensures s.dq == Alpha * s.validity + Beta * s.specificity + Gamma * s.correctness
    ensures InUnit(s.dq)
    ensures actions != [] ==> s.dq >= 0.40
  {
    if actions == [] then ZeroScores
    else
      var specificity := Mean(SpecificityScores(actions));
      var correctness := Mean(CorrectnessScores(Tokens(groundTruth), actions));
      Scores(1.0, specificity, correctness, Alpha * 1.0 + Beta * specificity + Gamma * correctness, |actions|)
  }

  /** `DQScorer`: the lower-cased ground truth and the three weights. */
  datatype DQScorer = DQScorer(groundTruth: string, alpha: real, beta: real, gamma: real) {

    /** What the constructor establishes and nothing changes afterwards. */
    predicate Valid() {
      NoUpper(groundTruth) && alpha == Alpha && beta == Beta && gamma == Gamma
    }

    /** `score_trial`: per-action scores are collected by the two loops
        (SpecificityLoop, CorrectnessLoop) and their means combined with the
        scorer's weights. */
    method ScoreTrial(actions: seq<string>) returns (s: Scores)
      requires Valid()
      ensures s == TrialScores(groundTruth, actions)
    {
      if |actions| == 0 {
        return Scores(0.0, 0.0, 0.0, 0.0, 0);
      }
      var validity := 1.0;
      var specificities := SpecificityLoop(actions);
      var specificity := Mean(specificities);
      var correctnessScores := CorrectnessLoop(groundTruth, actions);
      var correctness := Mean(correctnessScores);
      var dq := alpha * validity + beta * specificity + gamma * correctness;
      s := Scores(validity, specificity, correctness, dq, |actions|);
    }
  }

  /** The first loop of `score_trial`: one keyword-tier score per action. */
  method SpecificityLoop(actions: seq<string>) returns (specificities: seq<real>)
    ensures specificities == SpecificityScores(actions)
  {
    specificities := [];
    for i := 0 to |actions|
      invariant |specificities| == i
      invariant forall k :: 0 <= k < i ==> specificities[k] == Specificity(actions[k])
    {
      var actionLower := Lower(actions[i]);
      var score := 0.0;
      if MentionsAny(actionLower, VersionKeywords) {
        score := 1.0;
      } else if MentionsAny(actionLower, ComponentKeywords) {
        score := 0.67;
      } else if MentionsAny(actionLower, ServiceKeywords) {
        score := 0.33;
      }
      specificities := specificities + [score];
    }
  }

  /** The second loop of `score_trial`: one thresholded token-overlap score per action. */
  method CorrectnessLoop(groundTruth: string, actions: seq<string>) returns (correctnessScores: seq<real>)
    ensures correctnessScores == CorrectnessScores(Tokens(groundTruth), actions)
  {
    correctnessScores := [];
    var gtTokens := Tokens(groundTruth);
    for i := 0 to |actions|
      invariant |correctnessScores| == i
      invariant forall k :: 0 <= k < i ==> correctnessScores[k] == CorrectnessFor(OverlapRatio(gtTokens, actions[k]))
    {
      var overlapRatio := OverlapRatio(gtTokens, actions[i]);
      var score: real;
      if overlapRatio >= 0.7 {
        score := 1.0;
      } else if overlapRatio >= 0.5 {
        score := 0.75;
      } else if overlapRatio >= 0.3 {
        score := 0.50;
      } else if overlapRatio >= 0.1 {
        score := 0.25;
      } else {
        score := 0.0;
      }
      correctnessScores := correctnessScores + [score];
    }
  }

  /** `DQScorer(ground_truth)`: stores the ground truth lower-cased and fixes the weights. */
  function NewDQScorer(groundTruth: string): (scorer: DQScorer)
    ensures scorer.Valid()
    ensures scorer.groundTruth == Lower(groundTruth)
  {
    LowerHasNoUpper(groundTruth);
    DQScorer(Lower(groundTruth), Alpha, Beta, Gamma)
  }

  /** The composite weights sum to one. */
  lemma WeightsSumToOne()
    ensures Alpha + Beta + Gamma == 1.0
  {
  }

  /** Scoring is case-insensitive: actions that differ only in letter case score alike. */
  lemma ScoresIgnoreCase(groundTruth: string, a: seq<string>, b: seq<string>)
    requires |a| == |b|
    requires forall i :: 0 <= i < |a| ==> SameUpToCase(a[i], b[i])
    ensures TrialScores(groundTruth, a) == TrialScores(groundTruth, b)
  {
    forall i | 0 <= i < |a| ensures Lower(a[i]) == Lower(b[i]) {
      SameUpToCaseLower(a[i], b[i]);
    }
    assert SpecificityScores(a) == SpecificityScores(b);
    assert CorrectnessScores(Tokens(groundTruth), a) == CorrectnessScores(Tokens(groundTruth), b);
  }

  lemma GroundTruthSpecificity()
    ensures Specificity(GroundTruth) == 1.0
  {
    var gt := Lower(GroundTruth);
    assert gt[36] == 'v' && gt[37] == '2' && gt[38] == '.';
    assert gt[36..39] == "v2.";
    ContainsAt(gt, "v2.", 36);
    assert MentionsAny(gt, VersionKeywords);
  }

  lemma GroundTruthCorrectness()
    ensures CorrectnessFor(OverlapRatio(Tokens(Lower(GroundTruth)), GroundTruth)) == 1.0
  {
    var gt := Lower(GroundTruth);
    assert GroundTruth[73] == 'l';
    assert gt[73] == LowerChar(GroundTruth[73]) == 'l';
    WordsNonEmpty(gt, 73);
    assert Words(gt)[0] in Tokens(gt);
  }

  /** The ground-truth resolution, proposed as the only action, scores 1.0 on everything. */
  lemma GroundTruthScoresPerfectly()
    ensures TrialScores(NewDQScorer(GroundTruth).groundTruth, [GroundTruth]) == Scores(1.0, 1.0, 1.0, 1.0, 1)
  {
    var gt := NewDQScorer(GroundTruth).groundTruth;
    assert gt == Lower(GroundTruth);
    GroundTruthSpecificity();
    GroundTruthCorrectness();
    var sp := SpecificityScores([GroundTruth]);
    var co := CorrectnessScores(Tokens(gt), [GroundTruth]);
    assert sp == [1.0];
    assert co == [1.0];
    assert Sum([1.0]) == 1.0 by { assert [1.0][1..] == []; }
    assert Mean(sp) == 1.0;
    assert Mean(co) == 1.0;
  }
}
