/** The results analyzer service: its own inline copy of the DQ scorer, the
    loop that re-scores the stored trials, and the per-condition summary. */
module Analyzer {
  import opened Wrappers
  import opened Text
  import opened DQScoring
  import opened TrialData
  import opened Sequences

  /** `SimpleDQScorer`: only the lower-cased ground truth is stored; the
      weights are literals in `score_trial`. */
  datatype SimpleDQScorer = SimpleDQScorer(groundTruth: string) {

    predicate Valid() {
      NoUpper(groundTruth)
    }

    /** `score_trial`, with its own literal weights 0.40/0.30/0.30: it
        returns exactly what `DQScorer.score_trial` returns for the same
        ground truth and actions. */
    method ScoreTrial(actions: seq<string>) returns (s: Scores)
      requires Valid()
      ensures s == TrialScores(groundTruth, actions)
    {
      if |actions| == 0 {
        return Scores(0.0, 0.0, 0.0, 0.0, 0);
      }
      var validity := 1.0;
      var specificities := SpecificityLoop(actions);
      var specificity := Mean(specificities);
      var correctnessScores := CorrectnessLoop(groundTruth, actions);
      var correctness := Mean(correctnessScores);
      var dq := 0.40 * validity + 0.30 * specificity + 0.30 * correctness;
      s := Scores(validity, specificity, correctness, dq, |actions|);
    }
  }

  /** `SimpleDQScorer(ground_truth)` */
  function NewSimpleDQScorer(groundTruth: string): (scorer: SimpleDQScorer)
    ensures scorer.Valid()
    ensures scorer.groundTruth == NewDQScorer(groundTruth).groundTruth
  {
    LowerHasNoUpper(groundTruth);
    SimpleDQScorer(Lower(groundTruth))
  }

  /** The two scorers agree on every ground truth and action list. */
  method ScorersAgree(groundTruth: string, actions: seq<string>) returns (simple: Scores, full: Scores)
    ensures simple == full
    ensures simple == TrialScores(Lower(groundTruth), actions)
  {
    var a := NewSimpleDQScorer(groundTruth);
    var b := NewDQScorer(groundTruth);
    simple := a.ScoreTrial(actions);
    full := b.ScoreTrial(actions);
  }

  /** The record-building loop of `main`: trials with a truthy `error` are
      skipped, every other trial yields one row in input order, and a kept
      trial without `trial_id`, `condition` or `t2u` stops the loop with a
      `KeyError` (ScoredRecordsOk, ScoredRecordsRows). */
  method BuildRecords(scorer: SimpleDQScorer, trials: seq<StoredTrial>) returns (r: Result<seq<ScoredRecord>>)
    requires scorer.Valid()
    ensures r == ScoredRecords(scorer.groundTruth, trials)
  {
    var records := [];
    for i := 0 to |trials|
      invariant ScoredRecords(scorer.groundTruth, trials[..i]) == Ok(records)
    {
      assert trials[..i + 1][..i] == trials[..i];
      var trial := trials[i];
      if trial.error {
        continue;
      }
      var actions := trial.actions.GetOr([]);
      var scores := scorer.ScoreTrial(actions);
      if trial.trialId.None? || trial.condition.None? || trial.t2u.None? {
        assert ScoredRecords(scorer.groundTruth, trials[..i + 1]) == Err("KeyError");
        ScoredRecordsErrPersists(scorer.groundTruth, trials, i + 1);
        return Err("KeyError");
      }
      var row := ScoredRecord(trial.trialId.value, trial.condition.value, trial.t2u.value,
                              scores.dq, scores.validity, scores.specificity,
                              scores.correctness, scores.actionCount);
      assert RowOf(scorer.groundTruth, trial) == Some(row);
      records := records + [row];
    }
    assert trials[..|trials|] == trials;
    return Ok(records);
  }

  /** The conditions the summary reports, in this order. */
  const SummaryConditions: seq<string> := ["C1", "C2", "C3"]

  /** One summary row. A mean over no rows is NaN in the source: `None` here.
      The standard deviations are not part of this model. */
  datatype SummaryRow = SummaryRow(
    condition: string,
    n: nat,
    meanT2u: Option<real>,
    meanDq: Option<real>,
    meanActions: Option<real>)

  /** `df[df.condition == condition]`: every record of that condition, as
      often as it occurs, in row order. */
  function WithCondition(records: seq<ScoredRecord>, condition: string): (r: seq<ScoredRecord>)
    ensures forall k :: 0 <= k < |r| ==> r[k].condition == condition
    ensures SubsequenceOf(r, records)
    ensures forall x :: multiset(r)[x] == if x.condition == condition then multiset(records)[x] else 0
  {
    if records == [] then []
    else
      var rest := WithCondition(records[1..], condition);
      assert records == [records[0]] + records[1..];
      if records[0].condition == condition then
        assert ([records[0]] + rest)[1..] == rest;
        [records[0]] + rest
      else rest
  }

  /** A pandas column mean: NaN (`None`) over no rows. */
  function MeanOrNaN(xs: seq<real>): (m: Option<real>)
    ensures m.None? <==> xs == []
    ensures m.Some? ==> m.value == Mean(xs)
  {
    if xs == [] then None else Some(Mean(xs))
  }

  function SummaryRowFor(records: seq<ScoredRecord>, condition: string): SummaryRow {
    var rows := WithCondition(records, condition);
    SummaryRow(condition, |rows|,
               MeanOrNaN(seq(|rows|, k requires 0 <= k < |rows| => rows[k].t2u)),
               MeanOrNaN(seq(|rows|, k requires 0 <= k < |rows| => rows[k].dq)),
               MeanOrNaN(seq(|rows|, k requires 0 <= k < |rows| => rows[k].actionCount as real)))
  }

  /** The summary loop of `main`. A frame built from no records has no
      `condition` column, so `df.condition` raises `AttributeError`;
      otherwise there are exactly three rows, for C1, C2 and C3 in that
      order, each counting and averaging the records of its condition. */
  method Summarize(records: seq<ScoredRecord>) returns (r: Result<seq<SummaryRow>>)
    ensures r.Err? <==> records == []
    ensures r.Ok? ==> |r.value| == 3
    ensures r.Ok? ==> forall j :: 0 <= j < 3 ==> r.value[j] == SummaryRowFor(records, SummaryConditions[j])
    ensures r.Ok? ==> forall j :: 0 <= j < 3 ==> r.value[j].n == |WithCondition(records, SummaryConditions[j])|
  {
    if records == [] {
      return Err("AttributeError");
    }
    var summary := [];
    for j := 0 to |SummaryConditions|
      invariant |summary| == j
      invariant forall l :: 0 <= l < j ==> summary[l] == SummaryRowFor(records, SummaryConditions[l])
    {
      var condition := SummaryConditions[j];
      var condRows := WithCondition(records, condition);
      var row := SummaryRow(condition, |condRows|,
                            MeanOrNaN(seq(|condRows|, k requires 0 <= k < |condRows| => condRows[k].t2u)),
                            MeanOrNaN(seq(|condRows|, k requires 0 <= k < |condRows| => condRows[k].dq)),
                            MeanOrNaN(seq(|condRows|, k requires 0 <= k < |condRows| => condRows[k].actionCount as real)));
      summary := summary + [row];
    }
    return Ok(summary);
  }

  /** When every record belongs to C1, C2 or C3, the three counts add up to
      the number of records. */
  lemma {:induction false} SummaryCountsPartition(records: seq<ScoredRecord>)
    requires forall k :: 0 <= k < |records| ==> records[k].condition in SummaryConditions
    ensures |WithCondition(records, "C1")| + |WithCondition(records, "C2")| + |WithCondition(records, "C3")| == |records|
  {
    if records != [] {
      assert records[0].condition in SummaryConditions;
      SummaryCountsPartition(records[1..]);
      WithConditionCount(records, "C1");
      WithConditionCount(records, "C2");
      WithConditionCount(records, "C3");
    }
  }

  /** The first record counts for its own condition only. */
  lemma WithConditionCount(records: seq<ScoredRecord>, condition: string)
    requires records != []
    ensures |WithCondition(records, condition)|
      == |WithCondition(records[1..], condition)| + (if records[0].condition == condition then 1 else 0)
  {
  }
}
