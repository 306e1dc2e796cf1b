/** Re-scoring stored trials with the current data-quality scorer: one row
    per trial, errors included, with the stored DQ kept for comparison. */
module Rescoring {
  import opened Wrappers
  import opened Text
  import opened DQScoring
  import opened TrialData

  /** One row of the re-scored frame. */
  datatype RescoredRow = RescoredRow(
    trialId: string,
    condition: string,
    originalDq: real,
    t2u: real,
    dq: real,
    validity: real,
    specificity: real,
    correctness: real,
    actionCount: nat,
    dqChange: real)

  /** The trial has the two keys read with `trial[...]`. */
  predicate HasKeys(t: StoredTrial) {
    t.trialId.Some? && t.condition.Some?
  }

  /** The row for one trial with both keys; `t2u` and `dq` default to 0. */
  function RescoredRowOf(groundTruth: string, t: StoredTrial): RescoredRow
    requires HasKeys(t)
  {
    var s := TrialScores(groundTruth, ActionsOf(t));
    var originalDq := t.dq.GetOr(0.0);
    RescoredRow(t.trialId.value, t.condition.value, originalDq, t.t2u.GetOr(0.0),
                s.dq, s.validity, s.specificity, s.correctness, s.actionCount, s.dq - originalDq)
  }

  /** What `rescore_trials`'s loop yields for `trials`: a row per trial, or
      the `KeyError` of the first trial lacking `trial_id` or `condition`. */
  function Rescored(groundTruth: string, trials: seq<StoredTrial>): Result<seq<RescoredRow>> {
    if trials == [] then Ok([])
    else
      var init := Rescored(groundTruth, trials[..|trials| - 1]);
      var last := trials[|trials| - 1];
      if init.Err? then init
      else if !HasKeys(last) then Err("KeyError")
      else Ok(init.value + [RescoredRowOf(groundTruth, last)])
  }

  lemma {:induction false} RescoredErrPersists(groundTruth: string, trials: seq<StoredTrial>, i: nat)
    requires i <= |trials|
    requires Rescored(groundTruth, trials[..i]).Err?
    ensures Rescored(groundTruth, trials) == Rescored(groundTruth, trials[..i])
    decreases |trials|
  {
    if i < |trials| {
      assert trials[..|trials| - 1][..i] == trials[..i];
      RescoredErrPersists(groundTruth, trials[..|trials| - 1], i);
    } else {
      assert trials[..i] == trials;
    }
  }

  /** `rescore_trials`: the scorer is built from the ground truth and applied
      to each trial's actions (`[]` when absent). */
  method RescoreTrials(trials: seq<StoredTrial>, groundTruth: string) returns (r: Result<seq<RescoredRow>>)
    ensures r == Rescored(Lower(groundTruth), trials)
  {
    var scorer := NewDQScorer(groundTruth);
    var rescoredData := [];
    for i := 0 to |trials|
      invariant Rescored(scorer.groundTruth, trials[..i]) == Ok(rescoredData)
    {
      assert trials[..i + 1][..i] == trials[..i];
      var trial := trials[i];
      if trial.trialId.None? || trial.condition.None? {
        RescoredErrPersists(scorer.groundTruth, trials, i + 1);
        return Err("KeyError");
      }
      var originalT2u := trial.t2u.GetOr(0.0);
      var originalDq := trial.dq.GetOr(0.0);
      var actions := trial.actions.GetOr([]);
      var scores := scorer.ScoreTrial(actions);
      var row := RescoredRow(trial.trialId.value, trial.condition.value, originalDq, originalT2u,
                             scores.dq, scores.validity, scores.specificity, scores.correctness,
                             scores.actionCount, scores.dq - originalDq);
      assert row == RescoredRowOf(scorer.groundTruth, trial);
      rescoredData := rescoredData + [row];
    }
    assert trials[..|trials|] == trials;
    return Ok(rescoredData);
  }

  /** Re-scoring fails exactly when some trial lacks `trial_id` or
      `condition`; unlike the cleaning loop, a trial's `error` key plays no
      part. */
  lemma {:induction false} RescoredOk(groundTruth: string, trials: seq<StoredTrial>)
    ensures Rescored(groundTruth, trials).Ok? <==> AllHaveKeys(trials)
    decreases |trials|
  {
    if trials != [] {
      var init := trials[..|trials| - 1];
      RescoredOk(groundTruth, init);
      RescoredOkStep(groundTruth, trials);
      AllHaveKeysStep(trials);
    }
  }

  lemma RescoredOkStep(groundTruth: string, trials: seq<StoredTrial>)
    requires trials != []
    ensures Rescored(groundTruth, trials).Ok?
        <==> Rescored(groundTruth, trials[..|trials| - 1]).Ok? && HasKeys(trials[|trials| - 1])
  {
  }

  predicate AllHaveKeys(trials: seq<StoredTrial>) {
    forall i :: 0 <= i < |trials| ==> HasKeys(trials[i])
  }

  lemma AllHaveKeysStep(trials: seq<StoredTrial>)
    requires trials != []
    ensures AllHaveKeys(trials) <==> AllHaveKeys(trials[..|trials| - 1]) && HasKeys(trials[|trials| - 1])
  {
    assert forall i :: 0 <= i < |trials| - 1 ==> trials[..|trials| - 1][i] == trials[i];
  }

  /** On success there is exactly one row per trial, in input order, error
      trials included, each matching its trial (RowMatches). */
  lemma {:induction false} RescoredRows(groundTruth: string, trials: seq<StoredTrial>)
    ensures var r := Rescored(groundTruth, trials);
      r.Ok? ==>
        && |r.value| == |trials|
        && forall i :: 0 <= i < |trials| ==> RowMatches(groundTruth, trials[i], r.value[i])
    decreases |trials|
  {
    if trials != [] {
      var init := trials[..|trials| - 1];
      var last := trials[|trials| - 1];
      RescoredRows(groundTruth, init);
      var r := Rescored(groundTruth, trials);
      if r.Ok? {
        var r0 := Rescored(groundTruth, init);
        assert r.value == r0.value + [RescoredRowOf(groundTruth, last)];
        RescoredRowOfMatches(groundTruth, last);
        assert forall i :: 0 <= i < |init| ==> init[i] == trials[i] && r.value[i] == r0.value[i];
      }
    }
  }

  /** The row's id and condition are the trial's, t2u and the original DQ
      are copied (0 when absent), the scores are the scorer's for the
      trial's actions, and the change is the new DQ minus the original. */
  predicate RowMatches(groundTruth: string, t: StoredTrial, row: RescoredRow) {
    var s := TrialScores(groundTruth, ActionsOf(t));
    && Some(row.trialId) == t.trialId && Some(row.condition) == t.condition
    && row.t2u == t.t2u.GetOr(0.0) && row.originalDq == t.dq.GetOr(0.0)
    && row.dq == s.dq && row.validity == s.validity && row.specificity == s.specificity
    && row.correctness == s.correctness && row.actionCount == s.actionCount
    && row.dqChange == row.dq - row.originalDq
  }

  lemma RescoredRowOfMatches(groundTruth: string, t: StoredTrial)
    requires HasKeys(t)
    ensures RowMatches(groundTruth, t, RescoredRowOf(groundTruth, t))
  {
  }

  /** A trial without actions is re-scored to all zeros, so its change is
      minus its original DQ. */
  lemma NoActionsScoresZero(groundTruth: string, t: StoredTrial)
    requires HasKeys(t) && t.actions.None?
    ensures var row := RescoredRowOf(groundTruth, t);
      row.dq == 0.0 && row.validity == 0.0 && row.specificity == 0.0 && row.correctness == 0.0
      && row.actionCount == 0 && row.dqChange == -t.dq.GetOr(0.0)
  {
  }
}
