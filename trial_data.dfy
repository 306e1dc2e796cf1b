/** Trial records as the analysis scripts read them back from the results
    JSON, and the re-scored rows that the analyzer and the cleaning script
    build from them. */
module TrialData {
  import opened Wrappers
  import opened DQScoring
  import opened Sequences

  /** One stored trial. A key the JSON object lacks is `None`; `error` is
      the truthiness of the optional `error` key. */
  datatype StoredTrial = StoredTrial(
    trialId: Option<string>,
    condition: Option<string>,
    t2u: Option<real>,
    dq: Option<real>,
    actions: Option<seq<string>>,
    error: bool)

  /** A re-scored row: the copied trial fields and the scorer's five values. */
  datatype ScoredRecord = ScoredRecord(
    trialId: string,
    condition: string,
    t2u: real,
    dq: real,
    validity: real,
    specificity: real,
    correctness: real,
    actionCount: nat)

  /** `trial.get('actions', [])` */
  function ActionsOf(t: StoredTrial): seq<string> {
    t.actions.GetOr([])
  }

  /** The trials the record loops do not skip: every trial without an error,
      as often as it occurs, in input order. */
  function Kept(trials: seq<StoredTrial>): (kept: seq<StoredTrial>)
    ensures forall k :: 0 <= k < |kept| ==> !kept[k].error && kept[k] in trials
    ensures SubsequenceOf(kept, trials)
    ensures forall t :: multiset(kept)[t] == if t.error then 0 else multiset(trials)[t]
  {
    if trials == [] then []
    else
      var init := Kept(trials[..|trials| - 1]);
      var last := trials[|trials| - 1];
      assert trials == trials[..|trials| - 1] + [last];
      SubsequenceOfSnoc(init, trials[..|trials| - 1], last);
      if last.error then init else init + [last]
  }

  /** Every trial without an error is kept. */
  lemma {:induction false} KeptHoldsEveryGoodTrial(trials: seq<StoredTrial>, i: nat)
    requires i < |trials| && !trials[i].error
    ensures trials[i] in Kept(trials)
    decreases |trials|
  {
    if i < |trials| - 1 {
      assert trials[..|trials| - 1][i] == trials[i];
      KeptHoldsEveryGoodTrial(trials[..|trials| - 1], i);
    }
  }

  /** The row for one kept trial, or `None` when a key read with `trial[...]`
      is missing (a `KeyError` in the source). */
  function RowOf(groundTruth: string, t: StoredTrial): (row: Option<ScoredRecord>)
    ensures row.Some? <==> Complete(t)
  {
    if !Complete(t) then None
    else
      var s := TrialScores(groundTruth, ActionsOf(t));
      Some(ScoredRecord(t.trialId.value, t.condition.value, t.t2u.value,
                        s.dq, s.validity, s.specificity, s.correctness, s.actionCount))
  }

  /** What the record-building loop yields for `trials`: rows for the trials
      without an error, or the `KeyError` that stops it. */
  function ScoredRecords(groundTruth: string, trials: seq<StoredTrial>): Result<seq<ScoredRecord>>
  {
    if trials == [] then Ok([])
    else
      var init := ScoredRecords(groundTruth, trials[..|trials| - 1]);
      var last := trials[|trials| - 1];
      if init.Err? || last.error then init
      else
        match RowOf(groundTruth, last)
        case None => Err("KeyError")
        case Some(row) => Ok(init.value + [row])
  }

  /** Once the loop has stopped with a `KeyError`, later trials do not matter. */
  lemma {:induction false} ScoredRecordsErrPersists(groundTruth: string, trials: seq<StoredTrial>, i: nat)
    requires i <= |trials|
    requires ScoredRecords(groundTruth, trials[..i]).Err?
    ensures ScoredRecords(groundTruth, trials) == ScoredRecords(groundTruth, trials[..i])
    decreases |trials|
  {
    if i < |trials| {
      assert trials[..|trials| - 1][..i] == trials[..i];
      ScoredRecordsErrPersists(groundTruth, trials[..|trials| - 1], i);
    } else {
      assert trials[..i] == trials;
    }
  }

  /** The trial has every key the record loops read with `trial[...]`. */
  predicate Complete(t: StoredTrial) {
    t.trialId.Some? && t.condition.Some? && t.t2u.Some?
  }

  /** The loop succeeds exactly when every kept trial has its id, condition
      and t2u. */
  lemma {:induction false} ScoredRecordsOk(groundTruth: string, trials: seq<StoredTrial>)
    ensures ScoredRecords(groundTruth, trials).Ok? <==> (forall t | t in Kept(trials) :: Complete(t))
    decreases |trials|
  {
    if trials != [] {
      var init := trials[..|trials| - 1];
      ScoredRecordsOk(groundTruth, init);
      var last := trials[|trials| - 1];
      if !last.error {
        assert Kept(trials) == Kept(init) + [last];
      }
    }
  }

  /** On success the loop emits one row per kept trial, in order: the row
      RowOf builds from it. */
  lemma {:induction false} ScoredRecordsRows(groundTruth: string, trials: seq<StoredTrial>)
    ensures var kept := Kept(trials); var r := ScoredRecords(groundTruth, trials);
      r.Ok? ==> |r.value| == |kept| && forall k :: 0 <= k < |kept| ==> RowOf(groundTruth, kept[k]) == Some(r.value[k])
    decreases |trials|
  {
    if trials != [] {
      var init := trials[..|trials| - 1];
      ScoredRecordsRows(groundTruth, init);
      var kept0 := Kept(init);
      var r0 := ScoredRecords(groundTruth, init);
      var last := trials[|trials| - 1];
      var r := ScoredRecords(groundTruth, trials);
      if !last.error && r.Ok? {
        var kept := Kept(trials);
        assert kept == kept0 + [last];
        assert r.value == r0.value + [RowOf(groundTruth, last).value];
        assert forall k :: 0 <= k < |kept0| ==> r.value[k] == r0.value[k] && kept[k] == kept0[k];
      }
    }
  }

  /** The rows' fields, one by one, for a kept trial. */
  lemma RowFields(groundTruth: string, t: StoredTrial, row: ScoredRecord)
    requires RowOf(groundTruth, t) == Some(row)
    ensures Some(row.trialId) == t.trialId && Some(row.condition) == t.condition && Some(row.t2u) == t.t2u
    ensures var s := TrialScores(groundTruth, ActionsOf(t));
      row.dq == s.dq && row.validity == s.validity && row.specificity == s.specificity
      && row.correctness == s.correctness && row.actionCount == s.actionCount
    ensures t.actions.None? ==> row.dq == 0.0 && row.actionCount == 0
  {
  }
}
