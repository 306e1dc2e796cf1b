/** The outlier-cleaning script: load the stored trials minus the excluded
    ids, re-score the rest, and re-run the statistical analysis on the
    cleaned rows with an ASCII-only report. */
module OutlierCleaning {
  import opened Wrappers
  import opened Text
  import opened DQScoring
  import opened TrialData
  import opened Statistics
  import opened Sequences

  // ---------------------------------------------------------------------------
  // Loading with exclusions
  // ---------------------------------------------------------------------------

  /** `[t for t in trials if t['trial_id'] not in exclude]`: `KeyError` when
      some trial lacks an id. */
  function WithoutIds(trials: seq<StoredTrial>, exclude: seq<string>): Result<seq<StoredTrial>> {
    if trials == [] then Ok([])
    else if trials[0].trialId.None? then Err("KeyError")
    else
      var rest := WithoutIds(trials[1..], exclude);
      if rest.Err? then rest
      else if trials[0].trialId.value in exclude then rest
      else Ok([trials[0]] + rest.value)
  }

  /** `load_trials` after the file is read: an absent or empty exclusion list
      keeps every trial. */
  function LoadTrials(trials: seq<StoredTrial>, exclude: Option<seq<string>>): Result<seq<StoredTrial>> {
    if exclude.None? || exclude.value == [] then Ok(trials)
    else WithoutIds(trials, exclude.value)
  }

  /** Excluding ids fails exactly when some trial lacks an id; otherwise it
      keeps, in their order, exactly the trials whose id is not excluded. */
  lemma {:induction false} WithoutIdsKeeps(trials: seq<StoredTrial>, exclude: seq<string>)
    ensures WithoutIds(trials, exclude).Ok? <==> forall i :: 0 <= i < |trials| ==> trials[i].trialId.Some?
    ensures var r := WithoutIds(trials, exclude);
      r.Ok? ==>
        && SubsequenceOf(r.value, trials)
        && (forall t :: t in r.value <==> t in trials && t.trialId.value !in exclude)
    decreases |trials|
  {
    if trials != [] {
      var tail := trials[1..];
      WithoutIdsKeeps(tail, exclude);
      assert forall i :: 1 <= i < |trials| ==> trials[i] == tail[i - 1];
      var r := WithoutIds(trials, exclude);
      if r.Ok? {
        var rest := WithoutIds(tail, exclude).value;
        assert trials == [trials[0]] + tail;
        if trials[0].trialId.value !in exclude {
          assert r.value == [trials[0]] + rest;
          assert r.value[1..] == rest;
        }
      }
    }
  }

  /** `load_trials` keeps every trial when the exclusion list is absent or
      empty; otherwise it fails exactly when some trial lacks an id, and
      keeps, in their order, exactly the trials whose id is not excluded. */
  lemma LoadTrialsKeeps(trials: seq<StoredTrial>, exclude: Option<seq<string>>)
    ensures exclude.None? || exclude.value == [] ==> LoadTrials(trials, exclude) == Ok(trials)
    ensures exclude.Some? && exclude.value != [] ==>
      (LoadTrials(trials, exclude).Ok? <==> forall i :: 0 <= i < |trials| ==> trials[i].trialId.Some?)
    ensures var r := LoadTrials(trials, exclude);
      r.Ok? ==>
        && SubsequenceOf(r.value, trials)
        && forall t :: t in r.value <==> t in trials && (exclude.Some? && exclude.value != [] ==> t.trialId.value !in exclude.value)
  {
    if exclude.None? || exclude.value == [] {
      SubsequenceOfSelf(trials);
    } else {
      WithoutIdsKeeps(trials, exclude.value);
    }
  }

  // ---------------------------------------------------------------------------
  // The cleaned data set
  // ---------------------------------------------------------------------------

  /** The ids `main` excludes. */
  const Outliers: seq<string> := ["C2_028"]

  /** What `create_cleaned_dataset` yields: the loaded trials' rows, scored
      against the lower-cased ground truth, or the `KeyError` that stops it. */
  function CleanedDataset(trials: seq<StoredTrial>, outliers: seq<string>): Result<seq<ScoredRecord>> {
    match LoadTrials(trials, Some(outliers))
    case Err(e) => Err(e)
    case Ok(loaded) => ScoredRecords(Lower(GroundTruth), loaded)
  }

  /** `create_cleaned_dataset`: the record loop skips trials with a truthy
      `error`; every other trial gives one row. */
  method CreateCleanedDataset(trials: seq<StoredTrial>, outliers: seq<string>) returns (r: Result<seq<ScoredRecord>>)
    ensures r == CleanedDataset(trials, outliers)
  {
    var loaded := LoadTrials(trials, Some(outliers));
    if loaded.Err? {
      return Err(loaded.error);
    }
    var scorer := NewDQScorer(GroundTruth);
    var records := [];
    for i := 0 to |loaded.value|
      invariant ScoredRecords(scorer.groundTruth, loaded.value[..i]) == Ok(records)
    {
      assert loaded.value[..i + 1][..i] == loaded.value[..i];
      var trial := loaded.value[i];
      if trial.error {
        continue;
      }
      var actions := trial.actions.GetOr([]);
      var scores := scorer.ScoreTrial(actions);
      if trial.trialId.None? || trial.condition.None? || trial.t2u.None? {
        assert ScoredRecords(scorer.groundTruth, loaded.value[..i + 1]) == Err("KeyError");
        ScoredRecordsErrPersists(scorer.groundTruth, loaded.value, i + 1);
        return Err("KeyError");
      }
      var row := ScoredRecord(trial.trialId.value, trial.condition.value, trial.t2u.value,
                              scores.dq, scores.validity, scores.specificity,
                              scores.correctness, scores.actionCount);
      assert RowOf(scorer.groundTruth, trial) == Some(row);
      records := records + [row];
    }
    assert loaded.value[..|loaded.value|] == loaded.value;
    return Ok(records);
  }

  /** No cleaned row comes from an excluded trial. */
  lemma CleanedExcludesOutliers(trials: seq<StoredTrial>, outliers: seq<string>)
    requires outliers != []
    ensures var r := CleanedDataset(trials, outliers);
      r.Ok? ==> forall k :: 0 <= k < |r.value| ==> r.value[k].trialId !in outliers
  {
    var r := CleanedDataset(trials, outliers);
    if r.Ok? {
      var loaded := LoadTrials(trials, Some(outliers)).value;
      LoadTrialsKeeps(trials, Some(outliers));
      ScoredRecordsRows(Lower(GroundTruth), loaded);
      var kept := Kept(loaded);
      forall k | 0 <= k < |r.value|
        ensures r.value[k].trialId !in outliers
      {
        assert kept[k] in loaded;
        RowFields(Lower(GroundTruth), kept[k], r.value[k]);
      }
    }
  }

  /** With the configured exclusion list, no row has the id C2_028. */
  lemma CleanedHasNoC2028(trials: seq<StoredTrial>)
    ensures var r := CleanedDataset(trials, Outliers);
      r.Ok? ==> forall k :: 0 <= k < |r.value| ==> r.value[k].trialId != "C2_028"
  {
    CleanedExcludesOutliers(trials, Outliers);
  }

  /** Every trial without an error whose id is not excluded gives a row with
      its id. */
  lemma CleanedKeepsGoodTrials(trials: seq<StoredTrial>, outliers: seq<string>, i: nat)
    requires i < |trials| && !trials[i].error && trials[i].trialId.Some? && trials[i].trialId.value !in outliers
    ensures var r := CleanedDataset(trials, outliers);
      r.Ok? ==> exists k :: 0 <= k < |r.value| && r.value[k].trialId == trials[i].trialId.value
  {
    var r := CleanedDataset(trials, outliers);
    if r.Ok? {
      var loaded := LoadTrials(trials, Some(outliers)).value;
      LoadTrialsKeeps(trials, Some(outliers));
      assert trials[i] in loaded;
      var j :| 0 <= j < |loaded| && loaded[j] == trials[i];
      KeptHoldsEveryGoodTrial(loaded, j);
      ScoredRecordsRows(Lower(GroundTruth), loaded);
      var kept := Kept(loaded);
      var k :| 0 <= k < |kept| && kept[k] == trials[i];
      RowFields(Lower(GroundTruth), kept[k], r.value[k]);
    }
  }

  // ---------------------------------------------------------------------------
  // Re-analysis
  // ---------------------------------------------------------------------------

  function T2uObservations(rows: seq<ScoredRecord>): (obs: seq<Observation>)
    ensures |obs| == |rows|
  {
    seq(|rows|, i requires 0 <= i < |rows| => Observation(rows[i].condition, rows[i].t2u))
  }

  function DqObservations(rows: seq<ScoredRecord>): (obs: seq<Observation>)
    ensures |obs| == |rows|
  {
    seq(|rows|, i requires 0 <= i < |rows| => Observation(rows[i].condition, rows[i].dq))
  }

  /** The level the cleaned analysis uses. */
  const CleanedAlpha: real := 0.05

  /** The results one guarded block appends: the ANOVA and then the
      Bonferroni-corrected t-tests; a failing ANOVA appends nothing and skips
      the t-tests, and a failing t-test keeps those before it. */
  function MetricBlock(alpha: real, data: seq<Observation>, metric: string, fOneway: AnovaTest, ttest: TTest): seq<StatisticalResult> {
    BlockResults(AnovaOutcome(alpha, data, metric, fOneway), Pairwise(alpha, data, metric, true, ttest).appended)
  }

  /** The ANOVA's result followed by the t-tests', or nothing when the ANOVA
      failed. */
  function BlockResults(anova: Result<StatisticalResult>, pairs: seq<StatisticalResult>): seq<StatisticalResult> {
    if anova.Ok? then [anova.value] + pairs else []
  }

  /** One `try` block: the ANOVA, then the t-tests only if it succeeded. An
      exception ends the block; the results appended before it stay. */
  method RunMetricBlock(analyzer: StatisticalAnalyzer, data: seq<Observation>, metric: string, fOneway: AnovaTest, ttest: TTest)
    modifies analyzer
    ensures analyzer.results == old(analyzer.results)
      + BlockResults(AnovaOutcome(analyzer.alpha, data, metric, fOneway), Pairwise(analyzer.alpha, data, metric, true, ttest).appended)
  {
    ghost var pairs := Pairwise(analyzer.alpha, data, metric, true, ttest).appended;
    ghost var before := analyzer.results;
    var anova := analyzer.OneWayAnova(data, metric, fOneway);
    if anova.Ok? {
      var _ := analyzer.PairwiseTtests(data, metric, true, ttest);
    }
    BlockAppended(before, anova, pairs, analyzer.results);
  }

  lemma BlockAppended(before: seq<StatisticalResult>, anova: Result<StatisticalResult>, pairs: seq<StatisticalResult>, after: seq<StatisticalResult>)
    requires anova.Ok? ==> after == before + [anova.value] + pairs
    requires anova.Err? ==> after == before
    ensures after == before + BlockResults(anova, pairs)
  {
    if anova.Ok? {
      assert before + [anova.value] + pairs == before + ([anova.value] + pairs);
    } else {
      assert before + [] == before;
    }
  }

  /** What the script writes: the ASCII report and the two summaries. */
  datatype CleanedOutputs = CleanedOutputs(
    results: seq<StatisticalResult>,
    report: string,
    summaryT2u: seq<SummaryRow>,
    summaryDq: seq<SummaryRow>)

  /** The analysis part of `save_cleaned_results`: a fresh analyzer at level
      0.05, the t2u block, then the dq block, each guarded on its own, and
      the report with its non-ASCII characters dropped. */
  method AnalyzeCleaned(t2u: seq<Observation>, dq: seq<Observation>, fOneway: AnovaTest, ttest: TTest, fmt: Formatters)
    returns (results: seq<StatisticalResult>, report: string)
    ensures results == MetricBlock(CleanedAlpha, t2u, "t2u", fOneway, ttest)
                     + MetricBlock(CleanedAlpha, dq, "dq", fOneway, ttest)
    ensures report == AsciiOnly(Join(ReportLines(CleanedAlpha, results, fmt), "\n"))
  {
    var analyzer := new StatisticalAnalyzer(CleanedAlpha);
    assert analyzer.alpha == CleanedAlpha && analyzer.results == [];
    RunMetricBlock(analyzer, t2u, "t2u", fOneway, ttest);
    ghost var t2uBlock := MetricBlock(CleanedAlpha, t2u, "t2u", fOneway, ttest);
    assert analyzer.results == [] + t2uBlock;
    assert analyzer.results == t2uBlock;
    RunMetricBlock(analyzer, dq, "dq", fOneway, ttest);
    var fullReport := analyzer.GenerateReport(fmt);
    results := analyzer.results;
    report := AsciiOnly(fullReport);
  }

  /** `save_cleaned_results`, minus the file writes: the analysis on the
      rows' t2u and dq columns, then the two condition summaries. The
      summaries run outside any `try`, so cleaned rows that are all gone
      (a frame with no `condition` column) end the script with `KeyError`
      after the report is written. */
  method SaveCleanedResults(rows: seq<ScoredRecord>, fOneway: AnovaTest, ttest: TTest, fmt: Formatters, spread: Spread)
    returns (out: Result<CleanedOutputs>)
    ensures out.Err? <==> rows == []
    ensures out.Ok? ==> out.value.results == MetricBlock(CleanedAlpha, T2uObservations(rows), "t2u", fOneway, ttest)
                                           + MetricBlock(CleanedAlpha, DqObservations(rows), "dq", fOneway, ttest)
    ensures out.Ok? ==> out.value.report == AsciiOnly(Join(ReportLines(CleanedAlpha, out.value.results, fmt), "\n"))
    ensures out.Ok? ==> out.value.summaryT2u == SummaryRows(T2uObservations(rows), spread)
    ensures out.Ok? ==> out.value.summaryDq == SummaryRows(DqObservations(rows), spread)
  {
    var t2u := T2uObservations(rows);
    var dq := DqObservations(rows);
    var results, report := AnalyzeCleaned(t2u, dq, fOneway, ttest, fmt);
    var summaryT2u := ConditionSummary(t2u, spread);
    if summaryT2u.Err? {
      return Err(summaryT2u.error);
    }
    var summaryDq := ConditionSummary(dq, spread);
    assert |dq| == |t2u| > 0;
    return Ok(CleanedOutputs(results, report, summaryT2u.value, summaryDq.value));
  }

  /** Without rows, both guarded blocks fail on the missing column, so the
      analysis appends nothing and the report is its two header entries. */
  lemma NoRowsNoResults(fOneway: AnovaTest, ttest: TTest)
    ensures MetricBlock(CleanedAlpha, T2uObservations([]), "t2u", fOneway, ttest) == []
    ensures MetricBlock(CleanedAlpha, DqObservations([]), "dq", fOneway, ttest) == []
  {
    assert T2uObservations([]) == [] && DqObservations([]) == [];
  }

  /** Whatever happens in the t2u block, the dq block's results follow it
      unchanged, and an ANOVA failure appends nothing for its metric. */
  lemma BlocksIndependent(rows: seq<ScoredRecord>, fOneway: AnovaTest, ttest: TTest)
    ensures var t2u := T2uObservations(rows);
      AnovaOutcome(CleanedAlpha, t2u, "t2u", fOneway).Err? ==> MetricBlock(CleanedAlpha, t2u, "t2u", fOneway, ttest) == []
    ensures var t2u := T2uObservations(rows);
      AnovaOutcome(CleanedAlpha, t2u, "t2u", fOneway).Ok? ==>
        |MetricBlock(CleanedAlpha, t2u, "t2u", fOneway, ttest)| >= 1
        && MetricBlock(CleanedAlpha, t2u, "t2u", fOneway, ttest)[0].testType == AnovaTestType
  {
  }

  /** The Greek alpha is the one character of the level entry's fixed text
      that the ASCII filter drops. */
  lemma AsciiDropsAlphaSign()
    ensures AsciiOnly("α = ") == " = "
  {
    assert "α = "[1..] == " = ";
    AsciiOnlyOfAscii(" = ");
  }
}
