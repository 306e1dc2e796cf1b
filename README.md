# myantfarm-ai, modelled in Dafny

The system runs repeated incident-response trials under three conditions:

- **C1** is a manual baseline with no model call.
- **C2** is a single-agent copilot service.
- **C3** is a multi-agent service.

Each trial's proposed actions get a decision-quality (DQ) score, and the conditions are then compared statistically. This project models the sequential core of that pipeline and proves its properties.

- **`DQScoring`** (`dq_scorer.dfy`) is the DQ scorer. It covers the keyword specificity tiers, the token-overlap correctness thresholds, their means, and the 0.40/0.30/0.30 composite. It uses exact `real` arithmetic.
- **`Analyzer`** (`analyzer.dfy`) is the results analyzer. It has its inline copy of the scorer, proved to agree with the full one, plus the record loop that skips error trials and the three-row C1/C2/C3 summary.
- **`TrialData`** (`trial_data.dfy`) defines the stored trial record and the scored row. It also holds the "skip error trials, score the rest" map that the analyzer and the cleaning script share.
- **`Ollama`** (`ollama.dfy`) describes what a call to the language-model server can come back as.
- **`Copilot`** (`copilot.dfy`) is the copilot service:
  - the three-state circuit breaker, as a class and as a pure state machine;
  - the guarded model call;
  - the reply parser with its fallbacks and truncations.
- **`Evaluation`** (`evaluator.dfy`) is the trial orchestrator:
  - a clock object and the rate limiter;
  - the bounded retry loop shared by C2 and C3, with backoff and fallback records;
  - the C1 trial;
  - the run that saves and aggregates 3N trials in the order C1, C2, C3.
- **`MultiAgent`** (`multiagent.dfy`) is the multi-agent service. It covers reply truncation, the length-based fallbacks and timeout substitutes, the fixed action list, and the brief.
- **`Statistics`** (`statistics.dfy`) is the statistical analyzer. It covers:
  - the accumulating `results` list;
  - sorted distinct conditions and their pairs in combination order;
  - the Bonferroni-adjusted level and significance flags;
  - per-condition summary rows;
  - the Markdown report.
- **`Rescoring`** (`rescore.dfy`) re-scores stored trials: one row per trial, with `dq_change`.
- **`OutlierCleaning`** (`outlier_cleaning.dfy`) is the outlier-cleaning script:
  - `load_trials` with its exclusion filter;
  - the cleaned record loop;
  - the two independently guarded test blocks;
  - the ASCII-only report.
- **`Text`**, **`Sequences`** and **`Wrappers`** are shared helpers. `Text` models Python's `lower`, `split`, `strip`, `lstrip`, `in`, slicing, `"%03d"` formatting and the ASCII filter. `Wrappers` holds `Option` and `Result`. `Sequences` defines what it is for a list to be another with some entries dropped and the rest in order.

Several things are inputs or parameters rather than modelled behaviour:

- Network replies are inputs. For the evaluator, this is what each attempt of each trial comes back as.
- The clock is a `Clock` object whose time moves only when something sleeps or a request takes time.
- `random.gauss` samples are inputs.
- SciPy's tests, the standard deviation with its confidence interval, and the float formatters are function-typed parameters.

Some behaviour of the code is easy to miss, and the model keeps it as written:

- **ANOVA has no minimum size.** `one_way_anova` checks nothing about group sizes; whatever `f_oneway` does decides the outcome.
- **A failed t-test keeps earlier results.** A `ttest_ind` that raises leaves the earlier pairs' results in `results`, and those reach the report. The ANOVA result of that metric stays as well.
- **The limiter's first call.** `last_call` starts at 0, so the first call waits exactly when the clock reads less than `min_interval`. A real epoch clock never does.
- **The breaker's timeout is strict.** The test is `now - last_failure_time > timeout`.
- **An unreadable 200 reply.** When a 200 reply's body is not a JSON object, the breaker first records a success. It then records a failure when `.json()` or the `.get` on its value raises.
- **Frames built from no records.** `pd.DataFrame([])` has no columns. So the analyzer's summary raises `AttributeError` and `one_way_anova`, `pairwise_ttests` and `condition_summary` raise `KeyError` on one.

## Model

| member | source | states |
|---|---|---|
| DQScoring.Specificity | src/scoring/dq_scorer_v2.py:26-34 | a per-action specificity lies in [0, 1] |
| DQScoring.SpecificityTiers | src/scoring/dq_scorer_v2.py:28-33 | specificity is the first matching tier on the lower-cased action: "v2."/"version" 1.0, else "rollback"/"auth"/"database" 0.67, else "deployment"/"service" 0.33, else 0 |
| DQScoring.CorrectnessFor | src/scoring/dq_scorer_v2.py:45-54 | the threshold map from overlap ratio to correctness lands in [0, 1] |
| DQScoring.CorrectnessForMonotone | src/scoring/dq_scorer_v2.py:45-54 | the threshold map is monotone in the overlap ratio |
| DQScoring.OverlapRatio | src/scoring/dq_scorer_v2.py:39-43 | the ratio lies in [0, 1]; it is 1 when every ground-truth token occurs in the action, and 0 when no token is shared or the ground truth has no tokens |
| DQScoring.Ratio | src/scoring/dq_scorer_v2.py:43 | part/whole is in [0, 1], equal to 1 exactly when part = whole and to 0 exactly when part = 0 |
| DQScoring.Mean | src/scoring/dq_scorer_v2.py:36 | the mean of scores in [0, 1] lies in [0, 1] |
| DQScoring.SpecificityScores | src/scoring/dq_scorer_v2.py:24-34 | one specificity per action, each in [0, 1] |
| DQScoring.CorrectnessScores | src/scoring/dq_scorer_v2.py:38-54 | one correctness per action, each in [0, 1] |
| DQScoring.TrialScores | src/scoring/dq_scorer_v2.py:12-66 | action_count is the list length, duplicates included; an empty list gives all zeros; a non-empty list has validity 1; all scores are in [0, 1]; dq = 0.40 validity + 0.30 specificity + 0.30 correctness; dq >= 0.40 for a non-empty list |
| DQScoring.DQScorer.ScoreTrial | src/scoring/dq_scorer_v2.py:12-66 | `score_trial` returns TrialScores of the stored ground truth and the actions, and changes no field |
| DQScoring.SpecificityLoop | src/scoring/dq_scorer_v2.py:24-34 | the specificity loop builds exactly SpecificityScores(actions) |
| DQScoring.CorrectnessLoop | src/scoring/dq_scorer_v2.py:38-54 | the correctness loop builds exactly CorrectnessScores of the ground-truth tokens |
| DQScoring.NewDQScorer | src/scoring/dq_scorer_v2.py:6-10 | the scorer stores the lower-cased ground truth |
| DQScoring.WeightsSumToOne | src/scoring/dq_scorer_v2.py:8-10 | the weights 0.40, 0.30 and 0.30 sum to 1 |
| DQScoring.ScoresIgnoreCase | src/scoring/dq_scorer_v2.py:26-41 | changing the letter case of actions changes no score |
| DQScoring.GroundTruthSpecificity | src/scoring/dq_scorer_v2.py:28-29 | the ground-truth resolution has specificity 1 |
| DQScoring.GroundTruthCorrectness | src/scoring/dq_scorer_v2.py:39-46 | the ground-truth resolution has correctness 1 against itself |
| DQScoring.GroundTruthScoresPerfectly | services/evaluator/run_evaluation.py:25 | the single action equal to the ground truth scores 1 on validity, specificity, correctness and dq, with count 1 |
| Analyzer.SimpleDQScorer.ScoreTrial | services/analyzer/analyze_results.py:14-72 | the inline scorer with literal weights returns exactly TrialScores, the same as `DQScorer.score_trial` |
| Analyzer.NewSimpleDQScorer | services/analyzer/analyze_results.py:11-12 | it stores the same lower-cased ground truth as `DQScorer` |
| Analyzer.ScorersAgree | services/analyzer/analyze_results.py:10-72 | both scorers give equal results for every ground truth and action list |
| Analyzer.BuildRecords | services/analyzer/analyze_results.py:98-115 | the record loop yields ScoredRecords: error trials are skipped, one row per other trial in order, and a missing key raises KeyError |
| Analyzer.WithCondition | services/analyzer/analyze_results.py:131 | the filtered rows are every record with the condition, each as often as it occurs (a multiset count), in record order (a subsequence) |
| Analyzer.MeanOrNaN | services/analyzer/analyze_results.py:136-140 | a column mean is NaN (None) exactly over no rows, and otherwise the arithmetic mean |
| Analyzer.Summarize | services/analyzer/analyze_results.py:129-142 | no records raises `AttributeError`; otherwise exactly three rows, C1, C2, C3 in order, each counting and averaging the records of its condition |
| Analyzer.SummaryCountsPartition | services/analyzer/analyze_results.py:129-142 | when every record is C1, C2 or C3, the three counts add up to the number of records |
| TrialData.Kept | services/analyzer/analyze_results.py:99-101 | the kept trials are every trial without an error, each as often as it occurs (a multiset count), in input order (a subsequence) |
| TrialData.KeptHoldsEveryGoodTrial | services/analyzer/analyze_results.py:99-101 | every trial without a truthy error is kept |
| TrialData.RowOf | services/analyzer/analyze_results.py:106-115 | a kept trial yields a row exactly when it has trial_id, condition and t2u |
| TrialData.ScoredRecordsErrPersists | services/analyzer/analyze_results.py:98-115 | once the loop has raised, the later trials change nothing |
| TrialData.ScoredRecordsOk | services/analyzer/analyze_results.py:98-115 | the loop succeeds exactly when every kept trial has the three keys |
| TrialData.ScoredRecordsRows | services/analyzer/analyze_results.py:98-115 | on success, row k is the row of kept trial k: one per kept trial, in order |
| TrialData.RowFields | services/analyzer/analyze_results.py:103-115 | a row copies trial_id, condition and t2u and carries the scorer's five values for the trial's actions; no actions gives dq 0 and count 0 |
| Copilot.AttemptStep | services/copilot/main.py:28-37 | an attempt is refused exactly when OPEN and not more than `timeout` since the last failure; an allowed attempt from OPEN moves to HALF_OPEN; the counters do not change; the invariant is kept |
| Copilot.SuccessStep | services/copilot/main.py:39-41 | a success sets the count to 0 and the state to CLOSED from any state |
| Copilot.FailureStep | services/copilot/main.py:43-47 | a failure increments the count and stamps the time; the state becomes OPEN exactly when the count reaches the threshold or it was already OPEN; the invariant is kept |
| Copilot.HalfOpenFailureReopens | services/copilot/main.py:43-47 | a failure while HALF_OPEN reopens the breaker at once |
| Copilot.FailureSteps | services/copilot/main.py:43-45 | k failures add k to the count |
| Copilot.FailuresOpenAtThreshold | services/copilot/main.py:43-47 | from CLOSED, failures open the breaker exactly when the count reaches the threshold, and leave it CLOSED before that |
| Copilot.CircuitBreaker.constructor | services/copilot/main.py:21-26 | a new breaker is CLOSED with count 0 and no last-failure time, with thresholds 5 and 60 by default |
| Copilot.CircuitBreaker.CanAttempt | services/copilot/main.py:28-37 | `can_attempt` does what AttemptStep says, on the fields |
| Copilot.CircuitBreaker.RecordSuccess | services/copilot/main.py:39-41 | `record_success` does what SuccessStep says, on the fields |
| Copilot.CircuitBreaker.RecordFailure | services/copilot/main.py:43-47 | `record_failure` does what FailureStep says, on the fields; not CLOSED implies count >= threshold |
| Copilot.CallResultCases | services/copilot/main.py:72-102 | a refused attempt returns None with the breaker unchanged; a 200 object reply returns its text and records one success; other statuses and exceptions record one failure |
| Copilot.CallOllamaSafe | services/copilot/main.py:72-102 | the guarded call returns, and leaves in the breaker, what CallResult says |
| Copilot.ActionOfLine | services/copilot/main.py:147-151 | an accepted action comes from a line starting with '-' or '*' once stripped, has more than 5 characters, and has no surrounding whitespace |
| Copilot.BulletActions | services/copilot/main.py:146-151 | at most one action per line, each longer than 5 characters |
| Copilot.BulletActionsLineByLine | services/copilot/main.py:146-151 | the actions of two runs of lines are the first run's followed by the second's, and one line gives its own action or none: the actions are the lines' actions in line order |
| Copilot.BulletActionsFromLines | services/copilot/main.py:146-151 | every accepted line's action is collected; no accepted line means no action |
| Copilot.ParseActions | services/copilot/main.py:144-151 | the line loop collects exactly BulletActions of the text split on newlines |
| Copilot.Respond | services/copilot/main.py:126-164 | no output, or output under 20 characters, gives the fixed fallback; the summary always has 1 to 300 characters and there are 1 to 3 actions, each longer than 5 characters |
| Copilot.AnalyzeIncident | services/copilot/main.py:105-164 | `analyze_incident` returns Respond of the guarded call's result and leaves the breaker as the call did |
| Copilot.ParsedActionsAreBullets | services/copilot/main.py:126-163 | output under 20 characters gives the fallback actions; otherwise the bullet actions after "ACTIONS:" cut to the first three, or the default pair when there are none |
| Copilot.ParsedSummaryIsKept | services/copilot/main.py:126-162 | output under 20 characters gives the fallback summary; otherwise the parsed summary cut to 300 characters, or the default when it is empty |
| Evaluation.TrialId | services/evaluator/run_evaluation.py:102 | the id is the condition name, "_", and the index padded to at least three digits |
| Evaluation.TrialIdInjective | services/evaluator/run_evaluation.py:102 | equal trial ids mean equal condition and index |
| Evaluation.Clock.Sleep | services/evaluator/run_evaluation.py:52 | a sleep advances the clock by its length and is logged |
| Evaluation.Clock.Elapse | services/evaluator/run_evaluation.py:119-123 | a request's duration advances the clock without a sleep |
| Evaluation.WaitTime | services/evaluator/run_evaluation.py:48-52 | the wait is positive exactly when less than min_interval has passed since the last call, and it then ends exactly min_interval after it; no wait otherwise |
| Evaluation.RateLimiter.constructor | services/evaluator/run_evaluation.py:42-45 | min_interval = 60 / calls_per_minute; last_call starts at 0; a zero rate is refused (division by zero) |
| Evaluation.RateLimiter.Wait | services/evaluator/run_evaluation.py:47-53 | `wait` sleeps WaitTime when it is positive and otherwise not at all, then stamps last_call, which is at least the previous one plus min_interval |
| Evaluation.ConsecutiveCallsSpaced | services/evaluator/run_evaluation.py:47-53 | two consecutive waits admit calls at least min_interval apart |
| Evaluation.RetryBounds | services/evaluator/run_evaluation.py:115-146 | one to three attempts and at most two sleeps, each of the backoff length, after every failed attempt but the last; a result comes from the first successful attempt; no result means three attempts, all failed |
| Evaluation.RetryFallsBackIffAllFail | services/evaluator/run_evaluation.py:148-161 | the loop falls back exactly when none of the three attempts succeeds |
| Evaluation.Evaluator.RetryLoop | services/evaluator/run_evaluation.py:117-146 | the attempt loop returns Retry's result and advances the clock by its time, with exactly its backoff sleeps |
| Evaluation.C1Record | services/evaluator/run_evaluation.py:101-108 | a C1 record has condition C1, its id, no actions, no agent outputs and no fallback |
| Evaluation.C2Record | services/evaluator/run_evaluation.py:130-161 | a C2 record has its id and condition, and is a fallback exactly when the retries gave no reply |
| Evaluation.C3Record | services/evaluator/run_evaluation.py:183-216 | a C3 record is a fallback exactly when the retries gave no reply, and carries agent outputs exactly when they did |
| Evaluation.C2Outcomes | services/evaluator/run_evaluation.py:110-161 | fallback iff all three attempts failed; a fallback carries the two fixed actions and the sampled time; otherwise the actions of a successful attempt (default none) |
| Evaluation.C3Outcomes | services/evaluator/run_evaluation.py:163-216 | fallback iff all three attempts failed; a fallback carries the three fixed actions and the sampled time; otherwise the actions and agent outputs of a successful attempt (defaults none and {}) |
| Evaluation.Evaluator.RunC1Baseline | services/evaluator/run_evaluation.py:95-108 | a C1 trial makes no call, sleeps 0.1 s and returns C1Record with the sampled time |
| Evaluation.Evaluator.RunC2SingleAgent | services/evaluator/run_evaluation.py:110-161 | a C2 trial waits on the limiter, then returns C2Record of the retry run with a 10 s backoff; t2u is measured from after the wait; the sleeps are the limiter's wait, if any, then the retry run's backoffs |
| Evaluation.Evaluator.RunC3MultiAgent | services/evaluator/run_evaluation.py:163-216 | a C3 trial waits on the limiter, then returns C3Record of the retry run with a 15 s backoff; the sleeps are the limiter's wait, if any, then the retry run's backoffs |
| Evaluation.Evaluator.constructor | services/evaluator/run_evaluation.py:57-72 | 116 trials per condition (any integer, negative included) and seed 42 by default; a limiter of 10 calls a minute (6 s interval); nothing saved |
| Evaluation.Evaluator.SaveTrial | services/evaluator/run_evaluation.py:218-223 | saving appends the trial to the saved trials |
| Evaluation.Evaluator.RunC1Trials | services/evaluator/run_evaluation.py:244-250 | the C1 loop yields C1Trials and saves each trial in order |
| Evaluation.Evaluator.RunC2Trials | services/evaluator/run_evaluation.py:256-262 | the C2 loop yields C2Trials and saves each trial in order |
| Evaluation.Evaluator.RunC3Trials | services/evaluator/run_evaluation.py:268-274 | the C3 loop yields C3Trials and saves each trial in order |
| Evaluation.Evaluator.RunAllTrials | services/evaluator/run_evaluation.py:225-297 | the aggregate is the C1 block, then C2, then C3, indices ascending in each (3 max(N, 0) records); total_trials = 3N, negative for a negative N; everything appended was saved, in the same order |
| Evaluation.C1TrialsAt | services/evaluator/run_evaluation.py:244-247 | position i of the C1 block is C1 trial i |
| Evaluation.C2TrialsAt | services/evaluator/run_evaluation.py:256-259 | position i of the C2 block is C2 trial i |
| Evaluation.C3TrialsAt | services/evaluator/run_evaluation.py:268-271 | position i of the C3 block is C3 trial i |
| Evaluation.InRunOrderOfBlocks | services/evaluator/run_evaluation.py:239-276 | the three blocks together are in run order |
| Evaluation.RunIdsUnique | services/evaluator/run_evaluation.py:239-287 | no two trials of a run share an id |
| MultiAgent.CallOllamaSafe | services/multiagent/main.py:29-48 | None exactly for a non-200 status, an unreadable body or an exception; otherwise a prefix of the reply text of at most 500 characters, the whole text when it is short enough |
| MultiAgent.PromptsSeeContextPrefix | services/multiagent/main.py:61-62 | both prompts depend only on the first 200 characters of the context |
| MultiAgent.OrFallback | services/multiagent/main.py:79-83 | a missing value, or one under 10 characters, is replaced by the fallback; otherwise it is kept |
| MultiAgent.Assessments | services/multiagent/main.py:65-83 | the final diagnosis and risk have at least 10 characters |
| MultiAgent.Orchestrate | services/multiagent/main.py:56-106 | the actions are the three fixed ones in order; agent_outputs has exactly diagnosis and risk_assessment, each at least 10 characters; the brief is built from exactly those values |
| MultiAgent.TimeoutKeepsSubstitutes | services/multiagent/main.py:73-83 | on timeout, "Analysis timeout" and "Unable to assess" survive the fallback check unchanged |
| MultiAgent.CompletedReplies | services/multiagent/main.py:66-83 | each reply is kept when it has at least 10 characters and is replaced by its fallback otherwise |
| MultiAgent.BriefIsJoinedLines | services/multiagent/main.py:92-97 | the brief is its heading lines and "- action" lines joined by newlines |
| MultiAgent.BriefSplitsIntoLines | services/multiagent/main.py:92-97 | splitting a brief without embedded newlines on newlines gives back exactly its lines |
| Statistics.InsertSorted | src/analysis/statistical_tests.py:46 | inserting into a strictly sorted list keeps it strictly sorted, with the members plus the new one |
| Statistics.SortedUnique | src/analysis/statistical_tests.py:46 | `sorted(unique(...))` is strictly ascending and has exactly the input's members |
| Statistics.StrictlySortedUnique | src/analysis/statistical_tests.py:46 | two strictly sorted lists with the same members are equal |
| Statistics.UniqueInOrder | src/analysis/statistical_tests.py:25 | `unique()` has no duplicates and exactly the input's members |
| Statistics.DistinctCounts | src/analysis/statistical_tests.py:25-47 | both the unique and the sorted condition lists have as many entries as there are distinct conditions |
| Statistics.GroupValues | src/analysis/statistical_tests.py:53-54 | a present condition has a non-empty group |
| Statistics.AnovaResultFields | src/analysis/statistical_tests.py:24-41 | an ANOVA result carries the analyzer's alpha, is significant iff p < alpha, and notes "Comparing k conditions" with k distinct conditions |
| Statistics.PairsCount | src/analysis/statistical_tests.py:47 | k conditions give k(k-1)/2 pairs |
| Statistics.PairsAreIndexPairs | src/analysis/statistical_tests.py:52 | the pairs are exactly the (cs[i], cs[j]) with i < j |
| Statistics.SortedPairsAscend | src/analysis/statistical_tests.py:46-52 | in every pair of sorted conditions the first is below the second |
| Statistics.PairTestsFailurePersists | src/analysis/statistical_tests.py:52-69 | once a t-test has raised, later pairs change nothing |
| Statistics.PairTestsShape | src/analysis/statistical_tests.py:52-69 | result m belongs to pair m, carries the adjusted level, is significant iff p is below it, and is noted "Bonferroni corrected"; without a failure there is one result per pair |
| Statistics.PairwiseResults | src/analysis/statistical_tests.py:43-71 | on success it returns exactly what it appended: k(k-1)/2 results in combination order of the sorted conditions, at alpha / pairs under Bonferroni and alpha otherwise |
| Statistics.BonferroniNeedsTwoConditions | src/analysis/statistical_tests.py:44-48 | under Bonferroni, fewer than two conditions divides by zero before anything is appended; a frame without rows raises `KeyError` first |
| Statistics.SortReals | src/analysis/statistical_tests.py:91 | sorting gives an ascending permutation |
| Statistics.MinOf | src/analysis/statistical_tests.py:92 | the minimum is an element and at most every element |
| Statistics.MaxOf | src/analysis/statistical_tests.py:93 | the maximum is an element and at least every element |
| Statistics.MedianBetween | src/analysis/statistical_tests.py:91-93 | min <= median <= max |
| Statistics.MeanBetween | src/analysis/statistical_tests.py:80-93 | min <= mean <= max |
| Statistics.SummaryRowOrdered | src/analysis/statistical_tests.py:77-94 | a row has its condition, N >= 1, min <= mean <= max and min <= median <= max |
| Statistics.ConditionSummary | src/analysis/statistical_tests.py:73-96 | `condition_summary` raises `KeyError` exactly on a frame without rows, otherwise builds SummaryRows; it leaves the analyzer alone |
| Statistics.SummaryRowsAscend | src/analysis/statistical_tests.py:74-94 | one row per distinct condition, in strictly ascending order, each with N >= 1 |
| Statistics.SummaryRowsCoverConditions | src/analysis/statistical_tests.py:74-94 | a condition has a row exactly when it occurs in the data |
| Statistics.ReportLayout | src/analysis/statistical_tests.py:98-110 | the report has the two header lines, then five lines per result in accumulation order |
| Statistics.SigSymbolMarksSignificance | src/analysis/statistical_tests.py:103 | "***" exactly for significant results, "ns" exactly for the others |
| Statistics.StatisticalAnalyzer.constructor | src/analysis/statistical_tests.py:20-22 | the analyzer has the given alpha (0.05 by default) and no results |
| Statistics.StatisticalAnalyzer.OneWayAnova | src/analysis/statistical_tests.py:24-41 | it returns AnovaOutcome and appends exactly that result on success, nothing when the frame has no rows or `f_oneway` raises |
| Statistics.StatisticalAnalyzer.PairwiseTtests | src/analysis/statistical_tests.py:43-71 | it returns or raises what Pairwise says and appends exactly Pairwise's results |
| Statistics.StatisticalAnalyzer.TestPairs | src/analysis/statistical_tests.py:52-69 | the pair loop appends PairTests' results in order and stops at the first t-test that raises |
| Statistics.StatisticalAnalyzer.GenerateReport | src/analysis/statistical_tests.py:98-110 | the report is the report lines of the accumulated results joined by newlines |
| Rescoring.RescoreTrials | src/evaluation/rescore_all_trials.py:31-80 | the loop yields Rescored of the lower-cased ground truth |
| Rescoring.RescoredErrPersists | src/evaluation/rescore_all_trials.py:47-49 | once a KeyError is raised, later trials change nothing |
| Rescoring.RescoredOk | src/evaluation/rescore_all_trials.py:47-80 | re-scoring succeeds exactly when every trial has trial_id and condition; error trials are not skipped |
| Rescoring.RescoredRows | src/evaluation/rescore_all_trials.py:45-80 | one row per trial, in order, each matching its trial: copied id and condition, t2u and original dq (0 when missing), the scorer's values, and dq_change = dq - original_dq |
| Rescoring.NoActionsScoresZero | src/evaluation/rescore_all_trials.py:56-77 | a trial without actions scores all zeros, so its change is minus its original dq |
| OutlierCleaning.WithoutIdsKeeps | scripts/remove_outlier_and_reanalyze.py:24 | the filter succeeds exactly when every trial has an id, and keeps in order exactly the trials whose id is not excluded |
| OutlierCleaning.LoadTrialsKeeps | scripts/remove_outlier_and_reanalyze.py:16-26 | no exclusions or an empty list keeps every trial; otherwise the filter above applies |
| OutlierCleaning.CreateCleanedDataset | scripts/remove_outlier_and_reanalyze.py:29-68 | the cleaning loop yields CleanedDataset: loaded trials, scored against the ground truth, error trials skipped |
| OutlierCleaning.CleanedExcludesOutliers | scripts/remove_outlier_and_reanalyze.py:37-62 | no cleaned row has an excluded id |
| OutlierCleaning.CleanedHasNoC2028 | scripts/remove_outlier_and_reanalyze.py:194 | with the configured list, no C2_028 row appears |
| OutlierCleaning.CleanedKeepsGoodTrials | scripts/remove_outlier_and_reanalyze.py:45-62 | every non-error, non-excluded trial with an id has a cleaned row |
| OutlierCleaning.T2uObservations | scripts/remove_outlier_and_reanalyze.py:161-162 | one t2u observation per cleaned row |
| OutlierCleaning.DqObservations | scripts/remove_outlier_and_reanalyze.py:167-168 | one dq observation per cleaned row |
| OutlierCleaning.RunMetricBlock | scripts/remove_outlier_and_reanalyze.py:160-170 | a guarded block appends the ANOVA result and the t-tests' results; a failing ANOVA appends nothing and skips the t-tests |
| OutlierCleaning.AnalyzeCleaned | scripts/remove_outlier_and_reanalyze.py:158-177 | the results are the t2u block followed by the dq block, and the report is the analyzer's report with non-ASCII characters dropped |
| OutlierCleaning.SaveCleanedResults | scripts/remove_outlier_and_reanalyze.py:151-187 | no cleaned rows ends in `KeyError` from the unguarded summary; otherwise the results and report as above, plus the t2u and dq condition summaries |
| OutlierCleaning.NoRowsNoResults | scripts/remove_outlier_and_reanalyze.py:158-168 | without rows both guarded blocks fail, so nothing is appended |
| OutlierCleaning.BlocksIndependent | scripts/remove_outlier_and_reanalyze.py:160-170 | a failing t2u ANOVA contributes nothing; a passing one contributes its result first |
| OutlierCleaning.AsciiDropsAlphaSign | scripts/remove_outlier_and_reanalyze.py:174 | the ASCII filter drops the Greek alpha of the level line |
| Text.LowerIdempotent | src/scoring/dq_scorer_v2.py:7 | lower-casing twice is lower-casing once |
| Text.Words | src/scoring/dq_scorer_v2.py:39-41 | `split()` yields non-empty words without whitespace (WordsAreRuns pins them down) |
| Text.WordsAreRuns | src/scoring/dq_scorer_v2.py:39-41 | the words are the maximal non-whitespace runs, in order: joined by single spaces they are the text trimmed with each inner stretch of whitespace cut to one space |
| Text.WordsOfJoin | src/scoring/dq_scorer_v2.py:39 | splitting words joined by single spaces gives back the words |
| Text.Strip | services/copilot/main.py:142-147 | `strip()` gives a slice of the input with no whitespace at either end, and everything cut from either end is whitespace |
| Text.LStripChars | services/copilot/main.py:149 | `lstrip("-*")` removes exactly the leading '-' and '*' characters |
| Text.Take | services/copilot/main.py:162-163 | a slice `[:n]` is the prefix of length min(n, len) |
| Text.Find | services/copilot/main.py:141 | `in` and `split(sep)[1]` start from the first occurrence of the separator |
| Text.JoinSplitOn | services/copilot/main.py:146 | joining `split("\n")` with newlines gives back the text |
| Text.SplitOnJoin | services/multiagent/main.py:97 | splitting lines without newlines after joining them gives back the lines |
| Text.ZeroPaddedValue | services/evaluator/run_evaluation.py:102 | the `:03d` digits read back as the index |
| Text.AsciiOnly | scripts/remove_outlier_and_reanalyze.py:174 | the ASCII filter keeps only ASCII characters and never lengthens the text; one character is kept exactly when it is ASCII |
| Text.AsciiOnlyAppend | scripts/remove_outlier_and_reanalyze.py:174 | the filter works character by character, keeping the order |
| Text.AsciiOnlyOfAscii | scripts/remove_outlier_and_reanalyze.py:174 | an ASCII text is unchanged |
| Text.AsciiOnlyIdempotent | scripts/remove_outlier_and_reanalyze.py:174 | filtering twice is filtering once |

## Left out

- HTTP traffic is not modelled: the POSTs to the services and to the language-model server, the FastAPI/uvicorn wiring and the health endpoints. Replies are inputs.
- `wait_for_services` (readiness probing) is not modelled, since it only prints and sleeps before the run.
- The concurrency of the two multi-agent calls (`asyncio.gather` under `wait_for`) is not modelled. Its outcome is an input: two call outcomes, or the timeout.
- `random.gauss` samples are inputs, so the seeded random stream and the sharing of that stream between C1 and the fallbacks are not modelled.
- `datetime.now()` timestamps are not modelled.
- `round(..., 4)` in the scorers is left out because it is float rounding. Scores are exact reals before rounding, and exact rationals compare with the thresholds as the floats do.
- Floating point in general is not modelled: every metric is an exact real.
- SciPy and NumPy numerics (`f_oneway`, `ttest_ind`, `sem`, `t.interval`, `np.std`) are uninterpreted function parameters. Only their plumbing is modelled.
- Float formatting (`f'{alpha}'`, `:.4f`, `:.6f`) is a parameter of the report.
- Statistics.ConditionSummary: the standard deviation and confidence interval are whatever the `spread` parameter returns. The model proves nothing about them.
- Analyzer.Summarize: the `Std_*` columns are left out, and a pandas NaN mean over no rows is `None`.
- The percentage improvements that the analyzer's `main` prints (services/analyzer/analyze_results.py:150-161) are left out because they are console output.
- File and CSV I/O is not modelled: reading `all_trials.json`, writing trial files and CSVs, `load_trial_results` and its glob, and `generate_comparison_report` and its Markdown.
- `compare_with_and_without_outliers` is not modelled, since it is pandas group-by tables printed to the console.
- The `main` functions of the scripts and services are not modelled, except where one fixes a constant the model uses (the outlier list, the ground truth).
- Python's `str.lower` is Unicode-aware; `Text.Lower` folds only ASCII letters.
- `split()` whitespace is Python's `isspace` set as listed in `Text.IsSpace`.
- MultiAgent.CallOllamaSafe: a `response` value that is not a string is not modelled; the model's reply text is always a string.
- Copilot.AnalyzeIncident: a 200 reply whose `response` is not a string is not modelled; the model's reply text is always a string.
- Copilot.CircuitBreaker.CanAttempt: `time.time()` is the `now` parameter; the breaker is one object rather than a module-level singleton.
- The following files are not part of this model: `analyze_results.py` at the repository root, `scripts/export_latex_tables.py`, `scripts/analyze_dq_detail.py`, `scripts/generate_stability_plots.py`, `scripts/check_package.py`, `scripts/run_full_evaluation.py`, `main.py`, `src/utils/llm_interface.py` and `src/utils/config.py`. They hold presentation, plotting, file checks, process chaining and configuration.
