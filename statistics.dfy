/** The statistical-analysis bookkeeping: results accumulated by an analyzer
    object, the enumeration of condition pairs with the Bonferroni-adjusted
    level, per-condition summary rows, and the Markdown report.

    The tests themselves (SciPy's `f_oneway` and `ttest_ind`), the standard
    deviation, the confidence interval and the float formatting are
    parameters: they are foreign numerics. A data frame is given as its rows
    projected onto the condition column and the metric column. */
module Statistics {
  import opened Wrappers
  import opened Text
  import DQScoring

  /** `StatisticalResult` */
  datatype StatisticalResult = StatisticalResult(
    metricName: string,
    testType: string,
    statistic: real,
    pValue: real,
    significant: bool,
    alpha: real,
    notes: string)

  /** One row of the data frame: its condition and its value of the metric. */
  datatype Observation = Observation(condition: string, value: real)

  /** `stats.f_oneway(*groups)`: `(F, p)`, or `None` when it raises. */
  type AnovaTest = seq<seq<real>> -> Option<(real, real)>

  /** `stats.ttest_ind(g1, g2)`: `(t, p)`, or `None` when it raises. */
  type TTest = (seq<real>, seq<real>) -> Option<(real, real)>

  // ---------------------------------------------------------------------------
  // String order and the sorted distinct conditions
  // ---------------------------------------------------------------------------

  /** `a < b` on Python strings: lexicographic on code points, a proper
      prefix first. */
  predicate StrLt(a: string, b: string)
    decreases |a|
  {
    if a == [] then b != []
    else if b == [] then false
    else if a[0] != b[0] then a[0] < b[0]
    else StrLt(a[1..], b[1..])
  }

  lemma {:induction false} StrLtIrreflexive(a: string)
    ensures !StrLt(a, a)
    decreases |a|
  {
    if a != [] {
      StrLtIrreflexive(a[1..]);
    }
  }

  lemma {:induction false} StrLtTransitive(a: string, b: string, c: string)
    requires StrLt(a, b) && StrLt(b, c)
    ensures StrLt(a, c)
    decreases |a|
  {
    if a != [] && a[0] == b[0] && b[0] == c[0] {
      StrLtTransitive(a[1..], b[1..], c[1..]);
    }
  }

  lemma {:induction false} StrLtTotal(a: string, b: string)
    requires a != b
    ensures StrLt(a, b) || StrLt(b, a)
    decreases |a|
  {
    if a != [] && b != [] && a[0] == b[0] {
      assert a == [a[0]] + a[1..] && b == [b[0]] + b[1..];
      StrLtTotal(a[1..], b[1..]);
    }
  }

  lemma StrLtAsymmetric(a: string, b: string)
    requires StrLt(a, b)
    ensures !StrLt(b, a)
  {
    if StrLt(b, a) {
      StrLtTransitive(a, b, a);
      StrLtIrreflexive(a);
    }
  }

  predicate StrictlySorted(xs: seq<string>) {
    forall i, j :: 0 <= i < j < |xs| ==> StrLt(xs[i], xs[j])
  }

  /** A string below the head of a strictly sorted list is below all of it. */
  lemma BelowHead(x: string, xs: seq<string>)
    requires StrictlySorted(xs) && xs != [] && StrLt(x, xs[0])
    ensures forall y :: y in xs ==> StrLt(x, y)
  {
    forall y | y in xs
      ensures StrLt(x, y)
    {
      if y != xs[0] {
        StrLtTransitive(x, xs[0], y);
      }
    }
  }

  /** Inserts `x` into a strictly sorted list, unless it is already there. */
  function InsertSorted(x: string, xs: seq<string>): (r: seq<string>)
    requires StrictlySorted(xs)
    ensures StrictlySorted(r)
    ensures forall y :: y in r <==> y == x || y in xs
  {
    if xs == [] then [x]
    else if x == xs[0] then xs
    else if StrLt(x, xs[0]) then
      BelowHead(x, xs);
      [x] + xs
    else
      StrLtTotal(x, xs[0]);
      var rest := InsertSorted(x, xs[1..]);
      assert forall y :: y in rest ==> StrLt(xs[0], y);
      [xs[0]] + rest
  }

  /** `sorted(data[col].unique())`: the distinct conditions, ascending. */
  function SortedUnique(xs: seq<string>): (r: seq<string>)
    ensures StrictlySorted(r)
    ensures forall y :: y in r <==> y in xs
  {
    if xs == [] then []
    else
      assert xs == xs[..|xs| - 1] + [xs[|xs| - 1]];
      InsertSorted(xs[|xs| - 1], SortedUnique(xs[..|xs| - 1]))
  }

  /** A strictly sorted list is fixed by its elements: `SortedUnique` is the
      only ascending, duplicate-free listing of the distinct conditions. */
  lemma {:induction false} StrictlySortedUnique(a: seq<string>, b: seq<string>)
    requires StrictlySorted(a) && StrictlySorted(b)
    requires forall y :: y in a <==> y in b
    ensures a == b
    decreases |a|
  {
    SameMembersEmpty(a, b);
    if a != [] {
      assert a[0] in b && b != [];
      if a[0] != b[0] {
        assert b[0] in a;
        assert StrLt(a[0], b[0]);
        assert StrLt(b[0], a[0]);
        StrLtAsymmetric(a[0], b[0]);
      }
      assert a == [a[0]] + a[1..] && b == [b[0]] + b[1..];
      forall y
        ensures y in a[1..] <==> y in b[1..]
      {
        if y in a[1..] {
          TailMember(a, y);
          TailMember(b, y);
        }
        if y in b[1..] {
          TailMember(b, y);
          TailMember(a, y);
        }
      }
      StrictlySortedUnique(a[1..], b[1..]);
      assert a == [a[0]] + a[1..] && b == [b[0]] + b[1..];
    }
  }

  /** In a strictly sorted list, the tail holds exactly the elements other
      than the head. */
  lemma TailMember(xs: seq<string>, y: string)
    requires StrictlySorted(xs) && xs != []
    ensures y in xs[1..] <==> y in xs && y != xs[0]
  {
    if y in xs[1..] {
      var k :| 0 <= k < |xs[1..]| && xs[1..][k] == y;
      assert StrLt(xs[0], xs[k + 1]);
      StrLtIrreflexive(xs[0]);
    }
    if y in xs && y != xs[0] {
      var k :| 0 <= k < |xs| && xs[k] == y;
      assert xs[1..][k - 1] == y;
    }
  }

  /** Two lists with the same members are both empty or both not. */
  lemma SameMembersEmpty(a: seq<string>, b: seq<string>)
    requires forall y :: y in a <==> y in b
    ensures a == [] <==> b == []
  {
    if a != [] {
      assert a[0] in b;
    }
    if b != [] {
      assert b[0] in a;
    }
  }

  predicate NoDuplicates(xs: seq<string>) {
    forall i, j :: 0 <= i < j < |xs| ==> xs[i] != xs[j]
  }

  /** `data[col].unique()`: the distinct conditions in order of first
      appearance. */
  function UniqueInOrder(xs: seq<string>): (r: seq<string>)
    ensures NoDuplicates(r)
    ensures forall y :: y in r <==> y in xs
  {
    if xs == [] then []
    else
      var init := UniqueInOrder(xs[..|xs| - 1]);
      var last := xs[|xs| - 1];
      assert xs == xs[..|xs| - 1] + [last];
      if last in init then init else init + [last]
  }

  /** A list without duplicates has as many entries as distinct elements. */
  lemma {:induction false} NoDuplicatesCard(xs: seq<string>)
    requires NoDuplicates(xs)
    ensures |set y | y in xs| == |xs|
    decreases |xs|
  {
    if xs != [] {
      var init := xs[..|xs| - 1];
      NoDuplicatesCard(init);
      assert xs == init + [xs[|xs| - 1]];
      assert (set y | y in xs) == (set y | y in init) + {xs[|xs| - 1]};
    }
  }

  /** The observations' conditions, in row order. */
  function Conditions(data: seq<Observation>): (r: seq<string>)
    ensures |r| == |data| && forall i :: 0 <= i < |data| ==> r[i] == data[i].condition
  {
    seq(|data|, i requires 0 <= i < |data| => data[i].condition)
  }

  /** The set of distinct conditions in the data. */
  function ConditionSet(data: seq<Observation>): set<string> {
    set y | y in Conditions(data)
  }

  /** Both listings of the distinct conditions have one entry per distinct
      condition. */
  lemma DistinctCounts(data: seq<Observation>)
    ensures |UniqueInOrder(Conditions(data))| == |ConditionSet(data)|
    ensures |SortedUnique(Conditions(data))| == |ConditionSet(data)|
  {
    var u := UniqueInOrder(Conditions(data));
    var s := SortedUnique(Conditions(data));
    NoDuplicatesCard(u);
    forall i, j | 0 <= i < j < |s|
      ensures s[i] != s[j]
    {
      StrLtIrreflexive(s[i]);
    }
    NoDuplicatesCard(s);
    assert (set y | y in u) == ConditionSet(data);
    assert (set y | y in s) == ConditionSet(data);
  }

  /** `data[data[col] == c][metric].values`, in row order. */
  function GroupValues(data: seq<Observation>, c: string): (r: seq<real>)
    ensures |r| <= |data|
    ensures c in Conditions(data) ==> r != []
  {
    if data == [] then []
    else
      var rest := GroupValues(data[1..], c);
      assert Conditions(data) == [data[0].condition] + Conditions(data[1..]);
      if data[0].condition == c then [data[0].value] + rest else rest
  }

  // ---------------------------------------------------------------------------
  // One-way ANOVA
  // ---------------------------------------------------------------------------

  const AnovaTestType: string := "One-Way ANOVA"

  /** The frames the analyzer receives are built from lists of records; one
      built from an empty list has no `condition` column, and reading that
      column raises `KeyError`. */
  const MissingColumn: string := "KeyError"

  /** What `one_way_anova` returns: the result, or the `KeyError` of a frame
      without rows, or the failure of `f_oneway`. */
  function AnovaOutcome(alpha: real, data: seq<Observation>, metric: string, fOneway: AnovaTest): (r: Result<StatisticalResult>)
  {
    if data == [] then Err(MissingColumn)
    else
      var conditions := UniqueInOrder(Conditions(data));
      var groups := seq(|conditions|, k requires 0 <= k < |conditions| => GroupValues(data, conditions[k]));
      match fOneway(groups)
      case None => Err("f_oneway raised")
      case Some((f, p)) =>
        Ok(StatisticalResult(metric, AnovaTestType, f, p, p < alpha, alpha,
                             "Comparing " + Decimal(|conditions|) + " conditions"))
  }

  /** An ANOVA result carries the analyzer's level, is significant exactly
      when its p-value is below that level, and its note states the number of
      distinct conditions. */
  lemma AnovaResultFields(alpha: real, data: seq<Observation>, metric: string, fOneway: AnovaTest)
    ensures var r := AnovaOutcome(alpha, data, metric, fOneway);
      r.Ok? ==>
        && r.value.metricName == metric && r.value.testType == AnovaTestType
        && r.value.alpha == alpha
        && (r.value.significant <==> r.value.pValue < alpha)
        && r.value.notes == "Comparing " + Decimal(|ConditionSet(data)|) + " conditions"
  {
    DistinctCounts(data);
  }

  // ---------------------------------------------------------------------------
  // Pairwise t-tests
  // ---------------------------------------------------------------------------

  /** `combinations(cs, 2)`: every pair `(cs[i], cs[j])` with `i < j`, in
      lexicographic order of the index pairs. */
  function PairsOf(cs: seq<string>): seq<(string, string)> {
    if cs == [] then []
    else seq(|cs| - 1, k requires 0 <= k < |cs| - 1 => (cs[0], cs[k + 1])) + PairsOf(cs[1..])
  }

  /** There are k(k-1)/2 pairs of k conditions. */
  lemma {:induction false} PairsCount(cs: seq<string>)
    ensures 2 * |PairsOf(cs)| == |cs| * (|cs| - 1)
    decreases |cs|
  {
    if cs != [] {
      PairsCount(cs[1..]);
    }
  }

  predicate IsIndexPair(cs: seq<string>, p: (string, string)) {
    exists i, j :: 0 <= i < j < |cs| && p == (cs[i], cs[j])
  }

  /** Each pair is two entries in index order, and every two entries in index
      order form a pair. */
  lemma PairsAreIndexPairs(cs: seq<string>)
    ensures forall m :: 0 <= m < |PairsOf(cs)| ==> IsIndexPair(cs, PairsOf(cs)[m])
    ensures forall i, j :: 0 <= i < j < |cs| ==> (cs[i], cs[j]) in PairsOf(cs)
  {
    PairsWithinIndexOrder(cs);
    PairsCoverIndexOrder(cs);
  }

  lemma {:induction false} PairsWithinIndexOrder(cs: seq<string>)
    ensures forall m :: 0 <= m < |PairsOf(cs)| ==> IsIndexPair(cs, PairsOf(cs)[m])
    decreases |cs|
  {
    if cs != [] {
      var head := seq(|cs| - 1, k requires 0 <= k < |cs| - 1 => (cs[0], cs[k + 1]));
      var tail := cs[1..];
      PairsWithinIndexOrder(tail);
      assert PairsOf(cs) == head + PairsOf(tail);
      forall m | 0 <= m < |PairsOf(cs)|
        ensures IsIndexPair(cs, PairsOf(cs)[m])
      {
        if m < |head| {
          assert 0 < m + 1 < |cs| && PairsOf(cs)[m] == (cs[0], cs[m + 1]);
        } else {
          assert IsIndexPair(tail, PairsOf(tail)[m - |head|]);
          var i, j :| 0 <= i < j < |tail| && PairsOf(tail)[m - |head|] == (tail[i], tail[j]);
          assert 0 <= i + 1 < j + 1 < |cs| && PairsOf(cs)[m] == (cs[i + 1], cs[j + 1]);
        }
      }
    }
  }

  lemma {:induction false} PairsCoverIndexOrder(cs: seq<string>)
    ensures forall i, j :: 0 <= i < j < |cs| ==> (cs[i], cs[j]) in PairsOf(cs)
    decreases |cs|
  {
    if cs != [] {
      var head := seq(|cs| - 1, k requires 0 <= k < |cs| - 1 => (cs[0], cs[k + 1]));
      var tail := cs[1..];
      PairsCoverIndexOrder(tail);
      assert PairsOf(cs) == head + PairsOf(tail);
      forall i, j | 0 <= i < j < |cs|
        ensures (cs[i], cs[j]) in PairsOf(cs)
      {
        if i == 0 {
          assert head[j - 1] == (cs[i], cs[j]);
        } else {
          assert (tail[i - 1], tail[j - 1]) in PairsOf(tail);
        }
      }
    }
  }

  /** Pairs of sorted conditions are in ascending order within. */
  lemma SortedPairsAscend(cs: seq<string>)
    requires StrictlySorted(cs)
    ensures forall m :: 0 <= m < |PairsOf(cs)| ==> StrLt(PairsOf(cs)[m].0, PairsOf(cs)[m].1)
  {
    PairsAreIndexPairs(cs);
  }

  /** `alpha / n_comparisons if bonferroni else alpha`; `None` for the
      division by zero. */
  function AdjustedAlpha(alpha: real, pairCount: nat, bonferroni: bool): Option<real> {
    if !bonferroni then Some(alpha)
    else if pairCount == 0 then None
    else Some(alpha / pairCount as real)
  }

  const PairNotes: string := "Bonferroni corrected"

  function PairLabel(pair: (string, string)): string {
    "Two-Sample t-test (" + pair.0 + " vs " + pair.1 + ")"
  }

  /** The results appended so far, and whether a t-test raised. */
  datatype Partial = Partial(done: seq<StatisticalResult>, failed: bool)

  /** The pair loop over `pairs`: one result per pair until a t-test raises. */
  function PairTests(pairs: seq<(string, string)>, adjusted: real, data: seq<Observation>, metric: string, ttest: TTest): Partial {
    if pairs == [] then Partial([], false)
    else
      var init := PairTests(pairs[..|pairs| - 1], adjusted, data, metric, ttest);
      var pair := pairs[|pairs| - 1];
      if init.failed then init
      else
        match ttest(GroupValues(data, pair.0), GroupValues(data, pair.1))
        case None => Partial(init.done, true)
        case Some((t, p)) =>
          Partial(init.done + [StatisticalResult(metric, PairLabel(pair), t, p, p < adjusted, adjusted, PairNotes)], false)
  }

  /** Once a t-test has raised, later pairs do not matter. */
  lemma {:induction false} PairTestsFailurePersists(pairs: seq<(string, string)>, i: nat, adjusted: real, data: seq<Observation>, metric: string, ttest: TTest)
    requires i <= |pairs|
    requires PairTests(pairs[..i], adjusted, data, metric, ttest).failed
    ensures PairTests(pairs, adjusted, data, metric, ttest) == PairTests(pairs[..i], adjusted, data, metric, ttest)
    decreases |pairs|
  {
    if i < |pairs| {
      assert pairs[..|pairs| - 1][..i] == pairs[..i];
      PairTestsFailurePersists(pairs[..|pairs| - 1], i, adjusted, data, metric, ttest);
    } else {
      assert pairs[..i] == pairs;
    }
  }

  /** One more pair: its t-test either raises or appends its result. */
  lemma PairTestsAppend(pairs: seq<(string, string)>, m: nat, adjusted: real, data: seq<Observation>, metric: string, ttest: TTest,
                        done: seq<StatisticalResult>)
    requires m < |pairs|
    requires PairTests(pairs[..m], adjusted, data, metric, ttest) == Partial(done, false)
    ensures var pair := pairs[m];
      match ttest(GroupValues(data, pair.0), GroupValues(data, pair.1))
      case None => PairTests(pairs[..m + 1], adjusted, data, metric, ttest) == Partial(done, true)
      case Some((t, p)) =>
        PairTests(pairs[..m + 1], adjusted, data, metric, ttest)
          == Partial(done + [StatisticalResult(metric, PairLabel(pair), t, p, p < adjusted, adjusted, PairNotes)], false)
  {
    assert pairs[..m + 1][..m] == pairs[..m];
  }

  /** Result `m` belongs to pair `m`, carries the adjusted level, is
      significant exactly when its p-value is below it, and is noted as
      Bonferroni corrected; without a failure there is one result per pair. */
  lemma {:induction false} PairTestsShape(pairs: seq<(string, string)>, adjusted: real, data: seq<Observation>, metric: string, ttest: TTest)
    ensures var r := PairTests(pairs, adjusted, data, metric, ttest);
      && |r.done| <= |pairs|
      && (!r.failed ==> |r.done| == |pairs|)
      && forall m :: 0 <= m < |r.done| ==>
           && r.done[m].metricName == metric && r.done[m].testType == PairLabel(pairs[m])
           && r.done[m].alpha == adjusted && (r.done[m].significant <==> r.done[m].pValue < adjusted)
           && r.done[m].notes == PairNotes
    decreases |pairs|
  {
    if pairs != [] {
      var init := pairs[..|pairs| - 1];
      PairTestsShape(init, adjusted, data, metric, ttest);
      assert forall m :: 0 <= m < |init| ==> init[m] == pairs[m];
    }
  }

  /** What `pairwise_ttests` does: the results it appends to the analyzer,
      and what it returns or raises. */
  datatype PairwiseRun = PairwiseRun(appended: seq<StatisticalResult>, outcome: Result<seq<StatisticalResult>>)

  function Pairwise(alpha: real, data: seq<Observation>, metric: string, bonferroni: bool, ttest: TTest): PairwiseRun {
    if data == [] then PairwiseRun([], Err(MissingColumn))
    else
      var pairs := PairsOf(SortedUnique(Conditions(data)));
      match AdjustedAlpha(alpha, |pairs|, bonferroni)
      case None => PairwiseRun([], Err("ZeroDivisionError"))
      case Some(adjusted) =>
        var r := PairTests(pairs, adjusted, data, metric, ttest);
        PairwiseRun(r.done, if r.failed then Err("ttest_ind raised") else Ok(r.done))
  }

  /** With k distinct conditions a successful run returns k(k-1)/2 results,
      each for its pair of sorted conditions in combination order, at the
      level alpha / (k(k-1)/2) under Bonferroni and alpha otherwise; what it
      returns is exactly what it appended. */
  lemma PairwiseResults(alpha: real, data: seq<Observation>, metric: string, bonferroni: bool, ttest: TTest)
    ensures var run := Pairwise(alpha, data, metric, bonferroni, ttest);
      var cs := SortedUnique(Conditions(data));
      var pairs := PairsOf(cs);
      run.outcome.Ok? ==>
        && run.outcome.value == run.appended
        && |run.appended| == |pairs|
        && 2 * |run.appended| == |ConditionSet(data)| * (|ConditionSet(data)| - 1)
        && forall m :: 0 <= m < |run.appended| ==>
             && run.appended[m].testType == PairLabel(pairs[m])
             && StrLt(pairs[m].0, pairs[m].1)
             && run.appended[m].alpha == (if bonferroni then alpha / |pairs| as real else alpha)
             && (run.appended[m].significant <==> run.appended[m].pValue < run.appended[m].alpha)
             && run.appended[m].notes == PairNotes
  {
    PairwiseCounts(alpha, data, metric, bonferroni, ttest);
    PairwiseEntries(alpha, data, metric, bonferroni, ttest);
  }

  lemma PairwiseCounts(alpha: real, data: seq<Observation>, metric: string, bonferroni: bool, ttest: TTest)
    ensures var run := Pairwise(alpha, data, metric, bonferroni, ttest);
      run.outcome.Ok? ==>
        && run.outcome.value == run.appended
        && |run.appended| == |PairsOf(SortedUnique(Conditions(data)))|
        && 2 * |run.appended| == |ConditionSet(data)| * (|ConditionSet(data)| - 1)
  {
    var cs := SortedUnique(Conditions(data));
    var pairs := PairsOf(cs);
    DistinctCounts(data);
    PairsCount(cs);
    match AdjustedAlpha(alpha, |pairs|, bonferroni)
    case None =>
    case Some(adjusted) =>
      PairTestsShape(pairs, adjusted, data, metric, ttest);
  }

  lemma PairwiseEntries(alpha: real, data: seq<Observation>, metric: string, bonferroni: bool, ttest: TTest)
    ensures var run := Pairwise(alpha, data, metric, bonferroni, ttest);
      var pairs := PairsOf(SortedUnique(Conditions(data)));
      && |run.appended| <= |pairs|
      && (run.outcome.Ok? ==>
            forall m :: 0 <= m < |run.appended| ==>
              && run.appended[m].testType == PairLabel(pairs[m])
              && StrLt(pairs[m].0, pairs[m].1)
              && run.appended[m].alpha == (if bonferroni then alpha / |pairs| as real else alpha)
              && (run.appended[m].significant <==> run.appended[m].pValue < run.appended[m].alpha)
              && run.appended[m].notes == PairNotes)
  {
    var cs := SortedUnique(Conditions(data));
    var pairs := PairsOf(cs);
    SortedPairsAscend(cs);
    match AdjustedAlpha(alpha, |pairs|, bonferroni)
    case None =>
    case Some(adjusted) =>
      PairTestsShape(pairs, adjusted, data, metric, ttest);
  }

  /** Under Bonferroni, data with fewer than two distinct conditions has no
      pairs: the division by zero raises before anything is appended (and a
      frame without rows raises earlier, reading its missing column). */
  lemma BonferroniNeedsTwoConditions(alpha: real, data: seq<Observation>, metric: string, ttest: TTest)
    requires |ConditionSet(data)| < 2
    ensures data != [] ==> Pairwise(alpha, data, metric, true, ttest) == PairwiseRun([], Err("ZeroDivisionError"))
    ensures data == [] ==> Pairwise(alpha, data, metric, true, ttest) == PairwiseRun([], Err(MissingColumn))
  {
    var cs := SortedUnique(Conditions(data));
    DistinctCounts(data);
    PairsCount(cs);
  }

  // ---------------------------------------------------------------------------
  // Condition summary
  // ---------------------------------------------------------------------------

  /** `np.std(values, ddof=1)` and the 95% t-interval: foreign numerics. */
  type Spread = seq<real> -> (real, real, real)

  predicate Ascending(xs: seq<real>) {
    forall i, j :: 0 <= i < j < |xs| ==> xs[i] <= xs[j]
  }

  function InsertReal(x: real, xs: seq<real>): (r: seq<real>)
    requires Ascending(xs)
    ensures Ascending(r) && multiset(r) == multiset(xs) + multiset{x}
    ensures forall i :: 0 <= i < |r| ==> r[i] == x || r[i] in xs
  {
    if xs == [] || x <= xs[0] then [x] + xs
    else
      var rest := InsertReal(x, xs[1..]);
      assert xs == [xs[0]] + xs[1..];
      assert forall i :: 0 <= i < |rest| ==> xs[0] <= rest[i];
      AscendingCons(xs[0], rest);
      [xs[0]] + rest
  }

  lemma AscendingCons(h: real, xs: seq<real>)
    requires Ascending(xs) && forall i :: 0 <= i < |xs| ==> h <= xs[i]
    ensures Ascending([h] + xs)
  {
  }

  /** The values in ascending order. */
  function SortReals(xs: seq<real>): (r: seq<real>)
    ensures Ascending(r) && multiset(r) == multiset(xs)
  {
    if xs == [] then []
    else
      assert xs == xs[..|xs| - 1] + [xs[|xs| - 1]];
      InsertReal(xs[|xs| - 1], SortReals(xs[..|xs| - 1]))
  }

  /** `np.min` */
  function MinOf(xs: seq<real>): (m: real)
    requires xs != []
    ensures m in xs && forall i :: 0 <= i < |xs| ==> m <= xs[i]
  {
    if |xs| == 1 then xs[0]
    else
      var rest := MinOf(xs[1..]);
      assert forall i :: 1 <= i < |xs| ==> xs[i] == xs[1..][i - 1];
      if xs[0] <= rest then xs[0] else rest
  }

  /** `np.max` */
  function MaxOf(xs: seq<real>): (m: real)
    requires xs != []
    ensures m in xs && forall i :: 0 <= i < |xs| ==> xs[i] <= m
  {
    if |xs| == 1 then xs[0]
    else
      var rest := MaxOf(xs[1..]);
      assert forall i :: 1 <= i < |xs| ==> xs[i] == xs[1..][i - 1];
      if xs[0] >= rest then xs[0] else rest
  }

  /** `np.median`: the middle value of the sorted values, or the mean of the
      two middle ones. */
  function Median(xs: seq<real>): real
    requires xs != []
  {
    var s := SortReals(xs);
    assert |s| == |multiset(s)| == |multiset(xs)| == |xs|;
    var n := |s|;
    if n % 2 == 1 then s[n / 2] else (s[n / 2 - 1] + s[n / 2]) / 2.0
  }

  /** The median lies between the minimum and the maximum. */
  lemma MedianBetween(xs: seq<real>)
    requires xs != []
    ensures MinOf(xs) <= Median(xs) <= MaxOf(xs)
  {
    var s := SortReals(xs);
    SortedWithinBounds(xs);
    var n := |s|;
    if n % 2 == 0 {
      MidpointBetween(s[n / 2 - 1], s[n / 2], MinOf(xs), MaxOf(xs));
    }
  }

  /** Sorting keeps every value between the minimum and the maximum. */
  lemma SortedWithinBounds(xs: seq<real>)
    requires xs != []
    ensures |SortReals(xs)| == |xs|
    ensures forall i :: 0 <= i < |xs| ==> MinOf(xs) <= SortReals(xs)[i] <= MaxOf(xs)
  {
    var s := SortReals(xs);
    assert |s| == |multiset(s)| == |multiset(xs)| == |xs|;
    forall i | 0 <= i < |s|
      ensures MinOf(xs) <= s[i] <= MaxOf(xs)
    {
      assert s[i] in multiset(xs);
      var k :| 0 <= k < |xs| && xs[k] == s[i];
    }
  }

  lemma MidpointBetween(a: real, b: real, lo: real, hi: real)
    requires lo <= a <= hi && lo <= b <= hi
    ensures lo <= (a + b) / 2.0 <= hi
  {
  }

  /** A sum of values between `lo` and `hi` lies between n·lo and n·hi. */
  lemma {:induction false} SumBetween(xs: seq<real>, lo: real, hi: real)
    requires forall i :: 0 <= i < |xs| ==> lo <= xs[i] <= hi
    ensures |xs| as real * lo <= DQScoring.Sum(xs) <= |xs| as real * hi
    decreases |xs|
  {
    if xs != [] {
      SumBetween(xs[1..], lo, hi);
      assert |xs| as real * lo == lo + (|xs| - 1) as real * lo;
      assert |xs| as real * hi == hi + (|xs| - 1) as real * hi;
    }
  }

  /** The mean of values between `lo` and `hi` lies between them. */
  lemma MeanOfBounded(xs: seq<real>, lo: real, hi: real)
    requires xs != [] && forall i :: 0 <= i < |xs| ==> lo <= xs[i] <= hi
    ensures lo <= DQScoring.Mean(xs) <= hi
  {
    SumBetween(xs, lo, hi);
    QuotientBetween(DQScoring.Sum(xs), |xs| as real, lo, hi);
  }

  /** The mean lies between the minimum and the maximum. */
  lemma MeanBetween(xs: seq<real>)
    requires xs != []
    ensures MinOf(xs) <= DQScoring.Mean(xs) <= MaxOf(xs)
  {
    MeanOfBounded(xs, MinOf(xs), MaxOf(xs));
  }

  lemma QuotientBetween(s: real, n: real, lo: real, hi: real)
    requires n > 0.0 && n * lo <= s <= n * hi
    ensures lo <= s / n <= hi
  {
    var q := s / n;
    assert n * q == s;
    assert n * (q - lo) >= 0.0;
    assert n * (hi - q) >= 0.0;
  }

  /** One row of `condition_summary`. */
  datatype SummaryRow = SummaryRow(
    condition: string,
    n: nat,
    mean: real,
    std: real,
    ciLower: real,
    ciUpper: real,
    median: real,
    min: real,
    max: real)

  /** The summary row of one condition present in the data. */
  function SummaryRowOf(data: seq<Observation>, c: string, spread: Spread): SummaryRow
    requires c in Conditions(data)
  {
    var values := GroupValues(data, c);
    var (std, lower, upper) := spread(values);
    SummaryRow(c, |values|, DQScoring.Mean(values), std, lower, upper, Median(values), MinOf(values), MaxOf(values))
  }

  /** `condition_summary`'s rows: one per distinct condition, ascending. */
  function SummaryRows(data: seq<Observation>, spread: Spread): seq<SummaryRow> {
    var cs := SortedUnique(Conditions(data));
    seq(|cs|, j requires 0 <= j < |cs| => SummaryRowOf(data, cs[j], spread))
  }

  /** Within every summary row, min <= mean <= max and min <= median <= max,
      and N is at least one. */
  lemma SummaryRowOrdered(data: seq<Observation>, c: string, spread: Spread)
    requires c in Conditions(data)
    ensures var row := SummaryRowOf(data, c, spread);
      && row.condition == c && row.n >= 1
      && row.min <= row.mean <= row.max && row.min <= row.median <= row.max
  {
    var values := GroupValues(data, c);
    MeanBetween(values);
    MedianBetween(values);
  }

  // ---------------------------------------------------------------------------
  // The report
  // ---------------------------------------------------------------------------

  /** Float formatting: `f'{alpha}'`, `:.4f` and `:.6f`. */
  datatype Formatters = Formatters(showAlpha: real -> string, fixed4: real -> string, fixed6: real -> string)

  function SigSymbol(significant: bool): string {
    if significant then "***" else "ns"
  }

  /** `str(b)` for a bool. */
  function PyBool(b: bool): string {
    if b then "True" else "False"
  }

  function ReportHeader(alpha: real, fmt: Formatters): seq<string> {
    ["# Statistical Analysis Report\n", "Significance level: α = " + fmt.showAlpha(alpha) + "\n"]
  }

  /** The five report entries of one result. */
  function ResultLines(r: StatisticalResult, fmt: Formatters): seq<string> {
    [ "## " + r.testType,
      "- Metric: " + r.metricName,
      "- Statistic: " + fmt.fixed4(r.statistic),
      "- p-value: " + fmt.fixed6(r.pValue) + " " + SigSymbol(r.significant),
      "- Significant: " + PyBool(r.significant) + "\n" ]
  }

  /** The report's entries before they are joined with newlines. */
  function ReportLines(alpha: real, results: seq<StatisticalResult>, fmt: Formatters): seq<string> {
    if results == [] then ReportHeader(alpha, fmt)
    else ReportLines(alpha, results[..|results| - 1], fmt) + ResultLines(results[|results| - 1], fmt)
  }

  lemma ReportLinesStep(alpha: real, results: seq<StatisticalResult>, m: nat, fmt: Formatters)
    requires m < |results|
    ensures ReportLines(alpha, results[..m + 1], fmt) == ReportLines(alpha, results[..m], fmt) + ResultLines(results[m], fmt)
  {
    assert results[..m + 1][..m] == results[..m];
  }

  /** The report is the two header entries, then five entries per result,
      in the order the results were accumulated; the p-value entry ends in
      "***" exactly for the significant ones. */
  lemma ReportLayout(alpha: real, results: seq<StatisticalResult>, fmt: Formatters)
    ensures var lines := ReportLines(alpha, results, fmt);
      && |lines| == 2 + 5 * |results|
      && lines[..2] == ReportHeader(alpha, fmt)
      && forall m, k :: 0 <= m < |results| && 0 <= k < 5 ==> lines[2 + 5 * m + k] == ResultLines(results[m], fmt)[k]
  {
    ReportFrame(alpha, results, fmt);
    forall m, k | 0 <= m < |results| && 0 <= k < 5
      ensures ReportLines(alpha, results, fmt)[2 + 5 * m + k] == ResultLines(results[m], fmt)[k]
    {
      ReportEntry(alpha, results, fmt, m, k);
    }
  }

  lemma {:induction false} ReportFrame(alpha: real, results: seq<StatisticalResult>, fmt: Formatters)
    ensures var lines := ReportLines(alpha, results, fmt);
      |lines| == 2 + 5 * |results| && lines[..2] == ReportHeader(alpha, fmt)
    decreases |results|
  {
    if results != [] {
      var init := results[..|results| - 1];
      ReportFrame(alpha, init, fmt);
      var before := ReportLines(alpha, init, fmt);
      assert ReportLines(alpha, results, fmt) == before + ResultLines(results[|results| - 1], fmt);
      assert (before + ResultLines(results[|results| - 1], fmt))[..2] == before[..2];
    }
  }

  lemma {:induction false} ReportEntry(alpha: real, results: seq<StatisticalResult>, fmt: Formatters, m: nat, k: nat)
    requires m < |results| && k < 5
    ensures 2 + 5 * m + k < |ReportLines(alpha, results, fmt)|
    ensures ReportLines(alpha, results, fmt)[2 + 5 * m + k] == ResultLines(results[m], fmt)[k]
    decreases |results|
  {
    var init := results[..|results| - 1];
    var before := ReportLines(alpha, init, fmt);
    ReportFrame(alpha, init, fmt);
    assert ReportLines(alpha, results, fmt) == before + ResultLines(results[|results| - 1], fmt);
    if m < |init| {
      ReportEntry(alpha, init, fmt, m, k);
      assert results[m] == init[m];
    } else {
      assert 2 + 5 * m + k == |before| + k;
    }
  }

  lemma SigSymbolMarksSignificance(b: bool)
    ensures SigSymbol(b) == "***" <==> b
    ensures SigSymbol(b) == "ns" <==> !b
  {
    assert "***"[0] != "ns"[0];
  }

  // ---------------------------------------------------------------------------
  // The analyzer
  // ---------------------------------------------------------------------------

  class StatisticalAnalyzer {
    const alpha: real
    var results: seq<StatisticalResult>

    /** `StatisticalAnalyzer(alpha)`: no results yet. */
    constructor(alpha: real := 0.05)
      ensures this.alpha == alpha && results == []
    {
      this.alpha := alpha;
      results := [];
    }

    /** `one_way_anova`: appends and returns the result, or raises and
        appends nothing. */
    method OneWayAnova(data: seq<Observation>, metric: string, fOneway: AnovaTest) returns (r: Result<StatisticalResult>)
      modifies this
      ensures r == AnovaOutcome(alpha, data, metric, fOneway)
      ensures results == old(results) + (if r.Ok? then [r.value] else [])
    {
      if data == [] {
        return Err(MissingColumn);
      }
      var conditions := UniqueInOrder(Conditions(data));
      var groups := seq(|conditions|, k requires 0 <= k < |conditions| => GroupValues(data, conditions[k]));
      var test := fOneway(groups);
      if test.None? {
        return Err("f_oneway raised");
      }
      var (f, p) := test.value;
      var result := StatisticalResult(metric, AnovaTestType, f, p, p < alpha, alpha,
                                      "Comparing " + Decimal(|conditions|) + " conditions");
      results := results + [result];
      return Ok(result);
    }

    /** `pairwise_ttests`: one t-test per pair of sorted conditions, each
        result appended as it is made; a t-test that raises leaves the
        earlier results appended. */
    method PairwiseTtests(data: seq<Observation>, metric: string, bonferroni: bool, ttest: TTest)
      returns (r: Result<seq<StatisticalResult>>)
      modifies this
      ensures r == Pairwise(alpha, data, metric, bonferroni, ttest).outcome
      ensures results == old(results) + Pairwise(alpha, data, metric, bonferroni, ttest).appended
    {
      if data == [] {
        return Err(MissingColumn);
      }
      var conditions := SortedUnique(Conditions(data));
      var pairs := PairsOf(conditions);
      var nComparisons := |pairs|;
      if bonferroni && nComparisons == 0 {
        return Err("ZeroDivisionError");
      }
      var adjustedAlpha := if bonferroni then alpha / nComparisons as real else alpha;
      var pairwiseResults, failed := TestPairs(pairs, adjustedAlpha, data, metric, ttest);
      if failed {
        return Err("ttest_ind raised");
      }
      return Ok(pairwiseResults);
    }

    /** The pair loop of `pairwise_ttests`: the results appended until a
        t-test raises (`failed`), or one per pair. */
    method TestPairs(pairs: seq<(string, string)>, adjustedAlpha: real, data: seq<Observation>, metric: string, ttest: TTest)
      returns (pairwiseResults: seq<StatisticalResult>, failed: bool)
      modifies this
      ensures PairTests(pairs, adjustedAlpha, data, metric, ttest) == Partial(pairwiseResults, failed)
      ensures results == old(results) + pairwiseResults
    {
      pairwiseResults := [];
      for m := 0 to |pairs|
        invariant PairTests(pairs[..m], adjustedAlpha, data, metric, ttest) == Partial(pairwiseResults, false)
        invariant results == old(results) + pairwiseResults
      {
        PairTestsAppend(pairs, m, adjustedAlpha, data, metric, ttest, pairwiseResults);
        var (c1, c2) := pairs[m];
        var group1 := GroupValues(data, c1);
        var group2 := GroupValues(data, c2);
        var test := ttest(group1, group2);
        if test.None? {
          PairTestsFailurePersists(pairs, m + 1, adjustedAlpha, data, metric, ttest);
          return pairwiseResults, true;
        }
        var (t, p) := test.value;
        var result := StatisticalResult(metric, "Two-Sample t-test (" + c1 + " vs " + c2 + ")", t, p,
                                        p < adjustedAlpha, adjustedAlpha, PairNotes);
        pairwiseResults := pairwiseResults + [result];
        results := results + [result];
      }
      assert pairs[..|pairs|] == pairs;
      return pairwiseResults, false;
    }

    /** `generate_report`: the entries joined with newlines. */
    method GenerateReport(fmt: Formatters) returns (report: string)
      ensures report == Join(ReportLines(alpha, results, fmt), "\n")
    {
      var lines := ["# Statistical Analysis Report\n"];
      lines := lines + ["Significance level: α = " + fmt.showAlpha(alpha) + "\n"];
      for m := 0 to |results|
        invariant lines == ReportLines(alpha, results[..m], fmt)
      {
        var result := results[m];
        ghost var before := lines;
        var sigSymbol := if result.significant then "***" else "ns";
        lines := lines + ["## " + result.testType];
        lines := lines + ["- Metric: " + result.metricName];
        lines := lines + ["- Statistic: " + fmt.fixed4(result.statistic)];
        lines := lines + ["- p-value: " + fmt.fixed6(result.pValue) + " " + sigSymbol];
        lines := lines + ["- Significant: " + PyBool(result.significant) + "\n"];
        assert lines == before + ResultLines(result, fmt);
        ReportLinesStep(alpha, results, m, fmt);
      }
      assert results[..|results|] == results;
      report := Join(lines, "\n");
    }
  }

  /** `condition_summary`: one row per distinct condition, ascending, or the
      `KeyError` of a frame without rows. It is not a member of the analyzer
      here because it reads none of its state and leaves `results` as it
      was. */
  method ConditionSummary(data: seq<Observation>, spread: Spread) returns (r: Result<seq<SummaryRow>>)
    ensures r.Err? <==> data == []
    ensures r.Ok? ==> r.value == SummaryRows(data, spread)
  {
    if data == [] {
      return Err(MissingColumn);
    }
    var conditions := SortedUnique(Conditions(data));
    var rows := [];
    for j := 0 to |conditions|
      invariant |rows| == j
      invariant forall l :: 0 <= l < j ==> rows[l] == SummaryRowOf(data, conditions[l], spread)
    {
      var condition := conditions[j];
      var values := GroupValues(data, condition);
      var mean := DQScoring.Mean(values);
      var (std, lower, upper) := spread(values);
      var row := SummaryRow(condition, |values|, mean, std, lower, upper, Median(values), MinOf(values), MaxOf(values));
      rows := rows + [row];
    }
    return Ok(rows);
  }

  /** The summary has one row per distinct condition, in strictly ascending
      order of condition, each with N at least one. */
  lemma SummaryRowsAscend(data: seq<Observation>, spread: Spread)
    ensures var rows := SummaryRows(data, spread);
      && |rows| == |ConditionSet(data)|
      && (forall i, j :: 0 <= i < j < |rows| ==> StrLt(rows[i].condition, rows[j].condition))
      && forall j :: 0 <= j < |rows| ==> rows[j].n >= 1
  {
    var cs := SortedUnique(Conditions(data));
    var rows := SummaryRows(data, spread);
    DistinctCounts(data);
    forall j | 0 <= j < |rows|
      ensures rows[j].condition == cs[j] && rows[j].n >= 1
    {
      SummaryRowOrdered(data, cs[j], spread);
    }
  }

  /** A condition has a summary row exactly when it occurs in the data. */
  lemma SummaryRowsCoverConditions(data: seq<Observation>, spread: Spread, c: string)
    ensures var rows := SummaryRows(data, spread);
      c in ConditionSet(data) <==> exists j :: 0 <= j < |rows| && rows[j].condition == c
  {
    var cs := SortedUnique(Conditions(data));
    var rows := SummaryRows(data, spread);
    if c in ConditionSet(data) {
      assert c in cs;
      var j :| 0 <= j < |cs| && cs[j] == c;
      assert rows[j].condition == c;
    }
    if exists j :: 0 <= j < |rows| && rows[j].condition == c {
      var j :| 0 <= j < |rows| && rows[j].condition == c;
      assert cs[j] == c;
    }
  }
}
