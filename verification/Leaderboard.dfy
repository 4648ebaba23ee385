/** Scores, ranks and winners: app/benchmarks/statistics.py and app/benchmarks/winners.py. */
module Leaderboard {
  import opened Core
  import opened Sorting
  import opened Lexical

  /** One planned sample of a finished or running benchmark. */
  datatype Row = Row(config: Id, task: string, weight: real, artifact: bool, score: Option<real>)

  datatype Config = Config(id: Id, fingerprint: string)

  datatype Reason = IncompleteGeneration | IncompleteEvaluation

  datatype Entry = Entry(
    config: Config, mean: Option<real>, adjusted: Option<real>, coverage: real, median: Option<real>,
    reasons: seq<Reason>)
  {
    predicate Eligible() {
      reasons == []
    }
  }

  // ----- Aggregation over rows -----

  function OfConfig(rows: seq<Row>, config: Id): (r: seq<Row>)
    ensures forall x :: x in r <==> x in rows && x.config == config
  {
    if rows == [] then []
    else OfConfig(rows[..|rows| - 1], config)
         + if rows[|rows| - 1].config == config then [rows[|rows| - 1]] else []
  }

  function OfTask(rows: seq<Row>, task: string): (r: seq<Row>)
    ensures forall x :: x in r <==> x in rows && x.task == task
  {
    if rows == [] then []
    else OfTask(rows[..|rows| - 1], task)
         + if rows[|rows| - 1].task == task then [rows[|rows| - 1]] else []
  }

  predicate Planned(rows: seq<Row>, task: string) {
    exists x :: x in rows && x.task == task
  }

  /** The tasks in order of first appearance. */
  function Appearing(rows: seq<Row>): (r: seq<string>)
    ensures forall t :: t in r <==> Planned(rows, t)
  {
    if rows == [] then []
    else
      var seen := Appearing(rows[..|rows| - 1]);
      var task := rows[|rows| - 1].task;
      assert forall x :: x in rows <==> x in rows[..|rows| - 1] || x == rows[|rows| - 1];
      if task in seen then seen else seen + [task]
  }

  function TaskIds(rows: seq<Row>): seq<string> {
    Sorted(Below, Appearing(rows))
  }

  function ScoresOf(rows: seq<Row>): seq<real> {
    if rows == [] then []
    else ScoresOf(rows[..|rows| - 1])
         + if rows[|rows| - 1].score.Some? then [rows[|rows| - 1].score.value] else []
  }

  function Sum(values: seq<real>): real {
    if values == [] then 0.0 else Sum(values[..|values| - 1]) + values[|values| - 1]
  }

  function WeightSum(rows: seq<Row>): real {
    if rows == [] then 0.0 else WeightSum(rows[..|rows| - 1]) + rows[|rows| - 1].weight
  }

  function WeightedScoreSum(rows: seq<Row>): real {
    if rows == [] then 0.0
    else WeightedScoreSum(rows[..|rows| - 1])
         + if rows[|rows| - 1].score.Some?
           then rows[|rows| - 1].score.value * rows[|rows| - 1].weight else 0.0
  }

  function ArtifactCount(rows: seq<Row>): nat {
    if rows == [] then 0
    else ArtifactCount(rows[..|rows| - 1]) + if rows[|rows| - 1].artifact then 1 else 0
  }

  function Mean(values: seq<real>): Option<real> {
    if values == [] then None else Some(Sum(values) / |values| as real)
  }

  predicate Less(x: real, y: real) {
    x < y
  }

  function Median(values: seq<real>): Option<real> {
    var ordered := Sorted(Less, values);
    var n := |ordered|;
    if n == 0 then None
    else if n % 2 == 1 then Some(ordered[n / 2])
    else Some((ordered[n / 2 - 1] + ordered[n / 2]) / 2.0)
  }

  // ----- One task -----

  function TaskMean(rows: seq<Row>): Option<real> {
    Mean(ScoresOf(rows))
  }

  function TaskAdjusted(rows: seq<Row>): Option<real> {
    if WeightSum(rows) > 0.0 then Some(WeightedScoreSum(rows) / WeightSum(rows)) else None
  }

  /** A task weighs as much as its first sample. */
  function TaskWeight(rows: seq<Row>): real {
    if rows == [] then 0.0 else rows[0].weight
  }

  // ----- All tasks of a model -----

  /** What one task adds: to the numerator and the denominator of the mean, and to the adjusted score. */
  function MeanPart(group: seq<Row>): real {
    if TaskMean(group).Some? then TaskMean(group).value * TaskWeight(group) else 0.0
  }

  function ScoredWeight(group: seq<Row>): real {
    if TaskMean(group).Some? then TaskWeight(group) else 0.0
  }

  function AdjustedPart(group: seq<Row>): real {
    if TaskAdjusted(group).Some? then TaskAdjusted(group).value * TaskWeight(group) else 0.0
  }

  function MeanTotal(rows: seq<Row>, tasks: seq<string>): real {
    if tasks == [] then 0.0
    else MeanTotal(rows, tasks[..|tasks| - 1]) + MeanPart(OfTask(rows, tasks[|tasks| - 1]))
  }

  function ScoredTotal(rows: seq<Row>, tasks: seq<string>): real {
    if tasks == [] then 0.0
    else ScoredTotal(rows, tasks[..|tasks| - 1]) + ScoredWeight(OfTask(rows, tasks[|tasks| - 1]))
  }

  function AdjustedTotal(rows: seq<Row>, tasks: seq<string>): real {
    if tasks == [] then 0.0
    else AdjustedTotal(rows, tasks[..|tasks| - 1]) + AdjustedPart(OfTask(rows, tasks[|tasks| - 1]))
  }

  function PlannedTotal(rows: seq<Row>, tasks: seq<string>): real {
    if tasks == [] then 0.0
    else PlannedTotal(rows, tasks[..|tasks| - 1]) + TaskWeight(OfTask(rows, tasks[|tasks| - 1]))
  }

  function WeightedMean(rows: seq<Row>): Option<real> {
    var tasks := TaskIds(rows);
    if ScoredTotal(rows, tasks) > 0.0 then Some(MeanTotal(rows, tasks) / ScoredTotal(rows, tasks)) else None
  }

  function CoverageAdjusted(rows: seq<Row>): Option<real> {
    var tasks := TaskIds(rows);
    if PlannedTotal(rows, tasks) > 0.0 then Some(AdjustedTotal(rows, tasks) / PlannedTotal(rows, tasks)) else None
  }

  /** The reasons against eligibility, in their fixed order. */
  function Eligibility(planned: nat, generated: nat, evaluated: nat): seq<Reason> {
    (if planned > 0 && generated == planned then [] else [IncompleteGeneration])
    + (if planned > 0 && evaluated == planned then [] else [IncompleteEvaluation])
  }

  function EntryOf(config: Config, rows: seq<Row>): Entry {
    var scores := ScoresOf(rows);
    Entry(config, WeightedMean(rows), CoverageAdjusted(rows),
          if |rows| > 0 then |scores| as real / |rows| as real else 0.0,
          Median(scores),
          Eligibility(|rows|, ArtifactCount(rows), |scores|))
  }

  // ----- What the database guarantees -----

  /** Scores lie in 0..100, weights are positive, and the samples of a task share its weight. */
  predicate ValidRows(rows: seq<Row>) {
    && (forall x :: x in rows ==> x.weight > 0.0)
    && (forall x :: x in rows && x.score.Some? ==> 0.0 <= x.score.value <= 100.0)
    && (forall x, y :: x in rows && y in rows && x.task == y.task ==> x.weight == y.weight)
  }

  /** The rows of one task. */
  predicate ValidGroup(group: seq<Row>, w: real) {
    && w > 0.0
    && (forall x :: x in group ==> x.weight == w)
    && (forall x :: x in group && x.score.Some? ==> 0.0 <= x.score.value <= 100.0)
  }

  /** A product kept as a name, so that the sums below stay linear. */
  function Times(a: real, b: real): real {
    a * b
  }

  lemma TimesLaws(a: real, b: real, w: real)
    ensures Times(a + b, w) == Times(a, w) + Times(b, w)
    ensures Times(0.0, w) == 0.0 && Times(1.0, w) == w
  {
  }

  lemma {:induction false} ScoresStep(group: seq<Row>)
    requires group != []
    ensures var last := group[|group| - 1];
      var before := ScoresOf(group[..|group| - 1]);
      && |ScoresOf(group)| == |before| + (if last.score.Some? then 1 else 0)
      && Sum(ScoresOf(group)) == Sum(before) + (if last.score.Some? then last.score.value else 0.0)
  {
    var last, before := group[|group| - 1], ScoresOf(group[..|group| - 1]);
    if last.score.Some? {
      SumStep(before, last.score.value);
    } else {
      assert before + [] == before;
    }
  }

  lemma {:induction false} SumStep(values: seq<real>, x: real)
    ensures Sum(values + [x]) == Sum(values) + x
  {
    assert (values + [x])[..|values|] == values;
  }

  lemma {:induction false} GroupWeights(group: seq<Row>, w: real)
    requires ValidGroup(group, w)
    ensures WeightSum(group) == Times(|group| as real, w)
    ensures WeightedScoreSum(group) == Times(Sum(ScoresOf(group)), w)
  {
    hide Times, ScoresOf, Sum;
    if group == [] {
      NoScores();
      TimesLaws(0.0, 0.0, w);
    } else {
      var last := group[|group| - 1];
      var before := group[..|group| - 1];
      GroupWeights(before, w);
      assert last in group;
      ScoresStep(group);
      TimesLaws(|before| as real, 1.0, w);
      assert WeightSum(group) == WeightSum(before) + w;
      if last.score.Some? {
        TimesLaws(Sum(ScoresOf(before)), last.score.value, w);
        LastTerm(group, w);
      }
    }
  }

  lemma NoScores()
    ensures ScoresOf([]) == [] && Sum([]) == 0.0
  {
  }

  lemma LastTerm(group: seq<Row>, w: real)
    requires group != [] && group[|group| - 1].score.Some? && group[|group| - 1].weight == w
    ensures WeightedScoreSum(group) ==
      WeightedScoreSum(group[..|group| - 1]) + Times(group[|group| - 1].score.value, w)
  {
  }

  lemma {:induction false} GroupScores(group: seq<Row>, w: real)
    requires ValidGroup(group, w)
    ensures |ScoresOf(group)| <= |group|
    ensures 0.0 <= Sum(ScoresOf(group)) <= 100.0 * |ScoresOf(group)| as real
  {
    hide ScoresOf, Sum;
    if group == [] {
      NoScores();
    } else {
      GroupScores(group[..|group| - 1], w);
      assert group[|group| - 1] in group;
      ScoresStep(group);
    }
  }

  /** One task: its adjusted score is the mean that it would have if every missing score were zero. */
  lemma GroupAdjusted(group: seq<Row>, w: real)
    requires ValidGroup(group, w) && group != []
    ensures TaskWeight(group) == w
    ensures TaskAdjusted(group) == Some(Sum(ScoresOf(group)) / |group| as real)
  {
    hide Sum, ScoresOf, WeightSum, WeightedScoreSum;
    GroupWeights(group, w);
    assert group[0] in group;
    Cancel(Sum(ScoresOf(group)), |group| as real, w);
  }

  lemma GroupParts(group: seq<Row>, w: real)
    requires ValidGroup(group, w) && group != []
    ensures 0.0 <= AdjustedPart(group) <= MeanPart(group) <= 100.0 * ScoredWeight(group)
    ensures 0.0 <= ScoredWeight(group) <= w == TaskWeight(group)
    ensures |ScoresOf(group)| == |group| ==> AdjustedPart(group) == MeanPart(group) && ScoredWeight(group) == w
  {
    hide Sum, ScoresOf, WeightSum, WeightedScoreSum, TaskAdjusted;
    GroupAdjusted(group, w);
    GroupScores(group, w);
    var total, n, k := Sum(ScoresOf(group)), |group| as real, |ScoresOf(group)| as real;
    if ScoresOf(group) != [] {
      QuotientOrder(total, k, n);
      QuotientBound(total, k);
      Scale(total / n, total / k, 100.0, w);
    } else {
      assert total / n == 0.0;
    }
  }

  lemma Cancel(total: real, n: real, w: real)
    requires n > 0.0 && w > 0.0
    ensures Times(n, w) > 0.0 && Times(total, w) / Times(n, w) == total / n
  {
    var q := total / n;
    assert total * w == (q * n) * w == q * (n * w);
  }

  lemma QuotientOrder(total: real, k: real, n: real)
    requires 0.0 <= total && 0.0 < k <= n
    ensures 0.0 <= total / n <= total / k
  {
    var q := total / n;
    assert q * n == total;
    assert q * k <= q * n;
  }

  lemma QuotientBound(total: real, k: real)
    requires 0.0 < k && total <= 100.0 * k
    ensures total / k <= 100.0
  {
    var q := total / k;
    assert q * k == total;
  }

  lemma Scale(a: real, b: real, c: real, w: real)
    requires 0.0 <= a <= b <= c && w > 0.0
    ensures 0.0 <= a * w <= b * w <= c * w
  {
  }

  // ----- All tasks -----

  lemma {:induction false} TaskTotals(rows: seq<Row>, tasks: seq<string>)
    requires ValidRows(rows) && forall t :: t in tasks ==> Planned(rows, t)
    ensures 0.0 <= AdjustedTotal(rows, tasks) <= MeanTotal(rows, tasks) <= 100.0 * ScoredTotal(rows, tasks)
    ensures 0.0 <= ScoredTotal(rows, tasks) <= PlannedTotal(rows, tasks)
    ensures tasks != [] ==> PlannedTotal(rows, tasks) > 0.0
    ensures (forall x :: x in rows ==> x.score.Some?) ==>
      && AdjustedTotal(rows, tasks) == MeanTotal(rows, tasks)
      && ScoredTotal(rows, tasks) == PlannedTotal(rows, tasks)
  {
    hide OfTask, AdjustedPart, MeanPart, ScoredWeight, TaskWeight, ScoresOf, ValidGroup, ValidRows, Planned;
    if tasks != [] {
      var t := tasks[|tasks| - 1];
      TaskTotals(rows, tasks[..|tasks| - 1]);
      assert t in tasks;
      var w := TaskGroup(rows, t);
      GroupParts(OfTask(rows, t), w);
    }
  }

  /** The rows of a task that appears form a valid group of one weight. */
  lemma TaskGroup(rows: seq<Row>, t: string) returns (w: real)
    requires ValidRows(rows) && Planned(rows, t)
    ensures OfTask(rows, t) != [] && ValidGroup(OfTask(rows, t), w) && w > 0.0
    ensures (forall x :: x in rows ==> x.score.Some?) ==> |ScoresOf(OfTask(rows, t))| == |OfTask(rows, t)|
  {
    var x :| x in rows && x.task == t;
    assert x in OfTask(rows, t);
    w := x.weight;
    if forall y :: y in rows ==> y.score.Some? {
      AllScored(OfTask(rows, t));
    }
  }

  lemma {:induction false} AllScored(rows: seq<Row>)
    ensures |ScoresOf(rows)| <= |rows|
    ensures |ScoresOf(rows)| == |rows| <==> forall x :: x in rows ==> x.score.Some?
  {
    if rows != [] {
      var last := |rows| - 1;
      AllScored(rows[..last]);
      assert rows[last] in rows;
      assert forall x :: x in rows ==> x in rows[..last] || x == rows[last];
    }
  }

  lemma TasksAppear(rows: seq<Row>)
    ensures forall t :: t in TaskIds(rows) <==> Planned(rows, t)
    ensures rows != [] <==> TaskIds(rows) != []
  {
    hide Appearing, Sorted;
    BelowIsWeakOrder();
    SortedIsOrdered(Below, Appearing(rows));
    AppearingFacts(rows);
    forall t ensures t in TaskIds(rows) <==> t in Appearing(rows) {
      assert t in multiset(TaskIds(rows)) <==> t in multiset(Appearing(rows));
    }
    if rows != [] {
      assert rows[0] in rows;
      assert rows[0].task in Appearing(rows);
    }
  }

  lemma AppearingFacts(rows: seq<Row>)
    ensures forall t :: t in Appearing(rows) <==> Planned(rows, t)
    ensures rows == [] ==> Appearing(rows) == []
  {
  }

  lemma BelowIsWeakOrder()
    ensures WeakOrder(Below)
  {
    hide Below;
    forall x: string ensures !Below(x, x) {
      if Below(x, x) {
        BelowAsymmetric(x, x);
      }
    }
    forall x: string, y: string, z: string | Below(x, y) && Below(y, z) ensures Below(x, z) {
      BelowTransitive(x, y, z);
    }
    forall x: string, y: string, z: string | Below(x, z) ensures Below(x, y) || Below(y, z) {
      BelowTrichotomy(x, y);
      if Below(y, x) {
        BelowTransitive(y, x, z);
      }
    }
  }

  /** The adjusted score never exceeds the mean, and both are percentages. */
  lemma ScoreOrder(rows: seq<Row>)
    requires ValidRows(rows)
    ensures var mean, adjusted := WeightedMean(rows), CoverageAdjusted(rows);
      && (mean.Some? ==> adjusted.Some? && 0.0 <= adjusted.value <= mean.value <= 100.0)
      && (adjusted.Some? <==> rows != [])
      && (mean.None? && adjusted.Some? ==> adjusted.value == 0.0)
  {
    hide TaskIds, AdjustedTotal, MeanTotal, ScoredTotal, PlannedTotal, ValidRows;
    var tasks := TaskIds(rows);
    TasksAppear(rows);
    TaskTotals(rows, tasks);
    assert tasks == [] ==> PlannedTotal(rows, tasks) == 0.0 by {
      NoTasks(rows);
    }
    var a, m, d, p := AdjustedTotal(rows, tasks), MeanTotal(rows, tasks),
                      ScoredTotal(rows, tasks), PlannedTotal(rows, tasks);
    if d > 0.0 {
      QuotientOrder(a, d, p);
      QuotientMonotone(a, m, d);
      QuotientBound(m, d);
    }
  }

  lemma NoTasks(rows: seq<Row>)
    ensures PlannedTotal(rows, []) == 0.0
  {
  }

  lemma QuotientMonotone(a: real, m: real, d: real)
    requires a <= m && d > 0.0
    ensures a / d <= m / d
  {
  }

  /** A model is eligible exactly when all its planned samples were generated and evaluated. */
  lemma EligibleMeansComplete(config: Config, rows: seq<Row>)
    ensures EntryOf(config, rows).Eligible() <==>
      rows != [] && forall x :: x in rows ==> x.artifact && x.score.Some?
  {
    AllScored(rows);
    AllGenerated(rows);
  }

  lemma {:induction false} AllGenerated(rows: seq<Row>)
    ensures ArtifactCount(rows) <= |rows|
    ensures ArtifactCount(rows) == |rows| <==> forall x :: x in rows ==> x.artifact
  {
    if rows != [] {
      var last := |rows| - 1;
      AllGenerated(rows[..last]);
      assert rows[last] in rows;
      assert forall x :: x in rows ==> x in rows[..last] || x == rows[last];
    }
  }

  /** An eligible model has a mean, and no coverage to adjust it by. */
  lemma EligibleScoresAgree(config: Config, rows: seq<Row>)
    requires ValidRows(rows) && EntryOf(config, rows).Eligible()
    ensures WeightedMean(rows).Some? && CoverageAdjusted(rows) == WeightedMean(rows)
  {
    hide TaskIds, AdjustedTotal, MeanTotal, ScoredTotal, PlannedTotal, ValidRows;
    EligibleMeansComplete(config, rows);
    TasksAppear(rows);
    TaskTotals(rows, TaskIds(rows));
  }

  /** What the two scores of a task are when it has two samples, both evaluated. */
  lemma {:induction false} TwoSamples(x: Row, y: Row)
    requires x.score.Some? && y.score.Some?
    ensures Sum(ScoresOf([x, y])) == x.score.value + y.score.value && |ScoresOf([x, y])| == 2
    ensures WeightSum([x, y]) == x.weight + y.weight
    ensures WeightedScoreSum([x, y]) == Times(x.score.value, x.weight) + Times(y.score.value, y.weight)
  {
    hide Times;
    assert [x, y][..1] == [x] && [x][..0] == [];
    ScoresStep([x, y]);
    ScoresStep([x]);
    assert WeightSum([x]) == x.weight;
    LastTerm([x, y], y.weight);
    LastTerm([x], x.weight);
  }

  /** Two weights in one task break the order: the adjusted score can then exceed the mean. */
  lemma SharedWeightIsNeeded()
    ensures var group := [Row(0, "t", 1.0, true, Some(0.0)), Row(0, "t", 3.0, true, Some(100.0))];
      TaskMean(group) == Some(50.0) && TaskAdjusted(group) == Some(75.0)
  {
    hide Sum, ScoresOf, WeightSum, WeightedScoreSum;
    TwoSamples(Row(0, "t", 1.0, true, Some(0.0)), Row(0, "t", 3.0, true, Some(100.0)));
  }

  // ----- The adjusted score is the mean with missing scores counted as zero -----

  function Filled(row: Row): Row {
    row.(score := Some(if row.score.Some? then row.score.value else 0.0))
  }

  function ZeroFilled(rows: seq<Row>): (r: seq<Row>)
    ensures |r| == |rows| && forall i :: 0 <= i < |rows| ==> r[i] == Filled(rows[i])
  {
    if rows == [] then [] else ZeroFilled(rows[..|rows| - 1]) + [Filled(rows[|rows| - 1])]
  }

  lemma FilledPrefix(rows: seq<Row>)
    requires rows != []
    ensures ZeroFilled(rows)[..|rows| - 1] == ZeroFilled(rows[..|rows| - 1])
    ensures ZeroFilled(rows)[|rows| - 1] == Filled(rows[|rows| - 1])
  {
  }

  lemma {:induction false} FilledAppearing(rows: seq<Row>)
    ensures Appearing(ZeroFilled(rows)) == Appearing(rows)
  {
    if rows != [] {
      FilledPrefix(rows);
      FilledAppearing(rows[..|rows| - 1]);
    }
  }

  lemma {:induction false} FilledOfTask(rows: seq<Row>, t: string)
    ensures OfTask(ZeroFilled(rows), t) == ZeroFilled(OfTask(rows, t))
  {
    if rows != [] {
      FilledPrefix(rows);
      FilledOfTask(rows[..|rows| - 1], t);
    }
  }

  lemma {:induction false} FilledScores(group: seq<Row>)
    ensures |ScoresOf(ZeroFilled(group))| == |group|
    ensures Sum(ScoresOf(ZeroFilled(group))) == Sum(ScoresOf(group))
  {
    hide ScoresOf, Sum;
    if group == [] {
      NoScores();
    } else {
      FilledPrefix(group);
      FilledScores(group[..|group| - 1]);
      ScoresStep(group);
      ScoresStep(ZeroFilled(group));
    }
  }

  lemma FilledParts(group: seq<Row>, w: real)
    requires ValidGroup(group, w) && group != []
    ensures MeanPart(ZeroFilled(group)) == AdjustedPart(group)
    ensures ScoredWeight(ZeroFilled(group)) == TaskWeight(group)
  {
    hide Sum, ScoresOf, WeightSum, WeightedScoreSum, TaskAdjusted;
    GroupAdjusted(group, w);
    FilledScores(group);
    assert ZeroFilled(group)[0].weight == group[0].weight;
  }

  lemma {:induction false} FilledTotals(rows: seq<Row>, tasks: seq<string>)
    requires ValidRows(rows) && forall t :: t in tasks ==> Planned(rows, t)
    ensures MeanTotal(ZeroFilled(rows), tasks) == AdjustedTotal(rows, tasks)
    ensures ScoredTotal(ZeroFilled(rows), tasks) == PlannedTotal(rows, tasks)
  {
    hide OfTask, ZeroFilled, MeanPart, AdjustedPart, ScoredWeight, TaskWeight, ValidRows, ValidGroup, Planned;
    if tasks != [] {
      var t := tasks[|tasks| - 1];
      assert t in tasks;
      FilledTotals(rows, tasks[..|tasks| - 1]);
      var w := TaskGroup(rows, t);
      FilledParts(OfTask(rows, t), w);
      FilledOfTask(rows, t);
    }
  }

  lemma AdjustedIsZeroFilledMean(rows: seq<Row>)
    requires ValidRows(rows)
    ensures CoverageAdjusted(rows) == WeightedMean(ZeroFilled(rows))
  {
    hide Appearing, Sorted, MeanTotal, AdjustedTotal, ScoredTotal, PlannedTotal, ZeroFilled;
    TasksAppear(rows);
    FilledAppearing(rows);
    FilledTotals(rows, TaskIds(rows));
  }

  // ----- Ranking -----

  /** A missing mean or median ranks as -1, below every score. */
  function OrMinusOne(x: Option<real>): real {
    if x.Some? then x.value else -1.0
  }

  /** Higher mean first, then higher coverage, then higher median, then the smaller fingerprint. */
  predicate Ahead(x: Entry, y: Entry) {
    var m, m' := OrMinusOne(x.mean), OrMinusOne(y.mean);
    var d, d' := OrMinusOne(x.median), OrMinusOne(y.median);
    || m > m'
    || (m == m' && x.coverage > y.coverage)
    || (m == m' && x.coverage == y.coverage && d > d')
    || (m == m' && x.coverage == y.coverage && d == d' && Below(x.config.fingerprint, y.config.fingerprint))
  }

  lemma AheadIsWeakOrder()
    ensures WeakOrder(Ahead)
  {
    hide Below;
    BelowIsWeakOrder();
  }

  function Entries(configs: seq<Config>, rows: seq<Row>): (r: seq<Entry>)
    ensures |r| == |configs|
    ensures forall i :: 0 <= i < |configs| ==> r[i] == EntryOf(configs[i], OfConfig(rows, configs[i].id))
  {
    seq(|configs|, i requires 0 <= i < |configs| => EntryOf(configs[i], OfConfig(rows, configs[i].id)))
  }

  /** The entries in rank order; the entry at position i has rank i + 1. */
  function Board(configs: seq<Config>, rows: seq<Row>): seq<Entry> {
    Sorted(Ahead, Entries(configs, rows))
  }

  predicate Qualifies(e: Entry, eligibleOnly: bool) {
    e.mean.Some? && (eligibleOnly ==> e.Eligible())
  }

  function FirstScored(board: seq<Entry>, eligibleOnly: bool): Option<Entry> {
    if board == [] then None
    else if Qualifies(board[0], eligibleOnly) then Some(board[0])
    else FirstScored(board[1..], eligibleOnly)
  }

  datatype Selection = Selection(observed: Option<Entry>, eligible: Option<Entry>, final: bool)

  function SelectWinners(board: seq<Entry>, final: bool): Selection {
    if !final then Selection(None, None, false)
    else Selection(FirstScored(board, false), FirstScored(board, true), true)
  }

  lemma {:induction false} FirstIsBest(board: seq<Entry>, eligibleOnly: bool)
    requires Ordered(Ahead, board)
    ensures var first := FirstScored(board, eligibleOnly);
      && (first.None? ==> forall e :: e in board ==> !Qualifies(e, eligibleOnly))
      && (first.Some? ==>
            && first.value in board && Qualifies(first.value, eligibleOnly)
            && forall e :: e in board && Qualifies(e, eligibleOnly) ==> e.mean.value <= first.value.mean.value)
  {
    hide Below;
    if board != [] && !Qualifies(board[0], eligibleOnly) {
      FirstIsBest(board[1..], eligibleOnly);
    }
  }

  /** Every planned sample of the model was generated and evaluated. */
  predicate Complete(config: Config, rows: seq<Row>) {
    var own := OfConfig(rows, config.id);
    own != [] && forall x :: x in own ==> x.artifact && x.score.Some?
  }

  lemma BoardEntries(configs: seq<Config>, rows: seq<Row>)
    ensures Ordered(Ahead, Board(configs, rows))
    ensures forall e :: e in Board(configs, rows) <==>
      exists c :: c in configs && e == EntryOf(c, OfConfig(rows, c.id))
  {
    hide Ahead, EntryOf, OfConfig, Sorted;
    AheadIsWeakOrder();
    SortedIsOrdered(Ahead, Entries(configs, rows));
    forall e ensures e in Board(configs, rows) <==> e in Entries(configs, rows) {
      assert e in multiset(Board(configs, rows)) <==> e in multiset(Entries(configs, rows));
    }
    forall c | c in configs ensures EntryOf(c, OfConfig(rows, c.id)) in Entries(configs, rows) {
      var i :| 0 <= i < |configs| && configs[i] == c;
      assert Entries(configs, rows)[i] == EntryOf(c, OfConfig(rows, c.id));
    }
  }

  lemma ValidConfigRows(rows: seq<Row>, config: Id)
    requires ValidRows(rows)
    ensures ValidRows(OfConfig(rows, config))
  {
  }

  /** The entry that the winner must be compared with, for each model. */
  lemma CompleteEntry(config: Config, rows: seq<Row>)
    requires ValidRows(rows)
    ensures var e := EntryOf(config, OfConfig(rows, config.id));
      && (Complete(config, rows) <==> Qualifies(e, true))
      && (Complete(config, rows) ==> e.adjusted == e.mean)
  {
    hide WeightedMean, CoverageAdjusted, ValidRows, Median;
    var own := OfConfig(rows, config.id);
    ValidConfigRows(rows, config.id);
    EligibleMeansComplete(config, own);
    if Complete(config, rows) {
      EligibleScoresAgree(config, own);
    }
  }

  /**
    There is an eligible winner exactly when some model is complete; it is a complete model, its two
    scores agree, and no complete model has a higher mean.
  */
  lemma EligibleWinnerIsBest(configs: seq<Config>, rows: seq<Row>)
    requires ValidRows(rows)
    ensures var winner := SelectWinners(Board(configs, rows), true).eligible;
      && (winner.Some? <==> exists c :: c in configs && Complete(c, rows))
      && (winner.Some? ==>
            && winner.value.mean.Some? && winner.value.adjusted == winner.value.mean
            && (exists c :: c in configs && Complete(c, rows)
                            && winner.value == EntryOf(c, OfConfig(rows, c.id)))
            && forall c :: c in configs && Complete(c, rows) ==>
                 var mean := WeightedMean(OfConfig(rows, c.id));
                 mean.Some? && mean.value <= winner.value.mean.value)
  {
    hide WeightedMean, CoverageAdjusted, ValidRows, Median, Ahead, Board, Complete, OfConfig, Eligibility;
    var board := Board(configs, rows);
    BoardEntries(configs, rows);
    FirstIsBest(board, true);
    var winner := FirstScored(board, true);
    forall c | c in configs ensures
        && EntryOf(c, OfConfig(rows, c.id)) in board
        && (Complete(c, rows) <==> Qualifies(EntryOf(c, OfConfig(rows, c.id)), true))
        && (Complete(c, rows) ==> EntryOf(c, OfConfig(rows, c.id)).adjusted == EntryOf(c, OfConfig(rows, c.id)).mean)
    {
      CompleteEntry(c, rows);
    }
    if winner.Some? {
      var c :| c in configs && winner.value == EntryOf(c, OfConfig(rows, c.id));
      assert Complete(c, rows);
    }
  }

  /** The observed winner has the highest mean of all; before a run is final there is no winner. */
  lemma ObservedWinnerIsBest(configs: seq<Config>, rows: seq<Row>)
    ensures var winner := SelectWinners(Board(configs, rows), true).observed;
      && (winner.Some? <==> exists c :: c in configs && WeightedMean(OfConfig(rows, c.id)).Some?)
      && (winner.Some? ==>
            && winner.value.mean.Some?
            && (exists c :: c in configs && winner.value == EntryOf(c, OfConfig(rows, c.id)))
            && forall c :: c in configs && WeightedMean(OfConfig(rows, c.id)).Some? ==>
                 WeightedMean(OfConfig(rows, c.id)).value <= winner.value.mean.value)
    ensures SelectWinners(Board(configs, rows), false) == Selection(None, None, false)
  {
    hide WeightedMean, CoverageAdjusted, Median, Ahead, Board, OfConfig, Eligibility;
    BoardEntries(configs, rows);
    FirstIsBest(Board(configs, rows), false);
    forall c | c in configs ensures EntryOf(c, OfConfig(rows, c.id)) in Board(configs, rows) {
    }
  }

  /** Every entry of the board orders its two scores within 0..100. */
  lemma BoardScoresOrdered(configs: seq<Config>, rows: seq<Row>, e: Entry)
    requires ValidRows(rows) && e in Board(configs, rows)
    ensures e.mean.Some? ==> e.adjusted.Some? && 0.0 <= e.adjusted.value <= e.mean.value <= 100.0
  {
    hide WeightedMean, CoverageAdjusted, ValidRows, Median, Board, OfConfig;
    BoardEntries(configs, rows);
    var c :| c in configs && e == EntryOf(c, OfConfig(rows, c.id));
    ValidConfigRows(rows, c.id);
    ScoreOrder(OfConfig(rows, c.id));
  }

  // ----- What else an entry says -----

  /** Each reason is given exactly when something is missing, generation first. */
  lemma ReasonsAreExact(config: Config, rows: seq<Row>)
    ensures var reasons := EntryOf(config, rows).reasons;
      && (IncompleteGeneration in reasons <==> rows == [] || exists x :: x in rows && !x.artifact)
      && (IncompleteEvaluation in reasons <==> rows == [] || exists x :: x in rows && x.score.None?)
      && |reasons| <= 2 && (|reasons| == 2 ==> reasons == [IncompleteGeneration, IncompleteEvaluation])
  {
    AllScored(rows);
    AllGenerated(rows);
  }

  /** Coverage is the evaluated part of the planned samples. */
  lemma CoverageIsPart(config: Config, rows: seq<Row>)
    ensures var coverage := EntryOf(config, rows).coverage;
      && coverage * |rows| as real == |ScoresOf(rows)| as real
      && 0.0 <= coverage <= 1.0
      && (coverage == 1.0 <==> rows != [] && forall x :: x in rows ==> x.score.Some?)
  {
    hide WeightedMean, CoverageAdjusted, Median, Eligibility, ArtifactCount, ScoresOf;
    AllScored(rows);
    if rows == [] {
      NoScores();
    } else {
      PartOf(|ScoresOf(rows)| as real, |rows| as real);
    }
  }

  lemma PartOf(k: real, n: real)
    requires 0.0 <= k <= n && n > 0.0
    ensures (k / n) * n == k && 0.0 <= k / n <= 1.0 && (k / n == 1.0 <==> k == n)
  {
  }

  lemma LessIsWeakOrder()
    ensures WeakOrder(Less)
  {
  }

  /** `m` parts the values: the greatest of a lower half, or halfway between two equal halves. */
  ghost predicate Middle(lower: seq<real>, upper: seq<real>, m: real) {
    && |upper| <= |lower| <= |upper| + 1
    && (forall x :: x in lower ==> x <= m) && (forall y :: y in upper ==> m <= y)
    && (|lower| > |upper| ==> m in lower)
    && (|lower| == |upper| ==>
          exists x, y :: x in lower && y in upper && m == (x + y) / 2.0
                         && (forall z :: z in lower ==> z <= x) && (forall z :: z in upper ==> y <= z))
  }

  ghost predicate Parts(values: seq<real>, lower: seq<real>, upper: seq<real>) {
    multiset(lower + upper) == multiset(values)
  }

  lemma MedianIsMiddle(values: seq<real>)
    ensures Median(values).Some? <==> values != []
    ensures values != [] ==>
      exists lower, upper :: Parts(values, lower, upper) && Middle(lower, upper, Median(values).value)
  {
    hide Sorted, Middle, Less, Ordered, WeakOrder, Parts;
    LessIsWeakOrder();
    SortedIsOrdered(Less, values);
    var s := Sorted(Less, values);
    if s != [] {
      var half := (|s| + 1) / 2;
      MiddleOfSorted(s);
      SplitParts(values, s, half);
    }
  }

  lemma SplitParts(values: seq<real>, s: seq<real>, half: nat)
    requires multiset(s) == multiset(values) && half <= |s|
    ensures Parts(values, s[..half], s[half..])
  {
    assert s == s[..half] + s[half..];
  }

  lemma MiddleOfSorted(s: seq<real>)
    requires Ordered(Less, s) && s != []
    ensures var half := (|s| + 1) / 2;
      Middle(s[..half], s[half..], if |s| % 2 == 1 then s[|s| / 2] else (s[|s| / 2 - 1] + s[|s| / 2]) / 2.0)
  {
    var half := (|s| + 1) / 2;
    var lower, upper := s[..half], s[half..];
    forall x | x in lower ensures x <= s[half - 1] {
      var i :| 0 <= i < half && s[i] == x;
      assert i < half - 1 ==> !Less(s[half - 1], s[i]);
    }
    forall y | y in upper ensures s[half - 1] <= y && s[half] <= y {
      var i :| 0 <= i < |upper| && upper[i] == y;
      assert s[half + i] == y;
      assert !Less(s[half + i], s[half - 1]);
      assert i > 0 ==> !Less(s[half + i], s[half]);
    }
    assert lower[half - 1] == s[half - 1];
    if |s| % 2 == 0 {
      assert upper[0] == s[half];
      assert s[half - 1] in lower && s[half] in upper;
      assert !Less(s[half], s[half - 1]);
    }
  }

  /** Rank order, spelled out: mean, then coverage, then median, all descending, then fingerprint. */
  lemma BoardIsRanked(configs: seq<Config>, rows: seq<Row>, i: nat, j: nat)
    requires ValidRows(rows) && i < j < |Board(configs, rows)|
    ensures var x, y := Board(configs, rows)[i], Board(configs, rows)[j];
      && (y.mean.Some? ==> x.mean.Some? && x.mean.value >= y.mean.value)
      && (x.mean == y.mean ==>
            && x.coverage >= y.coverage
            && (x.coverage == y.coverage && x.median.Some? && y.median.Some? ==>
                  && x.median.value >= y.median.value
                  && (x.median.value == y.median.value ==> !Below(y.config.fingerprint, x.config.fingerprint))))
  {
    hide EntryOf, OfConfig, Sorted, Below, ValidRows;
    BoardEntries(configs, rows);
    var board := Board(configs, rows);
    assert board[i] in board && board[j] in board;
    BoardScoresOrdered(configs, rows, board[i]);
    BoardScoresOrdered(configs, rows, board[j]);
    assert !Ahead(board[j], board[i]);
  }

  // ----- The loops -----

  lemma {:induction false} ConfigStep(rows: seq<Row>, i: nat)
    requires i < |rows|
    ensures OfConfig(rows[..i + 1], rows[i].config) == OfConfig(rows[..i], rows[i].config) + [rows[i]]
    ensures forall c :: c != rows[i].config ==> OfConfig(rows[..i + 1], c) == OfConfig(rows[..i], c)
  {
    assert rows[..i + 1][..i] == rows[..i];
  }

  lemma {:induction false} TaskStep(rows: seq<Row>, i: nat)
    requires i < |rows|
    ensures OfTask(rows[..i + 1], rows[i].task) == OfTask(rows[..i], rows[i].task) + [rows[i]]
    ensures forall t :: t != rows[i].task ==> OfTask(rows[..i + 1], t) == OfTask(rows[..i], t)
    ensures Appearing(rows[..i + 1]) == (if rows[i].task in Appearing(rows[..i]) then Appearing(rows[..i])
                                         else Appearing(rows[..i]) + [rows[i].task])
  {
    assert rows[..i + 1][..i] == rows[..i];
  }

  lemma NoRows()
    ensures (forall c :: OfConfig([], c) == []) && (forall t :: OfTask([], t) == []) && Appearing([]) == []
  {
  }

  method GroupByConfig(rows: seq<Row>) returns (grouped: map<Id, seq<Row>>)
    ensures forall c :: (if c in grouped then grouped[c] else []) == OfConfig(rows, c)
  {
    hide OfConfig;
    grouped := map[];
    NoRows();
    for i := 0 to |rows|
      invariant forall c :: c in grouped ==> grouped[c] == OfConfig(rows[..i], c)
      invariant forall c :: c !in grouped ==> OfConfig(rows[..i], c) == []
    {
      ConfigStep(rows, i);
      var id := rows[i].config;
      grouped := grouped[id := (if id in grouped then grouped[id] else []) + [rows[i]]];
    }
    assert rows[..|rows|] == rows;
  }

  /** The dictionary of groups, with its keys in insertion order. */
  method GroupByTask(rows: seq<Row>) returns (groups: map<string, seq<Row>>, order: seq<string>)
    ensures order == Appearing(rows)
    ensures forall t :: t in groups <==> t in order
    ensures forall t :: t in groups ==> groups[t] == OfTask(rows, t)
  {
    hide OfTask, Appearing;
    groups, order := map[], [];
    NoRows();
    for i := 0 to |rows|
      invariant order == Appearing(rows[..i])
      invariant forall t :: t in groups <==> t in order
      invariant forall t :: t in groups ==> groups[t] == OfTask(rows[..i], t)
      invariant forall t :: t !in groups ==> OfTask(rows[..i], t) == []
    {
      TaskStep(rows, i);
      var task := rows[i].task;
      if task !in groups {
        order := order + [task];
      }
      groups := groups[task := (if task in groups then groups[task] else []) + [rows[i]]];
    }
    assert rows[..|rows|] == rows;
  }

  method BuildEntry(config: Config, rows: seq<Row>) returns (e: Entry)
    ensures e == EntryOf(config, rows)
  {
    hide Appearing, Sorted, OfTask, MeanPart, ScoredWeight, AdjustedPart, TaskWeight, ScoresOf, Median;
    var groups, order := GroupByTask(rows);
    var tasks := Sorted(Below, order);
    TasksAppear(rows);
    AppearingFacts(rows);
    var mean, scored, adjusted, planned := 0.0, 0.0, 0.0, 0.0;
    for i := 0 to |tasks|
      invariant mean == MeanTotal(rows, tasks[..i]) && scored == ScoredTotal(rows, tasks[..i])
      invariant adjusted == AdjustedTotal(rows, tasks[..i]) && planned == PlannedTotal(rows, tasks[..i])
    {
      assert tasks[i] in TaskIds(rows);
      assert tasks[..i + 1][..i] == tasks[..i];
      var group := groups[tasks[i]];
      mean, scored := mean + MeanPart(group), scored + ScoredWeight(group);
      adjusted, planned := adjusted + AdjustedPart(group), planned + TaskWeight(group);
    }
    assert tasks[..|tasks|] == tasks;
    var scores := ScoresOf(rows);
    e := Entry(config,
               if scored > 0.0 then Some(mean / scored) else None,
               if planned > 0.0 then Some(adjusted / planned) else None,
               if |rows| > 0 then |scores| as real / |rows| as real else 0.0,
               Median(scores),
               Eligibility(|rows|, ArtifactCount(rows), |scores|));
  }

  method BuildLeaderboard(configs: seq<Config>, rows: seq<Row>) returns (board: seq<Entry>)
    ensures board == Board(configs, rows)
  {
    hide Sorted, OfConfig, EntryOf;
    var grouped := GroupByConfig(rows);
    var unranked: seq<Entry> := [];
    for i := 0 to |configs|
      invariant unranked == Entries(configs, rows)[..i]
    {
      var id := configs[i].id;
      var e := BuildEntry(configs[i], if id in grouped then grouped[id] else []);
      unranked := unranked + [e];
    }
    assert unranked == Entries(configs, rows);
    board := Sorted(Ahead, unranked);
  }
}
