/**
  The primary mean of app/benchmarks/statistics.py said over single samples: each evaluated sample
  carries its task's weight divided by the number of the task's evaluated samples, and samples
  without a score carry nothing.
*/
module ScoreShares {
  import opened Core
  import opened Sorting
  import opened Lexical
  import opened Leaderboard

  /** How many samples of the task were evaluated. */
  function Evaluations(rows: seq<Row>, task: string): nat {
    if rows == [] then 0
    else
      var last := rows[|rows| - 1];
      Evaluations(rows[..|rows| - 1], task) + if last.task == task && last.score.Some? then 1 else 0
  }

  function Share(all: seq<Row>, row: Row): real {
    var n := Evaluations(all, row.task);
    if row.score.None? || n == 0 then 0.0 else row.weight / n as real
  }

  function Points(row: Row): real {
    if row.score.Some? then row.score.value else 0.0
  }

  /** The shares of the samples whose task is in `tasks`, added up. */
  function ShareSum(all: seq<Row>, rows: seq<Row>, tasks: set<string>): real {
    if rows == [] then 0.0
    else
      var last := rows[|rows| - 1];
      ShareSum(all, rows[..|rows| - 1], tasks) + if last.task in tasks then Share(all, last) else 0.0
  }

  /** Their scores, each times its share, added up. */
  function PointSum(all: seq<Row>, rows: seq<Row>, tasks: set<string>): real {
    if rows == [] then 0.0
    else
      var last := rows[|rows| - 1];
      PointSum(all, rows[..|rows| - 1], tasks)
      + if last.task in tasks then Times(Points(last), Share(all, last)) else 0.0
  }

  function TasksOf(rows: seq<Row>): set<string> {
    set row | row in rows :: row.task
  }

  /** The mean as a quotient of two sums over the samples. */
  function SharedMean(rows: seq<Row>): Option<real> {
    var weight := ShareSum(rows, rows, TasksOf(rows));
    if weight > 0.0 then Some(PointSum(rows, rows, TasksOf(rows)) / weight) else None
  }

  // ----- One task -----

  lemma {:induction false} OfTaskStep(rows: seq<Row>, task: string)
    ensures rows == [] ==> OfTask(rows, task) == []
    ensures rows != [] ==>
      var front, last := rows[..|rows| - 1], rows[|rows| - 1];
      OfTask(rows, task) == if last.task == task then OfTask(front, task) + [last] else OfTask(front, task)
  {
  }

  lemma {:induction false} EvaluationsAreScores(rows: seq<Row>, task: string)
    ensures Evaluations(rows, task) == |ScoresOf(OfTask(rows, task))|
  {
    hide ScoresOf, OfTask;
    OfTaskStep(rows, task);
    if rows == [] {
      NoScores();
    } else {
      var front, last := rows[..|rows| - 1], rows[|rows| - 1];
      EvaluationsAreScores(front, task);
      if last.task == task {
        ScoresAppend(OfTask(front, task), last);
      }
    }
  }

  lemma {:induction false} ScoresAppend(group: seq<Row>, row: Row)
    ensures |ScoresOf(group + [row])| == |ScoresOf(group)| + (if row.score.Some? then 1 else 0)
    ensures Sum(ScoresOf(group + [row])) == Sum(ScoresOf(group)) + Points(row)
  {
    hide ScoresOf, Sum;
    assert (group + [row])[..|group|] == group;
    ScoresStep(group + [row]);
  }

  /** Within a task all evaluated samples have the same share. */
  lemma {:induction false} TaskSums(all: seq<Row>, rows: seq<Row>, task: string, w: real)
    requires forall row :: row in rows && row.task == task ==> row.weight == w
    requires Evaluations(all, task) > 0
    ensures var share := w / Evaluations(all, task) as real;
      && ShareSum(all, rows, {task}) == Times(|ScoresOf(OfTask(rows, task))| as real, share)
      && PointSum(all, rows, {task}) == Times(Sum(ScoresOf(OfTask(rows, task))), share)
    decreases |rows|
  {
    hide ScoresOf, Sum, Times, Evaluations, OfTask;
    OfTaskStep(rows, task);
    var share := w / Evaluations(all, task) as real;
    if rows == [] {
      NoScores();
      TimesLaws(0.0, 0.0, share);
    } else {
      var front, last := rows[..|rows| - 1], rows[|rows| - 1];
      TaskSums(all, front, task, w);
      if last.task == task {
        assert last in rows;
        var group := OfTask(front, task);
        ScoresAppend(group, last);
        TimesLaws(Sum(ScoresOf(group)), Points(last), share);
        TimesLaws(|ScoresOf(group)| as real, 1.0, share);
        TimesZero(Share(all, last));
      }
    }
  }

  lemma TimesZero(x: real)
    ensures Times(0.0, x) == 0.0
  {
  }

  lemma {:induction false} UnscoredSums(all: seq<Row>, rows: seq<Row>, task: string)
    requires Evaluations(all, task) == 0
    ensures ShareSum(all, rows, {task}) == 0.0 && PointSum(all, rows, {task}) == 0.0
    decreases |rows|
  {
    if rows != [] {
      UnscoredSums(all, rows[..|rows| - 1], task);
    }
  }

  lemma TaskShare(rows: seq<Row>, task: string)
    requires ValidRows(rows) && Planned(rows, task)
    ensures ShareSum(rows, rows, {task}) == ScoredWeight(OfTask(rows, task))
    ensures PointSum(rows, rows, {task}) == MeanPart(OfTask(rows, task))
  {
    hide ScoresOf, Sum, Evaluations, ShareSum, PointSum, OfTask, ValidGroup, Planned;
    EvaluationsAreScores(rows, task);
    var group := OfTask(rows, task);
    var w := TaskGroup(rows, task);
    GroupWeight(rows, task, w);
    if Evaluations(rows, task) == 0 {
      UnscoredSums(rows, rows, task);
    } else {
      TaskSums(rows, rows, task, w);
      var n := Evaluations(rows, task) as real;
      Regroup(Sum(ScoresOf(group)), n, w);
    }
  }

  lemma GroupWeight(rows: seq<Row>, task: string, w: real)
    requires ValidGroup(OfTask(rows, task), w) && OfTask(rows, task) != []
    ensures TaskWeight(OfTask(rows, task)) == w
    ensures forall row :: row in rows && row.task == task ==> row.weight == w
  {
    var group := OfTask(rows, task);
    assert group[0] in group;
    forall row | row in rows && row.task == task ensures row.weight == w {
      assert row in group;
    }
  }

  lemma Regroup(total: real, n: real, w: real)
    requires n > 0.0
    ensures Times(total, w / n) == total / n * w
    ensures Times(n, w / n) == w
  {
    var q := w / n;
    assert q * n == w;
    var m := total / n;
    assert m * n == total;
    assert total * q == (m * n) * q == m * (n * q);
  }

  // ----- All tasks -----

  lemma {:induction false} AddTask(all: seq<Row>, rows: seq<Row>, tasks: set<string>, t: string)
    requires t !in tasks
    ensures ShareSum(all, rows, tasks + {t}) == ShareSum(all, rows, tasks) + ShareSum(all, rows, {t})
    ensures PointSum(all, rows, tasks + {t}) == PointSum(all, rows, tasks) + PointSum(all, rows, {t})
    decreases |rows|
  {
    hide Share, Times;
    if rows != [] {
      AddTask(all, rows[..|rows| - 1], tasks, t);
    }
  }

  lemma {:induction false} NoTask(all: seq<Row>, rows: seq<Row>)
    ensures ShareSum(all, rows, {}) == 0.0 && PointSum(all, rows, {}) == 0.0
    decreases |rows|
  {
    if rows != [] {
      NoTask(all, rows[..|rows| - 1]);
    }
  }

  function Elements(tasks: seq<string>): set<string> {
    set t | t in tasks
  }

  lemma {:induction false} TotalsAreShares(rows: seq<Row>, tasks: seq<string>)
    requires ValidRows(rows) && (forall t :: t in tasks ==> Planned(rows, t))
    requires forall i, j :: 0 <= i < j < |tasks| ==> tasks[i] != tasks[j]
    ensures ScoredTotal(rows, tasks) == ShareSum(rows, rows, Elements(tasks))
    ensures MeanTotal(rows, tasks) == PointSum(rows, rows, Elements(tasks))
    decreases |tasks|
  {
    hide ValidRows, Planned, ShareSum, PointSum, ScoredWeight, MeanPart, OfTask;
    if tasks == [] {
      NoTask(rows, rows);
      assert Elements(tasks) == {};
    } else {
      var front, t := tasks[..|tasks| - 1], tasks[|tasks| - 1];
      assert t in tasks;
      TotalsAreShares(rows, front);
      TaskShare(rows, t);
      AddTask(rows, rows, Elements(front), t);
      assert Elements(tasks) == Elements(front) + {t};
    }
  }

  lemma {:induction false} AppearingDistinct(rows: seq<Row>)
    ensures forall i, j :: 0 <= i < j < |Appearing(rows)| ==> Appearing(rows)[i] != Appearing(rows)[j]
  {
    if rows != [] {
      AppearingDistinct(rows[..|rows| - 1]);
    }
  }

  lemma TaskIdsDistinct(rows: seq<Row>)
    ensures forall i, j :: 0 <= i < j < |TaskIds(rows)| ==> TaskIds(rows)[i] != TaskIds(rows)[j]
    ensures Elements(TaskIds(rows)) == TasksOf(rows)
  {
    hide Appearing, Sorted, Below;
    AppearingDistinct(rows);
    BelowIsWeakOrder();
    var tasks := Appearing(rows);
    forall i, j | 0 <= i < j < |tasks| ensures Below(tasks[i], tasks[j]) || Below(tasks[j], tasks[i]) {
      BelowTrichotomy(tasks[i], tasks[j]);
    }
    SortedIsStrict(Below, tasks);
    TasksAppear(rows);
  }

  /** The weighted mean over tasks is the shared mean over samples. */
  lemma MeanIsShared(rows: seq<Row>)
    requires ValidRows(rows)
    ensures WeightedMean(rows) == SharedMean(rows)
  {
    hide ValidRows, Planned, ShareSum, PointSum, ScoredTotal, MeanTotal, TaskIds, TasksOf;
    TasksAppear(rows);
    TaskIdsDistinct(rows);
    TotalsAreShares(rows, TaskIds(rows));
  }

  // ----- Samples without a score do not count -----

  function Evaluated(rows: seq<Row>): (r: seq<Row>)
    ensures forall x :: x in r <==> x in rows && x.score.Some?
  {
    if rows == [] then []
    else Evaluated(rows[..|rows| - 1])
         + if rows[|rows| - 1].score.Some? then [rows[|rows| - 1]] else []
  }

  lemma {:induction false} EvaluatedStep(rows: seq<Row>)
    ensures rows == [] ==> Evaluated(rows) == []
    ensures rows != [] && rows[|rows| - 1].score.None? ==> Evaluated(rows) == Evaluated(rows[..|rows| - 1])
    ensures rows != [] && rows[|rows| - 1].score.Some? ==>
      && |Evaluated(rows)| > 0
      && Evaluated(rows)[|Evaluated(rows)| - 1] == rows[|rows| - 1]
      && Evaluated(rows)[..|Evaluated(rows)| - 1] == Evaluated(rows[..|rows| - 1])
  {
  }

  lemma {:induction false} SameEvaluations(rows: seq<Row>, task: string)
    ensures Evaluations(Evaluated(rows), task) == Evaluations(rows, task)
  {
    hide Evaluated;
    EvaluatedStep(rows);
    if rows != [] {
      SameEvaluations(rows[..|rows| - 1], task);
    }
  }

  lemma {:induction false} SameSums(all: seq<Row>, all': seq<Row>, rows: seq<Row>, tasks: set<string>, tasks': set<string>)
    requires forall t :: Evaluations(all', t) == Evaluations(all, t)
    requires forall row :: row in rows ==> row.task in tasks
    requires forall row :: row in rows && row.score.Some? ==> row.task in tasks'
    ensures ShareSum(all', Evaluated(rows), tasks') == ShareSum(all, rows, tasks)
    ensures PointSum(all', Evaluated(rows), tasks') == PointSum(all, rows, tasks)
    decreases |rows|
  {
    hide Evaluations, Times, Evaluated;
    EvaluatedStep(rows);
    if rows != [] {
      var front, last := rows[..|rows| - 1], rows[|rows| - 1];
      SameSums(all, all', front, tasks, tasks');
      assert last in rows;
      TimesZero(Share(all, last));
    }
  }

  lemma MeanIgnoresMissing(rows: seq<Row>)
    requires ValidRows(rows)
    ensures WeightedMean(Evaluated(rows)) == WeightedMean(rows)
  {
    hide WeightedMean, ShareSum, PointSum, Evaluations;
    MeanIsShared(rows);
    MeanIsShared(Evaluated(rows));
    forall t ensures Evaluations(Evaluated(rows), t) == Evaluations(rows, t) {
      SameEvaluations(rows, t);
    }
    SameSums(rows, Evaluated(rows), rows, TasksOf(rows), TasksOf(Evaluated(rows)));
  }
}
