/** The evaluation listing of app/jobs/repositories.py, which pages through two tables at once. */
module Pagination {
  import opened Core
  import opened Sorting
  import JobRepository

  type Status = JobRepository.Status

  datatype JobRecord = JobRecord(
    id: Id, created: Time, updated: Time, task: string, language: string, status: Status, attempts: nat)

  /** A stored result. Those older than the job queue have no job of the same identity. */
  datatype Evaluation = Evaluation(id: Id, created: Time, task: string, language: string, score: real)

  datatype Db = Db(jobs: seq<JobRecord>, evaluations: seq<Evaluation>)

  datatype Criteria = Criteria(
    task: Option<string>, language: Option<string>, minimum: Option<real>, maximum: Option<real>)

  datatype Summary = Summary(
    id: Id, created: Time, updated: Time, task: string, language: string,
    status: Status, attempts: nat, score: Option<real>)

  /** Both tables have the evaluation identity as their primary key. */
  predicate KeysUnique(db: Db) {
    && (forall i, j :: 0 <= i < j < |db.jobs| ==> db.jobs[i].id != db.jobs[j].id)
    && (forall i, j :: 0 <= i < j < |db.evaluations| ==> db.evaluations[i].id != db.evaluations[j].id)
  }

  // ----- The two queries -----

  function ScoreOf(evaluations: seq<Evaluation>, id: Id): Option<real> {
    if evaluations == [] then None
    else if evaluations[0].id == id then Some(evaluations[0].score)
    else ScoreOf(evaluations[1..], id)
  }

  predicate HasJob(jobs: seq<JobRecord>, id: Id) {
    exists i :: 0 <= i < |jobs| && jobs[i].id == id
  }

  predicate Equals(wanted: Option<string>, value: string) {
    wanted.Some? ==> value == wanted.value
  }

  /** A missing score satisfies no comparison. */
  predicate Within(c: Criteria, score: Option<real>) {
    && (c.minimum.Some? ==> score.Some? && score.value >= c.minimum.value)
    && (c.maximum.Some? ==> score.Some? && score.value <= c.maximum.value)
  }

  datatype Joined = Joined(job: JobRecord, score: Option<real>)

  /** Jobs, outer-joined with their evaluations. */
  function JobRows(jobs: seq<JobRecord>, evaluations: seq<Evaluation>, c: Criteria): seq<Joined> {
    if jobs == [] then []
    else
      var score := ScoreOf(evaluations, jobs[0].id);
      (if Equals(c.task, jobs[0].task) && Equals(c.language, jobs[0].language) && Within(c, score)
       then [Joined(jobs[0], score)] else [])
      + JobRows(jobs[1..], evaluations, c)
  }

  /** Evaluations that have no job. */
  function LegacyRows(jobs: seq<JobRecord>, evaluations: seq<Evaluation>, c: Criteria): seq<Evaluation> {
    if evaluations == [] then []
    else
      var e := evaluations[0];
      (if !HasJob(jobs, e.id) && Equals(c.task, e.task) && Equals(c.language, e.language)
          && Within(c, Some(e.score))
       then [e] else [])
      + LegacyRows(jobs, evaluations[1..], c)
  }

  predicate Newer(created: Time, id: Id, created': Time, id': Id) {
    created > created' || (created == created' && id > id')
  }

  predicate NewerJob(x: Joined, y: Joined) {
    Newer(x.job.created, x.job.id, y.job.created, y.job.id)
  }

  predicate NewerEvaluation(x: Evaluation, y: Evaluation) {
    Newer(x.created, x.id, y.created, y.id)
  }

  predicate NewerSummary(x: Summary, y: Summary) {
    Newer(x.created, x.id, y.created, y.id)
  }

  function JobSummary(row: Joined): Summary {
    Summary(row.job.id, row.job.created, row.job.updated, row.job.task, row.job.language,
            row.job.status, row.job.attempts, row.score)
  }

  function LegacySummary(row: Evaluation): Summary {
    Summary(row.id, row.created, row.created, row.task, row.language,
            JobRepository.Completed, 0, Some(row.score))
  }

  // ----- Reference: one table, sorted as a whole -----

  /** Everything that was ever evaluated or queued, once. */
  function History(db: Db): seq<Summary> {
    var all := Criteria(None, None, None, None);
    Mapped(JobSummary, JobRows(db.jobs, db.evaluations, all))
    + Mapped(LegacySummary, LegacyRows(db.jobs, db.evaluations, all))
  }

  predicate Meets(c: Criteria, s: Summary) {
    Equals(c.task, s.task) && Equals(c.language, s.language) && Within(c, s.score)
  }

  function Matching(c: Criteria, s: seq<Summary>): (r: seq<Summary>)
    ensures forall x :: x in r <==> x in s && Meets(c, x)
  {
    if s == [] then [] else (if Meets(c, s[0]) then [s[0]] else []) + Matching(c, s[1..])
  }

  function Listing(db: Db, c: Criteria): seq<Summary> {
    Sorted(NewerSummary, Matching(c, History(db)))
  }

  function Page<T>(s: seq<T>, limit: nat, offset: nat): seq<T> {
    Top(if offset <= |s| then s[offset..] else [], limit)
  }

  // ----- Filtering each table is filtering the history -----

  lemma {:induction false} MatchingSplit(c: Criteria, a: seq<Summary>, b: seq<Summary>)
    ensures Matching(c, a + b) == Matching(c, a) + Matching(c, b)
  {
    hide Meets, Matching;
    if a == [] {
      NoneMatch(c);
      assert a + b == b;
    } else {
      MatchingSplit(c, a[1..], b);
      MatchingStep(c, a + b);
      MatchingStep(c, a);
      assert (a + b)[0] == a[0] && (a + b)[1..] == a[1..] + b;
    }
  }

  lemma NoneMatch(c: Criteria)
    ensures Matching(c, []) == []
  {
  }

  lemma {:induction false} MatchingStep(c: Criteria, s: seq<Summary>)
    requires s != []
    ensures Matching(c, s) == (if Meets(c, s[0]) then [s[0]] else []) + Matching(c, s[1..])
  {
  }

  lemma {:induction false} JobRowsMatch(jobs: seq<JobRecord>, evaluations: seq<Evaluation>, c: Criteria)
    ensures Mapped(JobSummary, JobRows(jobs, evaluations, c)) ==
      Matching(c, Mapped(JobSummary, JobRows(jobs, evaluations, Criteria(None, None, None, None))))
  {
    if jobs != [] {
      JobRowsMatch(jobs[1..], evaluations, c);
      var all := Criteria(None, None, None, None);
      var first := [Joined(jobs[0], ScoreOf(evaluations, jobs[0].id))];
      assert JobRows(jobs, evaluations, all) == first + JobRows(jobs[1..], evaluations, all);
      MappedSplit(JobSummary, first, JobRows(jobs[1..], evaluations, all));
      MappedSplit(JobSummary, first, JobRows(jobs[1..], evaluations, c));
      MatchingSplit(c, Mapped(JobSummary, first), Mapped(JobSummary, JobRows(jobs[1..], evaluations, all)));
      assert JobRows(jobs, evaluations, c) == first + JobRows(jobs[1..], evaluations, c)
        || JobRows(jobs, evaluations, c) == JobRows(jobs[1..], evaluations, c);
    }
  }

  lemma {:induction false} LegacyRowsMatch(jobs: seq<JobRecord>, evaluations: seq<Evaluation>, c: Criteria)
    ensures Mapped(LegacySummary, LegacyRows(jobs, evaluations, c)) ==
      Matching(c, Mapped(LegacySummary, LegacyRows(jobs, evaluations, Criteria(None, None, None, None))))
  {
    if evaluations != [] {
      LegacyRowsMatch(jobs, evaluations[1..], c);
      var all := Criteria(None, None, None, None);
      var first := [evaluations[0]];
      if HasJob(jobs, evaluations[0].id) {
        assert LegacyRows(jobs, evaluations, all) == LegacyRows(jobs, evaluations[1..], all);
        assert LegacyRows(jobs, evaluations, c) == LegacyRows(jobs, evaluations[1..], c);
      } else {
        assert LegacyRows(jobs, evaluations, all) == first + LegacyRows(jobs, evaluations[1..], all);
        MappedSplit(LegacySummary, first, LegacyRows(jobs, evaluations[1..], all));
        MappedSplit(LegacySummary, first, LegacyRows(jobs, evaluations[1..], c));
        MatchingSplit(c, Mapped(LegacySummary, first),
                      Mapped(LegacySummary, LegacyRows(jobs, evaluations[1..], all)));
        assert LegacyRows(jobs, evaluations, c) == first + LegacyRows(jobs, evaluations[1..], c)
          || LegacyRows(jobs, evaluations, c) == LegacyRows(jobs, evaluations[1..], c);
      }
    }
  }

  lemma MappedSplit<T, U>(f: T -> U, a: seq<T>, b: seq<T>)
    ensures Mapped(f, a + b) == Mapped(f, a) + Mapped(f, b)
  {
  }

  // ----- Identities are unique across the two tables -----

  lemma {:induction false} JobRowsComeFrom(jobs: seq<JobRecord>, evaluations: seq<Evaluation>, c: Criteria)
    ensures forall row :: row in JobRows(jobs, evaluations, c) ==>
      row.job in jobs && row.score == ScoreOf(evaluations, row.job.id)
  {
    if jobs != [] {
      JobRowsComeFrom(jobs[1..], evaluations, c);
    }
  }

  lemma {:induction false} LegacyRowsComeFrom(jobs: seq<JobRecord>, evaluations: seq<Evaluation>, c: Criteria)
    ensures forall e :: e in LegacyRows(jobs, evaluations, c) ==> e in evaluations && !HasJob(jobs, e.id)
  {
    if evaluations != [] {
      LegacyRowsComeFrom(jobs, evaluations[1..], c);
    }
  }

  predicate DistinctIds(s: seq<Summary>) {
    forall i, j :: 0 <= i < j < |s| ==> s[i].id != s[j].id
  }

  lemma {:induction false} JobIdsDistinct(jobs: seq<JobRecord>, evaluations: seq<Evaluation>, c: Criteria)
    requires forall i, j :: 0 <= i < j < |jobs| ==> jobs[i].id != jobs[j].id
    ensures DistinctIds(Mapped(JobSummary, JobRows(jobs, evaluations, c)))
  {
    if jobs != [] {
      JobIdsDistinct(jobs[1..], evaluations, c);
      JobRowsComeFrom(jobs[1..], evaluations, c);
      forall row | row in JobRows(jobs[1..], evaluations, c) ensures row.job.id != jobs[0].id {
        var k :| 0 <= k < |jobs[1..]| && jobs[1..][k] == row.job;
      }
    }
  }

  lemma {:induction false} LegacyIdsDistinct(jobs: seq<JobRecord>, evaluations: seq<Evaluation>, c: Criteria)
    requires forall i, j :: 0 <= i < j < |evaluations| ==> evaluations[i].id != evaluations[j].id
    ensures DistinctIds(Mapped(LegacySummary, LegacyRows(jobs, evaluations, c)))
  {
    if evaluations != [] {
      LegacyIdsDistinct(jobs, evaluations[1..], c);
      LegacyRowsComeFrom(jobs, evaluations[1..], c);
      forall e | e in LegacyRows(jobs, evaluations[1..], c) ensures e.id != evaluations[0].id {
        var k :| 0 <= k < |evaluations[1..]| && evaluations[1..][k] == e;
      }
    }
  }

  /** What the two queries give without a limit. */
  function BothQueries(db: Db, c: Criteria): seq<Summary> {
    Mapped(JobSummary, JobRows(db.jobs, db.evaluations, c))
    + Mapped(LegacySummary, LegacyRows(db.jobs, db.evaluations, c))
  }

  lemma BothQueriesMatch(db: Db, c: Criteria)
    ensures BothQueries(db, c) == Matching(c, History(db))
  {
    hide Matching, JobRows, LegacyRows, Mapped;
    var all := Criteria(None, None, None, None);
    JobRowsMatch(db.jobs, db.evaluations, c);
    LegacyRowsMatch(db.jobs, db.evaluations, c);
    MatchingSplit(c, Mapped(JobSummary, JobRows(db.jobs, db.evaluations, all)),
                  Mapped(LegacySummary, LegacyRows(db.jobs, db.evaluations, all)));
  }

  /** No identity is listed twice, although a finished job stands in both tables. */
  lemma IdsAreDistinct(db: Db, c: Criteria)
    requires KeysUnique(db)
    ensures DistinctIds(BothQueries(db, c))
  {
    hide JobRows, LegacyRows;
    JobIdsDistinct(db.jobs, db.evaluations, c);
    LegacyIdsDistinct(db.jobs, db.evaluations, c);
    JobRowsComeFrom(db.jobs, db.evaluations, c);
    LegacyRowsComeFrom(db.jobs, db.evaluations, c);
    var a, b := JobRows(db.jobs, db.evaluations, c), LegacyRows(db.jobs, db.evaluations, c);
    forall i, j | 0 <= i < |a| && 0 <= j < |b| ensures JobSummary(a[i]).id != LegacySummary(b[j]).id {
      assert a[i] in a && b[j] in b;
    }
  }

  /** The score of an identity is that of the evaluation with this identity, if there is one. */
  predicate ScoreIs(evaluations: seq<Evaluation>, id: Id, score: Option<real>) {
    && (score.Some? <==> exists i :: 0 <= i < |evaluations| && evaluations[i].id == id)
    && forall i :: 0 <= i < |evaluations| && evaluations[i].id == id ==> score == Some(evaluations[i].score)
  }

  lemma {:induction false} ScoreOfIsJoined(evaluations: seq<Evaluation>, id: Id)
    requires forall i, j :: 0 <= i < j < |evaluations| ==> evaluations[i].id != evaluations[j].id
    ensures ScoreIs(evaluations, id, ScoreOf(evaluations, id))
  {
    if evaluations != [] {
      var rest := evaluations[1..];
      ScoreOfIsJoined(rest, id);
      assert forall i :: 0 <= i < |rest| ==> evaluations[i + 1] == rest[i];
      if evaluations[0].id != id && ScoreOf(rest, id).Some? {
        var i :| 0 <= i < |rest| && rest[i].id == id;
        assert evaluations[i + 1].id == id;
      }
      forall i | 0 <= i < |evaluations| && evaluations[i].id == id
        ensures ScoreOf(evaluations, id) == Some(evaluations[i].score)
      {
        assert i > 0 ==> evaluations[i] == rest[i - 1];
      }
    }
  }

  /** The summary shows the columns of the job and the score of its evaluation. */
  predicate ShowsJob(db: Db, s: Summary, i: nat) {
    && i < |db.jobs|
    && var job := db.jobs[i];
    && s.id == job.id && s.created == job.created && s.updated == job.updated
    && s.task == job.task && s.language == job.language
    && s.status == job.status && s.attempts == job.attempts
    && ScoreIs(db.evaluations, job.id, s.score)
  }

  /** The summary shows an evaluation that has no job, as completed without attempts. */
  predicate ShowsLegacy(db: Db, s: Summary, i: nat) {
    && i < |db.evaluations|
    && var e := db.evaluations[i];
    && !(exists k :: 0 <= k < |db.jobs| && db.jobs[k].id == e.id)
    && s.id == e.id && s.created == e.created && s.updated == e.created
    && s.task == e.task && s.language == e.language
    && s.status == JobRepository.Completed && s.attempts == 0 && s.score == Some(e.score)
  }

  /** The history is exactly the jobs with their scores and the evaluations that have no job. */
  lemma HistoryShowsRows(db: Db, s: Summary)
    requires KeysUnique(db)
    ensures s in History(db) <==> (exists i :: ShowsJob(db, s, i)) || (exists i :: ShowsLegacy(db, s, i))
  {
    hide JobRows, LegacyRows, Mapped, ScoreOf, ScoreIs;
    var all := Criteria(None, None, None, None);
    var a, b := JobRows(db.jobs, db.evaluations, all), LegacyRows(db.jobs, db.evaluations, all);
    JobRowsComeFrom(db.jobs, db.evaluations, all);
    LegacyRowsComeFrom(db.jobs, db.evaluations, all);
    AllRowsKept(db.jobs, db.evaluations);
    InHistory(db, s);
    if InMapped(JobSummary, a, s) {
      var k :| 0 <= k < |a| && s == JobSummary(a[k]);
      assert a[k].job in db.jobs;
      var i :| 0 <= i < |db.jobs| && db.jobs[i] == a[k].job;
      ScoreOfIsJoined(db.evaluations, db.jobs[i].id);
      assert ShowsJob(db, s, i);
    }
    if InMapped(LegacySummary, b, s) {
      var k :| 0 <= k < |b| && s == LegacySummary(b[k]);
      assert b[k] in db.evaluations;
      var i :| 0 <= i < |db.evaluations| && db.evaluations[i] == b[k];
      assert ShowsLegacy(db, s, i);
    }
    if i: nat :| ShowsJob(db, s, i) {
      ScoreOfIsJoined(db.evaluations, db.jobs[i].id);
      OneScore(db.evaluations, s.id, s.score, ScoreOf(db.evaluations, s.id));
      assert s == JobSummary(Joined(db.jobs[i], ScoreOf(db.evaluations, db.jobs[i].id)));
    }
    if i: nat :| ShowsLegacy(db, s, i) {
      assert s == LegacySummary(db.evaluations[i]);
    }
  }

  lemma InHistory(db: Db, s: Summary)
    ensures var all := Criteria(None, None, None, None);
      s in History(db) <==>
        || InMapped(JobSummary, JobRows(db.jobs, db.evaluations, all), s)
        || InMapped(LegacySummary, LegacyRows(db.jobs, db.evaluations, all), s)
  {
    hide JobRows, LegacyRows;
  }

  ghost predicate InMapped<T, U>(f: T -> U, s: seq<T>, y: U) {
    exists k :: 0 <= k < |s| && y == f(s[k])
  }

  lemma OneScore(evaluations: seq<Evaluation>, id: Id, x: Option<real>, y: Option<real>)
    requires ScoreIs(evaluations, id, x) && ScoreIs(evaluations, id, y)
    ensures x == y
  {
    if x.Some? {
      var i :| 0 <= i < |evaluations| && evaluations[i].id == id;
    }
  }

  /** The history lists exactly the identities that either table knows. */
  lemma HistoryIsComplete(db: Db, id: Id)
    ensures (exists s :: s in History(db) && s.id == id) <==>
      HasJob(db.jobs, id) || exists i :: 0 <= i < |db.evaluations| && db.evaluations[i].id == id
  {
    hide JobRows, LegacyRows, Mapped;
    var all := Criteria(None, None, None, None);
    var a, b := JobRows(db.jobs, db.evaluations, all), LegacyRows(db.jobs, db.evaluations, all);
    JobRowsComeFrom(db.jobs, db.evaluations, all);
    LegacyRowsComeFrom(db.jobs, db.evaluations, all);
    AllRowsKept(db.jobs, db.evaluations);
    if s :| s in History(db) && s.id == id {
      InHistory(db, s);
      if InMapped(JobSummary, a, s) {
        var k :| 0 <= k < |a| && s == JobSummary(a[k]);
        assert a[k].job in db.jobs;
      } else {
        var k :| 0 <= k < |b| && s == LegacySummary(b[k]);
        assert b[k] in db.evaluations;
      }
    }
    if HasJob(db.jobs, id) {
      var i :| 0 <= i < |db.jobs| && db.jobs[i].id == id;
      var row := Joined(db.jobs[i], ScoreOf(db.evaluations, id));
      InHistory(db, JobSummary(row));
      assert JobSummary(row) in History(db);
    } else if i :| 0 <= i < |db.evaluations| && db.evaluations[i].id == id {
      InHistory(db, LegacySummary(db.evaluations[i]));
      assert LegacySummary(db.evaluations[i]) in History(db);
    }
  }

  lemma AllRowsKept(jobs: seq<JobRecord>, evaluations: seq<Evaluation>)
    ensures var all := Criteria(None, None, None, None);
      && (forall i :: 0 <= i < |jobs| ==>
            Joined(jobs[i], ScoreOf(evaluations, jobs[i].id)) in JobRows(jobs, evaluations, all))
      && (forall i :: 0 <= i < |evaluations| && !HasJob(jobs, evaluations[i].id) ==>
            evaluations[i] in LegacyRows(jobs, evaluations, all))
  {
    AllJobsKept(jobs, evaluations);
    AllLegacyKept(jobs, evaluations);
  }

  lemma {:induction false} AllJobsKept(jobs: seq<JobRecord>, evaluations: seq<Evaluation>)
    ensures forall i :: 0 <= i < |jobs| ==>
      Joined(jobs[i], ScoreOf(evaluations, jobs[i].id))
      in JobRows(jobs, evaluations, Criteria(None, None, None, None))
  {
    if jobs != [] {
      AllJobsKept(jobs[1..], evaluations);
      forall i | 0 < i < |jobs|
        ensures Joined(jobs[i], ScoreOf(evaluations, jobs[i].id))
                in JobRows(jobs, evaluations, Criteria(None, None, None, None))
      {
        assert jobs[i] == jobs[1..][i - 1];
      }
    }
  }

  lemma {:induction false} AllLegacyKept(jobs: seq<JobRecord>, evaluations: seq<Evaluation>)
    ensures forall i :: 0 <= i < |evaluations| && !HasJob(jobs, evaluations[i].id) ==>
      evaluations[i] in LegacyRows(jobs, evaluations, Criteria(None, None, None, None))
  {
    if evaluations != [] {
      AllLegacyKept(jobs, evaluations[1..]);
      forall i | 0 < i < |evaluations| && !HasJob(jobs, evaluations[i].id)
        ensures evaluations[i] in LegacyRows(jobs, evaluations, Criteria(None, None, None, None))
      {
        assert evaluations[i] == evaluations[1..][i - 1];
      }
    }
  }

  // ----- The page -----

  lemma NewerIsWeakOrder()
    ensures WeakOrder(NewerSummary) && WeakOrder(NewerJob) && WeakOrder(NewerEvaluation)
  {
  }

  lemma DistinctAreDistinguished(s: seq<Summary>)
    requires DistinctIds(s)
    ensures Distinguished(NewerSummary, s)
    ensures forall i, j :: 0 <= i < j < |s| ==> NewerSummary(s[i], s[j]) || NewerSummary(s[j], s[i])
  {
  }

  /** The first rows of each query, as summaries. */
  function JobHead(db: Db, c: Criteria, n: nat): seq<Joined> {
    Top(Sorted(NewerJob, JobRows(db.jobs, db.evaluations, c)), n)
  }

  function LegacyHead(db: Db, c: Criteria, n: nat): seq<Evaluation> {
    Top(Sorted(NewerEvaluation, LegacyRows(db.jobs, db.evaluations, c)), n)
  }

  function Candidates(db: Db, c: Criteria, n: nat): seq<Summary> {
    Mapped(JobSummary, JobHead(db, c, n)) + Mapped(LegacySummary, LegacyHead(db, c, n))
  }

  lemma MappedTop<T, U>(f: T -> U, s: seq<T>, n: nat)
    ensures Mapped(f, Top(s, n)) == Top(Mapped(f, s), n)
  {
  }

  lemma PageOfTop<T>(s: seq<T>, limit: nat, offset: nat)
    ensures Page(Top(s, limit + offset), limit, offset) == Page(s, limit, offset)
  {
  }

  /**
    Sorting the first limit + offset rows of each table together and slicing gives the page of the
    whole history sorted at once.
  */
  lemma CandidatesSuffice(db: Db, c: Criteria, limit: nat, offset: nat)
    requires KeysUnique(db)
    ensures Page(Sorted(NewerSummary, Candidates(db, c, limit + offset)), limit, offset) ==
      Page(Listing(db, c), limit, offset)
  {
    hide Sorted, JobRows, LegacyRows, Mapped, Matching, Top, Page, Newer, WeakOrder, Distinguished;
    var n := limit + offset;
    var jobs, legacy := JobRows(db.jobs, db.evaluations, c), LegacyRows(db.jobs, db.evaluations, c);
    NewerIsWeakOrder();
    SortedMapped(NewerJob, NewerSummary, JobSummary, jobs);
    SortedMapped(NewerEvaluation, NewerSummary, LegacySummary, legacy);
    MappedTop(JobSummary, Sorted(NewerJob, jobs), n);
    MappedTop(LegacySummary, Sorted(NewerEvaluation, legacy), n);
    BothQueriesMatch(db, c);
    IdsAreDistinct(db, c);
    DistinctAreDistinguished(BothQueries(db, c));
    TopOfBoth(NewerSummary, Mapped(JobSummary, jobs), Mapped(LegacySummary, legacy), n);
    PageOfTop(Sorted(NewerSummary, Candidates(db, c, n)), limit, offset);
    PageOfTop(Listing(db, c), limit, offset);
  }

  /** A page holds exactly the matching evaluations of its ranks, newest first. */
  lemma PageIsRankRange(db: Db, c: Criteria, limit: nat, offset: nat, x: Summary)
    requires KeysUnique(db)
    ensures Strict(NewerSummary, Page(Listing(db, c), limit, offset))
    ensures x in Page(Listing(db, c), limit, offset) <==>
      && x in History(db) && Meets(c, x)
      && offset <= CountBefore(NewerSummary, x, Matching(c, History(db))) < offset + limit
  {
    hide Sorted, Matching, History, WeakOrder, Newer, CountBefore;
    var matching, listing := Matching(c, History(db)), Listing(db, c);
    NewerIsWeakOrder();
    BothQueriesMatch(db, c);
    IdsAreDistinct(db, c);
    DistinctAreDistinguished(matching);
    SortedIsStrict(NewerSummary, matching);
    SortedCounts(NewerSummary, x, matching);
    MatchingMembers(c, History(db), x);
    if x in listing {
      var i :| 0 <= i < |listing| && listing[i] == x;
      PositionIsCount(NewerSummary, listing, i);
      PagePositions(listing, limit, offset, i);
    } else {
      PageMembers(listing, limit, offset, x);
    }
  }

  lemma MatchingMembers(c: Criteria, s: seq<Summary>, x: Summary)
    ensures x in Matching(c, s) <==> x in s && Meets(c, x)
  {
  }

  lemma PageMembers<T>(s: seq<T>, limit: nat, offset: nat, x: T)
    ensures x in Page(s, limit, offset) ==> x in s
  {
  }

  lemma PagePositions(s: seq<Summary>, limit: nat, offset: nat, i: nat)
    requires Strict(NewerSummary, s) && i < |s|
    ensures s[i] in Page(s, limit, offset) <==> offset <= i < offset + limit
  {
    var page := Page(s, limit, offset);
    if offset <= i < offset + limit {
      assert page[i - offset] == s[i];
    } else {
      forall k | 0 <= k < |page| ensures page[k] != s[i] {
        assert page[k] == s[offset + k];
      }
    }
  }

  /** Consecutive pages tile the listing: nothing is shown twice or skipped between them. */
  lemma ConsecutivePages(db: Db, c: Criteria, limit: nat, limit': nat, offset: nat)
    ensures var all := Listing(db, c);
      Page(all, limit, offset) + Page(all, limit', offset + limit) == Page(all, limit + limit', offset)
  {
  }

  /** What a client asked for; a bound on the score excludes summaries without one. */
  predicate Wanted(c: Criteria, s: Summary) {
    && c.task in {None, Some(s.task)}
    && c.language in {None, Some(s.language)}
    && !(c.minimum.Some? && (s.score.None? || s.score.value < c.minimum.value))
    && !(c.maximum.Some? && (s.score.None? || s.score.value > c.maximum.value))
  }

  /** By time of creation, then by identity, both descending. */
  predicate NewestFirst(page: seq<Summary>) {
    forall i, j :: 0 <= i < j < |page| ==>
      && page[i].created >= page[j].created
      && (page[i].created == page[j].created ==> page[i].id > page[j].id)
  }

  /** The page in terms of the two tables. */
  lemma PageShows(db: Db, c: Criteria, limit: nat, offset: nat)
    requires KeysUnique(db)
    ensures var page := Page(Listing(db, c), limit, offset);
      && NewestFirst(page)
      && forall s :: s in page <==>
           && ((exists i :: ShowsJob(db, s, i)) || (exists i :: ShowsLegacy(db, s, i)))
           && Wanted(c, s)
           && offset <= CountBefore(NewerSummary, s, Matching(c, History(db))) < offset + limit
  {
    hide KeysUnique, ShowsJob, ShowsLegacy, Listing, Matching, History, CountBefore, Page;
    var page := Page(Listing(db, c), limit, offset);
    forall s ensures s in page <==>
        && ((exists i :: ShowsJob(db, s, i)) || (exists i :: ShowsLegacy(db, s, i)))
        && Wanted(c, s)
        && offset <= CountBefore(NewerSummary, s, Matching(c, History(db))) < offset + limit
    {
      HistoryShowsRows(db, s);
      PageIsRankRange(db, c, limit, offset, s);
      assert Meets(c, s) <==> Wanted(c, s);
    }
    PageIsRankRange(db, c, limit, offset, Summary(0, 0.0, 0.0, "", "", JobRepository.Queued, 0, None));
  }

  /** The loops that build the summaries, the sort and the slice. */
  method List(db: Db, c: Criteria, limit: nat, offset: nat) returns (page: seq<Summary>)
    requires KeysUnique(db)
    ensures page == Page(Listing(db, c), limit, offset)
    ensures NewestFirst(page)
    ensures forall s :: s in page <==>
      && ((exists i :: ShowsJob(db, s, i)) || (exists i :: ShowsLegacy(db, s, i)))
      && Wanted(c, s)
      && offset <= CountBefore(NewerSummary, s, Matching(c, History(db))) < offset + limit
  {
    hide Sorted, JobRows, LegacyRows, Mapped, Matching, Listing, KeysUnique, ShowsJob, ShowsLegacy, Wanted,
         NewestFirst, History, CountBefore;
    var requested := limit + offset;
    var rows, legacyRows := JobHead(db, c, requested), LegacyHead(db, c, requested);
    var summaries: seq<Summary> := [];
    for i := 0 to |rows|
      invariant |summaries| == i && forall k :: 0 <= k < i ==> summaries[k] == JobSummary(rows[k])
    {
      summaries := summaries + [JobSummary(rows[i])];
    }
    for i := 0 to |legacyRows|
      invariant |summaries| == |rows| + i
      invariant forall k :: 0 <= k < |rows| ==> summaries[k] == JobSummary(rows[k])
      invariant forall k :: 0 <= k < i ==> summaries[|rows| + k] == LegacySummary(legacyRows[k])
    {
      summaries := summaries + [LegacySummary(legacyRows[i])];
    }
    assert summaries == Candidates(db, c, requested);
    summaries := Sorted(NewerSummary, summaries);
    CandidatesSuffice(db, c, limit, offset);
    var from := if offset <= |summaries| then offset else |summaries|;
    var to := if requested <= |summaries| then requested else |summaries|;
    page := summaries[from..to];
    PageShows(db, c, limit, offset);
  }
}
