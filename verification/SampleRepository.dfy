/**
  The benchmark store of app/benchmarks/repositories.py: samples, their write-once artifacts and
  evaluation snapshots, and the parent runs whose status is derived from their samples.
*/
module SampleRepository {
  import opened Core
  import opened Retry
  import opened Delivery

  datatype Status =
    | Queued | Generating | Generated | Evaluating
    | Completed | GenerationFailed | EvaluationFailed | Skipped

  datatype RunStatus = RunQueued | RunRunning | RunCompleted | RunPartial

  datatype Sample = Sample(
    run: Id,
    evaluation: Id,
    status: Status,
    attempts: nat,
    maxAttempts: nat,
    worker: Option<WorkerId>,
    lease: Option<Time>
  )

  datatype Run = Run(status: RunStatus, startedAt: Option<Time>, completedAt: Option<Time>)

  /** `artifacts` maps a sample, and `snapshots` an evaluation, to the hash of the stored source. */
  datatype Db = Db(
    samples: map<Id, Sample>,
    artifacts: map<Id, string>,
    snapshots: map<Id, string>,
    runs: map<Id, Run>,
    outbox: Outbox
  )

  predicate Terminal(status: Status) {
    status in {Completed, GenerationFailed, EvaluationFailed, Skipped}
  }

  predicate InProgress(status: Status) { status == Generating || status == Evaluating }

  predicate Claimable(status: Status) { status == Queued || status == Generated }

  predicate ValidSample(s: Sample, hasArtifact: bool) {
    && 0 < s.maxAttempts
    && s.attempts <= s.maxAttempts
    && (Claimable(s.status) ==> s.attempts < s.maxAttempts)
    && (InProgress(s.status) ==> 0 < s.attempts)
    && (s.worker.Some? <==> InProgress(s.status))
    && (s.lease.Some? <==> InProgress(s.status))
    && (s.status in {Queued, Generating} ==> !hasArtifact)
    && (s.status in {Generated, Evaluating} ==> hasArtifact)
  }

  predicate SamplesValid(samples: map<Id, Sample>, artifacts: map<Id, string>) {
    forall id :: id in samples ==> ValidSample(samples[id], id in artifacts)
  }

  ghost predicate ValidDb(db: Db) {
    SamplesValid(db.samples, db.artifacts) && RunsOk(db.samples, db.runs)
  }

  function ViewOf(s: Sample): View {
    View(s.attempts,
         if Terminal(s.status) then Done else if InProgress(s.status) then Active else Waiting(None))
  }

  // ----- The derived status of a run -----

  /** Every sample of the run is terminal. */
  ghost predicate Over(samples: map<Id, Sample>, run: Id) {
    forall id :: id in samples && samples[id].run == run ==> Terminal(samples[id].status)
  }

  ghost predicate SomeSkipped(samples: map<Id, Sample>, run: Id) {
    exists id :: id in samples && samples[id].run == run && samples[id].status == Skipped
  }

  predicate RunEnded(run: Run) { run.status == RunCompleted || run.status == RunPartial }

  /** Finished exactly when all samples are, and partial exactly when one of them was skipped. */
  ghost predicate Derived(samples: map<Id, Sample>, run: Id, record: Run) {
    && (RunEnded(record) <==> Over(samples, run))
    && (record.status == RunPartial <==> Over(samples, run) && SomeSkipped(samples, run))
    && (RunEnded(record) ==> record.completedAt.Some?)
  }

  /** Queued exactly until the first attempt of one of its samples, with the times that go with it. */
  ghost predicate Begun(samples: map<Id, Sample>, run: Id, record: Run) {
    && (record.status == RunQueued <==>
          forall id :: id in samples && samples[id].run == run ==> samples[id].attempts == 0)
    && (record.startedAt.Some? <==> record.status != RunQueued)
    && (record.completedAt.Some? <==> RunEnded(record))
  }

  ghost predicate RunOk(samples: map<Id, Sample>, run: Id, record: Run) {
    Derived(samples, run, record) && Begun(samples, run, record)
  }

  /** Every run says what its samples say, and every sample belongs to a run. */
  ghost predicate RunsOk(samples: map<Id, Sample>, runs: map<Id, Run>) {
    && (forall run :: run in runs ==> RunOk(samples, run, runs[run]))
    && (forall id :: id in samples ==> samples[id].run in runs)
  }

  function Remaining(samples: map<Id, Sample>, run: Id): set<Id> {
    set id | id in samples && samples[id].run == run && !Terminal(samples[id].status)
  }

  function SkippedOf(samples: map<Id, Sample>, run: Id): set<Id> {
    set id | id in samples && samples[id].run == run && samples[id].status == Skipped
  }

  function FinishedRun(record: Run, samples: map<Id, Sample>, run: Id, now: Time): Run {
    record.(status := if |SkippedOf(samples, run)| > 0 then RunPartial else RunCompleted,
            completedAt := if record.completedAt.None? then Some(now) else record.completedAt)
  }

  /** `_finish_run_if_terminal`, run inside the transaction that changed a sample. */
  function AfterFinish(db: Db, run: Id, now: Time): Db {
    if run in db.runs && |Remaining(db.samples, run)| == 0
    then db.(runs := db.runs[run := FinishedRun(db.runs[run], db.samples, run, now)])
    else db
  }

  function StartedRuns(runs: map<Id, Run>, run: Id, now: Time): map<Id, Run> {
    if run in runs && runs[run].status == RunQueued
    then runs[run := runs[run].(status := RunRunning, startedAt := Some(now))]
    else runs
  }

  lemma CountsAgree(samples: map<Id, Sample>, run: Id)
    ensures |Remaining(samples, run)| == 0 <==> Over(samples, run)
    ensures |SkippedOf(samples, run)| > 0 <==> SomeSkipped(samples, run)
  {
    if Over(samples, run) {
      assert Remaining(samples, run) == {};
    } else {
      var id :| id in samples && samples[id].run == run && !Terminal(samples[id].status);
      assert id in Remaining(samples, run);
    }
    if SomeSkipped(samples, run) {
      var id :| id in samples && samples[id].run == run && samples[id].status == Skipped;
      assert id in SkippedOf(samples, run);
    } else {
      assert SkippedOf(samples, run) == {};
    }
  }

  /** Only the run's own samples matter to what its status must say. */
  lemma SameSamples(a: map<Id, Sample>, b: map<Id, Sample>, run: Id)
    requires a.Keys == b.Keys
    requires forall id :: id in a && (a[id].run == run || b[id].run == run) ==> b[id] == a[id]
    ensures Over(a, run) <==> Over(b, run)
    ensures SomeSkipped(a, run) <==> SomeSkipped(b, run)
  {
    if SomeSkipped(a, run) {
      var id :| id in a && a[id].run == run && a[id].status == Skipped;
      assert id in b && b[id] == a[id];
    }
    if SomeSkipped(b, run) {
      var id :| id in b && b[id].run == run && b[id].status == Skipped;
      assert id in a && b[id] == a[id];
    }
  }

  /** Rows of other runs do not matter. */
  lemma RunOkSame(a: map<Id, Sample>, b: map<Id, Sample>, run: Id, record: Run)
    requires RunOk(a, run, record) && a.Keys == b.Keys
    requires forall id :: id in a && (a[id].run == run || b[id].run == run) ==> b[id] == a[id]
    ensures RunOk(b, run, record)
  {
    hide Over, SomeSkipped;
    SameSamples(a, b, run);
  }

  /** A row that was open and stays open, in the same attempt. */
  lemma OpenRowKeepsRuns(samples: map<Id, Sample>, runs: map<Id, Run>, id: Id, s: Sample)
    requires RunsOk(samples, runs) && id in samples
    requires !Terminal(samples[id].status) && !Terminal(s.status)
    requires s.run == samples[id].run && s.attempts == samples[id].attempts
    ensures RunsOk(samples[id := s], runs)
  {
    hide Terminal, RunOk;
    var after := samples[id := s];
    forall run | run in runs ensures RunOk(after, run, runs[run]) {
      if run == s.run {
        OpenRunOk(samples, id, s, runs[run]);
      } else {
        RunOkSame(samples, after, run, runs[run]);
      }
    }
  }

  lemma OpenRunOk(samples: map<Id, Sample>, id: Id, s: Sample, record: Run)
    requires id in samples && RunOk(samples, s.run, record)
    requires !Terminal(samples[id].status) && !Terminal(s.status)
    requires s.run == samples[id].run && s.attempts == samples[id].attempts
    ensures RunOk(samples[id := s], s.run, record)
  {
    var after := samples[id := s];
    assert after[id].run == s.run && !Terminal(after[id].status);
    assert !Over(samples, s.run) && !Over(after, s.run);
    forall x | x in samples ensures after[x].run == samples[x].run && after[x].attempts == samples[x].attempts {
    }
    assert (forall x :: x in samples && samples[x].run == s.run ==> samples[x].attempts == 0) <==>
           (forall x :: x in after && after[x].run == s.run ==> after[x].attempts == 0);
  }

  /** A claim starts the run of its sample. */
  lemma ClaimKeepsRuns(samples: map<Id, Sample>, runs: map<Id, Run>, id: Id, s: Sample, now: Time)
    requires RunsOk(samples, runs) && id in samples
    requires !Terminal(samples[id].status) && !Terminal(s.status)
    requires s.run == samples[id].run && s.attempts == samples[id].attempts + 1
    ensures RunsOk(samples[id := s], StartedRuns(runs, s.run, now))
  {
    hide RunOk;
    var after, runs' := samples[id := s], StartedRuns(runs, s.run, now);
    forall run | run in runs' ensures RunOk(after, run, runs'[run]) {
      if run == s.run {
        ClaimedRunOk(samples, runs, id, s, now);
      } else {
        RunOkSame(samples, after, run, runs[run]);
      }
    }
  }

  lemma ClaimedRunOk(samples: map<Id, Sample>, runs: map<Id, Run>, id: Id, s: Sample, now: Time)
    requires id in samples && s.run in runs && RunOk(samples, s.run, runs[s.run])
    requires !Terminal(samples[id].status) && !Terminal(s.status)
    requires s.run == samples[id].run && s.attempts == samples[id].attempts + 1
    ensures RunOk(samples[id := s], s.run, StartedRuns(runs, s.run, now)[s.run])
  {
    var after := samples[id := s];
    assert !Over(samples, s.run);
    assert after[id].run == s.run && after[id].attempts != 0 && !Terminal(after[id].status);
    assert !Over(after, s.run);
  }

  /** Ending a sample ends its run if it was the last one, and then the run says so. */
  lemma EndKeepsRuns(db: Db, id: Id, s: Sample, now: Time)
    requires id in db.samples && RunsOk(db.samples, db.runs)
    requires !Terminal(db.samples[id].status) && Terminal(s.status) && db.samples[id].attempts > 0
    requires s.run == db.samples[id].run && s.attempts == db.samples[id].attempts
    ensures var db' := AfterFinish(db.(samples := db.samples[id := s]), s.run, now);
      RunsOk(db'.samples, db'.runs)
  {
    hide RunOk, FinishedRun;
    var after := db.samples[id := s];
    var db' := AfterFinish(db.(samples := after), s.run, now);
    forall run | run in db'.runs ensures RunOk(after, run, db'.runs[run]) {
      if run == s.run {
        EndedRunOk(db, id, s, now);
      } else {
        RunOkSame(db.samples, after, run, db.runs[run]);
      }
    }
  }

  lemma EndedRunOk(db: Db, id: Id, s: Sample, now: Time)
    requires id in db.samples && s.run in db.runs && RunOk(db.samples, s.run, db.runs[s.run])
    requires !Terminal(db.samples[id].status) && Terminal(s.status) && db.samples[id].attempts > 0
    requires s.run == db.samples[id].run && s.attempts == db.samples[id].attempts
    ensures RunOk(db.samples[id := s], s.run,
                  AfterFinish(db.(samples := db.samples[id := s]), s.run, now).runs[s.run])
  {
    hide Remaining, SkippedOf, Terminal, SomeSkipped;
    var after := db.samples[id := s];
    CountsAgree(after, s.run);
    assert !Over(db.samples, s.run);
    assert after[id].run == s.run && after[id].attempts != 0;
    assert db.samples[id].attempts != 0;
  }

  /** In a store whose runs are right, deriving a run again changes nothing. */
  lemma FinishIsIdle(db: Db, run: Id, now: Time)
    requires RunsOk(db.samples, db.runs)
    ensures AfterFinish(db, run, now) == db
  {
    hide Remaining, SkippedOf;
    CountsAgree(db.samples, run);
    if run in db.runs {
      assert RunOk(db.samples, run, db.runs[run]);
    }
  }

  // ----- Transactions as functions -----

  function NewSample(run: Id, evaluation: Id, maxAttempts: nat): Sample {
    Sample(run, evaluation, Queued, 0, maxAttempts, None, None)
  }

  const NewRun := Run(RunQueued, None, None)

  /** One sample of a plan, with its event; the first one brings its run along. */
  function AfterCreate(db: Db, id: Id, sample: Sample, now: Time): Db {
    db.(samples := db.samples[id := sample],
        runs := if sample.run in db.runs then db.runs else db.runs[sample.run := NewRun],
        outbox := AddEvent(db.outbox, id, sample.attempts, now))
  }

  /** One sample that a run plans, and the evaluation it will be recorded as. */
  datatype Planned = Planned(sample: Id, evaluation: Id)

  /** `create_plan`: a run with all its samples and their events, in one transaction. */
  function AfterPlan(db: Db, run: Id, plan: seq<Planned>, maxAttempts: nat, now: Time): Db {
    if plan == [] then db
    else
      var last := plan[|plan| - 1];
      AfterCreate(AfterPlan(db, run, plan[..|plan| - 1], maxAttempts, now),
                  last.sample, NewSample(run, last.evaluation, maxAttempts), now)
  }

  /** Fresh identities: no sample is planned twice, and none shares an evaluation with another. */
  predicate FreshPlan(db: Db, run: Id, plan: seq<Planned>) {
    && plan != [] && run !in db.runs
    && (forall i :: 0 <= i < |plan| ==>
          && plan[i].sample !in db.samples && plan[i].sample !in db.artifacts
          && plan[i].evaluation !in db.snapshots
          && forall e :: e in db.samples ==> db.samples[e].evaluation != plan[i].evaluation)
    && (forall i, j :: 0 <= i < j < |plan| ==>
          plan[i].sample != plan[j].sample && plan[i].evaluation != plan[j].evaluation)
  }

  predicate CanClaim(db: Db, id: Id) { id in db.samples && Claimable(db.samples[id].status) }

  function ClaimedSample(s: Sample, hasArtifact: bool, w: WorkerId, now: Time, lease: real): Sample {
    s.(status := if hasArtifact then Evaluating else Generating, attempts := s.attempts + 1,
       worker := Some(w), lease := Some(now + lease))
  }

  function AfterClaim(db: Db, id: Id, w: WorkerId, now: Time, lease: real): Db
    requires id in db.samples
  {
    var s := ClaimedSample(db.samples[id], id in db.artifacts, w, now, lease);
    db.(samples := db.samples[id := s], runs := StartedRuns(db.runs, s.run, now))
  }

  /** The fence: the row names the worker, is in progress, and its lease is still running at `now`. */
  predicate OwnsActiveLease(s: Sample, w: WorkerId, now: Time) {
    s.worker == Some(w) && s.lease.Some? && s.lease.value > now && InProgress(s.status)
  }

  predicate Owns(db: Db, id: Id, w: WorkerId, now: Time) {
    id in db.samples && OwnsActiveLease(db.samples[id], w, now)
  }

  function AfterRenew(db: Db, id: Id, now: Time, lease: real): Db
    requires id in db.samples
  {
    db.(samples := db.samples[id := db.samples[id].(lease := Some(now + lease))])
  }

  predicate CanStore(db: Db, id: Id, w: WorkerId, now: Time) {
    Owns(db, id, w, now) && id !in db.artifacts && db.samples[id].status == Generating
  }

  function AfterStore(db: Db, id: Id, hash: string): Db
    requires id in db.samples
  {
    db.(samples := db.samples[id := db.samples[id].(status := Evaluating)],
        artifacts := db.artifacts[id := hash])
  }

  predicate CanComplete(db: Db, id: Id, w: WorkerId, evaluation: Id, hash: string, now: Time) {
    && Owns(db, id, w, now)
    && db.samples[id].evaluation == evaluation
    && (evaluation in db.snapshots ==> db.snapshots[evaluation] == hash)
  }

  function CompletedSample(s: Sample): Sample {
    s.(status := Completed, worker := None, lease := None)
  }

  function AfterComplete(db: Db, id: Id, hash: string, now: Time): Db
    requires id in db.samples
  {
    var s := db.samples[id];
    AfterFinish(db.(samples := db.samples[id := CompletedSample(s)],
                    snapshots := db.snapshots[s.evaluation := hash]), s.run, now)
  }

  /** An attempt ends without success: back to waiting with a new event, or over as `final`. */
  function ReleasedSample(s: Sample, hasArtifact: bool, retryable: bool, final: Status): Sample {
    s.(worker := None, lease := None,
       status := if retryable && s.attempts < s.maxAttempts
                 then (if hasArtifact then Generated else Queued)
                 else final)
  }

  function AfterRelease(db: Db, id: Id, retryable: bool, final: Status, now: Time, base: real): Db
    requires id in db.samples && db.samples[id].attempts > 0
  {
    var s := db.samples[id];
    var db' := db.(samples :=
      db.samples[id := ReleasedSample(s, id in db.artifacts, retryable, final)]);
    if retryable && s.attempts < s.maxAttempts then
      db'.(outbox := AddEvent(db.outbox, id, s.attempts, now + RetryDelay(s.attempts, base)))
    else AfterFinish(db', s.run, now)
  }

  /** The row of an attempt that ended without success. */
  predicate RowReleased(s: Sample, s': Sample, hasArtifact: bool, retryable: bool, final: Status) {
    && s' == s.(status := s'.status, worker := None, lease := None)
    && (!retryable || s.attempts == s.maxAttempts ==> s'.status == final)
    && (retryable && s.attempts < s.maxAttempts ==> s'.status == if hasArtifact then Generated else Queued)
  }

  /** That row, and one unpublished event after the backoff if the sample is to be tried again. */
  predicate FailureRecorded(db: Db, db': Db, id: Id, retryable: bool, final: Status, now: Time, base: real) {
    && id in db.samples && id in db'.samples && db.samples[id].attempts > 0
    && RowReleased(db.samples[id], db'.samples[id], id in db.artifacts, retryable, final)
    && db'.samples == db.samples[id := db'.samples[id]]
    && db'.artifacts == db.artifacts && db'.snapshots == db.snapshots
    && db'.outbox ==
         if !retryable || db.samples[id].attempts == db.samples[id].maxAttempts then db.outbox
         else
           var due := Due(now, base, db.samples[id].attempts);
           Outbox(db.outbox.events[db.outbox.next := Event(id, db.samples[id].attempts, due, 0, false)],
                  db.outbox.next + 1)
  }

  /** A sample is tried again exactly when the failure is retryable and an attempt is left. */
  lemma ReleaseDecides(db: Db, id: Id, retryable: bool, final: Status, now: Time, base: real)
    requires id in db.samples && 0 < db.samples[id].attempts <= db.samples[id].maxAttempts
    ensures FailureRecorded(db, AfterRelease(db, id, retryable, final, now, base), id, retryable, final, now, base)
  {
    hide Due, RetryDelay, AfterFinish;
    DueIsDelay(now, base, db.samples[id].attempts);
    FinishKeepsRows(db.(samples := db.samples[id :=
      ReleasedSample(db.samples[id], id in db.artifacts, retryable, final)]), db.samples[id].run, now);
  }

  /** Deriving a run changes nothing but run records. */
  lemma FinishKeepsRows(db: Db, run: Id, now: Time)
    ensures var after := AfterFinish(db, run, now);
      after == db.(runs := after.runs) && after.runs.Keys == db.runs.Keys
  {
    hide Remaining, SkippedOf;
  }

  function FinalStatus(generation: bool): Status {
    if generation then GenerationFailed else EvaluationFailed
  }

  predicate Stale(s: Sample, now: Time) {
    InProgress(s.status) && s.lease.Some? && s.lease.value < now
  }

  function AfterRecovery(db: Db, id: Id, now: Time, base: real): Db {
    if id in db.samples && Stale(db.samples[id], now) && db.samples[id].attempts > 0
    then AfterRelease(db, id, true, Skipped, now, base)
    else db
  }

  function AfterRecoveries(db: Db, ids: seq<Id>, now: Time, base: real): Db {
    if ids == [] then db
    else AfterRecovery(AfterRecoveries(db, ids[..|ids| - 1], now, base), ids[|ids| - 1], now, base)
  }

  function AfterReconcile(db: Db, runs: seq<Id>, now: Time): Db {
    if runs == [] then db
    else AfterFinish(AfterReconcile(db, runs[..|runs| - 1], now), runs[|runs| - 1], now)
  }

  // ----- Every transaction keeps the store valid -----

  lemma RowValid(samples: map<Id, Sample>, artifacts: map<Id, string>, id: Id, s: Sample, artifacts': map<Id, string>)
    requires SamplesValid(samples, artifacts) && ValidSample(s, id in artifacts')
    requires forall e :: e != id ==> (e in artifacts' <==> e in artifacts)
    ensures SamplesValid(samples[id := s], artifacts')
  {
    hide ValidSample;
  }

  lemma ClaimKeepsValid(db: Db, id: Id, w: WorkerId, now: Time, lease: real)
    requires ValidDb(db) && CanClaim(db, id)
    ensures ValidDb(AfterClaim(db, id, w, now, lease))
  {
    hide RunsOk, StartedRuns;
    var s := ClaimedSample(db.samples[id], id in db.artifacts, w, now, lease);
    RowValid(db.samples, db.artifacts, id, s, db.artifacts);
    ClaimKeepsRuns(db.samples, db.runs, id, s, now);
  }

  lemma RenewKeepsValid(db: Db, id: Id, w: WorkerId, now: Time, lease: real)
    requires ValidDb(db) && Owns(db, id, w, now)
    ensures ValidDb(AfterRenew(db, id, now, lease))
  {
    hide RunsOk;
    var s := db.samples[id].(lease := Some(now + lease));
    RowValid(db.samples, db.artifacts, id, s, db.artifacts);
    OpenRowKeepsRuns(db.samples, db.runs, id, s);
  }

  lemma StoreKeepsValid(db: Db, id: Id, w: WorkerId, hash: string, now: Time)
    requires ValidDb(db) && CanStore(db, id, w, now)
    ensures ValidDb(AfterStore(db, id, hash))
  {
    hide RunsOk;
    var s := db.samples[id].(status := Evaluating);
    RowValid(db.samples, db.artifacts, id, s, db.artifacts[id := hash]);
    OpenRowKeepsRuns(db.samples, db.runs, id, s);
  }

  lemma CompleteKeepsValid(db: Db, id: Id, w: WorkerId, evaluation: Id, hash: string, now: Time)
    requires ValidDb(db) && CanComplete(db, id, w, evaluation, hash, now)
    ensures ValidDb(AfterComplete(db, id, hash, now))
  {
    hide RunsOk, Remaining, SkippedOf, FinishedRun;
    var s := CompletedSample(db.samples[id]);
    RowValid(db.samples, db.artifacts, id, s, db.artifacts);
    EndKeepsRuns(db.(snapshots := db.snapshots[evaluation := hash]), id, s, now);
  }

  lemma ReleaseKeepsValid(db: Db, id: Id, retryable: bool, final: Status, now: Time, base: real)
    requires ValidDb(db) && id in db.samples && InProgress(db.samples[id].status) && Terminal(final)
    ensures db.samples[id].attempts > 0 && ValidDb(AfterRelease(db, id, retryable, final, now, base))
  {
    hide RunsOk, Remaining, SkippedOf, FinishedRun, RetryDelay;
    var row := db.samples[id];
    assert ValidSample(row, id in db.artifacts);
    var s := ReleasedSample(row, id in db.artifacts, retryable, final);
    RowValid(db.samples, db.artifacts, id, s, db.artifacts);
    if retryable && row.attempts < row.maxAttempts {
      OpenRowKeepsRuns(db.samples, db.runs, id, s);
    } else {
      EndKeepsRuns(db, id, s, now);
    }
  }

  /** A new sample belongs to a run that has not ended. */
  lemma CreateKeepsRuns(samples: map<Id, Sample>, runs: map<Id, Run>, id: Id, s: Sample)
    requires RunsOk(samples, runs) && id !in samples && s.status == Queued && s.attempts == 0
    requires s.run in runs ==> !RunEnded(runs[s.run])
    ensures RunsOk(samples[id := s], if s.run in runs then runs else runs[s.run := NewRun])
  {
    hide RunOk, Terminal;
    var after := samples[id := s];
    var runs' := if s.run in runs then runs else runs[s.run := NewRun];
    forall run | run in runs' ensures RunOk(after, run, runs'[run]) {
      if run != s.run {
        OtherSamples(samples, id, s, run, runs[run]);
      } else {
        PlannedRunOk(samples, runs, id, s);
      }
    }
  }

  lemma PlannedRunOk(samples: map<Id, Sample>, runs: map<Id, Run>, id: Id, s: Sample)
    requires id !in samples && s.status == Queued && s.attempts == 0
    requires s.run in runs ==> RunOk(samples, s.run, runs[s.run]) && !RunEnded(runs[s.run])
    requires s.run !in runs ==> forall x :: x in samples ==> samples[x].run != s.run
    ensures RunOk(samples[id := s], s.run, if s.run in runs then runs[s.run] else NewRun)
  {
    var after := samples[id := s];
    assert after[id].run == s.run && !Terminal(after[id].status);
    assert !Over(after, s.run);
    if s.run in runs && runs[s.run].status != RunQueued {
      var x :| x in samples && samples[x].run == s.run && samples[x].attempts != 0;
      assert x in after && after[x] == samples[x];
    }
  }

  lemma OtherSamples(samples: map<Id, Sample>, id: Id, s: Sample, run: Id, record: Run)
    requires id !in samples && s.run != run && RunOk(samples, run, record)
    ensures RunOk(samples[id := s], run, record)
  {
    var after := samples[id := s];
    forall x | x in samples ensures x in after && after[x] == samples[x] {
    }
    if SomeSkipped(samples, run) {
      var x :| x in samples && samples[x].run == run && samples[x].status == Skipped;
      assert x in after;
    }
    if record.status != RunQueued {
      var x :| x in samples && samples[x].run == run && samples[x].attempts != 0;
      assert x in after;
    }
  }

  // ----- The same transactions on the stored rows -----

  datatype CompleteOutcome = Recorded | Refused | IdentityConflict

  class Repository {
    var samples: map<Id, Sample>
    var artifacts: map<Id, string>
    var snapshots: map<Id, string>
    var runs: map<Id, Run>
    var outbox: Outbox

    ghost function Contents(): Db
      reads this
    {
      Db(samples, artifacts, snapshots, runs, outbox)
    }

    ghost predicate Valid()
      reads this
    {
      ValidDb(Contents())
    }

    constructor ()
      ensures Valid() && Contents() == Db(map[], map[], map[], map[], Outbox(map[], 0))
    {
      samples, artifacts, snapshots, runs := map[], map[], map[], map[];
      outbox := Outbox(map[], 0);
    }

    /** The run, then its samples, then their events. */
    method CreatePlan(run: Id, plan: seq<Planned>, maxAttempts: nat, now: Time)
      requires Valid() && FreshPlan(Contents(), run, plan) && maxAttempts > 0
      modifies this
      ensures Valid() && Contents() == AfterPlan(old(Contents()), run, plan, maxAttempts, now)
      ensures PlanStored(old(Contents()), Contents(), run, plan, maxAttempts, now)
    {
      hide ValidDb, FreshPlan, AfterPlan, PlanStored;
      ghost var before := Contents();
      PlanKeepsValid(before, run, plan, maxAttempts, now);
      PlanIsStored(before, run, plan, maxAttempts, now);
      PlanStep(before, run, plan, 0, maxAttempts, now);
      runs := runs[run := NewRun];
      for i := 0 to |plan|
        invariant samples == AfterPlan(before, run, plan[..i], maxAttempts, now).samples
        invariant artifacts == before.artifacts && snapshots == before.snapshots
        invariant runs == before.runs[run := NewRun] && outbox == before.outbox
      {
        PlanStep(before, run, plan, i, maxAttempts, now);
        samples := samples[plan[i].sample := NewSample(run, plan[i].evaluation, maxAttempts)];
      }
      assert plan[..|plan|] == plan;
      for i := 0 to |plan|
        invariant samples == AfterPlan(before, run, plan, maxAttempts, now).samples
        invariant artifacts == before.artifacts && snapshots == before.snapshots
        invariant runs == before.runs[run := NewRun]
        invariant outbox == AfterPlan(before, run, plan[..i], maxAttempts, now).outbox
      {
        PlanStep(before, run, plan, i, maxAttempts, now);
        outbox := AddEvent(outbox, plan[i].sample, 0, now);
      }
      PlannedRest(before, Contents(), run, plan, maxAttempts, now);
    }

    method Claim(id: Id, w: WorkerId, now: Time, lease: real) returns (claimed: Option<Sample>)
      requires Valid()
      modifies this
      ensures Valid()
      ensures claimed.Some? <==> CanClaim(old(Contents()), id)
      ensures claimed.Some? ==>
        && Contents() == AfterClaim(old(Contents()), id, w, now, lease)
        && claimed.value == samples[id]
        && samples == old(samples)[id := old(samples)[id].(
             status := if id in artifacts then Evaluating else Generating,
             attempts := old(samples)[id].attempts + 1, worker := Some(w), lease := Some(now + lease))]
        && var run := old(samples)[id].run;
        && (run in old(runs) && old(runs)[run].status == RunQueued ==>
              runs == old(runs)[run := old(runs)[run].(status := RunRunning, startedAt := Some(now))])
        && (run in old(runs) && old(runs)[run].status != RunQueued ==> runs == old(runs))
      ensures claimed.None? ==> Contents() == old(Contents())
    {
      hide ValidDb;
      if id !in samples || Terminal(samples[id].status) {
        return None;
      }
      var record := samples[id];
      if record.status != Queued && record.status != Generated {
        return None;
      }
      ClaimKeepsValid(Contents(), id, w, now, lease);
      record := record.(status := if id in artifacts then Evaluating else Generating);
      record := record.(attempts := record.attempts + 1);
      record := record.(worker := Some(w));
      record := record.(lease := Some(now + lease));
      samples := samples[id := record];
      if record.run in runs && runs[record.run].status == RunQueued {
        runs := runs[record.run := runs[record.run].(status := RunRunning, startedAt := Some(now))];
      }
      claimed := Some(record);
    }

    method RenewLease(id: Id, w: WorkerId, now: Time, lease: real) returns (renewed: Option<Time>)
      requires Valid()
      modifies this
      ensures Valid()
      ensures renewed == if Owns(old(Contents()), id, w, now) then Some(now + lease) else None
      ensures Contents() ==
        if renewed.Some? then AfterRenew(old(Contents()), id, now, lease) else old(Contents())
      ensures renewed.Some? ==> samples == old(samples)[id := old(samples)[id].(lease := renewed)]
    {
      hide ValidDb;
      if id !in samples || samples[id].worker != Some(w) || samples[id].lease.None?
         || samples[id].lease.value <= now {
        return None;
      }
      if !InProgress(samples[id].status) {
        return None;
      }
      RenewKeepsValid(Contents(), id, w, now, lease);
      samples := samples[id := samples[id].(lease := Some(now + lease))];
      renewed := Some(now + lease);
    }

    /** True exactly when this worker owns the row and the stored artifact is the given one. */
    method StoreArtifact(id: Id, w: WorkerId, hash: string, now: Time) returns (stored: bool)
      requires Valid()
      modifies this
      ensures Valid()
      ensures stored == (Owns(old(Contents()), id, w, now) && id in artifacts && artifacts[id] == hash)
      ensures Contents() ==
        if CanStore(old(Contents()), id, w, now) then AfterStore(old(Contents()), id, hash)
        else old(Contents())
    {
      hide ValidDb;
      OwnerFacts(Contents(), id, w, now);
      if id !in samples || !OwnsActiveLease(samples[id], w, now) {
        return false;
      }
      if id in artifacts {
        return artifacts[id] == hash;
      }
      if samples[id].status != Generating {
        return false;
      }
      StoreKeepsValid(Contents(), id, w, hash, now);
      artifacts := artifacts[id := hash];
      samples := samples[id := samples[id].(status := Evaluating)];
      stored := true;
    }

    method Complete(id: Id, w: WorkerId, evaluation: Id, hash: string, now: Time)
      returns (outcome: CompleteOutcome)
      requires Valid()
      modifies this
      ensures Valid()
      ensures Contents() ==
        if CanComplete(old(Contents()), id, w, evaluation, hash, now)
        then AfterComplete(old(Contents()), id, hash, now) else old(Contents())
      ensures outcome == Recorded <==>
        id in samples && samples[id].evaluation == evaluation && samples[id].status == Completed
      ensures outcome == Recorded ==> samples[id].run in runs && RunOk(samples, samples[id].run, runs[samples[id].run])
      ensures outcome == IdentityConflict <==>
        && Owns(old(Contents()), id, w, now) && old(samples)[id].evaluation == evaluation
        && evaluation in old(snapshots) && old(snapshots)[evaluation] != hash
      ensures outcome == Recorded && old(samples)[id].status != Completed ==>
        && Owns(old(Contents()), id, w, now)
        && samples == old(samples)[id := old(samples)[id].(status := Completed, worker := None, lease := None)]
        && snapshots == old(snapshots)[evaluation := hash]
        && artifacts == old(artifacts) && outbox == old(outbox)
    {
      hide ValidDb, RunOk, Remaining, SkippedOf, FinishedRun;
      if id !in samples || samples[id].evaluation != evaluation {
        return Refused;
      }
      if samples[id].status == Completed {
        RunFacts(Contents(), id);
        return Recorded;
      }
      if !OwnsActiveLease(samples[id], w, now) {
        return Refused;
      }
      if evaluation !in snapshots {
        snapshots := snapshots[evaluation := hash];
      } else if snapshots[evaluation] != hash {
        return IdentityConflict;
      }
      CompleteKeepsValid(old(Contents()), id, w, evaluation, hash, now);
      assert snapshots == old(snapshots)[evaluation := hash];
      var record := samples[id];
      record := record.(status := Completed);
      record := record.(worker := None);
      record := record.(lease := None);
      samples := samples[id := record];
      FinishRunIfTerminal(record.run, now);
      RunFacts(Contents(), id);
      outcome := Recorded;
    }

    method RecordFailure(id: Id, w: WorkerId, generation: bool, retryable: bool, now: Time, base: real)
      returns (status: Option<Status>)
      requires Valid()
      modifies this
      ensures Valid()
      ensures status.Some? <==> Owns(old(Contents()), id, w, now)
      ensures status.Some? ==>
        && FailureRecorded(old(Contents()), Contents(), id, retryable,
                           if generation then GenerationFailed else EvaluationFailed, now, base)
        && samples[id].run in runs && RunOk(samples, samples[id].run, runs[samples[id].run])
        && status.value == samples[id].status
      ensures status.Some? ==>
        Contents() == AfterRelease(old(Contents()), id, retryable, FinalStatus(generation), now, base)
      ensures status.None? ==> Contents() == old(Contents())
    {
      hide ValidDb, RunOk, FailureRecorded, AfterRelease;
      if id !in samples || !OwnsActiveLease(samples[id], w, now) {
        return None;
      }
      Release(id, retryable, FinalStatus(generation), now, base);
      RunFacts(Contents(), id);
      status := Some(samples[id].status);
    }

    /** The tail shared by `record_failure` and `recover_stale`. */
    method Release(id: Id, retryable: bool, final: Status, now: Time, base: real)
      requires Valid() && id in samples && InProgress(samples[id].status) && Terminal(final)
      modifies this
      ensures Valid() && old(samples)[id].attempts > 0
      ensures Contents() == AfterRelease(old(Contents()), id, retryable, final, now, base)
      ensures FailureRecorded(old(Contents()), Contents(), id, retryable, final, now, base)
      ensures samples == old(samples)[id :=
        ReleasedSample(old(samples)[id], id in artifacts, retryable, final)]
    {
      hide ValidDb, Remaining, SkippedOf, FinishedRun, RetryDelay, FailureRecorded;
      ReleaseKeepsValid(Contents(), id, retryable, final, now, base);
      RowIsValid(Contents(), id);
      ReleaseDecides(Contents(), id, retryable, final, now, base);
      var record := samples[id];
      record := record.(worker := None);
      record := record.(lease := None);
      if retryable && record.attempts < record.maxAttempts {
        record := record.(status := if id in artifacts then Generated else Queued);
        samples := samples[id := record];
        var delay := RetryDelay(record.attempts, base);
        outbox := AddEvent(outbox, id, record.attempts, now + delay);
      } else {
        record := record.(status := final);
        samples := samples[id := record];
        FinishRunIfTerminal(record.run, now);
      }
    }

    /** Each stale row of the batch is requeued, or skipped after its last attempt. */
    method RecoverStale(now: Time, base: real, ids: seq<Id>)
      requires Valid()
      requires forall k :: 0 <= k < |ids| ==> ids[k] in samples && Stale(samples[ids[k]], now)
      requires forall i, k :: 0 <= i < k < |ids| ==> ids[i] != ids[k]
      modifies this
      ensures Valid() && Contents() == AfterRecoveries(old(Contents()), ids, now, base)
      ensures samples.Keys == old(samples).Keys && artifacts == old(artifacts)
      ensures forall k :: 0 <= k < |ids| ==>
        RowReleased(old(samples)[ids[k]], samples[ids[k]], ids[k] in artifacts, true, Skipped)
      ensures forall id :: id in samples && id !in ids ==> samples[id] == old(samples)[id]
    {
      hide ValidDb, AfterRelease, FailureRecorded, ReleasedSample, RowReleased;
      ghost var before := Contents();
      for n := 0 to |ids|
        invariant Valid() && samples.Keys == before.samples.Keys && artifacts == before.artifacts
        invariant Contents() == AfterRecoveries(before, ids[..n], now, base)
        invariant forall k :: n <= k < |ids| ==> samples[ids[k]] == before.samples[ids[k]]
        invariant forall k :: 0 <= k < n ==>
          RowReleased(before.samples[ids[k]], samples[ids[k]], ids[k] in artifacts, true, Skipped)
        invariant forall id :: id in samples && id !in ids ==> samples[id] == before.samples[id]
      {
        RecoveriesStep(before, ids, n, now, base);
        ghost var here := Contents();
        Release(ids[n], true, Skipped, now, base);
        RecordedRow(here, Contents(), ids[n], true, Skipped, now, base);
      }
      assert ids[..|ids|] == ids;
    }

    /** Whatever state the runs were in, those of the batch come out as their samples say. */
    method ReconcileTerminalRuns(batch: seq<Id>, now: Time)
      modifies `runs
      ensures Contents() == AfterReconcile(old(Contents()), batch, now)
      ensures runs.Keys == old(runs).Keys
      ensures forall k :: 0 <= k < |batch| && batch[k] in runs && Over(samples, batch[k]) ==>
        Derived(samples, batch[k], runs[batch[k]])
      ensures old(Valid()) ==> runs == old(runs)
    {
      hide Remaining, SkippedOf, ValidDb, Over, SomeSkipped, Derived, FinishedRun;
      ghost var before := Contents();
      for n := 0 to |batch|
        invariant Contents() == AfterReconcile(before, batch[..n], now) && runs.Keys == before.runs.Keys
        invariant forall k :: 0 <= k < n && batch[k] in runs && Over(samples, batch[k]) ==>
          Derived(samples, batch[k], runs[batch[k]])
        invariant ValidDb(before) ==> Contents() == before
      {
        assert batch[..n + 1][..n] == batch[..n];
        if ValidDb(before) {
          RightRuns(before);
          FinishIsIdle(before, batch[n], now);
        }
        FinishRunIfTerminal(batch[n], now);
      }
      assert batch[..|batch|] == batch;
    }

    method FinishRunIfTerminal(run: Id, now: Time)
      modifies `runs
      ensures Contents() == AfterFinish(old(Contents()), run, now)
      ensures runs.Keys == old(runs).Keys
      ensures forall other :: other in runs && other != run ==> runs[other] == old(runs)[other]
      ensures run in runs && Over(samples, run) ==>
        && Derived(samples, run, runs[run]) && runs[run].startedAt == old(runs)[run].startedAt
        && runs[run].completedAt == (if old(runs)[run].completedAt.Some? then old(runs)[run].completedAt else Some(now))
      ensures run in runs && !Over(samples, run) ==> runs == old(runs)
    {
      hide Over, SomeSkipped, Remaining, SkippedOf;
      if run !in runs {
        return;
      }
      CountsAgree(samples, run);
      var remaining := |Remaining(samples, run)|;
      if remaining == 0 {
        var skipped := |SkippedOf(samples, run)|;
        var record := runs[run];
        record := record.(status := if skipped > 0 then RunPartial else RunCompleted);
        if record.completedAt.None? {
          record := record.(completedAt := Some(now));
        }
        runs := runs[run := record];
      }
    }
  }

  lemma RightRuns(db: Db)
    requires ValidDb(db)
    ensures RunsOk(db.samples, db.runs)
  {
  }

  lemma RunFacts(db: Db, id: Id)
    requires ValidDb(db) && id in db.samples
    ensures db.samples[id].run in db.runs && RunOk(db.samples, db.samples[id].run, db.runs[db.samples[id].run])
  {
    hide RunOk, SamplesValid;
  }

  lemma RowIsValid(db: Db, id: Id)
    requires ValidDb(db) && id in db.samples
    ensures ValidSample(db.samples[id], id in db.artifacts)
  {
    hide RunsOk;
  }

  lemma OwnerFacts(db: Db, id: Id, w: WorkerId, now: Time)
    requires ValidDb(db)
    ensures id in db.samples ==> ValidSample(db.samples[id], id in db.artifacts)
  {
    hide RunsOk;
  }

  lemma RecordedRow(db: Db, db': Db, id: Id, retryable: bool, final: Status, now: Time, base: real)
    requires FailureRecorded(db, db', id, retryable, final, now, base)
    ensures id in db.samples && id in db'.samples && db'.artifacts == db.artifacts
    ensures RowReleased(db.samples[id], db'.samples[id], id in db.artifacts, retryable, final)
  {
  }

  // ----- Plans -----

  lemma FreshIsDistinct(db: Db, run: Id, plan: seq<Planned>)
    requires FreshPlan(db, run, plan)
    ensures plan != [] && run !in db.runs
    ensures forall i :: 0 <= i < |plan| ==> plan[i].sample !in db.samples
    ensures forall i, j :: 0 <= i < j < |plan| ==> plan[i].sample != plan[j].sample
  {
  }

  lemma FreshFront(db: Db, run: Id, plan: seq<Planned>)
    requires FreshPlan(db, run, plan) && |plan| > 1
    ensures FreshPlan(db, run, plan[..|plan| - 1])
  {
  }

  /** The last sample of a plan is fresh for what the others have added. */
  lemma FreshNext(db: Db, run: Id, plan: seq<Planned>, maxAttempts: nat, now: Time)
    requires FreshPlan(db, run, plan)
    ensures plan != []
    ensures var before := AfterPlan(db, run, plan[..|plan| - 1], maxAttempts, now);
      var last := plan[|plan| - 1];
      && last.sample !in before.samples && last.sample !in before.artifacts
      && last.evaluation !in before.snapshots
      && (forall e :: e in before.samples ==> before.samples[e].evaluation != last.evaluation)
      && (run in before.runs ==> before.runs[run] == NewRun)
  {
    hide AfterPlan;
    var front, last := plan[..|plan| - 1], plan[|plan| - 1];
    var before := AfterPlan(db, run, front, maxAttempts, now);
    PlanFacts(db, run, front, maxAttempts, now);
    forall e | e in before.samples ensures before.samples[e].evaluation != last.evaluation {
      if i :| 0 <= i < |front| && front[i].sample == e {
        assert front[i] == plan[i];
      }
    }
  }

  /** What a plan adds, sample by sample. */
  lemma {:induction false} PlanFacts(db: Db, run: Id, plan: seq<Planned>, maxAttempts: nat, now: Time)
    requires forall i, j :: 0 <= i < j < |plan| ==> plan[i].sample != plan[j].sample
    requires run !in db.runs
    ensures var after := AfterPlan(db, run, plan, maxAttempts, now);
      && after.artifacts == db.artifacts && after.snapshots == db.snapshots
      && after.runs == (if plan == [] then db.runs else db.runs[run := NewRun])
      && (forall id :: id in after.samples <==> id in db.samples || exists i :: 0 <= i < |plan| && plan[i].sample == id)
      && (forall i :: 0 <= i < |plan| ==>
            plan[i].sample in after.samples
            && after.samples[plan[i].sample] == NewSample(run, plan[i].evaluation, maxAttempts))
      && (forall id :: id in db.samples && (forall i :: 0 <= i < |plan| ==> plan[i].sample != id) ==>
            after.samples[id] == db.samples[id])
  {
    if plan != [] {
      var front := plan[..|plan| - 1];
      PlanFacts(db, run, front, maxAttempts, now);
      assert forall i :: 0 <= i < |front| ==> front[i] == plan[i];
    }
  }

  /** The i-th sample of the plan has its event, due at once. */
  predicate HasPlannedEvent(outbox: Outbox, first: nat, plan: seq<Planned>, i: nat, now: Time)
    requires i < |plan|
  {
    first + i in outbox.events && outbox.events[first + i] == Event(plan[i].sample, 0, now, 0, false)
  }

  /** And event by event. */
  lemma {:induction false} PlanEvents(db: Db, run: Id, plan: seq<Planned>, maxAttempts: nat, now: Time)
    ensures var after := AfterPlan(db, run, plan, maxAttempts, now).outbox;
      && after.next == db.outbox.next + |plan|
      && forall i :: 0 <= i < |plan| ==> HasPlannedEvent(after, db.outbox.next, plan, i, now)
  {
    if plan != [] {
      var last := |plan| - 1;
      var before := AfterPlan(db, run, plan[..last], maxAttempts, now).outbox;
      var after := AfterPlan(db, run, plan, maxAttempts, now).outbox;
      PlanEvents(db, run, plan[..last], maxAttempts, now);
      assert after == AddEvent(before, plan[last].sample, 0, now);
      forall i | 0 <= i < |plan| ensures HasPlannedEvent(after, db.outbox.next, plan, i, now) {
        if i < last {
          assert HasPlannedEvent(before, db.outbox.next, plan[..last], i, now);
        }
      }
    }
  }

  /** A queued run, its queued samples without attempts, and one event due now for each of them. */
  predicate PlanStored(db: Db, db': Db, run: Id, plan: seq<Planned>, maxAttempts: nat, now: Time) {
    && db'.runs == db.runs[run := Run(RunQueued, None, None)]
    && db'.artifacts == db.artifacts && db'.snapshots == db.snapshots
    && db'.outbox.next == db.outbox.next + |plan|
    && (forall i :: 0 <= i < |plan| ==>
          && plan[i].sample in db'.samples
          && db'.samples[plan[i].sample] == Sample(run, plan[i].evaluation, Queued, 0, maxAttempts, None, None)
          && HasPlannedEvent(db'.outbox, db.outbox.next, plan, i, now))
    && (forall id :: id in db.samples ==> id in db'.samples && db'.samples[id] == db.samples[id])
  }

  lemma {:induction false} PlanIsStored(db: Db, run: Id, plan: seq<Planned>, maxAttempts: nat, now: Time)
    requires FreshPlan(db, run, plan)
    ensures PlanStored(db, AfterPlan(db, run, plan, maxAttempts, now), run, plan, maxAttempts, now)
  {
    hide AfterPlan, FreshPlan;
    FreshIsDistinct(db, run, plan);
    PlanFacts(db, run, plan, maxAttempts, now);
    PlanEvents(db, run, plan, maxAttempts, now);
  }

  lemma {:induction false} PlanStep(db: Db, run: Id, plan: seq<Planned>, i: nat, maxAttempts: nat, now: Time)
    requires i <= |plan|
    ensures AfterPlan(db, run, [], maxAttempts, now) == db
    ensures plan[..0] == []
    ensures i < |plan| ==>
      var before := AfterPlan(db, run, plan[..i], maxAttempts, now);
      var after := AfterPlan(db, run, plan[..i + 1], maxAttempts, now);
      && after.samples == before.samples[plan[i].sample := NewSample(run, plan[i].evaluation, maxAttempts)]
      && after.outbox == AddEvent(before.outbox, plan[i].sample, 0, now)
  {
    if i < |plan| {
      assert plan[..i + 1][..i] == plan[..i];
    }
  }

  lemma PlannedRest(db: Db, db': Db, run: Id, plan: seq<Planned>, maxAttempts: nat, now: Time)
    requires FreshPlan(db, run, plan)
    requires var after := AfterPlan(db, run, plan, maxAttempts, now); db'.samples == after.samples
    requires db'.outbox == AfterPlan(db, run, plan[..|plan|], maxAttempts, now).outbox
    requires db'.artifacts == db.artifacts && db'.snapshots == db.snapshots && db'.runs == db.runs[run := NewRun]
    ensures db' == AfterPlan(db, run, plan, maxAttempts, now)
  {
    hide AfterPlan;
    assert plan[..|plan|] == plan;
    PlanFacts(db, run, plan, maxAttempts, now);
  }

  lemma {:induction false} PlanKeepsValid(db: Db, run: Id, plan: seq<Planned>, maxAttempts: nat, now: Time)
    requires ValidDb(db) && FreshPlan(db, run, plan) && maxAttempts > 0
    ensures ValidDb(AfterPlan(db, run, plan, maxAttempts, now))
  {
    hide RunsOk, FreshPlan, SamplesValid;
    FreshIsDistinct(db, run, plan);
    var front, last := plan[..|plan| - 1], plan[|plan| - 1];
    var before := AfterPlan(db, run, front, maxAttempts, now);
    if front != [] {
      FreshFront(db, run, plan);
      PlanKeepsValid(db, run, front, maxAttempts, now);
    }
    FreshNext(db, run, plan, maxAttempts, now);
    var s := NewSample(run, last.evaluation, maxAttempts);
    RowValid(before.samples, before.artifacts, last.sample, s, before.artifacts);
    CreateKeepsRuns(before.samples, before.runs, last.sample, s);
  }

  lemma RecoveriesStep(db: Db, ids: seq<Id>, n: nat, now: Time, base: real)
    requires n < |ids|
    ensures AfterRecoveries(db, ids[..n + 1], now, base)
         == AfterRecovery(AfterRecoveries(db, ids[..n], now, base), ids[n], now, base)
  {
    assert ids[..n + 1][..n] == ids[..n];
  }
}
