/**
  The evaluation-job store of app/jobs/repositories.py. Each `After...` function is the effect of
  one committed transaction; class `Repository` performs the same transactions field by field.
*/
module JobRepository {
  import opened Core
  import opened Retry
  import opened Delivery

  datatype Status = Queued | Running | RetryWait | Completed | Failed

  datatype Job = Job(
    status: Status,
    attempts: nat,
    maxAttempts: nat,
    nextAttempt: Option<Time>,
    worker: Option<WorkerId>,
    lease: Option<Time>,
    startedAt: Option<Time>,
    snapshotCreated: bool,
    key: Option<string>,
    fingerprint: string
  )

  datatype Db = Db(jobs: map<Id, Job>, outbox: Outbox, snapshots: map<Id, string>)

  /** The transition table of app/jobs/state.py. */
  predicate Legal(current: Status, target: Status) {
    match current
    case Queued => target == Running
    case Running => target in {Completed, RetryWait, Failed}
    case RetryWait => target == Queued
    case Completed => false
    case Failed => false
  }

  predicate Terminal(status: Status) { status == Completed || status == Failed }

  /** The table's check constraints, and which columns each status fills. */
  predicate ValidJob(j: Job) {
    && 0 < j.maxAttempts
    && j.attempts <= j.maxAttempts
    && (j.snapshotCreated <==> j.status == Completed)
    && (j.status == Queued ==> j.attempts == 0)
    && (j.status == RetryWait ==> 0 < j.attempts < j.maxAttempts && j.nextAttempt.Some?)
    && (j.status == Running ==> 0 < j.attempts && j.startedAt.Some?)
    && (j.worker.Some? <==> j.status == Running)
    && (j.lease.Some? <==> j.status == Running)
  }

  predicate KeysUnique(jobs: map<Id, Job>) {
    forall a, b :: a in jobs && b in jobs && jobs[a].key.Some? && jobs[a].key == jobs[b].key ==> a == b
  }

  predicate JobsValid(jobs: map<Id, Job>) {
    forall id :: id in jobs ==> ValidJob(jobs[id])
  }

  predicate SnapshotsMatch(jobs: map<Id, Job>, snapshots: map<Id, string>) {
    forall id :: id in jobs ==> (id in snapshots <==> jobs[id].status == Completed)
  }

  predicate ValidDb(db: Db) {
    JobsValid(db.jobs) && SnapshotsMatch(db.jobs, db.snapshots) && KeysUnique(db.jobs)
  }

  function ViewOf(j: Job): View {
    View(j.attempts,
         match j.status
         case Queued => Waiting(None)
         case RetryWait => Waiting(j.nextAttempt)
         case Running => Active
         case Completed => Done
         case Failed => Done)
  }

  // ----- Idempotent creation -----

  datatype CreateOutcome = Created | Reused(existing: Id) | Conflict

  /** No stored job carries the request's key. */
  predicate NewKey(jobs: map<Id, Job>, key: Option<string>) {
    forall e :: e in jobs ==> key.None? || jobs[e].key != key
  }

  /** What a request gets: a job of its own, the job its key already has, or a refusal. */
  ghost predicate Answers(jobs: map<Id, Job>, key: Option<string>, fingerprint: string, outcome: CreateOutcome) {
    match outcome
    case Created => NewKey(jobs, key)
    case Reused(e) => key.Some? && e in jobs && jobs[e].key == key && jobs[e].fingerprint == fingerprint
    case Conflict => key.Some? && exists e :: e in jobs && jobs[e].key == key && jobs[e].fingerprint != fingerprint
  }

  /** The stored row is a request waiting for its first attempt. */
  predicate Requested(j: Job, key: Option<string>, fingerprint: string, maxAttempts: nat) {
    && j.key == key && j.fingerprint == fingerprint && j.maxAttempts == maxAttempts
    && j.status == Queued && j.attempts == 0
    && j.worker.None? && j.lease.None? && j.nextAttempt.None? && j.startedAt.None? && !j.snapshotCreated
  }

  /** A job owns its key: whoever repeats the key gets this job, or a refusal if the request differs. */
  lemma KeyHasOneAnswer(jobs: map<Id, Job>, id: Id, fingerprint: string, outcome: CreateOutcome)
    requires KeysUnique(jobs) && id in jobs && jobs[id].key.Some?
    ensures Answers(jobs, jobs[id].key, fingerprint, outcome) <==>
      outcome == if jobs[id].fingerprint == fingerprint then Reused(id) else Conflict
  {
  }

  // ----- Transactions as functions -----

  function NewJob(key: Option<string>, fingerprint: string, maxAttempts: nat): Job {
    Job(Queued, 0, maxAttempts, None, None, None, None, false, key, fingerprint)
  }

  function AfterCreate(db: Db, id: Id, job: Job, now: Time): Db {
    db.(jobs := db.jobs[id := job], outbox := AddEvent(db.outbox, id, job.attempts, now))
  }

  predicate Claimable(j: Job, now: Time) {
    || j.status == Queued
    || (j.status == RetryWait && j.nextAttempt.Some? && j.nextAttempt.value <= now)
  }

  predicate CanClaim(db: Db, id: Id, now: Time) {
    id in db.jobs && Claimable(db.jobs[id], now)
  }

  function ClaimedJob(j: Job, w: WorkerId, now: Time, lease: real): Job {
    j.(status := Running, attempts := j.attempts + 1, startedAt := Some(now), worker := Some(w),
       lease := Some(now + lease), nextAttempt := None)
  }

  function AfterClaim(db: Db, id: Id, w: WorkerId, now: Time, lease: real): Db
    requires id in db.jobs
  {
    db.(jobs := db.jobs[id := ClaimedJob(db.jobs[id], w, now, lease)])
  }

  /** Ownership of a job is its row naming the worker; unlike samples, an expired lease still counts. */
  predicate Owns(db: Db, id: Id, w: WorkerId) {
    id in db.jobs && db.jobs[id].status == Running && db.jobs[id].worker == Some(w)
  }

  function AfterRenew(db: Db, id: Id, now: Time, lease: real): Db
    requires id in db.jobs
  {
    db.(jobs := db.jobs[id := db.jobs[id].(lease := Some(now + lease))])
  }

  function AfterComplete(db: Db, id: Id, hash: string): Db
    requires id in db.jobs
  {
    var j := db.jobs[id].(status := Completed, snapshotCreated := true, worker := None, lease := None);
    db.(jobs := db.jobs[id := j], snapshots := db.snapshots[id := hash])
  }

  /** A failed or abandoned attempt: back to waiting with a new event, or failed for good. */
  function AfterFailure(db: Db, id: Id, retryable: bool, now: Time, base: real): Db
    requires id in db.jobs && db.jobs[id].attempts > 0
  {
    var j := db.jobs[id].(worker := None, lease := None);
    if retryable && j.attempts < j.maxAttempts then
      var next := now + RetryDelay(j.attempts, base);
      db.(jobs := db.jobs[id := j.(status := RetryWait, nextAttempt := Some(next))],
          outbox := AddEvent(db.outbox, id, j.attempts, next))
    else
      db.(jobs := db.jobs[id := j.(status := Failed, nextAttempt := None)])
  }

  /** The row of an attempt that ended at `now` without success. */
  predicate RowFailed(j: Job, j': Job, retryable: bool, now: Time, base: real) {
    && j.attempts > 0
    && j' == j.(status := j'.status, worker := None, lease := None, nextAttempt := j'.nextAttempt)
    && (j'.status == Failed <==> !retryable || j.attempts == j.maxAttempts)
    && (j'.status == Failed || j'.status == RetryWait)
    && j'.nextAttempt == (if j'.status == Failed then None else Some(Due(now, base, j.attempts)))
  }

  /** That row, and one unpublished event due at its deadline if it is to be tried again. */
  predicate FailureRecorded(db: Db, db': Db, id: Id, retryable: bool, now: Time, base: real) {
    && id in db.jobs && id in db'.jobs
    && RowFailed(db.jobs[id], db'.jobs[id], retryable, now, base)
    && db'.jobs == db.jobs[id := db'.jobs[id]] && db'.snapshots == db.snapshots
    && db'.outbox ==
         if db'.jobs[id].status == Failed then db.outbox
         else
           var due := Due(now, base, db.jobs[id].attempts);
           Outbox(db.outbox.events[db.outbox.next := Event(id, db.jobs[id].attempts, due, 0, false)],
                  db.outbox.next + 1)
  }

  /** A failure is final exactly when it is not retryable or the attempts are used up. */
  lemma FailureDecides(db: Db, id: Id, retryable: bool, now: Time, base: real)
    requires id in db.jobs && ValidJob(db.jobs[id]) && db.jobs[id].status == Running
    ensures FailureRecorded(db, AfterFailure(db, id, retryable, now, base), id, retryable, now, base)
  {
    hide Due, RetryDelay;
    DueIsDelay(now, base, db.jobs[id].attempts);
  }

  predicate Stale(j: Job, now: Time) {
    j.status == Running && j.lease.Some? && j.lease.value < now
  }

  function LeaseOf(j: Job): Time {
    if j.lease.Some? then j.lease.value else 0.0
  }

  function AfterRecovery(db: Db, id: Id, now: Time, base: real): Db {
    if id in db.jobs && Stale(db.jobs[id], now) && db.jobs[id].attempts > 0
    then AfterFailure(db, id, true, now, base)
    else db
  }

  /** `recover_stale` over a batch. */
  function AfterRecoveries(db: Db, ids: seq<Id>, now: Time, base: real): Db {
    if ids == [] then db
    else AfterRecovery(AfterRecoveries(db, ids[..|ids| - 1], now, base), ids[|ids| - 1], now, base)
  }

  lemma RecoveriesStep(db: Db, ids: seq<Id>, n: nat, now: Time, base: real)
    requires n < |ids|
    ensures AfterRecoveries(db, ids[..n + 1], now, base)
         == AfterRecovery(AfterRecoveries(db, ids[..n], now, base), ids[n], now, base)
  {
    assert ids[..n + 1][..n] == ids[..n];
  }

  /** What is stale after a batch was stale before it and was not in it. */
  lemma {:induction false} RecoveriesClear(db: Db, ids: seq<Id>, now: Time, base: real)
    requires ValidDb(db)
    ensures var after := AfterRecoveries(db, ids, now, base);
      && ValidDb(after)
      && forall id :: id in after.jobs && Stale(after.jobs[id], now) ==>
           id !in ids && id in db.jobs && after.jobs[id] == db.jobs[id]
  {
    if ids != [] {
      var last := |ids| - 1;
      RecoveriesClear(db, ids[..last], now, base);
      var before := AfterRecoveries(db, ids[..last], now, base);
      if ids[last] in before.jobs && Stale(before.jobs[ids[last]], now) {
        FailureKeepsValid(before, ids[last], true, now, base);
      }
    }
  }

  /** A batch fails each stale row in it, as retryable, and leaves all others alone. */
  lemma {:induction false} RecoveriesDecide(db: Db, ids: seq<Id>, now: Time, base: real, id: Id)
    requires JobsValid(db.jobs) && id in db.jobs
    ensures var after := AfterRecoveries(db, ids, now, base);
      && JobsValid(after.jobs) && id in after.jobs
      && (id in ids && Stale(db.jobs[id], now) ==> RowFailed(db.jobs[id], after.jobs[id], true, now, base))
      && (!(id in ids && Stale(db.jobs[id], now)) ==> after.jobs[id] == db.jobs[id])
  {
    hide RowFailed;
    if ids != [] {
      var last := |ids| - 1;
      RecoveriesDecide(db, ids[..last], now, base, id);
      var before := AfterRecoveries(db, ids[..last], now, base);
      RecoveryDecides(before, ids[last], now, base);
      assert id in ids <==> id in ids[..last] || id == ids[last];
      if id in ids[..last] && Stale(db.jobs[id], now) {
        FailedIsNotStale(db.jobs[id], before.jobs[id], now, base);
      }
    }
  }

  lemma FailedIsNotStale(j: Job, j': Job, now: Time, base: real)
    requires RowFailed(j, j', true, now, base)
    ensures !Stale(j', now)
  {
  }

  lemma RecoveryDecides(db: Db, id: Id, now: Time, base: real)
    requires JobsValid(db.jobs)
    ensures var after := AfterRecovery(db, id, now, base);
      && JobsValid(after.jobs)
      && (if id in db.jobs && Stale(db.jobs[id], now)
          then FailureRecorded(db, after, id, true, now, base) else after == db)
  {
    hide FailureRecorded, RetryDelay;
    if id in db.jobs && Stale(db.jobs[id], now) {
      FailureDecides(db, id, true, now, base);
    }
  }

  lemma FailureKeepsValid(db: Db, id: Id, retryable: bool, now: Time, base: real)
    requires ValidDb(db) && id in db.jobs && db.jobs[id].status == Running
    ensures ValidDb(AfterFailure(db, id, retryable, now, base))
  {
  }

  // ----- The same transactions on the stored rows -----

  class Repository {
    var jobs: map<Id, Job>
    var outbox: Outbox
    var snapshots: map<Id, string>

    ghost function Contents(): Db
      reads this
    {
      Db(jobs, outbox, snapshots)
    }

    ghost predicate Valid()
      reads this
    {
      ValidDb(Contents())
    }

    constructor ()
      ensures Valid() && Contents() == Db(map[], Outbox(map[], 0), map[])
    {
      jobs, outbox, snapshots := map[], Outbox(map[], 0), map[];
    }

    /** One job per idempotency key: a second request gets the first job, or is refused. */
    method Create(id: Id, key: Option<string>, fingerprint: string, maxAttempts: nat, now: Time)
      returns (outcome: CreateOutcome)
      requires Valid() && id !in jobs && id !in snapshots && maxAttempts > 0
      modifies this
      ensures Valid()
      ensures Answers(old(jobs), key, fingerprint, outcome)
      ensures outcome.Created? ==>
        && Contents() == AfterCreate(old(Contents()), id, NewJob(key, fingerprint, maxAttempts), now)
        && Requested(jobs[id], key, fingerprint, maxAttempts)
        && outbox.events == old(outbox).events[old(outbox).next := Event(id, 0, now, 0, false)]
      ensures !outcome.Created? ==> Contents() == old(Contents())
    {
      if key.Some? {
        var rest := jobs.Keys;
        while rest != {}
          invariant rest <= jobs.Keys
          invariant forall e :: e in jobs && e !in rest ==> jobs[e].key != key
        {
          var e :| e in rest;
          if jobs[e].key == key {
            return if jobs[e].fingerprint == fingerprint then Reused(e) else Conflict;
          }
          rest := rest - {e};
        }
      }
      jobs := jobs[id := NewJob(key, fingerprint, maxAttempts)];
      outbox := AddEvent(outbox, id, 0, now);
      outcome := Created;
    }

    method Claim(id: Id, w: WorkerId, now: Time, lease: real) returns (claimed: Option<Job>)
      requires Valid()
      modifies this
      ensures Valid()
      ensures claimed.Some? <==> CanClaim(old(Contents()), id, now)
      ensures claimed.Some? ==>
        && Contents() == AfterClaim(old(Contents()), id, w, now, lease)
        && claimed.value == jobs[id]
        && jobs == old(jobs)[id := old(jobs)[id].(
             status := Running, attempts := old(jobs)[id].attempts + 1, worker := Some(w),
             startedAt := Some(now), lease := Some(now + lease), nextAttempt := None)]
      ensures claimed.None? ==> Contents() == old(Contents())
    {
      if id !in jobs {
        return None;
      }
      var record := jobs[id];
      var current := record.status;
      if current == RetryWait {
        if record.nextAttempt.None? || record.nextAttempt.value > now {
          return None;
        }
        assert Legal(current, Queued);
        record := record.(status := Queued);
        current := Queued;
      }
      if current != Queued {
        return None;
      }
      assert Legal(current, Running);
      record := record.(status := Running);
      record := record.(attempts := record.attempts + 1);
      record := record.(startedAt := Some(now));
      record := record.(worker := Some(w));
      record := record.(lease := Some(now + lease));
      record := record.(nextAttempt := None);
      jobs := jobs[id := record];
      claimed := Some(record);
    }

    method RenewLease(id: Id, w: WorkerId, now: Time, lease: real) returns (renewed: bool)
      requires Valid()
      modifies this
      ensures Valid()
      ensures renewed == Owns(old(Contents()), id, w)
      ensures Contents() ==
        if renewed then AfterRenew(old(Contents()), id, now, lease) else old(Contents())
    {
      if id !in jobs || jobs[id].status != Running || jobs[id].worker != Some(w) {
        return false;
      }
      jobs := jobs[id := jobs[id].(lease := Some(now + lease))];
      renewed := true;
    }

    /** True exactly when the job is completed afterwards, by this call or by an earlier one. */
    method Complete(id: Id, w: WorkerId, hash: string) returns (done: bool)
      requires Valid()
      modifies this
      ensures Valid()
      ensures done == (id in jobs && jobs[id].status == Completed)
      ensures Contents() ==
        if Owns(old(Contents()), id, w) then AfterComplete(old(Contents()), id, hash)
        else old(Contents())
      ensures Owns(old(Contents()), id, w) ==>
        && snapshots == old(snapshots)[id := hash]
        && outbox == old(outbox)
        && jobs == old(jobs)[id := old(jobs)[id].(
             status := Completed, snapshotCreated := true, worker := None, lease := None)]
    {
      if id !in jobs {
        return false;
      }
      var record := jobs[id];
      if record.status == Completed {
        return true;
      }
      if record.status != Running || record.worker != Some(w) {
        return false;
      }
      assert Legal(record.status, Completed);
      snapshots := snapshots[id := hash];
      record := record.(status := Completed);
      record := record.(snapshotCreated := true);
      record := record.(worker := None);
      record := record.(lease := None);
      jobs := jobs[id := record];
      done := true;
    }

    method RecordFailure(id: Id, w: WorkerId, retryable: bool, now: Time, base: real)
      returns (status: Option<Status>)
      requires Valid()
      modifies this
      ensures Valid()
      ensures status.Some? <==> Owns(old(Contents()), id, w)
      ensures status.Some? ==>
        && Contents() == AfterFailure(old(Contents()), id, retryable, now, base)
        && FailureRecorded(old(Contents()), Contents(), id, retryable, now, base)
        && status.value == jobs[id].status
      ensures status.None? ==> Contents() == old(Contents())
    {
      if id !in jobs || jobs[id].status != Running || jobs[id].worker != Some(w) {
        return None;
      }
      FailRow(id, retryable, now, base);
      status := Some(jobs[id].status);
    }

    /** The tail shared by `record_failure` and `recover_stale`. */
    method FailRow(id: Id, retryable: bool, now: Time, base: real)
      requires Valid() && id in jobs && jobs[id].status == Running
      modifies this
      ensures Valid() && Contents() == AfterFailure(old(Contents()), id, retryable, now, base)
      ensures FailureRecorded(old(Contents()), Contents(), id, retryable, now, base)
      ensures jobs.Keys == old(jobs).Keys && jobs[id].status != Running
      ensures forall other :: other in jobs && other != id ==> jobs[other] == old(jobs)[other]
    {
      hide KeysUnique, SnapshotsMatch, RetryDelay, RowFailed, FailureRecorded;
      FailureDecides(Contents(), id, retryable, now, base);
      FailureKeepsValid(Contents(), id, retryable, now, base);
      var record := jobs[id];
      record := record.(worker := None);
      record := record.(lease := None);
      if retryable && record.attempts < record.maxAttempts {
        assert Legal(record.status, RetryWait);
        var next := now + RetryDelay(record.attempts, base);
        record := record.(status := RetryWait);
        record := record.(nextAttempt := Some(next));
        outbox := AddEvent(outbox, id, record.attempts, next);
      } else {
        assert Legal(record.status, Failed);
        record := record.(status := Failed);
        record := record.(nextAttempt := None);
      }
      jobs := jobs[id := record];
    }

    /** The query of `recover_stale`: expired leases, oldest first, rows locked elsewhere skipped. */
    method SelectStale(now: Time, limit: nat, locked: set<Id>) returns (ids: seq<Id>)
      ensures |ids| <= limit
      ensures forall k :: 0 <= k < |ids| ==> ids[k] in jobs && Stale(jobs[ids[k]], now)
      ensures forall k :: 0 <= k < |ids| ==>
        jobs[ids[k]].status == Running && jobs[ids[k]].lease.Some? && jobs[ids[k]].lease.value < now
      ensures forall id ::
        id in jobs && jobs[id].status == Running && jobs[id].lease.Some? && jobs[id].lease.value < now ==>
          id in ids || id in locked || |ids| == limit
      ensures forall i, k :: 0 <= i < k < |ids| ==> ids[i] != ids[k]
      ensures forall id :: id in jobs && Stale(jobs[id], now) && id !in locked && id !in ids ==>
        |ids| == limit && forall k :: 0 <= k < |ids| ==> LeaseOf(jobs[ids[k]]) <= LeaseOf(jobs[id])
    {
      ids := [];
      var stale := set id | id in jobs && Stale(jobs[id], now) && id !in locked;
      while |ids| < limit && stale != {}
        invariant |ids| <= limit
        invariant forall k :: 0 <= k < |ids| ==>
          ids[k] in jobs && Stale(jobs[ids[k]], now) && ids[k] !in stale
        invariant forall i, k :: 0 <= i < k < |ids| ==> ids[i] != ids[k]
        invariant forall id :: id in stale ==> id in jobs && Stale(jobs[id], now)
        invariant forall id :: id in jobs && Stale(jobs[id], now) && id !in locked ==>
          id in stale || id in ids
        invariant forall k, id :: 0 <= k < |ids| && id in stale ==>
          LeaseOf(jobs[ids[k]]) <= LeaseOf(jobs[id])
        decreases stale
      {
        var oldest := OldestLease(stale);
        ids := ids + [oldest];
        stale := stale - {oldest};
      }
    }

    method RecoverStale(now: Time, base: real, limit: nat, locked: set<Id>) returns (ids: seq<Id>)
      requires Valid()
      modifies this
      ensures Valid() && |ids| <= limit
      ensures Contents() == AfterRecoveries(old(Contents()), ids, now, base)
      ensures jobs.Keys == old(jobs).Keys
      ensures forall id :: id in jobs ==>
        if id in ids then RowFailed(old(jobs)[id], jobs[id], true, now, base) else jobs[id] == old(jobs)[id]
      ensures forall id :: id in jobs && Stale(jobs[id], now) ==> id in locked || |ids| == limit
    {
      ids := SelectStale(now, limit, locked);
      RecoveriesClear(Contents(), ids, now, base);
      forall id | id in jobs
        ensures id in AfterRecoveries(Contents(), ids, now, base).jobs
        ensures if id in ids then RowFailed(jobs[id], AfterRecoveries(Contents(), ids, now, base).jobs[id], true, now, base)
                else AfterRecoveries(Contents(), ids, now, base).jobs[id] == jobs[id]
      {
        RecoveriesDecide(Contents(), ids, now, base, id);
      }
      RecoverBatch(ids, now, base);
    }

    method RecoverBatch(ids: seq<Id>, now: Time, base: real)
      requires Valid()
      requires forall k :: 0 <= k < |ids| ==> ids[k] in jobs && Stale(jobs[ids[k]], now)
      requires forall i, k :: 0 <= i < k < |ids| ==> ids[i] != ids[k]
      modifies this
      ensures Valid() && Contents() == AfterRecoveries(old(Contents()), ids, now, base)
      ensures jobs.Keys == old(jobs).Keys
    {
      ghost var before := Contents();
      for n := 0 to |ids|
        invariant Valid() && jobs.Keys == before.jobs.Keys
        invariant Contents() == AfterRecoveries(before, ids[..n], now, base)
        invariant forall k :: n <= k < |ids| ==> jobs[ids[k]] == before.jobs[ids[k]]
      {
        RecoveriesStep(before, ids, n, now, base);
        FailRow(ids[n], true, now, base);
      }
      assert ids[..|ids|] == ids;
    }

    method OldestLease(stale: set<Id>) returns (oldest: Id)
      requires stale != {} && stale <= jobs.Keys
      ensures oldest in stale
      ensures forall id :: id in stale ==> LeaseOf(jobs[oldest]) <= LeaseOf(jobs[id])
    {
      oldest :| oldest in stale;
      var rest := stale - {oldest};
      while rest != {}
        invariant rest <= stale && oldest in stale
        invariant forall id :: id in stale && id !in rest ==>
          LeaseOf(jobs[oldest]) <= LeaseOf(jobs[id])
      {
        var id :| id in rest;
        if LeaseOf(jobs[id]) < LeaseOf(jobs[oldest]) {
          oldest := id;
        }
        rest := rest - {id};
      }
    }
  }
}
