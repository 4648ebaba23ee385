/**
  Evaluation jobs end to end: the store, the outbox publishers, the queue, and workers running
  `process_message` (app/worker/service.py). A run is any sequence of enabled steps, so crashes,
  lost replies, duplicate publications and duplicate deliveries occur in every possible order.

  `starts` records when each attempt of a job was claimed. Nothing reads it; it is there to state
  the backoff theorem.
*/
module JobProtocol {
  import opened Core
  import opened Retry
  import opened Delivery
  import opened JobRepository

  datatype Policy = Policy(lease: real, base: real)

  /** Settings refuses nonpositive values (app/core/config.py). */
  predicate ValidPolicy(p: Policy) { p.lease > 0.0 && p.base > 0.0 }

  /** What a worker remembers while it evaluates: the attempt, and the last clock reading it used. */
  datatype Attempt = Attempt(id: Id, number: nat, seenAt: Time)

  datatype System = System(
    jobs: map<Id, Job>,
    snapshots: map<Id, string>,
    mail: Mail,
    running: map<WorkerId, Attempt>,
    starts: map<Id, seq<Time>>
  )

  function Store(s: System): Db { Db(s.jobs, s.mail.outbox, s.snapshots) }

  function WithStore(s: System, db: Db): System {
    s.(jobs := db.jobs, snapshots := db.snapshots, mail := s.mail.(outbox := db.outbox))
  }

  function RowViews(jobs: map<Id, Job>): Views {
    map id | id in jobs :: ViewOf(jobs[id])
  }

  function Start(clock: Time): System {
    System(map[], map[], EmptyMail(clock), map[], map[])
  }

  // ----- Steps -----

  datatype Step =
    | Post(mail: MailStep)
    | Create(id: Id, key: Option<string>, fingerprint: string, maxAttempts: nat)
    | Look(worker: WorkerId)
    | Claim(worker: WorkerId, now: Time)
    | Renew(worker: WorkerId, now: Time)
    | Complete(worker: WorkerId, hash: string, now: Time)
    | Fail(worker: WorkerId, retryable: bool, now: Time)
    | Abandon(worker: WorkerId)
    | Recover(id: Id, now: Time)

  /** The worker has a message and has not yet claimed or settled it. */
  predicate Receiving(s: System, w: WorkerId) {
    w in s.mail.held && !s.mail.held[w].settled && w !in s.running
  }

  /** A transaction uses a clock reading that may be old, but not older than the worker's last one. */
  predicate Reading(s: System, w: WorkerId, now: Time) {
    w in s.running && w in s.mail.held && s.running[w].seenAt <= now <= s.mail.clock
  }

  predicate Enabled(s: System, step: Step) {
    match step
    case Post(m) =>
      MailEnabled(s.mail, m) && ((m.Acknowledge? || m.Drop?) ==> m.worker !in s.running)
    case Create(id, _, _, maxAttempts) => id !in s.jobs && id !in s.snapshots && 0 < maxAttempts
    case Look(w) =>
      && Receiving(s, w)
      && var item := s.mail.held[w].message.item;
      item !in s.jobs || s.jobs[item].status !in {Queued, RetryWait}
    case Claim(w, now) =>
      Receiving(s, w) && s.mail.held[w].message.enqueuedAt <= now <= s.mail.clock
    case Renew(w, now) => Reading(s, w, now)
    case Complete(w, _, now) => Reading(s, w, now)
    case Fail(w, _, now) => Reading(s, w, now)
    case Abandon(w) => w in s.running && w in s.mail.held
    case Recover(id, now) => id in s.jobs && Stale(s.jobs[id], now) && now <= s.mail.clock
  }

  /** `transition_recorded`: the message will be acknowledged. */
  function Finish(s: System, w: WorkerId): System
    requires w in s.mail.held
  {
    s.(running := s.running - {w}, mail := Settle(s.mail, w))
  }

  /** The worker dies or gives up; the message stays unacknowledged. */
  function Quit(s: System, w: WorkerId): System {
    s.(running := s.running - {w}, mail := s.mail.(held := s.mail.held - {w}))
  }

  function Apply(p: Policy, s: System, step: Step): System
    requires Enabled(s, step)
  {
    match step
    case Post(m) => s.(mail := MailApply(p.base, s.mail, m))
    case Create(id, key, fingerprint, maxAttempts) =>
      if NewKey(s.jobs, key) then
        WithStore(s, AfterCreate(Store(s), id, NewJob(key, fingerprint, maxAttempts), s.mail.clock))
          .(starts := s.starts[id := []])
      else s
    case Look(w) => s.(mail := Settle(s.mail, w))
    case Claim(w, now) =>
      var item := s.mail.held[w].message.item;
      if CanClaim(Store(s), item, now) then
        var s' := WithStore(s, AfterClaim(Store(s), item, w, now, p.lease));
        s'.(running := s.running[w := Attempt(item, s'.jobs[item].attempts, now)],
            starts := s.starts[item := Started(s, item) + [now]])
      else s.(mail := Settle(s.mail, w))
    case Renew(w, now) =>
      var a := s.running[w];
      var s' := if Owns(Store(s), a.id, w) then WithStore(s, AfterRenew(Store(s), a.id, now, p.lease))
                else s;
      s'.(running := s.running[w := a.(seenAt := now)])
    case Complete(w, hash, _) =>
      var id := s.running[w].id;
      if id in s.jobs && s.jobs[id].status == Completed then Finish(s, w)
      else if Owns(Store(s), id, w) && id !in s.snapshots
      then Finish(WithStore(s, AfterComplete(Store(s), id, hash)), w)
      else Quit(s, w)
    case Fail(w, retryable, now) =>
      var id := s.running[w].id;
      if Owns(Store(s), id, w) && s.jobs[id].attempts > 0
      then Finish(WithStore(s, AfterFailure(Store(s), id, retryable, now, p.base)), w)
      else Quit(s, w)
    case Abandon(w) => Quit(s, w)
    case Recover(id, now) => WithStore(s, AfterRecovery(Store(s), id, now, p.base))
  }

  function Started(s: System, id: Id): seq<Time> {
    if id in s.starts then s.starts[id] else []
  }

  predicate Runnable(p: Policy, s: System, steps: seq<Step>)
    decreases steps
  {
    steps == [] || (Enabled(s, steps[0]) && Runnable(p, Apply(p, s, steps[0]), steps[1..]))
  }

  function Exec(p: Policy, s: System, steps: seq<Step>): System
    requires Runnable(p, s, steps)
    decreases steps
  {
    if steps == [] then s else Exec(p, Apply(p, s, steps[0]), steps[1..])
  }

  // ----- Invariant -----

  /** A worker's attempt is the row's current one as long as the row names that worker. */
  predicate AttemptOk(jobs: map<Id, Job>, m: Mail, w: WorkerId, a: Attempt) {
    && w in m.held
    && !m.held[w].settled
    && m.held[w].message.item == a.id
    && m.held[w].message.tag < a.number
    && a.seenAt <= m.clock
    && a.id in jobs
    && a.number <= jobs[a.id].attempts
    && (jobs[a.id].worker == Some(w) ==>
          && jobs[a.id].attempts == a.number
          && jobs[a.id].startedAt.Some?
          && jobs[a.id].startedAt.value <= a.seenAt)
  }

  predicate AttemptsOk(jobs: map<Id, Job>, m: Mail, running: map<WorkerId, Attempt>) {
    forall w :: w in running ==> AttemptOk(jobs, m, w, running[w])
  }

  /** Consecutive attempts are separated by the delay due after the earlier one. */
  predicate Spaced(base: real, starts: seq<Time>) {
    forall k :: 0 < k < |starts| ==> starts[k - 1] + RetryDelay(k, base) <= starts[k]
  }

  predicate HistoryOk(base: real, j: Job, starts: seq<Time>) {
    && |starts| == j.attempts
    && Spaced(base, starts)
    && (j.status == Running && j.startedAt.Some? && j.lease.Some? && j.attempts > 0 ==>
          j.startedAt.value == starts[j.attempts - 1] && j.startedAt.value <= j.lease.value)
    && (j.status == RetryWait && j.nextAttempt.Some? && j.attempts > 0 ==>
          starts[j.attempts - 1] + RetryDelay(j.attempts, base) <= j.nextAttempt.value)
  }

  predicate HistoriesOk(base: real, jobs: map<Id, Job>, starts: map<Id, seq<Time>>) {
    && starts.Keys == jobs.Keys
    && forall id :: id in jobs ==> HistoryOk(base, jobs[id], starts[id])
  }

  /** A lease runs from the last clock reading of its worker, and never beyond a lease from now. */
  predicate LeasesOk(lease: real, jobs: map<Id, Job>, clock: Time, running: map<WorkerId, Attempt>) {
    && (forall id :: id in jobs && jobs[id].lease.Some? ==> jobs[id].lease.value <= clock + lease)
    && (forall w :: w in running && running[w].id in jobs && jobs[running[w].id].worker == Some(w) ==>
          jobs[running[w].id].lease == Some(running[w].seenAt + lease))
  }

  predicate MailOk(jobs: map<Id, Job>, m: Mail) {
    Delivery.Inv(RowViews(jobs), m)
  }

  predicate Inv(p: Policy, s: System) {
    && ValidDb(Store(s))
    && MailOk(s.jobs, s.mail)
    && AttemptsOk(s.jobs, s.mail, s.running)
    && HistoriesOk(p.base, s.jobs, s.starts)
    && LeasesOk(p.lease, s.jobs, s.mail.clock, s.running)
  }

  // ----- What a change of one row keeps -----

  lemma MailRowStep(jobs: map<Id, Job>, m: Mail, id: Id, j: Job, ready: Time)
    requires MailOk(jobs, m)
    requires if id in jobs then RowAdvances(ViewOf(jobs[id]), ViewOf(j)) && ViewOf(j) != ViewOf(jobs[id])
             else j.status == Queued
    requires ViewOf(j).phase.Waiting? ==> Open(ViewOf(j).phase, ready)
    ensures MailOk(jobs[id := j],
                   if ViewOf(j).phase.Waiting?
                   then m.(outbox := AddEvent(m.outbox, id, j.attempts, ready)) else m)
  {
    hide Delivery.Inv;
    RowStepKeepsInv(RowViews(jobs), m, id, ViewOf(j), ready);
    assert RowViews(jobs[id := j]) == RowViews(jobs)[id := ViewOf(j)];
  }

  lemma HoldIsBehind(jobs: map<Id, Job>, m: Mail, w: WorkerId)
    requires MailOk(jobs, m) && w in m.held
    ensures var message := m.held[w].message;
      && message.item in jobs
      && message.tag <= jobs[message.item].attempts
      && message.enqueuedAt <= m.clock
  {
    assert MessageOk(RowViews(jobs), m, m.held[w].id, m.held[w].message);
  }

  lemma AttemptsRowStep(jobs: map<Id, Job>, m: Mail, running: map<WorkerId, Attempt>, id: Id, j: Job)
    requires AttemptsOk(jobs, m, running)
    requires id in jobs ==>
      && jobs[id].attempts == j.attempts
      && (j.worker.None? || (j.worker == jobs[id].worker && j.startedAt == jobs[id].startedAt))
    ensures AttemptsOk(jobs[id := j], m, running)
  {
    forall w | w in running ensures AttemptOk(jobs[id := j], m, w, running[w]) {
      assert AttemptOk(jobs, m, w, running[w]);
    }
  }

  lemma StoreRowStep(db: Db, id: Id, j: Job, snapshots: map<Id, string>)
    requires ValidDb(db) && ValidJob(j)
    requires if id in db.jobs then j.key == db.jobs[id].key
             else forall e :: e in db.jobs ==> j.key.None? || db.jobs[e].key != j.key
    requires forall e :: e in db.jobs && e != id ==> (e in snapshots <==> e in db.snapshots)
    requires id in snapshots <==> j.status == Completed
    ensures JobsValid(db.jobs[id := j]) && SnapshotsMatch(db.jobs[id := j], snapshots)
    ensures KeysUnique(db.jobs[id := j])
  {
  }

  lemma HistoriesRowStep(base: real, jobs: map<Id, Job>, starts: map<Id, seq<Time>>, id: Id, j: Job,
                         times: seq<Time>)
    requires HistoriesOk(base, jobs, starts) && HistoryOk(base, j, times)
    ensures HistoriesOk(base, jobs[id := j], starts[id := times])
  {
  }

  lemma MailUnlessOutbox(jobs: map<Id, Job>, m: Mail, m': Mail, running: map<WorkerId, Attempt>)
    requires AttemptsOk(jobs, m, running) && m'.held == m.held && m'.clock == m.clock
    ensures AttemptsOk(jobs, m', running)
  {
    forall w | w in running ensures AttemptOk(jobs, m', w, running[w]) {
      assert AttemptOk(jobs, m, w, running[w]);
    }
  }

  lemma LeasesRowStep(lease: real, jobs: map<Id, Job>, clock: Time, running: map<WorkerId, Attempt>, id: Id, j: Job)
    requires LeasesOk(lease, jobs, clock, running) && j.worker.None? && j.lease.None?
    ensures LeasesOk(lease, jobs[id := j], clock, running)
  {
  }

  /** A later clock, and workers that stop, leave the leases of the others right. */
  lemma LeasesLater(lease: real, jobs: map<Id, Job>, clock: Time, running: map<WorkerId, Attempt>,
                    clock': Time, running': map<WorkerId, Attempt>)
    requires LeasesOk(lease, jobs, clock, running) && clock <= clock'
    requires forall w :: w in running' ==> w in running && running'[w] == running[w]
    ensures LeasesOk(lease, jobs, clock', running')
  {
  }

  /** The worker's own row is leased from the reading it has just used. */
  lemma LeasesFrom(lease: real, jobs: map<Id, Job>, clock: Time, running: map<WorkerId, Attempt>,
                   w: WorkerId, a: Attempt, j: Job)
    requires LeasesOk(lease, jobs, clock, running) && a.seenAt <= clock
    requires j.worker == Some(w) && j.lease == Some(a.seenAt + lease)
    ensures LeasesOk(lease, jobs[a.id := j], clock, running[w := a])
  {
  }

  lemma RowFacts(p: Policy, s: System, id: Id)
    requires Inv(p, s) && id in s.jobs
    ensures id in s.starts && ValidJob(s.jobs[id]) && HistoryOk(p.base, s.jobs[id], s.starts[id])
    ensures id in s.snapshots <==> s.jobs[id].status == Completed
  {
    hide MailOk, AttemptsOk, LeasesOk;
  }

  lemma WorkerFacts(p: Policy, s: System, w: WorkerId)
    requires Inv(p, s) && w in s.running
    ensures AttemptOk(s.jobs, s.mail, w, s.running[w])
  {
    hide MailOk, ValidDb, HistoriesOk, LeasesOk;
  }

  // ----- Every step keeps the invariant -----

  lemma PostKeepsInv(p: Policy, s: System, m: MailStep)
    requires ValidPolicy(p) && Inv(p, s) && Enabled(s, Post(m))
    ensures Inv(p, Apply(p, s, Post(m)))
  {
    hide Delivery.Inv, ValidJob, HistoriesOk, KeysUnique, LeasesOk;
    MailKeepsInv(RowViews(s.jobs), p.base, s.mail, m);
    var m' := MailApply(p.base, s.mail, m);
    LeasesLater(p.lease, s.jobs, s.mail.clock, s.running, m'.clock, s.running);
    forall w | w in s.running ensures AttemptOk(s.jobs, m', w, s.running[w]) {
      assert AttemptOk(s.jobs, s.mail, w, s.running[w]);
    }
  }

  lemma CreateKeepsInv(p: Policy, s: System, step: Step)
    requires ValidPolicy(p) && Inv(p, s) && step.Create? && Enabled(s, step)
    ensures Inv(p, Apply(p, s, step))
  {
    hide MailOk, AttemptsOk, JobsValid, KeysUnique, SnapshotsMatch, HistoriesOk, LeasesOk;
    var job := NewJob(step.key, step.fingerprint, step.maxAttempts);
    var s' := Apply(p, s, step);
    if NewKey(s.jobs, step.key) {
      StoreRowStep(Store(s), step.id, job, s.snapshots);
      MailRowStep(s.jobs, s.mail, step.id, job, s.mail.clock);
      AttemptsRowStep(s.jobs, s.mail, s.running, step.id, job);
      MailUnlessOutbox(s'.jobs, s.mail, s'.mail, s.running);
      HistoriesRowStep(p.base, s.jobs, s.starts, step.id, job, []);
      LeasesRowStep(p.lease, s.jobs, s.mail.clock, s.running, step.id, job);
    }
  }

  lemma LookKeepsInv(p: Policy, s: System, w: WorkerId)
    requires Inv(p, s) && Enabled(s, Look(w))
    ensures Inv(p, Apply(p, s, Look(w)))
  {
    hide Delivery.Inv, ValidJob, HistoriesOk, KeysUnique, SnapshotsMatch, LeasesOk;
    HoldIsBehind(s.jobs, s.mail, w);
    SettleRefused(s.jobs, s.mail, w, s.mail.clock);
    AttemptsOthers(s.jobs, s.mail, s.running, w);
    assert s.running - {w} == s.running;
  }

  /** Deciding to acknowledge is safe whenever the row could not be claimed. */
  lemma SettleRefused(jobs: map<Id, Job>, m: Mail, w: WorkerId, now: Time)
    requires MailOk(jobs, m) && w in m.held && m.held[w].message.enqueuedAt <= now
    requires m.held[w].message.item in jobs
    requires !Open(ViewOf(jobs[m.held[w].message.item]).phase, now)
    ensures MailOk(jobs, Settle(m, w))
  {
    hide Delivery.Inv;
    RefusedMeansPast(RowViews(jobs), m, w, now);
    SettleKeepsInv(RowViews(jobs), m, w);
  }

  /** Other workers' attempts do not depend on the message held by `w`. */
  lemma AttemptsOthers(jobs: map<Id, Job>, m: Mail, running: map<WorkerId, Attempt>, w: WorkerId)
    requires AttemptsOk(jobs, m, running)
    ensures AttemptsOk(jobs, m.(held := m.held - {w}), running - {w})
    ensures w in m.held ==> AttemptsOk(jobs, Settle(m, w), running - {w})
  {
    var others := running - {w};
    forall x | x in others
      ensures AttemptOk(jobs, m.(held := m.held - {w}), x, others[x])
      ensures w in m.held ==> AttemptOk(jobs, Settle(m, w), x, others[x])
    {
      assert AttemptOk(jobs, m, x, running[x]);
    }
  }

  lemma ClaimKeepsInv(p: Policy, s: System, w: WorkerId, now: Time)
    requires ValidPolicy(p) && Inv(p, s) && Enabled(s, Claim(w, now))
    ensures Inv(p, Apply(p, s, Claim(w, now)))
  {
    hide MailOk, JobsValid, KeysUnique, SnapshotsMatch, HistoriesOk, AttemptsOk, LeasesOk;
    HoldIsBehind(s.jobs, s.mail, w);
    var item := s.mail.held[w].message.item;
    RowFacts(p, s, item);
    if CanClaim(Store(s), item, now) {
      var job := ClaimedJob(s.jobs[item], w, now, p.lease);
      StoreRowStep(Store(s), item, job, s.snapshots);
      MailRowStep(s.jobs, s.mail, item, job, now);
      ClaimKeepsAttempts(s, w, now, p.lease);
      ClaimKeepsHistory(p, s, item, w, now);
      LeasesFrom(p.lease, s.jobs, s.mail.clock, s.running, w, Attempt(item, job.attempts, now), job);
      assert s.mail.(outbox := s.mail.outbox) == s.mail;
    } else {
      SettleRefused(s.jobs, s.mail, w, now);
      AttemptsOthers(s.jobs, s.mail, s.running, w);
      assert s.running - {w} == s.running;
    }
  }

  lemma ClaimKeepsAttempts(s: System, w: WorkerId, now: Time, lease: real)
    requires Receiving(s, w) && now <= s.mail.clock && AttemptsOk(s.jobs, s.mail, s.running)
    requires s.mail.held[w].message.item in s.jobs
    requires s.mail.held[w].message.tag <= s.jobs[s.mail.held[w].message.item].attempts
    ensures var item := s.mail.held[w].message.item;
      var job := ClaimedJob(s.jobs[item], w, now, lease);
      AttemptsOk(s.jobs[item := job], s.mail, s.running[w := Attempt(item, job.attempts, now)])
  {
    var item := s.mail.held[w].message.item;
    var job := ClaimedJob(s.jobs[item], w, now, lease);
    forall x | x in s.running ensures AttemptOk(s.jobs[item := job], s.mail, x, s.running[x]) {
      assert AttemptOk(s.jobs, s.mail, x, s.running[x]);
    }
  }

  /** The next attempt starts at or after the deadline, which was set from the previous start. */
  lemma ClaimKeepsHistory(p: Policy, s: System, id: Id, w: WorkerId, now: Time)
    requires ValidPolicy(p) && HistoriesOk(p.base, s.jobs, s.starts)
    requires CanClaim(Store(s), id, now) && ValidJob(s.jobs[id])
    ensures var job := ClaimedJob(s.jobs[id], w, now, p.lease);
      HistoriesOk(p.base, s.jobs[id := job], s.starts[id := Started(s, id) + [now]])
  {
    assert HistoryOk(p.base, s.jobs[id], s.starts[id]);
    HistoriesRowStep(p.base, s.jobs, s.starts, id, ClaimedJob(s.jobs[id], w, now, p.lease),
                     s.starts[id] + [now]);
  }

  lemma RenewKeepsInv(p: Policy, s: System, w: WorkerId, now: Time)
    requires ValidPolicy(p) && Inv(p, s) && Enabled(s, Renew(w, now))
    ensures Inv(p, Apply(p, s, Renew(w, now)))
  {
    hide JobsValid, KeysUnique, SnapshotsMatch, HistoriesOk, Delivery.Inv, AttemptsOk, Spaced,
         RetryDelay, LeasesOk;
    var s' := Apply(p, s, Renew(w, now));
    var id := s.running[w].id;
    WorkerFacts(p, s, w);
    RowFacts(p, s, id);
    if Owns(Store(s), id, w) {
      var job := s.jobs[id].(lease := Some(now + p.lease));
      StoreRowStep(Store(s), id, job, s.snapshots);
      HistoriesRowStep(p.base, s.jobs, s.starts, id, job, s.starts[id]);
      assert s.starts[id := s.starts[id]] == s.starts;
      AttemptsRowStep(s.jobs, s.mail, s.running, id, job);
      assert RowViews(s'.jobs) == RowViews(s.jobs);
      LeasesFrom(p.lease, s.jobs, s.mail.clock, s.running, w, s.running[w].(seenAt := now), job);
    } else {
      LeasesForeign(p.lease, s.jobs, s.mail.clock, s.running, w, s.running[w].(seenAt := now));
    }
    RenewKeepsAttempts(s'.jobs, s.mail, s.running, w, now);
    assert s'.mail == s.mail;
  }

  lemma LeasesForeign(lease: real, jobs: map<Id, Job>, clock: Time, running: map<WorkerId, Attempt>,
                      w: WorkerId, a: Attempt)
    requires LeasesOk(lease, jobs, clock, running)
    requires a.id in jobs ==> jobs[a.id].worker != Some(w)
    ensures LeasesOk(lease, jobs, clock, running[w := a])
  {
  }

  lemma RenewKeepsAttempts(jobs: map<Id, Job>, m: Mail, running: map<WorkerId, Attempt>, w: WorkerId,
                           now: Time)
    requires AttemptsOk(jobs, m, running) && w in running && running[w].seenAt <= now <= m.clock
    ensures AttemptsOk(jobs, m, running[w := running[w].(seenAt := now)])
  {
  }

  lemma FinishKeepsInv(p: Policy, s: System, w: WorkerId)
    requires Inv(p, s) && w in s.running
    ensures Inv(p, Finish(s, w))
  {
    hide Delivery.Inv, HistoriesOk, ValidDb, AttemptsOk, LeasesOk;
    WorkerFacts(p, s, w);
    SettleKeepsInv(RowViews(s.jobs), s.mail, w);
    AttemptsOthers(s.jobs, s.mail, s.running, w);
    LeasesLater(p.lease, s.jobs, s.mail.clock, s.running, s.mail.clock, s.running - {w});
  }

  lemma QuitKeepsInv(p: Policy, s: System, w: WorkerId)
    requires ValidPolicy(p) && Inv(p, s) && w in s.mail.held
    ensures Inv(p, Quit(s, w))
  {
    hide Delivery.Inv, HistoriesOk, ValidDb, AttemptsOk, LeasesOk;
    MailKeepsInv(RowViews(s.jobs), p.base, s.mail, Drop(w));
    AttemptsOthers(s.jobs, s.mail, s.running, w);
    LeasesLater(p.lease, s.jobs, s.mail.clock, s.running, s.mail.clock, s.running - {w});
  }

  /** An ended attempt, whether its worker reports it or recovery finds the lease expired. */
  lemma FailureKeepsInv(p: Policy, s: System, id: Id, retryable: bool, now: Time)
    requires ValidPolicy(p) && Inv(p, s)
    requires id in s.jobs && s.jobs[id].status == Running && s.jobs[id].startedAt.Some?
    requires s.jobs[id].startedAt.value <= now && s.jobs[id].attempts > 0
    ensures Inv(p, WithStore(s, AfterFailure(Store(s), id, retryable, now, p.base)))
  {
    hide MailOk, JobsValid, KeysUnique, SnapshotsMatch, HistoriesOk, AttemptsOk, Spaced, RetryDelay, LeasesOk;
    var s' := WithStore(s, AfterFailure(Store(s), id, retryable, now, p.base));
    RowFacts(p, s, id);
    var job := s'.jobs[id];
    StoreRowStep(Store(s), id, job, s.snapshots);
    MailRowStep(s.jobs, s.mail, id, job, now + RetryDelay(job.attempts, p.base));
    AttemptsRowStep(s.jobs, s.mail, s.running, id, job);
    MailUnlessOutbox(s'.jobs, s.mail, s'.mail, s.running);
    HistoriesRowStep(p.base, s.jobs, s.starts, id, job, s.starts[id]);
    LeasesRowStep(p.lease, s.jobs, s.mail.clock, s.running, id, job);
    assert s.starts[id := s.starts[id]] == s.starts;
    assert s.mail.(outbox := s.mail.outbox) == s.mail;
  }

  lemma CompletionKeepsInv(p: Policy, s: System, id: Id, hash: string)
    requires ValidPolicy(p) && Inv(p, s)
    requires id in s.jobs && s.jobs[id].status == Running
    ensures Inv(p, WithStore(s, AfterComplete(Store(s), id, hash)))
  {
    hide MailOk, JobsValid, KeysUnique, SnapshotsMatch, HistoriesOk, AttemptsOk, Spaced, RetryDelay, LeasesOk;
    var s' := WithStore(s, AfterComplete(Store(s), id, hash));
    RowFacts(p, s, id);
    var job := s'.jobs[id];
    StoreRowStep(Store(s), id, job, s'.snapshots);
    MailRowStep(s.jobs, s.mail, id, job, s.mail.clock);
    AttemptsRowStep(s.jobs, s.mail, s.running, id, job);
    HistoriesRowStep(p.base, s.jobs, s.starts, id, job, s.starts[id]);
    LeasesRowStep(p.lease, s.jobs, s.mail.clock, s.running, id, job);
    assert s.starts[id := s.starts[id]] == s.starts;
    assert s.mail.(outbox := s.mail.outbox) == s.mail;
  }

  lemma StepKeepsInv(p: Policy, s: System, step: Step)
    requires ValidPolicy(p) && Inv(p, s) && Enabled(s, step)
    ensures Inv(p, Apply(p, s, step))
  {
    hide Inv;
    match step
    case Post(m) => PostKeepsInv(p, s, m);
    case Create(_, _, _, _) => CreateKeepsInv(p, s, step);
    case Look(w) => LookKeepsInv(p, s, w);
    case Claim(w, now) => ClaimKeepsInv(p, s, w, now);
    case Renew(w, now) => RenewKeepsInv(p, s, w, now);
    case Complete(w, hash, now) =>
      var id := s.running[w].id;
      WorkerFacts(p, s, w);
      if s.jobs[id].status == Completed {
        FinishKeepsInv(p, s, w);
      } else if Owns(Store(s), id, w) && id !in s.snapshots {
        CompletionKeepsInv(p, s, id, hash);
        FinishKeepsInv(p, WithStore(s, AfterComplete(Store(s), id, hash)), w);
      } else {
        QuitKeepsInv(p, s, w);
      }
    case Fail(w, retryable, now) =>
      var id := s.running[w].id;
      WorkerFacts(p, s, w);
      if Owns(Store(s), id, w) && s.jobs[id].attempts > 0 {
        FailureKeepsInv(p, s, id, retryable, now);
        FinishKeepsInv(p, WithStore(s, AfterFailure(Store(s), id, retryable, now, p.base)), w);
      } else {
        QuitKeepsInv(p, s, w);
      }
    case Abandon(w) => QuitKeepsInv(p, s, w);
    case Recover(id, now) =>
      RowFacts(p, s, id);
      FailureKeepsInv(p, s, id, true, now);
  }

  /** A batch of `recover_stale` is a run of single recoveries. */
  lemma {:induction false} RecoveriesKeepInv(p: Policy, s: System, ids: seq<Id>, now: Time)
    requires ValidPolicy(p) && Inv(p, s) && now <= s.mail.clock
    ensures Inv(p, WithStore(s, AfterRecoveries(Store(s), ids, now, p.base)))
  {
    hide Inv, AfterFailure;
    if ids == [] {
      assert WithStore(s, Store(s)) == s;
    } else {
      var last := |ids| - 1;
      RecoveriesKeepInv(p, s, ids[..last], now);
      var before := WithStore(s, AfterRecoveries(Store(s), ids[..last], now, p.base));
      if ids[last] in before.jobs && Stale(before.jobs[ids[last]], now) {
        StepKeepsInv(p, before, Recover(ids[last], now));
      }
    }
  }

  // ----- Theorems about every run -----

  lemma StartSatisfiesInv(p: Policy, clock: Time)
    ensures Inv(p, Start(clock))
  {
  }

  lemma {:induction false} RunKeepsInv(p: Policy, s: System, steps: seq<Step>)
    requires ValidPolicy(p) && Inv(p, s) && Runnable(p, s, steps)
    ensures Inv(p, Exec(p, s, steps))
    decreases steps
  {
    hide Inv, Enabled, Apply;
    if steps != [] {
      StepKeepsInv(p, s, steps[0]);
      RunKeepsInv(p, Apply(p, s, steps[0]), steps[1..]);
    }
  }

  /** A claimable job always has a wake-up for its current attempt; a running one holds a lease. */
  lemma NoJobIsLost(p: Policy, clock: Time, steps: seq<Step>, id: Id)
    requires ValidPolicy(p) && Runnable(p, Start(clock), steps)
    requires id in Exec(p, Start(clock), steps).jobs
    ensures var s := Exec(p, Start(clock), steps);
      var job := s.jobs[id];
      match job.status
      case Queued =>
        HasUnpublished(s.mail.outbox, id, job.attempts) || HasMessage(s.mail.messages, id, job.attempts)
      case RetryWait =>
        HasUnpublished(s.mail.outbox, id, job.attempts) || HasMessage(s.mail.messages, id, job.attempts)
      case Running => job.worker.Some? && job.lease.Some?
      case Completed => id in s.snapshots
      case Failed => id !in s.snapshots
  {
    hide Runnable, Exec, Delivery.Inv, ValidDb, AttemptsOk, HistoriesOk, HistoryOk, LeasesOk;
    StartSatisfiesInv(p, clock);
    RunKeepsInv(p, Start(clock), steps);
    var s := Exec(p, Start(clock), steps);
    InvImpliesNoLostWork(RowViews(s.jobs), s.mail);
    RowFacts(p, s, id);
    assert RowViews(s.jobs)[id] == ViewOf(s.jobs[id]);
  }

  /** However messages are duplicated, the n-th attempt waits out all the delays before it. */
  lemma BackoffAccumulates(p: Policy, clock: Time, steps: seq<Step>, id: Id, n: nat)
    requires ValidPolicy(p) && Runnable(p, Start(clock), steps)
    requires id in Exec(p, Start(clock), steps).jobs
    requires 0 < n <= Exec(p, Start(clock), steps).jobs[id].attempts
    ensures var s := Exec(p, Start(clock), steps);
      && id in s.starts && |s.starts[id]| == s.jobs[id].attempts
      && s.starts[id][0] + p.base * (Pow3(n - 1) - 1.0) / 2.0 <= s.starts[id][n - 1]
  {
    hide Runnable, Exec, Inv, HistoryOk, ValidJob, Spaced, RetryDelay, TotalDelay, Pow3;
    StartSatisfiesInv(p, clock);
    RunKeepsInv(p, Start(clock), steps);
    var s := Exec(p, Start(clock), steps);
    RowFacts(p, s, id);
    HistoryIsSpaced(p.base, s.jobs[id], s.starts[id]);
    DelaysAccumulate(p.base, s.starts[id], n);
    TotalDelayClosedForm(n, p.base);
  }

  lemma HistoryIsSpaced(base: real, j: Job, starts: seq<Time>)
    requires HistoryOk(base, j, starts)
    ensures |starts| == j.attempts && Spaced(base, starts)
  {
  }

  lemma {:induction false} DelaysAccumulate(base: real, starts: seq<Time>, n: nat)
    requires Spaced(base, starts) && 0 < n <= |starts|
    ensures starts[0] + TotalDelay(n, base) <= starts[n - 1]
  {
    hide RetryDelay;
    if n > 1 {
      DelaysAccumulate(base, starts, n - 1);
      assert starts[n - 2] + RetryDelay(n - 1, base) <= starts[n - 1];
    }
  }

  /** A claim takes a waiting job through `Queued`; every other step follows at most one edge. */
  predicate FollowsTable(a: Status, b: Status) {
    a == b || Legal(a, b) || (a == RetryWait && Legal(a, Queued) && Legal(Queued, b))
  }

  /** Room for further lifecycle changes: attempts left, then how far the current one has come. */
  function Fuel(j: Job): int {
    3 * (j.maxAttempts - j.attempts)
      + match j.status
        case Running => 2
        case Queued => 1
        case RetryWait => 1
        case Completed => 0
        case Failed => 0
  }

  predicate SameLifecycle(a: Job, b: Job) {
    a.status == b.status && a.attempts == b.attempts
  }

  predicate JobAdvances(before: Job, after: Job) {
    && after.maxAttempts == before.maxAttempts
    && after.key == before.key && after.fingerprint == before.fingerprint
    && FollowsTable(before.status, after.status)
    && (SameLifecycle(before, after) || Fuel(after) < Fuel(before))
    && (Terminal(before.status) ==> after == before)
  }

  lemma StepAdvancesJob(p: Policy, s: System, step: Step, id: Id)
    requires Inv(p, s) && Enabled(s, step) && id in s.jobs
    ensures var s' := Apply(p, s, step);
      && id in s'.jobs
      && JobAdvances(s.jobs[id], s'.jobs[id])
      && (id in s.snapshots ==> id in s'.snapshots && s'.snapshots[id] == s.snapshots[id])
  {
    hide Inv, HistoryOk, MailApply, MailEnabled, Settle, JobAdvances, RetryDelay;
    RowFacts(p, s, id);
    RowsAdvance(s.jobs[id]);
    match step
    case Recover(other, now) => FailureAdvances(Store(s), id, true, now, p.base);
    case Fail(w, retryable, now) => FailureAdvances(Store(s), id, retryable, now, p.base);
    case _ =>
  }

  /** The row changes of claim, renewal and completion, and no change at all. */
  lemma RowsAdvance(j: Job)
    requires ValidJob(j)
    ensures JobAdvances(j, j)
    ensures forall w, now, lease :: Claimable(j, now) ==> JobAdvances(j, ClaimedJob(j, w, now, lease))
    ensures forall t :: j.status == Running ==> JobAdvances(j, j.(lease := t))
    ensures j.status == Running ==>
      JobAdvances(j, j.(status := Completed, snapshotCreated := true, worker := None, lease := None))
  {
  }

  lemma FailureAdvances(db: Db, id: Id, retryable: bool, now: Time, base: real)
    requires id in db.jobs && ValidJob(db.jobs[id])
    ensures db.jobs[id].status == Running ==>
      JobAdvances(db.jobs[id], AfterFailure(db, id, retryable, now, base).jobs[id])
  {
  }

  /** What a worker does about an attempt that is no longer its own leaves the store as it was. */
  lemma StaleWorkerChangesNothing(p: Policy, s: System, w: WorkerId, step: Step)
    requires Inv(p, s) && Enabled(s, step)
    requires (step.Renew? || step.Complete? || step.Fail?) && step.worker == w
    requires var a := s.running[w];
      a.id in s.jobs ==> s.jobs[a.id].attempts != a.number || s.jobs[a.id].worker != Some(w)
    ensures Store(Apply(p, s, step)) == Store(s)
  {
    hide Inv;
    WorkerFacts(p, s, w);
  }

  function LifecycleChanges(p: Policy, s: System, steps: seq<Step>, id: Id): nat
    requires Runnable(p, s, steps)
    decreases steps
  {
    if steps == [] then 0
    else
      var s' := Apply(p, s, steps[0]);
      (if id in s.jobs && id in s'.jobs && !SameLifecycle(s.jobs[id], s'.jobs[id]) then 1 else 0)
        + LifecycleChanges(p, s', steps[1..], id)
  }

  /** A job's lifecycle has a bounded number of changes, and ends for good once it is terminal. */
  lemma {:induction false} JobProgressIsBounded(p: Policy, s: System, steps: seq<Step>, id: Id)
    requires ValidPolicy(p) && Inv(p, s) && Runnable(p, s, steps) && id in s.jobs
    ensures var s' := Exec(p, s, steps);
      && id in s'.jobs
      && 0 <= Fuel(s'.jobs[id])
      && LifecycleChanges(p, s, steps, id) + Fuel(s'.jobs[id]) <= Fuel(s.jobs[id])
      && s'.jobs[id].key == s.jobs[id].key && s'.jobs[id].fingerprint == s.jobs[id].fingerprint
      && (Terminal(s.jobs[id].status) ==> s'.jobs[id] == s.jobs[id])
      && (id in s.snapshots ==> id in s'.snapshots && s'.snapshots[id] == s.snapshots[id])
    decreases steps
  {
    hide Inv, Enabled, Apply;
    if steps == [] {
      RowFacts(p, s, id);
    } else {
      StepKeepsInv(p, s, steps[0]);
      StepAdvancesJob(p, s, steps[0], id);
      assert JobAdvances(s.jobs[id], Apply(p, s, steps[0]).jobs[id]);
      JobProgressIsBounded(p, Apply(p, s, steps[0]), steps[1..], id);
    }
  }

  // ----- Idempotent requests -----

  /** A job owns its key for good: every later request with the key gets this job or a conflict. */
  lemma KeyIsOwned(p: Policy, s: System, steps: seq<Step>, id: Id, fingerprint: string, outcome: CreateOutcome)
    requires ValidPolicy(p) && Inv(p, s) && Runnable(p, s, steps) && id in s.jobs && s.jobs[id].key.Some?
    ensures var s' := Exec(p, s, steps);
      Answers(s'.jobs, s.jobs[id].key, fingerprint, outcome) <==>
        outcome == if s.jobs[id].fingerprint == fingerprint then Reused(id) else Conflict
  {
    hide Runnable, Exec, MailOk, AttemptsOk, HistoriesOk, LeasesOk, JobsValid, SnapshotsMatch, Answers;
    RunKeepsInv(p, s, steps);
    JobProgressIsBounded(p, s, steps, id);
    KeyHasOneAnswer(Exec(p, s, steps).jobs, id, fingerprint, outcome);
  }

  /** In particular the first request with a key creates its job, and no second one ever does. */
  lemma OneJobPerKey(p: Policy, s: System, id: Id, key: string, fingerprint: string, maxAttempts: nat,
                     steps: seq<Step>, again: string, outcome: CreateOutcome)
    requires ValidPolicy(p) && Inv(p, s) && NewKey(s.jobs, Some(key))
    requires Enabled(s, Create(id, Some(key), fingerprint, maxAttempts))
    requires Runnable(p, Apply(p, s, Create(id, Some(key), fingerprint, maxAttempts)), steps)
    ensures var created := Apply(p, s, Create(id, Some(key), fingerprint, maxAttempts));
      && id in created.jobs && Requested(created.jobs[id], Some(key), fingerprint, maxAttempts)
      && (Answers(Exec(p, created, steps).jobs, Some(key), again, outcome) <==>
            outcome == if again == fingerprint then Reused(id) else Conflict)
  {
    hide Runnable, Exec, Inv, Answers;
    var create := Create(id, Some(key), fingerprint, maxAttempts);
    StepKeepsInv(p, s, create);
    KeyIsOwned(p, Apply(p, s, create), steps, id, again, outcome);
  }

  // ----- Leases -----

  /** A worker's row is leased for exactly one lease from its last reading, so it can become stale. */
  lemma LeaseIsExact(p: Policy, clock: Time, steps: seq<Step>, id: Id)
    requires ValidPolicy(p) && Runnable(p, Start(clock), steps)
    requires id in Exec(p, Start(clock), steps).jobs
    ensures var s := Exec(p, Start(clock), steps);
      var job := s.jobs[id];
      && (job.status == Running ==> job.lease.Some? && job.lease.value <= s.mail.clock + p.lease)
      && (forall w :: w in s.running && s.running[w].id == id && job.worker == Some(w) ==>
            job.lease == Some(s.running[w].seenAt + p.lease))
  {
    hide Runnable, Exec, MailOk, ValidDb, AttemptsOk, HistoriesOk, HistoryOk;
    StartSatisfiesInv(p, clock);
    RunKeepsInv(p, Start(clock), steps);
    RowFacts(p, Exec(p, Start(clock), steps), id);
  }
}
