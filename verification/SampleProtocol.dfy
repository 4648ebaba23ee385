/**
  Benchmark samples end to end: the store, the outbox publishers, the queue, and workers running
  `process_message`, `_process_claimed` and the lease heartbeat of app/benchmarks/worker.py.

  The heartbeat and the processing of one worker interleave freely, and every transaction may commit
  long after the clock reading it carries. A renewal whose reply is lost may have committed or not.
*/
module SampleProtocol {
  import opened Core
  import opened Retry
  import opened Delivery
  import opened SampleRepository

  datatype Policy = Policy(lease: real, base: real)

  predicate ValidPolicy(p: Policy) { p.lease > 0.0 && p.base > 0.0 }

  /** A renewal request carries the clock reading `at`; its answer is the persisted expiry. */
  datatype Renewal = Unsent | Sent(at: Time) | Answered(expiry: Time)

  /**
    One claimed attempt: `confirmed` is the last lease expiry the heartbeat knows to be persisted,
    `renewedAt` the clock reading of its latest request (or of the claim), and `artifact` and
    `snapshot` are the hashes of what `_process_claimed` holds in its local variables.
  */
  datatype Attempt = Attempt(
    id: Id,
    number: nat,
    confirmed: Time,
    renewedAt: Time,
    renewal: Renewal,
    artifact: Option<string>,
    snapshot: Option<string>
  )

  datatype System = System(
    samples: map<Id, Sample>,
    artifacts: map<Id, string>,
    snapshots: map<Id, string>,
    runs: map<Id, Run>,
    mail: Mail,
    running: map<WorkerId, Attempt>
  )

  function Store(s: System): Db { Db(s.samples, s.artifacts, s.snapshots, s.runs, s.mail.outbox) }

  function WithStore(s: System, db: Db): System {
    s.(samples := db.samples, artifacts := db.artifacts, snapshots := db.snapshots, runs := db.runs,
       mail := s.mail.(outbox := db.outbox))
  }

  function RowViews(samples: map<Id, Sample>): Views {
    map id | id in samples :: ViewOf(samples[id])
  }

  function Start(clock: Time): System {
    System(map[], map[], map[], map[], EmptyMail(clock), map[])
  }

  // ----- Steps -----

  datatype Step =
    | Post(mail: MailStep)
    | Plan(run: Id, plan: seq<Planned>, maxAttempts: nat)
    | Look(worker: WorkerId)
    | Claim(worker: WorkerId, now: Time)
    | SendRenewal(worker: WorkerId)
    | CommitRenewal(worker: WorkerId)
    | LoseRenewal(worker: WorkerId, committed: bool)
    | ConfirmRenewal(worker: WorkerId)
    | ReadArtifact(worker: WorkerId)
    | StoreArtifact(worker: WorkerId, hash: string, now: Time)
    | Evaluate(worker: WorkerId)
    | Complete(worker: WorkerId, now: Time)
    | Fail(worker: WorkerId, generation: bool, retryable: bool, now: Time)
    | Abandon(worker: WorkerId)
    | Recover(id: Id, now: Time)
    | Reconcile(run: Id)

  predicate Receiving(s: System, w: WorkerId) {
    w in s.mail.held && !s.mail.held[w].settled && w !in s.running
  }

  predicate Working(s: System, w: WorkerId) {
    w in s.running && w in s.mail.held && s.running[w].id in s.samples
  }

  predicate Enabled(s: System, step: Step) {
    match step
    case Post(m) =>
      MailEnabled(s.mail, m) && ((m.Acknowledge? || m.Drop?) ==> m.worker !in s.running)
    case Plan(run, plan, maxAttempts) => FreshPlan(Store(s), run, plan) && 0 < maxAttempts
    case Look(w) =>
      && Receiving(s, w)
      && var item := s.mail.held[w].message.item;
      item !in s.samples || Terminal(s.samples[item].status)
    case Claim(w, now) =>
      Receiving(s, w) && s.mail.held[w].message.enqueuedAt <= now <= s.mail.clock
    case SendRenewal(w) =>
      Working(s, w) && s.running[w].renewal.Unsent? && s.mail.clock < s.running[w].confirmed
    case CommitRenewal(w) => Working(s, w) && s.running[w].renewal.Sent?
    case LoseRenewal(w, _) => Working(s, w) && s.running[w].renewal.Sent?
    case ConfirmRenewal(w) => Working(s, w) && s.running[w].renewal.Answered?
    case ReadArtifact(w) =>
      Working(s, w) && s.running[w].artifact.None? && s.running[w].id in s.artifacts
    case StoreArtifact(w, _, now) =>
      Working(s, w) && s.running[w].artifact.None? && now <= s.mail.clock
    case Evaluate(w) =>
      && Working(s, w) && s.running[w].artifact.Some?
      && var evaluation := s.samples[s.running[w].id].evaluation;
      evaluation in s.snapshots ==> s.snapshots[evaluation] == s.running[w].artifact.value
    case Complete(w, now) => Working(s, w) && s.running[w].snapshot.Some? && now <= s.mail.clock
    case Fail(w, _, _, now) => Working(s, w) && now <= s.mail.clock
    case Abandon(w) => Working(s, w)
    case Recover(id, now) => id in s.samples && Stale(s.samples[id], now) && now <= s.mail.clock
    case Reconcile(run) => true
  }

  function Finish(s: System, w: WorkerId): System
    requires w in s.mail.held
  {
    s.(running := s.running - {w}, mail := Settle(s.mail, w))
  }

  function Quit(s: System, w: WorkerId): System {
    s.(running := s.running - {w}, mail := s.mail.(held := s.mail.held - {w}))
  }

  function SetAttempt(s: System, w: WorkerId, a: Attempt): System {
    s.(running := s.running[w := a])
  }

  /** `renew_lease` with the clock reading of the request. */
  function Renewed(p: Policy, s: System, w: WorkerId): System
    requires Working(s, w)
  {
    var a := s.running[w];
    if Owns(Store(s), a.id, w, a.renewedAt)
    then WithStore(s, AfterRenew(Store(s), a.id, a.renewedAt, p.lease))
    else s
  }

  function Apply(p: Policy, s: System, step: Step): System
    requires Enabled(s, step)
  {
    match step
    case Post(m) => s.(mail := MailApply(p.base, s.mail, m))
    case Plan(run, plan, maxAttempts) =>
      WithStore(s, AfterPlan(Store(s), run, plan, maxAttempts, s.mail.clock))
    case Look(w) => s.(mail := Settle(s.mail, w))
    case Claim(w, now) =>
      var item := s.mail.held[w].message.item;
      if CanClaim(Store(s), item) then
        var s' := WithStore(s, AfterClaim(Store(s), item, w, now, p.lease));
        var number := s.samples[item].attempts + 1;
        SetAttempt(s', w, Attempt(item, number, now + p.lease, now, Unsent, None, None))
      else s.(mail := Settle(s.mail, w))
    case SendRenewal(w) =>
      SetAttempt(s, w, s.running[w].(renewal := Sent(s.mail.clock), renewedAt := s.mail.clock))
    case CommitRenewal(w) =>
      var a := s.running[w];
      if Owns(Store(s), a.id, w, a.renewedAt)
      then SetAttempt(Renewed(p, s, w), w, a.(renewal := Answered(a.renewedAt + p.lease)))
      else Quit(s, w)
    case LoseRenewal(w, committed) =>
      SetAttempt(if committed then Renewed(p, s, w) else s, w, s.running[w].(renewal := Unsent))
    case ConfirmRenewal(w) =>
      var a := s.running[w];
      if s.mail.clock < a.renewal.expiry
      then SetAttempt(s, w, a.(confirmed := a.renewal.expiry, renewal := Unsent))
      else Quit(s, w)
    case ReadArtifact(w) =>
      var a := s.running[w];
      SetAttempt(s, w, a.(artifact := Some(s.artifacts[a.id])))
    case StoreArtifact(w, hash, now) =>
      var a := s.running[w];
      if CanStore(Store(s), a.id, w, now)
      then SetAttempt(WithStore(s, AfterStore(Store(s), a.id, hash)), w, a.(artifact := Some(hash)))
      else if Owns(Store(s), a.id, w, now) && a.id in s.artifacts && s.artifacts[a.id] == hash
      then SetAttempt(s, w, a.(artifact := Some(hash)))
      else Quit(s, w)
    case Evaluate(w) =>
      SetAttempt(s, w, s.running[w].(snapshot := s.running[w].artifact))
    case Complete(w, now) =>
      var a := s.running[w];
      if s.samples[a.id].status == Completed then Finish(s, w)
      else if CanComplete(Store(s), a.id, w, s.samples[a.id].evaluation, a.snapshot.value, now)
      then Finish(WithStore(s, AfterComplete(Store(s), a.id, a.snapshot.value, now)), w)
      else Quit(s, w)
    case Fail(w, generation, retryable, now) =>
      var id := s.running[w].id;
      if Owns(Store(s), id, w, now) && s.samples[id].attempts > 0
      then Finish(WithStore(s, AfterRelease(Store(s), id, retryable, FinalStatus(generation), now, p.base)), w)
      else Quit(s, w)
    case Abandon(w) => Quit(s, w)
    case Recover(id, now) => WithStore(s, AfterRecovery(Store(s), id, now, p.base))
    case Reconcile(run) => WithStore(s, AfterFinish(Store(s), run, s.mail.clock))
  }

  predicate Runnable(p: Policy, s: System, steps: seq<Step>)
    decreases steps
  {
    steps == [] || (Enabled(s, steps[0]) && Runnable(p, Apply(p, s, steps[0]), steps[1..]))
  }

  function Exec(p: Policy, s: System, steps: seq<Step>): System
    requires Runnable(p, s, steps)
    decreases steps
  {
    if steps == [] then s else Exec(p, Apply(p, s, steps[0]), steps[1..])
  }

  // ----- Invariant -----

  /** Each evaluation belongs to one sample and is recorded exactly when that sample is completed. */
  predicate Sealed(samples: map<Id, Sample>, artifacts: map<Id, string>, snapshots: map<Id, string>) {
    && (forall a, b :: a in samples && b in samples && samples[a].evaluation == samples[b].evaluation
          ==> a == b)
    && (forall id :: id in samples ==> SealedSample(samples[id], id, artifacts, snapshots))
  }

  predicate SealedSample(s: Sample, id: Id, artifacts: map<Id, string>, snapshots: map<Id, string>) {
    if s.status == Completed
    then id in artifacts && s.evaluation in snapshots && snapshots[s.evaluation] == artifacts[id]
    else s.evaluation !in snapshots
  }

  /** While the row names the worker, its lease covers everything the heartbeat was told. */
  predicate LeaseOk(lease: real, clock: Time, s: Sample, w: WorkerId, a: Attempt) {
    && a.renewedAt <= clock
    && (a.renewal.Sent? ==> a.renewal.at == a.renewedAt)
    && if s.worker == Some(w) then
         && s.attempts == a.number
         && s.lease.Some?
         && a.confirmed <= s.lease.value <= a.renewedAt + lease
         && (a.renewal.Answered? ==> a.renewal.expiry <= s.lease.value)
       else
         a.confirmed < clock && (a.renewal.Answered? ==> a.renewal.expiry < clock)
  }

  predicate WorkOk(artifacts: map<Id, string>, a: Attempt) {
    && (a.artifact.Some? ==> a.id in artifacts && artifacts[a.id] == a.artifact.value)
    && (a.snapshot.Some? ==> a.snapshot == a.artifact)
  }

  predicate AttemptOk(lease: real, samples: map<Id, Sample>, artifacts: map<Id, string>, m: Mail,
                      w: WorkerId, a: Attempt)
  {
    && w in m.held
    && !m.held[w].settled
    && m.held[w].message.item == a.id
    && m.held[w].message.tag < a.number
    && a.id in samples
    && a.number <= samples[a.id].attempts
    && LeaseOk(lease, m.clock, samples[a.id], w, a)
    && WorkOk(artifacts, a)
  }

  predicate AttemptsOk(lease: real, samples: map<Id, Sample>, artifacts: map<Id, string>, m: Mail,
                       running: map<WorkerId, Attempt>)
  {
    forall w :: w in running ==> AttemptOk(lease, samples, artifacts, m, w, running[w])
  }

  predicate MailOk(samples: map<Id, Sample>, m: Mail) {
    Delivery.Inv(RowViews(samples), m)
  }

  ghost predicate Inv(p: Policy, s: System) {
    && SamplesValid(s.samples, s.artifacts)
    && Sealed(s.samples, s.artifacts, s.snapshots)
    && RunsOk(s.samples, s.runs)
    && MailOk(s.samples, s.mail)
    && AttemptsOk(p.lease, s.samples, s.artifacts, s.mail, s.running)
  }

  // ----- What a change of one row keeps -----

  lemma MailRowStep(samples: map<Id, Sample>, m: Mail, id: Id, s: Sample, ready: Time)
    requires MailOk(samples, m)
    requires if id in samples
             then RowAdvances(ViewOf(samples[id]), ViewOf(s)) && ViewOf(s) != ViewOf(samples[id])
             else s.status == Queued
    ensures MailOk(samples[id := s],
                   if Claimable(s.status)
                   then m.(outbox := AddEvent(m.outbox, id, s.attempts, ready)) else m)
  {
    hide Delivery.Inv;
    RowStepKeepsInv(RowViews(samples), m, id, ViewOf(s), ready);
    assert RowViews(samples[id := s]) == RowViews(samples)[id := ViewOf(s)];
  }

  lemma MailSameView(samples: map<Id, Sample>, m: Mail, id: Id, s: Sample)
    requires MailOk(samples, m) && id in samples && ViewOf(s) == ViewOf(samples[id])
    ensures MailOk(samples[id := s], m)
  {
    hide Delivery.Inv;
    assert RowViews(samples[id := s]) == RowViews(samples);
  }

  lemma HoldIsBehind(samples: map<Id, Sample>, m: Mail, w: WorkerId)
    requires MailOk(samples, m) && w in m.held
    ensures var message := m.held[w].message;
      && message.item in samples
      && message.tag <= samples[message.item].attempts
      && message.enqueuedAt <= m.clock
  {
    assert MessageOk(RowViews(samples), m, m.held[w].id, m.held[w].message);
  }

  lemma SettleRefused(samples: map<Id, Sample>, m: Mail, w: WorkerId)
    requires MailOk(samples, m) && w in m.held && m.held[w].message.item in samples
    requires m.held[w].message.enqueuedAt <= m.clock
    requires !Claimable(samples[m.held[w].message.item].status)
    ensures MailOk(samples, Settle(m, w))
  {
    hide Delivery.Inv;
    RefusedMeansPast(RowViews(samples), m, w, m.clock);
    SettleKeepsInv(RowViews(samples), m, w);
  }

  lemma RowKeepsStore(samples: map<Id, Sample>, artifacts: map<Id, string>, snapshots: map<Id, string>,
                      id: Id, s: Sample, artifacts': map<Id, string>, snapshots': map<Id, string>)
    requires SamplesValid(samples, artifacts) && Sealed(samples, artifacts, snapshots)
    requires ValidSample(s, id in artifacts') && SealedSample(s, id, artifacts', snapshots')
    requires if id in samples then s.evaluation == samples[id].evaluation
             else forall e :: e in samples ==> samples[e].evaluation != s.evaluation
    requires forall e :: e != id ==>
      (e in artifacts' <==> e in artifacts) && (e in artifacts ==> artifacts'[e] == artifacts[e])
    requires forall v :: v != s.evaluation ==>
      (v in snapshots' <==> v in snapshots) && (v in snapshots ==> snapshots'[v] == snapshots[v])
    ensures SamplesValid(samples[id := s], artifacts') && Sealed(samples[id := s], artifacts', snapshots')
  {
  }

  /** Another attempt's row moved on without touching what this worker relies on. */
  lemma RowKeepsAttempts(p: Policy, samples: map<Id, Sample>, artifacts: map<Id, string>, m: Mail,
                         running: map<WorkerId, Attempt>, id: Id, s: Sample)
    requires AttemptsOk(p.lease, samples, artifacts, m, running)
    requires id in samples ==>
      && samples[id].attempts <= s.attempts
      && (s.worker == samples[id].worker ==> s.lease == samples[id].lease && s.attempts == samples[id].attempts)
    requires id in samples && s.worker != samples[id].worker ==>
      forall w :: w in running && running[w].id == id ==>
        && s.worker != Some(w)
        && (samples[id].worker == Some(w) ==> samples[id].lease.Some? && samples[id].lease.value < m.clock)
    ensures AttemptsOk(p.lease, samples[id := s], artifacts, m, running)
  {
    forall w | w in running
      ensures AttemptOk(p.lease, samples[id := s], artifacts, m, w, running[w])
    {
      assert AttemptOk(p.lease, samples, artifacts, m, w, running[w]);
    }
  }

  /** Later clocks, other outbox contents and more artifacts do not disturb an attempt. */
  lemma MoreKeepsAttempts(p: Policy, samples: map<Id, Sample>, artifacts: map<Id, string>, m: Mail,
                          running: map<WorkerId, Attempt>, artifacts': map<Id, string>, m': Mail)
    requires AttemptsOk(p.lease, samples, artifacts, m, running) && m.clock <= m'.clock
    requires forall w :: w in running ==> w in m'.held && (w in m.held ==> m'.held[w] == m.held[w])
    requires forall e :: e in artifacts ==> e in artifacts' && artifacts'[e] == artifacts[e]
    ensures AttemptsOk(p.lease, samples, artifacts', m', running)
  {
    forall w | w in running ensures AttemptOk(p.lease, samples, artifacts', m', w, running[w]) {
      assert AttemptOk(p.lease, samples, artifacts, m, w, running[w]);
    }
  }

  lemma OthersKeepAttempts(p: Policy, samples: map<Id, Sample>, artifacts: map<Id, string>, m: Mail,
                           running: map<WorkerId, Attempt>, w: WorkerId)
    requires AttemptsOk(p.lease, samples, artifacts, m, running)
    ensures AttemptsOk(p.lease, samples, artifacts, m, running - {w})
    ensures AttemptsOk(p.lease, samples, artifacts, m.(held := m.held - {w}), running - {w})
    ensures w in m.held ==> AttemptsOk(p.lease, samples, artifacts, Settle(m, w), running - {w})
  {
    var others := running - {w};
    forall x | x in others
      ensures AttemptOk(p.lease, samples, artifacts, m, x, others[x])
      ensures AttemptOk(p.lease, samples, artifacts, m.(held := m.held - {w}), x, others[x])
      ensures w in m.held ==> AttemptOk(p.lease, samples, artifacts, Settle(m, w), x, others[x])
    {
      assert AttemptOk(p.lease, samples, artifacts, m, x, running[x]);
    }
  }

  lemma RowFacts(p: Policy, s: System, id: Id)
    requires Inv(p, s) && id in s.samples
    ensures ValidSample(s.samples[id], id in s.artifacts)
    ensures SealedSample(s.samples[id], id, s.artifacts, s.snapshots)
  {
    hide MailOk, AttemptsOk, RunsOk;
  }

  /** The store of a system that satisfies the invariant is valid. */
  lemma StoreFacts(p: Policy, s: System)
    requires Inv(p, s)
    ensures ValidDb(Store(s))
  {
    hide MailOk, AttemptsOk, RunsOk, SamplesValid, Sealed;
  }

  lemma WorkerFacts(p: Policy, s: System, w: WorkerId)
    requires Inv(p, s) && w in s.running
    ensures AttemptOk(p.lease, s.samples, s.artifacts, s.mail, w, s.running[w])
  {
    hide MailOk, SamplesValid, Sealed, RunsOk;
  }

  // ----- Every step keeps the invariant -----

  lemma PostKeepsInv(p: Policy, s: System, m: MailStep)
    requires ValidPolicy(p) && Inv(p, s) && Enabled(s, Post(m))
    ensures Inv(p, Apply(p, s, Post(m)))
  {
    hide Delivery.Inv, SamplesValid, Sealed, RunsOk, AttemptOk;
    MailKeepsInv(RowViews(s.samples), p.base, s.mail, m);
    forall w | w in s.running ensures w in s.mail.held {
      WorkerFacts(p, s, w);
      HeldByWorker(p, s, w);
    }
    MoreKeepsAttempts(p, s.samples, s.artifacts, s.mail, s.running, s.artifacts,
                      MailApply(p.base, s.mail, m));
  }

  lemma HeldByWorker(p: Policy, s: System, w: WorkerId)
    requires Inv(p, s) && w in s.running
    ensures w in s.mail.held && !s.mail.held[w].settled
  {
    hide MailOk, SamplesValid, Sealed, RunsOk;
  }

  /** One sample of a plan. */
  lemma CreateKeepsInv(p: Policy, s: System, id: Id, sample: Sample, now: Time)
    requires ValidPolicy(p) && Inv(p, s)
    requires sample == NewSample(sample.run, sample.evaluation, sample.maxAttempts) && 0 < sample.maxAttempts
    requires id !in s.samples && id !in s.artifacts && sample.evaluation !in s.snapshots
    requires forall e :: e in s.samples ==> s.samples[e].evaluation != sample.evaluation
    requires sample.run in s.runs ==> !RunEnded(s.runs[sample.run])
    ensures Inv(p, WithStore(s, AfterCreate(Store(s), id, sample, now)))
  {
    hide MailOk, AttemptsOk, SamplesValid, Sealed, RunsOk;
    var s' := WithStore(s, AfterCreate(Store(s), id, sample, now));
    RowKeepsStore(s.samples, s.artifacts, s.snapshots, id, sample, s.artifacts, s.snapshots);
    CreateKeepsRuns(s.samples, s.runs, id, sample);
    MailRowStep(s.samples, s.mail, id, sample, now);
    RowKeepsAttempts(p, s.samples, s.artifacts, s.mail, s.running, id, sample);
    OutboxKeepsAttempts(p, s'.samples, s.artifacts, s.mail, s.running, s'.mail.outbox);
  }

  lemma {:induction false} PlanKeepsInv(p: Policy, s: System, run: Id, plan: seq<Planned>, maxAttempts: nat, now: Time)
    requires ValidPolicy(p) && Inv(p, s) && FreshPlan(Store(s), run, plan) && 0 < maxAttempts
    ensures Inv(p, WithStore(s, AfterPlan(Store(s), run, plan, maxAttempts, now)))
  {
    hide Inv, FreshPlan;
    FreshIsDistinct(Store(s), run, plan);
    var front, last := plan[..|plan| - 1], plan[|plan| - 1];
    var before := WithStore(s, AfterPlan(Store(s), run, front, maxAttempts, now));
    if front == [] {
      assert before == s;
    } else {
      FreshFront(Store(s), run, plan);
      PlanKeepsInv(p, s, run, front, maxAttempts, now);
    }
    FreshNext(Store(s), run, plan, maxAttempts, now);
    CreateKeepsInv(p, before, last.sample, NewSample(run, last.evaluation, maxAttempts), now);
  }

  lemma OutboxKeepsAttempts(p: Policy, samples: map<Id, Sample>, artifacts: map<Id, string>, m: Mail,
                            running: map<WorkerId, Attempt>, outbox: Outbox)
    requires AttemptsOk(p.lease, samples, artifacts, m, running)
    ensures AttemptsOk(p.lease, samples, artifacts, m.(outbox := outbox), running)
  {
    forall w | w in running ensures w in m.held {
      assert AttemptOk(p.lease, samples, artifacts, m, w, running[w]);
    }
    MoreKeepsAttempts(p, samples, artifacts, m, running, artifacts, m.(outbox := outbox));
  }

  /** The row is not claimable, so its message is settled without a claim. */
  lemma RefuseKeepsInv(p: Policy, s: System, w: WorkerId)
    requires Inv(p, s) && Receiving(s, w) && s.mail.held[w].message.item in s.samples
    requires !Claimable(s.samples[s.mail.held[w].message.item].status)
    ensures Inv(p, s.(mail := Settle(s.mail, w)))
  {
    hide MailOk, AttemptsOk, SamplesValid, Sealed, RunsOk;
    HoldIsBehind(s.samples, s.mail, w);
    SettleRefused(s.samples, s.mail, w);
    OthersKeepAttempts(p, s.samples, s.artifacts, s.mail, s.running, w);
    assert s.running - {w} == s.running;
  }

  lemma ClaimKeepsInv(p: Policy, s: System, w: WorkerId, now: Time)
    requires ValidPolicy(p) && Inv(p, s) && Enabled(s, Claim(w, now))
    ensures Inv(p, Apply(p, s, Claim(w, now)))
  {
    hide MailOk, AttemptsOk, SamplesValid, Sealed, RunsOk;
    HoldIsBehind(s.samples, s.mail, w);
    var item := s.mail.held[w].message.item;
    RowFacts(p, s, item);
    if CanClaim(Store(s), item) {
      var sample := ClaimedSample(s.samples[item], item in s.artifacts, w, now, p.lease);
      RowKeepsStore(s.samples, s.artifacts, s.snapshots, item, sample, s.artifacts, s.snapshots);
      ClaimKeepsRuns(s.samples, s.runs, item, sample, now);
      MailRowStep(s.samples, s.mail, item, sample, now);
      RowKeepsAttempts(p, s.samples, s.artifacts, s.mail, s.running, item, sample);
      AddAttempt(p, s.samples[item := sample], s.artifacts, s.mail, s.running, w,
                 Attempt(item, sample.attempts, now + p.lease, now, Unsent, None, None));
      assert s.mail.(outbox := s.mail.outbox) == s.mail;
    } else {
      RefuseKeepsInv(p, s, w);
    }
  }

  lemma AddAttempt(p: Policy, samples: map<Id, Sample>, artifacts: map<Id, string>, m: Mail,
                   running: map<WorkerId, Attempt>, w: WorkerId, a: Attempt)
    requires AttemptsOk(p.lease, samples, artifacts, m, running)
    requires AttemptOk(p.lease, samples, artifacts, m, w, a)
    ensures AttemptsOk(p.lease, samples, artifacts, m, running[w := a])
  {
  }

  lemma SetAttemptKeepsInv(p: Policy, s: System, w: WorkerId, a: Attempt)
    requires Inv(p, s) && AttemptOk(p.lease, s.samples, s.artifacts, s.mail, w, a)
    ensures Inv(p, SetAttempt(s, w, a))
  {
    hide MailOk, AttemptsOk, SamplesValid, Sealed, RunsOk;
    AddAttempt(p, s.samples, s.artifacts, s.mail, s.running, w, a);
  }

  /** A committed renewal only ever moves the owner's lease forward. */
  lemma RenewedKeepsInv(p: Policy, s: System, w: WorkerId)
    requires ValidPolicy(p) && Inv(p, s) && Working(s, w) && s.running[w].renewal.Sent?
    ensures Inv(p, Renewed(p, s, w))
  {
    hide MailOk, AttemptsOk, SamplesValid, Sealed, RunsOk;
    WorkerFacts(p, s, w);
    var a := s.running[w];
    RowFacts(p, s, a.id);
    if Owns(Store(s), a.id, w, a.renewedAt) {
      var sample := s.samples[a.id].(lease := Some(a.renewedAt + p.lease));
      RowKeepsStore(s.samples, s.artifacts, s.snapshots, a.id, sample, s.artifacts, s.snapshots);
      OpenRowKeepsRuns(s.samples, s.runs, a.id, sample);
      MailSameView(s.samples, s.mail, a.id, sample);
      OthersKeepAttempts(p, s.samples, s.artifacts, s.mail, s.running, w);
      RenewalKeepsOthers(p, s.samples, s.artifacts, s.mail, s.running - {w}, a.id, sample, w);
      AddAttempt(p, s.samples[a.id := sample], s.artifacts, s.mail, s.running - {w}, w, a);
      assert (s.running - {w})[w := a] == s.running;
      assert s.mail.(outbox := s.mail.outbox) == s.mail;
    }
  }

  lemma RenewalKeepsOthers(p: Policy, samples: map<Id, Sample>, artifacts: map<Id, string>, m: Mail,
                           running: map<WorkerId, Attempt>, id: Id, s: Sample, w: WorkerId)
    requires AttemptsOk(p.lease, samples, artifacts, m, running) && w !in running
    requires id in samples && s.worker == samples[id].worker == Some(w)
    requires s.attempts == samples[id].attempts
    ensures AttemptsOk(p.lease, samples[id := s], artifacts, m, running)
  {
    forall x | x in running ensures AttemptOk(p.lease, samples[id := s], artifacts, m, x, running[x]) {
      assert AttemptOk(p.lease, samples, artifacts, m, x, running[x]);
    }
  }

  lemma HeartbeatKeepsInv(p: Policy, s: System, step: Step)
    requires ValidPolicy(p) && Inv(p, s) && Enabled(s, step)
    requires step.SendRenewal? || step.CommitRenewal? || step.LoseRenewal? || step.ConfirmRenewal?
    ensures Inv(p, Apply(p, s, step))
  {
    hide Inv;
    var w := step.worker;
    WorkerFacts(p, s, w);
    var a := s.running[w];
    match step
    case SendRenewal(_) =>
      SetAttemptKeepsInv(p, s, w, a.(renewal := Sent(s.mail.clock), renewedAt := s.mail.clock));
    case CommitRenewal(_) =>
      RenewedKeepsInv(p, s, w);
      if Owns(Store(s), a.id, w, a.renewedAt) {
        SetAttemptKeepsInv(p, Renewed(p, s, w), w, a.(renewal := Answered(a.renewedAt + p.lease)));
      } else {
        QuitKeepsInv(p, s, w);
      }
    case LoseRenewal(_, committed) =>
      RenewedKeepsInv(p, s, w);
      WorkerFacts(p, Renewed(p, s, w), w);
      SetAttemptKeepsInv(p, if committed then Renewed(p, s, w) else s, w, a.(renewal := Unsent));
    case ConfirmRenewal(_) =>
      if s.mail.clock < a.renewal.expiry {
        SetAttemptKeepsInv(p, s, w, a.(confirmed := a.renewal.expiry, renewal := Unsent));
      } else {
        QuitKeepsInv(p, s, w);
      }
  }

  lemma QuitKeepsInv(p: Policy, s: System, w: WorkerId)
    requires ValidPolicy(p) && Inv(p, s) && w in s.mail.held
    ensures Inv(p, Quit(s, w))
  {
    hide Delivery.Inv, AttemptsOk, SamplesValid, Sealed, RunsOk;
    MailKeepsInv(RowViews(s.samples), p.base, s.mail, Drop(w));
    OthersKeepAttempts(p, s.samples, s.artifacts, s.mail, s.running, w);
  }

  /** An attempt that was claimed has outgrown its message, so the message may be acknowledged. */
  lemma FinishKeepsInv(p: Policy, s: System, w: WorkerId)
    requires Inv(p, s) && w in s.running
    ensures Inv(p, Finish(s, w))
  {
    hide Delivery.Inv, AttemptsOk, SamplesValid, Sealed, RunsOk;
    WorkerFacts(p, s, w);
    SettleKeepsInv(RowViews(s.samples), s.mail, w);
    OthersKeepAttempts(p, s.samples, s.artifacts, s.mail, s.running, w);
  }

  lemma StoreKeepsInv(p: Policy, s: System, w: WorkerId, hash: string, now: Time)
    requires ValidPolicy(p) && Inv(p, s) && Enabled(s, StoreArtifact(w, hash, now))
    ensures Inv(p, Apply(p, s, StoreArtifact(w, hash, now)))
  {
    hide MailOk, AttemptsOk, SamplesValid, Sealed, RunsOk;
    WorkerFacts(p, s, w);
    var a := s.running[w];
    RowFacts(p, s, a.id);
    if CanStore(Store(s), a.id, w, now) {
      var sample := s.samples[a.id].(status := Evaluating);
      var artifacts := s.artifacts[a.id := hash];
      RowKeepsStore(s.samples, s.artifacts, s.snapshots, a.id, sample, artifacts, s.snapshots);
      OpenRowKeepsRuns(s.samples, s.runs, a.id, sample);
      MailSameView(s.samples, s.mail, a.id, sample);
      RowKeepsAttempts(p, s.samples, s.artifacts, s.mail, s.running, a.id, sample);
      ArtifactKeepsAttempts(p, s.samples[a.id := sample], s.artifacts, s.mail, s.running, a.id, hash);
      AddAttempt(p, s.samples[a.id := sample], artifacts, s.mail, s.running, w, a.(artifact := Some(hash)));
      assert s.mail.(outbox := s.mail.outbox) == s.mail;
    } else if Owns(Store(s), a.id, w, now) && a.id in s.artifacts && s.artifacts[a.id] == hash {
      SetAttemptKeepsInv(p, s, w, a.(artifact := Some(hash)));
    } else {
      QuitKeepsInv(p, s, w);
    }
  }

  lemma ArtifactKeepsAttempts(p: Policy, samples: map<Id, Sample>, artifacts: map<Id, string>, m: Mail,
                              running: map<WorkerId, Attempt>, id: Id, hash: string)
    requires AttemptsOk(p.lease, samples, artifacts, m, running) && id !in artifacts
    ensures AttemptsOk(p.lease, samples, artifacts[id := hash], m, running)
  {
    forall w | w in running ensures w in m.held {
      assert AttemptOk(p.lease, samples, artifacts, m, w, running[w]);
    }
    MoreKeepsAttempts(p, samples, artifacts, m, running, artifacts[id := hash], m);
  }

  lemma ProcessingKeepsInv(p: Policy, s: System, step: Step)
    requires ValidPolicy(p) && Inv(p, s) && Enabled(s, step)
    requires step.ReadArtifact? || step.Evaluate?
    ensures Inv(p, Apply(p, s, step))
  {
    hide Inv;
    var w := step.worker;
    WorkerFacts(p, s, w);
    var a := s.running[w];
    match step
    case ReadArtifact(_) => SetAttemptKeepsInv(p, s, w, a.(artifact := Some(s.artifacts[a.id])));
    case Evaluate(_) => SetAttemptKeepsInv(p, s, w, a.(snapshot := a.artifact));
  }

  /** The worker's own terminal or retry transition: its attempt is gone when the row changes. */
  lemma EndKeepsInv(p: Policy, s: System, w: WorkerId, db: Db, id: Id, sample: Sample, ready: Time)
    requires ValidPolicy(p) && Inv(p, s) && w in s.running && s.running[w].id == id && id in s.samples
    requires s.samples[id].worker == Some(w) && InProgress(s.samples[id].status)
    requires db.samples == s.samples[id := sample] && db.artifacts == s.artifacts
    requires RunsOk(db.samples, db.runs)
    requires sample.worker.None? && sample.attempts == s.samples[id].attempts
    requires sample.evaluation == s.samples[id].evaluation && !InProgress(sample.status)
    requires ValidSample(sample, id in s.artifacts)
    requires SealedSample(sample, id, s.artifacts, db.snapshots)
    requires forall v :: v != sample.evaluation ==>
      && (v in db.snapshots <==> v in s.snapshots)
      && (v in s.snapshots ==> db.snapshots[v] == s.snapshots[v])
    requires db.outbox == if Claimable(sample.status)
                          then AddEvent(s.mail.outbox, id, sample.attempts, ready) else s.mail.outbox
    ensures Inv(p, Finish(WithStore(s, db), w))
  {
    hide MailOk, AttemptsOk, SamplesValid, Sealed, RunsOk;
    WorkerFacts(p, s, w);
    FinishKeepsInv(p, s, w);
    var done := Finish(s, w);
    RowKeepsStore(s.samples, s.artifacts, s.snapshots, id, sample, s.artifacts, db.snapshots);
    MailRowStep(s.samples, done.mail, id, sample, ready);
    RowKeepsAttempts(p, s.samples, s.artifacts, done.mail, done.running, id, sample);
    OutboxKeepsAttempts(p, db.samples, s.artifacts, done.mail, done.running, db.outbox);
    assert Finish(WithStore(s, db), w).mail == done.mail.(outbox := db.outbox);
    assert done.mail.(outbox := s.mail.outbox) == done.mail;
  }

  lemma CompleteKeepsInv(p: Policy, s: System, w: WorkerId, now: Time)
    requires ValidPolicy(p) && Inv(p, s) && Enabled(s, Complete(w, now))
    ensures Inv(p, Apply(p, s, Complete(w, now)))
  {
    hide Inv, Remaining, SkippedOf, ValidDb, RunsOk, FinishedRun;
    WorkerFacts(p, s, w);
    var a := s.running[w];
    RowFacts(p, s, a.id);
    if s.samples[a.id].status == Completed {
      FinishKeepsInv(p, s, w);
    } else if CanComplete(Store(s), a.id, w, s.samples[a.id].evaluation, a.snapshot.value, now) {
      StoreFacts(p, s);
      CompleteKeepsValid(Store(s), a.id, w, s.samples[a.id].evaluation, a.snapshot.value, now);
      RightRuns(AfterComplete(Store(s), a.id, a.snapshot.value, now));
      EndKeepsInv(p, s, w, AfterComplete(Store(s), a.id, a.snapshot.value, now), a.id,
                  CompletedSample(s.samples[a.id]), now);
    } else {
      QuitKeepsInv(p, s, w);
    }
  }

  lemma FailKeepsInv(p: Policy, s: System, w: WorkerId, generation: bool, retryable: bool, now: Time)
    requires ValidPolicy(p) && Inv(p, s) && Enabled(s, Fail(w, generation, retryable, now))
    ensures Inv(p, Apply(p, s, Fail(w, generation, retryable, now)))
  {
    hide Inv, Remaining, SkippedOf, RetryDelay, ValidDb, RunsOk, FinishedRun;
    WorkerFacts(p, s, w);
    var id := s.running[w].id;
    var row := s.samples[id];
    RowFacts(p, s, id);
    if Owns(Store(s), id, w, now) && row.attempts > 0 {
      var final := FinalStatus(generation);
      StoreFacts(p, s);
      ReleaseKeepsValid(Store(s), id, retryable, final, now, p.base);
      RightRuns(AfterRelease(Store(s), id, retryable, final, now, p.base));
      EndKeepsInv(p, s, w, AfterRelease(Store(s), id, retryable, final, now, p.base), id,
                  ReleasedSample(row, id in s.artifacts, retryable, final),
                  now + RetryDelay(row.attempts, p.base));
    } else {
      QuitKeepsInv(p, s, w);
    }
  }

  /** Recovery takes a row from its owner only after every expiry the owner was told has passed. */
  lemma RecoverKeepsInv(p: Policy, s: System, id: Id, now: Time)
    requires ValidPolicy(p) && Inv(p, s) && Enabled(s, Recover(id, now))
    ensures Inv(p, Apply(p, s, Recover(id, now)))
  {
    hide MailOk, AttemptsOk, SamplesValid, Sealed, RunsOk, Remaining, SkippedOf, RetryDelay, FinishedRun;
    RowFacts(p, s, id);
    var row := s.samples[id];
    ReleaseKeepsValid(Store(s), id, true, Skipped, now, p.base);
    var sample := ReleasedSample(row, id in s.artifacts, true, Skipped);
    var s' := Apply(p, s, Recover(id, now));
    RowKeepsStore(s.samples, s.artifacts, s.snapshots, id, sample, s.artifacts, s.snapshots);
    MailRowStep(s.samples, s.mail, id, sample, now + RetryDelay(row.attempts, p.base));
    RowKeepsAttempts(p, s.samples, s.artifacts, s.mail, s.running, id, sample);
    OutboxKeepsAttempts(p, s'.samples, s.artifacts, s.mail, s.running, s'.mail.outbox);
    assert s.mail.(outbox := s.mail.outbox) == s.mail;
  }

  lemma StepKeepsInv(p: Policy, s: System, step: Step)
    requires ValidPolicy(p) && Inv(p, s) && Enabled(s, step)
    ensures Inv(p, Apply(p, s, step))
  {
    hide Inv, Remaining, SkippedOf;
    match step
    case Post(m) => PostKeepsInv(p, s, m);
    case Plan(run, plan, maxAttempts) => PlanKeepsInv(p, s, run, plan, maxAttempts, s.mail.clock);
    case Look(w) =>
      HeldRow(p, s, w);
      RefuseKeepsInv(p, s, w);
    case Claim(w, now) => ClaimKeepsInv(p, s, w, now);
    case StoreArtifact(w, hash, now) => StoreKeepsInv(p, s, w, hash, now);
    case Complete(w, now) => CompleteKeepsInv(p, s, w, now);
    case Fail(w, generation, retryable, now) => FailKeepsInv(p, s, w, generation, retryable, now);
    case Abandon(w) => QuitKeepsInv(p, s, w);
    case Recover(id, now) => RecoverKeepsInv(p, s, id, now);
    case Reconcile(run) => ReconcileIsIdle(p, s, run);
    case ReadArtifact(_) => ProcessingKeepsInv(p, s, step);
    case Evaluate(_) => ProcessingKeepsInv(p, s, step);
    case _ => HeartbeatKeepsInv(p, s, step);
  }

  lemma HeldRow(p: Policy, s: System, w: WorkerId)
    requires Inv(p, s) && w in s.mail.held
    ensures s.mail.held[w].message.item in s.samples
  {
    hide MailOk, AttemptsOk, SamplesValid, Sealed, RunsOk;
    HoldIsBehind(s.samples, s.mail, w);
  }

  /** Reconciliation finds nothing to repair: each run was derived when its last sample ended. */
  lemma ReconcileIsIdle(p: Policy, s: System, run: Id)
    requires Inv(p, s)
    ensures Apply(p, s, Reconcile(run)) == s
  {
    hide MailOk, AttemptsOk, SamplesValid, Sealed, RunsOk, AfterFinish;
    FinishIsIdle(Store(s), run, s.mail.clock);
    assert s.mail.(outbox := s.mail.outbox) == s.mail;
  }

  /** A batch of `recover_stale` is a run of single recoveries. */
  lemma {:induction false} RecoveriesKeepInv(p: Policy, s: System, ids: seq<Id>, now: Time)
    requires ValidPolicy(p) && Inv(p, s) && now <= s.mail.clock
    ensures Inv(p, WithStore(s, AfterRecoveries(Store(s), ids, now, p.base)))
  {
    hide Inv, Remaining, SkippedOf, AfterRelease;
    if ids == [] {
      assert WithStore(s, Store(s)) == s;
    } else {
      var last := |ids| - 1;
      RecoveriesKeepInv(p, s, ids[..last], now);
      var before := WithStore(s, AfterRecoveries(Store(s), ids[..last], now, p.base));
      if ids[last] in before.samples && Stale(before.samples[ids[last]], now) {
        RecoverKeepsInv(p, before, ids[last], now);
      }
    }
  }

  // ----- Theorems about every run -----

  lemma StartSatisfiesInv(p: Policy, clock: Time)
    ensures Inv(p, Start(clock))
  {
  }

  lemma {:induction false} RunKeepsInv(p: Policy, s: System, steps: seq<Step>)
    requires ValidPolicy(p) && Inv(p, s) && Runnable(p, s, steps)
    ensures Inv(p, Exec(p, s, steps))
    decreases steps
  {
    hide Inv, Enabled, Apply;
    if steps != [] {
      StepKeepsInv(p, s, steps[0]);
      RunKeepsInv(p, Apply(p, s, steps[0]), steps[1..]);
    }
  }

  lemma ReachableInv(p: Policy, clock: Time, steps: seq<Step>)
    requires ValidPolicy(p) && Runnable(p, Start(clock), steps)
    ensures Inv(p, Exec(p, Start(clock), steps))
  {
    hide Inv, Runnable, Exec;
    StartSatisfiesInv(p, clock);
    RunKeepsInv(p, Start(clock), steps);
  }

  /** A claimable sample always has a wake-up for its current attempt; one in progress has a lease. */
  lemma NoSampleIsLost(p: Policy, clock: Time, steps: seq<Step>, id: Id)
    requires ValidPolicy(p) && Runnable(p, Start(clock), steps)
    requires id in Exec(p, Start(clock), steps).samples
    ensures var s := Exec(p, Start(clock), steps);
      var sample := s.samples[id];
      && (Claimable(sample.status) ==>
            || HasUnpublished(s.mail.outbox, id, sample.attempts)
            || HasMessage(s.mail.messages, id, sample.attempts))
      && (InProgress(sample.status) <==> sample.worker.Some?)
      && (InProgress(sample.status) <==> sample.lease.Some?)
      && sample.attempts <= sample.maxAttempts
  {
    hide Runnable, Exec, Delivery.Inv, SamplesValid, Sealed, RunsOk, AttemptsOk;
    ReachableInv(p, clock, steps);
    var s := Exec(p, Start(clock), steps);
    InvImpliesNoLostWork(RowViews(s.samples), s.mail);
    RowFacts(p, s, id);
    assert RowViews(s.samples)[id] == ViewOf(s.samples[id]);
  }

  /**
    While the heartbeat's last confirmed expiry lies ahead, the row is still this worker's, for this
    attempt, in progress, and leased at least that long.
  */
  lemma BeliefImpliesOwnership(p: Policy, clock: Time, steps: seq<Step>,
                               w: WorkerId)
    requires ValidPolicy(p) && Runnable(p, Start(clock), steps)
    requires var s := Exec(p, Start(clock), steps);
      w in s.running && s.mail.clock <= s.running[w].confirmed
    ensures var s := Exec(p, Start(clock), steps);
      var a := s.running[w];
      && a.id in s.samples
      && var row := s.samples[a.id];
      && row.worker == Some(w)
      && row.attempts == a.number
      && InProgress(row.status)
      && row.lease.Some? && a.confirmed <= row.lease.value
  {
    hide Runnable, Exec, Inv;
    ReachableInv(p, clock, steps);
    var s := Exec(p, Start(clock), steps);
    WorkerFacts(p, s, w);
    RowFacts(p, s, s.running[w].id);
  }

  /** The status of a sample says which of its two write-once records exist, and that they agree. */
  lemma StatusTellsEvidence(p: Policy, clock: Time, steps: seq<Step>, id: Id)
    requires ValidPolicy(p) && Runnable(p, Start(clock), steps)
    requires id in Exec(p, Start(clock), steps).samples
    ensures var s := Exec(p, Start(clock), steps);
      var sample := s.samples[id];
      && (sample.status in {Queued, Generating} ==> id !in s.artifacts)
      && (sample.status in {Generated, Evaluating, Completed} ==> id in s.artifacts)
      && (sample.evaluation in s.snapshots <==> sample.status == Completed)
      && (sample.status == Completed ==> s.snapshots[sample.evaluation] == s.artifacts[id])
  {
    hide Runnable, Exec, Inv;
    ReachableInv(p, clock, steps);
    RowFacts(p, Exec(p, Start(clock), steps), id);
  }

  /** A worker whose attempt was recovered or reassigned writes nothing, whatever it tries. */
  lemma StaleWorkerChangesNothing(p: Policy, s: System, w: WorkerId, step: Step)
    requires Inv(p, s) && Enabled(s, step)
    requires step.CommitRenewal? || step.LoseRenewal? || step.StoreArtifact? || step.Complete? || step.Fail?
    requires step.worker == w
    requires var row := s.samples[s.running[w].id];
      row.attempts != s.running[w].number || row.worker != Some(w)
    ensures Store(Apply(p, s, step)) == Store(s)
  {
    hide Inv, AfterRelease, AfterComplete, AfterStore, AfterRenew, Owns, MailEnabled;
    forall now ensures !Owns(Store(s), s.running[w].id, w, now) {
      StaleOwnsNothing(p, s, w, now);
    }
  }

  /** The clock reading that a write of the worker carries. */
  function ReadingOf(s: System, step: Step): Time
    requires Enabled(s, step)
    requires step.CommitRenewal? || step.LoseRenewal? || step.StoreArtifact? || step.Complete? || step.Fail?
  {
    if step.CommitRenewal? || step.LoseRenewal? then s.running[step.worker].renewedAt else step.now
  }

  /** Nor does a write whose reading is not before the stored expiry, even if nobody recovered the row. */
  lemma ExpiredLeaseChangesNothing(p: Policy, s: System, step: Step)
    requires Enabled(s, step)
    requires step.CommitRenewal? || step.LoseRenewal? || step.StoreArtifact? || step.Complete? || step.Fail?
    requires var row := s.samples[s.running[step.worker].id];
      row.lease.Some? ==> row.lease.value <= ReadingOf(s, step)
    ensures Store(Apply(p, s, step)) == Store(s)
  {
    hide AfterRelease, AfterComplete, AfterStore, AfterRenew, MailEnabled, FreshPlan, AfterPlan;
    assert !Owns(Store(s), s.running[step.worker].id, step.worker, ReadingOf(s, step));
  }

  lemma StaleOwnsNothing(p: Policy, s: System, w: WorkerId, now: Time)
    requires Inv(p, s) && Working(s, w)
    requires var row := s.samples[s.running[w].id];
      row.attempts != s.running[w].number || row.worker != Some(w)
    ensures !Owns(Store(s), s.running[w].id, w, now)
  {
    hide Inv;
    WorkerFacts(p, s, w);
  }

  function Fuel(s: Sample): int {
    4 * (s.maxAttempts - s.attempts)
      + if s.status == Generating then 3 else if s.status == Evaluating then 2
        else if Terminal(s.status) then 0 else 1
  }

  predicate SameLifecycle(a: Sample, b: Sample) {
    a.status == b.status && a.attempts == b.attempts
  }

  predicate SampleAdvances(before: Sample, after: Sample) {
    && after.maxAttempts == before.maxAttempts
    && after.evaluation == before.evaluation
    && after.run == before.run
    && (SameLifecycle(before, after) || Fuel(after) < Fuel(before))
    && (Terminal(before.status) ==> after == before)
  }

  /** Records already written stay as they are. */
  predicate Extends(a: map<Id, string>, b: map<Id, string>) {
    forall k :: k in a ==> k in b && b[k] == a[k]
  }

  /** No row moves back, no row disappears, and no record is rewritten. */
  predicate StoreAdvances(db: Db, db': Db) {
    && (forall id :: id in db.samples ==>
          id in db'.samples && SampleAdvances(db.samples[id], db'.samples[id]))
    && Extends(db.artifacts, db'.artifacts)
    && Extends(db.snapshots, db'.snapshots)
  }

  lemma OneRowAdvances(db: Db, db': Db, id: Id, s: Sample)
    requires id in db.samples && db'.samples == db.samples[id := s] && SampleAdvances(db.samples[id], s)
    requires Extends(db.artifacts, db'.artifacts) && Extends(db.snapshots, db'.snapshots)
    ensures StoreAdvances(db, db')
  {
  }

  lemma ReleaseAdvances(db: Db, id: Id, retryable: bool, final: Status, now: Time, base: real)
    requires id in db.samples && db.samples[id].attempts > 0 && InProgress(db.samples[id].status)
    requires Terminal(final)
    ensures StoreAdvances(db, AfterRelease(db, id, retryable, final, now, base))
  {
    hide StoreAdvances, Remaining, SkippedOf, RetryDelay;
    OneRowAdvances(db, AfterRelease(db, id, retryable, final, now, base), id,
                   ReleasedSample(db.samples[id], id in db.artifacts, retryable, final));
  }

  lemma CompleteAdvances(db: Db, id: Id, w: WorkerId, hash: string, now: Time)
    requires id in db.samples && CanComplete(db, id, w, db.samples[id].evaluation, hash, now)
    requires db.samples[id].attempts <= db.samples[id].maxAttempts
    ensures StoreAdvances(db, AfterComplete(db, id, hash, now))
  {
    hide StoreAdvances, Remaining, SkippedOf;
    OneRowAdvances(db, AfterComplete(db, id, hash, now), id, CompletedSample(db.samples[id]));
  }

  lemma ClaimAdvances(db: Db, id: Id, w: WorkerId, now: Time, lease: real)
    requires CanClaim(db, id)
    ensures StoreAdvances(db, AfterClaim(db, id, w, now, lease))
  {
    hide StoreAdvances, StartedRuns;
    OneRowAdvances(db, AfterClaim(db, id, w, now, lease), id,
                   ClaimedSample(db.samples[id], id in db.artifacts, w, now, lease));
  }

  lemma RenewAdvances(db: Db, id: Id, w: WorkerId, now: Time, lease: real)
    requires Owns(db, id, w, now)
    ensures StoreAdvances(db, AfterRenew(db, id, now, lease))
  {
    hide StoreAdvances;
    OneRowAdvances(db, AfterRenew(db, id, now, lease), id,
                   db.samples[id].(lease := Some(now + lease)));
  }

  lemma StoringAdvances(db: Db, id: Id, w: WorkerId, hash: string, now: Time)
    requires CanStore(db, id, w, now)
    ensures StoreAdvances(db, AfterStore(db, id, hash))
  {
    hide StoreAdvances;
    OneRowAdvances(db, AfterStore(db, id, hash), id, db.samples[id].(status := Evaluating));
  }

  lemma NothingAdvances(db: Db)
    ensures StoreAdvances(db, db)
  {
  }

  lemma StepAdvancesStore(p: Policy, s: System, step: Step)
    requires Inv(p, s) && Enabled(s, step)
    ensures StoreAdvances(Store(s), Store(Apply(p, s, step)))
  {
    hide Inv, StoreAdvances, MailApply, MailEnabled, AfterRelease, AfterComplete, AfterClaim, AfterStore,
         AfterRenew, AfterPlan, FreshPlan;
    NothingAdvances(Store(s));
    match step
    case Post(m) => PostAdvances(p, s, m);
    case Plan(run, plan, maxAttempts) => PlanAdvances(Store(s), run, plan, maxAttempts, s.mail.clock);
    case Claim(w, now) =>
      if CanClaim(Store(s), s.mail.held[w].message.item) {
        ClaimAdvances(Store(s), s.mail.held[w].message.item, w, now, p.lease);
      }
    case StoreArtifact(w, hash, now) =>
      if CanStore(Store(s), s.running[w].id, w, now) {
        StoringAdvances(Store(s), s.running[w].id, w, hash, now);
      }
    case CommitRenewal(w) =>
      if Owns(Store(s), s.running[w].id, w, s.running[w].renewedAt) {
        RenewAdvances(Store(s), s.running[w].id, w, s.running[w].renewedAt, p.lease);
      }
    case LoseRenewal(w, _) =>
      if Owns(Store(s), s.running[w].id, w, s.running[w].renewedAt) {
        RenewAdvances(Store(s), s.running[w].id, w, s.running[w].renewedAt, p.lease);
      }
    case Complete(w, now) =>
      var a := s.running[w];
      RowFacts(p, s, a.id);
      if CanComplete(Store(s), a.id, w, s.samples[a.id].evaluation, a.snapshot.value, now) {
        CompleteAdvances(Store(s), a.id, w, a.snapshot.value, now);
      }
    case Fail(w, generation, retryable, now) =>
      var id := s.running[w].id;
      if Owns(Store(s), id, w, now) && s.samples[id].attempts > 0 {
        ReleaseAdvances(Store(s), id, retryable, FinalStatus(generation), now, p.base);
      }
    case Recover(id, now) =>
      if s.samples[id].attempts > 0 {
        ReleaseAdvances(Store(s), id, true, Skipped, now, p.base);
      }
    case Reconcile(run) => FinishAdvances(Store(s), run, s.mail.clock);
    case _ =>
  }

  lemma PostAdvances(p: Policy, s: System, m: MailStep)
    requires Enabled(s, Post(m))
    ensures StoreAdvances(Store(s), Store(Apply(p, s, Post(m))))
  {
    hide MailApply, MailEnabled;
  }

  lemma PlanAdvances(db: Db, run: Id, plan: seq<Planned>, maxAttempts: nat, now: Time)
    requires FreshPlan(db, run, plan)
    ensures StoreAdvances(db, AfterPlan(db, run, plan, maxAttempts, now))
  {
    hide AfterPlan;
    PlanFacts(db, run, plan, maxAttempts, now);
  }

  lemma FinishAdvances(db: Db, run: Id, now: Time)
    ensures StoreAdvances(db, AfterFinish(db, run, now))
  {
    hide Remaining, SkippedOf;
  }

  function LifecycleChanges(p: Policy, s: System, steps: seq<Step>, id: Id): nat
    requires Runnable(p, s, steps)
    decreases steps
  {
    if steps == [] then 0
    else
      var s' := Apply(p, s, steps[0]);
      (if id in s.samples && id in s'.samples && !SameLifecycle(s.samples[id], s'.samples[id]) then 1 else 0)
        + LifecycleChanges(p, s', steps[1..], id)
  }

  /** Bounded lifecycle, absorbing terminal statuses, and records that are written once. */
  lemma {:induction false} SampleProgressIsBounded(p: Policy, s: System, steps: seq<Step>, id: Id)
    requires ValidPolicy(p) && Inv(p, s) && Runnable(p, s, steps) && id in s.samples
    ensures var s' := Exec(p, s, steps);
      && id in s'.samples
      && 0 <= Fuel(s'.samples[id])
      && LifecycleChanges(p, s, steps, id) + Fuel(s'.samples[id]) <= Fuel(s.samples[id])
      && s'.samples[id].run == s.samples[id].run
      && (Terminal(s.samples[id].status) ==> s'.samples[id] == s.samples[id])
      && Extends(s.artifacts, s'.artifacts) && Extends(s.snapshots, s'.snapshots)
    decreases steps
  {
    hide Inv, Enabled, Apply;
    if steps == [] {
      RowFacts(p, s, id);
    } else {
      var s' := Apply(p, s, steps[0]);
      StepKeepsInv(p, s, steps[0]);
      StepAdvancesStore(p, s, steps[0]);
      assert SampleAdvances(s.samples[id], s'.samples[id]);
      SampleProgressIsBounded(p, s', steps[1..], id);
    }
  }

  // ----- Runs -----

  /**
    In every reachable state a run is queued exactly until one of its samples is first claimed, is
    finished exactly when all of them have ended, and is partial exactly when one was skipped.
  */
  lemma RunSaysWhatItsSamplesSay(p: Policy, clock: Time, steps: seq<Step>, run: Id)
    requires ValidPolicy(p) && Runnable(p, Start(clock), steps)
    requires run in Exec(p, Start(clock), steps).runs
    ensures var s := Exec(p, Start(clock), steps);
      var record := s.runs[run];
      var ended := record.status == RunCompleted || record.status == RunPartial;
      && (ended <==> forall id :: id in s.samples && s.samples[id].run == run ==> Terminal(s.samples[id].status))
      && (record.status == RunPartial <==>
            ended && exists id :: id in s.samples && s.samples[id].run == run && s.samples[id].status == Skipped)
      && (record.status == RunQueued <==>
            forall id :: id in s.samples && s.samples[id].run == run ==> s.samples[id].attempts == 0)
      && (record.completedAt.Some? <==> ended)
      && (record.startedAt.Some? <==> record.status != RunQueued)
  {
    hide Runnable, Exec, MailOk, AttemptsOk, SamplesValid, Sealed;
    ReachableInv(p, clock, steps);
    var s := Exec(p, Start(clock), steps);
    assert RunOk(s.samples, run, s.runs[run]);
  }

  /** A transaction that ends a sample cannot touch a run that has ended. */
  lemma EndedRunIsClosed(p: Policy, s: System, run: Id, id: Id)
    requires Inv(p, s) && run in s.runs && RunEnded(s.runs[run]) && id in s.samples && s.samples[id].run == run
    ensures Terminal(s.samples[id].status)
  {
    hide MailOk, AttemptsOk, SamplesValid, Sealed;
    assert RunOk(s.samples, run, s.runs[run]);
  }

  lemma FinishTouchesOne(db: Db, run: Id, now: Time)
    ensures AfterFinish(db, run, now).runs.Keys == db.runs.Keys
    ensures forall other :: other in db.runs && other != run ==> AfterFinish(db, run, now).runs[other] == db.runs[other]
  {
    hide Remaining, SkippedOf;
  }

  lemma ReleaseTouchesOne(db: Db, id: Id, retryable: bool, final: Status, now: Time, base: real, run: Id)
    requires id in db.samples && db.samples[id].attempts > 0 && run in db.runs && db.samples[id].run != run
    ensures var after := AfterRelease(db, id, retryable, final, now, base);
      run in after.runs && after.runs[run] == db.runs[run]
  {
    hide AfterFinish, RetryDelay;
    FinishTouchesOne(db.(samples := db.samples[id := ReleasedSample(db.samples[id], id in db.artifacts, retryable, final)]),
                     db.samples[id].run, now);
  }

  lemma CompleteTouchesOne(db: Db, id: Id, hash: string, now: Time, run: Id)
    requires id in db.samples && run in db.runs && db.samples[id].run != run
    ensures var after := AfterComplete(db, id, hash, now); run in after.runs && after.runs[run] == db.runs[run]
  {
    hide AfterFinish;
    var row := db.samples[id];
    FinishTouchesOne(db.(samples := db.samples[id := CompletedSample(row)],
                         snapshots := db.snapshots[row.evaluation := hash]), row.run, now);
  }

  lemma StepKeepsEndedRun(p: Policy, s: System, step: Step, run: Id)
    requires Inv(p, s) && Enabled(s, step) && run in s.runs && RunEnded(s.runs[run])
    ensures run in Apply(p, s, step).runs && Apply(p, s, step).runs[run] == s.runs[run]
  {
    hide Inv, MailApply, MailEnabled, AfterRelease, AfterComplete, AfterStore, AfterRenew, AfterPlan, FreshPlan,
         AfterFinish, Owns;
    match step
    case Plan(other, plan, maxAttempts) =>
      FreshIsDistinct(Store(s), other, plan);
      PlanFacts(Store(s), other, plan, maxAttempts, s.mail.clock);
    case Complete(w, now) =>
      var id := s.running[w].id;
      if CanComplete(Store(s), id, w, s.samples[id].evaluation, s.running[w].snapshot.value, now) {
        OwnedIsOpen(p, s, run, id, w, now);
        CompleteTouchesOne(Store(s), id, s.running[w].snapshot.value, now, run);
      }
    case Fail(w, generation, retryable, now) =>
      var id := s.running[w].id;
      if Owns(Store(s), id, w, now) && s.samples[id].attempts > 0 {
        OwnedIsOpen(p, s, run, id, w, now);
        ReleaseTouchesOne(Store(s), id, retryable, FinalStatus(generation), now, p.base, run);
      }
    case Recover(id, now) =>
      if s.samples[id].run == run {
        EndedRunIsClosed(p, s, run, id);
      }
      if s.samples[id].attempts > 0 {
        ReleaseTouchesOne(Store(s), id, true, Skipped, now, p.base, run);
      }
    case Reconcile(_) => ReconcileIsIdle(p, s, step.run);
    case StoreArtifact(_, _, _) => RowsOnly(Store(s));
    case CommitRenewal(_) => RowsOnly(Store(s));
    case LoseRenewal(_, _) => RowsOnly(Store(s));
    case _ =>
  }

  lemma RowsOnly(db: Db)
    ensures forall id, hash :: id in db.samples ==> AfterStore(db, id, hash).runs == db.runs
    ensures forall id, now, lease :: id in db.samples ==> AfterRenew(db, id, now, lease).runs == db.runs
  {
  }

  lemma OwnedIsOpen(p: Policy, s: System, run: Id, id: Id, w: WorkerId, now: Time)
    requires Inv(p, s) && run in s.runs && RunEnded(s.runs[run]) && Owns(Store(s), id, w, now)
    ensures s.samples[id].run != run
  {
    hide Inv;
    if s.samples[id].run == run {
      EndedRunIsClosed(p, s, run, id);
    }
  }

  /** Once a run has ended its record never changes. */
  lemma {:induction false} EndedRunsStay(p: Policy, s: System, steps: seq<Step>, run: Id)
    requires ValidPolicy(p) && Inv(p, s) && Runnable(p, s, steps) && run in s.runs && RunEnded(s.runs[run])
    ensures run in Exec(p, s, steps).runs && Exec(p, s, steps).runs[run] == s.runs[run]
    decreases steps
  {
    hide Inv, Enabled, Apply;
    if steps != [] {
      StepKeepsInv(p, s, steps[0]);
      StepKeepsEndedRun(p, s, steps[0], run);
      EndedRunsStay(p, Apply(p, s, steps[0]), steps[1..], run);
    }
  }
}
