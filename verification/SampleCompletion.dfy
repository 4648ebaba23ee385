/**
  What "no lost work" is good for: from every reachable state a claimable sample can still be
  completed, one whose worker is gone can be recovered, and so every run can still be finished.
*/
module SampleCompletion {
  import opened Core
  import opened Delivery
  import opened SampleRepository
  import opened SampleProtocol

  /** No step of the continuation plans further samples. */
  predicate Quiet(steps: seq<Step>) {
    forall i :: 0 <= i < |steps| ==> !steps[i].Plan?
  }

  ghost predicate ReachesBy(p: Policy, s: System, id: Id, goal: set<Status>, steps: seq<Step>) {
    && Quiet(steps)
    && Runnable(p, s, steps)
    && id in Exec(p, s, steps).samples
    && Exec(p, s, steps).samples[id].status in goal
  }

  /** Some continuation ends with the sample in one of these statuses. */
  ghost predicate CanReach(p: Policy, s: System, id: Id, goal: set<Status>) {
    exists steps :: ReachesBy(p, s, id, goal, steps)
  }

  lemma ReachedAlready(p: Policy, s: System, id: Id, goal: set<Status>)
    requires id in s.samples && s.samples[id].status in goal
    ensures CanReach(p, s, id, goal)
  {
    hide Enabled, Apply;
    assert ReachesBy(p, s, id, goal, []);
  }

  lemma ReachAfter(p: Policy, s: System, step: Step, id: Id, goal: set<Status>)
    requires Enabled(s, step) && !step.Plan? && CanReach(p, Apply(p, s, step), id, goal)
    ensures CanReach(p, s, id, goal)
  {
    hide Enabled, Apply;
    var rest :| ReachesBy(p, Apply(p, s, step), id, goal, rest);
    var steps := [step] + rest;
    assert steps[1..] == rest;
    assert ReachesBy(p, s, id, goal, steps);
  }

  lemma ReachWider(p: Policy, s: System, id: Id, goal: set<Status>, wider: set<Status>)
    requires CanReach(p, s, id, goal) && goal <= wider
    ensures CanReach(p, s, id, wider)
  {
    hide Runnable, Exec;
    var steps :| ReachesBy(p, s, id, goal, steps);
    assert ReachesBy(p, s, id, wider, steps);
  }

  // ----- From a claimed attempt to completion -----

  /** The worker holds the row's artifact; it evaluates and completes within its lease. */
  lemma ArtifactLeadsToCompletion(p: Policy, s: System, w: WorkerId)
    requires ValidPolicy(p) && SampleProtocol.Inv(p, s) && Working(s, w)
    requires Owns(Store(s), s.running[w].id, w, s.mail.clock) && s.running[w].artifact.Some?
    ensures CanReach(p, s, s.running[w].id, {Completed})
  {
    hide SampleProtocol.Inv, CanReach, AfterFinish;
    var id, now := s.running[w].id, s.mail.clock;
    RowFacts(p, s, id);
    var evaluated := Apply(p, s, Evaluate(w));
    var completed := Apply(p, evaluated, Complete(w, now));
    var db, row, hash := Store(evaluated), s.samples[id], evaluated.running[w].snapshot.value;
    FinishKeepsRows(db.(samples := db.samples[id := CompletedSample(row)],
                           snapshots := db.snapshots[row.evaluation := hash]), row.run, now);
    ReachedAlready(p, completed, id, {Completed});
    ReachAfter(p, evaluated, Complete(w, now), id, {Completed});
    ReachAfter(p, s, Evaluate(w), id, {Completed});
  }

  /** A claim resumes with the stored artifact, or generates one. */
  lemma ClaimLeadsToCompletion(p: Policy, s: System, w: WorkerId)
    requires ValidPolicy(p) && SampleProtocol.Inv(p, s) && Working(s, w)
    requires Owns(Store(s), s.running[w].id, w, s.mail.clock) && s.running[w].artifact.None?
    ensures CanReach(p, s, s.running[w].id, {Completed})
  {
    hide SampleProtocol.Inv, CanReach;
    var id := s.running[w].id;
    RowFacts(p, s, id);
    var step := if id in s.artifacts then ReadArtifact(w) else StoreArtifact(w, "", s.mail.clock);
    StepKeepsInv(p, s, step);
    ArtifactLeadsToCompletion(p, Apply(p, s, step), w);
    ReachAfter(p, s, step, id, {Completed});
  }

  lemma MessageLeadsToCompletion(p: Policy, s: System, id: Id, m: nat)
    requires ValidPolicy(p) && SampleProtocol.Inv(p, s) && id in s.samples && Claimable(s.samples[id].status)
    requires m in s.mail.messages && s.mail.messages[m].item == id
    ensures CanReach(p, s, id, {Completed})
  {
    hide SampleProtocol.Inv, CanReach, StartedRuns;
    var w := Unused(s.mail.held.Keys + s.running.Keys);
    var now := s.mail.clock;
    var receive := Post(Deliver(w, m));
    var received := Apply(p, s, receive);
    StepKeepsInv(p, s, receive);
    HoldFacts(p, received, w);
    var claimed := Apply(p, received, Claim(w, now));
    StepKeepsInv(p, received, Claim(w, now));
    ClaimLeadsToCompletion(p, claimed, w);
    ReachAfter(p, received, Claim(w, now), id, {Completed});
    ReachAfter(p, s, receive, id, {Completed});
  }

  lemma HoldFacts(p: Policy, s: System, w: WorkerId)
    requires SampleProtocol.Inv(p, s) && w in s.mail.held
    ensures s.mail.held[w].message.enqueuedAt <= s.mail.clock
  {
    hide MailOk, SamplesValid, Sealed, RunsOk, AttemptsOk;
    HoldIsBehind(s.samples, s.mail, w);
  }

  lemma EventLeadsToCompletion(p: Policy, s: System, id: Id, e: nat)
    requires ValidPolicy(p) && SampleProtocol.Inv(p, s) && id in s.samples && Claimable(s.samples[id].status)
    requires e in s.mail.outbox.events && s.mail.outbox.events[e].item == id
    requires !s.mail.outbox.events[e].published && s.mail.outbox.events[e].ready <= s.mail.clock
    ensures CanReach(p, s, id, {Completed})
  {
    hide SampleProtocol.Inv, CanReach;
    var l := Unused(s.mail.listings.Keys);
    var list, enqueue := Post(ListReady(l, e)), Post(Enqueue(l));
    var listed := Apply(p, s, list);
    StepKeepsInv(p, s, list);
    var queued := Apply(p, listed, enqueue);
    StepKeepsInv(p, listed, enqueue);
    MessageLeadsToCompletion(p, queued, id, s.mail.nextMessage);
    ReachAfter(p, listed, enqueue, id, {Completed});
    ReachAfter(p, s, list, id, {Completed});
  }

  lemma WaitingSampleCanComplete(p: Policy, s: System, id: Id)
    requires ValidPolicy(p) && SampleProtocol.Inv(p, s) && id in s.samples && Claimable(s.samples[id].status)
    ensures CanReach(p, s, id, {Completed})
  {
    hide SampleProtocol.Inv, CanReach, HasUnpublished, HasMessage;
    WakeUpExists(p, s, id);
    if HasMessage(s.mail.messages, id, s.samples[id].attempts) {
      var m := MessageFor(s.mail, id, s.samples[id].attempts);
      MessageLeadsToCompletion(p, s, id, m);
    } else {
      var e := EventFor(s.mail, id, s.samples[id].attempts);
      var wait := Post(Tick(Later(s.mail.clock, s.mail.outbox.events[e].ready)));
      StepKeepsInv(p, s, wait);
      EventLeadsToCompletion(p, Apply(p, s, wait), id, e);
      ReachAfter(p, s, wait, id, {Completed});
    }
  }

  lemma WakeUpExists(p: Policy, s: System, id: Id)
    requires SampleProtocol.Inv(p, s) && id in s.samples && Claimable(s.samples[id].status)
    ensures HasUnpublished(s.mail.outbox, id, s.samples[id].attempts)
         || HasMessage(s.mail.messages, id, s.samples[id].attempts)
  {
    hide Delivery.Inv, SamplesValid, Sealed, RunsOk, AttemptsOk;
    InvImpliesNoLostWork(RowViews(s.samples), s.mail);
    assert RowViews(s.samples)[id] == ViewOf(s.samples[id]);
  }

  // ----- Recovery -----

  /** A sample in progress outlives its worker: it waits again, or is skipped after its last attempt. */
  lemma ActiveSampleCanFinish(p: Policy, s: System, id: Id)
    requires ValidPolicy(p) && SampleProtocol.Inv(p, s) && id in s.samples && InProgress(s.samples[id].status)
    ensures CanReach(p, s, id, {Completed, Skipped})
    ensures s.samples[id].attempts < s.samples[id].maxAttempts ==> CanReach(p, s, id, {Completed})
  {
    hide SampleProtocol.Inv, CanReach, AfterFinish;
    RowFacts(p, s, id);
    var row := s.samples[id];
    var wait := Post(Tick(Later(s.mail.clock, row.lease.value + 1.0)));
    var waited := Apply(p, s, wait);
    StepKeepsInv(p, s, wait);
    var recover := Recover(id, waited.mail.clock);
    var recovered := Apply(p, waited, recover);
    StepKeepsInv(p, waited, recover);
    FinishKeepsRows(Store(waited).(samples :=
      Store(waited).samples[id := ReleasedSample(row, id in s.artifacts, true, Skipped)]),
                       row.run, waited.mail.clock);
    if row.attempts < row.maxAttempts {
      WaitingSampleCanComplete(p, recovered, id);
      ReachAfter(p, waited, recover, id, {Completed});
      ReachAfter(p, s, wait, id, {Completed});
      ReachWider(p, s, id, {Completed}, {Completed, Skipped});
    } else {
      ReachedAlready(p, recovered, id, {Completed, Skipped});
      ReachAfter(p, waited, recover, id, {Completed, Skipped});
      ReachAfter(p, s, wait, id, {Completed, Skipped});
    }
  }

  const Ends: set<Status> := {Completed, GenerationFailed, EvaluationFailed, Skipped}

  lemma SampleCanFinish(p: Policy, s: System, id: Id)
    requires ValidPolicy(p) && SampleProtocol.Inv(p, s) && id in s.samples
    ensures CanReach(p, s, id, Ends)
    ensures !Terminal(s.samples[id].status) && s.samples[id].attempts < s.samples[id].maxAttempts ==>
      CanReach(p, s, id, {Completed})
  {
    hide SampleProtocol.Inv, CanReach;
    if Claimable(s.samples[id].status) {
      WaitingSampleCanComplete(p, s, id);
      ReachWider(p, s, id, {Completed}, Ends);
    } else if InProgress(s.samples[id].status) {
      ActiveSampleCanFinish(p, s, id);
      ReachWider(p, s, id, {Completed, Skipped}, Ends);
    } else {
      ReachedAlready(p, s, id, Ends);
    }
  }

  // ----- Whole runs -----

  lemma {:induction false} ExecJoin(p: Policy, s: System, a: seq<Step>, b: seq<Step>)
    requires Runnable(p, s, a) && Runnable(p, Exec(p, s, a), b)
    ensures Runnable(p, s, a + b) && Exec(p, s, a + b) == Exec(p, Exec(p, s, a), b)
    decreases |a|
  {
    hide Enabled, Apply;
    if a == [] {
      assert a + b == b;
    } else {
      ExecJoin(p, Apply(p, s, a[0]), a[1..], b);
      assert (a + b)[0] == a[0] && (a + b)[1..] == a[1..] + b;
    }
  }

  predicate SameRows(db: Db, db': Db) {
    db'.samples.Keys == db.samples.Keys && db'.runs.Keys == db.runs.Keys
  }

  lemma ReleaseKeepsRows(db: Db, id: Id, retryable: bool, final: Status, now: Time, base: real)
    requires id in db.samples && db.samples[id].attempts > 0
    ensures SameRows(db, AfterRelease(db, id, retryable, final, now, base))
  {
    hide AfterFinish;
    var released := ReleasedSample(db.samples[id], id in db.artifacts, retryable, final);
    FinishKeepsRows(db.(samples := db.samples[id := released]), db.samples[id].run, now);
  }

  lemma CompleteKeepsRows(db: Db, id: Id, hash: string, now: Time)
    requires id in db.samples
    ensures SameRows(db, AfterComplete(db, id, hash, now))
  {
    hide AfterFinish;
    var row := db.samples[id];
    FinishKeepsRows(db.(samples := db.samples[id := CompletedSample(row)],
                           snapshots := db.snapshots[row.evaluation := hash]), row.run, now);
  }

  lemma OthersKeepRows(db: Db, id: Id)
    requires id in db.samples
    ensures forall w, now, lease :: SameRows(db, AfterClaim(db, id, w, now, lease))
    ensures forall now, lease :: SameRows(db, AfterRenew(db, id, now, lease))
    ensures forall hash :: SameRows(db, AfterStore(db, id, hash))
  {
  }

  lemma QuietStep(p: Policy, s: System, step: Step)
    requires Enabled(s, step) && !step.Plan?
    ensures SameRows(Store(s), Store(Apply(p, s, step)))
  {
    hide AfterRelease, AfterComplete, AfterClaim, AfterRenew, AfterStore, AfterFinish, MailApply, MailEnabled,
         Owns, CanComplete, SameRows;
    NothingKeepsRows(Store(s));
    match step
    case Post(m) => PostKeepsRows(p, s, m);
    case Claim(w, _) =>
      if CanClaim(Store(s), s.mail.held[w].message.item) {
        OthersKeepRows(Store(s), s.mail.held[w].message.item);
      }
    case CommitRenewal(w) => OthersKeepRows(Store(s), s.running[w].id);
    case LoseRenewal(w, _) => OthersKeepRows(Store(s), s.running[w].id);
    case StoreArtifact(w, _, _) => OthersKeepRows(Store(s), s.running[w].id);
    case Complete(w, now) =>
      CompleteKeepsRows(Store(s), s.running[w].id, s.running[w].snapshot.value, now);
    case Fail(w, generation, retryable, now) =>
      if s.samples[s.running[w].id].attempts > 0 {
        ReleaseKeepsRows(Store(s), s.running[w].id, retryable, FinalStatus(generation), now, p.base);
      }
    case Recover(id, now) =>
      if s.samples[id].attempts > 0 {
        ReleaseKeepsRows(Store(s), id, true, Skipped, now, p.base);
      }
    case Reconcile(run) => DerivingKeepsRows(Store(s), run, s.mail.clock);
    case _ =>
  }

  lemma NothingKeepsRows(db: Db)
    ensures SameRows(db, db)
  {
  }

  lemma DerivingKeepsRows(db: Db, run: Id, now: Time)
    ensures SameRows(db, AfterFinish(db, run, now))
  {
    FinishKeepsRows(db, run, now);
  }

  lemma PostKeepsRows(p: Policy, s: System, m: MailStep)
    requires Enabled(s, Post(m))
    ensures SameRows(Store(s), Store(Apply(p, s, Post(m))))
  {
    hide MailApply, MailEnabled;
  }

  lemma {:induction false} QuietKeepsRows(p: Policy, s: System, steps: seq<Step>)
    requires Runnable(p, s, steps) && Quiet(steps)
    ensures Exec(p, s, steps).samples.Keys == s.samples.Keys
    ensures Exec(p, s, steps).runs.Keys == s.runs.Keys
    decreases |steps|
  {
    hide Enabled, Apply;
    if steps != [] {
      QuietStep(p, s, steps[0]);
      QuietKeepsRows(p, Apply(p, s, steps[0]), steps[1..]);
    }
  }

  /** Finishing one sample leaves the finished ones finished. */
  lemma FewerRemain(p: Policy, s: System, run: Id, id: Id, steps: seq<Step>)
    requires ValidPolicy(p) && SampleProtocol.Inv(p, s) && id in Remaining(s.samples, run)
    requires ReachesBy(p, s, id, Ends, steps)
    ensures Remaining(Exec(p, s, steps).samples, run) < Remaining(s.samples, run)
  {
    hide SampleProtocol.Inv, Runnable, Exec;
    var s' := Exec(p, s, steps);
    QuietKeepsRows(p, s, steps);
    forall x | x in Remaining(s'.samples, run) ensures x in Remaining(s.samples, run) {
      SampleProgressIsBounded(p, s, steps, x);
    }
    assert id !in Remaining(s'.samples, run);
  }

  lemma {:induction false} DriveRun(p: Policy, s: System, run: Id) returns (steps: seq<Step>)
    requires ValidPolicy(p) && SampleProtocol.Inv(p, s)
    ensures Quiet(steps) && Runnable(p, s, steps) && SampleProtocol.Inv(p, Exec(p, s, steps))
    ensures Remaining(Exec(p, s, steps).samples, run) == {}
    decreases |Remaining(s.samples, run)|
  {
    hide SampleProtocol.Inv, Enabled, Apply, Remaining;
    steps := [];
    if Remaining(s.samples, run) != {} {
      var id := PickRemaining(s.samples, run);
      SampleCanFinish(p, s, id);
      var first :| ReachesBy(p, s, id, Ends, first);
      FewerRemain(p, s, run, id, first);
      Smaller(Remaining(Exec(p, s, first).samples, run), Remaining(s.samples, run));
      RunKeepsInv(p, s, first);
      var rest := DriveRun(p, Exec(p, s, first), run);
      ExecJoin(p, s, first, rest);
      steps := first + rest;
    }
  }

  lemma PickRemaining(samples: map<Id, Sample>, run: Id) returns (id: Id)
    requires Remaining(samples, run) != {}
    ensures id in Remaining(samples, run) && id in samples
  {
    id :| id in Remaining(samples, run);
  }

  lemma Smaller(a: set<Id>, b: set<Id>)
    requires a < b
    ensures |a| < |b|
  {
    assert b == a + (b - a);
    assert b - a != {};
  }

  /** The run is finished, and partial exactly when one of its samples was skipped. */
  ghost predicate Finished(s: System, run: Id) {
    && run in s.runs
    && Over(s.samples, run)
    && s.runs[run].status == (if SomeSkipped(s.samples, run) then RunPartial else RunCompleted)
    && s.runs[run].completedAt.Some?
  }

  ghost predicate FinishesBy(p: Policy, s: System, run: Id, steps: seq<Step>) {
    Runnable(p, s, steps) && Finished(Exec(p, s, steps), run)
  }

  /** When no sample remains the run has been finished by the transaction that ended the last one. */
  lemma NothingRemains(p: Policy, s: System, run: Id)
    requires SampleProtocol.Inv(p, s) && run in s.runs && Remaining(s.samples, run) == {}
    ensures Finished(s, run)
  {
    hide MailOk, AttemptsOk, SamplesValid, Sealed, Remaining, SkippedOf;
    CountsAgree(s.samples, run);
    assert RunOk(s.samples, run, s.runs[run]);
  }

  /** In every reachable state every run can still be finished, whoever has crashed. */
  lemma EveryRunCanFinish(p: Policy, clock: Time, steps: seq<Step>, run: Id)
    requires ValidPolicy(p) && Runnable(p, Start(clock), steps)
    requires run in Exec(p, Start(clock), steps).runs
    ensures exists rest :: FinishesBy(p, Exec(p, Start(clock), steps), run, rest)
  {
    hide SampleProtocol.Inv, Runnable, Exec, Remaining, Finished;
    ReachableInv(p, clock, steps);
    var s := Exec(p, Start(clock), steps);
    var rest := DriveRun(p, s, run);
    QuietKeepsRows(p, s, rest);
    NothingRemains(p, Exec(p, s, rest), run);
    assert FinishesBy(p, s, run, rest);
  }

  /** In every reachable state a sample with an attempt left can still be completed. */
  lemma EverySampleCanFinish(p: Policy, clock: Time, steps: seq<Step>, id: Id)
    requires ValidPolicy(p) && Runnable(p, Start(clock), steps)
    requires id in Exec(p, Start(clock), steps).samples
    ensures var s := Exec(p, Start(clock), steps);
      && CanReach(p, s, id, Ends)
      && (!Terminal(s.samples[id].status) && s.samples[id].attempts < s.samples[id].maxAttempts ==>
            CanReach(p, s, id, {Completed}))
  {
    hide SampleProtocol.Inv, CanReach, Runnable, Exec;
    ReachableInv(p, clock, steps);
    SampleCanFinish(p, Exec(p, Start(clock), steps), id);
  }

  /** Work gets done: from an empty store every plan can be created and its run finished. */
  lemma FirstRunCanFinish(p: Policy, clock: Time, run: Id, plan: seq<Planned>, maxAttempts: nat)
    requires ValidPolicy(p) && 0 < maxAttempts && FreshPlan(Store(Start(clock)), run, plan)
    ensures exists steps :: FinishesBy(p, Start(clock), run, steps)
  {
    hide SampleProtocol.Inv, Finished, Remaining, FreshPlan, AfterPlan;
    var create := Plan(run, plan, maxAttempts);
    var planned := Apply(p, Start(clock), create);
    StartSatisfiesInv(p, clock);
    StepKeepsInv(p, Start(clock), create);
    FreshIsDistinct(Store(Start(clock)), run, plan);
    PlanFacts(Store(Start(clock)), run, plan, maxAttempts, clock);
    FinishPlanned(p, clock, create, run);
  }

  lemma FinishPlanned(p: Policy, clock: Time, create: Step, run: Id)
    requires ValidPolicy(p) && Enabled(Start(clock), create)
    requires SampleProtocol.Inv(p, Apply(p, Start(clock), create)) && run in Apply(p, Start(clock), create).runs
    ensures exists steps :: FinishesBy(p, Start(clock), run, steps)
  {
    hide SampleProtocol.Inv, Finished, Remaining, Enabled, Apply;
    var planned := Apply(p, Start(clock), create);
    var rest := DriveRun(p, planned, run);
    QuietKeepsRows(p, planned, rest);
    NothingRemains(p, Exec(p, planned, rest), run);
    var steps := [create] + rest;
    assert steps[1..] == rest;
    assert FinishesBy(p, Start(clock), run, steps);
  }
}
