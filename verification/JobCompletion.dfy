/**
  What "no lost work" is good for: from every reachable state a claimable job can still be completed,
  and a running one whose worker is gone can be recovered. The steps that get there are exhibited.
*/
module JobCompletion {
  import opened Core
  import opened Delivery
  import opened JobRepository
  import opened JobProtocol

  /** Some continuation ends with the job in one of these statuses. */
  ghost predicate CanReach(p: Policy, s: System, id: Id, goal: set<Status>) {
    exists steps :: ReachesBy(p, s, id, goal, steps)
  }

  ghost predicate ReachesBy(p: Policy, s: System, id: Id, goal: set<Status>, steps: seq<Step>) {
    && Runnable(p, s, steps)
    && id in Exec(p, s, steps).jobs
    && Exec(p, s, steps).jobs[id].status in goal
  }

  lemma ReachedAlready(p: Policy, s: System, id: Id, goal: set<Status>)
    requires id in s.jobs && s.jobs[id].status in goal
    ensures CanReach(p, s, id, goal)
  {
    assert ReachesBy(p, s, id, goal, []);
  }

  lemma ReachAfter(p: Policy, s: System, step: Step, id: Id, goal: set<Status>)
    requires Enabled(s, step) && CanReach(p, Apply(p, s, step), id, goal)
    ensures CanReach(p, s, id, goal)
  {
    hide Enabled, Apply;
    var rest :| ReachesBy(p, Apply(p, s, step), id, goal, rest);
    var steps := [step] + rest;
    assert steps[1..] == rest;
    assert ReachesBy(p, s, id, goal, steps);
  }

  /** The row waits for a claim that may happen now. */
  predicate ClaimableNow(s: System, id: Id) {
    id in s.jobs && CanClaim(Store(s), id, s.mail.clock)
  }

  /** A free worker receives the message, claims the job, evaluates and completes it. */
  lemma MessageLeadsToCompletion(p: Policy, s: System, id: Id, m: nat)
    requires ValidPolicy(p) && JobProtocol.Inv(p, s) && ClaimableNow(s, id)
    requires m in s.mail.messages && s.mail.messages[m].item == id
    ensures CanReach(p, s, id, {Completed})
  {
    hide JobProtocol.Inv, CanReach;
    var w := Unused(s.mail.held.Keys + s.running.Keys);
    var now := s.mail.clock;
    var receive := Post(Deliver(w, m));
    var received := Apply(p, s, receive);
    StepKeepsInv(p, s, receive);
    HoldFacts(p, received, w);
    var claimed := Apply(p, received, Claim(w, now));
    StepKeepsInv(p, received, Claim(w, now));
    RowFacts(p, claimed, id);
    var completed := Apply(p, claimed, Complete(w, "", now));
    ReachedAlready(p, completed, id, {Completed});
    ReachAfter(p, claimed, Complete(w, "", now), id, {Completed});
    ReachAfter(p, received, Claim(w, now), id, {Completed});
    ReachAfter(p, s, receive, id, {Completed});
  }

  lemma HoldFacts(p: Policy, s: System, w: WorkerId)
    requires JobProtocol.Inv(p, s) && w in s.mail.held
    ensures s.mail.held[w].message.enqueuedAt <= s.mail.clock
  {
    hide MailOk, ValidDb, AttemptsOk, HistoriesOk;
    HoldIsBehind(s.jobs, s.mail, w);
  }

  /** A publisher lists and enqueues the event; the message does the rest. */
  lemma EventLeadsToCompletion(p: Policy, s: System, id: Id, e: nat)
    requires ValidPolicy(p) && JobProtocol.Inv(p, s) && ClaimableNow(s, id)
    requires e in s.mail.outbox.events && s.mail.outbox.events[e].item == id
    requires !s.mail.outbox.events[e].published && s.mail.outbox.events[e].ready <= s.mail.clock
    ensures CanReach(p, s, id, {Completed})
  {
    hide JobProtocol.Inv, CanReach;
    var l := Unused(s.mail.listings.Keys);
    var list, enqueue := Post(ListReady(l, e)), Post(Enqueue(l));
    var listed := Apply(p, s, list);
    StepKeepsInv(p, s, list);
    var queued := Apply(p, listed, enqueue);
    StepKeepsInv(p, listed, enqueue);
    MessageLeadsToCompletion(p, queued, id, s.mail.nextMessage);
    ReachAfter(p, listed, enqueue, id, {Completed});
    ReachAfter(p, s, list, id, {Completed});
  }

  /** Time passes until the event and the job's own deadline are due. */
  lemma WaitingJobCanComplete(p: Policy, s: System, id: Id)
    requires ValidPolicy(p) && JobProtocol.Inv(p, s) && id in s.jobs && s.jobs[id].status in {Queued, RetryWait}
    ensures CanReach(p, s, id, {Completed})
  {
    hide JobProtocol.Inv, CanReach, HasUnpublished, HasMessage;
    WakeUpExists(p, s, id);
    RowFacts(p, s, id);
    var due := if s.jobs[id].nextAttempt.Some? then Later(s.mail.clock, s.jobs[id].nextAttempt.value)
               else s.mail.clock;
    if HasMessage(s.mail.messages, id, s.jobs[id].attempts) {
      var m := MessageFor(s.mail, id, s.jobs[id].attempts);
      StepKeepsInv(p, s, Post(Tick(due)));
      MessageLeadsToCompletion(p, Apply(p, s, Post(Tick(due))), id, m);
      ReachAfter(p, s, Post(Tick(due)), id, {Completed});
    } else {
      var e := EventFor(s.mail, id, s.jobs[id].attempts);
      var later := Later(due, s.mail.outbox.events[e].ready);
      StepKeepsInv(p, s, Post(Tick(later)));
      EventLeadsToCompletion(p, Apply(p, s, Post(Tick(later))), id, e);
      ReachAfter(p, s, Post(Tick(later)), id, {Completed});
    }
  }

  lemma WakeUpExists(p: Policy, s: System, id: Id)
    requires JobProtocol.Inv(p, s) && id in s.jobs && s.jobs[id].status in {Queued, RetryWait}
    ensures HasUnpublished(s.mail.outbox, id, s.jobs[id].attempts)
         || HasMessage(s.mail.messages, id, s.jobs[id].attempts)
  {
    hide Delivery.Inv, ValidDb, AttemptsOk, HistoriesOk;
    InvImpliesNoLostWork(RowViews(s.jobs), s.mail);
    assert RowViews(s.jobs)[id] == ViewOf(s.jobs[id]);
  }

  /** A running job outlives its worker: its lease expires and recovery makes it wait again or ends it. */
  lemma RunningJobCanFinish(p: Policy, s: System, id: Id)
    requires ValidPolicy(p) && JobProtocol.Inv(p, s) && id in s.jobs && s.jobs[id].status == Running
    ensures CanReach(p, s, id, {Completed, Failed})
    ensures s.jobs[id].attempts < s.jobs[id].maxAttempts ==> CanReach(p, s, id, {Completed})
  {
    hide JobProtocol.Inv, CanReach;
    RowFacts(p, s, id);
    var job := s.jobs[id];
    var wait := Post(Tick(Later(s.mail.clock, job.lease.value + 1.0)));
    var waited := Apply(p, s, wait);
    StepKeepsInv(p, s, wait);
    var recover := Recover(id, waited.mail.clock);
    var recovered := Apply(p, waited, recover);
    StepKeepsInv(p, waited, recover);
    if job.attempts < job.maxAttempts {
      WaitingJobCanComplete(p, recovered, id);
      ReachAfter(p, waited, recover, id, {Completed});
      ReachAfter(p, s, wait, id, {Completed});
      ReachWider(p, s, id, {Completed}, {Completed, Failed});
    } else {
      ReachedAlready(p, recovered, id, {Completed, Failed});
      ReachAfter(p, waited, recover, id, {Completed, Failed});
      ReachAfter(p, s, wait, id, {Completed, Failed});
    }
  }

  lemma ReachWider(p: Policy, s: System, id: Id, goal: set<Status>, wider: set<Status>)
    requires CanReach(p, s, id, goal) && goal <= wider
    ensures CanReach(p, s, id, wider)
  {
    hide Runnable, Exec;
    var steps :| ReachesBy(p, s, id, goal, steps);
    assert ReachesBy(p, s, id, wider, steps);
  }

  /**
    In every reachable state every job can still end, and can still be completed as long as it has
    an attempt left, even if every worker and publisher that exists has crashed.
  */
  lemma EveryJobCanFinish(p: Policy, clock: Time, steps: seq<Step>, id: Id)
    requires ValidPolicy(p) && Runnable(p, Start(clock), steps)
    requires id in Exec(p, Start(clock), steps).jobs
    ensures var s := Exec(p, Start(clock), steps);
      && CanReach(p, s, id, {Completed, Failed})
      && (!Terminal(s.jobs[id].status) && s.jobs[id].attempts < s.jobs[id].maxAttempts ==>
            CanReach(p, s, id, {Completed}))
  {
    hide JobProtocol.Inv, CanReach, Runnable, Exec;
    StartSatisfiesInv(p, clock);
    RunKeepsInv(p, Start(clock), steps);
    var s := Exec(p, Start(clock), steps);
    match s.jobs[id].status
    case Running => RunningJobCanFinish(p, s, id);
    case Queued =>
      WaitingJobCanComplete(p, s, id);
      ReachWider(p, s, id, {Completed}, {Completed, Failed});
    case RetryWait =>
      WaitingJobCanComplete(p, s, id);
      ReachWider(p, s, id, {Completed}, {Completed, Failed});
    case _ => ReachedAlready(p, s, id, {Completed, Failed});
  }

  /** Work gets done: from an empty store a request can be created and completed. */
  lemma FirstJobCanComplete(p: Policy, clock: Time, id: Id, key: Option<string>, fingerprint: string, maxAttempts: nat)
    requires ValidPolicy(p) && 0 < maxAttempts
    ensures CanReach(p, Start(clock), id, {Completed})
  {
    hide JobProtocol.Inv, CanReach;
    var create := Create(id, key, fingerprint, maxAttempts);
    StartSatisfiesInv(p, clock);
    StepKeepsInv(p, Start(clock), create);
    WaitingJobCanComplete(p, Apply(p, Start(clock), create), id);
    ReachAfter(p, Start(clock), create, id, {Completed});
  }
}
