/**
  Run finalisation under concurrency (app/benchmarks/repositories.py, `_finish_run_if_terminal`).

  A transaction locks the sample rows it writes, takes the lock of a run row before counting the
  run's samples, keeps every lock until it ends, and sees the committed rows overlaid with its own
  writes (read committed). Transactions interleave statement by statement.
*/
module RunFinalization {
  import opened Core
  import SR = SampleRepository

  type Sample = SR.Sample
  type Run = SR.Run
  type Status = SR.Status

  /**
    `pending`: runs that got a terminal sample since this transaction last counted them.
    `starting`: runs a claim read as queued and will set running when it commits.
  */
  datatype Tx = Tx(
    writes: map<Id, Status>,
    pending: set<Id>,
    results: map<Id, Run>,
    starting: map<Id, Time>
  )

  datatype State = State(
    samples: map<Id, Sample>,
    runs: map<Id, Run>,
    locks: map<Id, nat>,
    txs: map<nat, Tx>
  )

  datatype Step =
    | Begin(tx: nat)
    | Write(tx: nat, sample: Id, status: Status)
    | LockRun(tx: nat, run: Id)
    | Count(tx: nat, run: Id, now: Time)
    | ReadQueuedRun(tx: nat, sample: Id, now: Time)
    | Commit(tx: nat)
    | Abort(tx: nat)

  /** What a statement of the transaction reads: committed rows under its own uncommitted writes. */
  function Overlay(samples: map<Id, Sample>, writes: map<Id, Status>): map<Id, Sample> {
    map id | id in samples ::
      if id in writes then samples[id].(status := writes[id]) else samples[id]
  }

  function Seen(s: State, t: nat): map<Id, Sample>
    requires t in s.txs
  {
    Overlay(s.samples, s.txs[t].writes)
  }

  predicate Enabled(s: State, step: Step) {
    if step.Begin? then step.tx !in s.txs
    else
      && step.tx in s.txs
      && match step
         case Write(t, id, _) =>
           && id in s.samples && !SR.Terminal(s.samples[id].status)
           && forall u :: u in s.txs ==> id !in s.txs[u].writes
         case LockRun(t, run) => run in s.runs && (run in s.locks ==> s.locks[run] == t)
         case Count(t, run, _) => run in s.runs && run in s.locks && s.locks[run] == t
         case ReadQueuedRun(t, id, _) =>
           && id in s.txs[t].writes && SR.InProgress(s.txs[t].writes[id])
           && id in s.samples && s.samples[id].run in s.runs
           && s.runs[s.samples[id].run].status == SR.RunQueued
         case Commit(t) =>
           && s.txs[t].pending == {}
           && forall run :: run in s.txs[t].starting && run in s.locks ==> s.locks[run] == t
         case _ => true
  }

  function Released(locks: map<Id, nat>, t: nat): map<Id, nat> {
    map run | run in locks && locks[run] != t :: locks[run]
  }

  function CommittedRuns(s: State, t: nat): map<Id, Run>
    requires t in s.txs
  {
    var tx := s.txs[t];
    map run | run in s.runs ::
      if run in tx.results then tx.results[run]
      else if run in tx.starting
      then s.runs[run].(status := SR.RunRunning, startedAt := Some(tx.starting[run]))
      else s.runs[run]
  }

  function Apply(s: State, step: Step): State
    requires Enabled(s, step)
  {
    if step.Begin? then s.(txs := s.txs[step.tx := Tx(map[], {}, map[], map[])])
    else
      var t := step.tx;
      var tx := s.txs[t];
      match step
      case Write(_, id, status) =>
        var pending := if SR.Terminal(status) then tx.pending + {s.samples[id].run} else tx.pending;
        s.(txs := s.txs[t := tx.(writes := tx.writes[id := status], pending := pending)])
      case LockRun(_, run) => s.(locks := s.locks[run := t])
      case Count(_, run, now) =>
        var counted := tx.(pending := tx.pending - {run});
        var seen := Seen(s, t);
        s.(txs := s.txs[t :=
          if |SR.Remaining(seen, run)| == 0
          then counted.(results := tx.results[run := SR.FinishedRun(s.runs[run], seen, run, now)])
          else counted])
      case ReadQueuedRun(_, id, now) =>
        s.(txs := s.txs[t := tx.(starting := tx.starting[s.samples[id].run := now])])
      case Commit(_) =>
        State(Seen(s, t), CommittedRuns(s, t), Released(s.locks, t), s.txs - {t})
      case _ => s.(locks := Released(s.locks, t), txs := s.txs - {t})
  }

  predicate Runnable(s: State, steps: seq<Step>)
    decreases steps
  {
    steps == [] || (Enabled(s, steps[0]) && Runnable(Apply(s, steps[0]), steps[1..]))
  }

  function Exec(s: State, steps: seq<Step>): State
    requires Runnable(s, steps)
    decreases steps
  {
    if steps == [] then s else Exec(Apply(s, steps[0]), steps[1..])
  }

  // ----- What a run's status must say -----

  ghost predicate AllDerived(samples: map<Id, Sample>, runs: map<Id, Run>) {
    forall run :: run in runs ==> SR.Derived(samples, run, runs[run])
  }

  // ----- Invariant of open transactions -----

  /** The transaction wrote a terminal status into a sample of the run. */
  ghost predicate Ended(samples: map<Id, Sample>, writes: map<Id, Status>, run: Id) {
    exists id :: id in writes && id in samples && samples[id].run == run && SR.Terminal(writes[id])
  }

  ghost predicate WritesOk(s: State, t: nat) {
    t in s.txs &&
    forall id :: id in s.txs[t].writes ==>
      && id in s.samples && !SR.Terminal(s.samples[id].status)
      && forall u :: u in s.txs && id in s.txs[u].writes ==> u == t
  }

  ghost predicate ResultsOk(s: State, t: nat) {
    t in s.txs &&
    forall run :: run in s.txs[t].results ==>
      && run in s.runs && run in s.locks && s.locks[run] == t
      && SR.Over(Seen(s, t), run)
      && var result := s.txs[t].results[run];
      && result.status == (if SR.SomeSkipped(Seen(s, t), run) then SR.RunPartial else SR.RunCompleted)
      && result.completedAt.Some?
      && (s.runs[run].completedAt.Some? ==> result.completedAt == s.runs[run].completedAt)
      && result.startedAt == s.runs[run].startedAt
  }

  /** A run whose end this transaction may have caused is locked, and was counted since. */
  ghost predicate CountedOk(s: State, t: nat) {
    t in s.txs &&
    forall run :: run in s.runs && Ended(s.samples, s.txs[t].writes, run) && run !in s.txs[t].pending ==>
      && run in s.locks && s.locks[run] == t
      && (SR.Over(Seen(s, t), run) ==> run in s.txs[t].results)
  }

  ghost predicate StartingOk(s: State, t: nat) {
    t in s.txs &&
    forall run :: run in s.txs[t].starting ==>
      exists id :: id in s.txs[t].writes && id in s.samples && s.samples[id].run == run
                   && SR.InProgress(s.txs[t].writes[id])
  }

  ghost predicate LocksOk(s: State) {
    forall run :: run in s.locks ==> s.locks[run] in s.txs
  }

  ghost predicate TxOk(s: State, t: nat) {
    WritesOk(s, t) && ResultsOk(s, t) && CountedOk(s, t) && StartingOk(s, t)
  }

  ghost predicate Inv(s: State) {
    && AllDerived(s.samples, s.runs)
    && LocksOk(s)
    && forall t :: t in s.txs ==> TxOk(s, t)
  }

  // ----- Statements that only change the transaction itself -----

  lemma WriteKeepsTx(s: State, t: nat, id: Id, status: Status)
    requires TxOk(s, t) && Enabled(s, Write(t, id, status))
    ensures TxOk(Apply(s, Write(t, id, status)), t)
  {
    var s' := Apply(s, Write(t, id, status));
    var tx, tx' := s.txs[t], s'.txs[t];
    var here := s.samples[id].run;
    assert Seen(s, t)[id] == s.samples[id];
    assert here !in tx.results;
    forall run | run != here
      ensures SR.Over(Seen(s', t), run) <==> SR.Over(Seen(s, t), run)
      ensures SR.SomeSkipped(Seen(s', t), run) <==> SR.SomeSkipped(Seen(s, t), run)
      ensures Ended(s'.samples, tx'.writes, run) <==> Ended(s.samples, tx.writes, run)
    {
      SR.SameSamples(Seen(s, t), Seen(s', t), run);
      if Ended(s.samples, tx.writes, run) {
        var x :| x in tx.writes && x in s.samples && s.samples[x].run == run && SR.Terminal(tx.writes[x]);
        assert x in tx'.writes && tx'.writes[x] == tx.writes[x];
      }
    }
    assert !SR.Terminal(status) ==> Seen(s', t)[id].status == status && !SR.Over(Seen(s', t), here);
    if !SR.Terminal(status) && Ended(s'.samples, tx'.writes, here) {
      var x :| x in tx'.writes && x in s.samples && s.samples[x].run == here && SR.Terminal(tx'.writes[x]);
      assert x in tx.writes && tx.writes[x] == tx'.writes[x];
    }
    forall run | run in tx'.starting
      ensures exists x :: x in tx'.writes && x in s'.samples && s'.samples[x].run == run
                          && SR.InProgress(tx'.writes[x])
    {
      var x :| x in tx.writes && x in s.samples && s.samples[x].run == run && SR.InProgress(tx.writes[x]);
      assert x in tx'.writes && tx'.writes[x] == tx.writes[x];
    }
  }

  /** A transaction's own statement does not disturb the others. */
  lemma OthersKeep(s: State, t: nat, tx: Tx, locks: map<Id, nat>, u: nat)
    requires TxOk(s, u) && t in s.txs && u != t
    requires forall id :: id in s.txs[u].writes ==> id !in tx.writes
    requires forall run :: run in s.locks && s.locks[run] == u ==> run in locks && locks[run] == u
    ensures TxOk(s.(txs := s.txs[t := tx], locks := locks), u)
  {
    var s' := s.(txs := s.txs[t := tx], locks := locks);
    assert s'.txs[u] == s.txs[u] && Seen(s', u) == Seen(s, u);
  }

  lemma CountKeepsTx(s: State, t: nat, run: Id, now: Time)
    requires TxOk(s, t) && Enabled(s, Count(t, run, now))
    ensures TxOk(Apply(s, Count(t, run, now)), t)
  {
    hide SR.Over, SR.SomeSkipped, Ended, SR.Remaining, SR.SkippedOf, SR.Terminal;
    SR.CountsAgree(Seen(s, t), run);
  }

  lemma ReadKeepsTx(s: State, t: nat, id: Id, now: Time)
    requires TxOk(s, t) && Enabled(s, ReadQueuedRun(t, id, now))
    ensures TxOk(Apply(s, ReadQueuedRun(t, id, now)), t)
  {
    hide SR.Over, SR.SomeSkipped, Ended, SR.Remaining, SR.SkippedOf, SR.Terminal;
  }

  // ----- Commit -----

  /** A sample of a run that another transaction holds finished is not written by this one. */
  lemma CommitKeepsResults(s: State, t: nat, u: nat)
    requires TxOk(s, t) && TxOk(s, u) && Enabled(s, Commit(t)) && u != t
    ensures ResultsOk(Apply(s, Commit(t)), u)
  {
    hide CountedOk, StartingOk;
    var s' := Apply(s, Commit(t));
    forall run | run in s.txs[u].results
      ensures SR.Over(Seen(s', u), run) && s'.runs[run] == s.runs[run]
      ensures SR.SomeSkipped(Seen(s', u), run) <==> SR.SomeSkipped(Seen(s, u), run)
    {
      forall id | id in s.samples && s.samples[id].run == run
        ensures Seen(s', u)[id] == Seen(s, u)[id]
      {
        assert SR.Terminal(Seen(s, u)[id].status);
      }
      SR.SameSamples(Seen(s, u), Seen(s', u), run);
    }
  }

  /** While a transaction holds the lock of a run, no other can have ended one of its samples. */
  lemma CommitKeepsCounted(s: State, t: nat, u: nat)
    requires TxOk(s, t) && TxOk(s, u) && Enabled(s, Commit(t)) && u != t
    ensures CountedOk(Apply(s, Commit(t)), u)
  {
    hide ResultsOk, StartingOk, CommittedRuns;
    var s' := Apply(s, Commit(t));
    SameRuns(s, t);
    forall run | run in s.runs && Ended(s'.samples, s'.txs[u].writes, run) && run !in s.txs[u].pending
      ensures run in s'.locks && s'.locks[run] == u
      ensures SR.Over(Seen(s', u), run) ==> run in s.txs[u].results
    {
      var x :| x in s'.txs[u].writes && x in s'.samples && s'.samples[x].run == run
            && SR.Terminal(s'.txs[u].writes[x]);
      assert x in s.samples && s.samples[x].run == run;
      assert Ended(s.samples, s.txs[u].writes, run);
      assert !Ended(s.samples, s.txs[t].writes, run);
      if SR.Over(Seen(s', u), run) {
        forall id | id in s.samples && s.samples[id].run == run
          ensures SR.Terminal(Seen(s, u)[id].status)
        {
          assert SR.Terminal(Seen(s', u)[id].status);
        }
      }
    }
  }

  lemma SameRuns(s: State, t: nat)
    requires t in s.txs
    ensures CommittedRuns(s, t).Keys == s.runs.Keys
  {
  }

  lemma CommitKeepsStarting(s: State, t: nat, u: nat)
    requires TxOk(s, t) && TxOk(s, u) && Enabled(s, Commit(t)) && u != t
    ensures WritesOk(Apply(s, Commit(t)), u) && StartingOk(Apply(s, Commit(t)), u)
  {
    hide ResultsOk, CountedOk, CommittedRuns;
    var s' := Apply(s, Commit(t));
    forall run | run in s'.txs[u].starting
      ensures exists x :: x in s'.txs[u].writes && x in s'.samples && s'.samples[x].run == run
                          && SR.InProgress(s'.txs[u].writes[x])
    {
      var x :| x in s.txs[u].writes && x in s.samples && s.samples[x].run == run
               && SR.InProgress(s.txs[u].writes[x]);
      assert x in s'.samples && s'.samples[x].run == run;
    }
  }

  /** An open transaction's view of a run survives another transaction's commit. */
  lemma CommitKeepsOther(s: State, t: nat, u: nat)
    requires TxOk(s, t) && TxOk(s, u) && Enabled(s, Commit(t)) && u != t
    ensures TxOk(Apply(s, Commit(t)), u)
  {
    hide WritesOk, ResultsOk, CountedOk, StartingOk, Apply;
    CommitKeepsResults(s, t, u);
    CommitKeepsCounted(s, t, u);
    CommitKeepsStarting(s, t, u);
  }

  /** The committed status of every run still says what its committed samples say. */
  lemma CommitDerives(s: State, t: nat, run: Id)
    requires Inv(s) && Enabled(s, Commit(t)) && run in s.runs
    ensures var s' := Apply(s, Commit(t));
      && SR.Derived(s'.samples, run, s'.runs[run])
      && (SR.RunEnded(s.runs[run]) ==> s'.runs[run] == s.runs[run])
  {
    var s' := Apply(s, Commit(t));
    var tx := s.txs[t];
    assert TxOk(s, t) && SR.Derived(s.samples, run, s.runs[run]);
    if touched :| touched in tx.writes && s.samples[touched].run == run {
      assert !SR.Over(s.samples, run);
      if run !in tx.results {
        if Ended(s.samples, tx.writes, run) {
          assert !SR.Over(Seen(s, t), run);
        } else {
          assert !SR.Terminal(Seen(s, t)[touched].status);
        }
      }
    } else {
      assert run !in tx.starting;
      SR.SameSamples(s.samples, s'.samples, run);
    }
  }

  // ----- Every step keeps the invariant -----

  lemma StepKeepsTx(s: State, step: Step, u: nat)
    requires Inv(s) && Enabled(s, step) && u in Apply(s, step).txs
    ensures TxOk(Apply(s, step), u)
  {
    hide AllDerived, SR.Over, SR.SomeSkipped, Ended, SR.Remaining, SR.SkippedOf, WritesOk, ResultsOk, CountedOk,
         StartingOk;
    var t := step.tx;
    match step
    case Begin(_) => BeginKeepsTx(s, t, u);
    case Write(_, id, status) =>
      if u == t {
        WriteKeepsTx(s, t, id, status);
      } else {
        DisjointWrites(s, t, u);
        OthersKeep(s, t, Apply(s, step).txs[t], s.locks, u);
      }
    case LockRun(_, run) =>
      LockKeepsTx(s, t, run, u);
    case Count(_, run, now) =>
      if u == t {
        CountKeepsTx(s, t, run, now);
      } else {
        DisjointWrites(s, t, u);
        OthersKeep(s, t, Apply(s, step).txs[t], s.locks, u);
      }
    case ReadQueuedRun(_, id, now) =>
      if u == t {
        ReadKeepsTx(s, t, id, now);
      } else {
        DisjointWrites(s, t, u);
        OthersKeep(s, t, Apply(s, step).txs[t], s.locks, u);
      }
    case Commit(_) => CommitKeepsOther(s, t, u);
    case Abort(_) => AbortKeepsTx(s, t, u);
  }

  lemma DisjointWrites(s: State, t: nat, u: nat)
    requires TxOk(s, u) && t in s.txs && u != t
    ensures forall id :: id in s.txs[u].writes ==> id !in s.txs[t].writes
  {
  }

  lemma BeginKeepsTx(s: State, t: nat, u: nat)
    requires Inv(s) && t !in s.txs && u in Apply(s, Begin(t)).txs
    ensures TxOk(Apply(s, Begin(t)), u)
  {
    if u != t {
      assert TxOk(s, u);
      assert Seen(Apply(s, Begin(t)), u) == Seen(s, u);
    }
  }

  lemma LockKeepsTx(s: State, t: nat, run: Id, u: nat)
    requires TxOk(s, u) && Enabled(s, LockRun(t, run))
    ensures TxOk(Apply(s, LockRun(t, run)), u)
  {
    assert Seen(Apply(s, LockRun(t, run)), u) == Seen(s, u);
  }

  lemma AbortKeepsTx(s: State, t: nat, u: nat)
    requires TxOk(s, u) && t in s.txs && u != t
    ensures TxOk(Apply(s, Abort(t)), u)
  {
    assert Seen(Apply(s, Abort(t)), u) == Seen(s, u);
  }

  lemma StepKeepsInv(s: State, step: Step)
    requires Inv(s) && Enabled(s, step)
    ensures Inv(Apply(s, step))
    ensures forall run :: run in s.runs && SR.RunEnded(s.runs[run]) ==>
      run in Apply(s, step).runs && Apply(s, step).runs[run] == s.runs[run]
  {
    hide SR.Derived, TxOk, Overlay, SR.FinishedRun;
    var s' := Apply(s, step);
    forall u | u in s'.txs ensures TxOk(s', u) {
      StepKeepsTx(s, step, u);
    }
    if step.Commit? {
      forall run | run in s.runs
        ensures SR.Derived(s'.samples, run, s'.runs[run])
        ensures SR.RunEnded(s.runs[run]) ==> s'.runs[run] == s.runs[run]
      {
        CommitDerives(s, step.tx, run);
      }
    }
  }

  // ----- Theorems -----

  /** `create_plan` commits a run with its samples, all queued; planned_sample_count is positive. */
  lemma FreshPlanSatisfiesInv(s: State)
    requires s.txs == map[] && s.locks == map[]
    requires forall run :: run in s.runs ==>
      && !SR.RunEnded(s.runs[run])
      && exists id :: id in s.samples && s.samples[id].run == run && !SR.Terminal(s.samples[id].status)
    ensures Inv(s)
  {
    forall run | run in s.runs ensures !SR.Over(s.samples, run) {
      var id :| id in s.samples && s.samples[id].run == run && !SR.Terminal(s.samples[id].status);
    }
  }

  /**
    In every committed state of every interleaving a run is finished exactly when all its samples
    are, it is partial exactly when one was skipped, and once finished its record never changes.
  */
  lemma {:induction false} RunStatusIsDerived(s: State, steps: seq<Step>)
    requires Inv(s) && Runnable(s, steps)
    ensures Inv(Exec(s, steps))
    ensures AllDerived(Exec(s, steps).samples, Exec(s, steps).runs)
    ensures forall run :: run in s.runs && SR.RunEnded(s.runs[run]) ==>
      run in Exec(s, steps).runs && Exec(s, steps).runs[run] == s.runs[run]
    decreases steps
  {
    hide TxOk, Enabled, Apply, SR.Derived;
    if steps != [] {
      StepKeepsInv(s, steps[0]);
      RunStatusIsDerived(Apply(s, steps[0]), steps[1..]);
    }
  }
}
