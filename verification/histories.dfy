/** Properties of whole runs: how one job evolves, how often it can change, what its key,
    its dead letter and its lease attempts say about the run behind it. */
module RunHistories {
  import opened Jobs
  import opened Heaps
  import opened MemoryStores
  import opened Leases
  import opened Retry
  import opened Scheduling
  import opened RunInvariants

  // ---------- how one step changes one job ----------

  /** The changes a step can make to a stored job. Id, kind, priority, retry limit and key
      never change. */
  ghost predicate Evolves(j: Job, j': Job) {
    || j' == j
    || (!Terminal(j.status) && j' == j.(status := Cancelled))
    || (j.status == Pending && j' == j.(status := Completed))
    || ((j.status == Pending || j.status == Failed) && j' == j.(status := Failed, lastError := j'.lastError))
    || (j.status == Scheduled && j' == j.(status := Pending))
    || ((j.status == Pending || j.status == Scheduled) && j.retryCount < j.maxRetries &&
        j' == j.(status := Scheduled, retryCount := j.retryCount + 1, nextRunAt := j'.nextRunAt, lastError := j'.lastError))
  }

  lemma StepEvolvesJob(st: State, step: Step, id: JobId)
    requires Inv(st) && Legal(st, step) && id in st.s.store.jobs
    requires step != DeleteJob(id)
    ensures id in Next(st, step).s.store.jobs
    ensures Evolves(st.s.store.jobs[id], Next(st, step).s.store.jobs[id])
  {
    if step.ResultArrives? {
      ResultEvolvesJob(st.s, step.r, step.now, id);
    } else if step.PromoteOne? {
      PromotionEvolvesJob(st.s, step.now, id);
    } else if IsSubmit(step) {
      SubmitSparesJob(st, step, id);
    }
  }

  lemma SubmitSparesJob(st: State, step: Step, id: JobId)
    requires Inv(st) && Legal(st, step) && IsSubmit(step) && id in st.s.store.jobs
    ensures id in Next(st, step).s.store.jobs && Next(st, step).s.store.jobs[id] == st.s.store.jobs[id]
  {
  }

  lemma PromotionEvolvesJob(s: Sched, now: Time, id: JobId)
    requires IndexExact(s.store) && id in s.store.jobs
    ensures PromoteNext(s, now).store.jobs.Keys == s.store.jobs.Keys && PromoteNext(s, now).store.dlq == s.store.dlq
    ensures || PromoteNext(s, now).store.jobs[id] == s.store.jobs[id]
            || (s.store.jobs[id].status == Scheduled && s.store.jobs[id].nextRunAt <= now &&
                PromoteNext(s, now).store.jobs[id] == s.store.jobs[id].(status := Pending))
  {
    if Due(s, now) && s.dq[0] in s.store.jobs {
      assert s.store.jobs[s.dq[0]].id == s.dq[0];
    }
  }

  lemma ResultEvolvesJob(s: Sched, r: Result, now: Time, id: JobId)
    requires Good(s.store) && id in s.store.jobs
    ensures id in HandleResult(s, r, now).store.jobs
    ensures Evolves(s.store.jobs[id], HandleResult(s, r, now).store.jobs[id])
  {
    if Accepts(s, r) {
      var j := s.store.jobs[r.jobId];
      if r.success {
        UpdateOfOne(s.store, j.(status := Completed), id);
      } else if ShouldRetry(j) {
        UpdateOfOne(s.store, Retried(j, r.error, now), id);
      } else {
        UpdateOfOne(s.store, j.(status := Failed, lastError := r.error), id);
      }
    }
  }

  /** An update reaches its own job and no other. */
  lemma UpdateOfOne(m: Mem, j: Job, id: JobId)
    requires IndexExact(m) && id in m.jobs
    ensures id in DoUpdate(m, j).0.jobs
    ensures DoUpdate(m, j).0.jobs[id] == if id == j.id && IsValidTransition(m.jobs[id].status, j.status) then j else m.jobs[id]
  {
  }

  // ---------- every lifecycle is finite ----------

  /** How many status changes a job may still undergo, at most. */
  function Measure(j: Job): int {
    if j.status == Pending then 2 * (j.maxRetries - j.retryCount) + 1
    else if j.status == Scheduled then 2 * (j.maxRetries - j.retryCount) + 2
    else 0
  }

  lemma EvolutionLowersMeasure(j: Job, j': Job)
    requires Evolves(j, j') && j.retryCount <= j.maxRetries && !j.status.Other?
    ensures Measure(j') <= Measure(j)
    ensures j.status != j'.status || j.retryCount != j'.retryCount ==> Measure(j') < Measure(j)
  {
  }

  function StatusOf(st: State, id: JobId): Option<Status> {
    if id in st.s.store.jobs then Some(st.s.store.jobs[id].status) else None
  }

  /** How many steps of the run change the status of the job. */
  ghost function StatusChanges(st: State, steps: seq<Step>, id: JobId): nat
    decreases |steps|
  {
    if steps == [] then 0
    else
      var front := steps[..|steps| - 1];
      StatusChanges(st, front, id) +
      if StatusOf(Run(st, front), id) != StatusOf(Run(st, steps), id) then 1 else 0
  }

  lemma MeasureBounds(st: State, id: JobId)
    requires Inv(st) && id in st.s.store.jobs
    ensures 0 <= Measure(st.s.store.jobs[id]) <= 2 * st.s.store.jobs[id].maxRetries + 2
  {
  }

  lemma StepLowersMeasure(st: State, step: Step, id: JobId)
    requires Inv(st) && Legal(st, step) && id in st.s.store.jobs && step != DeleteJob(id)
    ensures id in Next(st, step).s.store.jobs
    ensures Measure(Next(st, step).s.store.jobs[id]) +
            (if StatusOf(st, id) != StatusOf(Next(st, step), id) then 1 else 0) <= Measure(st.s.store.jobs[id])
  {
    StepEvolvesJob(st, step, id);
    EvolutionLowersMeasure(st.s.store.jobs[id], Next(st, step).s.store.jobs[id]);
  }

  lemma {:induction false} ChangesPlusMeasure(st: State, steps: seq<Step>, id: JobId)
    requires Inv(st) && LegalRun(st, steps) && id in st.s.store.jobs && DeleteJob(id) !in steps
    ensures Inv(Run(st, steps)) && id in Run(st, steps).s.store.jobs
    ensures StatusChanges(st, steps, id) + Measure(Run(st, steps).s.store.jobs[id]) <= Measure(st.s.store.jobs[id])
    decreases |steps|
  {
    RunKeepsInv(st, steps);
    if steps != [] {
      ChangesPlusMeasure(st, steps[..|steps| - 1], id);
      StepLowersMeasure(Run(st, steps[..|steps| - 1]), steps[|steps| - 1], id);
    }
  }

  /** A job that is not deleted changes status at most 2 * MaxRetries + 2 times, however
      long the run and however many duplicate results, restarts or dead workers it has. */
  lemma LifecycleIsFinite(st: State, steps: seq<Step>, id: JobId)
    requires Inv(st) && LegalRun(st, steps) && id in st.s.store.jobs
    requires DeleteJob(id) !in steps
    ensures id in Run(st, steps).s.store.jobs
    ensures 0 <= Measure(Run(st, steps).s.store.jobs[id])
    ensures StatusChanges(st, steps, id) + Measure(Run(st, steps).s.store.jobs[id]) <= Measure(st.s.store.jobs[id])
    ensures StatusChanges(st, steps, id) <= 2 * st.s.store.jobs[id].maxRetries + 2
  {
    ChangesPlusMeasure(st, steps, id);
    MeasureBounds(st, id);
    MeasureBounds(Run(st, steps), id);
  }

  // ---------- dead letters ----------

  /** Whether the step is a failure report that the result loop accepts for this job. */
  ghost predicate AcceptsFailure(st: State, step: Step, id: JobId) {
    step.ResultArrives? && step.r.jobId == id && !step.r.success && Accepts(st.s, step.r)
  }

  ghost function AcceptedFailures(st: State, steps: seq<Step>, id: JobId): nat
    decreases |steps|
  {
    if steps == [] then 0
    else
      var front := steps[..|steps| - 1];
      AcceptedFailures(st, front, id) +
      if AcceptsFailure(Run(st, front), steps[|steps| - 1], id) then 1 else 0
  }

  /** A retry count never runs ahead of the failures reported, and only more failures than
      retries allowed make a dead letter. */
  ghost predicate FailuresExplain(m: Mem, id: JobId, failures: nat) {
    && (id in m.jobs ==> m.jobs[id].retryCount <= failures)
    && (id in m.dlq ==> m.dlq[id].maxRetries + 1 <= failures)
  }

  lemma SubmitKeepsCounts(st: State, step: Step, id: JobId)
    requires Inv(st) && Legal(st, step) && IsSubmit(step)
    ensures Next(st, step).s.store.dlq == st.s.store.dlq
    ensures id in Next(st, step).s.store.jobs ==>
              || (id in st.s.store.jobs && Next(st, step).s.store.jobs[id] == st.s.store.jobs[id])
              || Next(st, step).s.store.jobs[id].retryCount == 0
  {
  }

  lemma DispatchSparesStore(s: Sched, worker: Option<nat>, accepted: bool)
    ensures DispatchNext(s, worker, accepted).store == s.store
  {
  }

  /** Only results touch dead letters or raise a retry count. */
  lemma OtherStepsKeepCounts(st: State, step: Step, id: JobId)
    requires Inv(st) && Legal(st, step) && !step.ResultArrives?
    ensures Next(st, step).s.store.dlq == st.s.store.dlq
    ensures id in Next(st, step).s.store.jobs ==>
              || Next(st, step).s.store.jobs[id].retryCount == 0
              || (id in st.s.store.jobs && Next(st, step).s.store.jobs[id].retryCount == st.s.store.jobs[id].retryCount)
  {
    match step {
      case Submit(_, _) => SubmitKeepsCounts(st, step, id);
      case SubmitAt(_, _, _) => SubmitKeepsCounts(st, step, id);
      case SubmitKeyed(_, _, _) => SubmitKeepsCounts(st, step, id);
      case CancelJob(_) =>
      case DeleteJob(_) =>
      case DispatchOne(worker, accepted) => DispatchSparesStore(st.s, worker, accepted);
      case DispatchInterrupted =>
      case PromoteOne(now) => PromotionKeepsCounts(st.s, now, id);
      case WorkerDies(_, _) =>
      case Stop =>
      case Start(_, _) =>
      case Crash =>
      case Boot(_, _) =>
    }
  }

  lemma PromotionKeepsCounts(s: Sched, now: Time, id: JobId)
    requires IndexExact(s.store)
    ensures PromoteNext(s, now).store.dlq == s.store.dlq
    ensures id in PromoteNext(s, now).store.jobs ==>
              id in s.store.jobs && PromoteNext(s, now).store.jobs[id].retryCount == s.store.jobs[id].retryCount
  {
    if id in s.store.jobs {
      PromotionEvolvesJob(s, now, id);
    } else {
      PromotionAddsNone(s, now, id);
    }
  }

  lemma PromotionAddsNone(s: Sched, now: Time, id: JobId)
    requires IndexExact(s.store) && id !in s.store.jobs
    ensures id !in PromoteNext(s, now).store.jobs && PromoteNext(s, now).store.dlq == s.store.dlq
  {
  }

  lemma ResultKeepsExplanation(s: Sched, r: Result, now: Time, id: JobId, failures: nat)
    requires Good(s.store) && FailuresExplain(s.store, id, failures)
    ensures FailuresExplain(HandleResult(s, r, now).store, id,
                            failures + if r.jobId == id && !r.success && Accepts(s, r) then 1 else 0)
  {
    if Accepts(s, r) {
      assert s.store.jobs[r.jobId].id == r.jobId;
    }
  }

  lemma StepKeepsExplanation(st: State, step: Step, id: JobId, failures: nat)
    requires Inv(st) && Legal(st, step) && FailuresExplain(st.s.store, id, failures)
    ensures FailuresExplain(Next(st, step).s.store, id,
                            failures + if AcceptsFailure(st, step, id) then 1 else 0)
  {
    if step.ResultArrives? {
      ResultKeepsExplanation(st.s, step.r, step.now, id, failures);
    } else {
      OtherStepsKeepCounts(st, step, id);
    }
  }

  lemma {:induction false} FailuresExplainRun(steps: seq<Step>, id: JobId)
    requires LegalRun(INIT, steps)
    ensures FailuresExplain(Run(INIT, steps).s.store, id, AcceptedFailures(INIT, steps, id))
    decreases |steps|
  {
    if steps != [] {
      var front := steps[..|steps| - 1];
      FailuresExplainRun(front, id);
      assert Reachable(Run(INIT, front));
      ReachableInv(Run(INIT, front));
      StepKeepsExplanation(Run(INIT, front), steps[|steps| - 1], id, AcceptedFailures(INIT, front, id));
    }
  }

  /** Dead-letter accounting over every run: an entry has used up its retries and stands
      for at least MaxRetries + 1 accepted failures, and every Failed job has an entry. */
  lemma DeadLetterAccounting(steps: seq<Step>, id: JobId)
    requires LegalRun(INIT, steps)
    ensures var m := Run(INIT, steps).s.store;
            && (id in m.dlq ==> m.dlq[id].retryCount == m.dlq[id].maxRetries)
            && (id in m.dlq ==> m.dlq[id].maxRetries + 1 <= AcceptedFailures(INIT, steps, id))
            && (id in m.jobs && m.jobs[id].status == Failed ==> id in m.dlq)
  {
    FailuresExplainRun(steps, id);
    assert Reachable(Run(INIT, steps));
    ReachableInv(Run(INIT, steps));
  }

  /** A dead letter does not mean the store says Failed: the status update is checked, the
      dead letter is not. After an accepted last failure the two agree exactly when the job
      was Pending, or Failed already; a finished or rescheduled job keeps its status. */
  lemma DeadLetterAgreesIff(s: Sched, r: Result, now: Time)
    requires Good(s.store) && Accepts(s, r) && !r.success && !ShouldRetry(s.store.jobs[r.jobId])
    ensures var j := s.store.jobs[r.jobId];
            var t := HandleResult(s, r, now);
            && r.jobId in t.store.dlq && r.jobId in t.deadLetters && r.jobId in t.store.jobs
            && (t.store.jobs[r.jobId].status == Failed <==> j.status == Pending || j.status == Failed)
            && (j.status != Pending && j.status != Failed ==> t.store.jobs[r.jobId] == j)
  {
    assert s.store.jobs[r.jobId].id == r.jobId;
  }

  /** A success completes a job exactly when it is Pending (or Completed already); the success
      of a job that was rescheduled meanwhile is dropped with its lease. */
  lemma SuccessCompletesIff(s: Sched, r: Result, now: Time)
    requires Good(s.store) && Accepts(s, r) && r.success
    ensures var j := s.store.jobs[r.jobId];
            var t := HandleResult(s, r, now);
            && r.jobId in t.store.jobs && r.jobId !in t.leases
            && (t.store.jobs[r.jobId].status == Completed <==> j.status == Pending || j.status == Completed)
            && (j.status != Pending && j.status != Completed ==> t == s.(leases := s.leases - {r.jobId}))
  {
    assert s.store.jobs[r.jobId].id == r.jobId;
  }

  // ---------- idempotency keys ----------

  /** In every reachable state a key names at most one live job and the index finds it. */
  lemma KeyNamesOneJob(st: State, a: JobId, b: JobId)
    requires Reachable(st) && a in st.s.store.jobs && b in st.s.store.jobs
    requires st.s.store.jobs[a].key == st.s.store.jobs[b].key != ""
    ensures a == b && Find(st.s.store, st.s.store.jobs[a].key) == Some(st.s.store.jobs[a])
  {
    ReachableInv(st);
    assert st.s.store.keys[st.s.store.jobs[a].key] == a;
  }

  lemma KeyedSubmitCreates(st: State, key: string, kind: string, priority: int)
    requires st.nextId + 1 !in st.s.store.jobs && key != "" && Find(st.s.store, key) == None
    ensures var st' := Next(st, SubmitKeyed(key, kind, priority));
            && st'.nextId == st.nextId + 1
            && Find(st'.s.store, key) == Some(NewJob(st.nextId + 1, kind, priority).(key := key))
            && st.nextId + 1 in st'.s.pq
  {
    EntryOfKeyedJob(st, NewJob(st.nextId + 1, kind, priority).(key := key));
  }

  lemma NextIdIsFree(st: State)
    requires Inv(st) && st.phase != Down
    ensures st.nextId + 1 !in st.s.store.jobs
  {
  }

  /** The first submission under a key creates one job and records the key. */
  lemma FirstKeyedSubmit(st: State, key: string, kind: string, priority: int)
    requires Reachable(st) && st.phase != Down && key != "" && Find(st.s.store, key) == None
    ensures var st' := Next(st, SubmitKeyed(key, kind, priority));
            && st'.nextId == st.nextId + 1
            && st.nextId + 1 !in st.s.store.jobs
            && Find(st'.s.store, key) == Some(Job(st.nextId + 1, kind, priority, Pending, 0, 3, 0, "", key))
            && st.nextId + 1 in st'.s.pq
  {
    ReachableInv(st);
    NextIdIsFree(st);
    KeyedSubmitCreates(st, key, kind, priority);
  }

  lemma EntryOfKeyedJob(st: State, j: Job)
    requires j.id !in st.s.store.jobs && j.status == Pending && j.key != ""
    ensures Find(SubmitJob(st, j).s.store, j.key) == Some(j) && j.id in SubmitJob(st, j).s.pq
  {
    PushContents(ByPriority, DoAdd(st.s.store, j).0.jobs, st.s.pq, j.id);
  }

  lemma {:induction false} KeyOwnerPersists(st: State, steps: seq<Step>, id: JobId)
    requires Inv(st) && LegalRun(st, steps) && id in st.s.store.jobs && DeleteJob(id) !in steps
    ensures id in Run(st, steps).s.store.jobs && Run(st, steps).s.store.jobs[id].key == st.s.store.jobs[id].key
    decreases |steps|
  {
    if steps != [] {
      var front := steps[..|steps| - 1];
      KeyOwnerPersists(st, front, id);
      RunKeepsInv(st, front);
      StepEvolvesJob(Run(st, front), steps[|steps| - 1], id);
    }
  }

  /** A repeated keyed submission is inert: as long as the first job was not deleted, it
      finds that job and leaves ids, store, queues, leases and dead letters untouched,
      across any run in between, crashes and restarts included. */
  lemma RepeatedSubmitIsInert(st: State, steps: seq<Step>, id: JobId, kind: string, priority: int)
    requires Inv(st) && LegalRun(st, steps) && DeleteJob(id) !in steps
    requires id in st.s.store.jobs && st.s.store.jobs[id].key != ""
    ensures var last := Run(st, steps);
            var key := st.s.store.jobs[id].key;
            && Find(last.s.store, key).Some? && Find(last.s.store, key).value.id == id
            && Next(last, SubmitKeyed(key, kind, priority)) == last
  {
    KeyOwnerPersists(st, steps, id);
    RunKeepsInv(st, steps);
    var m := Run(st, steps).s.store;
    assert m.keys[m.jobs[id].key] == id;
  }

  // ---------- fencing ----------

  /** A result for a leased job changes nothing exactly when its job is gone or it carries
      a positive attempt other than the leased one. */
  lemma LeasedResultInertIff(s: Sched, r: Result, now: Time)
    requires r.jobId in s.leases
    ensures HandleResult(s, r, now) == s <==>
            r.jobId !in s.store.jobs || (r.attempt > 0 && r.attempt != s.leases[r.jobId].attempt)
  {
    assert Accepts(s, r) ==> r.jobId !in HandleResult(s, r, now).leases;
  }

  /** Whether the step hands the job to a worker. */
  ghost predicate Dispatches(st: State, step: Step, id: JobId) {
    && step.DispatchOne? && step.worker.Some? && step.accepted
    && st.s.pq != [] && st.s.pq[0] == id
    && id in st.s.store.jobs && !Terminal(st.s.store.jobs[id].status)
  }

  ghost function DispatchCount(st: State, steps: seq<Step>, id: JobId): nat
    decreases |steps|
  {
    if steps == [] then 0
    else
      var front := steps[..|steps| - 1];
      DispatchCount(st, front, id) + if Dispatches(Run(st, front), steps[|steps| - 1], id) then 1 else 0
  }

  /** The job's lease is never released along the run. */
  ghost predicate LeaseHeld(st: State, steps: seq<Step>, id: JobId) {
    forall n :: 0 <= n <= |steps| ==> id in Run(st, steps[..n]).s.leases
  }

  lemma StepRaisesAttempt(st: State, step: Step, id: JobId)
    requires id in st.s.leases && id in Next(st, step).s.leases
    ensures Next(st, step).s.leases[id].attempt ==
            st.s.leases[id].attempt + if Dispatches(st, step, id) then 1 else 0
  {
  }

  /** Within a lease lineage every dispatch raises the attempt by exactly one ... */
  lemma {:induction false} AttemptCountsDispatches(st: State, steps: seq<Step>, id: JobId)
    requires LeaseHeld(st, steps, id)
    ensures id in st.s.leases && id in Run(st, steps).s.leases
    ensures Run(st, steps).s.leases[id].attempt == st.s.leases[id].attempt + DispatchCount(st, steps, id)
    decreases |steps|
  {
    assert steps[..0] == [] && steps[..|steps|] == steps;
    if steps != [] {
      var front := steps[..|steps| - 1];
      forall n | 0 <= n <= |front|
        ensures id in Run(st, front[..n]).s.leases
      {
        assert front[..n] == steps[..n];
      }
      AttemptCountsDispatches(st, front, id);
      StepRaisesAttempt(Run(st, front), steps[|steps| - 1], id);
    }
  }

  /** ... so once the job was dispatched again, a result of an earlier attempt is inert
      exactly when it names its attempt or the job is gone. */
  lemma FencingWithinLineage(st: State, steps: seq<Step>, id: JobId, r: Result, now: Time)
    requires LeaseHeld(st, steps, id) && DispatchCount(st, steps, id) > 0
    requires id in st.s.leases && r.jobId == id && r.attempt <= st.s.leases[id].attempt
    ensures Next(Run(st, steps), ResultArrives(r, now)) == Run(st, steps) <==>
            0 < r.attempt || id !in Run(st, steps).s.store.jobs
  {
    AttemptCountsDispatches(st, steps, id);
    LeasedResultInertIff(Run(st, steps).s, r, now);
  }

  /** A result without an attempt is never fenced off, whoever holds the lease: it is accepted
      for every stored job and ends the lease. The shipped workers report no other attempt. */
  lemma UntaggedResultPasses(s: Sched, r: Result, now: Time)
    requires r.attempt <= 0
    ensures Accepts(s, r) <==> r.jobId in s.store.jobs
    ensures r.jobId in s.store.jobs ==> r.jobId !in HandleResult(s, r, now).leases
  {
  }

  /** The lineage matters: after a release the count restarts at one, so a late result of
      the first attempt, or one without attempt, passes for the new one and takes its lease
      away; one of a later attempt does not. */
  lemma FencingEndsWithRelease(s: Sched, id: JobId, worker: nat, r: Result, now: Time)
    requires s.pq != [] && s.pq[0] == id && id in s.store.jobs && !Terminal(s.store.jobs[id].status)
    requires id !in s.leases && r.jobId == id
    ensures var redispatched := DispatchNext(s, Some(worker), true);
            && redispatched.leases[id] == Lease(worker, 1, 1)
            && (Accepts(redispatched, r) <==> r.attempt <= 1)
            && (r.attempt <= 1 ==> id !in HandleResult(redispatched, r, now).leases)
  {
  }

  lemma DispatchOfOnlyJob(s: Sched, id: JobId, worker: nat)
    requires s.pq == [id] && s.leases == map[] && id in s.store.jobs && s.store.jobs[id].status == Pending
    ensures DispatchNext(s, Some(worker), true) == s.(pq := [], leases := map[id := Lease(worker, 1, 1)])
  {
    SingletonHeap(ByPriority, s.store.jobs, id);
  }

  lemma RecoveryOfOnlyJob(s: Sched, id: JobId, worker: nat)
    requires s.pq == [] && s.leases == map[id := Lease(worker, 1, 1)]
    requires id in s.store.jobs && s.store.jobs[id].status == Pending
    ensures Enumerates([id], HeldBy(s.leases, worker))
    ensures RecoverWorker(s, worker, [id]) == s.(pq := [id], leases := map[])
  {
    SingletonHeap(ByPriority, s.store.jobs, id);
    assert HeldBy(s.leases, worker) == {id};
    assert [id][..0] == [];
    assert PendingAmong(s.store.jobs, [id][..0]) == [];
    assert PendingAmong(s.store.jobs, [id]) == [] + [id];
  }

  lemma OneJobRunning() returns (st: State)
    ensures Reachable(st) && st.phase == Running && st.s.pq == [1] && st.s.leases == map[]
    ensures st.s.dq == [] && st.nextId == 1 && st.s.store.jobs == map[1 := NewJob(1, "report", 0)]
  {
    assert LegalRun(INIT, []) && INIT == Run(INIT, []);
    var started := ReachableNext(INIT, Start([], []));
    st := ReachableNext(started, Submit("report", 0));
    SingletonHeap(ByPriority, st.s.store.jobs, 1);
  }

  lemma OneJobLeased() returns (st: State)
    ensures Reachable(st) && st.phase == Running && st.nextId == 1
    ensures st.s.pq == [] && st.s.dq == [] && st.s.leases == map[1 := Lease(1, 1, 1)]
    ensures st.s.store.jobs == map[1 := NewJob(1, "report", 0)]
  {
    var queued := OneJobRunning();
    DispatchOfOnlyJob(queued.s, 1, 1);
    st := ReachableNext(queued, DispatchOne(Some(1), true));
  }

  /** It happens: worker 1 is declared dead, its job goes to worker 2, and the late answer of
      worker 1 is taken for that of worker 2. */
  lemma LateAnswerOfDeadWorkerPasses(r: Result) returns (st: State)
    requires r.jobId == 1 && r.attempt <= 1
    ensures Reachable(st) && st.phase == Running
    ensures st.s.leases == map[1 := Lease(2, 1, 1)] && Accepts(st.s, r)
    ensures 1 in st.s.store.jobs && st.s.store.jobs[1] == NewJob(1, "report", 0)
  {
    var leased := OneJobLeased();
    RecoveryOfOnlyJob(leased.s, 1, 1);
    var recovered := ReachableNext(leased, WorkerDies(1, [1]));
    DispatchOfOnlyJob(recovered.s, 1, 2);
    st := ReachableNext(recovered, DispatchOne(Some(2), true));
  }

  lemma SuccessWithoutLease(s: Sched, r: Result, now: Time)
    requires Good(s.store) && Accepts(s, r) && r.success && r.jobId !in s.leases
    requires s.store.jobs[r.jobId].status == Scheduled
    ensures HandleResult(s, r, now) == s
  {
    SuccessCompletesIff(s, r, now);
    assert s.leases - {r.jobId} == s.leases;
  }

  /** A late success can be lost as well: worker 1 is declared dead, worker 2 fails the job,
      and the success of worker 1, accepted, leaves the job Scheduled for another run. */
  lemma LateSuccessIsDropped(failure: Result, success: Result) returns (st: State)
    requires failure.jobId == success.jobId == 1 && !failure.success && success.success
    requires failure.attempt <= 1 && success.attempt <= 1
    ensures Reachable(st) && st.phase == Running && Accepts(st.s, success) && 1 in st.s.store.jobs
    ensures forall now :: HandleResult(st.s, success, now) == st.s
    ensures st.s.store.jobs[1].status == Scheduled
  {
    var running := LateAnswerOfDeadWorkerPasses(failure);
    ReachableInv(running);
    st := ReachableNext(running, ResultArrives(failure, 0));
    ReachableInv(st);
    forall now
      ensures HandleResult(st.s, success, now) == st.s
    {
      SuccessWithoutLease(st.s, success, now);
    }
  }

  /** A failure report for a job that may still be retried and holds no lease after it. */
  lemma OneMoreFailure(st: State, r: Result, now: Time) returns (st': State)
    requires Reachable(st) && st.phase == Running && r.jobId in st.s.store.jobs && !r.success && Accepts(st.s, r)
    requires ShouldRetry(st.s.store.jobs[r.jobId]) && !Terminal(st.s.store.jobs[r.jobId].status)
    ensures st' == Next(st, ResultArrives(r, now)) && Reachable(st') && st'.phase == Running
    ensures r.jobId in st'.s.store.jobs && Accepts(st'.s, r)
    ensures st'.s.store.jobs == st.s.store.jobs[r.jobId := Retried(st.s.store.jobs[r.jobId], r.error, now)]
    ensures st'.s.dq == Push(ByNextRun, st'.s.store.jobs, st.s.dq, r.jobId)
    ensures st'.s.leases == st.s.leases - {r.jobId} && st'.nextId == st.nextId
  {
    ReachableInv(st);
    assert st.s.store.jobs[r.jobId].id == r.jobId;
    st' := ReachableNext(st, ResultArrives(r, now));
  }

  /** A dead letter can be premature: one failure, reported four times, buries a job that the
      store still calls Scheduled and will run again. */
  lemma DeadLetterCanBePremature(r: Result) returns (st: State)
    requires r.jobId == 1 && !r.success && r.attempt <= 1
    ensures Reachable(st) && st.phase == Running
    ensures 1 in st.s.store.dlq && 1 in st.s.deadLetters
    ensures 1 in st.s.store.jobs && st.s.store.jobs[1].status == Scheduled && 1 in st.s.dq
  {
    var leased := OneJobLeased();
    var once := OneMoreFailure(leased, r, 0);
    var twice := OneMoreFailure(once, r, 0);
    var thrice := OneMoreFailure(twice, r, 0);
    ReachableInv(thrice);
    st := ReachableNext(thrice, ResultArrives(r, 0));
    DeadLetterAgreesIff(thrice.s, r, 0);
    NoJobIsLost(st, 1);
  }
}
