/** What every step of the orchestrator keeps, hence what holds in every reachable state:
    exact indexes, bounded retries, no lost job, dead-letter accounting. */
module RunInvariants {
  import opened Jobs
  import opened Heaps
  import opened MemoryStores
  import opened Leases
  import opened Retry
  import opened Scheduling

  // ---------- the store ----------

  /** Retries never exceed the limit every job is created with; statuses are named ones. */
  ghost predicate Bounded(m: Mem) {
    forall id :: id in m.jobs ==>
      && m.jobs[id].retryCount <= m.jobs[id].maxRetries == DEFAULT_MAX_RETRIES
      && !m.jobs[id].status.Other?
  }

  ghost predicate Good(m: Mem) {
    IndexExact(m) && KeysExact(m) && Bounded(m)
  }

  lemma GoodAfterAdd(m: Mem, j: Job)
    requires Good(m) && j.id !in m.jobs && !j.status.Other?
    requires j.retryCount == 0 && j.maxRetries == DEFAULT_MAX_RETRIES
    requires j.key == "" || Find(m, j.key) == None
    ensures Good(DoAdd(m, j).0)
  {
    ApplyKeepsIndex(m, Add(j));
    assert KeySafe(m, Add(j));
    AddKeepsKeysIff(m, j);
  }

  lemma GoodAfterUpdate(m: Mem, j: Job)
    requires Good(m) && j.id in m.jobs && !j.status.Other?
    requires j.key == m.jobs[j.id].key
    requires j.retryCount <= j.maxRetries == DEFAULT_MAX_RETRIES
    ensures Good(DoUpdate(m, j).0)
  {
    ApplyKeepsIndex(m, Update(j));
    UpdateKeepsKeysIff(m, j);
  }

  lemma GoodAfterCancel(m: Mem, id: JobId)
    requires Good(m)
    ensures Good(DoCancel(m, id).0)
  {
    ApplyKeepsIndex(m, Cancel(id));
    KeysStayExactIff(m, Cancel(id));
  }

  lemma GoodAfterDelete(m: Mem, id: JobId)
    requires Good(m)
    ensures Good(DoDelete(m, id).0)
  {
    ApplyKeepsIndex(m, Delete(id));
    KeysStayExactIff(m, Delete(id));
  }

  /** Dead letters used up their retries, and every job the store calls Failed has one. */
  ghost predicate DeadLettersExact(m: Mem) {
    && (forall id :: id in m.dlq ==> m.dlq[id].retryCount == m.dlq[id].maxRetries == DEFAULT_MAX_RETRIES)
    && (forall id :: id in m.jobs && m.jobs[id].status == Failed ==> id in m.dlq)
  }

  // ---------- no job is lost ----------

  /** Every Pending job is queued for dispatch or leased, every Scheduled job is queued for
      promotion. Duplicate entries and entries of finished jobs are allowed. */
  ghost predicate NotLost(s: Sched) {
    forall id :: id in s.store.jobs ==>
      && (s.store.jobs[id].status == Pending ==> id in s.pq || id in s.leases)
      && (s.store.jobs[id].status == Scheduled ==> id in s.dq)
  }

  /** The dispatched job is back in the queue or leased; no other entry or lease is touched. */
  lemma DispatchKeepsHold(s: Sched, id: JobId, worker: Option<nat>, accepted: bool, x: JobId)
    requires x == id || x in s.pq || x in s.leases
    ensures x in Dispatch(s, id, worker, accepted).pq || x in Dispatch(s, id, worker, accepted).leases
  {
    PushContents(ByPriority, s.store.jobs, s.pq, id);
  }

  lemma DispatchLosesNone(s: Sched, worker: Option<nat>, accepted: bool)
    requires NotLost(s)
    ensures NotLost(DispatchNext(s, worker, accepted))
  {
    if s.pq != [] {
      var s1 := s.(pq := Pop(ByPriority, s.store.jobs, s.pq));
      PopContents(ByPriority, s.store.jobs, s.pq);
      forall x | x in s.pq || x in s.leases
        ensures x in Dispatch(s1, s.pq[0], worker, accepted).pq || x in Dispatch(s1, s.pq[0], worker, accepted).leases
      {
        DispatchKeepsHold(s1, s.pq[0], worker, accepted, x);
      }
    }
  }

  /** The queues and leases after a result: only the lease of its job is gone. */
  lemma ResultKeepsHold(s: Sched, r: Result, now: Time, x: JobId)
    requires Accepts(s, r)
    ensures var t := HandleResult(s, r, now);
            && t.pq == s.pq && (x in t.leases <==> x in s.leases && x != r.jobId)
            && (x in s.dq ==> x in t.dq)
            && (!r.success && ShouldRetry(s.store.jobs[r.jobId]) ==> r.jobId in t.dq)
  {
    PushContents(ByNextRun, HandleResult(s, r, now).store.jobs, s.dq, r.jobId);
  }

  /** Whatever the outcome, the job is not Pending afterwards; no other job is touched. */
  lemma ResultSettles(s: Sched, r: Result, now: Time, x: JobId)
    requires IndexExact(s.store) && Accepts(s, r)
    ensures var t := HandleResult(s, r, now);
            && (x != r.jobId ==> (x in t.store.jobs <==> x in s.store.jobs) && (x in s.store.jobs ==> t.store.jobs[x] == s.store.jobs[x]))
            && (x == r.jobId ==> x in t.store.jobs && t.store.jobs[x].status != Pending)
            && (x == r.jobId && t.store.jobs[x].status == Scheduled && s.store.jobs[x].status != Scheduled ==>
                  !r.success && ShouldRetry(s.store.jobs[x]))
  {
    assert s.store.jobs[r.jobId].id == r.jobId;
  }

  lemma ResultLosesNone(s: Sched, r: Result, now: Time)
    requires IndexExact(s.store) && NotLost(s)
    ensures NotLost(HandleResult(s, r, now))
  {
    if Accepts(s, r) {
      var t := HandleResult(s, r, now);
      forall x | x in t.store.jobs
        ensures t.store.jobs[x].status == Pending ==> x in t.pq || x in t.leases
        ensures t.store.jobs[x].status == Scheduled ==> x in t.dq
      {
        ResultKeepsHold(s, r, now, x);
        ResultSettles(s, r, now, x);
      }
    }
  }

  lemma PromotionLosesNone(s: Sched, now: Time)
    requires IndexExact(s.store) && NotLost(s)
    ensures NotLost(PromoteNext(s, now))
  {
    if Due(s, now) {
      var id := s.dq[0];
      PopContents(ByNextRun, s.store.jobs, s.dq);
      PushContents(ByPriority, PromoteNext(s, now).store.jobs, s.pq, id);
    }
  }

  lemma {:induction false} PendingAmongIsFilter(jobs: map<JobId, Job>, ids: seq<JobId>)
    ensures forall x :: x in PendingAmong(jobs, ids) <==> x in ids && x in jobs && jobs[x].status == Pending
    decreases |ids|
  {
    if ids != [] {
      PendingAmongIsFilter(jobs, ids[..|ids| - 1]);
      assert ids == ids[..|ids| - 1] + [ids[|ids| - 1]];
    }
  }

  lemma RecoveryLosesNone(s: Sched, workerId: nat, released: seq<JobId>)
    requires NotLost(s) && Enumerates(released, HeldBy(s.leases, workerId))
    ensures NotLost(RecoverWorker(s, workerId, released))
  {
    EnumerationMembers(released, HeldBy(s.leases, workerId));
    PendingAmongIsFilter(s.store.jobs, released);
    PushAllContents(ByPriority, s.store.jobs, s.pq, PendingAmong(s.store.jobs, released));
  }

  /** A rebuild finds every unfinished job, whatever the queues and leases were. */
  lemma RebuildLosesNone(s: Sched, pending: seq<JobId>, scheduled: seq<JobId>)
    requires IndexExact(s.store) && ListsStore(s.store, pending, scheduled)
    ensures NotLost(Rebuild(s, pending, scheduled))
  {
    EnumerationMembers(pending, Ids(s.store, Pending));
    EnumerationMembers(scheduled, Ids(s.store, Scheduled));
    PushAllContents(ByPriority, s.store.jobs, s.pq, pending);
    PushAllContents(ByNextRun, s.store.jobs, s.dq, scheduled);
    forall id | id in s.store.jobs
      ensures s.store.jobs[id].status == Pending ==> id in pending
      ensures s.store.jobs[id].status == Scheduled ==> id in scheduled
    {
      assert id in Ids(s.store, s.store.jobs[id].status);
    }
  }

  // ---------- the invariant ----------

  ghost predicate Inv(st: State) {
    && Good(st.s.store)
    && DeadLettersExact(st.s.store)
    && (st.phase != Down ==> forall id :: id in st.s.store.jobs ==> id <= st.nextId)
    && (st.phase == Running ==> NotLost(st.s))
  }

  lemma SubmitKeepsInv(st: State, j: Job)
    requires Inv(st) && st.phase != Down
    requires j.id == st.nextId + 1 && (j.status == Pending || j.status == Scheduled)
    requires j.retryCount == 0 && j.maxRetries == DEFAULT_MAX_RETRIES
    requires j.key == "" || Find(st.s.store, j.key) == None
    ensures Inv(SubmitJob(st, j))
    ensures j.id !in st.s.store.jobs
  {
    GoodAfterAdd(st.s.store, j);
    var jobs := DoAdd(st.s.store, j).0.jobs;
    PushContents(ByPriority, jobs, st.s.pq, j.id);
    PushContents(ByNextRun, jobs, st.s.dq, j.id);
  }

  lemma DeathKeepsStore(m: Mem, dead: Job)
    requires Good(m) && DeadLettersExact(m) && dead.id in m.jobs
    requires dead.status == Failed && dead.key == m.jobs[dead.id].key
    requires dead.retryCount == dead.maxRetries == DEFAULT_MAX_RETRIES
    ensures Good(DoAddDLQ(DoUpdate(m, dead).0, dead).0)
    ensures DeadLettersExact(DoAddDLQ(DoUpdate(m, dead).0, dead).0)
  {
    GoodAfterUpdate(m, dead);
    ApplyKeepsIndex(DoUpdate(m, dead).0, AddDLQ(dead));
    KeysStayExactIff(DoUpdate(m, dead).0, AddDLQ(dead));
  }

  lemma UpdateKeepsDeadLetters(m: Mem, j: Job)
    requires DeadLettersExact(m) && j.status != Failed
    ensures DeadLettersExact(DoUpdate(m, j).0)
  {
  }

  lemma ResultKeepsStore(s: Sched, r: Result, now: Time)
    requires Good(s.store) && DeadLettersExact(s.store)
    ensures Good(HandleResult(s, r, now).store) && DeadLettersExact(HandleResult(s, r, now).store)
    ensures HandleResult(s, r, now).store.jobs.Keys == s.store.jobs.Keys
  {
    if Accepts(s, r) {
      var j := s.store.jobs[r.jobId];
      if r.success {
        GoodAfterUpdate(s.store, j.(status := Completed));
        UpdateKeepsDeadLetters(s.store, j.(status := Completed));
      } else if ShouldRetry(j) {
        GoodAfterUpdate(s.store, Retried(j, r.error, now));
        UpdateKeepsDeadLetters(s.store, Retried(j, r.error, now));
      } else {
        DeathKeepsStore(s.store, j.(status := Failed, lastError := r.error));
      }
    }
  }

  lemma ResultKeepsInv(st: State, r: Result, now: Time)
    requires Inv(st) && st.phase == Running
    ensures Inv(Next(st, ResultArrives(r, now)))
  {
    ResultLosesNone(st.s, r, now);
    ResultKeepsStore(st.s, r, now);
    assert forall id :: id in HandleResult(st.s, r, now).store.jobs ==> id in st.s.store.jobs.Keys;
  }

  lemma PromotionKeepsStore(s: Sched, now: Time)
    requires Good(s.store) && DeadLettersExact(s.store)
    ensures Good(PromoteNext(s, now).store) && DeadLettersExact(PromoteNext(s, now).store)
    ensures PromoteNext(s, now).store.jobs.Keys == s.store.jobs.Keys
  {
    if Due(s, now) && s.dq[0] in s.store.jobs {
      var j := s.store.jobs[s.dq[0]].(status := Pending);
      assert j.id == s.dq[0];
      GoodAfterUpdate(s.store, j);
      UpdateKeepsDeadLetters(s.store, j);
      assert DoUpdate(s.store, j).0.jobs.Keys == s.store.jobs.Keys;
    }
  }

  lemma PromoteKeepsInv(st: State, now: Time)
    requires Inv(st) && st.phase == Running
    ensures Inv(Next(st, PromoteOne(now)))
  {
    PromotionLosesNone(st.s, now);
    PromotionKeepsStore(st.s, now);
    assert forall id :: id in PromoteNext(st.s, now).store.jobs ==> id in st.s.store.jobs.Keys;
  }

  lemma CancelKeepsInv(st: State, id: JobId)
    requires Inv(st)
    ensures Inv(Next(st, CancelJob(id)))
  {
    GoodAfterCancel(st.s.store, id);
  }

  lemma DeleteKeepsInv(st: State, id: JobId)
    requires Inv(st)
    ensures Inv(Next(st, DeleteJob(id)))
  {
    GoodAfterDelete(st.s.store, id);
  }

  ghost predicate IsSubmit(step: Step) {
    step.Submit? || step.SubmitAt? || step.SubmitKeyed?
  }

  lemma KeyedSubmitIsEntry(st: State, key: string, kind: string, priority: int)
    ensures Find(st.s.store, key).Some? ==> Next(st, SubmitKeyed(key, kind, priority)) == st
    ensures Find(st.s.store, key) == None ==>
              Next(st, SubmitKeyed(key, kind, priority)) == SubmitJob(st, NewJob(st.nextId + 1, kind, priority).(key := key))
  {
  }

  lemma DelayedSubmitIsEntry(st: State, kind: string, priority: int, runAt: Time)
    ensures Next(st, SubmitAt(kind, priority, runAt)) ==
            SubmitJob(st, NewJob(st.nextId + 1, kind, priority).(status := Scheduled, nextRunAt := runAt))
  {
  }

  lemma KeyedSubmitKeepsInv(st: State, key: string, kind: string, priority: int)
    requires Inv(st) && st.phase != Down
    ensures Inv(Next(st, SubmitKeyed(key, kind, priority)))
  {
    KeyedSubmitIsEntry(st, key, kind, priority);
    if Find(st.s.store, key) == None {
      var j := NewJob(st.nextId + 1, kind, priority).(key := key);
      SubmitKeepsInv(st, j);
    }
  }

  lemma DelayedSubmitKeepsInv(st: State, kind: string, priority: int, runAt: Time)
    requires Inv(st) && st.phase != Down
    ensures Inv(Next(st, SubmitAt(kind, priority, runAt)))
  {
    DelayedSubmitIsEntry(st, kind, priority, runAt);
    var j := NewJob(st.nextId + 1, kind, priority).(status := Scheduled, nextRunAt := runAt);
    SubmitKeepsInv(st, j);
  }

  lemma PlainSubmitIsEntry(st: State, kind: string, priority: int)
    ensures Next(st, Submit(kind, priority)) == SubmitJob(st, NewJob(st.nextId + 1, kind, priority))
  {
  }

  lemma PlainSubmitKeepsInv(st: State, kind: string, priority: int)
    requires Inv(st) && st.phase != Down
    ensures Inv(Next(st, Submit(kind, priority)))
  {
    PlainSubmitIsEntry(st, kind, priority);
    var j := NewJob(st.nextId + 1, kind, priority);
    SubmitKeepsInv(st, j);
  }

  lemma DispatchKeepsInv(st: State, worker: Option<nat>, accepted: bool)
    requires Inv(st) && st.phase == Running
    ensures Inv(Next(st, DispatchOne(worker, accepted)))
  {
    DispatchLosesNone(st.s, worker, accepted);
    assert DispatchNext(st.s, worker, accepted).store == st.s.store;
  }

  lemma RecoveryKeepsInv(st: State, workerId: nat, released: seq<JobId>)
    requires Inv(st) && Legal(st, WorkerDies(workerId, released))
    ensures Inv(Next(st, WorkerDies(workerId, released)))
  {
    RecoveryLosesNone(st.s, workerId, released);
  }

  lemma StartKeepsInv(st: State, pending: seq<JobId>, scheduled: seq<JobId>)
    requires Inv(st) && Legal(st, Start(pending, scheduled))
    ensures Inv(Next(st, Start(pending, scheduled)))
  {
    RebuildLosesNone(st.s, pending, scheduled);
  }

  lemma PausesKeepInv(st: State, step: Step)
    requires Inv(st) && Legal(st, step)
    requires step.DispatchInterrupted? || step.Stop? || step.Crash? || step.Boot?
    ensures Inv(Next(st, step))
  {
    assert Next(st, step).s.store == st.s.store && Next(st, step).phase != Running;
  }

  lemma StepKeepsInv(st: State, step: Step)
    requires Inv(st) && Legal(st, step)
    ensures Inv(Next(st, step))
  {
    match step {
      case Submit(kind, priority) => PlainSubmitKeepsInv(st, kind, priority);
      case SubmitAt(kind, priority, runAt) => DelayedSubmitKeepsInv(st, kind, priority, runAt);
      case SubmitKeyed(key, kind, priority) => KeyedSubmitKeepsInv(st, key, kind, priority);
      case CancelJob(id) => CancelKeepsInv(st, id);
      case DeleteJob(id) => DeleteKeepsInv(st, id);
      case DispatchOne(worker, accepted) => DispatchKeepsInv(st, worker, accepted);
      case ResultArrives(r, now) => ResultKeepsInv(st, r, now);
      case PromoteOne(now) => PromoteKeepsInv(st, now);
      case WorkerDies(w, released) => RecoveryKeepsInv(st, w, released);
      case Start(pending, scheduled) => StartKeepsInv(st, pending, scheduled);
      case DispatchInterrupted => PausesKeepInv(st, step);
      case Stop => PausesKeepInv(st, step);
      case Crash => PausesKeepInv(st, step);
      case Boot(_, _) => PausesKeepInv(st, step);
    }
  }

  lemma {:induction false} RunKeepsInv(st: State, steps: seq<Step>)
    requires Inv(st) && LegalRun(st, steps)
    ensures Inv(Run(st, steps))
    decreases |steps|
  {
    if steps != [] {
      RunKeepsInv(st, steps[..|steps| - 1]);
      StepKeepsInv(Run(st, steps[..|steps| - 1]), steps[|steps| - 1]);
    }
  }

  /** The end of some run that starts with an empty store. */
  ghost predicate Reachable(st: State) {
    exists steps :: LegalRun(INIT, steps) && st == Run(INIT, steps)
  }

  lemma ReachableNext(st: State, step: Step) returns (st': State)
    requires Reachable(st) && Legal(st, step)
    ensures st' == Next(st, step) && Reachable(st')
  {
    var steps :| LegalRun(INIT, steps) && st == Run(INIT, steps);
    var more := steps + [step];
    assert more[..|more| - 1] == steps;
    st' := Next(st, step);
    assert LegalRun(INIT, more) && st' == Run(INIT, more);
  }

  lemma ReachableInv(st: State)
    requires Reachable(st)
    ensures Inv(st)
  {
    var steps :| LegalRun(INIT, steps) && st == Run(INIT, steps);
    assert IndexExact(EMPTY);
    RunKeepsInv(INIT, steps);
  }

  /** No job is lost: over every run, with any interleaving, duplicate queue entries,
      dropped, late or duplicated results, dead workers, crashes and restarts, a running
      scheduler still holds every Pending and every Scheduled job. */
  lemma NoJobIsLost(st: State, id: JobId)
    requires Reachable(st) && st.phase == Running && id in st.s.store.jobs
    ensures st.s.store.jobs[id].status == Pending ==> id in st.s.pq || id in st.s.leases
    ensures st.s.store.jobs[id].status == Scheduled ==> id in st.s.dq
    ensures st.s.store.jobs[id].status == Failed ==> id in st.s.store.dlq
  {
    ReachableInv(st);
  }

  /** Up to the 33rd, the k-th retry of a job is put off by 2^k seconds, a minute at most. */
  lemma RetryDelay(j: Job, error: string, now: Time)
    requires j.retryCount < 33
    ensures Retried(j, error, now).nextRunAt == now + Min(1_000_000_000 * Pow2(j.retryCount + 1), 60_000_000_000)
    ensures j.retryCount >= 5 ==> Retried(j, error, now).nextRunAt == now + 60_000_000_000
  {
    BackoffExactIff(j.retryCount + 1, MAX_BACKOFF);
    if j.retryCount >= 5 {
      Pow2Monotone(6, j.retryCount + 1);
      Pow2PlusFour(2);
    }
  }

  /** Backoff is exact in every run: whenever a stored job may be retried, its k-th retry is
      put off by min(2^k seconds, one minute), without 64-bit wrap-around. */
  lemma RetryDelaysAreExact(st: State, id: JobId, error: string, now: Time)
    requires Reachable(st) && id in st.s.store.jobs && ShouldRetry(st.s.store.jobs[id])
    ensures st.s.store.jobs[id].retryCount < DEFAULT_MAX_RETRIES
    ensures Retried(st.s.store.jobs[id], error, now).nextRunAt ==
            now + Min(1_000_000_000 * Pow2(st.s.store.jobs[id].retryCount + 1), 60_000_000_000)
  {
    assert st.s.store.jobs[id].retryCount < DEFAULT_MAX_RETRIES by {
      ReachableInv(st);
    }
    RetryDelay(st.s.store.jobs[id], error, now);
  }
}
