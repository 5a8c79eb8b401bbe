/** What each step of the orchestrator does, entry by entry and field by field, without
    reference to how the queues are laid out (internal/engine/engine.go and
    internal/scheduler/scheduler.go), and what follows over whole runs for leases, ids and
    errors. */
module StepOutcomes {
  import opened Jobs
  import opened Heaps
  import opened MemoryStores
  import opened Leases
  import opened Retry
  import opened Scheduling
  import opened RunInvariants
  import opened RunHistories
  import opened Promotion

  /** q' is q with one more entry of id. */
  ghost predicate OneMore(q: seq<JobId>, q': seq<JobId>, id: JobId) {
    forall x :: Count(q', x) == Count(q, x) + if x == id then 1 else 0
  }

  /** q' holds the entries of q in some order. */
  ghost predicate SameEntries(q: seq<JobId>, q': seq<JobId>) {
    forall x :: Count(q', x) == Count(q, x)
  }

  lemma PushIsOneMore(o: Order, jobs: map<JobId, Job>, q: seq<JobId>, id: JobId)
    ensures OneMore(q, Push(o, jobs, q, id), id)
  {
    PushContents(o, jobs, q, id);
  }

  lemma PopIsOneLess(o: Order, jobs: map<JobId, Job>, q: seq<JobId>)
    requires q != []
    ensures OneMore(Pop(o, jobs, q), q, q[0])
  {
    PopContents(o, jobs, q);
  }

  lemma PopPushIsSame(o: Order, jobs: map<JobId, Job>, q: seq<JobId>)
    requires q != []
    ensures SameEntries(q, Push(o, jobs, Pop(o, jobs, q), q[0]))
  {
    PopIsOneLess(o, jobs, q);
    PushIsOneMore(o, jobs, Pop(o, jobs, q), q[0]);
  }

  // ---------- submissions ----------

  /** Nothing but the next id, the jobs and, for a key, the key index has changed. */
  ghost predicate OnlyAdds(st: State, t: State, j: Job) {
    && t.phase == st.phase && t.nextId == st.nextId + 1 == j.id
    && t.s.store.jobs == st.s.store.jobs[j.id := j] && t.s.store.dlq == st.s.store.dlq
    && t.s.store.keys == (if j.key == "" then st.s.store.keys else st.s.store.keys[j.key := j.id])
    && t.s.leases == st.s.leases && t.s.deadLetters == st.s.deadLetters
  }

  lemma EntryOutcome(st: State, j: Job)
    requires j.id == st.nextId + 1
    ensures var t := SubmitJob(st, j);
            && (j.id in st.s.store.jobs ==> t == st.(nextId := j.id))
            && (j.id !in st.s.store.jobs ==> OnlyAdds(st, t, j))
            && (j.id !in st.s.store.jobs && j.status == Scheduled ==> OneMore(st.s.dq, t.s.dq, j.id) && t.s.pq == st.s.pq)
            && (j.id !in st.s.store.jobs && j.status != Scheduled ==> OneMore(st.s.pq, t.s.pq, j.id) && t.s.dq == st.s.dq)
  {
    var jobs := SubmitJob(st, j).s.store.jobs;
    PushIsOneMore(ByPriority, jobs, st.s.pq, j.id);
    PushIsOneMore(ByNextRun, jobs, st.s.dq, j.id);
  }

  /** A submission under the next id stores a job of the given type and priority with no
      retries used of three, and adds one entry for dispatch. */
  lemma SubmitOutcome(st: State, kind: string, priority: int)
    ensures var t, id := Next(st, Submit(kind, priority)), st.nextId + 1;
            && (id in st.s.store.jobs ==> t == st.(nextId := id))
            && (id !in st.s.store.jobs ==>
                  && OnlyAdds(st, t, Job(id, kind, priority, Pending, 0, 3, 0, "", ""))
                  && OneMore(st.s.pq, t.s.pq, id) && t.s.dq == st.s.dq)
  {
    EntryOutcome(st, Job(st.nextId + 1, kind, priority, Pending, 0, 3, 0, "", ""));
  }

  /** A delayed submission stores a Scheduled job with its run time and adds one entry for
      promotion. */
  lemma SubmitAtOutcome(st: State, kind: string, priority: int, runAt: Time)
    ensures var t, id := Next(st, SubmitAt(kind, priority, runAt)), st.nextId + 1;
            && (id in st.s.store.jobs ==> t == st.(nextId := id))
            && (id !in st.s.store.jobs ==>
                  && OnlyAdds(st, t, Job(id, kind, priority, Scheduled, 0, 3, runAt, "", ""))
                  && OneMore(st.s.dq, t.s.dq, id) && t.s.pq == st.s.pq)
  {
    EntryOutcome(st, Job(st.nextId + 1, kind, priority, Scheduled, 0, 3, runAt, "", ""));
  }

  /** A keyed submission of an unknown key also stores the key; of a known one it does nothing. */
  lemma SubmitKeyedOutcome(st: State, key: string, kind: string, priority: int)
    ensures var t, id := Next(st, SubmitKeyed(key, kind, priority)), st.nextId + 1;
            && (Find(st.s.store, key).Some? ==> t == st)
            && (Find(st.s.store, key).None? && id in st.s.store.jobs ==> t == st.(nextId := id))
            && (Find(st.s.store, key).None? && id !in st.s.store.jobs ==>
                  && OnlyAdds(st, t, Job(id, kind, priority, Pending, 0, 3, 0, "", key))
                  && OneMore(st.s.pq, t.s.pq, id) && t.s.dq == st.s.dq)
  {
    EntryOutcome(st, Job(st.nextId + 1, kind, priority, Pending, 0, 3, 0, "", key));
  }

  // ---------- cancelling and deleting ----------

  /** A cancellation changes the status of an unfinished job and nothing else. */
  lemma CancelOutcome(st: State, id: JobId)
    ensures var t, jobs := Next(st, CancelJob(id)), st.s.store.jobs;
            && t == st.(s := st.s.(store := t.s.store))
            && t.s.store.keys == st.s.store.keys && t.s.store.dlq == st.s.store.dlq
            && t.s.store.jobs ==
               if id in jobs && jobs[id].status != Completed && jobs[id].status != Failed && jobs[id].status != Cancelled
               then jobs[id := jobs[id].(status := Cancelled)] else jobs
  {
  }

  /** A deletion removes the job and the index entry of its key; queue entries and leases stay. */
  lemma DeleteOutcome(st: State, id: JobId)
    ensures var t, m := Next(st, DeleteJob(id)), st.s.store;
            && t == st.(s := st.s.(store := t.s.store))
            && t.s.store.jobs == m.jobs - {id} && t.s.store.dlq == m.dlq
            && t.s.store.keys == if id in m.jobs && m.jobs[id].key != "" then m.keys - {m.jobs[id].key} else m.keys
  {
    assert id !in st.s.store.jobs ==> st.s.store.jobs - {id} == st.s.store.jobs;
  }

  // ---------- dispatch ----------

  /** The head of the queue is a stored, unfinished job. */
  predicate HeadIsLive(s: Sched) {
    && s.pq != [] && s.pq[0] in s.store.jobs
    && s.store.jobs[s.pq[0]].status != Completed
    && s.store.jobs[s.pq[0]].status != Failed
    && s.store.jobs[s.pq[0]].status != Cancelled
  }

  /** A dispatch drops the entry of a finished or deleted job. A live one goes back without a
      worker or with a refusing one, which also ends its lease; else it is leased to that
      worker, with the attempt after the leased one, or the first. */
  lemma DispatchOutcome(s: Sched, worker: Option<nat>, accepted: bool)
    ensures var t := DispatchNext(s, worker, accepted);
            && t.store == s.store && t.dq == s.dq && t.deadLetters == s.deadLetters
            && (s.pq == [] ==> t == s)
            && (s.pq != [] && !HeadIsLive(s) ==> t.leases == s.leases && OneMore(t.pq, s.pq, s.pq[0]))
            && (HeadIsLive(s) && worker.None? ==> t.leases == s.leases && SameEntries(s.pq, t.pq))
            && (HeadIsLive(s) && worker.Some? && !accepted ==> t.leases == s.leases - {s.pq[0]} && SameEntries(s.pq, t.pq))
            && (HeadIsLive(s) && worker.Some? && accepted ==>
                  && OneMore(t.pq, s.pq, s.pq[0])
                  && t.leases == s.leases[s.pq[0] := Lease(worker.value, 1,
                       if s.pq[0] in s.leases then s.leases[s.pq[0]].attempt + 1 else 1)])
  {
    if s.pq != [] {
      PopIsOneLess(ByPriority, s.store.jobs, s.pq);
      PopPushIsSame(ByPriority, s.store.jobs, s.pq);
      var lease := Lease(if worker.Some? then worker.value else 0, 1, NextAttempt(s.leases, s.pq[0]));
      assert s.leases[s.pq[0] := lease] - {s.pq[0]} == s.leases - {s.pq[0]};
    }
  }

  // ---------- results ----------

  predicate Taken(s: Sched, r: Result) {
    && r.jobId in s.store.jobs
    && (r.jobId in s.leases && r.attempt > 0 ==> r.attempt == s.leases[r.jobId].attempt)
  }

  /** The job after a result that is taken: completed by a success if it was Pending, put off
      by a failure while retries are left, Failed by a last failure if it was Pending; a
      failure leaves its error in the record it changes. */
  function Judged(j: Job, r: Result, now: Time): Job {
    if r.success then
      if j.status == Pending then j.(status := Completed) else j
    else if j.retryCount < j.maxRetries then
      if j.status == Pending || j.status == Scheduled
      then j.(status := Scheduled, retryCount := j.retryCount + 1, lastError := r.error,
              nextRunAt := now + Backoff(j.retryCount + 1, 60_000_000_000))
      else j
    else if j.status == Pending || j.status == Failed
    then j.(status := Failed, lastError := r.error) else j
  }

  lemma UpdateOnJobs(m: Mem, j: Job)
    requires j.id in m.jobs
    ensures DoUpdate(m, j).0.keys == m.keys && DoUpdate(m, j).0.dlq == m.dlq
    ensures DoUpdate(m, j).0.jobs == if IsValidTransition(m.jobs[j.id].status, j.status) then m.jobs[j.id := j] else m.jobs
  {
  }

  lemma SuccessOnJobs(s: Sched, r: Result, now: Time)
    requires Good(s.store) && Taken(s, r) && r.success
    ensures HandleResult(s, r, now).store.jobs == s.store.jobs[r.jobId := Judged(s.store.jobs[r.jobId], r, now)]
    ensures HandleResult(s, r, now).store.keys == s.store.keys && HandleResult(s, r, now).store.dlq == s.store.dlq
  {
    var j := s.store.jobs[r.jobId];
    assert j.id == r.jobId && s.store.jobs[r.jobId := j] == s.store.jobs;
    UpdateOnJobs(s.store, j.(status := Completed));
  }

  lemma RetryOnJobs(s: Sched, r: Result, now: Time)
    requires Good(s.store) && Taken(s, r) && !r.success && s.store.jobs[r.jobId].retryCount < s.store.jobs[r.jobId].maxRetries
    ensures HandleResult(s, r, now).store.jobs == s.store.jobs[r.jobId := Judged(s.store.jobs[r.jobId], r, now)]
    ensures HandleResult(s, r, now).store.keys == s.store.keys && HandleResult(s, r, now).store.dlq == s.store.dlq
  {
    var j := s.store.jobs[r.jobId];
    assert j.id == r.jobId && s.store.jobs[r.jobId := j] == s.store.jobs;
    UpdateOnJobs(s.store, Retried(j, r.error, now));
  }

  lemma LastFailureOnJobs(s: Sched, r: Result, now: Time)
    requires Good(s.store) && Taken(s, r) && !r.success && s.store.jobs[r.jobId].retryCount >= s.store.jobs[r.jobId].maxRetries
    ensures HandleResult(s, r, now).store.jobs == s.store.jobs[r.jobId := Judged(s.store.jobs[r.jobId], r, now)]
    ensures HandleResult(s, r, now).store.keys == s.store.keys
    ensures HandleResult(s, r, now).store.dlq ==
            s.store.dlq[r.jobId := s.store.jobs[r.jobId].(status := Failed, lastError := r.error)]
  {
    var j := s.store.jobs[r.jobId];
    assert j.id == r.jobId && s.store.jobs[r.jobId := j] == s.store.jobs;
    UpdateOnJobs(s.store, j.(status := Failed, lastError := r.error));
  }

  lemma ResultOnJobs(s: Sched, r: Result, now: Time)
    requires Good(s.store) && Taken(s, r)
    ensures HandleResult(s, r, now).store.jobs == s.store.jobs[r.jobId := Judged(s.store.jobs[r.jobId], r, now)]
    ensures HandleResult(s, r, now).store.keys == s.store.keys
  {
    if r.success {
      SuccessOnJobs(s, r, now);
    } else if s.store.jobs[r.jobId].retryCount < s.store.jobs[r.jobId].maxRetries {
      RetryOnJobs(s, r, now);
    } else {
      LastFailureOnJobs(s, r, now);
    }
  }

  /** A result that is not taken changes nothing. One that is ends the lease of its job; a
      retry adds one entry for promotion, a last failure a dead letter that carries the error. */
  lemma ResultOutcome(s: Sched, r: Result, now: Time)
    requires Good(s.store)
    ensures var t := HandleResult(s, r, now);
            && (!Taken(s, r) ==> t == s)
            && (Taken(s, r) ==>
                  var j := s.store.jobs[r.jobId];
                  var retry, last := !r.success && j.retryCount < j.maxRetries, !r.success && j.retryCount >= j.maxRetries;
                  && t.store.jobs == s.store.jobs[r.jobId := Judged(j, r, now)]
                  && t.store.keys == s.store.keys && t.pq == s.pq && t.leases == s.leases - {r.jobId}
                  && (if retry then OneMore(s.dq, t.dq, r.jobId) else t.dq == s.dq)
                  && (if last
                      then && t.store.dlq == s.store.dlq[r.jobId := j.(status := Failed, lastError := r.error)]
                           && t.deadLetters == s.deadLetters[r.jobId := j.(status := Failed, lastError := r.error)]
                      else t.store.dlq == s.store.dlq && t.deadLetters == s.deadLetters))
  {
    if Taken(s, r) {
      assert s.store.jobs[r.jobId].id == r.jobId;
      ResultOnJobs(s, r, now);
      PushIsOneMore(ByNextRun, HandleResult(s, r, now).store.jobs, s.dq, r.jobId);
    }
  }

  /** The delays that occur, as numbers of nanoseconds: two, four and eight seconds. */
  lemma RetryDelaysInNumbers(st: State, r: Result, now: Time)
    requires Reachable(st) && Taken(st.s, r) && !r.success
    requires st.s.store.jobs[r.jobId].status == Pending || st.s.store.jobs[r.jobId].status == Scheduled
    ensures var k := st.s.store.jobs[r.jobId].retryCount;
            var jobs := HandleResult(st.s, r, now).store.jobs;
            && r.jobId in jobs
            && (k == 0 ==> jobs[r.jobId].nextRunAt == now + 2_000_000_000)
            && (k == 1 ==> jobs[r.jobId].nextRunAt == now + 4_000_000_000)
            && (k == 2 ==> jobs[r.jobId].nextRunAt == now + 8_000_000_000)
            && (k < 3 ==> jobs[r.jobId].retryCount == k + 1 && jobs[r.jobId].lastError == r.error)
            && (k >= 3 ==> jobs[r.jobId].nextRunAt == st.s.store.jobs[r.jobId].nextRunAt)
  {
    ReachableInv(st);
    ResultOnJobs(st.s, r, now);
    FirstBackoffs();
  }

  lemma FirstBackoffs()
    ensures Backoff(1, 60_000_000_000) == 2_000_000_000
    ensures Backoff(2, 60_000_000_000) == 4_000_000_000
    ensures Backoff(3, 60_000_000_000) == 8_000_000_000
  {
    NoWrapUpTo33(1);
    NoWrapUpTo33(2);
    NoWrapUpTo33(3);
    assert Pow2(1) == 2 && Pow2(2) == 4 && Pow2(3) == 8;
  }

  // ---------- promotion, recovery, rebuilding ----------

  /** One iteration of a promotion: a head that is not due stays; else its entry goes, and
      if its job is unfinished the job becomes Pending and gains an entry for dispatch. */
  lemma PromoteOutcome(s: Sched, now: Time)
    requires Good(s.store)
    ensures var t := PromoteNext(s, now);
            && t.leases == s.leases && t.deadLetters == s.deadLetters
            && t.store.keys == s.store.keys && t.store.dlq == s.store.dlq
            && (s.dq == [] || (s.dq[0] in s.store.jobs && s.store.jobs[s.dq[0]].nextRunAt > now) ==> t == s)
            && (s.dq != [] && (s.dq[0] in s.store.jobs ==> s.store.jobs[s.dq[0]].nextRunAt <= now) ==>
                  && OneMore(t.dq, s.dq, s.dq[0])
                  && (if s.dq[0] in s.store.jobs &&
                         (s.store.jobs[s.dq[0]].status == Pending || s.store.jobs[s.dq[0]].status == Scheduled)
                      then && t.store.jobs == s.store.jobs[s.dq[0] := s.store.jobs[s.dq[0]].(status := Pending)]
                           && OneMore(s.pq, t.pq, s.dq[0])
                      else t.store == s.store && t.pq == s.pq))
  {
    if Due(s, now) {
      IterationOutcome(s, now);
      PopIsOneLess(ByNextRun, s.store.jobs, s.dq);
      PushIsOneMore(ByPriority, PromoteNext(s, now).store.jobs, s.pq, s.dq[0]);
    }
  }

  lemma {:induction false} PendingAmongCounts(jobs: map<JobId, Job>, ids: seq<JobId>, x: JobId)
    ensures Count(PendingAmong(jobs, ids), x) == if x in jobs && jobs[x].status == Pending then Count(ids, x) else 0
    decreases |ids|
  {
    if ids != [] {
      PendingAmongCounts(jobs, ids[..|ids| - 1], x);
      assert ids == ids[..|ids| - 1] + [ids[|ids| - 1]];
    }
  }

  /** The death of a worker ends exactly its leases, and each Pending job among them gains one
      entry for dispatch. */
  lemma RecoveryOutcome(s: Sched, workerId: nat, released: seq<JobId>)
    requires Enumerates(released, HeldBy(s.leases, workerId))
    ensures var t := RecoverWorker(s, workerId, released);
            && t.store == s.store && t.dq == s.dq && t.deadLetters == s.deadLetters
            && (forall x :: x in t.leases <==> x in s.leases && s.leases[x].workerId != workerId)
            && (forall x :: x in t.leases ==> t.leases[x] == s.leases[x])
            && forall x :: Count(t.pq, x) == Count(s.pq, x) +
                 if x in s.leases && s.leases[x].workerId == workerId && x in s.store.jobs && s.store.jobs[x].status == Pending
                 then 1 else 0
  {
    var again := PendingAmong(s.store.jobs, released);
    PushAllContents(ByPriority, s.store.jobs, s.pq, again);
    forall x
      ensures Count(again, x) ==
              if x in s.leases && s.leases[x].workerId == workerId && x in s.store.jobs && s.store.jobs[x].status == Pending
              then 1 else 0
    {
      PendingAmongCounts(s.store.jobs, released, x);
      assert Count(released, x) == multiset(HeldBy(s.leases, workerId))[x];
    }
  }

  /** q' has one more entry for each job of the given status. */
  ghost predicate OneMoreEach(jobs: map<JobId, Job>, st: Status, q: seq<JobId>, q': seq<JobId>) {
    forall x :: Count(q', x) == Count(q, x) + if x in jobs && jobs[x].status == st then 1 else 0
  }

  lemma ListedOnceEach(m: Mem, ids: seq<JobId>, st: Status, x: JobId)
    requires IndexExact(m) && Enumerates(ids, Ids(m, st))
    ensures Count(ids, x) == if x in m.jobs && m.jobs[x].status == st then 1 else 0
  {
    assert Count(ids, x) == multiset(Ids(m, st))[x];
    assert x in Ids(m, st) <==> x in m.jobs && m.jobs[x].status == st;
  }

  /** A rebuild adds one entry for dispatch for each Pending job of the store and one for
      promotion for each Scheduled one. */
  lemma RebuildOutcome(s: Sched, pending: seq<JobId>, scheduled: seq<JobId>)
    requires IndexExact(s.store) && ListsStore(s.store, pending, scheduled)
    ensures var t := Rebuild(s, pending, scheduled);
            && t.store == s.store && t.leases == s.leases && t.deadLetters == s.deadLetters
            && OneMoreEach(s.store.jobs, Pending, s.pq, t.pq)
            && OneMoreEach(s.store.jobs, Scheduled, s.dq, t.dq)
  {
    PushAllContents(ByPriority, s.store.jobs, s.pq, pending);
    PushAllContents(ByNextRun, s.store.jobs, s.dq, scheduled);
    forall x
      ensures Count(pending, x) == if x in s.store.jobs && s.store.jobs[x].status == Pending then 1 else 0
      ensures Count(scheduled, x) == if x in s.store.jobs && s.store.jobs[x].status == Scheduled then 1 else 0
    {
      ListedOnceEach(s.store, pending, Pending, x);
      ListedOnceEach(s.store, scheduled, Scheduled, x);
    }
  }

  // ---------- starting and stopping ----------

  /** A start rebuilds and runs; a boot rebuilds empty queues and goes on after the largest
      stored id; stepping down ends every lease and keeps the rest; an interrupted dispatch
      also drops the entry it held; a crash leaves the store alone. */
  lemma StartOutcome(st: State, pending: seq<JobId>, scheduled: seq<JobId>)
    requires Inv(st) && Legal(st, Start(pending, scheduled))
    ensures var t := Next(st, Start(pending, scheduled));
            && t.phase == Running && t.nextId == st.nextId && t.s.store == st.s.store
            && t.s.leases == st.s.leases && t.s.deadLetters == st.s.deadLetters
            && OneMoreEach(st.s.store.jobs, Pending, st.s.pq, t.s.pq)
            && OneMoreEach(st.s.store.jobs, Scheduled, st.s.dq, t.s.dq)
  {
    RebuildOutcome(st.s, pending, scheduled);
  }

  lemma StopOutcome(st: State)
    ensures var t := Next(st, Stop);
            && t.phase == Idle && t.nextId == st.nextId && t.s.store == st.s.store
            && t.s.pq == st.s.pq && t.s.dq == st.s.dq && t.s.deadLetters == st.s.deadLetters
            && forall id :: id !in t.s.leases
  {
  }

  lemma InterruptOutcome(st: State)
    ensures var t := Next(st, DispatchInterrupted);
            && t.phase == Idle && t.nextId == st.nextId && t.s.store == st.s.store
            && t.s.dq == st.s.dq && t.s.deadLetters == st.s.deadLetters && (forall id :: id !in t.s.leases)
            && (st.s.pq == [] ==> t.s.pq == [])
            && (st.s.pq != [] ==> OneMore(t.s.pq, st.s.pq, st.s.pq[0]))
  {
    if st.s.pq != [] {
      PopIsOneLess(ByPriority, st.s.store.jobs, st.s.pq);
    }
  }

  lemma CrashOutcome(st: State)
    ensures var t := Next(st, Crash);
            && t.phase == Down && t.s.store == st.s.store
            && t.s.pq == [] && t.s.dq == [] && (forall id :: id !in t.s.leases && id !in t.s.deadLetters)
  {
  }

  /** Over every run: leases exist only while the scheduler runs, and a stopped process has
      empty queues. */
  ghost predicate Grounded(st: State) {
    && (st.phase != Running ==> st.s.leases == map[])
    && (st.phase == Down ==> st.s.pq == [] && st.s.dq == [] && st.s.deadLetters == map[])
  }

  lemma StepKeepsGrounded(st: State, step: Step)
    requires Legal(st, step) && Grounded(st)
    ensures Grounded(Next(st, step))
  {
  }

  lemma {:induction false} RunKeepsGrounded(steps: seq<Step>)
    requires LegalRun(INIT, steps)
    ensures Grounded(Run(INIT, steps))
    decreases |steps|
  {
    if steps != [] {
      RunKeepsGrounded(steps[..|steps| - 1]);
      StepKeepsGrounded(Run(INIT, steps[..|steps| - 1]), steps[|steps| - 1]);
    }
  }

  /** Leases end with leadership: outside a running scheduler there are none. */
  lemma LeasesEndWithLeadership(st: State)
    requires Reachable(st) && st.phase != Running
    ensures st.s.leases == map[]
  {
    var steps :| LegalRun(INIT, steps) && st == Run(INIT, steps);
    RunKeepsGrounded(steps);
  }

  /** A boot finds every unfinished job: from any reachable store it queues each Pending job
      once and each Scheduled job once, and the next submission takes the id after the
      largest stored one. */
  lemma BootOutcome(st: State, pending: seq<JobId>, scheduled: seq<JobId>, id: JobId)
    requires Reachable(st) && Legal(st, Boot(pending, scheduled))
    ensures var t := Next(st, Boot(pending, scheduled));
            && t.phase == Idle && t.s.store == st.s.store && t.s.leases == map[]
            && NotLost(t.s)
            && Count(t.s.pq, id) == (if id in st.s.store.jobs && st.s.store.jobs[id].status == Pending then 1 else 0)
            && Count(t.s.dq, id) == (if id in st.s.store.jobs && st.s.store.jobs[id].status == Scheduled then 1 else 0)
            && (id in st.s.store.jobs ==> id <= t.nextId)
            && (if st.s.store.jobs == map[] then t.nextId == 0 else t.nextId in st.s.store.jobs || t.nextId == 0)
  {
    var steps :| LegalRun(INIT, steps) && st == Run(INIT, steps);
    RunKeepsGrounded(steps);
    ReachableInv(st);
    RebuildOutcome(st.s, pending, scheduled);
    RebuildLosesNone(st.s, pending, scheduled);
  }

  // ---------- who gets a lease ----------

  /** A step gives or changes a lease only for a job that is stored and unfinished, and gives
      it to the worker the dispatch selected. */
  lemma NewLeaseIsForLiveJob(st: State, step: Step, id: JobId)
    requires Good(st.s.store) && id in Next(st, step).s.leases
    requires id in st.s.leases ==> Next(st, step).s.leases[id] != st.s.leases[id]
    ensures id in st.s.store.jobs && (st.s.store.jobs[id].status == Pending || st.s.store.jobs[id].status == Scheduled)
    ensures step.DispatchOne? && step.worker == Some(Next(st, step).s.leases[id].workerId) && step.accepted
  {
    if step.DispatchOne? {
      DispatchOutcome(st.s, step.worker, step.accepted);
    } else if step.ResultArrives? {
      ResultOutcome(st.s, step.r, step.now);
    } else if step.PromoteOne? {
      PromoteOutcome(st.s, step.now);
    }
  }

  predicate Finished(st: State, id: JobId) {
    && id in st.s.store.jobs
    && (st.s.store.jobs[id].status == Completed || st.s.store.jobs[id].status == Failed || st.s.store.jobs[id].status == Cancelled)
  }

  /** A finished job is never leased anew: over every run that does not delete it, it stays
      finished and any lease it has is one it already had. */
  lemma {:induction false} FinishedJobGetsNoLease(st: State, steps: seq<Step>, id: JobId)
    requires Inv(st) && LegalRun(st, steps) && Finished(st, id) && DeleteJob(id) !in steps
    ensures Finished(Run(st, steps), id)
    ensures id in Run(st, steps).s.leases ==> id in st.s.leases && Run(st, steps).s.leases[id] == st.s.leases[id]
    decreases |steps|
  {
    if steps != [] {
      var front, step := steps[..|steps| - 1], steps[|steps| - 1];
      FinishedJobGetsNoLease(st, front, id);
      RunKeepsInv(st, front);
      FinishedStep(Run(st, front), step, id);
    }
  }

  lemma FinishedStep(st: State, step: Step, id: JobId)
    requires Inv(st) && Legal(st, step) && Finished(st, id) && step != DeleteJob(id)
    ensures Finished(Next(st, step), id)
    ensures id in Next(st, step).s.leases ==> id in st.s.leases && Next(st, step).s.leases[id] == st.s.leases[id]
  {
    StepEvolvesJob(st, step, id);
    if id in Next(st, step).s.leases && !(id in st.s.leases && Next(st, step).s.leases[id] == st.s.leases[id]) {
      NewLeaseIsForLiveJob(st, step, id);
    }
  }

  /** Until it is dispatched, a job without a lease stays without one. */
  lemma {:induction false} NoDispatchNoLease(st: State, steps: seq<Step>, id: JobId)
    requires Inv(st) && LegalRun(st, steps) && id !in st.s.leases && DispatchCount(st, steps, id) == 0
    ensures id !in Run(st, steps).s.leases
    decreases |steps|
  {
    if steps != [] {
      var front, step := steps[..|steps| - 1], steps[|steps| - 1];
      NoDispatchNoLease(st, front, id);
      RunKeepsInv(st, front);
      LeaseMeansDispatch(Run(st, front), step, id);
    }
  }

  lemma LeaseMeansDispatch(st: State, step: Step, id: JobId)
    requires Inv(st) && Legal(st, step) && id !in st.s.leases
    ensures id in Next(st, step).s.leases ==> Dispatches(st, step, id) && Next(st, step).s.leases[id].attempt == 1
  {
    if id in Next(st, step).s.leases {
      NewLeaseIsForLiveJob(st, step, id);
      DispatchOutcome(st.s, step.worker, step.accepted);
    }
  }

  /** Attempts restart with leadership: the first dispatch of a job after the scheduler was
      not running, across any restart, has attempt one. */
  lemma AttemptsRestartWithLeadership(st: State, steps: seq<Step>, step: Step, id: JobId)
    requires Reachable(st) && st.phase != Running && LegalRun(st, steps) && Legal(Run(st, steps), step)
    requires DispatchCount(st, steps, id) == 0 && Dispatches(Run(st, steps), step, id)
    ensures id in Next(Run(st, steps), step).s.leases
    ensures Next(Run(st, steps), step).s.leases[id] == Lease(step.worker.value, 1, 1)
  {
    LeasesEndWithLeadership(st);
    ReachableInv(st);
    NoDispatchNoLease(st, steps, id);
    DispatchOutcome(Run(st, steps).s, step.worker, step.accepted);
  }
}
