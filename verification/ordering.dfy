/** Heap order over whole runs. The heaps hold ids only; their keys live in the store and
    are read at every comparison, so order survives a step only if the keys of queued ids
    still fit their places. */
module QueueOrder {
  import opened Jobs
  import opened Heaps
  import opened MemoryStores
  import opened Retry
  import opened Scheduling
  import opened RunInvariants
  import opened RunHistories

  function Queue(o: Order, s: Sched): seq<JobId> {
    match o
    case ByPriority => s.pq
    case ByNextRun => s.dq
  }

  ghost predicate InOrder(o: Order, s: Sched) {
    HeapOrdered(o, s.store.jobs, Queue(o, s))
  }

  /** Queued ids were issued by this process; deleted jobs may still be queued. */
  ghost predicate Issued(st: State) {
    && (forall id :: id in st.s.pq || id in st.s.dq ==> id <= st.nextId)
    && (st.phase == Down ==> st.s.pq == [] && st.s.dq == [])
  }

  lemma ListedAreStored(m: Mem, pending: seq<JobId>, scheduled: seq<JobId>)
    requires IndexExact(m) && ListsStore(m, pending, scheduled)
    ensures forall id :: id in pending || id in scheduled ==> id in m.jobs
  {
    EnumerationMembers(pending, Ids(m, Pending));
    EnumerationMembers(scheduled, Ids(m, Scheduled));
    forall id | id in pending || id in scheduled
      ensures id in m.jobs
    {
      assert id in Ids(m, Pending) || id in Ids(m, Scheduled);
    }
  }

  // ---------- queued ids ----------

  lemma RebuildMembers(s: Sched, pending: seq<JobId>, scheduled: seq<JobId>, bound: nat)
    requires IndexExact(s.store) && ListsStore(s.store, pending, scheduled)
    requires forall id :: id in s.store.jobs || id in s.pq || id in s.dq ==> id <= bound
    ensures var t := Rebuild(s, pending, scheduled);
            forall id :: id in t.pq || id in t.dq ==> id <= bound
  {
    ListedAreStored(s.store, pending, scheduled);
    PushAllContents(ByPriority, s.store.jobs, s.pq, pending);
    PushAllContents(ByNextRun, s.store.jobs, s.dq, scheduled);
  }

  lemma DispatchMembers(s: Sched, worker: Option<nat>, accepted: bool)
    ensures forall id :: id in DispatchNext(s, worker, accepted).pq ==> id in s.pq
  {
    if s.pq != [] {
      var rest := Pop(ByPriority, s.store.jobs, s.pq);
      PopContents(ByPriority, s.store.jobs, s.pq);
      PushContents(ByPriority, s.store.jobs, rest, s.pq[0]);
    }
  }

  lemma PromotionMembers(s: Sched, now: Time)
    ensures var t := PromoteNext(s, now);
            && (forall id :: id in t.dq ==> id in s.dq)
            && (forall id :: id in t.pq ==> id in s.pq || id in s.dq)
  {
    if Due(s, now) {
      PopContents(ByNextRun, s.store.jobs, s.dq);
      if s.dq[0] in s.store.jobs {
        var m := DoUpdate(s.store, s.store.jobs[s.dq[0]].(status := Pending)).0;
        PushContents(ByPriority, m.jobs, s.pq, s.dq[0]);
      }
    }
  }

  lemma SubmitKeepsIssued(st: State, step: Step)
    requires Issued(st) && Legal(st, step) && IsSubmit(step)
    ensures Issued(Next(st, step))
  {
    var jobs := Next(st, step).s.store.jobs;
    PushContents(ByPriority, jobs, st.s.pq, st.nextId + 1);
    PushContents(ByNextRun, jobs, st.s.dq, st.nextId + 1);
  }

  lemma StepKeepsIssued(st: State, step: Step)
    requires Inv(st) && Issued(st) && Legal(st, step)
    ensures Issued(Next(st, step))
  {
    if IsSubmit(step) {
      SubmitKeepsIssued(st, step);
    } else {
      match step {
        case DispatchOne(worker, accepted) => DispatchMembers(st.s, worker, accepted);
        case DispatchInterrupted =>
          if st.s.pq != [] {
            PopContents(ByPriority, st.s.store.jobs, st.s.pq);
          }
        case ResultArrives(r, now) =>
          PushContents(ByNextRun, Next(st, step).s.store.jobs, st.s.dq, r.jobId);
        case PromoteOne(now) => PromotionMembers(st.s, now);
        case WorkerDies(_, released) =>
          PendingAmongIsFilter(st.s.store.jobs, released);
          PushAllContents(ByPriority, st.s.store.jobs, st.s.pq, PendingAmong(st.s.store.jobs, released));
        case Start(pending, scheduled) => RebuildMembers(st.s, pending, scheduled, st.nextId);
        case Boot(pending, scheduled) =>
          RebuildMembers(st.s, pending, scheduled, MaxId(st.s.store.jobs.Keys));
        case _ =>
      }
    }
  }

  // ---------- keys ----------

  lemma OthersAddNone(st: State, step: Step, id: JobId)
    requires Inv(st) && Legal(st, step) && !step.ResultArrives?
    requires id !in st.s.store.jobs && id <= st.nextId
    ensures id !in Next(st, step).s.store.jobs
  {
    if step.PromoteOne? {
      PromotionAddsNone(st.s, step.now, id);
    }
  }

  /** Only a deletion or a result can change the key of an issued id. */
  lemma KeysStay(o: Order, st: State, step: Step, id: JobId)
    requires Inv(st) && Legal(st, step) && !step.ResultArrives? && !step.DeleteJob?
    requires id <= st.nextId
    ensures Key(o, Next(st, step).s.store.jobs, id) == Key(o, st.s.store.jobs, id)
  {
    if id in st.s.store.jobs {
      StepEvolvesJob(st, step, id);
      OtherStepsKeepCounts(st, step, id);
    } else {
      OthersAddNone(st, step, id);
    }
  }

  lemma PromotionKeepsKeys(o: Order, s: Sched, now: Time, id: JobId)
    requires IndexExact(s.store)
    ensures Key(o, PromoteNext(s, now).store.jobs, id) == Key(o, s.store.jobs, id)
  {
    if id in s.store.jobs {
      PromotionEvolvesJob(s, now, id);
    } else {
      PromotionAddsNone(s, now, id);
    }
  }

  // ---------- the steps that cannot disturb the order ----------

  lemma SubmitKeepsOrder(o: Order, st: State, step: Step)
    requires Legal(st, step) && IsSubmit(step)
    requires HeapOrdered(o, Next(st, step).s.store.jobs, Queue(o, st.s))
    ensures InOrder(o, Next(st, step).s)
  {
    PushKeepsOrder(o, Next(st, step).s.store.jobs, Queue(o, st.s), st.nextId + 1);
  }

  lemma DispatchKeepsOrder(o: Order, s: Sched, worker: Option<nat>, accepted: bool)
    requires InOrder(o, s)
    ensures InOrder(o, DispatchNext(s, worker, accepted))
  {
    if s.pq != [] && o == ByPriority {
      PopKeepsOrder(o, s.store.jobs, s.pq);
      PushKeepsOrder(o, s.store.jobs, Pop(o, s.store.jobs, s.pq), s.pq[0]);
    }
  }

  lemma PromotionKeepsOrder(o: Order, s: Sched, now: Time)
    requires IndexExact(s.store) && InOrder(o, s)
    ensures InOrder(o, PromoteNext(s, now))
  {
    if Due(s, now) {
      var t := PromoteNext(s, now);
      var left := if o == ByNextRun then Pop(o, s.store.jobs, s.dq) else s.pq;
      if o == ByNextRun {
        PopKeepsOrder(o, s.store.jobs, s.dq);
      }
      forall id | id in left
        ensures Key(o, t.store.jobs, id) == Key(o, s.store.jobs, id)
      {
        PromotionKeepsKeys(o, s, now, id);
      }
      OrderFollowsKeys(o, s.store.jobs, t.store.jobs, left);
      PushKeepsOrder(o, t.store.jobs, left, s.dq[0]);
    }
  }

  lemma RebuildKeepsOrder(o: Order, s: Sched, pending: seq<JobId>, scheduled: seq<JobId>)
    requires InOrder(o, s)
    ensures InOrder(o, Rebuild(s, pending, scheduled))
  {
    PushAllKeepsOrder(o, s.store.jobs, Queue(o, s), if o == ByPriority then pending else scheduled);
  }

  lemma OthersKeepOrder(o: Order, st: State, step: Step)
    requires Inv(st) && Issued(st) && Legal(st, step) && InOrder(o, st.s)
    requires !step.ResultArrives? && !step.DeleteJob?
    ensures InOrder(o, Next(st, step).s)
  {
    forall id | id in Queue(o, st.s)
      ensures Key(o, Next(st, step).s.store.jobs, id) == Key(o, st.s.store.jobs, id)
    {
      KeysStay(o, st, step, id);
    }
    OrderFollowsKeys(o, st.s.store.jobs, Next(st, step).s.store.jobs, Queue(o, st.s));
    if IsSubmit(step) {
      SubmitKeepsOrder(o, st, step);
    } else {
      match step {
        case DispatchOne(worker, accepted) => DispatchKeepsOrder(o, st.s, worker, accepted);
        case DispatchInterrupted =>
          if st.s.pq != [] && o == ByPriority {
            PopKeepsOrder(o, st.s.store.jobs, st.s.pq);
          }
        case PromoteOne(now) => PromotionKeepsOrder(o, st.s, now);
        case WorkerDies(_, released) =>
          if o == ByPriority {
            PushAllKeepsOrder(o, st.s.store.jobs, st.s.pq, PendingAmong(st.s.store.jobs, released));
          }
        case Start(pending, scheduled) => RebuildKeepsOrder(o, st.s, pending, scheduled);
        case Boot(pending, scheduled) => RebuildKeepsOrder(o, st.s, pending, scheduled);
        case _ =>
      }
    }
  }

  // ---------- the steps that can ----------

  /** The result reschedules an unfinished job, which changes its run time in the store. */
  predicate PutsOff(s: Sched, r: Result) {
    && Accepts(s, r) && !r.success
    && ShouldRetry(s.store.jobs[r.jobId]) && !Terminal(s.store.jobs[r.jobId].status)
  }

  /** Where the new entry of a rescheduled job comes to rest in the delay queue. */
  function RetryPlace(s: Sched, r: Result, now: Time): nat
    requires r.jobId in s.store.jobs
  {
    var jobs := s.store.jobs[r.jobId := Retried(s.store.jobs[r.jobId], r.error, now)];
    Landing(ByNextRun, jobs, s.dq + [r.jobId], |s.dq|)
  }

  /** The step leaves the queue in order. A deleted job reads as priority and run time zero:
      zero must fit the places it is queued at. The new run time of a rescheduled job must
      fit the places it was queued at, those right under its new entry excepted. */
  ghost predicate Tolerates(o: Order, s: Sched, step: Step) {
    && (step.DeleteJob? && step.id in s.store.jobs ==> Fits(o, s.store.jobs, Queue(o, s), step.id, 0, -1))
    && (step.ResultArrives? && o == ByNextRun && PutsOff(s, step.r) ==>
          Fits(o, s.store.jobs, s.dq, step.r.jobId,
               Retried(s.store.jobs[step.r.jobId], step.r.error, step.now).nextRunAt,
               RetryPlace(s, step.r, step.now)))
  }

  lemma DeleteKeepsOrderIff(o: Order, s: Sched, id: JobId)
    requires InOrder(o, s)
    ensures InOrder(o, s.(store := DoDelete(s.store, id).0)) <==> Tolerates(o, s, DeleteJob(id))
  {
    RekeyKeepsOrderIff(o, s.store.jobs, DoDelete(s.store, id).0.jobs, Queue(o, s), id);
  }

  lemma PutOffStore(s: Sched, r: Result, now: Time)
    requires Good(s.store) && PutsOff(s, r)
    ensures var t := HandleResult(s, r, now);
            && t.store.jobs == s.store.jobs[r.jobId := Retried(s.store.jobs[r.jobId], r.error, now)]
            && t.dq == Push(ByNextRun, t.store.jobs, s.dq, r.jobId)
  {
    assert s.store.jobs[r.jobId].id == r.jobId;
  }

  /** An update that is refused or leaves the sorted field alone changes no key. */
  lemma UpdateKeepsKeys(o: Order, m: Mem, j: Job, id: JobId)
    requires j.id in m.jobs
    requires IsValidTransition(m.jobs[j.id].status, j.status) ==>
               if o == ByPriority then j.priority == m.jobs[j.id].priority else j.nextRunAt == m.jobs[j.id].nextRunAt
    ensures Key(o, DoUpdate(m, j).0.jobs, id) == Key(o, m.jobs, id)
  {
  }

  /** Any other result leaves all keys and adds at most an entry. */
  lemma OtherResultsKeepKeys(o: Order, s: Sched, r: Result, now: Time, id: JobId)
    requires Good(s.store) && (o == ByNextRun ==> !PutsOff(s, r))
    ensures Key(o, HandleResult(s, r, now).store.jobs, id) == Key(o, s.store.jobs, id)
  {
    if Accepts(s, r) {
      var j := s.store.jobs[r.jobId];
      assert j.id == r.jobId;
      if r.success {
        UpdateKeepsKeys(o, s.store, j.(status := Completed), id);
      } else if ShouldRetry(j) {
        UpdateKeepsKeys(o, s.store, Retried(j, r.error, now), id);
      } else {
        UpdateKeepsKeys(o, s.store, j.(status := Failed, lastError := r.error), id);
      }
    }
  }

  lemma ResultAddsOneEntry(o: Order, s: Sched, r: Result, now: Time)
    ensures var t := HandleResult(s, r, now);
            Queue(o, t) == Queue(o, s) || Queue(o, t) == Push(o, t.store.jobs, Queue(o, s), r.jobId)
  {
  }

  lemma ResultKeepsOrderIff(o: Order, s: Sched, r: Result, now: Time)
    requires Good(s.store) && InOrder(o, s)
    ensures InOrder(o, HandleResult(s, r, now)) <==> Tolerates(o, s, ResultArrives(r, now))
  {
    var t := HandleResult(s, r, now);
    if o == ByNextRun && PutsOff(s, r) {
      PutOffStore(s, r, now);
      RequeueKeepsOrderIff(o, s.store.jobs, t.store.jobs, s.dq, r.jobId);
    } else {
      forall id | id in Queue(o, s)
        ensures Key(o, s.store.jobs, id) == Key(o, t.store.jobs, id)
      {
        OtherResultsKeepKeys(o, s, r, now, id);
      }
      ResultAddsOneEntry(o, s, r, now);
      OrderFollowsKeys(o, s.store.jobs, t.store.jobs, Queue(o, s));
      PushKeepsOrder(o, t.store.jobs, Queue(o, s), r.jobId);
    }
  }

  /** A failure that does not bring the run time of a queued job forward keeps the delay
      queue in order exactly when the new time is no later than that of any job queued
      right under one of its entries. */
  lemma PutOffKeepsOrderIff(s: Sched, r: Result, now: Time)
    requires Good(s.store) && InOrder(ByNextRun, s) && PutsOff(s, r)
    requires s.store.jobs[r.jobId].nextRunAt <= Retried(s.store.jobs[r.jobId], r.error, now).nextRunAt
    ensures InOrder(ByNextRun, HandleResult(s, r, now)) <==>
            forall i :: 0 < i < |s.dq| && s.dq[Parent(i)] == r.jobId && s.dq[i] != r.jobId ==>
              Retried(s.store.jobs[r.jobId], r.error, now).nextRunAt <= Key(ByNextRun, s.store.jobs, s.dq[i])
  {
    ResultKeepsOrderIff(ByNextRun, s, r, now);
    RaisedKeyFits(ByNextRun, s.store.jobs, s.dq, r.jobId,
                  Retried(s.store.jobs[r.jobId], r.error, now).nextRunAt, RetryPlace(s, r, now));
  }

  /** Every step keeps either queue in order exactly when the queue tolerates it. */
  lemma StepKeepsOrderIff(o: Order, st: State, step: Step)
    requires Inv(st) && Issued(st) && Legal(st, step) && InOrder(o, st.s)
    ensures InOrder(o, Next(st, step).s) <==> Tolerates(o, st.s, step)
  {
    if step.DeleteJob? {
      DeleteKeepsOrderIff(o, st.s, step.id);
    } else if step.ResultArrives? {
      ResultKeepsOrderIff(o, st.s, step.r, step.now);
    } else {
      OthersKeepOrder(o, st, step);
    }
  }

  // ---------- whole runs ----------

  ghost predicate InOrderThroughout(o: Order, st: State, steps: seq<Step>)
    decreases |steps|
  {
    InOrder(o, Run(st, steps).s) && (steps == [] || InOrderThroughout(o, st, steps[..|steps| - 1]))
  }

  ghost predicate ToleratedRun(o: Order, st: State, steps: seq<Step>)
    decreases |steps|
  {
    steps == [] ||
    (ToleratedRun(o, st, steps[..|steps| - 1]) && Tolerates(o, Run(st, steps[..|steps| - 1]).s, steps[|steps| - 1]))
  }

  lemma {:induction false} RunKeepsIssued(steps: seq<Step>)
    requires LegalRun(INIT, steps)
    ensures Inv(Run(INIT, steps)) && Issued(Run(INIT, steps))
    decreases |steps|
  {
    assert Reachable(Run(INIT, steps));
    ReachableInv(Run(INIT, steps));
    if steps != [] {
      RunKeepsIssued(steps[..|steps| - 1]);
      StepKeepsIssued(Run(INIT, steps[..|steps| - 1]), steps[|steps| - 1]);
    }
  }

  /** Over every run from an empty store, a queue is in order at every point exactly when it
      tolerates every step. */
  lemma {:induction false} RunKeepsOrderIff(o: Order, steps: seq<Step>)
    requires LegalRun(INIT, steps)
    ensures InOrderThroughout(o, INIT, steps) <==> ToleratedRun(o, INIT, steps)
    decreases |steps|
  {
    if steps != [] {
      var front := steps[..|steps| - 1];
      RunKeepsOrderIff(o, front);
      RunKeepsIssued(front);
      if InOrderThroughout(o, INIT, front) {
        StepKeepsOrderIff(o, Run(INIT, front), steps[|steps| - 1]);
      }
    }
  }

  /** The step leaves the keys of queued jobs alone: it deletes none of them and, for the
      delay queue, reschedules none of them. */
  ghost predicate SparesQueued(o: Order, s: Sched, step: Step) {
    && (step.DeleteJob? ==> step.id !in Queue(o, s))
    && (step.ResultArrives? && o == ByNextRun && PutsOff(s, step.r) ==> step.r.jobId !in Queue(o, s))
  }

  ghost predicate SparingRun(o: Order, st: State, steps: seq<Step>)
    decreases |steps|
  {
    steps == [] ||
    (SparingRun(o, st, steps[..|steps| - 1]) && SparesQueued(o, Run(st, steps[..|steps| - 1]).s, steps[|steps| - 1]))
  }

  /** The everyday case: a run that never deletes a job while it is queued and never accepts a
      failure of an unfinished job while it waits in the delay queue. */
  lemma {:induction false} SparingRunIsTolerated(o: Order, st: State, steps: seq<Step>)
    requires SparingRun(o, st, steps)
    ensures ToleratedRun(o, st, steps)
    decreases |steps|
  {
    if steps != [] {
      SparingRunIsTolerated(o, st, steps[..|steps| - 1]);
    }
  }

  /** In every run the priority queue tolerates, the job a dispatch takes has the highest
      stored priority of all queued jobs, and draining the queue would hand out every
      queued id, as often as it is queued, by falling priority. */
  lemma DispatchTakesHighestPriority(steps: seq<Step>, id: JobId)
    requires LegalRun(INIT, steps) && ToleratedRun(ByPriority, INIT, steps) && id in Run(INIT, steps).s.pq
    ensures var s := Run(INIT, steps).s;
            && Lookup(s.store.jobs, id).priority <= Lookup(s.store.jobs, s.pq[0]).priority
            && multiset(Drain(ByPriority, s.store.jobs, s.pq)) == multiset(s.pq)
            && forall i, j :: 0 <= i < j < |Drain(ByPriority, s.store.jobs, s.pq)| ==>
                 Lookup(s.store.jobs, Drain(ByPriority, s.store.jobs, s.pq)[i]).priority >=
                 Lookup(s.store.jobs, Drain(ByPriority, s.store.jobs, s.pq)[j]).priority
  {
    var s := Run(INIT, steps).s;
    RunKeepsOrderIff(ByPriority, steps);
    HeadSortsFirst(ByPriority, s.store.jobs, s.pq);
    DrainSorts(ByPriority, s.store.jobs, s.pq);
    var d := Drain(ByPriority, s.store.jobs, s.pq);
    assert forall i, j :: 0 <= i < j < |d| ==> Key(ByPriority, s.store.jobs, d[i]) <= Key(ByPriority, s.store.jobs, d[j]);
  }

  lemma TwoReady() returns (st: State)
    ensures Reachable(st) && st.phase == Running && st.nextId == 2 && st.s.pq == [1, 2]
    ensures st.s.store.jobs == map[1 := NewJob(1, "report", 5), 2 := NewJob(2, "report", 3)]
  {
    assert LegalRun(INIT, []) && INIT == Run(INIT, []);
    var started := ReachableNext(INIT, Start([], []));
    var one := ReachableNext(started, Submit("report", 5));
    SingletonHeap(ByPriority, one.s.store.jobs, 1);
    st := ReachableNext(one, Submit("report", 3));
    PushBehind(ByPriority, st.s.store.jobs, 1, 2);
  }

  /** The premise is needed: a deleted job keeps its entry and reads as priority zero, so a
      job of priority 1 climbs past it and is dispatched before one of priority 3. */
  lemma DeletionCanInvertPriorities() returns (st: State)
    ensures Reachable(st) && st.phase == Running && st.s.pq == [3, 2, 1]
    ensures 1 !in st.s.store.jobs && 2 in st.s.store.jobs && 3 in st.s.store.jobs
    ensures st.s.store.jobs[2].status == st.s.store.jobs[3].status == Pending
    ensures st.s.store.jobs[3].priority == 1 && st.s.store.jobs[2].priority == 3
  {
    var two := TwoReady();
    var deleted := ReachableNext(two, DeleteJob(1));
    st := ReachableNext(deleted, Submit("report", 1));
    PushAhead(ByPriority, st.s.store.jobs, 1, 2, 3);
  }
}
