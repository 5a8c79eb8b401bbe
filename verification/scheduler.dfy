/** The scheduler object (internal/scheduler/scheduler.go): its methods change the shared
    store, queues and leases in place; each is one step of the state machine. */
module SchedulerObject {
  import opened Jobs
  import opened Heaps
  import opened MemoryStores
  import opened Leases
  import opened Queues
  import opened Retry
  import S = Scheduling
  import P = Promotion

  class Scheduler {
    const store: MemoryStore
    const priorityQueue: JobQueue
    const delayQueue: JobQueue
    const leases: LeaseManager
    var deadLetters: map<JobId, Job>

    /** Both queues compare through the scheduler's own store. */
    ghost predicate Wired() {
      && priorityQueue != delayQueue
      && priorityQueue.store == store && priorityQueue.order == ByPriority
      && delayQueue.store == store && delayQueue.order == ByNextRun
    }

    ghost function View(): S.Sched
      reads this, store, priorityQueue, delayQueue, leases
    {
      S.Sched(store.View(), priorityQueue.items, delayQueue.items, leases.leases, deadLetters)
    }

    constructor (store: MemoryStore)
      ensures Wired() && this.store == store
      ensures View() == S.Sched(store.View(), [], [], map[], map[])
      ensures fresh(priorityQueue) && fresh(delayQueue) && fresh(leases)
    {
      var ready := new JobQueue(store, ByPriority);
      var delayed := new JobQueue(store, ByNextRun);
      var table := new LeaseManager();
      this.store, priorityQueue, delayQueue, leases := store, ready, delayed, table;
      deadLetters := map[];
    }

    method EnqueueAll(js: seq<Job>, q: JobQueue)
      requires Wired() && (q == priorityQueue || q == delayQueue)
      modifies q
      ensures q.items == PushAll(q.order, store.jobs, old(q.items), IdsOf(js))
    {
      ghost var ids := IdsOf(js);
      assert ids[..0] == [];
      for i := 0 to |js|
        invariant q.items == PushAll(q.order, store.jobs, old(q.items), ids[..i])
      {
        q.Enqueue(js[i].id);
        PushAllSnoc(q.order, store.jobs, old(q.items), ids, i);
      }
      assert ids[..|js|] == ids;
    }

    method RebuildQueuesFromStore() returns (ghost pending: seq<JobId>, ghost scheduled: seq<JobId>)
      requires Wired() && IndexExact(store.View())
      modifies priorityQueue, delayQueue
      ensures S.ListsStore(store.View(), pending, scheduled)
      ensures View() == S.Rebuild(old(View()), pending, scheduled)
    {
      var pendingJobs := store.ListByStatus(Pending);
      EnqueueAll(pendingJobs, priorityQueue);
      var scheduledJobs := store.ListByStatus(Scheduled);
      EnqueueAll(scheduledJobs, delayQueue);
      pending, scheduled := IdsOf(pendingJobs), IdsOf(scheduledJobs);
    }

    /** `stopped` is the cancelled context: the job at hand is then not put back. */
    method Dispatch(j: Job, stopped: bool, worker: Option<nat>, accepted: bool) returns (ok: bool)
      requires Wired()
      modifies priorityQueue, leases
      ensures ok <==> !stopped && worker.Some? && accepted
      ensures View() == if stopped then old(View()) else S.Dispatch(old(View()), j.id, worker, accepted)
    {
      if stopped {
        return false;
      }
      match worker {
        case None =>
          priorityQueue.Enqueue(j.id);
          return false;
        case Some(w) =>
          var lease := leases.Get(j.id);
          var attempt := 1;
          if lease.Some? {
            attempt := lease.value.attempt + 1;
          }
          leases.Acquire(j.id, w, 1, attempt);
          if !accepted {
            leases.Release(j.id);
            priorityQueue.Enqueue(j.id);
            return false;
          }
          return true;
      }
    }

    /** One iteration of the dispatch loop over a non-cancelled context. */
    method DispatchNext(worker: Option<nat>, accepted: bool)
      requires Wired() && IndexExact(store.View())
      modifies priorityQueue, leases
      ensures View() == S.DispatchNext(old(View()), worker, accepted)
    {
      var id, some := priorityQueue.Dequeue();
      if !some {
        return;
      }
      var j, found := store.Get(id);
      if !found || j.status == Cancelled || j.status == Completed || j.status == Failed {
        return;
      }
      var _ := Dispatch(j, false, worker, accepted);
    }

    /** What becomes of a job that is to be retried. */
    method Reschedule(failed: Job, error: string, now: Time)
      requires Wired()
      modifies store, delayQueue
      ensures View() == S.EnqueueDelayed(old(View()).(store := DoUpdate(old(store.View()), S.Retried(failed, error, now)).0), failed.id)
    {
      var j := failed.(retryCount := failed.retryCount + 1, status := Scheduled, lastError := error);
      j := j.(nextRunAt := NextRetryTime(now, j.retryCount, S.MAX_BACKOFF));
      var _ := store.Update(j);
      delayQueue.Enqueue(j.id);
    }

    /** What becomes of a job that used up its retries. */
    method Bury(dead: Job)
      modifies this, store
      ensures View() == old(View()).(store := DoAddDLQ(DoUpdate(old(store.View()), dead).0, dead).0,
                                     deadLetters := old(deadLetters)[dead.id := dead])
    {
      var _ := store.Update(dead);
      store.AddDLQ(dead);
      deadLetters := deadLetters[dead.id := dead];
    }

    /** One iteration of the result loop. */
    method HandleResult(r: S.Result, now: Time)
      requires Wired() && IndexExact(store.View())
      modifies this, store, delayQueue, leases
      ensures View() == S.HandleResult(old(View()), r, now)
    {
      var j, found := store.Get(r.jobId);
      if !found {
        return;
      }
      var lease := leases.Get(r.jobId);
      if lease.Some? && r.attempt > 0 && r.attempt != lease.value.attempt {
        return;
      }
      assert S.Accepts(old(View()), r) && j == old(View()).store.jobs[r.jobId];
      leases.Release(r.jobId);
      if r.success {
        var _ := store.Update(j.(status := Completed));
        return;
      }
      if ShouldRetry(j) {
        Reschedule(j, r.error, now);
        return;
      }
      Bury(j.(status := Failed, lastError := r.error));
    }

    /** Promotes due jobs until the head of the delay queue is not due any more. */
    method ProcessDelayedJobs(clock: nat -> Time)
      requires Wired() && IndexExact(store.View())
      modifies store, priorityQueue, delayQueue
      ensures View() == P.ProcessDelayed(old(View()), clock, 0).0
    {
      var i: nat := 0;
      while true
        invariant IndexExact(store.View())
        invariant P.ProcessDelayed(View(), clock, i).0 == P.ProcessDelayed(old(View()), clock, 0).0
        decreases |delayQueue.items|
      {
        ghost var s := View();
        var id, some := delayQueue.Peek();
        if !some {
          return;
        }
        var j, found := store.Get(id);
        if !found {
          var _, _ := delayQueue.Dequeue();
          assert View() == S.PromoteNext(s, clock(i));
          i := i + 1;
          continue;
        }
        if j.nextRunAt > clock(i) {
          return;
        }
        var _, _ := delayQueue.Dequeue();
        ApplyKeepsIndex(store.View(), Update(j.(status := Pending)));
        var ok := store.Update(j.(status := Pending));
        if ok {
          priorityQueue.Enqueue(id);
        }
        assert View() == S.PromoteNext(s, clock(i));
        i := i + 1;
      }
    }

    /** One iteration of the recovery loop. */
    method RecoverWorker(workerId: nat) returns (ghost released: seq<JobId>)
      requires Wired() && IndexExact(store.View())
      modifies priorityQueue, leases
      ensures Enumerates(released, HeldBy(old(leases.leases), workerId))
      ensures View() == S.RecoverWorker(old(View()), workerId, released)
    {
      var ids := leases.ReleaseByWorker(workerId);
      assert ids[..0] == [];
      for i := 0 to |ids|
        invariant leases.leases == Without(old(leases.leases), workerId)
        invariant priorityQueue.items ==
                  PushAll(ByPriority, store.jobs, old(priorityQueue.items), S.PendingAmong(store.jobs, ids[..i]))
      {
        assert ids[..i + 1][..i] == ids[..i];
        var j, found := store.Get(ids[i]);
        if found && j.status == Pending {
          ghost var front := S.PendingAmong(store.jobs, ids[..i]);
          priorityQueue.Enqueue(ids[i]);
          assert (front + [ids[i]])[..|front|] == front;
        }
      }
      assert ids[..|ids|] == ids;
      released := ids;
    }
  }
}
