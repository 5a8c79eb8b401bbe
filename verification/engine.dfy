/** The engine object (internal/engine/engine.go, standalone mode): it issues ids, writes
    the store and feeds the scheduler's queues. */
module EngineObject {
  import opened Jobs
  import opened MemoryStores
  import opened SchedulerObject
  import S = Scheduling

  class Engine {
    const scheduler: Scheduler
    var nextJobId: nat
    ghost var phase: S.Phase

    ghost predicate Wired() { scheduler.Wired() }

    ghost function View(): S.State
      reads this, scheduler, scheduler.store, scheduler.priorityQueue, scheduler.delayQueue, scheduler.leases
    {
      S.State(phase, nextJobId, scheduler.View())
    }

    /** A freshly started process on an existing store; Restore comes next. */
    constructor (store: MemoryStore)
      ensures Wired() && scheduler.store == store
      ensures View() == S.State(S.Down, 0, S.Sched(store.View(), [], [], map[], map[]))
    {
      var s := new Scheduler(store);
      scheduler, nextJobId, phase := s, 0, S.Down;
    }

    /** Continues the ids after the largest stored one and queues every unfinished job. */
    method Restore() returns (ghost pending: seq<JobId>, ghost scheduled: seq<JobId>)
      requires Wired() && IndexExact(scheduler.store.View()) && phase == S.Down
      modifies this, scheduler.priorityQueue, scheduler.delayQueue
      ensures S.Legal(old(View()), S.Boot(pending, scheduled))
      ensures View() == S.Next(old(View()), S.Boot(pending, scheduled))
      ensures forall id :: id in scheduler.store.jobs ==> id <= nextJobId
      ensures nextJobId == 0 || nextJobId in scheduler.store.jobs
    {
      var maxId: nat := 0;
      var js := scheduler.store.List();
      ghost var ids := scheduler.store.jobs.Keys;
      ListingMembers(js, scheduler.store.jobs, ids);
      for i := 0 to |js|
        invariant forall k :: 0 <= k < i ==> js[k].id <= maxId
        invariant maxId == 0 || maxId in ids
      {
        assert js[i] in js;
        if js[i].id > maxId {
          maxId := js[i].id;
        }
      }
      forall id | id in ids
        ensures id <= maxId
      {
        assert scheduler.store.jobs[id] in js;
      }
      nextJobId := maxId;
      pending, scheduled := scheduler.RebuildQueuesFromStore();
      phase := S.Idle;
    }

    method Start() returns (ghost pending: seq<JobId>, ghost scheduled: seq<JobId>)
      requires Wired() && IndexExact(scheduler.store.View()) && phase == S.Idle
      modifies this, scheduler.priorityQueue, scheduler.delayQueue
      ensures S.Legal(old(View()), S.Start(pending, scheduled))
      ensures View() == S.Next(old(View()), S.Start(pending, scheduled))
    {
      pending, scheduled := scheduler.RebuildQueuesFromStore();
      phase := S.Running;
    }

    /** Stepping down: the loops stop and every lease is dropped. */
    method StepDown()
      requires Wired() && phase == S.Running
      modifies this, scheduler.leases
      ensures View() == S.Next(old(View()), S.Stop)
      ensures scheduler.leases.leases == map[]
    {
      scheduler.leases.Clear();
      phase := S.Idle;
    }

    /** Adds a job to the store and, if the store takes it, to the queue of its status. */
    method Enter(j: Job) returns (ok: bool)
      requires Wired() && (j.status == Pending || j.status == Scheduled)
      modifies scheduler.store, scheduler.priorityQueue, scheduler.delayQueue
      ensures View().(nextId := nextJobId + 1) == S.SubmitJob(old(View()), j)
      ensures ok <==> j.id !in old(scheduler.store.jobs)
    {
      ok := scheduler.store.Add(j);
      if ok {
        if j.status == Scheduled {
          scheduler.delayQueue.Enqueue(j.id);
        } else {
          scheduler.priorityQueue.Enqueue(j.id);
        }
      }
    }

    method SubmitJob(kind: string, priority: int) returns (j: Job, ok: bool)
      requires Wired()
      modifies this, scheduler.store, scheduler.priorityQueue, scheduler.delayQueue
      ensures View() == S.SubmitJob(old(View()), NewJob(nextJobId, kind, priority))
      ensures nextJobId == old(nextJobId) + 1
      ensures ok ==> j == Job(nextJobId, kind, priority, Pending, 0, 3, 0, "", "")
      ensures ok <==> nextJobId !in old(scheduler.store.jobs)
    {
      j := NewJob(nextJobId + 1, kind, priority);
      ok := Enter(j);
      nextJobId := nextJobId + 1;
    }

    method SubmitJobAt(kind: string, priority: int, runAt: Time) returns (j: Job, ok: bool)
      requires Wired()
      modifies this, scheduler.store, scheduler.priorityQueue, scheduler.delayQueue
      ensures View() == S.SubmitJob(old(View()), NewJob(nextJobId, kind, priority).(status := Scheduled, nextRunAt := runAt))
      ensures nextJobId == old(nextJobId) + 1
      ensures ok ==> j == Job(nextJobId, kind, priority, Scheduled, 0, 3, runAt, "", "")
      ensures ok <==> nextJobId !in old(scheduler.store.jobs)
    {
      j := NewJob(nextJobId + 1, kind, priority).(status := Scheduled, nextRunAt := runAt);
      ok := Enter(j);
      nextJobId := nextJobId + 1;
    }

    /** Under the submit lock: answers with the job that owns the key, or creates it. */
    method SubmitJobIdempotent(key: string, kind: string, priority: int) returns (j: Job, duplicate: bool, ok: bool)
      requires Wired()
      modifies this, scheduler.store, scheduler.priorityQueue, scheduler.delayQueue
      ensures View() == S.Next(old(View()), S.SubmitKeyed(key, kind, priority))
      ensures duplicate <==> Find(old(scheduler.store.View()), key).Some?
      ensures duplicate ==> ok && Some(j) == Find(old(scheduler.store.View()), key) && View() == old(View())
      ensures !duplicate && ok ==> j == Job(nextJobId, kind, priority, Pending, 0, 3, 0, "", key)
    {
      if key == "" {
        j, ok := SubmitJob(kind, priority);
        duplicate := false;
        return;
      }
      j, duplicate := scheduler.store.FindByIdempotencyKey(key);
      if duplicate {
        ok := true;
        return;
      }
      j := NewJob(nextJobId + 1, kind, priority).(key := key);
      ok := Enter(j);
      nextJobId := nextJobId + 1;
    }

    method CancelJob(id: JobId) returns (ok: bool)
      requires Wired()
      modifies scheduler.store
      ensures View() == S.Next(old(View()), S.CancelJob(id))
      ensures ok <==> && id in old(scheduler.store.jobs)
                      && old(scheduler.store.jobs)[id].status !in {Completed, Failed, Cancelled}
      ensures ok ==> scheduler.store.jobs == old(scheduler.store.jobs)[id := old(scheduler.store.jobs)[id].(status := Cancelled)]
    {
      ok := scheduler.store.Cancel(id);
    }

    method DeleteJob(id: JobId) returns (found: bool)
      requires Wired()
      modifies scheduler.store
      ensures View() == S.Next(old(View()), S.DeleteJob(id))
      ensures found <==> id in old(scheduler.store.jobs)
      ensures scheduler.store.jobs == old(scheduler.store.jobs) - {id}
    {
      found := scheduler.store.Delete(id);
    }
  }
}
