/** The orchestrator as a state machine on values: the scheduler loops
    (internal/scheduler/scheduler.go) and the engine calls around them
    (internal/engine/engine.go, standalone mode). One loop iteration or one engine call is
    one step. Clocks, workers' answers and map iteration orders are step parameters. */
module Scheduling {
  import opened Jobs
  import opened Heaps
  import opened MemoryStores
  import opened Leases
  import opened Retry

  /** What the scheduler loops share. */
  datatype Sched = Sched(
    store: Mem,
    pq: seq<JobId>,
    dq: seq<JobId>,
    leases: map<JobId, Lease>,
    deadLetters: map<JobId, Job>)

  datatype Result = Result(jobId: JobId, success: bool, error: string, attempt: int)

  /** config.Default().MaxBackoff */
  const MAX_BACKOFF := MINUTE

  // ---------- scheduler.go ----------

  function EnqueueReady(s: Sched, id: JobId): Sched {
    s.(pq := Push(ByPriority, s.store.jobs, s.pq, id))
  }

  function EnqueueDelayed(s: Sched, id: JobId): Sched {
    s.(dq := Push(ByNextRun, s.store.jobs, s.dq, id))
  }

  /** Queues are only added to; `pending` and `scheduled` are the listing orders. */
  function Rebuild(s: Sched, pending: seq<JobId>, scheduled: seq<JobId>): Sched {
    s.(pq := PushAll(ByPriority, s.store.jobs, s.pq, pending),
       dq := PushAll(ByNextRun, s.store.jobs, s.dq, scheduled))
  }

  function NextAttempt(leases: map<JobId, Lease>, id: JobId): nat {
    if id in leases then leases[id].attempt + 1 else 1
  }

  /** `worker` is the selected worker, if any; `accepted` whether it took the job. */
  function Dispatch(s: Sched, id: JobId, worker: Option<nat>, accepted: bool): Sched {
    match worker
    case None => EnqueueReady(s, id)
    case Some(w) =>
      var leased := s.leases[id := Lease(w, 1, NextAttempt(s.leases, id))];
      if accepted then s.(leases := leased)
      else EnqueueReady(s.(leases := leased - {id}), id)
  }

  /** One iteration of the inner dispatch loop. */
  function DispatchNext(s: Sched, worker: Option<nat>, accepted: bool): Sched {
    if s.pq == [] then s
    else
      var id := s.pq[0];
      var s1 := s.(pq := Pop(ByPriority, s.store.jobs, s.pq));
      if id !in s.store.jobs || Terminal(s.store.jobs[id].status) then s1
      else Dispatch(s1, id, worker, accepted)
  }

  /** A result is dropped if its job is gone or its attempt is not the leased one. */
  predicate Accepts(s: Sched, r: Result) {
    && r.jobId in s.store.jobs
    && !(r.jobId in s.leases && r.attempt > 0 && r.attempt != s.leases[r.jobId].attempt)
  }

  function Retried(j: Job, error: string, now: Time): Job {
    j.(retryCount := j.retryCount + 1, status := Scheduled, lastError := error,
       nextRunAt := NextRetryTime(now, j.retryCount + 1, MAX_BACKOFF))
  }

  /** One iteration of the result loop. */
  function HandleResult(s: Sched, r: Result, now: Time): Sched {
    if !Accepts(s, r) then s
    else
      var j := s.store.jobs[r.jobId];
      var s1 := s.(leases := s.leases - {r.jobId});
      if r.success then
        s1.(store := DoUpdate(s.store, j.(status := Completed)).0)
      else if ShouldRetry(j) then
        EnqueueDelayed(s1.(store := DoUpdate(s.store, Retried(j, r.error, now)).0), r.jobId)
      else
        var dead := j.(status := Failed, lastError := r.error);
        s1.(store := DoAddDLQ(DoUpdate(s.store, dead).0, dead).0,
            deadLetters := s.deadLetters[r.jobId := dead])
  }

  /** What an iteration of the promotion loop does with the head it looked at. */
  function Promote(s: Sched, id: JobId): Sched
    requires id in s.store.jobs
  {
    var (m, ok) := DoUpdate(s.store, s.store.jobs[id].(status := Pending));
    if ok then EnqueueReady(s.(store := m), id) else s
  }

  predicate Due(s: Sched, now: Time) {
    s.dq != [] && (s.dq[0] in s.store.jobs ==> s.store.jobs[s.dq[0]].nextRunAt <= now)
  }

  /** One iteration of ProcessDelayedJobs; it is the last one unless the head is due. */
  function PromoteNext(s: Sched, now: Time): Sched {
    if !Due(s, now) then s
    else
      var s1 := s.(dq := Pop(ByNextRun, s.store.jobs, s.dq));
      if s.dq[0] in s.store.jobs then Promote(s1, s.dq[0]) else s1
  }

  function PendingAmong(jobs: map<JobId, Job>, ids: seq<JobId>): seq<JobId>
    decreases |ids|
  {
    if ids == [] then []
    else
      var front, id := PendingAmong(jobs, ids[..|ids| - 1]), ids[|ids| - 1];
      if id in jobs && jobs[id].status == Pending then front + [id] else front
  }

  /** One iteration of the recovery loop; `released` is the order of the dropped leases. */
  function RecoverWorker(s: Sched, workerId: nat, released: seq<JobId>): Sched {
    s.(leases := Without(s.leases, workerId),
       pq := PushAll(ByPriority, s.store.jobs, s.pq, PendingAmong(s.store.jobs, released)))
  }

  // ---------- engine.go ----------

  /** Down: the process is gone, only the store survives. Idle: booted, loops not running. */
  datatype Phase = Down | Idle | Running

  datatype State = State(phase: Phase, nextId: nat, s: Sched)

  const INIT := State(Idle, 0, Sched(EMPTY, [], [], map[], map[]))

  datatype Step =
    | Submit(kind: string, priority: int)
    | SubmitAt(kind: string, priority: int, runAt: Time)
    | SubmitKeyed(key: string, kind: string, priority: int)
    | CancelJob(id: JobId)
    | DeleteJob(id: JobId)
    | DispatchOne(worker: Option<nat>, accepted: bool)
    | DispatchInterrupted
    | ResultArrives(r: Result, now: Time)
    | PromoteOne(now: Time)
    | WorkerDies(workerId: nat, released: seq<JobId>)
    | Stop
    | Start(pending: seq<JobId>, scheduled: seq<JobId>)
    | Crash
    | Boot(pending: seq<JobId>, scheduled: seq<JobId>)

  /** Issues the next id, adds the job and queues it by its status. */
  function SubmitJob(st: State, j: Job): State {
    var (m, ok) := DoAdd(st.s.store, j);
    var s := if !ok then st.s
             else if j.status == Scheduled then EnqueueDelayed(st.s.(store := m), j.id)
             else EnqueueReady(st.s.(store := m), j.id);
    st.(nextId := st.nextId + 1, s := s)
  }

  /** The largest id in the store, or 0 for an empty one. */
  ghost function MaxId(ids: set<JobId>): (m: nat)
    ensures forall id :: id in ids ==> id <= m
    ensures m == 0 || m in ids
  {
    if ids == {} then 0
    else
      var x :| x in ids;
      var m := MaxId(ids - {x});
      assert forall id :: id in ids ==> id == x || id in ids - {x};
      if m < x then x else m
  }

  /** The listings a rebuild works from. */
  ghost predicate ListsStore(m: Mem, pending: seq<JobId>, scheduled: seq<JobId>) {
    Enumerates(pending, Ids(m, Pending)) && Enumerates(scheduled, Ids(m, Scheduled))
  }

  ghost predicate Legal(st: State, step: Step) {
    match step
    case Submit(_, _) => st.phase != Down
    case SubmitAt(_, _, _) => st.phase != Down
    case SubmitKeyed(_, _, _) => st.phase != Down
    case CancelJob(_) => st.phase != Down
    case DeleteJob(_) => st.phase != Down
    case DispatchOne(_, _) => st.phase == Running
    case DispatchInterrupted => st.phase == Running
    case ResultArrives(_, _) => st.phase == Running
    case PromoteOne(_) => st.phase == Running
    case WorkerDies(w, released) => st.phase == Running && Enumerates(released, HeldBy(st.s.leases, w))
    case Stop => st.phase == Running
    case Start(pending, scheduled) => st.phase == Idle && ListsStore(st.s.store, pending, scheduled)
    case Crash => true
    case Boot(pending, scheduled) => st.phase == Down && ListsStore(st.s.store, pending, scheduled)
  }

  ghost function Next(st: State, step: Step): State {
    match step
    case Submit(kind, priority) =>
      SubmitJob(st, NewJob(st.nextId + 1, kind, priority))
    case SubmitAt(kind, priority, runAt) =>
      SubmitJob(st, NewJob(st.nextId + 1, kind, priority).(status := Scheduled, nextRunAt := runAt))
    case SubmitKeyed(key, kind, priority) =>
      if Find(st.s.store, key).Some? then st
      else SubmitJob(st, NewJob(st.nextId + 1, kind, priority).(key := key))
    case CancelJob(id) => st.(s := st.s.(store := DoCancel(st.s.store, id).0))
    case DeleteJob(id) => st.(s := st.s.(store := DoDelete(st.s.store, id).0))
    case DispatchOne(worker, accepted) => st.(s := DispatchNext(st.s, worker, accepted))
    case DispatchInterrupted =>
      st.(phase := Idle,
          s := st.s.(leases := map[],
                     pq := if st.s.pq == [] then [] else Pop(ByPriority, st.s.store.jobs, st.s.pq)))
    case ResultArrives(r, now) => st.(s := HandleResult(st.s, r, now))
    case PromoteOne(now) => st.(s := PromoteNext(st.s, now))
    case WorkerDies(w, released) => st.(s := RecoverWorker(st.s, w, released))
    case Stop => st.(phase := Idle, s := st.s.(leases := map[]))
    case Start(pending, scheduled) => st.(phase := Running, s := Rebuild(st.s, pending, scheduled))
    case Crash => State(Down, 0, Sched(st.s.store, [], [], map[], map[]))
    case Boot(pending, scheduled) =>
      State(Idle, MaxId(st.s.store.jobs.Keys), Rebuild(st.s, pending, scheduled))
  }

  ghost predicate LegalRun(st: State, steps: seq<Step>)
    decreases |steps|
  {
    steps == [] ||
    (LegalRun(st, steps[..|steps| - 1]) && Legal(Run(st, steps[..|steps| - 1]), steps[|steps| - 1]))
  }

  ghost function Run(st: State, steps: seq<Step>): State
    decreases |steps|
  {
    if steps == [] then st else Next(Run(st, steps[..|steps| - 1]), steps[|steps| - 1])
  }
}
