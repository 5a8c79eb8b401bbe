/** The wake-up protocol of the delay loop (delayLoop in internal/scheduler/scheduler.go with
    internal/queue/queue.go), at the grain of critical sections. The loop looks at the head,
    reads its run time and sleeps until then or until a token arrives. Run times change in
    the store, also for queued jobs, before the job is queued anew. */
module DelayWakeups {
  import opened Jobs
  import opened Heaps
  import S = Scheduling
  import Q = QueueOrder

  /** Peeked: it has looked at the head and not read its run time yet. Checked: it has found
      nothing to do before its alarm, if any, and goes to sleep. Asleep: blocked. */
  datatype Loop =
    | Stopped
    | Busy
    | Peeked(head: JobId)
    | Checked(alarm: Option<Time>)
    | Asleep(alarm: Option<Time>)

  /** `runAt` are the run times of the stored jobs. `enqueuing` holds the jobs whose enqueuers
      have not pushed yet, `notifying` counts those between push and notification. */
  datatype Floor = Floor(
    runAt: map<JobId, Time>,
    queued: multiset<JobId>,
    enqueuing: multiset<JobId>,
    notifying: nat,
    token: bool,
    loop: Loop)

  const INIT := Floor(map[], multiset{}, multiset{}, 0, false, Stopped)

  datatype Action =
    | Schedules(id: JobId, t: Time)
    | Requeues(id: JobId)
    | Deletes(id: JobId)
    | PushOne(id: JobId)
    | Notify
    | Remove(id: JobId)
    | FindEmpty
    | Peek(head: JobId)
    | Read
    | FindDue(now: Time)
    | Block
    | WakeByToken
    | WakeByTimer(now: Time)
    | Stop
    | Start

  ghost predicate Legal(p: Floor, a: Action) {
    match a
    case Schedules(_, _) => true
    case Requeues(_) => true
    case Deletes(_) => true
    case PushOne(id) => id in p.enqueuing
    case Notify => p.notifying > 0
    case Remove(id) => p.loop.Busy? && id in p.queued
    case FindEmpty => p.loop.Busy? && forall id :: id !in p.queued
    case Peek(head) => p.loop.Busy? && head in p.queued
    case Read => p.loop.Peeked?
    case FindDue(now) => p.loop.Checked? && p.loop.alarm.Some? && p.loop.alarm.value <= now
    case Block => p.loop.Checked?
    case WakeByToken => p.loop.Asleep? && p.token
    case WakeByTimer(now) => p.loop.Asleep? && p.loop.alarm.Some? && p.loop.alarm.value <= now
    case Stop => !p.loop.Stopped?
    case Start => p.loop.Stopped?
  }

  function Next(p: Floor, a: Action): Floor {
    match a
    case Schedules(id, t) => p.(runAt := p.runAt[id := t], enqueuing := p.enqueuing + multiset{id})
    case Requeues(id) => p.(enqueuing := p.enqueuing + multiset{id})
    case Deletes(id) => p.(runAt := p.runAt - {id})
    case PushOne(id) =>
      p.(enqueuing := p.enqueuing - multiset{id}, queued := p.queued + multiset{id}, notifying := p.notifying + 1)
    case Notify => p.(notifying := if p.notifying > 0 then p.notifying - 1 else 0, token := true)
    case Remove(id) => p.(queued := p.queued - multiset{id})
    case FindEmpty => p.(loop := Checked(None))
    case Peek(head) => p.(loop := Peeked(head))
    case Read =>
      if p.loop.Peeked? && p.loop.head in p.runAt then p.(loop := Checked(Some(p.runAt[p.loop.head])))
      else p.(loop := Busy)
    case FindDue(_) => p.(loop := Busy)
    case Block => if p.loop.Checked? then p.(loop := Asleep(p.loop.alarm)) else p
    case WakeByToken => p.(token := false, loop := Busy)
    case WakeByTimer(_) => p.(loop := Busy)
    case Stop => p.(loop := Stopped)
    case Start => p.(loop := Busy)
  }

  ghost predicate LegalRun(acts: seq<Action>)
    decreases |acts|
  {
    acts == [] || (LegalRun(acts[..|acts| - 1]) && Legal(Run(acts[..|acts| - 1]), acts[|acts| - 1]))
  }

  function Run(acts: seq<Action>): Floor
    decreases |acts|
  {
    if acts == [] then INIT else Next(Run(acts[..|acts| - 1]), acts[|acts| - 1])
  }

  /** The time the loop sleeps to, or is about to sleep to, is later than t, or there is none. */
  predicate SleepsBeyond(p: Floor, t: Time) {
    match p.loop
    case Peeked(head) => head in p.runAt && t < p.runAt[head]
    case Checked(alarm) => alarm.None? || t < alarm.value
    case Asleep(alarm) => alarm.None? || t < alarm.value
    case _ => false
  }

  predicate SleepsPast(p: Floor, id: JobId) {
    id in p.queued && id in p.runAt && SleepsBeyond(p, p.runAt[id])
  }

  ghost predicate WakeupComing(p: Floor) {
    p.token || p.notifying > 0 || exists id :: id in p.enqueuing
  }

  /** No queued job's run time is slept past without a wake-up coming. */
  ghost predicate Watchful(p: Floor) {
    forall id :: SleepsPast(p, id) ==> WakeupComing(p)
  }

  /** No queued job is due before this one. */
  ghost predicate IsLeast(p: Floor, head: JobId) {
    head in p.runAt ==> forall id :: id in p.queued && id in p.runAt ==> p.runAt[head] <= p.runAt[id]
  }

  ghost predicate SafeAction(p: Floor, a: Action) {
    a.Peek? ==> IsLeast(p, a.head) || WakeupComing(p)
  }

  lemma PeekWatchfulIff(p: Floor, head: JobId)
    requires Legal(p, Peek(head))
    ensures Watchful(Next(p, Peek(head))) <==> SafeAction(p, Peek(head))
  {
    var q := Next(p, Peek(head));
    assert forall id :: SleepsPast(q, id) <==> id in p.queued && id in p.runAt && head in p.runAt && p.runAt[id] < p.runAt[head];
    assert WakeupComing(q) <==> WakeupComing(p);
  }

  /** Every other action keeps the watch: whoever changes a run time or queues a job leaves a
      token after it. */
  lemma OthersWatch(p: Floor, a: Action)
    requires Legal(p, a) && Watchful(p) && !a.Peek?
    ensures Watchful(Next(p, a))
  {
    var q := Next(p, a);
    forall id | SleepsPast(q, id)
      ensures WakeupComing(q)
    {
      if a.Schedules? || a.Requeues? {
        assert a.id in q.enqueuing;
      } else if !a.PushOne? && !a.Notify? {
        assert SleepsPast(p, id) ==> WakeupComing(p);
      }
    }
  }

  ghost predicate WatchfulThroughout(acts: seq<Action>)
    decreases |acts|
  {
    Watchful(Run(acts)) && (acts == [] || WatchfulThroughout(acts[..|acts| - 1]))
  }

  ghost predicate SafeThroughout(acts: seq<Action>)
    decreases |acts|
  {
    acts == [] || (SafeThroughout(acts[..|acts| - 1]) && SafeAction(Run(acts[..|acts| - 1]), acts[|acts| - 1]))
  }

  /** With any enqueuers, reschedulings, deletions, stops and restarts, the delay loop never
      sleeps past a queued job's run time without a wake-up coming, exactly when every head it
      looked at was the earliest entry or a wake-up was coming then. */
  lemma {:induction false} NoLostWakeupIff(acts: seq<Action>)
    requires LegalRun(acts)
    ensures WatchfulThroughout(acts) <==> SafeThroughout(acts)
    decreases |acts|
  {
    if acts != [] {
      var front, a := acts[..|acts| - 1], acts[|acts| - 1];
      NoLostWakeupIff(front);
      if WatchfulThroughout(front) {
        if a.Peek? {
          PeekWatchfulIff(Run(front), a.head);
        } else {
          OthersWatch(Run(front), a);
        }
      }
    }
  }

  /** A queue in heap order gives the loop such a head. */
  lemma OrderedHeadIsLeast(s: S.Sched, p: Floor)
    requires Q.InOrder(ByNextRun, s) && s.dq != []
    requires p.queued == multiset(s.dq)
    requires p.runAt == map id | id in s.store.jobs :: s.store.jobs[id].nextRunAt
    ensures IsLeast(p, s.dq[0])
  {
    HeadSortsFirst(ByNextRun, s.store.jobs, s.dq);
    assert forall id :: id in p.queued <==> id in s.dq;
  }
}
