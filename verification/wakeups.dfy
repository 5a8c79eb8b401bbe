/** The wake-up protocol of the dispatch loop (internal/queue/queue.go with dispatchLoop,
    resultLoop and recoveryLoop of internal/scheduler/scheduler.go and the starts and stops
    of internal/engine/engine.go), at the grain of critical sections. An enqueuer first
    makes its job Pending in the store, then pushes under the queue lock, then notifies; the
    notification channel holds one token; the loop sleeps until a token arrives. */
module DispatchWakeups {
  import opened Jobs

  /** Serving: woken and about to dequeue. Holding: between a dequeue and what it does with
      the job. A woken loop dequeues before it can see that it was cancelled. */
  datatype Loop = Stopped | Asleep | Serving | Holding(id: JobId)

  /** `pending` are the jobs the store calls Pending. `enqueuing` holds the jobs whose
      enqueuers have not pushed yet, `notifying` counts those between push and notification.
      `settling` holds the jobs whose lease a result has released and whose update is still
      to come, `recovering` those whose lease a worker's death has released and whose status
      is still to be looked at. `live` says that the loops' context is not cancelled. */
  datatype Floor = Floor(
    pending: set<JobId>,
    leased: set<JobId>,
    queued: multiset<JobId>,
    enqueuing: multiset<JobId>,
    notifying: nat,
    settling: multiset<JobId>,
    recovering: multiset<JobId>,
    token: bool,
    live: bool,
    loop: Loop)

  function Booted(pending: set<JobId>): Floor {
    Floor(pending, {}, multiset{}, multiset{}, 0, multiset{}, multiset{}, false, false, Stopped)
  }

  datatype Action =
    | BecomesPending(id: JobId)
    | LeavesPending(id: JobId)
    | PushOne(id: JobId)
    | Notify
    | WakeUp
    | TakeHead(id: JobId)
    | FindEmpty
    | Lease
    | Skip
    | PutBack(refused: bool)
    | Interrupted
    | StopAsleep
    | ResultReleases(id: JobId)
    | Settle(id: JobId)
    | DeathReleases(id: JobId)
    | Recover(id: JobId)
    | Rebuild
    | Cancel
    | ClearLeases
    | Start
    | Crash

  ghost predicate Legal(p: Floor, a: Action) {
    match a
    case BecomesPending(_) => true
    case LeavesPending(_) => true
    case PushOne(id) => id in p.enqueuing
    case Notify => p.notifying > 0
    case WakeUp => p.loop.Asleep? && p.token
    case TakeHead(id) => p.loop.Serving? && id in p.queued
    case FindEmpty => p.loop.Serving? && forall id :: id !in p.queued
    case Lease => p.loop.Holding?
    case Skip => p.loop.Holding? && p.loop.id !in p.pending
    case PutBack(_) => p.loop.Holding?
    case Interrupted => p.loop.Holding? && !p.live
    case StopAsleep => p.loop.Asleep? && !p.live
    case ResultReleases(_) => true
    case Settle(id) => id in p.settling
    case DeathReleases(_) => true
    case Recover(id) => id in p.recovering
    case Rebuild => true
    case Cancel => true
    case ClearLeases => !p.live
    case Start => p.loop.Stopped?
    case Crash => true
  }

  /** A rebuild is an enqueuer of every Pending job. Every start of the loops follows one. */
  function Rebuilding(p: Floor): Floor {
    p.(enqueuing := p.enqueuing + multiset(p.pending))
  }

  /** A job put back is pushed and notified like any other; a cancelled loop then returns. */
  function PuttingBack(p: Floor, id: JobId, refused: bool): Floor {
    p.(queued := p.queued + multiset{id}, notifying := p.notifying + 1,
       leased := if refused then p.leased - {id} else p.leased,
       loop := if p.live then Serving else Stopped)
  }

  function Next(p: Floor, a: Action): Floor {
    match a
    case BecomesPending(id) => p.(pending := p.pending + {id}, enqueuing := p.enqueuing + multiset{id})
    case LeavesPending(id) => p.(pending := p.pending - {id})
    case PushOne(id) =>
      p.(enqueuing := p.enqueuing - multiset{id}, queued := p.queued + multiset{id}, notifying := p.notifying + 1)
    case Notify => p.(notifying := if p.notifying > 0 then p.notifying - 1 else 0, token := true)
    case WakeUp => p.(token := false, loop := Serving)
    case TakeHead(id) => p.(queued := p.queued - multiset{id}, loop := Holding(id))
    case FindEmpty => p.(loop := Asleep)
    case Lease => if p.loop.Holding? then p.(leased := p.leased + {p.loop.id}, loop := Serving) else p
    case Skip => p.(loop := Serving)
    case PutBack(refused) => if p.loop.Holding? then PuttingBack(p, p.loop.id, refused) else p
    case Interrupted => p.(loop := Stopped)
    case StopAsleep => p.(loop := Stopped)
    case ResultReleases(id) => p.(leased := p.leased - {id}, settling := p.settling + multiset{id})
    case Settle(id) => p.(settling := p.settling - multiset{id}, pending := p.pending - {id})
    case DeathReleases(id) => p.(leased := p.leased - {id}, recovering := p.recovering + multiset{id})
    case Recover(id) =>
      p.(recovering := p.recovering - multiset{id},
         enqueuing := if id in p.pending then p.enqueuing + multiset{id} else p.enqueuing)
    case Rebuild => Rebuilding(p)
    case Cancel => p.(live := false)
    case ClearLeases => p.(leased := {})
    case Start => Rebuilding(p).(live := true, loop := Asleep)
    case Crash => Booted(p.pending)
  }

  ghost predicate LegalRun(acts: seq<Action>)
    decreases |acts|
  {
    acts == [] || (LegalRun(acts[..|acts| - 1]) && Legal(Run(acts[..|acts| - 1]), acts[|acts| - 1]))
  }

  function Run(acts: seq<Action>): Floor
    decreases |acts|
  {
    if acts == [] then Booted({}) else Next(Run(acts[..|acts| - 1]), acts[|acts| - 1])
  }

  // ---------- no Pending job is stranded ----------

  /** Someone has the job: a worker, a queue entry, or a goroutine that will see to it. */
  predicate Held(p: Floor, id: JobId) {
    id in p.leased || id in p.queued || id in p.enqueuing || id in p.settling || id in p.recovering || p.loop == Holding(id)
  }

  /** A token waits for the loop, or an enqueuer is about to leave one. */
  ghost predicate WakeupComing(p: Floor) {
    p.token || p.notifying > 0 || exists id :: id in p.enqueuing
  }

  /** The loop sleeps although a Pending job is queued. */
  predicate SleepsOn(p: Floor, id: JobId) {
    p.loop.Asleep? && id in p.pending && id in p.queued
  }

  ghost predicate Covered(p: Floor) {
    p.live ==> forall id :: id in p.pending ==> Held(p, id)
  }

  ghost predicate Watchful(p: Floor) {
    forall id :: SleepsOn(p, id) ==> WakeupComing(p)
  }

  /** Between the queue and those who feed and serve it, a job changes hands only. */
  lemma QueueActionHolds(p: Floor, a: Action, id: JobId)
    requires a.BecomesPending? || a.PushOne? || a.TakeHead? || a.Lease? || a.Skip? || a.PutBack?
    requires Legal(p, a) && id in Next(p, a).pending && (id in p.pending ==> Held(p, id))
    ensures Held(Next(p, a), id)
  {
    var q := Next(p, a);
    match a {
      case BecomesPending(x) =>
        assert x in q.enqueuing;
      case PushOne(x) =>
        assert x in q.queued && (id != x ==> p.enqueuing[id] == q.enqueuing[id]);
      case TakeHead(x) =>
        assert id != x ==> p.queued[id] == q.queued[id];
      case PutBack(_) =>
        assert p.loop.id in q.queued;
      case _ =>
    }
  }

  /** A job whose lease is released is settled or recovered. */
  lemma ReleaseActionHolds(p: Floor, a: Action, id: JobId)
    requires a.ResultReleases? || a.Settle? || a.DeathReleases? || a.Recover?
    requires Legal(p, a) && id in Next(p, a).pending && Held(p, id)
    ensures Held(Next(p, a), id)
  {
    var q := Next(p, a);
    match a {
      case ResultReleases(x) =>
        assert x in q.settling;
      case Settle(x) =>
        assert id != x && p.settling[id] == q.settling[id];
      case DeathReleases(x) =>
        assert x in q.recovering;
      case Recover(x) =>
        assert x in p.pending ==> x in q.enqueuing;
        assert id != x ==> p.recovering[id] == q.recovering[id];
    }
  }

  lemma StartHolds(p: Floor, id: JobId)
    requires id in p.pending
    ensures Held(Rebuilding(p), id) && Held(Next(p, Start), id)
  {
    assert id in multiset(p.pending);
  }

  lemma StepHolds(p: Floor, a: Action, id: JobId)
    requires Legal(p, a) && Next(p, a).live && id in Next(p, a).pending
    requires p.live && id in p.pending ==> Held(p, id)
    ensures Held(Next(p, a), id)
  {
    if a.BecomesPending? || a.PushOne? || a.TakeHead? || a.Lease? || a.Skip? || a.PutBack? {
      QueueActionHolds(p, a, id);
    } else if a.ResultReleases? || a.Settle? || a.DeathReleases? || a.Recover? {
      ReleaseActionHolds(p, a, id);
    } else if a.Start? || a.Rebuild? {
      StartHolds(p, id);
    }
  }

  lemma StepCovers(p: Floor, a: Action)
    requires Legal(p, a) && Covered(p)
    ensures Covered(Next(p, a))
  {
    forall id | Next(p, a).live && id in Next(p, a).pending
      ensures Held(Next(p, a), id)
    {
      StepHolds(p, a, id);
    }
  }

  lemma StepWatches(p: Floor, a: Action)
    requires Legal(p, a) && Watchful(p)
    ensures Watchful(Next(p, a))
  {
    var q := Next(p, a);
    forall id | SleepsOn(q, id)
      ensures WakeupComing(q)
    {
      assert SleepsOn(p, id) ==> WakeupComing(p);
      assert id in q.enqueuing || !a.Start?;
      if a.PushOne? || a.Notify? {
        assert q.notifying > 0 || q.token;
      } else if a.BecomesPending? {
        assert a.id in q.enqueuing;
      }
    }
  }

  lemma {:induction false} RunKeepsWatch(acts: seq<Action>)
    requires LegalRun(acts)
    ensures Covered(Run(acts)) && Watchful(Run(acts))
    decreases |acts|
  {
    if acts != [] {
      RunKeepsWatch(acts[..|acts| - 1]);
      StepCovers(Run(acts[..|acts| - 1]), acts[|acts| - 1]);
      StepWatches(Run(acts[..|acts| - 1]), acts[|acts| - 1]);
    }
  }

  /** The end of some run from a first boot with an empty store. */
  ghost predicate Reachable(p: Floor) {
    exists acts :: LegalRun(acts) && p == Run(acts)
  }

  lemma ReachableNext(p: Floor, a: Action) returns (q: Floor)
    requires Reachable(p) && Legal(p, a)
    ensures q == Next(p, a) && Reachable(q)
  {
    var acts :| LegalRun(acts) && p == Run(acts);
    var more := acts + [a];
    assert more[..|more| - 1] == acts;
    q := Next(p, a);
    assert LegalRun(more) && q == Run(more);
  }

  lemma ReachableWatch(p: Floor)
    requires Reachable(p)
    ensures Covered(p) && Watchful(p)
  {
    var acts :| LegalRun(acts) && p == Run(acts);
    RunKeepsWatch(acts);
  }

  /** No Pending job is stranded: with any number of enqueuers, results and dead workers, any
      interleaving of their critical sections and any stops, restarts and crashes, a live
      scheduler's every Pending job is with a worker or a goroutine that will see to it, or
      queued for a loop that is awake or has a wake-up coming. */
  lemma NoPendingJobIsStranded(p: Floor, id: JobId)
    requires Reachable(p) && p.live && id in p.pending
    ensures Held(p, id)
    ensures id in p.queued && p.loop.Asleep? ==> WakeupComing(p)
  {
    ReachableWatch(p);
    assert id in p.queued && p.loop.Asleep? ==> SleepsOn(p, id);
  }

  /** The token is there and leads to an awake loop with the entry still queued. */
  predicate Wakes(p: Floor, id: JobId) {
    p.loop.Asleep? && p.token && Next(p, WakeUp).loop.Serving? && id in Next(p, WakeUp).queued
  }

  lemma NotifyWakes(p: Floor, id: JobId)
    requires SleepsOn(p, id) && p.notifying > 0
    ensures Legal(p, Notify) && Wakes(Next(p, Notify), id)
  {
  }

  lemma PushSleepsOn(p: Floor, id: JobId, e: JobId)
    requires SleepsOn(p, id)
    ensures SleepsOn(Next(p, PushOne(e)), id) && Next(p, PushOne(e)).notifying > 0
  {
  }

  /** The wake-up does come: at most a push, a notification and the token are left. */
  lemma SleeperCanWake(p: Floor, id: JobId) returns (e: JobId)
    requires Reachable(p) && SleepsOn(p, id)
    ensures p.token ==> Wakes(p, id)
    ensures !p.token && p.notifying > 0 ==> Legal(p, Notify) && Wakes(Next(p, Notify), id)
    ensures !p.token && p.notifying == 0 ==>
              var q := Next(p, PushOne(e));
              Legal(p, PushOne(e)) && Legal(q, Notify) && Wakes(Next(q, Notify), id)
  {
    e := 0;
    assert WakeupComing(p) by {
      ReachableWatch(p);
    }
    if p.token {
    } else if p.notifying > 0 {
      NotifyWakes(p, id);
    } else {
      e :| e in p.enqueuing;
      PushSleepsOn(p, id, e);
      NotifyWakes(Next(p, PushOne(e)), id);
    }
  }

  // ---------- entries of other jobs ----------

  lemma EnqueueOne(p: Floor, id: JobId) returns (q: Floor)
    requires Reachable(p) && p.enqueuing == multiset{} && p.notifying == 0
    ensures Reachable(q)
    ensures q == p.(pending := p.pending + {id}, queued := p.queued + multiset{id}, token := true)
  {
    var one := ReachableNext(p, BecomesPending(id));
    var two := ReachableNext(one, PushOne(id));
    assert two.enqueuing == multiset{};
    q := ReachableNext(two, Notify);
  }

  /** Two jobs are queued for a sleeping loop. */
  lemma TwoQueued() returns (p: Floor)
    ensures Reachable(p)
    ensures p == Booted({1, 2}).(queued := multiset{1, 2}, token := true, live := true, loop := Asleep)
  {
    assert LegalRun([]) && Run([]) == Booted({});
    var started := ReachableNext(Booted({}), Start);
    assert started.enqueuing == multiset{};
    var one := EnqueueOne(started, 1);
    p := EnqueueOne(one, 2);
    assert p.pending == {1, 2} && p.queued == multiset{1, 2};
  }

  lemma CancelledWithOneLeft() returns (p: Floor)
    ensures Reachable(p) && p == Booted({1, 2}).(queued := multiset{2})
  {
    var two := TwoQueued();
    var awake := ReachableNext(two, WakeUp);
    var holding := ReachableNext(awake, TakeHead(1));
    assert holding.queued == multiset{2};
    var cancelled := ReachableNext(holding, Cancel);
    p := ReachableNext(cancelled, Interrupted);
  }

  /** Only entries of jobs that are not Pending can be slept on: left in the queue by a
      cancelled loop, their jobs cancelled before the restart, they wait for the next push. */
  lemma StaleEntryCanBeSleptOn() returns (p: Floor)
    ensures Reachable(p) && p.live && p.loop.Asleep? && 2 in p.queued && 2 !in p.pending && !WakeupComing(p)
  {
    var left := CancelledWithOneLeft();
    var one := ReachableNext(left, LeavesPending(1));
    var none := ReachableNext(one, LeavesPending(2));
    assert none.pending == {};
    p := ReachableNext(none, Start);
  }
}
