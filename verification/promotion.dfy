/** Promotion of delayed jobs (ProcessDelayedJobs in internal/scheduler/scheduler.go): a
    whole call as a run of iterations, each reading the clock anew. */
module Promotion {
  import opened Jobs
  import opened Heaps
  import opened MemoryStores
  import opened Retry
  import opened Scheduling
  import opened RunInvariants
  import opened RunHistories
  import opened QueueOrder

  /** The whole call; `clock(i)`, `clock(i + 1)`, ... are the clock readings of its
      iterations. Also returns the index of the reading that ended it. */
  function ProcessDelayed(s: Sched, clock: nat -> Time, i: nat): (Sched, nat)
    decreases |s.dq|
  {
    if !Due(s, clock(i)) then (s, i)
    else
      PopContents(ByNextRun, s.store.jobs, s.dq);
      ProcessDelayed(PromoteNext(s, clock(i)), clock, i + 1)
  }

  ghost predicate Monotone(clock: nat -> Time) {
    forall a, b :: a <= b ==> clock(a) <= clock(b)
  }

  function Count(q: seq<JobId>, id: JobId): nat { multiset(q)[id] }

  /** How t comes out of s when entries due by `hi` are taken off the delay queue. */
  ghost predicate PromotedBy(s: Sched, t: Sched, hi: Time) {
    && t.leases == s.leases && t.deadLetters == s.deadLetters
    && t.store.keys == s.store.keys && t.store.dlq == s.store.dlq
    && t.store.jobs.Keys == s.store.jobs.Keys
    && (forall id :: id in s.store.jobs ==>
          || t.store.jobs[id] == s.store.jobs[id]
          || (s.store.jobs[id].status == Scheduled && s.store.jobs[id].nextRunAt <= hi
              && t.store.jobs[id] == s.store.jobs[id].(status := Pending)))
    && (forall id :: Moved(s, t, hi, id))
  }

  /** The entries of one id: what left the delay queue was due or orphaned; it reappears in
      the priority queue, entry for entry, if the job is unfinished, and is dropped if the
      job is finished or gone. */
  ghost predicate Moved(s: Sched, t: Sched, hi: Time, id: JobId) {
    var gone := Count(s.dq, id) - Count(t.dq, id);
    && gone >= 0
    && (id in s.store.jobs && gone > 0 ==> s.store.jobs[id].nextRunAt <= hi)
    && Count(t.pq, id) == Count(s.pq, id) +
         (if id in s.store.jobs && (s.store.jobs[id].status == Pending || s.store.jobs[id].status == Scheduled) then gone else 0)
    && (id in s.store.jobs && id in t.store.jobs && s.store.jobs[id].status == Scheduled ==>
          t.store.jobs[id].status == if gone > 0 then Pending else Scheduled)
  }

  /** The three outcomes of an iteration: an orphaned or finished head is dropped, an
      unfinished one becomes Pending and changes queues. */
  lemma IterationOutcome(s: Sched, now: Time)
    requires Good(s.store) && Due(s, now)
    ensures var t, head := PromoteNext(s, now), s.dq[0];
            && t.dq == Pop(ByNextRun, s.store.jobs, s.dq)
            && (head !in s.store.jobs || Terminal(s.store.jobs[head].status) ==> t == s.(dq := t.dq))
            && (head in s.store.jobs && !Terminal(s.store.jobs[head].status) ==>
                  && t.store.jobs == s.store.jobs[head := s.store.jobs[head].(status := Pending)]
                  && t.pq == Push(ByPriority, t.store.jobs, s.pq, head))
  {
    if s.dq[0] in s.store.jobs {
      assert s.store.jobs[s.dq[0]].id == s.dq[0];
    }
  }

  lemma OneIterationMoves(s: Sched, now: Time, id: JobId)
    requires Good(s.store) && Due(s, now)
    ensures Moved(s, PromoteNext(s, now), now, id)
  {
    IterationOutcome(s, now);
    PopContents(ByNextRun, s.store.jobs, s.dq);
    PushContents(ByPriority, PromoteNext(s, now).store.jobs, s.pq, s.dq[0]);
  }

  lemma OneIteration(s: Sched, now: Time)
    requires Good(s.store) && Due(s, now)
    ensures PromotedBy(s, PromoteNext(s, now), now)
  {
    forall id
      ensures Moved(s, PromoteNext(s, now), now, id)
    {
      OneIterationMoves(s, now, id);
    }
    forall id | id in s.store.jobs
      ensures || PromoteNext(s, now).store.jobs[id] == s.store.jobs[id]
              || (s.store.jobs[id].status == Scheduled && s.store.jobs[id].nextRunAt <= now
                  && PromoteNext(s, now).store.jobs[id] == s.store.jobs[id].(status := Pending))
    {
      PromotionEvolvesJob(s, now, id);
    }
  }

  lemma IterationKeepsStore(s: Sched, now: Time)
    requires Good(s.store)
    ensures Good(PromoteNext(s, now).store)
  {
    if Due(s, now) && s.dq[0] in s.store.jobs {
      GoodAfterUpdate(s.store, s.store.jobs[s.dq[0]].(status := Pending));
    }
  }

  lemma PromotedByComposes(s: Sched, u: Sched, t: Sched, mid: Time, hi: Time)
    requires PromotedBy(s, u, mid) && PromotedBy(u, t, hi) && mid <= hi
    requires Good(s.store)
    ensures PromotedBy(s, t, hi)
  {
    forall id
      ensures Moved(s, t, hi, id)
    {
      assert Moved(s, u, mid, id) && Moved(u, t, hi, id);
      if id in s.store.jobs {
        assert id in u.store.jobs.Keys && id in t.store.jobs.Keys;
      }
    }
    forall id | id in s.store.jobs
      ensures || t.store.jobs[id] == s.store.jobs[id]
              || (s.store.jobs[id].status == Scheduled && s.store.jobs[id].nextRunAt <= hi
                  && t.store.jobs[id] == s.store.jobs[id].(status := Pending))
    {
      assert id in u.store.jobs.Keys && id in t.store.jobs.Keys;
    }
  }

  lemma NothingMoved(s: Sched, hi: Time)
    ensures PromotedBy(s, s, hi)
  {
  }

  /** The call ends, moves only entries due by its last clock reading, and leaves behind a
      queue whose every entry is due later than that. */
  lemma {:induction false} CallMoves(s: Sched, clock: nat -> Time, i: nat)
    requires Good(s.store) && Monotone(clock) && HeapOrdered(ByNextRun, s.store.jobs, s.dq)
    ensures i <= ProcessDelayed(s, clock, i).1
    ensures PromotedBy(s, ProcessDelayed(s, clock, i).0, clock(ProcessDelayed(s, clock, i).1))
    ensures var (t, k) := ProcessDelayed(s, clock, i);
            forall id :: id in t.dq ==> Key(ByNextRun, s.store.jobs, id) > clock(k)
    decreases |s.dq|
  {
    if !Due(s, clock(i)) {
      NothingMoved(s, clock(i));
      HeadSortsFirst(ByNextRun, s.store.jobs, s.dq);
    } else {
      var u := PromoteNext(s, clock(i));
      OneIteration(s, clock(i));
      IterationKeepsStore(s, clock(i));
      PopContents(ByNextRun, s.store.jobs, s.dq);
      PopKeepsOrder(ByNextRun, s.store.jobs, s.dq);
      assert forall id :: Key(ByNextRun, u.store.jobs, id) == Key(ByNextRun, s.store.jobs, id) by {
        forall id
          ensures Key(ByNextRun, u.store.jobs, id) == Key(ByNextRun, s.store.jobs, id)
        {
          assert id in u.store.jobs.Keys <==> id in s.store.jobs.Keys;
        }
      }
      OrderFollowsKeys(ByNextRun, s.store.jobs, u.store.jobs, u.dq);
      CallMoves(u, clock, i + 1);
      var (t, k) := ProcessDelayed(u, clock, i + 1);
      PromotedByComposes(s, u, t, clock(i), clock(k));
    }
  }

  /** ProcessDelayedJobs promotes exactly the due jobs. From an ordered delay queue: nothing
      due by the first clock reading stays queued; every Scheduled job with an entry due by
      then ends up Pending and in the priority queue; a job changes only by becoming Pending
      and only if it was due by the last reading; finished jobs keep their record and gain
      no priority-queue entry; entries not due by the last reading stay. */
  lemma PromotesExactlyTheDue(s: Sched, clock: nat -> Time, id: JobId)
    requires Good(s.store) && Monotone(clock) && HeapOrdered(ByNextRun, s.store.jobs, s.dq)
    requires id in s.store.jobs
    ensures var (t, k) := ProcessDelayed(s, clock, 0);
            var j := s.store.jobs[id];
            && id in t.store.jobs
            && (j.nextRunAt <= clock(0) ==> id !in t.dq)
            && (j.nextRunAt <= clock(0) && j.status == Scheduled && id in s.dq ==>
                  t.store.jobs[id] == j.(status := Pending) && id in t.pq)
            && (t.store.jobs[id] != j ==> j.status == Scheduled && j.nextRunAt <= clock(k))
            && (Terminal(j.status) ==> t.store.jobs[id] == j && Count(t.pq, id) == Count(s.pq, id))
            && (j.nextRunAt > clock(k) ==> Count(t.dq, id) == Count(s.dq, id) && Count(t.pq, id) == Count(s.pq, id))
  {
    CallMoves(s, clock, 0);
    var (t, k) := ProcessDelayed(s, clock, 0);
    assert Moved(s, t, clock(k), id);
    assert id in t.store.jobs.Keys;
    assert id in t.dq <==> Count(t.dq, id) > 0;
    assert id in s.dq <==> Count(s.dq, id) > 0;
    assert id in t.pq <==> Count(t.pq, id) > 0;
  }

  /** Over whole runs: while the scheduler runs and the delay queue has tolerated every step,
      a call promotes every Scheduled job that is due, and no job that is not. */
  lemma RunPromotesExactlyTheDue(steps: seq<Step>, clock: nat -> Time, id: JobId)
    requires LegalRun(INIT, steps) && ToleratedRun(ByNextRun, INIT, steps)
    requires Run(INIT, steps).phase == Running && Monotone(clock) && id in Run(INIT, steps).s.store.jobs
    ensures var s := Run(INIT, steps).s;
            var (t, k) := ProcessDelayed(s, clock, 0);
            var j := s.store.jobs[id];
            && id in t.store.jobs
            && (j.status == Scheduled && j.nextRunAt <= clock(0) ==>
                  t.store.jobs[id] == j.(status := Pending) && id in t.pq && id !in t.dq)
            && (j.status != Scheduled || j.nextRunAt > clock(k) ==> t.store.jobs[id] == j)
            && (j.status == Scheduled && j.nextRunAt > clock(k) ==> id in t.dq && Count(t.pq, id) == Count(s.pq, id))
  {
    var s := Run(INIT, steps).s;
    RunKeepsOrderIff(ByNextRun, steps);
    assert Reachable(Run(INIT, steps));
    ReachableInv(Run(INIT, steps));
    NoJobIsLost(Run(INIT, steps), id);
    PromotesExactlyTheDue(s, clock, id);
    var (t, k) := ProcessDelayed(s, clock, 0);
    assert id in t.dq <==> Count(t.dq, id) > 0;
    assert id in s.dq <==> Count(s.dq, id) > 0;
  }

  // ---------- what breaks it: a run time that changes while queued ----------

  /** The order of the delay queue is a real premise. A second failure report for a job that
      already waits there is accepted and puts its run time off in place; the queue is then
      out of order and a due job behind it is not promoted. */
  lemma DuplicateFailureHidesDueJob(s: Sched, a: JobId, b: JobId, r: Result, now: Time, later: Time)
    requires s.dq == [a, b] && a != b && a in s.store.jobs && b in s.store.jobs && Good(s.store)
    requires s.store.jobs[a].status == s.store.jobs[b].status == Scheduled && ShouldRetry(s.store.jobs[a])
    requires a !in s.leases && r.jobId == a && !r.success
    requires s.store.jobs[b].nextRunAt <= later < Retried(s.store.jobs[a], r.error, now).nextRunAt
    ensures var t := HandleResult(s, r, now);
            && t.store.jobs[b] == s.store.jobs[b] && b in t.dq
            && !InOrder(ByNextRun, t)
            && PromoteNext(t, later) == t
  {
    var t := HandleResult(s, r, now);
    assert s.store.jobs[a].id == a;
    assert t.store.jobs[a] == Retried(s.store.jobs[a], r.error, now);
    assert s.dq + [a] == [a, b, a];
    assert t.dq == [a, b, a];
    assert Key(ByNextRun, t.store.jobs, t.dq[Parent(1)]) > Key(ByNextRun, t.store.jobs, t.dq[1]);
  }

  lemma OneDelayed(runAt: Time) returns (st: State)
    ensures Reachable(st) && st.phase == Running && st.nextId == 1
    ensures st.s.dq == [1] && st.s.leases == map[]
    ensures st.s.store.jobs == map[1 := NewJob(1, "report", 0).(status := Scheduled, nextRunAt := runAt)]
  {
    assert LegalRun(INIT, []) && INIT == Run(INIT, []);
    var started := ReachableNext(INIT, Start([], []));
    st := ReachableNext(started, SubmitAt("report", 0, runAt));
    SingletonHeap(ByNextRun, st.s.store.jobs, 1);
  }

  lemma FirstDelays(j: Job, error: string, now: Time)
    ensures j.retryCount == 0 ==> Retried(j, error, now).nextRunAt == now + 2 * SECOND
    ensures j.retryCount == 1 ==> Retried(j, error, now).nextRunAt == now + 4 * SECOND
  {
    if j.retryCount < 2 {
      RetryDelay(j, error, now);
    }
  }

  /** A job went to worker 1, failed at time zero and waits for its first retry. */
  lemma OneFailed(r: Result) returns (st: State)
    requires r.jobId == 1 && !r.success && r.attempt <= 1
    ensures Reachable(st) && st.phase == Running && st.nextId == 1 && st.s.dq == [1] && st.s.leases == map[]
    ensures st.s.store.jobs == map[1 := Retried(NewJob(1, "report", 0), r.error, 0)]
    ensures st.s.store.jobs[1].nextRunAt == 2 * SECOND
  {
    var leased := OneJobLeased();
    st := OneMoreFailure(leased, r, 0);
    SingletonHeap(ByNextRun, st.s.store.jobs, 1);
    FirstDelays(NewJob(1, "report", 0), r.error, 0);
  }

  lemma OneFailedOneDelayed(r: Result) returns (st: State)
    requires r.jobId == 1 && !r.success && r.attempt <= 1
    ensures Reachable(st) && st.phase == Running && st.s.dq == [1, 2] && st.s.leases == map[]
    ensures st.s.store.jobs ==
            map[1 := Retried(NewJob(1, "report", 0), r.error, 0),
                2 := NewJob(2, "report", 0).(status := Scheduled, nextRunAt := 3 * SECOND)]
  {
    var one := OneFailed(r);
    st := ReachableNext(one, SubmitAt("report", 0, 3 * SECOND));
    PushBehind(ByNextRun, st.s.store.jobs, 1, 2);
  }

  /** It happens: a worker's failure is reported twice. The first report puts the job off to
      2 s, the second to 4 s, and a job queued behind it for 3 s is then due but no call
      promotes it. */
  lemma DueJobCanHide(r: Result) returns (st: State)
    requires r.jobId == 1 && !r.success && r.attempt <= 1
    ensures Reachable(st) && st.phase == Running && !InOrder(ByNextRun, st.s)
    ensures 2 in st.s.store.jobs && st.s.store.jobs[2].status == Scheduled && st.s.store.jobs[2].nextRunAt == 3 * SECOND
    ensures 2 in st.s.dq && PromoteNext(st.s, 3 * SECOND) == st.s
  {
    var two := OneFailedOneDelayed(r);
    ReachableInv(two);
    FirstDelays(two.s.store.jobs[1], r.error, 0);
    DuplicateFailureHidesDueJob(two.s, 1, 2, r, 0, 3 * SECOND);
    st := ReachableNext(two, ResultArrives(r, 0));
  }

  // ---------- what breaks it: steps between Peek and Dequeue ----------

  /** The rest of a promotion iteration after its Peek and its read of the job: dequeue
      whatever is the head by now, then update and queue the job that was looked at. */
  function FinishPromotion(s: Sched, seen: Job): Sched {
    var s1 := if s.dq == [] then s else s.(dq := Pop(ByNextRun, s.store.jobs, s.dq));
    var (m, ok) := DoUpdate(s.store, seen.(status := Pending));
    if ok then EnqueueReady(s1.(store := m), seen.id) else s1
  }

  lemma FinishKeepsOthers(s: Sched, seen: Job, id: JobId)
    requires NotLost(s) && id in s.store.jobs
    requires s.dq == [] || id == seen.id || id != s.dq[0] || s.store.jobs[id].status != Scheduled
    ensures var t := FinishPromotion(s, seen);
            && id in t.store.jobs
            && (t.store.jobs[id].status == Pending ==> id in t.pq || id in t.leases)
            && (t.store.jobs[id].status == Scheduled ==> id in t.dq)
  {
    if s.dq != [] {
      PopContents(ByNextRun, s.store.jobs, s.dq);
    }
    PushContents(ByPriority, DoUpdate(s.store, seen.(status := Pending)).0.jobs, s.pq, seen.id);
  }

  lemma FinishSparesHead(s: Sched, seen: Job)
    ensures var t := FinishPromotion(s, seen);
            && t.store.jobs.Keys == s.store.jobs.Keys
            && (s.dq != [] ==> t.dq == Pop(ByNextRun, s.store.jobs, s.dq))
            && (s.dq != [] && s.dq[0] in s.store.jobs && s.dq[0] != seen.id ==>
                  s.dq[0] in t.store.jobs && t.store.jobs[s.dq[0]] == s.store.jobs[s.dq[0]])
  {
  }

  /** Peek and Dequeue are separate critical sections. Whatever other steps did in between,
      to the job looked at as well, the iteration loses a job exactly when the head has
      become another Scheduled job with no second entry. */
  lemma SplitPromotionSafeIff(s: Sched, seen: Job)
    requires NotLost(s)
    ensures NotLost(FinishPromotion(s, seen)) <==>
            || s.dq == []
            || s.dq[0] == seen.id
            || s.dq[0] !in s.store.jobs
            || s.store.jobs[s.dq[0]].status != Scheduled
            || s.dq[0] in Pop(ByNextRun, s.store.jobs, s.dq)
  {
    var t := FinishPromotion(s, seen);
    FinishSparesHead(s, seen);
    forall id | id in s.store.jobs && (s.dq == [] || id == seen.id || id != s.dq[0] || s.store.jobs[id].status != Scheduled)
      ensures id in t.store.jobs
      ensures t.store.jobs[id].status == Pending ==> id in t.pq || id in t.leases
      ensures t.store.jobs[id].status == Scheduled ==> id in t.dq
    {
      FinishKeepsOthers(s, seen, id);
    }
  }

  /** Such a loss happens: a job submitted for an earlier time between the Peek and the
      Dequeue becomes the head and is thrown away. */
  lemma EarlierSubmitIsLost(st: State, seen: Job, kind: string, priority: int, runAt: Time)
    requires Inv(st) && st.phase == Running && st.s.dq == [seen.id]
    requires seen.id in st.s.store.jobs && st.s.store.jobs[seen.id] == seen && seen.status == Scheduled
    requires runAt < seen.nextRunAt
    ensures var mid := Next(st, SubmitAt(kind, priority, runAt)).s;
            && NotLost(mid) && mid.dq != []
            && !NotLost(FinishPromotion(mid, seen))
  {
    var st' := Next(st, SubmitAt(kind, priority, runAt));
    StepKeepsInv(st, SubmitAt(kind, priority, runAt));
    var id := st.nextId + 1;
    PushAhead(ByNextRun, st'.s.store.jobs, seen.id, id, id);
    assert Swap([id, seen.id], 0, 1) == [seen.id, id];
    assert Pop(ByNextRun, st'.s.store.jobs, st'.s.dq) == [seen.id];
    SplitPromotionSafeIff(st'.s, seen);
  }

  /** And from a reachable state, with the job looked at due. */
  lemma EarlierSubmitLossIsReachable(runAt: Time) returns (st: State, seen: Job)
    requires runAt < 10
    ensures Reachable(st) && st.phase == Running && Due(st.s, 10)
    ensures st.s.dq == [seen.id] && seen.id in st.s.store.jobs && st.s.store.jobs[seen.id] == seen
    ensures !NotLost(FinishPromotion(Next(st, SubmitAt("report", 0, runAt)).s, seen))
  {
    st := OneDelayed(10);
    seen := st.s.store.jobs[1];
    ReachableInv(st);
    EarlierSubmitIsLost(st, seen, "report", 0, runAt);
  }

  // ---------- what breaks it: a job that fails between its read and its update ----------

  /** What the finished iteration does to the job looked at. It writes back what it read, so
      it is a legitimate change exactly when the update is refused or nothing but the status
      has changed since. A job deleted since stays deleted. */
  lemma FinishEvolvesIff(s: Sched, seen: Job)
    ensures seen.id !in s.store.jobs ==> FinishPromotion(s, seen).store == s.store
    ensures seen.id in s.store.jobs ==>
              var j := s.store.jobs[seen.id];
              && seen.id in FinishPromotion(s, seen).store.jobs
              && (Evolves(j, FinishPromotion(s, seen).store.jobs[seen.id]) <==>
                    (j.status != Pending && j.status != Scheduled) || seen.(status := j.status) == j)
  {
  }

  /** How a job can differ from what was read of it earlier. */
  ghost predicate Ages(seen: Job, j: Job) {
    || Terminal(j.status)
    || seen.retryCount < j.retryCount
    || seen.(status := j.status) == j
  }

  lemma {:induction false} RunAges(st: State, steps: seq<Step>, id: JobId)
    requires Inv(st) && LegalRun(st, steps) && id in st.s.store.jobs && DeleteJob(id) !in steps
    ensures Inv(Run(st, steps)) && id in Run(st, steps).s.store.jobs
    ensures Ages(st.s.store.jobs[id], Run(st, steps).s.store.jobs[id])
    decreases |steps|
  {
    RunKeepsInv(st, steps);
    if steps != [] {
      RunAges(st, steps[..|steps| - 1], id);
      StepEvolvesJob(Run(st, steps[..|steps| - 1]), steps[|steps| - 1], id);
    }
  }

  /** A job read before a run and updated after it goes through a legitimate change exactly
      when it is finished by then or was not retried since. Otherwise its retries since are
      taken back, and with them the bound on its status changes. */
  lemma StalePromotionIff(st: State, steps: seq<Step>, id: JobId)
    requires Inv(st) && LegalRun(st, steps) && id in st.s.store.jobs && DeleteJob(id) !in steps
    ensures id in Run(st, steps).s.store.jobs
    ensures var seen, s := st.s.store.jobs[id], Run(st, steps).s;
            var j, t := s.store.jobs[id], FinishPromotion(s, seen);
            && id in t.store.jobs
            && (Evolves(j, t.store.jobs[id]) <==> Terminal(j.status) || j.retryCount == seen.retryCount)
            && (!Terminal(j.status) && j.retryCount != seen.retryCount ==>
                  t.store.jobs[id] == seen.(status := Pending) && Measure(t.store.jobs[id]) > Measure(j))
  {
    RunAges(st, steps, id);
    FinishEvolvesIff(Run(st, steps).s, st.s.store.jobs[id]);
  }

  /** It happens: a failure reported a second time between the read and the update counts as
      another retry, which is then forgotten. */
  lemma RetryCanBeForgotten(r: Result) returns (st: State, failed: State)
    requires r.jobId == 1 && !r.success && r.attempt <= 1
    ensures Reachable(st) && st.phase == Running && st.s.dq == [1] && Due(st.s, 2 * SECOND) && 1 in st.s.store.jobs
    ensures failed == Next(st, ResultArrives(r, 2 * SECOND)) && Reachable(failed)
    ensures 1 in failed.s.store.jobs && failed.s.store.jobs[1].retryCount == 2
    ensures var t := FinishPromotion(failed.s, st.s.store.jobs[1]);
            1 in t.store.jobs && t.store.jobs[1].status == Pending && t.store.jobs[1].retryCount == 1
  {
    st := OneFailed(r);
    failed := OneMoreFailure(st, r, 2 * SECOND);
  }
}
