/** Whole runs with a promotion in flight: the delay loop reads a job and finishes the
    iteration later (ProcessDelayedJobs in internal/scheduler/scheduler.go), with any other
    steps of the orchestrator in between. */
module InFlight {
  import opened Jobs
  import opened Heaps
  import opened MemoryStores
  import opened Scheduling
  import opened RunInvariants
  import opened RunHistories
  import opened QueueOrder
  import opened Promotion

  /** `seen` is the record that the iteration in flight has read. */
  datatype Flight = Flight(st: State, seen: Option<Job>)

  const GROUND := Flight(INIT, None)

  datatype Move = Peek(now: Time) | Finish | Other(step: Step)

  /** A read finds a due job. An iteration runs to its end even if the loops are stopped
      meanwhile; there is one at a time. */
  ghost predicate CanMove(f: Flight, mv: Move) {
    match mv
    case Peek(now) => f.seen.None? && f.st.phase == Running && Due(f.st.s, now) && f.st.s.dq[0] in f.st.s.store.jobs
    case Finish => f.seen.Some?
    case Other(step) => Legal(f.st, step) && (step.PromoteOne? ==> f.seen.None?)
  }

  ghost function After(f: Flight, mv: Move): Flight {
    match mv
    case Peek(_) =>
      if f.st.s.dq == [] then f else f.(seen := Some(Lookup(f.st.s.store.jobs, f.st.s.dq[0])))
    case Finish =>
      if f.seen.None? then f else Flight(f.st.(s := FinishPromotion(f.st.s, f.seen.value)), None)
    case Other(step) => Flight(Next(f.st, step), if step.Crash? then None else f.seen)
  }

  ghost predicate CanFly(mvs: seq<Move>)
    decreases |mvs|
  {
    mvs == [] || (CanFly(mvs[..|mvs| - 1]) && CanMove(Fly(mvs[..|mvs| - 1]), mvs[|mvs| - 1]))
  }

  ghost function Fly(mvs: seq<Move>): Flight
    decreases |mvs|
  {
    if mvs == [] then GROUND else After(Fly(mvs[..|mvs| - 1]), mvs[|mvs| - 1])
  }

  // ---------- what a read record is worth later ----------

  /** The record was stored by this process, under the key its job still has. */
  ghost predicate Fresh(st: State, seen: Job) {
    && st.phase != Down && seen.id <= st.nextId
    && seen.retryCount <= seen.maxRetries == DEFAULT_MAX_RETRIES && !seen.status.Other?
    && (seen.id in st.s.store.jobs ==> st.s.store.jobs[seen.id].key == seen.key)
  }

  lemma ResultAddsNone(s: Sched, r: Result, now: Time, id: JobId)
    requires Good(s.store) && DeadLettersExact(s.store) && id !in s.store.jobs
    ensures id !in HandleResult(s, r, now).store.jobs
  {
    ResultKeepsStore(s, r, now);
    assert id !in HandleResult(s, r, now).store.jobs.Keys;
  }

  lemma IdsOnlyGrow(st: State, step: Step)
    requires st.phase != Down && Legal(st, step) && !step.Crash?
    ensures Next(st, step).phase != Down && st.nextId <= Next(st, step).nextId
  {
  }

  lemma StepKeepsFresh(st: State, step: Step, seen: Job)
    requires Inv(st) && Fresh(st, seen) && Legal(st, step) && !step.Crash?
    ensures Fresh(Next(st, step), seen)
  {
    IdsOnlyGrow(st, step);
    if seen.id !in st.s.store.jobs {
      if step.ResultArrives? {
        ResultAddsNone(st.s, step.r, step.now, seen.id);
      } else {
        OthersAddNone(st, step, seen.id);
      }
    } else if step != DeleteJob(seen.id) {
      StepEvolvesJob(st, step, seen.id);
    }
  }

  /** Writing a fresh record back keeps everything but the queues in shape. */
  lemma FinishKeepsStore(st: State, seen: Job)
    requires Inv(st) && Fresh(st, seen)
    ensures var m := FinishPromotion(st.s, seen).store;
            && Good(m) && DeadLettersExact(m)
            && forall id :: id in m.jobs ==> id <= st.nextId
  {
    if seen.id in st.s.store.jobs {
      GoodAfterUpdate(st.s.store, seen.(status := Pending));
      UpdateKeepsDeadLetters(st.s.store, seen.(status := Pending));
    }
  }

  // ---------- runs ----------

  ghost predicate NoneLost(st: State) {
    st.phase == Running ==> NotLost(st.s)
  }

  /** The head is what was looked at, finished, gone, queued twice, or there is none. */
  predicate SafeFinish(s: Sched, seen: Job) {
    || s.dq == [] || s.dq[0] == seen.id || s.dq[0] !in s.store.jobs
    || s.store.jobs[s.dq[0]].status != Scheduled || s.dq[0] in Pop(ByNextRun, s.store.jobs, s.dq)
  }

  ghost predicate SafeMove(f: Flight, mv: Move) {
    mv.Finish? && f.seen.Some? && f.st.phase == Running ==> SafeFinish(f.st.s, f.seen.value)
  }

  ghost predicate FlightInv(f: Flight) {
    Inv(f.st) && (f.seen.Some? ==> Fresh(f.st, f.seen.value))
  }

  lemma MoveLosesNoneIff(f: Flight, mv: Move)
    requires FlightInv(f) && CanMove(f, mv)
    ensures NoneLost(After(f, mv).st) <==> SafeMove(f, mv)
    ensures NoneLost(After(f, mv).st) ==> FlightInv(After(f, mv))
  {
    match mv {
      case Peek(now) =>
        assert f.st.s.store.jobs[f.st.s.dq[0]].id == f.st.s.dq[0];
      case Finish =>
        FinishKeepsStore(f.st, f.seen.value);
        if f.st.phase == Running {
          SplitPromotionSafeIff(f.st.s, f.seen.value);
        }
      case Other(step) =>
        StepKeepsInv(f.st, step);
        if f.seen.Some? && !step.Crash? {
          StepKeepsFresh(f.st, step, f.seen.value);
        }
    }
  }

  ghost predicate NoneLostThroughout(mvs: seq<Move>)
    decreases |mvs|
  {
    NoneLost(Fly(mvs).st) && (mvs == [] || NoneLostThroughout(mvs[..|mvs| - 1]))
  }

  ghost predicate SafeThroughout(mvs: seq<Move>)
    decreases |mvs|
  {
    mvs == [] || (SafeThroughout(mvs[..|mvs| - 1]) && SafeMove(Fly(mvs[..|mvs| - 1]), mvs[|mvs| - 1]))
  }

  /** With promotions in flight, a running scheduler holds every Pending and every Scheduled
      job at every point of a run exactly when every iteration it finishes finds a safe head. */
  lemma {:induction false} FlightLosesNoneIff(mvs: seq<Move>)
    requires CanFly(mvs)
    ensures NoneLostThroughout(mvs) <==> SafeThroughout(mvs)
    ensures NoneLostThroughout(mvs) ==> FlightInv(Fly(mvs))
    decreases |mvs|
  {
    if mvs == [] {
      assert IndexExact(EMPTY);
    } else {
      var front := mvs[..|mvs| - 1];
      FlightLosesNoneIff(front);
      if NoneLostThroughout(front) {
        MoveLosesNoneIff(Fly(front), mvs[|mvs| - 1]);
      }
    }
  }
}
