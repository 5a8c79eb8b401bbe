/** Restoring a snapshot onto a durable store that already holds jobs: Bolt survives a
    restart, and its adds overwrite (internal/consensus/fsm.go on
    internal/store/bolt_store.go). */
module BoltRestores {
  import opened Jobs
  import opened Text
  import M = MemoryStores
  import B = BoltStores
  import R = ReplicatedStore
  import RB = ReplicatedBolt

  function Onto(b: B.Bolt, js: seq<Job>): B.Bolt { B.ApplyAll(b, RB.Adds(js)) }

  /** Every entry is filed under the decimal form of its job's id. */
  ghost predicate Canonical(b: B.Bolt) {
    forall k :: k in b.jobs ==> k == Itoa(b.jobs[k].id)
  }

  lemma OntoSnoc(b: B.Bolt, js: seq<Job>)
    requires js != []
    ensures Onto(b, js) == B.DoAdd(Onto(b, js[..|js| - 1]), Itoa(js[|js| - 1].id), js[|js| - 1]).0
  {
    assert RB.Adds(js)[..|RB.Adds(js)| - 1] == RB.Adds(js[..|js| - 1]);
  }

  // ---------- what a restore leaves under one key ----------

  /** The entry under k is the one of b. */
  ghost predicate Kept(b: B.Bolt, r: B.Bolt, k: string) {
    && (k in r.jobs <==> k in b.jobs) && (k in b.jobs ==> r.jobs[k] == b.jobs[k])
    && forall st :: k in B.Bucket(r, st) <==> k in B.Bucket(b, st)
  }

  /** The entry under k is j; buckets that held k still do. */
  ghost predicate Replaced(b: B.Bolt, r: B.Bolt, k: string, j: Job) {
    && k in r.jobs && r.jobs[k] == j
    && forall st :: k in B.Bucket(r, st) <==> k in B.Bucket(b, st) || (st in b.status && st == j.status)
  }

  lemma AddAtOtherKey(b: B.Bolt, r: B.Bolt, k: string, j: Job, x: string, held: Job)
    requires x != k && r.status.Keys == b.status.Keys
    ensures Kept(b, r, x) ==> Kept(b, B.DoAdd(r, k, j).0, x)
    ensures Replaced(b, r, x, held) ==> Replaced(b, B.DoAdd(r, k, j).0, x, held)
    ensures B.DoAdd(r, k, j).0.status.Keys == b.status.Keys
  {
    assert forall st :: x in B.Bucket(B.DoAdd(r, k, j).0, st) <==> x in B.Bucket(r, st);
  }

  lemma AddAtKey(b: B.Bolt, r: B.Bolt, k: string, j: Job)
    requires Kept(b, r, k) && r.status.Keys == b.status.Keys
    ensures Replaced(b, B.DoAdd(r, k, j).0, k, j) && B.DoAdd(r, k, j).0.status.Keys == b.status.Keys
  {
    var t := B.DoAdd(r, k, j).0;
    forall st
      ensures k in B.Bucket(t, st) <==> k in B.Bucket(b, st) || (st in b.status && st == j.status)
    {
      assert st in r.status.Keys <==> st in b.status.Keys;
      assert k in B.Bucket(r, st) <==> k in B.Bucket(b, st);
    }
  }

  /** On Bolt the snapshot wins: a restored id has the snapshot's job, and every bucket that
      held it before still does; any other id keeps its entry. */
  lemma {:induction false} RestoredEntry(b: B.Bolt, js: seq<Job>, jobs: map<JobId, Job>, sel: set<JobId>, id: JobId)
    requires M.ListingOf(js, jobs, sel)
    ensures Onto(b, js).status.Keys == b.status.Keys
    ensures id in sel ==> id in jobs && Replaced(b, Onto(b, js), Itoa(id), jobs[id])
    ensures id !in sel ==> Kept(b, Onto(b, js), Itoa(id))
    decreases |js|
  {
    M.ListingMembers(js, jobs, sel);
    if js != [] {
      var front, last := js[..|js| - 1], js[|js| - 1];
      RB.ListingWithoutLast(js, jobs, sel);
      RestoredEntry(b, front, jobs, sel - {last.id}, id);
      OntoSnoc(b, js);
      assert last in js;
      if id == last.id {
        AddAtKey(b, Onto(b, front), Itoa(id), last);
      } else {
        ItoaInjective(id, last.id);
        AddAtOtherKey(b, Onto(b, front), Itoa(last.id), last, Itoa(id), if id in jobs then jobs[id] else last);
      }
    }
  }

  lemma {:induction false} RestoreStaysCanonical(b: B.Bolt, js: seq<Job>)
    requires Canonical(b)
    ensures Canonical(Onto(b, js)) && Onto(b, js).dlq == b.dlq
    decreases |js|
  {
    if js != [] {
      RestoreStaysCanonical(b, js[..|js| - 1]);
      OntoSnoc(b, js);
    }
  }

  // ---------- restoring onto held jobs ----------

  ghost predicate SameGets(r: B.Bolt, m: M.Mem) {
    forall id :: B.Get(r, id) == if id in m.jobs then Some(m.jobs[id]) else None
  }

  ghost predicate SameLists(r: B.Bolt, m: M.Mem) {
    forall st: Status :: !st.Other? ==> B.Listed(r, st) == M.Listed(m, st)
  }

  ghost predicate HeldInSnapshot(b: B.Bolt, m: M.Mem) {
    forall id :: B.Get(b, id).Some? ==> id in m.jobs
  }

  /** Every held job that sits in a bucket sits in the one of the snapshot's status. */
  ghost predicate HeldInPlace(b: B.Bolt, m: M.Mem) {
    forall id :: B.Get(b, id).Some? && id in m.jobs ==>
      B.Get(b, id).value.status.Other? || B.Get(b, id).value.status == m.jobs[id].status
  }

  lemma RestoredGetsIff(b: B.Bolt, m: M.Mem, js: seq<Job>)
    requires M.ListingOf(js, m.jobs, m.jobs.Keys)
    ensures SameGets(Onto(b, js), m) <==> HeldInSnapshot(b, m)
  {
    var r := Onto(b, js);
    forall id
      ensures id in m.jobs ==> B.Get(r, id) == Some(m.jobs[id])
      ensures id !in m.jobs ==> B.Get(r, id) == B.Get(b, id)
    {
      RestoredEntry(b, js, m.jobs, m.jobs.Keys, id);
    }
    if SameGets(r, m) {
      forall id | B.Get(b, id).Some?
        ensures id in m.jobs
      {
        assert B.Get(r, id) == if id in m.jobs then Some(m.jobs[id]) else None;
      }
    }
  }

  /** Which buckets hold a snapshot job after the restore. */
  lemma RestoredBucket(b: B.Bolt, m: M.Mem, js: seq<Job>, id: JobId, st: Status)
    requires B.BucketsExact(b) && M.ListingOf(js, m.jobs, m.jobs.Keys) && id in m.jobs && !st.Other?
    ensures Itoa(id) in B.Bucket(Onto(b, js), st) <==>
            m.jobs[id].status == st || (B.Get(b, id).Some? && B.Get(b, id).value.status == st)
  {
    RestoredEntry(b, js, m.jobs, m.jobs.Keys, id);
    assert st in b.status;
    assert Itoa(id) in b.status[st] <==> Itoa(id) in b.jobs && b.jobs[Itoa(id)].status == st;
  }

  lemma ListedIsFilter(m: M.Mem, st: Status, j: Job)
    requires M.IndexExact(m)
    ensures j in M.Listed(m, st) <==> j.id in m.jobs && m.jobs[j.id] == j && j.status == st
  {
    if j in M.Listed(m, st) {
      var i :| i in M.Ids(m, st) && i in m.jobs && m.jobs[i] == j;
      assert m.jobs[i].id == i;
    }
    if j.id in m.jobs && m.jobs[j.id] == j && j.status == st {
      assert j.id in M.Ids(m, st);
    }
  }

  lemma RestoredListing(b: B.Bolt, m: M.Mem, js: seq<Job>, st: Status, j: Job)
    requires B.BucketsExact(b) && Canonical(b) && M.IndexExact(m)
    requires M.ListingOf(js, m.jobs, m.jobs.Keys) && HeldInSnapshot(b, m) && !st.Other?
    ensures j in B.Listed(Onto(b, js), st) <==>
            && j.id in m.jobs && m.jobs[j.id] == j
            && (j.status == st || (B.Get(b, j.id).Some? && B.Get(b, j.id).value.status == st))
  {
    var r := Onto(b, js);
    RestoredGetsIff(b, m, js);
    RestoreStaysCanonical(b, js);
    if j in B.Listed(r, st) {
      var k :| k in B.Bucket(r, st) && k in r.jobs && r.jobs[k] == j;
      assert B.Get(r, j.id) == Some(j);
    }
    if j.id in m.jobs && m.jobs[j.id] == j {
      RestoredBucket(b, m, js, j.id, st);
      assert B.Get(r, j.id) == Some(j);
    }
  }

  lemma PlaceGivesListing(b: B.Bolt, m: M.Mem, js: seq<Job>, st: Status)
    requires B.BucketsExact(b) && Canonical(b) && M.IndexExact(m)
    requires M.ListingOf(js, m.jobs, m.jobs.Keys) && HeldInSnapshot(b, m) && HeldInPlace(b, m) && !st.Other?
    ensures B.Listed(Onto(b, js), st) == M.Listed(m, st)
  {
    forall j
      ensures j in B.Listed(Onto(b, js), st) <==> j in M.Listed(m, st)
    {
      RestoredListing(b, m, js, st, j);
      ListedIsFilter(m, st, j);
    }
  }

  lemma ListingGivesPlace(b: B.Bolt, m: M.Mem, js: seq<Job>, id: JobId)
    requires B.BucketsExact(b) && Canonical(b) && M.IndexExact(m)
    requires M.ListingOf(js, m.jobs, m.jobs.Keys) && HeldInSnapshot(b, m) && SameLists(Onto(b, js), m)
    requires id in m.jobs && B.Get(b, id).Some? && !B.Get(b, id).value.status.Other?
    ensures B.Get(b, id).value.status == m.jobs[id].status
  {
    var st, j := B.Get(b, id).value.status, m.jobs[id];
    assert j.id == id;
    RestoredListing(b, m, js, st, j);
    ListedIsFilter(m, st, j);
    assert B.Listed(Onto(b, js), st) == M.Listed(m, st);
  }

  /** Restore does not reset a Bolt store either, but there the snapshot wins. Lookups become
      the snapshot's exactly when every held job is in it; named listings do too exactly when
      no held job also sits in the bucket of another status. */
  lemma BoltRestoreOntoIff(b: B.Bolt, m: M.Mem, js: seq<Job>)
    requires B.BucketsExact(b) && Canonical(b) && M.IndexExact(m)
    requires M.ListingOf(js, m.jobs, m.jobs.Keys)
    ensures SameGets(Onto(b, js), m) <==> HeldInSnapshot(b, m)
    ensures SameGets(Onto(b, js), m) && SameLists(Onto(b, js), m) <==> HeldInSnapshot(b, m) && HeldInPlace(b, m)
  {
    RestoredGetsIff(b, m, js);
    if HeldInSnapshot(b, m) && HeldInPlace(b, m) {
      forall st: Status | !st.Other?
        ensures B.Listed(Onto(b, js), st) == M.Listed(m, st)
      {
        PlaceGivesListing(b, m, js, st);
      }
    }
    if HeldInSnapshot(b, m) && SameLists(Onto(b, js), m) {
      forall id | B.Get(b, id).Some? && id in m.jobs && !B.Get(b, id).value.status.Other?
        ensures B.Get(b, id).value.status == m.jobs[id].status
      {
        ListingGivesPlace(b, m, js, id);
      }
    }
  }

  /** It happens: a snapshot that still has a job Pending revives it on a node where it is
      Completed, and both listings then show it. */
  lemma RestoreCanRevive(j: Job)
    requires j.status == Pending
    ensures var b := RB.BoltAfter([R.AddJob(j), R.UpdateJob(j.(status := Completed))]);
            && B.Get(b, j.id) == Some(j.(status := Completed))
            && B.Get(Onto(b, [j]), j.id) == Some(j)
            && j in B.Listed(Onto(b, [j]), Pending) && j in B.Listed(Onto(b, [j]), Completed)
  {
    var k, log := Itoa(j.id), [R.AddJob(j), R.UpdateJob(j.(status := Completed))];
    var b := RB.BoltAfter(log);
    BoltAfterSnoc(log);
    BoltAfterSnoc(log[..1]);
    assert log[..1][..0] == [] && log[..1] == [R.AddJob(j)];
    assert b.jobs[k] == j.(status := Completed) && k in B.Bucket(b, Completed);
    OntoSnoc(b, [j]);
    assert [j][..0] == [] && Onto(b, []) == b;
    var r := Onto(b, [j]);
    assert r == B.DoAdd(b, k, j).0;
    assert k in B.Bucket(r, Pending) && k in B.Bucket(r, Completed) && r.jobs[k] == j;
  }

  // ---------- restarting: restore the snapshot, replay the log ----------

  /** One more log entry on a Bolt store. */
  function Step(b: B.Bolt, c: R.Command): B.Bolt {
    var ops := R.ToOps(c);
    if ops == [] then b else B.Apply(b, ops[0]).0
  }

  function Replay(b: B.Bolt, log: seq<R.Command>): B.Bolt
    decreases |log|
  {
    if log == [] then b else Step(Replay(b, log[..|log| - 1]), log[|log| - 1])
  }

  lemma ApplySnoc(b: B.Bolt, ops: seq<M.Op>, op: M.Op)
    ensures B.ApplyAll(b, ops + [op]) == B.Apply(B.ApplyAll(b, ops), op).0
  {
    assert (ops + [op])[..|ops + [op]| - 1] == ops;
  }

  lemma {:induction false} ReplayIsWrites(b: B.Bolt, log: seq<R.Command>)
    ensures Replay(b, log) == B.ApplyAll(b, RB.OpsOf(log))
    decreases |log|
  {
    if log != [] {
      var front, ops := log[..|log| - 1], R.ToOps(log[|log| - 1]);
      ReplayIsWrites(b, front);
      RB.OpsSnoc(log);
      if ops != [] {
        ApplySnoc(b, RB.OpsOf(front), ops[0]);
      }
    }
  }

  lemma BoltAfterSnoc(log: seq<R.Command>)
    requires log != []
    ensures RB.BoltAfter(log) == Step(RB.BoltAfter(log[..|log| - 1]), log[|log| - 1])
  {
    ReplayIsWrites(B.EMPTY, log);
    ReplayIsWrites(B.EMPTY, log[..|log| - 1]);
  }

  lemma {:induction false} ReplaySplits(b: B.Bolt, a: seq<R.Command>, c: seq<R.Command>)
    ensures Replay(b, a + c) == Replay(Replay(b, a), c)
    decreases |c|
  {
    if c == [] {
      assert a + c == a;
    } else {
      assert (a + c)[..|a + c| - 1] == a + c[..|c| - 1];
      ReplaySplits(b, a, c[..|c| - 1]);
    }
  }

  /** What an entry does to the jobs bucket. */
  function StepJobs(jobs: map<string, Job>, c: R.Command): map<string, Job> {
    match c
    case AddJob(j) => jobs[Itoa(j.id) := j]
    case UpdateJob(j) =>
      var k := Itoa(j.id);
      if k in jobs && IsValidTransition(jobs[k].status, j.status) then jobs[k := j] else jobs
    case DeleteJob(id) => jobs - {Itoa(id)}
    case CancelJob(id) =>
      var k := Itoa(id);
      if k in jobs && !Terminal(jobs[k].status) then jobs[k := jobs[k].(status := Cancelled)] else jobs
    case _ => jobs
  }

  lemma StepOnJobs(b: B.Bolt, c: R.Command)
    ensures Step(b, c).jobs == StepJobs(b.jobs, c)
  {
    match c {
      case AddJob(j) => B.AddEffect(b, Itoa(j.id), j);
      case UpdateJob(_) =>
      case DeleteJob(id) =>
        assert Itoa(id) !in b.jobs ==> b.jobs - {Itoa(id)} == b.jobs;
      case CancelJob(_) =>
      case _ =>
    }
  }

  /** r replays what led s to base: it has the jobs of s, and besides them only ids that are
      held from base because s has yet to add them. */
  ghost predicate JobsReplay(base: map<string, Job>, s: map<string, Job>, r: map<string, Job>) {
    && (forall k :: k in s ==> k in r && r[k] == s[k])
    && (forall k :: k in r && k !in s ==> k in base)
  }

  lemma JobsStep(base: map<string, Job>, s: map<string, Job>, r: map<string, Job>, c: R.Command)
    requires JobsReplay(base, s, r)
    ensures JobsReplay(base, StepJobs(s, c), StepJobs(r, c))
  {
  }

  lemma {:induction false} JobsReplayRun(base: B.Bolt, s: B.Bolt, r: B.Bolt, log: seq<R.Command>)
    requires JobsReplay(base.jobs, s.jobs, r.jobs)
    ensures JobsReplay(base.jobs, Replay(s, log).jobs, Replay(r, log).jobs)
    decreases |log|
  {
    if log != [] {
      var front, c := log[..|log| - 1], log[|log| - 1];
      JobsReplayRun(base, s, r, front);
      JobsStep(base.jobs, Replay(s, front).jobs, Replay(r, front).jobs, c);
      StepOnJobs(Replay(s, front), c);
      StepOnJobs(Replay(r, front), c);
    }
  }

  /** The store after a log with free add ids, and what it simulates. */
  lemma LogSimulates(log: seq<R.Command>)
    requires B.FreshAdds(M.EMPTY, RB.OpsOf(log))
    ensures B.Simulates(R.ApplyLog(M.EMPTY, log), RB.BoltAfter(log)) && Canonical(RB.BoltAfter(log))
  {
    B.RunSimulates(RB.OpsOf(log));
    RB.LogIsWrites(M.EMPTY, log);
  }

  lemma FreshParts(a: seq<R.Command>, c: seq<R.Command>)
    requires B.FreshAdds(M.EMPTY, RB.OpsOf(a + c))
    ensures B.FreshAdds(M.EMPTY, RB.OpsOf(a)) && B.FreshAdds(R.ApplyLog(M.EMPTY, a), RB.OpsOf(c))
  {
    RB.OpsOfConcat(a, c);
    RB.WritesSplit(M.EMPTY, RB.OpsOf(a), RB.OpsOf(c));
    RB.LogIsWrites(M.EMPTY, a);
  }

  lemma RestoreStartsReplay(base: B.Bolt, m: M.Mem, s: B.Bolt, js: seq<Job>)
    requires Canonical(base) && B.Simulates(m, s) && M.ListingOf(js, m.jobs, m.jobs.Keys)
    ensures JobsReplay(base.jobs, s.jobs, Onto(base, js).jobs)
    ensures forall k :: k in Onto(base, js).jobs && k !in s.jobs ==> Kept(base, Onto(base, js), k)
  {
    var r := Onto(base, js);
    RestoreStaysCanonical(base, js);
    forall k | k in s.jobs
      ensures k in r.jobs && r.jobs[k] == s.jobs[k]
    {
      RestoredEntry(base, js, m.jobs, m.jobs.Keys, s.jobs[k].id);
    }
    forall k | k in r.jobs && k !in s.jobs
      ensures Kept(base, r, k) && k in base.jobs
    {
      B.SameLookup(m.jobs, s.jobs, r.jobs[k].id);
      RestoredEntry(base, js, m.jobs, m.jobs.Keys, r.jobs[k].id);
    }
  }

  /** A restart loses no job and changes none: restoring any snapshot of a prefix of the log
      onto the store a node stopped with, and replaying what it had applied since, gives back
      that store's jobs. */
  lemma RestartRecoversJobs(prefix: seq<R.Command>, applied: seq<R.Command>, js: seq<Job>)
    requires B.FreshAdds(M.EMPTY, RB.OpsOf(prefix + applied))
    requires M.ListingOf(js, R.ApplyLog(M.EMPTY, prefix).jobs, R.ApplyLog(M.EMPTY, prefix).jobs.Keys)
    ensures Replay(Onto(RB.BoltAfter(prefix + applied), js), applied).jobs == RB.BoltAfter(prefix + applied).jobs
  {
    var base, s := RB.BoltAfter(prefix + applied), RB.BoltAfter(prefix);
    FreshParts(prefix, applied);
    LogSimulates(prefix);
    LogSimulates(prefix + applied);
    RestoreStartsReplay(base, R.ApplyLog(M.EMPTY, prefix), s, js);
    JobsReplayRun(base, s, Onto(base, js), applied);
    AppliedReachesBase(prefix, applied);
    SameJobs(base.jobs, Replay(Onto(base, js), applied).jobs);
  }

  lemma SameJobs(base: map<string, Job>, r: map<string, Job>)
    requires JobsReplay(base, base, r)
    ensures r == base
  {
  }

  lemma AppliedReachesBase(prefix: seq<R.Command>, applied: seq<R.Command>)
    ensures Replay(RB.BoltAfter(prefix), applied) == RB.BoltAfter(prefix + applied)
  {
    ReplayIsWrites(B.EMPTY, prefix);
    ReplayIsWrites(B.EMPTY, prefix + applied);
    ReplaySplits(B.EMPTY, prefix, applied);
  }

  // ---------- the buckets and the key index ----------

  /** The buckets hold k where its job belongs, and otherwise only where it belongs in base. */
  ghost predicate FiledAt(base: B.Bolt, r: B.Bolt, k: string, st: Status) {
    && (k in r.jobs && r.jobs[k].status == st ==> k in B.Bucket(r, st))
    && (k in B.Bucket(r, st) ==>
          (k in r.jobs && r.jobs[k].status == st) || (k in base.jobs && base.jobs[k].status == st))
  }

  ghost predicate Filed(base: B.Bolt, r: B.Bolt) {
    && (forall st :: st in r.status <==> !st.Other?)
    && (forall k, st: Status :: !st.Other? ==> FiledAt(base, r, k, st))
  }

  lemma AddOnBuckets(r: B.Bolt, k: string, j: Job, x: string, st: Status)
    ensures var t := B.DoAdd(r, k, j).0;
            && (st in t.status <==> st in r.status)
            && (x in B.Bucket(t, st) <==> x in B.Bucket(r, st) || (st in r.status && st == j.status && x == k))
  {
  }

  lemma RefileOnBuckets(r: B.Bolt, k: string, j: Job, x: string, st: Status)
    requires k in r.jobs
    ensures var t := B.Refile(r, k, j);
            && t.jobs == r.jobs[k := j] && (st in t.status <==> st in r.status)
            && (x in B.Bucket(t, st) <==>
                  || (st in r.status && st == j.status && x == k)
                  || (x in B.Bucket(r, st) && !(x == k && st == r.jobs[k].status)))
  {
  }

  lemma DeleteOnBuckets(r: B.Bolt, k: string, x: string, st: Status)
    requires k in r.jobs
    ensures var t := B.DoDelete(r, k).0;
            && t.jobs == r.jobs - {k} && (st in t.status <==> st in r.status)
            && (x in B.Bucket(t, st) <==> x in B.Bucket(r, st) && !(x == k && st == r.jobs[k].status))
  {
  }

  lemma AddFiles(base: B.Bolt, r: B.Bolt, k: string, j: Job)
    requires Filed(base, r) && (k in r.jobs ==> k in base.jobs && r.jobs[k] == base.jobs[k])
    ensures Filed(base, B.DoAdd(r, k, j).0)
  {
    var t := B.DoAdd(r, k, j).0;
    B.AddEffect(r, k, j);
    forall x, st: Status
      ensures st in t.status <==> !st.Other?
      ensures !st.Other? ==> FiledAt(base, t, x, st)
    {
      AddOnBuckets(r, k, j, x, st);
      assert !st.Other? ==> FiledAt(base, r, x, st);
    }
  }

  lemma RefileFiles(base: B.Bolt, r: B.Bolt, k: string, j: Job)
    requires Filed(base, r) && k in r.jobs
    ensures Filed(base, B.Refile(r, k, j))
  {
    var t := B.Refile(r, k, j);
    forall x, st: Status
      ensures st in t.status <==> !st.Other?
      ensures !st.Other? ==> FiledAt(base, t, x, st)
    {
      RefileOnBuckets(r, k, j, x, st);
      assert !st.Other? ==> FiledAt(base, r, x, st);
    }
  }

  lemma DeleteFiles(base: B.Bolt, r: B.Bolt, k: string)
    requires Filed(base, r) && k in r.jobs
    ensures Filed(base, B.DoDelete(r, k).0)
  {
    var t := B.DoDelete(r, k).0;
    forall x, st: Status
      ensures st in t.status <==> !st.Other?
      ensures !st.Other? ==> FiledAt(base, t, x, st)
    {
      DeleteOnBuckets(r, k, x, st);
      assert !st.Other? ==> FiledAt(base, r, x, st);
    }
  }

  /** What an entry does to the key index, given the jobs it finds. */
  function StepKeys(jobs: map<string, Job>, keys: map<string, string>, c: R.Command): map<string, string> {
    match c
    case AddJob(j) => if j.key != "" then keys[j.key := Itoa(j.id)] else keys
    case DeleteJob(id) =>
      var k := Itoa(id);
      if k in jobs && jobs[k].key != "" then keys - {jobs[k].key} else keys
    case _ => keys
  }

  lemma StepOnKeys(b: B.Bolt, c: R.Command)
    ensures Step(b, c).keys == StepKeys(b.jobs, b.keys, c) && Step(b, c).dlq == b.dlq
  {
    if c.AddJob? {
      B.AddEffect(b, Itoa(c.j.id), c.j);
    }
  }

  /** The keys of s, and besides them only keys of base. */
  ghost predicate KeysReplay(base: map<string, string>, s: map<string, string>, r: map<string, string>) {
    && (forall key :: key in s ==> key in r && r[key] == s[key])
    && (forall key :: key in r && key !in s ==> key in base)
  }

  /** As JobsReplay, but what is held from base is unchanged; likewise buckets and keys. */
  ghost predicate Replays(base: B.Bolt, s: B.Bolt, r: B.Bolt) {
    && JobsReplay(base.jobs, s.jobs, r.jobs) && Filed(base, r) && r.dlq == base.dlq
    && (forall k :: k in r.jobs && k !in s.jobs ==> k in base.jobs && r.jobs[k] == base.jobs[k])
    && KeysReplay(base.keys, s.keys, r.keys)
  }

  /** Every entry speaks of a job that is there: an update, a deletion or a cancellation of a
      stored job, an add of a free id. */
  ghost predicate Addressed(s: B.Bolt, c: R.Command) {
    match c
    case AddJob(j) => Itoa(j.id) !in s.jobs
    case UpdateJob(j) => Itoa(j.id) in s.jobs
    case DeleteJob(id) => Itoa(id) in s.jobs
    case CancelJob(id) => Itoa(id) in s.jobs
    case _ => true
  }

  ghost predicate AddressedLog(s: B.Bolt, log: seq<R.Command>)
    decreases |log|
  {
    log == [] || (AddressedLog(s, log[..|log| - 1]) && Addressed(Replay(s, log[..|log| - 1]), log[|log| - 1]))
  }

  lemma StepFiles(base: B.Bolt, s: B.Bolt, r: B.Bolt, c: R.Command)
    requires Replays(base, s, r) && Addressed(s, c)
    ensures Filed(base, Step(r, c))
  {
    match c {
      case AddJob(j) => AddFiles(base, r, Itoa(j.id), j);
      case UpdateJob(j) => RefileFiles(base, r, Itoa(j.id), j);
      case DeleteJob(id) => DeleteFiles(base, r, Itoa(id));
      case CancelJob(id) => RefileFiles(base, r, Itoa(id), r.jobs[Itoa(id)].(status := Cancelled));
      case _ =>
    }
  }

  lemma StepHolds(base: map<string, Job>, s: B.Bolt, r: map<string, Job>, c: R.Command)
    requires JobsReplay(base, s.jobs, r) && Addressed(s, c)
    requires forall k :: k in r && k !in s.jobs ==> k in base && r[k] == base[k]
    ensures forall k :: k in StepJobs(r, c) && k !in StepJobs(s.jobs, c) ==> k in base && StepJobs(r, c)[k] == base[k]
  {
  }

  lemma StepReplaysKeys(base: map<string, string>, s: B.Bolt, r: B.Bolt, c: R.Command)
    requires KeysReplay(base, s.keys, r.keys) && Addressed(s, c)
    requires forall k :: k in s.jobs ==> k in r.jobs && r.jobs[k] == s.jobs[k]
    ensures KeysReplay(base, StepKeys(s.jobs, s.keys, c), StepKeys(r.jobs, r.keys, c))
  {
  }

  lemma ReplayStep(base: B.Bolt, s: B.Bolt, r: B.Bolt, c: R.Command)
    requires Replays(base, s, r) && Addressed(s, c)
    ensures Replays(base, Step(s, c), Step(r, c))
  {
    StepFiles(base, s, r, c);
    JobsStep(base.jobs, s.jobs, r.jobs, c);
    StepHolds(base.jobs, s, r.jobs, c);
    StepReplaysKeys(base.keys, s, r, c);
    StepOnJobs(s, c);
    StepOnJobs(r, c);
    StepOnKeys(s, c);
    StepOnKeys(r, c);
  }

  lemma {:induction false} ReplayRun(base: B.Bolt, s: B.Bolt, r: B.Bolt, log: seq<R.Command>)
    requires Replays(base, s, r) && AddressedLog(s, log)
    ensures Replays(base, Replay(s, log), Replay(r, log))
    decreases |log|
  {
    if log != [] {
      ReplayRun(base, s, r, log[..|log| - 1]);
      ReplayStep(base, Replay(s, log[..|log| - 1]), Replay(r, log[..|log| - 1]), log[|log| - 1]);
    }
  }

  lemma SameBuckets(base: B.Bolt, r: B.Bolt)
    requires Filed(base, r) && r.jobs == base.jobs && B.BucketsExact(base)
    ensures r.status == base.status
  {
    forall st | st in r.status
      ensures st in base.status && r.status[st] == base.status[st]
    {
      forall k
        ensures k in r.status[st] <==> k in base.status[st]
      {
        assert FiledAt(base, r, k, st);
        assert k in base.status[st] <==> k in base.jobs && base.jobs[k].status == st;
      }
    }
  }

  /** A finished replay is where it started from. */
  lemma ReplayEnds(base: B.Bolt, r: B.Bolt)
    requires Replays(base, base, r) && B.BucketsExact(base)
    ensures r == base
  {
    SameJobs(base.jobs, r.jobs);
    SameBuckets(base, r);
    assert r.keys == base.keys;
  }

  /** A restore sets the keys of its jobs and leaves the others. */
  lemma {:induction false} RestoredKey(b: B.Bolt, js: seq<Job>, key: string)
    ensures (forall j :: j in js ==> j.key != key) ==>
              (key in Onto(b, js).keys <==> key in b.keys)
    ensures key != "" && (exists j :: j in js && j.key == key) ==>
              key in Onto(b, js).keys && exists j :: j in js && j.key == key && Onto(b, js).keys[key] == Itoa(j.id)
    ensures key == "" ==> (key in Onto(b, js).keys <==> key in b.keys)
    decreases |js|
  {
    if js != [] {
      var front, last := js[..|js| - 1], js[|js| - 1];
      assert js == front + [last];
      RestoredKey(b, front, key);
      OntoSnoc(b, js);
      B.AddEffect(Onto(b, front), Itoa(last.id), last);
    }
  }

  lemma RestoredKeys(base: B.Bolt, m: M.Mem, s: B.Bolt, js: seq<Job>, key: string)
    requires B.Simulates(m, s) && M.KeysExact(m) && M.ListingOf(js, m.jobs, m.jobs.Keys)
    ensures key in s.keys ==> key in Onto(base, js).keys && Onto(base, js).keys[key] == s.keys[key]
    ensures key in Onto(base, js).keys && key !in s.keys ==> key in base.keys
  {
    RestoredKey(base, js, key);
    M.ListingMembers(js, m.jobs, m.jobs.Keys);
    if key in s.keys {
      var id := m.keys[key];
      assert m.jobs[id] in js && m.jobs[id].key == key;
      assert forall j :: j in js && j.key == key ==> j.id == id;
    } else {
      assert forall j :: j in js && j.key == key && key != "" ==> key in m.keys;
    }
  }

  lemma RestoredFiledAt(base: B.Bolt, m: M.Mem, js: seq<Job>, k: string, st: Status)
    requires Canonical(base) && B.BucketsExact(base) && M.IndexExact(m) && !st.Other?
    requires M.ListingOf(js, m.jobs, m.jobs.Keys)
    requires k in Onto(base, js).jobs || k in B.Bucket(Onto(base, js), st)
    requires k in Onto(base, js).jobs ==> k == Itoa(Onto(base, js).jobs[k].id)
    ensures FiledAt(base, Onto(base, js), k, st)
  {
    var r := Onto(base, js);
    assert st in base.status;
    assert k in base.status[st] <==> k in base.jobs && base.jobs[k].status == st;
    if k in r.jobs {
      RestoredEntry(base, js, m.jobs, m.jobs.Keys, r.jobs[k].id);
    } else {
      BucketsHoldKeys(base, js, k, st);
    }
  }

  lemma {:induction false} BucketsHoldKeys(b: B.Bolt, js: seq<Job>, k: string, st: Status)
    ensures k in B.Bucket(Onto(b, js), st) ==> k in B.Bucket(b, st) || k in Onto(b, js).jobs
    ensures k in b.jobs ==> k in Onto(b, js).jobs
    decreases |js|
  {
    if js != [] {
      BucketsHoldKeys(b, js[..|js| - 1], k, st);
      OntoSnoc(b, js);
      AddOnBuckets(Onto(b, js[..|js| - 1]), Itoa(js[|js| - 1].id), js[|js| - 1], k, st);
    }
  }

  lemma RestoredBuckets(base: B.Bolt, m: M.Mem, js: seq<Job>)
    requires Canonical(base) && B.BucketsExact(base) && M.IndexExact(m) && M.ListingOf(js, m.jobs, m.jobs.Keys)
    ensures Filed(base, Onto(base, js))
  {
    var r := Onto(base, js);
    RestoreStaysCanonical(base, js);
    RestoredEntry(base, js, m.jobs, m.jobs.Keys, 0);
    forall st: Status
      ensures st in r.status <==> !st.Other?
    {
      assert st in r.status.Keys <==> st in base.status.Keys;
    }
    forall k, st: Status | !st.Other?
      ensures FiledAt(base, r, k, st)
    {
      if k in r.jobs || k in B.Bucket(r, st) {
        RestoredFiledAt(base, m, js, k, st);
      }
    }
  }

  lemma RestoreStarts(base: B.Bolt, m: M.Mem, s: B.Bolt, js: seq<Job>)
    requires Canonical(base) && B.BucketsExact(base) && B.Simulates(m, s)
    requires M.KeysExact(m) && M.ListingOf(js, m.jobs, m.jobs.Keys)
    ensures Replays(base, s, Onto(base, js))
  {
    RestoreStartsReplay(base, m, s, js);
    RestoreStaysCanonical(base, js);
    RestoredBuckets(base, m, js);
    forall key
      ensures key in s.keys ==> key in Onto(base, js).keys && Onto(base, js).keys[key] == s.keys[key]
      ensures key in Onto(base, js).keys && key !in s.keys ==> key in base.keys
    {
      RestoredKeys(base, m, s, js, key);
    }
  }

  lemma PrefixSimulates(prefix: seq<R.Command>, applied: seq<R.Command>)
    requires B.FreshAdds(M.EMPTY, RB.OpsOf(prefix + applied))
    ensures B.Simulates(R.ApplyLog(M.EMPTY, prefix), RB.BoltAfter(prefix))
  {
    FreshParts(prefix, applied);
    LogSimulates(prefix);
  }

  lemma PrefixKeysExact(prefix: seq<R.Command>)
    requires R.KeyDisciplined(M.EMPTY, prefix)
    ensures M.KeysExact(R.ApplyLog(M.EMPTY, prefix))
  {
    assert M.IndexExact(M.EMPTY) && M.KeysExact(M.EMPTY);
    R.LogKeepsIndexes(M.EMPTY, prefix);
  }

  lemma SnapshotOfPrefix(prefix: seq<R.Command>, applied: seq<R.Command>, js: seq<Job>)
    requires B.FreshAdds(M.EMPTY, RB.OpsOf(prefix + applied)) && R.KeyDisciplined(M.EMPTY, prefix)
    requires M.ListingOf(js, R.ApplyLog(M.EMPTY, prefix).jobs, R.ApplyLog(M.EMPTY, prefix).jobs.Keys)
    ensures var base := RB.BoltAfter(prefix + applied);
            Replays(base, RB.BoltAfter(prefix), Onto(base, js)) && B.BucketsExact(base)
  {
    PrefixSimulates(prefix, applied);
    PrefixKeysExact(prefix);
    LogSimulates(prefix + applied);
    RestoreStarts(RB.BoltAfter(prefix + applied), R.ApplyLog(M.EMPTY, prefix), RB.BoltAfter(prefix), js);
  }

  /** A restart recovers the whole store: jobs, buckets and keys. For a log whose entries
      speak of jobs that are there and whose prefix is key-disciplined, restoring any snapshot
      of the prefix onto the store a node stopped with and replaying what it had applied
      since gives back that store, and it goes on from there with the rest of the log. */
  lemma RestartRecovers(prefix: seq<R.Command>, applied: seq<R.Command>, rest: seq<R.Command>, js: seq<Job>)
    requires B.FreshAdds(M.EMPTY, RB.OpsOf(prefix + applied)) && R.KeyDisciplined(M.EMPTY, prefix)
    requires AddressedLog(RB.BoltAfter(prefix), applied)
    requires M.ListingOf(js, R.ApplyLog(M.EMPTY, prefix).jobs, R.ApplyLog(M.EMPTY, prefix).jobs.Keys)
    ensures Replay(Onto(RB.BoltAfter(prefix + applied), js), applied) == RB.BoltAfter(prefix + applied)
    ensures Replay(Onto(RB.BoltAfter(prefix + applied), js), applied + rest) == RB.BoltAfter(prefix + applied + rest)
  {
    var base := RB.BoltAfter(prefix + applied);
    SnapshotOfPrefix(prefix, applied, js);
    ReplayRun(base, RB.BoltAfter(prefix), Onto(base, js), applied);
    AppliedReachesBase(prefix, applied);
    ReplayEnds(base, Replay(Onto(base, js), applied));
    ReplaySplits(Onto(base, js), applied, rest);
    AppliedReachesBase(prefix + applied, rest);
  }

  lemma TwoEntries(b: B.Bolt, c: R.Command, d: R.Command)
    ensures Replay(b, [c, d]) == Step(Step(b, c), d)
  {
    assert [c, d][..1] == [c] && [c][..0] == [];
    assert Replay(b, [c]) == Step(b, c);
  }

  lemma MisfiledByReplay(base: B.Bolt, j: Job)
    requires Itoa(j.id) in base.jobs && base.jobs[Itoa(j.id)].status == Pending && Cancelled in base.status
    ensures j in B.Listed(Step(Step(base, R.CancelJob(j.id)), R.AddJob(j)), Cancelled)
  {
    var k := Itoa(j.id);
    var cancelled := B.Refile(base, k, base.jobs[k].(status := Cancelled));
    assert Step(base, R.CancelJob(j.id)) == cancelled;
    RefileOnBuckets(base, k, base.jobs[k].(status := Cancelled), k, Cancelled);
    AddOnBuckets(cancelled, k, j, k, Cancelled);
    B.AddEffect(cancelled, k, j);
    assert Step(cancelled, R.AddJob(j)).jobs[k] == j;
  }

  lemma FiledOnce(j: Job)
    requires j.status == Pending
    ensures var base := Step(Step(B.EMPTY, R.CancelJob(j.id)), R.AddJob(j));
            && base.jobs == map[Itoa(j.id) := j] && Cancelled in base.status && B.Listed(base, Cancelled) == {}
  {
    var k := Itoa(j.id);
    var base := Step(Step(B.EMPTY, R.CancelJob(j.id)), R.AddJob(j));
    assert Step(B.EMPTY, R.CancelJob(j.id)) == B.EMPTY;
    assert base == B.DoAdd(B.EMPTY, k, j).0;
    B.AddEffect(B.EMPTY, k, j);
    forall x
      ensures x !in B.Bucket(base, Cancelled) && Cancelled in base.status
    {
      AddOnBuckets(B.EMPTY, k, j, x, Cancelled);
    }
  }

  /** The condition on entries is needed: the engine proposes cancellations unchecked. A
      cancellation refused because its id is not in use yet meets, on the replay, the job that
      the log adds later, and leaves it listed as Cancelled as well. */
  lemma RestartCanMisfile(j: Job)
    requires j.status == Pending
    ensures var log := [R.CancelJob(j.id), R.AddJob(j)];
            var base := RB.BoltAfter(log);
            j !in B.Listed(base, Cancelled) && j in B.Listed(Replay(Onto(base, []), log), Cancelled)
  {
    var log := [R.CancelJob(j.id), R.AddJob(j)];
    ReplayIsWrites(B.EMPTY, log);
    TwoEntries(B.EMPTY, log[0], log[1]);
    FiledOnce(j);
    TwoEntries(RB.BoltAfter(log), log[0], log[1]);
    MisfiledByReplay(RB.BoltAfter(log), j);
    assert Onto(RB.BoltAfter(log), []) == RB.BoltAfter(log);
  }
}
