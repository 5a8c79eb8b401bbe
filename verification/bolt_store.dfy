/** BoltStore (internal/store/bolt_store.go): the same operations over buckets keyed by
    strings, one bucket per named status, each call one transaction; and its simulation
    of MemoryStore. */
module BoltStores {
  import opened Jobs
  import opened Text
  import M = MemoryStores

  datatype Bolt = Bolt(
    jobs: map<string, Job>,
    dlq: map<string, Job>,
    keys: map<string, string>,
    status: map<Status, set<string>>)

  /** The statuses that have a bucket of their own. */
  const NAMED: set<Status> := {Pending, Scheduled, Completed, Failed, Cancelled}

  const EMPTY := Bolt(map[], map[], map[], map st | st in NAMED :: {})

  /** The status bucket; an unnamed status has none and reads as empty. */
  function Bucket(b: Bolt, st: Status): set<string> {
    if st in b.status then b.status[st] else {}
  }

  function WithBucket(b: Bolt, st: Status, ks: set<string>): (r: Bolt)
    ensures r == b.(status := r.status)
  {
    if st in b.status then b.(status := b.status[st := ks]) else b
  }

  function AddToBucket(b: Bolt, st: Status, k: string): (r: Bolt)
    ensures r == b.(status := r.status)
  {
    WithBucket(b, st, Bucket(b, st) + {k})
  }

  function RemoveFromBucket(b: Bolt, st: Status, k: string): (r: Bolt)
    ensures r == b.(status := r.status)
  {
    WithBucket(b, st, Bucket(b, st) - {k})
  }

  function PutJob(b: Bolt, k: string, j: Job): Bolt {
    b.(jobs := b.jobs[k := j])
  }

  /** Overwrites the entry under k and moves it to the bucket of its new status. */
  function Refile(b: Bolt, k: string, j: Job): Bolt
    requires k in b.jobs
  {
    AddToBucket(PutJob(RemoveFromBucket(b, b.jobs[k].status, k), k, j), j.status, k)
  }

  // ---------- the transactions, given the database key of the job they touch ----------

  function DoAdd(b: Bolt, k: string, j: Job): (Bolt, bool) {
    var b1 := PutJob(b, k, j);
    var b2 := if j.key != "" then b1.(keys := b1.keys[j.key := k]) else b1;
    (AddToBucket(b2, j.status, k), true)
  }

  function DoUpdate(b: Bolt, k: string, j: Job): (Bolt, bool) {
    if k !in b.jobs || !IsValidTransition(b.jobs[k].status, j.status) then (b, false)
    else (Refile(b, k, j), true)
  }

  function DoDelete(b: Bolt, k: string): (Bolt, bool) {
    if k !in b.jobs then (b, false)
    else
      var j := b.jobs[k];
      var b1 := RemoveFromBucket(b, j.status, k);
      var b2 := if j.key != "" then b1.(keys := b1.keys - {j.key}) else b1;
      (b2.(jobs := b2.jobs - {k}), true)
  }

  function DoCancel(b: Bolt, k: string): (Bolt, bool) {
    if k !in b.jobs || Terminal(b.jobs[k].status) then (b, false)
    else (Refile(b, k, b.jobs[k].(status := Cancelled)), true)
  }

  function DoAddDLQ(b: Bolt, k: string, j: Job): (Bolt, bool) {
    (b.(dlq := b.dlq[k := j]), true)
  }

  function Apply(b: Bolt, op: M.Op): (Bolt, bool) {
    match op
    case Add(j) => DoAdd(b, Itoa(j.id), j)
    case Update(j) => DoUpdate(b, Itoa(j.id), j)
    case Delete(id) => DoDelete(b, Itoa(id))
    case Cancel(id) => DoCancel(b, Itoa(id))
    case AddDLQ(j) => DoAddDLQ(b, Itoa(j.id), j)
  }

  function ApplyAll(b: Bolt, ops: seq<M.Op>): Bolt
    decreases |ops|
  {
    if ops == [] then b else Apply(ApplyAll(b, ops[..|ops| - 1]), ops[|ops| - 1]).0
  }

  function Get(b: Bolt, id: JobId): Option<Job> {
    if Itoa(id) in b.jobs then Some(b.jobs[Itoa(id)]) else None
  }

  function Listed(b: Bolt, st: Status): set<Job> {
    set k | k in Bucket(b, st) && k in b.jobs :: b.jobs[k]
  }

  function Find(b: Bolt, key: string): Option<Job> {
    if key == "" || key !in b.keys then None
    else match ParseInt(b.keys[key])
         case None => None
         case Some(id) => if id < 0 then None else Get(b, id)
  }

  // ---------- index buckets ----------

  /** Every named status bucket holds exactly the entries whose job has that status. */
  ghost predicate BucketsExact(b: Bolt) {
    && (forall st :: st in b.status <==> !st.Other?)
    && (forall st, k :: st in b.status ==> (k in b.status[st] <==> k in b.jobs && b.jobs[k].status == st))
  }

  /** An Add may overwrite; it leaves a stale index entry exactly when it replaces a job
      by one of another status (unless the replaced status has no bucket). */
  lemma AddKeepsBucketsIff(b: Bolt, k: string, j: Job)
    requires BucketsExact(b)
    ensures BucketsExact(DoAdd(b, k, j).0) <==>
            (k in b.jobs ==> b.jobs[k].status == j.status || b.jobs[k].status.Other?)
  {
    var r := DoAdd(b, k, j).0;
    if k in b.jobs && b.jobs[k].status != j.status && !b.jobs[k].status.Other? {
      var st := b.jobs[k].status;
      assert st in b.status && k in b.status[st];
      assert k in r.status[st] && r.jobs[k].status != st;
    } else {
      forall st, x | st in r.status
        ensures x in r.status[st] <==> x in r.jobs && r.jobs[x].status == st
      {
        assert st in b.status;
        assert x in b.status[st] <==> x in b.jobs && b.jobs[x].status == st;
      }
    }
  }

  /** Exact but for k, which no bucket holds. */
  ghost predicate ExactApart(b: Bolt, k: string) {
    && (forall st :: st in b.status <==> !st.Other?)
    && (forall st, x :: st in b.status ==>
          (x in b.status[st] <==> x != k && x in b.jobs && b.jobs[x].status == st))
  }

  lemma RemoveUnfiles(b: Bolt, k: string)
    requires BucketsExact(b) && k in b.jobs
    ensures ExactApart(RemoveFromBucket(b, b.jobs[k].status, k), k)
  {
    var r := RemoveFromBucket(b, b.jobs[k].status, k);
    forall st, x | st in r.status
      ensures x in r.status[st] <==> x != k && x in r.jobs && r.jobs[x].status == st
    {
      assert st in b.status;
      assert x in b.status[st] <==> x in b.jobs && b.jobs[x].status == st;
    }
  }

  /** Update and Cancel move an entry without leaving a trace in the old bucket. */
  lemma RefileKeepsBuckets(b: Bolt, k: string, j: Job)
    requires BucketsExact(b) && k in b.jobs
    ensures BucketsExact(Refile(b, k, j))
  {
    RemoveUnfiles(b, k);
    var u := RemoveFromBucket(b, b.jobs[k].status, k);
    var r := Refile(b, k, j);
    forall st, x | st in r.status
      ensures x in r.status[st] <==> x in r.jobs && r.jobs[x].status == st
    {
      assert st in u.status;
      assert x in u.status[st] <==> x != k && x in u.jobs && u.jobs[x].status == st;
    }
  }

  lemma DeleteKeepsBuckets(b: Bolt, k: string)
    requires BucketsExact(b)
    ensures BucketsExact(DoDelete(b, k).0)
  {
    if k in b.jobs {
      RemoveUnfiles(b, k);
      var u, r := RemoveFromBucket(b, b.jobs[k].status, k), DoDelete(b, k).0;
      assert r.status == u.status;
      forall st, x | st in r.status
        ensures x in r.status[st] <==> x in r.jobs && r.jobs[x].status == st
      {
        assert x in u.status[st] <==> x != k && x in u.jobs && u.jobs[x].status == st;
      }
    }
  }

  // ---------- simulation ----------

  /** The same jobs, filed under their number on one side and its decimal form on the other. */
  ghost predicate SameEntries(m: map<JobId, Job>, b: map<string, Job>) {
    && (forall k :: k in b ==> b[k].id in m && k == Itoa(b[k].id))
    && (forall id :: id in m ==> m[id].id == id && Itoa(id) in b && b[Itoa(id)] == m[id])
  }

  ghost predicate SameKeys(m: map<string, JobId>, b: map<string, string>) {
    m.Keys == b.Keys && forall k :: k in m ==> b[k] == Itoa(m[k])
  }

  /** Jobs, dead letters and key index agree. */
  ghost predicate InStep(m: M.Mem, b: Bolt) {
    && SameEntries(m.jobs, b.jobs)
    && SameEntries(m.dlq, b.dlq)
    && SameKeys(m.keys, b.keys)
  }

  ghost predicate Simulates(m: M.Mem, b: Bolt) {
    M.IndexExact(m) && BucketsExact(b) && InStep(m, b)
  }

  lemma SameLookup(m: map<JobId, Job>, b: map<string, Job>, id: JobId)
    requires SameEntries(m, b)
    ensures id in m <==> Itoa(id) in b
  {
    if Itoa(id) in b {
      ItoaInjective(id, b[Itoa(id)].id);
    }
  }

  lemma PutSame(m: map<JobId, Job>, b: map<string, Job>, j: Job)
    requires SameEntries(m, b)
    ensures SameEntries(m[j.id := j], b[Itoa(j.id) := j])
  {
    forall id | id in m
      ensures Itoa(id) == Itoa(j.id) <==> id == j.id
    {
      ItoaInjective(id, j.id);
    }
  }

  lemma RemoveSame(m: map<JobId, Job>, b: map<string, Job>, id: JobId)
    requires SameEntries(m, b)
    ensures SameEntries(m - {id}, b - {Itoa(id)})
  {
    forall i | i in m
      ensures Itoa(i) == Itoa(id) <==> i == id
    {
      ItoaInjective(i, id);
    }
  }

  lemma DeleteInStep(m: M.Mem, b: Bolt, id: JobId)
    requires InStep(m, b)
    ensures M.DoDelete(m, id).1 == DoDelete(b, Itoa(id)).1
    ensures InStep(M.DoDelete(m, id).0, DoDelete(b, Itoa(id)).0)
  {
    SameLookup(m.jobs, b.jobs, id);
    RemoveSame(m.jobs, b.jobs, id);
  }

  lemma CancelInStep(m: M.Mem, b: Bolt, id: JobId)
    requires InStep(m, b)
    ensures M.DoCancel(m, id).1 == DoCancel(b, Itoa(id)).1
    ensures InStep(M.DoCancel(m, id).0, DoCancel(b, Itoa(id)).0)
  {
    SameLookup(m.jobs, b.jobs, id);
    if id in m.jobs {
      PutSame(m.jobs, b.jobs, m.jobs[id].(status := Cancelled));
    }
  }

  lemma AddInStep(m: M.Mem, b: Bolt, j: Job)
    requires InStep(m, b) && j.id !in m.jobs
    ensures InStep(M.DoAdd(m, j).0, DoAdd(b, Itoa(j.id), j).0)
  {
    PutSame(m.jobs, b.jobs, j);
    PutSameKey(m.keys, b.keys, j.key, j.id, Itoa(j.id));
    AddEffect(b, Itoa(j.id), j);
  }

  lemma PutSameKey(m: map<string, JobId>, b: map<string, string>, key: string, id: JobId, k: string)
    requires SameKeys(m, b) && k == Itoa(id)
    ensures SameKeys(m[key := id], b[key := k])
  {
  }

  lemma AddEffect(b: Bolt, k: string, j: Job)
    ensures var r := DoAdd(b, k, j).0;
            && r.jobs == b.jobs[k := j] && r.dlq == b.dlq
            && r.keys == if j.key != "" then b.keys[j.key := k] else b.keys
  {
  }

  lemma UpdateInStep(m: M.Mem, b: Bolt, j: Job)
    requires InStep(m, b)
    ensures M.DoUpdate(m, j).1 == DoUpdate(b, Itoa(j.id), j).1
    ensures InStep(M.DoUpdate(m, j).0, DoUpdate(b, Itoa(j.id), j).0)
  {
    SameLookup(m.jobs, b.jobs, j.id);
    PutSame(m.jobs, b.jobs, j);
  }

  lemma StayInStep(m: M.Mem, b: Bolt, op: M.Op)
    requires InStep(m, b)
    requires op.Add? ==> op.j.id !in m.jobs
    ensures M.Apply(m, op).1 == Apply(b, op).1
    ensures InStep(M.Apply(m, op).0, Apply(b, op).0)
  {
    match op {
      case Add(j) => AddInStep(m, b, j);
      case Update(j) => UpdateInStep(m, b, j);
      case Delete(id) => DeleteInStep(m, b, id);
      case Cancel(id) => CancelInStep(m, b, id);
      case AddDLQ(j) => PutSame(m.dlq, b.dlq, j);
    }
  }

  lemma ApplyKeepsBuckets(b: Bolt, op: M.Op)
    requires BucketsExact(b)
    requires op.Add? ==> Itoa(op.j.id) !in b.jobs
    ensures BucketsExact(Apply(b, op).0)
  {
    match op {
      case Add(j) => AddKeepsBucketsIff(b, Itoa(j.id), j);
      case Update(j) =>
        if Itoa(j.id) in b.jobs {
          RefileKeepsBuckets(b, Itoa(j.id), j);
        }
      case Delete(id) => DeleteKeepsBuckets(b, Itoa(id));
      case Cancel(id) =>
        if Itoa(id) in b.jobs {
          RefileKeepsBuckets(b, Itoa(id), b.jobs[Itoa(id)].(status := Cancelled));
        }
      case AddDLQ(_) =>
    }
  }

  /** One write: same success flag and still in step, as long as an Add uses a free id. */
  lemma SimulationStep(m: M.Mem, b: Bolt, op: M.Op)
    requires Simulates(m, b)
    requires op.Add? ==> op.j.id !in m.jobs
    ensures M.Apply(m, op).1 == Apply(b, op).1
    ensures Simulates(M.Apply(m, op).0, Apply(b, op).0)
  {
    if op.Add? {
      SameLookup(m.jobs, b.jobs, op.j.id);
    }
    M.ApplyKeepsIndex(m, op);
    ApplyKeepsBuckets(b, op);
    StayInStep(m, b, op);
  }

  /** Every Add of the sequence finds its id free. */
  ghost predicate FreshAdds(m: M.Mem, ops: seq<M.Op>)
    decreases |ops|
  {
    ops == [] ||
    (var front := ops[..|ops| - 1];
     var op := ops[|ops| - 1];
     FreshAdds(m, front) && (op.Add? ==> op.j.id !in M.ApplyAll(m, front).jobs))
  }

  /** Single-job reads agree. */
  lemma SameLookups(m: M.Mem, b: Bolt, id: JobId, key: string)
    requires InStep(m, b)
    ensures Get(b, id) == if id in m.jobs then Some(m.jobs[id]) else None
    ensures Find(b, key) == M.Find(m, key)
  {
    SameLookup(m.jobs, b.jobs, id);
    if key in m.keys {
      ItoaRoundTrip(m.keys[key]);
      SameLookup(m.jobs, b.jobs, m.keys[key]);
    }
  }

  /** Listings agree as sets. An unnamed status is the one exception: only the memory
      store indexes it, so the answers agree exactly when no job carries it. */
  lemma SameListingsIff(m: M.Mem, b: Bolt, st: Status)
    requires Simulates(m, b)
    ensures Listed(b, st) == M.Listed(m, st) <==>
            (st.Other? ==> forall i :: i in m.jobs ==> m.jobs[i].status != st)
  {
    if st.Other? {
      forall i | i in m.jobs && m.jobs[i].status == st
        ensures m.jobs[i] in M.Listed(m, st)
      {
        assert i in M.Ids(m, st);
      }
      assert forall i :: i in M.Ids(m, st) ==> i in m.jobs && m.jobs[i].status == st;
    } else {
      assert st in b.status;
      forall j | j in Listed(b, st)
        ensures j in M.Listed(m, st)
      {
        var k :| k in Bucket(b, st) && k in b.jobs && b.jobs[k] == j;
        assert j.id in M.Ids(m, st);
      }
      forall j | j in M.Listed(m, st)
        ensures j in Listed(b, st)
      {
        var i :| i in M.Ids(m, st) && i in m.jobs && m.jobs[i] == j;
        assert Itoa(i) in b.status[st];
      }
    }
  }

  /** The two stores are observationally equal over every sequence of writes whose Adds
      use free ids: same flags all along, same answers at the end, indexes exact. */
  lemma {:induction false} StoresAgree(ops: seq<M.Op>, n: nat, id: JobId, key: string, st: Status)
    requires FreshAdds(M.EMPTY, ops) && n < |ops|
    ensures M.Apply(M.ApplyAll(M.EMPTY, ops[..n]), ops[n]).1 == Apply(ApplyAll(EMPTY, ops[..n]), ops[n]).1
    ensures Simulates(M.ApplyAll(M.EMPTY, ops), ApplyAll(EMPTY, ops))
    ensures Get(ApplyAll(EMPTY, ops), id) ==
            if id in M.ApplyAll(M.EMPTY, ops).jobs then Some(M.ApplyAll(M.EMPTY, ops).jobs[id]) else None
    ensures Find(ApplyAll(EMPTY, ops), key) == M.Find(M.ApplyAll(M.EMPTY, ops), key)
    ensures !st.Other? ==> Listed(ApplyAll(EMPTY, ops), st) == M.Listed(M.ApplyAll(M.EMPTY, ops), st)
  {
    RunSimulates(ops);
    FreshPrefix(M.EMPTY, ops, n + 1);
    var front := ops[..n + 1];
    assert front[..n] == ops[..n] && front[n] == ops[n];
    RunSimulates(ops[..n]);
    SimulationStep(M.ApplyAll(M.EMPTY, ops[..n]), ApplyAll(EMPTY, ops[..n]), ops[n]);
    SameLookups(M.ApplyAll(M.EMPTY, ops), ApplyAll(EMPTY, ops), id, key);
    SameListingsIff(M.ApplyAll(M.EMPTY, ops), ApplyAll(EMPTY, ops), st);
  }

  lemma {:induction false} RunSimulates(ops: seq<M.Op>)
    requires FreshAdds(M.EMPTY, ops)
    ensures Simulates(M.ApplyAll(M.EMPTY, ops), ApplyAll(EMPTY, ops))
    decreases |ops|
  {
    if ops == [] {
      assert M.IndexExact(M.EMPTY) && BucketsExact(EMPTY);
    } else {
      var front := ops[..|ops| - 1];
      RunSimulates(front);
      SimulationStep(M.ApplyAll(M.EMPTY, front), ApplyAll(EMPTY, front), ops[|ops| - 1]);
    }
  }

  lemma {:induction false} FreshPrefix(m: M.Mem, ops: seq<M.Op>, n: nat)
    requires FreshAdds(m, ops) && n <= |ops|
    ensures FreshAdds(m, ops[..n])
    decreases |ops|
  {
    if n == |ops| {
      assert ops[..n] == ops;
    } else {
      FreshPrefix(m, ops[..|ops| - 1], n);
      assert ops[..|ops| - 1][..n] == ops[..n];
    }
  }

  lemma TakenAddInStepIff(m: M.Mem, b: Bolt, j: Job)
    requires InStep(m, b) && j.id in m.jobs
    ensures InStep(m, DoAdd(b, Itoa(j.id), j).0) <==>
            m.jobs[j.id] == j && (j.key == "" || (j.key in m.keys && m.keys[j.key] == j.id))
  {
    var k, b' := Itoa(j.id), DoAdd(b, Itoa(j.id), j).0;
    assert b'.jobs == b.jobs[k := j] && k in b.jobs && b.jobs[k] == m.jobs[j.id];
    if j.key != "" && j.key in m.keys {
      ItoaInjective(m.keys[j.key], j.id);
    }
    if m.jobs[j.id] == j {
      assert b'.jobs == b.jobs;
    }
  }

  /** The free-id condition is exact. On a taken id only Bolt reports success, and the stores
      still agree on their contents exactly when the add repeats the stored job under a key
      the index gives to it. */
  lemma AddAgreesIff(m: M.Mem, b: Bolt, j: Job)
    requires Simulates(m, b)
    ensures M.DoAdd(m, j).1 == DoAdd(b, Itoa(j.id), j).1 <==> j.id !in m.jobs
    ensures InStep(M.DoAdd(m, j).0, DoAdd(b, Itoa(j.id), j).0) <==>
            || j.id !in m.jobs
            || (m.jobs[j.id] == j && (j.key == "" || (j.key in m.keys && m.keys[j.key] == j.id)))
  {
    if j.id in m.jobs {
      TakenAddInStepIff(m, b, j);
    } else {
      AddInStep(m, b, j);
    }
  }

  // ---------- the object: each method body is one transaction ----------

  class BoltStore {
    var jobs: map<string, Job>
    var dlq: map<string, Job>
    var keys: map<string, string>
    var status: map<Status, set<string>>

    ghost function View(): Bolt
      reads this
    {
      Bolt(jobs, dlq, keys, status)
    }

    constructor ()
      ensures View() == EMPTY
    {
      jobs, dlq, keys := map[], map[], map[];
      status := map st | st in NAMED :: {};
    }

    method AddToStatusBucket(st: Status, id: JobId)
      modifies this`status
      ensures View() == AddToBucket(old(View()), st, Itoa(id))
    {
      if st in status {
        status := status[st := status[st] + {Itoa(id)}];
      }
    }

    method RemoveFromStatusBucket(st: Status, id: JobId)
      modifies this`status
      ensures View() == RemoveFromBucket(old(View()), st, Itoa(id))
    {
      if st in status {
        status := status[st := status[st] - {Itoa(id)}];
      }
    }

    method Add(j: Job) returns (ok: bool)
      modifies this
      ensures (View(), ok) == Apply(old(View()), M.Add(j))
    {
      jobs := jobs[Itoa(j.id) := j];
      if j.key != "" {
        keys := keys[j.key := Itoa(j.id)];
      }
      AddToStatusBucket(j.status, j.id);
      ok := true;
    }

    method Update(j: Job) returns (ok: bool)
      modifies this
      ensures (View(), ok) == Apply(old(View()), M.Update(j))
    {
      var k := Itoa(j.id);
      if k !in jobs || !IsValidTransition(jobs[k].status, j.status) {
        return false;
      }
      RemoveFromStatusBucket(jobs[k].status, j.id);
      jobs := jobs[k := j];
      AddToStatusBucket(j.status, j.id);
      return true;
    }

    method Delete(id: JobId) returns (found: bool)
      modifies this
      ensures (View(), found) == Apply(old(View()), M.Delete(id))
    {
      var k := Itoa(id);
      if k !in jobs {
        return false;
      }
      var j := jobs[k];
      RemoveFromStatusBucket(j.status, id);
      if j.key != "" {
        keys := keys - {j.key};
      }
      jobs := jobs - {k};
      return true;
    }

    method Cancel(id: JobId) returns (ok: bool)
      modifies this
      ensures (View(), ok) == Apply(old(View()), M.Cancel(id))
    {
      var k := Itoa(id);
      if k !in jobs || Terminal(jobs[k].status) {
        return false;
      }
      var j := jobs[k];
      RemoveFromStatusBucket(j.status, id);
      jobs := jobs[k := j.(status := Cancelled)];
      AddToStatusBucket(Cancelled, id);
      return true;
    }

    method AddDLQ(j: Job)
      modifies this
      ensures View() == Apply(old(View()), M.AddDLQ(j)).0
    {
      dlq := dlq[Itoa(j.id) := j];
    }

    /** Each entry of the bucket that has a job, once; `ks` are their database keys. */
    method ListByStatus(st: Status) returns (js: seq<Job>, ghost ks: seq<string>)
      ensures forall j :: j in js <==> j in Listed(View(), st)
      ensures |js| == |ks| && forall i :: 0 <= i < |js| ==> ks[i] in jobs && js[i] == jobs[ks[i]]
      ensures forall k :: k in ks <==> k in Bucket(View(), st) && k in jobs
      ensures forall i, j :: 0 <= i < j < |ks| ==> ks[i] != ks[j]
    {
      js, ks := [], [];
      if st !in status {
        return;
      }
      var rest, done := status[st], {};
      while rest != {}
        invariant done + rest == status[st] && done !! rest
        invariant forall j :: j in js <==> exists k :: k in done && k in jobs && jobs[k] == j
        invariant |js| == |ks| && forall i :: 0 <= i < |js| ==> ks[i] in jobs && js[i] == jobs[ks[i]]
        invariant forall k :: k in ks <==> k in done && k in jobs
        invariant forall i, j :: 0 <= i < j < |ks| ==> ks[i] != ks[j]
        decreases rest
      {
        var k := NextKey(rest);
        if k in jobs {
          js, ks := js + [jobs[k]], ks + [k];
        }
        rest, done := rest - {k}, done + {k};
      }
    }

    method FindByIdempotencyKey(key: string) returns (j: Job, ok: bool)
      ensures Find(View(), key) == if ok then Some(j) else None
    {
      if key == "" || key !in keys {
        return ZERO_JOB, false;
      }
      match ParseInt(keys[key]) {
        case None => return ZERO_JOB, false;
        case Some(id) =>
          if id < 0 || Itoa(id) !in jobs {
            return ZERO_JOB, false;
          }
          return jobs[Itoa(id)], true;
      }
    }
  }
}
