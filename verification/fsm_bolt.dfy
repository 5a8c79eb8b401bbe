/** The replicated state machine on the durable store: log compaction seen through
    BoltStore's reads. */
module ReplicatedBolt {
  import opened Jobs
  import M = MemoryStores
  import B = BoltStores
  import R = ReplicatedStore

  function OpsOf(log: seq<R.Command>): seq<M.Op>
    decreases |log|
  {
    if log == [] then [] else OpsOf(log[..|log| - 1]) + R.ToOps(log[|log| - 1])
  }

  function Adds(js: seq<Job>): seq<M.Op>
    decreases |js|
  {
    if js == [] then [] else Adds(js[..|js| - 1]) + [M.Add(js[|js| - 1])]
  }

  /** The bucket contents after a log, and after a restore followed by a log. */
  function BoltAfter(log: seq<R.Command>): B.Bolt { B.ApplyAll(B.EMPTY, OpsOf(log)) }

  function BoltRestored(js: seq<Job>, log: seq<R.Command>): B.Bolt { B.ApplyAll(B.EMPTY, Adds(js) + OpsOf(log)) }

  lemma {:induction false} WritesSplit(m: M.Mem, a: seq<M.Op>, b: seq<M.Op>)
    ensures M.ApplyAll(m, a + b) == M.ApplyAll(M.ApplyAll(m, a), b)
    ensures B.FreshAdds(m, a + b) <==> B.FreshAdds(m, a) && B.FreshAdds(M.ApplyAll(m, a), b)
    decreases |b|
  {
    if b == [] {
      assert a + b == a;
    } else {
      assert (a + b)[..|a + b| - 1] == a + b[..|b| - 1];
      WritesSplit(m, a, b[..|b| - 1]);
    }
  }

  lemma OpsSnoc(log: seq<R.Command>)
    requires log != []
    ensures R.ToOps(log[|log| - 1]) == [] ==> OpsOf(log) == OpsOf(log[..|log| - 1])
    ensures R.ToOps(log[|log| - 1]) != [] ==>
              OpsOf(log) == OpsOf(log[..|log| - 1]) + [R.ToOps(log[|log| - 1])[0]]
  {
    var ops := R.ToOps(log[|log| - 1]);
    assert |ops| <= 1;
    if ops != [] {
      assert ops == [ops[0]];
    }
  }

  lemma WritesSnoc(m: M.Mem, ops: seq<M.Op>, op: M.Op)
    ensures M.ApplyAll(m, ops + [op]) == M.Apply(M.ApplyAll(m, ops), op).0
  {
    assert (ops + [op])[..|ops + [op]| - 1] == ops;
  }

  lemma {:induction false} LogIsWrites(m: M.Mem, log: seq<R.Command>)
    ensures R.ApplyLog(m, log) == M.ApplyAll(m, OpsOf(log))
    decreases |log|
  {
    if log != [] {
      var front, ops := log[..|log| - 1], R.ToOps(log[|log| - 1]);
      LogIsWrites(m, front);
      OpsSnoc(log);
      if ops != [] {
        WritesSnoc(m, OpsOf(front), ops[0]);
      }
    }
  }

  lemma ConcatAssociates<T>(a: seq<T>, b: seq<T>, c: seq<T>)
    ensures (a + b) + c == a + (b + c)
  {
  }

  lemma {:induction false} OpsOfConcat(a: seq<R.Command>, b: seq<R.Command>)
    ensures OpsOf(a + b) == OpsOf(a) + OpsOf(b)
    decreases |b|
  {
    if b == [] {
      assert a + b == a;
    } else {
      assert (a + b)[..|a + b| - 1] == a + b[..|b| - 1];
      OpsOfConcat(a, b[..|b| - 1]);
      ConcatAssociates(OpsOf(a), OpsOf(b[..|b| - 1]), R.ToOps(b[|b| - 1]));
    }
  }

  /** Restoring a listing adds free ids only, and is the restore of the memory store. */
  lemma {:induction false} RestoreIsFreshAdds(js: seq<Job>, jobs: map<JobId, Job>, sel: set<JobId>)
    requires M.ListingOf(js, jobs, sel)
    ensures B.FreshAdds(M.EMPTY, Adds(js))
    ensures R.RestoreJobs(M.EMPTY, js) == M.ApplyAll(M.EMPTY, Adds(js))
    decreases |js|
  {
    if js != [] {
      var front, last := js[..|js| - 1], js[|js| - 1];
      ListingWithoutLast(js, jobs, sel);
      RestoreIsFreshAdds(front, jobs, sel - {last.id});
      M.ListingMembers(front, jobs, sel - {last.id});
      R.RestoreFilesJobs(jobs - {last.id}, front);
      assert Adds(js)[..|Adds(js)| - 1] == Adds(front);
    }
  }

  lemma ListingWithoutLast(js: seq<Job>, jobs: map<JobId, Job>, sel: set<JobId>)
    requires M.ListingOf(js, jobs, sel) && js != []
    ensures M.ListingOf(js[..|js| - 1], jobs, sel - {js[|js| - 1].id})
  {
    var front, last := js[..|js| - 1], js[|js| - 1];
    assert js == front + [last];
    M.IdsOfSnoc(front, last);
    assert multiset(M.IdsOf(front)) == multiset(sel) - multiset{last.id};
  }

  /** Freshness looks at the stored ids only. */
  lemma {:induction false} FreshnessFollowsJobs(a: M.Mem, b: M.Mem, ops: seq<M.Op>)
    requires a.jobs == b.jobs && a.keys == b.keys
    ensures B.FreshAdds(a, ops) <==> B.FreshAdds(b, ops)
    ensures M.ApplyAll(a, ops).jobs == M.ApplyAll(b, ops).jobs
    ensures M.ApplyAll(a, ops).keys == M.ApplyAll(b, ops).keys
    decreases |ops|
  {
    if ops != [] {
      var front := ops[..|ops| - 1];
      FreshnessFollowsJobs(a, b, front);
      R.IndexesAreNotRead(M.ApplyAll(a, front), M.ApplyAll(b, front), ops[|ops| - 1]);
    }
  }

  /** Log compaction on the durable store: for a log whose adds use free ids and whose prefix
      is key-disciplined, restoring the prefix's snapshot in any order and applying the
      suffix gives the same lookups, key lookups and status listings as the whole log. */
  lemma BoltSnapshotPlusSuffix(prefix: seq<R.Command>, suffix: seq<R.Command>, js: seq<Job>, id: JobId, key: string, st: Status)
    requires R.KeyDisciplined(M.EMPTY, prefix) && B.FreshAdds(M.EMPTY, OpsOf(prefix + suffix))
    requires M.ListingOf(js, R.ApplyLog(M.EMPTY, prefix).jobs, R.ApplyLog(M.EMPTY, prefix).jobs.Keys)
    ensures B.Get(BoltRestored(js, suffix), id) == B.Get(BoltAfter(prefix + suffix), id)
    ensures B.Find(BoltRestored(js, suffix), key) == B.Find(BoltAfter(prefix + suffix), key)
    ensures !st.Other? ==> B.Listed(BoltRestored(js, suffix), st) == B.Listed(BoltAfter(prefix + suffix), st)
  {
    var m := R.ApplyLog(M.EMPTY, prefix);
    var whole, short := OpsOf(prefix + suffix), Adds(js) + OpsOf(suffix);
    RestoreIsFreshAdds(js, m.jobs, m.jobs.Keys);
    var r := R.RestoreJobs(M.EMPTY, js);
    R.SnapshotPlusSuffix(prefix, [], js);
    R.SnapshotPlusSuffix(prefix, suffix, js);
    assert prefix + [] == prefix;
    LogIsWrites(M.EMPTY, prefix);
    LogIsWrites(M.EMPTY, prefix + suffix);
    LogIsWrites(r, suffix);
    OpsOfConcat(prefix, suffix);
    WritesSplit(M.EMPTY, OpsOf(prefix), OpsOf(suffix));
    FreshnessFollowsJobs(m, r, OpsOf(suffix));
    WritesSplit(M.EMPTY, Adds(js), OpsOf(suffix));
    ReadsFollowMemory(whole, id, key, st);
    ReadsFollowMemory(short, id, key, st);
  }

  lemma ReadsFollowMemory(ops: seq<M.Op>, id: JobId, key: string, st: Status)
    requires B.FreshAdds(M.EMPTY, ops)
    ensures var m, b := M.ApplyAll(M.EMPTY, ops), B.ApplyAll(B.EMPTY, ops);
            && B.Get(b, id) == (if id in m.jobs then Some(m.jobs[id]) else None)
            && B.Find(b, key) == M.Find(m, key)
            && (!st.Other? ==> B.Listed(b, st) == M.Listed(m, st))
  {
    B.RunSimulates(ops);
    B.SameLookups(M.ApplyAll(M.EMPTY, ops), B.ApplyAll(B.EMPTY, ops), id, key);
    B.SameListingsIff(M.ApplyAll(M.EMPTY, ops), B.ApplyAll(B.EMPTY, ops), st);
  }
}
