/** The replicated state machine (internal/consensus/fsm.go): commands applied to the
    store, snapshots, and restoring from one. */
module ReplicatedStore {
  import opened Jobs
  import opened MemoryStores
  import opened CronSchedules

  /** A committed log entry. `Unknown` has an unknown command type, `Garbled` cannot be
      decoded. */
  datatype Command =
    | AddJob(j: Job)
    | UpdateJob(j: Job)
    | DeleteJob(id: JobId)
    | CancelJob(id: JobId)
    | AddCron(cronId: string, cron: CronJob)
    | DeleteCron(cronId: string)
    | Unknown
    | Garbled

  function ToOps(c: Command): seq<Op> {
    match c
    case AddJob(j) => [Add(j)]
    case UpdateJob(j) => [Update(j)]
    case DeleteJob(id) => [Delete(id)]
    case CancelJob(id) => [Cancel(id)]
    case _ => []
  }

  function ApplyCommand(m: Mem, c: Command): Mem {
    var ops := ToOps(c);
    if ops == [] then m else Apply(m, ops[0]).0
  }

  /** Whether the entry is answered without an error. A deletion of nothing and an unknown
      type are no errors. */
  predicate Succeeds(m: Mem, c: Command) {
    match c
    case AddJob(j) => DoAdd(m, j).1
    case UpdateJob(j) => DoUpdate(m, j).1
    case CancelJob(id) => DoCancel(m, id).1
    case Garbled => false
    case _ => true
  }

  /** When an entry is answered with an error, and what it leaves of the jobs otherwise. */
  lemma CommandOutcome(m: Mem, c: Command)
    ensures var t := ApplyCommand(m, c);
            match c
            case AddJob(j) =>
              && (Succeeds(m, c) <==> j.id !in m.jobs)
              && t.jobs == (if j.id !in m.jobs then m.jobs[j.id := j] else m.jobs)
            case UpdateJob(j) =>
              var fits := j.id in m.jobs && IsValidTransition(m.jobs[j.id].status, j.status);
              (Succeeds(m, c) <==> fits) && t.jobs == (if fits then m.jobs[j.id := j] else m.jobs)
            case DeleteJob(id) => Succeeds(m, c) && t.jobs == m.jobs - {id}
            case CancelJob(id) =>
              var live := id in m.jobs && m.jobs[id].status !in {Completed, Failed, Cancelled};
              && (Succeeds(m, c) <==> live)
              && t.jobs == (if live then m.jobs[id := m.jobs[id].(status := Cancelled)] else m.jobs)
            case AddCron(_, _) => Succeeds(m, c) && t == m
            case DeleteCron(_) => Succeeds(m, c) && t == m
            case Unknown => Succeeds(m, c) && t == m
            case Garbled => !Succeeds(m, c) && t == m
  {
    if c.DeleteJob? {
      assert c.id !in m.jobs ==> m.jobs - {c.id} == m.jobs;
    }
  }

  function ApplyLog(m: Mem, log: seq<Command>): Mem
    decreases |log|
  {
    if log == [] then m else ApplyCommand(ApplyLog(m, log[..|log| - 1]), log[|log| - 1])
  }

  /** Restore adds the snapshot's jobs to whatever the store holds. */
  function RestoreJobs(m: Mem, js: seq<Job>): Mem
    decreases |js|
  {
    if js == [] then m else DoAdd(RestoreJobs(m, js[..|js| - 1]), js[|js| - 1]).0
  }

  /** Equal up to the representation of the status index. */
  ghost predicate Same(a: Mem, b: Mem) {
    a.jobs == b.jobs && a.keys == b.keys && forall st :: Ids(a, st) == Ids(b, st)
  }

  /** Every entry of the log is key-safe where it is applied: no add reuses the key of a
      live job, no update rewrites a key. */
  ghost predicate KeyDisciplined(m: Mem, log: seq<Command>)
    decreases |log|
  {
    log == [] ||
    (var front := log[..|log| - 1];
     var ops := ToOps(log[|log| - 1]);
     KeyDisciplined(m, front) && (ops == [] || KeySafe(ApplyLog(m, front), ops[0])))
  }

  lemma {:induction false} LogKeepsIndexes(m: Mem, log: seq<Command>)
    requires IndexExact(m)
    ensures IndexExact(ApplyLog(m, log))
    ensures KeysExact(m) && KeyDisciplined(m, log) ==> KeysExact(ApplyLog(m, log))
    decreases |log|
  {
    if log != [] {
      var front, ops := log[..|log| - 1], ToOps(log[|log| - 1]);
      LogKeepsIndexes(m, front);
      if ops != [] {
        ApplyKeepsIndex(ApplyLog(m, front), ops[0]);
        if KeysExact(m) && KeyDisciplined(m, log) {
          KeysStayExactIff(ApplyLog(m, front), ops[0]);
        }
      }
    }
  }

  /** Same stores answer every read alike and stay the same under every log. */
  lemma {:induction false} SameIsCongruence(a: Mem, b: Mem, log: seq<Command>)
    requires IndexExact(a) && IndexExact(b) && Same(a, b)
    ensures Same(ApplyLog(a, log), ApplyLog(b, log))
    ensures forall st :: Listed(a, st) == Listed(b, st)
    ensures forall k :: Find(a, k) == Find(b, k)
    decreases |log|
  {
    forall st
      ensures Listed(a, st) == Listed(b, st)
    {
      assert Ids(a, st) == Ids(b, st);
    }
    if log != [] {
      var front, ops := log[..|log| - 1], ToOps(log[|log| - 1]);
      SameIsCongruence(a, b, front);
      if ops != [] {
        LogKeepsIndexes(a, front);
        LogKeepsIndexes(b, front);
        SameAfterOp(ApplyLog(a, front), ApplyLog(b, front), ops[0]);
      }
    }
  }

  lemma SameAfterOp(a: Mem, b: Mem, op: Op)
    requires IndexExact(a) && IndexExact(b) && Same(a, b)
    ensures Same(Apply(a, op).0, Apply(b, op).0)
    ensures Apply(a, op).1 == Apply(b, op).1
  {
    IndexesAreNotRead(a, b, op);
    assert IndexExact(Apply(a, op).0) && IndexExact(Apply(b, op).0) by {
      ApplyKeepsIndex(a, op);
      ApplyKeepsIndex(b, op);
    }
    SameIndexes(Apply(a, op).0, Apply(b, op).0);
  }

  /** The status index does not influence what a write does to jobs and keys. */
  lemma IndexesAreNotRead(a: Mem, b: Mem, op: Op)
    requires a.jobs == b.jobs && a.keys == b.keys
    ensures Apply(a, op).0.jobs == Apply(b, op).0.jobs
    ensures Apply(a, op).0.keys == Apply(b, op).0.keys
    ensures Apply(a, op).1 == Apply(b, op).1
  {
  }

  // ---------- what a restore builds ----------

  /** Restoring jobs of one map into an empty store files each of them and no other. */
  lemma {:induction false} RestoreFilesJobs(jobs: map<JobId, Job>, js: seq<Job>)
    requires forall j :: j in js ==> j.id in jobs && jobs[j.id] == j
    ensures IndexExact(RestoreJobs(EMPTY, js))
    ensures forall id :: id in RestoreJobs(EMPTY, js).jobs ==> id in jobs && RestoreJobs(EMPTY, js).jobs[id] == jobs[id]
    ensures forall j :: j in js ==> j.id in RestoreJobs(EMPTY, js).jobs
    decreases |js|
  {
    if js != [] {
      var front, last := js[..|js| - 1], js[|js| - 1];
      assert js == front + [last];
      RestoreFilesJobs(jobs, front);
      ApplyKeepsIndex(RestoreJobs(EMPTY, front), Add(last));
    }
  }

  /** Every key in the index points at a job that carries it, and every carried key is there. */
  ghost predicate KeysCovered(m: Mem) {
    && (forall k :: k in m.keys ==> k != "" && m.keys[k] in m.jobs && m.jobs[m.keys[k]].key == k)
    && (forall id :: id in m.jobs && m.jobs[id].key != "" ==> m.jobs[id].key in m.keys)
  }

  /** A restore indexes the keys of the restored jobs, whatever they are. */
  lemma {:induction false} RestoreCoversKeys(js: seq<Job>)
    ensures KeysCovered(RestoreJobs(EMPTY, js))
    decreases |js|
  {
    if js != [] {
      RestoreCoversKeys(js[..|js| - 1]);
    }
  }

  /** What the store already held wins over the snapshot. */
  lemma {:induction false} RestoreOnto(base: Mem, js: seq<Job>)
    ensures RestoreJobs(base, js).jobs == RestoreJobs(EMPTY, js).jobs + base.jobs
    decreases |js|
  {
    if js != [] {
      RestoreOnto(base, js[..|js| - 1]);
    }
  }

  lemma RestoredJobs(m: Mem, js: seq<Job>)
    requires ListingOf(js, m.jobs, m.jobs.Keys)
    ensures IndexExact(RestoreJobs(EMPTY, js)) && RestoreJobs(EMPTY, js).jobs == m.jobs
  {
    ListingMembers(js, m.jobs, m.jobs.Keys);
    RestoreFilesJobs(m.jobs, js);
    forall id | id in m.jobs
      ensures id in RestoreJobs(EMPTY, js).jobs
    {
      assert id in m.jobs.Keys && m.jobs[id] in js;
    }
  }

  /** Restoring any listing of a store whose key index is exact, into an empty store,
      gives the same store. */
  lemma RestoreOfListing(m: Mem, js: seq<Job>)
    requires IndexExact(m) && KeysExact(m) && ListingOf(js, m.jobs, m.jobs.Keys)
    ensures Same(RestoreJobs(EMPTY, js), m)
  {
    var r := RestoreJobs(EMPTY, js);
    RestoredJobs(m, js);
    ListingMembers(js, m.jobs, m.jobs.Keys);
    RestoreCoversKeys(js);
    forall k | k in r.keys
      ensures k in m.keys && r.keys[k] == m.keys[k]
    {
      var id := r.keys[k];
      assert id in r.jobs && r.jobs[id].key == k;
      assert id in m.jobs;
      assert m.jobs[id].key == k;
      assert m.keys[m.jobs[id].key] == id;
    }
    forall k | k in m.keys
      ensures k in r.keys
    {
      var id := m.keys[k];
      assert id in m.jobs && m.jobs[id].key == k;
      assert id in r.jobs && m.jobs[id].key != "";
      assert m.jobs[id].key in r.keys;
    }
    assert r.keys == m.keys;
    SameIndexes(r, m);
  }

  lemma SameIndexes(a: Mem, b: Mem)
    requires IndexExact(a) && IndexExact(b) && a.jobs == b.jobs
    ensures forall st :: Ids(a, st) == Ids(b, st)
  {
    forall st
      ensures Ids(a, st) == Ids(b, st)
    {
      assert forall id :: id in Ids(a, st) <==> id in a.jobs && a.jobs[id].status == st;
      assert forall id :: id in Ids(b, st) <==> id in b.jobs && b.jobs[id].status == st;
    }
  }

  // ---------- the theorems ----------

  lemma {:induction false} LogSplits(m: Mem, prefix: seq<Command>, suffix: seq<Command>)
    ensures ApplyLog(m, prefix + suffix) == ApplyLog(ApplyLog(m, prefix), suffix)
    decreases |suffix|
  {
    if suffix == [] {
      assert prefix + suffix == prefix;
    } else {
      var whole := prefix + suffix;
      assert whole[..|whole| - 1] == prefix + suffix[..|suffix| - 1];
      LogSplits(m, prefix, suffix[..|suffix| - 1]);
    }
  }

  /** Log compaction is sound: restoring the snapshot of a key-disciplined prefix, listed
      in any order, and applying any suffix gives the same jobs, the same status listings
      and the same key lookups as applying the whole log. */
  lemma SnapshotPlusSuffix(prefix: seq<Command>, suffix: seq<Command>, js: seq<Job>)
    requires KeyDisciplined(EMPTY, prefix)
    requires ListingOf(js, ApplyLog(EMPTY, prefix).jobs, ApplyLog(EMPTY, prefix).jobs.Keys)
    ensures Same(ApplyLog(RestoreJobs(EMPTY, js), suffix), ApplyLog(EMPTY, prefix + suffix))
    ensures forall st :: Listed(ApplyLog(RestoreJobs(EMPTY, js), suffix), st) == Listed(ApplyLog(EMPTY, prefix + suffix), st)
    ensures forall k :: Find(ApplyLog(RestoreJobs(EMPTY, js), suffix), k) == Find(ApplyLog(EMPTY, prefix + suffix), k)
  {
    LogKeepsIndexes(EMPTY, prefix);
    var m := ApplyLog(EMPTY, prefix);
    RestoreOfListing(m, js);
    RestoredJobs(m, js);
    SameIsCongruence(RestoreJobs(EMPTY, js), m, suffix);
    LogSplits(EMPTY, prefix, suffix);
    LogKeepsIndexes(RestoreJobs(EMPTY, js), suffix);
    LogKeepsIndexes(EMPTY, prefix + suffix);
    SameIsCongruence(ApplyLog(RestoreJobs(EMPTY, js), suffix), ApplyLog(EMPTY, prefix + suffix), []);
  }

  lemma {:induction false} SomeListing(jobs: map<JobId, Job>, sel: set<JobId>) returns (js: seq<Job>)
    requires sel <= jobs.Keys && forall id :: id in jobs ==> jobs[id].id == id
    ensures ListingOf(js, jobs, sel)
    decreases sel
  {
    if sel == {} {
      js := [];
    } else {
      var id :| id in sel;
      js := SomeListing(jobs, sel - {id});
      ListingGrows(js, jobs, sel - {id}, id);
      assert sel - {id} + {id} == sel;
      js := js + [jobs[id]];
    }
  }

  /** The key condition is exact: every listing of a store restores to the same store if
      and only if its key index is exact. */
  lemma RestoreFaithfulIff(m: Mem)
    requires IndexExact(m)
    ensures (forall js :: ListingOf(js, m.jobs, m.jobs.Keys) ==> Same(RestoreJobs(EMPTY, js), m)) <==> KeysExact(m)
  {
    if KeysExact(m) {
      forall js | ListingOf(js, m.jobs, m.jobs.Keys)
        ensures Same(RestoreJobs(EMPTY, js), m)
      {
        RestoreOfListing(m, js);
      }
    }
    if forall js :: ListingOf(js, m.jobs, m.jobs.Keys) ==> Same(RestoreJobs(EMPTY, js), m) {
      forall id | id in m.jobs && m.jobs[id].key != ""
        ensures m.jobs[id].key in m.keys && m.keys[m.jobs[id].key] == id
      {
        LastListedOwnsKey(m, id);
      }
      var js := SomeListing(m.jobs, m.jobs.Keys);
      ListingMembers(js, m.jobs, m.jobs.Keys);
      RestoreCoversKeys(js);
      assert Same(RestoreJobs(EMPTY, js), m);
    }
  }

  /** A listing may end with any job; that job then owns its key after the restore. */
  lemma LastListedOwnsKey(m: Mem, id: JobId)
    requires IndexExact(m) && id in m.jobs && m.jobs[id].key != ""
    requires forall js :: ListingOf(js, m.jobs, m.jobs.Keys) ==> Same(RestoreJobs(EMPTY, js), m)
    ensures m.jobs[id].key in m.keys && m.keys[m.jobs[id].key] == id
  {
    var rest := m.jobs - {id};
    var front := SomeListing(rest, rest.Keys);
    ListingMembers(front, rest, rest.Keys);
    RestoreFilesJobs(rest, front);
    var js := front + [m.jobs[id]];
    assert ListingOf(js, m.jobs, m.jobs.Keys) by {
      ListingGrows(front, m.jobs, rest.Keys, id);
      assert m.jobs.Keys == rest.Keys + {id};
    }
    assert RestoreJobs(EMPTY, js) == DoAdd(RestoreJobs(EMPTY, front), m.jobs[id]).0 by {
      assert js[..|js| - 1] == front;
    }
  }

  /** Restore does not reset the store: onto a store that already holds jobs it yields the
      snapshot's jobs exactly when every held job is in the snapshot unchanged. */
  lemma RestoreOntoIff(base: Mem, m: Mem, js: seq<Job>)
    requires ListingOf(js, m.jobs, m.jobs.Keys)
    ensures RestoreJobs(base, js).jobs == m.jobs <==>
            forall id :: id in base.jobs ==> id in m.jobs && m.jobs[id] == base.jobs[id]
  {
    RestoredJobs(m, js);
    RestoreOnto(base, js);
    var r := RestoreJobs(base, js).jobs;
    assert r == m.jobs + base.jobs;
    if r == m.jobs {
      forall id | id in base.jobs
        ensures id in m.jobs && m.jobs[id] == base.jobs[id]
      {
        assert id in r && r[id] == base.jobs[id];
      }
    }
    if forall id :: id in base.jobs ==> id in m.jobs && m.jobs[id] == base.jobs[id] {
      assert r == m.jobs;
    }
  }

  // ---------- cron definitions ----------

  function ApplyCron(crons: Table, c: Command): Table {
    match c
    case AddCron(id, cron) => crons[id := cron]
    case DeleteCron(id) => crons - {id}
    case _ => crons
  }

  function ApplyCrons(crons: Table, log: seq<Command>): Table
    decreases |log|
  {
    if log == [] then crons else ApplyCron(ApplyCrons(crons, log[..|log| - 1]), log[|log| - 1])
  }

  predicate Touches(log: seq<Command>, id: string)
    decreases |log|
  {
    log != [] &&
    (var c := log[|log| - 1];
     ((c.AddCron? || c.DeleteCron?) && c.cronId == id) || Touches(log[..|log| - 1], id))
  }

  function Entry(crons: Table, id: string): Option<CronJob> {
    if id in crons then Some(crons[id]) else None
  }

  /** An entry depends on where the log starts exactly until the log touches it. */
  lemma {:induction false} CronEntry(crons: Table, log: seq<Command>, id: string)
    ensures Entry(ApplyCrons(crons, log), id) ==
            if Touches(log, id) then Entry(ApplyCrons(map[], log), id) else Entry(crons, id)
    ensures !Touches(log, id) ==> id !in ApplyCrons(map[], log)
    decreases |log|
  {
    if log != [] {
      CronEntry(crons, log[..|log| - 1], id);
    }
  }

  lemma {:induction false} CronsSplit(crons: Table, prefix: seq<Command>, suffix: seq<Command>)
    ensures ApplyCrons(crons, prefix + suffix) == ApplyCrons(ApplyCrons(crons, prefix), suffix)
    decreases |suffix|
  {
    if suffix == [] {
      assert prefix + suffix == prefix;
    } else {
      var whole := prefix + suffix;
      assert whole[..|whole| - 1] == prefix + suffix[..|suffix| - 1];
      CronsSplit(crons, prefix, suffix[..|suffix| - 1]);
    }
  }

  lemma SameEntriesSameTable(a: Table, b: Table)
    requires forall id :: Entry(a, id) == Entry(b, id)
    ensures a == b
  {
    assert forall id :: (id in a <==> Entry(a, id).Some?) && (id in b <==> Entry(b, id).Some?);
    assert a.Keys == b.Keys;
    assert forall id :: id in a ==> Entry(a, id) == Some(a[id]) && Entry(b, id) == Some(b[id]);
  }

  /** Snapshots carry jobs only. A node restored from one and fed the suffix ends with the
      cron definitions of the whole log exactly when the suffix sets or deletes every cron
      that was defined at the snapshot. */
  lemma SnapshotKeepsCronsIff(prefix: seq<Command>, suffix: seq<Command>)
    ensures ApplyCrons(map[], suffix) == ApplyCrons(map[], prefix + suffix) <==>
            forall id :: id in ApplyCrons(map[], prefix) ==> Touches(suffix, id)
  {
    var held := ApplyCrons(map[], prefix);
    CronsSplit(map[], prefix, suffix);
    forall id
      ensures Entry(ApplyCrons(held, suffix), id) ==
              if Touches(suffix, id) then Entry(ApplyCrons(map[], suffix), id) else Entry(held, id)
      ensures !Touches(suffix, id) ==> id !in ApplyCrons(map[], suffix)
    {
      CronEntry(held, suffix, id);
    }
    if forall id :: id in held ==> Touches(suffix, id) {
      SameEntriesSameTable(ApplyCrons(map[], suffix), ApplyCrons(held, suffix));
    } else {
      var id :| id in held && !Touches(suffix, id);
      assert Entry(ApplyCrons(held, suffix), id).Some? && Entry(ApplyCrons(map[], suffix), id).None?;
    }
  }

  // ---------- the object ----------

  class Fsm {
    const store: MemoryStore

    constructor (store: MemoryStore)
      ensures this.store == store
    {
      this.store := store;
    }

    method Apply(c: Command) returns (ok: bool)
      modifies store
      ensures store.View() == ApplyCommand(old(store.View()), c)
      ensures store.crons == ApplyCron(old(store.crons), c)
      ensures ok <==> Succeeds(old(store.View()), c)
    {
      ok := true;
      match c {
        case AddJob(j) => ok := store.Add(j);
        case UpdateJob(j) => ok := store.Update(j);
        case DeleteJob(id) => var _ := store.Delete(id);
        case CancelJob(id) => ok := store.Cancel(id);
        case AddCron(id, cron) => store.AddCron(id, cron);
        case DeleteCron(id) => var _ := store.DeleteCron(id);
        case Unknown =>
        case Garbled => ok := false;
      }
    }

    method Snapshot() returns (js: seq<Job>)
      requires IndexExact(store.View())
      ensures ListingOf(js, store.jobs, store.jobs.Keys)
    {
      js := store.List();
    }

    method Restore(js: seq<Job>)
      modifies store
      ensures store.View() == RestoreJobs(old(store.View()), js) && store.crons == old(store.crons)
    {
      assert js[..0] == [];
      for i := 0 to |js|
        invariant store.View() == RestoreJobs(old(store.View()), js[..i]) && store.crons == old(store.crons)
      {
        var _ := store.Add(js[i]);
        assert js[..i + 1][..i] == js[..i];
      }
      assert js[..|js|] == js;
    }
  }
}
