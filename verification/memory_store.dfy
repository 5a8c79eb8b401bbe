/** MemoryStore (internal/store/memory_store.go): a job map with a status index, an
    idempotency-key index and a dead-letter map, first on values, then as the object
    whose methods update those maps in place. */
module MemoryStores {
  import opened Jobs
  import CronSchedules

  datatype Mem = Mem(
    jobs: map<JobId, Job>,
    statusIndex: map<Status, set<JobId>>,
    keys: map<string, JobId>,
    dlq: map<JobId, Job>)

  const EMPTY := Mem(map[], map[], map[], map[])

  /** One call that writes a store. */
  datatype Op = Add(j: Job) | Update(j: Job) | Delete(id: JobId) | Cancel(id: JobId) | AddDLQ(j: Job)

  // ---------- the operations on values; the boolean is the caller's success flag ----------

  function Indexed(ix: map<Status, set<JobId>>, st: Status): set<JobId> {
    if st in ix then ix[st] else {}
  }

  function AddToIndex(ix: map<Status, set<JobId>>, st: Status, id: JobId): map<Status, set<JobId>> {
    ix[st := Indexed(ix, st) + {id}]
  }

  function RemoveFromIndex(ix: map<Status, set<JobId>>, st: Status, id: JobId): map<Status, set<JobId>> {
    if st in ix then ix[st := ix[st] - {id}] else ix
  }

  function DoAdd(m: Mem, j: Job): (Mem, bool) {
    if j.id in m.jobs then (m, false)
    else
      (m.(jobs := m.jobs[j.id := j],
          keys := if j.key != "" then m.keys[j.key := j.id] else m.keys,
          statusIndex := AddToIndex(m.statusIndex, j.status, j.id)), true)
  }

  /** Overwrites the job under id and moves it to the index set of its new status. */
  function Refile(m: Mem, id: JobId, j: Job): Mem
    requires id in m.jobs
  {
    var ix := RemoveFromIndex(m.statusIndex, m.jobs[id].status, id);
    m.(jobs := m.jobs[id := j], statusIndex := AddToIndex(ix, j.status, id))
  }

  function DoUpdate(m: Mem, j: Job): (Mem, bool) {
    if j.id !in m.jobs || !IsValidTransition(m.jobs[j.id].status, j.status) then (m, false)
    else (Refile(m, j.id, j), true)
  }

  function DoDelete(m: Mem, id: JobId): (Mem, bool) {
    if id !in m.jobs then (m, false)
    else
      var j := m.jobs[id];
      (m.(jobs := m.jobs - {id},
          keys := if j.key != "" then m.keys - {j.key} else m.keys,
          statusIndex := RemoveFromIndex(m.statusIndex, j.status, id)), true)
  }

  function DoCancel(m: Mem, id: JobId): (Mem, bool) {
    if id !in m.jobs || Terminal(m.jobs[id].status) then (m, false)
    else (Refile(m, id, m.jobs[id].(status := Cancelled)), true)
  }

  function DoAddDLQ(m: Mem, j: Job): (Mem, bool) {
    (m.(dlq := m.dlq[j.id := j]), true)
  }

  function Apply(m: Mem, op: Op): (Mem, bool) {
    match op
    case Add(j) => DoAdd(m, j)
    case Update(j) => DoUpdate(m, j)
    case Delete(id) => DoDelete(m, id)
    case Cancel(id) => DoCancel(m, id)
    case AddDLQ(j) => DoAddDLQ(m, j)
  }

  function ApplyAll(m: Mem, ops: seq<Op>): Mem
    decreases |ops|
  {
    if ops == [] then m else Apply(ApplyAll(m, ops[..|ops| - 1]), ops[|ops| - 1]).0
  }

  // ---------- the reads ----------

  function Ids(m: Mem, st: Status): set<JobId> {
    Indexed(m.statusIndex, st)
  }

  /** ListByStatus without its order: index entries whose job is gone are skipped. */
  function Listed(m: Mem, st: Status): set<Job> {
    set id | id in Ids(m, st) && id in m.jobs :: m.jobs[id]
  }

  function Find(m: Mem, key: string): Option<Job> {
    if key == "" || key !in m.keys || m.keys[key] !in m.jobs then None
    else Some(m.jobs[m.keys[key]])
  }

  // ---------- the status index is the filter of the job map, in every run ----------

  ghost predicate IndexExact(m: Mem) {
    && (forall id :: id in m.jobs ==> m.jobs[id].id == id)
    && (forall st, id :: id in Ids(m, st) <==> id in m.jobs && m.jobs[id].status == st)
  }

  lemma AddKeepsIndex(m: Mem, j: Job)
    requires IndexExact(m)
    ensures IndexExact(DoAdd(m, j).0)
  {
    var r := DoAdd(m, j).0;
    forall st, id
      ensures id in Ids(r, st) <==> id in r.jobs && r.jobs[id].status == st
    {
      assert id in Ids(m, st) <==> id in m.jobs && m.jobs[id].status == st;
    }
  }

  lemma RefileKeepsIndex(m: Mem, j: Job)
    requires IndexExact(m) && j.id in m.jobs
    ensures IndexExact(Refile(m, j.id, j))
  {
    var r := Refile(m, j.id, j);
    forall st, id
      ensures id in Ids(r, st) <==> id in r.jobs && r.jobs[id].status == st
    {
      assert id in Ids(m, st) <==> id in m.jobs && m.jobs[id].status == st;
    }
  }

  lemma DeleteKeepsIndex(m: Mem, id: JobId)
    requires IndexExact(m)
    ensures IndexExact(DoDelete(m, id).0)
  {
    var r := DoDelete(m, id).0;
    forall st, x
      ensures x in Ids(r, st) <==> x in r.jobs && r.jobs[x].status == st
    {
      assert x in Ids(m, st) <==> x in m.jobs && m.jobs[x].status == st;
    }
  }

  lemma ApplyKeepsIndex(m: Mem, op: Op)
    requires IndexExact(m)
    ensures IndexExact(Apply(m, op).0)
  {
    match op {
      case Add(j) => AddKeepsIndex(m, j);
      case Update(j) =>
        if j.id in m.jobs {
          RefileKeepsIndex(m, j);
        }
      case Delete(id) => DeleteKeepsIndex(m, id);
      case Cancel(id) =>
        if id in m.jobs {
          RefileKeepsIndex(m, m.jobs[id].(status := Cancelled));
        }
      case AddDLQ(j) => assert forall st :: Ids(Apply(m, op).0, st) == Ids(m, st);
    }
  }

  /** Over every sequence of writes the index answers exactly as a scan of the job map. */
  lemma {:induction false} StatusIndexIsFilter(m: Mem, ops: seq<Op>, st: Status)
    requires IndexExact(m)
    ensures IndexExact(ApplyAll(m, ops))
    ensures Listed(ApplyAll(m, ops), st) ==
            set id | id in ApplyAll(m, ops).jobs && ApplyAll(m, ops).jobs[id].status == st :: ApplyAll(m, ops).jobs[id]
    decreases |ops|
  {
    if ops != [] {
      StatusIndexIsFilter(m, ops[..|ops| - 1], st);
      ApplyKeepsIndex(ApplyAll(m, ops[..|ops| - 1]), ops[|ops| - 1]);
    }
    assert forall id :: id in Ids(ApplyAll(m, ops), st) <==>
                          id in ApplyAll(m, ops).jobs && ApplyAll(m, ops).jobs[id].status == st;
  }

  // ---------- the key index ----------

  /** Every keyed job is indexed under its key and every index entry names such a job;
      in particular no two live jobs share a key. */
  ghost predicate KeysExact(m: Mem) {
    && (forall id :: id in m.jobs && m.jobs[id].key != "" ==>
          m.jobs[id].key in m.keys && m.keys[m.jobs[id].key] == id)
    && (forall k :: k in m.keys ==> k != "" && m.keys[k] in m.jobs && m.jobs[m.keys[k]].key == k)
  }

  /** A write that does not reuse the key of a live job and does not rewrite a key. */
  ghost predicate KeySafe(m: Mem, op: Op) {
    match op
    case Add(j) => j.id in m.jobs || j.key == "" || forall id :: id in m.jobs ==> m.jobs[id].key != j.key
    case Update(j) => Apply(m, op).1 ==> j.key == m.jobs[j.id].key
    case Delete(_) => true
    case Cancel(_) => true
    case AddDLQ(_) => true
  }

  lemma AddKeepsKeysIff(m: Mem, j: Job)
    requires KeysExact(m)
    ensures KeysExact(DoAdd(m, j).0) <==> KeySafe(m, Add(j))
  {
    var r := DoAdd(m, j).0;
    if !KeySafe(m, Add(j)) {
      var id :| id in m.jobs && m.jobs[id].key == j.key;
      assert r.jobs[id].key == j.key && r.jobs[j.id].key == j.key;
    }
  }

  lemma UpdateKeepsKeysIff(m: Mem, j: Job)
    requires KeysExact(m)
    ensures KeysExact(DoUpdate(m, j).0) <==> KeySafe(m, Update(j))
  {
    var r := DoUpdate(m, j).0;
    if !KeySafe(m, Update(j)) {
      var before := m.jobs[j.id].key;
      assert r.jobs[j.id].key == j.key != before;
      if before != "" {
        assert before in r.keys && r.keys[before] == j.id;
      } else {
        assert j.key in m.keys ==> m.keys[j.key] != j.id;
      }
    } else if DoUpdate(m, j).1 {
      assert forall id :: id in r.jobs ==> r.jobs[id].key == m.jobs[id].key;
    }
  }

  /** The writes that keep the key index exact are the key-safe ones and no others. */
  lemma KeysStayExactIff(m: Mem, op: Op)
    requires KeysExact(m)
    ensures KeysExact(Apply(m, op).0) <==> KeySafe(m, op)
  {
    match op {
      case Add(j) => AddKeepsKeysIff(m, j);
      case Update(j) => UpdateKeepsKeysIff(m, j);
      case Delete(id) =>
      case Cancel(id) => CancelKeepsKeys(m, id);
      case AddDLQ(_) =>
    }
  }

  lemma CancelKeepsKeys(m: Mem, id: JobId)
    requires KeysExact(m)
    ensures KeysExact(DoCancel(m, id).0)
  {
    var r := DoCancel(m, id).0;
    assert forall i :: i in r.jobs ==> r.jobs[i].key == m.jobs[i].key;
  }

  /** With an exact key index, a lookup finds a job exactly when it is live under that key. */
  lemma FindIsLookup(m: Mem, key: string, j: Job)
    requires IndexExact(m) && KeysExact(m)
    ensures Find(m, key) == Some(j) <==> key != "" && j.key == key && j.id in m.jobs && m.jobs[j.id] == j
  {
  }

  // ---------- listing in some order ----------

  function IdsOf(js: seq<Job>): seq<JobId> {
    seq(|js|, i requires 0 <= i < |js| => js[i].id)
  }

  /** `ids` names each member of `sel` once. */
  ghost predicate Enumerates(ids: seq<JobId>, sel: set<JobId>) {
    multiset(ids) == multiset(sel)
  }

  /** `js` holds the jobs of `sel`, once each, in some order. */
  ghost predicate ListingOf(js: seq<Job>, jobs: map<JobId, Job>, sel: set<JobId>) {
    && Enumerates(IdsOf(js), sel)
    && (forall i :: 0 <= i < |js| ==> js[i].id in jobs && jobs[js[i].id] == js[i])
  }

  lemma EnumerationMembers(ids: seq<JobId>, sel: set<JobId>)
    requires Enumerates(ids, sel)
    ensures forall x :: x in ids <==> x in sel
  {
    forall x
      ensures x in ids <==> x in sel
    {
      assert x in ids <==> x in multiset(ids);
      assert x in sel <==> x in multiset(sel);
    }
  }

  lemma IdsOfSnoc(js: seq<Job>, j: Job)
    ensures IdsOf(js + [j]) == IdsOf(js) + [j.id]
  {
  }

  /** A listing holds the stored jobs and nothing else. */
  lemma ListingMembers(js: seq<Job>, jobs: map<JobId, Job>, sel: set<JobId>)
    requires ListingOf(js, jobs, sel)
    ensures forall j :: j in js ==> j.id in sel && j.id in jobs && jobs[j.id] == j
    ensures forall id :: id in sel ==> id in jobs && jobs[id].id == id && jobs[id] in js
  {
    var ids := IdsOf(js);
    EnumerationMembers(ids, sel);
    forall j | j in js
      ensures j.id in sel && j.id in jobs && jobs[j.id] == j
    {
      var i :| 0 <= i < |js| && js[i] == j;
      assert ids[i] == j.id;
    }
    forall id | id in sel
      ensures id in jobs && jobs[id].id == id && jobs[id] in js
    {
      var i :| 0 <= i < |ids| && ids[i] == id;
      assert js[i].id == id;
    }
  }

  lemma ListingGrows(js: seq<Job>, jobs: map<JobId, Job>, sel: set<JobId>, id: JobId)
    requires ListingOf(js, jobs, sel) && id !in sel && id in jobs && jobs[id].id == id
    ensures ListingOf(js + [jobs[id]], jobs, sel + {id})
  {
    IdsOfSnoc(js, jobs[id]);
  }

  /** Iterates over ids, in some order, and collects the jobs that exist. */
  method Collect(jobs: map<JobId, Job>, ids: set<JobId>) returns (js: seq<Job>)
    requires forall id :: id in jobs ==> jobs[id].id == id
    ensures ListingOf(js, jobs, ids * jobs.Keys)
  {
    js := [];
    var rest := ids;
    ghost var sel: set<JobId> := {};
    while rest != {}
      invariant rest <= ids
      invariant forall id :: id in sel <==> id in ids && id !in rest && id in jobs
      invariant ListingOf(js, jobs, sel)
      decreases rest
    {
      var id := NextKey(rest);
      if id in jobs {
        ListingGrows(js, jobs, sel, id);
        js, sel := js + [jobs[id]], sel + {id};
      }
      rest := rest - {id};
    }
    assert sel == ids * jobs.Keys;
  }

  // ---------- the object ----------

  class MemoryStore {
    var jobs: map<JobId, Job>
    var statusIndex: map<Status, set<JobId>>
    var keys: map<string, JobId>
    var dlq: map<JobId, Job>
    var crons: CronSchedules.Table

    /** What the job operations work on; cron definitions are kept apart. */
    ghost function View(): Mem
      reads this
    {
      Mem(jobs, statusIndex, keys, dlq)
    }

    constructor ()
      ensures View() == EMPTY && crons == map[]
    {
      jobs, statusIndex, keys, dlq, crons := map[], map[], map[], map[], map[];
    }

    method AddToStatusIndex(st: Status, id: JobId)
      modifies this`statusIndex
      ensures statusIndex == AddToIndex(old(statusIndex), st, id)
    {
      if st !in statusIndex {
        statusIndex := statusIndex[st := {}];
      }
      statusIndex := statusIndex[st := statusIndex[st] + {id}];
    }

    method RemoveFromStatusIndex(st: Status, id: JobId)
      modifies this`statusIndex
      ensures statusIndex == RemoveFromIndex(old(statusIndex), st, id)
    {
      if st in statusIndex {
        statusIndex := statusIndex[st := statusIndex[st] - {id}];
      }
    }

    method Add(j: Job) returns (ok: bool)
      modifies this
      ensures (View(), ok) == DoAdd(old(View()), j)
      ensures crons == old(crons)
    {
      if j.id in jobs {
        return false;
      }
      jobs := jobs[j.id := j];
      if j.key != "" {
        keys := keys[j.key := j.id];
      }
      AddToStatusIndex(j.status, j.id);
      return true;
    }

    method Get(id: JobId) returns (j: Job, ok: bool)
      ensures ok <==> id in jobs
      ensures j == if ok then jobs[id] else ZERO_JOB
    {
      if id in jobs {
        return jobs[id], true;
      }
      return ZERO_JOB, false;
    }

    method List() returns (js: seq<Job>)
      requires IndexExact(View())
      ensures ListingOf(js, jobs, jobs.Keys)
    {
      js := Collect(jobs, jobs.Keys);
      assert jobs.Keys * jobs.Keys == jobs.Keys;
    }

    method ListByStatus(st: Status) returns (js: seq<Job>)
      requires IndexExact(View())
      ensures ListingOf(js, jobs, Ids(View(), st))
    {
      if st !in statusIndex {
        return [];
      }
      js := Collect(jobs, statusIndex[st]);
      assert forall id :: id in Ids(View(), st) ==> id in jobs;
      assert statusIndex[st] * jobs.Keys == Ids(View(), st);
    }

    method Update(j: Job) returns (ok: bool)
      modifies this
      ensures (View(), ok) == DoUpdate(old(View()), j)
      ensures crons == old(crons)
    {
      if j.id !in jobs {
        return false;
      }
      if !IsValidTransition(jobs[j.id].status, j.status) {
        return false;
      }
      RemoveFromStatusIndex(jobs[j.id].status, j.id);
      jobs := jobs[j.id := j];
      AddToStatusIndex(j.status, j.id);
      return true;
    }

    method Delete(id: JobId) returns (found: bool)
      modifies this
      ensures (View(), found) == DoDelete(old(View()), id)
      ensures crons == old(crons)
    {
      if id !in jobs {
        return false;
      }
      var j := jobs[id];
      RemoveFromStatusIndex(j.status, id);
      if j.key != "" {
        keys := keys - {j.key};
      }
      jobs := jobs - {id};
      return true;
    }

    method Cancel(id: JobId) returns (ok: bool)
      modifies this
      ensures (View(), ok) == DoCancel(old(View()), id)
      ensures crons == old(crons)
    {
      if id !in jobs {
        return false;
      }
      var j := jobs[id];
      if Terminal(j.status) {
        return false;
      }
      RemoveFromStatusIndex(j.status, id);
      jobs := jobs[id := j.(status := Cancelled)];
      AddToStatusIndex(Cancelled, id);
      return true;
    }

    method AddDLQ(j: Job)
      modifies this
      ensures View() == DoAddDLQ(old(View()), j).0
      ensures crons == old(crons)
    {
      dlq := dlq[j.id := j];
    }

    method AddCron(id: string, c: CronSchedules.CronJob)
      modifies `crons
      ensures crons == old(crons)[id := c]
    {
      crons := crons[id := c];
    }

    method DeleteCron(id: string) returns (found: bool)
      modifies `crons
      ensures found <==> id in old(crons)
      ensures crons == old(crons) - {id}
    {
      found := id in crons;
      crons := crons - {id};
    }

    method FindByIdempotencyKey(key: string) returns (j: Job, ok: bool)
      ensures Find(View(), key) == if ok then Some(j) else None
    {
      if key == "" || key !in keys {
        return ZERO_JOB, false;
      }
      j, ok := Get(keys[key]);
    }
  }
}
