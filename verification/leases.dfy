/** The lease table (internal/job/lease.go): which worker runs which job, and for which
    attempt. It lives in the leader's memory only. */
module Leases {
  import opened Jobs

  datatype Lease = Lease(workerId: nat, term: nat, attempt: nat)

  /** The table without the leases a worker holds. */
  function Without(leases: map<JobId, Lease>, workerId: nat): map<JobId, Lease> {
    map id | id in leases && leases[id].workerId != workerId :: leases[id]
  }

  /** The jobs whose lease a worker holds. */
  function HeldBy(leases: map<JobId, Lease>, workerId: nat): set<JobId> {
    set id | id in leases && leases[id].workerId == workerId
  }

  class LeaseManager {
    var leases: map<JobId, Lease>

    constructor ()
      ensures leases == map[]
    {
      leases := map[];
    }

    method Acquire(jobId: JobId, workerId: nat, term: nat, attempt: nat)
      modifies this
      ensures leases == old(leases)[jobId := Lease(workerId, term, attempt)]
    {
      leases := leases[jobId := Lease(workerId, term, attempt)];
    }

    method Get(jobId: JobId) returns (lease: Option<Lease>)
      ensures lease == if jobId in leases then Some(leases[jobId]) else None
    {
      lease := if jobId in leases then Some(leases[jobId]) else None;
    }

    method Release(jobId: JobId)
      modifies this
      ensures leases == old(leases) - {jobId}
    {
      leases := leases - {jobId};
    }

    /** Drops every lease of the worker and reports each dropped job once. */
    method ReleaseByWorker(workerId: nat) returns (released: seq<JobId>)
      modifies this
      ensures leases == Without(old(leases), workerId)
      ensures multiset(released) == multiset(HeldBy(old(leases), workerId))
    {
      released := [];
      var rest: set<JobId> := leases.Keys;
      ghost var held := HeldBy(leases, workerId);
      while rest != {}
        invariant rest <= old(leases).Keys
        invariant forall id :: id in leases <==> id in old(leases) && (id in rest || id !in held)
        invariant forall id :: id in leases ==> leases[id] == old(leases)[id]
        invariant forall id :: multiset(released)[id] == if id in held && id !in rest then 1 else 0
        decreases rest
      {
        var id := NextKey(rest);
        if leases[id].workerId == workerId {
          released := released + [id];
          leases := leases - {id};
        }
        rest := rest - {id};
      }
    }

    method Clear()
      modifies this
      ensures leases == map[]
    {
      leases := map[];
    }
  }
}
