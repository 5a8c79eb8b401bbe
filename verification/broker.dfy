/** The topic broker (internal/broker/broker.go): which worker may run which job type, and
    the selection of a worker from the pool of available ones. */
module Brokers {
  import opened Text

  /** What a subscription list means: every type, for an empty list or one with a wildcard
      topic, or the trimmed topics. */
  ghost predicate Subscribes(topics: seq<string>, jobType: string) {
    || topics == []
    || (exists t :: t in topics && TrimSpace(t) in {"*", "all", ""})
    || (exists t :: t in topics && TrimSpace(t) == jobType)
  }

  predicate Handles(topics: map<nat, set<string>>, isAll: map<nat, bool>, worker: nat, jobType: string) {
    || (worker in isAll && isAll[worker])
    || worker !in topics
    || jobType in topics[worker]
  }

  /** The position of the first worker that may run the job, or the length if there is none. */
  function FirstCapable(topics: map<nat, set<string>>, isAll: map<nat, bool>, jobType: string, ws: seq<nat>): (k: nat)
    ensures k <= |ws|
    ensures k < |ws| ==> Handles(topics, isAll, ws[k], jobType)
    ensures forall i :: 0 <= i < k ==> !Handles(topics, isAll, ws[i], jobType)
  {
    if ws == [] || Handles(topics, isAll, ws[0], jobType) then 0
    else 1 + FirstCapable(topics, isAll, jobType, ws[1..])
  }

  lemma TakenOut(ws: seq<nat>, k: nat)
    requires k < |ws|
    ensures multiset(ws) == multiset(ws[k + 1..] + ws[..k]) + multiset{ws[k]}
  {
    assert ws == ws[..k] + [ws[k]] + ws[k + 1..];
  }

  /** The pool of available workers: a channel of bounded capacity. */
  class Pool {
    var workers: seq<nat>
    const capacity: nat

    ghost predicate Valid()
      reads this
    {
      |workers| <= capacity
    }

    constructor (capacity: nat)
      ensures Valid() && workers == [] && this.capacity == capacity
    {
      workers := [];
      this.capacity := capacity;
    }

    /** A non-blocking send: dropped if the channel is full. */
    method Offer(w: nat)
      modifies this
      ensures workers == if |old(workers)| < capacity then old(workers) + [w] else old(workers)
    {
      if |workers| < capacity {
        workers := workers + [w];
      }
    }
  }

  class Broker {
    var workerTopics: map<nat, set<string>>
    var workerIsAll: map<nat, bool>

    constructor ()
      ensures workerTopics == map[] && workerIsAll == map[]
    {
      workerTopics, workerIsAll := map[], map[];
    }

    /** Despite leaving the loop at the first wildcard, the worker may run exactly the job
        types its subscription list means, and no other worker is affected. */
    method RegisterWorker(worker: nat, topics: seq<string>)
      modifies this
      ensures forall jobType :: Handles(workerTopics, workerIsAll, worker, jobType) <==> Subscribes(topics, jobType)
      ensures forall w, jobType :: w != worker ==>
                (Handles(workerTopics, workerIsAll, w, jobType) <==> Handles(old(workerTopics), old(workerIsAll), w, jobType))
    {
      var topicSet: set<string> := {};
      var isAll := |topics| == 0;
      var i := 0;
      while i < |topics|
        invariant 0 <= i <= |topics|
        invariant isAll <==> topics == []
        invariant forall k :: 0 <= k < i ==> TrimSpace(topics[k]) !in {"*", "all", ""}
        invariant forall t :: t in topicSet <==> exists k :: 0 <= k < i && TrimSpace(topics[k]) == t
      {
        var trimmed := TrimSpace(topics[i]);
        if trimmed == "*" || trimmed == "all" || trimmed == "" {
          assert topics[i] in topics && TrimSpace(topics[i]) in {"*", "all", ""};
          isAll := true;
          break;
        }
        topicSet := topicSet + {trimmed};
        i := i + 1;
      }
      workerTopics := workerTopics[worker := topicSet];
      workerIsAll := workerIsAll[worker := isAll];
    }

    method UnregisterWorker(worker: nat)
      modifies this
      ensures workerTopics == old(workerTopics) - {worker} && workerIsAll == old(workerIsAll) - {worker}
      ensures forall jobType :: Handles(workerTopics, workerIsAll, worker, jobType)
    {
      workerTopics := workerTopics - {worker};
      workerIsAll := workerIsAll - {worker};
    }

    method CanHandle(worker: nat, jobType: string) returns (can: bool)
      ensures can <==> Handles(workerTopics, workerIsAll, worker, jobType)
    {
      if worker in workerIsAll && workerIsAll[worker] {
        return true;
      }
      if worker !in workerTopics {
        return true;
      }
      return jobType in workerTopics[worker];
    }

    /** Takes the first capable worker in queue order; the pool then holds the workers
        behind it followed by the skipped ones, both in their old order. Without a capable
        worker the pool is as before. No worker gets lost. */
    method SelectWorker(jobType: string, pool: Pool) returns (worker: nat, ok: bool)
      requires pool.Valid()
      modifies pool
      ensures pool.Valid()
      ensures var k := FirstCapable(workerTopics, workerIsAll, jobType, old(pool.workers));
              && (ok <==> k < |old(pool.workers)|)
              && (ok ==> worker == old(pool.workers)[k] &&
                         pool.workers == old(pool.workers)[k + 1..] + old(pool.workers)[..k])
              && (!ok ==> pool.workers == old(pool.workers))
      ensures multiset(old(pool.workers)) == multiset(pool.workers) + (if ok then multiset{worker} else multiset{})
    {
      ghost var all := pool.workers;
      var n := |pool.workers|;
      worker, ok := 0, false;
      var skipped: seq<nat> := [];
      var i := 0;
      while i < n
        invariant 0 <= i <= n == |all| && !ok
        invariant skipped == all[..i] && pool.workers == all[i..]
        invariant forall k :: 0 <= k < i ==> !Handles(workerTopics, workerIsAll, all[k], jobType)
      {
        var w := pool.workers[0];
        pool.workers := pool.workers[1..];
        var can := CanHandle(w, jobType);
        if can {
          PutBack(pool, skipped);
          TakenOut(all, i);
          return w, true;
        }
        skipped := skipped + [w];
        i := i + 1;
      }
      PutBack(pool, skipped);
    }

    method PutBack(pool: Pool, skipped: seq<nat>)
      requires |pool.workers| + |skipped| <= pool.capacity
      modifies pool
      ensures pool.workers == old(pool.workers) + skipped
    {
      for i := 0 to |skipped|
        invariant pool.workers == old(pool.workers) + skipped[..i]
      {
        pool.Offer(skipped[i]);
      }
    }
  }
}
