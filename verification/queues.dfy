/** The job queue object (internal/queue/queue.go): a heap slice changed in place, whose
    comparisons read the store it shares with the rest of the system. */
module Queues {
  import opened Jobs
  import opened Heaps
  import opened MemoryStores

  class JobQueue {
    var items: seq<JobId>
    var notify: bool  // the wake-up channel of capacity one: whether it holds its token
    const store: MemoryStore
    const order: Order

    constructor (store: MemoryStore, order: Order)
      ensures items == [] && !notify && this.store == store && this.order == order
    {
      items, notify := [], false;
      this.store, this.order := store, order;
    }

    predicate LessAt(i: nat, j: nat)
      reads this, store
      requires i < |items| && j < |items|
    {
      Less(order, store.jobs, items[i], items[j])
    }

    method SiftUp(start: nat)
      requires start < |items|
      modifies this`items
      ensures items == Up(order, store.jobs, old(items), start)
    {
      var j: nat := start;
      while j != 0 && LessAt(j, Parent(j))
        invariant |items| == |old(items)| && j < |items|
        invariant Up(order, store.jobs, items, j) == Up(order, store.jobs, old(items), start)
        decreases j
      {
        items := Swap(items, Parent(j), j);
        j := Parent(j);
      }
    }

    method SiftDown(n: nat)
      requires n <= |items|
      modifies this`items
      ensures items == Down(order, store.jobs, old(items), 0, n)
    {
      var i := 0;
      while 2 * i + 1 < n
        invariant |items| == |old(items)|
        invariant Down(order, store.jobs, items, i, n) == Down(order, store.jobs, old(items), 0, n)
        decreases n - i
      {
        var c := 2 * i + 1;
        if c + 1 < n && LessAt(c + 1, c) {
          c := c + 1;
        }
        assert c == Child(order, store.jobs, items, i, n);
        if !LessAt(c, i) {
          return;
        }
        items := Swap(items, i, c);
        i := c;
      }
    }

    /** Adds one occurrence of id, keeps heap order, and leaves a wake-up token. */
    method Enqueue(id: JobId)
      modifies this
      ensures items == Push(order, store.jobs, old(items), id) && notify
      ensures multiset(items) == multiset(old(items)) + multiset{id}
      ensures HeapOrdered(order, store.jobs, old(items)) ==> HeapOrdered(order, store.jobs, items)
    {
      PushContents(order, store.jobs, items, id);
      if HeapOrdered(order, store.jobs, items) {
        PushKeepsOrder(order, store.jobs, items, id);
      }
      items := items + [id];
      SiftUp(|items| - 1);
      notify := true;
    }

    /** Takes out one occurrence of the id it returns; on an ordered heap, no queued id
        sorts before that one. */
    method Dequeue() returns (id: JobId, ok: bool)
      modifies this`items
      ensures ok <==> |old(items)| > 0
      ensures !ok ==> id == 0 && items == old(items)
      ensures ok ==> id == old(items)[0] && items == Pop(order, store.jobs, old(items))
      ensures ok ==> multiset(old(items)) == multiset(items) + multiset{id}
      ensures ok && HeapOrdered(order, store.jobs, old(items)) ==>
                && HeapOrdered(order, store.jobs, items)
                && forall x :: x in old(items) ==> Key(order, store.jobs, id) <= Key(order, store.jobs, x)
    {
      if |items| == 0 {
        return 0, false;
      }
      PopContents(order, store.jobs, items);
      if HeapOrdered(order, store.jobs, items) {
        PopKeepsOrder(order, store.jobs, items);
        HeadSortsFirst(order, store.jobs, items);
      }
      var n := |items| - 1;
      items := Swap(items, 0, n);
      SiftDown(n);
      DownIsPermutation(order, store.jobs, Swap(old(items), 0, n), 0, n);
      assert items[n..][0] == old(items)[0];
      id, ok := items[n], true;
      items := items[..n];
    }

    method Peek() returns (id: JobId, ok: bool)
      ensures ok <==> |items| > 0
      ensures id == if ok then items[0] else 0
    {
      if |items| == 0 {
        return 0, false;
      }
      return items[0], true;
    }
  }
}
