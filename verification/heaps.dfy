/** The binary heap under both job queues (internal/queue/heap.go, queue.go and the
    standard container/heap it calls), on values. Keys are not stored in the heap:
    every comparison looks the two ids up in the job map. */
module Heaps {
  import opened Jobs

  /** Which comparator a queue was built with. */
  datatype Order = ByPriority | ByNextRun

  function Lookup(jobs: map<JobId, Job>, id: JobId): Job {
    if id in jobs then jobs[id] else ZERO_JOB
  }

  predicate PriorityComparator(jobs: map<JobId, Job>, a: JobId, b: JobId) {
    Lookup(jobs, a).priority > Lookup(jobs, b).priority
  }

  predicate DelayComparator(jobs: map<JobId, Job>, a: JobId, b: JobId) {
    Lookup(jobs, a).nextRunAt < Lookup(jobs, b).nextRunAt
  }

  predicate Less(o: Order, jobs: map<JobId, Job>, a: JobId, b: JobId) {
    match o
    case ByPriority => PriorityComparator(jobs, a, b)
    case ByNextRun => DelayComparator(jobs, a, b)
  }

  /** The number a comparator sorts by, smallest first. */
  function Key(o: Order, jobs: map<JobId, Job>, id: JobId): int {
    match o
    case ByPriority => -Lookup(jobs, id).priority
    case ByNextRun => Lookup(jobs, id).nextRunAt
  }

  function Parent(i: nat): nat
    requires 0 < i
  {
    (i - 1) / 2
  }

  function Swap(s: seq<JobId>, i: nat, j: nat): (r: seq<JobId>)
    requires i < |s| && j < |s|
    ensures |r| == |s|
  {
    s[i := s[j]][j := s[i]]
  }

  /** container/heap `up`. */
  function Up(o: Order, jobs: map<JobId, Job>, s: seq<JobId>, j: nat): (r: seq<JobId>)
    requires j < |s|
    ensures |r| == |s|
    decreases j
  {
    if j == 0 || !Less(o, jobs, s[j], s[Parent(j)]) then s
    else Up(o, jobs, Swap(s, Parent(j), j), Parent(j))
  }

  /** The child that `down` compares with: the smaller one, the left one on a tie. */
  function Child(o: Order, jobs: map<JobId, Job>, s: seq<JobId>, i: nat, n: nat): (c: nat)
    requires n <= |s| && 2 * i + 1 < n
    ensures i < c < n && Parent(c) == i
    ensures c == 2 * i + 2 <==> 2 * i + 2 < n && Less(o, jobs, s[2 * i + 2], s[2 * i + 1])
  {
    var l := 2 * i + 1;
    if l + 1 < n && Less(o, jobs, s[l + 1], s[l]) then l + 1 else l
  }

  /** container/heap `down` over the first n entries. */
  function Down(o: Order, jobs: map<JobId, Job>, s: seq<JobId>, i: nat, n: nat): (r: seq<JobId>)
    requires n <= |s|
    ensures |r| == |s|
    decreases n - i
  {
    if 2 * i + 1 >= n then s
    else
      var c := Child(o, jobs, s, i, n);
      if !Less(o, jobs, s[c], s[i]) then s
      else Down(o, jobs, Swap(s, i, c), c, n)
  }

  /** heap.Push */
  function Push(o: Order, jobs: map<JobId, Job>, s: seq<JobId>, id: JobId): seq<JobId> {
    Up(o, jobs, s + [id], |s|)
  }

  /** heap.Pop without its result, which is the old head. */
  function Pop(o: Order, jobs: map<JobId, Job>, s: seq<JobId>): seq<JobId>
    requires |s| > 0
  {
    var n := |s| - 1;
    Down(o, jobs, Swap(s, 0, n), 0, n)[..n]
  }

  function PushAll(o: Order, jobs: map<JobId, Job>, s: seq<JobId>, ids: seq<JobId>): seq<JobId>
    decreases |ids|
  {
    if ids == [] then s
    else Push(o, jobs, PushAll(o, jobs, s, ids[..|ids| - 1]), ids[|ids| - 1])
  }

  /** No entry sorts before its parent. */
  ghost predicate HeapOrdered(o: Order, jobs: map<JobId, Job>, s: seq<JobId>) {
    forall i :: 0 < i < |s| ==> Key(o, jobs, s[Parent(i)]) <= Key(o, jobs, s[i])
  }

  // ---------- what Push and Pop do to the multiset of ids, whatever the keys ----------

  lemma SwapIsPermutation(s: seq<JobId>, i: nat, j: nat)
    requires i < |s| && j < |s|
    ensures multiset(Swap(s, i, j)) == multiset(s)
  {
  }

  lemma {:induction false} UpIsPermutation(o: Order, jobs: map<JobId, Job>, s: seq<JobId>, j: nat)
    requires j < |s|
    ensures multiset(Up(o, jobs, s, j)) == multiset(s)
    decreases j
  {
    if j != 0 && Less(o, jobs, s[j], s[Parent(j)]) {
      SwapIsPermutation(s, Parent(j), j);
      UpIsPermutation(o, jobs, Swap(s, Parent(j), j), Parent(j));
    }
  }

  /** `down` permutes the first n entries and leaves the rest where it was. */
  lemma {:induction false} DownIsPermutation(o: Order, jobs: map<JobId, Job>, s: seq<JobId>, i: nat, n: nat)
    requires n <= |s|
    ensures multiset(Down(o, jobs, s, i, n)) == multiset(s)
    ensures Down(o, jobs, s, i, n)[n..] == s[n..]
    decreases n - i
  {
    if 2 * i + 1 < n {
      var c := Child(o, jobs, s, i, n);
      if Less(o, jobs, s[c], s[i]) {
        SwapIsPermutation(s, i, c);
        DownIsPermutation(o, jobs, Swap(s, i, c), c, n);
        assert Swap(s, i, c)[n..] == s[n..];
      }
    }
  }

  /** Enqueue adds one occurrence of its id and nothing else. */
  lemma PushContents(o: Order, jobs: map<JobId, Job>, s: seq<JobId>, id: JobId)
    ensures multiset(Push(o, jobs, s, id)) == multiset(s) + multiset{id}
    ensures forall x :: x in Push(o, jobs, s, id) <==> x in s || x == id
  {
    UpIsPermutation(o, jobs, s + [id], |s|);
    MembersOfMultisets(Push(o, jobs, s, id), s + [id]);
  }

  /** Dequeue takes out one occurrence of the head and nothing else. */
  lemma PopContents(o: Order, jobs: map<JobId, Job>, s: seq<JobId>)
    requires |s| > 0
    ensures |Pop(o, jobs, s)| == |s| - 1
    ensures multiset(s) == multiset(Pop(o, jobs, s)) + multiset{s[0]}
    ensures forall x :: x in Pop(o, jobs, s) ==> x in s
    ensures forall x :: x in s && x != s[0] ==> x in Pop(o, jobs, s)
  {
    var n := |s| - 1;
    var t := Swap(s, 0, n);
    var d := Down(o, jobs, t, 0, n);
    SwapIsPermutation(s, 0, n);
    DownIsPermutation(o, jobs, t, 0, n);
    assert d == d[..n] + [s[0]] by {
      assert d == d[..n] + d[n..] && d[n..] == t[n..] == [s[0]];
    }
    assert multiset(d[..n] + [s[0]]) == multiset(d[..n]) + multiset{s[0]};
    MembersOfMultisets(s, d[..n] + [s[0]]);
  }

  lemma MembersOfMultisets(s: seq<JobId>, t: seq<JobId>)
    requires multiset(s) == multiset(t)
    ensures forall x :: x in s <==> x in t
  {
    forall x
      ensures x in s <==> x in t
    {
      assert x in s <==> x in multiset(s);
      assert x in t <==> x in multiset(t);
    }
  }

  lemma {:induction false} PushAllContents(o: Order, jobs: map<JobId, Job>, s: seq<JobId>, ids: seq<JobId>)
    ensures multiset(PushAll(o, jobs, s, ids)) == multiset(s) + multiset(ids)
    ensures forall x :: x in PushAll(o, jobs, s, ids) <==> x in s || x in ids
    decreases |ids|
  {
    if ids != [] {
      var front, last := ids[..|ids| - 1], ids[|ids| - 1];
      assert ids == front + [last];
      PushAllContents(o, jobs, s, front);
      PushContents(o, jobs, PushAll(o, jobs, s, front), last);
    }
  }

  lemma PushAllSnoc(o: Order, jobs: map<JobId, Job>, s: seq<JobId>, ids: seq<JobId>, i: nat)
    requires i < |ids|
    ensures PushAll(o, jobs, s, ids[..i + 1]) == Push(o, jobs, PushAll(o, jobs, s, ids[..i]), ids[i])
  {
    assert ids[..i + 1][..i] == ids[..i];
  }

  lemma SingletonHeap(o: Order, jobs: map<JobId, Job>, id: JobId)
    ensures Push(o, jobs, [], id) == [id] && Pop(o, jobs, [id]) == [] && PushAll(o, jobs, [], [id]) == [id]
  {
    assert [] + [id] == [id];
    assert [id][..0] == [];
    assert PushAll(o, jobs, [], [id][..0]) == [];
  }

  lemma PushBehind(o: Order, jobs: map<JobId, Job>, a: JobId, b: JobId)
    requires Key(o, jobs, a) <= Key(o, jobs, b)
    ensures Push(o, jobs, [a], b) == [a, b]
  {
    assert [a] + [b] == [a, b];
  }

  lemma PushAhead(o: Order, jobs: map<JobId, Job>, a: JobId, b: JobId, c: JobId)
    requires Key(o, jobs, c) < Key(o, jobs, a)
    ensures Push(o, jobs, [a], c) == [c, a]
    ensures Push(o, jobs, [a, b], c) == [c, b, a]
  {
    assert [a] + [c] == [a, c] && Swap([a, c], 0, 1) == [c, a];
    assert [a, b] + [c] == [a, b, c] && Swap([a, b, c], 0, 2) == [c, b, a];
  }

  // ---------- order ----------

  /** Heap order with one entry possibly too small for its place; its children still
      respect its parent. */
  ghost predicate OrderedExceptUp(o: Order, jobs: map<JobId, Job>, s: seq<JobId>, j: nat) {
    && (forall i :: 0 < i < |s| && i != j ==> Key(o, jobs, s[Parent(i)]) <= Key(o, jobs, s[i]))
    && (forall i :: 0 < i < |s| && j > 0 && Parent(i) == j ==> Key(o, jobs, s[Parent(j)]) <= Key(o, jobs, s[i]))
  }

  lemma {:induction false} UpOrders(o: Order, jobs: map<JobId, Job>, s: seq<JobId>, j: nat)
    requires j < |s| && OrderedExceptUp(o, jobs, s, j)
    ensures HeapOrdered(o, jobs, Up(o, jobs, s, j))
    decreases j
  {
    if j != 0 && Less(o, jobs, s[j], s[Parent(j)]) {
      var t := Swap(s, Parent(j), j);
      assert forall i :: 0 <= i < |s| && i != j && i != Parent(j) ==> t[i] == s[i];
      UpOrders(o, jobs, t, Parent(j));
    }
  }

  /** Heap order of the first n entries with entry i possibly too large for its place. */
  ghost predicate OrderedExceptDown(o: Order, jobs: map<JobId, Job>, s: seq<JobId>, i: nat, n: nat)
    requires n <= |s|
  {
    && (forall k :: 0 < k < n && Parent(k) != i ==> Key(o, jobs, s[Parent(k)]) <= Key(o, jobs, s[k]))
    && (forall k :: 0 < k < n && i > 0 && Parent(k) == i ==> Key(o, jobs, s[Parent(i)]) <= Key(o, jobs, s[k]))
  }

  /** One swap of `down` moves the misplaced entry one level lower. */
  lemma DownStep(o: Order, jobs: map<JobId, Job>, s: seq<JobId>, i: nat, n: nat)
    requires n <= |s| && 2 * i + 1 < n && OrderedExceptDown(o, jobs, s, i, n)
    requires Less(o, jobs, s[Child(o, jobs, s, i, n)], s[i])
    ensures OrderedExceptDown(o, jobs, Swap(s, i, Child(o, jobs, s, i, n)), Child(o, jobs, s, i, n), n)
  {
    var c := Child(o, jobs, s, i, n);
    var t := Swap(s, i, c);
    forall k | 0 < k < n && Parent(k) != c
      ensures Key(o, jobs, t[Parent(k)]) <= Key(o, jobs, t[k])
    {
      if Parent(k) == i {
        assert k == 2 * i + 1 || k == 2 * i + 2;
      } else if k == i {
        assert Parent(c) == i;
      }
    }
    forall k | 0 < k < n && Parent(k) == c
      ensures Key(o, jobs, t[Parent(c)]) <= Key(o, jobs, t[k])
    {
      assert t[k] == s[k] && t[i] == s[c];
    }
  }

  /** Where `down` stops, the misplaced entry has found its place. */
  lemma DownStops(o: Order, jobs: map<JobId, Job>, s: seq<JobId>, i: nat, n: nat)
    requires n <= |s| && OrderedExceptDown(o, jobs, s, i, n)
    requires 2 * i + 1 < n ==> !Less(o, jobs, s[Child(o, jobs, s, i, n)], s[i])
    ensures HeapOrdered(o, jobs, s[..n])
  {
    var p := s[..n];
    forall k | 0 < k < n
      ensures Key(o, jobs, p[Parent(k)]) <= Key(o, jobs, p[k])
    {
      assert p[k] == s[k] && p[Parent(k)] == s[Parent(k)];
      if Parent(k) == i {
        assert k == 2 * i + 1 || k == 2 * i + 2;
        var c := Child(o, jobs, s, i, n);
        assert Key(o, jobs, s[i]) <= Key(o, jobs, s[c]) <= Key(o, jobs, s[k]);
      }
    }
  }

  lemma {:induction false} DownOrders(o: Order, jobs: map<JobId, Job>, s: seq<JobId>, i: nat, n: nat)
    requires n <= |s| && OrderedExceptDown(o, jobs, s, i, n)
    ensures HeapOrdered(o, jobs, Down(o, jobs, s, i, n)[..n])
    decreases n - i
  {
    if 2 * i + 1 < n && Less(o, jobs, s[Child(o, jobs, s, i, n)], s[i]) {
      DownStep(o, jobs, s, i, n);
      DownOrders(o, jobs, Swap(s, i, Child(o, jobs, s, i, n)), Child(o, jobs, s, i, n), n);
    } else {
      DownStops(o, jobs, s, i, n);
    }
  }

  lemma PushKeepsOrder(o: Order, jobs: map<JobId, Job>, s: seq<JobId>, id: JobId)
    requires HeapOrdered(o, jobs, s)
    ensures HeapOrdered(o, jobs, Push(o, jobs, s, id))
  {
    var t := s + [id];
    assert forall i :: 0 < i < |s| ==> t[i] == s[i] && t[Parent(i)] == s[Parent(i)];
    UpOrders(o, jobs, t, |s|);
  }

  lemma PopKeepsOrder(o: Order, jobs: map<JobId, Job>, s: seq<JobId>)
    requires |s| > 0 && HeapOrdered(o, jobs, s)
    ensures HeapOrdered(o, jobs, Pop(o, jobs, s))
  {
    var n := |s| - 1;
    var t := Swap(s, 0, n);
    assert forall i :: 0 < i < n ==> t[i] == s[i];
    DownOrders(o, jobs, t, 0, n);
  }

  lemma {:induction false} PushAllKeepsOrder(o: Order, jobs: map<JobId, Job>, s: seq<JobId>, ids: seq<JobId>)
    requires HeapOrdered(o, jobs, s)
    ensures HeapOrdered(o, jobs, PushAll(o, jobs, s, ids))
    decreases |ids|
  {
    if ids != [] {
      PushAllKeepsOrder(o, jobs, s, ids[..|ids| - 1]);
      PushKeepsOrder(o, jobs, PushAll(o, jobs, s, ids[..|ids| - 1]), ids[|ids| - 1]);
    }
  }

  /** The head of an ordered heap sorts no later than any entry. */
  lemma {:induction false} HeadIsLeast(o: Order, jobs: map<JobId, Job>, s: seq<JobId>, i: nat)
    requires HeapOrdered(o, jobs, s) && i < |s|
    ensures Key(o, jobs, s[0]) <= Key(o, jobs, s[i])
  {
    if i > 0 {
      HeadIsLeast(o, jobs, s, Parent(i));
    }
  }

  lemma HeadSortsFirst(o: Order, jobs: map<JobId, Job>, s: seq<JobId>)
    requires HeapOrdered(o, jobs, s)
    ensures forall x :: x in s ==> Key(o, jobs, s[0]) <= Key(o, jobs, x)
  {
    forall x | x in s
      ensures Key(o, jobs, s[0]) <= Key(o, jobs, x)
    {
      var i :| 0 <= i < |s| && s[i] == x;
      HeadIsLeast(o, jobs, s, i);
    }
  }

  /** Order depends on the store only through the keys of the queued ids. */
  lemma OrderFollowsKeys(o: Order, jobs: map<JobId, Job>, jobs': map<JobId, Job>, s: seq<JobId>)
    requires forall id :: id in s ==> Key(o, jobs, id) == Key(o, jobs', id)
    ensures HeapOrdered(o, jobs, s) <==> HeapOrdered(o, jobs', s)
  {
  }

  // ---------- a key that changes while its id is queued ----------

  ghost predicate SameKeysBut(o: Order, jobs: map<JobId, Job>, jobs': map<JobId, Job>, id: JobId) {
    forall x :: x != id ==> Key(o, jobs', x) == Key(o, jobs, x)
  }

  /** Key k fits every place of id in s: no child of such a place sorts before k, no parent
      after it. A parent in place `land` is exempt. */
  ghost predicate Fits(o: Order, jobs: map<JobId, Job>, s: seq<JobId>, id: JobId, k: int, land: int) {
    && (forall i :: 0 < i < |s| && s[Parent(i)] == id && s[i] != id ==> k <= Key(o, jobs, s[i]))
    && (forall i :: 0 < i < |s| && s[i] == id && s[Parent(i)] != id ==>
          Key(o, jobs, s[Parent(i)]) <= k || Parent(i) == land)
  }

  /** A new key for a queued id keeps the order exactly when it fits all places of the id. */
  lemma RekeyKeepsOrderIff(o: Order, jobs: map<JobId, Job>, jobs': map<JobId, Job>, s: seq<JobId>, id: JobId)
    requires HeapOrdered(o, jobs, s) && SameKeysBut(o, jobs, jobs', id)
    ensures HeapOrdered(o, jobs', s) <==> Fits(o, jobs, s, id, Key(o, jobs', id), -1)
  {
  }

  /** The place where `up` leaves the entry that starts at j. */
  function Landing(o: Order, jobs: map<JobId, Job>, s: seq<JobId>, j: nat): (l: nat)
    requires j < |s|
    ensures l <= j
    decreases j
  {
    if j == 0 || !Less(o, jobs, s[j], s[Parent(j)]) then j
    else Landing(o, jobs, Swap(s, Parent(j), j), Parent(j))
  }

  /** As OrderedExceptUp, but entries equal to the one on the move may also hang too low
      under the place where it will land. */
  ghost predicate OrderedExceptLanding(o: Order, jobs: map<JobId, Job>, s: seq<JobId>, j: nat, land: nat)
    requires j < |s|
  {
    && (forall i :: 0 < i < |s| && i != j ==>
          || Key(o, jobs, s[Parent(i)]) <= Key(o, jobs, s[i])
          || (Parent(i) == land && Key(o, jobs, s[i]) == Key(o, jobs, s[j])))
    && (forall i :: 0 < i < |s| && j > 0 && Parent(i) == j ==>
          || Key(o, jobs, s[Parent(j)]) <= Key(o, jobs, s[i])
          || (j == land && Key(o, jobs, s[i]) == Key(o, jobs, s[j])))
  }

  lemma LandingStep(o: Order, jobs: map<JobId, Job>, s: seq<JobId>, j: nat, land: nat)
    requires 0 < j < |s| && land < j && OrderedExceptLanding(o, jobs, s, j, land)
    requires Less(o, jobs, s[j], s[Parent(j)])
    ensures OrderedExceptLanding(o, jobs, Swap(s, Parent(j), j), Parent(j), land)
  {
    var t := Swap(s, Parent(j), j);
    assert forall i :: 0 <= i < |s| && i != j && i != Parent(j) ==> t[i] == s[i];
  }

  lemma {:induction false} UpOrdersAroundLanding(o: Order, jobs: map<JobId, Job>, s: seq<JobId>, j: nat)
    requires j < |s| && OrderedExceptLanding(o, jobs, s, j, Landing(o, jobs, s, j))
    ensures HeapOrdered(o, jobs, Up(o, jobs, s, j))
    decreases j
  {
    if j != 0 && Less(o, jobs, s[j], s[Parent(j)]) {
      LandingStep(o, jobs, s, j, Landing(o, jobs, s, j));
      UpOrdersAroundLanding(o, jobs, Swap(s, Parent(j), j), Parent(j));
    }
  }

  /** `up` moves no entry that sorts as early as the one on the move, and wherever a later
      one stood, a later one stands, except in the landing place. */
  lemma {:induction false} UpShape(o: Order, jobs: map<JobId, Job>, s: seq<JobId>, j: nat, p: nat)
    requires j < |s| && p < |s|
    ensures p != j && Key(o, jobs, s[p]) <= Key(o, jobs, s[j]) ==> Up(o, jobs, s, j)[p] == s[p]
    ensures p != Landing(o, jobs, s, j) && (p == j || Key(o, jobs, s[p]) > Key(o, jobs, s[j])) ==>
              Key(o, jobs, Up(o, jobs, s, j)[p]) > Key(o, jobs, s[j])
    decreases j
  {
    if j != 0 && Less(o, jobs, s[j], s[Parent(j)]) {
      UpShape(o, jobs, Swap(s, Parent(j), j), Parent(j), p);
    }
  }

  lemma RequeueNeedsFit(o: Order, jobs: map<JobId, Job>, jobs': map<JobId, Job>, s: seq<JobId>, id: JobId)
    requires HeapOrdered(o, jobs', Push(o, jobs', s, id)) && SameKeysBut(o, jobs, jobs', id)
    ensures Fits(o, jobs, s, id, Key(o, jobs', id), Landing(o, jobs', s + [id], |s|))
  {
    var t := s + [id];
    forall p | 0 <= p < |s|
      ensures Key(o, jobs', s[p]) <= Key(o, jobs', id) ==> Up(o, jobs', t, |s|)[p] == s[p]
      ensures p != Landing(o, jobs', t, |s|) && Key(o, jobs', s[p]) > Key(o, jobs', id) ==>
                Key(o, jobs', Up(o, jobs', t, |s|)[p]) > Key(o, jobs', id)
    {
      assert t[p] == s[p] && t[|s|] == id;
      UpShape(o, jobs', t, |s|, p);
    }
  }

  lemma FitSuffices(o: Order, jobs: map<JobId, Job>, jobs': map<JobId, Job>, s: seq<JobId>, id: JobId)
    requires HeapOrdered(o, jobs, s) && SameKeysBut(o, jobs, jobs', id)
    requires Fits(o, jobs, s, id, Key(o, jobs', id), Landing(o, jobs', s + [id], |s|))
    ensures HeapOrdered(o, jobs', Push(o, jobs', s, id))
  {
    var t, land := s + [id], Landing(o, jobs', s + [id], |s|);
    forall i | 0 < i < |s|
      ensures || Key(o, jobs', t[Parent(i)]) <= Key(o, jobs', t[i])
              || (Parent(i) == land && Key(o, jobs', t[i]) == Key(o, jobs', t[|s|]))
    {
      assert t[i] == s[i] && t[Parent(i)] == s[Parent(i)];
    }
    UpOrdersAroundLanding(o, jobs', t, |s|);
  }

  /** An id queued once more right after its key changed leaves the heap in order exactly
      when the new key fits its old places, those under the new entry excepted. */
  lemma RequeueKeepsOrderIff(o: Order, jobs: map<JobId, Job>, jobs': map<JobId, Job>, s: seq<JobId>, id: JobId)
    requires HeapOrdered(o, jobs, s) && SameKeysBut(o, jobs, jobs', id)
    ensures HeapOrdered(o, jobs', Push(o, jobs', s, id)) <==>
            Fits(o, jobs, s, id, Key(o, jobs', id), Landing(o, jobs', s + [id], |s|))
  {
    if HeapOrdered(o, jobs', Push(o, jobs', s, id)) {
      RequeueNeedsFit(o, jobs, jobs', s, id);
    }
    if Fits(o, jobs, s, id, Key(o, jobs', id), Landing(o, jobs', s + [id], |s|)) {
      FitSuffices(o, jobs, jobs', s, id);
    }
  }

  /** The common case: a key that does not fall. Then only the children count. */
  lemma RaisedKeyFits(o: Order, jobs: map<JobId, Job>, s: seq<JobId>, id: JobId, k: int, land: int)
    requires HeapOrdered(o, jobs, s) && Key(o, jobs, id) <= k
    ensures Fits(o, jobs, s, id, k, land) <==>
            forall i :: 0 < i < |s| && s[Parent(i)] == id && s[i] != id ==> k <= Key(o, jobs, s[i])
  {
  }

  /** The ids that repeated dequeues hand out. */
  function Drain(o: Order, jobs: map<JobId, Job>, s: seq<JobId>): seq<JobId>
    decreases |s|
  {
    if s == [] then [] else
      PopContents(o, jobs, s);
      [s[0]] + Drain(o, jobs, Pop(o, jobs, s))
  }

  lemma {:induction false} DrainConserves(o: Order, jobs: map<JobId, Job>, s: seq<JobId>)
    ensures multiset(Drain(o, jobs, s)) == multiset(s)
    decreases |s|
  {
    if s != [] {
      PopContents(o, jobs, s);
      DrainConserves(o, jobs, Pop(o, jobs, s));
    }
  }

  /** Draining a heap hands out every queued id exactly as often as it was queued, in
      key order: by falling priority, or by rising run time. */
  lemma {:induction false} DrainSorts(o: Order, jobs: map<JobId, Job>, s: seq<JobId>)
    requires HeapOrdered(o, jobs, s)
    ensures multiset(Drain(o, jobs, s)) == multiset(s)
    ensures forall i, j :: 0 <= i < j < |Drain(o, jobs, s)| ==>
              Key(o, jobs, Drain(o, jobs, s)[i]) <= Key(o, jobs, Drain(o, jobs, s)[j])
    decreases |s|
  {
    DrainConserves(o, jobs, s);
    if s != [] {
      PopKeepsOrder(o, jobs, s);
      PopContents(o, jobs, s);
      DrainSorts(o, jobs, Pop(o, jobs, s));
      HeadSortsFirst(o, jobs, s);
      MembersOfMultisets(Drain(o, jobs, s), s);
      forall j | 0 <= j < |Drain(o, jobs, s)|
        ensures Key(o, jobs, s[0]) <= Key(o, jobs, Drain(o, jobs, s)[j])
      {
        assert Drain(o, jobs, s)[j] in s;
      }
    }
  }
}
