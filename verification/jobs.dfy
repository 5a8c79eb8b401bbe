/** Job records and their status machine (internal/job/job.go). */
module Jobs {

  /** Wall-clock time in nanoseconds; 0 is the zero time of an unset field. */
  type Time = int

  /** Ids are issued from 1 upwards. */
  type JobId = nat

  datatype Option<+T> = None | Some(value: T)

  /** The next key of a map iteration, whose order is unspecified: any not yet visited. */
  method NextKey<K(==)>(rest: set<K>) returns (k: K)
    requires rest != {}
    ensures k in rest
  {
    k :| k in rest;
  }

  /** A status is a string in the source; `Other` stands for every string that is
      none of the five named ones. */
  datatype Status = Pending | Scheduled | Completed | Failed | Cancelled | Other(text: string)

  datatype Job = Job(
    id: JobId,
    kind: string,
    priority: int,
    status: Status,
    retryCount: nat,
    maxRetries: nat,
    nextRunAt: Time,
    lastError: string,
    key: string)

  const DEFAULT_MAX_RETRIES: nat := 3

  /** What a lookup of a missing id hands to its caller. */
  const ZERO_JOB := Job(0, "", 0, Other(""), 0, 0, 0, "", "")

  function NewJob(id: JobId, kind: string, priority: int): Job {
    Job(id, kind, priority, Pending, 0, DEFAULT_MAX_RETRIES, 0, "", "")
  }

  predicate Terminal(s: Status) {
    s == Completed || s == Failed || s == Cancelled
  }

  predicate IsValidTransition(current: Status, next: Status) {
    if current == next then true
    else match current
      case Pending => next == Scheduled || next == Completed || next == Failed || next == Cancelled
      case Scheduled => next == Pending || next == Cancelled
      case Completed => false
      case Failed => false
      case Cancelled => false
      case Other(_) => false
  }

  /** The accepted changes: Pending to anything named, Scheduled back to Pending or to
      Cancelled, and nothing else but staying. */
  lemma TransitionTable(current: Status, next: Status)
    ensures IsValidTransition(current, next) <==>
            || current == next
            || (current, next) in {(Pending, Scheduled), (Pending, Completed), (Pending, Failed), (Pending, Cancelled),
                                   (Scheduled, Pending), (Scheduled, Cancelled)}
  {
  }

  /** A history of statuses the stores would accept, one `Update` after the other. */
  ghost predicate ValidHistory(h: seq<Status>) {
    forall i :: 0 <= i < |h| - 1 ==> IsValidTransition(h[i], h[i + 1])
  }

  /** A history stays for good in any status but Pending and Scheduled, and never enters an
      unnamed one. */
  lemma {:induction false} HistoryNeverLeavesTerminal(h: seq<Status>, i: nat, k: nat)
    requires ValidHistory(h) && i <= k < |h|
    ensures h[i] != Pending && h[i] != Scheduled ==> h[k] == h[i]
    ensures h[k].Other? ==> h[i] == h[k]
    decreases k - i
  {
    if i < k {
      assert IsValidTransition(h[i], h[i + 1]);
      HistoryNeverLeavesTerminal(h, i + 1, k);
    }
  }
}
