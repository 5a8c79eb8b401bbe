/** The circuit breaker (internal/executor/breaker.go). A call passes two critical sections,
    one before and one after the protected work; any number of calls may overlap, so a run
    is an arbitrary sequence of begins and ends. */
module CircuitBreakers {
  import opened Jobs

  datatype Mode = Closed | Open | HalfOpen

  datatype Breaker = Breaker(
    mode: Mode,
    failures: nat,
    threshold: int,
    resetTimeout: int,
    openedAt: Time,
    halfOpenTesting: bool)

  function New(threshold: int, resetTimeout: int): Breaker {
    Breaker(Closed, 0, threshold, resetTimeout, 0, false)
  }

  /** The first critical section; the boolean tells whether the call is let through. */
  function Begin(b: Breaker, now: Time): (Breaker, bool) {
    match b.mode
    case Closed => (b, true)
    case Open =>
      if now - b.openedAt < b.resetTimeout then (b, false)
      else (b.(mode := HalfOpen, halfOpenTesting := true), true)
    case HalfOpen =>
      if b.halfOpenTesting then (b, false) else (b.(halfOpenTesting := true), true)
  }

  /** The second critical section, after the work succeeded or failed. */
  function End(b: Breaker, success: bool, now: Time): Breaker {
    var b1 := b.(halfOpenTesting := false);
    if success then b1.(failures := 0, mode := Closed)
    else
      var b2 := b1.(failures := b1.failures + 1);
      if b2.failures >= b2.threshold then b2.(mode := Open, openedAt := now) else b2
  }

  datatype Event = Begins(now: Time) | Ends(success: bool, now: Time)

  function Run(threshold: int, resetTimeout: int, es: seq<Event>): Breaker
    decreases |es|
  {
    if es == [] then New(threshold, resetTimeout)
    else
      var b := Run(threshold, resetTimeout, es[..|es| - 1]);
      match es[|es| - 1]
      case Begins(now) => Begin(b, now).0
      case Ends(success, now) => End(b, success, now)
  }

  // ---------- the history a state stands for ----------

  /** How many completions in a row, up to now, were failures. */
  function TrailingFailures(es: seq<Event>): nat
    decreases |es|
  {
    if es == [] then 0
    else
      var before := TrailingFailures(es[..|es| - 1]);
      match es[|es| - 1]
      case Begins(_) => before
      case Ends(success, _) => if success then 0 else before + 1
  }

  function LastCompletion(es: seq<Event>): Time
    decreases |es|
  {
    if es == [] then 0
    else match es[|es| - 1]
         case Begins(_) => LastCompletion(es[..|es| - 1])
         case Ends(_, now) => now
  }

  /** Enough failures in a row; a threshold below one acts like one. */
  predicate Tripped(threshold: int, es: seq<Event>) {
    TrailingFailures(es) >= 1 && TrailingFailures(es) >= threshold
  }

  /** Whether a trial was let through, while tripped, since the last completion. */
  predicate TrialOut(threshold: int, resetTimeout: int, es: seq<Event>)
    decreases |es|
  {
    es != [] &&
    var front := es[..|es| - 1];
    match es[|es| - 1]
    case Ends(_, _) => false
    case Begins(now) =>
      TrialOut(threshold, resetTimeout, front) ||
      (Tripped(threshold, front) && now - LastCompletion(front) >= resetTimeout)
  }

  /** The breaker is a function of the completion history: its mode, its counter, its trial
      flag and, while tripped, its opening time follow from the trailing failures, the last
      completion and whether a trial is out. */
  lemma {:induction false} BreakerIsHistory(threshold: int, resetTimeout: int, es: seq<Event>)
    ensures var b := Run(threshold, resetTimeout, es);
            && b.failures == TrailingFailures(es)
            && b.threshold == threshold && b.resetTimeout == resetTimeout
            && (b.mode == Closed <==> !Tripped(threshold, es))
            && (b.mode == HalfOpen <==> Tripped(threshold, es) && TrialOut(threshold, resetTimeout, es))
            && (b.halfOpenTesting <==> b.mode == HalfOpen)
            && (b.mode != Closed ==> b.openedAt == LastCompletion(es))
    ensures TrialOut(threshold, resetTimeout, es) ==> Tripped(threshold, es)
    decreases |es|
  {
    if es != [] {
      BreakerIsHistory(threshold, resetTimeout, es[..|es| - 1]);
    }
  }

  predicate Admits(threshold: int, resetTimeout: int, es: seq<Event>, now: Time) {
    Begin(Run(threshold, resetTimeout, es), now).1
  }

  /** A call is let through exactly when the breaker is not tripped, or no trial is out and
      the reset timeout has passed since the last completion. */
  lemma AdmissionIff(threshold: int, resetTimeout: int, es: seq<Event>, now: Time)
    ensures Admits(threshold, resetTimeout, es, now) <==>
            || !Tripped(threshold, es)
            || (!TrialOut(threshold, resetTimeout, es) && now - LastCompletion(es) >= resetTimeout)
  {
    BreakerIsHistory(threshold, resetTimeout, es);
  }

  lemma {:induction false} TrialStaysOut(threshold: int, resetTimeout: int, es: seq<Event>, i: nat, j: nat)
    requires i < j <= |es| && es[i].Begins? && Tripped(threshold, es[..i])
    requires Admits(threshold, resetTimeout, es[..i], es[i].now)
    requires forall k :: i < k < j ==> es[k].Begins?
    ensures TrialOut(threshold, resetTimeout, es[..j])
    decreases j
  {
    assert es[..j][..j - 1] == es[..j - 1];
    if j == i + 1 {
      AdmissionIff(threshold, resetTimeout, es[..i], es[i].now);
    } else {
      TrialStaysOut(threshold, resetTimeout, es, i, j - 1);
    }
  }

  /** While tripped, at most one call is let through between two completions, however many
      overlap: two admissions have a completion between them. */
  lemma OneTrialPerCompletion(threshold: int, resetTimeout: int, es: seq<Event>, i: nat, j: nat)
    requires i < j < |es| && es[i].Begins? && es[j].Begins?
    requires Tripped(threshold, es[..i]) && Admits(threshold, resetTimeout, es[..i], es[i].now)
    requires Tripped(threshold, es[..j]) && Admits(threshold, resetTimeout, es[..j], es[j].now)
    ensures exists k :: i < k < j && es[k].Ends?
    ensures es[j].now - LastCompletion(es[..j]) >= resetTimeout
  {
    AdmissionIff(threshold, resetTimeout, es[..j], es[j].now);
    if forall k :: i < k < j ==> es[k].Begins? {
      TrialStaysOut(threshold, resetTimeout, es, i, j);
    }
  }

  // ---------- the object ----------

  class CircuitBreaker {
    var mode: Mode
    var failures: nat
    var openedAt: Time
    var halfOpenTesting: bool
    const threshold: int
    const resetTimeout: int

    ghost function View(): Breaker
      reads this
    {
      Breaker(mode, failures, threshold, resetTimeout, openedAt, halfOpenTesting)
    }

    constructor (threshold: int, resetTimeout: int)
      ensures View() == New(threshold, resetTimeout)
      ensures mode == Closed && failures == 0 && openedAt == 0 && !halfOpenTesting
    {
      mode, failures, openedAt, halfOpenTesting := Closed, 0, 0, false;
      this.threshold, this.resetTimeout := threshold, resetTimeout;
    }

    method BeginCall(now: Time) returns (admitted: bool)
      modifies this
      ensures (View(), admitted) == Begin(old(View()), now)
    {
      match mode {
        case Closed =>
        case Open =>
          if now - openedAt < resetTimeout {
            return false;
          }
          mode, halfOpenTesting := HalfOpen, true;
        case HalfOpen =>
          if halfOpenTesting {
            return false;
          }
          halfOpenTesting := true;
      }
      return true;
    }

    method EndCall(success: bool, now: Time)
      modifies this
      ensures View() == End(old(View()), success, now)
    {
      halfOpenTesting := false;
      if success {
        failures, mode := 0, Closed;
        return;
      }
      failures := failures + 1;
      if failures >= threshold {
        mode, openedAt := Open, now;
      }
    }
  }
}
