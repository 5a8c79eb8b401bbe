/** The token-bucket rate limiter (internal/executor/token_bucket.go): a channel of tokens,
    filled once, topped up by a ticker and drained by callers. */
module TokenBuckets {

  /** A ticker firing, or a caller getting its token. */
  datatype Event = Tick | Acquire

  /** The capacity in use: at least one. */
  function Burst(burst: int): nat {
    if burst <= 0 then 1 else burst
  }

  /** Tokens in the channel after the events; a tick on a full channel is dropped. */
  function Tokens(burst: int, es: seq<Event>): int
    decreases |es|
  {
    if es == [] then Burst(burst)
    else
      var t := Tokens(burst, es[..|es| - 1]);
      match es[|es| - 1]
      case Tick => if t < Burst(burst) then t + 1 else t
      case Acquire => t - 1
  }

  /** Callers block on an empty channel: an acquire happens only with a token there. */
  predicate Legal(burst: int, es: seq<Event>)
    decreases |es|
  {
    es == [] ||
    (Legal(burst, es[..|es| - 1]) && (es[|es| - 1] == Acquire ==> Tokens(burst, es[..|es| - 1]) > 0))
  }

  function Acquires(es: seq<Event>): nat
    decreases |es|
  {
    if es == [] then 0 else Acquires(es[..|es| - 1]) + if es[|es| - 1] == Acquire then 1 else 0
  }

  function Ticks(es: seq<Event>): nat
    decreases |es|
  {
    if es == [] then 0 else Ticks(es[..|es| - 1]) + if es[|es| - 1] == Tick then 1 else 0
  }

  /** Ticks that found room. */
  function EffectiveTicks(burst: int, es: seq<Event>): nat
    decreases |es|
  {
    if es == [] then 0
    else
      EffectiveTicks(burst, es[..|es| - 1]) +
      if es[|es| - 1] == Tick && Tokens(burst, es[..|es| - 1]) < Burst(burst) then 1 else 0
  }

  /** The tokens held are the burst plus the effective ticks minus the acquires, and stay
      between zero and the burst. */
  lemma {:induction false} TokenBalance(burst: int, es: seq<Event>)
    requires Legal(burst, es)
    ensures Tokens(burst, es) == Burst(burst) + EffectiveTicks(burst, es) - Acquires(es)
    ensures 0 <= Tokens(burst, es) <= Burst(burst)
    decreases |es|
  {
    if es != [] {
      TokenBalance(burst, es[..|es| - 1]);
    }
  }

  lemma {:induction false} LegalPrefix(burst: int, es: seq<Event>, n: nat)
    requires Legal(burst, es) && n <= |es|
    ensures Legal(burst, es[..n])
    decreases |es|
  {
    if n == |es| {
      assert es[..n] == es;
    } else {
      LegalPrefix(burst, es[..|es| - 1], n);
      assert es[..|es| - 1][..n] == es[..n];
    }
  }

  lemma {:induction false} WindowBalance(burst: int, es: seq<Event>, i: nat, j: nat)
    requires i <= j <= |es|
    ensures Tokens(burst, es[..j]) + Acquires(es[i..j]) <= Tokens(burst, es[..i]) + Ticks(es[i..j])
    decreases j
  {
    if i < j {
      WindowBalance(burst, es, i, j - 1);
      assert es[..j][..j - 1] == es[..j - 1];
      assert es[i..j][..j - i - 1] == es[i..j - 1];
    }
  }

  /** The rate limit: in every window of every run, the callers that got through are at most
      the burst, or one if it is not positive, plus the ticks in that window. */
  lemma WindowBound(burst: int, es: seq<Event>, i: nat, j: nat)
    requires Legal(burst, es) && i <= j <= |es|
    ensures burst > 0 ==> Acquires(es[i..j]) <= burst + Ticks(es[i..j])
    ensures burst <= 0 ==> Acquires(es[i..j]) <= 1 + Ticks(es[i..j])
  {
    LegalPrefix(burst, es, i);
    LegalPrefix(burst, es, j);
    TokenBalance(burst, es[..i]);
    TokenBalance(burst, es[..j]);
    WindowBalance(burst, es, i, j);
  }

  /** The limit is reached: after any run with tokens left, that many callers get through at
      once, at the start the whole burst. */
  lemma {:induction false} TokensAreAvailable(burst: int, es: seq<Event>, n: nat)
    requires Legal(burst, es) && n <= Tokens(burst, es)
    ensures Legal(burst, es + seq(n, _ => Acquire)) && Tokens(burst, es + seq(n, _ => Acquire)) == Tokens(burst, es) - n
    ensures Tokens(burst, []) == if burst > 0 then burst else 1
    decreases n
  {
    var more := es + seq(n, _ => Acquire);
    if n == 0 {
      assert more == es;
    } else {
      TokensAreAvailable(burst, es, n - 1);
      assert more[..|more| - 1] == es + seq(n - 1, _ => Acquire);
    }
  }

  class TokenBucketLimiter {
    var tokens: nat
    const capacity: nat
    ghost const burst: int
    ghost var events: seq<Event>

    ghost predicate Valid()
      reads this
    {
      capacity == Burst(burst) && tokens == Tokens(burst, events) && Legal(burst, events)
    }

    constructor (burst: int)
      ensures Valid() && this.burst == burst && events == []
      ensures tokens == capacity == if burst > 0 then burst else 1
    {
      var cap := if burst <= 0 then 1 else burst;
      var n := 0;
      for i := 0 to cap
        invariant n == i
      {
        n := n + 1;
      }
      capacity, tokens := cap, n;
      this.burst, events := burst, [];
    }

    method Ticked()
      requires Valid()
      modifies this
      ensures Valid() && events == old(events) + [Tick]
      ensures tokens == if old(tokens) == capacity then capacity else old(tokens) + 1
    {
      TokenBalance(burst, events);
      if tokens < capacity {
        tokens := tokens + 1;
      }
      assert (events + [Tick])[..|events|] == events;
      events := events + [Tick];
    }

    /** The moment a blocked or arriving caller receives its token. */
    method AcquireToken()
      requires Valid() && tokens > 0
      modifies this
      ensures Valid() && events == old(events) + [Acquire] && tokens == old(tokens) - 1
    {
      tokens := tokens - 1;
      assert (events + [Acquire])[..|events|] == events;
      events := events + [Acquire];
    }
  }
}
