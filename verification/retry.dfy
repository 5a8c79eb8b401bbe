/** Retry policy (internal/retry/policy.go), in signed 64-bit nanoseconds. */
module Retry {
  import opened Jobs
  import opened Text

  const SECOND := 1_000_000_000
  const MINUTE := 60 * SECOND

  predicate ShouldRetry(j: Job) {
    j.retryCount < j.maxRetries
  }

  function Pow2(k: nat): nat {
    if k == 0 then 1 else 2 * Pow2(k - 1)
  }

  /** Two's-complement reduction to 64 bits. */
  function Wrap64(x: int): int {
    (x + 0x8000_0000_0000_0000) % 0x1_0000_0000_0000_0000 - 0x8000_0000_0000_0000
  }

  /** The 64-bit product of a second and a 64-bit shift; a shift by 64 or more is zero. */
  function Product(k: nat): int {
    Wrap64(SECOND * (if k >= 64 then 0 else Wrap64(Pow2(k))))
  }

  function Backoff(retryCount: nat, maxBackoff: int): int {
    if Product(retryCount) > maxBackoff then maxBackoff else Product(retryCount)
  }

  function NextRetryTime(now: Time, retryCount: nat, maxBackoff: int): Time {
    now + Backoff(retryCount, maxBackoff)
  }

  function Min(a: int, b: int): int { if a < b then a else b }

  lemma {:induction false} Pow2Monotone(a: nat, b: nat)
    requires a <= b
    ensures Pow2(a) <= Pow2(b)
    decreases b
  {
    if a < b {
      Pow2Monotone(a, b - 1);
    }
  }

  lemma Pow2PlusFour(k: nat)
    ensures Pow2(k + 4) == 16 * Pow2(k)
  {
    assert Pow2(k + 2) == 4 * Pow2(k);
  }

  lemma Pow2Values()
    ensures Pow2(33) == 8_589_934_592 && Pow2(34) == 17_179_869_184
  {
    Pow2PlusFour(1);
    Pow2PlusFour(5);
    Pow2PlusFour(9);
    Pow2PlusFour(13);
    Pow2PlusFour(17);
    Pow2PlusFour(21);
    Pow2PlusFour(25);
    Pow2PlusFour(29);
  }

  lemma WrapIsIdentity(x: int)
    requires MIN_INT64 <= x <= MAX_INT64
    ensures Wrap64(x) == x
  {
  }

  lemma NoWrapUpTo33(k: nat)
    requires k <= 33
    ensures Product(k) == SECOND * Pow2(k)
  {
    Pow2Values();
    Pow2Monotone(k, 33);
    WrapIsIdentity(Pow2(k));
    WrapIsIdentity(SECOND * Pow2(k));
  }

  // ---------- shifts of 34 and more ----------

  /** What 64 bits leave of 2^k seconds, in nanoseconds, for shifts beyond 33. */
  function Remainder(k: nat): int {
    match k
    case 34 => -1_266_874_889_709_551_616
    case 35 => -2_533_749_779_419_103_232
    case 36 => -5_067_499_558_838_206_464
    case 37 => 8_311_744_956_033_138_688
    case 38 => -1_823_254_161_643_274_240
    case 39 => -3_646_508_323_286_548_480
    case 40 => -7_293_016_646_573_096_960
    case 41 => 3_860_710_780_563_357_696
    case 42 => 7_721_421_561_126_715_392
    case 43 => -3_003_900_951_456_120_832
    case 44 => -6_007_801_902_912_241_664
    case 45 => 6_431_140_267_885_068_288
    case 46 => -5_584_463_537_939_415_040
    case 47 => 7_277_816_997_830_721_536
    case 48 => -3_891_110_078_048_108_544
    case 49 => -7_782_220_156_096_217_088
    case 50 => 2_882_303_761_517_117_440
    case 51 => 5_764_607_523_034_234_880
    case 52 => -6_917_529_027_641_081_856
    case 53 => 4_611_686_018_427_387_904
    case 54 => -9_223_372_036_854_775_808
    case _ => 0
  }

  lemma WrapIgnoresMultiples(x: int, q: int)
    ensures Wrap64(x + q * 0x1_0000_0000_0000_0000) == Wrap64(x)
  {
    var y := x + 0x8000_0000_0000_0000;
    var n := 0x1_0000_0000_0000_0000;
    assert (y + q * n) % n == y % n;
  }

  lemma WrapOfDouble(x: int)
    ensures Wrap64(2 * Wrap64(x)) == Wrap64(2 * x)
  {
    var q := (x + 0x8000_0000_0000_0000) / 0x1_0000_0000_0000_0000;
    assert Wrap64(x) == x - q * 0x1_0000_0000_0000_0000;
    assert 2 * Wrap64(x) == 2 * x + (-2 * q) * 0x1_0000_0000_0000_0000;
    WrapIgnoresMultiples(2 * x, -2 * q);
  }

  lemma WrapOfSecond(x: int)
    ensures Wrap64(SECOND * Wrap64(x)) == Wrap64(SECOND * x)
  {
    var q := (x + 0x8000_0000_0000_0000) / 0x1_0000_0000_0000_0000;
    assert SECOND * Wrap64(x) == SECOND * x + (-SECOND * q) * 0x1_0000_0000_0000_0000;
    WrapIgnoresMultiples(SECOND * x, -SECOND * q);
  }

  /** One more shift doubles the product modulo 2^64. */
  lemma ProductDoubles(k: nat)
    requires k < 63
    ensures Product(k + 1) == Wrap64(2 * Product(k))
  {
    WrapOfSecond(Pow2(k));
    WrapOfSecond(Pow2(k + 1));
    WrapOfDouble(SECOND * Pow2(k));
  }

  lemma RemainderDoubles(k: nat)
    requires k >= 34
    ensures Wrap64(2 * Remainder(k)) == Remainder(k + 1)
  {
  }

  lemma {:induction false} ProductIsRemainder(k: nat)
    requires k >= 34
    ensures Product(k) == Remainder(k)
  {
    if k < 64 {
      if k == 34 {
        NoWrapUpTo33(k - 1);
        Pow2Values();
      } else {
        ProductIsRemainder(k - 1);
        RemainderDoubles(k - 1);
      }
      ProductDoubles(k - 1);
    }
  }

  /** The delay is min(2^k seconds, maxBackoff) exactly up to the 33rd shift and, beyond it,
      where the tabled remainder still reaches the cap. */
  lemma BackoffExactIff(k: nat, maxBackoff: int)
    requires maxBackoff <= MAX_INT64
    ensures Backoff(k, maxBackoff) == Min(SECOND * Pow2(k), maxBackoff) <==>
            k <= 33 || Remainder(k) >= maxBackoff
  {
    if k <= 33 {
      NoWrapUpTo33(k);
    } else {
      Pow2Values();
      Pow2Monotone(34, k);
      ProductIsRemainder(k);
    }
  }

  lemma RemainderSigns(k: nat)
    ensures k >= 34 ==> (Remainder(k) >= 60_000_000_000 <==> k in {37, 41, 42, 45, 47, 50, 51, 53})
    ensures 34 <= k <= 54 && k !in {37, 41, 42, 45, 47, 50, 51, 53} ==> Remainder(k) < 0
    ensures k >= 55 ==> Remainder(k) == 0
  {
  }

  /** With the deployed cap of a minute the delay is right for exactly these shifts. On the
      others up to 54 it is negative, a retry in the past; from 55 on it is zero. */
  lemma MinuteBackoffExactIff(k: nat)
    ensures Backoff(k, 60_000_000_000) == Min(1_000_000_000 * Pow2(k), 60_000_000_000) <==>
            k <= 33 || k in {37, 41, 42, 45, 47, 50, 51, 53}
    ensures 34 <= k <= 54 && k !in {37, 41, 42, 45, 47, 50, 51, 53} ==> Backoff(k, 60_000_000_000) < 0
    ensures k >= 55 ==> Backoff(k, 60_000_000_000) == 0
  {
    var cap := 60_000_000_000;
    BackoffExactIff(k, cap);
    RemainderSigns(k);
    if k >= 34 {
      ProductIsRemainder(k);
    }
  }

  /** The first shift that wraps yields a delay in the past. */
  lemma BackoffAt34()
    ensures Backoff(34, 60_000_000_000) == -1_266_874_889_709_551_616
  {
    ProductIsRemainder(34);
  }

  /** Within the safe range a later retry never waits less. */
  lemma BackoffMonotone(k: nat, l: nat, maxBackoff: int)
    requires k <= l <= 33
    ensures Backoff(k, maxBackoff) <= Backoff(l, maxBackoff)
  {
    NoWrapUpTo33(k);
    NoWrapUpTo33(l);
    Pow2Monotone(k, l);
  }
}
