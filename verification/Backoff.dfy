/** Capped exponential backoff in the Go clients, with 64-bit durations. */
module Backoff {
  import opened Bits
  import opened Numbers

  const TWO62: int := 0x4000_0000_0000_0000
  const TWO63: int := 0x8000_0000_0000_0000
  const TWO64: int := 0x1_0000_0000_0000_0000

  const SECOND: int := 1_000_000_000

  predicate Int64(x: int) {
    -TWO63 <= x < TWO63
  }

  /** Two's complement wrap-around of 64-bit arithmetic. */
  function Wrap(x: int): (r: int)
    ensures Int64(r)
    ensures Int64(x) ==> r == x
  {
    (x + TWO63) % TWO64 - TWO63
  }

  datatype Policy = Policy(maxAttempts: int, initial: int, maxBackoff: int, jitter: real)

  const DEFAULT := Policy(3, SECOND / 10, 5 * SECOND, 0.2)

  predicate Policy64(p: Policy) {
    Int64(p.maxAttempts) && Int64(p.initial) && Int64(p.maxBackoff)
  }

  function ClampJitter(j: real): real {
    if j < 0.0 then 0.0 else if j > 1.0 then 1.0 else j
  }

  /** What every normalised policy of the stream client satisfies. */
  predicate Normal(p: Policy) {
    Policy64(p) && 1 <= p.maxAttempts && 0 < p.initial <= p.maxBackoff && 0.0 <= p.jitter <= 1.0
  }

  /** The stream client's normalisation: zero fields get defaults, then the maximum is raised to the initial backoff. */
  function NormalizeStream(p: Policy): (r: Policy)
    requires Policy64(p)
    ensures Normal(r)
    ensures Normal(p) ==> r == p
  {
    var attempts := if p.maxAttempts <= 0 then DEFAULT.maxAttempts else p.maxAttempts;
    var initial := if p.initial <= 0 then DEFAULT.initial else p.initial;
    var max := if p.maxBackoff <= 0 then DEFAULT.maxBackoff else p.maxBackoff;
    Policy(attempts, initial, if max < initial then initial else max, ClampJitter(p.jitter))
  }

  /** The REST client's normalisation raises the maximum only when it was given. */
  function NormalizeRest(p: Policy): Policy {
    var attempts := if p.maxAttempts <= 0 then DEFAULT.maxAttempts else p.maxAttempts;
    var initial := if p.initial <= 0 then DEFAULT.initial else p.initial;
    var max :=
      if p.maxBackoff <= 0 then DEFAULT.maxBackoff
      else if p.maxBackoff < initial then initial
      else p.maxBackoff;
    Policy(attempts, initial, max, ClampJitter(p.jitter))
  }

  /**
   * The REST policy is normal except when the maximum is left to its default of five seconds under a
   * longer initial backoff; otherwise both clients normalise alike.
   */
  lemma RestNormalExactly(p: Policy)
    requires Policy64(p)
    ensures Normal(NormalizeRest(p)) <==> !(p.maxBackoff <= 0 && p.initial > 5 * SECOND)
    ensures Normal(NormalizeRest(p)) <==> NormalizeRest(p) == NormalizeStream(p)
  {
  }

  lemma RestNormalFails()
    ensures var p := NormalizeRest(Policy(3, 10 * SECOND, 0, 0.2));
        p.initial == 10 * SECOND && p.maxBackoff == 5 * SECOND
  {
  }

  /** The intended delay before attempt `attempt + 1`. */
  function Closed(initial: int, max: int, attempt: nat): int
    requires attempt >= 1
  {
    Min(max, initial * Pow2(attempt - 1))
  }

  // ---------------------------------------------------------------- the doubling loop of the stream client

  /** `steps` turns of the loop. */
  function Doubled(delay: int, max: int, steps: nat): int
    decreases steps
  {
    if steps == 0 || delay >= max then delay else Doubled(Min(Wrap(delay * 2), max), max, steps - 1)
  }

  method DoublingLoop(initial: int, max: int, attempt: nat) returns (delay: int)
    requires attempt >= 1
    ensures delay == Doubled(initial, max, attempt - 1)
  {
    delay := initial;
    var step := 1;
    while step < attempt && delay < max
      invariant 1 <= step <= attempt
      invariant Doubled(initial, max, attempt - 1) == Doubled(delay, max, attempt - step)
      decreases attempt - step
    {
      delay := Wrap(delay * 2);
      if delay > max {
        delay := max;
      }
      step := step + 1;
    }
  }

  /** The first doubling of `d` that reaches 2^62: the last one that can be computed before 64 bits run out. */
  function Summit(d: int): (r: int)
    requires 0 < d < TWO63
    ensures TWO62 <= r < TWO63 && d <= r
    decreases TWO63 - d
  {
    if d >= TWO62 then d else Summit(2 * d)
  }

  lemma GrowsAtLeast(d: int, k: nat)
    requires d > 0
    ensures d * Pow2(k) >= d
  {
    assert d * (Pow2(k) - 1) >= 0;
  }

  lemma PowShift(d: int, k: nat)
    requires k > 0
    ensures d * Pow2(k) == (2 * d) * Pow2(k - 1)
  {
    assert Pow2(k) == 2 * Pow2(k - 1);
  }

  /** When the summit is at or above the maximum no doubling ever wraps. */
  lemma {:induction false} DoublingIsExact(d: int, max: int, k: nat)
    requires 0 < d <= max < TWO63 && max <= Summit(d)
    ensures Doubled(d, max, k) == Min(max, d * Pow2(k))
    decreases k
  {
    GrowsAtLeast(d, k);
    if k > 0 && d < max {
      PowShift(d, k);
      if 2 * d <= max {
        DoublingIsExact(2 * d, max, k - 1);
      } else {
        GrowsAtLeast(2 * d, k - 1);
        assert Doubled(max, max, k - 1) == max;
      }
    }
  }

  /** Nor does one that stays within 64 bits, whatever the maximum. */
  lemma {:induction false} DoublingFits(d: int, max: int, k: nat)
    requires 0 < d <= max < TWO63 && d * Pow2(k) < TWO63
    ensures Doubled(d, max, k) == Min(max, d * Pow2(k))
    decreases k
  {
    GrowsAtLeast(d, k);
    if k > 0 && d < max {
      PowShift(d, k);
      GrowsAtLeast(2 * d, k - 1);
      if 2 * d <= max {
        DoublingFits(2 * d, max, k - 1);
      } else {
        assert Doubled(max, max, k - 1) == max;
      }
    }
  }

  /** When the summit is below the maximum, the doubling after it wraps to a negative delay. */
  lemma {:induction false} DoublingWraps(d: int, max: int) returns (k: nat)
    requires 0 < d <= max < TWO63 && Summit(d) < max
    ensures k >= 1 && Doubled(d, max, k) < 0 && d * Pow2(k) > max && d * Pow2(k - 1) < TWO63
    decreases TWO63 - d
  {
    if d >= TWO62 {
      k := 1;
      WrapsAtOnce(d, max);
    } else {
      var j := DoublingWraps(2 * d, max);
      k := j + 1;
      PowShift(d, k);
      PowShift(d, j);
    }
  }

  lemma WrapsAtOnce(d: int, max: int)
    requires TWO62 <= d < max < TWO63
    ensures Doubled(d, max, 1) < 0 && d * Pow2(1) > max && d * Pow2(0) < TWO63
  {
    assert Pow2(0) == 1;
    assert Doubled(d, max, 1) == Doubled(Min(Wrap(d * 2), max), max, 0);
    assert Wrap(d * 2) == d * 2 - TWO64;
    assert Pow2(1) == 2;
  }

  /**
   * For a normal policy the loop computes min(MaxBackoff, InitialBackoff * 2^(attempt-1)) on every attempt
   * if and only if the first doubling that reaches 2^62 is not below the maximum.
   */
  lemma LoopIsClosedExactly(p: Policy)
    requires Normal(p)
    ensures (forall attempt: nat :: attempt >= 1 ==>
              Doubled(p.initial, p.maxBackoff, attempt - 1) == Closed(p.initial, p.maxBackoff, attempt))
       <==> p.maxBackoff <= Summit(p.initial)
  {
    if p.maxBackoff <= Summit(p.initial) {
      forall attempt: nat | attempt >= 1
        ensures Doubled(p.initial, p.maxBackoff, attempt - 1) == Closed(p.initial, p.maxBackoff, attempt)
      {
        DoublingIsExact(p.initial, p.maxBackoff, attempt - 1);
      }
    } else {
      var k := DoublingWraps(p.initial, p.maxBackoff);
      var attempt: nat := k + 1;
      assert Doubled(p.initial, p.maxBackoff, attempt - 1) != Closed(p.initial, p.maxBackoff, attempt);
    }
  }

  /** In particular no maximum up to 2^62 nanoseconds, some 146 years, can overflow. */
  lemma NoOverflowUpTo2To62(p: Policy, attempt: nat)
    requires Normal(p) && p.maxBackoff <= TWO62 && attempt >= 1
    ensures Doubled(p.initial, p.maxBackoff, attempt - 1) == Closed(p.initial, p.maxBackoff, attempt)
  {
    DoublingIsExact(p.initial, p.maxBackoff, attempt - 1);
  }

  lemma LargestMaximumOverflows()
    ensures Doubled(TWO62, TWO63 - 1, 1) == -TWO63 && Closed(TWO62, TWO63 - 1, 2) == TWO63 - 1
  {
    assert Pow2(1) == 2;
    assert Doubled(TWO62, TWO63 - 1, 1) == Doubled(Min(Wrap(TWO62 * 2), TWO63 - 1), TWO63 - 1, 0);
  }

  lemma ScaledOrder(d: int, x: nat, y: nat)
    requires d > 0 && 1 <= x <= y
    ensures d <= d * x <= d * y
  {
    assert d * (x - 1) >= 0 && d * (y - x) >= 0;
  }

  /** The delay never shrinks from one attempt to the next and stays between the initial and the maximal backoff. */
  lemma ClosedIsMonotone(p: Policy, a: nat, b: nat)
    requires Normal(p) && 1 <= a <= b
    ensures p.initial <= Closed(p.initial, p.maxBackoff, a) <= Closed(p.initial, p.maxBackoff, b) <= p.maxBackoff
  {
    Pow2Monotone(a - 1, b - 1);
    ScaledOrder(p.initial, Pow2(a - 1), Pow2(b - 1));
  }

  /** So it is for the loop itself, as long as none of its doublings wraps. */
  lemma LoopIsMonotone(p: Policy, a: nat, b: nat)
    requires Normal(p) && p.maxBackoff <= Summit(p.initial) && 1 <= a <= b
    ensures p.initial <= Doubled(p.initial, p.maxBackoff, a - 1)
    ensures Doubled(p.initial, p.maxBackoff, a - 1) <= Doubled(p.initial, p.maxBackoff, b - 1) <= p.maxBackoff
  {
    DoublingIsExact(p.initial, p.maxBackoff, a - 1);
    DoublingIsExact(p.initial, p.maxBackoff, b - 1);
    ClosedIsMonotone(p, a, b);
  }

  /** And no longer: the loop stays between the initial and the maximal backoff exactly for those policies. */
  lemma LoopStaysInRangeExactly(p: Policy)
    requires Normal(p)
    ensures (forall steps: nat :: p.initial <= Doubled(p.initial, p.maxBackoff, steps) <= p.maxBackoff)
       <==> p.maxBackoff <= Summit(p.initial)
  {
    if p.maxBackoff <= Summit(p.initial) {
      forall steps: nat
        ensures p.initial <= Doubled(p.initial, p.maxBackoff, steps) <= p.maxBackoff
      {
        LoopIsMonotone(p, steps + 1, steps + 1);
      }
    } else {
      var k := DoublingWraps(p.initial, p.maxBackoff);
      assert Doubled(p.initial, p.maxBackoff, k) < p.initial;
    }
  }

  /** The maximum is a maximum whatever wraps. */
  lemma {:induction false} DoubledAtMost(d: int, max: int, steps: nat)
    requires d <= max
    ensures Doubled(d, max, steps) <= max
    decreases steps
  {
    if steps > 0 && d < max {
      DoubledAtMost(Min(Wrap(d * 2), max), max, steps - 1);
    }
  }

  // ---------------------------------------------------------------- the shift form of the REST client

  /** `1 << s` as a 64-bit duration: a shift by the width or more leaves nothing. */
  function Shift64(s: nat): int {
    if s >= 64 then 0 else Wrap(Pow2(s))
  }

  function Shifted(initial: int, max: int, attempt: nat): int
    requires attempt >= 1
  {
    Min(max, Wrap(initial * Shift64(attempt - 1)))
  }

  /** What every normalised policy of the REST client satisfies: the maximum may lie below the initial backoff. */
  predicate Usable(p: Policy) {
    Policy64(p) && 1 <= p.maxAttempts && 0 < p.initial && 0 < p.maxBackoff && 0.0 <= p.jitter <= 1.0
  }

  lemma RestIsUsable(p: Policy)
    requires Policy64(p)
    ensures Usable(NormalizeRest(p))
  {
  }

  /** While the product fits in 64 bits the shift form is the closed form. */
  lemma {:induction false} ShiftIsClosedWhileItFits(p: Policy, attempt: nat)
    requires Usable(p) && attempt >= 1 && p.initial * Pow2(attempt - 1) < TWO63
    ensures Shifted(p.initial, p.maxBackoff, attempt) == Closed(p.initial, p.maxBackoff, attempt)
  {
    var s := attempt - 1;
    Pow2Of62();
    Multiple(p.initial, 1, Pow2(s));
    if s >= 63 {
      Pow2Monotone(63, s);
    }
  }

  lemma Doubles(d: int, s: nat)
    requires s > 0
    ensures d * Pow2(s) == 2 * (d * Pow2(s - 1))
  {
    assert Pow2(s) == 2 * Pow2(s - 1);
  }

  /** The first product to leave 64 bits lies below 2^64. */
  lemma {:induction false} FirstOverflow(d: int, n: nat) returns (s: nat)
    requires 0 < d < TWO63 <= d * Pow2(n)
    ensures 0 < s <= n && TWO63 <= d * Pow2(s) < TWO64
  {
    s := n;
    assert d * Pow2(0) == d;
    if d * Pow2(n) >= TWO64 {
      Doubles(d, n);
      s := FirstOverflow(d, n - 1);
    }
  }

  lemma Multiple(d: int, m: int, x: int)
    requires d >= m && x >= 0
    ensures m * x <= d * x
  {
    assert (d - m) * x >= 0;
  }

  lemma ShiftBelowWidth(d: int, s: nat)
    requires d > 0 && d * Pow2(s) < TWO64
    ensures s < 64 && (s == 63 ==> d == 1)
  {
    Pow2Of62();
    assert Pow2(64) == 2 * Pow2(63);
    Multiple(d, 1, Pow2(s));
    Pow2Monotone(64, if s >= 64 then s else 64);
    if d >= 2 {
      Multiple(d, 2, Pow2(s));
    }
  }

  /** It wraps to a negative one. */
  lemma OverflowIsNegative(d: int, s: nat)
    requires 0 < d < TWO63 <= d * Pow2(s) < TWO64
    ensures Wrap(d * Shift64(s)) < 0
  {
    Pow2Of62();
    ShiftBelowWidth(d, s);
    if s < 63 {
      Pow2Monotone(s, 62);
    }
  }

  /**
   * On its first `n` attempts the shift form is the closed form if and only if the product for the last of
   * them fits in 64 bits: the first product that does not comes out negative.
   */
  lemma ShiftIsClosedExactly(p: Policy, n: nat)
    requires Usable(p) && n >= 1
    ensures (forall a: nat :: 1 <= a <= n ==> Shifted(p.initial, p.maxBackoff, a) == Closed(p.initial, p.maxBackoff, a))
       <==> p.initial * Pow2(n - 1) < TWO63
  {
    if p.initial * Pow2(n - 1) < TWO63 {
      forall a: nat | 1 <= a <= n
        ensures Shifted(p.initial, p.maxBackoff, a) == Closed(p.initial, p.maxBackoff, a)
      {
        Pow2Monotone(a - 1, n - 1);
        ScaledOrder(p.initial, Pow2(a - 1), Pow2(n - 1));
        ShiftIsClosedWhileItFits(p, a);
      }
    } else {
      var s := FirstOverflow(p.initial, n - 1);
      OverflowIsNegative(p.initial, s);
      GrowsAtLeast(p.initial, s);
      var a: nat := s + 1;
      assert Shifted(p.initial, p.maxBackoff, a) < 0 < Closed(p.initial, p.maxBackoff, a);
    }
  }

  /** The REST client waits as intended over a whole run exactly when its last wait can be computed. */
  lemma RestRunIsClosedExactly(p: Policy)
    requires Usable(p) && p.maxAttempts >= 2
    ensures (forall a: nat :: 1 <= a < p.maxAttempts ==>
              Shifted(p.initial, p.maxBackoff, a) == Closed(p.initial, p.maxBackoff, a))
       <==> p.initial * Pow2(p.maxAttempts - 2) < TWO63
  {
    ShiftIsClosedExactly(p, p.maxAttempts - 1);
  }

  /**
   * While the product fits in 64 bits, the loop of the one client and the shift of the other compute the same
   * delay.
   */
  lemma LoopIsShiftWhileItFits(p: Policy, attempt: nat)
    requires Normal(p) && attempt >= 1 && p.initial * Pow2(attempt - 1) < TWO63
    ensures Doubled(p.initial, p.maxBackoff, attempt - 1) == Shifted(p.initial, p.maxBackoff, attempt)
  {
    DoublingFits(p.initial, p.maxBackoff, attempt - 1);
    ShiftIsClosedWhileItFits(p, attempt);
  }

  /**
   * On the first `n` attempts the loop is the closed form if and only if no doubling ever wraps or the product
   * for the last of them fits in 64 bits.
   */
  lemma LoopRunIsClosedExactly(p: Policy, n: nat)
    requires Normal(p) && n >= 1
    ensures (forall a: nat :: 1 <= a <= n ==>
              Doubled(p.initial, p.maxBackoff, a - 1) == Closed(p.initial, p.maxBackoff, a))
       <==> p.maxBackoff <= Summit(p.initial) || p.initial * Pow2(n - 1) < TWO63
  {
    if p.maxBackoff <= Summit(p.initial) {
      LoopIsClosedExactly(p);
    } else if p.initial * Pow2(n - 1) < TWO63 {
      forall a: nat | 1 <= a <= n
        ensures Doubled(p.initial, p.maxBackoff, a - 1) == Closed(p.initial, p.maxBackoff, a)
      {
        Pow2Monotone(a - 1, n - 1);
        ScaledOrder(p.initial, Pow2(a - 1), Pow2(n - 1));
        DoublingFits(p.initial, p.maxBackoff, a - 1);
      }
    } else {
      var k := DoublingWraps(p.initial, p.maxBackoff);
      SmallerProductSmallerPower(p.initial, k - 1, n - 1);
      var a: nat := k + 1;
      assert Doubled(p.initial, p.maxBackoff, a - 1) != Closed(p.initial, p.maxBackoff, a);
    }
  }

  lemma SmallerProductSmallerPower(d: int, i: nat, j: nat)
    requires d > 0 && d * Pow2(i) < d * Pow2(j)
    ensures i < j
  {
    Pow2Monotone(if j <= i then j else i, i);
    if j <= i {
      ScaledOrder(d, Pow2(j), Pow2(i));
    }
  }

  // ---------------------------------------------------------------- where both clients wrap

  lemma WrapDrops(x: int) returns (k: int)
    ensures Wrap(x) == x - k * TWO64
  {
    k := (x + TWO63) / TWO64;
  }

  lemma WrapIsTheOne(x: int, r: int, k: int)
    requires Int64(r) && x == r + k * TWO64
    ensures Wrap(x) == r
  {
    assert (r + TWO63 + k * TWO64) % TWO64 == r + TWO63 by {
      RemainderOfMultiple(r + TWO63, k);
    }
  }

  lemma RemainderOfMultiple(r: int, k: int)
    requires 0 <= r < TWO64
    ensures (r + k * TWO64) % TWO64 == r
  {
  }

  /** What a product loses by wrapping one factor, it loses by wrapping at the end as well. */
  lemma WrapTwice(x: int, p: int)
    ensures Wrap(Wrap(x) * p) == Wrap(x * p)
  {
    var k := WrapDrops(x);
    var j := WrapDrops(x * p);
    WrapOfDifference(x, p, k, j);
    WrapIsTheOne(Wrap(x) * p, Wrap(x * p), j - k * p);
  }

  lemma WrapOfDifference(x: int, p: int, k: int, j: int)
    ensures (x - k * TWO64) * p == (x * p - j * TWO64) + (j - k * p) * TWO64
  {
    assert (k * TWO64) * p == (k * p) * TWO64;
  }

  /** `d` doubled `s` times, in 64 bits. */
  function Product64(d: int, s: nat): (r: int)
    ensures Int64(r)
  {
    Wrap(d * Pow2(s))
  }

  lemma ProductOfNone(d: int)
    requires Int64(d)
    ensures Product64(d, 0) == d
  {
    assert d * Pow2(0) == d;
  }

  /** The first doubling may wrap before the others. */
  lemma ProductFromFront(d: int, s: nat)
    ensures Product64(Wrap(d * 2), s) == Product64(d, s + 1)
  {
    WrapTwice(d * 2, Pow2(s));
    PowShift(d, s + 1);
  }

  /** The last doubling may wrap after the others. */
  lemma ProductFromBack(d: int, s: nat)
    ensures Product64(d, s + 1) == Wrap(Product64(d, s) * 2)
  {
    WrapTwice(d * Pow2(s), 2);
    Doubles(d, s + 1);
  }

  lemma MultipleOfAll(d: int, k: int)
    ensures Wrap(d * (TWO64 * k)) == 0
  {
    assert d * (TWO64 * k) == 0 + (d * k) * TWO64;
    WrapIsTheOne(d * (TWO64 * k), 0, d * k);
  }

  /** The shift form wraps the exact product, also where the shift itself has wrapped or vanished. */
  lemma ShiftWrapsProduct(d: int, s: nat)
    ensures Wrap(d * Shift64(s)) == Product64(d, s)
  {
    if s >= 64 {
      Pow2Of62();
      assert Pow2(64) == 2 * Pow2(63);
      Pow2Sum(64, s - 64);
      MultipleOfAll(d, Pow2(s - 64));
      assert d * 0 == 0;
    } else {
      WrapTwice(Pow2(s), d);
      Commute(d, Pow2(s));
      Commute(d, Shift64(s));
    }
  }

  lemma Commute(a: int, b: int)
    ensures a * b == b * a
  {
  }

  /** As long as it stays below the maximum, the loop carries on with the wrapped product, be it negative. */
  lemma {:induction false} LoopWrapsProduct(d: int, max: int, k: nat)
    requires Int64(d) && d <= max && forall i: nat :: i < k ==> Product64(d, i) < max
    ensures Doubled(d, max, k) == Min(max, Product64(d, k))
    decreases k
  {
    ProductOfNone(d);
    if k > 0 {
      assert Product64(d, 0) < max;
      var next := Wrap(d * 2);
      ProductFromFront(d, 0);
      ProductOfNone(next);
      if k > 1 {
        assert Product64(d, 1) < max;
        forall i: nat | i < k - 1
          ensures Product64(next, i) < max
        {
          ProductFromFront(d, i);
          assert Product64(d, i + 1) < max;
        }
        LoopWrapsProduct(next, max, k - 1);
        ProductFromFront(d, k - 1);
      }
    }
  }

  /** The wrapped product reaches the maximum in fewer than `n` doublings. */
  ghost predicate Resurfaces(p: Policy, n: nat) {
    exists i: nat :: i < n && Product64(p.initial, i) >= p.maxBackoff
  }

  lemma {:induction false} FirstSurfacing(p: Policy, n: nat) returns (i: nat)
    requires Resurfaces(p, n)
    ensures i < n && Product64(p.initial, i) >= p.maxBackoff && !Resurfaces(p, i)
    decreases n
  {
    i :| i < n && Product64(p.initial, i) >= p.maxBackoff;
    if Resurfaces(p, i) {
      i := FirstSurfacing(p, i);
    }
  }

  lemma LoopIsShiftUntilItSurfaces(p: Policy, s: nat)
    requires Normal(p) && !Resurfaces(p, s)
    ensures Doubled(p.initial, p.maxBackoff, s) == Shifted(p.initial, p.maxBackoff, s + 1)
    ensures Doubled(p.initial, p.maxBackoff, s) == Min(p.maxBackoff, Product64(p.initial, s))
  {
    LoopWrapsProduct(p.initial, p.maxBackoff, s);
    ShiftWrapsProduct(p.initial, s);
  }

  /** Beyond 2^62 the loop holds on to the maximum, where the shift form turns negative on the next attempt. */
  lemma SurfacingParts(p: Policy, s: nat)
    requires Normal(p) && p.maxBackoff > TWO62 && Product64(p.initial, s) >= p.maxBackoff && !Resurfaces(p, s)
    ensures Doubled(p.initial, p.maxBackoff, s + 1) != Shifted(p.initial, p.maxBackoff, s + 2)
  {
    LoopIsShiftUntilItSurfaces(p, s);
    MaximumHolds(p.initial, p.maxBackoff, s);
    ProductFromBack(p.initial, s);
    ShiftWrapsProduct(p.initial, s + 1);
    HighHalfTurnsNegative(Product64(p.initial, s));
  }

  lemma HighHalfTurnsNegative(w: int)
    requires TWO62 < w < TWO63
    ensures Wrap(w * 2) < 0
  {
    assert Wrap(w * 2) == w * 2 - TWO64;
  }

  /** Once at the maximum, always there. */
  lemma {:induction false} MaximumHolds(d: int, max: int, k: nat)
    requires Doubled(d, max, k) == max
    ensures Doubled(d, max, k + 1) == max
    decreases k
  {
    if k > 0 && d < max {
      MaximumHolds(Min(Wrap(d * 2), max), max, k - 1);
    }
  }

  lemma ReachingSummitFits(p: Policy, n: nat)
    requires Normal(p) && n >= 1 && p.maxBackoff <= Summit(p.initial)
    ensures (forall a: nat :: 1 <= a <= n ==>
              Doubled(p.initial, p.maxBackoff, a - 1) == Shifted(p.initial, p.maxBackoff, a))
       <==> p.initial * Pow2(n - 1) < TWO63
  {
    LoopIsClosedExactly(p);
    ShiftIsClosedExactly(p, n);
    assert forall a: nat :: 1 <= a <= n ==>
      Doubled(p.initial, p.maxBackoff, a - 1) == Closed(p.initial, p.maxBackoff, a);
  }

  lemma BeyondSummitSurfaces(p: Policy, n: nat)
    requires Normal(p) && n >= 1 && p.maxBackoff > Summit(p.initial)
    ensures (forall a: nat :: 1 <= a <= n ==>
              Doubled(p.initial, p.maxBackoff, a - 1) == Shifted(p.initial, p.maxBackoff, a))
       <==> !Resurfaces(p, n - 1)
  {
    if Resurfaces(p, n - 1) {
      var i := FirstSurfacing(p, n - 1);
      SurfacingParts(p, i);
      var b: nat := i + 2;
      assert Doubled(p.initial, p.maxBackoff, b - 1) != Shifted(p.initial, p.maxBackoff, b);
    } else {
      forall a: nat | 1 <= a <= n
        ensures Doubled(p.initial, p.maxBackoff, a - 1) == Shifted(p.initial, p.maxBackoff, a)
      {
        LoopIsShiftUntilItSurfaces(p, a - 1);
      }
    }
  }

  /**
   * The two clients compute the same delays on the first `n` attempts if and only if the product for the last of
   * them fits in 64 bits, or, with a maximum that the doublings of the initial backoff pass only by wrapping, the
   * wrapped product does not come back up to the maximum before that.
   */
  lemma LoopRunIsShiftExactly(p: Policy, n: nat)
    requires Normal(p) && n >= 1
    ensures (forall a: nat :: 1 <= a <= n ==>
              Doubled(p.initial, p.maxBackoff, a - 1) == Shifted(p.initial, p.maxBackoff, a))
       <==> p.initial * Pow2(n - 1) < TWO63 || (p.maxBackoff > Summit(p.initial) && !Resurfaces(p, n - 1))
  {
    if p.maxBackoff <= Summit(p.initial) {
      ReachingSummitFits(p, n);
    } else {
      BeyondSummitSurfaces(p, n);
      if p.initial * Pow2(n - 1) < TWO63 {
        forall a: nat | 1 <= a <= n
          ensures Doubled(p.initial, p.maxBackoff, a - 1) == Shifted(p.initial, p.maxBackoff, a)
        {
          Pow2Monotone(a - 1, n - 1);
          ScaledOrder(p.initial, Pow2(a - 1), Pow2(n - 1));
          LoopIsShiftWhileItFits(p, a);
        }
      }
    }
  }

  /** From the 65th attempt on the REST client does not wait at all. */
  lemma ShiftVanishes(p: Policy, attempt: nat)
    requires Normal(p) && attempt >= 65
    ensures Shifted(p.initial, p.maxBackoff, attempt) == 0 < Closed(p.initial, p.maxBackoff, attempt)
  {
    GrowsAtLeast(p.initial, attempt - 1);
  }

  /** With the default backoffs the 38th delay is negative, where the loop still waits five seconds. */
  lemma DefaultShiftGoesNegative()
    ensures Shifted(DEFAULT.initial, DEFAULT.maxBackoff, 38) < 0
    ensures Doubled(DEFAULT.initial, DEFAULT.maxBackoff, 37) == 5 * SECOND
  {
    Pow2Of37();
    DoublingIsExact(DEFAULT.initial, DEFAULT.maxBackoff, 37);
  }

  // ---------------------------------------------------------------- server guidance and jitter

  /** A Retry-After header, section 10.2.3 of RFC 9110: a number of seconds, a date, or nothing usable. */
  datatype RetryAfter = Unusable | Seconds(n: int) | Date(at: int)

  /**
   * `parseRetryAfter`: zero when there is no guidance; the distance to a date is capped, a number of seconds is
   * not.
   */
  function GuidedDelay(r: RetryAfter, now: int): int {
    match r
    case Unusable => 0
    case Seconds(n) => if n > 0 then Wrap(n * SECOND) else 0
    case Date(at) => if at > now then Min(at - now, TWO63 - 1) else 0
  }

  /** A number of seconds is honoured exactly up to the longest duration; beyond it the product wraps. */
  lemma SecondsHonouredExactly(n: int, now: int)
    requires n > 0
    ensures GuidedDelay(Seconds(n), now) == n * SECOND <==> n <= 9_223_372_036
  {
  }

  /** One second more than the longest duration holds, and the guidance turns negative. */
  lemma LongestSecondsWrap(now: int)
    ensures GuidedDelay(Seconds(9_223_372_037), now) == -9_223_372_036_709_551_616
  {
  }

  /** Jitter scales by a factor between 1 - jitter and 1 + jitter and truncates. */
  function Jittered(delay: int, jitter: real, rand: real): int {
    if jitter > 0.0 then Truncate(Scaled(delay, JitterFactor(jitter, rand))) else delay
  }

  function JitterFactor(jitter: real, rand: real): real {
    1.0 - jitter + rand * 2.0 * jitter
  }

  function Scaled(delay: int, factor: real): real {
    delay as real * factor
  }

  function Truncate(x: real): int {
    if x >= 0.0 then x.Floor else -((-x).Floor)
  }

  lemma JitterBound(delay: int, jitter: real, rand: real)
    requires delay >= 0 && 0.0 <= jitter <= 1.0 && 0.0 <= rand < 1.0
    ensures 0 <= Jittered(delay, jitter, rand)
    ensures Jittered(delay, jitter, rand) as real <= delay as real * (1.0 + jitter)
  {
    FactorIsPositive(jitter, rand);
    FactorIsAtMost(jitter, rand);
    TimesOrder(0.0, JitterFactor(jitter, rand), delay as real);
    TimesOrder(JitterFactor(jitter, rand), 1.0 + jitter, delay as real);
  }

  /** A delay up to the maximum, negative ones included, is not stretched beyond (1 + jitter) times the maximum. */
  lemma JitteredAtMost(delay: int, max: int, jitter: real, rand: real)
    requires delay <= max && 0 <= max && 0.0 <= jitter <= 1.0 && 0.0 <= rand < 1.0
    ensures Jittered(delay, jitter, rand) as real <= max as real * (1.0 + jitter)
    ensures delay < 0 ==> Jittered(delay, jitter, rand) <= 0
  {
    if delay >= 0 {
      JitterBound(delay, jitter, rand);
      TimesOrder(delay as real, max as real, 1.0 + jitter);
    } else {
      FactorIsPositive(jitter, rand);
      NegativeStaysNegative(delay, JitterFactor(jitter, rand));
      TimesOrder(0.0, max as real, 1.0 + jitter);
    }
  }

  lemma TimesOrder(a: real, b: real, c: real)
    requires a <= b && c >= 0.0
    ensures a * c <= b * c
  {
    assert (b - a) * c >= 0.0;
  }

  lemma FactorIsPositive(jitter: real, rand: real)
    requires 0.0 <= jitter <= 1.0 && 0.0 <= rand < 1.0
    ensures JitterFactor(jitter, rand) >= 0.0
  {
    TimesOrder(0.0, rand * 2.0, jitter);
  }

  lemma FactorIsAtMost(jitter: real, rand: real)
    requires 0.0 <= jitter <= 1.0 && 0.0 <= rand < 1.0
    ensures JitterFactor(jitter, rand) <= 1.0 + jitter
  {
    TimesOrder(rand * 2.0, 2.0, jitter);
  }

  lemma NegativeStaysNegative(delay: int, factor: real)
    requires delay < 0 && factor >= 0.0
    ensures Scaled(delay, factor) <= 0.0
  {
    assert (-delay) as real * factor >= 0.0;
  }
}
