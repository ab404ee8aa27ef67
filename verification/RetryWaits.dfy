/** How long the three clients wait between their attempts, told of the retries they announce. */
module RetryWaits {
  import opened Numbers
  import opened Bits
  import opened Backoff
  import opened RetryLoop

  /** The failure before the `i`-th retry. */
  function Before(w: World, i: nat): Failure
    requires w.call(i + 1).Fault?
  {
    w.call(i + 1).failure
  }

  ghost predicate AllFailed<D>(w: World, events: seq<Event<D>>) {
    forall k :: 1 <= k <= |events| ==> w.call(k).Fault?
  }

  /** The server said nothing, and jitter is off or drawn in the middle. */
  predicate Plain(w: World, jitter: real, i: nat)
    requires w.call(i + 1).Fault?
  {
    Before(w, i).guided <= 0 && (jitter == 0.0 || w.rand(i + 1) == 0.5)
  }

  ghost predicate AllPlain<D>(w: World, jitter: real, events: seq<Event<D>>)
    requires AllFailed(w, events)
  {
    forall i :: 0 <= i < |events| ==> Plain(w, jitter, i)
  }

  /** The doubled initial backoff, up to the maximum. */
  function Grown(p: Policy, i: nat): int {
    Min(p.maxBackoff, Product(p, i))
  }

  function Product(p: Policy, i: nat): int {
    p.initial * Pow2(i)
  }

  /** What the server asks for is waited for. */
  ghost predicate Obeyed(w: World, events: seq<Event<int>>)
    requires AllFailed(w, events)
  {
    forall i :: 0 <= i < |events| && Before(w, i).guided > 0 ==> events[i].delay == Before(w, i).guided
  }

  /** The wait is the grown one, give or take the jitter and the part of a nanosecond that is cut off. */
  predicate Around(d: int, c: int, jitter: real) {
    Scaled(c, 1.0 - jitter) - 1.0 < d as real <= Scaled(c, 1.0 + jitter)
  }

  lemma JitterStaysAround(c: int, jitter: real, rand: real)
    requires c >= 0 && 0.0 <= jitter <= 1.0 && 0.0 <= rand < 1.0
    ensures Around(Jittered(c, jitter, rand), c, jitter)
  {
    FactorIsPositive(jitter, rand);
    FactorIsAtLeast(jitter, rand);
    FactorIsAtMost(jitter, rand);
    var factor := JitterFactor(jitter, rand);
    ScaledGrows(c, 1.0 - jitter, factor);
    ScaledGrows(c, factor, 1.0 + jitter);
    ScaledGrows(c, 0.0, factor);
    ScaledByNothing(c);
  }

  lemma ScaledGrows(c: int, f: real, g: real)
    requires c >= 0 && f <= g
    ensures Scaled(c, f) <= Scaled(c, g)
  {
    assert c as real * (g - f) >= 0.0;
  }

  lemma ScaledByNothing(c: int)
    ensures Scaled(c, 0.0) == 0.0 && Scaled(c, 1.0) == c as real
  {
  }

  lemma FactorIsAtLeast(jitter: real, rand: real)
    requires 0.0 <= jitter <= 1.0 && 0.0 <= rand < 1.0
    ensures 1.0 - jitter <= JitterFactor(jitter, rand)
  {
    TimesOrder(0.0, rand * 2.0, jitter);
  }

  lemma PlainIsUnchanged(w: World, jitter: real, i: nat, c: int)
    requires w.call(i + 1).Fault? && Plain(w, jitter, i) && 0.0 <= jitter
    ensures Jittered(c, jitter, w.rand(i + 1)) == c
  {
    HalfDrawKeeps(c, jitter);
  }

  lemma EventsAre<D>(w: World, delay: (Failure, nat, real) -> D, max: int, r: Result, calls: nat, events: seq<Event<D>>)
    requires max >= 1 && Traced(w, delay, max, r, calls, events)
    ensures AllFailed(w, events)
    ensures forall i :: 0 <= i < |events| ==> events[i].delay == delay(Before(w, i), i + 1, w.rand(i + 1))
  {
    TraceShape(w, delay, max, r, calls, events);
  }

  // ---------------------------------------------------------------- the REST client

  ghost predicate RestRun(w: World, policy: Policy, r: Result, calls: nat, events: seq<Event<int>>) {
    Policy64(policy) && Traced(w, RestDelay(NormalizeRest(policy)), NormalizeRest(policy).maxAttempts, r, calls, events)
  }

  lemma ShiftIsGrown(p: Policy, i: nat)
    requires Usable(p) && Product(p, i) < TWO63
    ensures Shifted(p.initial, p.maxBackoff, i + 1) == Grown(p, i)
  {
    ShiftIsClosedWhileItFits(p, i + 1);
  }

  lemma RestWaitIs(p: Policy, f: Failure, i: nat, rand: real)
    ensures RestDelay(p)(f, i + 1, rand)
         == if f.guided > 0 then f.guided else Jittered(Shifted(p.initial, p.maxBackoff, i + 1), p.jitter, rand)
  {
    assert Steps(i + 1) == i;
  }

  lemma RestWaitIsGrown(p: Policy, w: World, i: nat)
    requires Usable(p) && w.call(i + 1).Fault? && Product(p, i) < TWO63 && Before(w, i).guided <= 0
    ensures RestDelay(p)(Before(w, i), i + 1, w.rand(i + 1)) == Jittered(Grown(p, i), p.jitter, w.rand(i + 1))
  {
    RestWaitIs(p, Before(w, i), i, w.rand(i + 1));
    ShiftIsGrown(p, i);
  }

  lemma GrownIsPositive(p: Policy, i: nat)
    requires p.initial > 0 && p.maxBackoff > 0
    ensures Grown(p, i) > 0
  {
    GrowsAtLeast(p.initial, i);
  }

  /** What a run of the REST client does while its products fit 64 bits: plain waits double, others stay around that. */
  lemma RestWaitsGrow(w: World, policy: Policy, r: Result, calls: nat, events: seq<Event<int>>)
    requires RestRun(w, policy, r, calls, events)
    ensures AllFailed(w, events) && Obeyed(w, events)
    ensures var p := NormalizeRest(policy);
      forall i :: 0 <= i < |events| && Product(p, i) < TWO63 && Plain(w, p.jitter, i) ==> events[i].delay == Grown(p, i)
    ensures var p := NormalizeRest(policy);
      FairDraws(w) ==>
        forall i :: 0 <= i < |events| && Product(p, i) < TWO63 && Before(w, i).guided <= 0 ==>
          Around(events[i].delay, Grown(p, i), p.jitter)
  {
    var p := NormalizeRest(policy);
    RestIsUsable(policy);
    EventsAre(w, RestDelay(p), p.maxAttempts, r, calls, events);
    forall i: nat | i < |events| && Product(p, i) < TWO63 && Before(w, i).guided <= 0
      ensures Plain(w, p.jitter, i) ==> events[i].delay == Grown(p, i)
      ensures FairDraws(w) ==> Around(events[i].delay, Grown(p, i), p.jitter)
    {
      RestWaitIsGrown(p, w, i);
      GrownIsPositive(p, i);
      if Plain(w, p.jitter, i) {
        PlainIsUnchanged(w, p.jitter, i, Grown(p, i));
      }
      if FairDraws(w) {
        JitterStaysAround(Grown(p, i), p.jitter, w.rand(i + 1));
      }
    }
  }

  lemma PlainRestWait(p: Policy, w: World, i: nat)
    requires w.call(i + 1).Fault? && Plain(w, p.jitter, i) && 0.0 <= p.jitter
    ensures RestDelay(p)(Before(w, i), i + 1, w.rand(i + 1)) == Shifted(p.initial, p.maxBackoff, i + 1)
  {
    RestWaitIs(p, Before(w, i), i, w.rand(i + 1));
    PlainIsUnchanged(w, p.jitter, i, Shifted(p.initial, p.maxBackoff, i + 1));
  }

  lemma ShiftsAreGrownExactly(p: Policy, events: seq<Event<int>>)
    requires Usable(p) && forall i: nat :: i < |events| ==> events[i].delay == Shifted(p.initial, p.maxBackoff, i + 1)
    ensures (forall i :: 0 <= i < |events| ==> events[i].delay == Grown(p, i))
       <==> events == [] || Product(p, |events| - 1) < TWO63
  {
    if events != [] {
      ShiftIsClosedExactly(p, |events|);
      forall a: nat | 1 <= a <= |events|
        ensures Shifted(p.initial, p.maxBackoff, a) == Closed(p.initial, p.maxBackoff, a)
           <==> events[a - 1].delay == Grown(p, a - 1)
      {
      }
    }
  }

  /**
   * Without guidance and jitter, all waits of a run of the REST client are min(MaxBackoff, InitialBackoff * 2^i) if
   * and only if the product for the last of them fits 64 bits.
   */
  lemma RestWaitsAreGrownExactly(w: World, policy: Policy, r: Result, calls: nat, events: seq<Event<int>>)
    requires RestRun(w, policy, r, calls, events) && AllFailed(w, events)
    requires AllPlain(w, NormalizeRest(policy).jitter, events)
    ensures var p := NormalizeRest(policy);
      (forall i :: 0 <= i < |events| ==> events[i].delay == Grown(p, i))
      <==> events == [] || Product(p, |events| - 1) < TWO63
  {
    var p := NormalizeRest(policy);
    RestIsUsable(policy);
    EventsAre(w, RestDelay(p), p.maxAttempts, r, calls, events);
    forall i: nat | i < |events|
      ensures events[i].delay == Shifted(p.initial, p.maxBackoff, i + 1)
    {
      assert Plain(w, p.jitter, i);
      PlainRestWait(p, w, i);
    }
    ShiftsAreGrownExactly(p, events);
  }

  // ---------------------------------------------------------------- the stream client

  ghost predicate StreamRun(w: World, policy: Policy, r: Result, calls: nat, events: seq<Event<int>>) {
    && Policy64(policy)
    && Traced(w, StreamDelay(NormalizeStream(policy)), NormalizeStream(policy).maxAttempts, r, calls, events)
  }

  /** No doubling on the way to the `i`-th wait wraps. */
  predicate Computable(p: Policy, i: nat)
    requires 0 < p.initial < TWO63
  {
    p.maxBackoff <= Summit(p.initial) || Product(p, i) < TWO63
  }

  lemma LoopIsGrown(p: Policy, i: nat)
    requires Normal(p) && Computable(p, i)
    ensures Doubled(p.initial, p.maxBackoff, i) == Grown(p, i)
  {
    if p.maxBackoff <= Summit(p.initial) {
      DoublingIsExact(p.initial, p.maxBackoff, i);
    } else {
      DoublingFits(p.initial, p.maxBackoff, i);
    }
  }

  lemma StreamWaitIs(p: Policy, f: Failure, i: nat, rand: real)
    ensures StreamDelay(p)(f, i + 1, rand)
         == if f.guided > 0 then f.guided else Jittered(Doubled(p.initial, p.maxBackoff, i), p.jitter, rand)
  {
    assert Steps(i + 1) == i;
  }

  lemma StreamWaitIsGrown(p: Policy, w: World, i: nat)
    requires Normal(p) && w.call(i + 1).Fault? && Computable(p, i) && Before(w, i).guided <= 0
    ensures StreamDelay(p)(Before(w, i), i + 1, w.rand(i + 1)) == Jittered(Grown(p, i), p.jitter, w.rand(i + 1))
  {
    StreamWaitIs(p, Before(w, i), i, w.rand(i + 1));
    LoopIsGrown(p, i);
  }

  /** What a run of the stream client does while no doubling wraps. */
  lemma StreamWaitsGrow(w: World, policy: Policy, r: Result, calls: nat, events: seq<Event<int>>)
    requires StreamRun(w, policy, r, calls, events)
    ensures AllFailed(w, events) && Obeyed(w, events)
    ensures var p := NormalizeStream(policy);
      forall i :: 0 <= i < |events| && Computable(p, i) && Plain(w, p.jitter, i) ==> events[i].delay == Grown(p, i)
    ensures var p := NormalizeStream(policy);
      FairDraws(w) ==>
        forall i :: 0 <= i < |events| && Computable(p, i) && Before(w, i).guided <= 0 ==>
          Around(events[i].delay, Grown(p, i), p.jitter)
  {
    var p := NormalizeStream(policy);
    EventsAre(w, StreamDelay(p), p.maxAttempts, r, calls, events);
    forall i: nat | i < |events| && Computable(p, i) && Before(w, i).guided <= 0
      ensures Plain(w, p.jitter, i) ==> events[i].delay == Grown(p, i)
      ensures FairDraws(w) ==> Around(events[i].delay, Grown(p, i), p.jitter)
    {
      StreamWaitIsGrown(p, w, i);
      GrownIsPositive(p, i);
      if Plain(w, p.jitter, i) {
        PlainIsUnchanged(w, p.jitter, i, Grown(p, i));
      }
      if FairDraws(w) {
        JitterStaysAround(Grown(p, i), p.jitter, w.rand(i + 1));
      }
    }
  }

  lemma PlainStreamWait(p: Policy, w: World, i: nat)
    requires w.call(i + 1).Fault? && Plain(w, p.jitter, i) && 0.0 <= p.jitter
    ensures StreamDelay(p)(Before(w, i), i + 1, w.rand(i + 1)) == Doubled(p.initial, p.maxBackoff, i)
  {
    StreamWaitIs(p, Before(w, i), i, w.rand(i + 1));
    PlainIsUnchanged(w, p.jitter, i, Doubled(p.initial, p.maxBackoff, i));
  }

  lemma GrownIsClosed(p: Policy, a: nat)
    requires a >= 1
    ensures Grown(p, a - 1) == Closed(p.initial, p.maxBackoff, a)
  {
  }

  lemma DoublingsCompared(p: Policy, events: seq<Event<int>>)
    requires forall i: nat :: i < |events| ==> events[i].delay == Doubled(p.initial, p.maxBackoff, i)
    ensures (forall i :: 0 <= i < |events| ==> events[i].delay == Grown(p, i)) <==>
      forall a: nat :: 1 <= a <= |events| ==>
        Doubled(p.initial, p.maxBackoff, a - 1) == Closed(p.initial, p.maxBackoff, a)
  {
    forall a: nat | 1 <= a <= |events|
      ensures Doubled(p.initial, p.maxBackoff, a - 1) == events[a - 1].delay
      ensures Grown(p, a - 1) == Closed(p.initial, p.maxBackoff, a)
    {
      GrownIsClosed(p, a);
    }
    if forall a: nat :: 1 <= a <= |events| ==>
        Doubled(p.initial, p.maxBackoff, a - 1) == Closed(p.initial, p.maxBackoff, a) {
      forall i: nat | i < |events|
        ensures events[i].delay == Grown(p, i)
      {
        var a: nat := i + 1;
        assert Doubled(p.initial, p.maxBackoff, a - 1) == Closed(p.initial, p.maxBackoff, a);
      }
    }
  }

  lemma DoublingsAreGrownExactly(p: Policy, events: seq<Event<int>>)
    requires Normal(p) && forall i: nat :: i < |events| ==> events[i].delay == Doubled(p.initial, p.maxBackoff, i)
    ensures (forall i :: 0 <= i < |events| ==> events[i].delay == Grown(p, i))
       <==> events == [] || Computable(p, |events| - 1)
  {
    if events != [] {
      LoopRunIsClosedExactly(p, |events|);
      DoublingsCompared(p, events);
    }
  }

  /**
   * Without guidance and jitter, all waits of a run of the stream client are min(MaxBackoff, InitialBackoff * 2^i)
   * if and only if its doublings pass the maximum without wrapping or the product for the last wait fits 64 bits.
   */
  lemma StreamWaitsAreGrownExactly(w: World, policy: Policy, r: Result, calls: nat, events: seq<Event<int>>)
    requires StreamRun(w, policy, r, calls, events) && AllFailed(w, events)
    requires AllPlain(w, NormalizeStream(policy).jitter, events)
    ensures var p := NormalizeStream(policy);
      (forall i :: 0 <= i < |events| ==> events[i].delay == Grown(p, i))
      <==> events == [] || Computable(p, |events| - 1)
  {
    var p := NormalizeStream(policy);
    EventsAre(w, StreamDelay(p), p.maxAttempts, r, calls, events);
    forall i: nat | i < |events|
      ensures events[i].delay == Doubled(p.initial, p.maxBackoff, i)
    {
      assert Plain(w, p.jitter, i);
      PlainStreamWait(p, w, i);
    }
    DoublingsAreGrownExactly(p, events);
  }

  // ---------------------------------------------------------------- the Python client

  ghost predicate PythonRun(w: World, policy: PyPolicy, r: Result, calls: nat, events: seq<Event<real>>) {
    Traced(w, PythonDelay(NormalizePython(policy)), NormalizePython(policy).maxAttempts, r, calls, events)
  }

  /** Seconds, doubled without bounds. */
  function Growing(initial: real, i: nat): real {
    if i == 0 then initial else Growing(initial, i - 1) + Growing(initial, i - 1)
  }

  function PyGrown(p: PyPolicy, i: nat): real {
    MinReal(p.maxBackoff, Growing(p.initial, i))
  }

  lemma {:induction false} GrowingIsPower(initial: real, i: nat)
    ensures Growing(initial, i) == initial * (Pow2(i) as real)
    decreases i
  {
    if i > 0 {
      GrowingIsPower(initial, i - 1);
      DoubledPower(initial, Pow2(i - 1));
    }
  }

  lemma DoubledPower(x: real, n: int)
    ensures x * (n as real) + x * (n as real) == x * ((2 * n) as real)
  {
    assert (2 * n) as real == n as real + n as real;
  }

  lemma {:induction false} GrowingIsNoLess(initial: real, i: nat)
    requires initial >= 0.0
    ensures Growing(initial, i) >= initial
    decreases i
  {
    if i > 0 {
      GrowingIsNoLess(initial, i - 1);
    }
  }

  lemma PyBackoffGrows(p: PyPolicy, i: nat)
    requires PyNormal(p)
    ensures PyBackoff(p, i) == PyGrown(p, i) >= 0.001
  {
    GrowingIsPower(p.initial, i);
    GrowingIsNoLess(p.initial, i);
  }

  lemma TimesBetween(c: real, jitter: real, rand: real)
    requires c >= 0.001 && 0.0 <= jitter <= 1.0 && 0.0 <= rand < 1.0
    ensures Times(c, 1.0 - jitter) <= MaxReal(0.001, Times(c, JitterFactor(jitter, rand)))
    ensures MaxReal(0.001, Times(c, JitterFactor(jitter, rand))) <= Times(c, 1.0 + jitter)
  {
    FactorIsAtLeast(jitter, rand);
    FactorIsAtMost(jitter, rand);
    TimesOrder(1.0 - jitter, JitterFactor(jitter, rand), c);
    TimesOrder(JitterFactor(jitter, rand), 1.0 + jitter, c);
    TimesOrder(1.0, 1.0 + jitter, c);
  }

  lemma TimesPlain(c: real, jitter: real, rand: real)
    requires c >= 0.001 && (jitter == 0.0 || rand == 0.5)
    ensures MaxReal(0.001, Times(c, JitterFactor(jitter, rand))) == c
  {
    assert JitterFactor(jitter, rand) == 1.0;
  }

  lemma PythonWaitIs(p: PyPolicy, w: World, i: nat)
    requires PyNormal(p) && w.call(i + 1).Fault? && Before(w, i).guided <= 0
    ensures PythonDelay(p)(Before(w, i), i + 1, w.rand(i + 1))
         == MaxReal(0.001, Times(PyGrown(p, i), JitterFactor(p.jitter, w.rand(i + 1))))
    ensures PyGrown(p, i) >= 0.001
  {
    assert Steps(i + 1) == i;
    PyBackoffGrows(p, i);
  }

  /**
   * A run of the Python client waits as long as it is told, in seconds; otherwise its waits double up to the maximum,
   * give or take the jitter.
   */
  lemma PythonWaitsGrow(w: World, policy: PyPolicy, r: Result, calls: nat, events: seq<Event<real>>)
    requires PythonRun(w, policy, r, calls, events)
    ensures AllFailed(w, events)
    ensures forall i :: 0 <= i < |events| && Before(w, i).guided > 0 ==>
      events[i].delay == Before(w, i).guided as real / 1_000_000_000.0
    ensures var p := NormalizePython(policy);
      forall i :: 0 <= i < |events| && Plain(w, p.jitter, i) ==> events[i].delay == PyGrown(p, i)
    ensures var p := NormalizePython(policy);
      FairDraws(w) ==>
        forall i :: 0 <= i < |events| && Before(w, i).guided <= 0 ==>
          Times(PyGrown(p, i), 1.0 - p.jitter) <= events[i].delay <= Times(PyGrown(p, i), 1.0 + p.jitter)
  {
    var p := NormalizePython(policy);
    EventsAre(w, PythonDelay(p), p.maxAttempts, r, calls, events);
    forall i: nat | i < |events| && Before(w, i).guided <= 0
      ensures Plain(w, p.jitter, i) ==> events[i].delay == PyGrown(p, i)
      ensures FairDraws(w) ==>
        Times(PyGrown(p, i), 1.0 - p.jitter) <= events[i].delay <= Times(PyGrown(p, i), 1.0 + p.jitter)
    {
      PythonWaitIs(p, w, i);
      if Plain(w, p.jitter, i) {
        TimesPlain(PyGrown(p, i), p.jitter, w.rand(i + 1));
      }
      if FairDraws(w) {
        TimesBetween(PyGrown(p, i), p.jitter, w.rand(i + 1));
      }
    }
  }
}
