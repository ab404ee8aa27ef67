/** The retry loops of the Go stream client, the Go REST client and the Python client, as traces. */
module RetryLoop {
  import opened Options
  import opened Bits
  import opened Backoff

  /** A failed call: whether its code is worth retrying, and the delay the server asks for (zero if none). */
  datatype Failure = Failure(retryable: bool, guided: int)

  datatype Outcome = Answer(value: int) | Fault(failure: Failure)

  /**
   * Everything outside the loop, by attempt number: what the call yields, whether the context is done by
   * the time it has, whether the wait after it is interrupted, and the random number drawn for it.
   */
  datatype World = World(call: nat -> Outcome, done: nat -> bool, interrupted: nat -> bool, rand: nat -> real)

  ghost predicate FairDraws(w: World) {
    forall k :: 0.0 <= w.rand(k) < 1.0
  }

  /** `FellThrough` is the return after the loop, which reports neither a result nor an error. */
  datatype Result = Returned(value: int) | Refused(failure: Failure) | Interrupted(failure: Failure) | FellThrough

  datatype Event<D> = Event(attempt: nat, delay: D)

  /** The loop makes no call after the `k`-th. */
  predicate Ends(w: World, max: int, k: nat) {
    w.call(k).Answer? || k >= max || !w.call(k).failure.retryable || w.done(k) || w.interrupted(k)
  }

  /** The number of the first call, from the `k`-th on, after which the loop ends. */
  function LastCall(w: World, max: int, k: nat): (n: nat)
    requires 1 <= k <= max
    ensures k <= n <= max && Ends(w, max, n)
    decreases max - k
  {
    if Ends(w, max, k) then k else LastCall(w, max, k + 1)
  }

  lemma {:induction false} NoEarlierEnd(w: World, max: int, k: nat, i: nat)
    requires 1 <= k <= max && k <= i < LastCall(w, max, k)
    ensures !Ends(w, max, i)
    decreases max - k
  {
    if i > k {
      NoEarlierEnd(w, max, k + 1, i);
    }
  }

  function Final(w: World, max: int, n: nat): Result {
    match w.call(n)
    case Answer(v) => Returned(v)
    case Fault(f) => if n >= max || !f.retryable || w.done(n) then Refused(f) else Interrupted(f)
  }

  /** The announced retries: one for each wait that was begun. */
  function Announced<D>(w: World, delay: (Failure, nat, real) -> D, n: nat): (es: seq<Event<D>>)
    requires forall i :: 1 <= i <= n ==> w.call(i).Fault?
    ensures |es| == n
    ensures forall i :: 0 <= i < n ==> es[i] == Event(i + 2, delay(w.call(i + 1).failure, i + 1, w.rand(i + 1)))
  {
    seq(n, i requires 0 <= i < n => Event(i + 2, delay(w.call(i + 1).failure, i + 1, w.rand(i + 1))))
  }

  lemma AnnouncedGrows<D>(w: World, delay: (Failure, nat, real) -> D, n: nat)
    requires forall i :: 1 <= i <= n + 1 ==> w.call(i).Fault?
    ensures Announced(w, delay, n + 1)
         == Announced(w, delay, n) + [Event(n + 2, delay(w.call(n + 1).failure, n + 1, w.rand(n + 1)))]
  {
  }

  function Waits(w: World, max: int, n: nat): nat {
    if Final(w, max, n).Interrupted? then n else if n == 0 then 0 else n - 1
  }

  /** What a run with at least one attempt does. */
  ghost predicate Traced<D>(w: World, delay: (Failure, nat, real) -> D, max: int, r: Result, calls: nat,
      events: seq<Event<D>>)
    requires max >= 1
  {
    var n := LastCall(w, max, 1);
    && calls == n && r == Final(w, max, n)
    && (forall i :: 1 <= i <= Waits(w, max, n) ==> w.call(i).Fault?)
    && events == Announced(w, delay, Waits(w, max, n))
  }

  /** The loop stands before its `n`-th call. */
  ghost predicate Underway<D>(w: World, delay: (Failure, nat, real) -> D, max: int, n: nat, events: seq<Event<D>>)
    requires 1 <= n <= max
  {
    && LastCall(w, max, 1) == LastCall(w, max, n)
    && (forall i :: 1 <= i < n ==> w.call(i).Fault?)
    && events == Announced(w, delay, n - 1)
  }

  lemma Starts<D>(w: World, delay: (Failure, nat, real) -> D, max: int)
    requires max >= 1
    ensures Underway(w, delay, max, 1, [])
  {
  }

  lemma GoesOn<D>(w: World, delay: (Failure, nat, real) -> D, max: int, n: nat, events: seq<Event<D>>)
    requires 1 <= n < max && Underway(w, delay, max, n, events) && !Ends(w, max, n)
    ensures Underway(w, delay, max, n + 1, events + [Event(n + 1, delay(w.call(n).failure, n, w.rand(n)))])
  {
    AnnouncedGrows(w, delay, n - 1);
  }

  lemma Stops<D>(w: World, delay: (Failure, nat, real) -> D, max: int, n: nat, events: seq<Event<D>>)
    requires 1 <= n <= max && Underway(w, delay, max, n, events) && Ends(w, max, n) && !Final(w, max, n).Interrupted?
    ensures Traced(w, delay, max, Final(w, max, n), n, events)
  {
  }

  lemma IsInterrupted<D>(w: World, delay: (Failure, nat, real) -> D, max: int, n: nat, events: seq<Event<D>>)
    requires 1 <= n <= max && Underway(w, delay, max, n, events) && Ends(w, max, n) && Final(w, max, n).Interrupted?
    ensures Traced(w, delay, max, Final(w, max, n), n, events + [Event(n + 1, delay(w.call(n).failure, n, w.rand(n)))])
  {
    AnnouncedGrows(w, delay, n - 1);
  }

  // ---------------------------------------------------------------- the stream client

  function Steps(attempt: nat): nat {
    if attempt == 0 then 0 else attempt - 1
  }

  function StreamDelay(p: Policy): (Failure, nat, real) -> int {
    (f: Failure, attempt: nat, rand: real) =>
      if f.guided > 0 then f.guided
      else Jittered(Doubled(p.initial, p.maxBackoff, Steps(attempt)), p.jitter, rand)
  }

  method RetryDelay(p: Policy, f: Failure, attempt: nat, rand: real) returns (d: int)
    requires attempt >= 1
    ensures d == StreamDelay(p)(f, attempt, rand)
  {
    if f.guided > 0 {
      return f.guided;
    }
    d := DoublingLoop(p.initial, p.maxBackoff, attempt);
    ghost var plain := d;
    if p.jitter > 0.0 {
      d := Truncate(Scaled(d, JitterFactor(p.jitter, rand)));
    }
    assert d == Jittered(plain, p.jitter, rand);
    assert plain == Doubled(p.initial, p.maxBackoff, Steps(attempt));
  }

  /** Without a policy there is one call; the return after the loop is reached exactly by a policy without attempts. */
  method RetryUnary(w: World, policy: Option<Policy>) returns (r: Result, calls: nat, events: seq<Event<int>>)
    ensures policy.None? ==>
      calls == 1 && events == []
      && r == (match w.call(1) case Answer(v) => Returned(v) case Fault(f) => Refused(f))
    ensures policy.Some? && policy.value.maxAttempts >= 1
        ==> Traced(w, StreamDelay(policy.value), policy.value.maxAttempts, r, calls, events)
    ensures r == FellThrough <==> policy.Some? && policy.value.maxAttempts <= 0
  {
    calls, events := 0, [];
    if policy.None? {
      match w.call(1) {
        case Answer(v) => return Returned(v), 1, [];
        case Fault(f) => return Refused(f), 1, [];
      }
    }
    var p := policy.value;
    ghost var delay := StreamDelay(p);
    if p.maxAttempts >= 1 {
      Starts(w, delay, p.maxAttempts);
    }
    var attempt := 1;
    while attempt <= p.maxAttempts
      invariant attempt == calls + 1 && (p.maxAttempts >= 1 ==> attempt <= p.maxAttempts)
      invariant p.maxAttempts >= 1 ==> Underway(w, delay, p.maxAttempts, attempt, events)
      decreases p.maxAttempts - attempt
    {
      calls := calls + 1;
      var outcome := w.call(attempt);
      if outcome.Answer? {
        Stops(w, delay, p.maxAttempts, attempt, events);
        return Returned(outcome.value), calls, events;
      }
      var f := outcome.failure;
      if attempt == p.maxAttempts || !f.retryable || w.done(attempt) {
        Stops(w, delay, p.maxAttempts, attempt, events);
        return Refused(f), calls, events;
      }
      var d := RetryDelay(p, f, attempt, w.rand(attempt));
      ghost var announced := events;
      events := events + [Event(attempt + 1, d)];
      if w.interrupted(attempt) {
        IsInterrupted(w, delay, p.maxAttempts, attempt, announced);
        return Interrupted(f), calls, events;
      }
      GoesOn(w, delay, p.maxAttempts, attempt, announced);
      attempt := attempt + 1;
    }
    return FellThrough, calls, events;
  }

  /** Policies enter a client only through normalisation, so the fall-through is dead code there. */
  method TrackWithRetryPolicy(w: World, policy: Policy) returns (r: Result, calls: nat, events: seq<Event<int>>)
    requires Policy64(policy)
    ensures !r.FellThrough?
    ensures var p := NormalizeStream(policy); Traced(w, StreamDelay(p), p.maxAttempts, r, calls, events)
  {
    r, calls, events := RetryUnary(w, Some(NormalizeStream(policy)));
  }

  // ---------------------------------------------------------------- the REST client

  function RestDelay(p: Policy): (Failure, nat, real) -> int {
    (f: Failure, attempt: nat, rand: real) =>
      if f.guided > 0 then f.guided
      else Jittered(Shifted(p.initial, p.maxBackoff, Steps(attempt) + 1), p.jitter, rand)
  }

  method Do(w: World, policy: Policy) returns (r: Result, calls: nat, events: seq<Event<int>>)
    ensures !r.FellThrough?
    ensures var p := NormalizeRest(policy); Traced(w, RestDelay(p), p.maxAttempts, r, calls, events)
  {
    var p := NormalizeRest(policy);
    ghost var delay := RestDelay(p);
    calls, events := 0, [];
    Starts(w, delay, p.maxAttempts);
    for attempt := 1 to p.maxAttempts + 1
      invariant attempt == calls + 1 <= p.maxAttempts
      invariant Underway(w, delay, p.maxAttempts, attempt, events)
    {
      calls := calls + 1;
      var outcome := w.call(attempt);
      if outcome.Answer? {
        Stops(w, delay, p.maxAttempts, attempt, events);
        return Returned(outcome.value), calls, events;
      }
      var f := outcome.failure;
      if attempt == p.maxAttempts || !f.retryable || w.done(attempt) {
        Stops(w, delay, p.maxAttempts, attempt, events);
        return Refused(f), calls, events;
      }
      var d := RestDelay(p)(f, attempt, w.rand(attempt));
      ghost var announced := events;
      events := events + [Event(attempt + 1, d)];
      if w.interrupted(attempt) {
        IsInterrupted(w, delay, p.maxAttempts, attempt, announced);
        return Interrupted(f), calls, events;
      }
      GoesOn(w, delay, p.maxAttempts, attempt, announced);
    }
    return FellThrough, calls, events;
  }

  /** A failed call of the REST client, from its status and its Retry-After header. */
  function RestFailure(retryable: bool, header: RetryAfter, now: int): Failure {
    Failure(retryable, GuidedDelay(header, now))
  }

  /** A number of seconds is waited for exactly while it fits a duration, whatever the policy says. */
  lemma RestWaitsForSeconds(p: Policy, n: int, now: int, attempt: nat, rand: real)
    requires 0 < n <= 9_223_372_036
    ensures RestDelay(p)(RestFailure(true, Seconds(n), now), attempt, rand) == n * SECOND
  {
  }

  /** So is the distance to a date ahead. */
  lemma RestWaitsForDate(p: Policy, at: int, now: int, attempt: nat, rand: real)
    requires now < at < now + TWO63
    ensures RestDelay(p)(RestFailure(true, Date(at), now), attempt, rand) == at - now
  {
  }

  /** One second more and the client falls back on its own backoff, as if the server had said nothing. */
  lemma RestForgetsLongSeconds(p: Policy, now: int, attempt: nat, rand: real)
    ensures RestDelay(p)(RestFailure(true, Seconds(9_223_372_037), now), attempt, rand)
         == RestDelay(p)(RestFailure(true, Unusable, now), attempt, rand)
  {
    LongestSecondsWrap(now);
  }

  // ---------------------------------------------------------------- the Python client

  datatype PyPolicy = PyPolicy(maxAttempts: int, initial: real, maxBackoff: real, jitter: real)

  function MaxReal(a: real, b: real): real {
    if a >= b then a else b
  }

  function MinReal(a: real, b: real): real {
    if a <= b then a else b
  }

  predicate PyNormal(p: PyPolicy) {
    1 <= p.maxAttempts && 0.001 <= p.initial <= p.maxBackoff && 0.0 <= p.jitter <= 1.0
  }

  function NormalizePython(p: PyPolicy): (r: PyPolicy)
    ensures PyNormal(r)
    ensures PyNormal(p) ==> r == p
  {
    var initial := MaxReal(0.001, p.initial);
    var attempts := if p.maxAttempts >= 1 then p.maxAttempts else 1;
    PyPolicy(attempts, initial, MaxReal(initial, p.maxBackoff), MinReal(1.0, MaxReal(0.0, p.jitter)))
  }

  /** Seconds; the guided delay of a failure is in nanoseconds. */
  function PythonDelay(p: PyPolicy): (Failure, nat, real) -> real {
    (f: Failure, attempt: nat, rand: real) =>
      if f.guided > 0 then f.guided as real / 1_000_000_000.0
      else MaxReal(0.001, Times(PyBackoff(p, Steps(attempt)), JitterFactor(p.jitter, rand)))
  }

  function Times(a: real, b: real): real {
    a * b
  }

  function PyBackoff(p: PyPolicy, steps: nat): real {
    MinReal(p.maxBackoff, p.initial * (Pow2(steps) as real))
  }

  /** The same world without a context: nothing is ever cancelled. */
  function Uncancelled(w: World): World {
    w.(done := (k: nat) => false, interrupted := (k: nat) => false)
  }

  /** `FellThrough` stands for the error raised after the loop. */
  method PythonRetryUnary(world: World, policy: Option<PyPolicy>)
      returns (r: Result, calls: nat, events: seq<Event<real>>)
    ensures policy.None? ==>
      calls == 1 && events == []
      && r == (match world.call(1) case Answer(v) => Returned(v) case Fault(f) => Refused(f))
    ensures policy.Some? && policy.value.maxAttempts >= 1 ==>
      Traced(Uncancelled(world), PythonDelay(policy.value), policy.value.maxAttempts, r, calls, events)
    ensures r == FellThrough <==> policy.Some? && policy.value.maxAttempts <= 0
  {
    calls, events := 0, [];
    if policy.None? {
      match world.call(1) {
        case Answer(v) => return Returned(v), 1, [];
        case Fault(f) => return Refused(f), 1, [];
      }
    }
    var p := policy.value;
    ghost var w, delay := Uncancelled(world), PythonDelay(p);
    if p.maxAttempts >= 1 {
      Starts(w, delay, p.maxAttempts);
    }
    var attempt := 1;
    while attempt <= p.maxAttempts
      invariant attempt == calls + 1 && (p.maxAttempts >= 1 ==> attempt <= p.maxAttempts)
      invariant p.maxAttempts >= 1 ==> Underway(w, delay, p.maxAttempts, attempt, events)
      decreases p.maxAttempts - attempt
    {
      calls := calls + 1;
      var outcome := world.call(attempt);
      if outcome.Answer? {
        Stops(w, delay, p.maxAttempts, attempt, events);
        return Returned(outcome.value), calls, events;
      }
      var f := outcome.failure;
      if attempt >= p.maxAttempts || !f.retryable {
        Stops(w, delay, p.maxAttempts, attempt, events);
        return Refused(f), calls, events;
      }
      GoesOn(w, delay, p.maxAttempts, attempt, events);
      events := events + [Event(attempt + 1, PythonDelay(p)(f, attempt, world.rand(attempt)))];
      attempt := attempt + 1;
    }
    return FellThrough, calls, events;
  }

  /** A client normalises its policy when it is made, so the error after the loop is never raised. */
  method PythonTrack(w: World, policy: Option<PyPolicy>) returns (r: Result, calls: nat, events: seq<Event<real>>)
    ensures !r.FellThrough?
    ensures policy.Some? ==>
      var p := NormalizePython(policy.value); Traced(Uncancelled(w), PythonDelay(p), p.maxAttempts, r, calls, events)
  {
    var held := if policy.Some? then Some(NormalizePython(policy.value)) else None;
    r, calls, events := PythonRetryUnary(w, held);
  }

  // ---------------------------------------------------------------- properties of every trace

  /**
   * Every run makes between 1 and MaxAttempts calls; all but the last are retryable failures with a live
   * context; retries are announced with consecutive numbers from 2, at most MaxAttempts - 1 of them; and
   * the result is the last call's, or its failure when the wait after it was interrupted.
   */
  lemma TraceShape<D>(w: World, delay: (Failure, nat, real) -> D, max: int, r: Result, calls: nat,
      events: seq<Event<D>>)
    requires max >= 1 && Traced(w, delay, max, r, calls, events)
    ensures 1 <= calls <= max
    ensures forall i :: 1 <= i < calls ==>
      w.call(i).Fault? && w.call(i).failure.retryable && !w.done(i) && !w.interrupted(i)
    ensures |events| <= max - 1 && (|events| == calls - 1 || (|events| == calls && r.Interrupted?))
    ensures forall i :: 0 <= i < |events| ==>
      events[i].attempt == i + 2 && w.call(i + 1).Fault?
          && events[i].delay == delay(w.call(i + 1).failure, i + 1, w.rand(i + 1))
    ensures match r
      case Returned(v) => w.call(calls) == Answer(v)
      case Refused(f) => w.call(calls) == Fault(f) && (calls == max || !f.retryable || w.done(calls))
      case Interrupted(f) => w.call(calls) == Fault(f) && f.retryable && w.interrupted(calls) && calls < max
      case FellThrough => false
  {
    forall i | 1 <= i < calls
      ensures w.call(i).Fault? && w.call(i).failure.retryable && !w.done(i) && !w.interrupted(i)
    {
      NoEarlierEnd(w, max, 1, i);
    }
    assert Ends(w, max, calls);
  }

  /** How long a Go timer keeps its caller waiting: a negative one fires at once. */
  function Wait(delay: int): real {
    if delay < 0 then 0.0 else delay as real
  }

  /** The Python client sleeps for as many seconds as it announced. */
  function Sleep(delay: real): real {
    delay
  }

  /** The waits that no server asked for, added up. */
  function UnguidedTotal<D>(w: World, wait: D -> real, events: seq<Event<D>>): real
    requires forall i :: 1 <= i <= |events| ==> w.call(i).Fault?
  {
    if events == [] then 0.0
    else UnguidedTotal(w, wait, events[..|events| - 1])
         + if w.call(|events|).failure.guided > 0 then 0.0 else wait(events[|events| - 1].delay)
  }

  function Product(n: nat, x: real): real {
    n as real * x
  }

  lemma OneMoreTime(n: nat, x: real)
    requires n > 0
    ensures Product(n, x) == Product(n - 1, x) + x
  {
  }

  lemma ProductSign(n: nat, x: real)
    requires x >= 0.0
    ensures Product(n, x) >= 0.0
  {
  }

  lemma {:induction false} UnguidedBound<D>(w: World, wait: D -> real, events: seq<Event<D>>, most: nat, limit: real)
    requires forall i :: 1 <= i <= |events| ==> w.call(i).Fault?
    requires limit >= 0.0 && |events| <= most
    requires forall i :: 0 <= i < |events| && w.call(i + 1).failure.guided <= 0 ==> wait(events[i].delay) <= limit
    ensures UnguidedTotal(w, wait, events) <= Product(most, limit)
    decreases most
  {
    ProductSign(most, limit);
    if events != [] {
      OneMoreTime(most, limit);
      UnguidedBound(w, wait, events[..|events| - 1], most - 1, limit);
    }
  }

  /** Without guidance no draw makes the delay keep its caller waiting longer than the limit. */
  ghost predicate Limits<D>(delay: (Failure, nat, real) -> D, wait: D -> real, limit: real) {
    forall f: Failure, k: nat, x: real :: f.guided <= 0 && 0.0 <= x < 1.0 ==> wait(delay(f, k, x)) <= limit
  }

  /** What limits every delay limits the whole of a trace, once for each wait there can be. */
  lemma TotalWithin<D>(w: World, delay: (Failure, nat, real) -> D, wait: D -> real, limit: real,
      max: int, r: Result, calls: nat, events: seq<Event<D>>)
    requires max >= 1 && Traced(w, delay, max, r, calls, events) && FairDraws(w)
    requires limit >= 0.0 && Limits(delay, wait, limit)
    ensures forall i :: 1 <= i <= |events| ==> w.call(i).Fault?
    ensures UnguidedTotal(w, wait, events) <= Product(max - 1, limit)
  {
    TraceShape(w, delay, max, r, calls, events);
    forall i | 1 <= i <= |events|
      ensures w.call(i).Fault?
    {
      assert events[i - 1].attempt == i + 1;
    }
    forall i | 0 <= i < |events| && w.call(i + 1).failure.guided <= 0
      ensures wait(events[i].delay) <= limit
    {
      var f, x := w.call(i + 1).failure, w.rand(i + 1);
      assert events[i].delay == delay(f, i + 1, x);
      assert wait(delay(f, i + 1, x)) <= limit;
    }
    UnguidedBound(w, wait, events, max - 1, limit);
  }

  // ---------------------------------------------------------------- how long a run can wait

  /** One unguided delay of the stream client: at most (1 + jitter) times the maximum, for every normalised policy. */
  lemma StreamDelayBound(p: Policy, f: Failure, attempt: nat, rand: real)
    requires Normal(p) && f.guided <= 0 && 0.0 <= rand < 1.0
    ensures Wait(StreamDelay(p)(f, attempt, rand)) <= Stretched(p)
  {
    DoubledAtMost(p.initial, p.maxBackoff, Steps(attempt));
    JitteredAtMost(Doubled(p.initial, p.maxBackoff, Steps(attempt)), p.maxBackoff, p.jitter, rand);
    StretchedIsPositive(p);
  }

  /** (1 + Jitter) MaxBackoff. */
  function Stretched(p: Policy): real {
    p.maxBackoff as real * (1.0 + p.jitter)
  }

  lemma StretchedIsPositive(p: Policy)
    requires p.maxBackoff >= 0 && p.jitter >= 0.0
    ensures Stretched(p) >= 0.0
  {
    TimesOrder(0.0, p.maxBackoff as real, 1.0 + p.jitter);
  }

  lemma StreamDelayIsNatural(p: Policy, f: Failure, attempt: nat, rand: real)
    requires Normal(p) && p.maxBackoff <= Summit(p.initial) && 0.0 <= rand < 1.0
    ensures 0 <= StreamDelay(p)(f, attempt, rand)
  {
    LoopIsMonotone(p, Steps(attempt) + 1, Steps(attempt) + 1);
    JitterBound(Doubled(p.initial, p.maxBackoff, Steps(attempt)), p.jitter, rand);
  }

  lemma StreamDelayGoesNegative(p: Policy) returns (attempt: nat)
    requires Normal(p) && p.maxBackoff > Summit(p.initial)
    ensures StreamDelay(p)(Failure(true, 0), attempt, 0.5) < 0
  {
    var k := DoublingWraps(p.initial, p.maxBackoff);
    attempt := k + 1;
    assert Steps(attempt) == k;
    HalfDrawKeeps(Doubled(p.initial, p.maxBackoff, k), p.jitter);
  }

  /** The stream client never announces a negative delay exactly when none of its doublings wraps. */
  lemma StreamDelayIsNaturalExactly(p: Policy)
    requires Normal(p)
    ensures (forall f: Failure, attempt: nat, rand: real :: 0.0 <= rand < 1.0 ==> 0 <= StreamDelay(p)(f, attempt, rand))
       <==> p.maxBackoff <= Summit(p.initial)
  {
    if p.maxBackoff <= Summit(p.initial) {
      forall f: Failure, attempt: nat, rand: real | 0.0 <= rand < 1.0
        ensures 0 <= StreamDelay(p)(f, attempt, rand)
      {
        StreamDelayIsNatural(p, f, attempt, rand);
      }
    } else {
      var attempt := StreamDelayGoesNegative(p);
      assert StreamDelay(p)(Failure(true, 0), attempt, 0.5) < 0;
    }
  }

  /** The middle draw leaves a delay as it is. */
  lemma HalfDrawKeeps(d: int, jitter: real)
    ensures Jittered(d, jitter, 0.5) == d
  {
    assert JitterFactor(jitter, 0.5) == 1.0;
    assert Scaled(d, 1.0) == d as real;
  }

  lemma StreamDelayLimits(p: Policy)
    requires Normal(p)
    ensures Stretched(p) >= 0.0 && Limits(StreamDelay(p), Wait, Stretched(p))
  {
    StretchedIsPositive(p);
    forall f: Failure, k: nat, x: real | f.guided <= 0 && 0.0 <= x < 1.0
      ensures Wait(StreamDelay(p)(f, k, x)) <= Stretched(p)
    {
      StreamDelayBound(p, f, k, x);
    }
  }

  /**
   * Without server guidance a run of the stream client never waits longer in all than MaxAttempts - 1 times
   * (1 + Jitter) MaxBackoff, for every normalised policy, also where doublings wrap.
   */
  lemma {:induction false} TotalWaitIsBounded(w: World, p: Policy, r: Result, calls: nat, events: seq<Event<int>>)
    requires Normal(p) && FairDraws(w) && Traced(w, StreamDelay(p), p.maxAttempts, r, calls, events)
    ensures forall i :: 1 <= i <= |events| ==> w.call(i).Fault?
    ensures UnguidedTotal(w, Wait, events) <= Product(p.maxAttempts - 1, Stretched(p))
  {
    StreamDelayLimits(p);
    var delay, limit := StreamDelay(p), Stretched(p);
    TotalWithin(w, delay, Wait, limit, p.maxAttempts, r, calls, events);
  }

  lemma RestDelayLimits(p: Policy)
    requires p.maxBackoff >= 0 && 0.0 <= p.jitter <= 1.0
    ensures Stretched(p) >= 0.0 && Limits(RestDelay(p), Wait, Stretched(p))
  {
    StretchedIsPositive(p);
    forall f: Failure, k: nat, x: real | f.guided <= 0 && 0.0 <= x < 1.0
      ensures Wait(RestDelay(p)(f, k, x)) <= Stretched(p)
    {
      JitteredAtMost(Shifted(p.initial, p.maxBackoff, Steps(k) + 1), p.maxBackoff, p.jitter, x);
    }
  }

  /** The same of the REST client, for every policy it is given: its own normalisation is enough. */
  lemma {:induction false} RestTotalWaitIsBounded(w: World, policy: Policy, r: Result, calls: nat,
      events: seq<Event<int>>)
    requires FairDraws(w)
    requires var p := NormalizeRest(policy); Traced(w, RestDelay(p), p.maxAttempts, r, calls, events)
    ensures forall i :: 1 <= i <= |events| ==> w.call(i).Fault?
    ensures var p := NormalizeRest(policy); UnguidedTotal(w, Wait, events) <= Product(p.maxAttempts - 1, Stretched(p))
  {
    var p := NormalizeRest(policy);
    RestDelayLimits(p);
    var delay, limit := RestDelay(p), Stretched(p);
    TotalWithin(w, delay, Wait, limit, p.maxAttempts, r, calls, events);
  }

  function PyStretched(p: PyPolicy): real {
    Times(p.maxBackoff, 1.0 + p.jitter)
  }

  lemma PythonDelayBound(p: PyPolicy, f: Failure, attempt: nat, rand: real)
    requires PyNormal(p) && f.guided <= 0 && 0.0 <= rand < 1.0
    ensures 0.001 <= PythonDelay(p)(f, attempt, rand) <= PyStretched(p)
  {
    FactorIsPositive(p.jitter, rand);
    FactorIsAtMost(p.jitter, rand);
    ProductAtMost(PyBackoff(p, Steps(attempt)), p.maxBackoff, JitterFactor(p.jitter, rand), 1.0 + p.jitter);
  }

  lemma ProductAtMost(a: real, b: real, factor: real, top: real)
    requires 0.001 <= b && a <= b && 0.0 <= factor <= top && 1.0 <= top
    ensures Times(a, factor) <= Times(b, top) && 0.001 <= Times(b, top)
  {
    TimesOrder(a, b, factor);
    TimesOrder(factor, top, b);
    TimesOrder(1.0, top, b);
  }

  lemma PythonDelayLimits(p: PyPolicy)
    requires PyNormal(p)
    ensures PyStretched(p) >= 0.0 && Limits(PythonDelay(p), Sleep, PyStretched(p))
  {
    ProductAtMost(p.maxBackoff, p.maxBackoff, 1.0, 1.0 + p.jitter);
    forall f: Failure, k: nat, x: real | f.guided <= 0 && 0.0 <= x < 1.0
      ensures Sleep(PythonDelay(p)(f, k, x)) <= PyStretched(p)
    {
      PythonDelayBound(p, f, k, x);
    }
  }

  /** And of the Python client. */
  lemma {:induction false} PythonTotalWaitIsBounded(w: World, p: PyPolicy, r: Result, calls: nat,
      events: seq<Event<real>>)
    requires PyNormal(p) && FairDraws(w) && Traced(w, PythonDelay(p), p.maxAttempts, r, calls, events)
    ensures forall i :: 1 <= i <= |events| ==> w.call(i).Fault?
    ensures UnguidedTotal(w, Sleep, events) <= Product(p.maxAttempts - 1, PyStretched(p))
  {
    PythonDelayLimits(p);
    var delay := PythonDelay(p);
    TotalWithin(w, delay, Sleep, PyStretched(p), p.maxAttempts, r, calls, events);
  }
}
