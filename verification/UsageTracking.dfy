/** The throttle on recording when an API key was last used, and why forgetting old entries is harmless. */
module UsageTracking {
  import opened AuthTypes
  import opened Options

  const INTERVAL: Time := MINUTE

  /** The zero value of an instant. */
  const ZERO: Time := 0

  /** `updates` holds the last reservation of each key. */
  datatype Tracker = Tracker(updates: map<Id, Time>, cleaned: Time)

  const NEW := Tracker(map[], ZERO)

  predicate Recent(at: Time, now: Time) {
    now - at < INTERVAL
  }

  /** The stored use, or the reservation, is recent enough to leave the row alone. */
  predicate Throttled(t: Tracker, key: Id, lastUsed: Option<Time>, now: Time) {
    (lastUsed.Some? && Recent(lastUsed.value, now)) || (key in t.updates && Recent(t.updates[key], now))
  }

  predicate CleanupDue(t: Tracker, now: Time) {
    t.cleaned == ZERO || !Recent(t.cleaned, now)
  }

  function Swept(updates: map<Id, Time>, now: Time): map<Id, Time> {
    map id | id in updates && Recent(updates[id], now) :: updates[id]
  }

  function Cleaned(t: Tracker, now: Time): Tracker {
    if CleanupDue(t, now) then Tracker(Swept(t.updates, now), now) else t
  }

  /** `shouldUpdate`: the tracker afterwards; the answer is that the call was not throttled. */
  function Asked(t: Tracker, key: Id, lastUsed: Option<Time>, now: Time): Tracker {
    if Throttled(t, key, lastUsed, now) then t
    else var c := Cleaned(t, now); c.(updates := c.updates[key := now])
  }

  /** `release`: a missing entry reads as the zero instant, and removing it changes nothing. */
  function Released(t: Tracker, key: Id, at: Time): Tracker {
    if key in t.updates && t.updates[key] == at then t.(updates := t.updates - {key}) else t
  }

  class UsageTracker {
    var lastUpdates: map<Id, Time>
    var lastCleanup: Time

    function State(): Tracker
      reads this
    {
      Tracker(lastUpdates, lastCleanup)
    }

    constructor ()
      ensures State() == NEW
    {
      lastUpdates := map[];
      lastCleanup := ZERO;
    }

    method ShouldUpdate(key: Id, lastUsed: Option<Time>, now: Time) returns (due: bool)
      modifies this
      ensures due <==> !Throttled(old(State()), key, lastUsed, now)
      ensures State() == Asked(old(State()), key, lastUsed, now)
    {
      if lastUsed.Some? && now - lastUsed.value < INTERVAL {
        return false;
      }
      if key in lastUpdates && now - lastUpdates[key] < INTERVAL {
        return false;
      }
      if lastCleanup == ZERO || now - lastCleanup >= INTERVAL {
        var rest := lastUpdates.Keys;
        while rest != {}
          invariant lastCleanup == old(lastCleanup)
          invariant lastUpdates.Keys <= old(lastUpdates).Keys && rest <= old(lastUpdates).Keys
          invariant forall id :: id in lastUpdates ==> lastUpdates[id] == old(lastUpdates)[id]
          invariant forall id :: id in rest ==> id in lastUpdates
          invariant forall id :: id in old(lastUpdates) && id !in rest ==>
            (id in lastUpdates <==> Recent(old(lastUpdates)[id], now))
          decreases rest
        {
          var id :| id in rest;
          if now - lastUpdates[id] >= INTERVAL {
            lastUpdates := lastUpdates - {id};
          }
          rest := rest - {id};
        }
        assert lastUpdates == Swept(old(lastUpdates), now);
        lastCleanup := now;
      }
      lastUpdates := lastUpdates[key := now];
      return true;
    }

    method Release(key: Id, reservedAt: Time)
      modifies this
      ensures State() == Released(old(State()), key, reservedAt)
    {
      var found := if key in lastUpdates then lastUpdates[key] else ZERO;
      if found == reservedAt {
        lastUpdates := lastUpdates - {key};
      }
    }
  }

  // ---------------------------------------------------------------- the tracker that never forgets

  function AskedForever(t: Tracker, key: Id, lastUsed: Option<Time>, now: Time): Tracker {
    if Throttled(t, key, lastUsed, now) then t else t.(updates := t.updates[key := now])
  }

  datatype Call = Ask(key: Id, lastUsed: Option<Time>, now: Time) | Release(key: Id, at: Time)

  function Step(t: Tracker, c: Call): Tracker {
    match c
    case Ask(key, lastUsed, now) => Asked(t, key, lastUsed, now)
    case Release(key, at) => Released(t, key, at)
  }

  function StepForever(t: Tracker, c: Call): Tracker {
    match c
    case Ask(key, lastUsed, now) => AskedForever(t, key, lastUsed, now)
    case Release(key, at) => Released(t, key, at)
  }

  /** The tracker after the first `n` calls. */
  function After(calls: seq<Call>, n: nat): Tracker
    requires n <= |calls|
  {
    if n == 0 then NEW else Step(After(calls, n - 1), calls[n - 1])
  }

  function AfterForever(calls: seq<Call>, n: nat): Tracker
    requires n <= |calls|
  {
    if n == 0 then NEW else StepForever(AfterForever(calls, n - 1), calls[n - 1])
  }

  /** The clock never goes back between questions. */
  predicate Forward(calls: seq<Call>) {
    forall i, j :: 0 <= i < j < |calls| && calls[i].Ask? && calls[j].Ask? ==> calls[i].now <= calls[j].now
  }

  /** The answer to the `i`-th call, a question. */
  predicate Answer(calls: seq<Call>, i: nat)
    requires i < |calls| && calls[i].Ask?
  {
    !Throttled(After(calls, i), calls[i].key, calls[i].lastUsed, calls[i].now)
  }

  /** What cleanup has dropped is no longer recent at any question still to come. */
  ghost predicate Agrees(t: Tracker, forever: Tracker, calls: seq<Call>, n: nat) {
    && (forall id :: id in t.updates ==> id in forever.updates && forever.updates[id] == t.updates[id])
    && (forall id, j :: id in forever.updates && id !in t.updates && n <= j < |calls| && calls[j].Ask?
          ==> !Recent(forever.updates[id], calls[j].now))
  }

  lemma {:induction false} StaysInAgreement(calls: seq<Call>, n: nat)
    requires Forward(calls) && n <= |calls|
    ensures Agrees(After(calls, n), AfterForever(calls, n), calls, n)
  {
    if n > 0 {
      StaysInAgreement(calls, n - 1);
    }
  }

  /** Cleaning up never changes an answer. */
  lemma CleanupIsInvisible(calls: seq<Call>, i: nat)
    requires Forward(calls) && i < |calls| && calls[i].Ask?
    ensures Answer(calls, i) <==> !Throttled(AfterForever(calls, i), calls[i].key, calls[i].lastUsed, calls[i].now)
  {
    StaysInAgreement(calls, i);
  }

  /** No reservation of `key` made at time `at` is released by the calls from `i` up to `j`. */
  predicate KeptBetween(calls: seq<Call>, key: Id, at: Time, i: nat, j: nat)
    requires i <= j <= |calls|
  {
    forall k :: i <= k < j ==> calls[k] != Release(key, at)
  }

  lemma {:induction false} ReservationHolds(calls: seq<Call>, i: nat, n: nat)
    requires Forward(calls) && i < n <= |calls| && calls[i].Ask? && Answer(calls, i)
    requires KeptBetween(calls, calls[i].key, calls[i].now, i, n)
    ensures var f := AfterForever(calls, n);
      (calls[i].key in f.updates && f.updates[calls[i].key] == calls[i].now)
      || exists k :: i < k < n && calls[k].Ask? && calls[i].now + INTERVAL <= calls[k].now
  {
    CleanupIsInvisible(calls, i);
    if n > i + 1 {
      ReservationHolds(calls, i, n - 1);
    }
  }

  /** Granted reservations of one key are at least an interval apart unless the earlier one was released. */
  lemma GrantsAreSpaced(calls: seq<Call>, i: nat, j: nat)
    requires Forward(calls) && i < j < |calls| && calls[i].Ask? && calls[j].Ask? && calls[i].key == calls[j].key
    requires Answer(calls, i) && Answer(calls, j)
    requires KeptBetween(calls, calls[i].key, calls[i].now, i, j)
    ensures calls[j].now - calls[i].now >= INTERVAL
  {
    ReservationHolds(calls, i, j);
    CleanupIsInvisible(calls, j);
  }

  /** The `j`-th call was granted the key's reservation, which the calls up to `n` have left alone. */
  predicate Holds(calls: seq<Call>, j: nat, key: Id, n: nat) {
    && j < n <= |calls| && calls[j].Ask? && calls[j].key == key && Answer(calls, j)
    && KeptBetween(calls, key, calls[j].now, j, n)
  }

  lemma {:induction false} EntriesAreHeld(calls: seq<Call>, n: nat, key: Id) returns (j: nat)
    requires Forward(calls) && n <= |calls| && key in AfterForever(calls, n).updates
    ensures Holds(calls, j, key, n) && calls[j].now == AfterForever(calls, n).updates[key]
    decreases n
  {
    var c := calls[n - 1];
    if c.Ask? {
      CleanupIsInvisible(calls, n - 1);
    }
    if c.Ask? && c.key == key && Answer(calls, n - 1) {
      j := n - 1;
    } else {
      j := EntriesAreHeld(calls, n - 1, key);
      assert c != Release(key, calls[j].now);
    }
  }

  /**
   * A use is recorded exactly when the stored one is a minute old or missing, and no question within the last
   * minute holds a reservation of the key.
   */
  lemma AnswersExactly(calls: seq<Call>, i: nat)
    requires Forward(calls) && i < |calls| && calls[i].Ask?
    ensures Answer(calls, i) <==>
      && (calls[i].lastUsed.None? || calls[i].now - calls[i].lastUsed.value >= MINUTE)
      && forall j :: 0 <= j < i && Holds(calls, j, calls[i].key, i) ==> calls[i].now - calls[j].now >= MINUTE
  {
    var key, f := calls[i].key, AfterForever(calls, i);
    CleanupIsInvisible(calls, i);
    forall j | 0 <= j < i && Holds(calls, j, key, i) && calls[i].now - calls[j].now < MINUTE
      ensures Throttled(f, key, calls[i].lastUsed, calls[i].now)
    {
      ReservationHolds(calls, j, i);
    }
    if key in f.updates {
      var j := EntriesAreHeld(calls, i, key);
      assert Holds(calls, j, key, i);
    }
  }

  ghost predicate EntriesFollowCleanup(t: Tracker) {
    forall id :: id in t.updates ==> t.cleaned - INTERVAL < t.updates[id]
  }

  lemma {:induction false} EntriesStayYoung(calls: seq<Call>, n: nat)
    requires Forward(calls) && n <= |calls|
    ensures EntriesFollowCleanup(After(calls, n))
    ensures After(calls, n).cleaned == ZERO
         || exists k :: 0 <= k < n && calls[k].Ask? && calls[k].now == After(calls, n).cleaned
  {
    if n > 0 {
      EntriesStayYoung(calls, n - 1);
      if After(calls, n - 1).cleaned != ZERO && After(calls, n).cleaned == After(calls, n - 1).cleaned {
        var k :| 0 <= k < n - 1 && calls[k].Ask? && calls[k].now == After(calls, n - 1).cleaned;
      }
    }
  }

  /** Right after a granted reservation, every entry kept is younger than two intervals. */
  lemma MemoryIsBounded(calls: seq<Call>, i: nat, id: Id)
    requires Forward(calls) && i < |calls| && calls[i].Ask? && Answer(calls, i)
    requires id in After(calls, i + 1).updates
    ensures calls[i].now - After(calls, i + 1).updates[id] < 2 * INTERVAL
  {
    EntriesStayYoung(calls, i);
    EntriesStayYoung(calls, i + 1);
  }
}
