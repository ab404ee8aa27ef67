/** From a server's answer to the wait it asks for, in both clients of the stream service. */
module RetryGuidance {
  import opened Options
  import opened Numbers
  import opened RetryInfo
  import opened Backoff
  import opened RetryLoop

  function Nanos(d: Duration): nat {
    d.seconds * SECOND + d.nanos
  }

  /** `AsDuration`: more than 64 bits hold becomes the longest duration. */
  function AsDuration(d: Duration): int {
    Min(Nanos(d), TWO63 - 1)
  }

  /** A failed call as the Go client sees it: the guidance is the first positive delay of its details. */
  function GoFailure(retryable: bool, details: seq<Detail>): Failure {
    Failure(retryable, match GoDelay(details) case None => 0 case Some(d) => AsDuration(d))
  }

  /** The same call in Python, where a number of nanoseconds has no bounds. */
  function PyFailure(retryable: bool, details: seq<Detail>): Failure {
    Failure(retryable, match GoDelay(details) case None => 0 case Some(d) => Nanos(d))
  }

  /** The Go client takes the delay of the first detail that offers a positive one, and no other. */
  lemma {:induction false} FirstOfferDecides(details: seq<Detail>, d: Duration)
    ensures GoDelay(details) == Some(d) <==>
      exists i ::
        && 0 <= i < |details| && Offers(details[i]) && details[i].body.delay == Some(d)
        && forall j :: 0 <= j < i ==> !Offers(details[j])
    decreases |details|
  {
    if details != [] && !Offers(details[0]) {
      FirstOfferDecides(details[1..], d);
      if GoDelay(details[1..]) == Some(d) {
        var i :| 0 <= i < |details[1..]| && Offers(details[1..][i]) && details[1..][i].body.delay == Some(d)
            && forall j :: 0 <= j < i ==> !Offers(details[1..][j]);
        OfferMoves(details, i + 1);
      }
      if i :|
          && 0 <= i < |details| && Offers(details[i]) && details[i].body.delay == Some(d)
          && forall j :: 0 <= j < i ==> !Offers(details[j]) {
        assert Offers(details[1..][i - 1]) && forall j :: 0 <= j < i - 1 ==> !Offers(details[1..][j]);
      }
    }
  }

  lemma OfferMoves(details: seq<Detail>, i: nat)
    requires 0 < i < |details| && !Offers(details[0])
    requires forall j :: 0 <= j < i - 1 ==> !Offers(details[1..][j])
    ensures forall j :: 0 <= j < i ==> !Offers(details[j])
  {
    forall j | 0 < j < i
      ensures !Offers(details[j])
    {
      assert details[j] == details[1..][j - 1];
    }
  }

  lemma {:induction false} SelectedIsPositive(details: seq<Detail>)
    ensures GoDelay(details).Some? ==> Positive(GoDelay(details).value)
  {
    if details != [] {
      SelectedIsPositive(details[1..]);
    }
  }

  lemma DelayInNanos(d: Duration)
    ensures Delay(d) == Nanos(d) as real / 1_000_000_000.0
  {
  }

  /** What Python reads from the trailers is what its retry loop takes for guidance, and waits for. */
  lemma PythonWaitsAsTold(ts: seq<Trailer>, k: nat, p: PyPolicy, attempt: nat, rand: real)
    requires k < |ts| && ts[k].Attached? && forall i :: 0 <= i < |ts| && i != k ==> ts[i].Plain?
    requires forall i :: 0 <= i < |ts| ==> Honest(ts[i])
    requires GoDelay(ts[k].status.details).Some?
    ensures PyMetadata(EntriesOf(ts)) == Some(PythonDelay(p)(PyFailure(true, ts[k].status.details), attempt, rand))
  {
    MetadataFollowsGo(ts);
    OneStatusDecides(ts, k);
    SelectedIsPositive(ts[k].status.details);
    DelayInNanos(GoDelay(ts[k].status.details).value);
  }

  /**
   * Told a delay, both clients wait for it, whatever their policies, attempts and draws: the same one if and
   * only if it fits a 64-bit number of nanoseconds.
   */
  lemma GuidanceIsSharedExactly(details: seq<Detail>, p: Policy, q: PyPolicy, i: nat, j: nat, x: real, y: real)
    requires GoDelay(details).Some?
    ensures StreamDelay(p)(GoFailure(true, details), i, x) as real / 1_000_000_000.0
        == PythonDelay(q)(PyFailure(true, details), j, y)
       <==> Nanos(GoDelay(details).value) < TWO63
  {
    SelectedIsPositive(details);
  }
}
