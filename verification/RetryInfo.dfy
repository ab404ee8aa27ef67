/** The server's retry delay inside a `google.rpc.Status`, as the Python and the Go client find it. */
module RetryInfo {
  import opened Options
  import opened Text
  import opened Wire
  import opened Bits

  datatype Duration = Duration(seconds: nat, nanos: nat)

  /** The value of a detail: a RetryInfo message with an optional delay, or some other message's bytes. */
  datatype Body = Retry(delay: Option<Duration>) | Other(bytes: seq<Byte>)

  /** An `Any`: a type URL and the encoded message. */
  datatype Detail = Detail(typeUrl: seq<Byte>, body: Body)

  datatype Status = Status(code: nat, message: seq<Byte>, details: seq<Detail>)

  /** "google.rpc.RetryInfo" in ASCII. */
  const RETRY_INFO: seq<Byte> := [103, 111, 111, 103, 108, 101, 46, 114, 112, 99, 46, 82, 101, 116, 114, 121, 73, 110,
      102, 111]

  const SLASH: Byte := 47

  // ---------------------------------------------------------------- canonical encoding

  /** Default values are not written. */
  function DurationFields(d: Duration): seq<Field> {
    (if d.seconds == 0 then [] else [Number(1, d.seconds)]) + (if d.nanos == 0 then [] else [Number(2, d.nanos)])
  }

  function RetryFields(delay: Option<Duration>): seq<Field> {
    match delay
    case None => []
    case Some(d) => [Bytes(1, EncodeFields(DurationFields(d)))]
  }

  function BodyBytes(b: Body): seq<Byte> {
    match b
    case Retry(delay) => EncodeFields(RetryFields(delay))
    case Other(bytes) => bytes
  }

  function DetailFields(d: Detail): seq<Field> {
    (if d.typeUrl == [] then [] else [Bytes(1, d.typeUrl)])
        + (if BodyBytes(d.body) == [] then [] else [Bytes(2, BodyBytes(d.body))])
  }

  function DetailsFields(ds: seq<Detail>): seq<Field> {
    if ds == [] then [] else [Bytes(3, EncodeFields(DetailFields(ds[0])))] + DetailsFields(ds[1..])
  }

  function StatusFields(s: Status): seq<Field> {
    (if s.code == 0 then [] else [Number(1, s.code)]) + (if s.message == [] then [] else [Bytes(2, s.message)])
        + DetailsFields(s.details)
  }

  /** Every number and length in the status can be read back. */
  predicate Readable(s: Status) {
    && s.code < LIMIT && |s.message| < LIMIT
    && forall i :: 0 <= i < |s.details| ==> ReadableDetail(s.details[i])
  }

  predicate ReadableDetail(d: Detail) {
    && |d.typeUrl| < LIMIT && |BodyBytes(d.body)| < LIMIT && |EncodeFields(DetailFields(d))| < LIMIT
    && (d.body.Retry? && d.body.delay.Some? ==>
          d.body.delay.value.seconds < LIMIT && d.body.delay.value.nanos < LIMIT
          && |EncodeFields(DurationFields(d.body.delay.value))| < LIMIT)
  }

  // ---------------------------------------------------------------- the Python client

  function First<T>(xs: seq<T>, default: T): T {
    if xs == [] then default else xs[0]
  }

  predicate NamedLikeRetryInfo(typeUrl: seq<Byte>) {
    EndsWith(typeUrl, RETRY_INFO)
  }

  function Delay(d: Duration): real {
    d.seconds as real + d.nanos as real / 1_000_000_000.0
  }

  /** What one encoded detail contributes: an error, nothing, or a delay. */
  datatype Found = Error | Nothing | Found(delay: real)

  function OrZero(n: Option<nat>): nat {
    match n case None => 0 case Some(v) => v
  }

  function PyDuration(duration: seq<Byte>): Found {
    match (NumberAt(duration, 0, 1), NumberAt(duration, 0, 2))
    case (None, _) => Error
    case (_, None) => Error
    case (Some(s), Some(n)) => Found(Delay(Duration(OrZero(s), OrZero(n))))
  }

  function PyDetail(detail: seq<Byte>): Found {
    match (PayloadsAt(detail, 0, 1), PayloadsAt(detail, 0, 2))
    case (None, _) => Error
    case (_, None) => Error
    case (Some(urls), Some(values)) =>
      if !NamedLikeRetryInfo(First(urls, [])) || First(values, []) == [] then Nothing
      else match PayloadsAt(First(values, []), 0, 1)
        case None => Error
        case Some(durations) => if First(durations, []) == [] then Nothing else PyDuration(durations[0])
  }

  function PyDetails(details: seq<seq<Byte>>): Found {
    if details == [] then Nothing
    else match PyDetail(details[0])
      case Nothing => PyDetails(details[1..])
      case other => other
  }

  /** A malformed value is skipped like one without a delay. */
  function PyStatus(value: seq<Byte>): Option<real> {
    match PayloadsAt(value, 0, 3)
    case None => None
    case Some(details) => match PyDetails(details) case Found(d) => Some(d) case _ => None
  }

  /** A trailing metadata entry; the value is bytes or text. */
  datatype Entry = Entry(key: string, value: Option<seq<Byte>>)

  const DETAILS_KEY := "grpc-status-details-bin"

  function PyMetadata(entries: seq<Entry>): Option<real> {
    if entries == [] then None
    else
      var e := entries[0];
      var here := if e.key == DETAILS_KEY && e.value.Some? then PyStatus(e.value.value) else None;
      if here.Some? then here else PyMetadata(entries[1..])
  }

  /** One detail of the loop; reading the type URL, the value and the duration each may fail. */
  method DetailDelay(detail: seq<Byte>) returns (r: Found)
    ensures r == PyDetail(detail)
  {
    var urls := ProtobufBytes(detail, 1);
    if urls.None? { return Error; }
    var values := ProtobufBytes(detail, 2);
    if values.None? { return Error; }
    var typeUrl, payload := First(urls.value, []), First(values.value, []);
    if !NamedLikeRetryInfo(typeUrl) || payload == [] { return Nothing; }
    var durations := ProtobufBytes(payload, 1);
    if durations.None? { return Error; }
    var duration := First(durations.value, []);
    if duration == [] { return Nothing; }
    var seconds := ProtobufVarint(duration, 1);
    if seconds.None? { return Error; }
    var nanos := ProtobufVarint(duration, 2);
    if nanos.None? { return Error; }
    return Found(Delay(Duration(OrZero(seconds.value), OrZero(nanos.value))));
  }

  method RetryInfoDelaySeconds(entries: seq<Entry>) returns (r: Option<real>)
    ensures r == PyMetadata(entries)
  {
    for i := 0 to |entries|
      invariant PyMetadata(entries) == PyMetadata(entries[i..])
    {
      assert entries[i..][0] == entries[i] && entries[i..][1..] == entries[i + 1..];
      if entries[i].key != DETAILS_KEY || entries[i].value.None? { continue; }
      var details := ProtobufBytes(entries[i].value.value, 3);
      if details.None? { continue; }
      var ds := details.value;
      var j := 0;
      var failed := false;
      while j < |ds| && !failed
        invariant j <= |ds|
        invariant !failed ==> PyDetails(ds) == PyDetails(ds[j..])
        invariant failed ==> PyDetails(ds) == Error
        decreases |ds| - j, !failed
      {
        assert ds[j..][0] == ds[j] && ds[j..][1..] == ds[j + 1..];
        var found := DetailDelay(ds[j]);
        if found.Found? { return Some(found.delay); }
        if found.Error? { failed := true; } else { j := j + 1; }
      }
    }
    return None;
  }

  // ---------------------------------------------------------------- the Go client

  /** The message name of a type URL: what follows its last slash. */
  function MessageName(typeUrl: seq<Byte>): seq<Byte>
  {
    if typeUrl == [] || typeUrl[|typeUrl| - 1] == SLASH then []
    else MessageName(typeUrl[..|typeUrl| - 1]) + [typeUrl[|typeUrl| - 1]]
  }

  predicate IsRetryInfo(typeUrl: seq<Byte>) {
    MessageName(typeUrl) == RETRY_INFO
  }

  predicate Positive(d: Duration) {
    d.seconds > 0 || d.nanos > 0
  }

  /** Only a detail whose type URL names RetryInfo is decoded as one. */
  predicate Typed(d: Detail) {
    d.body.Retry? <==> IsRetryInfo(d.typeUrl)
  }

  predicate Offers(d: Detail) {
    IsRetryInfo(d.typeUrl) && d.body.Retry? && d.body.delay.Some? && Positive(d.body.delay.value)
  }

  /** The delay of the first RetryInfo detail with a positive one. */
  function GoDelay(details: seq<Detail>): Option<Duration> {
    if details == [] then None
    else if Offers(details[0]) then details[0].body.delay
    else GoDelay(details[1..])
  }

  // ---------------------------------------------------------------- agreement

  lemma DurationReads(d: Duration)
    requires d.seconds < LIMIT && d.nanos < LIMIT
    ensures Positive(d) <==> EncodeFields(DurationFields(d)) != []
    ensures PyDuration(EncodeFields(DurationFields(d))) == Found(Delay(d))
  {
    var fs := DurationFields(d);
    NumberRoundTrip(fs, 1);
    NumberRoundTrip(fs, 2);
    if fs != [] {
      assert EncodeFields(fs) == EncodeField(fs[0]) + EncodeFields(fs[1..]);
    }
    assert OrZero(FirstNumberOf(fs, 1)) == d.seconds && OrZero(FirstNumberOf(fs, 2)) == d.nanos by {
      if d.seconds != 0 && d.nanos != 0 {
        assert fs[1..] == [Number(2, d.nanos)];
      }
    }
  }

  lemma {:induction false} MessageNameIsSuffix(typeUrl: seq<Byte>)
    ensures EndsWith(typeUrl, MessageName(typeUrl))
  {
    if typeUrl != [] && typeUrl[|typeUrl| - 1] != SLASH {
      var front := typeUrl[..|typeUrl| - 1];
      MessageNameIsSuffix(front);
      var n := |MessageName(front)|;
      assert typeUrl[|typeUrl| - n - 1..] == front[|front| - n..] + [typeUrl[|typeUrl| - 1]];
    }
  }

  /** The first payload of each field of a detail, absent ones reading as empty. */
  lemma DetailFieldsRead(d: Detail)
    requires ReadableDetail(d)
    ensures var bytes := EncodeFields(DetailFields(d));
      && PayloadsAt(bytes, 0, 1).Some? && First(PayloadsAt(bytes, 0, 1).value, []) == d.typeUrl
      && PayloadsAt(bytes, 0, 2).Some? && First(PayloadsAt(bytes, 0, 2).value, []) == BodyBytes(d.body)
  {
    var fs := DetailFields(d);
    PayloadsRoundTrip(fs, 1);
    PayloadsRoundTrip(fs, 2);
    if d.typeUrl != [] && BodyBytes(d.body) != [] {
      assert fs[1..] == [Bytes(2, BodyBytes(d.body))];
      assert fs[1..][1..] == [];
    }
  }

  lemma RetryBodyReads(d: Duration)
    requires |EncodeFields(DurationFields(d))| < LIMIT
    ensures BodyBytes(Retry(Some(d))) != []
    ensures PayloadsAt(BodyBytes(Retry(Some(d))), 0, 1) == Some([EncodeFields(DurationFields(d))])
  {
    var fs := RetryFields(Some(d));
    PayloadsRoundTrip(fs, 1);
    assert fs[1..] == [];
    assert EncodeFields(fs) == EncodeField(fs[0]) + EncodeFields(fs[1..]);
    assert PayloadsOf(fs, 1) == [EncodeFields(DurationFields(d))];
  }

  /**
   * A detail that looks like RetryInfo and is one gives its delay if that is positive; any other look gives
   * nothing.
   */
  lemma DetailReads(d: Detail)
    requires ReadableDetail(d) && (NamedLikeRetryInfo(d.typeUrl) ==> d.body.Retry?)
    ensures PyDetail(EncodeFields(DetailFields(d)))
         == if NamedLikeRetryInfo(d.typeUrl) && d.body.delay.Some? && Positive(d.body.delay.value)
            then Found(Delay(d.body.delay.value)) else Nothing
  {
    DetailFieldsRead(d);
    if NamedLikeRetryInfo(d.typeUrl) && d.body.delay.Some? {
      RetryBodyReads(d.body.delay.value);
      DurationReads(d.body.delay.value);
    }
  }

  /** A type URL that ends in the name of RetryInfo without naming it. */
  predicate Impostor(typeUrl: seq<Byte>) {
    NamedLikeRetryInfo(typeUrl) && !IsRetryInfo(typeUrl)
  }

  function EncodedDetails(ds: seq<Detail>): (r: seq<seq<Byte>>)
    ensures |r| == |ds| && forall i :: 0 <= i < |r| ==> r[i] == EncodeFields(DetailFields(ds[i]))
  {
    seq(|ds|, i requires 0 <= i < |ds| => EncodeFields(DetailFields(ds[i])))
  }

  function AsFound(d: Option<Duration>): Found {
    match d case None => Nothing case Some(d) => Found(Delay(d))
  }

  lemma {:induction false} DetailsAgree(ds: seq<Detail>)
    requires forall i :: 0 <= i < |ds| ==> ReadableDetail(ds[i]) && Typed(ds[i]) && !Impostor(ds[i].typeUrl)
    ensures PyDetails(EncodedDetails(ds)) == AsFound(GoDelay(ds))
  {
    if ds != [] {
      assert EncodedDetails(ds)[1..] == EncodedDetails(ds[1..]);
      MessageNameIsSuffix(ds[0].typeUrl);
      DetailReads(ds[0]);
      DetailsAgree(ds[1..]);
    }
  }

  lemma {:induction false} DetailPayloads(ds: seq<Detail>)
    ensures PayloadsOf(DetailsFields(ds), 3) == EncodedDetails(ds)
  {
    if ds != [] {
      DetailPayloads(ds[1..]);
      EncodedDetailsStep(ds);
      var fs := DetailsFields(ds);
      assert fs[0] == Bytes(3, EncodeFields(DetailFields(ds[0]))) && fs[1..] == DetailsFields(ds[1..]);
    }
  }

  lemma EncodedDetailsStep(ds: seq<Detail>)
    requires ds != []
    ensures EncodedDetails(ds) == [EncodeFields(DetailFields(ds[0]))] + EncodedDetails(ds[1..])
  {
  }

  lemma {:induction false} PayloadsOfConcat(a: seq<Field>, b: seq<Field>, wanted: nat)
    ensures PayloadsOf(a + b, wanted) == PayloadsOf(a, wanted) + PayloadsOf(b, wanted)
  {
    if a == [] {
      assert a + b == b;
    } else {
      assert (a + b)[1..] == a[1..] + b;
      PayloadsOfConcat(a[1..], b, wanted);
    }
  }

  lemma {:induction false} DetailsEncodable(ds: seq<Detail>)
    requires forall i :: 0 <= i < |ds| ==> ReadableDetail(ds[i])
    ensures Encodable(DetailsFields(ds))
  {
    if ds != [] {
      DetailsEncodable(ds[1..]);
    }
  }

  /** The details of an encoded status are what the reader of field 3 finds. */
  lemma StatusReads(s: Status)
    requires Readable(s)
    ensures PayloadsAt(EncodeFields(StatusFields(s)), 0, 3) == Some(EncodedDetails(s.details))
  {
    var code: seq<Field> := if s.code == 0 then [] else [Number(1, s.code)];
    var message: seq<Field> := if s.message == [] then [] else [Bytes(2, s.message)];
    var details := DetailsFields(s.details);
    assert StatusFields(s) == code + message + details;
    DetailsEncodable(s.details);
    assert Encodable(StatusFields(s));
    PayloadsRoundTrip(StatusFields(s), 3);
    PayloadsOfConcat(code, message, 3);
    PayloadsOfConcat(code + message, details, 3);
    assert PayloadsOf(code, 3) == [] && PayloadsOf(message, 3) == [];
    assert [] + [] + PayloadsOf(details, 3) == PayloadsOf(details, 3);
    DetailPayloads(s.details);
  }

  /**
   * On the canonical encoding of a status whose type URLs hold no impostor, the Python reader returns the
   * delay of the detail the Go client selects, and nothing when the Go client selects none.
   */
  lemma PythonFollowsGo(s: Status)
    requires Readable(s)
    requires forall i :: 0 <= i < |s.details| ==> Typed(s.details[i]) && !Impostor(s.details[i].typeUrl)
    ensures PyStatus(EncodeFields(StatusFields(s)))
         == DelayOf(GoDelay(s.details))
  {
    StatusReads(s);
    DetailsAgree(s.details);
  }

  // ---------------------------------------------------------------- whole trailers

  /** What a trailing metadata entry holds: a status, or something the reader passes over. */
  datatype Trailer = Attached(status: Status) | Plain(entry: Entry)

  function EntryOf(t: Trailer): Entry {
    match t
    case Attached(s) => Entry(DETAILS_KEY, Some(EncodeFields(StatusFields(s))))
    case Plain(e) => e
  }

  function EntriesOf(ts: seq<Trailer>): (r: seq<Entry>)
    ensures |r| == |ts| && forall i :: 0 <= i < |r| ==> r[i] == EntryOf(ts[i])
  {
    seq(|ts|, i requires 0 <= i < |ts| => EntryOf(ts[i]))
  }

  /** Another key, text where bytes are wanted, or bytes that are no message. */
  predicate PassedOver(e: Entry) {
    e.key != DETAILS_KEY || e.value.None? || PayloadsAt(e.value.value, 0, 3).None?
  }

  predicate Honest(t: Trailer) {
    match t
    case Attached(s) =>
      Readable(s) && forall i :: 0 <= i < |s.details| ==> Typed(s.details[i]) && !Impostor(s.details[i].typeUrl)
    case Plain(e) => PassedOver(e)
  }

  /** The delay of the first attached status in which the Go client finds one. */
  function FirstDelay(ts: seq<Trailer>): Option<Duration> {
    if ts == [] then None
    else if ts[0].Attached? && GoDelay(ts[0].status.details).Some? then GoDelay(ts[0].status.details)
    else FirstDelay(ts[1..])
  }

  function DelayOf(d: Option<Duration>): Option<real> {
    match d case None => None case Some(d) => Some(Delay(d))
  }

  /**
   * Over a whole list of trailing metadata the Python reader returns the delay the Go loop finds in the first
   * status that has one, passing over other keys, text values, malformed bytes and statuses without a delay.
   */
  lemma {:induction false} MetadataFollowsGo(ts: seq<Trailer>)
    requires forall i :: 0 <= i < |ts| ==> Honest(ts[i])
    ensures PyMetadata(EntriesOf(ts)) == DelayOf(FirstDelay(ts))
    decreases |ts|
  {
    if ts != [] {
      assert EntriesOf(ts)[1..] == EntriesOf(ts[1..]);
      MetadataFollowsGo(ts[1..]);
      match ts[0] {
        case Attached(s) => PythonFollowsGo(s);
        case Plain(_) =>
      }
    }
  }

  /** With one status among the trailers, that status decides. */
  lemma {:induction false} OneStatusDecides(ts: seq<Trailer>, k: nat)
    requires k < |ts| && ts[k].Attached?
    requires forall i :: 0 <= i < |ts| && i != k ==> ts[i].Plain?
    ensures FirstDelay(ts) == GoDelay(ts[k].status.details)
    decreases |ts|
  {
    if k > 0 {
      OneStatusDecides(ts[1..], k - 1);
    } else if GoDelay(ts[0].status.details).None? {
      NoStatusNoDelay(ts[1..]);
    }
  }

  lemma {:induction false} NoStatusNoDelay(ts: seq<Trailer>)
    requires forall i :: 0 <= i < |ts| ==> ts[i].Plain?
    ensures FirstDelay(ts) == None
  {
    if ts != [] {
      NoStatusNoDelay(ts[1..]);
    }
  }

  // ---------------------------------------------------------------- impostors

  const ONE_SECOND := Duration(1, 0)

  /** Details with the given type URLs: an impostor that encodes a delay of one second among empty messages. */
  function TrickDetail(typeUrl: seq<Byte>): Detail {
    var body :=
      if IsRetryInfo(typeUrl) then Retry(None)
      else if NamedLikeRetryInfo(typeUrl) then Other(BodyBytes(Retry(Some(ONE_SECOND))))
      else Other([]);
    Detail(typeUrl, body)
  }

  function TrickDetails(typeUrls: seq<seq<Byte>>): (r: seq<Detail>)
    ensures |r| == |typeUrls| && forall i :: 0 <= i < |r| ==> r[i] == TrickDetail(typeUrls[i])
  {
    seq(|typeUrls|, i requires 0 <= i < |typeUrls| => TrickDetail(typeUrls[i]))
  }

  lemma OneSecondBytes()
    ensures DurationFields(ONE_SECOND) == [Number(1, 1)]
    ensures EncodeFields(DurationFields(ONE_SECOND)) == [8, 1]
    ensures BodyBytes(Retry(Some(ONE_SECOND))) == [10, 2, 8, 1]
  {
    var fs := RetryFields(Some(ONE_SECOND));
    assert [Number(1, 1)][1..] == [];
    assert EncodeField(Number(1, 1)) == [8] + [1];
    assert fs[1..] == [];
    assert EncodeField(fs[0]) == [10] + [2] + [8, 1];
  }

  lemma TrickReads(typeUrl: seq<Byte>)
    requires ReadableDetail(TrickDetail(typeUrl))
    ensures PyDetail(EncodeFields(DetailFields(TrickDetail(typeUrl))))
         == if Impostor(typeUrl) then Found(1.0) else Nothing
  {
    var d := TrickDetail(typeUrl);
    MessageNameIsSuffix(typeUrl);
    if Impostor(typeUrl) {
      OneSecondBytes();
      var honest := Detail(typeUrl, Retry(Some(ONE_SECOND)));
      assert DetailFields(d) == DetailFields(honest);
      DetailReads(honest);
    } else {
      DetailFieldsRead(d);
    }
  }

  predicate SomeImpostor(typeUrls: seq<seq<Byte>>) {
    exists i :: 0 <= i < |typeUrls| && Impostor(typeUrls[i])
  }

  lemma SomeImpostorStep(typeUrls: seq<seq<Byte>>)
    requires typeUrls != []
    ensures SomeImpostor(typeUrls) <==> Impostor(typeUrls[0]) || SomeImpostor(typeUrls[1..])
  {
    if SomeImpostor(typeUrls) && !Impostor(typeUrls[0]) {
      var i :| 0 <= i < |typeUrls| && Impostor(typeUrls[i]);
      assert Impostor(typeUrls[1..][i - 1]);
    }
  }

  lemma TricksEncoded(typeUrls: seq<seq<Byte>>)
    requires typeUrls != []
    ensures var encoded := EncodedDetails(TrickDetails(typeUrls));
      && encoded != [] && encoded[0] == EncodeFields(DetailFields(TrickDetail(typeUrls[0])))
      && encoded[1..] == EncodedDetails(TrickDetails(typeUrls[1..]))
  {
    assert EncodedDetails(TrickDetails(typeUrls))[1..] == EncodedDetails(TrickDetails(typeUrls[1..]));
  }

  lemma {:induction false} TricksRead(typeUrls: seq<seq<Byte>>)
    requires forall i :: 0 <= i < |typeUrls| ==> ReadableDetail(TrickDetail(typeUrls[i]))
    ensures PyDetails(EncodedDetails(TrickDetails(typeUrls))) == if SomeImpostor(typeUrls) then Found(1.0) else Nothing
    decreases |typeUrls|
  {
    if typeUrls != [] {
      TricksEncoded(typeUrls);
      TrickReads(typeUrls[0]);
      TricksRead(typeUrls[1..]);
      SomeImpostorStep(typeUrls);
    }
  }

  lemma {:induction false} TricksIgnored(typeUrls: seq<seq<Byte>>)
    ensures GoDelay(TrickDetails(typeUrls)) == None
    decreases |typeUrls|
  {
    if typeUrls != [] {
      assert TrickDetails(typeUrls)[1..] == TrickDetails(typeUrls[1..]);
      TricksIgnored(typeUrls[1..]);
    }
  }

  /** The status carries details of these types, each decoded according to its type. */
  ghost predicate StatusOfTypes(s: Status, typeUrls: seq<seq<Byte>>) {
    && Readable(s) && |s.details| == |typeUrls|
    && forall i :: 0 <= i < |typeUrls| ==> s.details[i].typeUrl == typeUrls[i] && Typed(s.details[i])
  }

  ghost predicate ClientsAgree(s: Status) {
    PyStatus(EncodeFields(StatusFields(s))) == DelayOf(GoDelay(s.details))
  }

  lemma TrickStatusIsTyped(typeUrls: seq<seq<Byte>>, s: Status)
    requires forall i :: 0 <= i < |typeUrls| ==> ReadableDetail(TrickDetail(typeUrls[i]))
    requires s == Status(0, [], TrickDetails(typeUrls))
    ensures StatusOfTypes(s, typeUrls)
  {
    forall i | 0 <= i < |typeUrls|
      ensures ReadableDetail(s.details[i]) && s.details[i].typeUrl == typeUrls[i] && Typed(s.details[i])
    {
      assert s.details[i] == TrickDetail(typeUrls[i]);
    }
  }

  lemma ImpostorSplitsClients(typeUrls: seq<seq<Byte>>, k: nat, s: Status)
    requires forall i :: 0 <= i < |typeUrls| ==> ReadableDetail(TrickDetail(typeUrls[i]))
    requires k < |typeUrls| && Impostor(typeUrls[k])
    requires s.details == TrickDetails(typeUrls) && Readable(s)
    ensures !ClientsAgree(s)
  {
    StatusReads(s);
    TricksRead(typeUrls);
    TricksIgnored(typeUrls);
    assert PyStatus(EncodeFields(StatusFields(s))) == Some(1.0);
  }

  lemma NoImpostorNoSplit(typeUrls: seq<seq<Byte>>, s: Status)
    requires forall i :: 0 <= i < |typeUrls| ==> !Impostor(typeUrls[i])
    requires StatusOfTypes(s, typeUrls)
    ensures ClientsAgree(s)
  {
    PythonFollowsGo(s);
  }

  /**
   * Exactly when the clients agree: for given type URLs they agree on every status of those types if and
   * only if none of the URLs ends in the name of RetryInfo without naming it.
   */
  lemma ClientsAgreeExactly(typeUrls: seq<seq<Byte>>)
    requires forall i :: 0 <= i < |typeUrls| ==> ReadableDetail(TrickDetail(typeUrls[i]))
    ensures (forall s :: StatusOfTypes(s, typeUrls) ==> ClientsAgree(s))
       <==> (forall i :: 0 <= i < |typeUrls| ==> !Impostor(typeUrls[i]))
  {
    if k :| 0 <= k < |typeUrls| && Impostor(typeUrls[k]) {
      var s := Status(0, [], TrickDetails(typeUrls));
      TrickStatusIsTyped(typeUrls, s);
      ImpostorSplitsClients(typeUrls, k, s);
    } else {
      forall s | StatusOfTypes(s, typeUrls)
        ensures ClientsAgree(s)
      {
        NoImpostorNoSplit(typeUrls, s);
      }
    }
  }

  // ---------------------------------------------------------------- an impostor

  /** "xgoogle.rpc.RetryInfo" */
  const IMPOSTOR: seq<Byte> := [120] + RETRY_INFO

  lemma {:induction false} NameWithoutSlash(typeUrl: seq<Byte>)
    requires SLASH !in typeUrl
    ensures MessageName(typeUrl) == typeUrl
  {
    if typeUrl != [] {
      var n := |typeUrl| - 1;
      assert typeUrl[n] in typeUrl;
      NameWithoutSlash(typeUrl[..n]);
      assert typeUrl == typeUrl[..n] + [typeUrl[n]];
    }
  }

  lemma ImpostorIsOne()
    ensures Impostor(IMPOSTOR) && |IMPOSTOR| == 21
  {
    assert IMPOSTOR[|IMPOSTOR| - |RETRY_INFO|..] == RETRY_INFO;
    NameWithoutSlash(IMPOSTOR);
    assert |IMPOSTOR| == |RETRY_INFO| + 1;
  }

  lemma ImpostorIsReadable()
    ensures ReadableDetail(TrickDetail(IMPOSTOR))
  {
    ImpostorIsOne();
    OneSecondBytes();
    var d := TrickDetail(IMPOSTOR);
    var fs := DetailFields(d);
    assert fs == [Bytes(1, IMPOSTOR), Bytes(2, [10, 2, 8, 1])];
    assert fs[1..] == [fs[1]] && fs[1..][1..] == [];
    assert Encode(8 * 1 + 2) == [10] && Encode(21) == [21] && Encode(8 * 2 + 2) == [18] && Encode(4) == [4];
    assert |EncodeField(fs[0])| == 23 && |EncodeField(fs[1])| == 6;
    assert EncodeFields(fs) == EncodeField(fs[0]) + EncodeFields(fs[1..]);
    assert EncodeFields(fs[1..]) == EncodeField(fs[1]) + EncodeFields(fs[1..][1..]);
    LimitIsLarge();
  }

  lemma LimitIsLarge()
    ensures LIMIT > 255
  {
    Pow2Small();
    Pow2Monotone(8, 70);
  }

  lemma LoneTrickParts(typeUrls: seq<seq<Byte>>, s: Status)
    requires |typeUrls| == 1 && Impostor(typeUrls[0]) && ReadableDetail(TrickDetail(typeUrls[0]))
    requires s.details == TrickDetails(typeUrls) && Readable(s)
    ensures PyStatus(EncodeFields(StatusFields(s))) == Some(1.0) && GoDelay(s.details) == None
  {
    StatusReads(s);
    TricksRead(typeUrls);
    TricksIgnored(typeUrls);
  }

  /** A status on which the clients part: Python waits a second for a message that the Go client does not know. */
  lemma ImpostorParts(s: Status)
    requires s == Status(0, [], [TrickDetail(IMPOSTOR)])
    ensures Readable(s) && Typed(s.details[0])
    ensures PyStatus(EncodeFields(StatusFields(s))) == Some(1.0) && GoDelay(s.details) == None
  {
    ImpostorIsOne();
    ImpostorIsReadable();
    LimitIsLarge();
    assert s.details == TrickDetails([IMPOSTOR]);
    LoneTrickParts([IMPOSTOR], s);
  }
}
