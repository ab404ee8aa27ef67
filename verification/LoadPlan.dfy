/** How the load generator divides its events among scenarios, batches and operations. */
module LoadPlan {
  import opened Options
  import opened Text
  import opened Numbers
  import opened Sequences

  // ---------------------------------------------------------------- keys

  function Decimal(n: nat): (r: string)
    ensures r != ""
  {
    if n < 10 then [Digit(n)] else Decimal(n / 10) + [Digit(n % 10)]
  }

  function Zeros(n: nat): string {
    if n == 0 then "" else "0" + Zeros(n - 1)
  }

  /** The `%06d` format: at least six digits, padded with zeros. */
  function SixDigits(n: nat): string {
    var d := Decimal(n);
    if |d| >= 6 then d else Zeros(6 - |d|) + d
  }

  function ValueOf(s: string): int {
    if s == "" then 0 else 10 * ValueOf(s[..|s| - 1]) + (s[|s| - 1] as int - '0' as int)
  }

  lemma {:induction false} DecimalValue(n: nat)
    ensures ValueOf(Decimal(n)) == n
  {
    if n >= 10 {
      DecimalValue(n / 10);
      assert Decimal(n)[..|Decimal(n)| - 1] == Decimal(n / 10);
    } else {
      assert [Digit(n)][..0] == "";
    }
  }

  lemma {:induction false} ZerosAddNothing(k: nat, s: string)
    ensures ValueOf(Zeros(k) + s) == ValueOf(s)
    decreases k + |s|
  {
    var t := Zeros(k) + s;
    if s != "" {
      assert t[..|t| - 1] == Zeros(k) + s[..|s| - 1];
      ZerosAddNothing(k, s[..|s| - 1]);
    } else if k > 0 {
      assert t == Zeros(k);
      ZerosFlip(k - 1);
      assert t[..|t| - 1] == Zeros(k - 1);
      ZerosAddNothing(k - 1, "");
      assert Zeros(k - 1) + "" == Zeros(k - 1);
    }
  }

  lemma {:induction false} ZerosFlip(k: nat)
    ensures Zeros(k + 1) == Zeros(k) + "0"
  {
    if k > 0 {
      ZerosFlip(k - 1);
    }
  }

  /** Formatting is injective, also past six digits. */
  lemma SixDigitsInjective(m: nat, n: nat)
    requires SixDigits(m) == SixDigits(n)
    ensures m == n
  {
    SixDigitsValue(m);
    SixDigitsValue(n);
  }

  lemma SixDigitsValue(n: nat)
    ensures ValueOf(SixDigits(n)) == n
  {
    DecimalValue(n);
    if |Decimal(n)| < 6 {
      ZerosAddNothing(6 - |Decimal(n)|, Decimal(n));
    }
  }

  function KeyOf(runID: string, index: nat): string {
    "load-" + runID + "-" + SixDigits(index)
  }

  lemma KeyOfInjective(runID: string, m: nat, n: nat)
    requires KeyOf(runID, m) == KeyOf(runID, n)
    ensures m == n
  {
    var p := "load-" + runID + "-";
    assert KeyOf(runID, m)[|p|..] == SixDigits(m) && KeyOf(runID, n)[|p|..] == SixDigits(n);
    SixDigitsInjective(m, n);
  }

  // ---------------------------------------------------------------- shares

  /** Equal shares, the remainder spread over the first ones. */
  function Shares(total: nat, parts: nat): (r: seq<nat>)
    requires parts > 0
    ensures |r| == parts
    ensures forall i :: 0 <= i < parts ==> r[i] == total / parts + if i < total % parts then 1 else 0
  {
    seq(parts, i requires 0 <= i < parts => total / parts + if i < total % parts then 1 else 0)
  }

  method Split(total: nat, parts: nat) returns (result: array<nat>)
    requires parts > 0
    ensures fresh(result) && result[..] == Shares(total, parts)
  {
    result := new nat[parts];
    for i := 0 to parts
      invariant forall j :: 0 <= j < i ==> result[j] == total / parts
    {
      result[i] := total / parts;
    }
    for i := 0 to total % parts
      invariant forall j :: 0 <= j < parts ==> result[j] == total / parts + if j < i then 1 else 0
    {
      result[i] := result[i] + 1;
    }
  }

  function Sum(xs: seq<nat>): nat {
    if xs == [] then 0 else Sum(xs[..|xs| - 1]) + xs[|xs| - 1]
  }

  /** `q` everywhere and one more in the first `r` places. */
  predicate Spread(s: seq<nat>, q: nat, r: nat) {
    forall i :: 0 <= i < |s| ==> s[i] == q + if i < r then 1 else 0
  }

  lemma {:induction false} SpreadSum(s: seq<nat>, q: nat, r: nat)
    requires Spread(s, q, r)
    ensures Sum(s) == |s| * q + Min(|s|, r)
  {
    if s != [] {
      var n := |s| - 1;
      SpreadSum(s[..n], q, r);
      OneMore(n, q);
    }
  }

  lemma OneMore(n: int, q: int)
    ensures (n + 1) * q == n * q + q
  {
  }

  lemma Quotient(total: nat, parts: nat)
    requires parts > 0
    ensures parts * (total / parts) + total % parts == total && total % parts < parts
    ensures parts <= total <==> total / parts > 0
  {
  }

  /** Nothing is lost or invented, and no two shares differ by more than one. */
  lemma SharesAddUp(total: nat, parts: nat, i: nat, j: nat)
    requires i < parts && j < parts
    ensures Sum(Shares(total, parts)) == total
    ensures Shares(total, parts)[i] <= Shares(total, parts)[j] + 1
    ensures parts <= total <==> forall k :: 0 <= k < parts ==> Shares(total, parts)[k] > 0
  {
    var s := Shares(total, parts);
    Quotient(total, parts);
    SpreadSum(s, total / parts, total % parts);
    assert s[parts - 1] == total / parts;
  }

  // ---------------------------------------------------------------- events and operations

  datatype Event = Event(key: string, protocol: string)

  /** `n` events after the first `from` ones. */
  function Events(runID: string, protocol: string, from: nat, n: nat): (r: seq<Event>)
    ensures |r| == n
    ensures forall i :: 0 <= i < n ==> r[i] == Event(KeyOf(runID, from + i + 1), protocol)
  {
    seq(n, i requires 0 <= i < n => Event(KeyOf(runID, from + i + 1), protocol))
  }

  function Keys(es: seq<Event>): set<string>
    decreases |es|
  {
    if es == [] then {} else Keys(es[..|es| - 1]) + {es[|es| - 1].key}
  }

  lemma {:induction false} KeysConcat(a: seq<Event>, b: seq<Event>)
    ensures Keys(a + b) == Keys(a) + Keys(b)
    decreases |b|
  {
    if b == [] {
      assert a + b == a;
    } else {
      var n := |b| - 1;
      KeysConcat(a, b[..n]);
      assert (a + b)[..|a| + n] == a + b[..n];
    }
  }

  lemma EventsGrow(runID: string, protocol: string, from: nat, n: nat)
    ensures var es, e := Events(runID, protocol, from, n), Event(KeyOf(runID, from + n + 1), protocol);
      Events(runID, protocol, from, n + 1) == es + [e] && Keys(es + [e]) == Keys(es) + {e.key}
  {
    var es, e := Events(runID, protocol, from, n), Event(KeyOf(runID, from + n + 1), protocol);
    assert Events(runID, protocol, from, n + 1) == es + [e];
    assert (es + [e])[..n] == es;
  }

  lemma {:induction false} KeysExactly(es: seq<Event>, key: string)
    ensures key in Keys(es) <==> exists i :: 0 <= i < |es| && es[i].key == key
    decreases |es|
  {
    if es != [] {
      var n := |es| - 1;
      KeysExactly(es[..n], key);
    }
  }

  function Chunks(runID: string, protocol: string, from: nat, count: nat, size: nat): seq<seq<Event>>
    requires size > 0
    decreases count
  {
    if count == 0 then []
    else var n := Min(size, count);
      [Events(runID, protocol, from, n)] + Chunks(runID, protocol, from + n, count - n, size)
  }

  /** Batches are full except possibly the last, and none is empty. */
  lemma {:induction false} ChunksAreFull(runID: string, protocol: string, from: nat, count: nat, size: nat)
    requires size > 0
    ensures var cs := Chunks(runID, protocol, from, count, size);
      && (cs == [] <==> count == 0)
      && (forall i :: 0 <= i < |cs| - 1 ==> |cs[i]| == size)
      && (cs != [] ==> 1 <= |cs[|cs| - 1]| <= size)
    decreases count
  {
    if count > 0 {
      var n := Min(size, count);
      ChunksAreFull(runID, protocol, from + n, count - n, size);
    }
  }

  datatype Operation = Operation(scenario: string, events: seq<Event>)

  function Flat<T>(xss: seq<seq<T>>): seq<T> {
    if xss == [] then [] else xss[0] + Flat(xss[1..])
  }

  lemma {:induction false} FlatConcat<T>(xss: seq<seq<T>>, yss: seq<seq<T>>)
    ensures Flat(xss + yss) == Flat(xss) + Flat(yss)
  {
    if xss == [] {
      assert xss + yss == yss;
    } else {
      assert (xss + yss)[1..] == xss[1..] + yss;
      FlatConcat(xss[1..], yss);
    }
  }

  /** Chunking keeps the events and their order. */
  lemma {:induction false} ChunksFlat(runID: string, protocol: string, from: nat, count: nat, size: nat)
    requires size > 0
    ensures Flat(Chunks(runID, protocol, from, count, size)) == Events(runID, protocol, from, count)
    decreases count
  {
    if count > 0 {
      var n := Min(size, count);
      ChunksFlat(runID, protocol, from + n, count - n, size);
      assert Events(runID, protocol, from, count) == Events(runID, protocol, from, n)
          + Events(runID, protocol, from + n, count - n);
    }
  }

  /** The keys recorded once `n` events were drawn after the first `from`. */
  function Drawn(earlier: set<string>, runID: string, protocol: string, from: nat, n: nat): set<string> {
    earlier + Keys(Events(runID, protocol, from, n))
  }

  lemma DrawnNothing(earlier: set<string>, runID: string, protocol: string, from: nat)
    ensures Drawn(earlier, runID, protocol, from, 0) == earlier
  {
    assert Events(runID, protocol, from, 0) == [];
  }

  lemma DrawnMore(earlier: set<string>, runID: string, protocol: string, from: nat, n: nat, m: nat)
    ensures Drawn(earlier, runID, protocol, from, n + m)
         == Drawn(Drawn(earlier, runID, protocol, from, n), runID, protocol, from + n, m)
  {
    var a, b := Events(runID, protocol, from, n), Events(runID, protocol, from + n, m);
    assert Events(runID, protocol, from, n + m) == a + b;
    KeysConcat(a, b);
  }

  lemma DrawnInAll(earlier: set<string>, runID: string, protocol: string, from: nat, count: nat, size: nat)
    requires size > 0
    ensures Drawn(earlier, runID, protocol, from, count) == earlier
        + Keys(Flat(Chunks(runID, protocol, from, count, size)))
  {
    ChunksFlat(runID, protocol, from, count, size);
  }

  lemma ChunksStep(done: seq<seq<Event>>, runID: string, protocol: string, from: nat, count: nat, size: nat)
    requires size > 0 && count > 0
    ensures var n := Min(size, count);
      done + Chunks(runID, protocol, from, count, size)
      == (done + [Events(runID, protocol, from, n)]) + Chunks(runID, protocol, from + n, count - n, size)
  {
  }

  function Singles(es: seq<Event>): (r: seq<seq<Event>>)
    ensures |r| == |es| && forall i :: 0 <= i < |es| ==> r[i] == [es[i]]
  {
    seq(|es|, i requires 0 <= i < |es| => [es[i]])
  }

  lemma {:induction false} SinglesFlat(es: seq<Event>)
    ensures Flat(Singles(es)) == es
  {
    if es != [] {
      assert Singles(es)[1..] == Singles(es[1..]);
      SinglesFlat(es[1..]);
    }
  }

  function Named(scenario: string, batches: seq<seq<Event>>): (r: seq<Operation>)
    ensures |r| == |batches| && forall i :: 0 <= i < |r| ==> r[i] == Operation(scenario, batches[i])
  {
    seq(|batches|, i requires 0 <= i < |batches| => Operation(scenario, batches[i]))
  }

  function Payloads(ops: seq<Operation>): (r: seq<seq<Event>>)
    ensures |r| == |ops| && forall i :: 0 <= i < |ops| ==> r[i] == ops[i].events
  {
    seq(|ops|, i requires 0 <= i < |ops| => ops[i].events)
  }

  /** The events in the order their keys were drawn. */
  class Builder {
    const runID: string
    var index: nat
    var expected: set<string>

    constructor (runID: string)
      ensures this.runID == runID && index == 0 && expected == {}
    {
      this.runID := runID;
      index, expected := 0, {};
    }

    method NewEvent(protocol: string) returns (e: Event)
      modifies this
      ensures index == old(index) + 1 && e == Event(KeyOf(runID, index), protocol)
      ensures expected == old(expected) + {e.key}
    {
      index := index + 1;
      var key := KeyOf(runID, index);
      expected := expected + {key};
      return Event(key, protocol);
    }

    method NewEvents(n: nat, protocol: string) returns (es: seq<Event>)
      modifies this
      ensures index == old(index) + n && es == Events(runID, protocol, old(index), n)
      ensures expected == old(expected) + Keys(es) == Drawn(old(expected), runID, protocol, old(index), n)
    {
      es := [];
      for i := 0 to n
        invariant index == old(index) + i && es == Events(runID, protocol, old(index), i)
        invariant expected == old(expected) + Keys(es)
      {
        EventsGrow(runID, protocol, old(index), i);
        var e := NewEvent(protocol);
        es := es + [e];
      }
    }

    /** One batch more, after `drawn` events that followed the first `from`. */
    method NextBatch(length: nat, protocol: string, ghost known: set<string>, ghost from: nat, ghost drawn: nat)
      returns (batch: seq<Event>)
      requires index == from + drawn && expected == Drawn(known, runID, protocol, from, drawn)
      modifies this
      ensures batch == Events(runID, protocol, from + drawn, length) && index == from + drawn + length
      ensures expected == Drawn(known, runID, protocol, from, drawn + length)
    {
      DrawnMore(known, runID, protocol, from, drawn, length);
      batch := NewEvents(length, protocol);
    }

    method ChunkEvents(count: nat, size: nat, protocol: string) returns (result: seq<seq<Event>>)
      requires size > 0
      modifies this
      ensures index == old(index) + count
      ensures result == Chunks(runID, protocol, old(index), count, size)
      ensures expected == old(expected) + Keys(Flat(result))
    {
      result := [];
      var remaining: nat := count;
      ghost var from, known, drawn: nat := index, expected, 0;
      NothingBefore(Chunks(runID, protocol, index, count, size));
      DrawnNothing(expected, runID, protocol, from);
      while remaining > 0
        invariant remaining == count - drawn && index == from + drawn
        invariant Chunks(runID, protocol, from, count, size)
               == result + Chunks(runID, protocol, from + drawn, remaining, size)
        invariant expected == Drawn(known, runID, protocol, from, drawn)
      {
        var length := Min(size, remaining);
        ChunksStep(result, runID, protocol, from + drawn, remaining, size);
        var batch := NextBatch(length, protocol, known, from, drawn);
        result := result + [batch];
        remaining, drawn := remaining - length, drawn + length;
      }
      NothingAfter(result);
      DrawnInAll(known, runID, protocol, from, count, size);
    }
  }

  function Scenario(k: nat): string
    requires k < 5
  {
    match k
    case 0 => "rest-single"
    case 1 => "rest-bulk"
    case 2 => "grpc-unary"
    case 3 => "grpc-bulk"
    case _ => "grpc-stream"
  }

  /** The events of the `k`-th scenario, batch by batch. */
  function Batches(runID: string, total: nat, size: nat, k: nat): seq<seq<Event>>
    requires size > 0 && k < 5
  {
    var shares := Shares(total, 5);
    if k == 0 || k == 2 then Singles(Events(runID, Scenario(k), Sum(shares[..k]), shares[k]))
    else Chunks(runID, Scenario(k), Sum(shares[..k]), shares[k], size)
  }

  /** The operations of the first `k` scenarios. */
  function Operations(runID: string, total: nat, size: nat, k: nat): seq<Operation>
    requires size > 0 && k <= 5
  {
    if k == 0 then []
    else Operations(runID, total, size, k - 1) + Named(Scenario(k - 1), Batches(runID, total, size, k - 1))
  }

  lemma SumStep(xs: seq<nat>, k: nat)
    requires k < |xs|
    ensures Sum(xs[..k + 1]) == Sum(xs[..k]) + xs[k]
  {
    assert xs[..k + 1][..k] == xs[..k];
  }

  lemma OperationsStep(runID: string, total: nat, size: nat, k: nat)
    requires size > 0 && k < 5
    ensures Flat(Payloads(Operations(runID, total, size, k + 1)))
         == Flat(Payloads(Operations(runID, total, size, k))) + Flat(Batches(runID, total, size, k))
  {
    var front, added := Operations(runID, total, size, k), Named(Scenario(k), Batches(runID, total, size, k));
    assert Payloads(added) == Batches(runID, total, size, k);
    assert Payloads(front + added) == Payloads(front) + Payloads(added);
    FlatConcat(Payloads(front), Payloads(added));
  }

  /** One scenario: single events, or batches of at most `size`. */
  method ScenarioBatches(b: Builder, k: nat, n: nat, size: nat) returns (batches: seq<seq<Event>>)
    requires size > 0 && k < 5
    modifies b
    ensures b.index == old(b.index) + n
    ensures batches == if k == 0 || k == 2 then Singles(Events(b.runID, Scenario(k), old(b.index), n))
                       else Chunks(b.runID, Scenario(k), old(b.index), n, size)
    ensures b.expected == old(b.expected) + Keys(Flat(batches))
  {
    if k == 0 || k == 2 {
      var singles := b.NewEvents(n, Scenario(k));
      SinglesFlat(singles);
      batches := Singles(singles);
    } else {
      batches := b.ChunkEvents(n, size, Scenario(k));
    }
  }

  /** One of the first `n` scenarios got nothing. */
  predicate SomeEmpty(runID: string, total: nat, size: nat, n: nat)
    requires size > 0 && n <= 5
  {
    exists k :: 0 <= k < n && Batches(runID, total, size, k) == []
  }

  /** `None` is the error of an allocation that leaves a protocol out. */
  method BuildOperations(runID: string, total: nat, size: nat)
      returns (ops: Option<seq<Operation>>, expected: set<string>)
    requires size > 0
    ensures ops.None? <==> SomeEmpty(runID, total, size, 5)
    ensures ops.Some? ==> ops.value == Operations(runID, total, size, 5)
    ensures expected == Keys(Flat(Payloads(Operations(runID, total, size, 5))))
  {
    var b := new Builder(runID);
    var counts := Split(total, 5);
    ghost var shares := Shares(total, 5);
    var operations: seq<Operation> := [];
    var empty := false;
    for k := 0 to 5
      invariant fresh(b) && b.runID == runID && b.index == Sum(shares[..k])
      invariant counts[..] == shares
      invariant operations == Operations(runID, total, size, k)
      invariant empty == SomeEmpty(runID, total, size, k)
      invariant b.expected == Keys(Flat(Payloads(operations)))
    {
      SumStep(shares, k);
      OperationsStep(runID, total, size, k);
      assert counts[k] == counts[..][k] == shares[k];
      var batches := ScenarioBatches(b, k, counts[k], size);
      assert batches == Batches(runID, total, size, k);
      KeysConcat(Flat(Payloads(operations)), Flat(batches));
      assert SomeEmpty(runID, total, size, k + 1) == (SomeEmpty(runID, total, size, k) || batches == []);
      empty := empty || batches == [];
      operations := operations + Named(Scenario(k), batches);
    }
    return if empty then None else Some(operations), b.expected;
  }

  // ---------------------------------------------------------------- the partition

  datatype LoadOptions = LoadOptions(dsn: string, events: int, concurrency: int, bulkSize: int, maxP95: int,
      minThroughput: real, timeout: int)

  /** `validateOptions` */
  predicate Accepted(o: LoadOptions) {
    && Trim(o.dsn) != "" && o.events >= 25 && o.concurrency > 0 && 0 < o.bulkSize <= 1000
    && o.maxP95 > 0 && o.minThroughput >= 0.0 && o.timeout > 0
  }

  /** The coverage error is reached exactly below five events. */
  lemma CoverageErrorExactly(runID: string, total: nat, size: nat)
    requires size > 0
    ensures SomeEmpty(runID, total, size, 5) <==> total < 5
  {
    SharesAddUp(total, 5, 0, 4);
    var shares := Shares(total, 5);
    forall k | 0 <= k < 5
      ensures Batches(runID, total, size, k) == [] <==> shares[k] == 0
    {
      ChunksAreFull(runID, Scenario(k), Sum(shares[..k]), shares[k], size);
    }
  }

  lemma BatchesFlat(runID: string, total: nat, size: nat, k: nat)
    requires size > 0 && k < 5
    ensures Flat(Batches(runID, total, size, k))
        == Events(runID, Scenario(k), Sum(Shares(total, 5)[..k]), Shares(total, 5)[k])
  {
    var shares := Shares(total, 5);
    if k == 0 || k == 2 {
      SinglesFlat(Events(runID, Scenario(k), Sum(shares[..k]), shares[k]));
    } else {
      ChunksFlat(runID, Scenario(k), Sum(shares[..k]), shares[k], size);
    }
  }

  predicate InOrder(runID: string, es: seq<Event>) {
    forall i :: 0 <= i < |es| ==> es[i].key == KeyOf(runID, i + 1)
  }

  lemma InOrderGoesOn(runID: string, es: seq<Event>, protocol: string, n: nat)
    requires InOrder(runID, es)
    ensures InOrder(runID, es + Events(runID, protocol, |es|, n))
  {
  }

  /** Read one operation after the other, the events carry the keys 1, 2, 3 and so on. */
  lemma {:induction false} KeysInOrder(runID: string, total: nat, size: nat, k: nat)
    requires size > 0 && k <= 5
    ensures var all := Flat(Payloads(Operations(runID, total, size, k)));
      |all| == Sum(Shares(total, 5)[..k]) && InOrder(runID, all)
  {
    if k > 0 {
      KeysInOrder(runID, total, size, k - 1);
      BatchesFlat(runID, total, size, k - 1);
      OperationsStep(runID, total, size, k - 1);
      SumStep(Shares(total, 5), k - 1);
      InOrderGoesOn(runID, Flat(Payloads(Operations(runID, total, size, k - 1))), Scenario(k - 1),
          Shares(total, 5)[k - 1]);
    }
  }

  /** The element `i` of piece `j`, in the joined sequence. */
  lemma {:induction false} FlatIndex<T>(xss: seq<seq<T>>, j: nat, i: nat)
    requires j < |xss| && i < |xss[j]|
    ensures |Flat(xss[..j])| + i < |Flat(xss)| && Flat(xss)[|Flat(xss[..j])| + i] == xss[j][i]
  {
    var rest := xss[j + 1..];
    assert xss == xss[..j] + ([xss[j]] + rest);
    FlatConcat(xss[..j], [xss[j]] + rest);
    assert ([xss[j]] + rest)[0] == xss[j] && ([xss[j]] + rest)[1..] == rest;
  }

  lemma {:induction false} FlatCovers<T>(xss: seq<seq<T>>, p: nat) returns (j: nat, i: nat)
    requires p < |Flat(xss)|
    ensures j < |xss| && i < |xss[j]| && xss[j][i] == Flat(xss)[p]
  {
    if p < |xss[0]| {
      j, i := 0, p;
    } else {
      var j', i' := FlatCovers(xss[1..], p - |xss[0]|);
      j, i := j' + 1, i';
    }
  }

  lemma {:induction false} FlatPrefixGrows<T>(xss: seq<seq<T>>, j: nat, k: nat)
    requires j < k <= |xss|
    ensures |Flat(xss[..j])| + |xss[j]| <= |Flat(xss[..k])|
  {
    assert xss[..k] == xss[..j] + xss[j..k];
    FlatConcat(xss[..j], xss[j..k]);
    assert xss[j..k][0] == xss[j];
  }

  lemma KeysInRange(runID: string, all: seq<Event>, key: string)
    requires forall i :: 0 <= i < |all| ==> all[i].key == KeyOf(runID, i + 1)
    ensures key in Keys(all) <==> exists n :: 1 <= n <= |all| && key == KeyOf(runID, n)
  {
    KeysExactly(all, key);
    if key in Keys(all) {
      var i :| 0 <= i < |all| && all[i].key == key;
      assert key == KeyOf(runID, i + 1);
    }
    if n :| 1 <= n <= |all| && key == KeyOf(runID, n) {
      assert all[n - 1].key == key;
    }
  }

  predicate Carries(op: Operation, key: string) {
    exists i :: 0 <= i < |op.events| && op.events[i].key == key
  }

  /**
   * For every accepted set of options the operations partition the expected keys: exactly `events`
   * distinct keys, each carried by exactly one operation, and nothing else is carried.
   */
  lemma {:induction false} OperationsPartitionKeys(runID: string, o: LoadOptions)
    requires Accepted(o)
    ensures var ops := Operations(runID, o.events, o.bulkSize, 5);
      && (forall n :: 1 <= n <= o.events ==> exists j :: 0 <= j < |ops| && Carries(ops[j], KeyOf(runID, n)))
      && (forall j, k, key :: 0 <= j < k < |ops| && Carries(ops[j], key) ==> !Carries(ops[k], key))
      && |Flat(Payloads(ops))| == o.events
      && (forall key :: key in Keys(Flat(Payloads(ops))) <==> exists n :: 1 <= n <= o.events && key == KeyOf(runID, n))
      && (forall m, n :: 1 <= m < n <= o.events ==> KeyOf(runID, m) != KeyOf(runID, n))
  {
    var ops := Operations(runID, o.events, o.bulkSize, 5);
    var all := Flat(Payloads(ops));
    KeysInOrder(runID, o.events, o.bulkSize, 5);
    SharesAddUp(o.events, 5, 0, 0);
    assert Shares(o.events, 5)[..5] == Shares(o.events, 5);
    forall n | 1 <= n <= o.events
      ensures exists j :: 0 <= j < |ops| && Carries(ops[j], KeyOf(runID, n))
    {
      var j, i := FlatCovers(Payloads(ops), n - 1);
      assert ops[j].events[i].key == KeyOf(runID, n);
      assert Carries(ops[j], KeyOf(runID, n));
    }
    forall j, k, key | 0 <= j < k < |ops| && Carries(ops[j], key)
      ensures !Carries(ops[k], key)
    {
      if Carries(ops[k], key) {
        KeyInTwoOperations(runID, ops, j, k, key);
        assert false;
      }
    }
    forall key
      ensures key in Keys(all) <==> exists n :: 1 <= n <= o.events && key == KeyOf(runID, n)
    {
      KeysInRange(runID, all, key);
    }
    forall m, n | 1 <= m < n <= o.events
      ensures KeyOf(runID, m) != KeyOf(runID, n)
    {
      if KeyOf(runID, m) == KeyOf(runID, n) {
        KeyOfInjective(runID, m, n);
      }
    }
  }

  lemma Positions<T>(xss: seq<seq<T>>, j: nat, a: nat, k: nat, b: nat) returns (p: nat, q: nat)
    requires j < k < |xss| && a < |xss[j]| && b < |xss[k]|
    ensures p < q < |Flat(xss)| && Flat(xss)[p] == xss[j][a] && Flat(xss)[q] == xss[k][b]
  {
    FlatIndex(xss, j, a);
    FlatIndex(xss, k, b);
    FlatPrefixGrows(xss, j, k);
    return |Flat(xss[..j])| + a, |Flat(xss[..k])| + b;
  }

  lemma KeyInTwoOperations(runID: string, ops: seq<Operation>, j: nat, k: nat, key: string)
    requires j < k < |ops|
    requires forall i :: 0 <= i < |Flat(Payloads(ops))| ==> Flat(Payloads(ops))[i].key == KeyOf(runID, i + 1)
    requires Carries(ops[j], key)
    ensures !Carries(ops[k], key)
  {
    if Carries(ops[k], key) {
      var a :| 0 <= a < |ops[j].events| && ops[j].events[a].key == key;
      var b :| 0 <= b < |ops[k].events| && ops[k].events[b].key == key;
      var p, q := Positions(Payloads(ops), j, a, k, b);
      KeyOfInjective(runID, p + 1, q + 1);
      assert false;
    }
  }
}
