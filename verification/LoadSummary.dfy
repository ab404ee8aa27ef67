/** The load generator's report: one row per scenario, one for all of them, and nearest-rank percentiles. */
module LoadSummary {
  import opened Options
  import opened WorkerPool
  import LoadPlan
  import opened Sequences

  datatype Row = Row(operations: int, events: int, errors: int, durations: seq<int>)

  const NO_ROW := Row(0, 0, 0, [])

  function Plus(a: Row, b: Row): Row {
    Row(a.operations + b.operations, a.events + b.events, a.errors + b.errors, a.durations + b.durations)
  }

  function RowOf(m: Measurement): Row {
    Row(1, m.operation.events, if m.error.Some? then 1 else 0, [m.duration])
  }

  /** The measurements of one scenario, in the order they arrived. */
  function Of(ms: seq<Measurement>, scenario: string): seq<Measurement>
    decreases |ms|
  {
    if ms == [] then []
    else Of(ms[..|ms| - 1], scenario) + if ms[|ms| - 1].operation.scenario == scenario then [ms[|ms| - 1]] else []
  }

  /** The row of a list of measurements. */
  function Tally(ms: seq<Measurement>): (r: Row)
    ensures r.operations == |ms| == |r.durations|
    decreases |ms|
  {
    if ms == [] then NO_ROW else Plus(Tally(ms[..|ms| - 1]), RowOf(ms[|ms| - 1]))
  }

  /** The positions of the measurements that failed. */
  function FailedAt(ms: seq<Measurement>): set<int> {
    set i | 0 <= i < |ms| && ms[i].error.Some?
  }

  /** A row counts its measurements, their events and those that failed, and has the duration of each. */
  lemma {:induction false} TallyCounts(ms: seq<Measurement>)
    ensures Tally(ms).errors == |FailedAt(ms)| == |Failures(ms)|
    ensures forall i :: 0 <= i < |ms| ==> Tally(ms).durations[i] == ms[i].duration
    decreases |ms|
  {
    if ms != [] {
      var n := |ms| - 1;
      TallyCounts(ms[..n]);
      assert FailedAt(ms) == if ms[n].error.Some? then FailedAt(ms[..n]) + {n} else FailedAt(ms[..n]);
    } else {
      assert FailedAt(ms) == {};
    }
  }

  /** What a failed measurement is reported as. */
  function Line(m: Measurement): string
    requires m.error.Some?
  {
    m.operation.scenario + ": " + m.error.value
  }

  /** How many of the first `n` failed, which is where the line of the `n`-th stands. */
  lemma {:induction false} LinesInOrder(ms: seq<Measurement>, n: nat)
    requires n < |ms| && ms[n].error.Some?
    ensures |FailedAt(ms[..n])| < |Failures(ms)| && Failures(ms)[|FailedAt(ms[..n])|] == Line(ms[n])
    decreases |ms|
  {
    var m := |ms| - 1;
    TallyCounts(ms[..n]);
    if n < m {
      LinesInOrder(ms[..m], n);
      assert ms[..m][..n] == ms[..n];
    }
  }

  function SharedEntries(ms: seq<Measurement>): seq<Measurement>
    decreases |ms|
  {
    if ms == [] then []
    else var m := ms[|ms| - 1];
      SharedEntries(ms[..|ms| - 1]) + if m.operation.scenario == "all" then [m, m] else [m]
  }

  /** A scenario that is itself named "all" enters the shared row twice. */
  function Expected(ms: seq<Measurement>, name: string): Row {
    Tally(if name == "all" then SharedEntries(ms) else Of(ms, name))
  }

  function Scenarios(ms: seq<Measurement>): set<string> {
    if ms == [] then {} else Scenarios(ms[..|ms| - 1]) + {ms[|ms| - 1].operation.scenario}
  }

  function Failures(ms: seq<Measurement>): seq<string>
    decreases |ms|
  {
    if ms == [] then []
    else var m := ms[|ms| - 1];
      Failures(ms[..|ms| - 1]) + match m.error case None => [] case Some(e) => [m.operation.scenario + ": " + e]
  }

  function Add(summary: map<string, Row>, name: string, m: Measurement): map<string, Row> {
    summary[name := Plus(if name in summary then summary[name] else NO_ROW, RowOf(m))]
  }

  method Summarize(measurements: seq<Measurement>) returns (summary: map<string, Row>, failures: seq<string>)
    ensures Reports(summary, measurements)
    ensures failures == Failures(measurements)
  {
    summary, failures := map["all" := NO_ROW], [];
    ReportOfNothing(measurements[..0]);
    for i := 0 to |measurements|
      invariant Reports(summary, measurements[..i])
      invariant failures == Failures(measurements[..i])
    {
      OneLonger(measurements, i);
      summary, failures := Report(summary, failures, measurements[i], measurements[..i]);
    }
    assert measurements[..|measurements|] == measurements;
  }

  /** The body of the loop. */
  method Report(summary: map<string, Row>, failures: seq<string>, result: Measurement, ghost before: seq<Measurement>)
    returns (summary': map<string, Row>, failures': seq<string>)
    requires Reports(summary, before) && failures == Failures(before)
    ensures Reports(summary', before + [result]) && failures' == Failures(before + [result])
  {
    ReportGrows(before, result, summary);
    FailuresGrow(before, result);
    summary' := Record(summary, result);
    failures' := failures;
    if result.error.Some? {
      failures' := failures + [result.operation.scenario + ": " + result.error.value];
    }
  }

  /** The inner loop, over the two names a measurement is reported under. */
  method Record(summary: map<string, Row>, result: Measurement) returns (r: map<string, Row>)
    ensures r == Add(Add(summary, "all", result), result.operation.scenario, result)
  {
    var names := ["all", result.operation.scenario];
    r := summary;
    for j := 0 to 2
      invariant r == if j == 0 then summary else if j == 1 then Add(summary, "all", result)
                     else Add(Add(summary, "all", result), result.operation.scenario, result)
    {
      r := Add(r, names[j], result);
    }
  }

  lemma ReportOfNothing(ms: seq<Measurement>)
    requires ms == []
    ensures Reports(map["all" := NO_ROW], ms)
  {
  }

  lemma FailuresGrow(ms: seq<Measurement>, m: Measurement)
    ensures Failures(ms + [m]) == Failures(ms) + if m.error.None? then []
        else [m.operation.scenario + ": " + m.error.value]
  {
    assert (ms + [m])[..|ms|] == ms;
  }

  lemma TallyAppend(ms: seq<Measurement>, m: Measurement)
    ensures Tally(ms + [m]) == Plus(Tally(ms), RowOf(m))
  {
    assert (ms + [m])[..|ms|] == ms;
  }

  lemma {:induction false} OfNothing(ms: seq<Measurement>, scenario: string)
    requires scenario !in Scenarios(ms)
    ensures Of(ms, scenario) == []
    decreases |ms|
  {
    if ms != [] {
      OfNothing(ms[..|ms| - 1], scenario);
    }
  }

  lemma AllGrows(ms: seq<Measurement>, m: Measurement)
    ensures Expected(ms + [m], "all")
         == if m.operation.scenario == "all" then Plus(Plus(Expected(ms, "all"), RowOf(m)), RowOf(m))
             else Plus(Expected(ms, "all"), RowOf(m))
  {
    assert (ms + [m])[..|ms|] == ms;
    TallyAppend(SharedEntries(ms), m);
    TallyAppend(SharedEntries(ms) + [m], m);
    assert SharedEntries(ms) + [m] + [m] == SharedEntries(ms) + [m, m];
  }

  lemma OfGrows(ms: seq<Measurement>, m: Measurement, name: string)
    ensures Of(ms + [m], name) == if m.operation.scenario == name then Of(ms, name) + [m] else Of(ms, name)
  {
    assert (ms + [m])[..|ms|] == ms;
  }

  /** The row of a name after one more measurement, from the row before. */
  lemma ExpectedGrows(ms: seq<Measurement>, m: Measurement, name: string)
    requires name != "all"
    ensures Expected(ms + [m], name) == if m.operation.scenario == name then Plus(Expected(ms, name), RowOf(m))
        else Expected(ms, name)
    ensures name !in Scenarios(ms) ==> Expected(ms, name) == NO_ROW
  {
    OfGrows(ms, m, name);
    TallyAppend(Of(ms, name), m);
    if name !in Scenarios(ms) {
      OfNothing(ms, name);
    }
  }

  ghost predicate Reports(summary: map<string, Row>, ms: seq<Measurement>) {
    && summary.Keys == {"all"} + Scenarios(ms)
    && forall name :: name in summary ==> summary[name] == Expected(ms, name)
  }

  lemma ReportGrowsAt(ms: seq<Measurement>, m: Measurement, before: map<string, Row>, name: string)
    requires Reports(before, ms) && name in before.Keys + {m.operation.scenario}
    ensures Add(Add(before, "all", m), m.operation.scenario, m)[name] == Expected(ms + [m], name)
  {
    if name == "all" {
      AllGrows(ms, m);
    } else {
      ExpectedGrows(ms, m, name);
    }
  }

  lemma ReportGrows(ms: seq<Measurement>, m: Measurement, before: map<string, Row>)
    requires Reports(before, ms)
    ensures Reports(Add(Add(before, "all", m), m.operation.scenario, m), ms + [m])
  {
    var after := Add(Add(before, "all", m), m.operation.scenario, m);
    assert (ms + [m])[..|ms|] == ms;
    assert after.Keys == before.Keys + {m.operation.scenario};
    forall name | name in after
      ensures after[name] == Expected(ms + [m], name)
    {
      ReportGrowsAt(ms, m, before, name);
    }
  }

  // ---------------------------------------------------------------- the shared row

  /** The rows of several names, added up. */
  function SumOf(ms: seq<Measurement>, names: seq<string>): Row
    decreases |names|
  {
    if names == [] then NO_ROW else Plus(Tally(Of(ms, names[0])), SumOf(ms, names[1..]))
  }

  function Names(names: seq<string>): set<string>
    decreases |names|
  {
    if names == [] then {} else {names[0]} + Names(names[1..])
  }

  predicate AllDifferent(names: seq<string>)
    decreases |names|
  {
    names == [] || (names[0] !in Names(names[1..]) && AllDifferent(names[1..]))
  }

  predicate SameUpToOrder(a: Row, b: Row) {
    a.(durations := []) == b.(durations := []) && multiset(a.durations) == multiset(b.durations)
  }

  lemma {:induction false} SumOfNothing(ms: seq<Measurement>, names: seq<string>)
    requires ms == []
    ensures SumOf(ms, names) == NO_ROW
    decreases |names|
  {
    if names != [] {
      SumOfNothing(ms, names[1..]);
    }
  }

  lemma PlusSame(a: Row, b: Row, b': Row, m: Row)
    requires SameUpToOrder(b', Plus(b, m))
    ensures SameUpToOrder(Plus(a, b'), Plus(Plus(a, b), m))
  {
    assert multiset(a.durations + b'.durations) == multiset(a.durations) + multiset(b'.durations);
  }

  lemma GrowSame(a: Row, b: Row, b': Row, m: Row)
    requires SameUpToOrder(a, b) && SameUpToOrder(b', Plus(b, m))
    ensures SameUpToOrder(Plus(a, m), b')
  {
    assert multiset(a.durations + m.durations) == multiset(a.durations) + multiset(m.durations);
    assert multiset(b.durations + m.durations) == multiset(b.durations) + multiset(m.durations);
  }

  lemma PlusBetween(a: Row, b: Row, m: Row)
    ensures SameUpToOrder(Plus(Plus(a, m), b), Plus(Plus(a, b), m))
  {
    assert multiset(a.durations + m.durations + b.durations) == multiset(a.durations + b.durations + m.durations);
  }

  /** One more measurement reaches exactly the name it belongs to. */
  lemma {:induction false} SumOfGrows(ms: seq<Measurement>, m: Measurement, names: seq<string>)
    requires AllDifferent(names)
    ensures m.operation.scenario in Names(names)
        ==> SameUpToOrder(SumOf(ms + [m], names), Plus(SumOf(ms, names), RowOf(m)))
    ensures m.operation.scenario !in Names(names) ==> SumOf(ms + [m], names) == SumOf(ms, names)
    decreases |names|
  {
    assert (ms + [m])[..|ms|] == ms;
    if names != [] {
      SumOfGrows(ms, m, names[1..]);
      var a, b := Tally(Of(ms, names[0])), SumOf(ms, names[1..]);
      if m.operation.scenario == names[0] {
        TallyAppend(Of(ms, names[0]), m);
        PlusBetween(a, b, RowOf(m));
      } else {
        assert Of(ms + [m], names[0]) == Of(ms, names[0]);
        if m.operation.scenario in Names(names) {
          PlusSame(a, b, SumOf(ms + [m], names[1..]), RowOf(m));
        }
      }
    }
  }

  lemma {:induction false} ScenariosAddUp(ms: seq<Measurement>, names: seq<string>)
    requires AllDifferent(names) && Scenarios(ms) <= Names(names)
    ensures SameUpToOrder(Tally(ms), SumOf(ms, names))
    decreases |ms|
  {
    if ms == [] {
      SumOfNothing(ms, names);
    } else {
      var front, m := ms[..|ms| - 1], ms[|ms| - 1];
      assert Scenarios(ms) == Scenarios(front) + {m.operation.scenario};
      ScenariosAddUp(front, names);
      assert ms == front + [m];
      SumOfGrows(front, m, names);
      assert Tally(ms) == Plus(Tally(front), RowOf(m));
      GrowSame(Tally(front), SumOf(front, names), SumOf(ms, names), RowOf(m));
    }
  }

  lemma {:induction false} SharedEntriesLength(ms: seq<Measurement>)
    ensures |SharedEntries(ms)| == |ms| + |Of(ms, "all")|
    ensures "all" in Scenarios(ms) ==> |Of(ms, "all")| > 0
    decreases |ms|
  {
    if ms != [] {
      SharedEntriesLength(ms[..|ms| - 1]);
    }
  }

  lemma {:induction false} NoneEntersTwice(ms: seq<Measurement>)
    requires "all" !in Scenarios(ms)
    ensures SharedEntries(ms) == ms
    decreases |ms|
  {
    if ms != [] {
      NoneEntersTwice(ms[..|ms| - 1]);
      assert ms == ms[..|ms| - 1] + [ms[|ms| - 1]];
    }
  }

  /** The shared row is the sum of the scenario rows exactly when no scenario is itself named "all". */
  lemma AllRowIsTheSumExactly(ms: seq<Measurement>, names: seq<string>)
    requires AllDifferent(names) && Names(names) == Scenarios(ms)
    ensures SameUpToOrder(Expected(ms, "all"), SumOf(ms, names)) <==> "all" !in Scenarios(ms)
  {
    ScenariosAddUp(ms, names);
    SharedEntriesLength(ms);
    if "all" !in Scenarios(ms) {
      NoneEntersTwice(ms);
    }
  }

  // ---------------------------------------------------------------- the whole load run

  /** The operations of a plan as the pool sees them. */
  function Jobs(ops: seq<LoadPlan.Operation>): (r: seq<Operation>)
    ensures |r| == |ops| && forall i :: 0 <= i < |r| ==> r[i] == Operation(ops[i].scenario, |ops[i].events|, i)
  {
    seq(|ops|, i requires 0 <= i < |ops| => Operation(ops[i].scenario, |ops[i].events|, i))
  }

  function EventsIn(ops: seq<Operation>): int {
    if ops == [] then 0 else EventsIn(ops[..|ops| - 1]) + ops[|ops| - 1].events
  }

  lemma {:induction false} EventsWithout(ops: seq<Operation>, i: nat)
    requires i < |ops|
    ensures EventsIn(ops) == EventsIn(ops[..i] + ops[i + 1..]) + ops[i].events
  {
    var n := |ops| - 1;
    if i < n {
      EventsWithout(ops[..n], i);
      var rest := ops[..i] + ops[i + 1..];
      assert rest[..n - 1] == ops[..n][..i] + ops[..n][i + 1..];
    } else {
      assert ops[..i] + ops[i + 1..] == ops[..n];
    }
  }

  lemma {:induction false} EventsInAnyOrder(a: seq<Operation>, b: seq<Operation>)
    requires multiset(a) == multiset(b)
    ensures EventsIn(a) == EventsIn(b)
  {
    if a != [] {
      var i := PickOut(a, b);
      EventsInAnyOrder(a[..|a| - 1], b[..i] + b[i + 1..]);
      EventsWithout(b, i);
    } else {
      assert |multiset(b)| == 0;
    }
  }

  lemma {:induction false} TallyEvents(ms: seq<Measurement>)
    ensures Tally(ms).events == EventsIn(Measured(ms))
    decreases |ms|
  {
    if ms != [] {
      TallyEvents(ms[..|ms| - 1]);
      assert Measured(ms)[..|ms| - 1] == Measured(ms[..|ms| - 1]);
    }
  }

  lemma {:induction false} JobsEvents(ops: seq<LoadPlan.Operation>)
    ensures EventsIn(Jobs(ops)) == |LoadPlan.Flat(LoadPlan.Payloads(ops))|
  {
    if ops != [] {
      var front, last := ops[..|ops| - 1], ops[|ops| - 1];
      JobsEvents(front);
      assert Jobs(ops)[..|ops| - 1] == Jobs(front);
      assert LoadPlan.Payloads(ops) == LoadPlan.Payloads(front) + [last.events];
      LoadPlan.FlatConcat(LoadPlan.Payloads(front), [last.events]);
      assert [last.events][1..] == [];
    }
  }

  lemma {:induction false} PlannedScenarios(runID: string, total: nat, size: nat, k: nat, i: nat)
    requires size > 0 && k <= 5 && i < |LoadPlan.Operations(runID, total, size, k)|
    ensures exists j :: 0 <= j < 5 && LoadPlan.Operations(runID, total, size, k)[i].scenario == LoadPlan.Scenario(j)
  {
    if k > 0 && i < |LoadPlan.Operations(runID, total, size, k - 1)| {
      PlannedScenarios(runID, total, size, k - 1, i);
    }
  }

  lemma {:induction false} NoneNamedAll(runID: string, total: nat, size: nat, results: seq<Measurement>)
    requires size > 0
    requires multiset(Measured(results)) == multiset(Jobs(LoadPlan.Operations(runID, total, size, 5)))
    ensures "all" !in Scenarios(results)
  {
    var jobs := Jobs(LoadPlan.Operations(runID, total, size, 5));
    if "all" in Scenarios(results) {
      var k := ScenarioOf(results, "all");
      assert Measured(results)[k] in multiset(jobs);
      var i :| 0 <= i < |jobs| && jobs[i] == Measured(results)[k];
      JobIsNotAll(runID, total, size, i);
      assert false;
    }
  }

  lemma JobIsNotAll(runID: string, total: nat, size: nat, i: nat)
    requires size > 0 && i < |LoadPlan.Operations(runID, total, size, 5)|
    ensures Jobs(LoadPlan.Operations(runID, total, size, 5))[i].scenario != "all"
  {
    PlannedScenarios(runID, total, size, 5, i);
  }

  lemma {:induction false} ScenarioOf(ms: seq<Measurement>, name: string) returns (k: nat)
    requires name in Scenarios(ms)
    ensures k < |ms| && ms[k].operation.scenario == name
    decreases |ms|
  {
    k := |ms| - 1;
    if ms[k].operation.scenario != name {
      k := ScenarioOf(ms[..k], name);
    }
  }

  /** The operations of a plan in any order: the generator shuffles them before it hands them to the pool. */
  ghost predicate Shuffled(jobs: seq<Operation>, runID: string, o: LoadPlan.LoadOptions)
    requires LoadPlan.Accepted(o)
  {
    multiset(jobs) == multiset(Jobs(LoadPlan.Operations(runID, o.events, o.bulkSize, 5)))
  }

  /** What is measured, in whatever order, is what was planned. */
  lemma {:induction false} MeasuredAsPlanned(runID: string, o: LoadPlan.LoadOptions, jobs: seq<Operation>,
      results: seq<Measurement>)
    requires LoadPlan.Accepted(o) && Shuffled(jobs, runID, o) && multiset(Measured(results)) == multiset(jobs)
    ensures Expected(results, "all").events == o.events && Expected(results, "all").operations == |jobs|
    ensures "all" !in Scenarios(results)
  {
    var ops := LoadPlan.Operations(runID, o.events, o.bulkSize, 5);
    assert |multiset(Measured(results))| == |results| && |multiset(jobs)| == |jobs|;
    EventsInAnyOrder(Measured(results), Jobs(ops));
    LoadPlan.OperationsPartitionKeys(runID, o);
    JobsEvents(ops);
    TallyEvents(results);
    NoneNamedAll(runID, o.events, o.bulkSize, results);
    NoneEntersTwice(results);
  }

  /**
   * From accepted options to the printed total: whatever the shuffle and the interleaving, a load run that is not
   * cancelled reports every operation once in the shared row, as many events as were asked for, and a shared row
   * that is the sum of the scenario rows.
   */
  lemma {:induction false} ReportIsComplete(runID: string, o: LoadPlan.LoadOptions, jobs: seq<Operation>,
      steps: seq<Step>, names: seq<string>)
    requires LoadPlan.Accepted(o) && Shuffled(jobs, runID, o)
    requires Schedule(jobs, o.concurrency, steps)
    requires Finished(After(jobs, o.concurrency, steps)) && !After(jobs, o.concurrency, steps).cancelled
    requires AllDifferent(names) && Names(names) == Scenarios(After(jobs, o.concurrency, steps).results)
    ensures var results := After(jobs, o.concurrency, steps).results;
      && Expected(results, "all").events == o.events && Expected(results, "all").operations == |jobs|
      && SameUpToOrder(Expected(results, "all"), SumOf(results, names))
  {
    var results := After(jobs, o.concurrency, steps).results;
    MeasurementsArePermutation(jobs, o.concurrency, steps);
    MeasuredAsPlanned(runID, o, jobs, results);
    AllRowIsTheSumExactly(results, names);
  }
}
