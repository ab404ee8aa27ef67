/** What each scenario of a load run sends: in which shape, and how much. */
module LoadShares {
  import opened Numbers
  import opened LoadPlan

  /** Single events for the two unary scenarios, batches of at most `size` for the others, all of one protocol. */
  predicate Shaped(op: Operation, size: nat) {
    && op.scenario in {"rest-single", "rest-bulk", "grpc-unary", "grpc-bulk", "grpc-stream"}
    && (op.scenario == "rest-single" || op.scenario == "grpc-unary" ==> |op.events| == 1)
    && 1 <= |op.events| <= Max(size, 1)
    && forall i :: 0 <= i < |op.events| ==> op.events[i].protocol == op.scenario
  }

  lemma {:induction false} ChunksShaped(runID: string, protocol: string, from: nat, count: nat, size: nat, j: nat)
    requires size > 0 && j < |Chunks(runID, protocol, from, count, size)|
    ensures var batch := Chunks(runID, protocol, from, count, size)[j];
      1 <= |batch| <= size && forall i :: 0 <= i < |batch| ==> batch[i].protocol == protocol
    decreases count
  {
    var n := Min(size, count);
    if j > 0 {
      ChunksShaped(runID, protocol, from + n, count - n, size, j - 1);
    }
  }

  lemma BatchesShaped(runID: string, total: nat, size: nat, k: nat, j: nat)
    requires size > 0 && k < 5 && j < |Batches(runID, total, size, k)|
    ensures Shaped(Operation(Scenario(k), Batches(runID, total, size, k)[j]), size)
  {
    var shares := Shares(total, 5);
    if k != 0 && k != 2 {
      ChunksShaped(runID, Scenario(k), Sum(shares[..k]), shares[k], size, j);
    }
  }

  /** Every planned operation is of the shape its scenario is sent in. */
  lemma {:induction false} OperationsAreShaped(runID: string, total: nat, size: nat, k: nat, i: nat)
    requires size > 0 && k <= 5 && i < |Operations(runID, total, size, k)|
    ensures Shaped(Operations(runID, total, size, k)[i], size)
    decreases k
  {
    var front := Operations(runID, total, size, k - 1);
    if i < |front| {
      OperationsAreShaped(runID, total, size, k - 1, i);
    } else {
      BatchesShaped(runID, total, size, k - 1, i - |front|);
    }
  }

  /** The events of one scenario's operations. */
  function EventsOf(ops: seq<Operation>, scenario: string): nat
    decreases |ops|
  {
    if ops == [] then 0
    else EventsOf(ops[..|ops| - 1], scenario)
         + if ops[|ops| - 1].scenario == scenario then |ops[|ops| - 1].events| else 0
  }

  lemma {:induction false} EventsOfBoth(a: seq<Operation>, b: seq<Operation>, scenario: string)
    ensures EventsOf(a + b, scenario) == EventsOf(a, scenario) + EventsOf(b, scenario)
    decreases |b|
  {
    if b == [] {
      assert a + b == a;
    } else {
      var n := |b| - 1;
      assert (a + b)[..|a| + n] == a + b[..n];
      EventsOfBoth(a, b[..n], scenario);
    }
  }

  lemma {:induction false} EventsOfNamed(name: string, batches: seq<seq<Event>>, scenario: string)
    ensures EventsOf(Named(name, batches), scenario) == if name == scenario then |Flat(batches)| else 0
    decreases |batches|
  {
    if batches != [] {
      var n := |batches| - 1;
      EventsOfNamed(name, batches[..n], scenario);
      assert Named(name, batches)[..n] == Named(name, batches[..n]);
      assert batches == batches[..n] + [batches[n]];
      FlatConcat(batches[..n], [batches[n]]);
      assert [batches[n]][1..] == [];
    }
  }

  lemma ScenariosDiffer(j: nat, k: nat)
    requires j < k < 5
    ensures Scenario(j) != Scenario(k)
  {
    assert |Scenario(j)| != |Scenario(k)| || Scenario(j)[0] != Scenario(k)[0];
  }

  lemma ScenarioShare(runID: string, total: nat, size: nat, k: nat, j: nat)
    requires size > 0 && k < 5 && j < 5
    ensures EventsOf(Named(Scenario(k), Batches(runID, total, size, k)), Scenario(j))
         == if j == k then Shares(total, 5)[k] else 0
  {
    EventsOfNamed(Scenario(k), Batches(runID, total, size, k), Scenario(j));
    BatchesFlat(runID, total, size, k);
    if j < k {
      ScenariosDiffer(j, k);
    } else if k < j {
      ScenariosDiffer(k, j);
    }
  }

  lemma {:induction false} ScenariosGetTheirs(runID: string, total: nat, size: nat, k: nat, j: nat)
    requires size > 0 && k <= 5 && j < 5
    ensures EventsOf(Operations(runID, total, size, k), Scenario(j)) == if j < k then Shares(total, 5)[j] else 0
    decreases k
  {
    if k > 0 {
      ScenariosGetTheirs(runID, total, size, k - 1, j);
      EventsOfBoth(Operations(runID, total, size, k - 1),
        Named(Scenario(k - 1), Batches(runID, total, size, k - 1)), Scenario(j));
      ScenarioShare(runID, total, size, k - 1, j);
    }
  }

  /** Every scenario gets its equal share of the events, one more for the first ones if they do not divide evenly. */
  lemma ScenariosGetTheirShare(runID: string, total: nat, size: nat, j: nat)
    requires size > 0 && j < 5
    ensures EventsOf(Operations(runID, total, size, 5), Scenario(j))
         == total / 5 + (if j < total % 5 then 1 else 0)
  {
    ScenariosGetTheirs(runID, total, size, 5, j);
  }
}
