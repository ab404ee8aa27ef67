/**
 * The worker pool as a state machine: a feeder hands operations one by one to idle workers over an
 * unbuffered channel, workers put measurements into a buffer, and a context may be cancelled at any time.
 */
module WorkerPool {
  import opened Options
  import Runs

  /** An operation, told apart from the others by its number. */
  datatype Operation = Operation(scenario: string, events: int, number: int)

  /** `error` is the message of a failed operation. */
  datatype Measurement = Measurement(operation: Operation, duration: int, error: Option<string>)

  datatype Worker = Idle | Running(operation: Operation) | Exited

  /** `waiting` is what the feeder still holds, `dropped` what it gave up on, `feeding` an open channel. */
  datatype Pool = Pool(capacity: nat, waiting: seq<Operation>, dropped: seq<Operation>, workers: seq<Worker>,
                       results: seq<Measurement>, feeding: bool, cancelled: bool)

  datatype Step =
    | Take(worker: nat) | Finish(worker: nat, duration: int, error: Option<string>) | Exit(worker: nat)
    | Cancel | GiveUp | CloseJobs

  function Start(operations: seq<Operation>, concurrency: nat): Pool {
    Pool(|operations|, operations, [], seq(concurrency, _ => Idle), [], true, false)
  }

  /** Room in the result buffer is a condition here, because sending to a full buffer blocks. */
  predicate Enabled(p: Pool, s: Step) {
    match s
    case Take(i) => i < |p.workers| && p.workers[i].Idle? && p.feeding && p.waiting != []
    case Finish(i, _, _) => i < |p.workers| && p.workers[i].Running? && |p.results| < p.capacity
    case Cancel => !p.cancelled
    case GiveUp => p.feeding && p.waiting != [] && p.cancelled
    case CloseJobs => p.feeding && p.waiting == []
    case Exit(i) => i < |p.workers| && p.workers[i].Idle? && !p.feeding
  }

  function Next(p: Pool, s: Step): Pool {
    if !Enabled(p, s) then p
    else match s
      case Take(i) => p.(workers := p.workers[i := Running(p.waiting[0])], waiting := p.waiting[1..])
      case Finish(i, d, error) =>
        p.(workers := p.workers[i := Idle], results := p.results + [Measurement(p.workers[i].operation, d, error)])
      case Cancel => p.(cancelled := true)
      case GiveUp => p.(dropped := p.waiting, waiting := [], feeding := false)
      case CloseJobs => p.(feeding := false)
      case Exit(i) => p.(workers := p.workers[i := Exited])
  }

  function HeldBy(w: Worker): multiset<Operation> {
    if w.Running? then multiset{w.operation} else multiset{}
  }

  function Held(workers: seq<Worker>): multiset<Operation> {
    if workers == [] then multiset{} else HeldBy(workers[0]) + Held(workers[1..])
  }

  function Measured(results: seq<Measurement>): (r: seq<Operation>)
    ensures |r| == |results| && forall i :: 0 <= i < |r| ==> r[i] == results[i].operation
  {
    seq(|results|, i requires 0 <= i < |results| => results[i].operation)
  }

  /** Every operation, wherever it is. */
  function Everything(p: Pool): multiset<Operation> {
    multiset(p.waiting) + multiset(p.dropped) + Held(p.workers) + multiset(Measured(p.results))
  }

  /** Nothing is lost or invented, and work is given up only after a cancellation and when feeding ends. */
  ghost predicate Sound(operations: seq<Operation>, p: Pool) {
    && Everything(p) == multiset(operations) && p.capacity == |operations|
    && (p.dropped != [] ==> p.cancelled && !p.feeding)
    && (!p.feeding ==> p.waiting == [])
  }

  lemma AddInFront<T>(h: multiset<T>, a: multiset<T>, x: multiset<T>, b: multiset<T>, y: multiset<T>)
    requires a + x == b + y
    ensures (h + a) + x == (h + b) + y
  {
    assert (h + a) + x == h + (a + x);
  }

  lemma {:induction false} HeldUpdate(workers: seq<Worker>, i: nat, w: Worker)
    requires i < |workers|
    ensures Held(workers[i := w]) + HeldBy(workers[i]) == Held(workers) + HeldBy(w)
  {
    var after := workers[i := w];
    if i > 0 {
      HeldUpdate(workers[1..], i - 1, w);
      assert after[1..] == workers[1..][i - 1 := w];
      assert after[0] == workers[0] && workers[1..][i - 1] == workers[i];
      AddInFront(HeldBy(workers[0]), Held(after[1..]), HeldBy(workers[i]), Held(workers[1..]), HeldBy(w));
    } else {
      assert after[1..] == workers[1..];
    }
  }

  lemma {:induction false} HeldContains(workers: seq<Worker>, i: nat)
    requires i < |workers| && workers[i].Running?
    ensures |Held(workers)| >= 1
  {
    if i > 0 {
      HeldContains(workers[1..], i - 1);
    }
  }

  lemma {:induction false} HeldNothing(workers: seq<Worker>)
    requires forall i :: 0 <= i < |workers| ==> !workers[i].Running?
    ensures Held(workers) == multiset{}
  {
    if workers != [] {
      HeldNothing(workers[1..]);
    }
  }

  lemma {:induction false} HeldAtStart(concurrency: nat)
    ensures Held(seq(concurrency, _ => Idle)) == multiset{}
  {
    HeldNothing(seq(concurrency, _ => Idle));
  }

  /** An operation moves from one place to another. */
  lemma Moves<T>(held: multiset<T>, held': multiset<T>, measured: multiset<T>, rest: multiset<T>, op: T)
    requires held' + multiset{op} == held
    ensures rest + held' + (measured + multiset{op}) == rest + held + measured
  {
    assert rest + held' + (measured + multiset{op}) == rest + (held' + multiset{op}) + measured;
  }

  lemma MeasuredGrows(results: seq<Measurement>, m: Measurement)
    ensures multiset(Measured(results + [m])) == multiset(Measured(results)) + multiset{m.operation}
  {
    assert Measured(results + [m]) == Measured(results) + [m.operation];
  }

  lemma FinishReleases(workers: seq<Worker>, i: nat)
    requires i < |workers| && workers[i].Running?
    ensures Held(workers[i := Idle]) + multiset{workers[i].operation} == Held(workers)
  {
    HeldUpdate(workers, i, Idle);
    assert Held(workers) + multiset{} == Held(workers);
  }

  lemma FinishConserves(p: Pool, i: nat, d: int, error: Option<string>)
    requires Enabled(p, Finish(i, d, error))
    ensures Everything(Next(p, Finish(i, d, error))) == Everything(p)
  {
    var op := p.workers[i].operation;
    FinishReleases(p.workers, i);
    MeasuredGrows(p.results, Measurement(op, d, error));
    Moves(Held(p.workers), Held(p.workers[i := Idle]), multiset(Measured(p.results)),
        multiset(p.waiting) + multiset(p.dropped), op);
  }

  lemma TakeConserves(p: Pool, i: nat)
    requires Enabled(p, Take(i))
    ensures Everything(Next(p, Take(i))) == Everything(p)
  {
    var op, after := p.waiting[0], Next(p, Take(i));
    HeldUpdate(p.workers, i, Running(op));
    assert Held(after.workers) == Held(p.workers) + multiset{op};
    assert p.waiting == [op] + p.waiting[1..];
  }

  lemma ExitConserves(p: Pool, i: nat)
    requires Enabled(p, Exit(i))
    ensures Everything(Next(p, Exit(i))) == Everything(p)
  {
    HeldUpdate(p.workers, i, Exited);
    var held, held' := Held(p.workers), Held(p.workers[i := Exited]);
    assert held' + multiset{} == held + multiset{};
    assert held' + multiset{} == held' && held + multiset{} == held;
  }

  /** Waiting, dropped, held and measured operations together stay what they were, whatever happens next. */
  lemma StepKeepsSound(operations: seq<Operation>, p: Pool, s: Step)
    requires Sound(operations, p) && Enabled(p, s)
    ensures Sound(operations, Next(p, s))
  {
    match s
    case Take(i) => TakeConserves(p, i);
    case Finish(i, d, error) => FinishConserves(p, i, d, error);
    case Exit(i) => ExitConserves(p, i);
    case _ =>
  }

  // ---------------------------------------------------------------- runs

  ghost function After(operations: seq<Operation>, concurrency: nat, steps: seq<Step>): Pool {
    Runs.At(Next, Start(operations, concurrency), steps, |steps|)
  }

  /** A schedule: any interleaving of feeder, workers and cancellation. */
  ghost predicate Schedule(operations: seq<Operation>, concurrency: nat, steps: seq<Step>) {
    Runs.Valid(Enabled, Next, Start(operations, concurrency), steps)
  }

  /**
   * At every moment of every schedule, waiting, dropped, in-flight and measured operations make up the original
   * multiset.
   */
  lemma OperationsAreConserved(operations: seq<Operation>, concurrency: nat, steps: seq<Step>)
    requires Schedule(operations, concurrency, steps)
    ensures Sound(operations, After(operations, concurrency, steps))
  {
    HeldAtStart(concurrency);
    var start := Start(operations, concurrency);
    assert Measured(start.results) == [];
    var inv := p => Sound(operations, p);
    forall p, s | inv(p) && Enabled(p, s)
      ensures inv(Next(p, s))
    {
      StepKeepsSound(operations, p, s);
    }
    Runs.Invariant(Enabled, Next, inv, start, steps, |steps|);
  }

  /** A worker that holds an operation can always deliver its measurement: the buffer has room for it. */
  lemma NoWorkerBlocks(operations: seq<Operation>, concurrency: nat, steps: seq<Step>, i: nat, d: int,
      error: Option<string>)
    requires Schedule(operations, concurrency, steps)
    requires var p := After(operations, concurrency, steps); i < |p.workers| && p.workers[i].Running?
    ensures Enabled(After(operations, concurrency, steps), Finish(i, d, error))
  {
    OperationsAreConserved(operations, concurrency, steps);
    var p := After(operations, concurrency, steps);
    HeldContains(p.workers, i);
    assert |Everything(p)| == |operations|;
    assert |multiset(Measured(p.results))| == |p.results|;
  }

  /** All workers have returned, which is what the caller waits for. */
  predicate Finished(p: Pool) {
    forall i :: 0 <= i < |p.workers| ==> p.workers[i].Exited?
  }

  /** What is still to be done; a cancellation adds nothing to it. */
  function Remaining(p: Pool): nat {
    2 * |p.waiting| + (if p.feeding then 1 else 0) + Busy(p.workers)
  }

  function Busy(workers: seq<Worker>): nat {
    if workers == [] then 0
    else (match workers[0] case Running(_) => 2 case Idle => 1 case Exited => 0) + Busy(workers[1..])
  }

  lemma {:induction false} BusyUpdate(workers: seq<Worker>, i: nat, w: Worker)
    requires i < |workers|
    ensures Busy(workers[i := w]) - Busy([w]) == Busy(workers) - Busy([workers[i]])
  {
    var after := workers[i := w];
    if i > 0 {
      BusyUpdate(workers[1..], i - 1, w);
      assert after[1..] == workers[1..][i - 1 := w];
    } else {
      assert after[1..] == workers[1..];
    }
  }

  /** Every step but a cancellation, which happens once, brings the end nearer: no schedule is endless. */
  lemma StepMakesProgress(p: Pool, s: Step)
    requires Enabled(p, s)
    ensures Remaining(Next(p, s)) + (if s.Cancel? then 0 else 1) <= Remaining(p)
    ensures Next(p, s).cancelled == (p.cancelled || s.Cancel?)
  {
    match s
    case Take(i) => BusyUpdate(p.workers, i, Running(p.waiting[0]));
    case Finish(i, d, error) => BusyUpdate(p.workers, i, Idle);
    case Exit(i) => BusyUpdate(p.workers, i, Exited);
    case _ =>
  }

  /** No schedule takes more steps than two an operation, one a worker, one to close the channel and one to cancel. */
  lemma {:induction false} SchedulesAreFinite(p: Pool, steps: seq<Step>)
    requires Runs.Valid(Enabled, Next, p, steps)
    ensures |steps| <= Remaining(p) + if p.cancelled then 0 else 1
    decreases |steps|
  {
    if steps != [] {
      StepMakesProgress(p, steps[0]);
      SchedulesAreFinite(Next(p, steps[0]), steps[1..]);
    }
  }

  /** Nothing gets stuck: until all workers have returned, some step other than a cancellation can be taken. */
  lemma SomeStepIsPossible(operations: seq<Operation>, concurrency: nat, steps: seq<Step>) returns (s: Step)
    requires Schedule(operations, concurrency, steps)
    requires !Finished(After(operations, concurrency, steps))
    ensures Enabled(After(operations, concurrency, steps), s) && !s.Cancel?
  {
    var p := After(operations, concurrency, steps);
    var i :| 0 <= i < |p.workers| && !p.workers[i].Exited?;
    if p.workers[i].Running? {
      NoWorkerBlocks(operations, concurrency, steps, i, 0, None);
      return Finish(i, 0, None);
    }
    return if !p.feeding then Exit(i) else if p.waiting == [] then CloseJobs else Take(i);
  }

  /** Workers leave only after the channel was closed. */
  ghost predicate Staffed(concurrency: nat, p: Pool) {
    |p.workers| == concurrency && (p.feeding ==> forall i :: 0 <= i < concurrency ==> !p.workers[i].Exited?)
  }

  lemma WorkersStay(operations: seq<Operation>, concurrency: nat, steps: seq<Step>)
    requires Schedule(operations, concurrency, steps)
    ensures Staffed(concurrency, After(operations, concurrency, steps))
  {
    var inv := p => Staffed(concurrency, p);
    Runs.Invariant(Enabled, Next, inv, Start(operations, concurrency), steps, |steps|);
  }

  /**
   * Once all of at least one worker have returned, the measurements and the operations given up are the
   * original ones; without a cancellation the measurements are a permutation of them.
   */
  lemma MeasurementsArePermutation(operations: seq<Operation>, concurrency: nat, steps: seq<Step>)
    requires Schedule(operations, concurrency, steps) && concurrency >= 1
    requires Finished(After(operations, concurrency, steps))
    ensures var p := After(operations, concurrency, steps);
      && multiset(Measured(p.results)) + multiset(p.dropped) == multiset(operations)
      && (!p.cancelled ==> multiset(Measured(p.results)) == multiset(operations))
  {
    OperationsAreConserved(operations, concurrency, steps);
    WorkersStay(operations, concurrency, steps);
    var p := After(operations, concurrency, steps);
    assert p.workers[0].Exited?;
    HeldNothing(p.workers);
  }

  /** Without workers the caller returns at once, with nothing measured. */
  lemma WithoutWorkersNothingIsMeasured(operations: seq<Operation>, steps: seq<Step>)
    requires Schedule(operations, 0, steps)
    ensures var p := After(operations, 0, steps); Finished(p) && p.results == []
  {
    var inv := (p: Pool) => p.workers == [] && p.results == [];
    Runs.Invariant(Enabled, Next, inv, Start(operations, 0), steps, |steps|);
  }
}
