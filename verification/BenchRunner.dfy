/** The concurrent benchmark driver (runtime/knomosis-bench/src/runner.rs) as a state machine over a
    shared cursor, an abort flag, a double-checked start timestamp and a counter.

    A worker claims `batch` indices at a time, writes them, then reads their verdicts. The one-shot mode
    is the same protocol with `batch == 1`. Sockets become steps that may fail at any point, clock
    reads see a clock that never goes back, and a worker may panic anywhere. */
module BenchRunner {

  import opened Machine

  datatype Config = Config(workers: U64, total: U64, warmup: U64, batch: U64)

  /** A pipeline depth of zero counts as one. */
  function Depth(config: Config): (d: U64)
    ensures d >= 1
  {
    if config.batch == 0 then 1 else config.batch
  }

  datatype RunnerError = NoWorkers | WarmupExceedsFixture(warmup: nat, fixtureLen: nat)

  /** The checks `run` makes before it starts. */
  function Validate(config: Config): Result<(), RunnerError> {
    if config.workers == 0 then Failure(NoWorkers)
    else if config.warmup >= config.total then Failure(WarmupExceedsFixture(config.warmup, config.total))
    else Success(())
  }

  datatype Exit = Exhausted | Aborted | Failed | Panicked

  datatype Stage =
    | Connecting
    | Top            // about to look at the abort flag
    | Claim          // about to fetch_add the cursor
    | Gate           // about to look at measurement_started
    | Locking        // waiting for the start-time mutex
    | Checking       // holding it, about to look whether a start time is set
    | Setting        // holding it, about to set one
    | Raising        // holding it, about to raise measurement_started
    | Releasing      // holding it, about to let go
    | Writing        // about to stamp and write request `wpos`
    | Flushing
    | Reading        // about to read the verdict of request `rpos`
    | Completing     // about to stamp the completion of request `rpos - 1`
    | Counting       // about to fetch_add measured_count
    | Failing        // about to record the first error
    | Aborting       // about to raise the abort flag
    | Done(exit: Exit)

  datatype Sample = Sample(index: int, started: nat, completed: nat)

  datatype Worker = Worker(
    stage: Stage,
    start: nat,
    end: nat,
    wpos: nat,
    rpos: nat,
    times: seq<nat>,
    hist: seq<nat>,
    log: seq<Sample>,
    last: Option<nat>)

  /** The flags all workers share, and what has gone wrong so far. */
  datatype Flags = Flags(
    abort: bool,
    firstError: bool,
    spawnFailed: bool,
    panicked: bool,
    startTime: Option<nat>,
    started: bool,
    holder: Option<nat>,
    startWrites: nat)

  /** What has happened to each index of the fixture. */
  datatype Books = Books(
    claims: seq<(nat, nat)>,
    submitted: multiset<nat>,
    completed: multiset<nat>,
    counted: multiset<nat>)

  datatype Bench = Bench(
    config: Config,
    clock: nat,
    cursor: nat,
    flags: Flags,
    measured: nat,
    workers: seq<Worker>,
    books: Books)

  datatype Step = Tick(elapsed: nat) | Work(w: nat) | Fail(w: nat) | Panic(w: nat) | SpawnFail

  function Fresh(): Worker {
    Worker(Connecting, 0, 0, 0, 0, [], [], [], None)
  }

  function Start(config: Config): Bench {
    Bench(config, 0, 0, Flags(false, false, false, false, None, false, None, 0), 0,
          seq(config.workers, _ => Fresh()), Books([], multiset{}, multiset{}, multiset{}))
  }

  /** `Duration::as_nanos` squeezed into a u64 sample. */
  function Nanos(started: nat, completed: nat): nat {
    var d := if completed < started then 0 else completed - started;
    if d > U64_MAX then U64_MAX else d
  }

  predicate Enabled(v: Bench, step: Step) {
    match step
    case Tick(_) => true
    case Work(w) =>
      w < |v.workers| && !v.workers[w].stage.Done? && (v.workers[w].stage.Locking? ==> v.flags.holder.None?)
    case Fail(w) =>
      w < |v.workers| && var s := v.workers[w].stage; s.Connecting? || s.Writing? || s.Flushing? || s.Reading?
    case Panic(w) => w < |v.workers| && !v.workers[w].stage.Done?
    case SpawnFail => true
  }

  function Put(v: Bench, w: nat, x: Worker): Bench
    requires w < |v.workers|
  {
    v.(workers := v.workers[w := x])
  }

  function NextVerdict(x: Worker): Worker {
    x.(stage := if x.rpos < x.end then Reading else Top)
  }

  /** `fetch_add(batch)` and the range it yields; the cursor is a machine word. */
  function ClaimStep(v: Bench, w: nat): Bench
    requires w < |v.workers|
  {
    var start := v.cursor;
    var v' := v.(cursor := (v.cursor + Depth(v.config)) % U64_MODULUS);
    if start >= v.config.total then
      Put(v', w, v.workers[w].(stage := Done(Exhausted)))
    else
      var stop := Min((start + Depth(v.config)) % U64_MODULUS, v.config.total);
      var end := if stop < start then start else stop;
      var x := v.workers[w].(start := start, end := end, wpos := start, rpos := start, times := [],
                             stage := if start < end then Gate else Flushing);
      Put(v', w, x).(books := v.books.(claims := v.books.claims + [(start, end)]))
  }

  function WriteStep(v: Bench, w: nat): Bench
    requires w < |v.workers|
  {
    var x := v.workers[w];
    var x' := x.(times := x.times + [v.clock], wpos := x.wpos + 1,
                 stage := if x.wpos + 1 < x.end then Gate else Flushing);
    Put(v, w, x').(books := v.books.(submitted := v.books.submitted + multiset{x.wpos}))
  }

  function ReadStep(v: Bench, w: nat): Bench
    requires w < |v.workers|
  {
    var x := v.workers[w];
    Put(v, w, x.(stage := Completing, rpos := x.rpos + 1))
      .(books := v.books.(completed := v.books.completed + multiset{x.rpos}))
  }

  function CompleteStep(v: Bench, w: nat): Bench
    requires w < |v.workers|
  {
    var x := v.workers[w];
    var index := x.rpos - 1;
    if index < v.config.warmup then Put(v, w, NextVerdict(x))
    else
      var k := index - x.start;
      var began := if 0 <= k < |x.times| then x.times[k] else v.clock;
      Put(v, w, x.(hist := x.hist + [Nanos(began, v.clock)],
                   log := x.log + [Sample(index, began, v.clock)],
                   last := Some(v.clock),
                   stage := Counting))
  }

  function CountStep(v: Bench, w: nat): Bench
    requires w < |v.workers|
  {
    var x := v.workers[w];
    var index := if x.rpos > 0 then multiset{x.rpos - 1} else multiset{};
    Put(v, w, NextVerdict(x)).(measured := v.measured + 1, books := v.books.(counted := v.books.counted + index))
  }

  /** The stages in which a worker only moves on, looking at or changing the shared flags. */
  predicate Moves(s: Stage) {
    !s.Claim? && !s.Writing? && !s.Reading? && !s.Completing? && !s.Counting? && !s.Done?
  }

  function Move(f: Flags, clock: nat, warmup: nat, w: nat, x: Worker): (Stage, Flags)
    requires Moves(x.stage)
  {
    match x.stage
    case Connecting => (Top, f)
    case Top => (if f.abort then Done(Aborted) else Claim, f)
    case Gate => (if x.wpos >= warmup && !f.started then Locking else Writing, f)
    case Locking => (Checking, f.(holder := Some(w)))
    case Checking => (if f.startTime.None? then Setting else Releasing, f)
    case Setting => (Raising, f.(startTime := Some(clock), startWrites := f.startWrites + 1))
    case Raising => (Releasing, f.(started := true))
    case Releasing => (Writing, f.(holder := None))
    case Flushing => (NextVerdict(x).stage, f)
    case Failing => (Aborting, f.(firstError := true))
    case Aborting => (Done(Failed), f.(abort := true))
  }

  function WorkStep(v: Bench, w: nat): Bench
    requires w < |v.workers|
  {
    var x := v.workers[w];
    if Moves(x.stage) then
      var (stage, flags) := Move(v.flags, v.clock, v.config.warmup, w, x);
      Put(v, w, x.(stage := stage)).(flags := flags)
    else
      match x.stage
      case Claim => ClaimStep(v, w)
      case Writing => WriteStep(v, w)
      case Reading => ReadStep(v, w)
      case Completing => CompleteStep(v, w)
      case Counting => CountStep(v, w)
      case _ => v
  }

  /** A panicking worker lets go of the start-time mutex. */
  function PanicFlags(f: Flags, w: nat): Flags {
    f.(panicked := true, holder := if f.holder == Some(w) then None else f.holder)
  }

  function Next(v: Bench, step: Step): Bench
    requires Enabled(v, step)
  {
    match step
    case Tick(elapsed) => v.(clock := v.clock + elapsed)
    case Work(w) => WorkStep(v, w)
    case Fail(w) => Put(v, w, v.workers[w].(stage := Failing))
    case Panic(w) =>
      Put(v, w, v.workers[w].(stage := Done(Panicked))).(flags := PanicFlags(v.flags, w))
    case SpawnFail => v.(flags := v.flags.(spawnFailed := true, abort := true))
  }

  function Run(config: Config, steps: seq<Step>): Option<Bench> {
    if steps == [] then Some(Start(config))
    else
      var before := Run(config, steps[..|steps| - 1]);
      if before.Some? && Enabled(before.value, steps[|steps| - 1])
      then Some(Next(before.value, steps[|steps| - 1]))
      else None
  }

  // ---------------------------------------------------------------------------------------------
  // What `run` returns

  /** All workers have been joined, none panicked, and no error was recorded. */
  ghost predicate Succeeded(v: Bench) {
    && !v.flags.spawnFailed && !v.flags.firstError && !v.flags.panicked
    && forall w :: 0 <= w < |v.workers| ==> v.workers[w].stage.Done?
  }

  function Merged(ws: seq<Worker>): seq<nat> {
    if ws == [] then [] else Merged(ws[..|ws| - 1]) + ws[|ws| - 1].hist
  }

  function Later(a: Option<nat>, b: Option<nat>): Option<nat> {
    match (a, b)
    case (Some(x), Some(y)) => Some(if x < y then y else x)
    case (Some(x), None) => Some(x)
    case (None, Some(y)) => Some(y)
    case (None, None) => None
  }

  function Latest(ws: seq<Worker>): Option<nat> {
    if ws == [] then None else Later(Latest(ws[..|ws| - 1]), ws[|ws| - 1].last)
  }

  /** `saturating_duration_since`, zero unless both ends are known. */
  function Elapsed(start: Option<nat>, end: Option<nat>): nat {
    if start.Some? && end.Some? && start.value <= end.value then end.value - start.value else 0
  }

  /** The join loop of `run`. */
  method JoinAll(ws: seq<Worker>) returns (merged: seq<nat>, measurementEnd: Option<nat>)
    ensures merged == Merged(ws) && measurementEnd == Latest(ws)
  {
    merged, measurementEnd := [], None;
    var i := 0;
    while i < |ws|
      invariant i <= |ws|
      invariant merged == Merged(ws[..i]) && measurementEnd == Latest(ws[..i])
    {
      assert ws[..i + 1][..i] == ws[..i];
      merged := merged + ws[i].hist;
      measurementEnd := Later(measurementEnd, ws[i].last);
      i := i + 1;
    }
    assert ws[..i] == ws;
  }
}
