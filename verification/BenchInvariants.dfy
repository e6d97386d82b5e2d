/** Inductive invariants of the benchmark driver over every schedule. */
module BenchInvariants {

  import opened Machine
  import opened BenchRunner

  // ---------------------------------------------------------------------------------------------
  // Claims and progress

  /** How many claims it takes to hand out the whole fixture. */
  function Rounds(c: Config): nat {
    (c.total + Depth(c) - 1) / Depth(c)
  }

  /** What the cursor, a machine word, shows after `m` claims. */
  function CursorAt(c: Config, m: nat): nat {
    (Depth(c) * m) % U64_MODULUS
  }

  /** Past the last round, every worker's final look at the cursor still finds it at or beyond the end. */
  ghost predicate Clear(c: Config) {
    forall m: nat :: Rounds(c) <= m < Rounds(c) + c.workers ==> CursorAt(c, m) >= c.total
  }

  predicate Idle(s: Stage) {
    s.Connecting? || s.Top? || s.Claim? || (s.Done? && (s.exit.Exhausted? || s.exit.Aborted?))
  }

  predicate Holding(s: Stage) {
    s.Checking? || s.Setting? || s.Raising? || s.Releasing?
  }

  predicate WritePhase(s: Stage) {
    s.Gate? || s.Locking? || Holding(s) || s.Writing?
  }

  /** The first index of the claim that is not yet counted. */
  function Uncounted(x: Worker): int {
    if x.stage.Completing? || x.stage.Counting? then x.rpos - 1 else x.rpos
  }

  /** A worker's claim and how far it has got with it. */
  ghost predicate LocalInv(x: Worker) {
    && x.start <= x.rpos <= x.wpos <= x.end
    && |x.times| == x.wpos - x.start
    && (Idle(x.stage) ==> x.rpos == x.end)
    && (WritePhase(x.stage) ==> x.rpos == x.start && x.wpos < x.end)
    && (x.stage.Flushing? ==> x.rpos == x.start && x.wpos == x.end)
    && (x.stage.Reading? ==> x.rpos < x.end == x.wpos)
    && (x.stage.Completing? || x.stage.Counting? ==> x.start < x.rpos && x.wpos == x.end)
  }

  ghost predicate RangeInv(claimed: nat, x: Worker) {
    LocalInv(x) && x.end <= claimed
  }

  predicate Apart(x: Worker, y: Worker) {
    x.start == x.end || y.start == y.end || x.end <= y.start || y.end <= x.start
  }

  /** How many indices have been handed out after `n` claims. */
  function Claimed(c: Config, n: nat): nat {
    Min(Depth(c) * n, c.total)
  }

  ghost predicate RangesInv(claimed: nat, ws: seq<Worker>) {
    && (forall w :: 0 <= w < |ws| ==> RangeInv(claimed, ws[w]))
    && (forall w, x :: 0 <= w < x < |ws| ==> Apart(ws[w], ws[x]))
  }

  /** The three kinds of progress on a claim: written, answered, counted. */
  datatype Kind = Write | Read | Count

  /** The part of its claim a worker still has ahead of it. */
  function Span(kind: Kind, x: Worker): (int, int) {
    match kind
    case Write => (x.wpos, x.end)
    case Read => (x.rpos, x.end)
    case Count => (Uncounted(x), x.end)
  }

  function Spans(kind: Kind, ws: seq<Worker>): (sp: seq<(int, int)>)
    ensures |sp| == |ws|
  {
    seq(|ws|, i requires 0 <= i < |ws| => Span(kind, ws[i]))
  }

  ghost predicate Covers(sp: seq<(int, int)>, i: int) {
    exists w :: 0 <= w < |sp| && sp[w].0 <= i < sp[w].1
  }

  /** `done` holds every claimed index from `low` on exactly once, except those still ahead of some
      worker, and nothing else. */
  ghost predicate Ledger(claimed: nat, low: nat, sp: seq<(int, int)>, done: multiset<nat>) {
    forall i: nat :: done[i] == if low <= i < claimed && !Covers(sp, i) then 1 else 0
  }

  /** The same as an upper bound: a worker that panics takes a settled verdict with it. */
  ghost predicate LedgerAtMost(claimed: nat, low: nat, sp: seq<(int, int)>, done: multiset<nat>) {
    forall i: nat :: done[i] <= if low <= i < claimed && !Covers(sp, i) then 1 else 0
  }

  /** Workers that have run into the end of the fixture. */
  function Spent(ws: seq<Worker>): nat {
    if ws == [] then 0
    else Spent(ws[..|ws| - 1]) + if ws[|ws| - 1].stage == Done(Exhausted) then 1 else 0
  }

  /** Samples recorded and already counted. */
  function Tallied(ws: seq<Worker>): int {
    if ws == [] then 0
    else Tallied(ws[..|ws| - 1]) + |ws[|ws| - 1].hist| - if ws[|ws| - 1].stage.Counting? then 1 else 0
  }

  ghost predicate CursorInv(c: Config, cursor: nat, n: nat, ws: seq<Worker>) {
    && cursor == CursorAt(c, n + Spent(ws))
    && n <= Rounds(c)
    && (Spent(ws) > 0 ==> n == Rounds(c))
  }

  /** The claims tile an initial stretch of the fixture, in order. */
  ghost predicate Tiles(c: Config, claims: seq<(nat, nat)>) {
    forall k :: 0 <= k < |claims| ==> claims[k] == (Claimed(c, k), Claimed(c, k + 1)) && claims[k].0 < claims[k].1
  }

  // ---------------------------------------------------------------------------------------------
  // Flags and times

  ghost predicate FlagsInv(f: Flags, clock: nat) {
    && (f.abort ==> f.firstError || f.spawnFailed)
    && (f.started ==> f.startTime.Some?)
    && f.startWrites == (if f.startTime.Some? then 1 else 0)
    && (f.startTime.Some? ==> f.startTime.value <= clock)
  }

  ghost predicate StageInv(f: Flags, warmup: nat, w: nat, x: Worker) {
    && (x.stage.Aborting? || x.stage == Done(Failed) ==> f.firstError)
    && (x.stage == Done(Aborted) ==> f.abort)
    && (Holding(x.stage) <==> f.holder == Some(w))
    && (x.stage.Setting? ==> f.startTime.None?)
    && (x.stage.Raising? || x.stage.Releasing? ==> f.startTime.Some?)
    && (x.stage.Writing? && x.wpos >= warmup ==> f.startTime.Some?)
    && (x.stage.Counting? ==> x.rpos > warmup)
    && (x.stage == Done(Panicked) ==> f.panicked)
  }

  /** A stamp for request `index` lies between the start time, if the request is measured, and now. */
  ghost predicate StampInv(start: Option<nat>, clock: nat, warmup: nat, index: nat, stamp: nat) {
    stamp <= clock && (index >= warmup ==> start.Some? && start.value <= stamp)
  }

  /** A sample was taken inside the window that ends with this worker's last completion. */
  ghost predicate SampleInv(start: Option<nat>, warmup: nat, last: Option<nat>, m: Sample, ns: nat) {
    && start.Some? && last.Some? && start.value <= m.started <= m.completed <= last.value
    && m.index >= warmup && ns == Nanos(m.started, m.completed)
  }

  ghost predicate StampsInv(start: Option<nat>, clock: nat, warmup: nat, first: nat, times: seq<nat>) {
    forall k :: 0 <= k < |times| ==> StampInv(start, clock, warmup, first + k, times[k])
  }

  ghost predicate LogInv(start: Option<nat>, clock: nat, warmup: nat, last: Option<nat>, log: seq<Sample>,
                         hist: seq<nat>) {
    && |log| == |hist|
    && (last.Some? <==> log != [])
    && (last.Some? ==> last.value <= clock)
    && forall k :: 0 <= k < |log| ==> SampleInv(start, warmup, last, log[k], hist[k])
  }

  /** Everything a worker stamps for a measured request lies between the start time and now. */
  ghost predicate TimesInv(start: Option<nat>, clock: nat, warmup: nat, x: Worker) {
    StampsInv(start, clock, warmup, x.start, x.times) && LogInv(start, clock, warmup, x.last, x.log, x.hist)
  }

  ghost predicate WorkerInv(f: Flags, clock: nat, warmup: nat, w: nat, x: Worker) {
    LocalInv(x) && StageInv(f, warmup, w, x) && TimesInv(f.startTime, clock, warmup, x)
  }

  ghost predicate WorkersInv(f: Flags, clock: nat, warmup: nat, ws: seq<Worker>) {
    forall w :: 0 <= w < |ws| ==> WorkerInv(f, clock, warmup, w, ws[w])
  }

  /** What holds of flags, progress and stamps whatever the configuration. */
  ghost predicate TimingInv(v: Bench) {
    FlagsInv(v.flags, v.clock) && WorkersInv(v.flags, v.clock, v.config.warmup, v.workers)
  }

  // ---------------------------------------------------------------------------------------------
  // Everything

  ghost predicate BooksInv(claimed: nat, ws: seq<Worker>, submitted: multiset<nat>, completed: multiset<nat>) {
    && RangesInv(claimed, ws)
    && Ledger(claimed, 0, Spans(Write, ws), submitted)
    && Ledger(claimed, 0, Spans(Read, ws), completed)
  }

  ghost predicate CountsInv(claimed: nat, warmup: nat, ws: seq<Worker>, counted: multiset<nat>, measured: int) {
    Ledger(claimed, warmup, Spans(Count, ws), counted) && measured == Tallied(ws) == |counted|
  }

  ghost predicate BenchInv(v: Bench) {
    var claimed := Claimed(v.config, |v.books.claims|);
    && Validate(v.config).Success? && Clear(v.config) && |v.workers| == v.config.workers
    && TimingInv(v)
    && BooksInv(claimed, v.workers, v.books.submitted, v.books.completed)
    && LedgerAtMost(claimed, v.config.warmup, Spans(Count, v.workers), v.books.counted)
    && (!v.flags.panicked ==> CountsInv(claimed, v.config.warmup, v.workers, v.books.counted, v.measured))
    && CursorInv(v.config, v.cursor, |v.books.claims|, v.workers)
    && Tiles(v.config, v.books.claims)
  }
}
