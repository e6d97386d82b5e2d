/** What the benchmark driver promises of every schedule. */
module BenchTheorems {

  import opened Machine
  import opened BenchRunner
  import opened BenchInvariants
  import opened BenchTiming
  import opened BenchProofs
  import Histograms

  ghost predicate Reachable(config: Config, v: Bench) {
    exists steps :: Run(config, steps) == Some(v)
  }

  lemma ReachableInv(config: Config, v: Bench)
    requires Validate(config).Success? && Clear(config) && Reachable(config, v)
    ensures BenchInv(v) && v.config == config
  {
    var steps :| Run(config, steps) == Some(v);
    RunKeeps(config, steps);
  }

  lemma ReachableTimed(config: Config, v: Bench)
    requires Reachable(config, v)
    ensures TimingInv(v) && v.config == config
  {
    var steps :| Run(config, steps) == Some(v);
    RunTimed(config, steps);
  }

  /** What `run` refuses to start: no workers at all, or a warm-up that leaves nothing to measure. */
  lemma RefusesToStartIff(config: Config)
    ensures config.workers == 0 ==> Validate(config) == Failure(NoWorkers)
    ensures config.workers > 0 && config.warmup >= config.total ==>
      Validate(config) == Failure(WarmupExceedsFixture(config.warmup, config.total))
    ensures config.workers > 0 && config.warmup < config.total ==> Validate(config).Success?
  {
  }

  // ---------------------------------------------------------------------------------------------
  // Nothing is done twice

  lemma CoversMore(ws: seq<Worker>, claimed: nat, i: int)
    requires RangesInv(claimed, ws)
    ensures Covers(Spans(Write, ws), i) ==> Covers(Spans(Read, ws), i)
    ensures Covers(Spans(Read, ws), i) ==> Covers(Spans(Count, ws), i)
  {
    if Covers(Spans(Write, ws), i) {
      var w :| 0 <= w < |ws| && Spans(Write, ws)[w].0 <= i < Spans(Write, ws)[w].1;
      assert RangeInv(claimed, ws[w]);
      assert Spans(Read, ws)[w].0 <= i < Spans(Read, ws)[w].1;
    }
    if Covers(Spans(Read, ws), i) {
      var w :| 0 <= w < |ws| && Spans(Read, ws)[w].0 <= i < Spans(Read, ws)[w].1;
      assert RangeInv(claimed, ws[w]);
      assert Spans(Count, ws)[w].0 <= i < Spans(Count, ws)[w].1;
    }
  }

  /** At every moment of every run, with failing and panicking workers, the claims handed out tile an
      initial stretch of the fixture; each index has been sent at most once, answered only if it was sent,
      and counted only if it was answered and lies past the warm-up. */
  lemma NothingTwice(config: Config, v: Bench, i: nat)
    requires Validate(config).Success? && Clear(config) && Reachable(config, v)
    ensures Tiles(config, v.books.claims)
    ensures v.books.completed[i] <= v.books.submitted[i] <= 1
    ensures i >= Claimed(config, |v.books.claims|) ==> v.books.submitted[i] == 0
    ensures v.books.counted[i] <= v.books.completed[i]
    ensures i < config.warmup ==> v.books.counted[i] == 0
  {
    ReachableInv(config, v);
    CoversMore(v.workers, Claimed(config, |v.books.claims|), i);
  }

  // ---------------------------------------------------------------------------------------------
  // A run that succeeds

  lemma {:induction false} AllSpent(ws: seq<Worker>)
    requires forall w :: 0 <= w < |ws| ==> ws[w].stage == Done(Exhausted)
    ensures Spent(ws) == |ws|
  {
    if ws != [] {
      AllSpent(ws[..|ws| - 1]);
    }
  }

  lemma DoneIsExhausted(f: Flags, clock: nat, warmup: nat, w: nat, x: Worker)
    requires FlagsInv(f, clock) && StageInv(f, warmup, w, x)
    requires !f.spawnFailed && !f.firstError && !f.panicked && x.stage.Done?
    ensures x.stage == Done(Exhausted)
  {
    match x.stage.exit
    case Exhausted =>
    case Aborted =>
    case Failed =>
    case Panicked =>
  }

  /** Workers of a successful run all ran into the end of the fixture, which was handed out whole. */
  lemma SucceededIsExhausted(v: Bench)
    requires BenchInv(v) && Succeeded(v)
    ensures forall w :: 0 <= w < |v.workers| ==> v.workers[w].stage == Done(Exhausted)
    ensures Claimed(v.config, |v.books.claims|) == v.config.total
  {
    forall w | 0 <= w < |v.workers|
      ensures v.workers[w].stage == Done(Exhausted)
    {
      At(v, w);
      DoneIsExhausted(v.flags, v.clock, v.config.warmup, w, v.workers[w]);
    }
    AllSpent(v.workers);
    ClaimedInside(v.config, |v.books.claims|);
  }

  lemma NothingAhead(ws: seq<Worker>, claimed: nat, kind: Kind, i: int)
    requires RangesInv(claimed, ws)
    requires forall w :: 0 <= w < |ws| ==> ws[w].stage == Done(Exhausted)
    ensures !Covers(Spans(kind, ws), i)
  {
    forall w | 0 <= w < |ws|
      ensures Spans(kind, ws)[w].0 == Spans(kind, ws)[w].1
    {
      assert RangeInv(claimed, ws[w]);
    }
  }

  /** When `run` succeeds, every transfer of the fixture was sent exactly once and answered exactly once,
      and exactly those past the warm-up were counted. */
  lemma EverythingOnce(config: Config, v: Bench, i: nat)
    requires Validate(config).Success? && Clear(config) && Reachable(config, v)
    requires Succeeded(v)
    ensures v.books.submitted[i] == v.books.completed[i] == (if i < config.total then 1 else 0)
    ensures v.books.counted[i] == (if config.warmup <= i < config.total then 1 else 0)
  {
    ReachableInv(config, v);
    SucceededIsExhausted(v);
    NothingAhead(v.workers, config.total, Write, i);
    NothingAhead(v.workers, config.total, Read, i);
    NothingAhead(v.workers, config.total, Count, i);
  }

  lemma {:induction false} IntervalSize(ms: multiset<nat>, lo: nat, hi: nat)
    requires lo <= hi
    requires forall i: nat :: ms[i] == if lo <= i < hi then 1 else 0
    ensures |ms| == hi - lo
    decreases hi - lo
  {
    if lo == hi {
      assert ms == multiset{};
    } else {
      var rest := ms - multiset{hi - 1};
      IntervalSize(rest, lo, hi - 1);
      assert ms == rest + multiset{hi - 1};
    }
  }

  lemma {:induction false} TalliedIsMerged(ws: seq<Worker>)
    requires forall w :: 0 <= w < |ws| ==> !ws[w].stage.Counting?
    ensures Tallied(ws) == |Merged(ws)|
  {
    if ws != [] {
      TalliedIsMerged(ws[..|ws| - 1]);
    }
  }

  /** When `run` succeeds, the counter and the merged histogram both hold one entry for each transfer past
      the warm-up. */
  lemma CountsAgree(config: Config, v: Bench)
    requires Validate(config).Success? && Clear(config) && Reachable(config, v)
    requires Succeeded(v)
    ensures v.measured == |Merged(v.workers)| == config.total - config.warmup
  {
    ReachableInv(config, v);
    SucceededIsExhausted(v);
    forall i: nat
      ensures v.books.counted[i] == if config.warmup <= i < config.total then 1 else 0
    {
      EverythingOnce(config, v, i);
    }
    IntervalSize(v.books.counted, config.warmup, config.total);
    TalliedIsMerged(v.workers);
  }

  // ---------------------------------------------------------------------------------------------
  // Times

  lemma {:induction false} LatestBounds(ws: seq<Worker>, w: nat)
    requires w < |ws| && ws[w].last.Some?
    ensures Latest(ws).Some? && ws[w].last.value <= Latest(ws).value
  {
    if w < |ws| - 1 {
      LatestBounds(ws[..|ws| - 1], w);
    }
  }

  lemma {:induction false} MergedFrom(ws: seq<Worker>, k: nat) returns (w: nat, j: nat)
    requires k < |Merged(ws)|
    ensures w < |ws| && j < |ws[w].hist| && ws[w].hist[j] == Merged(ws)[k]
  {
    var front := ws[..|ws| - 1];
    if k < |Merged(front)| {
      w, j := MergedFrom(front, k);
    } else {
      w, j := |ws| - 1, k - |Merged(front)|;
    }
  }

  /** The merged histogram is the workers' histograms one after the other. */
  lemma {:induction false} MergedHolds(ws: seq<Worker>, w: nat)
    requires w < |ws|
    ensures var o := |Merged(ws[..w])|;
      && |Merged(ws[..w + 1])| == o + |ws[w].hist| <= |Merged(ws)|
      && Merged(ws)[o..o + |ws[w].hist|] == ws[w].hist
  {
    var front := ws[..|ws| - 1];
    assert ws[..w + 1][..w] == ws[..w];
    if w < |front| {
      MergedHolds(front, w);
      assert front[..w] == ws[..w] && front[..w + 1] == ws[..w + 1];
    } else {
      assert ws[..w] == front && ws[..w + 1] == ws;
    }
  }

  /** Every sample taken in any run, whatever the configuration, began no earlier than the one start
      timestamp and ended no later than the measurement end. */
  lemma SamplesInsideWindow(config: Config, v: Bench, w: nat, j: nat)
    requires Reachable(config, v)
    requires w < |v.workers| && j < |v.workers[w].log|
    ensures v.flags.startTime.Some? && Latest(v.workers).Some?
    ensures var m := v.workers[w].log[j];
      v.flags.startTime.value <= m.started <= m.completed <= Latest(v.workers).value && m.index >= config.warmup
  {
    ReachableTimed(config, v);
    WorkerAt(v, w);
    var x := v.workers[w];
    assert SampleInv(v.flags.startTime, config.warmup, x.last, x.log[j], x.hist[j]);
    LatestBounds(v.workers, w);
  }

  /** So a recorded latency never exceeds the wall-clock time of the run. */
  lemma LatencyBelowElapsed(config: Config, v: Bench, k: nat)
    requires Reachable(config, v)
    requires k < |Merged(v.workers)|
    ensures Merged(v.workers)[k] <= Elapsed(v.flags.startTime, Latest(v.workers))
  {
    ReachableTimed(config, v);
    var w, j := MergedFrom(v.workers, k);
    WorkerAt(v, w);
    var x := v.workers[w];
    assert SampleInv(v.flags.startTime, config.warmup, x.last, x.log[j], x.hist[j]);
    SamplesInsideWindow(config, v, w, j);
  }

  /** The summary of a successful run is over exactly the transfers past the warm-up, and even its
      largest latency fits in the reported wall-clock time. */
  lemma SummaryFitsRun(config: Config, v: Bench, r: Histograms.Summary)
    requires Validate(config).Success? && Clear(config) && Reachable(config, v)
    requires Succeeded(v) && Histograms.Summarises(r, Merged(v.workers))
    ensures r.count == config.total - config.warmup
    ensures r.max <= Elapsed(v.flags.startTime, Latest(v.workers))
  {
    CountsAgree(config, v);
    var merged := Merged(v.workers);
    var k :| 0 <= k < |merged| && merged[k] == r.max;
    LatencyBelowElapsed(config, v, k);
  }

  /** The start timestamp is written at most once in any run, whatever the configuration. */
  lemma StartWrittenOnce(config: Config, v: Bench)
    requires Reachable(config, v)
    ensures v.flags.startWrites == (if v.flags.startTime.Some? then 1 else 0)
    ensures Merged(v.workers) != [] ==> v.flags.startWrites == 1
  {
    ReachableTimed(config, v);
    assert FlagsInv(v.flags, v.clock);
    if Merged(v.workers) != [] {
      var w, j := MergedFrom(v.workers, 0);
      WorkerAt(v, w);
      SamplesInsideWindow(config, v, w, j);
    }
  }

  /** And exactly once in a run that succeeds. */
  lemma StartWrittenOnSuccess(config: Config, v: Bench)
    requires Validate(config).Success? && Clear(config) && Reachable(config, v)
    requires Succeeded(v)
    ensures v.flags.startWrites == 1
  {
    CountsAgree(config, v);
    StartWrittenOnce(config, v);
  }
}
