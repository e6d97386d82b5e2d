/** Flags, progress and timestamps of the benchmark driver, under any configuration and any schedule. */
module BenchTiming {

  import opened Machine
  import opened BenchRunner
  import opened BenchInvariants

  /** How the flags may change while worker `w` acts. */
  ghost predicate FlagsStep(f: Flags, f': Flags, w: nat) {
    && (f.abort ==> f'.abort) && (f.firstError ==> f'.firstError) && (f.panicked ==> f'.panicked)
    && (f'.startTime == f.startTime || (f.startTime.None? && f.holder == Some(w)))
    && (f'.holder == f.holder || (f.holder.None? && f'.holder == Some(w)) || (f.holder == Some(w) && f'.holder.None?))
  }

  lemma OtherStage(f: Flags, f': Flags, warmup: nat, w: nat, a: nat, y: Worker)
    requires FlagsStep(f, f', w) && a != w
    requires StageInv(f, warmup, a, y)
    ensures StageInv(f', warmup, a, y)
  {
  }

  lemma StampsStay(start: Option<nat>, start': Option<nat>, clock: nat, clock': nat, warmup: nat, first: nat,
                   times: seq<nat>)
    requires StampsInv(start, clock, warmup, first, times)
    requires (start' == start || start.None?) && clock <= clock'
    ensures StampsInv(start', clock', warmup, first, times)
  {
    forall k | 0 <= k < |times|
      ensures StampInv(start', clock', warmup, first + k, times[k])
    {
      assert StampInv(start, clock, warmup, first + k, times[k]);
    }
  }

  lemma LogStays(start: Option<nat>, start': Option<nat>, clock: nat, clock': nat, warmup: nat, last: Option<nat>,
                 log: seq<Sample>, hist: seq<nat>)
    requires LogInv(start, clock, warmup, last, log, hist)
    requires (start' == start || start.None?) && clock <= clock'
    ensures LogInv(start', clock', warmup, last, log, hist)
  {
    forall k | 0 <= k < |log|
      ensures SampleInv(start', warmup, last, log[k], hist[k])
    {
      assert SampleInv(start, warmup, last, log[k], hist[k]);
    }
  }

  /** Stamps stay good as the clock runs on and once the start time is set. */
  lemma TimesStay(start: Option<nat>, start': Option<nat>, clock: nat, clock': nat, warmup: nat, x: Worker, x': Worker)
    requires TimesInv(start, clock, warmup, x)
    requires x'.times == x.times && x'.start == x.start && x'.log == x.log && x'.hist == x.hist && x'.last == x.last
    requires start' == start || start.None?
    requires clock <= clock'
    ensures TimesInv(start', clock', warmup, x')
  {
    StampsStay(start, start', clock, clock', warmup, x.start, x.times);
    LogStays(start, start', clock, clock', warmup, x.last, x.log, x.hist);
  }

  lemma WorkersPut(f: Flags, f': Flags, clock: nat, warmup: nat, ws: seq<Worker>, w: nat, x: Worker)
    requires WorkersInv(f, clock, warmup, ws)
    requires w < |ws| && FlagsStep(f, f', w) && WorkerInv(f', clock, warmup, w, x)
    ensures WorkersInv(f', clock, warmup, ws[w := x])
  {
    forall a | 0 <= a < |ws| && a != w
      ensures WorkerInv(f', clock, warmup, a, ws[a])
    {
      assert WorkerInv(f, clock, warmup, a, ws[a]);
      OtherStage(f, f', warmup, w, a, ws[a]);
      TimesStay(f.startTime, f'.startTime, clock, clock, warmup, ws[a], ws[a]);
    }
  }

  lemma WorkerAt(v: Bench, w: nat)
    requires TimingInv(v) && w < |v.workers|
    ensures WorkerInv(v.flags, v.clock, v.config.warmup, w, v.workers[w])
  {
  }

  // ---------------------------------------------------------------------------------------------
  // One worker moves

  lemma MoveLocal(f: Flags, clock: nat, warmup: nat, w: nat, x: Worker)
    requires Moves(x.stage) && LocalInv(x)
    ensures var s := Move(f, clock, warmup, w, x).0;
            LocalInv(x.(stage := s)) && !s.Completing? && !s.Counting? && s != Done(Exhausted)
  {
  }

  lemma MoveFlags(f: Flags, clock: nat, warmup: nat, w: nat, x: Worker)
    requires FlagsInv(f, clock) && StageInv(f, warmup, w, x)
    requires Moves(x.stage) && (x.stage.Locking? ==> f.holder.None?)
    ensures var (s, f') := Move(f, clock, warmup, w, x);
            FlagsStep(f, f', w) && FlagsInv(f', clock) && f'.panicked == f.panicked
  {
  }

  lemma MoveStage(f: Flags, clock: nat, warmup: nat, w: nat, x: Worker)
    requires FlagsInv(f, clock) && StageInv(f, warmup, w, x)
    requires Moves(x.stage)
    ensures var (s, f') := Move(f, clock, warmup, w, x);
            StageInv(f', warmup, w, x.(stage := s))
  {
  }

  lemma MoveTimed(v: Bench, w: nat)
    requires TimingInv(v)
    requires w < |v.workers| && Moves(v.workers[w].stage) && Enabled(v, Work(w))
    ensures TimingInv(WorkStep(v, w))
  {
    var y := v.workers[w];
    var (s, f') := Move(v.flags, v.clock, v.config.warmup, w, y);
    var x := y.(stage := s);
    WorkerAt(v, w);
    MoveLocal(v.flags, v.clock, v.config.warmup, w, y);
    MoveFlags(v.flags, v.clock, v.config.warmup, w, y);
    MoveStage(v.flags, v.clock, v.config.warmup, w, y);
    TimesStay(v.flags.startTime, f'.startTime, v.clock, v.clock, v.config.warmup, y, x);
    WorkersPut(v.flags, f', v.clock, v.config.warmup, v.workers, w, x);
  }

  /** A step that changes worker `w` but no flag. */
  lemma PutTimed(v: Bench, v': Bench, w: nat, x: Worker)
    requires TimingInv(v) && w < |v.workers|
    requires v'.workers == v.workers[w := x] && v'.flags == v.flags && v'.clock == v.clock && v'.config == v.config
    requires WorkerInv(v.flags, v.clock, v.config.warmup, w, x)
    ensures TimingInv(v')
  {
    WorkersPut(v.flags, v.flags, v.clock, v.config.warmup, v.workers, w, x);
  }

  lemma ClaimTimes(f: Flags, clock: nat, warmup: nat, w: nat, y: Worker, x: Worker)
    requires WorkerInv(f, clock, warmup, w, y) && y.stage.Claim?
    requires x.start == x.wpos == x.rpos <= x.end && x.times == []
    requires x.log == y.log && x.hist == y.hist && x.last == y.last
    requires x.stage == if x.start < x.end then Gate else Flushing
    ensures WorkerInv(f, clock, warmup, w, x)
  {
  }

  /** Whatever the cursor shows, wrapped or not. */
  lemma ClaimTimed(v: Bench, w: nat)
    requires TimingInv(v)
    requires w < |v.workers| && v.workers[w].stage.Claim?
    ensures TimingInv(WorkStep(v, w))
  {
    var y := v.workers[w];
    var x := WorkStep(v, w).workers[w];
    WorkerAt(v, w);
    if v.cursor >= v.config.total {
      TimesStay(v.flags.startTime, v.flags.startTime, v.clock, v.clock, v.config.warmup, y, x);
    } else {
      ClaimTimes(v.flags, v.clock, v.config.warmup, w, y, x);
    }
    PutTimed(v, WorkStep(v, w), w, x);
  }

  lemma StampKeeps(start: Option<nat>, clock: nat, warmup: nat, y: Worker, x: Worker)
    requires TimesInv(start, clock, warmup, y)
    requires y.start <= y.wpos && |y.times| == y.wpos - y.start
    requires y.wpos >= warmup ==> start.Some? && start.value <= clock
    requires x.start == y.start && x.times == y.times + [clock]
    requires x.hist == y.hist && x.log == y.log && x.last == y.last
    ensures TimesInv(start, clock, warmup, x)
  {
    forall k | 0 <= k < |x.times|
      ensures StampInv(start, clock, warmup, x.start + k, x.times[k])
    {
      if k < |y.times| {
        assert x.times[k] == y.times[k];
        assert StampInv(start, clock, warmup, y.start + k, y.times[k]);
      }
    }
  }

  lemma WriteTimed(v: Bench, w: nat)
    requires TimingInv(v)
    requires w < |v.workers| && v.workers[w].stage.Writing?
    ensures TimingInv(WorkStep(v, w))
  {
    var y := v.workers[w];
    var x := WorkStep(v, w).workers[w];
    WorkerAt(v, w);
    StampKeeps(v.flags.startTime, v.clock, v.config.warmup, y, x);
    PutTimed(v, WorkStep(v, w), w, x);
  }

  lemma ReadTimed(v: Bench, w: nat)
    requires TimingInv(v)
    requires w < |v.workers| && v.workers[w].stage.Reading?
    ensures TimingInv(WorkStep(v, w))
  {
    var y := v.workers[w];
    var x := y.(stage := Completing, rpos := y.rpos + 1);
    WorkerAt(v, w);
    TimesStay(v.flags.startTime, v.flags.startTime, v.clock, v.clock, v.config.warmup, y, x);
    PutTimed(v, WorkStep(v, w), w, x);
  }

  lemma SampleKeeps(start: Option<nat>, clock: nat, warmup: nat, y: Worker, x: Worker)
    requires TimesInv(start, clock, warmup, y)
    requires y.start < y.rpos <= y.start + |y.times| && y.rpos > warmup
    requires var began := y.times[y.rpos - 1 - y.start];
      && x.start == y.start && x.times == y.times
      && x.hist == y.hist + [Nanos(began, clock)]
      && x.log == y.log + [Sample(y.rpos - 1, began, clock)]
      && x.last == Some(clock)
    ensures TimesInv(start, clock, warmup, x)
  {
    var began := y.times[y.rpos - 1 - y.start];
    assert StampInv(start, clock, warmup, y.start + (y.rpos - 1 - y.start), began);
    forall k | 0 <= k < |x.log|
      ensures SampleInv(start, warmup, x.last, x.log[k], x.hist[k])
    {
      if k < |y.log| {
        assert x.log[k] == y.log[k] && x.hist[k] == y.hist[k];
        assert SampleInv(start, warmup, y.last, y.log[k], y.hist[k]);
      }
    }
  }

  lemma RecordTimed(v: Bench, w: nat)
    requires TimingInv(v)
    requires w < |v.workers| && v.workers[w].stage.Completing? && v.workers[w].rpos > v.config.warmup
    ensures TimingInv(WorkStep(v, w))
  {
    var y := v.workers[w];
    var x := WorkStep(v, w).workers[w];
    WorkerAt(v, w);
    SampleKeeps(v.flags.startTime, v.clock, v.config.warmup, y, x);
    PutTimed(v, WorkStep(v, w), w, x);
  }

  lemma VerdictTimes(f: Flags, clock: nat, warmup: nat, w: nat, y: Worker)
    requires WorkerInv(f, clock, warmup, w, y)
    requires y.stage.Completing? || y.stage.Counting?
    ensures WorkerInv(f, clock, warmup, w, NextVerdict(y))
  {
    TimesStay(f.startTime, f.startTime, clock, clock, warmup, y, NextVerdict(y));
  }

  lemma VerdictTimed(v: Bench, w: nat)
    requires TimingInv(v) && w < |v.workers|
    requires var x := v.workers[w]; x.stage.Counting? || (x.stage.Completing? && x.rpos <= v.config.warmup)
    ensures TimingInv(WorkStep(v, w))
  {
    WorkerAt(v, w);
    VerdictTimes(v.flags, v.clock, v.config.warmup, w, v.workers[w]);
    PutTimed(v, WorkStep(v, w), w, NextVerdict(v.workers[w]));
  }

  lemma WorkTimed(v: Bench, w: nat)
    requires TimingInv(v) && Enabled(v, Work(w))
    ensures TimingInv(WorkStep(v, w))
  {
    var s := v.workers[w].stage;
    if Moves(s) {
      MoveTimed(v, w);
    } else if s.Claim? {
      ClaimTimed(v, w);
    } else if s.Writing? {
      WriteTimed(v, w);
    } else if s.Reading? {
      ReadTimed(v, w);
    } else if s.Completing? && v.workers[w].rpos > v.config.warmup {
      RecordTimed(v, w);
    } else {
      VerdictTimed(v, w);
    }
  }

  // ---------------------------------------------------------------------------------------------
  // Failures, panics, the clock

  lemma FailTimed(v: Bench, w: nat)
    requires TimingInv(v) && Enabled(v, Fail(w))
    ensures TimingInv(Next(v, Fail(w)))
  {
    var y := v.workers[w];
    var x := y.(stage := Failing);
    WorkerAt(v, w);
    TimesStay(v.flags.startTime, v.flags.startTime, v.clock, v.clock, v.config.warmup, y, x);
    PutTimed(v, Next(v, Fail(w)), w, x);
  }

  lemma PanicTimed(v: Bench, w: nat)
    requires TimingInv(v) && Enabled(v, Panic(w))
    ensures TimingInv(Next(v, Panic(w)))
  {
    var y := v.workers[w];
    var x := y.(stage := Done(Panicked));
    var f' := PanicFlags(v.flags, w);
    WorkerAt(v, w);
    TimesStay(v.flags.startTime, v.flags.startTime, v.clock, v.clock, v.config.warmup, y, x);
    WorkersPut(v.flags, f', v.clock, v.config.warmup, v.workers, w, x);
  }

  lemma TickTimed(v: Bench, elapsed: nat)
    requires TimingInv(v)
    ensures TimingInv(Next(v, Tick(elapsed)))
  {
    var c := v.clock + elapsed;
    forall w | 0 <= w < |v.workers|
      ensures WorkerInv(v.flags, c, v.config.warmup, w, v.workers[w])
    {
      WorkerAt(v, w);
      TimesStay(v.flags.startTime, v.flags.startTime, v.clock, c, v.config.warmup, v.workers[w], v.workers[w]);
    }
  }

  lemma SpawnFailTimed(v: Bench)
    requires TimingInv(v)
    ensures TimingInv(Next(v, SpawnFail))
  {
    var f' := v.flags.(spawnFailed := true, abort := true);
    forall w | 0 <= w < |v.workers|
      ensures WorkerInv(f', v.clock, v.config.warmup, w, v.workers[w])
    {
      WorkerAt(v, w);
    }
  }

  // ---------------------------------------------------------------------------------------------
  // Every run

  lemma NextTimed(v: Bench, step: Step)
    requires TimingInv(v) && Enabled(v, step)
    ensures TimingInv(Next(v, step))
  {
    match step
    case Tick(elapsed) => TickTimed(v, elapsed);
    case Work(w) => WorkTimed(v, w);
    case Fail(w) => FailTimed(v, w);
    case Panic(w) => PanicTimed(v, w);
    case SpawnFail => SpawnFailTimed(v);
  }

  lemma NextConfig(v: Bench, step: Step)
    requires Enabled(v, step)
    ensures Next(v, step).config == v.config && |Next(v, step).workers| == |v.workers|
  {
  }

  lemma FreshIsEmpty(x: Worker)
    requires x == Fresh()
    ensures x.stage.Connecting? && x.start == x.end == x.wpos == x.rpos == 0
    ensures x.times == [] && x.log == [] && x.hist == [] && x.last.None?
  {
  }

  lemma EmptyTimes(f: Flags, warmup: nat, w: nat, x: Worker)
    requires f.holder.None?
    requires x.stage.Connecting? && x.start == x.end == x.wpos == x.rpos
    requires x.times == [] && x.log == [] && x.hist == [] && x.last.None?
    ensures WorkerInv(f, 0, warmup, w, x)
  {
  }

  lemma StartTimed(config: Config)
    ensures TimingInv(Start(config))
  {
    var v := Start(config);
    forall w | 0 <= w < |v.workers|
      ensures WorkerInv(v.flags, 0, config.warmup, w, v.workers[w])
    {
      FreshIsEmpty(v.workers[w]);
      EmptyTimes(v.flags, config.warmup, w, v.workers[w]);
    }
  }

  /** Every schedule of every configuration keeps flags, progress and stamps in order. */
  lemma {:induction false} RunTimed(config: Config, steps: seq<Step>)
    requires Run(config, steps).Some?
    ensures TimingInv(Run(config, steps).value)
    ensures Run(config, steps).value.config == config
  {
    if steps == [] {
      StartTimed(config);
    } else {
      var before := Run(config, steps[..|steps| - 1]).value;
      RunTimed(config, steps[..|steps| - 1]);
      NextTimed(before, steps[|steps| - 1]);
      NextConfig(before, steps[|steps| - 1]);
    }
  }
}
