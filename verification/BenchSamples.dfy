/** What a latency sample of the benchmark measures, when its clock starts, and how a run stops: each is
    traced to the steps of the run, under any configuration and any schedule. */
module BenchSamples {

  import opened Machine
  import opened BenchRunner
  import opened BenchInvariants
  import opened BenchTiming
  import opened BenchTheorems

  /** The last step of a run and the state it was taken in. */
  lemma Unsnoc(config: Config, steps: seq<Step>, v: Bench) returns (front: seq<Step>, step: Step, before: Bench)
    requires steps != [] && Run(config, steps) == Some(v)
    ensures steps == front + [step] && |front| == |steps| - 1 && Run(config, front) == Some(before)
    ensures Enabled(before, step) && v == Next(before, step)
  {
    front, step := steps[..|steps| - 1], steps[|steps| - 1];
    before := Run(config, front).value;
    assert steps == front + [step];
  }

  // ---------------------------------------------------------------------------------------------
  // What a sample measures

  /** At step `i` worker `w` stamps and writes request `index`, and the clock shows `t`. */
  ghost predicate WrittenAt(config: Config, steps: seq<Step>, w: nat, i: nat, index: int, t: nat) {
    && i < |steps| && steps[i] == Work(w) && Run(config, steps[..i]).Some?
    && var v := Run(config, steps[..i]).value;
       w < |v.workers| && v.workers[w].stage.Writing? && v.workers[w].wpos == index && v.clock == t
  }

  /** At step `k` worker `w`, holding the verdict on request `index`, stamps it, and the clock shows `t`. */
  ghost predicate AnsweredAt(config: Config, steps: seq<Step>, w: nat, k: nat, index: int, t: nat) {
    && k < |steps| && steps[k] == Work(w) && Run(config, steps[..k]).Some?
    && var v := Run(config, steps[..k]).value;
       w < |v.workers| && v.workers[w].stage.Completing? && v.workers[w].rpos - 1 == index && v.clock == t
  }

  lemma WrittenStays(config: Config, front: seq<Step>, step: Step, w: nat, i: nat, index: int, t: nat)
    requires WrittenAt(config, front, w, i, index, t)
    ensures WrittenAt(config, front + [step], w, i, index, t)
  {
    assert (front + [step])[..i] == front[..i];
  }

  lemma AnsweredStays(config: Config, front: seq<Step>, step: Step, w: nat, k: nat, index: int, t: nat)
    requires AnsweredAt(config, front, w, k, index, t)
    ensures AnsweredAt(config, front + [step], w, k, index, t)
  {
    assert (front + [step])[..k] == front[..k];
  }

  lemma WrittenNow(config: Config, front: seq<Step>, v: Bench, w: nat)
    requires Run(config, front) == Some(v) && w < |v.workers| && v.workers[w].stage.Writing?
    ensures WrittenAt(config, front + [Work(w)], w, |front|, v.workers[w].wpos, v.clock)
  {
    assert (front + [Work(w)])[..|front|] == front;
  }

  lemma AnsweredNow(config: Config, front: seq<Step>, v: Bench, w: nat)
    requires Run(config, front) == Some(v) && w < |v.workers| && v.workers[w].stage.Completing?
    ensures AnsweredAt(config, front + [Work(w)], w, |front|, v.workers[w].rpos - 1, v.clock)
  {
    assert (front + [Work(w)])[..|front|] == front;
  }

  /** What a step does to the stamps and the log of worker `w`. */
  datatype Note = Nothing | NewClaim | Stamp | Record

  ghost predicate Noted(v: Bench, step: Step, w: nat, x: Worker, x': Worker, note: Note) {
    match note
    case Nothing => x'.times == x.times && x'.start == x.start && x'.log == x.log
    case NewClaim => x'.times == [] && x'.log == x.log
    case Stamp =>
      && step == Work(w) && x.stage.Writing? && x.wpos == x.start + |x.times|
      && x'.times == x.times + [v.clock] && x'.start == x.start && x'.log == x.log
    case Record =>
      && step == Work(w) && x.stage.Completing? && x.start < x.rpos && x.rpos - 1 - x.start < |x.times|
      && x'.times == x.times && x'.start == x.start
      && x'.log == x.log + [Sample(x.start + (x.rpos - 1 - x.start), x.times[x.rpos - 1 - x.start], v.clock)]
  }

  lemma NextNotes(v: Bench, step: Step, w: nat) returns (note: Note)
    requires Enabled(v, step) && w < |v.workers| && LocalInv(v.workers[w])
    ensures w < |Next(v, step).workers| && Noted(v, step, w, v.workers[w], Next(v, step).workers[w], note)
  {
    var x := v.workers[w];
    note :=
      if step != Work(w) then Nothing
      else if x.stage.Claim? && v.cursor < v.config.total then NewClaim
      else if x.stage.Writing? then Stamp
      else if x.stage.Completing? && x.rpos - 1 >= v.config.warmup then Record
      else Nothing;
  }

  /** Every stamp of the current claim was taken when its request was written. */
  lemma {:induction false} StampIsTrue(config: Config, steps: seq<Step>, v: Bench, w: nat, t: nat) returns (i: nat)
    requires Run(config, steps) == Some(v) && w < |v.workers| && t < |v.workers[w].times|
    ensures WrittenAt(config, steps, w, i, v.workers[w].start + t, v.workers[w].times[t])
  {
    var front, step, before := Unsnoc(config, steps, v);
    SameWorkers(before, step);
    RunTimed(config, front);
    WorkerAt(before, w);
    var note := NextNotes(before, step, w);
    var x := before.workers[w];
    if t < |x.times| {
      i := StampIsTrue(config, front, before, w, t);
      WrittenStays(config, front, step, w, i, x.start + t, x.times[t]);
    } else {
      i := |front|;
      WrittenNow(config, front, before, w);
    }
  }

  lemma {:induction false} SampleIsTrue(config: Config, steps: seq<Step>, v: Bench, w: nat, j: nat)
      returns (i: nat, k: nat)
    requires Run(config, steps) == Some(v) && w < |v.workers| && j < |v.workers[w].log|
    ensures i < k
    ensures WrittenAt(config, steps, w, i, v.workers[w].log[j].index, v.workers[w].log[j].started)
    ensures AnsweredAt(config, steps, w, k, v.workers[w].log[j].index, v.workers[w].log[j].completed)
  {
    var front, step, before := Unsnoc(config, steps, v);
    SameWorkers(before, step);
    RunTimed(config, front);
    WorkerAt(before, w);
    var note := NextNotes(before, step, w);
    var x, m := before.workers[w], v.workers[w].log[j];
    if j < |x.log| {
      i, k := SampleIsTrue(config, front, before, w, j);
      WrittenStays(config, front, step, w, i, m.index, m.started);
      AnsweredStays(config, front, step, w, k, m.index, m.completed);
    } else {
      k := |front|;
      i := StampIsTrue(config, front, before, w, x.rpos - 1 - x.start);
      WrittenStays(config, front, step, w, i, m.index, m.started);
      AnsweredNow(config, front, before, w);
    }
  }

  lemma SameWorkers(v: Bench, step: Step)
    requires Enabled(v, step)
    ensures |Next(v, step).workers| == |v.workers|
  {
  }

  /** For every run, every worker and every sample: the request was written at an earlier step and its
      verdict stamped at a later one, by that worker, and the recorded latency is the time between the
      two, in nanoseconds held down to a u64. */
  lemma SampleIsRoundTrip(config: Config, steps: seq<Step>, v: Bench, w: nat, j: nat) returns (i: nat, k: nat)
    requires Run(config, steps) == Some(v) && w < |v.workers| && j < |v.workers[w].log|
    ensures i < k
    ensures WrittenAt(config, steps, w, i, v.workers[w].log[j].index, v.workers[w].log[j].started)
    ensures AnsweredAt(config, steps, w, k, v.workers[w].log[j].index, v.workers[w].log[j].completed)
    ensures |v.workers[w].hist| == |v.workers[w].log|
    ensures var m := v.workers[w].log[j];
      && m.started <= m.completed
      && v.workers[w].hist[j] ==
           if m.completed - m.started > 0xFFFF_FFFF_FFFF_FFFF then 0xFFFF_FFFF_FFFF_FFFF else m.completed - m.started
  {
    i, k := SampleIsTrue(config, steps, v, w, j);
    RunTimed(config, steps);
    WorkerAt(v, w);
    var x := v.workers[w];
    assert SampleInv(v.flags.startTime, config.warmup, x.last, x.log[j], x.hist[j]);
  }

  // ---------------------------------------------------------------------------------------------
  // When the measurement starts

  /** Only a worker with a measured request in hand goes for the start time. */
  ghost predicate GateInv(warmup: nat, x: Worker) {
    x.stage.Locking? || Holding(x.stage) ==> x.wpos >= warmup
  }

  /** Until the start time is taken, no measured request has been written. */
  ghost predicate UnstartedInv(v: Bench) {
    v.flags.startTime.None? ==> forall index: nat :: index >= v.config.warmup ==> v.books.submitted[index] == 0
  }

  lemma MoveGates(f: Flags, clock: nat, warmup: nat, w: nat, x: Worker)
    requires Moves(x.stage) && GateInv(warmup, x)
    ensures GateInv(warmup, x.(stage := Move(f, clock, warmup, w, x).0))
  {
  }

  lemma NextGates(v: Bench, step: Step, w: nat)
    requires Enabled(v, step) && w < |v.workers| && GateInv(v.config.warmup, v.workers[w])
    ensures Next(v, step).config == v.config
    ensures w < |Next(v, step).workers| && GateInv(v.config.warmup, Next(v, step).workers[w])
  {
    if step == Work(w) && Moves(v.workers[w].stage) {
      MoveGates(v.flags, v.clock, v.config.warmup, w, v.workers[w]);
    }
  }

  lemma NextUnstarted(v: Bench, step: Step)
    requires Enabled(v, step) && TimingInv(v) && UnstartedInv(v)
    ensures UnstartedInv(Next(v, step))
  {
    if step.Work? {
      WorkerAt(v, step.w);
    }
  }

  lemma {:induction false} RunGates(config: Config, steps: seq<Step>, v: Bench, w: nat)
    requires Run(config, steps) == Some(v) && w < |v.workers|
    ensures GateInv(config.warmup, v.workers[w])
  {
    if steps != [] {
      var front, step, before := Unsnoc(config, steps, v);
      SameWorkers(before, step);
      RunTimed(config, front);
      RunGates(config, front, before, w);
      NextGates(before, step, w);
    }
  }

  lemma {:induction false} RunUnstarted(config: Config, steps: seq<Step>, v: Bench)
    requires Run(config, steps) == Some(v)
    ensures UnstartedInv(v)
  {
    if steps != [] {
      var front, step, before := Unsnoc(config, steps, v);
      RunUnstarted(config, front, before);
      RunTimed(config, front);
      NextUnstarted(before, step);
    }
  }

  /** At step `i` the start time is taken: the clock shows `t`, the worker that takes it is about to write
      a measured request, and no measured request has been written before. */
  ghost predicate StartedAt(config: Config, steps: seq<Step>, i: nat, t: nat) {
    && i < |steps| && steps[i].Work? && Run(config, steps[..i]).Some?
    && var v := Run(config, steps[..i]).value;
       && v.clock == t
       && steps[i].w < |v.workers| && v.workers[steps[i].w].stage.Setting?
       && v.workers[steps[i].w].wpos >= v.config.warmup
       && forall index: nat :: index >= v.config.warmup ==> v.books.submitted[index] == 0
  }

  lemma StartNext(v: Bench, step: Step)
    requires Enabled(v, step)
    ensures var before, after := v.flags.startTime, Next(v, step).flags.startTime;
      after == before || (step.Work? && v.workers[step.w].stage.Setting? && after == Some(v.clock))
  {
  }

  /** For every run: the start time is the clock's reading when the first measured request of the run was
      about to be written. */
  lemma {:induction false} StartIsFirstMeasured(config: Config, steps: seq<Step>, v: Bench) returns (i: nat)
    requires Run(config, steps) == Some(v) && v.flags.startTime.Some?
    ensures StartedAt(config, steps, i, v.flags.startTime.value)
  {
    var front, step, before := Unsnoc(config, steps, v);
    StartNext(before, step);
    if v.flags.startTime == before.flags.startTime {
      i := StartIsFirstMeasured(config, front, before);
      assert steps[..i] == front[..i];
    } else {
      i := |front|;
      assert steps[..i] == front;
      RunGates(config, front, before, step.w);
      RunUnstarted(config, front, before);
      RunTimed(config, front);
      WorkerAt(before, step.w);
    }
  }

  // ---------------------------------------------------------------------------------------------
  // The elapsed time

  lemma {:induction false} LatestIsLast(ws: seq<Worker>) returns (w: nat)
    requires Latest(ws).Some?
    ensures w < |ws| && ws[w].last == Latest(ws)
  {
    var front := ws[..|ws| - 1];
    if ws[|ws| - 1].last == Latest(ws) {
      w := |ws| - 1;
    } else {
      w := LatestIsLast(front);
    }
  }

  /** A worker's last completion is that of the sample it recorded last. */
  ghost predicate LastInv(x: Worker) {
    x.last == if x.log == [] then None else Some(x.log[|x.log| - 1].completed)
  }

  lemma NextLast(v: Bench, step: Step, w: nat)
    requires Enabled(v, step) && w < |v.workers| && LastInv(v.workers[w])
    ensures w < |Next(v, step).workers| && LastInv(Next(v, step).workers[w])
  {
  }

  lemma {:induction false} RunLast(config: Config, steps: seq<Step>, v: Bench, w: nat)
    requires Run(config, steps) == Some(v) && w < |v.workers|
    ensures LastInv(v.workers[w])
  {
    if steps != [] {
      var front, step, before := Unsnoc(config, steps, v);
      SameWorkers(before, step);
      RunLast(config, front, before, w);
      NextLast(before, step, w);
    }
  }

  /** For every run: with no sample the elapsed time is zero; otherwise it is the time from the start to the
      completion of some sample, and no sample completed later. */
  lemma ElapsedIsWindow(config: Config, steps: seq<Step>, v: Bench) returns (w: nat, j: nat)
    requires Run(config, steps) == Some(v)
    ensures (forall a :: 0 <= a < |v.workers| ==> v.workers[a].log == []) ==>
            Elapsed(v.flags.startTime, Latest(v.workers)) == 0
    ensures (exists a :: 0 <= a < |v.workers| && v.workers[a].log != []) ==>
      && w < |v.workers| && j < |v.workers[w].log| && v.flags.startTime.Some?
      && var end := v.workers[w].log[j].completed;
         && Elapsed(v.flags.startTime, Latest(v.workers)) == end - v.flags.startTime.value
         && forall a, b :: 0 <= a < |v.workers| && 0 <= b < |v.workers[a].log| ==>
              v.flags.startTime.value <= v.workers[a].log[b].started && v.workers[a].log[b].completed <= end
  {
    w, j := 0, 0;
    if a :| 0 <= a < |v.workers| && v.workers[a].log != [] {
      SamplesInsideWindow(config, v, a, 0);
    }
    if Latest(v.workers).Some? {
      w := LatestIsLast(v.workers);
      RunLast(config, steps, v, w);
      j := |v.workers[w].log| - 1;
    }
    forall a, b | 0 <= a < |v.workers| && 0 <= b < |v.workers[a].log|
      ensures v.flags.startTime.Some? && Latest(v.workers).Some?
      ensures v.flags.startTime.value <= v.workers[a].log[b].started <= v.workers[a].log[b].completed
      ensures v.workers[a].log[b].completed <= Latest(v.workers).value
    {
      SamplesInsideWindow(config, v, a, b);
    }
  }

  // ---------------------------------------------------------------------------------------------
  // How a run stops

  predicate Fails(step: Step) {
    step.Fail? || step.Panic? || step.SpawnFail?
  }

  /** Something has gone wrong, or is about to be put on record. */
  ghost predicate Spoiled(v: Bench) {
    || v.flags.spawnFailed || v.flags.firstError || v.flags.panicked
    || exists w :: 0 <= w < |v.workers| && v.workers[w].stage.Failing?
  }

  lemma FailureStays(v: Bench, step: Step)
    requires Enabled(v, step) && Spoiled(v)
    ensures Spoiled(Next(v, step))
  {
    if w :| 0 <= w < |v.workers| && v.workers[w].stage.Failing? {
      var v' := Next(v, step);
      assert v'.flags.firstError || v'.flags.panicked || v'.workers[w].stage.Failing?;
    }
  }

  lemma FailureComes(v: Bench, step: Step)
    requires Enabled(v, step) && Fails(step)
    ensures Spoiled(Next(v, step))
  {
    if step.Fail? {
      assert Next(v, step).workers[step.w].stage.Failing?;
    }
  }

  lemma FailureHasCause(v: Bench, step: Step)
    requires Enabled(v, step) && !Spoiled(v) && !Fails(step)
    ensures !Spoiled(Next(v, step))
  {
  }

  lemma {:induction false} FailingIff(config: Config, steps: seq<Step>, v: Bench)
    requires Run(config, steps) == Some(v)
    ensures Spoiled(v) <==> exists i :: 0 <= i < |steps| && Fails(steps[i])
  {
    if steps != [] {
      var front, step, before := Unsnoc(config, steps, v);
      FailingIff(config, front, before);
      assert steps[|front|] == step && forall i :: 0 <= i < |front| ==> steps[i] == front[i];
      if Spoiled(before) {
        FailureStays(before, step);
      } else if Fails(step) {
        FailureComes(before, step);
      } else {
        FailureHasCause(before, step);
      }
    }
  }

  /** `run` succeeds if and only if every worker is through and nothing ever failed: no spawn, no connection,
      write or read, and no worker by panicking. */
  lemma SucceededIff(config: Config, steps: seq<Step>, v: Bench)
    requires Run(config, steps) == Some(v)
    ensures Succeeded(v) <==>
      && (forall w :: 0 <= w < |v.workers| ==> v.workers[w].stage.Done?)
      && forall i :: 0 <= i < |steps| ==> !Fails(steps[i])
  {
    FailingIff(config, steps, v);
  }

  // ---------------------------------------------------------------------------------------------
  // Claims

  function AboutToClaim(ws: seq<Worker>): nat {
    if ws == [] then 0 else AboutToClaim(ws[..|ws| - 1]) + if ws[|ws| - 1].stage.Claim? then 1 else 0
  }

  lemma {:induction false} AboutToClaimPut(ws: seq<Worker>, w: nat, x: Worker)
    requires w < |ws|
    ensures AboutToClaim(ws[w := x]) + (if ws[w].stage.Claim? then 1 else 0)
            == AboutToClaim(ws) + if x.stage.Claim? then 1 else 0
  {
    var front := ws[..|ws| - 1];
    if w < |front| {
      AboutToClaimPut(front, w, x);
      assert ws[w := x][..|ws| - 1] == front[w := x];
    } else {
      assert ws[w := x][..|ws| - 1] == front;
    }
  }

  /** A worker at work in an aborted run claims only if it was about to. */
  lemma AbortedWork(v: Bench, w: nat)
    requires Enabled(v, Work(w)) && v.flags.abort
    ensures var v' := WorkStep(v, w);
      && v'.flags.abort
      && |v'.workers| == |v.workers| && v'.workers == v.workers[w := v'.workers[w]] && !v'.workers[w].stage.Claim?
      && |v'.books.claims| <= |v.books.claims| + if v.workers[w].stage.Claim? then 1 else 0
  {
  }

  lemma AbortedNext(v: Bench, step: Step)
    requires Enabled(v, step) && v.flags.abort
    ensures var v' := Next(v, step);
      v'.flags.abort && |v'.books.claims| + AboutToClaim(v'.workers) <= |v.books.claims| + AboutToClaim(v.workers)
  {
    match step {
      case Work(w) =>
        AbortedWork(v, w);
        AboutToClaimPut(v.workers, w, WorkStep(v, w).workers[w]);
      case Fail(w) => AboutToClaimPut(v.workers, w, v.workers[w].(stage := Failing));
      case Panic(w) => AboutToClaimPut(v.workers, w, v.workers[w].(stage := Done(Panicked)));
      case _ =>
    }
  }

  /** After an abort no worker starts over: in every continuation only the workers that were already about to
      claim can still do so, once each. */
  lemma {:induction false} AbortStopsClaims(config: Config, steps: seq<Step>, more: seq<Step>, v: Bench, v': Bench)
    requires Run(config, steps) == Some(v) && v.flags.abort && Run(config, steps + more) == Some(v')
    ensures v'.flags.abort
    ensures |v'.books.claims| + AboutToClaim(v'.workers) <= |v.books.claims| + AboutToClaim(v.workers)
  {
    if more == [] {
      assert steps + more == steps;
    } else {
      var before := steps + more[..|more| - 1];
      assert (steps + more)[..|steps + more| - 1] == before;
      AbortStopsClaims(config, steps, more[..|more| - 1], v, Run(config, before).value);
      AbortedNext(Run(config, before).value, more[|more| - 1]);
    }
  }

  lemma TileIs(config: Config, k: nat, size: nat)
    requires size == Depth(config) && Claimed(config, k) < Claimed(config, k + 1)
    ensures Claimed(config, k) == k * size < config.total
    ensures Claimed(config, k + 1) == if (k + 1) * size <= config.total then (k + 1) * size else config.total
  {
    assert Depth(config) * k == k * size && Depth(config) * (k + 1) == (k + 1) * size;
  }

  /** The `k`-th claim starts where `k` full batches end and takes one batch, or what is left of the
      fixture; a batch size of zero counts as one. */
  lemma ClaimsAreBatches(config: Config, v: Bench, k: nat)
    requires Validate(config).Success? && Clear(config) && Reachable(config, v)
    requires k < |v.books.claims|
    ensures var size := if config.batch == 0 then 1 else config.batch;
      && v.books.claims[k].0 == k * size < config.total
      && v.books.claims[k].1 == if (k + 1) * size <= config.total then (k + 1) * size else config.total
  {
    NothingTwice(config, v, 0);
    TileIs(config, k, if config.batch == 0 then 1 else config.batch);
  }
}
