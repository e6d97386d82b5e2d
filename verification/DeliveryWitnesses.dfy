/** Concrete runs showing that three things one might expect of the server do not hold. */
module DeliveryWitnesses {

  import opened Machine
  import opened EventCaching
  import opened Subscription
  import opened Frames
  import opened Sessions
  import opened SessionInvariants
  import opened Delivery
  import opened DeliveryInvariants
  import opened DeliveryTheorems
  import opened DeliveryOutcomes
  import opened DeliveryFarewells

  const CONFIG := Config(1, 1024, 1)

  lemma ClientConnected() returns (steps: seq<Step>, v: Server)
    ensures Reaches(CONFIG, steps, v) && Sound(v) && v.config == CONFIG
    ensures v.frames == 0 && v.batches == [] && v.broadcaster.Idle? && v.registry == [0] && |v.sessions| == 1
    ensures var s := v.sessions[0];
            && s.resumeFrom == 5 && s.phase == Polling([]) && s.wire == []
            && s.handle == NewHandle(1, 64, 256)
  {
    v, steps := Start(CONFIG), [];
    v, steps := Go(steps, v, Register(64, 256, 5));
    assert v.sessions == [NewSession(NewHandle(1, 64, 256), 5, 0)] && v.registry == [0];
    v, steps := Go(steps, v, Handler(0, ReadCache));
    v, steps := Go(steps, v, Handler(0, EndBackfill));
  }

  /** The client has connected and the first event is in its queue. */
  lemma FirstEventQueued() returns (steps: seq<Step>, v: Server)
    ensures Reaches(CONFIG, steps, v) && Sound(v) && v.config == CONFIG
    ensures |v.sessions| == 1
    ensures var s := v.sessions[0];
            && s.resumeFrom == 5 && s.phase == Polling([]) && s.wire == []
            && s.handle.queue == [Live([CachedEvent(1, [])])]
            && !s.handle.shutdownRequested && !s.handle.disconnected
  {
    var e := CachedEvent(1, []);
    steps, v := ClientConnected();
    v, steps := Go(steps, v, LogFrame([e]));
    assert v.broadcaster == Busy([0], Checking) && v.batches == [[e]];
    v, steps := Go(steps, v, Broadcast);
    v, steps := Go(steps, v, Broadcast);
  }

  /** A client that resumes after number 5 on a server that has just started is sent event 1. */
  lemma ResumingAheadReplays() returns (steps: seq<Step>, v: Server)
    ensures Reaches(CONFIG, steps, v)
    ensures |v.sessions| == 1 && v.sessions[0].resumeFrom == 5
    ensures v.sessions[0].wire == [Event(1, [])]
  {
    steps, v := FirstEventQueued();
    v, steps := Go(steps, v, Handler(0, CheckShutdown(Whole)));
    v, steps := Go(steps, v, Handler(0, CheckGone(Whole)));
    v, steps := Go(steps, v, Handler(0, Take(Whole)));
    assert v.sessions[0].phase.Writing? && v.sessions[0].phase.rest == [CachedEvent(1, [])];
    v, steps := Go(steps, v, Handler(0, WriteOk));
  }

  /** One step of a run under construction. */
  lemma Go(steps: seq<Step>, v: Server, step: Step) returns (v': Server, steps': seq<Step>)
    requires Reaches(CONFIG, steps, v) && Sound(v) && Enabled(v, step)
    ensures v' == Next(v, step)
    ensures Reaches(CONFIG, steps', v') && Sound(v')
  {
    Extend(CONFIG, steps, v, step);
    v', steps' := Next(v, step), steps + [step];
    RunKeeps(CONFIG, steps');
    InvIsSound(v');
  }

  /** Two frames without events, then one with: the cache starts at number 3. */
  lemma CacheStartsAtThree() returns (steps: seq<Step>, v: Server)
    ensures Reaches(CONFIG, steps, v) && Sound(v) && v.config == CONFIG
    ensures v.sessions == [] && v.registry == [] && v.broadcaster.Idle?
    ensures v.cache == Cache([CachedEvent(3, [])], 1, 3, None)
  {
    var e := CachedEvent(3, []);
    v, steps := Start(CONFIG), [];
    v, steps := Go(steps, v, LogFrame([]));
    v, steps := Go(steps, v, LogFrame([]));
    v, steps := Go(steps, v, LogFrame([e]));
    FirstPush(e);
    v, steps := Go(steps, v, Broadcast);
  }

  /** A refused client whose `Truncated` frame cannot be written leaves its registry slot taken, and on
      a server limited to one subscriber no one can register any more. */
  lemma FailedRefusalLeaks() returns (steps: seq<Step>, v: Server)
    ensures Reaches(CONFIG, steps, v)
    ensures |v.sessions| == 1 && v.sessions[0].phase == Left(true)
    ensures 0 in v.registry
    ensures forall depth, maxLag, resumeFrom :: RegisterStep(v, depth, maxLag, resumeFrom) == v
  {
    steps, v := CacheStartsAtThree();
    v, steps := Go(steps, v, Register(64, 256, 1));
    assert v.sessions[0].phase.Joined?;
    v, steps := Go(steps, v, Handler(0, ReadCache));
    assert v.sessions[0].phase == Refusing(3);
    v, steps := Go(steps, v, Handler(0, WriteFail(0)));
  }

  lemma FirstPush(e: CachedEvent)
    requires e.seqno != 0
    ensures PushAll(NewCache(1), [e]) == Cache([e], 1, e.seqno, None)
  {
    assert [e][..0] == [];
    assert [] + [e] == [e];
  }

  /** One event is logged. */
  lemma OneLogged() returns (steps: seq<Step>, v: Server)
    ensures Reaches(CONFIG, steps, v) && Sound(v) && v.config == CONFIG
    ensures v.frames == 1 && v.batches == [[CachedEvent(1, [])]] && v.broadcaster.Idle? && v.shutters == []
    ensures v.registry == [] && v.sessions == [] && v.cache == Cache([CachedEvent(1, [])], 1, 1, None)
  {
    var e := CachedEvent(1, []);
    v, steps := Start(CONFIG), [];
    v, steps := Go(steps, v, LogFrame([e]));
    FirstPush(e);
    assert v.batches == [[e]];
    v, steps := Go(steps, v, Broadcast);
  }

  /** A client that has seen that event connects. */
  lemma CaughtUpClient() returns (steps: seq<Step>, v: Server)
    ensures Reaches(CONFIG, steps, v) && Sound(v) && v.config == CONFIG
    ensures v.frames == 1 && v.batches == [[CachedEvent(1, [])]] && v.broadcaster.Idle? && v.shutters == []
    ensures v.registry == [0] && |v.sessions| == 1
    ensures var s := v.sessions[0];
            && s.resumeFrom == 1 && s.phase == Polling([]) && s.wire == [] && s.joined == 1
            && s.view == Read(1, 1, [], 0) && s.handle == NewHandle(1, 64, 256)
  {
    steps, v := OneLogged();
    v, steps := Go(steps, v, Register(64, 256, 1));
    assert v.sessions == [NewSession(NewHandle(1, 64, 256), 1, 1)] && v.registry == [0];
    v, steps := Go(steps, v, Handler(0, ReadCache));
    v, steps := Go(steps, v, Handler(0, EndBackfill));
  }

  /** That client is told about a shutdown before its first event: the frame names zero. */
  lemma ToldZero() returns (steps: seq<Step>, v: Server)
    ensures Reaches(CONFIG, steps, v) && Sound(v) && v.config == CONFIG
    ensures v.frames == 1 && v.batches == [[CachedEvent(1, [])]] && v.broadcaster.Idle?
    ensures v.registry == [0] && |v.sessions| == 1
    ensures var s := v.sessions[0];
            s.resumeFrom == 1 && s.wire == [ServerShutdown(0)] && s.joined == 1 && s.view == Read(1, 1, [], 0)
  {
    steps, v := CaughtUpClient();
    v, steps := Go(steps, v, RequestAll);
    assert v.shutters == [Shutter([0], [0], Looking, [])];
    v, steps := Go(steps, v, Shut(0));
    v, steps := Go(steps, v, Shut(0));
    v, steps := Go(steps, v, Handler(0, CheckShutdown(Whole)));
  }

  /** Event 2 is logged before the client is back. */
  lemma SecondLogged() returns (steps: seq<Step>, v: Server)
    ensures Reaches(CONFIG, steps, v)
    ensures v.batches == [[CachedEvent(1, [])], [CachedEvent(2, [])]] && |v.sessions| == 1
    ensures var s := v.sessions[0];
            s.resumeFrom == 1 && s.wire == [ServerShutdown(0)] && s.joined == 1 && s.view == Read(1, 1, [], 0)
  {
    steps, v := ToldZero();
    v, steps := Go(steps, v, LogFrame([CachedEvent(2, [])]));
  }

  lemma OwesOne(batches: seq<Batch>, s: Session, e: CachedEvent)
    requires |batches| == 2 && batches[1] == [e] && s.joined == 1 && s.view.Read? && s.view.backfill == []
    ensures Owed(batches, s) == [e]
  {
    assert batches[1..] == [] + [[e]];
    FlattenOne([], [e]);
    assert [] + [e] == [e];
  }

  lemma SaidOnlyZero(wire: seq<OutboundFrame>)
    requires wire == [ServerShutdown(0)]
    ensures EventsOf(wire) == []
  {
    EventsOfOne([], ServerShutdown(0));
    assert [] + [ServerShutdown(0)] == wire;
  }

  /** A client that had seen event 1 is told to resume at zero. Event 2 is logged before it is back, and
      what it is told to ask for is the live tail: event 2 is lost. */
  lemma EarlyFarewellLoses() returns (steps: seq<Step>, v: Server)
    ensures Reaches(CONFIG, steps, v)
    ensures |v.sessions| == 1 && v.sessions[0].resumeFrom == 1 && v.sessions[0].wire == [ServerShutdown(0)]
    ensures v.sessions[0].view.Read? && v.sessions[0].joined <= |v.batches|
    ensures Owed(v.batches, v.sessions[0]) == [CachedEvent(2, [])]
    ensures Range(v.cache, 0).AtLiveTail? && !Lossless(v.batches, v.sessions[0])
  {
    steps, v := SecondLogged();
    OwesOne(v.batches, v.sessions[0], CachedEvent(2, []));
    SaidOnlyZero(v.sessions[0].wire);
  }
}
