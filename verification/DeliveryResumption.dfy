/** Exactly which clients that ask to resume get exactly the events above their resume point? */
module DeliveryResumption {

  import opened Machine
  import opened EventCaching
  import opened Subscription
  import opened Frames
  import opened Sessions
  import opened SessionInvariants
  import opened LagPolicy
  import opened Delivery
  import opened DeliveryInvariants
  import opened DeliveryTheorems
  import opened DeliveryOutcomes
  import opened DeliveryFarewells

  /** The registry has room for one more. */
  predicate Accepts(v: Server) {
    v.config.maxSubscribers == 0 || |v.registry| < v.config.maxSubscribers
  }

  /** Session `a` is served exactly: once it has queried the cache, and as long as nothing is refused
      after the hand-over, its wire carries a prefix of its stream, and that stream is exactly the events
      above `f` among the batches it was offered. */
  ghost predicate Exact(v: Server, a: nat, f: U64) {
    a < |v.sessions| ==> ExactSession(v.batches, v.sessions[a], f)
  }

  ghost predicate ExactSession(batches: seq<Batch>, s: Session, f: U64) {
    s.view.Read? && NothingMissed(s) ==>
      && OfferedUpTo(s) <= |batches|
      && EventsOf(s.wire) <= Stream(s)
      && Stream(s) == After(Flatten(batches[..OfferedUpTo(s)]), f)
  }

  ghost predicate ExactAfter(config: Config, steps: seq<Step>, more: seq<Step>, a: nat, f: U64) {
    Run(config, steps + more).Some? ==> Exact(Run(config, steps + more).value, a, f)
  }

  // ---------------------------------------------------------------------------------------------
  // The log after a session has joined

  /** `v'` lies ahead of `v` in a run: the log has grown by numbers above those seen, and session `a` is
      still the one that joined. */
  ghost predicate Ahead(v: Server, v': Server, a: nat) {
    && v.frames <= v'.frames
    && v.batches <= v'.batches
    && LaterAbove(v'.batches, |v.batches|, v.frames)
    && a < |v.sessions| <= |v'.sessions|
    && v'.sessions[a].joined == v.sessions[a].joined && v'.sessions[a].resumeFrom == v.sessions[a].resumeFrom
  }

  lemma StepStaysAhead(v: Server, v1: Server, step: Step, a: nat)
    requires Ahead(v, v1, a) && Sound(v1) && Enabled(v1, step)
    ensures Ahead(v, Next(v1, step), a)
  {
  }

  lemma {:induction false} RunStaysAhead(config: Config, steps: seq<Step>, more: seq<Step>, v: Server, a: nat)
    requires Run(config, steps) == Some(v) && a < |v.sessions|
    requires Run(config, steps + more).Some?
    ensures Ahead(v, Run(config, steps + more).value, a)
  {
    if more == [] {
      assert steps + more == steps;
    } else {
      var before := steps + more[..|more| - 1];
      assert (steps + more)[..|steps + more| - 1] == before;
      RunStaysAhead(config, steps, more[..|more| - 1], v, a);
      StepStaysAhead(v, Run(config, before).value, more[|more| - 1], a);
    }
  }

  // ---------------------------------------------------------------------------------------------
  // A client the server has caught up with is served exactly

  lemma CaughtUpIsExact(config: Config, steps: seq<Step>, more: seq<Step>, v: Server, a: nat, f: U64)
    requires Reaches(config, steps, v) && a < |v.sessions|
    requires v.sessions[a].joined == |v.batches| && v.sessions[a].resumeFrom == f
    requires f != 0 && f != FROM_OLDEST && f <= v.frames
    requires Run(config, steps + more).Some?
    ensures Exact(Run(config, steps + more).value, a, f)
  {
    var v' := Run(config, steps + more).value;
    RunStaysAhead(config, steps, more, v, a);
    RunKeeps(config, steps + more);
    At(v', a);
    CaughtUpSession(v.frames, v'.batches, v'.frames, v'.sessions[a], f);
  }

  lemma CaughtUpSession(frames: nat, batches: seq<Batch>, frames': nat, s: Session, f: U64)
    requires BatchesInv(batches, frames') && SessionInv(batches, s)
    requires s.resumeFrom == f && f != 0 && f != FROM_OLDEST && f <= frames
    requires LaterAbove(batches, s.joined, frames)
    requires s.view.Read? ==> s.view.snap <= OfferedUpTo(s)
    ensures ExactSession(batches, s, f)
  {
    if s.view.Read? && NothingMissed(s) {
      SessionParts(batches, s);
      WireIsPrefixOfStream(batches, s);
      ResumeExactIff(batches, frames', s);
    }
  }

  // ---------------------------------------------------------------------------------------------
  // Finishing a broadcast

  /** The broadcaster is done with session `a`, or never had it on its list. */
  ghost predicate Passed(b: Broadcaster, a: nat) {
    b.Busy? ==> a !in b.todo
  }

  function StepsLeft(b: Broadcaster): nat {
    if b.Idle? then 0
    else 3 * |b.todo| + match b.stage case Checking => 3 case Sending => 2 case Accounting(_) => 1
  }

  /** What a broadcast step leaves alone. */
  ghost predicate SameLog(v: Server, v': Server) {
    && v'.config == v.config && v'.frames == v.frames && v'.batches == v.batches && v'.cache == v.cache
    && v'.registry == v.registry && |v'.sessions| == |v.sessions|
  }

  lemma OtherUntouched(v: Server, a: nat)
    requires Sound(v) && v.broadcaster.Busy? && a < |v.sessions|
    requires v.broadcaster.todo == [] || v.broadcaster.todo[0] != a
    ensures SameLog(v, BroadcastStep(v)) && BroadcastStep(v).sessions[a] == v.sessions[a]
  {
  }

  /** How the broadcaster moves on. */
  lemma BroadcasterMoves(v: Server)
    requires Sound(v) && v.broadcaster.Busy?
    ensures var b, b' := v.broadcaster, BroadcastStep(v).broadcaster;
      if b.todo == [] then b'.Idle?
      else b'.Busy? && ((b'.todo == b.todo && StepsLeft(b') < StepsLeft(b)) || b' == Busy(b.todo[1..], Checking))
  {
  }

  lemma HeadGone(todo: seq<nat>, a: nat)
    requires todo != [] && todo[0] != a
    ensures a in todo <==> a in todo[1..]
  {
    assert todo == [todo[0]] + todo[1..];
  }

  /** A step on behalf of somebody else, or the release of the cache lock. */
  lemma OtherVisited(v: Server, a: nat)
    requires Sound(v) && v.broadcaster.Busy? && a < |v.sessions|
    requires v.broadcaster.todo == [] || v.broadcaster.todo[0] != a
    ensures var v' := BroadcastStep(v);
      && SameLog(v, v') && v'.sessions[a] == v.sessions[a]
      && StepsLeft(v'.broadcaster) < StepsLeft(v.broadcaster)
      && (v.broadcaster.todo != [] ==> v'.broadcaster.Busy?)
      && (v'.broadcaster.Busy? ==> (a in v.broadcaster.todo <==> a in v'.broadcaster.todo))
      && (v'.broadcaster.Busy? && v'.broadcaster.todo != v.broadcaster.todo ==> v'.broadcaster.stage.Checking?)
  {
    OtherUntouched(v, a);
    BroadcasterMoves(v);
    if v.broadcaster.todo != [] {
      HeadGone(v.broadcaster.todo, a);
    }
  }

  /** The broadcast runs to its end without touching a session it has passed. */
  lemma {:induction false} FinishPassed(config: Config, steps: seq<Step>, v: Server, a: nat)
    returns (steps': seq<Step>, v': Server)
    requires Reaches(config, steps, v) && a < |v.sessions| && Passed(v.broadcaster, a)
    ensures Reaches(config, steps', v') && steps <= steps'
    ensures v'.broadcaster.Idle? && SameLog(v, v') && v'.sessions[a] == v.sessions[a]
    decreases StepsLeft(v.broadcaster)
  {
    if v.broadcaster.Idle? {
      return steps, v;
    }
    RunKeeps(config, steps);
    InvIsSound(v);
    OtherVisited(v, a);
    Extend(config, steps, v, Broadcast);
    steps', v' := FinishPassed(config, steps + [Broadcast], BroadcastStep(v), a);
  }

  /** A session with an empty queue, next in line or further back. */
  ghost predicate Awaits(v: Server, a: nat) {
    && v.broadcaster.Busy? && a < |v.sessions| && a in v.broadcaster.todo
    && (v.broadcaster.todo[0] == a ==> v.broadcaster.stage.Checking?)
    && v.sessions[a].handle.open && !v.sessions[a].handle.disconnected
    && v.sessions[a].handle.queue == [] && v.sessions[a].handle.depth >= 1
  }

  /** `s'` is `s` after the last batch of the log went into its queue. */
  ghost predicate Served(batches: seq<Batch>, s: Session, s': Session) {
    && batches != []
    && s'.attempts == s.attempts + [Attempt(batches[|batches| - 1], Sent)]
    && s'.view == s.view && s'.joined == s.joined && s'.wire == s.wire
  }

  lemma VisitChecks(v: Server, a: nat)
    requires Sound(v) && Awaits(v, a) && v.broadcaster.todo[0] == a
    ensures BroadcastStep(v) == v.(broadcaster := Busy(v.broadcaster.todo, Sending))
  {
  }

  lemma VisitSends(v: Server, a: nat)
    requires Sound(v) && v.broadcaster.Busy? && v.broadcaster.stage.Sending?
    requires v.broadcaster.todo != [] && v.broadcaster.todo[0] == a
    requires v.sessions[a].handle.open && v.sessions[a].handle.queue == [] && v.sessions[a].handle.depth >= 1
    ensures var v' := BroadcastStep(v);
      && SameLog(v, v') && v'.broadcaster == Busy(v.broadcaster.todo, Accounting(Sent))
      && Served(v.batches, v.sessions[a], v'.sessions[a])
  {
  }

  lemma VisitAccounts(v: Server, a: nat)
    requires Sound(v) && v.broadcaster.Busy? && v.broadcaster.stage.Accounting?
    requires v.broadcaster.todo != [] && v.broadcaster.todo[0] == a && Distinct(v.broadcaster.todo)
    ensures var v' := BroadcastStep(v);
      && SameLog(v, v') && Passed(v'.broadcaster, a)
      && v'.sessions[a] == v.sessions[a].(handle := v'.sessions[a].handle)
  {
    NoLongerIn(v.broadcaster.todo);
  }

  /** The three steps of a visit to a session that can take the batch. */
  lemma Visit(config: Config, steps: seq<Step>, v: Server, a: nat) returns (steps': seq<Step>, v': Server)
    requires Reaches(config, steps, v) && Sound(v)
    requires Awaits(v, a) && v.broadcaster.todo[0] == a && Distinct(v.broadcaster.todo)
    ensures Reaches(config, steps', v') && steps <= steps'
    ensures SameLog(v, v') && Passed(v'.broadcaster, a) && Served(v.batches, v.sessions[a], v'.sessions[a])
  {
    VisitChecks(v, a);
    var v1, steps1 := Onward(config, steps, v);
    VisitSends(v1, a);
    var v2, steps2 := Onward(config, steps1, v1);
    VisitAccounts(v2, a);
    v', steps' := Onward(config, steps2, v2);
  }

  lemma Onward(config: Config, steps: seq<Step>, v: Server) returns (v': Server, steps': seq<Step>)
    requires Reaches(config, steps, v) && v.broadcaster.Busy? && Sound(v)
    ensures v' == BroadcastStep(v) && steps' == steps + [Broadcast]
    ensures Reaches(config, steps', v') && Sound(v')
  {
    Extend(config, steps, v, Broadcast);
    v', steps' := BroadcastStep(v), steps + [Broadcast];
    RunKeeps(config, steps');
    InvIsSound(v');
  }

  /** The broadcast runs to its end and serves a waiting session on the way. */
  lemma {:induction false} FinishServing(config: Config, steps: seq<Step>, v: Server, a: nat)
    returns (steps': seq<Step>, v': Server)
    requires Reaches(config, steps, v) && Awaits(v, a)
    ensures Reaches(config, steps', v') && steps <= steps'
    ensures SameLog(v, v') && Served(v.batches, v.sessions[a], v'.sessions[a])
    decreases StepsLeft(v.broadcaster)
  {
    RunKeeps(config, steps);
    InvIsSound(v);
    if v.broadcaster.todo[0] == a {
      var steps1, v1 := Visit(config, steps, v, a);
      steps', v' := FinishPassed(config, steps1, v1, a);
    } else {
      OtherVisited(v, a);
      Extend(config, steps, v, Broadcast);
      steps', v' := FinishServing(config, steps + [Broadcast], BroadcastStep(v), a);
    }
  }

  // ---------------------------------------------------------------------------------------------
  // A client ahead of the server is not

  /** Asking for what lies ahead of the log is answered with the live tail. */
  lemma AheadIsLiveTail(config: Config, steps: seq<Step>, v: Server, f: U64)
    requires Reaches(config, steps, v) && v.frames < f != FROM_OLDEST
    ensures Range(v.cache, f).AtLiveTail?
  {
    RunKeeps(config, steps);
    FlattenAtMost(v.batches, f);
    AfterNone(Flatten(v.batches), f);
    ResumeIsExact(v.cache, Flatten(v.batches), f);
  }

  /** Session `a` has just been told there is nothing to backfill. */
  ghost predicate Connected(v: Server, a: nat, f: U64) {
    && a < |v.sessions| && a in v.registry
    && v.sessions[a].view == Read(|v.batches|, f, [], 0) && v.sessions[a].joined == |v.batches|
    && v.sessions[a].attempts == [] && v.sessions[a].handle.queue == []
    && v.sessions[a].handle.open && !v.sessions[a].handle.disconnected && v.sessions[a].handle.depth >= 1
  }

  lemma Connect(config: Config, steps: seq<Step>, v: Server, a: nat, f: U64) returns (steps': seq<Step>, v': Server)
    requires Reaches(config, steps, v) && a < |v.sessions| && a in v.registry && Passed(v.broadcaster, a)
    requires v.sessions[a] == NewSession(v.sessions[a].handle, f, |v.batches|)
    requires v.sessions[a].handle.open && !v.sessions[a].handle.disconnected && v.sessions[a].handle.queue == []
    requires v.frames < f != FROM_OLDEST
    ensures Reaches(config, steps', v') && steps <= steps'
    ensures v'.broadcaster.Idle? && v'.frames == v.frames && v'.batches == v.batches && Connected(v', a, f)
  {
    var steps1, v1 := FinishPassed(config, steps, v, a);
    RunKeeps(config, steps1);
    InvIsSound(v1);
    At(v1, a);
    AheadIsLiveTail(config, steps1, v1, f);
    Extend(config, steps1, v1, Handler(a, ReadCache));
    steps', v' := steps1 + [Handler(a, ReadCache)], Next(v1, Handler(a, ReadCache));
  }

  lemma LogOne(config: Config, steps: seq<Step>, v: Server, a: nat, f: U64, e: CachedEvent) returns (v': Server)
    requires Reaches(config, steps, v) && v.broadcaster.Idle? && Connected(v, a, f)
    requires e.seqno == v.frames + 1 < FROM_OLDEST
    ensures Reaches(config, steps + [LogFrame([e])], v')
    ensures v'.frames == v.frames + 1 && v'.batches == v.batches + [[e]]
    ensures Awaits(v', a) && v'.sessions == v.sessions
  {
    RunKeeps(config, steps);
    InvIsSound(v);
    Extend(config, steps, v, LogFrame([e]));
    v' := LogFrameStep(v, [e]);
  }

  /** The next event, numbered no higher than the client asked for, goes into its queue. */
  lemma SendOld(config: Config, steps: seq<Step>, v: Server, a: nat, f: U64) returns (steps': seq<Step>, v': Server)
    requires Reaches(config, steps, v) && v.broadcaster.Idle? && Connected(v, a, f)
    requires v.frames < f != FROM_OLDEST
    ensures Reaches(config, steps', v') && steps <= steps'
    ensures a < |v'.sessions| && !ExactSession(v'.batches, v'.sessions[a], f)
  {
    var e := CachedEvent(v.frames + 1, []);
    var v1 := LogOne(config, steps, v, a, f, e);
    steps', v' := FinishServing(config, steps + [LogFrame([e])], v1, a);
    LogIsOrdered(config, steps', v');
    OldIsNotExact(v'.batches, v'.frames, v'.sessions[a], [e], f);
  }

  lemma LogIsOrdered(config: Config, steps: seq<Step>, v: Server)
    requires Reaches(config, steps, v)
    ensures BatchesInv(v.batches, v.frames)
  {
    RunKeeps(config, steps);
  }

  lemma OldIsNotExact(batches: seq<Batch>, frames: nat, s: Session, b: Batch, f: U64)
    requires BatchesInv(batches, frames) && frames <= f
    requires batches != [] && b == batches[|batches| - 1] && s.joined + 1 == |batches|
    requires s.view.Read? && s.view.backfill == [] && s.view.watermark == 0
    requires s.attempts == [Attempt(b, Sent)]
    ensures !ExactSession(batches, s, f)
  {
    KeptNext([], s.attempts[0], s.attempts, 0);
    assert Uniform(b);
    assert Kept(AcceptedOf(s.attempts), 0) == [b];
    FlattenOne([], b);
    assert [] + [b] == [b];
    assert batches[..OfferedUpTo(s)] == batches;
    FlattenAtMost(batches, f);
    AfterNone(Flatten(batches), f);
  }

  lemma AheadIsNotExact(config: Config, steps: seq<Step>, v: Server, a: nat, f: U64) returns (more: seq<Step>)
    requires Reaches(config, steps, v) && a < |v.sessions| && a in v.registry && Passed(v.broadcaster, a)
    requires v.sessions[a] == NewSession(v.sessions[a].handle, f, |v.batches|)
    requires v.sessions[a].handle.open && !v.sessions[a].handle.disconnected && v.sessions[a].handle.queue == []
    requires v.frames < f != FROM_OLDEST
    ensures !ExactAfter(config, steps, more, a, f)
  {
    var steps1, v1 := Connect(config, steps, v, a, f);
    var steps2, v2 := SendOld(config, steps1, v1, a, f);
    more := steps2[|steps|..];
    assert steps + more == steps2;
  }

  // ---------------------------------------------------------------------------------------------
  // The theorem

  lemma Registered(config: Config, steps: seq<Step>, v: Server, depth: nat, maxLag: nat, f: U64) returns (v': Server)
    requires Reaches(config, steps, v) && Accepts(v)
    ensures Reaches(config, steps + [Register(depth, maxLag, f)], v')
    ensures var a := |v.sessions|;
      && v'.frames == v.frames && v'.batches == v.batches && |v'.sessions| == a + 1
      && a in v'.registry && Passed(v'.broadcaster, a)
      && v'.sessions[a] == NewSession(NewHandle(a + 1, depth, maxLag), f, |v.batches|)
  {
    RunKeeps(config, steps);
    InvIsSound(v);
    Extend(config, steps, v, Register(depth, maxLag, f));
    v' := Next(v, Register(depth, maxLag, f));
    assert v.broadcaster.Busy? ==> InRange(v.broadcaster.todo, |v.sessions|);
  }

  /** A client that registers with resume point `f` is served exactly the events above `f` in every
      continuation of the run, if and only if the server has already numbered `f` when it registers. */
  lemma ResumedStreamExactIff(config: Config, steps: seq<Step>, v: Server, depth: nat, maxLag: nat, f: U64)
    requires Reaches(config, steps, v) && Accepts(v)
    requires f != 0 && f != FROM_OLDEST
    ensures (forall more :: ExactAfter(config, steps + [Register(depth, maxLag, f)], more, |v.sessions|, f))
            <==> f <= v.frames
  {
    var a := |v.sessions|;
    var joined := steps + [Register(depth, maxLag, f)];
    var v' := Registered(config, steps, v, depth, maxLag, f);
    if f <= v.frames {
      forall more
        ensures ExactAfter(config, joined, more, a, f)
      {
        if Run(config, joined + more).Some? {
          CaughtUpIsExact(config, joined, more, v', a, f);
        }
      }
    } else {
      var more := AheadIsNotExact(config, joined, v', a, f);
    }
  }
}
