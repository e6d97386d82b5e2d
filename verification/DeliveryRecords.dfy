/** What a session has recorded as delivered at any moment, and what it leaves behind. */
module DeliveryRecords {

  import opened Machine
  import opened EventCaching
  import opened Subscription
  import opened Frames
  import opened Sessions
  import opened SessionInvariants
  import opened Delivery
  import opened DeliveryInvariants
  import opened DeliveryOutcomes
  import opened DeliveryCauses

  // ---------------------------------------------------------------------------------------------
  // What a session leaves behind

  /** The client is found gone: its connection closed, or the write of an event to it failed. */
  predicate FoundGone(s: Session, act: Action) {
    act.PeerGone? || (act.WriteFail? && !s.phase.Refusing?)
  }

  lemma ActMarks(s: Session, act: Action, cache: Cache, snap: nat, maxFrame: nat)
    requires CanAct(s, act, maxFrame)
    ensures s.handle.disconnected || FoundGone(s, act) ==> Act(s, act, cache, snap, maxFrame).handle.disconnected
  {
  }

  lemma MarkNext(v: Server, step: Step, a: nat)
    requires Sound(v) && Enabled(v, step) && a < |v.sessions|
    requires v.sessions[a].handle.disconnected || (step.Handler? && step.a == a && FoundGone(v.sessions[a], step.act))
    ensures a < |Next(v, step).sessions| && Next(v, step).sessions[a].handle.disconnected
  {
    if step.Handler? && step.a == a {
      OwnStep(v, a, step.act);
      ActMarks(v.sessions[a], step.act, v.cache, |v.batches|, v.config.maxFrame);
    }
  }

  /** A client that was found gone at some step stays marked disconnected. */
  lemma {:induction false} GoneIsMarked(config: Config, steps: seq<Step>, v: Server, a: nat, i: nat, u: Server,
                                        s: Session)
    requires Run(config, steps) == Some(v) && Acts(config, steps, a, i, u, s) && FoundGone(s, steps[i].act)
    ensures a < |v.sessions| && v.sessions[a].handle.disconnected
  {
    var front, step, before := Unsnoc(config, steps, v);
    if i < |front| {
      assert steps[..i] == front[..i];
      GoneIsMarked(config, front, before, a, i, u, s);
    } else {
      assert steps[..i] == front;
    }
    MarkNext(before, step, a);
  }

  /** Nothing offered from attempt `n` on was taken. */
  ghost predicate RefusedFrom(attempts: seq<Attempt>, n: nat) {
    forall k :: n <= k < |attempts| ==> attempts[k].result.Closed?
  }

  lemma LeftIsPassedOver(v: Server, a: nat, n: nat)
    requires Sound(v) && v.broadcaster.Busy? && a < |v.sessions|
    requires !v.sessions[a].handle.open
    requires n <= |v.sessions[a].attempts| && RefusedFrom(v.sessions[a].attempts, n)
    ensures a < |BroadcastStep(v).sessions|
    ensures var s, s' := v.sessions[a], BroadcastStep(v).sessions[a];
      && s'.phase == s.phase && !s'.handle.open && s'.handle.queue == s.handle.queue
      && n <= |s'.attempts| && RefusedFrom(s'.attempts, n)
  {
  }

  lemma LeftNext(v: Server, step: Step, a: nat, n: nat)
    requires Sound(v) && Enabled(v, step) && a < |v.sessions|
    requires v.sessions[a].phase.Left? && !v.sessions[a].handle.open && v.sessions[a].handle.queue == []
    requires n <= |v.sessions[a].attempts| && RefusedFrom(v.sessions[a].attempts, n)
    ensures a < |Next(v, step).sessions|
    ensures var s := Next(v, step).sessions[a];
      && s.phase.Left? && !s.handle.open && s.handle.queue == []
      && n <= |s.attempts| && RefusedFrom(s.attempts, n)
  {
    if step.Broadcast? {
      LeftIsPassedOver(v, a, n);
    }
  }

  /** A session that has left holds no queue and takes nothing in any continuation. */
  lemma {:induction false} LeftTakesNothing(config: Config, steps: seq<Step>, more: seq<Step>, v: Server, v': Server,
                                            a: nat)
    requires Reaches(config, steps, v) && a < |v.sessions| && v.sessions[a].phase.Left?
    requires Run(config, steps + more) == Some(v')
    ensures a < |v'.sessions|
    ensures var s := v'.sessions[a];
      && s.phase.Left? && !s.handle.open && s.handle.queue == []
      && |v.sessions[a].attempts| <= |s.attempts| && RefusedFrom(s.attempts, |v.sessions[a].attempts|)
  {
    if more == [] {
      assert steps + more == steps;
      RunKeeps(config, steps);
      At(v, a);
    } else {
      var before := steps + more[..|more| - 1];
      assert (steps + more)[..|steps + more| - 1] == before;
      LeftTakesNothing(config, steps, more[..|more| - 1], v, Run(config, before).value, a);
      LeftNext(Run(config, before).value, more[|more| - 1], a, |v.sessions[a].attempts|);
    }
  }

  // ---------------------------------------------------------------------------------------------
  // What is recorded as delivered

  /** What counts as delivered: everything written, except for a batch that is not, or never was, written
      to its end. */
  function Delivered(s: Session): seq<CachedEvent>
    requires s.view.Read?
  {
    if s.written != [] && (s.phase.Writing? || EventsOf(s.wire) != Sofar(s.view, s.written)) then
      Sofar(s.view, s.written[..|s.written| - 1])
    else EventsOf(s.wire)
  }

  ghost predicate RecordInv(s: Session) {
    && (s.view.Read? ==> s.handle.lastDelivered == LastSeq(Delivered(s)))
    && (s.phase.Writing? ==> s.view.Read? && s.written != [])
  }

  /** What a session between batches has written is all it has started. */
  lemma BetweenBatches(batches: seq<Batch>, s: Session)
    requires SessionInv(batches, s)
    requires s.phase.Polling? || s.phase.PollingGone? || s.phase.Taking?
    ensures s.view.Read? && EventsOf(s.wire) == Sofar(s.view, s.written)
    ensures s.handle.lastDelivered == LastSeq(EventsOf(s.wire))
  {
    assert EventsOf(s.wire) + [] == EventsOf(s.wire);
  }

  lemma StartRecords(batches: seq<Batch>, s: Session, outcome: Outcome)
    requires SessionInv(batches, s) && s.phase.Taking? && (s.phase.pending != [] || s.handle.queue != [])
    ensures RecordInv(TakeStep(s, outcome))
  {
    BetweenBatches(batches, s);
    var s' := TakeStep(s, outcome);
    if s'.phase.Writing? {
      assert s'.written[..|s.written|] == s.written;
    } else if outcome.Whole? {
      EventsOfOne(s.wire, ServerShutdown(s.handle.lastDelivered));
    }
  }

  lemma AnswerRecords(batches: seq<Batch>, s: Session, act: Action, cache: Cache, snap: nat, maxFrame: nat)
    requires SessionInv(batches, s) && CanAct(s, act, maxFrame)
    requires s.phase.Joined? || s.phase.Refusing? || s.phase.Draining?
    ensures RecordInv(Act(s, act, cache, snap, maxFrame))
  {
  }

  lemma BackfillRecords(batches: seq<Batch>, s: Session, act: Action, cache: Cache, snap: nat, maxFrame: nat)
    requires SessionInv(batches, s) && CanAct(s, act, maxFrame) && s.phase.Backfilling?
    ensures RecordInv(Act(s, act, cache, snap, maxFrame))
  {
    if s.phase.rest != [] {
      EventsOfOne(s.wire, EventFrame(s.phase.rest[0]));
    }
  }

  lemma FarewellRecords(batches: seq<Batch>, s: Session, f: OutboundFrame, outcome: Outcome)
    requires SessionInv(batches, s) && !f.Event?
    requires s.phase.Polling? || s.phase.PollingGone? || s.phase.Taking?
    ensures RecordInv(Goodbye(s, f, outcome))
  {
    BetweenBatches(batches, s);
    EventsOfOne(s.wire, f);
  }

  lemma PollRecords(batches: seq<Batch>, s: Session, act: Action, cache: Cache, snap: nat, maxFrame: nat)
    requires SessionInv(batches, s) && CanAct(s, act, maxFrame)
    requires s.phase.Polling? || s.phase.PollingGone? || s.phase.Taking?
    ensures RecordInv(Act(s, act, cache, snap, maxFrame))
  {
    BetweenBatches(batches, s);
    match act {
      case CheckShutdown(outcome) => FarewellRecords(batches, s, ServerShutdown(s.handle.lastDelivered), outcome);
      case CheckGone(outcome) => FarewellRecords(batches, s, LagExceeded(s.handle.lastDelivered), outcome);
      case Take(outcome) => StartRecords(batches, s, outcome);
      case _ =>
    }
  }

  lemma BatchEnds(view: CacheView, wire: seq<OutboundFrame>, written: seq<Batch>, rest: seq<CachedEvent>)
    requires view.Read? && EventsOf(wire) + rest == Sofar(view, written)
    ensures EventsOf(wire) == Sofar(view, written) <==> rest == []
  {
    if rest == [] {
      assert EventsOf(wire) + rest == EventsOf(wire);
    } else {
      assert |EventsOf(wire) + rest| > |EventsOf(wire)|;
    }
  }

  lemma WriteRecords(batches: seq<Batch>, s: Session, act: Action, cache: Cache, snap: nat, maxFrame: nat)
    requires SessionInv(batches, s) && CanAct(s, act, maxFrame) && RecordInv(s) && s.phase.Writing?
    ensures RecordInv(Act(s, act, cache, snap, maxFrame))
  {
    BatchEnds(s.view, s.wire, s.written, s.phase.rest);
  }

  lemma EndRecords(s: Session, act: Action, cache: Cache, snap: nat, maxFrame: nat)
    requires CanAct(s, act, maxFrame) && RecordInv(s) && Ended(s.phase)
    ensures RecordInv(Act(s, act, cache, snap, maxFrame))
  {
  }

  lemma ActRecords(batches: seq<Batch>, s: Session, act: Action, cache: Cache, snap: nat, maxFrame: nat)
    requires SessionInv(batches, s) && CanAct(s, act, maxFrame) && RecordInv(s)
    ensures RecordInv(Act(s, act, cache, snap, maxFrame))
  {
    match s.phase {
      case Backfilling(_) => BackfillRecords(batches, s, act, cache, snap, maxFrame);
      case Writing(_, _, _) => WriteRecords(batches, s, act, cache, snap, maxFrame);
      case Polling(_) => PollRecords(batches, s, act, cache, snap, maxFrame);
      case PollingGone(_) => PollRecords(batches, s, act, cache, snap, maxFrame);
      case Taking(_) => PollRecords(batches, s, act, cache, snap, maxFrame);
      case Joined => AnswerRecords(batches, s, act, cache, snap, maxFrame);
      case Refusing(_) => AnswerRecords(batches, s, act, cache, snap, maxFrame);
      case Draining(_, _) => AnswerRecords(batches, s, act, cache, snap, maxFrame);
      case _ => EndRecords(s, act, cache, snap, maxFrame);
    }
  }

  lemma RecordStays(v: Server, step: Step, a: nat)
    requires Sound(v) && Enabled(v, step) && a < |v.sessions| && (step.Handler? ==> step.a != a)
    ensures a < |Next(v, step).sessions|
    ensures var s, s' := v.sessions[a], Next(v, step).sessions[a];
      s'.written == s.written && s'.handle.lastDelivered == s.handle.lastDelivered
  {
  }

  lemma {:induction false} RunRecords(config: Config, steps: seq<Step>, v: Server, a: nat)
    requires Reaches(config, steps, v) && a < |v.sessions|
    ensures RecordInv(v.sessions[a])
  {
    if steps != [] {
      var front, step, before := Unsnoc(config, steps, v);
      if a < |before.sessions| {
        RunKeeps(config, front);
        At(before, a);
        RunRecords(config, front, before, a);
        if step.Handler? && step.a == a {
          OwnStep(before, a, step.act);
          ActRecords(before.batches, before.sessions[a], step.act, before.cache, |before.batches|,
                     before.config.maxFrame);
        } else {
          OthersLeave(before, step, a);
          RecordStays(before, step, a);
        }
      } else {
        JoinsUntold(before, step, a);
      }
    }
  }

  /** For every session of every run past its query: the number recorded as delivered is that of the last
      event written, except that a batch counts only once it has been written to its end; a batch cut short
      by a failing write leaves the number as it was before the batch. */
  lemma RecordedIsWhole(config: Config, steps: seq<Step>, v: Server, a: nat)
    requires Reaches(config, steps, v) && a < |v.sessions| && v.sessions[a].view.Read?
    ensures v.sessions[a].handle.lastDelivered == LastSeq(Delivered(v.sessions[a]))
  {
    RunRecords(config, steps, v, a);
  }
}
