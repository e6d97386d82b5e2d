/** Why a client is told to go, whom a shutdown request reaches, and how soon a session then stops. */
module DeliverySignals {

  import opened Machine
  import opened EventCaching
  import opened Subscription
  import opened Frames
  import opened Sessions
  import opened SessionInvariants
  import opened LagPolicy
  import opened Delivery
  import opened DeliveryInvariants
  import opened DeliveryTheorems
  import opened DeliveryOutcomes
  import opened DeliveryCauses

  // ---------------------------------------------------------------------------------------------
  // Evictions

  /** The client was sent `LagExceeded`, whole or in part. */
  predicate SaidLag(s: Session) {
    || (exists k :: 0 <= k < |s.wire| && s.wire[k].LagExceeded?)
    || (s.torn.Some? && s.torn.value.0.LagExceeded?)
  }

  /** Only refusals evict a session that has not ended. */
  ghost predicate EvictionInv(s: Session) {
    && (s.handle.disconnected && !Ended(s.phase) ==> Trailing(s.attempts) > s.handle.maxLag)
    && (SaidLag(s) ==> s.handle.disconnected && Trailing(s.attempts) > s.handle.maxLag)
    && (!s.handle.open ==> Ended(s.phase))
    && (AnyClosed(s.attempts) ==> s.handle.disconnected || !s.handle.open)
  }

  lemma TrailingOne(attempts: seq<Attempt>, t: Attempt)
    ensures Trailing(attempts + [t]) ==
      match t.result case Sent => 0 case Full => Trailing(attempts) + 1 case Closed => Trailing(attempts)
  {
    assert (attempts + [t])[..|attempts|] == attempts;
  }

  lemma ClosedOne(attempts: seq<Attempt>, t: Attempt)
    ensures AnyClosed(attempts + [t]) <==> AnyClosed(attempts) || t.result.Closed?
  {
    var all := attempts + [t];
    assert all[|attempts|] == t;
    if k :| 0 <= k < |attempts| && attempts[k].result.Closed? {
      assert all[k] == attempts[k];
    }
  }

  lemma ActEvicts(s: Session, act: Action, cache: Cache, snap: nat, maxFrame: nat)
    requires CanAct(s, act, maxFrame) && EvictionInv(s)
    ensures EvictionInv(Act(s, act, cache, snap, maxFrame))
  {
  }

  lemma SkipEvicts(s: Session, b: Batch)
    requires EvictionInv(s) && s.handle.disconnected
    ensures EvictionInv(Skipped(s, b))
  {
    TrailingOne(s.attempts, Attempt(b, SendResult.Closed));
  }

  lemma OfferEvicts(s: Session, b: Batch)
    requires EvictionInv(s)
    requires LagInv(s.handle.lag, s.handle.maxLag, s.handle.disconnected, s.attempts, Cleared)
    ensures EvictionInv(Offered(s, b))
  {
    ClosedOne(s.attempts, Attempt(b, TrySend(s.handle, Live(b)).1));
  }

  lemma AccountEvicts(s: Session, r: SendResult)
    requires EvictionInv(s)
    requires LagInv(s.handle.lag, s.handle.maxLag, s.handle.disconnected, s.attempts, Due(r))
    ensures EvictionInv(Accounted(s, r))
  {
    assert r.Closed? ==> AnyClosed(s.attempts);
  }

  lemma ShutEvicts(s: Session)
    requires EvictionInv(s)
    ensures EvictionInv(s.(handle := RaiseFlag(s.handle)))
    ensures EvictionInv(s.(handle := SendSentinel(s.handle).0))
  {
  }

  lemma BroadcastEvicts(v: Server, a: nat)
    requires Sound(v) && v.broadcaster.Busy? && a < |v.sessions|
    requires LagOk(v.broadcaster, a, v.sessions[a]) && EvictionInv(v.sessions[a])
    ensures a < |BroadcastStep(v).sessions| && EvictionInv(BroadcastStep(v).sessions[a])
  {
    if v.broadcaster.todo != [] && v.broadcaster.todo[0] == a {
      var s, b := v.sessions[a], v.batches[|v.batches| - 1];
      match v.broadcaster.stage {
        case Checking =>
          if s.handle.disconnected {
            SkipEvicts(s, b);
          }
        case Sending => OfferEvicts(s, b);
        case Accounting(r) => AccountEvicts(s, r);
      }
    }
  }

  lemma NextEvicts(v: Server, step: Step, a: nat)
    requires Sound(v) && Enabled(v, step) && a < |v.sessions|
    requires LagOk(v.broadcaster, a, v.sessions[a]) && EvictionInv(v.sessions[a])
    ensures a < |Next(v, step).sessions| && EvictionInv(Next(v, step).sessions[a])
  {
    match step {
      case Broadcast => BroadcastEvicts(v, a);
      case Handler(b, act) =>
        if b == a {
          OwnStep(v, a, act);
          ActEvicts(v.sessions[a], act, v.cache, |v.batches|, v.config.maxFrame);
        }
      case Shut(_) => ShutEvicts(v.sessions[a]);
      case _ =>
    }
  }

  lemma JoinsInGoodStanding(v: Server, step: Step, a: nat)
    requires Sound(v) && Enabled(v, step) && |v.sessions| <= a < |Next(v, step).sessions|
    ensures EvictionInv(Next(v, step).sessions[a])
  {
  }

  lemma {:induction false} RunEvicts(config: Config, steps: seq<Step>, v: Server, a: nat)
    requires Reaches(config, steps, v) && a < |v.sessions|
    ensures EvictionInv(v.sessions[a])
  {
    if steps != [] {
      var front, step, before := Unsnoc(config, steps, v);
      if a < |before.sessions| {
        RunKeeps(config, front);
        At(before, a);
        RunEvicts(config, front, before, a);
        NextEvicts(before, step, a);
      } else {
        JoinsInGoodStanding(before, step, a);
      }
    }
  }

  /** For every session of every run that has not ended, and that the broadcaster is not in the middle of:
      it is marked disconnected if and only if more than `maxLag` batches in a row were refused. */
  lemma EvictedIff(config: Config, steps: seq<Step>, v: Server, a: nat)
    requires Reaches(config, steps, v) && a < |v.sessions|
    requires !Ended(v.sessions[a].phase) && OwedTo(v.broadcaster, a).Nothing?
    ensures v.sessions[a].handle.disconnected <==> Trailing(v.sessions[a].attempts) > v.sessions[a].handle.maxLag
  {
    RunKeeps(config, steps);
    At(v, a);
    RunEvicts(config, steps, v, a);
  }

  /** `LagExceeded` is sent only to a client that more than `maxLag` batches in a row were refused. */
  lemma LagExceededIsEarned(config: Config, steps: seq<Step>, v: Server, a: nat)
    requires Reaches(config, steps, v) && a < |v.sessions| && SaidLag(v.sessions[a])
    ensures v.sessions[a].handle.disconnected && Trailing(v.sessions[a].attempts) > v.sessions[a].handle.maxLag
  {
    RunEvicts(config, steps, v, a);
  }

  // ---------------------------------------------------------------------------------------------
  // Shutdown requests

  /** Step `i` of the run asks for client `a` to be shut down. */
  ghost predicate Asked(config: Config, steps: seq<Step>, a: nat, i: nat) {
    && i < |steps| && Run(config, steps[..i]).Some?
    && (steps[i] == RequestOne(a) || (steps[i] == RequestAll && a in Run(config, steps[..i]).value.registry))
  }

  ghost predicate EverAsked(config: Config, steps: seq<Step>, a: nat) {
    exists i: nat :: Asked(config, steps, a, i)
  }

  lemma AskedStays(config: Config, front: seq<Step>, step: Step, a: nat)
    requires EverAsked(config, front, a)
    ensures EverAsked(config, front + [step], a)
  {
    var i: nat :| Asked(config, front, a, i);
    assert (front + [step])[..i] == front[..i];
    assert Asked(config, front + [step], a, i);
  }

  lemma AskedNow(config: Config, front: seq<Step>, step: Step, v: Server, a: nat)
    requires Run(config, front) == Some(v)
    requires step == RequestOne(a) || (step == RequestAll && a in v.registry)
    ensures EverAsked(config, front + [step], a)
  {
    assert (front + [step])[..|front|] == front;
    assert Asked(config, front + [step], a, |front|);
  }

  predicate Targeted(v: Server, a: nat) {
    exists k :: 0 <= k < |v.shutters| && (a in v.shutters[k].targets || a in v.shutters[k].todo)
  }

  function PendingOf(phase: Phase): seq<Subscription.Delivery> {
    match phase
    case Draining(_, pending) => pending
    case Polling(pending) => pending
    case PollingGone(pending) => pending
    case Taking(pending) => pending
    case Writing(_, _, pending) => pending
    case _ => []
  }

  /** The client was sent `ServerShutdown`, whole or in part. */
  predicate SaidShutdown(s: Session) {
    || (exists k :: 0 <= k < |s.wire| && s.wire[k].ServerShutdown?)
    || (s.torn.Some? && s.torn.value.0.ServerShutdown?)
  }

  /** A sentinel in flight, and a shutdown frame, come with the flag. */
  ghost predicate FlagInv(s: Session) {
    SaidShutdown(s) || Shutdown in PendingOf(s.phase) || Shutdown in s.handle.queue ==> s.handle.shutdownRequested
  }

  lemma ActFlags(s: Session, act: Action, cache: Cache, snap: nat, maxFrame: nat)
    requires CanAct(s, act, maxFrame) && FlagInv(s)
    ensures FlagInv(Act(s, act, cache, snap, maxFrame))
    ensures Act(s, act, cache, snap, maxFrame).handle.shutdownRequested == s.handle.shutdownRequested
  {
  }

  lemma TargetsNext(v: Server, step: Step, a: nat)
    requires Sound(v) && Enabled(v, step)
    ensures Targeted(Next(v, step), a) ==>
      Targeted(v, a) || step == RequestOne(a) || (step == RequestAll && a in v.registry)
  {
  }

  lemma {:induction false} TargetIsAsked(config: Config, steps: seq<Step>, v: Server, a: nat)
    requires Run(config, steps) == Some(v) && Targeted(v, a)
    ensures EverAsked(config, steps, a)
  {
    var front, step, before := Unsnoc(config, steps, v);
    TargetsNext(before, step, a);
    if Targeted(before, a) {
      TargetIsAsked(config, front, before, a);
      AskedStays(config, front, step, a);
    } else {
      AskedNow(config, front, step, before, a);
    }
  }

  lemma ShutFlags(v: Server, k: nat, a: nat)
    requires ServerInv(v) && Sound(v) && Enabled(v, Shut(k)) && a < |v.sessions| && FlagInv(v.sessions[a])
    ensures a < |ShutStep(v, k).sessions| && FlagInv(ShutStep(v, k).sessions[a])
    ensures ShutStep(v, k).sessions[a].handle.shutdownRequested ==>
            v.sessions[a].handle.shutdownRequested || v.shutters[k].todo[0] == a
  {
    assert ShutterInv(v.shutters[k], v.sessions);
  }

  lemma BroadcastFlags(v: Server, a: nat)
    requires Sound(v) && v.broadcaster.Busy? && a < |v.sessions| && FlagInv(v.sessions[a])
    ensures a < |BroadcastStep(v).sessions| && FlagInv(BroadcastStep(v).sessions[a])
    ensures BroadcastStep(v).sessions[a].handle.shutdownRequested == v.sessions[a].handle.shutdownRequested
  {
  }

  /** Only a shutdown request raises the flag. */
  lemma NextFlags(v: Server, step: Step, a: nat)
    requires ServerInv(v) && Sound(v) && Enabled(v, step) && a < |v.sessions| && FlagInv(v.sessions[a])
    ensures a < |Next(v, step).sessions| && FlagInv(Next(v, step).sessions[a])
    ensures Next(v, step).sessions[a].handle.shutdownRequested ==>
            v.sessions[a].handle.shutdownRequested || Targeted(v, a)
  {
    match step {
      case Broadcast => BroadcastFlags(v, a);
      case Handler(b, act) =>
        if b == a {
          OwnStep(v, a, act);
          ActFlags(v.sessions[a], act, v.cache, |v.batches|, v.config.maxFrame);
        }
      case Shut(k) => ShutFlags(v, k, a);
      case _ =>
    }
  }

  lemma JoinsUnflagged(v: Server, step: Step, a: nat)
    requires Sound(v) && Enabled(v, step) && |v.sessions| <= a < |Next(v, step).sessions|
    ensures FlagInv(Next(v, step).sessions[a]) && !Next(v, step).sessions[a].handle.shutdownRequested
  {
  }

  lemma {:induction false} FlagIsAsked(config: Config, steps: seq<Step>, v: Server, a: nat)
    requires Reaches(config, steps, v) && a < |v.sessions|
    ensures FlagInv(v.sessions[a])
    ensures v.sessions[a].handle.shutdownRequested ==> EverAsked(config, steps, a)
  {
    if steps != [] {
      var front, step, before := Unsnoc(config, steps, v);
      if a < |before.sessions| {
        RunKeeps(config, front);
        FlagIsAsked(config, front, before, a);
        NextFlags(before, step, a);
        if v.sessions[a].handle.shutdownRequested {
          if !before.sessions[a].handle.shutdownRequested {
            TargetIsAsked(config, front, before, a);
          }
          AskedStays(config, front, step, a);
        }
      } else {
        JoinsUnflagged(before, step, a);
      }
    }
  }

  /** `ServerShutdown` is sent only to a client that an earlier step of the run asked to shut down, by name
      or as one of those registered at the time. */
  lemma ShutdownIsAsked(config: Config, steps: seq<Step>, v: Server, a: nat)
    requires Reaches(config, steps, v) && a < |v.sessions| && SaidShutdown(v.sessions[a])
    ensures EverAsked(config, steps, a)
  {
    FlagIsAsked(config, steps, v, a);
  }

  // ---------------------------------------------------------------------------------------------
  // Whom a request reaches

  lemma ShuttersGrow(v: Server, step: Step, k: nat)
    requires Sound(v) && Enabled(v, step) && k < |v.shutters|
    ensures k < |Next(v, step).shutters| && Next(v, step).shutters[k].targets == v.shutters[k].targets
  {
  }

  lemma {:induction false} TargetsStay(config: Config, steps: seq<Step>, more: seq<Step>, v: Server, v': Server,
                                       k: nat)
    requires Run(config, steps) == Some(v) && Run(config, steps + more) == Some(v') && k < |v.shutters|
    ensures k < |v'.shutters| && v'.shutters[k].targets == v.shutters[k].targets
  {
    if more == [] {
      assert steps + more == steps;
    } else {
      var before := steps + more[..|more| - 1];
      assert (steps + more)[..|steps + more| - 1] == before;
      TargetsStay(config, steps, more[..|more| - 1], v, Run(config, before).value, k);
      ShuttersGrow(Run(config, before).value, more[|more| - 1], k);
    }
  }

  /** A request to shut down everyone, once it has gone through its list, has flagged or found gone every
      session that was registered when it was made, whatever happened in between. */
  lemma ShutdownReachesRegistered(config: Config, steps: seq<Step>, more: seq<Step>, v: Server, v': Server, a: nat)
    requires Reaches(config, steps, v) && Reaches(config, steps + [RequestAll] + more, v')
    requires a in v.registry
    ensures |v.shutters| < |v'.shutters|
    ensures v'.shutters[|v.shutters|].todo == [] ==> a < |v'.sessions| && Signalled(v'.sessions[a].handle)
  {
    RunKeeps(config, steps);
    InvIsSound(v);
    Extend(config, steps, v, RequestAll);
    var k := |v.shutters|;
    TargetsStay(config, steps + [RequestAll], more, Next(v, RequestAll), v', k);
    assert v'.shutters[k].targets == v.registry;
    if v'.shutters[k].todo == [] {
      ShutdownReachesAll(config, steps + [RequestAll] + more, v', k);
    }
  }

  // ---------------------------------------------------------------------------------------------
  // A signalled session winds down

  /** How many more batches a signalled session may still start. */
  function Leeway(s: Session): nat {
    if s.phase.Taking? || (s.phase.PollingGone? && !s.handle.disconnected) then 1 else 0
  }

  lemma ActWindsDown(s: Session, act: Action, cache: Cache, snap: nat, maxFrame: nat)
    requires CanAct(s, act, maxFrame) && Signalled(s.handle)
    ensures var s' := Act(s, act, cache, snap, maxFrame);
      Signalled(s'.handle) && |s'.written| + Leeway(s') <= |s.written| + Leeway(s)
  {
  }

  lemma NextWindsDown(v: Server, step: Step, a: nat)
    requires Sound(v) && Enabled(v, step) && a < |v.sessions| && Signalled(v.sessions[a].handle)
    ensures a < |Next(v, step).sessions|
    ensures var s, s' := v.sessions[a], Next(v, step).sessions[a];
      Signalled(s'.handle) && |s'.written| + Leeway(s') <= |s.written| + Leeway(s)
  {
    if step.Handler? && step.a == a {
      OwnStep(v, a, step.act);
      ActWindsDown(v.sessions[a], step.act, v.cache, |v.batches|, v.config.maxFrame);
    }
  }

  /** Once flagged or evicted, a session starts at most one more batch in any continuation, and none at all
      unless its handler is already past the checks. */
  lemma {:induction false} SignalledWindsDown(config: Config, steps: seq<Step>, more: seq<Step>, v: Server,
                                              v': Server, a: nat)
    requires Run(config, steps) == Some(v) && a < |v.sessions| && Signalled(v.sessions[a].handle)
    requires Run(config, steps + more) == Some(v')
    ensures a < |v'.sessions| && Signalled(v'.sessions[a].handle)
    ensures |v'.sessions[a].written| + Leeway(v'.sessions[a]) <= |v.sessions[a].written| + Leeway(v.sessions[a])
  {
    if more == [] {
      assert steps + more == steps;
    } else {
      var before := steps + more[..|more| - 1];
      assert (steps + more)[..|steps + more| - 1] == before;
      SignalledWindsDown(config, steps, more[..|more| - 1], v, Run(config, before).value, a);
      NextWindsDown(Run(config, before).value, more[|more| - 1], a);
    }
  }
}
