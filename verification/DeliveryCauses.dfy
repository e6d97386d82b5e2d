/** For what happens to a client, the step of the run that brought it about: the registration it started
    with, the cache query it was answered by, and the step that ended it and what that step sent. */
module DeliveryCauses {

  import opened Machine
  import opened EventCaching
  import opened Subscription
  import opened Frames
  import opened Sessions
  import opened SessionInvariants
  import opened LagPolicy
  import opened Delivery
  import opened DeliveryInvariants
  import opened DeliveryTheorems
  import opened DeliveryOutcomes

  // ---------------------------------------------------------------------------------------------
  // Steps of a run

  /** Step `i` of the run is taken by the handler of client `a`, which then is `s`, in state `v`. */
  ghost predicate Acts(config: Config, steps: seq<Step>, a: nat, i: nat, v: Server, s: Session) {
    && i < |steps| && steps[i].Handler? && steps[i].a == a
    && Run(config, steps[..i]) == Some(v) && a < |v.sessions| && v.sessions[a] == s
  }

  lemma Earlier(config: Config, front: seq<Step>, step: Step, a: nat, i: nat, v: Server, s: Session)
    requires Acts(config, front, a, i, v, s)
    ensures Acts(config, front + [step], a, i, v, s) && (front + [step])[i] == front[i]
  {
    assert (front + [step])[..i] == front[..i];
  }

  lemma Last(config: Config, front: seq<Step>, step: Step, a: nat, v: Server)
    requires Run(config, front) == Some(v) && step.Handler? && step.a == a && a < |v.sessions|
    ensures Acts(config, front + [step], a, |front|, v, v.sessions[a]) && (front + [step])[|front|] == step
  {
    assert (front + [step])[..|front|] == front;
  }

  /** The last step of a run and the state it was taken in. */
  lemma Unsnoc(config: Config, steps: seq<Step>, v: Server) returns (front: seq<Step>, step: Step, before: Server)
    requires steps != [] && Run(config, steps) == Some(v)
    ensures steps == front + [step] && |front| == |steps| - 1 && Run(config, front) == Some(before)
    ensures Sound(before) && Enabled(before, step) && v == Next(before, step)
  {
    front, step := steps[..|steps| - 1], steps[|steps| - 1];
    before := Run(config, front).value;
    assert steps == front + [step];
  }

  /** What only a client's own handler changes. */
  ghost predicate SameTalk(s: Session, s': Session) {
    && s'.phase == s.phase && s'.wire == s.wire && s'.torn == s.torn && s'.view == s.view
    && s'.resumeFrom == s.resumeFrom && s'.joined == s.joined
  }

  lemma OthersLeave(v: Server, step: Step, a: nat)
    requires Sound(v) && Enabled(v, step) && a < |v.sessions|
    requires step.Handler? ==> step.a != a
    ensures a < |Next(v, step).sessions| && SameTalk(v.sessions[a], Next(v, step).sessions[a])
  {
  }

  lemma OwnStep(v: Server, a: nat, act: Action)
    requires Sound(v) && Enabled(v, Handler(a, act))
    ensures |Next(v, Handler(a, act)).sessions| == |v.sessions|
    ensures Next(v, Handler(a, act)).sessions[a]
            == Act(v.sessions[a], act, v.cache, |v.batches|, v.config.maxFrame)
  {
  }

  // ---------------------------------------------------------------------------------------------
  // The cache's answer

  ghost predicate NoRefusal(s: Session) {
    && !s.phase.Refusing?
    && (forall k :: 0 <= k < |s.wire| ==> !s.wire[k].Truncated?)
    && (s.torn.Some? ==> !s.torn.value.0.Truncated?)
  }

  /** The client was told what its one cache query answered: a refused client is sent that hint, whole or
      torn, and nothing else; any other has the answer as its backfill and is never sent a refusal. */
  ghost predicate Told(answer: RangeOutcome, s: Session) {
    match answer
    case OutOfWindow(n) =>
      && s.view.Unread?
      && (if s.phase.Refusing? then s.phase.hint == n && s.wire == [] && s.torn.None?
          else
            && Ended(s.phase)
            && ((s.wire == [Truncated(n)] && s.torn.None?)
                || (s.wire == [] && s.torn.Some? && s.torn.value.0 == Truncated(n))))
    case AtLiveTail => NoRefusal(s) && s.view.Read? && s.view.backfill == []
    case InWindow(events) => NoRefusal(s) && s.view.Read? && s.view.backfill == events
  }

  /** The handler of client `a` asked the cache for what lies above `from` at step `i`, and this was the
      answer. */
  ghost predicate Queried(config: Config, steps: seq<Step>, a: nat, i: nat, from: U64, answer: RangeOutcome) {
    && i < |steps| && steps[i] == Handler(a, ReadCache)
    && Run(config, steps[..i]).Some?
    && answer == Range(Run(config, steps[..i]).value.cache, from)
  }

  lemma ToldStays(s: Session, act: Action, cache: Cache, snap: nat, maxFrame: nat, answer: RangeOutcome)
    requires CanAct(s, act, maxFrame) && !s.phase.Joined? && Told(answer, s)
    ensures Told(answer, Act(s, act, cache, snap, maxFrame))
    ensures !Act(s, act, cache, snap, maxFrame).phase.Joined?
  {
  }

  lemma ToldFirst(s: Session, cache: Cache, snap: nat, maxFrame: nat)
    requires s.phase.Joined? && s.wire == [] && s.torn.None? && s.view.Unread?
    ensures Told(Range(cache, s.resumeFrom), Act(s, ReadCache, cache, snap, maxFrame))
  {
  }

  ghost predicate Untold(s: Session) {
    s.wire == [] && s.torn.None? && s.view.Unread?
  }

  lemma QueriedEarlier(config: Config, front: seq<Step>, step: Step, a: nat, i: nat, from: U64,
                       answer: RangeOutcome)
    requires Queried(config, front, a, i, from, answer)
    ensures Queried(config, front + [step], a, i, from, answer)
  {
    assert (front + [step])[..i] == front[..i];
  }

  lemma QueriedLast(config: Config, front: seq<Step>, a: nat, v: Server, from: U64)
    requires Run(config, front) == Some(v)
    ensures Queried(config, front + [Handler(a, ReadCache)], a, |front|, from, Range(v.cache, from))
  {
    assert (front + [Handler(a, ReadCache)])[..|front|] == front;
  }

  /** A step leaves a client as it was told, or tells it, or it has just joined. */
  lemma ToldNext(v: Server, step: Step, a: nat, answer: RangeOutcome)
    requires Sound(v) && Enabled(v, step) && a < |v.sessions|
    requires if v.sessions[a].phase.Joined? then Untold(v.sessions[a]) else Told(answer, v.sessions[a])
    ensures a < |Next(v, step).sessions| && Next(v, step).sessions[a].resumeFrom == v.sessions[a].resumeFrom
    ensures var s, s' := v.sessions[a], Next(v, step).sessions[a];
      if !s.phase.Joined? then !s'.phase.Joined? && Told(answer, s')
      else if step.Handler? && step.a == a then
        step.act == ReadCache && !s'.phase.Joined? && Told(Range(v.cache, s.resumeFrom), s')
      else s'.phase.Joined? && Untold(s')
  {
    if step.Handler? && step.a == a {
      OwnStep(v, a, step.act);
      if v.sessions[a].phase.Joined? {
        ToldFirst(v.sessions[a], v.cache, |v.batches|, v.config.maxFrame);
      } else {
        ToldStays(v.sessions[a], step.act, v.cache, |v.batches|, v.config.maxFrame, answer);
      }
    } else {
      OthersLeave(v, step, a);
    }
  }

  lemma JoinsUntold(v: Server, step: Step, a: nat)
    requires Sound(v) && Enabled(v, step) && |v.sessions| <= a < |Next(v, step).sessions|
    ensures Next(v, step).sessions[a].phase.Joined? && Untold(Next(v, step).sessions[a])
  {
  }

  /** Every session that is past its query has been told the answer, and until then it was told nothing. */
  lemma {:induction false} AnswerIsTold(config: Config, steps: seq<Step>, v: Server, a: nat)
      returns (i: nat, answer: RangeOutcome)
    requires Run(config, steps) == Some(v) && a < |v.sessions|
    ensures v.sessions[a].phase.Joined? ==> Untold(v.sessions[a])
    ensures !v.sessions[a].phase.Joined? ==>
      Queried(config, steps, a, i, v.sessions[a].resumeFrom, answer) && Told(answer, v.sessions[a])
  {
    i, answer := 0, AtLiveTail;
    if steps != [] {
      var front, step, before := Unsnoc(config, steps, v);
      if a < |before.sessions| {
        i, answer := AnswerIsTold(config, front, before, a);
        ToldNext(before, step, a, answer);
        if !before.sessions[a].phase.Joined? {
          QueriedEarlier(config, front, step, a, i, v.sessions[a].resumeFrom, answer);
        } else if step.Handler? && step.a == a {
          i, answer := |front|, Range(before.cache, before.sessions[a].resumeFrom);
          QueriedLast(config, front, a, before, v.sessions[a].resumeFrom);
        }
      } else {
        JoinsUntold(before, step, a);
      }
    }
  }

  /** For every session of every run: a `Truncated` frame that was written, whole or in part, is all the
      client was ever sent, and its number is the hint with which the cache refused this client's bound
      when its handler asked. */
  lemma RefusalIsTheAnswer(config: Config, steps: seq<Step>, v: Server, a: nat, n: U64) returns (i: nat)
    requires Reaches(config, steps, v) && a < |v.sessions|
    requires var s := v.sessions[a];
             Truncated(n) in s.wire || (s.torn.Some? && s.torn.value.0 == Truncated(n))
    ensures var s := v.sessions[a];
            if s.torn.None? then s.wire == [Truncated(n)] else s.wire == []
    ensures Queried(config, steps, a, i, v.sessions[a].resumeFrom, OutOfWindow(n))
  {
    var answer;
    i, answer := AnswerIsTold(config, steps, v, a);
  }

  /** The past events an answer brings. */
  function Past(answer: RangeOutcome): seq<CachedEvent> {
    if answer.InWindow? then answer.events else []
  }

  /** For every session of every run that is past its query: what it is sent is a refusal, or starts with
      the events the cache answered with when its handler asked. */
  lemma StreamStartsWithAnswer(config: Config, steps: seq<Step>, v: Server, a: nat)
      returns (i: nat, answer: RangeOutcome)
    requires Reaches(config, steps, v) && a < |v.sessions| && !v.sessions[a].phase.Joined?
    ensures Queried(config, steps, a, i, v.sessions[a].resumeFrom, answer)
    ensures answer.OutOfWindow? <==> v.sessions[a].view.Unread?
    ensures var s := v.sessions[a];
      if answer.OutOfWindow? then EventsOf(s.wire) == []
      else EventsOf(s.wire) <= Past(answer) + Flatten(Kept(AcceptedOf(s.attempts), s.view.watermark))
  {
    i, answer := AnswerIsTold(config, steps, v, a);
    DeliveredInOrderWholeOnce(config, steps, a);
  }

  // ---------------------------------------------------------------------------------------------
  // What ends a session

  /** The next delivery a handler takes: first what the drain set aside, then the queue. */
  function Upcoming(s: Session): Option<Subscription.Delivery> {
    if !s.phase.Taking? then None
    else if s.phase.pending != [] then Some(s.phase.pending[0])
    else if s.handle.queue != [] then Some(s.handle.queue[0])
    else None
  }

  /** The steps that end a session: a write that fails, a client that is gone, a refusal, a shutdown flag
      or an eviction mark that is noticed, and a shutdown sentinel that is taken. */
  predicate Ends(s: Session, act: Action) {
    match act
    case WriteFail(_) => true
    case PeerGone => true
    case WriteOk => s.phase.Refusing?
    case CheckShutdown(_) => s.handle.shutdownRequested
    case CheckGone(_) => s.handle.disconnected
    case Take(_) => Upcoming(s) == Some(Shutdown)
    case _ => false
  }

  /** The frame such a step sends, if it gets through. */
  function LastWord(s: Session, act: Action): Option<OutboundFrame> {
    match act
    case WriteFail(_) =>
      if s.phase.Refusing? then Some(Truncated(s.phase.hint))
      else if (s.phase.Backfilling? || s.phase.Writing?) && s.phase.rest != [] then
        Some(Event(s.phase.rest[0].seqno, s.phase.rest[0].payload))
      else None
    case WriteOk => if s.phase.Refusing? then Some(Truncated(s.phase.hint)) else None
    case CheckShutdown(_) => Some(ServerShutdown(s.handle.lastDelivered))
    case CheckGone(_) => Some(LagExceeded(s.handle.lastDelivered))
    case Take(_) => Some(ServerShutdown(s.handle.lastDelivered))
    case _ => None
  }

  function BytesThrough(act: Action): Option<nat> {
    match act
    case WriteFail(n) => Some(n)
    case CheckShutdown(Cut(n)) => Some(n)
    case CheckGone(Cut(n)) => Some(n)
    case Take(Cut(n)) => Some(n)
    case _ => None
  }

  /** What the client of `s` has been sent once `act` has ended the session. */
  predicate LeftWith(s: Session, act: Action, wire: seq<OutboundFrame>, torn: Option<(OutboundFrame, nat)>) {
    match (LastWord(s, act), BytesThrough(act))
    case (None, _) => wire == s.wire && torn.None?
    case (Some(f), None) => wire == s.wire + [f] && torn.None?
    case (Some(f), Some(n)) => wire == s.wire && torn == Some((f, n))
  }

  lemma EndsIffEnds(s: Session, act: Action, cache: Cache, snap: nat, maxFrame: nat)
    requires CanAct(s, act, maxFrame) && !Ended(s.phase) && s.torn.None?
    ensures var s' := Act(s, act, cache, snap, maxFrame);
      && (Ended(s'.phase) <==> Ends(s, act))
      && (Ends(s, act) ==> LeftWith(s, act, s'.wire, s'.torn))
      && (!Ends(s, act) ==> s'.torn.None?)
  {
  }

  /** Step `i` of the run ends the session of client `a` and leaves it with `wire` and `torn` sent. */
  ghost predicate EndedAt(config: Config, steps: seq<Step>, a: nat, i: nat, wire: seq<OutboundFrame>,
                          torn: Option<(OutboundFrame, nat)>) {
    && i < |steps| && steps[i].Handler? && steps[i].a == a
    && Run(config, steps[..i]).Some? && a < |Run(config, steps[..i]).value.sessions|
    && var s := Run(config, steps[..i]).value.sessions[a];
       Ends(s, steps[i].act) && LeftWith(s, steps[i].act, wire, torn)
  }

  lemma EndedEarlier(config: Config, front: seq<Step>, step: Step, a: nat, i: nat, wire: seq<OutboundFrame>,
                     torn: Option<(OutboundFrame, nat)>)
    requires EndedAt(config, front, a, i, wire, torn)
    ensures EndedAt(config, front + [step], a, i, wire, torn)
  {
    assert (front + [step])[..i] == front[..i];
  }

  lemma EndedLast(config: Config, front: seq<Step>, step: Step, v: Server, a: nat, wire: seq<OutboundFrame>,
                  torn: Option<(OutboundFrame, nat)>)
    requires Run(config, front) == Some(v) && a < |v.sessions| && step.Handler? && step.a == a
    requires Ends(v.sessions[a], step.act) && LeftWith(v.sessions[a], step.act, wire, torn)
    ensures EndedAt(config, front + [step], a, |front|, wire, torn)
  {
    assert (front + [step])[..|front|] == front;
  }

  /** Whether and how a step ends a session that has not ended. */
  lemma EndsNext(v: Server, step: Step, a: nat)
    requires Sound(v) && Enabled(v, step) && a < |v.sessions|
    requires !Ended(v.sessions[a].phase) && v.sessions[a].torn.None?
    ensures a < |Next(v, step).sessions|
    ensures var s, s' := v.sessions[a], Next(v, step).sessions[a];
      && (Ended(s'.phase) <==> step.Handler? && step.a == a && Ends(s, step.act))
      && (Ended(s'.phase) ==> LeftWith(s, step.act, s'.wire, s'.torn))
      && (!Ended(s'.phase) ==> s'.torn.None?)
  {
    if step.Handler? && step.a == a {
      OwnStep(v, a, step.act);
      EndsIffEnds(v.sessions[a], step.act, v.cache, |v.batches|, v.config.maxFrame);
    } else {
      OthersLeave(v, step, a);
    }
  }

  lemma {:induction false} EndedByStep(config: Config, steps: seq<Step>, v: Server, a: nat) returns (i: nat)
    requires Run(config, steps) == Some(v) && a < |v.sessions|
    ensures Ended(v.sessions[a].phase) ==> EndedAt(config, steps, a, i, v.sessions[a].wire, v.sessions[a].torn)
    ensures !Ended(v.sessions[a].phase) ==> v.sessions[a].torn.None?
  {
    i := 0;
    if steps != [] {
      var front, step, before := Unsnoc(config, steps, v);
      if a < |before.sessions| {
        i := EndedByStep(config, front, before, a);
        if Ended(before.sessions[a].phase) {
          TornStep(before, step, a);
          EndedEarlier(config, front, step, a, i, v.sessions[a].wire, v.sessions[a].torn);
        } else {
          EndsNext(before, step, a);
          if Ended(v.sessions[a].phase) {
            i := |front|;
            EndedLast(config, front, step, before, a, v.sessions[a].wire, v.sessions[a].torn);
          }
        }
      } else {
        JoinsUntold(before, step, a);
      }
    }
  }

  lemma {:induction false} StepEnds(config: Config, steps: seq<Step>, v: Server, a: nat, i: nat,
                                    wire: seq<OutboundFrame>, torn: Option<(OutboundFrame, nat)>)
    requires Run(config, steps) == Some(v) && EndedAt(config, steps, a, i, wire, torn)
    ensures a < |v.sessions| && Ended(v.sessions[a].phase)
  {
    var front, step, before := Unsnoc(config, steps, v);
    if i < |front| {
      assert steps[..i] == front[..i];
      StepEnds(config, front, before, a, i, wire, torn);
      TornStep(before, step, a);
    } else {
      assert steps[..i] == front;
      EndsWhatIsLive(before.sessions[a], step.act, before.config.maxFrame);
      var _ := EndedByStep(config, front, before, a);
      EndsNext(before, step, a);
    }
  }

  lemma EndsWhatIsLive(s: Session, act: Action, maxFrame: nat)
    requires CanAct(s, act, maxFrame) && Ends(s, act)
    ensures !Ended(s.phase)
  {
  }

  /** For every session of every run: it has ended if and only if some step of the run was one of the
      exits, and then the client was sent exactly what that exit sends. */
  lemma EndedIff(config: Config, steps: seq<Step>, v: Server, a: nat)
    requires Reaches(config, steps, v) && a < |v.sessions|
    ensures Ended(v.sessions[a].phase) <==>
            exists i: nat :: EndedAt(config, steps, a, i, v.sessions[a].wire, v.sessions[a].torn)
  {
    if Ended(v.sessions[a].phase) {
      var i := EndedByStep(config, steps, v, a);
    }
    if i: nat :| EndedAt(config, steps, a, i, v.sessions[a].wire, v.sessions[a].torn) {
      StepEnds(config, steps, v, a, i, v.sessions[a].wire, v.sessions[a].torn);
    }
  }
}
