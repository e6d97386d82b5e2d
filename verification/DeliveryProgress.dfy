/** A handler is never stuck, and left to itself it delivers all it holds. */
module DeliveryProgress {

  import opened Machine
  import opened EventCaching
  import opened Subscription
  import opened Frames
  import opened Sessions
  import opened SessionInvariants
  import opened Delivery
  import opened DeliveryInvariants
  import opened DeliveryTheorems
  import opened DeliveryOutcomes
  import opened DeliveryCauses
  import opened DeliverySignals

  // ---------------------------------------------------------------------------------------------
  // Never stuck

  /** A next action for a handler that has not finished; only a frame beyond the size limit has to fail. */
  function NextAct(s: Session, maxFrame: nat): Action
    requires !s.phase.Left?
  {
    match s.phase
    case Joined => ReadCache
    case Refusing(_) => WriteOk
    case Backfilling(rest) =>
      if rest == [] then EndBackfill else if Encodable(EventFrame(rest[0]), maxFrame) then WriteOk else WriteFail(0)
    case Draining(_, _) => TryRecv
    case Polling(_) => CheckShutdown(Whole)
    case PollingGone(_) => CheckGone(Whole)
    case Taking(pending) => if pending != [] || s.handle.queue != [] then Take(Whole) else Timeout
    case Writing(rest, _, _) =>
      if rest == [] then EndBatch else if Encodable(EventFrame(rest[0]), maxFrame) then WriteOk else WriteFail(0)
    case Closing => Unregister
    case Unregistered => DropReceiver
  }

  lemma CanGoOn(s: Session, maxFrame: nat)
    requires !s.phase.Left?
    ensures CanAct(s, NextAct(s, maxFrame), maxFrame)
    ensures NextAct(s, maxFrame).ReadCache? ==> s.phase.Joined?
  {
  }

  /** In every state of every run, every session that has not left has a handler step it can take, unless it
      waits for the cache lock, and then the broadcaster that holds it can go on. */
  lemma NeverStuck(config: Config, steps: seq<Step>, v: Server, a: nat)
    requires Reaches(config, steps, v) && a < |v.sessions| && !v.sessions[a].phase.Left?
    ensures Sound(v)
    ensures var act := NextAct(v.sessions[a], v.config.maxFrame);
      || Enabled(v, Handler(a, act))
      || (act.ReadCache? && v.broadcaster.Busy? && Enabled(v, Broadcast))
  {
    RunKeeps(config, steps);
    InvIsSound(v);
    CanGoOn(v.sessions[a], v.config.maxFrame);
  }

  // ---------------------------------------------------------------------------------------------
  // A handler on its own

  /** The session after the given actions, while nobody else touches it; `None` once one cannot be taken. */
  function Acted(s: Session, acts: seq<Action>, maxFrame: nat): Option<Session>
    decreases |acts|
  {
    if acts == [] then Some(s)
    else if acts[0].ReadCache? || acts[0].Unregister? || !CanAct(s, acts[0], maxFrame) then None
    else Acted(Act(s, acts[0], NewCache(1), 0, maxFrame), acts[1..], maxFrame)
  }

  lemma {:induction false} ActedBoth(s: Session, xs: seq<Action>, ys: seq<Action>, t: Session, maxFrame: nat)
    requires Acted(s, xs, maxFrame) == Some(t)
    ensures Acted(s, xs + ys, maxFrame) == Acted(t, ys, maxFrame)
    decreases |xs|
  {
    if xs == [] {
      assert xs + ys == ys;
    } else {
      ActedBoth(Act(s, xs[0], NewCache(1), 0, maxFrame), xs[1..], ys, t, maxFrame);
      assert (xs + ys)[1..] == xs[1..] + ys;
    }
  }

  lemma ActedOne(s: Session, act: Action, maxFrame: nat)
    requires !act.ReadCache? && !act.Unregister? && CanAct(s, act, maxFrame)
    ensures Acted(s, [act], maxFrame) == Some(Act(s, act, NewCache(1), 0, maxFrame))
  {
    assert [act][1..] == [];
    assert Acted(Act(s, act, NewCache(1), 0, maxFrame), [], maxFrame) == Some(Act(s, act, NewCache(1), 0, maxFrame));
  }

  ghost predicate Fits(es: seq<CachedEvent>, maxFrame: nat) {
    forall i :: 0 <= i < |es| ==> Encodable(EventFrame(es[i]), maxFrame)
  }

  /** The rest of a batch is written event by event. */
  lemma {:induction false} WriteRest(s: Session, maxFrame: nat) returns (acts: seq<Action>, t: Session)
    requires s.phase.Writing? && Fits(s.phase.rest, maxFrame)
    ensures Acted(s, acts, maxFrame) == Some(t)
    ensures t.phase == Writing([], s.phase.seqno, s.phase.pending)
    ensures EventsOf(t.wire) == EventsOf(s.wire) + s.phase.rest
    ensures t.handle == s.handle
    decreases |s.phase.rest|
  {
    var rest := s.phase.rest;
    if rest == [] {
      acts, t := [], s;
      assert EventsOf(s.wire) + [] == EventsOf(s.wire);
    } else {
      var s1 := WriteStep(s);
      EventsOfOne(s.wire, EventFrame(rest[0]));
      var more;
      more, t := WriteRest(s1, maxFrame);
      acts := [WriteOk] + more;
      assert acts[1..] == more;
      assert EventsOf(s.wire) + [rest[0]] + rest[1..] == EventsOf(s.wire) + rest by {
        assert [rest[0]] + rest[1..] == rest;
      }
    }
  }

  /** What the handler still holds: what the drain set aside, then the queue. */
  function Held(s: Session): seq<Subscription.Delivery>
    requires s.phase.Polling?
  {
    s.phase.pending + s.handle.queue
  }

  /** Past the two checks, the next batch is taken up. */
  lemma TakeUp(s: Session, b: Batch, maxFrame: nat) returns (t: Session)
    requires s.phase.Polling? && !s.handle.shutdownRequested && !s.handle.disconnected
    requires Held(s) != [] && Held(s)[0] == Live(b)
    ensures Acted(s, [CheckShutdown(Whole), CheckGone(Whole), Take(Whole)], maxFrame) == Some(t)
    ensures t.phase.Writing? && t.phase.rest == b && t.phase.seqno == b[0].seqno && t.wire == s.wire
    ensures t.phase.pending + t.handle.queue == Held(s)[1..]
    ensures t.handle == s.handle.(queue := t.handle.queue)
  {
    var s1 := s.(phase := PollingGone(s.phase.pending));
    var s2 := s.(phase := Taking(s.phase.pending));
    t := TakeStep(s2, Whole);
    ActedOne(s, CheckShutdown(Whole), maxFrame);
    ActedOne(s1, CheckGone(Whole), maxFrame);
    ActedOne(s2, Take(Whole), maxFrame);
    ActedBoth(s, [CheckShutdown(Whole)], [CheckGone(Whole)], s1, maxFrame);
    ActedBoth(s, [CheckShutdown(Whole)] + [CheckGone(Whole)], [Take(Whole)], s2, maxFrame);
    assert [CheckShutdown(Whole)] + [CheckGone(Whole)] + [Take(Whole)]
        == [CheckShutdown(Whole), CheckGone(Whole), Take(Whole)];
  }

  /** One batch is delivered whole, and recorded. */
  lemma ServeOne(s: Session, b: Batch, maxFrame: nat) returns (acts: seq<Action>, t: Session)
    requires s.phase.Polling? && !s.handle.shutdownRequested && !s.handle.disconnected
    requires Held(s) != [] && Held(s)[0] == Live(b) && Fits(b, maxFrame)
    ensures Acted(s, acts, maxFrame) == Some(t)
    ensures t.phase.Polling? && Held(t) == Held(s)[1..]
    ensures EventsOf(t.wire) == EventsOf(s.wire) + b
    ensures t.handle == s.handle.(queue := t.handle.queue, lastDelivered := b[0].seqno)
  {
    var first := [CheckShutdown(Whole), CheckGone(Whole), Take(Whole)];
    var s1 := TakeUp(s, b, maxFrame);
    var writes, s2 := WriteRest(s1, maxFrame);
    t := s2.(handle := s2.handle.(lastDelivered := s2.phase.seqno), phase := Polling(s2.phase.pending));
    ActedOne(s2, EndBatch, maxFrame);
    ActedBoth(s, first, writes, s1, maxFrame);
    ActedBoth(s, first + writes, [EndBatch], s2, maxFrame);
    acts := first + writes + [EndBatch];
  }

  /** Only batches, each of events that fit. */
  ghost predicate Servable(ds: seq<Subscription.Delivery>, maxFrame: nat) {
    forall i :: 0 <= i < |ds| ==> ds[i].Live? && Fits(ds[i].batch, maxFrame)
  }

  /** So is everything held, one batch after the other. */
  lemma {:induction false} ServeAll(s: Session, maxFrame: nat) returns (acts: seq<Action>, t: Session)
    requires s.phase.Polling? && !s.handle.shutdownRequested && !s.handle.disconnected
    requires Servable(Held(s), maxFrame)
    ensures Acted(s, acts, maxFrame) == Some(t)
    ensures t.phase.Polling? && Held(t) == []
    ensures EventsOf(t.wire) == EventsOf(s.wire) + Flatten(LiveOf(Held(s)))
    decreases |Held(s)|
  {
    if Held(s) == [] {
      acts, t := [], s;
      assert EventsOf(s.wire) + [] == EventsOf(s.wire);
    } else {
      var b := Held(s)[0].batch;
      var one, s1 := ServeOne(s, b, maxFrame);
      var more;
      more, t := ServeAll(s1, maxFrame);
      acts := one + more;
      ActedBoth(s, one, more, s1, maxFrame);
      LiveOfHead(Held(s));
      FlattenHead(LiveOf(Held(s)));
      Regrouped(EventsOf(s.wire), b, Flatten(LiveOf(Held(s1))));
    }
  }

  // ---------------------------------------------------------------------------------------------
  // In the server

  function Handlers(a: nat, acts: seq<Action>): (steps: seq<Step>)
    ensures |steps| == |acts|
  {
    seq(|acts|, i requires 0 <= i < |acts| => Handler(a, acts[i]))
  }

  /** A handler's own step changes nothing else. */
  lemma HandlerAlone(v: Server, a: nat, act: Action)
    requires Sound(v) && a < |v.sessions| && CanAct(v.sessions[a], act, v.config.maxFrame)
    requires !act.ReadCache? && !act.Unregister?
    ensures Enabled(v, Handler(a, act))
    ensures Next(v, Handler(a, act)) == With(v, a, Act(v.sessions[a], act, NewCache(1), 0, v.config.maxFrame))
  {
  }

  /** What a handler can do on its own it can do as steps of the run. */
  lemma {:induction false} ActsAreSteps(config: Config, steps: seq<Step>, v: Server, a: nat, acts: seq<Action>,
                                        t: Session)
    requires Reaches(config, steps, v) && a < |v.sessions|
    requires Acted(v.sessions[a], acts, v.config.maxFrame) == Some(t)
    ensures Reaches(config, steps + Handlers(a, acts), With(v, a, t))
    decreases |acts|
  {
    if acts == [] {
      assert steps + Handlers(a, acts) == steps;
      assert With(v, a, t) == v;
    } else {
      RunKeeps(config, steps);
      InvIsSound(v);
      HandlerAlone(v, a, acts[0]);
      Extend(config, steps, v, Handler(a, acts[0]));
      ActsAreSteps(config, steps + [Handler(a, acts[0])], Next(v, Handler(a, acts[0])), a, acts[1..], t);
      assert steps + [Handler(a, acts[0])] + Handlers(a, acts[1..]) == steps + Handlers(a, acts);
      assert With(Next(v, Handler(a, acts[0])), a, t) == With(v, a, t);
    }
  }

  lemma NoSentinel(ds: seq<Subscription.Delivery>)
    requires Shutdown !in ds
    ensures forall i :: 0 <= i < |ds| ==> ds[i].Live?
  {
    forall i | 0 <= i < |ds|
      ensures ds[i].Live?
    {
      assert ds[i] in ds;
    }
  }

  lemma {:induction false} AboveIsKept(ds: seq<Subscription.Delivery>, w: U64)
    requires Above(ds, w)
    ensures Kept(LiveOf(ds), w) == LiveOf(ds)
  {
    if ds != [] {
      var front, d := ds[..|ds| - 1], ds[|ds| - 1];
      AboveIsKept(front, w);
      if d.Live? {
        KeptOne(LiveOf(front), d.batch, w);
      } else {
        assert LiveOf(front) + [] == LiveOf(front);
      }
    }
  }

  lemma PollingParts(batches: seq<Batch>, s: Session)
    requires SessionInv(batches, s) && s.phase.Polling? && s.handle.open
    ensures s.view.Read? && EventsOf(s.wire) + [] == s.view.backfill + Flatten(s.written)
    ensures s.written + LiveOf(s.phase.pending) == Kept(s.received, s.view.watermark)
    ensures s.received + LiveOf(s.handle.queue) == AcceptedOf(s.attempts)
    ensures Above(s.handle.queue, s.view.watermark)
  {
  }

  lemma KeptIsHeld(received: seq<Batch>, queue: seq<Subscription.Delivery>, pending: seq<Subscription.Delivery>,
                   written: seq<Batch>, w: U64)
    requires Above(queue, w) && written + LiveOf(pending) == Kept(received, w)
    ensures Kept(received + LiveOf(queue), w) == written + LiveOf(pending + queue)
  {
    KeptConcat(received, LiveOf(queue), w);
    AboveIsKept(queue, w);
    LiveOfConcat(pending, queue);
    Regrouped(written, LiveOf(pending), LiveOf(queue));
  }

  /** What a session at the top of its loop holds is what its stream still lacks. */
  lemma HeldIsOwed(batches: seq<Batch>, s: Session)
    requires SessionInv(batches, s) && s.phase.Polling? && s.handle.open
    ensures s.view.Read? && Stream(s) == EventsOf(s.wire) + Flatten(LiveOf(Held(s)))
  {
    PollingParts(batches, s);
    KeptIsHeld(s.received, s.handle.queue, s.phase.pending, s.written, s.view.watermark);
    FlattenConcat(s.written, LiveOf(Held(s)));
    Regrouped(s.view.backfill, Flatten(s.written), Flatten(LiveOf(Held(s))));
    assert EventsOf(s.wire) + [] == EventsOf(s.wire);
  }

  /** In every state of every run: a session at the top of its loop that has not been told to go, and whose
      events fit the frame limit, can be served by its own handler until it has been sent its whole stream,
      every batch its queue ever accepted. */
  lemma LeftAloneDelivers(config: Config, steps: seq<Step>, v: Server, a: nat) returns (more: seq<Step>, v': Server)
    requires Reaches(config, steps, v) && a < |v.sessions|
    requires v.sessions[a].phase.Polling? && !Signalled(v.sessions[a].handle)
    requires forall i :: 0 <= i < |Held(v.sessions[a])| && Held(v.sessions[a])[i].Live? ==>
      Fits(Held(v.sessions[a])[i].batch, config.maxFrame)
    ensures Reaches(config, steps + more, v') && |v'.sessions| == |v.sessions|
    ensures forall i :: 0 <= i < |more| ==> more[i].Handler? && more[i].a == a
    ensures v.sessions[a].view.Read? && EventsOf(v'.sessions[a].wire) == Stream(v.sessions[a])
  {
    var s := v.sessions[a];
    RunFits(config, steps);
    RunKeeps(config, steps);
    At(v, a);
    RunEvicts(config, steps, v, a);
    FlagIsAsked(config, steps, v, a);
    NoSentinel(Held(s));
    HeldIsOwed(v.batches, s);
    var acts, t := ServeAll(s, config.maxFrame);
    ActsAreSteps(config, steps, v, a, acts, t);
    more, v' := Handlers(a, acts), With(v, a, t);
  }
}
