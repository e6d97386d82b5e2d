/** What every step of a handler thread, and every step of the broadcaster and of a shutdown request
    on its channel, keeps true of a session. Each part of the invariant names just the fields it
    depends on, so a step has to argue only about the parts it touches. */
module SessionInvariants {

  import opened Machine
  import opened EventCaching
  import opened Subscription
  import opened Frames
  import opened Sessions

  // ---------------------------------------------------------------------------------------------
  // The invariant

  ghost predicate Uniform(b: Batch) {
    1 <= b[0].seqno && forall k :: 0 <= k < |b| ==> b[k].seqno == b[0].seqno
  }

  /** Batches come from log frames numbered 1, 2, 3, …; frames without events leave gaps. */
  ghost predicate BatchesInv(batches: seq<Batch>, frames: nat) {
    && (forall i :: 0 <= i < |batches| ==> Uniform(batches[i]) && batches[i][0].seqno <= frames)
    && (forall i, j :: 0 <= i < j < |batches| ==> batches[i][0].seqno < batches[j][0].seqno)
  }

  /** Every batch among the deliveries is uniform and numbered above `w`. */
  ghost predicate Above(ds: seq<Delivery>, w: U64) {
    forall i :: 0 <= i < |ds| && ds[i].Live? ==> Uniform(ds[i].batch) && ds[i].batch[0].seqno > w
  }

  ghost predicate LimitsInv(h: Handle) {
    1 <= h.depth <= HARD_MAX_SEND_QUEUE_DEPTH && h.maxLag <= HARD_MAX_SUBSCRIBER_LAG
  }

  /** The queue is bounded, and a shutdown sentinel never travels without the flag. */
  ghost predicate QueueInv(depth: nat, queue: seq<Delivery>, open: bool, flag: bool) {
    && |queue| <= depth
    && (!open ==> queue == [])
    && Above(queue, 0)
    && (Shutdown in queue ==> flag)
  }

  ghost predicate AttemptsInv(batches: seq<Batch>, joined: nat, attempts: seq<Attempt>) {
    && joined + |attempts| <= |batches|
    && forall k :: 0 <= k < |attempts| ==> attempts[k].batch == batches[joined + k]
  }

  /** Nothing the channel accepted is lost, duplicated or reordered between the two threads. */
  ghost predicate ChannelInv(open: bool, queue: seq<Delivery>, received: seq<Batch>, accepted: seq<Batch>) {
    && (open ==> received + LiveOf(queue) == accepted)
    && received <= accepted
  }

  ghost predicate ViewInv(batches: seq<Batch>, joined: nat, resumeFrom: U64, view: CacheView) {
    view.Read? ==> joined <= view.snap <= |batches| && BackfillInv(batches[..view.snap], resumeFrom, view)
  }

  /** The backfill is the whole history above `low`, and its last number is the newest one. */
  ghost predicate BackfillInv(seen: seq<Batch>, resumeFrom: U64, v: CacheView)
    requires v.Read?
  {
    && v.watermark == LastSeq(v.backfill)
    && (v.backfill != [] ==>
          && seen != [] && v.watermark == seen[|seen| - 1][0].seqno
          && v.low < v.watermark && v.backfill == After(Flatten(seen), v.low))
    && (resumeFrom != 0 && resumeFrom != FROM_OLDEST ==>
          v.low == resumeFrom && v.backfill == After(Flatten(seen), resumeFrom))
    && (resumeFrom == 0 ==> v.backfill == [])
  }

  ghost predicate OnlyEvents(wire: seq<OutboundFrame>) {
    forall i :: 0 <= i < |wire| ==> wire[i].Event?
  }

  /** Everything the client is owed once the batches `written` are through. */
  function Sofar(view: CacheView, written: seq<Batch>): seq<CachedEvent>
    requires view.Read?
  {
    view.backfill + Flatten(written)
  }

  /** Live mode: `rest` and then `pending` remain to be written. */
  ghost predicate LiveInv(view: CacheView, wire: seq<OutboundFrame>, received: seq<Batch>, written: seq<Batch>,
                          pending: seq<Delivery>, rest: seq<CachedEvent>) {
    && view.Read?
    && OnlyEvents(wire)
    && Above(pending, 0)
    && EventsOf(wire) + rest == Sofar(view, written)
    && written + LiveOf(pending) == Kept(received, view.watermark)
  }

  ghost predicate PollInv(view: CacheView, wire: seq<OutboundFrame>, received: seq<Batch>, written: seq<Batch>,
                          pending: seq<Delivery>, queue: seq<Delivery>, last: U64) {
    && LiveInv(view, wire, received, written, pending, [])
    && Above(queue, view.watermark)
    && last == LastSeq(EventsOf(wire))
  }

  ghost predicate WritingInv(view: CacheView, wire: seq<OutboundFrame>, received: seq<Batch>, written: seq<Batch>,
                             pending: seq<Delivery>, queue: seq<Delivery>, rest: seq<CachedEvent>, seqno: U64) {
    && LiveInv(view, wire, received, written, pending, rest)
    && Above(queue, view.watermark)
    && (forall i :: 0 <= i < |rest| ==> rest[i].seqno == seqno)
    && (rest == [] ==> LastSeq(EventsOf(wire)) == seqno)
  }

  ghost predicate BackfillingInv(view: CacheView, wire: seq<OutboundFrame>, received: seq<Batch>, written: seq<Batch>,
                                 rest: seq<CachedEvent>, last: U64) {
    && view.Read? && received == [] && written == []
    && OnlyEvents(wire)
    && EventsOf(wire) + rest == view.backfill
    && last == LastSeq(EventsOf(wire))
  }

  ghost predicate DrainingInv(view: CacheView, wire: seq<OutboundFrame>, received: seq<Batch>, written: seq<Batch>,
                              pending: seq<Delivery>, max: U64, last: U64) {
    && view.Read? && written == []
    && OnlyEvents(wire)
    && Above(pending, 0)
    && EventsOf(wire) == view.backfill
    && max == view.watermark == last == LastSeq(view.backfill)
    && LiveOf(pending) == Kept(received, max)
  }

  /** A stream ends inside what is owed; if a closing frame made it out, it ends exactly there and the
      frame names the last number delivered. */
  ghost predicate EndedInv(view: CacheView, wire: seq<OutboundFrame>, received: seq<Batch>, written: seq<Batch>) {
    && (forall i :: 0 <= i < |wire| - 1 ==> wire[i].Event?)
    && (view.Unread? ==> EventsOf(wire) == [] && (wire != [] ==> wire[|wire| - 1].Truncated?))
    && (view.Read? ==> written <= Kept(received, view.watermark) && EventsOf(wire) <= Sofar(view, written))
    && (view.Read? && wire != [] ==> FarewellInv(wire[|wire| - 1], EventsOf(wire), Sofar(view, written)))
  }

  ghost predicate FarewellInv(f: OutboundFrame, events: seq<CachedEvent>, owed: seq<CachedEvent>) {
    f.LagExceeded? || f.ServerShutdown? ==> events == owed && f.lastDelivered == LastSeq(events)
  }

  ghost predicate WireInv(phase: Phase, view: CacheView, wire: seq<OutboundFrame>, received: seq<Batch>,
                          written: seq<Batch>, queue: seq<Delivery>, last: U64) {
    match phase
    case Joined => wire == [] && received == [] && written == [] && view.Unread? && last == 0
    case Refusing(_) => wire == [] && received == [] && written == [] && view.Unread? && last == 0
    case Backfilling(rest) => BackfillingInv(view, wire, received, written, rest, last)
    case Draining(max, pending) => DrainingInv(view, wire, received, written, pending, max, last)
    case Polling(pending) => PollInv(view, wire, received, written, pending, queue, last)
    case PollingGone(pending) => PollInv(view, wire, received, written, pending, queue, last)
    case Taking(pending) => PollInv(view, wire, received, written, pending, queue, last)
    case Writing(rest, seqno, pending) => WritingInv(view, wire, received, written, pending, queue, rest, seqno)
    case Closing => EndedInv(view, wire, received, written)
    case Unregistered => EndedInv(view, wire, received, written)
    case Left(_) => EndedInv(view, wire, received, written)
  }

  ghost predicate SessionInv(batches: seq<Batch>, s: Session) {
    && LimitsInv(s.handle)
    && QueueInv(s.handle.depth, s.handle.queue, s.handle.open, s.handle.shutdownRequested)
    && AttemptsInv(batches, s.joined, s.attempts)
    && ChannelInv(s.handle.open, s.handle.queue, s.received, AcceptedOf(s.attempts))
    && ViewInv(batches, s.joined, s.resumeFrom, s.view)
    && WireInv(s.phase, s.view, s.wire, s.received, s.written, s.handle.queue, s.handle.lastDelivered)
    && (s.phase.Left? ==> !s.handle.open)
  }

  // ---------------------------------------------------------------------------------------------
  // Ending a stream

  lemma LiveEnds(view: CacheView, wire: seq<OutboundFrame>, received: seq<Batch>, written: seq<Batch>,
                 pending: seq<Delivery>, rest: seq<CachedEvent>)
    requires LiveInv(view, wire, received, written, pending, rest)
    ensures EndedInv(view, wire, received, written)
  {
  }

  /** A closing frame written between batches. */
  lemma FarewellKeeps(batches: seq<Batch>, s: Session, pending: seq<Delivery>, f: OutboundFrame, outcome: Outcome)
    requires SessionInv(batches, s)
    requires LiveInv(s.view, s.wire, s.received, s.written, pending, [])
    requires f == ServerShutdown(LastSeq(EventsOf(s.wire))) || f == LagExceeded(LastSeq(EventsOf(s.wire)))
    ensures SessionInv(batches, Goodbye(s, f, outcome))
  {
    LiveEnds(s.view, s.wire, s.received, s.written, pending, []);
    FarewellEnds(s.view, s.wire, s.received, s.written, f);
  }

  lemma FarewellEnds(view: CacheView, wire: seq<OutboundFrame>, received: seq<Batch>, written: seq<Batch>,
                     f: OutboundFrame)
    requires OnlyEvents(wire)
    requires EndedInv(view, wire, received, written)
    requires view.Read? && EventsOf(wire) + [] == Sofar(view, written)
    requires f == ServerShutdown(LastSeq(EventsOf(wire))) || f == LagExceeded(LastSeq(EventsOf(wire)))
    ensures EndedInv(view, wire + [f], received, written)
  {
    EventsOfOne(wire, f);
  }

  lemma GiveUpKeeps(batches: seq<Batch>, s: Session)
    requires SessionInv(batches, s)
    requires s.phase.Backfilling? || s.phase.Writing? || s.phase.Taking?
    ensures SessionInv(batches, GiveUp(s))
  {
    match s.phase
    case Backfilling(rest) => BackfillEnds(s.view, s.wire, rest, s.handle.lastDelivered);
    case Writing(rest, seqno, pending) => LiveEnds(s.view, s.wire, s.received, s.written, pending, rest);
    case Taking(pending) => LiveEnds(s.view, s.wire, s.received, s.written, pending, []);
  }

  lemma BackfillEnds(view: CacheView, wire: seq<OutboundFrame>, rest: seq<CachedEvent>, last: U64)
    requires BackfillingInv(view, wire, [], [], rest, last)
    ensures EndedInv(view, wire, [], [])
  {
    assert view.backfill + Flatten([]) == view.backfill;
  }

  lemma AbandonKeeps(batches: seq<Batch>, s: Session, leaked: bool)
    requires SessionInv(batches, s)
    requires s.phase.Refusing? || s.phase.Unregistered?
    ensures SessionInv(batches, Abandon(s, leaked))
  {
  }

  // ---------------------------------------------------------------------------------------------
  // Writing

  lemma WritesKeep(batches: seq<Batch>, s: Session)
    requires SessionInv(batches, s)
    requires s.phase.Refusing? || ((s.phase.Backfilling? || s.phase.Writing?) && s.phase.rest != [])
    ensures SessionInv(batches, WriteStep(s))
  {
    match s.phase
    case Refusing(hint) =>
      EventsOfOne([], Truncated(hint));
    case Backfilling(rest) =>
      BackfillWrite(s.view, s.wire, s.received, s.written, rest, s.handle.lastDelivered);
    case Writing(rest, seqno, pending) =>
      LiveWrite(s.view, s.wire, s.received, s.written, pending, s.handle.queue, rest, seqno);
  }

  lemma OneMoreEvent(wire: seq<OutboundFrame>, e: CachedEvent)
    requires OnlyEvents(wire)
    ensures OnlyEvents(wire + [EventFrame(e)])
    ensures EventsOf(wire + [EventFrame(e)]) == EventsOf(wire) + [e]
    ensures LastSeq(EventsOf(wire + [EventFrame(e)])) == e.seqno
  {
    EventsOfOne(wire, EventFrame(e));
  }

  lemma BackfillWrite(view: CacheView, wire: seq<OutboundFrame>, received: seq<Batch>, written: seq<Batch>,
                      rest: seq<CachedEvent>, last: U64)
    requires BackfillingInv(view, wire, received, written, rest, last)
    requires rest != []
    ensures BackfillingInv(view, wire + [EventFrame(rest[0])], received, written, rest[1..], rest[0].seqno)
  {
    OneMoreEvent(wire, rest[0]);
    assert rest == [rest[0]] + rest[1..];
    assert EventsOf(wire) + rest == EventsOf(wire) + [rest[0]] + rest[1..];
  }

  lemma LiveWrite(view: CacheView, wire: seq<OutboundFrame>, received: seq<Batch>, written: seq<Batch>,
                  pending: seq<Delivery>, queue: seq<Delivery>, rest: seq<CachedEvent>, seqno: U64)
    requires WritingInv(view, wire, received, written, pending, queue, rest, seqno)
    requires rest != []
    ensures WritingInv(view, wire + [EventFrame(rest[0])], received, written, pending, queue, rest[1..], seqno)
  {
    OneMoreEvent(wire, rest[0]);
    assert rest == [rest[0]] + rest[1..];
    assert EventsOf(wire) + rest == EventsOf(wire) + [rest[0]] + rest[1..];
  }

  lemma EndBatchKeeps(batches: seq<Batch>, s: Session)
    requires SessionInv(batches, s)
    requires s.phase.Writing? && s.phase.rest == []
    ensures SessionInv(batches, s.(handle := s.handle.(lastDelivered := s.phase.seqno),
                                   phase := Polling(s.phase.pending)))
  {
  }

  // ---------------------------------------------------------------------------------------------
  // The hand-over from backfill to live delivery

  lemma EndBackfillKeeps(batches: seq<Batch>, s: Session)
    requires SessionInv(batches, s)
    requires s.phase.Backfilling? && s.phase.rest == []
    ensures var m := s.handle.lastDelivered;
            SessionInv(batches, s.(phase := if m > 0 then Draining(m, []) else Polling([])))
  {
    assert EventsOf(s.wire) == s.view.backfill;
    assert LiveOf([]) == [] && Kept([], s.view.watermark) == [];
    assert s.view.backfill + Flatten([]) == s.view.backfill;
  }

  lemma DrainKeeps(batches: seq<Batch>, s: Session)
    requires SessionInv(batches, s)
    requires s.phase.Draining?
    ensures SessionInv(batches, DrainStep(s))
  {
    var q := s.handle.queue;
    if q == [] {
      DrainEnds(s.view, s.wire, s.received, s.phase.pending, s.phase.maxBackfilled, s.handle.lastDelivered);
    } else {
      PopKeeps(s.handle.depth, q, s.handle.open, s.handle.shutdownRequested);
      ReceiveKeeps(s.handle.open, q, s.received, AcceptedOf(s.attempts));
      DrainOne(s.view, s.wire, s.received, s.written, s.phase.pending, s.phase.maxBackfilled,
             s.handle.lastDelivered, q[0]);
    }
  }

  lemma DrainEnds(view: CacheView, wire: seq<OutboundFrame>, received: seq<Batch>, pending: seq<Delivery>, max: U64,
                  last: U64)
    requires DrainingInv(view, wire, received, [], pending, max, last)
    ensures LiveInv(view, wire, received, [], pending, [])
  {
    assert view.backfill + Flatten([]) == view.backfill;
  }

  lemma PopKeeps(depth: nat, queue: seq<Delivery>, open: bool, flag: bool)
    requires QueueInv(depth, queue, open, flag)
    requires queue != []
    ensures QueueInv(depth, queue[1..], open, flag)
    ensures WellFormed(queue[0])
  {
  }

  ghost predicate WellFormed(d: Delivery) {
    d.Live? ==> Uniform(d.batch)
  }

  function AddReceived(received: seq<Batch>, d: Delivery): seq<Batch> {
    if d.Live? then received + [d.batch] else received
  }

  lemma ReceiveKeeps(open: bool, queue: seq<Delivery>, received: seq<Batch>, accepted: seq<Batch>)
    requires ChannelInv(open, queue, received, accepted)
    requires queue != [] && open
    ensures ChannelInv(open, queue[1..], AddReceived(received, queue[0]), accepted)
  {
    LiveOfHead(queue);
    assert received + LiveOf(queue) == AddReceived(received, queue[0]) + LiveOf(queue[1..]);
  }

  lemma DrainOne(view: CacheView, wire: seq<OutboundFrame>, received: seq<Batch>, written: seq<Batch>,
                 pending: seq<Delivery>, max: U64, last: U64, d: Delivery)
    requires DrainingInv(view, wire, received, written, pending, max, last)
    requires WellFormed(d)
    ensures var pending' := if d.Shutdown? || d.batch[0].seqno > max then pending + [d] else pending;
            DrainingInv(view, wire, AddReceived(received, d), written, pending', max, last)
  {
    LiveOfConcat(pending, [d]);
    LiveOfOne(d);
    if d.Live? {
      KeptOne(received, d.batch, max);
    }
  }

  lemma TakeKeeps(batches: seq<Batch>, s: Session, outcome: Outcome)
    requires SessionInv(batches, s)
    requires s.phase.Taking? && (s.phase.pending != [] || s.handle.queue != [])
    ensures SessionInv(batches, TakeStep(s, outcome))
  {
    if s.phase.pending != [] {
      TakePendingKeeps(batches, s, outcome);
    } else {
      TakeQueuedKeeps(batches, s, outcome);
    }
  }

  lemma TakePendingKeeps(batches: seq<Batch>, s: Session, outcome: Outcome)
    requires SessionInv(batches, s)
    requires s.phase.Taking? && s.phase.pending != []
    ensures SessionInv(batches, TakeStep(s, outcome))
  {
    var pending := s.phase.pending;
    if pending[0].Live? {
      StartPending(s.view, s.wire, s.received, s.written, pending);
    } else {
      FarewellKeeps(batches, s, pending, ServerShutdown(s.handle.lastDelivered), outcome);
    }
  }

  lemma StartPending(view: CacheView, wire: seq<OutboundFrame>, received: seq<Batch>, written: seq<Batch>,
                     pending: seq<Delivery>)
    requires LiveInv(view, wire, received, written, pending, [])
    requires pending != [] && pending[0].Live?
    ensures LiveInv(view, wire, received, written + [pending[0].batch], pending[1..], pending[0].batch)
    ensures Uniform(pending[0].batch)
  {
    var b := pending[0].batch;
    LiveOfHead(pending);
    var later := LiveOf(pending[1..]);
    Regroup(written, b, later);
    OneMoreBatch(view, wire, written, b);
  }

  lemma Regroup(xs: seq<Batch>, b: Batch, ys: seq<Batch>)
    ensures xs + ([b] + ys) == (xs + [b]) + ys
  {
  }

  lemma OneMoreBatch(view: CacheView, wire: seq<OutboundFrame>, written: seq<Batch>, b: Batch)
    requires view.Read?
    requires EventsOf(wire) + [] == Sofar(view, written)
    ensures EventsOf(wire) + b == Sofar(view, written + [b])
  {
    FlattenOne(written, b);
    assert view.backfill + (Flatten(written) + b) == (view.backfill + Flatten(written)) + b;
    assert EventsOf(wire) + [] == EventsOf(wire);
  }

  lemma TakeQueuedKeeps(batches: seq<Batch>, s: Session, outcome: Outcome)
    requires SessionInv(batches, s)
    requires s.phase.Taking? && s.phase.pending == [] && s.handle.queue != []
    ensures SessionInv(batches, TakeStep(s, outcome))
  {
    if s.handle.queue[0].Live? {
      TakeLiveKeeps(batches, s, outcome);
    } else {
      PopSentinel(batches, s);
      var s' := s.(handle := s.handle.(queue := s.handle.queue[1..]));
      FarewellKeeps(batches, s', [], ServerShutdown(s.handle.lastDelivered), outcome);
    }
  }

  lemma PopSentinel(batches: seq<Batch>, s: Session)
    requires SessionInv(batches, s)
    requires s.phase.Taking? && s.handle.queue != [] && s.handle.queue[0].Shutdown?
    ensures SessionInv(batches, s.(handle := s.handle.(queue := s.handle.queue[1..])))
  {
    PopKeeps(s.handle.depth, s.handle.queue, s.handle.open, s.handle.shutdownRequested);
    ReceiveKeeps(s.handle.open, s.handle.queue, s.received, AcceptedOf(s.attempts));
  }

  lemma TakeLiveKeeps(batches: seq<Batch>, s: Session, outcome: Outcome)
    requires SessionInv(batches, s)
    requires s.phase.Taking? && s.phase.pending == [] && s.handle.queue != [] && s.handle.queue[0].Live?
    ensures SessionInv(batches, TakeStep(s, outcome))
  {
    PopKeeps(s.handle.depth, s.handle.queue, s.handle.open, s.handle.shutdownRequested);
    ReceiveKeeps(s.handle.open, s.handle.queue, s.received, AcceptedOf(s.attempts));
    StartQueued(s.view, s.wire, s.received, s.written, s.handle.queue[0].batch);
  }

  lemma StartQueued(view: CacheView, wire: seq<OutboundFrame>, received: seq<Batch>, written: seq<Batch>, b: Batch)
    requires LiveInv(view, wire, received, written, [], [])
    requires b[0].seqno > view.watermark
    ensures LiveInv(view, wire, received + [b], written + [b], [], b)
  {
    KeptOne(received, b, view.watermark);
    OneMoreBatch(view, wire, written, b);
  }

  // ---------------------------------------------------------------------------------------------
  // The cache query

  lemma {:induction false} FlattenOrdered(batches: seq<Batch>, frames: nat)
    requires BatchesInv(batches, frames)
    ensures Ordered(Flatten(batches))
    ensures batches != [] ==> Flatten(batches) != [] && LastSeq(Flatten(batches)) == batches[|batches| - 1][0].seqno
    ensures batches == [] ==> Flatten(batches) == []
  {
    if batches != [] {
      var front := batches[..|batches| - 1];
      FlattenOrdered(front, frames);
      if front != [] {
        var f := Flatten(front);
        assert f[|f| - 1].seqno == front[|front| - 1][0].seqno;
      }
    }
  }

  /** The one cache query of a connection, made when the cache holds what is left of all batches. */
  lemma ReadCacheKeeps(batches: seq<Batch>, frames: nat, s: Session, cache: Cache)
    requires SessionInv(batches, s)
    requires s.phase.Joined?
    requires BatchesInv(batches, frames)
    requires Summarises(cache, Flatten(batches))
    ensures SessionInv(batches, ReadCacheStep(s, cache, |batches|))
  {
    assert batches[..|batches|] == batches;
    QueryIsBackfill(batches, frames, s.resumeFrom, cache);
    var s' := ReadCacheStep(s, cache, |batches|);
    if s'.view.Read? {
      StartBackfill(s', s'.phase.rest);
    }
  }

  lemma StartBackfill(s: Session, rest: seq<CachedEvent>)
    requires s.wire == [] && s.received == [] && s.written == [] && s.handle.lastDelivered == 0
    requires s.view.Read? && s.view.backfill == rest
    ensures BackfillingInv(s.view, s.wire, s.received, s.written, rest, s.handle.lastDelivered)
  {
  }

  /** What the answer says about the history, in the terms the session keeps. */
  lemma QueryIsBackfill(batches: seq<Batch>, frames: nat, resumeFrom: U64, cache: Cache)
    requires BatchesInv(batches, frames)
    requires Summarises(cache, Flatten(batches))
    ensures Range(cache, resumeFrom).AtLiveTail? ==>
      BackfillInv(batches, resumeFrom, Read(|batches|, resumeFrom, [], 0))
    ensures Range(cache, resumeFrom).InWindow? ==>
      var es := Range(cache, resumeFrom).events;
      var low := if resumeFrom == FROM_OLDEST && cache.buffer != [] then LeastResume(cache) else resumeFrom;
      BackfillInv(batches, resumeFrom, Read(|batches|, low, es, LastSeq(es)))
  {
    var h := Flatten(batches);
    FlattenOrdered(batches, frames);
    if resumeFrom != FROM_OLDEST {
      ResumeIsExact(cache, h, resumeFrom);
      LastOfAfter(h, resumeFrom);
    } else if cache.buffer != [] {
      FromOldestIsAfter(cache, h);
      LastOfAfter(h, LeastResume(cache));
    }
  }

  lemma LastOfAfter(h: seq<CachedEvent>, low: U64)
    requires Ordered(h)
    ensures After(h, low) != [] ==> h != [] && LastSeq(After(h, low)) == LastSeq(h) && low < LastSeq(h)
  {
    var k := CutPoint(h, low);
  }

  lemma FromOldestIsAfter(cache: Cache, h: seq<CachedEvent>)
    requires Summarises(cache, h)
    requires cache.buffer != []
    ensures Range(cache, FROM_OLDEST) == InWindow(After(h, LeastResume(cache)))
  {
    NothingLostAboveLeast(cache, h);
  }

  // ---------------------------------------------------------------------------------------------
  // Every handler step

  lemma PollsKeep(batches: seq<Batch>, s: Session, act: Action, cache: Cache, maxFrame: nat)
    requires SessionInv(batches, s)
    requires CanAct(s, act, maxFrame)
    requires act.CheckShutdown? || act.CheckGone? || act.Timeout?
    ensures SessionInv(batches, Act(s, act, cache, |batches|, maxFrame))
  {
    match act
    case CheckShutdown(outcome) =>
      FarewellKeeps(batches, s, s.phase.pending, ServerShutdown(s.handle.lastDelivered), outcome);
    case CheckGone(outcome) =>
      FarewellKeeps(batches, s, s.phase.pending, LagExceeded(s.handle.lastDelivered), outcome);
    case Timeout =>
  }

  lemma EndsKeep(batches: seq<Batch>, s: Session, act: Action, cache: Cache, maxFrame: nat)
    requires SessionInv(batches, s)
    requires CanAct(s, act, maxFrame)
    requires act.WriteFail? || act.PeerGone? || act.Unregister? || act.DropReceiver?
    ensures SessionInv(batches, Act(s, act, cache, |batches|, maxFrame))
  {
    if act.DropReceiver? || s.phase.Refusing? {
      AbandonKeeps(batches, s, s.phase.Refusing?);
    } else if !act.Unregister? {
      GiveUpKeeps(batches, s);
    }
  }

  lemma ActKeeps(batches: seq<Batch>, frames: nat, s: Session, act: Action, cache: Cache, maxFrame: nat)
    requires SessionInv(batches, s)
    requires CanAct(s, act, maxFrame)
    requires act.ReadCache? ==> BatchesInv(batches, frames) && Summarises(cache, Flatten(batches))
    ensures SessionInv(batches, Act(s, act, cache, |batches|, maxFrame))
  {
    if act.CheckShutdown? || act.CheckGone? || act.Timeout? {
      PollsKeep(batches, s, act, cache, maxFrame);
    } else if act.WriteFail? || act.PeerGone? || act.Unregister? || act.DropReceiver? {
      EndsKeep(batches, s, act, cache, maxFrame);
    } else {
      match act
      case ReadCache => ReadCacheKeeps(batches, frames, s, cache);
      case WriteOk => WritesKeep(batches, s);
      case EndBackfill => EndBackfillKeeps(batches, s);
      case TryRecv => DrainKeeps(batches, s);
      case Take(outcome) => TakeKeeps(batches, s, outcome);
      case EndBatch => EndBatchKeeps(batches, s);
    }
  }

  // ---------------------------------------------------------------------------------------------
  // Steps of the other threads

  /** A batch is appended to the log of batches. */
  lemma NewBatchKeeps(batches: seq<Batch>, b: Batch, s: Session)
    requires SessionInv(batches, s)
    ensures SessionInv(batches + [b], s)
  {
    if s.view.Read? {
      assert (batches + [b])[..s.view.snap] == batches[..s.view.snap];
    }
  }

  lemma AttemptKeeps(batches: seq<Batch>, joined: nat, attempts: seq<Attempt>, t: Attempt)
    requires AttemptsInv(batches, joined, attempts)
    requires joined + |attempts| + 1 == |batches|
    requires t.batch == batches[|batches| - 1]
    ensures AttemptsInv(batches, joined, attempts + [t])
  {
  }

  /** A delivery joins the queue: what the receiver will see is extended at the end. */
  lemma EnqueueKeeps(open: bool, queue: seq<Delivery>, received: seq<Batch>, accepted: seq<Batch>, d: Delivery)
    requires ChannelInv(open, queue, received, accepted)
    requires open
    ensures ChannelInv(open, queue + [d], received, AddReceived(accepted, d))
  {
    LiveOfConcat(queue, [d]);
    LiveOfOne(d);
    assert received + LiveOf(queue + [d]) == AddReceived(received + LiveOf(queue), d);
  }

  /** Queueing a delivery that outnumbers the watermark leaves the stream invariant alone. */
  lemma EnqueueKeepsWire(s: Session, d: Delivery)
    requires WireInv(s.phase, s.view, s.wire, s.received, s.written, s.handle.queue, s.handle.lastDelivered)
    requires WellFormed(d)
    requires s.view.Read? && d.Live? ==> s.view.watermark < d.batch[0].seqno
    ensures WireInv(s.phase, s.view, s.wire, s.received, s.written, s.handle.queue + [d], s.handle.lastDelivered)
  {
  }

  /** The broadcaster offers the next batch. */
  lemma OfferKeeps(batches: seq<Batch>, s: Session)
    requires SessionInv(batches, s)
    requires s.joined + |s.attempts| + 1 == |batches|
    requires Uniform(batches[|batches| - 1])
    requires s.view.Read? ==> s.view.watermark < batches[|batches| - 1][0].seqno
    ensures SessionInv(batches, Offered(s, batches[|batches| - 1]))
  {
    var b := batches[|batches| - 1];
    var r := TrySend(s.handle, Live(b)).1;
    if r.Sent? {
      AcceptKeeps(batches, s, b, s.handle.(queue := s.handle.queue + [Live(b)]));
    } else {
      RefuseKeeps(batches, s, Attempt(b, r));
    }
  }

  lemma AcceptKeeps(batches: seq<Batch>, s: Session, b: Batch, h: Handle)
    requires SessionInv(batches, s)
    requires s.joined + |s.attempts| + 1 == |batches| && b == batches[|batches| - 1]
    requires Uniform(b)
    requires s.view.Read? ==> s.view.watermark < b[0].seqno
    requires s.handle.open && |s.handle.queue| < s.handle.depth
    requires h == s.handle.(queue := s.handle.queue + [Live(b)])
    ensures SessionInv(batches, s.(handle := h, attempts := s.attempts + [Attempt(b, Sent)]))
  {
    AttemptKeeps(batches, s.joined, s.attempts, Attempt(b, Sent));
    AcceptedOfOne(s.attempts, Attempt(b, Sent));
    EnqueueKeeps(s.handle.open, s.handle.queue, s.received, AcceptedOf(s.attempts), Live(b));
    EnqueueKeepsWire(s, Live(b));
    EnqueueKeepsQueue(s.handle.depth, s.handle.queue, s.handle.open, s.handle.shutdownRequested, Live(b));
  }

  lemma EnqueueKeepsQueue(depth: nat, queue: seq<Delivery>, open: bool, flag: bool, d: Delivery)
    requires QueueInv(depth, queue, open, flag)
    requires open && |queue| < depth
    requires WellFormed(d) && (d.Shutdown? ==> flag)
    ensures QueueInv(depth, queue + [d], open, flag)
  {
  }

  lemma RefuseKeeps(batches: seq<Batch>, s: Session, t: Attempt)
    requires SessionInv(batches, s)
    requires s.joined + |s.attempts| + 1 == |batches| && t.batch == batches[|batches| - 1]
    requires !t.result.Sent?
    ensures SessionInv(batches, s.(attempts := s.attempts + [t]))
  {
    AttemptKeeps(batches, s.joined, s.attempts, t);
    AcceptedOfOne(s.attempts, t);
  }

  lemma SkipKeeps(batches: seq<Batch>, s: Session)
    requires SessionInv(batches, s)
    requires s.joined + |s.attempts| + 1 == |batches|
    ensures SessionInv(batches, Skipped(s, batches[|batches| - 1]))
  {
    RefuseKeeps(batches, s, Attempt(batches[|batches| - 1], Closed));
  }

  /** Lag, the disconnect mark and raising the flag are invisible to the stream. */
  lemma SameChannelKeeps(batches: seq<Batch>, s: Session, h: Handle)
    requires SessionInv(batches, s)
    requires h.depth == s.handle.depth && h.maxLag == s.handle.maxLag
    requires h.queue == s.handle.queue && h.open == s.handle.open && h.lastDelivered == s.handle.lastDelivered
    requires s.handle.shutdownRequested ==> h.shutdownRequested
    ensures SessionInv(batches, s.(handle := h))
  {
    QueueFlag(h.depth, h.queue, h.open, s.handle.shutdownRequested, h.shutdownRequested);
  }

  lemma QueueFlag(depth: nat, queue: seq<Delivery>, open: bool, flag: bool, flag': bool)
    requires QueueInv(depth, queue, open, flag)
    requires flag ==> flag'
    ensures QueueInv(depth, queue, open, flag')
  {
  }

  lemma AccountKeeps(batches: seq<Batch>, s: Session, r: SendResult)
    requires SessionInv(batches, s)
    ensures SessionInv(batches, Accounted(s, r))
  {
    SameChannelKeeps(batches, s, Account(s.handle, r).0);
  }

  lemma FlagKeeps(batches: seq<Batch>, s: Session)
    requires SessionInv(batches, s)
    ensures SessionInv(batches, s.(handle := RaiseFlag(s.handle)))
  {
    SameChannelKeeps(batches, s, RaiseFlag(s.handle));
  }

  lemma SentinelKeeps(batches: seq<Batch>, s: Session)
    requires SessionInv(batches, s)
    requires s.handle.shutdownRequested
    ensures SessionInv(batches, s.(handle := SendSentinel(s.handle).0))
  {
    if s.handle.open {
      EnqueueKeeps(s.handle.open, s.handle.queue, s.received, AcceptedOf(s.attempts), Shutdown);
      EnqueueKeepsWire(s, Shutdown);
    }
  }

  lemma NewSessionKeeps(batches: seq<Batch>, id: nat, depth: nat, maxLag: nat, resumeFrom: U64)
    ensures SessionInv(batches, NewSession(NewHandle(id, depth, maxLag), resumeFrom, |batches|))
  {
  }
}
