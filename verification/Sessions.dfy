/** One subscriber connection: the handler thread of
    runtime/knomosis-event-subscribe/src/server.rs (`handle_connection` and `dispatch_live`) cut into
    its atomic steps, and the record of what has been offered to it, taken by it and written for it. */
module Sessions {

  import opened Machine
  import opened EventCaching
  import opened Subscription
  import opened Frames

  /** One `try_enqueue` of the broadcaster: `Closed` also stands for "already marked disconnected". */
  datatype Attempt = Attempt(batch: Batch, result: SendResult)

  /** What the one cache query of a connection saw: the number of batches pushed by then, the bound it
      asked for, the events it got, and the last number among them (0 for none). */
  datatype CacheView =
    | Unread
    | Read(snap: nat, low: U64, backfill: seq<CachedEvent>, watermark: U64)

  datatype Phase =
    | Joined
    | Refusing(hint: U64)
    | Backfilling(rest: seq<CachedEvent>)
    | Draining(maxBackfilled: U64, pending: seq<Delivery>)
    | Polling(pending: seq<Delivery>)
    | PollingGone(pending: seq<Delivery>)
    | Taking(pending: seq<Delivery>)
    | Writing(rest: seq<CachedEvent>, seqno: U64, pending: seq<Delivery>)
    | Closing
    | Unregistered
    | Left(leaked: bool)

  datatype Session = Session(
    handle: Handle,
    resumeFrom: U64,
    phase: Phase,
    wire: seq<OutboundFrame>,
    joined: nat,
    attempts: seq<Attempt>,
    received: seq<Batch>,
    written: seq<Batch>,
    view: CacheView,
    torn: Option<(OutboundFrame, nat)>)

  /** A frame is written whole, or the write fails after `n` of its bytes. */
  datatype Outcome = Whole | Cut(n: nat)

  datatype Action =
    | ReadCache
    | WriteOk
    | WriteFail(n: nat)
    | EndBackfill
    | TryRecv
    | CheckShutdown(outcome: Outcome)
    | CheckGone(outcome: Outcome)
    | Take(outcome: Outcome)
    | Timeout
    | PeerGone
    | EndBatch
    | Unregister
    | DropReceiver

  function NewSession(handle: Handle, resumeFrom: U64, joined: nat): Session {
    Session(handle, resumeFrom, Joined, [], joined, [], [], [], Unread, None)
  }

  function EventFrame(e: CachedEvent): OutboundFrame {
    Event(e.seqno, e.payload)
  }

  /** A failing write leaves fewer bytes than the frame has; a frame the encoder refuses leaves none. */
  predicate Tears(f: OutboundFrame, n: nat, maxFrame: nat) {
    n == 0 || (Encodable(f, maxFrame) && n < |Encoded(f, maxFrame)|)
  }

  predicate CanEnd(f: OutboundFrame, outcome: Outcome, maxFrame: nat) {
    outcome.Cut? ==> Tears(f, outcome.n, maxFrame)
  }

  predicate CanAct(s: Session, act: Action, maxFrame: nat) {
    match act
    case ReadCache => s.phase.Joined?
    case WriteOk =>
      || (s.phase.Backfilling? && s.phase.rest != [] && Encodable(EventFrame(s.phase.rest[0]), maxFrame))
      || (s.phase.Writing? && s.phase.rest != [] && Encodable(EventFrame(s.phase.rest[0]), maxFrame))
      || s.phase.Refusing?
    case WriteFail(n) =>
      || (s.phase.Backfilling? && s.phase.rest != [] && Tears(EventFrame(s.phase.rest[0]), n, maxFrame))
      || (s.phase.Writing? && s.phase.rest != [] && Tears(EventFrame(s.phase.rest[0]), n, maxFrame))
      || (s.phase.Refusing? && Tears(Truncated(s.phase.hint), n, maxFrame))
    case EndBackfill => s.phase.Backfilling? && s.phase.rest == []
    case TryRecv => s.phase.Draining?
    case CheckShutdown(w) => s.phase.Polling? && CanEnd(ServerShutdown(s.handle.lastDelivered), w, maxFrame)
    case CheckGone(w) => s.phase.PollingGone? && CanEnd(LagExceeded(s.handle.lastDelivered), w, maxFrame)
    case Take(w) =>
      && s.phase.Taking? && (s.phase.pending != [] || s.handle.queue != [])
      && CanEnd(ServerShutdown(s.handle.lastDelivered), w, maxFrame)
    // The receive timed out on an empty queue, but a batch may have come in since.
    case Timeout => s.phase.Taking? && s.phase.pending == []
    case PeerGone => s.phase.Taking? && s.phase.pending == []
    case EndBatch => s.phase.Writing? && s.phase.rest == []
    case Unregister => s.phase.Closing?
    case DropReceiver => s.phase.Unregistered?
  }

  function LastSeq(es: seq<CachedEvent>): U64 {
    if es == [] then 0 else es[|es| - 1].seqno
  }

  /** `cache.range(resume_from)` under the cache lock, when `snap` batches have been pushed. */
  function ReadCacheStep(s: Session, cache: Cache, snap: nat): Session {
    match Range(cache, s.resumeFrom)
    case OutOfWindow(hint) => s.(phase := Refusing(hint))
    case AtLiveTail => s.(phase := Backfilling([]), view := Read(snap, s.resumeFrom, [], 0))
    case InWindow(events) =>
      var low := if s.resumeFrom == FROM_OLDEST && cache.buffer != [] then LeastResume(cache) else s.resumeFrom;
      s.(phase := Backfilling(events), view := Read(snap, low, events, LastSeq(events)))
  }

  /** A best-effort closing frame. */
  function Goodbye(s: Session, f: OutboundFrame, outcome: Outcome): Session {
    match outcome
    case Whole => s.(wire := s.wire + [f], phase := Closing)
    case Cut(n) => s.(torn := Some((f, n)), phase := Closing)
  }

  function GiveUp(s: Session): Session {
    s.(handle := s.handle.(disconnected := true), phase := Closing)
  }

  function Tear(s: Session, f: OutboundFrame, n: nat): Session {
    s.(torn := Some((f, n)))
  }

  function Abandon(s: Session, leaked: bool): Session {
    s.(handle := s.handle.(open := false, queue := []), phase := Left(leaked))
  }

  /** One `try_recv` of the duplicate-suppression loop. */
  function DrainStep(s: Session): Session
    requires s.phase.Draining?
  {
    var max, pending := s.phase.maxBackfilled, s.phase.pending;
    if s.handle.queue == [] then s.(phase := Polling(pending))
    else
      var d, rest := s.handle.queue[0], s.handle.queue[1..];
      match d
      case Shutdown =>
        s.(handle := s.handle.(queue := rest), phase := Draining(max, pending + [d]))
      case Live(b) =>
        s.(handle := s.handle.(queue := rest),
           received := s.received + [b],
           phase := Draining(max, if b[0].seqno > max then pending + [d] else pending))
  }

  /** The next delivery: what the drain set aside first, then the channel. */
  function TakeStep(s: Session, outcome: Outcome): Session
    requires s.phase.Taking? && (s.phase.pending != [] || s.handle.queue != [])
  {
    var pending := s.phase.pending;
    if pending != [] then
      Deliver(s, pending[0], pending[1..], outcome)
    else
      var d := s.handle.queue[0];
      var s' := s.(handle := s.handle.(queue := s.handle.queue[1..]),
                   received := if d.Live? then s.received + [d.batch] else s.received);
      Deliver(s', d, [], outcome)
  }

  function Deliver(s: Session, d: Delivery, pending: seq<Delivery>, outcome: Outcome): Session {
    match d
    case Live(b) => s.(phase := Writing(b, b[0].seqno, pending), written := s.written + [b])
    case Shutdown => Goodbye(s, ServerShutdown(s.handle.lastDelivered), outcome)
  }

  function WriteStep(s: Session): Session
    requires s.phase.Refusing? || ((s.phase.Backfilling? || s.phase.Writing?) && s.phase.rest != [])
  {
    match s.phase
    case Refusing(hint) => Goodbye(s, Truncated(hint), Whole)
    case Backfilling(rest) =>
      s.(wire := s.wire + [EventFrame(rest[0])],
         handle := s.handle.(lastDelivered := rest[0].seqno),
         phase := Backfilling(rest[1..]))
    case Writing(rest, seqno, pending) =>
      s.(wire := s.wire + [EventFrame(rest[0])], phase := Writing(rest[1..], seqno, pending))
  }

  function Act(s: Session, act: Action, cache: Cache, snap: nat, maxFrame: nat): Session
    requires CanAct(s, act, maxFrame)
  {
    match act
    case ReadCache => ReadCacheStep(s, cache, snap)
    case WriteOk => WriteStep(s)
    case WriteFail(n) =>
      if s.phase.Refusing? then Tear(Abandon(s, true), Truncated(s.phase.hint), n)
      else Tear(GiveUp(s), EventFrame(s.phase.rest[0]), n)
    case EndBackfill =>
      var m := s.handle.lastDelivered;
      s.(phase := if m > 0 then Draining(m, []) else Polling([]))
    case TryRecv => DrainStep(s)
    case CheckShutdown(outcome) =>
      if s.handle.shutdownRequested then Goodbye(s, ServerShutdown(s.handle.lastDelivered), outcome)
      else s.(phase := PollingGone(s.phase.pending))
    case CheckGone(outcome) =>
      if s.handle.disconnected then Goodbye(s, LagExceeded(s.handle.lastDelivered), outcome)
      else s.(phase := Taking(s.phase.pending))
    case Take(outcome) => TakeStep(s, outcome)
    case Timeout => s.(phase := Polling([]))
    case PeerGone => GiveUp(s)
    case EndBatch =>
      s.(handle := s.handle.(lastDelivered := s.phase.seqno), phase := Polling(s.phase.pending))
    case Unregister => s.(phase := Unregistered)
    case DropReceiver => Abandon(s, false)
  }

  // ---------------------------------------------------------------------------------------------
  // What the broadcaster does to a session

  /** The channel's answer to a batch goes on record. */
  function Offered(s: Session, b: Batch): Session {
    s.(handle := TrySend(s.handle, Live(b)).0, attempts := s.attempts + [Attempt(b, TrySend(s.handle, Live(b)).1)])
  }

  /** The broadcaster settles the lag counter and the disconnect mark. */
  function Accounted(s: Session, r: SendResult): Session {
    s.(handle := Account(s.handle, r).0)
  }

  /** A subscriber already marked disconnected is passed over. */
  function Skipped(s: Session, b: Batch): Session {
    s.(attempts := s.attempts + [Attempt(b, Closed)])
  }

  // ---------------------------------------------------------------------------------------------
  // Reading the record

  /** The event frames among those written, as cached events. */
  function EventsOf(wire: seq<OutboundFrame>): seq<CachedEvent> {
    if wire == [] then []
    else
      var f := wire[|wire| - 1];
      EventsOf(wire[..|wire| - 1]) + if f.Event? then [CachedEvent(f.seqno, f.payload)] else []
  }

  function LiveOf(ds: seq<Delivery>): seq<Batch> {
    if ds == [] then []
    else
      var d := ds[|ds| - 1];
      LiveOf(ds[..|ds| - 1]) + if d.Live? then [d.batch] else []
  }

  /** The batches the channel accepted. */
  function AcceptedOf(attempts: seq<Attempt>): seq<Batch> {
    if attempts == [] then []
    else
      var t := attempts[|attempts| - 1];
      AcceptedOf(attempts[..|attempts| - 1]) + if t.result.Sent? then [t.batch] else []
  }

  /** The batches numbered above `w`. */
  function Kept(bs: seq<Batch>, w: U64): seq<Batch> {
    if bs == [] then []
    else
      var b := bs[|bs| - 1];
      Kept(bs[..|bs| - 1], w) + if b[0].seqno > w then [b] else []
  }

  function Flatten(bs: seq<Batch>): seq<CachedEvent> {
    if bs == [] then [] else Flatten(bs[..|bs| - 1]) + bs[|bs| - 1]
  }

  /** Refusals since the last accepted batch. */
  function Trailing(attempts: seq<Attempt>): nat {
    if attempts == [] then 0
    else
      match attempts[|attempts| - 1].result
      case Sent => 0
      case Full => Trailing(attempts[..|attempts| - 1]) + 1
      case Closed => Trailing(attempts[..|attempts| - 1])
  }

  lemma {:induction false} LiveOfConcat(a: seq<Delivery>, b: seq<Delivery>)
    ensures LiveOf(a + b) == LiveOf(a) + LiveOf(b)
  {
    if b == [] {
      assert a + b == a;
    } else {
      LiveOfConcat(a, b[..|b| - 1]);
      assert (a + b)[..|a + b| - 1] == a + b[..|b| - 1];
    }
  }

  lemma LiveOfHead(ds: seq<Delivery>)
    requires ds != []
    ensures LiveOf(ds) == (if ds[0].Live? then [ds[0].batch] else []) + LiveOf(ds[1..])
  {
    LiveOfConcat([ds[0]], ds[1..]);
    assert [ds[0]] + ds[1..] == ds;
    LiveOfOne(ds[0]);
  }

  lemma LiveOfOne(d: Delivery)
    ensures LiveOf([d]) == if d.Live? then [d.batch] else []
  {
    assert [d][..0] == [];
  }

  lemma {:induction false} KeptConcat(a: seq<Batch>, b: seq<Batch>, w: U64)
    ensures Kept(a + b, w) == Kept(a, w) + Kept(b, w)
  {
    if b == [] {
      assert a + b == a;
    } else {
      KeptConcat(a, b[..|b| - 1], w);
      assert (a + b)[..|a + b| - 1] == a + b[..|b| - 1];
    }
  }

  lemma KeptOne(a: seq<Batch>, b: Batch, w: U64)
    ensures Kept(a + [b], w) == Kept(a, w) + if b[0].seqno > w then [b] else []
  {
    assert (a + [b])[..|a|] == a;
  }

  lemma {:induction false} KeptAll(bs: seq<Batch>, w: U64)
    requires forall i :: 0 <= i < |bs| ==> bs[i][0].seqno > w
    ensures Kept(bs, w) == bs
  {
    if bs != [] {
      KeptAll(bs[..|bs| - 1], w);
      assert bs == bs[..|bs| - 1] + [bs[|bs| - 1]];
    }
  }

  lemma {:induction false} KeptNone(bs: seq<Batch>, w: U64)
    requires forall i :: 0 <= i < |bs| ==> bs[i][0].seqno <= w
    ensures Kept(bs, w) == []
  {
    if bs != [] {
      KeptNone(bs[..|bs| - 1], w);
    }
  }

  lemma {:induction false} FlattenConcat(a: seq<Batch>, b: seq<Batch>)
    ensures Flatten(a + b) == Flatten(a) + Flatten(b)
  {
    if b == [] {
      assert a + b == a;
    } else {
      FlattenConcat(a, b[..|b| - 1]);
      assert (a + b)[..|a + b| - 1] == a + b[..|b| - 1];
    }
  }

  lemma FlattenOne(a: seq<Batch>, b: Batch)
    ensures Flatten(a + [b]) == Flatten(a) + b
  {
    assert (a + [b])[..|a|] == a;
  }

  lemma FlattenHead(bs: seq<Batch>)
    requires bs != []
    ensures Flatten(bs) == bs[0] + Flatten(bs[1..])
  {
    assert bs == [bs[0]] + bs[1..];
    FlattenConcat([bs[0]], bs[1..]);
    FlattenOne([], bs[0]);
    assert [] + [bs[0]] == [bs[0]];
  }

  lemma EventsOfOne(wire: seq<OutboundFrame>, f: OutboundFrame)
    ensures EventsOf(wire + [f]) == EventsOf(wire) + if f.Event? then [CachedEvent(f.seqno, f.payload)] else []
  {
    assert (wire + [f])[..|wire|] == wire;
  }

  lemma AcceptedOfOne(attempts: seq<Attempt>, t: Attempt)
    ensures AcceptedOf(attempts + [t]) == AcceptedOf(attempts) + if t.result.Sent? then [t.batch] else []
  {
    assert (attempts + [t])[..|attempts|] == attempts;
  }

  lemma {:induction false} AcceptedFromAttempts(attempts: seq<Attempt>, b: Batch)
    requires b in AcceptedOf(attempts)
    ensures exists k :: 0 <= k < |attempts| && attempts[k].batch == b && attempts[k].result.Sent?
  {
    var front := attempts[..|attempts| - 1];
    if b in AcceptedOf(front) {
      AcceptedFromAttempts(front, b);
      var k :| 0 <= k < |front| && front[k].batch == b && front[k].result.Sent?;
      assert attempts[k] == front[k];
    } else {
      assert attempts[|attempts| - 1].batch == b;
    }
  }

  // ---------------------------------------------------------------------------------------------
  // The drain as a loop

  /** The duplicate-suppression loop run to its end with no batch coming in meanwhile. */
  function Drained(s: Session): Session
    requires s.phase.Draining?
    decreases |s.handle.queue|
  {
    if s.handle.queue == [] then DrainStep(s) else Drained(DrainStep(s))
  }

  /** What the loop is to keep: batches above the backfill, and every shutdown sentinel. */
  function Survives(d: Delivery, max: U64): seq<Delivery> {
    if d.Live? && d.batch[0].seqno <= max then [] else [d]
  }

  function Survivors(queue: seq<Delivery>, max: U64): seq<Delivery> {
    if queue == [] then [] else Survives(queue[0], max) + Survivors(queue[1..], max)
  }

  lemma DrainOne(s: Session)
    requires s.phase.Draining? && s.handle.queue != []
    ensures var d, rest := s.handle.queue[0], s.handle.queue[1..];
      var max, pending := s.phase.maxBackfilled, s.phase.pending;
      DrainStep(s) == s.(handle := s.handle.(queue := rest),
                         received := s.received + LiveOf([d]),
                         phase := Draining(max, pending + Survives(d, max)))
  {
    LiveOfOne(s.handle.queue[0]);
    assert s.received + [] == s.received && s.phase.pending + [] == s.phase.pending;
  }

  lemma Regrouped<T>(a: seq<T>, b: seq<T>, c: seq<T>)
    ensures (a + b) + c == a + (b + c)
  {
  }

  /** It empties the queue, keeps the survivors in order behind what it had, and takes note of every batch. */
  lemma {:induction false} DrainIsFilter(s: Session)
    requires s.phase.Draining?
    ensures Drained(s).phase == Polling(s.phase.pending + Survivors(s.handle.queue, s.phase.maxBackfilled))
    ensures Drained(s).handle == s.handle.(queue := []) && Drained(s).wire == s.wire
    ensures Drained(s).received == s.received + LiveOf(s.handle.queue)
    decreases |s.handle.queue|
  {
    if s.handle.queue == [] {
      assert s.phase.pending + [] == s.phase.pending && s.received + [] == s.received;
    } else {
      var d, rest, max := s.handle.queue[0], s.handle.queue[1..], s.phase.maxBackfilled;
      DrainOne(s);
      DrainIsFilter(DrainStep(s));
      Regrouped(s.phase.pending, Survives(d, max), Survivors(rest, max));
      Regrouped(s.received, LiveOf([d]), LiveOf(rest));
      LiveOfConcat([d], rest);
      assert [d] + rest == s.handle.queue;
    }
  }
}
