/** Subscribers, their bounded queues and the registry
    (runtime/knomosis-event-subscribe/src/subscription.rs).

    `Handle` is the value one subscriber holds, together with its channel. The functions on it are
    the atomic actions the threads perform; the delivery protocol interleaves them, and the classes
    below run them to completion one call at a time. */
module Subscription {

  import opened Machine
  import opened EventCaching

  const HARD_MAX_SEND_QUEUE_DEPTH: nat := 65_536
  const HARD_MAX_SUBSCRIBER_LAG: nat := 1_000_000

  /** All events of one log frame. An empty batch is a caller error and is ruled out by the type. */
  type Batch = b: seq<CachedEvent> | |b| > 0 witness [CachedEvent(1, [])]

  datatype Delivery = Live(batch: Batch) | Shutdown

  datatype SendResult = Sent | Full | Closed

  datatype EnqueueOutcome = Enqueued | Lagging(lag: nat) | LagLimitExceeded | Disconnected

  datatype Handle = Handle(
    id: nat,
    depth: nat,
    maxLag: nat,
    queue: seq<Delivery>,
    open: bool,
    lag: nat,
    disconnected: bool,
    shutdownRequested: bool,
    lastDelivered: U64)

  /** A fresh subscriber. Limits inside the allowed range are kept, others moved to its nearer end. */
  function NewHandle(id: nat, depth: nat, maxLag: nat): (h: Handle)
    ensures 1 <= h.depth <= 65_536 && (1 <= depth <= 65_536 ==> h.depth == depth)
    ensures depth == 0 ==> h.depth == 1
    ensures depth > 65_536 ==> h.depth == 65_536
    ensures h.maxLag <= 1_000_000 && (maxLag <= 1_000_000 ==> h.maxLag == maxLag)
    ensures maxLag > 1_000_000 ==> h.maxLag == 1_000_000
  {
    var clamped :=
      if depth < 1 then 1
      else if depth > HARD_MAX_SEND_QUEUE_DEPTH then HARD_MAX_SEND_QUEUE_DEPTH else depth;
    Handle(id, clamped, Min(maxLag, HARD_MAX_SUBSCRIBER_LAG), [], true, 0, false, false, 0)
  }

  /** `SyncSender::try_send` on the bounded channel. */
  function TrySend(h: Handle, d: Delivery): (Handle, SendResult) {
    if !h.open then (h, Closed)
    else if |h.queue| < h.depth then (h.(queue := h.queue + [d]), Sent)
    else (h, Full)
  }

  /** What `try_enqueue` does with the answer: reset or raise the lag, and mark the subscriber. */
  function Account(h: Handle, r: SendResult): (Handle, EnqueueOutcome) {
    match r
    case Sent => (h.(lag := 0), Enqueued)
    case Full =>
      if h.lag + 1 > h.maxLag then (h.(lag := h.lag + 1, disconnected := true), LagLimitExceeded)
      else (h.(lag := h.lag + 1), Lagging(h.lag + 1))
    case Closed => (h.(disconnected := true), Disconnected)
  }

  function TryEnqueue(h: Handle, batch: Batch): (Handle, EnqueueOutcome) {
    if h.disconnected then (h, Disconnected)
    else
      var (h', r) := TrySend(h, Live(batch));
      Account(h', r)
  }

  function RaiseFlag(h: Handle): Handle {
    h.(shutdownRequested := true)
  }

  /** The best-effort sentinel that follows the flag; a full queue is left alone. */
  function SendSentinel(h: Handle): (Handle, EnqueueOutcome) {
    var (h', r) := TrySend(h, Shutdown);
    match r
    case Sent => (h', Enqueued)
    case Full => (h', Lagging(h.lag))
    case Closed => (h'.(disconnected := true), Disconnected)
  }

  function RequestShutdown(h: Handle): (Handle, EnqueueOutcome) {
    if h.disconnected then (h, Disconnected) else SendSentinel(RaiseFlag(h))
  }

  /** A shutdown request signals or finds the subscriber gone, never evicts a reachable one, and
      leaves the lag counter and every queued batch alone. */
  lemma ShutdownSignalsWithoutEvicting(h: Handle)
    ensures ShutdownSpares(h, RequestShutdown(h).0)
    ensures RequestShutdown(h).1 != LagLimitExceeded
  {
  }

  ghost predicate ShutdownSpares(h: Handle, h': Handle) {
    && (h'.shutdownRequested || h'.disconnected)
    && (h.open && !h.disconnected ==> !h'.disconnected)
    && h'.lag == h.lag
    && (h'.queue == h.queue || h'.queue == h.queue + [Shutdown])
  }

  // ---------------------------------------------------------------------------------------------
  // Objects

  class Subscriber {
    const id: nat
    const depth: nat
    const maxLag: nat
    var queue: seq<Delivery>
    var open: bool
    var lag: nat
    var disconnected: bool
    var shutdownRequested: bool
    var lastDeliveredSeq: U64

    function View(): Handle
      reads this
    {
      Handle(id, depth, maxLag, queue, open, lag, disconnected, shutdownRequested, lastDeliveredSeq)
    }

    constructor (id: nat, queueDepth: nat, maxLag: nat)
      ensures View() == NewHandle(id, queueDepth, maxLag)
    {
      this.id := id;
      this.depth := if queueDepth < 1 then 1
      else if queueDepth > HARD_MAX_SEND_QUEUE_DEPTH then HARD_MAX_SEND_QUEUE_DEPTH else queueDepth;
      this.maxLag := Min(maxLag, HARD_MAX_SUBSCRIBER_LAG);
      this.queue, this.open, this.lag, this.disconnected := [], true, 0, false;
      this.shutdownRequested, this.lastDeliveredSeq := false, 0;
    }

    method TrySendNow(d: Delivery) returns (r: SendResult)
      modifies this`queue
      ensures (View(), r) == TrySend(old(View()), d)
    {
      if !open {
        return Closed;
      }
      if |queue| < depth {
        queue := queue + [d];
        return Sent;
      }
      return Full;
    }

    /** All or nothing: the batch takes one slot or none. */
    method TryEnqueueBatch(batch: Batch) returns (outcome: EnqueueOutcome)
      modifies this`queue, this`lag, this`disconnected
      ensures (View(), outcome) == TryEnqueue(old(View()), batch)
      ensures outcome.Enqueued? <==> !old(disconnected) && open && |old(queue)| < depth
      ensures queue == if outcome.Enqueued? then old(queue) + [Live(batch)] else old(queue)
      ensures outcome.Enqueued? ==> lag == 0
      ensures disconnected <==> outcome.Disconnected? || outcome.LagLimitExceeded?
      ensures outcome.LagLimitExceeded? <==> disconnected && !old(disconnected) && open
      ensures outcome.LagLimitExceeded? || outcome.Lagging? ==> lag == old(lag) + 1
      ensures outcome.LagLimitExceeded? ==> lag > maxLag
      ensures outcome.Lagging? ==> outcome.lag == lag <= maxLag
      ensures outcome.Disconnected? ==> lag == old(lag)
    {
      if disconnected {
        return Disconnected;
      }
      var r := TrySendNow(Live(batch));
      match r
      case Sent =>
        lag := 0;
        return Enqueued;
      case Full =>
        lag := lag + 1;
        if lag > maxLag {
          disconnected := true;
          return LagLimitExceeded;
        }
        return Lagging(lag);
      case Closed =>
        disconnected := true;
        return Disconnected;
    }

    method RequestShutdownNow() returns (outcome: EnqueueOutcome)
      modifies this`queue, this`disconnected, this`shutdownRequested
      ensures (View(), outcome) == RequestShutdown(old(View()))
      ensures ShutdownSpares(old(View()), View())
      ensures outcome.Disconnected? <==> disconnected
      ensures outcome.Enqueued? <==> !old(disconnected) && open && |old(queue)| < depth
      ensures outcome.Lagging? ==> outcome.lag == lag
      ensures shutdownRequested <==> old(shutdownRequested) || !old(disconnected)
      ensures outcome.Enqueued? ==> queue == old(queue) + [Shutdown]
      ensures !outcome.Enqueued? ==> queue == old(queue)
    {
      if disconnected {
        return Disconnected;
      }
      shutdownRequested := true;
      var r := TrySendNow(Shutdown);
      match r
      case Sent =>
        return Enqueued;
      case Full =>
        return Lagging(lag);
      case Closed =>
        disconnected := true;
        return Disconnected;
    }
  }

  datatype BroadcastSummary = BroadcastSummary(enqueued: nat, lagging: nat, evicted: nat, disconnected: nat)

  datatype RegisterError = AtCapacity(active: nat, max: nat)

  function Views(subs: seq<Subscriber>): (hs: seq<Handle>)
    reads subs
    ensures |hs| == |subs|
    ensures forall i :: 0 <= i < |subs| ==> hs[i] == subs[i].View()
  {
    if subs == [] then [] else [subs[0].View()] + Views(subs[1..])
  }

  /** How the members of a snapshot answer a batch, by kind. */
  function Tally(hs: seq<Handle>, batch: Batch): (t: BroadcastSummary)
    ensures t.enqueued + t.lagging + t.evicted + t.disconnected == |hs|
  {
    if hs == [] then BroadcastSummary(0, 0, 0, 0)
    else Tallied(Tally(hs[..|hs| - 1], batch), TryEnqueue(hs[|hs| - 1], batch).1)
  }

  function Tallied(t: BroadcastSummary, o: EnqueueOutcome): BroadcastSummary {
    match o
    case Enqueued => t.(enqueued := t.enqueued + 1)
    case Lagging(_) => t.(lagging := t.lagging + 1)
    case LagLimitExceeded => t.(evicted := t.evicted + 1)
    case Disconnected => t.(disconnected := t.disconnected + 1)
  }

  // How a member answers a batch, by what it is before.

  predicate Takes(h: Handle) {
    !h.disconnected && h.open && |h.queue| < h.depth
  }

  predicate FallsBehind(h: Handle) {
    !h.disconnected && h.open && |h.queue| >= h.depth && h.lag + 1 <= h.maxLag
  }

  predicate GoesOver(h: Handle) {
    !h.disconnected && h.open && |h.queue| >= h.depth && h.lag + 1 > h.maxLag
  }

  predicate IsGone(h: Handle) {
    h.disconnected || !h.open
  }

  /** The positions at which `p` holds. */
  function Where(hs: seq<Handle>, p: Handle -> bool): set<nat> {
    set i: nat | i < |hs| && p(hs[i])
  }

  lemma WhereOne(hs: seq<Handle>, h: Handle, p: Handle -> bool)
    ensures |Where(hs + [h], p)| == |Where(hs, p)| + if p(h) then 1 else 0
  {
    if p(h) {
      assert Where(hs + [h], p) == Where(hs, p) + {|hs|};
    } else {
      assert Where(hs + [h], p) == Where(hs, p);
    }
  }

  lemma SituationOf(h: Handle, batch: Batch)
    ensures TryEnqueue(h, batch).1.Enqueued? <==> Takes(h)
    ensures TryEnqueue(h, batch).1.Lagging? <==> FallsBehind(h)
    ensures TryEnqueue(h, batch).1.LagLimitExceeded? <==> GoesOver(h)
    ensures TryEnqueue(h, batch).1.Disconnected? <==> IsGone(h)
  {
  }

  /** Each counter is the number of members in one of four situations that exclude each other. */
  lemma {:induction false} TallyCounts(hs: seq<Handle>, batch: Batch)
    ensures Tally(hs, batch).enqueued == |Where(hs, Takes)|
    ensures Tally(hs, batch).lagging == |Where(hs, FallsBehind)|
    ensures Tally(hs, batch).evicted == |Where(hs, GoesOver)|
    ensures Tally(hs, batch).disconnected == |Where(hs, IsGone)|
  {
    if hs == [] {
      assert Where(hs, Takes) == Where(hs, FallsBehind) == Where(hs, GoesOver) == Where(hs, IsGone) == {};
    } else {
      var front, h := hs[..|hs| - 1], hs[|hs| - 1];
      TallyCounts(front, batch);
      assert hs == front + [h];
      SituationOf(h, batch);
      WhereOne(front, h, Takes);
      WhereOne(front, h, FallsBehind);
      WhereOne(front, h, GoesOver);
      WhereOne(front, h, IsGone);
    }
  }

  lemma TallyNext(hs: seq<Handle>, i: nat, batch: Batch)
    requires i < |hs|
    ensures Tally(hs[..i + 1], batch) == Tallied(Tally(hs[..i], batch), TryEnqueue(hs[i], batch).1)
  {
    assert hs[..i + 1][..i] == hs[..i];
  }

  /** `retain(|s| s.id != id)` */
  function WithoutId(subs: seq<Subscriber>, id: nat): seq<Subscriber> {
    if subs == [] then []
    else WithoutId(subs[..|subs| - 1], id) + if subs[|subs| - 1].id != id then [subs[|subs| - 1]] else []
  }

  ghost predicate DistinctIds(subs: seq<Subscriber>) {
    forall i, j :: 0 <= i < j < |subs| ==> subs[i].id != subs[j].id
  }

  lemma {:induction false} WithoutIdConcat(a: seq<Subscriber>, b: seq<Subscriber>, id: nat)
    ensures WithoutId(a + b, id) == WithoutId(a, id) + WithoutId(b, id)
  {
    if b == [] {
      assert a + b == a;
    } else {
      WithoutIdConcat(a, b[..|b| - 1], id);
      assert (a + b)[..|a + b| - 1] == a + b[..|b| - 1];
    }
  }

  lemma {:induction false} WithoutAbsentId(subs: seq<Subscriber>, id: nat)
    requires forall k :: 0 <= k < |subs| ==> subs[k].id != id
    ensures WithoutId(subs, id) == subs
  {
    if subs != [] {
      WithoutAbsentId(subs[..|subs| - 1], id);
      assert subs == subs[..|subs| - 1] + [subs[|subs| - 1]];
    }
  }

  /** With distinct ids, removal by id takes out exactly one element. */
  lemma WithoutIdRemovesOne(subs: seq<Subscriber>, k: nat)
    requires DistinctIds(subs)
    requires k < |subs|
    ensures WithoutId(subs, subs[k].id) == subs[..k] + subs[k + 1..]
  {
    RemoveBetween(subs[..k], subs[k], subs[k + 1..]);
    SplitAround(subs, k);
  }

  lemma SplitAround(subs: seq<Subscriber>, k: nat)
    requires k < |subs|
    ensures subs == subs[..k] + ([subs[k]] + subs[k + 1..])
  {
  }

  lemma RemoveBetween(a: seq<Subscriber>, x: Subscriber, b: seq<Subscriber>)
    requires forall k :: 0 <= k < |a| ==> a[k].id != x.id
    requires forall k :: 0 <= k < |b| ==> b[k].id != x.id
    ensures WithoutId(a + ([x] + b), x.id) == a + b
  {
    RemoveHead(x, b);
    WithoutIdConcat(a, [x] + b, x.id);
    WithoutAbsentId(a, x.id);
  }

  lemma {:induction false} RemoveHead(x: Subscriber, b: seq<Subscriber>)
    requires forall k :: 0 <= k < |b| ==> b[k].id != x.id
    ensures WithoutId([x] + b, x.id) == b
  {
    var s := [x] + b;
    if b == [] {
      assert s[..|s| - 1] == [];
    } else {
      RemoveHead(x, b[..|b| - 1]);
      assert s[..|s| - 1] == [x] + b[..|b| - 1];
      assert b == b[..|b| - 1] + [b[|b| - 1]];
    }
  }

  lemma WithoutIdKeepsOthers(subs: seq<Subscriber>, id: nat)
    requires DistinctIds(subs)
    ensures DistinctIds(WithoutId(subs, id))
    ensures forall s :: s in WithoutId(subs, id) <==> s in subs && s.id != id
  {
    if k :| 0 <= k < |subs| && subs[k].id == id {
      WithoutIdRemovesOne(subs, k);
    } else {
      WithoutAbsentId(subs, id);
    }
  }

  class SubscriberRegistry {
    var subscribers: seq<Subscriber>
    var nextId: nat
    var maxSubscribers: nat

    /** Ids are handed out once each. */
    ghost predicate Valid()
      reads this
    {
      && DistinctIds(subscribers)
      && forall s :: s in subscribers ==> 1 <= s.id <= nextId
    }

    constructor (maxSubscribers: nat)
      ensures Valid() && subscribers == [] && nextId == 0 && this.maxSubscribers == maxSubscribers
    {
      this.subscribers, this.nextId, this.maxSubscribers := [], 0, maxSubscribers;
    }

    method Register(queueDepth: nat, maxLag: nat) returns (r: Result<Subscriber, RegisterError>)
      requires Valid()
      modifies this`subscribers, this`nextId
      ensures Valid()
      ensures r.Failure? <==> maxSubscribers != 0 && |old(subscribers)| >= maxSubscribers
      ensures r.Failure? ==> subscribers == old(subscribers) && nextId == old(nextId)
      ensures r.Failure? ==> r.error == AtCapacity(|old(subscribers)|, maxSubscribers)
      ensures r.Success? ==>
        && fresh(r.value)
        && subscribers == old(subscribers) + [r.value]
        && nextId == old(nextId) + 1
        && r.value.View() == NewHandle(nextId, queueDepth, maxLag)
        && (forall s :: s in old(subscribers) ==> s.id != r.value.id)
    {
      if maxSubscribers != 0 && |subscribers| >= maxSubscribers {
        return Failure(AtCapacity(|subscribers|, maxSubscribers));
      }
      nextId := nextId + 1;
      var sub := new Subscriber(nextId, queueDepth, maxLag);
      assert sub.View().id == nextId;
      subscribers := subscribers + [sub];
      return Success(sub);
    }

    /** Removes that subscriber and no other; a second call changes nothing. */
    method Unregister(sub: Subscriber)
      requires Valid()
      modifies this`subscribers
      ensures Valid()
      ensures subscribers == WithoutId(old(subscribers), sub.id)
      ensures forall s :: s in subscribers ==> s.id != sub.id
      ensures forall s :: s in old(subscribers) && s.id != sub.id ==> s in subscribers
    {
      WithoutIdKeepsOthers(subscribers, sub.id);
      subscribers := WithoutId(subscribers, sub.id);
    }

    /** One member of the snapshot is offered the batch; nobody else is touched. */
    static method Offer(snapshot: seq<Subscriber>, i: nat, batch: Batch) returns (outcome: EnqueueOutcome)
      requires DistinctIds(snapshot) && i < |snapshot|
      modifies snapshot[i]
      ensures (snapshot[i].View(), outcome) == TryEnqueue(old(snapshot[i].View()), batch)
      ensures forall j :: 0 <= j < |snapshot| && j != i ==> snapshot[j].View() == old(snapshot[j].View())
    {
      var sub := snapshot[i];
      assert forall j :: 0 <= j < |snapshot| && j != i ==> snapshot[j] != sub;
      outcome := sub.TryEnqueueBatch(batch);
    }

    static method Note(summary: BroadcastSummary, outcome: EnqueueOutcome) returns (next: BroadcastSummary)
      ensures next == Tallied(summary, outcome)
    {
      match outcome
      case Enqueued => next := summary.(enqueued := summary.enqueued + 1);
      case Lagging(_) => next := summary.(lagging := summary.lagging + 1);
      case LagLimitExceeded => next := summary.(evicted := summary.evicted + 1);
      case Disconnected => next := summary.(disconnected := summary.disconnected + 1);
    }

    /** The loop over the snapshot; the summary is kept answer by answer. */
    static method OfferAll(snapshot: seq<Subscriber>, batch: Batch) returns (summary: BroadcastSummary)
      requires DistinctIds(snapshot)
      modifies snapshot
      ensures forall i :: 0 <= i < |snapshot| ==> snapshot[i].View() == TryEnqueue(old(snapshot[i].View()), batch).0
      ensures summary == Tally(old(Views(snapshot)), batch)
    {
      summary := BroadcastSummary(0, 0, 0, 0);
      ghost var before := Views(snapshot);
      var i := 0;
      while i < |snapshot|
        invariant i <= |snapshot|
        invariant forall j :: 0 <= j < i ==> snapshot[j].View() == TryEnqueue(before[j], batch).0
        invariant forall j :: i <= j < |snapshot| ==> snapshot[j].View() == before[j]
        invariant summary == Tally(before[..i], batch)
      {
        var outcome := Offer(snapshot, i, batch);
        TallyNext(before, i, batch);
        summary := Note(summary, outcome);
        i := i + 1;
      }
      assert before[..i] == before;
    }

    /** Every member of the snapshot sees the batch once, and the four counts say how many had room, fell
        behind, went over their limit or were gone. */
    static method BroadcastToSnapshot(snapshot: seq<Subscriber>, batch: Batch) returns (summary: BroadcastSummary)
      requires DistinctIds(snapshot)
      modifies snapshot
      ensures forall i :: 0 <= i < |snapshot| ==> snapshot[i].View() == TryEnqueue(old(snapshot[i].View()), batch).0
      ensures summary.enqueued == |Where(old(Views(snapshot)), Takes)|
      ensures summary.lagging == |Where(old(Views(snapshot)), FallsBehind)|
      ensures summary.evicted == |Where(old(Views(snapshot)), GoesOver)|
      ensures summary.disconnected == |Where(old(Views(snapshot)), IsGone)|
    {
      TallyCounts(Views(snapshot), batch);
      summary := OfferAll(snapshot, batch);
    }

    /** Signals the members of the snapshot one by one. */
    static method ShutdownSnapshot(snapshot: seq<Subscriber>)
      requires DistinctIds(snapshot)
      modifies snapshot
      ensures forall i :: 0 <= i < |snapshot| ==> snapshot[i].View() == RequestShutdown(old(snapshot[i].View())).0
    {
      var i := 0;
      while i < |snapshot|
        invariant i <= |snapshot|
        invariant forall j :: 0 <= j < i ==> snapshot[j].View() == RequestShutdown(old(snapshot[j].View())).0
        invariant forall j :: i <= j < |snapshot| ==> snapshot[j].View() == old(snapshot[j].View())
      {
        var sub := snapshot[i];
        assert forall j :: 0 <= j < |snapshot| && j != i ==> snapshot[j] != sub;
        var _ := sub.RequestShutdownNow();
        i := i + 1;
      }
    }

    /** Afterwards every registered subscriber is flagged or gone, and none with a live receiver was
        evicted or had its lag touched. */
    method BroadcastShutdown()
      requires Valid()
      modifies subscribers
      ensures subscribers == old(subscribers)
      ensures forall i :: 0 <= i < |subscribers| ==>
        && subscribers[i].View() == RequestShutdown(old(subscribers[i].View())).0
        && ShutdownSpares(old(subscribers[i].View()), subscribers[i].View())
    {
      ShutdownSnapshot(subscribers);
      forall j | 0 <= j < |subscribers|
        ensures ShutdownSpares(old(subscribers[j].View()), subscribers[j].View())
      {
        ShutdownSignalsWithoutEvicting(old(subscribers[j].View()));
      }
    }
  }
}
