/** Inductive invariants of the event-subscription server over all interleavings. */
module DeliveryInvariants {

  import opened Machine
  import opened EventCaching
  import opened Subscription
  import opened Sessions
  import opened SessionInvariants
  import opened LagPolicy
  import opened Delivery

  // ---------------------------------------------------------------------------------------------
  // The invariant

  /** The cache is what is left of everything broadcast. */
  ghost predicate CoreInv(frames: nat, batches: seq<Batch>, cache: Cache) {
    frames < FROM_OLDEST && BatchesInv(batches, frames) && Summarises(cache, Flatten(batches))
  }

  ghost predicate Distinct(s: seq<nat>) {
    forall i, j :: 0 <= i < j < |s| ==> s[i] != s[j]
  }

  ghost predicate InRange(s: seq<nat>, n: nat) {
    forall i :: 0 <= i < |s| ==> s[i] < n
  }

  /** Which phases still hold a registry entry. */
  predicate Listed(p: Phase) {
    !p.Unregistered? && (p.Left? ==> p.leaked)
  }

  /** Ids are never reused, and a session is listed exactly until it unregisters. */
  ghost predicate RegistryInv(registry: seq<nat>, sessions: seq<Session>) {
    && Distinct(registry)
    && InRange(registry, |sessions|)
    && (forall a :: 0 <= a < |sessions| ==> sessions[a].handle.id == a + 1)
    && (forall a :: 0 <= a < |sessions| ==> (a in registry <==> Listed(sessions[a].phase)))
  }

  ghost predicate SessionsInv(batches: seq<Batch>, sessions: seq<Session>) {
    forall a :: 0 <= a < |sessions| ==> SessionInv(batches, sessions[a])
  }

  ghost predicate BusyInv(broadcaster: Broadcaster, n: nat) {
    broadcaster.Busy? ==>
      && Distinct(broadcaster.todo) && InRange(broadcaster.todo, n)
      && (!broadcaster.stage.Checking? ==> broadcaster.todo != [])
  }

  predicate Unvisited(broadcaster: Broadcaster, a: nat) {
    broadcaster.Busy? && a in broadcaster.todo && !(broadcaster.stage.Accounting? && broadcaster.todo[0] == a)
  }

  /** A registered session has been offered every batch since it joined, except perhaps the one being
      broadcast; and no cache query falls inside a broadcast. */
  ghost predicate OfferInv(count: nat, broadcaster: Broadcaster, a: nat, s: Session) {
    && (Unvisited(broadcaster, a) ==> s.joined + |s.attempts| + 1 == count)
    && (!Unvisited(broadcaster, a) && Listed(s.phase) ==> s.joined + |s.attempts| == count)
    && (s.view.Read? ==> s.view.snap <= s.joined + |s.attempts|)
    && (s.view.Read? && broadcaster.Busy? ==> s.view.snap < count)
  }

  function OwedTo(broadcaster: Broadcaster, a: nat): Owed {
    if broadcaster.Busy? && broadcaster.todo != [] && broadcaster.todo[0] == a then
      match broadcaster.stage
      case Checking => Nothing
      case Sending => Cleared
      case Accounting(r) => Due(r)
    else Nothing
  }

  ghost predicate LagOk(broadcaster: Broadcaster, a: nat, s: Session) {
    LagInv(s.handle.lag, s.handle.maxLag, s.handle.disconnected, s.attempts, OwedTo(broadcaster, a))
  }

  ghost predicate VisitsInv(count: nat, broadcaster: Broadcaster, sessions: seq<Session>) {
    forall a :: 0 <= a < |sessions| ==>
      OfferInv(count, broadcaster, a, sessions[a]) && LagOk(broadcaster, a, sessions[a])
  }

  /** A shutdown request has signalled everyone it is done with. */
  ghost predicate ShutterInv(t: Shutter, sessions: seq<Session>) {
    && InRange(t.targets, |sessions|) && t.done + t.todo == t.targets
    && InRange(t.todo, |sessions|) && InRange(t.done, |sessions|)
    && (!t.stage.Looking? ==> t.todo != [])
    && (t.stage.Signalling? ==> sessions[t.todo[0]].handle.shutdownRequested)
    && (forall i :: 0 <= i < |t.done| ==> Signalled(sessions[t.done[i]].handle))
  }

  predicate Signalled(h: Handle) {
    h.shutdownRequested || h.disconnected
  }

  ghost predicate ShuttersInv(shutters: seq<Shutter>, sessions: seq<Session>) {
    forall k :: 0 <= k < |shutters| ==> ShutterInv(shutters[k], sessions)
  }

  ghost predicate ServerInv(v: Server) {
    && CoreInv(v.frames, v.batches, v.cache)
    && RegistryInv(v.registry, v.sessions)
    && SessionsInv(v.batches, v.sessions)
    && BusyInv(v.broadcaster, |v.sessions|)
    && (v.broadcaster.Busy? ==> v.batches != [])
    && VisitsInv(|v.batches|, v.broadcaster, v.sessions)
    && ShuttersInv(v.shutters, v.sessions)
  }

  lemma InvIsSound(v: Server)
    requires ServerInv(v)
    ensures Sound(v)
  {
    forall k | 0 <= k < |v.shutters| && v.shutters[k].todo != []
      ensures v.shutters[k].todo[0] < |v.sessions|
    {
      assert ShutterInv(v.shutters[k], v.sessions);
    }
  }

  lemma At(v: Server, a: nat)
    requires ServerInv(v) && a < |v.sessions|
    ensures SessionInv(v.batches, v.sessions[a])
    ensures OfferInv(|v.batches|, v.broadcaster, a, v.sessions[a]) && LagOk(v.broadcaster, a, v.sessions[a])
  {
  }

  // ---------------------------------------------------------------------------------------------
  // Changing one session

  /** What a step may do to a session without disturbing the rest of the server. */
  ghost predicate Quiet(s: Session, s': Session) {
    && s'.handle.id == s.handle.id
    && s'.handle.lag == s.handle.lag && s'.handle.maxLag == s.handle.maxLag
    && (s.handle.disconnected ==> s'.handle.disconnected)
    && (s.handle.shutdownRequested ==> s'.handle.shutdownRequested)
    && s'.joined == s.joined && s'.attempts == s.attempts
    && (s'.view == s.view || s.view.Unread?)
  }

  /** The session is where it was; marks are only ever added. */
  ghost predicate Follows(s: Session, s': Session) {
    && s'.handle.id == s.handle.id && s'.phase == s.phase
    && (s.handle.disconnected ==> s'.handle.disconnected)
    && (s.handle.shutdownRequested ==> s'.handle.shutdownRequested)
  }

  lemma SignalsStay(shutters: seq<Shutter>, sessions: seq<Session>, a: nat, s': Session)
    requires ShuttersInv(shutters, sessions)
    requires a < |sessions|
    requires sessions[a].handle.disconnected ==> s'.handle.disconnected
    requires sessions[a].handle.shutdownRequested ==> s'.handle.shutdownRequested
    ensures ShuttersInv(shutters, sessions[a := s'])
  {
    forall k | 0 <= k < |shutters|
      ensures ShutterInv(shutters[k], sessions[a := s'])
    {
      assert ShutterInv(shutters[k], sessions);
    }
  }

  lemma SessionsStay(batches: seq<Batch>, sessions: seq<Session>, a: nat, s': Session)
    requires SessionsInv(batches, sessions)
    requires a < |sessions|
    requires SessionInv(batches, s')
    ensures SessionsInv(batches, sessions[a := s'])
  {
  }

  lemma RegistryStays(registry: seq<nat>, sessions: seq<Session>, a: nat, s': Session)
    requires RegistryInv(registry, sessions)
    requires a < |sessions|
    requires s'.handle.id == sessions[a].handle.id
    requires Listed(s'.phase) == Listed(sessions[a].phase)
    ensures RegistryInv(registry, sessions[a := s'])
  {
  }

  lemma VisitsStay(count: nat, broadcaster: Broadcaster, sessions: seq<Session>, a: nat, s': Session)
    requires VisitsInv(count, broadcaster, sessions)
    requires a < |sessions|
    requires OfferInv(count, broadcaster, a, s') && LagOk(broadcaster, a, s')
    ensures VisitsInv(count, broadcaster, sessions[a := s'])
  {
  }

  lemma QuietVisit(count: nat, broadcaster: Broadcaster, a: nat, s: Session, s': Session)
    requires OfferInv(count, broadcaster, a, s) && LagOk(broadcaster, a, s)
    requires Quiet(s, s')
    requires Listed(s'.phase) ==> Listed(s.phase)
    requires s'.view == s.view || (broadcaster.Idle? && (s'.view.Read? ==> s'.view.snap == count && Listed(s.phase)))
    ensures OfferInv(count, broadcaster, a, s') && LagOk(broadcaster, a, s')
  {
  }

  // ---------------------------------------------------------------------------------------------
  // Handlers

  lemma ActIsQuiet(s: Session, act: Action, cache: Cache, snap: nat, maxFrame: nat)
    requires CanAct(s, act, maxFrame)
    requires s.phase.Joined? ==> s.view.Unread?
    ensures Quiet(s, Act(s, act, cache, snap, maxFrame))
    ensures !act.ReadCache? ==> Act(s, act, cache, snap, maxFrame).view == s.view
    ensures act.ReadCache? && Act(s, act, cache, snap, maxFrame).view.Read? ==>
            Act(s, act, cache, snap, maxFrame).view.snap == snap
  {
  }

  lemma ActListed(s: Session, act: Action, cache: Cache, snap: nat, maxFrame: nat)
    requires CanAct(s, act, maxFrame)
    ensures Listed(Act(s, act, cache, snap, maxFrame).phase) <==> Listed(s.phase) && !act.Unregister?
  {
  }

  lemma HandlerKeeps(v: Server, a: nat, act: Action)
    requires ServerInv(v)
    requires Sound(v) && Enabled(v, Handler(a, act))
    ensures ServerInv(Next(v, Handler(a, act)))
  {
    var s := v.sessions[a];
    var s' := Act(s, act, v.cache, |v.batches|, v.config.maxFrame);
    assert SessionInv(v.batches, s);
    ActKeeps(v.batches, v.frames, s, act, v.cache, v.config.maxFrame);
    ActIsQuiet(s, act, v.cache, |v.batches|, v.config.maxFrame);
    ActListed(s, act, v.cache, |v.batches|, v.config.maxFrame);
    SessionsStay(v.batches, v.sessions, a, s');
    SignalsStay(v.shutters, v.sessions, a, s');
    QuietVisit(|v.batches|, v.broadcaster, a, s, s');
    VisitsStay(|v.batches|, v.broadcaster, v.sessions, a, s');
    if act.Unregister? {
      UnregisterKeeps(v.registry, v.sessions, a, s');
    } else {
      RegistryStays(v.registry, v.sessions, a, s');
    }
  }

  lemma {:induction false} RemoveIdIsRemoval(registry: seq<nat>, sessions: seq<Session>, a: nat)
    requires Distinct(registry) && InRange(registry, |sessions|)
    requires a < |sessions|
    requires forall i :: 0 <= i < |sessions| ==> sessions[i].handle.id == i + 1
    ensures var r := RemoveId(registry, sessions, sessions[a].handle.id);
            Distinct(r) && (forall x :: x in r <==> x in registry && x != a)
  {
    if registry != [] {
      var front := registry[..|registry| - 1];
      RemoveIdIsRemoval(front, sessions, a);
      var r := RemoveId(registry, sessions, sessions[a].handle.id);
      var r' := RemoveId(front, sessions, sessions[a].handle.id);
      var last := registry[|registry| - 1];
      assert registry == front + [last];
      assert last !in front;
      assert r == r' || r == r' + [last];
    }
  }

  lemma UnregisterKeeps(registry: seq<nat>, sessions: seq<Session>, a: nat, s': Session)
    requires RegistryInv(registry, sessions)
    requires a < |sessions|
    requires s'.handle.id == sessions[a].handle.id
    requires !Listed(s'.phase)
    ensures RegistryInv(RemoveId(registry, sessions, sessions[a].handle.id), sessions[a := s'])
  {
    RemoveIdIsRemoval(registry, sessions, a);
    var r := RemoveId(registry, sessions, sessions[a].handle.id);
    forall i | 0 <= i < |r|
      ensures r[i] < |sessions|
    {
      assert r[i] in r;
    }
  }

  // ---------------------------------------------------------------------------------------------
  // The extractor

  lemma {:induction false} PushAllKeeps(cache: Cache, h: seq<CachedEvent>, es: seq<CachedEvent>)
    requires Summarises(cache, h)
    requires Ordered(h + es)
    ensures Summarises(PushAll(cache, es), h + es)
    ensures PushAll(cache, es).capacity == cache.capacity
  {
    if es == [] {
      assert h + es == h;
    } else {
      var front, e := es[..|es| - 1], es[|es| - 1];
      assert h + es == (h + front) + [e];
      assert forall i :: 0 <= i < |h + front| ==> (h + front)[i] == (h + es)[i];
      PushAllKeeps(cache, h, front);
      PushExtendsHistory(PushAll(cache, front), h + front, e);
    }
  }

  /** Every event of every frame is accepted by the cache, so the extractor never halts on a push. */
  lemma FrameKeepsCore(frames: nat, batches: seq<Batch>, cache: Cache, b: Batch)
    requires CoreInv(frames, batches, cache)
    requires frames + 1 < FROM_OLDEST
    requires forall i :: 0 <= i < |b| ==> b[i].seqno == frames + 1
    ensures CoreInv(frames + 1, batches + [b], PushAll(cache, b))
  {
    assert Uniform(b);
    assert BatchesInv(batches + [b], frames + 1);
    FlattenOrdered(batches + [b], frames + 1);
    FlattenOne(batches, b);
    PushAllKeeps(cache, Flatten(batches), b);
  }

  lemma NewBatchVisits(count: nat, registry: seq<nat>, sessions: seq<Session>)
    requires VisitsInv(count, Idle, sessions)
    requires RegistryInv(registry, sessions)
    requires SnapsWithin(count, sessions)
    ensures VisitsInv(count + 1, Busy(registry, Checking), sessions)
  {
    forall a | 0 <= a < |sessions|
      ensures OfferInv(count + 1, Busy(registry, Checking), a, sessions[a])
      ensures LagOk(Busy(registry, Checking), a, sessions[a])
    {
      assert OfferInv(count, Idle, a, sessions[a]) && LagOk(Idle, a, sessions[a]);
    }
  }

  /** No session has seen more of the log than there is. */
  ghost predicate SnapsWithin(count: nat, sessions: seq<Session>) {
    forall a :: 0 <= a < |sessions| && sessions[a].view.Read? ==> sessions[a].view.snap <= count
  }

  lemma NewBatchSessions(batches: seq<Batch>, b: Batch, sessions: seq<Session>)
    requires SessionsInv(batches, sessions)
    ensures SessionsInv(batches + [b], sessions)
    ensures SnapsWithin(|batches|, sessions)
  {
    forall a | 0 <= a < |sessions|
      ensures SessionInv(batches + [b], sessions[a])
      ensures sessions[a].view.Read? ==> sessions[a].view.snap <= |batches|
    {
      assert SessionInv(batches, sessions[a]);
      NewBatchKeeps(batches, b, sessions[a]);
    }
  }

  lemma LogBatchKeeps(v: Server, b: Batch)
    requires ServerInv(v)
    requires Sound(v) && Enabled(v, LogFrame(b))
    ensures ServerInv(LogFrameStep(v, b))
  {
    FrameKeepsCore(v.frames, v.batches, v.cache, b);
    NewBatchSessions(v.batches, b, v.sessions);
    NewBatchVisits(|v.batches|, v.registry, v.sessions);
  }

  lemma LogFrameKeeps(v: Server, events: seq<CachedEvent>)
    requires ServerInv(v)
    requires Sound(v) && Enabled(v, LogFrame(events))
    ensures ServerInv(Next(v, LogFrame(events)))
  {
    if events != [] {
      LogBatchKeeps(v, events);
    } else {
      assert PushAll(v.cache, events) == v.cache;
    }
  }

  // ---------------------------------------------------------------------------------------------
  // The broadcaster

  /** Replace the session being visited and move the broadcaster on. */
  lemma VisitKeeps(count: nat, sessions: seq<Session>, before: Broadcaster, after: Broadcaster, s': Session)
    requires before.Busy? && before.todo != [] && before.todo[0] < |sessions|
    requires BusyInv(before, |sessions|)
    requires after == Busy(before.todo[1..], Checking) || (after.Busy? && after.todo == before.todo)
    requires VisitsInv(count, before, sessions)
    requires OfferInv(count, after, before.todo[0], s') && LagOk(after, before.todo[0], s')
    ensures VisitsInv(count, after, sessions[before.todo[0] := s'])
  {
    var a0 := before.todo[0];
    forall a | 0 <= a < |sessions| && a != a0
      ensures OfferInv(count, after, a, sessions[a]) && LagOk(after, a, sessions[a])
    {
      assert OfferInv(count, before, a, sessions[a]) && LagOk(before, a, sessions[a]);
      assert a in before.todo <==> a in before.todo[1..];
    }
  }

  lemma VisitedKeeps(v: Server, after: Broadcaster, s': Session)
    requires ServerInv(v)
    requires v.broadcaster.Busy? && v.broadcaster.todo != [] && v.broadcaster.todo[0] < |v.sessions|
    requires after == Busy(v.broadcaster.todo[1..], Checking) || (after.Busy? && after.todo == v.broadcaster.todo)
    requires OfferInv(|v.batches|, after, v.broadcaster.todo[0], s') && LagOk(after, v.broadcaster.todo[0], s')
    requires Follows(v.sessions[v.broadcaster.todo[0]], s')
    requires SessionInv(v.batches, s')
    ensures ServerInv(With(v, v.broadcaster.todo[0], s').(broadcaster := after))
  {
    var a := v.broadcaster.todo[0];
    NoLongerIn(v.broadcaster.todo);
    VisitKeeps(|v.batches|, v.sessions, v.broadcaster, after, s');
    OneSessionKeeps(v, a, s', With(v, a, s'));
  }

  lemma SkipVisit(count: nat, todo: seq<nat>, s: Session, b: Batch)
    requires Distinct(todo) && todo != []
    requires OfferInv(count, Busy(todo, Checking), todo[0], s) && LagOk(Busy(todo, Checking), todo[0], s)
    requires s.handle.disconnected
    ensures OfferInv(count, Busy(todo[1..], Checking), todo[0], Skipped(s, b))
    ensures LagOk(Busy(todo[1..], Checking), todo[0], Skipped(s, b))
    ensures Follows(s, Skipped(s, b))
  {
    SkipKeepsLag(s.handle, s.attempts, Attempt(b, Closed));
    NoLongerIn(todo);
  }

  lemma SkipReady(batches: seq<Batch>, todo: seq<nat>, s: Session, b: Batch) returns (s': Session)
    requires SessionInv(batches, s) && batches != [] && b == batches[|batches| - 1]
    requires Distinct(todo) && todo != []
    requires OfferInv(|batches|, Busy(todo, Checking), todo[0], s) && LagOk(Busy(todo, Checking), todo[0], s)
    requires s.handle.disconnected
    ensures Follows(s, s')
    ensures SessionInv(batches, s')
    ensures OfferInv(|batches|, Busy(todo[1..], Checking), todo[0], s') && LagOk(Busy(todo[1..], Checking), todo[0], s')
    ensures s' == Skipped(s, b)
  {
    SkipKeeps(batches, s);
    SkipVisit(|batches|, todo, s, b);
    s' := Skipped(s, b);
  }

  lemma SkippedKeeps(v: Server)
    requires ServerInv(v) && Sound(v)
    requires v.broadcaster.Busy? && v.broadcaster.todo != [] && v.broadcaster.stage.Checking?
    requires v.sessions[v.broadcaster.todo[0]].handle.disconnected
    ensures ServerInv(BroadcastStep(v))
  {
    var a := v.broadcaster.todo[0];
    var after := Busy(v.broadcaster.todo[1..], Checking);
    At(v, a);
    var s' := SkipReady(v.batches, v.broadcaster.todo, v.sessions[a], v.batches[|v.batches| - 1]);
    VisitedKeeps(v, after, s');
    SkippingIs(v, after, s');
  }

  lemma SkippingIs(v: Server, after: Broadcaster, s': Session)
    requires Sound(v)
    requires v.broadcaster.Busy? && v.broadcaster.todo != [] && v.broadcaster.stage.Checking?
    requires v.sessions[v.broadcaster.todo[0]].handle.disconnected
    requires s' == Skipped(v.sessions[v.broadcaster.todo[0]], v.batches[|v.batches| - 1])
    requires after == Busy(v.broadcaster.todo[1..], Checking)
    ensures BroadcastStep(v) == With(v, v.broadcaster.todo[0], s').(broadcaster := after)
  {
  }

  lemma ClearedKeeps(v: Server)
    requires ServerInv(v) && Sound(v)
    requires v.broadcaster.Busy? && v.broadcaster.todo != [] && v.broadcaster.stage.Checking?
    requires !v.sessions[v.broadcaster.todo[0]].handle.disconnected
    ensures ServerInv(BroadcastStep(v))
  {
    var a := v.broadcaster.todo[0];
    var s := v.sessions[a];
    At(v, a);
    VisitKeeps(|v.batches|, v.sessions, v.broadcaster, Busy(v.broadcaster.todo, Sending), s);
    assert v.sessions[a := s] == v.sessions;
  }

  lemma NoLongerIn(todo: seq<nat>)
    requires Distinct(todo) && todo != []
    ensures todo[0] !in todo[1..]
    ensures Distinct(todo[1..])
  {
  }

  /** The parts of the invariant that do not follow the broadcaster. */
  lemma OneSessionKeeps(v: Server, a: nat, s': Session, v': Server)
    requires ServerInv(v)
    requires a < |v.sessions|
    requires SessionInv(v.batches, s')
    requires Follows(v.sessions[a], s')
    requires v'.sessions == v.sessions[a := s']
    ensures RegistryInv(v.registry, v'.sessions)
    ensures SessionsInv(v.batches, v'.sessions)
    ensures ShuttersInv(v.shutters, v'.sessions)
  {
    RegistryStays(v.registry, v.sessions, a, s');
    SessionsStay(v.batches, v.sessions, a, s');
    SignalsStay(v.shutters, v.sessions, a, s');
  }

  lemma SendVisit(count: nat, todo: seq<nat>, s: Session, b: Batch)
    requires todo != []
    requires OfferInv(count, Busy(todo, Sending), todo[0], s) && LagOk(Busy(todo, Sending), todo[0], s)
    ensures var r := TrySend(s.handle, Live(b)).1;
            && OfferInv(count, Busy(todo, Accounting(r)), todo[0], Offered(s, b))
            && LagOk(Busy(todo, Accounting(r)), todo[0], Offered(s, b))
    ensures Follows(s, Offered(s, b))
  {
    SendKeepsLag(s.handle, s.attempts, Attempt(b, TrySend(s.handle, Live(b)).1));
  }

  lemma SendReady(batches: seq<Batch>, frames: nat, todo: seq<nat>, s: Session, b: Batch) returns (s': Session,
                  after: Broadcaster)
    requires BatchesInv(batches, frames) && batches != [] && b == batches[|batches| - 1]
    requires SessionInv(batches, s) && todo != []
    requires OfferInv(|batches|, Busy(todo, Sending), todo[0], s) && LagOk(Busy(todo, Sending), todo[0], s)
    ensures after.Busy? && after.todo == todo
    ensures Follows(s, s')
    ensures SessionInv(batches, s')
    ensures OfferInv(|batches|, after, todo[0], s') && LagOk(after, todo[0], s')
    ensures s' == Offered(s, b) && after == Busy(todo, Accounting(TrySend(s.handle, Live(b)).1))
  {
    SendSession(batches, frames, s);
    SendVisit(|batches|, todo, s, b);
    s', after := Offered(s, b), Busy(todo, Accounting(TrySend(s.handle, Live(b)).1));
  }

  lemma SendingIs(v: Server, after: Broadcaster, s': Session)
    requires Sound(v)
    requires v.broadcaster.Busy? && v.broadcaster.stage.Sending? && v.broadcaster.todo != []
    requires var s, b := v.sessions[v.broadcaster.todo[0]], v.batches[|v.batches| - 1];
             s' == Offered(s, b) && after == Busy(v.broadcaster.todo, Accounting(TrySend(s.handle, Live(b)).1))
    ensures BroadcastStep(v) == With(v, v.broadcaster.todo[0], s').(broadcaster := after)
  {
  }

  lemma SentKeeps(v: Server)
    requires ServerInv(v) && Sound(v)
    requires v.broadcaster.Busy? && v.broadcaster.stage.Sending?
    ensures ServerInv(BroadcastStep(v))
  {
    var a := v.broadcaster.todo[0];
    At(v, a);
    var s', after := SendReady(v.batches, v.frames, v.broadcaster.todo, v.sessions[a], v.batches[|v.batches| - 1]);
    VisitedKeeps(v, after, s');
    SendingIs(v, after, s');
  }

  lemma SendSession(batches: seq<Batch>, frames: nat, s: Session)
    requires BatchesInv(batches, frames) && batches != []
    requires SessionInv(batches, s)
    requires s.joined + |s.attempts| + 1 == |batches|
    requires s.view.Read? ==> s.view.snap < |batches|
    ensures SessionInv(batches, Offered(s, batches[|batches| - 1]))
  {
    WatermarkIsOld(batches, frames, s);
    OfferKeeps(batches, s);
  }

  /** A session that queried the cache before this broadcast has a watermark below its batch. */
  lemma WatermarkIsOld(batches: seq<Batch>, frames: nat, s: Session)
    requires BatchesInv(batches, frames) && batches != []
    requires ViewInv(batches, s.joined, s.resumeFrom, s.view)
    requires s.view.Read? ==> s.view.snap < |batches|
    ensures Uniform(batches[|batches| - 1])
    ensures s.view.Read? ==> s.view.watermark < batches[|batches| - 1][0].seqno
  {
    if s.view.Read? && s.view.backfill != [] {
      var seen := batches[..s.view.snap];
      assert seen[|seen| - 1] == batches[s.view.snap - 1];
    }
  }

  lemma AccountVisit(count: nat, todo: seq<nat>, s: Session, r: SendResult)
    requires Distinct(todo) && todo != []
    requires OfferInv(count, Busy(todo, Accounting(r)), todo[0], s) && LagOk(Busy(todo, Accounting(r)), todo[0], s)
    ensures OfferInv(count, Busy(todo[1..], Checking), todo[0], Accounted(s, r))
    ensures LagOk(Busy(todo[1..], Checking), todo[0], Accounted(s, r))
    ensures Follows(s, Accounted(s, r))
  {
    AccountKeepsLag(s.handle, s.attempts, r);
    NoLongerIn(todo);
  }

  lemma AccountReady(v: Server, after: Broadcaster) returns (s': Session)
    requires ServerInv(v) && Sound(v)
    requires v.broadcaster.Busy? && v.broadcaster.stage.Accounting?
    requires after == Busy(v.broadcaster.todo[1..], Checking)
    ensures Follows(v.sessions[v.broadcaster.todo[0]], s')
    ensures SessionInv(v.batches, s')
    ensures OfferInv(|v.batches|, after, v.broadcaster.todo[0], s') && LagOk(after, v.broadcaster.todo[0], s')
    ensures s' == Accounted(v.sessions[v.broadcaster.todo[0]], v.broadcaster.stage.result)
  {
    var a := v.broadcaster.todo[0];
    var s, r := v.sessions[a], v.broadcaster.stage.result;
    At(v, a);
    AccountKeeps(v.batches, s, r);
    AccountVisit(|v.batches|, v.broadcaster.todo, s, r);
    s' := Accounted(s, r);
  }

  lemma AccountingIs(v: Server, after: Broadcaster, s': Session)
    requires Sound(v)
    requires v.broadcaster.Busy? && v.broadcaster.stage.Accounting? && v.broadcaster.todo != []
    requires s' == Accounted(v.sessions[v.broadcaster.todo[0]], v.broadcaster.stage.result)
    requires after == Busy(v.broadcaster.todo[1..], Checking)
    ensures BroadcastStep(v) == With(v, v.broadcaster.todo[0], s').(broadcaster := after)
  {
  }

  lemma AccountedKeeps(v: Server)
    requires ServerInv(v) && Sound(v)
    requires v.broadcaster.Busy? && v.broadcaster.stage.Accounting?
    ensures ServerInv(BroadcastStep(v))
  {
    var after := Busy(v.broadcaster.todo[1..], Checking);
    var s' := AccountReady(v, after);
    VisitedKeeps(v, after, s');
    AccountingIs(v, after, s');
  }

  lemma ReleaseKeeps(v: Server)
    requires ServerInv(v) && Sound(v)
    requires v.broadcaster.Busy? && v.broadcaster.todo == []
    ensures ServerInv(BroadcastStep(v))
  {
    forall a | 0 <= a < |v.sessions|
      ensures OfferInv(|v.batches|, Idle, a, v.sessions[a]) && LagOk(Idle, a, v.sessions[a])
    {
      assert OfferInv(|v.batches|, v.broadcaster, a, v.sessions[a]) && LagOk(v.broadcaster, a, v.sessions[a]);
    }
  }

  lemma BroadcastKeeps(v: Server)
    requires ServerInv(v)
    requires Sound(v) && Enabled(v, Broadcast)
    ensures ServerInv(Next(v, Broadcast))
  {
    if v.broadcaster.todo == [] {
      ReleaseKeeps(v);
    } else {
      match v.broadcaster.stage
      case Checking =>
        if v.sessions[v.broadcaster.todo[0]].handle.disconnected { SkippedKeeps(v); } else { ClearedKeeps(v); }
      case Sending => SentKeeps(v);
      case Accounting(_) => AccountedKeeps(v);
    }
  }

  // ---------------------------------------------------------------------------------------------
  // Registration and shutdown

  lemma RegisterKeeps(v: Server, depth: nat, maxLag: nat, resumeFrom: U64)
    requires ServerInv(v) && Sound(v)
    ensures ServerInv(RegisterStep(v, depth, maxLag, resumeFrom))
  {
    var v' := RegisterStep(v, depth, maxLag, resumeFrom);
    if v' != v {
      var n := |v.sessions|;
      var s := v'.sessions[n];
      NewSessionKeeps(v.batches, n + 1, depth, maxLag, resumeFrom);
      JoinRegistry(v.registry, v.sessions, s);
      assert n !in v.registry;
      NewVisit(|v.batches|, v.broadcaster, v.sessions, s);
      NewTargets(v.shutters, v.sessions, s);
    }
  }

  lemma NewTargets(shutters: seq<Shutter>, sessions: seq<Session>, s: Session)
    requires ShuttersInv(shutters, sessions)
    ensures ShuttersInv(shutters, sessions + [s])
  {
    forall k | 0 <= k < |shutters|
      ensures ShutterInv(shutters[k], sessions + [s])
    {
      assert ShutterInv(shutters[k], sessions);
    }
  }

  lemma JoinRegistry(registry: seq<nat>, sessions: seq<Session>, s: Session)
    requires RegistryInv(registry, sessions)
    requires s.handle.id == |sessions| + 1 && Listed(s.phase)
    ensures RegistryInv(registry + [|sessions|], sessions + [s])
  {
  }

  lemma NewVisit(count: nat, broadcaster: Broadcaster, sessions: seq<Session>, s: Session)
    requires VisitsInv(count, broadcaster, sessions)
    requires BusyInv(broadcaster, |sessions|)
    requires s.joined == count && s.attempts == [] && s.view.Unread? && s.handle.lag == 0 && !s.handle.disconnected
    ensures VisitsInv(count, broadcaster, sessions + [s])
  {
    var n := |sessions|;
    assert broadcaster.Busy? ==> n !in broadcaster.todo;
    assert OfferInv(count, broadcaster, n, s);
    assert LagOk(broadcaster, n, s);
  }

  lemma RequestKeeps(v: Server, todo: seq<nat>)
    requires ServerInv(v)
    requires InRange(todo, |v.sessions|)
    ensures ServerInv(v.(shutters := v.shutters + [Shutter(todo, todo, Looking, [])]))
  {
  }

  lemma ShutKeeps(v: Server, k: nat)
    requires ServerInv(v)
    requires Sound(v) && Enabled(v, Shut(k))
    ensures ServerInv(Next(v, Shut(k)))
  {
    assert ShutterInv(v.shutters[k], v.sessions);
    match v.shutters[k].stage
    case Looking => LookingKeeps(v, k);
    case Flagging => FlaggingKeeps(v, k);
    case Signalling => SignallingKeeps(v, k);
  }

  lemma LookingKeeps(v: Server, k: nat)
    requires ServerInv(v)
    requires Sound(v) && Enabled(v, Shut(k)) && v.shutters[k].stage.Looking?
    ensures ServerInv(ShutStep(v, k))
  {
    assert ShutterInv(v.shutters[k], v.sessions);
    ReplaceShutter(v.shutters, v.sessions, k, ShutStep(v, k).shutters[k]);
  }

  lemma FlaggingKeeps(v: Server, k: nat)
    requires ServerInv(v)
    requires Sound(v) && Enabled(v, Shut(k)) && v.shutters[k].stage.Flagging?
    ensures ServerInv(ShutStep(v, k))
  {
    var t := v.shutters[k];
    var s := v.sessions[t.todo[0]];
    var s' := s.(handle := RaiseFlag(s.handle));
    assert SessionInv(v.batches, s);
    FlagKeeps(v.batches, s);
    ShutterMoves(v, k, s', Shutter(t.targets, t.todo, Signalling, t.done));
    SignalStep(v, k, s', Shutter(t.targets, t.todo, Signalling, t.done));
  }

  lemma SentinelReady(batches: seq<Batch>, s: Session) returns (s': Session)
    requires SessionInv(batches, s) && s.handle.shutdownRequested
    ensures s' == s.(handle := SendSentinel(s.handle).0)
    ensures SessionInv(batches, s') && Quiet(s, s') && s'.view == s.view && s'.phase == s.phase
    ensures s'.handle.shutdownRequested && (s.handle.disconnected ==> s'.handle.disconnected)
  {
    SentinelKeeps(batches, s);
    s' := s.(handle := SendSentinel(s.handle).0);
  }

  lemma SignallingIs(v: Server, k: nat, s': Session, t': Shutter)
    requires Sound(v) && Enabled(v, Shut(k)) && v.shutters[k].stage.Signalling?
    requires var t := v.shutters[k];
      && s' == v.sessions[t.todo[0]].(handle := SendSentinel(v.sessions[t.todo[0]].handle).0)
      && t' == Shutter(t.targets, t.todo[1..], Looking, t.done + [t.todo[0]])
    ensures ShutStep(v, k) == With(v, v.shutters[k].todo[0], s').(shutters := v.shutters[k := t'])
  {
  }

  lemma SignallingKeeps(v: Server, k: nat)
    requires ServerInv(v)
    requires Sound(v) && Enabled(v, Shut(k)) && v.shutters[k].stage.Signalling?
    ensures ServerInv(ShutStep(v, k))
  {
    var t := v.shutters[k];
    var t' := Shutter(t.targets, t.todo[1..], Looking, t.done + [t.todo[0]]);
    At(v, t.todo[0]);
    assert ShutterInv(t, v.sessions);
    var s' := SentinelReady(v.batches, v.sessions[t.todo[0]]);
    ShutterMoves(v, k, s', t');
    SignalStep(v, k, s', t');
    SignallingIs(v, k, s', t');
  }

  lemma ShutterMoves(v: Server, k: nat, s': Session, t': Shutter)
    requires ShuttersInv(v.shutters, v.sessions)
    requires k < |v.shutters| && v.shutters[k].todo != [] && v.shutters[k].todo[0] < |v.sessions|
    requires var t := v.shutters[k];
             || t' == Shutter(t.targets, t.todo, Signalling, t.done)
             || t' == Shutter(t.targets, t.todo[1..], Looking, t.done + [t.todo[0]])
    requires s'.handle.shutdownRequested
    requires v.sessions[v.shutters[k].todo[0]].handle.disconnected ==> s'.handle.disconnected
    ensures ShutterInv(t', v.sessions[v.shutters[k].todo[0] := s'])
  {
    assert ShutterInv(v.shutters[k], v.sessions);
  }

  lemma ReplaceShutter(shutters: seq<Shutter>, sessions: seq<Session>, k: nat, t: Shutter)
    requires ShuttersInv(shutters, sessions)
    requires k < |shutters|
    requires ShutterInv(t, sessions)
    ensures ShuttersInv(shutters[k := t], sessions)
  {
  }

  lemma SignalStep(v: Server, k: nat, s': Session, t': Shutter)
    requires ServerInv(v)
    requires k < |v.shutters| && v.shutters[k].todo != [] && v.shutters[k].todo[0] < |v.sessions|
    requires var s := v.sessions[v.shutters[k].todo[0]];
             Quiet(s, s') && s'.view == s.view && s'.phase == s.phase
    requires SessionInv(v.batches, s')
    requires ShutterInv(t', v.sessions[v.shutters[k].todo[0] := s'])
    ensures ServerInv(With(v, v.shutters[k].todo[0], s').(shutters := v.shutters[k := t']))
  {
    var a := v.shutters[k].todo[0];
    var s := v.sessions[a];
    OneSessionKeeps(v, a, s', With(v, a, s'));
    QuietVisit(|v.batches|, v.broadcaster, a, s, s');
    VisitsStay(|v.batches|, v.broadcaster, v.sessions, a, s');
    ReplaceShutter(v.shutters, v.sessions[a := s'], k, t');
  }

  // ---------------------------------------------------------------------------------------------
  // Every run

  lemma NextKeeps(v: Server, step: Step)
    requires ServerInv(v)
    requires Sound(v) && Enabled(v, step)
    ensures ServerInv(Next(v, step))
  {
    match step
    case LogFrame(events) => LogFrameKeeps(v, events);
    case Broadcast => BroadcastKeeps(v);
    case Register(depth, maxLag, resumeFrom) => RegisterKeeps(v, depth, maxLag, resumeFrom);
    case Handler(a, act) => HandlerKeeps(v, a, act);
    case RequestAll => RequestKeeps(v, v.registry);
    case RequestOne(a) => RequestKeeps(v, [a]);
    case Shut(k) => ShutKeeps(v, k);
  }

  lemma StartKeeps(config: Config)
    requires 1 <= config.keepHistory
    ensures ServerInv(Start(config))
  {
  }

  /** The invariant holds in every state of every run, whatever the schedule. */
  lemma {:induction false} RunKeeps(config: Config, steps: seq<Step>)
    requires 1 <= config.keepHistory
    requires Run(config, steps).Some?
    ensures ServerInv(Run(config, steps).value)
    ensures Run(config, steps).value.config == config
  {
    if steps == [] {
      StartKeeps(config);
    } else {
      RunKeeps(config, steps[..|steps| - 1]);
      NextKeeps(Run(config, steps[..|steps| - 1]).value, steps[|steps| - 1]);
    }
  }
}
