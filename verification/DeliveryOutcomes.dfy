/** Further consequences for every run of the server: how much a slow client can lose, what a client
    needs to resume, what shutdown does, which registry entries are never freed, and what arrives as
    bytes. */
module DeliveryOutcomes {

  import opened Machine
  import opened EventCaching
  import opened Subscription
  import opened Frames
  import opened Sessions
  import opened SessionInvariants
  import opened LagPolicy
  import opened Delivery
  import opened DeliveryInvariants
  import opened DeliveryTheorems

  ghost predicate Reaches(config: Config, steps: seq<Step>, v: Server) {
    1 <= config.keepHistory && Run(config, steps) == Some(v)
  }

  lemma Extend(config: Config, steps: seq<Step>, v: Server, step: Step)
    requires Reaches(config, steps, v) && Sound(v) && Enabled(v, step)
    ensures Reaches(config, steps + [step], Next(v, step))
  {
    assert (steps + [step])[..|steps|] == steps;
  }

  // ---------------------------------------------------------------------------------------------
  // What is missing

  /** A batch offered after the hand-over is in the stream if and only if the queue took it, so a
      stream is gap-free exactly as long as nothing is refused. */
  lemma LostIffRefused(config: Config, steps: seq<Step>, v: Server, a: nat, k: nat)
    requires Reaches(config, steps, v) && a < |v.sessions|
    requires var s := v.sessions[a];
             s.view.Read? && k < |s.attempts| && LiveFrom(s) <= s.joined + k
    ensures v.sessions[a].joined + k < |v.batches|
    ensures v.sessions[a].attempts[k].batch == v.batches[v.sessions[a].joined + k]
    ensures Carries(Stream(v.sessions[a]), v.batches[v.sessions[a].joined + k][0].seqno) <==>
            v.sessions[a].attempts[k].result.Sent?
  {
    RunKeeps(config, steps);
    CarriedInServer(v, a, k);
  }

  lemma CarriedInServer(v: Server, a: nat, k: nat)
    requires ServerInv(v) && a < |v.sessions|
    requires v.sessions[a].view.Read? && k < |v.sessions[a].attempts|
    requires LiveFrom(v.sessions[a]) <= v.sessions[a].joined + k
    ensures v.sessions[a].joined + k < |v.batches|
    ensures v.sessions[a].attempts[k].batch == v.batches[v.sessions[a].joined + k]
    ensures Carries(Stream(v.sessions[a]), v.batches[v.sessions[a].joined + k][0].seqno) <==>
            v.sessions[a].attempts[k].result.Sent?
  {
    At(v, a);
    CarriedIffAccepted(v.batches, v.frames, v.sessions[a], k);
  }

  /** A drained batch that is thrown away is never news: it was either part of the backfill or lies at
      or below the bound the client asked for. */
  lemma SuppressedIsOld(config: Config, steps: seq<Step>, v: Server, a: nat, k: nat)
    requires Reaches(config, steps, v) && a < |v.sessions|
    requires var s := v.sessions[a];
             s.view.Read? && k < |s.attempts| && s.attempts[k].batch[0].seqno <= s.view.watermark
    ensures var s := v.sessions[a];
            var b := s.attempts[k].batch;
            b[0].seqno <= s.view.low || forall i :: 0 <= i < |b| ==> b[i] in s.view.backfill
  {
    RunKeeps(config, steps);
    At(v, a);
    BackfillHolds(v.batches, v.frames, v.sessions[a], k);
  }

  lemma BackfillHolds(batches: seq<Batch>, frames: nat, s: Session, k: nat)
    requires BatchesInv(batches, frames)
    requires SessionInv(batches, s)
    requires s.view.Read? && k < |s.attempts| && s.attempts[k].batch[0].seqno <= s.view.watermark
    ensures var b := s.attempts[k].batch;
            b[0].seqno <= s.view.low || forall i :: 0 <= i < |b| ==> b[i] in s.view.backfill
  {
    var j := s.joined + k;
    WatermarkSplits(batches, frames, s);
    assert batches[j] == s.attempts[k].batch && j < s.view.snap;
    var b := batches[j];
    if b[0].seqno > s.view.low {
      var seen := batches[..s.view.snap];
      assert seen[j] == b;
      forall i | 0 <= i < |b|
        ensures b[i] in s.view.backfill
      {
        assert Uniform(b);
        FlattenHas(seen, j, i);
        AfterHas(Flatten(seen), s.view.low, b[i]);
      }
    }
  }

  lemma {:induction false} FlattenHas(bs: seq<Batch>, j: nat, i: nat)
    requires j < |bs| && i < |bs[j]|
    ensures bs[j][i] in Flatten(bs)
  {
    if j < |bs| - 1 {
      FlattenHas(bs[..|bs| - 1], j, i);
    }
  }

  lemma {:induction false} AfterHas(h: seq<CachedEvent>, low: U64, e: CachedEvent)
    requires e in h && e.seqno > low
    ensures e in After(h, low)
  {
    if h[|h| - 1] != e {
      AfterHas(h[..|h| - 1], low, e);
    }
  }

  // ---------------------------------------------------------------------------------------------
  // Lag

  /** No batch was accepted strictly between attempts `j` and `k`. */
  ghost predicate NoneSent(attempts: seq<Attempt>, j: int, k: int) {
    forall i :: 0 <= i < |attempts| && j < i < k ==> !attempts[i].result.Sent?
  }

  /** Whenever the broadcaster is not in the middle of this subscriber, its lag counter is the number
      of refusals since the last accepted batch; at most `maxLag` batches are lost before the first
      accepted one and between two accepted ones; and a longer run of refusals ends the subscription for
      good. */
  lemma LossIsBounded(config: Config, steps: seq<Step>, v: Server, a: nat)
    requires Reaches(config, steps, v) && a < |v.sessions|
    ensures var s := v.sessions[a];
            OwedTo(v.broadcaster, a).Nothing? ==> s.handle.lag == Trailing(s.attempts) <= s.handle.maxLag + 1
    ensures var s := v.sessions[a];
            forall k :: 0 <= k < |s.attempts| && s.attempts[k].result.Sent? && NoneSent(s.attempts, -1, k)
              ==> k <= s.handle.maxLag
    ensures var s := v.sessions[a];
            forall j, k :: 0 <= j < k < |s.attempts| && s.attempts[j].result.Sent? && s.attempts[k].result.Sent?
              && NoneSent(s.attempts, j, k)
              ==> k - j - 1 <= s.handle.maxLag
    ensures var s := v.sessions[a];
            forall k :: 0 <= k <= |s.attempts| && Trailing(s.attempts[..k]) > s.handle.maxLag
              && OwedTo(v.broadcaster, a).Nothing?
              ==> s.handle.disconnected && forall i :: k <= i < |s.attempts| ==> !s.attempts[i].result.Sent?
  {
    RunKeeps(config, steps);
    At(v, a);
    var s := v.sessions[a];
    forall k | 0 <= k < |s.attempts| && s.attempts[k].result.Sent? && NoneSent(s.attempts, -1, k)
      ensures k <= s.handle.maxLag
    {
      FirstGapIsBounded(s.attempts, s.handle.maxLag, k);
    }
    forall j, k | 0 <= j < k < |s.attempts| && s.attempts[j].result.Sent? && s.attempts[k].result.Sent?
                  && NoneSent(s.attempts, j, k)
      ensures k - j - 1 <= s.handle.maxLag
    {
      GapIsBounded(s.attempts, s.handle.maxLag, j, k);
    }
    if OwedTo(v.broadcaster, a).Nothing? {
      forall k | 0 <= k <= |s.attempts| && Trailing(s.attempts[..k]) > s.handle.maxLag
        ensures s.handle.disconnected && forall i :: k <= i < |s.attempts| ==> !s.attempts[i].result.Sent?
      {
        EvictionIsFinal(s.handle, s.attempts, k);
      }
    }
  }

  // ---------------------------------------------------------------------------------------------
  // Queues and shutdown

  /** In every state the queue respects its clamped depth, and a queued sentinel implies the flag. */
  lemma QueueStaysBounded(config: Config, steps: seq<Step>, v: Server, a: nat)
    requires Reaches(config, steps, v) && a < |v.sessions|
    ensures var h := v.sessions[a].handle;
            |h.queue| <= h.depth <= HARD_MAX_SEND_QUEUE_DEPTH && (Shutdown in h.queue ==> h.shutdownRequested)
  {
    RunKeeps(config, steps);
    At(v, a);
  }

  /** A completed shutdown request has reached everyone it was addressed to. */
  lemma ShutdownReachesAll(config: Config, steps: seq<Step>, v: Server, k: nat)
    requires Reaches(config, steps, v) && k < |v.shutters|
    requires v.shutters[k].todo == []
    ensures forall i :: 0 <= i < |v.shutters[k].targets| ==>
      v.shutters[k].targets[i] < |v.sessions| && Signalled(v.sessions[v.shutters[k].targets[i]].handle)
  {
    RunKeeps(config, steps);
    var t := v.shutters[k];
    assert ShutterInv(t, v.sessions);
    assert t.done == t.targets by {
      assert t.done + [] == t.done;
    }
  }

  /** No step of a shutdown request evicts a subscriber whose receiver is alive, drops a queued batch
      or touches a lag counter. */
  lemma ShutdownSparesEveryone(v: Server, k: nat, a: nat)
    requires Sound(v) && Enabled(v, Shut(k)) && a < |v.sessions|
    ensures Spared(v.sessions[a].handle, Next(v, Shut(k)).sessions[a].handle)
  {
    var s := v.sessions[v.shutters[k].todo[0]];
    SentinelSpares(s.handle);
  }

  ghost predicate Spared(h: Handle, h': Handle) {
    && h'.lag == h.lag
    && (h.open && !h.disconnected ==> !h'.disconnected)
    && LiveOf(h'.queue) == LiveOf(h.queue)
  }

  lemma SentinelSpares(h: Handle)
    ensures var h' := SendSentinel(h).0;
            h'.lag == h.lag && (h.open ==> h'.disconnected == h.disconnected) && LiveOf(h'.queue) == LiveOf(h.queue)
  {
    LiveOfConcat(h.queue, [Shutdown]);
    LiveOfOne(Shutdown);
    assert LiveOf(h.queue) + [] == LiveOf(h.queue);
  }

  // ---------------------------------------------------------------------------------------------
  // Registry entries

  /** Step `i` of the run is the failing write of the `Truncated` frame to client `a`. */
  ghost predicate RefusalFails(config: Config, steps: seq<Step>, a: nat, i: nat) {
    && i < |steps| && steps[i].Handler? && steps[i].a == a && steps[i].act.WriteFail?
    && Run(config, steps[..i]).Some? && a < |Run(config, steps[..i]).value.sessions|
    && Run(config, steps[..i]).value.sessions[a].phase.Refusing?
  }

  ghost predicate Leaked(v: Server, a: nat) {
    a < |v.sessions| && v.sessions[a].phase == Left(true)
  }

  lemma LeakStep(v: Server, step: Step, a: nat)
    requires Sound(v) && Enabled(v, step)
    ensures Leaked(Next(v, step), a) <==>
      || Leaked(v, a)
      || (&& step.Handler? && step.a == a && step.act.WriteFail?
          && a < |v.sessions| && v.sessions[a].phase.Refusing?)
  {
  }

  lemma EarlierFailure(config: Config, steps: seq<Step>, front: seq<Step>, a: nat, i: nat)
    requires front <= steps && i < |front|
    ensures RefusalFails(config, steps, a, i) <==> RefusalFails(config, front, a, i)
  {
    assert steps[..i] == front[..i] && steps[i] == front[i];
  }

  lemma LastFailure(config: Config, front: seq<Step>, step: Step, v: Server, a: nat)
    requires Run(config, front) == Some(v)
    ensures RefusalFails(config, front + [step], a, |front|) <==>
      && step.Handler? && step.a == a && step.act.WriteFail?
      && a < |v.sessions| && v.sessions[a].phase.Refusing?
  {
    assert (front + [step])[..|front|] == front;
  }

  lemma {:induction false} LeakedByFailure(config: Config, steps: seq<Step>, v: Server, a: nat) returns (i: nat)
    requires Run(config, steps) == Some(v) && Leaked(v, a)
    ensures RefusalFails(config, steps, a, i)
  {
    var front, step := steps[..|steps| - 1], steps[|steps| - 1];
    var before := Run(config, front).value;
    assert steps == front + [step];
    LeakStep(before, step, a);
    if Leaked(before, a) {
      i := LeakedByFailure(config, front, before, a);
      EarlierFailure(config, steps, front, a, i);
    } else {
      i := |front|;
      LastFailure(config, front, step, before, a);
    }
  }

  lemma {:induction false} FailureLeaks(config: Config, steps: seq<Step>, v: Server, a: nat, i: nat)
    requires Run(config, steps) == Some(v) && RefusalFails(config, steps, a, i)
    ensures Leaked(v, a)
  {
    var front, step := steps[..|steps| - 1], steps[|steps| - 1];
    var before := Run(config, front).value;
    assert steps == front + [step];
    LeakStep(before, step, a);
    if i < |front| {
      EarlierFailure(config, steps, front, a, i);
      FailureLeaks(config, front, before, a, i);
    } else {
      LastFailure(config, front, step, before, a);
    }
  }

  /** Ids are distinct, and a session has ended but is still registered if and only if, at some point of
      the run, writing its refusal failed: that exit path skips `unregister`. */
  lemma RegisteredAfterExitIff(config: Config, steps: seq<Step>, v: Server, a: nat)
    requires Reaches(config, steps, v) && a < |v.sessions|
    ensures forall b :: 0 <= b < |v.sessions| && b != a ==> v.sessions[b].handle.id != v.sessions[a].handle.id
    ensures v.sessions[a].phase.Left? && a in v.registry <==> exists i: nat :: RefusalFails(config, steps, a, i)
  {
    RunKeeps(config, steps);
    if Leaked(v, a) {
      var i := LeakedByFailure(config, steps, v, a);
    }
    if i: nat :| RefusalFails(config, steps, a, i) {
      FailureLeaks(config, steps, v, a, i);
    }
  }

  /** Such an entry is still there in every continuation of the run. */
  lemma LeakIsPermanent(config: Config, steps: seq<Step>, more: seq<Step>, v: Server, a: nat, i: nat)
    requires RefusalFails(config, steps, a, i)
    requires Reaches(config, steps + more, v)
    ensures a < |v.sessions| && v.sessions[a].phase.Left? && a in v.registry
  {
    assert (steps + more)[..i] == steps[..i];
    assert RefusalFails(config, steps + more, a, i);
    FailureLeaks(config, steps + more, v, a, i);
    RegisteredAfterExitIff(config, steps + more, v, a);
  }

  // ---------------------------------------------------------------------------------------------
  // Bytes

  ghost predicate AllFit(wire: seq<OutboundFrame>, maxFrame: nat) {
    forall i :: 0 <= i < |wire| ==> Encodable(wire[i], maxFrame)
  }

  predicate Ended(phase: Phase) {
    phase.Closing? || phase.Unregistered? || phase.Left?
  }

  /** Frames written fit the limit, and only a session that is ending has torn one. */
  ghost predicate BytesInv(s: Session, maxFrame: nat) {
    && AllFit(s.wire, maxFrame)
    && (s.torn.Some? ==> Ended(s.phase) && Tears(s.torn.value.0, s.torn.value.1, maxFrame))
  }

  /** The part of a frame that a failing write left on the connection. */
  function TornPart(s: Session, maxFrame: nat): seq<Byte>
    requires s.torn.Some? ==> Tears(s.torn.value.0, s.torn.value.1, maxFrame)
  {
    if s.torn.None? || s.torn.value.1 == 0 then [] else Encoded(s.torn.value.0, maxFrame)[..s.torn.value.1]
  }

  /** Everything the client has been sent. */
  ghost function BytesSent(s: Session, maxFrame: nat): seq<Byte>
    requires BytesInv(s, maxFrame)
  {
    EncodeAll(s.wire, maxFrame) + TornPart(s, maxFrame)
  }

  lemma ActFits(s: Session, act: Action, cache: Cache, snap: nat, maxFrame: nat)
    requires CanAct(s, act, maxFrame)
    requires BytesInv(s, maxFrame)
    ensures BytesInv(Act(s, act, cache, snap, maxFrame), maxFrame)
  {
  }

  lemma EndedIsSilent(s: Session, act: Action, cache: Cache, snap: nat, maxFrame: nat)
    requires CanAct(s, act, maxFrame) && Ended(s.phase)
    ensures var s' := Act(s, act, cache, snap, maxFrame);
            Ended(s'.phase) && s'.wire == s.wire && s'.torn == s.torn
  {
  }

  ghost predicate FitsInv(v: Server) {
    forall a :: 0 <= a < |v.sessions| ==> BytesInv(v.sessions[a], v.config.maxFrame)
  }

  lemma NextFits(v: Server, step: Step)
    requires FitsInv(v) && Sound(v) && Enabled(v, step)
    ensures FitsInv(Next(v, step))
  {
    if step.Handler? {
      ActFits(v.sessions[step.a], step.act, v.cache, |v.batches|, v.config.maxFrame);
    }
  }

  lemma NextConfig(v: Server, step: Step)
    requires Sound(v) && Enabled(v, step)
    ensures Next(v, step).config == v.config && |v.sessions| <= |Next(v, step).sessions|
  {
  }

  lemma {:induction false} RunFits(config: Config, steps: seq<Step>)
    requires Run(config, steps).Some?
    ensures FitsInv(Run(config, steps).value) && Run(config, steps).value.config == config
  {
    if steps != [] {
      var before := Run(config, steps[..|steps| - 1]).value;
      RunFits(config, steps[..|steps| - 1]);
      NextFits(before, steps[|steps| - 1]);
      NextConfig(before, steps[|steps| - 1]);
    }
  }

  /** Whatever a client has been sent decodes to exactly the frames written for it, in order, and then a
      clean end of input, or, if its last write failed part-way, a truncation that counts the bytes of
      the torn frame. */
  lemma BytesDecodeToWire(config: Config, steps: seq<Step>, v: Server, a: nat)
    requires Reaches(config, steps, v) && a < |v.sessions|
    ensures BytesInv(v.sessions[a], config.maxFrame)
    ensures var s := v.sessions[a];
      var (read, error) := DecodeAll(BytesSent(s, config.maxFrame), config.maxFrame);
      && read == s.wire
      && if TornPart(s, config.maxFrame) == [] then error == EofBeforeHeader
         else error.TruncatedFrame? && error.bytesRead == |TornPart(s, config.maxFrame)|
  {
    RunFits(config, steps);
    BytesDecode(v.sessions[a], config.maxFrame);
  }

  lemma BytesDecode(s: Session, maxFrame: nat)
    requires BytesInv(s, maxFrame)
    ensures var (read, error) := DecodeAll(BytesSent(s, maxFrame), maxFrame);
      && read == s.wire
      && if TornPart(s, maxFrame) == [] then error == EofBeforeHeader
         else error.TruncatedFrame? && error.bytesRead == |TornPart(s, maxFrame)|
  {
    if s.torn.None? || s.torn.value.1 == 0 {
      assert EncodeAll(s.wire, maxFrame) + [] == EncodeAll(s.wire, maxFrame);
      StreamRoundTrip(s.wire, maxFrame);
    } else {
      CutStreamIsTruncated(s.wire, s.torn.value.0, maxFrame, s.torn.value.1);
    }
  }

  lemma TornStep(v: Server, step: Step, a: nat)
    requires Sound(v) && Enabled(v, step) && a < |v.sessions| && Ended(v.sessions[a].phase)
    ensures var v' := Next(v, step);
      && a < |v'.sessions| && Ended(v'.sessions[a].phase)
      && v'.sessions[a].wire == v.sessions[a].wire && v'.sessions[a].torn == v.sessions[a].torn
  {
    if step.Handler? && step.a == a {
      EndedIsSilent(v.sessions[a], step.act, v.cache, |v.batches|, v.config.maxFrame);
    }
  }

  /** A session that has torn a frame is ending. */
  lemma TornIsEnded(config: Config, steps: seq<Step>, v: Server, a: nat)
    requires Run(config, steps) == Some(v) && a < |v.sessions| && v.sessions[a].torn.Some?
    ensures Ended(v.sessions[a].phase)
  {
    RunFits(config, steps);
  }

  /** Once a session is ending, and so in particular after a torn frame, it is sent nothing more. */
  lemma {:induction false} NothingAfterEnd(config: Config, steps: seq<Step>, more: seq<Step>, v: Server, a: nat)
    requires Run(config, steps) == Some(v) && a < |v.sessions| && Ended(v.sessions[a].phase)
    requires Run(config, steps + more).Some?
    ensures var v' := Run(config, steps + more).value;
      && a < |v'.sessions| && Ended(v'.sessions[a].phase)
      && v'.sessions[a].wire == v.sessions[a].wire && v'.sessions[a].torn == v.sessions[a].torn
  {
    if more == [] {
      assert steps + more == steps;
    } else {
      var before := steps + more[..|more| - 1];
      assert (steps + more)[..|steps + more| - 1] == before;
      NothingAfterEnd(config, steps, more[..|more| - 1], v, a);
      TornStep(Run(config, before).value, more[|more| - 1], a);
    }
  }
}
