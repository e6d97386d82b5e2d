/** What a client of the event-subscription server can rely on, in every run. */
module DeliveryTheorems {

  import opened Machine
  import opened EventCaching
  import opened Subscription
  import opened Frames
  import opened Sessions
  import opened SessionInvariants
  import opened LagPolicy
  import opened Delivery
  import opened DeliveryInvariants
  import opened Subsequences

  // ---------------------------------------------------------------------------------------------
  // The stream a session is heading for

  /** The position in the batch log where live delivery takes over from the backfill. */
  function LiveFrom(s: Session): nat
    requires s.view.Read?
  {
    if s.view.backfill == [] then s.joined else s.view.snap
  }

  /** How far along the batch log this session has been offered batches. */
  function OfferedUpTo(s: Session): nat {
    s.joined + |s.attempts|
  }

  /** The backfill followed by every accepted batch that is not a repetition of it. */
  function Stream(s: Session): seq<CachedEvent>
    requires s.view.Read?
  {
    s.view.backfill + Flatten(Kept(AcceptedOf(s.attempts), s.view.watermark))
  }

  lemma {:induction false} KeptPrefix(a: seq<Batch>, b: seq<Batch>, w: U64)
    requires a <= b
    ensures Kept(a, w) <= Kept(b, w)
  {
    assert b == a + b[|a|..];
    KeptConcat(a, b[|a|..], w);
  }

  lemma FlattenPrefix(a: seq<Batch>, b: seq<Batch>)
    requires a <= b
    ensures Flatten(a) <= Flatten(b)
  {
    assert b == a + b[|a|..];
    FlattenConcat(a, b[|a|..]);
  }

  /** In every phase, what is on the wire lies inside what is owed for the batches taken. */
  lemma WireWithin(batches: seq<Batch>, s: Session)
    requires SessionInv(batches, s)
    requires s.view.Read?
    ensures s.written <= Kept(s.received, s.view.watermark)
    ensures EventsOf(s.wire) <= Sofar(s.view, s.written)
  {
    match s.phase
    case Backfilling(rest) => BackfillEnds(s.view, s.wire, rest, s.handle.lastDelivered);
    case Draining(max, pending) => DrainEnds(s.view, s.wire, s.received, pending, max, s.handle.lastDelivered);
    case Polling(pending) =>
    case PollingGone(pending) =>
    case Taking(pending) =>
    case Writing(rest, seqno, pending) =>
    case Closing =>
    case Unregistered =>
    case Left(_) =>
  }

  lemma WireIsPrefixOfStream(batches: seq<Batch>, s: Session)
    requires SessionInv(batches, s)
    requires s.view.Read?
    ensures EventsOf(s.wire) <= Stream(s)
    ensures s.written <= Kept(AcceptedOf(s.attempts), s.view.watermark)
  {
    WireWithin(batches, s);
    KeptPrefix(s.received, AcceptedOf(s.attempts), s.view.watermark);
    FlattenPrefix(s.written, Kept(AcceptedOf(s.attempts), s.view.watermark));
  }

  // ---------------------------------------------------------------------------------------------
  // In order, whole, never twice

  /** The numbering splits the log at the watermark. */
  ghost predicate SplitsAt(batches: seq<Batch>, joined: nat, from: nat, w: U64) {
    && joined <= from <= |batches|
    && (forall i :: joined <= i < from ==> batches[i][0].seqno <= w)
    && (forall i :: from <= i < |batches| ==> batches[i][0].seqno > w)
  }

  lemma WatermarkSplits(batches: seq<Batch>, frames: nat, s: Session)
    requires BatchesInv(batches, frames)
    requires SessionInv(batches, s)
    requires s.view.Read?
    ensures SplitsAt(batches, s.joined, LiveFrom(s), s.view.watermark)
  {
    if s.view.backfill != [] {
      assert batches[..s.view.snap][s.view.snap - 1] == batches[s.view.snap - 1];
    }
  }

  lemma SubseqSnoc(k: seq<Batch>, bs: seq<Batch>, b: Batch)
    requires Subseq(k, bs)
    ensures Subseq(k, bs + [b]) && Subseq(k + [b], bs + [b])
  {
    SubseqGrow(k, bs, [b]);
    SubseqSelf([b]);
    SubseqConcat(k, bs, [b], [b]);
  }

  lemma KeptNext(front: seq<Attempt>, t: Attempt, attempts: seq<Attempt>, w: U64)
    requires attempts == front + [t]
    ensures Kept(AcceptedOf(attempts), w) ==
            if t.result.Sent? && t.batch[0].seqno > w then Kept(AcceptedOf(front), w) + [t.batch]
            else Kept(AcceptedOf(front), w)
  {
    AcceptedOfOne(front, t);
    if t.result.Sent? {
      KeptOne(AcceptedOf(front), t.batch, w);
    } else {
      assert AcceptedOf(front) + [] == AcceptedOf(front);
    }
  }

  lemma SplitsOne(batches: seq<Batch>, joined: nat, from: nat, w: U64, i: nat)
    requires SplitsAt(batches, joined, from, w) && joined <= i < |batches|
    ensures from <= i <==> batches[i][0].seqno > w
  {
  }

  /** One more batch of the log, kept or passed over. */
  lemma SubseqStep(bs: seq<Batch>, from: nat, n: nat, k: seq<Batch>, k': seq<Batch>)
    requires from < n <= |bs|
    requires Subseq(k, bs[from..n - 1]) && (k' == k || k' == k + [bs[n - 1]])
    ensures Subseq(k', bs[from..n])
  {
    assert bs[from..n] == bs[from..n - 1] + [bs[n - 1]];
    SubseqSnoc(k, bs[from..n - 1], bs[n - 1]);
  }

  lemma {:induction false} KeptOfHead(batches: seq<Batch>, joined: nat, attempts: seq<Attempt>, from: nat, w: U64,
                                      m: nat)
    requires AttemptsInv(batches, joined, attempts) && m <= |attempts|
    requires SplitsAt(batches, joined, from, w)
    ensures from <= joined + m ==> Subseq(Kept(AcceptedOf(attempts[..m]), w), batches[from..joined + m])
    ensures joined + m <= from ==> Kept(AcceptedOf(attempts[..m]), w) == []
  {
    if m > 0 {
      var n := joined + m;
      KeptOfHead(batches, joined, attempts, from, w, m - 1);
      KeptNext(attempts[..m - 1], attempts[m - 1], attempts[..m], w);
      SplitsOne(batches, joined, from, w, n - 1);
      assert attempts[m - 1].batch == batches[n - 1];
      if from < n {
        SubseqStep(batches, from, n, Kept(AcceptedOf(attempts[..m - 1]), w), Kept(AcceptedOf(attempts[..m]), w));
      }
    }
  }

  lemma KeptIsSubseq(batches: seq<Batch>, joined: nat, attempts: seq<Attempt>, from: nat, w: U64)
    requires AttemptsInv(batches, joined, attempts)
    requires SplitsAt(batches, joined, from, w)
    ensures from <= joined + |attempts| ==> Subseq(Kept(AcceptedOf(attempts), w), batches[from..joined + |attempts|])
    ensures joined + |attempts| <= from ==> Kept(AcceptedOf(attempts), w) == []
  {
    KeptOfHead(batches, joined, attempts, from, w, |attempts|);
    assert attempts[..|attempts|] == attempts;
  }

  lemma {:induction false} FlattenSubseq(a: seq<Batch>, b: seq<Batch>)
    requires Subseq(a, b)
    ensures Subseq(Flatten(a), Flatten(b))
    decreases |b|
  {
    if a == [] {
    } else {
      var front := b[..|b| - 1];
      if Subseq(a, front) {
        FlattenSubseq(a, front);
        SubseqGrow(Flatten(a), Flatten(front), b[|b| - 1]);
      } else {
        FlattenSubseq(a[..|a| - 1], front);
        SubseqSelf(b[|b| - 1]);
        SubseqConcat(Flatten(a[..|a| - 1]), Flatten(front), a[|a| - 1], b[|b| - 1]);
      }
    }
  }

  lemma BackfillIsSubseq(batches: seq<Batch>, frames: nat, s: Session)
    requires BatchesInv(batches, frames)
    requires SessionInv(batches, s)
    requires s.view.Read?
    ensures Subseq(s.view.backfill, Flatten(batches[..LiveFrom(s)]))
  {
    if s.view.backfill != [] {
      var h := Flatten(batches[..s.view.snap]);
      FlattenOrdered(batches[..s.view.snap], frames);
      var k := CutPoint(h, s.view.low);
      SubseqSuffix(h, k);
    }
  }

  /** For every session of every run: the events on its wire are a prefix of its backfill followed by
      whole batches, those batches are a subsequence of the ones broadcast after the backfill (or after
      it joined, if there was none), and the whole is a subsequence of everything ever broadcast. So
      nothing is torn, reordered or sent twice, and nothing comes from a broadcast before it joined. */
  lemma DeliveredInOrderWholeOnce(config: Config, steps: seq<Step>, a: nat)
    requires 1 <= config.keepHistory
    requires Run(config, steps).Some? && a < |Run(config, steps).value.sessions|
    ensures var v := Run(config, steps).value;
            var s := v.sessions[a];
            s.view.Unread? ==> EventsOf(s.wire) == []
    ensures var v := Run(config, steps).value;
            var s := v.sessions[a];
            s.view.Read? ==>
              && LiveFrom(s) <= OfferedUpTo(s) <= |v.batches|
              && EventsOf(s.wire) <= s.view.backfill + Flatten(Kept(AcceptedOf(s.attempts), s.view.watermark))
              && Subseq(Kept(AcceptedOf(s.attempts), s.view.watermark), v.batches[LiveFrom(s)..OfferedUpTo(s)])
              && Subseq(EventsOf(s.wire), Flatten(v.batches))
  {
    RunKeeps(config, steps);
    var v := Run(config, steps).value;
    At(v, a);
    if v.sessions[a].view.Read? {
      ReadDelivers(v.batches, v.frames, v.sessions[a]);
    } else {
      UnreadIsSilent(v.batches, v.sessions[a]);
    }
  }

  lemma ReadDelivers(batches: seq<Batch>, frames: nat, s: Session)
    requires BatchesInv(batches, frames)
    requires SessionInv(batches, s)
    requires s.view.Read? && s.view.snap <= OfferedUpTo(s)
    ensures LiveFrom(s) <= OfferedUpTo(s) <= |batches|
    ensures EventsOf(s.wire) <= Stream(s)
    ensures Subseq(Kept(AcceptedOf(s.attempts), s.view.watermark), batches[LiveFrom(s)..OfferedUpTo(s)])
    ensures Subseq(EventsOf(s.wire), Flatten(batches))
  {
    WireIsPrefixOfStream(batches, s);
    KeptFollowsLog(batches, frames, s);
    BackfillIsSubseq(batches, frames, s);
    PrefixIsSubseq(batches, LiveFrom(s), OfferedUpTo(s), s.view.backfill,
                   Kept(AcceptedOf(s.attempts), s.view.watermark), EventsOf(s.wire));
  }

  lemma KeptFollowsLog(batches: seq<Batch>, frames: nat, s: Session)
    requires BatchesInv(batches, frames)
    requires SessionInv(batches, s)
    requires s.view.Read? && s.view.snap <= OfferedUpTo(s)
    ensures LiveFrom(s) <= OfferedUpTo(s) <= |batches|
    ensures Subseq(Kept(AcceptedOf(s.attempts), s.view.watermark), batches[LiveFrom(s)..OfferedUpTo(s)])
  {
    WatermarkSplits(batches, frames, s);
    SessionParts(batches, s);
    KeptIsSubseq(batches, s.joined, s.attempts, LiveFrom(s), s.view.watermark);
  }

  lemma PrefixIsSubseq(batches: seq<Batch>, from: nat, n: nat, backfill: seq<CachedEvent>, kept: seq<Batch>,
                       events: seq<CachedEvent>)
    requires from <= n <= |batches|
    requires Subseq(backfill, Flatten(batches[..from]))
    requires Subseq(kept, batches[from..n])
    requires events <= backfill + Flatten(kept)
    ensures Subseq(events, Flatten(batches))
  {
    StreamIsSubseq(batches, from, n, backfill, kept);
    var whole := backfill + Flatten(kept);
    assert events == whole[..|events|];
    SubseqOfPrefix(whole, Flatten(batches), |events|);
  }

  lemma UnreadIsSilent(batches: seq<Batch>, s: Session)
    requires SessionInv(batches, s)
    requires s.view.Unread?
    ensures EventsOf(s.wire) == []
  {
  }

  lemma StreamIsSubseq(batches: seq<Batch>, from: nat, n: nat, backfill: seq<CachedEvent>, kept: seq<Batch>)
    requires from <= n <= |batches|
    requires Subseq(backfill, Flatten(batches[..from]))
    requires Subseq(kept, batches[from..n])
    ensures Subseq(backfill + Flatten(kept), Flatten(batches))
  {
    FlattenSubseq(kept, batches[from..n]);
    SubseqConcat(backfill, Flatten(batches[..from]), Flatten(kept), Flatten(batches[from..n]));
    FlattenSplit(batches, from, n);
    FlattenSplit(batches, n, |batches|);
    assert batches[..|batches|] == batches;
    SubseqGrow(backfill + Flatten(kept), Flatten(batches[..n]), Flatten(batches[n..|batches|]));
  }

  lemma FlattenSplit(batches: seq<Batch>, k: nat, n: nat)
    requires k <= n <= |batches|
    ensures Flatten(batches[..n]) == Flatten(batches[..k]) + Flatten(batches[k..n])
  {
    assert batches[..n] == batches[..k] + batches[k..n];
    FlattenConcat(batches[..k], batches[k..n]);
  }

  // ---------------------------------------------------------------------------------------------
  // When nothing is missing

  /** Every batch offered from position `from` of the log on was accepted. */
  ghost predicate SentFrom(joined: nat, attempts: seq<Attempt>, from: nat) {
    forall k :: 0 <= k < |attempts| && from <= joined + k ==> attempts[k].result.Sent?
  }

  /** No batch offered after the hand-over from backfill to live delivery was refused. Refusals before
      it do no harm: those batches are part of the backfill. */
  ghost predicate NothingMissed(s: Session)
    requires s.view.Read?
  {
    SentFrom(s.joined, s.attempts, LiveFrom(s))
  }

  lemma {:induction false} SentCount(batches: seq<Batch>, joined: nat, attempts: seq<Attempt>, from: nat, w: U64,
                                     m: nat)
    requires AttemptsInv(batches, joined, attempts) && m <= |attempts|
    requires SentFrom(joined, attempts, from)
    requires SplitsAt(batches, joined, from, w)
    ensures |Kept(AcceptedOf(attempts[..m]), w)| == if from <= joined + m then joined + m - from else 0
  {
    if m > 0 {
      SentCount(batches, joined, attempts, from, w, m - 1);
      KeptNext(attempts[..m - 1], attempts[m - 1], attempts[..m], w);
      SplitsOne(batches, joined, from, w, joined + m - 1);
      assert attempts[m - 1].batch == batches[joined + m - 1];
    }
  }

  lemma SentKept(batches: seq<Batch>, joined: nat, attempts: seq<Attempt>, from: nat, w: U64)
    requires AttemptsInv(batches, joined, attempts)
    requires SentFrom(joined, attempts, from)
    requires SplitsAt(batches, joined, from, w) && from <= joined + |attempts|
    ensures Kept(AcceptedOf(attempts), w) == batches[from..joined + |attempts|]
  {
    KeptIsSubseq(batches, joined, attempts, from, w);
    SentCount(batches, joined, attempts, from, w, |attempts|);
    assert attempts[..|attempts|] == attempts;
    SubseqFull(Kept(AcceptedOf(attempts), w), batches[from..joined + |attempts|]);
  }

  lemma {:induction false} FlattenAbove(bs: seq<Batch>, low: U64)
    requires AllUniform(bs)
    requires forall i :: 0 <= i < |bs| ==> low < bs[i][0].seqno
    ensures forall x :: 0 <= x < |Flatten(bs)| ==> low < Flatten(bs)[x].seqno
  {
    if bs != [] {
      var front, b := bs[..|bs| - 1], bs[|bs| - 1];
      FlattenAbove(front, low);
      assert Uniform(b);
    }
  }

  ghost predicate AllUniform(bs: seq<Batch>) {
    forall i :: 0 <= i < |bs| ==> Uniform(bs[i])
  }

  /** Events of later batches all lie above an earlier number. */
  lemma AfterExtends(batches: seq<Batch>, frames: nat, k: nat, n: nat, low: U64)
    requires BatchesInv(batches, frames)
    requires k <= n <= |batches|
    requires forall i :: k <= i < n ==> low < batches[i][0].seqno
    ensures After(Flatten(batches[..n]), low) == After(Flatten(batches[..k]), low) + Flatten(batches[k..n])
  {
    FlattenSplit(batches, k, n);
    AfterConcat(Flatten(batches[..k]), Flatten(batches[k..n]), low);
    FlattenAbove(batches[k..n], low);
    AfterAll(Flatten(batches[k..n]), low);
  }

  /** The backfill part of a view, on its own. */
  ghost predicate BackfillAt(batches: seq<Batch>, view: CacheView) {
    view.Read? && (view.backfill != [] ==>
      && 0 < view.snap <= |batches| && view.watermark == batches[view.snap - 1][0].seqno
      && view.low < view.watermark == LastSeq(view.backfill)
      && view.backfill == After(Flatten(batches[..view.snap]), view.low))
  }

  lemma SessionParts(batches: seq<Batch>, s: Session)
    requires SessionInv(batches, s)
    requires s.view.Read?
    ensures AttemptsInv(batches, s.joined, s.attempts)
    ensures BackfillAt(batches, s.view)
  {
  }

  /** As long as no batch is refused after the hand-over the stream has no gap: after a backfill it is
      the whole history above the requested point, otherwise everything broadcast since the session
      joined. */
  lemma NoRefusalNoGap(batches: seq<Batch>, frames: nat, s: Session)
    requires BatchesInv(batches, frames)
    requires SessionInv(batches, s)
    requires s.view.Read? && s.view.snap <= OfferedUpTo(s)
    requires NothingMissed(s)
    ensures s.view.backfill == [] ==> Stream(s) == Flatten(batches[s.joined..OfferedUpTo(s)])
    ensures s.view.backfill != [] ==> Stream(s) == After(Flatten(batches[..OfferedUpTo(s)]), s.view.low)
  {
    WatermarkSplits(batches, frames, s);
    SessionParts(batches, s);
    KeptWhole(batches, s.joined, s.attempts, LiveFrom(s), s.view.watermark);
    NoGap(batches, frames, s.joined, OfferedUpTo(s), s.view, Kept(AcceptedOf(s.attempts), s.view.watermark));
  }

  ghost predicate LaterAbove(batches: seq<Batch>, from: nat, w: int) {
    forall i :: from <= i < |batches| ==> batches[i][0].seqno > w
  }

  lemma KeptWhole(batches: seq<Batch>, joined: nat, attempts: seq<Attempt>, from: nat, w: U64)
    requires AttemptsInv(batches, joined, attempts)
    requires SentFrom(joined, attempts, from)
    requires SplitsAt(batches, joined, from, w) && from <= joined + |attempts|
    ensures Kept(AcceptedOf(attempts), w) == batches[from..joined + |attempts|]
    ensures LaterAbove(batches, from, w)
  {
    SentKept(batches, joined, attempts, from, w);
  }

  lemma NoGap(batches: seq<Batch>, frames: nat, joined: nat, n: nat, view: CacheView, kept: seq<Batch>)
    requires BatchesInv(batches, frames)
    requires BackfillAt(batches, view)
    requires joined <= n <= |batches| && view.snap <= n
    requires view.backfill != [] ==> LaterAbove(batches, view.snap, view.watermark)
    requires kept == if view.backfill == [] then batches[joined..n] else batches[view.snap..n]
    ensures view.backfill + Flatten(kept) ==
            if view.backfill == [] then Flatten(batches[joined..n]) else After(Flatten(batches[..n]), view.low)
  {
    if view.backfill == [] {
      EmptyThen(Flatten(kept));
    } else {
      BackfillThenLive(batches, frames, view, n);
    }
  }

  lemma EmptyThen(es: seq<CachedEvent>)
    ensures [] + es == es
  {
  }

  lemma BackfillThenLive(batches: seq<Batch>, frames: nat, view: CacheView, n: nat)
    requires BatchesInv(batches, frames)
    requires view.Read? && view.snap <= n <= |batches|
    requires view.backfill == After(Flatten(batches[..view.snap]), view.low)
    requires view.low < view.watermark
    requires LaterAbove(batches, view.snap, view.watermark)
    ensures view.backfill + Flatten(batches[view.snap..n]) == After(Flatten(batches[..n]), view.low)
  {
    AfterExtends(batches, frames, view.snap, n, view.low);
  }

  /** In that case the stream is exactly the events above the resume point, if and only if there was a
      backfill, or nothing was offered, or the first batch offered already lies above that point. */
  lemma ResumeExactIff(batches: seq<Batch>, frames: nat, s: Session)
    requires BatchesInv(batches, frames)
    requires SessionInv(batches, s)
    requires s.view.Read? && s.view.snap <= OfferedUpTo(s)
    requires NothingMissed(s)
    requires s.resumeFrom != 0 && s.resumeFrom != FROM_OLDEST
    ensures Stream(s) == After(Flatten(batches[..OfferedUpTo(s)]), s.resumeFrom) <==>
            s.view.backfill != [] || s.joined == OfferedUpTo(s) || s.resumeFrom < batches[s.joined][0].seqno
  {
    var n, f := OfferedUpTo(s), s.resumeFrom;
    NoRefusalNoGap(batches, frames, s);
    if s.view.backfill == [] && s.joined < n {
      var h := Flatten(batches[..n]);
      if f < batches[s.joined][0].seqno {
        NothingSeenAbove(batches, frames, s);
        AfterExtends(batches, frames, s.joined, n, f);
        assert s.joined == s.view.snap;
      } else {
        AfterAbove(h, f);
        FlattenHead(batches[s.joined..n]);
        assert Stream(s)[0] == batches[s.joined][0];
      }
    }
  }

  /** An empty answer to a resume request means every batch seen lies at or below it. */
  lemma NothingSeenAbove(batches: seq<Batch>, frames: nat, s: Session)
    requires BatchesInv(batches, frames)
    requires SessionInv(batches, s)
    requires s.view.Read? && s.view.backfill == []
    requires s.resumeFrom != 0 && s.resumeFrom != FROM_OLDEST
    ensures forall i :: 0 <= i < s.view.snap ==> batches[i][0].seqno <= s.resumeFrom
  {
    var seen := batches[..s.view.snap];
    FlattenOrdered(seen, frames);
    if seen != [] {
      var h := Flatten(seen);
      assert h == h[..|h| - 1] + [h[|h| - 1]];
      assert seen[|seen| - 1] == batches[s.view.snap - 1];
    }
  }

  lemma {:induction false} AfterAbove(h: seq<CachedEvent>, f: U64)
    ensures forall i :: 0 <= i < |After(h, f)| ==> After(h, f)[i].seqno > f
  {
    if h != [] {
      AfterAbove(h[..|h| - 1], f);
    }
  }

  // ---------------------------------------------------------------------------------------------
  // When something is missing

  lemma {:induction false} FlattenCarries(bs: seq<Batch>, q: U64)
    requires AllUniform(bs)
    ensures Carries(Flatten(bs), q) <==> exists i :: 0 <= i < |bs| && bs[i][0].seqno == q
  {
    if bs != [] {
      var front, b := bs[..|bs| - 1], bs[|bs| - 1];
      FlattenCarries(front, q);
      var f := Flatten(front);
      assert Flatten(bs) == f + b;
      if Carries(f, q) {
        var i :| 0 <= i < |f| && f[i].seqno == q;
        assert (f + b)[i].seqno == q;
        var j :| 0 <= j < |front| && front[j][0].seqno == q;
        assert bs[j][0].seqno == q;
      }
      if b[0].seqno == q {
        assert (f + b)[|f|].seqno == q;
      }
      if Carries(f + b, q) {
        var i :| 0 <= i < |f + b| && (f + b)[i].seqno == q;
        if i < |f| {
          assert f[i].seqno == q;
        } else {
          assert b[i - |f|].seqno == q;
        }
      }
    }
  }

  lemma {:induction false} KeptMembers(bs: seq<Batch>, w: U64)
    ensures forall b: Batch :: b in Kept(bs, w) <==> b in bs && b[0].seqno > w
  {
    if bs != [] {
      KeptMembers(bs[..|bs| - 1], w);
      assert bs == bs[..|bs| - 1] + [bs[|bs| - 1]];
    }
  }

  lemma {:induction false} AcceptedMember(attempts: seq<Attempt>, k: nat)
    requires k < |attempts| && attempts[k].result.Sent?
    ensures attempts[k].batch in AcceptedOf(attempts)
  {
    if k < |attempts| - 1 {
      AcceptedMember(attempts[..|attempts| - 1], k);
    }
  }

  /** Among the batches offered after the hand-over, exactly the accepted ones reach the stream; a
      refused batch leaves no event behind. */
  lemma CarriedIffAccepted(batches: seq<Batch>, frames: nat, s: Session, k: nat)
    requires BatchesInv(batches, frames)
    requires SessionInv(batches, s)
    requires s.view.Read?
    requires k < |s.attempts| && LiveFrom(s) <= s.joined + k
    ensures s.joined + k < |batches| && s.attempts[k].batch == batches[s.joined + k]
    ensures Carries(Stream(s), batches[s.joined + k][0].seqno) <==> s.attempts[k].result.Sent?
  {
    WatermarkSplits(batches, frames, s);
    BackfillBelow(batches, frames, s);
    SessionParts(batches, s);
    CarriedAfter(batches, frames, s.joined, s.attempts, s.view.watermark, s.view.backfill, k);
  }

  lemma CarriedAfter(batches: seq<Batch>, frames: nat, joined: nat, attempts: seq<Attempt>, w: U64,
                     backfill: seq<CachedEvent>, k: nat)
    requires BatchesInv(batches, frames)
    requires AttemptsInv(batches, joined, attempts)
    requires k < |attempts| && w < batches[joined + k][0].seqno
    requires forall i :: 0 <= i < |backfill| ==> backfill[i].seqno <= w
    ensures Carries(backfill + Flatten(Kept(AcceptedOf(attempts), w)), batches[joined + k][0].seqno) <==>
            attempts[k].result.Sent?
  {
    KeptIffSent(batches, frames, joined, attempts, w, k);
    CarriesConcat(backfill, Flatten(Kept(AcceptedOf(attempts), w)), batches[joined + k][0].seqno);
  }

  lemma KeptIffSent(batches: seq<Batch>, frames: nat, joined: nat, attempts: seq<Attempt>, w: U64, k: nat)
    requires BatchesInv(batches, frames)
    requires AttemptsInv(batches, joined, attempts)
    requires k < |attempts| && w < batches[joined + k][0].seqno
    ensures Carries(Flatten(Kept(AcceptedOf(attempts), w)), batches[joined + k][0].seqno) <==> attempts[k].result.Sent?
  {
    var kept := Kept(AcceptedOf(attempts), w);
    var q := batches[joined + k][0].seqno;
    KeptMembers(AcceptedOf(attempts), w);
    KeptFromLog(batches, frames, joined, attempts, w);
    FlattenCarries(kept, q);
    if attempts[k].result.Sent? {
      AcceptedMember(attempts, k);
      var i :| 0 <= i < |kept| && kept[i] == attempts[k].batch;
      assert kept[i][0].seqno == q;
    }
    forall i | 0 <= i < |kept| && kept[i][0].seqno == q
      ensures attempts[k].result.Sent?
    {
      assert kept[i] in kept;
      AcceptedAt(batches, frames, joined, attempts, kept[i], k);
    }
  }

  /** An accepted batch with the number of attempt `k` is attempt `k`. */
  lemma AcceptedAt(batches: seq<Batch>, frames: nat, joined: nat, attempts: seq<Attempt>, b: Batch, k: nat)
    requires BatchesInv(batches, frames)
    requires AttemptsInv(batches, joined, attempts)
    requires k < |attempts| && b in AcceptedOf(attempts) && b != []
    requires b[0].seqno == batches[joined + k][0].seqno
    ensures attempts[k].result.Sent?
  {
    AcceptedFromAttempts(attempts, b);
    var j :| 0 <= j < |attempts| && attempts[j].batch == b && attempts[j].result.Sent?;
    SameNumberSameBatch(batches, frames, joined + j, joined + k);
  }

  lemma SameNumberSameBatch(batches: seq<Batch>, frames: nat, i: nat, j: nat)
    requires BatchesInv(batches, frames)
    requires i < |batches| && j < |batches| && batches[i][0].seqno == batches[j][0].seqno
    ensures i == j
  {
  }

  lemma KeptFromLog(batches: seq<Batch>, frames: nat, joined: nat, attempts: seq<Attempt>, w: U64)
    requires BatchesInv(batches, frames)
    requires AttemptsInv(batches, joined, attempts)
    ensures AllUniform(Kept(AcceptedOf(attempts), w))
  {
    var kept := Kept(AcceptedOf(attempts), w);
    KeptMembers(AcceptedOf(attempts), w);
    forall i | 0 <= i < |kept|
      ensures Uniform(kept[i])
    {
      assert kept[i] in kept;
      AcceptedFromAttempts(attempts, kept[i]);
    }
  }

  lemma CarriesConcat(a: seq<CachedEvent>, b: seq<CachedEvent>, q: U64)
    requires forall i :: 0 <= i < |a| ==> a[i].seqno != q
    ensures Carries(a + b, q) <==> Carries(b, q)
  {
    if Carries(b, q) {
      var i :| 0 <= i < |b| && b[i].seqno == q;
      assert (a + b)[|a| + i].seqno == q;
    }
    if Carries(a + b, q) {
      var i :| 0 <= i < |a + b| && (a + b)[i].seqno == q;
      assert b[i - |a|].seqno == q;
    }
  }

  lemma BackfillBelow(batches: seq<Batch>, frames: nat, s: Session)
    requires BatchesInv(batches, frames)
    requires SessionInv(batches, s)
    requires s.view.Read?
    ensures forall i :: 0 <= i < |s.view.backfill| ==> s.view.backfill[i].seqno <= s.view.watermark
  {
    if s.view.backfill != [] {
      var h := Flatten(batches[..s.view.snap]);
      FlattenOrdered(batches[..s.view.snap], frames);
      var k := CutPoint(h, s.view.low);
      LastOfAfter(h, s.view.low);
    }
  }
}
