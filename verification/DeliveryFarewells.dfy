/** The closing frame of a session names the last number it delivered, and a client is told to resume
    there. When is nothing lost by doing so? */
module DeliveryFarewells {

  import opened Machine
  import opened EventCaching
  import opened Subscription
  import opened Frames
  import opened Sessions
  import opened SessionInvariants
  import opened Delivery
  import opened DeliveryInvariants
  import opened Subsequences
  import opened DeliveryTheorems
  import opened DeliveryOutcomes

  /** The closing frame of a session that was told why it ends. */
  predicate Farewell(wire: seq<OutboundFrame>) {
    wire != [] && (wire[|wire| - 1].LagExceeded? || wire[|wire| - 1].ServerShutdown?)
  }

  /** The resume point that frame names. */
  function Named(wire: seq<OutboundFrame>): U64
    requires Farewell(wire)
  {
    wire[|wire| - 1].lastDelivered
  }

  /** Everything the session was to deliver by now: after a backfill the history above the bound it asked
      for, otherwise all that was broadcast since it joined. */
  function Owed(batches: seq<Batch>, s: Session): seq<CachedEvent>
    requires s.view.Read? && s.joined <= |batches|
  {
    if s.view.backfill == [] then Flatten(batches[s.joined..]) else After(Flatten(batches), s.view.low)
  }

  /** The past events a new connection asking to resume at `n` is owed; zero asks for the live tail. */
  function Answer(batches: seq<Batch>, n: U64): seq<CachedEvent> {
    if n == 0 then [] else After(Flatten(batches), n)
  }

  /** What was delivered, followed by what resuming at the named number brings, is all that was owed. */
  ghost predicate Lossless(batches: seq<Batch>, s: Session)
    requires s.view.Read? && s.joined <= |batches| && Farewell(s.wire)
  {
    EventsOf(s.wire) + Answer(batches, Named(s.wire)) == Owed(batches, s)
  }

  /** No batch numbered above `w` and up to `n` was refused. */
  ghost predicate NoneRefused(attempts: seq<Attempt>, w: U64, n: U64) {
    forall k :: 0 <= k < |attempts| && w < attempts[k].batch[0].seqno <= n ==> attempts[k].result.Sent?
  }

  // ---------------------------------------------------------------------------------------------
  // What a resume request is answered

  /** Unless the cache refuses, asking to resume at `n` is answered with exactly those events. */
  lemma AnswerIsBackfill(config: Config, steps: seq<Step>, v: Server, n: U64)
    requires Reaches(config, steps, v) && n != FROM_OLDEST
    ensures var r := Range(v.cache, n);
            r.OutOfWindow? || Answer(v.batches, n) == if r.InWindow? then r.events else []
  {
    RunKeeps(config, steps);
    ResumeIsExact(v.cache, Flatten(v.batches), n);
  }

  // ---------------------------------------------------------------------------------------------
  // The theorem

  /** For every session of every run that said goodbye: the number it named is a lossless resume point if
      and only if it delivered something, or nothing has been broadcast since it joined, and no batch
      above the backfill and up to that number was refused. In particular a session closed before its
      first event names zero, the live tail, and whatever it was owed is lost. */
  lemma FarewellLosslessIff(config: Config, steps: seq<Step>, v: Server, a: nat)
    requires Reaches(config, steps, v) && a < |v.sessions|
    requires Farewell(v.sessions[a].wire)
    ensures v.sessions[a].view.Read? && v.sessions[a].joined <= |v.batches|
    ensures var s := v.sessions[a];
            Lossless(v.batches, s) <==>
              && (EventsOf(s.wire) != [] || s.joined == |v.batches|)
              && NoneRefused(s.attempts, s.view.watermark, Named(s.wire))
  {
    RunKeeps(config, steps);
    At(v, a);
    FarewellWasRead(v.batches, v.sessions[a]);
    FarewellCases(v.batches, v.frames, v.sessions[a]);
  }

  lemma FarewellWasRead(batches: seq<Batch>, s: Session)
    requires SessionInv(batches, s) && Farewell(s.wire)
    ensures s.view.Read?
  {
  }

  /** A farewell closes a stream that is complete up to the batches written. */
  lemma FarewellIsComplete(batches: seq<Batch>, s: Session)
    requires SessionInv(batches, s)
    requires s.view.Read? && Farewell(s.wire)
    ensures EventsOf(s.wire) == Sofar(s.view, s.written)
    ensures s.wire[|s.wire| - 1].lastDelivered == LastSeq(EventsOf(s.wire))
  {
  }

  lemma FarewellCases(batches: seq<Batch>, frames: nat, s: Session)
    requires BatchesInv(batches, frames)
    requires SessionInv(batches, s) && Farewell(s.wire)
    requires s.view.Read? && s.view.snap <= OfferedUpTo(s)
    ensures s.joined <= |batches|
    ensures Lossless(batches, s) <==>
              && (EventsOf(s.wire) != [] || s.joined == |batches|)
              && NoneRefused(s.attempts, s.view.watermark, Named(s.wire))
  {
    FarewellIsComplete(batches, s);
    SessionParts(batches, s);
    if EventsOf(s.wire) == [] {
      NothingDelivered(batches, s);
    } else {
      NamedIsPositive(batches, frames, s);
      if NoneRefused(s.attempts, s.view.watermark, Named(s.wire)) {
        NoneRefusedIsLossless(batches, frames, s);
      } else {
        RefusedIsLost(batches, frames, s);
      }
    }
  }

  // ---------------------------------------------------------------------------------------------
  // Nothing was delivered

  lemma NothingDelivered(batches: seq<Batch>, s: Session)
    requires s.view.Read? && s.joined <= |batches| && Farewell(s.wire)
    requires EventsOf(s.wire) == Sofar(s.view, s.written) == [] && Named(s.wire) == 0
    ensures NoneRefused(s.attempts, s.view.watermark, Named(s.wire))
    ensures Lossless(batches, s) <==> s.joined == |batches|
  {
    assert s.view.backfill == [];
    var rest := batches[s.joined..];
    if rest != [] {
      FlattenHead(rest);
    }
  }

  lemma {:induction false} SubseqMember(a: seq<CachedEvent>, b: seq<CachedEvent>, e: CachedEvent)
    requires Subseq(a, b) && e in a
    ensures e in b
    decreases |b|
  {
    var front := b[..|b| - 1];
    if Subseq(a, front) {
      SubseqMember(a, front, e);
    } else if e in a[..|a| - 1] {
      SubseqMember(a[..|a| - 1], front, e);
    }
  }

  lemma NamedIsPositive(batches: seq<Batch>, frames: nat, s: Session)
    requires BatchesInv(batches, frames)
    requires SessionInv(batches, s) && Farewell(s.wire)
    requires s.view.Read? && s.view.snap <= OfferedUpTo(s)
    requires EventsOf(s.wire) != [] && Named(s.wire) == LastSeq(EventsOf(s.wire))
    ensures Named(s.wire) > 0
  {
    var events := EventsOf(s.wire);
    ReadDelivers(batches, frames, s);
    SubseqMember(events, Flatten(batches), events[|events| - 1]);
    FlattenOrdered(batches, frames);
  }

  // ---------------------------------------------------------------------------------------------
  // A refused batch is lost

  lemma RefusedIsLost(batches: seq<Batch>, frames: nat, s: Session)
    requires BatchesInv(batches, frames)
    requires SessionInv(batches, s) && Farewell(s.wire)
    requires s.view.Read? && s.joined <= |batches|
    requires !NoneRefused(s.attempts, s.view.watermark, Named(s.wire))
    ensures !Lossless(batches, s)
  {
    var k :| 0 <= k < |s.attempts| && s.view.watermark < s.attempts[k].batch[0].seqno <= Named(s.wire)
             && !s.attempts[k].result.Sent?;
    var q := s.attempts[k].batch[0].seqno;
    RefusedNotDelivered(batches, frames, s, k);
    AfterAbove(Flatten(batches), Named(s.wire));
    CarriesNot(EventsOf(s.wire), Answer(batches, Named(s.wire)), q);
    RefusedIsOwed(batches, frames, s, k);
  }

  lemma RefusedNotDelivered(batches: seq<Batch>, frames: nat, s: Session, k: nat)
    requires BatchesInv(batches, frames)
    requires SessionInv(batches, s) && s.view.Read?
    requires k < |s.attempts| && s.view.watermark < s.attempts[k].batch[0].seqno && !s.attempts[k].result.Sent?
    ensures !Carries(EventsOf(s.wire), s.attempts[k].batch[0].seqno)
  {
    SessionParts(batches, s);
    WatermarkSplits(batches, frames, s);
    assert s.attempts[k].batch == batches[s.joined + k];
    SplitsOne(batches, s.joined, LiveFrom(s), s.view.watermark, s.joined + k);
    CarriedIffAccepted(batches, frames, s, k);
    WireIsPrefixOfStream(batches, s);
    CarriesPrefix(EventsOf(s.wire), Stream(s), s.attempts[k].batch[0].seqno);
  }

  lemma CarriesPrefix(a: seq<CachedEvent>, b: seq<CachedEvent>, q: U64)
    requires a <= b && !Carries(b, q)
    ensures !Carries(a, q)
  {
    assert forall i :: 0 <= i < |a| ==> a[i] == b[i];
  }

  lemma CarriesNot(a: seq<CachedEvent>, b: seq<CachedEvent>, q: U64)
    requires !Carries(a, q)
    requires forall i :: 0 <= i < |b| ==> b[i].seqno != q
    ensures !Carries(a + b, q)
  {
    forall i | 0 <= i < |a + b|
      ensures (a + b)[i].seqno != q
    {
      assert i < |a| ==> (a + b)[i] == a[i];
      assert i >= |a| ==> (a + b)[i] == b[i - |a|];
    }
  }

  lemma RefusedIsOwed(batches: seq<Batch>, frames: nat, s: Session, k: nat)
    requires BatchesInv(batches, frames)
    requires SessionInv(batches, s) && s.view.Read? && s.joined <= |batches|
    requires k < |s.attempts| && s.view.watermark < s.attempts[k].batch[0].seqno
    ensures Carries(Owed(batches, s), s.attempts[k].batch[0].seqno)
  {
    SessionParts(batches, s);
    var e := batches[s.joined + k][0];
    assert s.attempts[k].batch == batches[s.joined + k];
    if s.view.backfill == [] {
      FlattenHas(batches[s.joined..], k, 0);
    } else {
      FlattenHas(batches, s.joined + k, 0);
      AfterHas(Flatten(batches), s.view.low, e);
    }
    HasCarries(Owed(batches, s), e);
  }

  lemma HasCarries(es: seq<CachedEvent>, e: CachedEvent)
    requires e in es
    ensures Carries(es, e.seqno)
  {
  }

  // ---------------------------------------------------------------------------------------------
  // With none refused the stream is contiguous

  lemma NoneRefusedIsLossless(batches: seq<Batch>, frames: nat, s: Session)
    requires BatchesInv(batches, frames)
    requires SessionInv(batches, s) && Farewell(s.wire)
    requires s.view.Read? && s.view.snap <= OfferedUpTo(s) && s.joined <= |batches|
    requires EventsOf(s.wire) == Sofar(s.view, s.written) && EventsOf(s.wire) != []
    requires Named(s.wire) == LastSeq(EventsOf(s.wire)) > 0
    requires NoneRefused(s.attempts, s.view.watermark, Named(s.wire))
    ensures Lossless(batches, s)
  {
    WatermarkSplits(batches, frames, s);
    WireIsPrefixOfStream(batches, s);
    SessionParts(batches, s);
    ResumeFrom(batches, frames, s.joined, s.attempts, s.view, LiveFrom(s), s.written, EventsOf(s.wire));
  }

  lemma ResumeFrom(batches: seq<Batch>, frames: nat, joined: nat, attempts: seq<Attempt>, view: CacheView,
                   from: nat, written: seq<Batch>, events: seq<CachedEvent>)
    requires BatchesInv(batches, frames)
    requires AttemptsInv(batches, joined, attempts)
    requires BackfillAt(batches, view)
    requires from == (if view.backfill == [] then joined else view.snap) <= joined + |attempts|
    requires SplitsAt(batches, joined, from, view.watermark)
    requires written <= Kept(AcceptedOf(attempts), view.watermark)
    requires events == view.backfill + Flatten(written) && events != []
    requires NoneRefused(attempts, view.watermark, LastSeq(events))
    ensures events + After(Flatten(batches), LastSeq(events)) ==
              if view.backfill == [] then Flatten(batches[joined..]) else After(Flatten(batches), view.low)
  {
    var m := from;
    if written == [] {
      assert batches[from..m] == [];
    } else {
      LastWritten(batches, frames, joined, attempts, view, written, events);
      m := WrittenEnd(batches, frames, joined, attempts, from, view.watermark, written);
    }
    Handover(batches, frames, joined, view, from, m, events);
  }

  lemma LastWritten(batches: seq<Batch>, frames: nat, joined: nat, attempts: seq<Attempt>, view: CacheView,
                    written: seq<Batch>, events: seq<CachedEvent>)
    requires BatchesInv(batches, frames)
    requires AttemptsInv(batches, joined, attempts)
    requires view.Read? && written != [] && written <= Kept(AcceptedOf(attempts), view.watermark)
    requires events == view.backfill + Flatten(written)
    ensures events != [] && LastSeq(events) == written[|written| - 1][0].seqno
  {
    var last := written[|written| - 1];
    KeptFromLog(batches, frames, joined, attempts, view.watermark);
    assert Uniform(last) by {
      assert last == Kept(AcceptedOf(attempts), view.watermark)[|written| - 1];
    }
    assert Flatten(written) == Flatten(written[..|written| - 1]) + last;
    assert events[|events| - 1] == last[|last| - 1];
  }

  /** With nothing refused before it, the last batch written closes a contiguous stretch of the log. */
  lemma WrittenEnd(batches: seq<Batch>, frames: nat, joined: nat, attempts: seq<Attempt>, from: nat, w: U64,
                   written: seq<Batch>)
    returns (m: nat)
    requires BatchesInv(batches, frames)
    requires AttemptsInv(batches, joined, attempts)
    requires SplitsAt(batches, joined, from, w)
    requires written != [] && written <= Kept(AcceptedOf(attempts), w)
    requires NoneRefused(attempts, w, written[|written| - 1][0].seqno)
    ensures from <= m <= |batches| && written == batches[from..m]
  {
    var last := written[|written| - 1];
    var j := AcceptedAt(attempts, w, last) by {
      assert last == Kept(AcceptedOf(attempts), w)[|written| - 1];
    }
    assert last == batches[joined + j];
    m := joined + j + 1;
    SplitsOne(batches, joined, from, w, joined + j);
    HeadOfKept(batches, frames, joined, attempts, j, from, w);
    KeptRises(batches, frames, joined, attempts, w);
    SameEnd(written, batches[from..m], Kept(AcceptedOf(attempts), w));
  }

  lemma AcceptedAt(attempts: seq<Attempt>, w: U64, b: Batch) returns (j: nat)
    requires b in Kept(AcceptedOf(attempts), w)
    ensures j < |attempts| && attempts[j].batch == b && attempts[j].result.Sent? && b[0].seqno > w
  {
    KeptMembers(AcceptedOf(attempts), w);
    AcceptedFromAttempts(attempts, b);
    j :| 0 <= j < |attempts| && attempts[j].batch == b && attempts[j].result.Sent?;
  }

  lemma HeadOfKept(batches: seq<Batch>, frames: nat, joined: nat, attempts: seq<Attempt>, j: nat, from: nat, w: U64)
    requires BatchesInv(batches, frames)
    requires AttemptsInv(batches, joined, attempts)
    requires SplitsAt(batches, joined, from, w)
    requires j < |attempts| && from <= joined + j
    requires NoneRefused(attempts, w, attempts[j].batch[0].seqno)
    ensures batches[from..joined + j + 1] <= Kept(AcceptedOf(attempts), w)
  {
    var head := attempts[..j + 1];
    SentUpTo(batches, frames, joined, attempts, j, from, w);
    SentKept(batches, joined, head, from, w);
    AcceptedPrefix(attempts, j + 1);
    KeptPrefix(AcceptedOf(head), AcceptedOf(attempts), w);
  }

  lemma SentUpTo(batches: seq<Batch>, frames: nat, joined: nat, attempts: seq<Attempt>, j: nat, from: nat, w: U64)
    requires BatchesInv(batches, frames)
    requires AttemptsInv(batches, joined, attempts)
    requires SplitsAt(batches, joined, from, w)
    requires j < |attempts| && NoneRefused(attempts, w, attempts[j].batch[0].seqno)
    ensures AttemptsInv(batches, joined, attempts[..j + 1])
    ensures SentFrom(joined, attempts[..j + 1], from)
  {
    forall k | 0 <= k <= j && from <= joined + k
      ensures attempts[k].result.Sent?
    {
      assert attempts[k].batch == batches[joined + k] && attempts[j].batch == batches[joined + j];
      SplitsOne(batches, joined, from, w, joined + k);
    }
  }

  ghost predicate Rising(bs: seq<Batch>) {
    forall i, j :: 0 <= i < j < |bs| ==> bs[i][0].seqno < bs[j][0].seqno
  }

  ghost predicate AllBelow(bs: seq<Batch>, q: int) {
    forall i :: 0 <= i < |bs| ==> bs[i][0].seqno < q
  }

  lemma RisingAppend(bs: seq<Batch>, b: Batch)
    requires Rising(bs) && AllBelow(bs, b[0].seqno)
    ensures Rising(bs + [b]) && AllBelow(bs + [b], b[0].seqno + 1)
  {
  }

  lemma {:induction false} AcceptedRises(batches: seq<Batch>, frames: nat, joined: nat, attempts: seq<Attempt>, q: int)
    requires BatchesInv(batches, frames)
    requires AttemptsInv(batches, joined, attempts)
    requires attempts != [] ==> batches[joined + |attempts| - 1][0].seqno < q
    ensures Rising(AcceptedOf(attempts)) && AllBelow(AcceptedOf(attempts), q)
  {
    if attempts != [] {
      var front, t := attempts[..|attempts| - 1], attempts[|attempts| - 1];
      assert t.batch == batches[joined + |attempts| - 1];
      AcceptedRises(batches, frames, joined, front, t.batch[0].seqno);
      RisingAppend(AcceptedOf(front), t.batch);
    }
  }

  lemma {:induction false} KeptStaysRising(bs: seq<Batch>, w: U64, q: int)
    requires Rising(bs) && AllBelow(bs, q)
    ensures Rising(Kept(bs, w)) && AllBelow(Kept(bs, w), q)
  {
    if bs != [] {
      var front, b := bs[..|bs| - 1], bs[|bs| - 1];
      KeptStaysRising(front, w, b[0].seqno);
      RisingAppend(Kept(front, w), b);
    }
  }

  lemma KeptRises(batches: seq<Batch>, frames: nat, joined: nat, attempts: seq<Attempt>, w: U64)
    requires BatchesInv(batches, frames)
    requires AttemptsInv(batches, joined, attempts)
    ensures Rising(Kept(AcceptedOf(attempts), w))
  {
    AcceptedRises(batches, frames, joined, attempts, frames + 1);
    KeptStaysRising(AcceptedOf(attempts), w, frames + 1);
  }

  /** Two prefixes of a rising list that end in the same batch are the same. */
  lemma SameEnd(a: seq<Batch>, b: seq<Batch>, k: seq<Batch>)
    requires Rising(k) && a <= k && b <= k
    requires a != [] && b != [] && a[|a| - 1] == b[|b| - 1]
    ensures a == b
  {
    assert k[|a| - 1] == k[|b| - 1];
  }

  lemma {:induction false} AcceptedPrefix(attempts: seq<Attempt>, k: nat)
    requires k <= |attempts|
    ensures AcceptedOf(attempts[..k]) <= AcceptedOf(attempts)
  {
    if k == |attempts| {
      assert attempts[..k] == attempts;
    } else {
      AcceptedPrefix(attempts[..|attempts| - 1], k);
      assert attempts[..|attempts| - 1][..k] == attempts[..k];
    }
  }

  /** The events up to batch `m` followed by everything numbered above batch `m - 1`. */
  lemma Handover(batches: seq<Batch>, frames: nat, joined: nat, view: CacheView, from: nat, m: nat,
                 events: seq<CachedEvent>)
    requires BatchesInv(batches, frames)
    requires view.Read? && from == (if view.backfill == [] then joined else view.snap) <= m <= |batches|
    requires BackfillAt(batches, view)
    requires events == view.backfill + Flatten(batches[from..m]) && events != []
    ensures events + After(Flatten(batches), LastSeq(events)) ==
      if view.backfill == [] then Flatten(batches[joined..]) else After(Flatten(batches), view.low)
  {
    LastOfEvents(batches, frames, view, from, m, events);
    AfterBatch(batches, frames, m);
    if view.backfill == [] {
      LiveHandover(batches, joined, m, events);
    } else {
      BackfillThenLive(batches, frames, view, m);
      AfterTail(batches, frames, m, view.low);
    }
  }

  lemma LiveHandover(batches: seq<Batch>, joined: nat, m: nat, events: seq<CachedEvent>)
    requires joined <= m <= |batches|
    requires events == [] + Flatten(batches[joined..m])
    ensures events + Flatten(batches[m..]) == Flatten(batches[joined..])
  {
    assert batches[joined..] == batches[joined..m] + batches[m..];
    FlattenConcat(batches[joined..m], batches[m..]);
  }

  lemma AfterTail(batches: seq<Batch>, frames: nat, m: nat, low: U64)
    requires BatchesInv(batches, frames)
    requires m <= |batches|
    requires forall i :: m <= i < |batches| ==> low < batches[i][0].seqno
    ensures After(Flatten(batches), low) == After(Flatten(batches[..m]), low) + Flatten(batches[m..])
  {
    AfterExtends(batches, frames, m, |batches|, low);
    assert batches[..|batches|] == batches && batches[m..|batches|] == batches[m..];
  }

  lemma AfterBatch(batches: seq<Batch>, frames: nat, m: nat)
    requires BatchesInv(batches, frames)
    requires 0 < m <= |batches|
    ensures After(Flatten(batches), batches[m - 1][0].seqno) == Flatten(batches[m..])
  {
    var q := batches[m - 1][0].seqno;
    AfterTail(batches, frames, m, q);
    UpToBatch(batches, frames, m);
    AfterNone(Flatten(batches[..m]), q);
  }

  lemma UpToBatch(batches: seq<Batch>, frames: nat, m: nat)
    requires BatchesInv(batches, frames)
    requires 0 < m <= |batches|
    ensures forall x :: 0 <= x < |Flatten(batches[..m])| ==> Flatten(batches[..m])[x].seqno <= batches[m - 1][0].seqno
  {
    FlattenAtMost(batches[..m], batches[m - 1][0].seqno);
  }

  lemma {:induction false} FlattenAtMost(bs: seq<Batch>, q: U64)
    requires AllUniform(bs)
    requires forall i :: 0 <= i < |bs| ==> bs[i][0].seqno <= q
    ensures forall x :: 0 <= x < |Flatten(bs)| ==> Flatten(bs)[x].seqno <= q
  {
    if bs != [] {
      FlattenAtMost(bs[..|bs| - 1], q);
      assert Uniform(bs[|bs| - 1]);
    }
  }

  lemma LastOfEvents(batches: seq<Batch>, frames: nat, view: CacheView, from: nat, m: nat, events: seq<CachedEvent>)
    requires BatchesInv(batches, frames)
    requires view.Read? && from <= m <= |batches|
    requires BackfillAt(batches, view) && (view.backfill != [] ==> from == view.snap)
    requires events == view.backfill + Flatten(batches[from..m]) && events != []
    ensures m > 0 && LastSeq(events) == batches[m - 1][0].seqno
  {
    if from < m {
      var bs := batches[from..m];
      var last := bs[|bs| - 1];
      assert last == batches[m - 1] && Uniform(last);
      assert Flatten(bs) == Flatten(bs[..|bs| - 1]) + last;
    } else {
      assert Flatten(batches[from..m]) == [] by {
        assert batches[from..m] == [];
      }
      var seen := batches[..view.snap];
      FlattenOrdered(seen, frames);
      LastOfAfter(Flatten(seen), view.low);
    }
  }
}
