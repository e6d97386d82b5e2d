/** The bounded event cache behind the resume-from-sequence protocol
    (runtime/knomosis-event-subscribe/src/event_cache.rs).

    `Cache` is the value a cache object holds; `EventCache` is the mutable object itself.
    Every claim is made against the unbounded push history the buffer abbreviates. */
module EventCaching {

  import opened Machine

  const HARD_MAX_KEEP_HISTORY: nat := 1_000_000

  /** The `resume_from` value that asks for everything still retained. */
  const FROM_OLDEST: U64 := U64_MAX

  datatype CachedEvent = CachedEvent(seqno: U64, payload: seq<Byte>)

  datatype RangeOutcome =
    | InWindow(events: seq<CachedEvent>)
    | OutOfWindow(oldestAvailable: U64)
    | AtLiveTail

  datatype PushError = OutOfOrder(tried: U64, previous: U64)

  datatype NewCacheError = ZeroCapacity

  datatype Cache = Cache(buffer: seq<CachedEvent>, capacity: nat, lastPushed: U64, lastEvicted: Option<U64>)

  function NewCache(capacity: nat): Cache {
    Cache([], if capacity < HARD_MAX_KEEP_HISTORY then capacity else HARD_MAX_KEEP_HISTORY, 0, None)
  }

  function Push(c: Cache, e: CachedEvent): Result<Cache, PushError> {
    if e.seqno == 0 || e.seqno < c.lastPushed then
      Failure(OutOfOrder(e.seqno, c.lastPushed))
    else if |c.buffer| == c.capacity && |c.buffer| > 0 then
      Success(Cache(c.buffer[1..] + [e], c.capacity, e.seqno, Some(c.buffer[0].seqno)))
    else
      Success(Cache(c.buffer + [e], c.capacity, e.seqno, c.lastEvicted))
  }

  predicate HasPartialFront(c: Cache) {
    c.lastEvicted.Some? && |c.buffer| > 0 && c.lastEvicted.value == c.buffer[0].seqno
  }

  /** The events of `s` with a sequence number above `from`, in order. */
  function After(s: seq<CachedEvent>, from: U64): (r: seq<CachedEvent>) {
    if s == [] then []
    else After(s[..|s| - 1], from) + if s[|s| - 1].seqno > from then [s[|s| - 1]] else []
  }

  function Range(c: Cache, from: U64): RangeOutcome {
    if c.buffer == [] then
      AtLiveTail
    else
      var oldest := c.buffer[0].seqno;
      var newest := c.buffer[|c.buffer| - 1].seqno;
      if from == FROM_OLDEST then
        InWindow(After(c.buffer, if HasPartialFront(c) then oldest else SaturatingPred(oldest)))
      else if from == 0 || from >= newest then
        AtLiveTail
      else if SaturatingSucc(from) < oldest then
        OutOfWindow(oldest)
      else if HasPartialFront(c) && from < oldest then
        OutOfWindow(SaturatingSucc(oldest))
      else
        InWindow(After(c.buffer, from))
  }

  // ---------------------------------------------------------------------------------------------
  // Histories

  /** What `push` lets through: 1-based, never decreasing. */
  ghost predicate Ordered(h: seq<CachedEvent>) {
    && (forall i :: 0 <= i < |h| ==> 1 <= h[i].seqno)
    && (forall i, j :: 0 <= i <= j < |h| ==> h[i].seqno <= h[j].seqno)
  }

  /** How many events of `h` a cache of the given capacity no longer holds. */
  function Evicted(h: seq<CachedEvent>, capacity: nat): (n: nat)
    ensures n <= |h|
  {
    if |h| <= capacity then 0 else |h| - capacity
  }

  /** `c` is what remains of the accepted history `h`. */
  ghost predicate Summarises(c: Cache, h: seq<CachedEvent>) {
    var n := Evicted(h, c.capacity);
    && 1 <= c.capacity
    && Ordered(h)
    && c.buffer == h[n..]
    && c.lastPushed == (if h == [] then 0 else h[|h| - 1].seqno)
    && c.lastEvicted == (if n == 0 then None else Some(h[n - 1].seqno))
  }

  lemma OrderedExtends(h: seq<CachedEvent>, e: CachedEvent)
    requires Ordered(h)
    ensures Ordered(h + [e]) <==> e.seqno != 0 && (h != [] ==> h[|h| - 1].seqno <= e.seqno)
  {
    var h' := h + [e];
    assert h'[|h|] == e;
    if h != [] {
      assert h'[|h| - 1] == h[|h| - 1];
    }
    if e.seqno != 0 && (h != [] ==> h[|h| - 1].seqno <= e.seqno) {
      forall i, j | 0 <= i <= j < |h'|
        ensures h'[i].seqno <= h'[j].seqno
      {
        if j < |h| {
          assert h[i].seqno <= h[j].seqno;
        } else if i < |h| {
          assert h[i].seqno <= h[|h| - 1].seqno;
        }
      }
    }
  }

  lemma BufferExtends(h: seq<CachedEvent>, e: CachedEvent, capacity: nat)
    requires 1 <= capacity
    ensures var n, n' := Evicted(h, capacity), Evicted(h + [e], capacity);
      && n <= n' <= n + 1
      && (n' == n + 1 <==> |h[n..]| == capacity)
      && (n' == n ==> (h + [e])[n'..] == h[n..] + [e])
      && (n' == n + 1 ==> n < |h| && (h + [e])[n'..] == h[n..][1..] + [e] && (h + [e])[n' - 1] == h[n..][0])
  {
  }

  lemma PushExtendsHistory(c: Cache, h: seq<CachedEvent>, e: CachedEvent)
    requires Summarises(c, h)
    ensures Push(c, e).Success? <==> Ordered(h + [e])
    ensures Push(c, e).Success? ==> Summarises(Push(c, e).value, h + [e])
  {
    OrderedExtends(h, e);
    BufferExtends(h, e, c.capacity);
    var n := Evicted(h, c.capacity);
    if n > 0 {
      assert (h + [e])[n - 1] == h[n - 1];
    }
  }

  /** Pushing a whole list of candidate events, refused ones included. */
  function PushAll(c: Cache, es: seq<CachedEvent>): Cache {
    if es == [] then c
    else
      var c' := PushAll(c, es[..|es| - 1]);
      var r := Push(c', es[|es| - 1]);
      if r.Success? then r.value else c'
  }

  /** The candidates that survive the ordering rule, whatever the capacity. */
  function Accepted(es: seq<CachedEvent>): seq<CachedEvent> {
    if es == [] then []
    else
      var acc := Accepted(es[..|es| - 1]);
      var e := es[|es| - 1];
      if e.seqno == 0 || (acc != [] && e.seqno < acc[|acc| - 1].seqno) then acc else acc + [e]
  }

  lemma {:induction false} PushAllSummarises(capacity: nat, es: seq<CachedEvent>)
    requires 1 <= capacity
    ensures Summarises(PushAll(NewCache(capacity), es), Accepted(es))
    ensures PushAll(NewCache(capacity), es).capacity == NewCache(capacity).capacity
  {
    if es != [] {
      PushAllSummarises(capacity, es[..|es| - 1]);
      PushExtendsHistory(PushAll(NewCache(capacity), es[..|es| - 1]), Accepted(es[..|es| - 1]), es[|es| - 1]);
    }
  }

  /** After any pushes at all, refused ones included, a cache asked to hold `capacity` events holds the last
      `capacity` accepted ones, or the last million if asked for more, or all of them if there are fewer;
      and its two markers are the number of the newest and of the last one it let go. */
  lemma BufferIsRecentHistory(capacity: nat, es: seq<CachedEvent>)
    requires 1 <= capacity
    ensures var h, c := Accepted(es), PushAll(NewCache(capacity), es);
      exists n: nat ::
        && n <= |h| && c.buffer == h[n..]
        && |h| - n == Min(|h|, Min(capacity, 1_000_000))
        && c.lastPushed == (if h == [] then 0 else h[|h| - 1].seqno)
        && c.lastEvicted == (if n == 0 then None else Some(h[n - 1].seqno))
  {
    PushAllSummarises(capacity, es);
    var n := Evicted(Accepted(es), NewCache(capacity).capacity);
    assert |Accepted(es)| - n == Min(|Accepted(es)|, Min(capacity, 1_000_000));
  }

  // ---------------------------------------------------------------------------------------------
  // `After` on ordered histories

  lemma {:induction false} AfterConcat(a: seq<CachedEvent>, b: seq<CachedEvent>, from: U64)
    ensures After(a + b, from) == After(a, from) + After(b, from)
  {
    if b == [] {
      assert a + b == a;
    } else {
      AfterConcat(a, b[..|b| - 1], from);
      assert (a + b)[..|a + b| - 1] == a + b[..|b| - 1];
      var last := if b[|b| - 1].seqno > from then [b[|b| - 1]] else [];
      assert After(a + b, from) == After(a, from) + After(b[..|b| - 1], from) + last;
    }
  }

  lemma {:induction false} AfterNone(s: seq<CachedEvent>, from: U64)
    requires forall i :: 0 <= i < |s| ==> s[i].seqno <= from
    ensures After(s, from) == []
  {
    if s != [] {
      AfterNone(s[..|s| - 1], from);
    }
  }

  lemma {:induction false} AfterAll(s: seq<CachedEvent>, from: U64)
    requires forall i :: 0 <= i < |s| ==> s[i].seqno > from
    ensures After(s, from) == s
  {
    if s != [] {
      AfterAll(s[..|s| - 1], from);
      assert s == s[..|s| - 1] + [s[|s| - 1]];
    }
  }

  lemma AfterSplit(h: seq<CachedEvent>, from: U64, k: nat)
    requires k <= |h|
    requires forall i :: 0 <= i < k ==> h[i].seqno <= from
    requires forall i :: k <= i < |h| ==> from < h[i].seqno
    ensures After(h, from) == h[k..]
  {
    assert h == h[..k] + h[k..];
    AfterConcat(h[..k], h[k..], from);
    AfterNone(h[..k], from);
    AfterAll(h[k..], from);
  }

  /** On an ordered history the filter is a cut. */
  lemma AfterIsCut(h: seq<CachedEvent>, from: U64, k: nat)
    requires Ordered(h)
    requires k <= |h|
    requires k > 0 ==> h[k - 1].seqno <= from
    requires k < |h| ==> from < h[k].seqno
    ensures After(h, from) == h[k..]
  {
    forall i | 0 <= i < k
      ensures h[i].seqno <= from
    {
      assert h[i].seqno <= h[k - 1].seqno;
    }
    forall i | k <= i < |h|
      ensures from < h[i].seqno
    {
      assert h[k].seqno <= h[i].seqno;
    }
    AfterSplit(h, from, k);
  }

  lemma CutPoint(h: seq<CachedEvent>, from: U64) returns (k: nat)
    requires Ordered(h)
    ensures k <= |h|
    ensures k > 0 ==> h[k - 1].seqno <= from
    ensures k < |h| ==> from < h[k].seqno
    ensures After(h, from) == h[k..]
  {
    k := 0;
    while k < |h| && h[k].seqno <= from
      invariant k <= |h|
      invariant k > 0 ==> h[k - 1].seqno <= from
    {
      k := k + 1;
    }
    AfterIsCut(h, from, k);
  }

  // ---------------------------------------------------------------------------------------------
  // What `range` answers

  /** The events already pushed out of the cache. */
  function Lost(c: Cache, h: seq<CachedEvent>): seq<CachedEvent> {
    h[..Evicted(h, c.capacity)]
  }

  lemma BufferAfter(c: Cache, h: seq<CachedEvent>, from: U64)
    requires Summarises(c, h)
    ensures After(h, from) == After(Lost(c, h), from) + After(c.buffer, from)
    ensures After(Lost(c, h), from) == [] <==> (c.lastEvicted.Some? ==> c.lastEvicted.value <= from)
  {
    var n := Evicted(h, c.capacity);
    assert h == h[..n] + h[n..];
    AfterConcat(h[..n], h[n..], from);
    if n > 0 {
      if h[n - 1].seqno <= from {
        AfterNone(h[..n], from);
      } else {
        assert h[..n][|h[..n]| - 1] == h[n - 1];
      }
    }
  }

  /** Resuming is lossless: an in-window answer is everything ever accepted above `from`, in order,
      and the live-tail answer means there was nothing (or, for 0, that no backfill was asked for). */
  lemma ResumeIsExact(c: Cache, h: seq<CachedEvent>, from: U64)
    requires Summarises(c, h)
    requires from != FROM_OLDEST
    ensures Range(c, from).InWindow? ==> Range(c, from).events == After(h, from) != []
    ensures Range(c, from).AtLiveTail? <==> from == 0 || After(h, from) == []
  {
    BufferAfter(c, h, from);
    if c.buffer == [] {
      assert h == [];
    } else {
      var last := |h| - 1;
      assert c.buffer[|c.buffer| - 1] == h[last];
      if from >= h[last].seqno {
        AfterNone(h, from);
      } else {
        assert After(h, from)[|After(h, from)| - 1] == h[last];
      }
    }
  }

  /** Every sequence number up to the newest carries at least one event. */
  ghost predicate Dense(h: seq<CachedEvent>) {
    h != [] ==> forall s: U64 :: 1 <= s <= h[|h| - 1].seqno ==> Carries(h, s)
  }

  ghost predicate Carries(h: seq<CachedEvent>, s: U64) {
    exists i :: 0 <= i < |h| && h[i].seqno == s
  }

  /** A refusal with nothing lost: the numbers between the request and the oldest retained event
      were never used. */
  ghost predicate SkippedNumbers(c: Cache, from: U64) {
    && c.buffer != []
    && from + 1 < c.buffer[0].seqno
    && (c.lastEvicted.Some? ==> c.lastEvicted.value <= from)
  }

  /** A refusal reports either a real loss or a skip in the numbering, and never misses a loss. */
  lemma RefusedIffLostOrSkipped(c: Cache, h: seq<CachedEvent>, from: U64)
    requires Summarises(c, h)
    requires from != 0 && from != FROM_OLDEST
    ensures Range(c, from).OutOfWindow? <==> After(Lost(c, h), from) != [] || SkippedNumbers(c, from)
  {
    BufferAfter(c, h, from);
    var n := Evicted(h, c.capacity);
    if n > 0 && c.buffer != [] {
      assert h[n - 1].seqno <= h[n].seqno <= h[|h| - 1].seqno;
    }
  }

  lemma DenseNeverSkips(c: Cache, h: seq<CachedEvent>, from: U64)
    requires Summarises(c, h)
    requires Dense(h)
    requires from != 0 && from != FROM_OLDEST
    ensures !SkippedNumbers(c, from)
  {
    if c.buffer != [] && from + 1 < c.buffer[0].seqno {
      var n := Evicted(h, c.capacity);
      assert h[n].seqno <= h[|h| - 1].seqno;
      assert Carries(h, from + 1);
    }
  }

  /** With no holes in the numbering, a refusal means exactly that something was lost. */
  lemma RefusedIffLost(c: Cache, h: seq<CachedEvent>, from: U64)
    requires Summarises(c, h)
    requires Dense(h)
    requires from != 0 && from != FROM_OLDEST
    ensures Range(c, from).OutOfWindow? <==> After(Lost(c, h), from) != []
  {
    RefusedIffLostOrSkipped(c, h, from);
    DenseNeverSkips(c, h, from);
  }

  /** Without that assumption the equivalence fails even on a cache that has never evicted. */
  lemma RefusedWithNothingLost()
    ensures exists c, h, from ::
      Summarises(c, h) && from != 0 && from != FROM_OLDEST && Lost(c, h) == [] && Range(c, from).OutOfWindow?
  {
    var e := CachedEvent(10, []);
    var c := Cache([e], 4, 10, None);
    assert Summarises(c, [e]);
    assert Range(c, 3).OutOfWindow?;
  }

  // ---------------------------------------------------------------------------------------------
  // The resume hint

  /** The least resume point `range` does not refuse. */
  function LeastResume(c: Cache): U64
    requires c.buffer != []
  {
    if HasPartialFront(c) then c.buffer[0].seqno else SaturatingPred(c.buffer[0].seqno)
  }

  lemma RefusedIffBelowLeast(c: Cache, h: seq<CachedEvent>, from: U64)
    requires Summarises(c, h)
    requires c.buffer != []
    requires from != 0 && from != FROM_OLDEST
    ensures Range(c, from).OutOfWindow? <==> from < LeastResume(c)
  {
    assert c.buffer[0].seqno <= c.buffer[|c.buffer| - 1].seqno;
  }

  /** Retrying with the hint on the same cache is never refused. */
  lemma HintIsAccepted(c: Cache, h: seq<CachedEvent>, from: U64)
    requires Summarises(c, h)
    requires Range(c, from).OutOfWindow?
    ensures !Range(c, Range(c, from).oldestAvailable).OutOfWindow?
  {
    assert c.buffer[0].seqno <= c.buffer[|c.buffer| - 1].seqno;
  }

  /** The hint is documented as the smallest usable resume point. It is that only when the front is a
      partial batch and the request lies well before it (or the successor saturates); in every other
      refusal it is one more. */
  lemma HintIsSmallestIff(c: Cache, h: seq<CachedEvent>, from: U64)
    requires Summarises(c, h)
    requires Range(c, from).OutOfWindow?
    ensures Range(c, from).oldestAvailable == LeastResume(c) <==>
            HasPartialFront(c) && (from + 1 < c.buffer[0].seqno || c.buffer[0].seqno == U64_MAX)
    ensures Range(c, from).oldestAvailable in {LeastResume(c), SaturatingSucc(LeastResume(c))}
  {
  }

  /** The events of `h` numbered `n`. */
  function Numbered(h: seq<CachedEvent>, n: U64): seq<CachedEvent> {
    if h == [] then []
    else Numbered(h[..|h| - 1], n) + if h[|h| - 1].seqno == n then [h[|h| - 1]] else []
  }

  lemma {:induction false} NumberedIffCarried(h: seq<CachedEvent>, n: U64)
    ensures Numbered(h, n) != [] <==> Carries(h, n)
  {
    if h != [] {
      var front := h[..|h| - 1];
      NumberedIffCarried(front, n);
      if i :| 0 <= i < |front| && front[i].seqno == n {
        assert h[i].seqno == n;
      }
      if i :| 0 <= i < |h| && h[i].seqno == n && i < |front| {
        assert front[i].seqno == n;
      }
      if h[|h| - 1].seqno == n {
        assert h[|h| - 1].seqno == n;
      }
    }
  }

  lemma {:induction false} AfterNext(h: seq<CachedEvent>, n: U64)
    requires Ordered(h) && n > 0
    ensures After(h, n - 1) == Numbered(h, n) + After(h, n)
  {
    if h != [] {
      var front, e := h[..|h| - 1], h[|h| - 1];
      AfterNext(front, n);
      if e.seqno == n {
        AfterNone(front, n);
        AfterNone(h, n);
      }
    }
  }

  /** A client that follows a hint that is not the smallest resume point skips exactly the events numbered
      by the hint, which the cache still holds: a whole batch, unless that number was never used. Without a
      partial front it always was. */
  lemma HintSkipsBatch(c: Cache, h: seq<CachedEvent>, from: U64)
    requires Summarises(c, h)
    requires Range(c, from).OutOfWindow? && Range(c, from).oldestAvailable != LeastResume(c)
    ensures var hint := Range(c, from).oldestAvailable;
      && After(h, LeastResume(c)) == After(c.buffer, LeastResume(c)) == Numbered(h, hint) + After(h, hint)
      && (Numbered(h, hint) != [] <==> Carries(h, hint))
      && (!HasPartialFront(c) ==> Carries(h, hint))
  {
    var hint := Range(c, from).oldestAvailable;
    HintIsSmallestIff(c, h, from);
    NothingLostAboveLeast(c, h);
    AfterNext(h, hint);
    NumberedIffCarried(h, hint);
    var n := Evicted(h, c.capacity);
    assert h[n] == c.buffer[0];
  }

  // ---------------------------------------------------------------------------------------------
  // Backfill from the oldest retained batch

  /** No batch straddles position `k`: everything sharing a number with `h[k..]` lies in it. */
  ghost predicate WholeBatches(h: seq<CachedEvent>, k: nat)
    requires k <= |h|
  {
    forall i, j :: 0 <= i < k <= j < |h| ==> h[i].seqno != h[j].seqno
  }

  /** Position `k` starts the longest suffix of the history that is still held and cuts no batch. */
  ghost predicate LongestWhole(c: Cache, h: seq<CachedEvent>, k: nat) {
    && Evicted(h, c.capacity) <= k <= |h|
    && WholeBatches(h, k)
    && forall k' :: Evicted(h, c.capacity) <= k' < k ==> !WholeBatches(h, k')
  }

  /** The `FROM_OLDEST` answer is that suffix, and also what resuming just before it would bring. */
  lemma FromOldestIsLongestWhole(c: Cache, h: seq<CachedEvent>) returns (k: nat)
    requires Summarises(c, h)
    requires c.buffer != []
    ensures LongestWhole(c, h, k)
    ensures Range(c, FROM_OLDEST) == InWindow(h[k..])
    ensures k < |h| ==> forall f: U64 :: (k > 0 ==> h[k - 1].seqno <= f) && f < h[k].seqno ==> h[k..] == After(h, f)
  {
    var low := LeastResume(c);
    k := CutPoint(h, low);
    NothingLostAboveLeast(c, h);
    OldestCut(c, h, k);
    forall f: U64 | k < |h| && (k > 0 ==> h[k - 1].seqno <= f) && f < h[k].seqno
      ensures h[k..] == After(h, f)
    {
      AfterIsCut(h, f, k);
    }
  }

  lemma NothingLostAboveLeast(c: Cache, h: seq<CachedEvent>)
    requires Summarises(c, h)
    requires c.buffer != []
    ensures After(h, LeastResume(c)) == After(c.buffer, LeastResume(c))
  {
    BufferAfter(c, h, LeastResume(c));
    var n := Evicted(h, c.capacity);
    if n > 0 {
      assert h[n - 1].seqno <= h[n].seqno;
    }
  }

  lemma OldestCut(c: Cache, h: seq<CachedEvent>, k: nat)
    requires Summarises(c, h)
    requires c.buffer != []
    requires k <= |h|
    requires k > 0 ==> h[k - 1].seqno <= LeastResume(c)
    requires k < |h| ==> LeastResume(c) < h[k].seqno
    ensures Evicted(h, c.capacity) <= k
    ensures WholeBatches(h, k)
    ensures forall k' :: Evicted(h, c.capacity) <= k' < k ==> !WholeBatches(h, k')
  {
    var n := Evicted(h, c.capacity);
    assert h[n] == c.buffer[0];
    if n < k {
      assert h[n].seqno <= h[k - 1].seqno;
    }
    forall i, j | 0 <= i < k <= j < |h|
      ensures h[i].seqno != h[j].seqno
    {
      assert h[i].seqno <= h[k - 1].seqno && h[k].seqno <= h[j].seqno;
    }
    forall k' | n <= k' < k
      ensures !WholeBatches(h, k')
    {
      assert h[n - 1].seqno <= h[n].seqno <= h[k'].seqno <= h[k - 1].seqno;
    }
  }

  // ---------------------------------------------------------------------------------------------
  // The cache object

  class EventCache {
    var buffer: seq<CachedEvent>
    const capacity: nat
    var lastPushedSeq: U64
    var lastEvictedSeq: Option<U64>
    ghost var history: seq<CachedEvent>

    function View(): Cache
      reads this
    {
      Cache(buffer, capacity, lastPushedSeq, lastEvictedSeq)
    }

    ghost predicate Valid()
      reads this
    {
      Summarises(View(), history)
    }

    constructor (capacity: nat)
      requires 1 <= capacity <= HARD_MAX_KEEP_HISTORY
      ensures Valid()
      ensures View() == NewCache(capacity) && this.capacity == capacity && buffer == []
      ensures history == []
    {
      this.buffer, this.capacity := [], capacity;
      this.lastPushedSeq, this.lastEvictedSeq, this.history := 0, None, [];
    }

    static method Create(capacity: nat) returns (r: Result<EventCache, NewCacheError>)
      ensures r.Failure? <==> capacity == 0
      ensures r.Success? ==>
        fresh(r.value) && r.value.Valid() && r.value.history == [] && r.value.View() == NewCache(capacity)
      ensures r.Success? ==> r.value.capacity == if capacity <= 1_000_000 then capacity else 1_000_000
    {
      if capacity == 0 {
        return Failure(ZeroCapacity);
      }
      var cache := new EventCache(if capacity < HARD_MAX_KEEP_HISTORY then capacity else HARD_MAX_KEEP_HISTORY);
      return Success(cache);
    }

    /** Accepts exactly the events that keep the history ordered; a refusal changes nothing. */
    method PushEvent(event: CachedEvent) returns (r: Result<(), PushError>)
      requires Valid()
      modifies this
      ensures Valid()
      ensures r.Success? <==> Ordered(old(history) + [event])
      ensures r.Success? ==> history == old(history) + [event]
      ensures r.Failure? ==> history == old(history) && View() == old(View())
      ensures r.Failure? ==> r.error == OutOfOrder(event.seqno, old(lastPushedSeq))
    {
      PushExtendsHistory(View(), history, event);
      if event.seqno == 0 || event.seqno < lastPushedSeq {
        return Failure(OutOfOrder(event.seqno, lastPushedSeq));
      }
      if |buffer| == capacity {
        var evicted := buffer[0];
        buffer := buffer[1..];
        lastEvictedSeq := Some(evicted.seqno);
      }
      lastPushedSeq := event.seqno;
      buffer := buffer + [event];
      history := history + [event];
      return Success(());
    }

    /** Read-only query; the scan over the buffer is the source's filter. */
    method QueryRange(from: U64) returns (r: RangeOutcome)
      requires Valid()
      ensures r == Range(View(), from)
      ensures from != FROM_OLDEST && r.InWindow? ==> r.events == After(history, from)
      ensures from != FROM_OLDEST && r.AtLiveTail? ==> from == 0 || After(history, from) == []
      ensures from == FROM_OLDEST && history == [] ==> r == AtLiveTail
      ensures from == FROM_OLDEST && history != [] ==>
        exists k: nat :: LongestWhole(View(), history, k) && r == InWindow(history[k..])
    {
      if from != FROM_OLDEST {
        ResumeIsExact(View(), history, from);
      } else if history != [] {
        assert buffer != [];
        var k := FromOldestIsLongestWhole(View(), history);
      }
      r := Range(View(), from);
    }
  }
}
