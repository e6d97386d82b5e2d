/** Every step of the benchmark driver keeps its books: what is claimed, sent, answered and counted. */
module BenchProofs {

  import opened Machine
  import opened BenchRunner
  import opened BenchInvariants
  import opened BenchTiming

  // ---------------------------------------------------------------------------------------------
  // Ledgers

  lemma SpansUpdate(kind: Kind, ws: seq<Worker>, w: nat, x: Worker)
    requires w < |ws|
    ensures Spans(kind, ws[w := x]) == Spans(kind, ws)[w := Span(kind, x)]
  {
  }

  /** Spans of different workers do not overlap. */
  ghost predicate SpansApart(sp: seq<(int, int)>) {
    forall w, x :: 0 <= w < |sp| && 0 <= x < |sp| && w != x ==>
      sp[w].0 >= sp[w].1 || sp[x].0 >= sp[x].1 || sp[w].1 <= sp[x].0 || sp[x].1 <= sp[w].0
  }

  lemma RangesKeepApart(claimed: nat, ws: seq<Worker>, kind: Kind)
    requires RangesInv(claimed, ws)
    ensures SpansApart(Spans(kind, ws))
    ensures forall w :: 0 <= w < |ws| ==> Spans(kind, ws)[w].1 <= claimed
  {
    forall w, x | 0 <= w < |ws| && 0 <= x < |ws| && w != x
      ensures var a, b := Span(kind, ws[w]), Span(kind, ws[x]);
              a.0 >= a.1 || b.0 >= b.1 || a.1 <= b.0 || b.1 <= a.0
    {
      assert RangeInv(claimed, ws[w]) && RangeInv(claimed, ws[x]);
      assert if w < x then Apart(ws[w], ws[x]) else Apart(ws[x], ws[w]);
    }
    forall w | 0 <= w < |ws|
      ensures Spans(kind, ws)[w].1 <= claimed
    {
      assert RangeInv(claimed, ws[w]);
    }
  }

  /** One index moves from ahead to behind. */
  lemma CoversAdvance(sp: seq<(int, int)>, w: nat, i: int)
    requires SpansApart(sp)
    requires w < |sp| && sp[w].0 < sp[w].1
    ensures Covers(sp[w := (sp[w].0 + 1, sp[w].1)], i) <==> Covers(sp, i) && i != sp[w].0
  {
    var sp' := sp[w := (sp[w].0 + 1, sp[w].1)];
    if Covers(sp', i) {
      var x :| 0 <= x < |sp'| && sp'[x].0 <= i < sp'[x].1;
      assert sp[x].0 <= i < sp[x].1;
    }
    if Covers(sp, i) && i != sp[w].0 {
      var x :| 0 <= x < |sp| && sp[x].0 <= i < sp[x].1;
      assert sp'[x].0 <= i < sp'[x].1;
    }
  }

  lemma LedgerAdvance(claimed: nat, low: nat, sp: seq<(int, int)>, w: nat, done: multiset<nat>, i: nat)
    requires Ledger(claimed, low, sp, done) && SpansApart(sp)
    requires w < |sp| && sp[w].0 == i < sp[w].1 <= claimed
    ensures Ledger(claimed, low, sp[w := (i + 1, sp[w].1)], if i >= low then done + multiset{i} else done)
  {
    var done' := if i >= low then done + multiset{i} else done;
    assert Covers(sp, i);
    forall j: nat
      ensures done'[j] == if low <= j < claimed && !Covers(sp[w := (i + 1, sp[w].1)], j) then 1 else 0
    {
      CoversAdvance(sp, w, j);
    }
  }

  lemma LedgerClaim(claimed: nat, claimed': nat, low: nat, sp: seq<(int, int)>, w: nat, done: multiset<nat>)
    requires Ledger(claimed, low, sp, done)
    requires w < |sp| && sp[w].0 >= sp[w].1
    requires claimed <= claimed'
    ensures Ledger(claimed', low, sp[w := (claimed, claimed')], done)
  {
    var sp' := sp[w := (claimed, claimed')];
    forall j: nat
      ensures done[j] == if low <= j < claimed' && !Covers(sp', j) then 1 else 0
    {
      if Covers(sp, j) {
        var x :| 0 <= x < |sp| && sp[x].0 <= j < sp[x].1;
        assert sp'[x] == sp[x];
      }
      if claimed <= j < claimed' {
        assert sp'[w].0 <= j < sp'[w].1;
      } else if Covers(sp', j) {
        var x :| 0 <= x < |sp'| && sp'[x].0 <= j < sp'[x].1;
        assert sp[x] == sp'[x];
      }
    }
  }

  lemma AtMostAdvance(claimed: nat, low: nat, sp: seq<(int, int)>, w: nat, done: multiset<nat>, i: nat)
    requires LedgerAtMost(claimed, low, sp, done) && SpansApart(sp)
    requires w < |sp| && low <= i == sp[w].0 < sp[w].1 <= claimed
    ensures LedgerAtMost(claimed, low, sp[w := (i + 1, sp[w].1)], done + multiset{i})
  {
    var done' := done + multiset{i};
    assert Covers(sp, i);
    forall j: nat
      ensures done'[j] <= if low <= j < claimed && !Covers(sp[w := (i + 1, sp[w].1)], j) then 1 else 0
    {
      CoversAdvance(sp, w, j);
    }
  }

  /** Less is ahead than before. */
  lemma AtMostShrink(claimed: nat, low: nat, sp: seq<(int, int)>, w: nat, done: multiset<nat>, lo: int)
    requires LedgerAtMost(claimed, low, sp, done)
    requires w < |sp| && sp[w].0 <= lo
    ensures LedgerAtMost(claimed, low, sp[w := (lo, sp[w].1)], done)
  {
    var sp' := sp[w := (lo, sp[w].1)];
    forall j: nat
      ensures done[j] <= if low <= j < claimed && !Covers(sp', j) then 1 else 0
    {
      if Covers(sp', j) {
        var x :| 0 <= x < |sp'| && sp'[x].0 <= j < sp'[x].1;
        assert sp[x].0 <= j < sp[x].1;
      }
    }
  }

  lemma AtMostClaim(claimed: nat, claimed': nat, low: nat, sp: seq<(int, int)>, w: nat, done: multiset<nat>)
    requires LedgerAtMost(claimed, low, sp, done)
    requires w < |sp| && sp[w].0 >= sp[w].1 && claimed <= claimed'
    ensures LedgerAtMost(claimed', low, sp[w := (claimed, claimed')], done)
  {
    var sp' := sp[w := (claimed, claimed')];
    forall j: nat
      ensures done[j] <= if low <= j < claimed' && !Covers(sp', j) then 1 else 0
    {
      if Covers(sp', j) && !(claimed <= j < claimed') {
        var x :| 0 <= x < |sp'| && sp'[x].0 <= j < sp'[x].1;
        assert sp[x] == sp'[x];
      }
    }
  }

  // ---------------------------------------------------------------------------------------------
  // Sums over workers

  lemma {:induction false} SpentUpdate(ws: seq<Worker>, w: nat, x: Worker)
    requires w < |ws|
    ensures Spent(ws[w := x]) == Spent(ws) + (if x.stage == Done(Exhausted) then 1 else 0)
            - (if ws[w].stage == Done(Exhausted) then 1 else 0)
  {
    var ws' := ws[w := x];
    var front := ws[..|ws| - 1];
    if w == |ws| - 1 {
      assert ws'[..|ws'| - 1] == front;
    } else {
      assert ws'[..|ws'| - 1] == front[w := x];
      SpentUpdate(front, w, x);
    }
  }

  lemma {:induction false} SpentBound(ws: seq<Worker>)
    ensures Spent(ws) <= |ws|
  {
    if ws != [] {
      SpentBound(ws[..|ws| - 1]);
    }
  }

  function Weight(x: Worker): int {
    |x.hist| - if x.stage.Counting? then 1 else 0
  }

  lemma {:induction false} TalliedUpdate(ws: seq<Worker>, w: nat, x: Worker)
    requires w < |ws|
    ensures Tallied(ws[w := x]) == Tallied(ws) + Weight(x) - Weight(ws[w])
  {
    var ws' := ws[w := x];
    var front := ws[..|ws| - 1];
    if w == |ws| - 1 {
      assert ws'[..|ws'| - 1] == front;
    } else {
      assert ws'[..|ws'| - 1] == front[w := x];
      TalliedUpdate(front, w, x);
    }
  }

  // ---------------------------------------------------------------------------------------------
  // Replacing one worker

  lemma RangesPut(claimed: nat, ws: seq<Worker>, w: nat, x: Worker)
    requires RangesInv(claimed, ws)
    requires w < |ws| && RangeInv(claimed, x)
    requires x.start == ws[w].start && x.end == ws[w].end
    ensures RangesInv(claimed, ws[w := x])
  {
    var ws' := ws[w := x];
    forall a, b | 0 <= a < b < |ws|
      ensures Apart(ws'[a], ws'[b])
    {
      assert Apart(ws[a], ws[b]);
    }
  }

  /** A step that leaves all three kinds of progress alone. */
  lemma BooksSame(claimed: nat, ws: seq<Worker>, w: nat, x: Worker, submitted: multiset<nat>, completed: multiset<nat>)
    requires BooksInv(claimed, ws, submitted, completed)
    requires w < |ws| && RangeInv(claimed, x)
    requires x.start == ws[w].start && x.end == ws[w].end && x.wpos == ws[w].wpos && x.rpos == ws[w].rpos
    ensures BooksInv(claimed, ws[w := x], submitted, completed)
  {
    RangesPut(claimed, ws, w, x);
    SpansUpdate(Write, ws, w, x);
    SpansUpdate(Read, ws, w, x);
    SpanSame(Write, ws, w, x);
    SpanSame(Read, ws, w, x);
  }

  lemma SpanSame(kind: Kind, ws: seq<Worker>, w: nat, x: Worker)
    requires w < |ws| && Span(kind, x) == Span(kind, ws[w])
    ensures Spans(kind, ws)[w := Span(kind, x)] == Spans(kind, ws)
  {
  }

  lemma CountsSame(claimed: nat, warmup: nat, ws: seq<Worker>, w: nat, x: Worker, counted: multiset<nat>, measured: int)
    requires CountsInv(claimed, warmup, ws, counted, measured)
    requires w < |ws| && Span(Count, x) == Span(Count, ws[w]) && Weight(x) == Weight(ws[w])
    ensures CountsInv(claimed, warmup, ws[w := x], counted, measured)
  {
    SpansUpdate(Count, ws, w, x);
    SpanSame(Count, ws, w, x);
    TalliedUpdate(ws, w, x);
  }

  lemma CursorSame(c: Config, cursor: nat, n: nat, ws: seq<Worker>, w: nat, x: Worker)
    requires CursorInv(c, cursor, n, ws)
    requires w < |ws| && ws[w].stage != Done(Exhausted) && x.stage != Done(Exhausted)
    ensures CursorInv(c, cursor, n, ws[w := x])
  {
    SpentUpdate(ws, w, x);
  }

  lemma BooksWrite(claimed: nat, ws: seq<Worker>, w: nat, x: Worker, submitted: multiset<nat>, completed: multiset<nat>)
    requires BooksInv(claimed, ws, submitted, completed)
    requires w < |ws| && RangeInv(claimed, x)
    requires var y := ws[w];
             x.start == y.start && x.end == y.end && x.rpos == y.rpos && y.wpos < y.end && x.wpos == y.wpos + 1
    ensures BooksInv(claimed, ws[w := x], submitted + multiset{ws[w].wpos}, completed)
  {
    RangesPut(claimed, ws, w, x);
    RangesKeepApart(claimed, ws, Write);
    LedgerAdvance(claimed, 0, Spans(Write, ws), w, submitted, ws[w].wpos);
    SpansUpdate(Write, ws, w, x);
    SpansUpdate(Read, ws, w, x);
    SpanSame(Read, ws, w, x);
  }

  lemma BooksRead(claimed: nat, ws: seq<Worker>, w: nat, x: Worker, submitted: multiset<nat>, completed: multiset<nat>)
    requires BooksInv(claimed, ws, submitted, completed)
    requires w < |ws| && RangeInv(claimed, x)
    requires var y := ws[w];
             x.start == y.start && x.end == y.end && x.wpos == y.wpos && y.rpos < y.end && x.rpos == y.rpos + 1
    ensures BooksInv(claimed, ws[w := x], submitted, completed + multiset{ws[w].rpos})
  {
    RangesPut(claimed, ws, w, x);
    RangesKeepApart(claimed, ws, Read);
    LedgerAdvance(claimed, 0, Spans(Read, ws), w, completed, ws[w].rpos);
    SpansUpdate(Read, ws, w, x);
    SpansUpdate(Write, ws, w, x);
    SpanSame(Write, ws, w, x);
  }

  /** A verdict is settled: a measured one is counted, a warm-up one is not. */
  lemma CountsAdvance(claimed: nat, warmup: nat, ws: seq<Worker>, w: nat, x: Worker, counted: multiset<nat>,
                      measured: int)
    requires RangesInv(claimed, ws)
    requires CountsInv(claimed, warmup, ws, counted, measured)
    requires w < |ws|
    requires var y := ws[w];
      && (y.stage.Completing? || y.stage.Counting?) && !x.stage.Completing? && !x.stage.Counting?
      && x.rpos == y.rpos && x.end == y.end && x.hist == y.hist
      && (y.stage.Counting? <==> y.rpos > warmup)
    ensures var i := ws[w].rpos - 1;
            if ws[w].stage.Counting? then CountsInv(claimed, warmup, ws[w := x], counted + multiset{i}, measured + 1)
            else CountsInv(claimed, warmup, ws[w := x], counted, measured)
  {
    assert RangeInv(claimed, ws[w]);
    var i := ws[w].rpos - 1;
    RangesKeepApart(claimed, ws, Count);
    assert Spans(Count, ws)[w] == (i, ws[w].end);
    LedgerAdvance(claimed, warmup, Spans(Count, ws), w, counted, i);
    SpansUpdate(Count, ws, w, x);
    TalliedUpdate(ws, w, x);
  }

  /** Worker `w` gets no further back with counting. */
  lemma CountedShrinks(claimed: nat, warmup: nat, ws: seq<Worker>, w: nat, x: Worker, counted: multiset<nat>)
    requires LedgerAtMost(claimed, warmup, Spans(Count, ws), counted)
    requires w < |ws| && x.end == ws[w].end && Uncounted(ws[w]) <= Uncounted(x)
    ensures LedgerAtMost(claimed, warmup, Spans(Count, ws[w := x]), counted)
  {
    AtMostShrink(claimed, warmup, Spans(Count, ws), w, counted, Uncounted(x));
    SpansUpdate(Count, ws, w, x);
  }

  lemma CountedAdvances(claimed: nat, warmup: nat, ws: seq<Worker>, w: nat, x: Worker, counted: multiset<nat>)
    requires RangesInv(claimed, ws)
    requires LedgerAtMost(claimed, warmup, Spans(Count, ws), counted)
    requires w < |ws| && ws[w].stage.Counting? && ws[w].rpos > warmup
    requires x == NextVerdict(ws[w])
    ensures LedgerAtMost(claimed, warmup, Spans(Count, ws[w := x]), counted + multiset{ws[w].rpos - 1})
  {
    assert RangeInv(claimed, ws[w]);
    RangesKeepApart(claimed, ws, Count);
    assert Spans(Count, ws)[w] == (ws[w].rpos - 1, ws[w].end);
    AtMostAdvance(claimed, warmup, Spans(Count, ws), w, counted, ws[w].rpos - 1);
    SpansUpdate(Count, ws, w, x);
  }

  // ---------------------------------------------------------------------------------------------
  // Steps that only move a worker on

  lemma At(v: Bench, w: nat)
    requires BenchInv(v) && w < |v.workers|
    ensures RangeInv(Claimed(v.config, |v.books.claims|), v.workers[w])
    ensures WorkerInv(v.flags, v.clock, v.config.warmup, w, v.workers[w])
  {
    WorkerAt(v, w);
  }

  /** A step that changes one worker and the books, but no flag and no claim. */
  lemma BusyKeeps(v: Bench, v': Bench, w: nat, x: Worker)
    requires BenchInv(v) && TimingInv(v')
    requires w < |v.workers| && v' == v.(workers := v.workers[w := x], books := v'.books, measured := v'.measured)
    requires v'.books.claims == v.books.claims
    requires v.workers[w].stage != Done(Exhausted) && x.stage != Done(Exhausted)
    requires var claimed := Claimed(v.config, |v.books.claims|);
      && BooksInv(claimed, v'.workers, v'.books.submitted, v'.books.completed)
      && LedgerAtMost(claimed, v.config.warmup, Spans(Count, v'.workers), v'.books.counted)
      && (!v.flags.panicked ==> CountsInv(claimed, v.config.warmup, v'.workers, v'.books.counted, v'.measured))
    ensures BenchInv(v')
  {
    CursorSame(v.config, v.cursor, |v.books.claims|, v.workers, w, x);
  }

  /** A step that claims, writes, reads and counts nothing. */
  lemma QuietKeeps(v: Bench, v': Bench, w: nat, x: Worker)
    requires BenchInv(v) && TimingInv(v')
    requires w < |v.workers| && v' == v.(workers := v.workers[w := x], flags := v'.flags)
    requires v.flags.panicked ==> v'.flags.panicked
    requires var y := v.workers[w];
      && x.start == y.start && x.end == y.end && x.wpos == y.wpos && x.rpos == y.rpos
      && y.stage != Done(Exhausted) && x.stage != Done(Exhausted)
      && Uncounted(y) <= Uncounted(x)
      && (!v'.flags.panicked ==> Span(Count, x) == Span(Count, y) && Weight(x) == Weight(y))
    ensures BenchInv(v')
  {
    var claimed := Claimed(v.config, |v.books.claims|);
    At(v, w);
    WorkerAt(v', w);
    BooksSame(claimed, v.workers, w, x, v.books.submitted, v.books.completed);
    CountedShrinks(claimed, v.config.warmup, v.workers, w, x, v.books.counted);
    CursorSame(v.config, v.cursor, |v.books.claims|, v.workers, w, x);
    if !v'.flags.panicked {
      CountsSame(claimed, v.config.warmup, v.workers, w, x, v.books.counted, v.measured);
    }
  }

  lemma MoveKeeps(v: Bench, w: nat)
    requires BenchInv(v)
    requires w < |v.workers| && Moves(v.workers[w].stage) && Enabled(v, Work(w))
    ensures BenchInv(WorkStep(v, w))
  {
    var y := v.workers[w];
    var (s, f') := Move(v.flags, v.clock, v.config.warmup, w, y);
    At(v, w);
    MoveLocal(v.flags, v.clock, v.config.warmup, w, y);
    MoveFlags(v.flags, v.clock, v.config.warmup, w, y);
    MoveTimed(v, w);
    QuietKeeps(v, WorkStep(v, w), w, y.(stage := s));
  }

  lemma FailKeeps(v: Bench, w: nat)
    requires BenchInv(v) && Enabled(v, Fail(w))
    ensures BenchInv(Next(v, Fail(w)))
  {
    FailTimed(v, w);
    QuietKeeps(v, Next(v, Fail(w)), w, v.workers[w].(stage := Failing));
  }

  lemma PanicKeeps(v: Bench, w: nat)
    requires BenchInv(v) && Enabled(v, Panic(w))
    ensures BenchInv(Next(v, Panic(w)))
  {
    PanicTimed(v, w);
    QuietKeeps(v, Next(v, Panic(w)), w, v.workers[w].(stage := Done(Panicked)));
  }

  /** The clock runs on, or a worker could not be spawned. */
  lemma OutsideKeeps(v: Bench, step: Step)
    requires BenchInv(v) && (step.Tick? || step.SpawnFail?)
    ensures BenchInv(Next(v, step))
  {
    NextTimed(v, step);
  }

  // ---------------------------------------------------------------------------------------------
  // Claiming

  lemma RoundsCover(c: Config)
    requires c.total > 0
    ensures Rounds(c) >= 1 && Depth(c) * (Rounds(c) - 1) < c.total <= Depth(c) * Rounds(c)
  {
    var d, t := Depth(c), c.total + Depth(c) - 1;
    assert t == d * (t / d) + t % d && 0 <= t % d < d;
    assert Rounds(c) == 0 ==> d * Rounds(c) == 0;
    assert d * (Rounds(c) - 1) == d * Rounds(c) - d;
  }

  lemma Scaled(d: nat, m: nat, n: nat)
    requires m <= n
    ensures d * m <= d * n
  {
  }

  /** Claims before the last round start inside the fixture; from there on nothing is left. */
  lemma ClaimedInside(c: Config, n: nat)
    requires c.total > 0
    ensures n < Rounds(c) ==> Claimed(c, n) == Depth(c) * n < c.total
    ensures n >= Rounds(c) ==> Claimed(c, n) == c.total
  {
    RoundsCover(c);
    if n < Rounds(c) {
      Scaled(Depth(c), n, Rounds(c) - 1);
    } else {
      Scaled(Depth(c), Rounds(c), n);
    }
  }

  lemma CursorNext(c: Config, m: nat)
    ensures (CursorAt(c, m) + Depth(c)) % U64_MODULUS == CursorAt(c, m + 1)
  {
    var d := Depth(c);
    assert d * (m + 1) == d * m + d;
    ModAdd(d * m, d, U64_MODULUS);
  }

  lemma ModAdd(a: nat, b: nat, n: nat)
    requires n > 0
    ensures (a % n + b) % n == (a + b) % n
  {
    var r := a % n + b;
    assert a == n * (a / n) + a % n;
    assert r == n * (r / n) + r % n;
    assert n * (a / n) + n * (r / n) == n * (a / n + r / n);
    ModUnique(a + b, n, a / n + r / n, r % n);
  }

  lemma ModUnique(a: nat, n: nat, q: nat, r: nat)
    requires n > 0 && r < n && a == n * q + r
    ensures a % n == r
  {
    var p := a / n;
    assert a == n * p + a % n;
    assert n * (p + 1) == n * p + n && n * (q + 1) == n * q + n;
    if p < q {
      Scaled(n, p + 1, q);
    } else if q < p {
      Scaled(n, q + 1, p);
    }
  }

  lemma WrapOnce(a: nat)
    ensures U64_MODULUS <= a < 2 * U64_MODULUS ==> a % U64_MODULUS == a - U64_MODULUS
  {
  }

  /** While anything is left, a claim neither wraps nor comes back empty. */
  lemma LastRound(c: Config)
    requires Validate(c).Success? && Clear(c)
    ensures Depth(c) * Rounds(c) < U64_MODULUS
  {
    RoundsCover(c);
    var all := Depth(c) * Rounds(c);
    WrapOnce(all);
    assert all == Depth(c) * (Rounds(c) - 1) + Depth(c);
    assert CursorAt(c, Rounds(c)) >= c.total;
  }

  lemma ClaimCursor(c: Config, cursor: nat, n: nat, ws: seq<Worker>, w: nat)
    requires Validate(c).Success? && Clear(c) && |ws| == c.workers
    requires CursorInv(c, cursor, n, ws)
    requires w < |ws| && ws[w].stage != Done(Exhausted)
    ensures cursor < c.total <==> n < Rounds(c)
    ensures n < Rounds(c) ==> cursor == Claimed(c, n) && (cursor + Depth(c)) % U64_MODULUS == Depth(c) * (n + 1)
  {
    var d := Depth(c);
    SpentUpdate(ws, w, ws[w].(stage := Done(Exhausted)));
    SpentBound(ws[w := ws[w].(stage := Done(Exhausted))]);
    if n < Rounds(c) {
      ClaimedInside(c, n);
      LastRound(c);
      Scaled(d, n + 1, Rounds(c));
      assert d * (n + 1) == d * n + d;
    } else {
      assert CursorAt(c, n + Spent(ws)) >= c.total;
    }
  }

  lemma ExhaustCursor(c: Config, cursor: nat, n: nat, ws: seq<Worker>, w: nat, x: Worker)
    requires Validate(c).Success? && Clear(c) && |ws| == c.workers
    requires CursorInv(c, cursor, n, ws)
    requires w < |ws| && ws[w].stage.Claim? && cursor >= c.total
    requires x.stage == Done(Exhausted)
    ensures CursorInv(c, (cursor + Depth(c)) % U64_MODULUS, n, ws[w := x])
  {
    ClaimCursor(c, cursor, n, ws, w);
    SpentUpdate(ws, w, x);
    CursorNext(c, n + Spent(ws));
  }

  lemma ExhaustedKeeps(v: Bench, v': Bench, w: nat, x: Worker)
    requires BenchInv(v) && TimingInv(v')
    requires w < |v.workers| && v.workers[w].stage.Claim? && x == v.workers[w].(stage := Done(Exhausted))
    requires v' == v.(cursor := v'.cursor, workers := v.workers[w := x])
    requires CursorInv(v.config, v'.cursor, |v.books.claims|, v'.workers)
    ensures BenchInv(v')
  {
    var claimed := Claimed(v.config, |v.books.claims|);
    At(v, w);
    BooksSame(claimed, v.workers, w, x, v.books.submitted, v.books.completed);
    CountedShrinks(claimed, v.config.warmup, v.workers, w, x, v.books.counted);
    if !v.flags.panicked {
      CountsSame(claimed, v.config.warmup, v.workers, w, x, v.books.counted, v.measured);
    }
  }

  lemma ExhaustKeeps(v: Bench, w: nat)
    requires BenchInv(v)
    requires w < |v.workers| && v.workers[w].stage.Claim? && v.cursor >= v.config.total
    ensures BenchInv(WorkStep(v, w))
  {
    var x := v.workers[w].(stage := Done(Exhausted));
    ClaimTimed(v, w);
    ExhaustCursor(v.config, v.cursor, |v.books.claims|, v.workers, w, x);
    ExhaustedKeeps(v, WorkStep(v, w), w, x);
  }

  /** A worker about to work on a new claim. */
  function Claimant(x: Worker, start: nat, end: nat): Worker {
    x.(start := start, end := end, wpos := start, rpos := start, times := [], stage := Gate)
  }

  /** What a claim does when the cursor, moved on to `next`, lies beyond its start. */
  lemma ClaimIs(v: Bench, w: nat, next: nat, end: nat)
    requires w < |v.workers| && v.workers[w].stage.Claim?
    requires next == (v.cursor + Depth(v.config)) % U64_MODULUS && end == Min(next, v.config.total)
    requires v.cursor < end
    ensures WorkStep(v, w) == v.(cursor := next,
                                 workers := v.workers[w := Claimant(v.workers[w], v.cursor, end)],
                                 books := v.books.(claims := v.books.claims + [(v.cursor, end)]))
  {
  }

  /** The claim after `n` others moves the cursor to `next` and ends at `end`. */
  lemma ClaimBounds(c: Config, cursor: nat, n: nat, ws: seq<Worker>, w: nat) returns (next: nat, end: nat)
    requires Validate(c).Success? && Clear(c) && |ws| == c.workers
    requires CursorInv(c, cursor, n, ws)
    requires w < |ws| && ws[w].stage.Claim? && cursor < c.total
    ensures n < Rounds(c) && cursor == Claimed(c, n) < end == Claimed(c, n + 1) == Min(next, c.total)
    ensures next == (cursor + Depth(c)) % U64_MODULUS == CursorAt(c, n + 1 + Spent(ws))
  {
    ClaimCursor(c, cursor, n, ws, w);
    CursorNext(c, n + Spent(ws));
    next, end := (cursor + Depth(c)) % U64_MODULUS, Claimed(c, n + 1);
    assert Depth(c) * (n + 1) == Depth(c) * n + Depth(c);
  }

  lemma ClaimShape(v: Bench, w: nat)
    requires BenchInv(v)
    requires w < |v.workers| && v.workers[w].stage.Claim? && v.cursor < v.config.total
    ensures var n := |v.books.claims|;
      var claim := (Claimed(v.config, n), Claimed(v.config, n + 1));
      && n < Rounds(v.config) && claim.0 < claim.1
      && WorkStep(v, w) == v.(cursor := CursorAt(v.config, n + 1 + Spent(v.workers)),
                              workers := v.workers[w := Claimant(v.workers[w], claim.0, claim.1)],
                              books := v.books.(claims := v.books.claims + [claim]))
  {
    var next, end := ClaimBounds(v.config, v.cursor, |v.books.claims|, v.workers, w);
    ClaimIs(v, w, next, end);
  }

  lemma ClaimKeeps(v: Bench, w: nat)
    requires BenchInv(v)
    requires w < |v.workers| && v.workers[w].stage.Claim? && v.cursor < v.config.total
    ensures BenchInv(WorkStep(v, w))
  {
    ClaimShape(v, w);
    var n := |v.books.claims|;
    var start, end := Claimed(v.config, n), Claimed(v.config, n + 1);
    var y := v.workers[w];
    var x := Claimant(y, start, end);
    At(v, w);
    ClaimTimed(v, w);
    ClaimBooks(start, end, v.workers, w, x, v.books.submitted, v.books.completed);
    ClaimCounted(start, end, v.config.warmup, v.workers, w, x, v.books.counted);
    if !v.flags.panicked {
      ClaimCounts(start, end, v.config.warmup, v.workers, w, x, v.books.counted, v.measured);
    }
    SpentUpdate(v.workers, w, x);
  }

  /** The new range starts where all claims so far end. */
  lemma ClaimBooks(claimed: nat, claimed': nat, ws: seq<Worker>, w: nat, x: Worker, submitted: multiset<nat>,
                   completed: multiset<nat>)
    requires BooksInv(claimed, ws, submitted, completed)
    requires w < |ws| && ws[w].stage.Claim? && claimed < claimed'
    requires x.start == x.wpos == x.rpos == claimed && x.end == claimed' && x.times == [] && x.stage.Gate?
    ensures BooksInv(claimed', ws[w := x], submitted, completed)
  {
    assert RangeInv(claimed, ws[w]);
    forall a | 0 <= a < |ws| && a != w
      ensures RangeInv(claimed', ws[a]) && ws[a].end <= claimed
    {
      assert RangeInv(claimed, ws[a]);
    }
    var ws' := ws[w := x];
    forall a, b | 0 <= a < b < |ws|
      ensures Apart(ws'[a], ws'[b])
    {
      assert Apart(ws[a], ws[b]);
    }
    LedgerClaim(claimed, claimed', 0, Spans(Write, ws), w, submitted);
    LedgerClaim(claimed, claimed', 0, Spans(Read, ws), w, completed);
    SpansUpdate(Write, ws, w, x);
    SpansUpdate(Read, ws, w, x);
  }

  lemma ClaimCounted(claimed: nat, claimed': nat, warmup: nat, ws: seq<Worker>, w: nat, x: Worker,
                     counted: multiset<nat>)
    requires LedgerAtMost(claimed, warmup, Spans(Count, ws), counted)
    requires w < |ws| && ws[w].stage.Claim? && ws[w].rpos == ws[w].end && claimed < claimed'
    requires x.rpos == claimed && x.end == claimed' && x.stage.Gate?
    ensures LedgerAtMost(claimed', warmup, Spans(Count, ws[w := x]), counted)
  {
    AtMostClaim(claimed, claimed', warmup, Spans(Count, ws), w, counted);
    SpansUpdate(Count, ws, w, x);
  }

  lemma ClaimCounts(claimed: nat, claimed': nat, warmup: nat, ws: seq<Worker>, w: nat, x: Worker,
                    counted: multiset<nat>, measured: int)
    requires CountsInv(claimed, warmup, ws, counted, measured)
    requires w < |ws| && ws[w].stage.Claim? && ws[w].rpos == ws[w].end && claimed < claimed'
    requires x.rpos == claimed && x.end == claimed' && x.stage.Gate? && x.hist == ws[w].hist
    ensures CountsInv(claimed', warmup, ws[w := x], counted, measured)
  {
    LedgerClaim(claimed, claimed', warmup, Spans(Count, ws), w, counted);
    SpansUpdate(Count, ws, w, x);
    TalliedUpdate(ws, w, x);
  }

  // ---------------------------------------------------------------------------------------------
  // Writing and reading

  lemma WritingKeeps(v: Bench, w: nat)
    requires BenchInv(v)
    requires w < |v.workers| && v.workers[w].stage.Writing?
    ensures BenchInv(WorkStep(v, w))
  {
    var x := WorkStep(v, w).workers[w];
    var claimed := Claimed(v.config, |v.books.claims|);
    At(v, w);
    WriteTimed(v, w);
    WorkerAt(WorkStep(v, w), w);
    BooksWrite(claimed, v.workers, w, x, v.books.submitted, v.books.completed);
    CountedShrinks(claimed, v.config.warmup, v.workers, w, x, v.books.counted);
    if !v.flags.panicked {
      CountsSame(claimed, v.config.warmup, v.workers, w, x, v.books.counted, v.measured);
    }
    BusyKeeps(v, WorkStep(v, w), w, x);
  }

  lemma ReadingKeeps(v: Bench, w: nat)
    requires BenchInv(v)
    requires w < |v.workers| && v.workers[w].stage.Reading?
    ensures BenchInv(WorkStep(v, w))
  {
    var x := v.workers[w].(stage := Completing, rpos := v.workers[w].rpos + 1);
    var claimed := Claimed(v.config, |v.books.claims|);
    At(v, w);
    ReadTimed(v, w);
    WorkerAt(WorkStep(v, w), w);
    BooksRead(claimed, v.workers, w, x, v.books.submitted, v.books.completed);
    CountedShrinks(claimed, v.config.warmup, v.workers, w, x, v.books.counted);
    if !v.flags.panicked {
      CountsSame(claimed, v.config.warmup, v.workers, w, x, v.books.counted, v.measured);
    }
    BusyKeeps(v, WorkStep(v, w), w, x);
  }

  lemma RecordKeeps(v: Bench, w: nat)
    requires BenchInv(v)
    requires w < |v.workers| && v.workers[w].stage.Completing? && v.workers[w].rpos > v.config.warmup
    ensures BenchInv(WorkStep(v, w))
  {
    RecordTimed(v, w);
    QuietKeeps(v, WorkStep(v, w), w, WorkStep(v, w).workers[w]);
  }

  /** A warm-up verdict is dropped. */
  lemma DropKeeps(v: Bench, w: nat)
    requires BenchInv(v)
    requires w < |v.workers| && v.workers[w].stage.Completing? && v.workers[w].rpos <= v.config.warmup
    ensures BenchInv(WorkStep(v, w))
  {
    var x := NextVerdict(v.workers[w]);
    var claimed := Claimed(v.config, |v.books.claims|);
    At(v, w);
    VerdictTimed(v, w);
    WorkerAt(WorkStep(v, w), w);
    BooksSame(claimed, v.workers, w, x, v.books.submitted, v.books.completed);
    CountedShrinks(claimed, v.config.warmup, v.workers, w, x, v.books.counted);
    if !v.flags.panicked {
      CountsAdvance(claimed, v.config.warmup, v.workers, w, x, v.books.counted, v.measured);
    }
    BusyKeeps(v, WorkStep(v, w), w, x);
  }

  lemma CountShape(v: Bench, w: nat)
    requires w < |v.workers| && v.workers[w].stage.Counting? && v.workers[w].rpos > 0
    ensures WorkStep(v, w) == v.(workers := v.workers[w := NextVerdict(v.workers[w])], measured := v.measured + 1,
                                 books := v.books.(counted := v.books.counted + multiset{v.workers[w].rpos - 1}))
  {
  }

  lemma CountBooks(claimed: nat, warmup: nat, ws: seq<Worker>, w: nat, books: Books, measured: nat)
    requires BooksInv(claimed, ws, books.submitted, books.completed)
    requires LedgerAtMost(claimed, warmup, Spans(Count, ws), books.counted)
    requires w < |ws| && ws[w].stage.Counting? && ws[w].rpos > warmup && RangeInv(claimed, NextVerdict(ws[w]))
    ensures var ws', counted := ws[w := NextVerdict(ws[w])], books.counted + multiset{ws[w].rpos - 1};
      && BooksInv(claimed, ws', books.submitted, books.completed)
      && LedgerAtMost(claimed, warmup, Spans(Count, ws'), counted)
      && (CountsInv(claimed, warmup, ws, books.counted, measured) ==>
            CountsInv(claimed, warmup, ws', counted, measured + 1))
  {
    var x := NextVerdict(ws[w]);
    BooksSame(claimed, ws, w, x, books.submitted, books.completed);
    CountedAdvances(claimed, warmup, ws, w, x, books.counted);
    if CountsInv(claimed, warmup, ws, books.counted, measured) {
      CountsAdvance(claimed, warmup, ws, w, x, books.counted, measured);
    }
  }

  /** A measured verdict is counted. */
  lemma CountKeeps(v: Bench, w: nat)
    requires BenchInv(v)
    requires w < |v.workers| && v.workers[w].stage.Counting?
    ensures BenchInv(WorkStep(v, w))
  {
    var claimed := Claimed(v.config, |v.books.claims|);
    At(v, w);
    VerdictTimed(v, w);
    WorkerAt(WorkStep(v, w), w);
    CountBooks(claimed, v.config.warmup, v.workers, w, v.books, v.measured);
    CountShape(v, w);
    BusyKeeps(v, WorkStep(v, w), w, NextVerdict(v.workers[w]));
  }

  // ---------------------------------------------------------------------------------------------
  // Every run

  lemma WorkKeeps(v: Bench, w: nat)
    requires BenchInv(v) && Enabled(v, Work(w))
    ensures BenchInv(WorkStep(v, w))
  {
    var s := v.workers[w].stage;
    if Moves(s) {
      MoveKeeps(v, w);
    } else if s.Claim? {
      if v.cursor >= v.config.total { ExhaustKeeps(v, w); } else { ClaimKeeps(v, w); }
    } else if s.Writing? {
      WritingKeeps(v, w);
    } else if s.Reading? {
      ReadingKeeps(v, w);
    } else if s.Completing? && v.workers[w].rpos > v.config.warmup {
      RecordKeeps(v, w);
    } else if s.Completing? {
      DropKeeps(v, w);
    } else {
      CountKeeps(v, w);
    }
  }

  lemma NextKeeps(v: Bench, step: Step)
    requires BenchInv(v) && Enabled(v, step)
    ensures BenchInv(Next(v, step))
  {
    match step
    case Tick(elapsed) => OutsideKeeps(v, step);
    case Work(w) => WorkKeeps(v, w);
    case Fail(w) => FailKeeps(v, w);
    case Panic(w) => PanicKeeps(v, w);
    case SpawnFail => OutsideKeeps(v, step);
  }

  /** Nobody has begun. */
  ghost predicate AllFresh(ws: seq<Worker>) {
    forall w :: 0 <= w < |ws| ==> ws[w] == Fresh()
  }

  lemma {:induction false} StartCounts(ws: seq<Worker>)
    requires AllFresh(ws)
    ensures Spent(ws) == 0 && Tallied(ws) == 0
  {
    if ws != [] {
      FreshIsEmpty(ws[|ws| - 1]);
      StartCounts(ws[..|ws| - 1]);
    }
  }

  lemma StartLedger(ws: seq<Worker>, kind: Kind, low: nat)
    requires AllFresh(ws)
    ensures Ledger(0, low, Spans(kind, ws), multiset{}) && LedgerAtMost(0, low, Spans(kind, ws), multiset{})
  {
  }

  lemma StartRanges(ws: seq<Worker>)
    requires AllFresh(ws)
    ensures RangesInv(0, ws)
  {
    forall w | 0 <= w < |ws|
      ensures RangeInv(0, ws[w])
    {
      FreshIsEmpty(ws[w]);
    }
    forall w, x | 0 <= w < x < |ws|
      ensures Apart(ws[w], ws[x])
    {
      FreshIsEmpty(ws[w]);
    }
  }

  lemma StartBooks(config: Config, ws: seq<Worker>)
    requires AllFresh(ws)
    ensures BooksInv(0, ws, multiset{}, multiset{})
    ensures LedgerAtMost(0, config.warmup, Spans(Count, ws), multiset{})
    ensures CountsInv(0, config.warmup, ws, multiset{}, 0)
  {
    StartRanges(ws);
    StartLedger(ws, Write, 0);
    StartLedger(ws, Read, 0);
    StartLedger(ws, Count, config.warmup);
    StartCounts(ws);
  }

  lemma StartCursor(config: Config, ws: seq<Worker>)
    requires AllFresh(ws)
    ensures Claimed(config, 0) == 0 && CursorInv(config, 0, 0, ws)
  {
    StartCounts(ws);
  }

  lemma StartShape(config: Config, v: Bench)
    requires v == Start(config)
    ensures AllFresh(v.workers) && |v.workers| == config.workers && v.config == config
    ensures v.cursor == 0 && v.measured == 0 && v.books == Books([], multiset{}, multiset{}, multiset{})
  {
  }

  lemma StartKeeps(config: Config)
    requires Validate(config).Success? && Clear(config)
    ensures BenchInv(Start(config))
  {
    var v := Start(config);
    StartShape(config, v);
    StartTimed(config);
    StartBooks(config, v.workers);
    StartCursor(config, v.workers);
  }

  /** Every schedule keeps the invariant. */
  lemma {:induction false} RunKeeps(config: Config, steps: seq<Step>)
    requires Validate(config).Success? && Clear(config)
    requires Run(config, steps).Some?
    ensures BenchInv(Run(config, steps).value)
    ensures Run(config, steps).value.config == config
  {
    if steps == [] {
      StartKeeps(config);
    } else {
      var before := Run(config, steps[..|steps| - 1]).value;
      RunKeeps(config, steps[..|steps| - 1]);
      NextKeeps(before, steps[|steps| - 1]);
      NextConfig(before, steps[|steps| - 1]);
    }
  }
}
