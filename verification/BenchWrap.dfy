/** The cursor is a machine word: exactly when do its claims tile the fixture in every run? */
module BenchWrap {

  import opened Machine
  import opened BenchRunner
  import opened BenchInvariants
  import opened BenchTiming
  import opened BenchProofs

  /** Worker `a` is under way, nobody else holds the mutex, and nothing has gone wrong. */
  ghost predicate Alone(f: Flags, a: nat, x: Worker) {
    && !f.abort
    && LocalInv(x)
    && (Holding(x.stage) <==> f.holder == Some(a))
    && (f.holder.Some? ==> f.holder == Some(a))
    && !x.stage.Done? && !x.stage.Failing? && !x.stage.Aborting?
  }

  ghost predicate Solo(v: Bench, a: nat) {
    && Validate(v.config).Success? && |v.workers| == v.config.workers
    && a < |v.workers|
    && Alone(v.flags, a, v.workers[a])
  }

  lemma FreshAlone(f: Flags, a: nat, x: Worker)
    requires !f.abort && f.holder.None? && x == Fresh()
    ensures Alone(f, a, x) && x.stage.Connecting?
  {
    FreshIsEmpty(x);
  }

  /** The step leaves the claims, the cursor and the other workers alone. */
  ghost predicate Private(v: Bench, v': Bench, a: nat) {
    && a < |v.workers| == |v'.workers|
    && v'.config == v.config && v'.cursor == v.cursor && v'.books.claims == v.books.claims
    && v'.workers == v.workers[a := v'.workers[a]]
  }

  function Rank(s: Stage): nat {
    match s
    case Connecting => 1
    case Top => 0
    case Gate => 7
    case Locking => 6
    case Checking => 5
    case Setting => 4
    case Raising => 3
    case Releasing => 2
    case Writing => 1
    case Flushing => 4
    case Reading => 3
    case Completing => 5
    case Counting => 4
    case _ => 0
  }

  /** How far a worker is from its next claim. */
  function Distance(x: Worker): int {
    8 * (x.end - x.wpos) + 4 * (x.end - x.rpos) + Rank(x.stage)
  }

  lemma SoloMove(f: Flags, clock: nat, warmup: nat, a: nat, x: Worker)
    requires Moves(x.stage) && !x.stage.Top? && Alone(f, a, x)
    ensures var (s, f') := Move(f, clock, warmup, a, x);
      Alone(f', a, x.(stage := s)) && !s.Claim? && 0 <= Distance(x.(stage := s)) < Distance(x)
  {
  }

  lemma SoloWork(v: Bench, a: nat)
    requires Solo(v, a) && !v.workers[a].stage.Claim? && !Moves(v.workers[a].stage)
    ensures var v' := WorkStep(v, a);
            && Solo(v', a) && !v'.workers[a].stage.Claim? && Private(v, v', a)
            && 0 <= Distance(v'.workers[a]) < Distance(v.workers[a])
  {
  }

  lemma SoloStep(v: Bench, a: nat)
    requires Solo(v, a) && !v.workers[a].stage.Claim? && !v.workers[a].stage.Top?
    ensures Enabled(v, Work(a))
    ensures var v' := Next(v, Work(a));
            && Solo(v', a) && !v'.workers[a].stage.Claim? && Private(v, v', a)
            && 0 <= Distance(v'.workers[a]) < Distance(v.workers[a])
  {
    if Moves(v.workers[a].stage) {
      SoloMove(v.flags, v.clock, v.config.warmup, a, v.workers[a]);
    } else {
      SoloWork(v, a);
    }
  }

  lemma RunMore(config: Config, steps: seq<Step>, step: Step)
    requires Run(config, steps).Some? && Enabled(Run(config, steps).value, step)
    ensures Run(config, steps + [step]) == Some(Next(Run(config, steps).value, step))
  {
    assert (steps + [step])[..|steps|] == steps;
  }

  /** A lone worker gets to its next claim. */
  lemma {:induction false} SoloFinishes(config: Config, steps: seq<Step>, a: nat) returns (steps': seq<Step>)
    requires Run(config, steps).Some? && Solo(Run(config, steps).value, a)
    requires !Run(config, steps).value.workers[a].stage.Claim?
    ensures Run(config, steps').Some?
    ensures var v, v' := Run(config, steps).value, Run(config, steps').value;
            Solo(v', a) && v'.workers[a].stage.Claim? && Private(v, v', a)
    decreases Distance(Run(config, steps).value.workers[a])
  {
    var v := Run(config, steps).value;
    RunMore(config, steps, Work(a));
    if v.workers[a].stage.Top? {
      steps' := steps + [Work(a)];
    } else {
      SoloStep(v, a);
      steps' := SoloFinishes(config, steps + [Work(a)], a);
    }
  }

  // ---------------------------------------------------------------------------------------------
  // Driving the cursor to any value it can take

  /** Worker `a` is about to claim, `n` claims have been made, and the workers after it have not begun. */
  ghost predicate Poised(v: Bench, a: nat, n: nat) {
    && Solo(v, a) && v.workers[a].stage.Claim?
    && |v.books.claims| == n
    && Untouched(v.workers, a)
  }

  lemma SoloClaim(v: Bench, n: nat)
    requires Poised(v, 0, n) && v.cursor == Depth(v.config) * n
    requires n < Rounds(v.config) && Depth(v.config) * (n + 1) < U64_MODULUS
    ensures Enabled(v, Work(0))
    ensures var v' := Next(v, Work(0));
      && Solo(v', 0) && !v'.workers[0].stage.Claim? && v'.config == v.config
      && |v'.books.claims| == n + 1 && v'.cursor == Depth(v.config) * (n + 1)
      && v'.workers == v.workers[0 := v'.workers[0]]
  {
    RoundsCover(v.config);
    Scaled(Depth(v.config), n, Rounds(v.config) - 1);
    assert Depth(v.config) * (n + 1) == v.cursor + Depth(v.config);
  }

  /** A lone worker makes the first `n` claims. */
  lemma {:induction false} SoloClaims(config: Config, n: nat) returns (steps: seq<Step>)
    requires Validate(config).Success?
    requires n <= Rounds(config) && Depth(config) * n < U64_MODULUS
    ensures Run(config, steps).Some?
    ensures var v := Run(config, steps).value;
            Poised(v, 0, n) && v.config == config && v.cursor == Depth(config) * n
  {
    if n == 0 {
      StartShape(config, Start(config));
      FreshAlone(Start(config).flags, 0, Start(config).workers[0]);
      steps := SoloFinishes(config, [], 0);
    } else {
      Scaled(Depth(config), n - 1, n);
      var before := SoloClaims(config, n - 1);
      SoloClaim(Run(config, before).value, n - 1);
      RunMore(config, before, Work(0));
      steps := SoloFinishes(config, before + [Work(0)], 0);
    }
  }

  lemma EmptyClaim(v: Bench, w: nat)
    requires w < |v.workers| && v.workers[w].stage.Claim?
    requires v.cursor < v.config.total && v.cursor + Depth(v.config) >= U64_MODULUS
    ensures WorkStep(v, w).books.claims == v.books.claims + [(v.cursor, v.cursor)]
  {
    ModUnique(v.cursor + Depth(v.config), U64_MODULUS, 1, v.cursor + Depth(v.config) - U64_MODULUS);
  }

  /** The last claim wraps around and comes back empty. */
  lemma LastClaimWraps(config: Config) returns (steps: seq<Step>)
    requires Validate(config).Success?
    requires Depth(config) * Rounds(config) >= U64_MODULUS
    ensures Run(config, steps).Some? && !Tiles(config, Run(config, steps).value.books.claims)
  {
    RoundsCover(config);
    var n := Rounds(config) - 1;
    assert Depth(config) * Rounds(config) == Depth(config) * n + Depth(config);
    var before := SoloClaims(config, n);
    var v := Run(config, before).value;
    RunMore(config, before, Work(0));
    EmptyClaim(v, 0);
    steps := before + [Work(0)];
    assert Run(config, steps).value.books.claims[n] == (v.cursor, v.cursor);
  }

  ghost predicate Untouched(ws: seq<Worker>, a: nat) {
    forall w :: a < w < |ws| ==> ws[w] == Fresh()
  }

  lemma UntouchedPut(ws: seq<Worker>, a: nat, b: nat, x: Worker)
    requires Untouched(ws, a) && b < |ws| && b <= a
    ensures Untouched(ws[b := x], a)
  {
  }

  lemma UntouchedNext(ws: seq<Worker>, a: nat)
    requires Untouched(ws, a)
    ensures Untouched(ws, a + 1) && (a + 1 < |ws| ==> ws[a + 1] == Fresh())
  {
  }

  lemma ExhaustOne(v: Bench, a: nat)
    requires a < |v.workers| && v.workers[a].stage.Claim? && v.cursor >= v.config.total
    ensures Enabled(v, Work(a))
    ensures Next(v, Work(a)) == v.(cursor := (v.cursor + Depth(v.config)) % U64_MODULUS,
                                   workers := v.workers[a := v.workers[a].(stage := Done(Exhausted))])
  {
  }

  lemma NobodyHolds(v: Bench, a: nat, n: nat)
    requires Poised(v, a, n)
    ensures !v.flags.abort && v.flags.holder.None?
  {
  }

  lemma HandOn(v: Bench, v': Bench, a: nat, n: nat, x: Worker)
    requires Poised(v, a, n) && a + 1 < |v.workers|
    requires v' == v.(cursor := v'.cursor, workers := v.workers[a := x])
    ensures NextUp(v', a + 1, n)
  {
    UntouchedPut(v.workers, a, a, x);
    UntouchedNext(v'.workers, a);
    NobodyHolds(v, a, n);
    FreshAlone(v.flags, a + 1, v'.workers[a + 1]);
  }

  lemma FirstCursor(config: Config)
    requires Depth(config) * Rounds(config) < U64_MODULUS
    ensures CursorAt(config, Rounds(config)) == Depth(config) * Rounds(config)
  {
  }

  /** Once the fixture is handed out, workers `0` to `a - 1` each push the cursor one claim further. */
  lemma {:induction false} ExhaustMany(config: Config, a: nat) returns (steps: seq<Step>)
    requires Validate(config).Success? && Depth(config) * Rounds(config) < U64_MODULUS
    requires a < config.workers
    requires forall m: nat :: Rounds(config) <= m < Rounds(config) + a ==> CursorAt(config, m) >= config.total
    ensures Run(config, steps).Some?
    ensures var v := Run(config, steps).value;
            Poised(v, a, Rounds(config)) && v.config == config && v.cursor == CursorAt(config, Rounds(config) + a)
  {
    if a == 0 {
      steps := SoloClaims(config, Rounds(config));
      FirstCursor(config);
    } else {
      var m := Rounds(config) + a - 1;
      var before := ExhaustMany(config, a - 1);
      CursorNext(config, m);
      steps := PassOn(config, before, a - 1, Rounds(config), CursorAt(config, m + 1));
    }
  }

  /** Worker `a` is about to begin, after all those before it are done. */
  ghost predicate NextUp(v: Bench, a: nat, n: nat) {
    Solo(v, a) && !v.workers[a].stage.Claim? && |v.books.claims| == n && Untouched(v.workers, a)
  }

  lemma Pass(config: Config, before: seq<Step>, a: nat, n: nat, next: nat) returns (steps: seq<Step>)
    requires Run(config, before).Some?
    requires var v := Run(config, before).value;
             && Poised(v, a, n) && a + 1 < |v.workers| && v.cursor >= v.config.total
             && next == (v.cursor + Depth(v.config)) % U64_MODULUS
    ensures Run(config, steps).Some?
    ensures var v' := Run(config, steps).value;
            NextUp(v', a + 1, n) && v'.config == Run(config, before).value.config && v'.cursor == next
  {
    var v := Run(config, before).value;
    ExhaustOne(v, a);
    RunMore(config, before, Work(a));
    HandOn(v, Next(v, Work(a)), a, n, v.workers[a].(stage := Done(Exhausted)));
    steps := before + [Work(a)];
  }

  /** The next worker goes from its start to its first claim. */
  lemma TakeOver(config: Config, before: seq<Step>, a: nat, n: nat) returns (steps: seq<Step>)
    requires Run(config, before).Some?
    requires NextUp(Run(config, before).value, a, n)
    ensures Run(config, steps).Some?
    ensures var v, v' := Run(config, before).value, Run(config, steps).value;
            Poised(v', a, n) && v'.config == v.config && v'.cursor == v.cursor
  {
    steps := SoloFinishes(config, before, a);
    UntouchedPut(Run(config, before).value.workers, a, a, Run(config, steps).value.workers[a]);
  }

  lemma PassOn(config: Config, before: seq<Step>, a: nat, n: nat, next: nat) returns (steps: seq<Step>)
    requires Run(config, before).Some?
    requires var v := Run(config, before).value;
             && Poised(v, a, n) && a + 1 < |v.workers| && v.cursor >= v.config.total
             && next == (v.cursor + Depth(v.config)) % U64_MODULUS
    ensures Run(config, steps).Some?
    ensures var v' := Run(config, steps).value;
            Poised(v', a + 1, n) && v'.config == Run(config, before).value.config && v'.cursor == next
  {
    var middle := Pass(config, before, a, n, next);
    steps := TakeOver(config, middle, a + 1, n);
  }

  /** A worker that comes late finds the cursor back inside the fixture and claims from it again. */
  lemma LateClaim(config: Config, a: nat) returns (steps: seq<Step>)
    requires Validate(config).Success? && Depth(config) * Rounds(config) < U64_MODULUS
    requires a < config.workers && CursorAt(config, Rounds(config) + a) < config.total
    requires forall m: nat :: Rounds(config) <= m < Rounds(config) + a ==> CursorAt(config, m) >= config.total
    ensures Run(config, steps).Some? && !Tiles(config, Run(config, steps).value.books.claims)
  {
    var n := Rounds(config);
    var before := ExhaustMany(config, a);
    var v := Run(config, before).value;
    RunMore(config, before, Work(a));
    steps := before + [Work(a)];
    ClaimedInside(config, n);
    ClaimedInside(config, n + 1);
    assert |WorkStep(v, a).books.claims| == n + 1;
  }

  lemma {:induction false} FirstBad(config: Config, m: nat) returns (a: nat)
    requires Rounds(config) <= m < Rounds(config) + config.workers && CursorAt(config, m) < config.total
    ensures a < config.workers && CursorAt(config, Rounds(config) + a) < config.total
    ensures forall k: nat :: Rounds(config) <= k < Rounds(config) + a ==> CursorAt(config, k) >= config.total
    decreases m
  {
    if k: nat :| Rounds(config) <= k < m && CursorAt(config, k) < config.total {
      a := FirstBad(config, k);
    } else {
      a := m - Rounds(config);
    }
  }

  /** In every run the claims tile the fixture, each index handed out once and in order, if and only if
      the wrapped cursor never falls back inside the fixture on a worker's last look at it. */
  lemma ClaimsTileIff(config: Config)
    requires Validate(config).Success?
    ensures Clear(config) <==>
            forall steps :: Run(config, steps).Some? ==> Tiles(config, Run(config, steps).value.books.claims)
  {
    if Clear(config) {
      forall steps | Run(config, steps).Some?
        ensures Tiles(config, Run(config, steps).value.books.claims)
      {
        RunKeeps(config, steps);
      }
    } else if Depth(config) * Rounds(config) >= U64_MODULUS {
      var steps := LastClaimWraps(config);
    } else {
      var m: nat :| Rounds(config) <= m < Rounds(config) + config.workers && CursorAt(config, m) < config.total;
      var a := FirstBad(config, m);
      var steps := LateClaim(config, a);
    }
  }

  lemma PastTheEnd(config: Config, m: nat)
    requires Validate(config).Success? && Rounds(config) <= m < Rounds(config) + config.workers
    ensures config.total <= Depth(config) * m < config.total + Depth(config) * config.workers
  {
    RoundsCover(config);
    var d := Depth(config);
    Scaled(d, Rounds(config), m);
    Scaled(d, m, Rounds(config) - 1 + config.workers);
    assert d * (Rounds(config) - 1 + config.workers) == d * (Rounds(config) - 1) + d * config.workers;
  }

  /** Any realistic configuration is clear. */
  lemma SmallIsClear(config: Config)
    requires Validate(config).Success?
    requires config.total + Depth(config) * config.workers <= U64_MODULUS
    ensures Clear(config)
  {
    forall m: nat | Rounds(config) <= m < Rounds(config) + config.workers
      ensures CursorAt(config, m) >= config.total
    {
      PastTheEnd(config, m);
      ModUnique(Depth(config) * m, U64_MODULUS, 0, Depth(config) * m);
    }
  }
}
