/** Latency histograms (runtime/knomosis-bench/src/histogram.rs): nearest-rank percentiles over sorted
    samples, and mean and variance by Welford's one-pass recurrence, over the reals. */
module Histograms {

  import opened Machine

  const U128_MODULUS: int := 0x1_0000_0000_0000_0000_0000_0000_0000_0000

  // ---------------------------------------------------------------------------------------------
  // Sorting

  ghost predicate Ascending(s: seq<nat>) {
    forall i, j :: 0 <= i < j < |s| ==> s[i] <= s[j]
  }

  function Insert(x: nat, s: seq<nat>): (r: seq<nat>)
    ensures |r| == |s| + 1
  {
    if s == [] || x <= s[0] then [x] + s else [s[0]] + Insert(x, s[1..])
  }

  function Sort(s: seq<nat>): (r: seq<nat>)
    ensures |r| == |s|
  {
    if s == [] then [] else Insert(s[0], Sort(s[1..]))
  }

  lemma {:induction false} InsertAscends(x: nat, s: seq<nat>)
    requires Ascending(s)
    ensures Ascending(Insert(x, s)) && multiset(Insert(x, s)) == multiset(s) + multiset{x}
    ensures Insert(x, s)[0] == if s == [] || x <= s[0] then x else s[0]
  {
    if s == [] || x <= s[0] {
      PrependAscends(x, s);
    } else {
      assert s == [s[0]] + s[1..];
      InsertAscends(x, s[1..]);
      PrependAscends(s[0], Insert(x, s[1..]));
    }
  }

  lemma PrependAscends(x: nat, s: seq<nat>)
    requires Ascending(s) && (s != [] ==> x <= s[0])
    ensures Ascending([x] + s)
  {
    forall i, j | 0 <= i < j < |[x] + s|
      ensures ([x] + s)[i] <= ([x] + s)[j]
    {
      if i == 0 && j > 1 {
        assert s[0] <= s[j - 1];
      }
    }
  }

  /** `Sort` is what any sorting routine returns: an ascending permutation. */
  lemma {:induction false} SortIsSorted(s: seq<nat>)
    ensures Ascending(Sort(s)) && multiset(Sort(s)) == multiset(s)
  {
    if s != [] {
      SortIsSorted(s[1..]);
      InsertAscends(s[0], Sort(s[1..]));
      assert s == [s[0]] + s[1..];
    }
  }

  lemma {:induction false} AscendingUnique(a: seq<nat>, b: seq<nat>)
    requires Ascending(a) && Ascending(b) && multiset(a) == multiset(b)
    ensures a == b
  {
    SameSize(a, b);
    if a != [] {
      SameHead(a, b);
      WithoutHead(a);
      WithoutHead(b);
      AscendingUnique(a[1..], b[1..]);
      assert a == [a[0]] + a[1..] && b == [b[0]] + b[1..];
    }
  }

  lemma WithoutHead(s: seq<nat>)
    requires s != []
    ensures multiset(s[1..]) == multiset(s) - multiset{s[0]}
  {
    assert s == [s[0]] + s[1..];
  }

  lemma SameHead(a: seq<nat>, b: seq<nat>)
    requires a != [] && b != [] && Ascending(a) && Ascending(b) && multiset(a) == multiset(b)
    ensures a[0] == b[0]
  {
    assert a[0] in multiset(b) && b[0] in multiset(a);
    var i :| 0 <= i < |b| && b[i] == a[0];
    var j :| 0 <= j < |a| && a[j] == b[0];
  }

  lemma SameSize(a: seq<nat>, b: seq<nat>)
    requires multiset(a) == multiset(b)
    ensures |a| == |b|
  {
    assert |multiset(a)| == |a| && |multiset(b)| == |b|;
  }

  // ---------------------------------------------------------------------------------------------
  // Percentiles

  function AtMost(s: seq<nat>, v: nat): nat {
    if s == [] then 0 else AtMost(s[..|s| - 1], v) + if s[|s| - 1] <= v then 1 else 0
  }

  function Below(s: seq<nat>, v: nat): nat {
    if s == [] then 0 else Below(s[..|s| - 1], v) + if s[|s| - 1] < v then 1 else 0
  }

  /** The intermediate `numerator * n + denominator - 1`, which the source computes in a u128. */
  function Scaled(n: nat, num: nat, den: nat): int {
    num * n + den - 1
  }

  function Rank(n: nat, num: nat, den: nat): nat
    requires den > 0
  {
    (Scaled(n, num, den) % U128_MODULUS) / den
  }

  function RankIndex(n: nat, num: nat, den: nat): (i: nat)
    requires n > 0 && den > 0
    ensures i < n
  {
    if num == 0 then 0
    else
      var rank := Rank(n, num, den);
      var idx := if rank == 0 then 0 else rank - 1;
      if idx >= n then n - 1 else idx
  }

  function Percentile(sorted: seq<nat>, num: nat, den: nat): nat
    requires den > 0
  {
    if sorted == [] then 0 else sorted[RankIndex(|sorted|, num, den)]
  }

  lemma MulMono(a: nat, b: nat, c: nat, d: nat)
    requires a <= c && b <= d
    ensures a * b <= c * d
  {
    assert a * b <= c * b <= c * d;
  }

  /** The u128 intermediate never overflows. */
  lemma RankFits(n: U64, num: U64, den: U64)
    requires den > 0
    ensures 0 <= Scaled(n, num, den) < U128_MODULUS
  {
    MulMono(num, n, U64_MAX, U64_MAX);
    assert U64_MAX * U64_MAX + U64_MAX < U128_MODULUS;
    MulMono(0, 0, num, n);
  }

  /** With no overflow the index is the rounded-up rank less one, held inside the sequence. */
  lemma RankIndexIs(n: U64, num: U64, den: U64)
    requires n > 0 && den > 0 && num > 0
    ensures var i := RankIndex(n, num, den);
            (num * n <= den * (i + 1) || i == n - 1) && den * i < num * n
  {
    RankFits(n, num, den);
    var a := Scaled(n, num, den);
    var rank := a / den;
    assert a % U128_MODULUS == a;
    assert a == den * rank + a % den;
    MulMono(1, 1, num, n);
    assert rank == 0 ==> den * rank == 0;
    assert den * rank == den * (rank - 1) + den;
    MulMono(den, RankIndex(n, num, den), den, rank - 1);
  }

  lemma {:induction false} AscendingCounts(s: seq<nat>, i: nat)
    requires Ascending(s) && i < |s|
    ensures Below(s, s[i]) <= i < AtMost(s, s[i])
  {
    var front := s[..|s| - 1];
    if i < |s| - 1 {
      AscendingCounts(front, i);
    } else {
      BelowBound(front, s[i]);
      AllAtMost(front, s[i]);
    }
  }

  lemma {:induction false} BelowBound(s: seq<nat>, v: nat)
    ensures Below(s, v) <= |s|
  {
    if s != [] { BelowBound(s[..|s| - 1], v); }
  }

  lemma {:induction false} AllAtMost(s: seq<nat>, v: nat)
    requires forall i :: 0 <= i < |s| ==> s[i] <= v
    ensures AtMost(s, v) == |s|
  {
    if s != [] { AllAtMost(s[..|s| - 1], v); }
  }

  /** The nearest-rank percentile is a sample such that at least the asked-for share of samples lie at or
      below it, and less than that share strictly below it. */
  lemma PercentileMeans(s: seq<nat>, num: U64, den: U64)
    requires Ascending(s) && 0 < |s| <= U64_MAX
    requires 0 < num <= den
    ensures var v := Percentile(s, num, den);
            v in s && den * Below(s, v) < num * |s| <= den * AtMost(s, v)
  {
    var i := RankIndex(|s|, num, den);
    RankIndexIs(|s|, num, den);
    AscendingCounts(s, i);
    MulMono(den, Below(s, s[i]), den, i);
    MulMono(den, i + 1, den, AtMost(s, s[i]));
    if i == |s| - 1 {
      MulMono(num, |s|, den, |s|);
    }
  }

  /** Below the range it is the least sample, above it the greatest. */
  lemma PercentileEnds(s: seq<nat>, num: U64, den: U64)
    requires Ascending(s) && 0 < |s| <= U64_MAX && den > 0
    requires num == 0 || num >= den
    ensures var v := Percentile(s, num, den);
            v in s && forall x :: x in s ==> if num == 0 then v <= x else x <= v
  {
    if num != 0 {
      RankIndexIs(|s|, num, den);
      var i := RankIndex(|s|, num, den);
      MulMono(den, |s|, num, |s|);
      if i < |s| - 1 {
        StrictMul(den, i + 1, |s|);
      }
    }
  }

  /** A larger share never has a smaller percentile. */
  lemma PercentileMonotone(s: seq<nat>, num: U64, den: U64, num': U64, den': U64)
    requires Ascending(s) && |s| <= U64_MAX && den > 0 && den' > 0
    requires num * den' <= num' * den
    ensures Percentile(s, num, den) <= Percentile(s, num', den')
  {
    if s != [] && num != 0 {
      MulMono(1, 1, num, den');
      assert num' == 0 ==> num' * den == 0;
      var n, i, j := |s|, RankIndex(|s|, num, den), RankIndex(|s|, num', den');
      RankIndexIs(n, num, den);
      RankIndexIs(n, num', den');
      if j < i {
        RanksOrdered(n, num, den, num', den', i, j);
      }
    }
  }

  lemma RanksOrdered(n: nat, num: nat, den: nat, num': nat, den': nat, i: nat, j: nat)
    requires den > 0 && den' > 0 && num * den' <= num' * den
    requires den * i < num * n && num' * n <= den' * (j + 1)
    ensures i <= j
  {
    calc {
      (den * den') * i;
    == { Assoc(den', den, i); }
      den' * (den * i);
    < { StrictMul(den', den * i, num * n); }
      den' * (num * n);
    == { Assoc(den', num, n); }
      (num * den') * n;
    <= { MulMono(num * den', n, num' * den, n); }
      (num' * den) * n;
    == { Assoc(den, num', n); }
      den * (num' * n);
    <= { MulMono(den, num' * n, den, den' * (j + 1)); }
      den * (den' * (j + 1));
    == { Assoc(den, den', j + 1); }
      (den * den') * (j + 1);
    }
    if j + 1 <= i {
      MulMono(den * den', j + 1, den * den', i);
    }
  }

  lemma Assoc(a: int, b: int, c: int)
    ensures a * (b * c) == (b * a) * c == (a * b) * c
  {
  }

  lemma StrictMul(a: nat, b: int, c: int)
    requires a > 0 && b < c
    ensures a * b < a * c
  {
  }

  // ---------------------------------------------------------------------------------------------
  // Mean and variance

  function Sum(s: seq<nat>): real {
    if s == [] then 0.0 else Sum(s[..|s| - 1]) + s[|s| - 1] as real
  }

  function Distance(x: nat, m: real): real {
    (x as real - m) * (x as real - m)
  }

  /** Sum of squared distances from `m`. */
  function Spread(s: seq<nat>, m: real): real {
    if s == [] then 0.0 else Spread(s[..|s| - 1], m) + Distance(s[|s| - 1], m)
  }

  function Squares(s: seq<nat>): real {
    if s == [] then 0.0 else Squares(s[..|s| - 1]) + s[|s| - 1] as real * s[|s| - 1] as real
  }

  function Expanded(n: real, sum: real, squares: real, m: real): real {
    squares - 2.0 * m * sum + n * m * m
  }

  lemma {:induction false} SpreadExpands(s: seq<nat>, m: real)
    ensures Spread(s, m) == Expanded(|s| as real, Sum(s), Squares(s), m)
  {
    if s != [] {
      var front, x := s[..|s| - 1], s[|s| - 1] as real;
      SpreadExpands(front, m);
      assert 2.0 * m * (Sum(front) + x) == 2.0 * m * Sum(front) + 2.0 * m * x;
      assert |s| as real * m * m == |front| as real * m * m + m * m;
      assert Distance(s[|s| - 1], m) == x * x - 2.0 * m * x + m * m;
    }
  }

  lemma {:induction false} SpreadNotNegative(s: seq<nat>, m: real)
    ensures Spread(s, m) >= 0.0
  {
    if s != [] {
      SpreadNotNegative(s[..|s| - 1], m);
      Square(s[|s| - 1] as real - m);
    }
  }

  lemma Square(x: real)
    ensures x * x >= 0.0
  {
  }

  lemma MoveSquared(n: real, m: real, m': real, sum: real, squares: real)
    requires sum == n * m
    ensures Expanded(n, sum, squares, m') == Expanded(n, sum, squares, m) + n * Gap(m, m')
  {
    assert Gap(m, m') == m' * m' - 2.0 * m * m' + m * m;
    assert n * Gap(m, m') == n * m' * m' - 2.0 * n * m * m' + n * m * m;
  }

  function Gap(m: real, m': real): real {
    (m' - m) * (m' - m)
  }

  /** Moving the centre away from the mean adds the squared move once per sample. */
  lemma CentreMoves(s: seq<nat>, n: real, m: real, m': real, sum: real, squares: real)
    requires n == |s| as real && sum == Sum(s) && squares == Squares(s)
    requires sum == n * m
    ensures Spread(s, m') == Spread(s, m) + n * Gap(m, m')
  {
    SpreadExpands(s, m);
    SpreadExpands(s, m');
    MoveSquared(n, m, m', sum, squares);
  }

  /** One step of the recurrence, for a prefix of `n` samples with mean `m` and the next sample `x`. */
  lemma WelfordStep(n: real, m: real, m': real, x: real)
    requires n >= 0.0 && m' == m + (x - m) / (n + 1.0)
    ensures n * m + x == (n + 1.0) * m'
    ensures n * Gap(m, m') + (x - m') * (x - m') == (x - m) * (x - m')
  {
    var k := n + 1.0;
    var e := (x - m) / k;
    assert x - m == k * e;
    assert k * (m + e) == k * m + k * e;
    assert x - m' == n * e;
    assert n * (e * e) + (n * e) * (n * e) == (k * e) * (n * e);
  }

  lemma WelfordSpread(front: seq<nat>, last: nat, s: seq<nat>, mean: real, mean': real, moved: real, gain: real)
    requires s == front + [last]
    requires Spread(front, mean') == Spread(front, mean) + moved
    requires moved + Distance(last, mean') == gain
    ensures Spread(s, mean') == Spread(front, mean) + gain
  {
    assert s[..|s| - 1] == front;
  }

  lemma WelfordSum(front: seq<nat>, last: nat, s: seq<nat>)
    requires s == front + [last]
    ensures Sum(s) == Sum(front) + last as real
  {
    assert s[..|s| - 1] == front;
  }

  lemma NextSpread(front: seq<nat>, last: nat, s: seq<nat>, n: real, mean: real, mean': real, moved: real, gain: real)
    requires s == front + [last] && n == |front| as real
    requires n * mean == Sum(front)
    requires moved == n * Gap(mean, mean') && moved + Distance(last, mean') == gain
    ensures Spread(s, mean') == Spread(front, mean) + gain
  {
    CentreMoves(front, n, mean, mean', Sum(front), Squares(front));
    WelfordSpread(front, last, s, mean, mean', moved, gain);
  }

  /** The state of the recurrence after the samples `s`. */
  ghost predicate Running(s: seq<nat>, count: real, mean: real, m2: real) {
    && count == |s| as real
    && count * mean == Sum(s)
    && m2 == Spread(s, mean)
  }

  lemma RunningNext(s: seq<nat>, x: nat, count: real, mean: real, m2: real, count': real, mean': real, m2': real)
    requires Running(s, count, mean, m2)
    requires count' == count + 1.0 && mean' == mean + (x as real - mean) / count'
    requires m2' == m2 + (x as real - mean) * (x as real - mean')
    ensures Running(s + [x], count', mean', m2')
  {
    WelfordStep(count, mean, mean', x as real);
    WelfordSum(s, x, s + [x]);
    NextSpread(s, x, s + [x], count, mean, mean', count * Gap(mean, mean'), m2' - m2);
  }

  /** One round of Welford's loop. */
  method Absorb(ghost seen: seq<nat>, sample: nat, count: real, mean: real, m2: real)
    returns (count': real, mean': real, m2': real)
    requires Running(seen, count, mean, m2)
    ensures Running(seen + [sample], count', mean', m2')
  {
    var x := sample as real;
    count' := count + 1.0;
    var delta := x - mean;
    mean' := mean + delta / count';
    var delta2 := x - mean';
    m2' := m2 + delta * delta2;
    RunningNext(seen, sample, count, mean, m2, count', mean', m2');
  }

  /** Welford's loop: the mean and the exact sum of squared distances from that mean, in one pass. */
  method Welford(samples: seq<nat>) returns (mean: real, m2: real)
    ensures |samples| as real * mean == Sum(samples)
    ensures m2 == Spread(samples, mean)
  {
    var count := 0.0;
    mean, m2 := 0.0, 0.0;
    var i := 0;
    while i < |samples|
      invariant i <= |samples|
      invariant Running(samples[..i], count, mean, m2)
    {
      count, mean, m2 := Absorb(samples[..i], samples[i], count, mean, m2);
      assert samples[..i] + [samples[i]] == samples[..i + 1];
      i := i + 1;
    }
    assert samples[..i] == samples;
  }

  // ---------------------------------------------------------------------------------------------
  // Order does not matter

  lemma {:induction false} PrependTotals(x: nat, s: seq<nat>, v: nat, m: real)
    ensures Sum([x] + s) == x as real + Sum(s)
    ensures Spread([x] + s, m) == Distance(x, m) + Spread(s, m)
    ensures AtMost([x] + s, v) == (if x <= v then 1 else 0) + AtMost(s, v)
    ensures Below([x] + s, v) == (if x < v then 1 else 0) + Below(s, v)
  {
    if s == [] {
      assert [x] + s == [x];
    } else {
      PrependTotals(x, s[..|s| - 1], v, m);
      assert ([x] + s)[..|s|] == [x] + s[..|s| - 1];
    }
  }

  lemma {:induction false} InsertTotals(x: nat, s: seq<nat>, v: nat, m: real)
    ensures Sum(Insert(x, s)) == x as real + Sum(s)
    ensures Spread(Insert(x, s), m) == Distance(x, m) + Spread(s, m)
    ensures AtMost(Insert(x, s), v) == (if x <= v then 1 else 0) + AtMost(s, v)
    ensures Below(Insert(x, s), v) == (if x < v then 1 else 0) + Below(s, v)
  {
    PrependTotals(x, s, v, m);
    if s != [] && x > s[0] {
      InsertTotals(x, s[1..], v, m);
      PrependTotals(s[0], Insert(x, s[1..]), v, m);
      PrependTotals(s[0], s[1..], v, m);
      assert s == [s[0]] + s[1..];
    }
  }

  lemma {:induction false} SortTotals(s: seq<nat>, v: nat, m: real)
    ensures Sum(Sort(s)) == Sum(s) && Spread(Sort(s), m) == Spread(s, m)
    ensures AtMost(Sort(s), v) == AtMost(s, v) && Below(Sort(s), v) == Below(s, v)
  {
    if s != [] {
      SortTotals(s[1..], v, m);
      InsertTotals(s[0], Sort(s[1..]), v, m);
      PrependTotals(s[0], s[1..], v, m);
      assert s == [s[0]] + s[1..];
    }
  }

  lemma SortsAgree(s: seq<nat>, s': seq<nat>)
    requires multiset(s) == multiset(s')
    ensures Sort(s) == Sort(s')
  {
    SortIsSorted(s);
    SortIsSorted(s');
    AscendingUnique(Sort(s), Sort(s'));
  }

  lemma SameTotals(s: seq<nat>, s': seq<nat>, v: nat, m: real)
    requires multiset(s) == multiset(s')
    ensures Sum(s) == Sum(s') && Spread(s, m) == Spread(s', m)
    ensures AtMost(s, v) == AtMost(s', v) && Below(s, v) == Below(s', v)
  {
    SortsAgree(s, s');
    SortTotals(s, v, m);
    SortTotals(s', v, m);
  }

  // ---------------------------------------------------------------------------------------------
  // Summaries

  datatype Summary = Summary(
    count: nat, min: nat, max: nat, mean: real, variance: real, p50: nat, p90: nat, p99: nat, p999: nat)

  const EMPTY: Summary := Summary(0, 0, 0, 0.0, 0.0, 0, 0, 0, 0)

  /** `average` is the average of `n` numbers that add up to `total`. */
  ghost predicate Averages(n: nat, average: real, total: real) {
    n as real * average == total
  }

  /** The mean and the population variance of `s`. */
  ghost predicate Moments(s: seq<nat>, mean: real, variance: real) {
    Averages(|s|, mean, Sum(s)) && Averages(|s|, variance, Spread(s, mean)) && variance >= 0.0
  }

  ghost predicate Extremes(s: seq<nat>, min: nat, max: nat) {
    min in s && max in s && forall x :: x in s ==> min <= x <= max
  }

  /** At least `num / den` of the samples are at or below the sample `v`, fewer strictly below it. */
  ghost predicate Share(s: seq<nat>, num: nat, den: nat, v: nat) {
    v in s && den * Below(s, v) < num * |s| <= den * AtMost(s, v)
  }

  /** `r` is a correct summary of `s`, in whatever order the samples are listed. */
  ghost predicate Summarises(r: Summary, s: seq<nat>) {
    && r.count == |s|
    && (s == [] ==> r == EMPTY)
    && (s != [] ==>
          && Extremes(s, r.min, r.max)
          && Moments(s, r.mean, r.variance)
          && Share(s, 50, 100, r.p50) && Share(s, 90, 100, r.p90)
          && Share(s, 99, 100, r.p99) && Share(s, 999, 1000, r.p999)
          && r.min <= r.p50 <= r.p90 <= r.p99 <= r.p999 <= r.max)
  }

  lemma SameMembers(s: seq<nat>, s': seq<nat>, x: nat)
    requires multiset(s) == multiset(s')
    ensures x in s <==> x in s'
  {
    assert x in s <==> x in multiset(s);
  }

  lemma MomentsPermute(s: seq<nat>, s': seq<nat>, mean: real, variance: real)
    requires multiset(s) == multiset(s') && Moments(s, mean, variance)
    ensures Moments(s', mean, variance)
  {
    SameSize(s, s');
    SameTotals(s, s', 0, mean);
  }

  lemma MomentsUnique(s: seq<nat>, mean: real, variance: real, mean': real, variance': real)
    requires s != [] && Moments(s, mean, variance) && Moments(s, mean', variance')
    ensures mean == mean' && variance == variance'
  {
    Cancel(|s| as real, mean, mean');
    Cancel(|s| as real, variance, variance');
  }

  lemma Cancel(n: real, a: real, b: real)
    requires n > 0.0 && n * a == n * b
    ensures a == b
  {
  }

  lemma ExtremesPermute(s: seq<nat>, s': seq<nat>, min: nat, max: nat)
    requires multiset(s) == multiset(s') && Extremes(s, min, max)
    ensures Extremes(s', min, max)
  {
    forall x: nat
      ensures x in s <==> x in s'
    {
      SameMembers(s, s', x);
    }
  }

  lemma SharePermutes(s: seq<nat>, s': seq<nat>, num: nat, den: nat, v: nat)
    requires multiset(s) == multiset(s') && Share(s, num, den, v)
    ensures Share(s', num, den, v)
  {
    SameSize(s, s');
    SameTotals(s, s', v, 0.0);
    SameMembers(s, s', v);
  }

  lemma {:induction false} AtMostBelow(s: seq<nat>, v: nat, u: nat)
    requires v < u
    ensures AtMost(s, v) <= Below(s, u)
  {
    if s != [] {
      AtMostBelow(s[..|s| - 1], v, u);
    }
  }

  lemma ShareOrdered(s: seq<nat>, num: nat, den: nat, v: nat, u: nat)
    requires Share(s, num, den, v) && Share(s, num, den, u)
    ensures v >= u
  {
    if v < u {
      AtMostBelow(s, v, u);
      MulMono(den, AtMost(s, v), den, Below(s, u));
    }
  }

  /** There is only one sample with a given share. */
  lemma ShareUnique(s: seq<nat>, num: nat, den: nat, v: nat, u: nat)
    requires Share(s, num, den, v) && Share(s, num, den, u)
    ensures v == u
  {
    ShareOrdered(s, num, den, v, u);
    ShareOrdered(s, num, den, u, v);
  }

  lemma SummaryPermutes(r: Summary, s: seq<nat>, s': seq<nat>)
    requires Summarises(r, s) && multiset(s) == multiset(s')
    ensures Summarises(r, s')
  {
    SameSize(s, s');
    if s != [] {
      ExtremesPermute(s, s', r.min, r.max);
      MomentsPermute(s, s', r.mean, r.variance);
      SharePermutes(s, s', 50, 100, r.p50);
      SharePermutes(s, s', 90, 100, r.p90);
      SharePermutes(s, s', 99, 100, r.p99);
      SharePermutes(s, s', 999, 1000, r.p999);
    }
  }

  lemma SummaryDecided(r: Summary, r': Summary, s: seq<nat>)
    requires Summarises(r, s) && Summarises(r', s)
    ensures r == r'
  {
    if s != [] {
      MomentsUnique(s, r.mean, r.variance, r'.mean, r'.variance);
      ShareUnique(s, 50, 100, r.p50, r'.p50);
      ShareUnique(s, 90, 100, r.p90, r'.p90);
      ShareUnique(s, 99, 100, r.p99, r'.p99);
      ShareUnique(s, 999, 1000, r.p999, r'.p999);
    }
  }

  /** Histograms holding the same samples in any order, so merged in any order, have one and the same
      summary. */
  lemma SummaryUnique(r: Summary, r': Summary, s: seq<nat>, s': seq<nat>)
    requires Summarises(r, s) && Summarises(r', s') && multiset(s) == multiset(s')
    ensures r == r'
  {
    SummaryPermutes(r, s, s');
    SummaryDecided(r, r', s');
  }

  // ---------------------------------------------------------------------------------------------
  // Reporting

  lemma PercentilesOrdered(s: seq<nat>)
    requires Ascending(s) && 0 < |s| <= U64_MAX
    ensures s[0] <= Percentile(s, 50, 100) <= Percentile(s, 90, 100)
    ensures Percentile(s, 90, 100) <= Percentile(s, 99, 100) <= Percentile(s, 999, 1000) <= s[|s| - 1]
  {
    PercentileMonotone(s, 50, 100, 90, 100);
    PercentileMonotone(s, 90, 100, 99, 100);
    PercentileMonotone(s, 99, 100, 999, 1000);
  }

  lemma AscendingExtremes(s: seq<nat>)
    requires s != [] && Ascending(s)
    ensures Extremes(s, s[0], s[|s| - 1])
  {
  }

  lemma VarianceIs(s: seq<nat>, mean: real, m2: real, variance: real)
    requires s != [] && |s| as real * mean == Sum(s) && m2 == Spread(s, mean)
    requires variance == if |s| > 1 then m2 / |s| as real else 0.0
    ensures Moments(s, mean, variance)
  {
    SpreadNotNegative(s, mean);
    if |s| == 1 {
      assert s[..0] == [];
    }
  }

  lemma Reported(sorted: seq<nat>, r: Summary)
    requires 0 < |sorted| <= U64_MAX && Ascending(sorted)
    requires Moments(sorted, r.mean, r.variance)
    requires r == Summary(|sorted|, sorted[0], sorted[|sorted| - 1], r.mean, r.variance, Percentile(sorted, 50, 100),
                          Percentile(sorted, 90, 100), Percentile(sorted, 99, 100), Percentile(sorted, 999, 1000))
    ensures Summarises(r, sorted)
  {
    AscendingExtremes(sorted);
    PercentileMeans(sorted, 50, 100);
    PercentileMeans(sorted, 90, 100);
    PercentileMeans(sorted, 99, 100);
    PercentileMeans(sorted, 999, 1000);
    PercentilesOrdered(sorted);
  }

  /** The report on sorted samples. */
  method Report(sorted: seq<nat>) returns (r: Summary)
    requires 0 < |sorted| <= U64_MAX && Ascending(sorted)
    ensures Summarises(r, sorted)
  {
    var n := |sorted|;
    var mean, m2 := Welford(sorted);
    var variance := if n > 1 then m2 / n as real else 0.0;
    VarianceIs(sorted, mean, m2, variance);
    r := Summary(n, sorted[0], sorted[n - 1], mean, variance, Percentile(sorted, 50, 100),
                 Percentile(sorted, 90, 100), Percentile(sorted, 99, 100), Percentile(sorted, 999, 1000));
    Reported(sorted, r);
  }

  lemma SortStaysSmall(s: seq<U64>, i: nat)
    requires i < |s|
    ensures Sort(s)[i] <= U64_MAX
  {
    SortIsSorted(s);
    SameMembers(s, Sort(s), Sort(s)[i]);
  }

  class Histogram {
    var samples: seq<U64>

    constructor ()
      ensures samples == []
    {
      samples := [];
    }

    /** A latency in nanoseconds, held down to a u64. */
    method Record(latency: nat)
      modifies this
      ensures samples == old(samples) + [if latency <= U64_MAX then latency else U64_MAX]
      ensures forall v: nat :: latency <= U64_MAX ==>
        AtMost(samples, v) == AtMost(old(samples), v) + if latency <= v then 1 else 0
    {
      assert (samples + [if latency <= U64_MAX then latency else U64_MAX])[..|samples|] == samples;
      samples := samples + [if latency <= U64_MAX then latency else U64_MAX];
    }

    method Merge(other: Histogram)
      modifies this
      ensures samples == old(samples) + old(other.samples)
      ensures multiset(samples) == multiset(old(samples)) + multiset(old(other.samples))
    {
      samples := samples + other.samples;
    }

    /** Sorts the samples in place and reports on them. */
    method Summarise() returns (r: Summary)
      requires |samples| <= U64_MAX
      modifies this
      ensures multiset(samples) == multiset(old(samples)) && Ascending(samples)
      ensures Summarises(r, old(samples))
    {
      if samples == [] {
        return EMPTY;
      }
      ghost var before: seq<nat> := samples;
      SortIsSorted(samples);
      forall i | 0 <= i < |samples|
        ensures 0 <= Sort(samples)[i] <= U64_MAX
      {
        SortStaysSmall(samples, i);
      }
      samples := Sort(samples);
      r := Report(samples);
      SummaryPermutes(r, samples, before);
    }
  }
}
