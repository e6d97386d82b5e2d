/** Subsequences: the same elements in the same order, some left out, none repeated. */
module Subsequences {

  ghost predicate Subseq<T(!new)>(a: seq<T>, b: seq<T>)
    decreases |b|
  {
    || a == []
    || (b != [] && Subseq(a, b[..|b| - 1]))
    || (b != [] && a[|a| - 1] == b[|b| - 1] && Subseq(a[..|a| - 1], b[..|b| - 1]))
  }

  lemma {:induction false} SubseqSelf<T(!new)>(a: seq<T>)
    ensures Subseq(a, a)
  {
    if a != [] {
      SubseqSelf(a[..|a| - 1]);
    }
  }

  lemma {:induction false} SubseqGrow<T(!new)>(a: seq<T>, b: seq<T>, c: seq<T>)
    requires Subseq(a, b)
    ensures Subseq(a, b + c)
  {
    if c == [] {
      assert b + c == b;
    } else {
      SubseqGrow(a, b, c[..|c| - 1]);
      assert (b + c)[..|b + c| - 1] == b + c[..|c| - 1];
    }
  }

  lemma {:induction false} SubseqConcat<T(!new)>(a: seq<T>, b: seq<T>, a': seq<T>, b': seq<T>)
    requires Subseq(a, b) && Subseq(a', b')
    ensures Subseq(a + a', b + b')
    decreases |b'|
  {
    if a' == [] {
      assert a + a' == a;
      SubseqGrow(a, b, b');
    } else {
      var front := b'[..|b'| - 1];
      assert (b + b')[..|b + b'| - 1] == b + front;
      if Subseq(a', front) {
        SubseqConcat(a, b, a', front);
      } else {
        SubseqConcat(a, b, a'[..|a'| - 1], front);
        assert (a + a')[..|a + a'| - 1] == a + a'[..|a'| - 1];
      }
    }
  }

  lemma SubseqSuffix<T(!new)>(b: seq<T>, k: nat)
    requires k <= |b|
    ensures Subseq(b[k..], b)
  {
    SubseqSelf(b[k..]);
    assert Subseq([], b[..k]);
    SubseqConcat([], b[..k], b[k..], b[k..]);
    assert [] + b[k..] == b[k..] && b[..k] + b[k..] == b;
  }

  lemma {:induction false} SubseqOfPrefix<T(!new)>(a: seq<T>, b: seq<T>, n: nat)
    requires Subseq(a, b)
    requires n <= |a|
    ensures Subseq(a[..n], b)
    decreases |b|
  {
    if n == |a| {
      assert a[..n] == a;
    } else if b != [] {
      var front := b[..|b| - 1];
      if Subseq(a, front) {
        SubseqOfPrefix(a, front, n);
      } else {
        SubseqOfPrefix(a[..|a| - 1], front, n);
        assert a[..|a| - 1][..n] == a[..n];
      }
    }
  }

  /** A subsequence of full length is the whole. */
  lemma {:induction false} SubseqFull<T(!new)>(a: seq<T>, b: seq<T>)
    requires Subseq(a, b) && |a| >= |b|
    ensures a == b
    decreases |b|
  {
    if b != [] {
      var front := b[..|b| - 1];
      if Subseq(a, front) {
        SubseqLength(a, front);
      } else {
        SubseqFull(a[..|a| - 1], front);
        assert a == a[..|a| - 1] + [a[|a| - 1]] && b == front + [b[|b| - 1]];
      }
    }
  }

  lemma {:induction false} SubseqLength<T(!new)>(a: seq<T>, b: seq<T>)
    requires Subseq(a, b)
    ensures |a| <= |b|
    decreases |b|
  {
    if b != [] {
      var front := b[..|b| - 1];
      if Subseq(a, front) {
        SubseqLength(a, front);
      } else if a != [] {
        SubseqLength(a[..|a| - 1], front);
      }
    }
  }
}
