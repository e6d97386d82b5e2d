/** The bounded-lag policy across the three atomic parts of `try_enqueue`
    (runtime/knomosis-event-subscribe/src/subscription.rs:244-285). */
module LagPolicy {

  import opened Machine
  import opened Subscription
  import opened Sessions

  /** Where the broadcaster stands with a subscriber: not at it, past the disconnect check, or holding
      the channel's answer but not yet having accounted for it. */
  datatype Owed = Nothing | Cleared | Due(result: SendResult)

  ghost predicate AnyClosed(attempts: seq<Attempt>) {
    exists k :: 0 <= k < |attempts| && attempts[k].result.Closed?
  }

  /** Once gone, gone for good. */
  ghost predicate ClosedStays(attempts: seq<Attempt>) {
    forall j, k :: 0 <= j <= k < |attempts| && attempts[j].result.Closed? ==> attempts[k].result.Closed?
  }

  /** Before every accepted batch, at most `maxLag` in a row were refused. */
  ghost predicate GapInv(attempts: seq<Attempt>, maxLag: nat) {
    forall k :: 0 <= k < |attempts| && attempts[k].result.Sent? ==> Trailing(attempts[..k]) <= maxLag
  }

  ghost predicate LagInv(lag: nat, maxLag: nat, disconnected: bool, attempts: seq<Attempt>, owed: Owed) {
    && GapInv(attempts, maxLag)
    && ClosedStays(attempts)
    && match owed
       case Nothing =>
         && lag == Trailing(attempts) <= maxLag + 1
         && (lag <= maxLag || disconnected) && (AnyClosed(attempts) ==> disconnected)
       case Cleared =>
         lag == Trailing(attempts) <= maxLag && !AnyClosed(attempts)
       case Due(r) =>
         && attempts != [] && attempts[|attempts| - 1].result == r
         && var front := attempts[..|attempts| - 1];
            lag == Trailing(front) <= maxLag && !AnyClosed(front)
  }

  lemma AppendKeepsGap(attempts: seq<Attempt>, t: Attempt, maxLag: nat)
    requires GapInv(attempts, maxLag) && ClosedStays(attempts)
    requires t.result.Sent? ==> Trailing(attempts) <= maxLag
    requires AnyClosed(attempts) ==> t.result.Closed?
    ensures GapInv(attempts + [t], maxLag) && ClosedStays(attempts + [t])
  {
    var all := attempts + [t];
    forall k | 0 <= k < |all| && all[k].result.Sent?
      ensures Trailing(all[..k]) <= maxLag
    {
      assert all[..k] == attempts[..k];
      assert attempts[..|attempts|] == attempts;
    }
    forall j, k | 0 <= j <= k < |all| && all[j].result.Closed?
      ensures all[k].result.Closed?
    {
      if k < |attempts| {
        assert attempts[k] == all[k] && attempts[j] == all[j];
      } else if j < |attempts| {
        assert attempts[j].result.Closed?;
      }
    }
  }

  /** The check finds the subscriber marked: the batch is passed over. */
  lemma SkipKeepsLag(h: Handle, attempts: seq<Attempt>, t: Attempt)
    requires LagInv(h.lag, h.maxLag, h.disconnected, attempts, Nothing)
    requires h.disconnected && t.result.Closed?
    ensures LagInv(h.lag, h.maxLag, h.disconnected, attempts + [t], Nothing)
  {
    AppendKeepsGap(attempts, t, h.maxLag);
    assert (attempts + [t])[..|attempts|] == attempts;
  }

  lemma SendKeepsLag(h: Handle, attempts: seq<Attempt>, t: Attempt)
    requires LagInv(h.lag, h.maxLag, h.disconnected, attempts, Cleared)
    ensures LagInv(h.lag, h.maxLag, h.disconnected, attempts + [t], Due(t.result))
  {
    AppendKeepsGap(attempts, t, h.maxLag);
    assert (attempts + [t])[..|attempts|] == attempts;
  }

  lemma AccountKeepsLag(h: Handle, attempts: seq<Attempt>, r: SendResult)
    requires LagInv(h.lag, h.maxLag, h.disconnected, attempts, Due(r))
    ensures var h' := Account(h, r).0;
            LagInv(h'.lag, h'.maxLag, h'.disconnected, attempts, Nothing)
  {
    var front := attempts[..|attempts| - 1];
    assert forall k :: 0 <= k < |front| ==> front[k] == attempts[k];
  }

  // ---------------------------------------------------------------------------------------------
  // What the invariant means for a subscriber

  /** The number of refusals among a stretch of attempts. */
  function Refusals(attempts: seq<Attempt>): nat {
    if attempts == [] then 0
    else Refusals(attempts[..|attempts| - 1]) + if attempts[|attempts| - 1].result.Full? then 1 else 0
  }

  lemma {:induction false} TrailingCounts(attempts: seq<Attempt>, j: nat)
    requires j <= |attempts|
    requires forall i :: j <= i < |attempts| ==> !attempts[i].result.Sent?
    ensures Trailing(attempts) == Trailing(attempts[..j]) + Refusals(attempts[j..])
  {
    if j == |attempts| {
      assert attempts[..j] == attempts;
    } else {
      var front := attempts[..|attempts| - 1];
      TrailingCounts(front, j);
      assert front[..j] == attempts[..j];
      assert attempts[j..][..|attempts| - j - 1] == front[j..];
    }
  }

  /** A stretch of refusals is counted in full. */
  lemma {:induction false} AllRefused(attempts: seq<Attempt>)
    requires forall i :: 0 <= i < |attempts| ==> attempts[i].result.Full?
    ensures Refusals(attempts) == |attempts|
  {
    if attempts != [] {
      AllRefused(attempts[..|attempts| - 1]);
    }
  }

  lemma ClosedUpTo(attempts: seq<Attempt>, i: nat, k: nat)
    requires ClosedStays(attempts)
    requires i <= k < |attempts|
    ensures attempts[i].result.Closed? ==> attempts[k].result.Closed?
  {
  }

  /** Before an accepted batch the channel was open, so whatever was not accepted was refused. */
  lemma FullBefore(attempts: seq<Attempt>, j: nat, k: nat)
    requires ClosedStays(attempts)
    requires j <= k < |attempts| && attempts[k].result.Sent?
    requires forall i :: j <= i < k ==> !attempts[i].result.Sent?
    ensures Refusals(attempts[j..k]) == k - j
  {
    forall i | 0 <= i < k - j
      ensures attempts[j..k][i].result.Full?
    {
      ClosedUpTo(attempts, j + i, k);
    }
    AllRefused(attempts[j..k]);
  }

  /** Between two consecutive accepted batches at most `maxLag` are lost. */
  lemma GapIsBounded(attempts: seq<Attempt>, maxLag: nat, j: nat, k: nat)
    requires GapInv(attempts, maxLag) && ClosedStays(attempts)
    requires j < k < |attempts|
    requires attempts[j].result.Sent? && attempts[k].result.Sent?
    requires forall i :: j < i < k ==> !attempts[i].result.Sent?
    ensures k - j - 1 <= maxLag
  {
    var front := attempts[..k];
    TrailingCounts(front, j + 1);
    assert front[j + 1..] == attempts[j + 1..k];
    assert front[..j + 1][|front[..j + 1]| - 1] == attempts[j];
    FullBefore(attempts, j + 1, k);
  }

  /** So many also before the first. */
  lemma FirstGapIsBounded(attempts: seq<Attempt>, maxLag: nat, k: nat)
    requires GapInv(attempts, maxLag) && ClosedStays(attempts)
    requires k < |attempts| && attempts[k].result.Sent?
    requires forall i :: 0 <= i < k ==> !attempts[i].result.Sent?
    ensures k <= maxLag
  {
    var front := attempts[..k];
    TrailingCounts(front, 0);
    assert front[0..] == attempts[0..k];
    FullBefore(attempts, 0, k);
  }

  /** The refusal that takes the run of refusals past `maxLag` is the last thing that ever happens on
      that channel: the subscriber is marked, and nothing is accepted afterwards. */
  lemma EvictionIsFinal(h: Handle, attempts: seq<Attempt>, k: nat)
    requires LagInv(h.lag, h.maxLag, h.disconnected, attempts, Nothing)
    requires k <= |attempts|
    requires Trailing(attempts[..k]) > h.maxLag
    ensures h.disconnected
    ensures forall i :: k <= i < |attempts| ==> !attempts[i].result.Sent?
  {
    NothingAfterEviction(attempts, h.maxLag, k, |attempts|);
    assert attempts[..|attempts|] == attempts;
  }

  lemma {:induction false} NothingAfterEviction(attempts: seq<Attempt>, maxLag: nat, k: nat, n: nat)
    requires GapInv(attempts, maxLag)
    requires k <= n <= |attempts|
    requires Trailing(attempts[..k]) > maxLag
    ensures forall i :: k <= i < n ==> !attempts[i].result.Sent?
    ensures Trailing(attempts[..n]) > maxLag
  {
    if k < n {
      NothingAfterEviction(attempts, maxLag, k, n - 1);
      assert attempts[..n][..n - 1] == attempts[..n - 1];
      assert attempts[..n][n - 1] == attempts[n - 1];
    }
  }
}
