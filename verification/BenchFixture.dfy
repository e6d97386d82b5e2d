/** The benchmark's workload (runtime/knomosis-bench/src/fixture.rs): private scalars by rejection
    sampling, and a round-robin schedule of transfers with per-sender nonces. Hashing, signing and the
    wire encoding of a transfer are not part of this model; a digest is a function of the attempt. */
module BenchFixture {

  import opened Machine
  import opened Bytes

  // ---------------------------------------------------------------------------------------------
  // Scalars

  /** The order of the secp256k1 group. */
  const GROUP_ORDER: seq<Byte> := [
    0xFF, 0xFF, 0xFF, 0xFF, 0xFF, 0xFF, 0xFF, 0xFF, 0xFF, 0xFF, 0xFF, 0xFF, 0xFF, 0xFF, 0xFF, 0xFE,
    0xBA, 0xAE, 0xDC, 0xE6, 0xAF, 0x48, 0xA0, 0x3B, 0xBF, 0xD2, 0x5E, 0x8C, 0xD0, 0x36, 0x41, 0x41]

  type Digest = b: seq<Byte> | |b| == 32 witness seq(32, _ => 0)

  const ATTEMPTS: nat := 256

  /** A scalar a group of this order accepts. */
  ghost predicate Usable(order: Digest, scalar: Digest) {
    0 < FromBigEndian(scalar) < FromBigEndian(order)
  }

  method AllZero(b: Digest) returns (zero: bool)
    ensures zero <==> FromBigEndian(b) == 0
  {
    ZeroIffAllZero(b);
    for i := 0 to 32
      invariant forall k :: 0 <= k < i ==> b[k] == 0
    {
      if b[i] != 0 {
        return false;
      }
    }
    return true;
  }

  method Below(a: Digest, b: Digest) returns (less: bool)
    ensures less <==> FromBigEndian(a) < FromBigEndian(b)
  {
    for i := 0 to 32
      invariant a[..i] == b[..i]
    {
      if a[i] < b[i] {
        FirstDifferenceDecides(a, b, i);
        return true;
      }
      if a[i] > b[i] {
        FirstDifferenceDecides(b, a, i);
        return false;
      }
    }
    assert a == a[..32] && b == b[..32];
    return false;
  }

  /** A byte-by-byte comparison decides the numeric range. */
  method ScalarInRange(order: Digest, scalar: Digest) returns (ok: bool)
    ensures ok <==> Usable(order, scalar)
  {
    var zero := AllZero(scalar);
    if zero {
      return false;
    }
    ok := Below(scalar, order);
  }

  ghost predicate FirstUsable(order: Digest, hash: nat -> Digest, k: nat) {
    Usable(order, hash(k)) && forall j: nat :: j < k ==> !Usable(order, hash(j))
  }

  /** Every attempt to derive a scalar is out of range. */
  ghost predicate Keyless(order: Digest, hash: nat -> Digest, limit: nat) {
    forall k: nat :: k < limit ==> !Usable(order, hash(k))
  }

  /** Rejection sampling returns the first usable digest, and fails only if none of the attempts is. */
  method FirstInRange(order: Digest, hash: nat -> Digest, limit: nat) returns (r: Option<Digest>)
    ensures r.None? <==> Keyless(order, hash, limit)
    ensures r.Some? ==> exists k: nat :: k < limit && FirstUsable(order, hash, k) && r.value == hash(k)
  {
    for attempt := 0 to limit
      invariant forall k: nat :: k < attempt ==> !Usable(order, hash(k))
    {
      var out := hash(attempt);
      var ok := ScalarInRange(order, out);
      if ok {
        assert FirstUsable(order, hash, attempt);
        return Some(out);
      }
    }
    return None;
  }

  /** An actor's private scalar: 256 attempts against the order of secp256k1. */
  method DeriveScalar(hash: nat -> Digest) returns (r: Option<Digest>)
    ensures r.None? <==> Keyless(GROUP_ORDER, hash, 256)
    ensures r.Some? ==> exists k: nat :: k < 256 && FirstUsable(GROUP_ORDER, hash, k) && r.value == hash(k)
  {
    r := FirstInRange(GROUP_ORDER, hash, ATTEMPTS);
  }

  // ---------------------------------------------------------------------------------------------
  // Transfers

  datatype Config = Config(actors: nat, transfers: nat, amount: nat, deploymentIdLen: nat)

  datatype FixtureError =
    | NoActors
    | NoTransfers
    | TransferAmountTooLarge(amount: nat)
    | DeploymentIdTooLarge(length: nat)
    | ScalarDerivation(actor: nat, attempts: nat)

  datatype Transfer = Transfer(sender: nat, receiver: nat, nonce: nat, amount: nat)

  /** One private scalar per actor, and the transfers in the order they are submitted. */
  datatype Fixture = Fixture(keys: seq<Digest>, transfers: seq<Transfer>)

  function Validate(c: Config): Result<(), FixtureError> {
    if c.actors == 0 then Failure(NoActors)
    else if c.transfers == 0 then Failure(NoTransfers)
    else if c.amount >= U64_MODULUS then Failure(TransferAmountTooLarge(c.amount))
    else if c.deploymentIdLen > 0x1_0000_0000 then Failure(DeploymentIdTooLarge(c.deploymentIdLen))
    else Success(())
  }

  /** How many of the transfers `a` sends. */
  function Sends(ts: seq<Transfer>, a: nat): nat {
    if ts == [] then 0 else Sends(ts[..|ts| - 1], a) + if ts[|ts| - 1].sender == a then 1 else 0
  }

  /** Every transfer carries the number of transfers its sender has made before: each sender's nonces
      count up from zero without a gap, which is what the kernel admits. */
  ghost predicate Gapless(ts: seq<Transfer>) {
    forall i :: 0 <= i < |ts| ==> ts[i].nonce == Sends(ts[..i], ts[i].sender)
  }

  ghost predicate RoundRobin(ts: seq<Transfer>, c: Config) {
    forall i :: 0 <= i < |ts| ==>
      && ts[i].sender < c.actors && ts[i].receiver < c.actors
      && (c.actors > 0 ==> ts[i].sender == i % c.actors)
      && (c.actors > 0 ==> ts[i].receiver == (ts[i].sender + 1) % c.actors)
      && ts[i].amount == c.amount
  }

  lemma SendsOne(ts: seq<Transfer>, t: Transfer, a: nat)
    ensures Sends(ts + [t], a) == Sends(ts, a) + if t.sender == a then 1 else 0
  {
    assert (ts + [t])[..|ts|] == ts;
  }

  lemma GaplessOne(ts: seq<Transfer>, t: Transfer)
    requires Gapless(ts) && t.nonce == Sends(ts, t.sender)
    ensures Gapless(ts + [t])
  {
    var more := ts + [t];
    forall i | 0 <= i < |more|
      ensures more[i].nonce == Sends(more[..i], more[i].sender)
    {
      if i < |ts| {
        assert more[..i] == ts[..i];
      } else {
        assert more[..i] == ts;
      }
    }
  }

  lemma RoundRobinOne(ts: seq<Transfer>, c: Config, t: Transfer)
    requires c.actors > 0 && RoundRobin(ts, c)
    requires t.sender == |ts| % c.actors && t.receiver == (t.sender + 1) % c.actors && t.amount == c.amount
    ensures RoundRobin(ts + [t], c)
  {
    assert (t.sender + 1) % c.actors < c.actors;
  }

  /** The first actor without a usable scalar. */
  ghost predicate FirstKeyless(order: Digest, hashes: nat -> nat -> Digest, limit: nat, actors: nat, a: nat) {
    a < actors && Keyless(order, hashes(a), limit) && forall b: nat :: b < a ==> !Keyless(order, hashes(b), limit)
  }

  /** `key` is the first of the digests that can be used. */
  ghost predicate KeyOf(order: Digest, hash: nat -> Digest, limit: nat, key: Digest) {
    exists k: nat :: k < limit && FirstUsable(order, hash, k) && key == hash(k)
  }

  lemma KeysRuleOut(order: Digest, hashes: nat -> nat -> Digest, limit: nat, keys: seq<Digest>)
    requires forall b: nat :: b < |keys| ==> KeyOf(order, hashes(b), limit, keys[b])
    ensures forall b: nat :: b < |keys| ==> !Keyless(order, hashes(b), limit)
  {
    forall b: nat | b < |keys|
      ensures !Keyless(order, hashes(b), limit)
    {
      var k: nat :| k < limit && FirstUsable(order, hashes(b), k) && keys[b] == hashes(b)(k);
    }
  }

  /** One key per actor, in order, each the first that can be used; an actor without one ends it. */
  method DeriveKeys(order: Digest, actors: nat, hashes: nat -> nat -> Digest, limit: nat)
    returns (r: Result<seq<Digest>, FixtureError>)
    ensures r.Success? ==>
      |r.value| == actors && forall a: nat :: a < actors ==> KeyOf(order, hashes(a), limit, r.value[a])
    ensures r.Failure? ==>
      && r.error.ScalarDerivation? && r.error.attempts == limit
      && FirstKeyless(order, hashes, limit, actors, r.error.actor)
  {
    var keys: seq<Digest> := [];
    for a := 0 to actors
      invariant |keys| == a && forall b: nat :: b < a ==> KeyOf(order, hashes(b), limit, keys[b])
    {
      var key := FirstInRange(order, hashes(a), limit);
      if key.None? {
        KeysRuleOut(order, hashes, limit, keys);
        return Failure(ScalarDerivation(a, limit));
      }
      assert KeyOf(order, hashes(a), limit, key.value);
      keys := keys + [key.value];
    }
    return Success(keys);
  }

  /** The generator checks its configuration, derives the keys, then keeps one counter per actor and emits
      the transfers one by one. `hashes(a)` are the digests tried for actor `a`. */
  method Generate(c: Config, hashes: nat -> nat -> Digest) returns (r: Result<Fixture, FixtureError>)
    ensures c.actors == 0 ==> r == Failure(NoActors)
    ensures c.actors > 0 && c.transfers == 0 ==> r == Failure(NoTransfers)
    ensures c.actors > 0 && c.transfers > 0 && c.amount > 0xFFFF_FFFF_FFFF_FFFF ==>
      r == Failure(TransferAmountTooLarge(c.amount))
    ensures c.actors > 0 && c.transfers > 0 && c.amount <= 0xFFFF_FFFF_FFFF_FFFF ==>
      c.deploymentIdLen > 0x1_0000_0000 ==> r == Failure(DeploymentIdTooLarge(c.deploymentIdLen))
    ensures Validate(c).Failure? ==> r == Failure(Validate(c).error)
    ensures Validate(c).Success? && r.Failure? ==>
      && r.error.ScalarDerivation? && r.error.attempts == 256
      && FirstKeyless(GROUP_ORDER, hashes, 256, c.actors, r.error.actor)
    ensures r.Success? ==>
      && |r.value.keys| == c.actors
      && forall a: nat :: a < c.actors ==> KeyOf(GROUP_ORDER, hashes(a), 256, r.value.keys[a])
    ensures r.Success? ==>
      |r.value.transfers| == c.transfers && RoundRobin(r.value.transfers, c) && Gapless(r.value.transfers)
  {
    var checked := Validate(c);
    if checked.Failure? {
      return Failure(checked.error);
    }
    var keys := DeriveKeys(GROUP_ORDER, c.actors, hashes, ATTEMPTS);
    if keys.Failure? {
      return Failure(keys.error);
    }
    var ts := Schedule(c);
    return Success(Fixture(keys.value, ts));
  }

  /** The nonce loop. */
  method Schedule(c: Config) returns (ts: seq<Transfer>)
    requires c.actors > 0
    ensures |ts| == c.transfers && RoundRobin(ts, c) && Gapless(ts)
  {
    var nonces := new nat[c.actors](_ => 0);
    ts := [];
    var i := 0;
    while i < c.transfers
      invariant i == |ts| <= c.transfers
      invariant RoundRobin(ts, c) && Gapless(ts)
      invariant forall a :: 0 <= a < c.actors ==> nonces[a] == Sends(ts, a)
    {
      var sender := i % c.actors;
      var receiver := if c.actors > 1 then (sender + 1) % c.actors else sender;
      var nonce := nonces[sender];
      nonces[sender] := nonce + 1;
      var t := Transfer(sender, receiver, nonce, c.amount);
      ReceiverIs(sender, c.actors);
      RoundRobinOne(ts, c, t);
      GaplessOne(ts, t);
      forall a | 0 <= a < c.actors
        ensures Sends(ts + [t], a) == Sends(ts, a) + if t.sender == a then 1 else 0
      {
        SendsOne(ts, t, a);
      }
      ts := ts + [t];
      i := i + 1;
    }
  }

  lemma ReceiverIs(sender: nat, n: nat)
    requires sender < n
    ensures (sender + 1) % n == if sender + 1 < n then sender + 1 else 0
    ensures (sender + 1) % n == sender <==> n == 1
  {
    if sender + 1 < n {
      assert (sender + 1) % n == sender + 1;
    }
  }

  /** Nobody pays themselves unless there is nobody else. */
  lemma SelfPaymentIff(ts: seq<Transfer>, c: Config, i: nat)
    requires c.actors > 0 && RoundRobin(ts, c) && i < |ts|
    ensures ts[i].sender == ts[i].receiver <==> c.actors == 1
  {
    ReceiverIs(ts[i].sender, c.actors);
  }

  // ---------------------------------------------------------------------------------------------
  // What follows for the workload

  lemma {:induction false} SendsGrow(ts: seq<Transfer>, i: nat, j: nat, a: nat)
    requires i <= j <= |ts|
    ensures Sends(ts[..i], a) <= Sends(ts[..j], a)
    decreases j
  {
    if i < j {
      assert ts[..j][..j - 1] == ts[..j - 1];
      SendsGrow(ts, i, j - 1, a);
    }
  }

  /** No two transfers share a sender and a nonce, and a later one of the same sender has the larger. */
  lemma NoncesIncrease(ts: seq<Transfer>, i: nat, j: nat)
    requires Gapless(ts) && i < j < |ts| && ts[i].sender == ts[j].sender
    ensures ts[i].nonce < ts[j].nonce
  {
    assert ts[..i + 1] == ts[..i] + [ts[i]];
    SendsOne(ts[..i], ts[i], ts[i].sender);
    SendsGrow(ts, i + 1, j, ts[i].sender);
  }

  lemma DivNext(i: nat, n: nat)
    requires n > 0
    ensures if i % n + 1 < n then (i + 1) % n == i % n + 1 && (i + 1) / n == i / n
            else (i + 1) % n == 0 && (i + 1) / n == i / n + 1
  {
    var q, r := i / n, i % n;
    assert i == n * q + r;
    if r + 1 < n {
      Quotient(i + 1, n, q, r + 1);
    } else {
      assert n * q + n == n * (q + 1);
      Quotient(i + 1, n, q + 1, 0);
    }
  }

  /** Actors take turns: their loads never differ by more than one. */
  lemma {:induction false} LoadIs(ts: seq<Transfer>, c: Config, a: nat)
    requires c.actors > 0 && RoundRobin(ts, c) && a < c.actors
    ensures Sends(ts, a) == |ts| / c.actors + if a < |ts| % c.actors then 1 else 0
  {
    if ts == [] {
      Quotient(0, c.actors, 0, 0);
    } else {
      LoadIs(ts[..|ts| - 1], c, a);
      DivNext(|ts| - 1, c.actors);
    }
  }

  /** The nonce of transfer `i` is its round, and its hint, `i % actors`, is its sender. */
  lemma NonceIsRound(ts: seq<Transfer>, c: Config, i: nat)
    requires c.actors > 0 && RoundRobin(ts, c) && Gapless(ts) && i < |ts|
    ensures ts[i].nonce == i / c.actors && ts[i].sender == i % c.actors
  {
    LoadIs(ts[..i], c, ts[i].sender);
  }
}
