/** 256-bit amounts (runtime/knomosis-amount/src/lib.rs): decimal text, fixed-width bytes and the
    narrowing conversion. The arithmetic engine is unbounded integers with the checks written out. */
module Amounts {

  import opened Machine
  import opened Bytes

  const MODULUS: int := 0x1_0000_0000_0000_0000_0000_0000_0000_0000_0000_0000_0000_0000_0000_0000_0000_0000
  const U128_MODULUS: int := 0x1_0000_0000_0000_0000_0000_0000_0000_0000

  type Amount = n: int | 0 <= n < MODULUS

  const AMOUNT_BYTES: nat := 32
  const MAX_DIGITS: nat := 78

  datatype AmountError = WrongLength(got: nat) | Empty | NonDigit(offset: nat) | Overflow

  // ---------------------------------------------------------------------------------------------
  // Decimal text

  function Pow10(k: nat): (p: nat)
    ensures p >= 1
  {
    if k == 0 then 1 else 10 * Pow10(k - 1)
  }

  predicate IsDigit(b: Byte) {
    48 <= b <= 57
  }

  ghost predicate AllDigits(s: seq<Byte>) {
    forall i :: 0 <= i < |s| ==> IsDigit(s[i])
  }

  function Digit(b: int): int {
    b - 48
  }

  /** The number a string of digits denotes. */
  function Value(s: seq<Byte>): int {
    if s == [] then 0 else 10 * Value(s[..|s| - 1]) + Digit(s[|s| - 1])
  }

  /** Digits only, at least one, and no zero in front of another digit. */
  ghost predicate Canonical(s: seq<Byte>) {
    s != [] && AllDigits(s) && (|s| > 1 ==> s[0] != 48)
  }

  /** A buffer filled from the least significant end, read from the most significant one. */
  function Flipped(buffer: seq<Byte>): (text: seq<Byte>)
    ensures |text| == |buffer|
    ensures forall i :: 0 <= i < |text| ==> text[i] == buffer[|buffer| - 1 - i]
  {
    seq(|buffer|, i requires 0 <= i < |buffer| => buffer[|buffer| - 1 - i])
  }

  /** The digit stored last comes first. */
  lemma StoredLastComesFirst(buffer: seq<Byte>, b: Byte)
    ensures Flipped(buffer + [b]) == [b] + Flipped(buffer)
  {
  }

  lemma {:induction false} ValuePrepend(b: Byte, s: seq<Byte>)
    ensures Value([b] + s) == Digit(b) * Pow10(|s|) + Value(s)
  {
    if s == [] {
      assert ([b] + s)[..0] == [];
    } else {
      var front := s[..|s| - 1];
      ValuePrepend(b, front);
      assert ([b] + s)[..|s|] == [b] + front;
      TenTimes(Digit(b), Pow10(|front|));
    }
  }

  lemma TenTimes(d: int, p: int)
    ensures 10 * (d * p) == d * (10 * p)
  {
  }

  lemma {:induction false} ValueBound(s: seq<Byte>)
    requires AllDigits(s)
    ensures 0 <= Value(s) < Pow10(|s|)
  {
    if s != [] {
      ValueBound(s[..|s| - 1]);
    }
  }

  /** 78 digits are enough for every amount, and 77 are not. */
  lemma BufferIsExact()
    ensures Pow10(MAX_DIGITS - 1) < MODULUS <= Pow10(MAX_DIGITS)
  {
    assert Pow10(13) == 10_000_000_000_000;
    Pow10Add(13, 13);
    Pow10Add(26, 13);
    Pow10Add(39, 13);
    Pow10Add(52, 13);
    Pow10Add(65, 13);
  }

  lemma {:induction false} Pow10Add(a: nat, b: nat)
    ensures Pow10(a + b) == Pow10(a) * Pow10(b)
  {
    if a != 0 {
      Pow10Add(a - 1, b);
    }
  }

  /** What the division loop has established: the digits so far, least significant first, are canonical
      text for the part of `value` already divided out. */
  ghost predicate Divided(value: nat, n: nat, low: seq<Byte>) {
    && AllDigits(low) && |low| <= MAX_DIGITS
    && n < Pow10(MAX_DIGITS - |low|)
    && value == n * Pow10(|low|) + Value(Flipped(low))
    && (n == 0 && low != [] ==> low[|low| - 1] != 48)
  }

  lemma SplitOff(n: nat, p: nat)
    ensures n * p == (n / 10) * (10 * p) + (n % 10) * p
  {
    var q, d := n / 10, n % 10;
    assert n == 10 * q + d;
    assert (10 * q + d) * p == (10 * q) * p + d * p;
    assert (10 * q) * p == q * (10 * p);
  }

  lemma RoomLeft(n: nat, rest: nat)
    requires 0 < n < Pow10(rest)
    ensures rest > 0 && n / 10 < Pow10(rest - 1)
  {
  }

  lemma PrependDigit(low: seq<Byte>, d: Byte)
    ensures Value(Flipped(low + [d])) == Digit(d) * Pow10(|low|) + Value(Flipped(low))
  {
    StoredLastComesFirst(low, d);
    ValuePrepend(d, Flipped(low));
  }

  lemma DivideOnce(value: nat, n: nat, low: seq<Byte>)
    requires Divided(value, n, low) && n > 0
    ensures |low| < MAX_DIGITS && Divided(value, n / 10, low + [48 + n % 10])
  {
    var d: Byte := 48 + n % 10;
    RoomLeft(n, MAX_DIGITS - |low|);
    PrependDigit(low, d);
    SplitOff(n, Pow10(|low|));
  }

  lemma DividedEnds(value: nat, low: seq<Byte>)
    requires Divided(value, 0, low) && low != []
    ensures Canonical(Flipped(low)) && Value(Flipped(low)) == value
  {
  }

  /** Display: repeated division by ten into a fixed buffer of 78 bytes, which is never overrun, then
      reversed. The text is the canonical decimal numeral of the amount. */
  method Display(a: Amount) returns (text: seq<Byte>)
    ensures Canonical(text) && Value(text) == a
    ensures |text| <= MAX_DIGITS
  {
    if a == 0 {
      assert [48][..0] == [];
      return [48];
    }
    StartDividing(a);
    var digits := new Byte[MAX_DIGITS](_ => 0);
    var used := 0;
    var n := a;
    ghost var low: seq<Byte> := [];
    while n != 0
      invariant used == |low| <= MAX_DIGITS && digits[..used] == low
      invariant 0 <= n && (low == [] ==> n == a)
      invariant Divided(a, n, low)
      decreases n
    {
      DivideOnce(a, n, low);
      var digit := 48 + n % 10;
      digits[used] := digit;
      used := used + 1;
      low := low + [digit];
      n := n / 10;
    }
    DividedEnds(a, low);
    text := Flipped(digits[..used]);
  }

  lemma StartDividing(a: Amount)
    ensures Divided(a, a, [])
  {
    BufferIsExact();
  }

  lemma AtLeastOnce(d: int, p: nat)
    requires d >= 1
    ensures d * p >= p
  {
  }

  lemma CanonicalPositive(s: seq<Byte>)
    requires Canonical(s) && |s| > 1
    ensures Value(s) >= Pow10(|s| - 1)
  {
    ValuePrepend(s[0], s[1..]);
    assert s == [s[0]] + s[1..];
    ValueBound(s[1..]);
    assert IsDigit(s[0]);
    AtLeastOnce(Digit(s[0]), Pow10(|s| - 1));
  }

  lemma {:induction false} Pow10Grows(a: nat, b: nat)
    requires a <= b
    ensures Pow10(a) <= Pow10(b)
  {
    if a < b {
      Pow10Grows(a, b - 1);
    }
  }

  lemma CanonicalLengths(s: seq<Byte>, t: seq<Byte>)
    requires Canonical(s) && Canonical(t) && Value(s) == Value(t)
    ensures |s| <= |t|
  {
    ValueBound(t);
    if |s| > |t| {
      Pow10Grows(|t|, |s| - 1);
      CanonicalPositive(s);
    }
  }

  lemma {:induction false} ValueDecides(s: seq<Byte>, t: seq<Byte>)
    requires AllDigits(s) && AllDigits(t) && |s| == |t| && Value(s) == Value(t)
    ensures s == t
  {
    if s != [] {
      ValueDecides(s[..|s| - 1], t[..|t| - 1]);
      assert s == s[..|s| - 1] + [s[|s| - 1]] && t == t[..|t| - 1] + [t[|t| - 1]];
    }
  }

  /** There is only one canonical numeral for a number, so `Display` writes the only one. */
  lemma CanonicalUnique(s: seq<Byte>, t: seq<Byte>)
    requires Canonical(s) && Canonical(t) && Value(s) == Value(t)
    ensures s == t
  {
    CanonicalLengths(s, t);
    CanonicalLengths(t, s);
    ValueDecides(s, t);
  }

  // ---------------------------------------------------------------------------------------------
  // Parsing

  /** How many digits `s` starts with. */
  function DigitRun(s: seq<Byte>): (k: nat)
    ensures k <= |s| && AllDigits(s[..k]) && (k < |s| ==> !IsDigit(s[k]))
  {
    if s == [] || !IsDigit(s[0]) then 0
    else
      var k := DigitRun(s[1..]);
      assert s[..1 + k] == [s[0]] + s[1..][..k];
      1 + k
  }

  /** What a string means, judged by its leading digits as a whole: too large a number is reported before
      a stray byte behind it, a stray byte only when the number before it fits. */
  function Meaning(s: seq<Byte>): Result<Amount, AmountError> {
    var k := DigitRun(s);
    ValueBound(s[..k]);
    if s == [] then Failure(Empty)
    else if Value(s[..k]) >= MODULUS then Failure(Overflow)
    else if k < |s| then Failure(NonDigit(k))
    else Success(Value(s[..k]))
  }

  lemma RunReaches(s: seq<Byte>, i: nat)
    requires i <= |s| && AllDigits(s[..i])
    ensures i <= DigitRun(s)
  {
    assert forall j :: 0 <= j < i ==> s[..i][j] == s[j];
  }

  lemma RunStops(s: seq<Byte>, i: nat)
    requires i < |s| && !IsDigit(s[i])
    ensures DigitRun(s) <= i
  {
    var k := DigitRun(s);
    assert forall j :: 0 <= j < k ==> s[..k][j] == s[j];
  }

  lemma {:induction false} ValueGrows(s: seq<Byte>, i: nat, k: nat)
    requires i <= k <= |s| && AllDigits(s[..k])
    ensures Value(s[..i]) <= Value(s[..k])
    decreases k
  {
    if i < k {
      assert s[..k][..k - 1] == s[..k - 1];
      assert IsDigit(s[..k][k - 1]);
      assert forall j :: 0 <= j < k - 1 ==> s[..k - 1][j] == s[..k][j];
      ValueBound(s[..k - 1]);
      ValueGrows(s, i, k - 1);
    }
  }

  /** The left-to-right loop with its early exits reports exactly that meaning. */
  method FromStr(s: seq<Byte>) returns (r: Result<Amount, AmountError>)
    ensures r == Meaning(s)
  {
    if s == [] {
      return Failure(Empty);
    }
    var acc := 0;
    var offset := 0;
    while offset < |s|
      invariant offset <= |s| && AllDigits(s[..offset])
      invariant acc == Value(s[..offset]) && 0 <= acc < MODULUS
    {
      RunReaches(s, offset);
      var byte := s[offset];
      if !IsDigit(byte) {
        RunStops(s, offset);
        return Failure(NonDigit(offset));
      }
      assert s[..offset + 1] == s[..offset] + [byte];
      assert s[..offset + 1][..offset] == s[..offset];
      RunReaches(s, offset + 1);
      ValueGrows(s, offset + 1, DigitRun(s));
      var scaled := acc * 10;
      if scaled >= MODULUS {
        return Failure(Overflow);
      }
      acc := scaled + Digit(byte);
      if acc >= MODULUS {
        return Failure(Overflow);
      }
      offset := offset + 1;
    }
    assert s[..|s|] == s;
    RunReaches(s, |s|);
    return Success(acc);
  }

  /** Exactly when each failure is reported: for no text at all; for the first byte that is no digit, if the
      digits before it fit; and for digits at the front, however many, that denote too large a number. */
  lemma RefusedIff(s: seq<Byte>)
    ensures Meaning(s) == Failure(Empty) <==> s == []
    ensures forall k: nat :: Meaning(s) == Failure(NonDigit(k)) <==>
      k < |s| && AllDigits(s[..k]) && !IsDigit(s[k]) && Value(s[..k]) < MODULUS
    ensures Meaning(s) == Failure(Overflow) <==>
      exists k: nat :: k <= |s| && AllDigits(s[..k]) && Value(s[..k]) >= MODULUS
  {
    var run := DigitRun(s);
    forall k: nat | k <= |s| && AllDigits(s[..k])
      ensures k <= run && Value(s[..k]) <= Value(s[..run])
    {
      RunReaches(s, k);
      ValueGrows(s, k, run);
    }
    forall k: nat | k < |s| && !IsDigit(s[k])
      ensures run <= k
    {
      RunStops(s, k);
    }
  }

  /** A string parses to `a` if and only if it is one or more digits denoting `a`. */
  lemma ParsesIff(s: seq<Byte>, a: Amount)
    ensures Meaning(s) == Success(a) <==> s != [] && AllDigits(s) && Value(s) == a
  {
    assert s[..|s|] == s;
    if AllDigits(s) {
      RunReaches(s, |s|);
    }
  }

  /** Text written by `Display` reads back as the same amount. */
  lemma DisplayParses(text: seq<Byte>, a: Amount)
    requires Canonical(text) && Value(text) == a
    ensures Meaning(text) == Success(a)
  {
    ParsesIff(text, a);
  }

  /** Text that parses is what `Display` writes for the result, if and only if it has no spare zero in
      front. */
  lemma ReprintsIff(s: seq<Byte>, a: Amount, text: seq<Byte>)
    requires Meaning(s) == Success(a)
    requires Canonical(text) && Value(text) == a
    ensures s == text <==> |s| == 1 || s[0] != 48
  {
    ParsesIff(s, a);
    if |s| == 1 || s[0] != 48 {
      CanonicalUnique(s, text);
    }
  }

  // ---------------------------------------------------------------------------------------------
  // Bytes

  function ToBe(a: Amount): (b: seq<Byte>)
    ensures |b| == AMOUNT_BYTES
  {
    BigEndian(a, AMOUNT_BYTES)
  }

  function ToLe(a: Amount): (b: seq<Byte>)
    ensures |b| == AMOUNT_BYTES
  {
    Flipped(ToBe(a))
  }

  function FromBe(b: seq<Byte>): Amount
    requires |b| == AMOUNT_BYTES
  {
    Pow256Values();
    FromBigEndian(b)
  }

  function FromLe(b: seq<Byte>): Amount
    requires |b| == AMOUNT_BYTES
  {
    FromBe(Flipped(b))
  }

  function FromBeSlice(b: seq<Byte>): Result<Amount, AmountError> {
    if |b| == AMOUNT_BYTES then Success(FromBe(b)) else Failure(WrongLength(|b|))
  }

  lemma FlippedTwice(buffer: seq<Byte>)
    ensures Flipped(Flipped(buffer)) == buffer
  {
  }

  /** Both fixed-width encodings are one-to-one and onto the 32-byte strings. */
  lemma BytesRoundTrip(a: Amount, b: seq<Byte>)
    requires |b| == AMOUNT_BYTES
    ensures FromBe(ToBe(a)) == a && ToBe(FromBe(b)) == b
    ensures FromLe(ToLe(a)) == a && ToLe(FromLe(b)) == b
  {
    Pow256Values();
    EncodeDecode(a, AMOUNT_BYTES);
    DecodeEncode(b);
    FlippedTwice(ToBe(a));
    FlippedTwice(b);
    DecodeEncode(Flipped(b));
  }

  /** Byte `k` of the little-endian encoding is the digit of weight 256^k; the big-endian one is its
      mirror image. */
  lemma BytesAreDigits(a: Amount, k: nat)
    requires k < AMOUNT_BYTES
    ensures ToLe(a)[k] == Digit256(a, k) == ToBe(a)[31 - k]
  {
    BigEndianDigit(a, AMOUNT_BYTES, 31 - k);
  }

  /** A slice decodes if and only if it is some amount's encoding; only its length can be wrong. */
  lemma SliceDecodesIff(b: seq<Byte>, a: Amount)
    ensures FromBeSlice(b) == Success(a) <==> b == ToBe(a)
    ensures FromBeSlice(b) == Failure(WrongLength(|b|)) <==> |b| != 32
  {
    if |b| == AMOUNT_BYTES {
      BytesRoundTrip(a, b);
    }
  }

  /** Byte-wise order, as a blob column compares. */
  ghost predicate Precedes(a: seq<Byte>, b: seq<Byte>) {
    exists k :: 0 <= k < |a| && k < |b| && a[..k] == b[..k] && a[k] < b[k]
  }

  lemma {:induction false} FirstDifference(a: seq<Byte>, b: seq<Byte>, i: nat) returns (k: nat)
    requires |a| == |b| && a != b && i <= |a| && a[..i] == b[..i]
    ensures k < |a| && a[..k] == b[..k] && a[k] != b[k]
    decreases |a| - i
  {
    assert a == a[..|a|] && b == b[..|b|];
    if a[i] != b[i] {
      k := i;
    } else {
      assert a[..i + 1] == a[..i] + [a[i]] && b[..i + 1] == b[..i] + [b[i]];
      k := FirstDifference(a, b, i + 1);
    }
  }

  /** Big-endian encodings sort as the numbers do. */
  lemma OrderAgrees(a: Amount, b: Amount)
    ensures a < b <==> Precedes(ToBe(a), ToBe(b))
  {
    var x, y := ToBe(a), ToBe(b);
    BytesRoundTrip(a, x);
    BytesRoundTrip(b, y);
    if Precedes(x, y) {
      var k :| 0 <= k < |x| && k < |y| && x[..k] == y[..k] && x[k] < y[k];
      FirstDifferenceDecides(x, y, k);
    } else if a < b {
      var k := FirstDifference(x, y, 0);
      FirstDifferenceDecides(y, x, k);
    }
  }

  /** Looks at the high half byte by byte and rebuilds the low half. */
  function ToU128(a: Amount): Option<nat> {
    var bytes := ToBe(a);
    if exists i :: 0 <= i < 16 && bytes[i] != 0 then None else Some(FromBigEndian(bytes[16..]))
  }

  /** The narrowing succeeds exactly on values that fit, and never changes them. */
  lemma NarrowsIff(a: Amount)
    ensures ToU128(a) == if a < U128_MODULUS then Some(a) else None
  {
    var bytes := ToBe(a);
    var high, low := bytes[..16], bytes[16..];
    Pow256Values();
    EncodeDecode(a, AMOUNT_BYTES);
    assert bytes == high + low;
    FromBigEndianConcat(high, low);
    ZeroIffAllZero(high);
    assert forall i :: 0 <= i < 16 ==> high[i] == bytes[i];
    if FromBigEndian(high) > 0 {
      assert FromBigEndian(high) * Pow256(16) >= Pow256(16);
    }
  }
}
