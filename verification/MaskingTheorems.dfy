/** What masking keeps, and when masking twice is the same as masking once. */
module MaskingTheorems {

  import opened Machine
  import opened Masking

  function Masked(syn: Syntax, text: string): (m: string)
    requires WellFormed(syn)
    ensures |m| == |text|
  {
    Mask(syn, text, 0)
  }

  function BlankChar(c: char): char {
    if c == '\n' then '\n' else ' '
  }

  /** Whether the scan that stands at `start` copies position `k` as code. */
  predicate CodeAt(syn: Syntax, text: string, start: nat, k: nat)
    requires WellFormed(syn)
    requires start <= k < |text|
    decreases |text| - start
  {
    var t := TokenEnd(syn, text, start);
    if t.Some? then t.value <= k && CodeAt(syn, text, t.value, k)
    else start == k || CodeAt(syn, text, start + 1, k)
  }

  // ---------------------------------------------------------------------------------------------
  // Position by position

  lemma {:induction false} MaskAt(syn: Syntax, text: string, start: nat, k: nat)
    requires WellFormed(syn)
    requires start <= k < |text|
    ensures Mask(syn, text, start)[k - start] == if CodeAt(syn, text, start, k) then text[k] else BlankChar(text[k])
    decreases |text| - start
  {
    var t := TokenEnd(syn, text, start);
    if t.Some? {
      var blank, rest := Blank(text[start..t.value]), Mask(syn, text, t.value);
      assert Mask(syn, text, start) == blank + rest;
      if t.value <= k {
        MaskAt(syn, text, t.value, k);
        assert (blank + rest)[k - start] == rest[k - t.value];
      } else {
        assert (blank + rest)[k - start] == blank[k - start];
        assert text[start..t.value][k - start] == text[k];
      }
    } else if start < k {
      MaskAt(syn, text, start + 1, k);
    }
  }

  /** Masking keeps the length, every newline, and every character it does not turn into a space. */
  lemma MaskKeepsLayout(syn: Syntax, text: string)
    requires WellFormed(syn)
    ensures |Masked(syn, text)| == |text|
    ensures forall k :: 0 <= k < |text| ==> (Masked(syn, text)[k] == '\n' <==> text[k] == '\n')
    ensures forall k :: 0 <= k < |text| ==> Masked(syn, text)[k] == text[k] || Masked(syn, text)[k] == ' '
  {
    forall k | 0 <= k < |text|
      ensures (Masked(syn, text)[k] == '\n' <==> text[k] == '\n')
      ensures Masked(syn, text)[k] == text[k] || Masked(syn, text)[k] == ' '
    {
      MaskAt(syn, text, 0, k);
    }
  }

  lemma {:induction false} CodeHasNoToken(syn: Syntax, text: string, start: nat, k: nat)
    requires WellFormed(syn)
    requires start <= k < |text|
    requires CodeAt(syn, text, start, k)
    ensures TokenEnd(syn, text, k).None?
    decreases |text| - start
  {
    var t := TokenEnd(syn, text, start);
    if t.Some? {
      CodeHasNoToken(syn, text, t.value, k);
    } else if start < k {
      CodeHasNoToken(syn, text, start + 1, k);
    }
  }

  /** A token is at least two characters long unless the text ends. */
  lemma TokensAreLong(syn: Syntax, text: string, i: nat)
    requires WellFormed(syn)
    requires i < |text| && TokenEnd(syn, text, i).Some?
    ensures TokenEnd(syn, text, i).value >= i + 2 || TokenEnd(syn, text, i).value == |text|
  {
    if StartsLine(syn, text, i) {
      LineCommentEnd(syn, text, i);
    }
  }

  /** After code, masked characters come at least in pairs. */
  lemma {:induction false} MaskedInPairs(syn: Syntax, text: string, start: nat, k: nat)
    requires WellFormed(syn)
    requires start <= k && k + 2 < |text|
    requires CodeAt(syn, text, start, k) && !CodeAt(syn, text, start, k + 1)
    ensures !CodeAt(syn, text, start, k + 2)
    decreases |text| - start
  {
    var t := TokenEnd(syn, text, start);
    if t.Some? {
      MaskedInPairs(syn, text, t.value, k);
    } else if start < k {
      MaskedInPairs(syn, text, start + 1, k);
    } else {
      if TokenEnd(syn, text, k + 1).Some? {
        TokensAreLong(syn, text, k + 1);
      }
    }
  }

  // ---------------------------------------------------------------------------------------------
  // No opener survives

  lemma NonBlankIsCode(syn: Syntax, text: string, k: nat)
    requires WellFormed(syn)
    requires k < |text|
    requires Masked(syn, text)[k] != ' ' && Masked(syn, text)[k] != '\n'
    ensures CodeAt(syn, text, 0, k) && Masked(syn, text)[k] == text[k]
    ensures TokenEnd(syn, text, k).None?
  {
    MaskAt(syn, text, 0, k);
    CodeHasNoToken(syn, text, 0, k);
  }

  lemma OpenerWasThere(syn: Syntax, text: string, p: string, k: nat)
    requires WellFormed(syn)
    requires p != [] && NoBlanks(p)
    requires StartsWith(Masked(syn, text), p, k)
    ensures StartsWith(text, p, k) && TokenEnd(syn, text, k).None?
  {
    var m := Masked(syn, text);
    forall j | 0 <= j < |p|
      ensures text[k..k + |p|][j] == p[j]
    {
      assert m[k..k + |p|][j] == m[k + j];
      NonBlankIsCode(syn, text, k + j);
    }
    assert m[k..k + |p|][0] == m[k];
    NonBlankIsCode(syn, text, k);
  }

  lemma NoDelimiterSurvives(syn: Syntax, text: string, k: nat)
    requires WellFormed(syn)
    requires k < |text|
    ensures Masked(syn, text)[k] !in syn.delims
  {
    if Masked(syn, text)[k] in syn.delims {
      NonBlankIsCode(syn, text, k);
    }
  }

  /** Only a character literal can be found in masked text. */
  lemma OnlyLiteralsRemain(syn: Syntax, text: string, k: nat)
    requires WellFormed(syn)
    requires k < |text|
    ensures TokenEnd(syn, Masked(syn, text), k) == CharEnd(syn.charLiteral, Masked(syn, text), k)
  {
    var m := Masked(syn, text);
    if StartsLine(syn, m, k) {
      OpenerWasThere(syn, text, syn.line.value, k);
    }
    if StartsWith(m, syn.blockOpen, k) {
      OpenerWasThere(syn, text, syn.blockOpen, k);
    }
    if syn.rawStrings && RawOpen(m, k).Some? {
      NoDelimiterSurvives(syn, text, RawOpen(m, k).value);
    }
    NoDelimiterSurvives(syn, text, k);
  }

  // ---------------------------------------------------------------------------------------------
  // Character literals in masked text

  ghost predicate AllCode(syn: Syntax, text: string, i: nat, j: nat)
    requires WellFormed(syn)
  {
    i <= j <= |text| && forall k :: i <= k < j ==> CodeAt(syn, text, 0, k)
  }

  ghost predicate Agree(a: string, b: string, i: nat, j: nat) {
    |a| == |b| && i <= j <= |a| && forall k :: i <= k < j ==> a[k] == b[k]
  }

  lemma CodeAgrees(syn: Syntax, text: string, i: nat, j: nat)
    requires WellFormed(syn)
    requires AllCode(syn, text, i, j)
    ensures Agree(text, Masked(syn, text), i, j)
  {
    forall k | i <= k < j
      ensures text[k] == Masked(syn, text)[k]
    {
      MaskAt(syn, text, 0, k);
    }
  }

  lemma {:induction false} DigitsAgree(a: string, b: string, i: nat, j: nat)
    requires Agree(a, b, i, j + 1)
    requires SkipUnicodeDigits(a, i) == j
    ensures SkipUnicodeDigits(b, i) == j
    decreases j - i
  {
    if i < j {
      DigitsAgree(a, b, i + 1, j);
    }
  }

  /** Whether a literal closes depends only on the characters it spans. */
  lemma LiteralRestAgrees(a: string, b: string, i: nat)
    requires LiteralRest(a, i).Some?
    requires Agree(a, b, i, LiteralRest(a, i).value)
    ensures LiteralRest(b, i) == LiteralRest(a, i)
  {
    if UnicodeEscape(a, i) && !HexEscape(a, i) {
      DigitsAgree(a, b, i + 3, SkipUnicodeDigits(a, i + 3));
    }
  }

  lemma NonBlanksAreCode(syn: Syntax, text: string, i: nat, j: nat)
    requires WellFormed(syn)
    requires i <= j <= |text|
    requires forall k :: i <= k < j ==> Masked(syn, text)[k] != ' ' && Masked(syn, text)[k] != '\n'
    ensures AllCode(syn, text, i, j)
  {
    forall k | i <= k < j
      ensures CodeAt(syn, text, 0, k)
    {
      NonBlankIsCode(syn, text, k);
    }
  }

  /** A literal in masked text is code throughout: a lone masked character cannot stand between an
      opening and a closing quote. */
  lemma LiteralIsCode(syn: Syntax, text: string, i: nat)
    requires WellFormed(syn)
    requires 0 < i && CodeAt'(syn, text, i - 1)
    requires LiteralRest(Masked(syn, text), i).Some?
    ensures AllCode(syn, text, i, LiteralRest(Masked(syn, text), i).value)
  {
    var m := Masked(syn, text);
    if HexEscape(m, i) {
      NonBlanksAreCode(syn, text, i, i + 5);
    } else if UnicodeEscape(m, i) {
      NonBlanksAreCode(syn, text, i, SkipUnicodeDigits(m, i + 3) + 2);
    } else if AnyEscape(m, i) {
      BetweenCode(syn, text, i);
    } else {
      BetweenCode(syn, text, i - 1);
    }
  }

  predicate CodeAt'(syn: Syntax, text: string, k: nat)
    requires WellFormed(syn)
  {
    k < |text| && CodeAt(syn, text, 0, k)
  }

  lemma BetweenCode(syn: Syntax, text: string, i: nat)
    requires WellFormed(syn)
    requires i + 2 < |text|
    requires CodeAt'(syn, text, i) || (Masked(syn, text)[i] != ' ' && Masked(syn, text)[i] != '\n')
    requires Masked(syn, text)[i + 2] == '\''
    ensures AllCode(syn, text, i, i + 3)
  {
    if Masked(syn, text)[i] != ' ' && Masked(syn, text)[i] != '\n' {
      NonBlankIsCode(syn, text, i);
    }
    NonBlankIsCode(syn, text, i + 2);
    if !CodeAt(syn, text, 0, i + 1) {
      MaskedInPairs(syn, text, 0, i);
    }
  }

  /** Where the literal's opening quote is. */
  function QuoteAt(kind: CharLiteral, text: string, k: nat): nat {
    if kind.RustChar? && At(text, k, 'b') && At(text, k + 1, '\'') then k + 1 else k
  }

  lemma LiteralSurvives(syn: Syntax, text: string, k: nat)
    requires WellFormed(syn)
    requires k < |text|
    requires LiteralAt(syn.charLiteral, Masked(syn, text), k).Some?
    ensures LiteralAt(syn.charLiteral, text, k) == LiteralAt(syn.charLiteral, Masked(syn, text), k)
    ensures AllCode(syn, text, k, LiteralAt(syn.charLiteral, text, k).value)
  {
    var q := QuoteAt(syn.charLiteral, Masked(syn, text), k);
    NonBlankIsCode(syn, text, k);
    NonBlankIsCode(syn, text, q);
    RestSurvives(syn, text, q + 1);
  }

  lemma RestSurvives(syn: Syntax, text: string, i: nat)
    requires WellFormed(syn)
    requires 0 < i && CodeAt'(syn, text, i - 1)
    requires LiteralRest(Masked(syn, text), i).Some?
    ensures LiteralRest(text, i) == LiteralRest(Masked(syn, text), i)
    ensures AllCode(syn, text, i, LiteralRest(text, i).value)
  {
    var m := Masked(syn, text);
    LiteralIsCode(syn, text, i);
    CodeAgrees(syn, text, i, LiteralRest(m, i).value);
    LiteralRestAgrees(m, text, i);
  }

  lemma LiteralCopied(syn: Syntax, text: string, k: nat)
    requires WellFormed(syn)
    requires LiteralAt(syn.charLiteral, text, k).Some?
    requires AllCode(syn, text, k, LiteralAt(syn.charLiteral, text, k).value)
    ensures LiteralAt(syn.charLiteral, Masked(syn, text), k) == LiteralAt(syn.charLiteral, text, k)
  {
    var e := LiteralAt(syn.charLiteral, text, k).value;
    CodeAgrees(syn, text, k, e);
    LiteralRestAgrees(text, Masked(syn, text), QuoteAt(syn.charLiteral, text, k) + 1);
  }

  // ---------------------------------------------------------------------------------------------
  // Masking twice

  /** A character literal that was left as code and stands right behind a masked span. */
  ghost predicate Exposed(syn: Syntax, text: string, k: nat)
    requires WellFormed(syn)
  {
    && 0 < k < |text|
    && !CodeAt(syn, text, 0, k - 1)
    && syn.charLiteral.LeanChar?
    && LiteralAt(syn.charLiteral, text, k).Some?
    && AllCode(syn, text, k, LiteralAt(syn.charLiteral, text, k).value)
  }

  /** Masked text holds a token exactly at the exposed literals. */
  lemma TokenIffExposed(syn: Syntax, text: string, k: nat)
    requires WellFormed(syn)
    requires k < |text|
    ensures TokenEnd(syn, Masked(syn, text), k).Some? <==> Exposed(syn, text, k)
  {
    var m := Masked(syn, text);
    OnlyLiteralsRemain(syn, text, k);
    if CharEnd(syn.charLiteral, m, k).Some? {
      LiteralSurvives(syn, text, k);
      CodeHasNoToken(syn, text, 0, k);
      MaskAt(syn, text, 0, k - 1);
    }
    if Exposed(syn, text, k) {
      LiteralCopied(syn, text, k);
      MaskAt(syn, text, 0, k - 1);
    }
  }

  /** With no token before it, a position is code unless a token starts right there. */
  lemma {:induction false} CodeUntilToken(syn: Syntax, m: string, i: nat, k: nat)
    requires WellFormed(syn)
    requires i <= k < |m|
    requires forall j :: i <= j < k ==> TokenEnd(syn, m, j).None?
    ensures CodeAt(syn, m, i, k) <==> TokenEnd(syn, m, k).None?
    decreases k - i
  {
    if i < k {
      CodeUntilToken(syn, m, i + 1, k);
    }
  }

  lemma NoTokensNoChange(syn: Syntax, m: string)
    requires WellFormed(syn)
    requires forall k :: 0 <= k < |m| ==> TokenEnd(syn, m, k).None?
    ensures Masked(syn, m) == m
  {
    forall k | 0 <= k < |m|
      ensures Masked(syn, m)[k] == m[k]
    {
      CodeUntilToken(syn, m, 0, k);
      MaskAt(syn, m, 0, k);
    }
  }

  lemma FirstTokenChanges(syn: Syntax, m: string, k: nat)
    requires WellFormed(syn)
    requires k < |m| && TokenEnd(syn, m, k).Some?
    requires forall j :: 0 <= j < k ==> TokenEnd(syn, m, j).None?
    requires m[k] != ' ' && m[k] != '\n'
    ensures Masked(syn, m) != m
  {
    CodeUntilToken(syn, m, 0, k);
    MaskAt(syn, m, 0, k);
  }

  /** Masking is idempotent on a text if and only if no exposed literal is left in it. */
  lemma IdempotentIff(syn: Syntax, text: string)
    requires WellFormed(syn)
    ensures Masked(syn, Masked(syn, text)) == Masked(syn, text) <==> !exists k :: Exposed(syn, text, k)
  {
    var m := Masked(syn, text);
    if k0 :| Exposed(syn, text, k0) {
      var k := LeastExposed(syn, text, k0);
      forall j | 0 <= j < k
        ensures TokenEnd(syn, m, j).None?
      {
        TokenIffExposed(syn, text, j);
      }
      TokenIffExposed(syn, text, k);
      LiteralCopied(syn, text, k);
      FirstTokenChanges(syn, m, k);
    } else {
      forall j | 0 <= j < |m|
        ensures TokenEnd(syn, m, j).None?
      {
        TokenIffExposed(syn, text, j);
      }
      NoTokensNoChange(syn, m);
    }
  }

  lemma LeastExposed(syn: Syntax, text: string, k0: nat) returns (k: nat)
    requires WellFormed(syn)
    requires Exposed(syn, text, k0)
    ensures Exposed(syn, text, k) && forall j :: 0 <= j < k ==> !Exposed(syn, text, j)
  {
    k := 0;
    while !Exposed(syn, text, k)
      invariant k <= k0
      invariant forall j :: 0 <= j < k ==> !Exposed(syn, text, j)
      decreases k0 - k
    {
      k := k + 1;
    }
  }

  /** For Solidity and Rust that is every text. */
  lemma SolidityAndRustIdempotent(text: string)
    ensures WellFormed(SOLIDITY) && WellFormed(RUST)
    ensures Masked(SOLIDITY, Masked(SOLIDITY, text)) == Masked(SOLIDITY, text)
    ensures Masked(RUST, Masked(RUST, text)) == Masked(RUST, text)
  {
    SyntaxesAreWellFormed();
    IdempotentIff(SOLIDITY, text);
    IdempotentIff(RUST, text);
  }

  const ADJACENT := "\'a\'\'b\'"

  /** For Lean it is not: of two adjacent literals the first pass masks one and the second the other. */
  lemma LeanNotIdempotent()
    ensures WellFormed(LEAN)
    ensures Masked(LEAN, Masked(LEAN, ADJACENT)) != Masked(LEAN, ADJACENT)
  {
    SyntaxesAreWellFormed();
    var t := ADJACENT;
    assert CharEnd(LeanChar, t, 0) == Some(3);
    NotAnOpener(0);
    assert TokenEnd(LEAN, t, 0) == Some(3);
    assert !CodeAt(LEAN, t, 0, 2);
    NotAnOpener(3);
    NotAnOpener(4);
    NotAnOpener(5);
    assert TokenEnd(LEAN, t, 3).None? && TokenEnd(LEAN, t, 4).None? && TokenEnd(LEAN, t, 5).None?;
    assert CodeAt(LEAN, t, 3, 3) && CodeAt(LEAN, t, 3, 4);
    assert CodeAt(LEAN, t, 5, 5) && CodeAt(LEAN, t, 4, 5) && CodeAt(LEAN, t, 3, 5);
    assert Exposed(LEAN, t, 3);
    IdempotentIff(LEAN, t);
  }

  lemma NotAnOpener(i: nat)
    requires i < |ADJACENT|
    ensures !StartsWith(ADJACENT, "--", i) && !StartsWith(ADJACENT, "/-", i) && ADJACENT[i] !in "\""
  {
    if i + 2 <= |ADJACENT| {
      assert ADJACENT[i..i + 2][0] == ADJACENT[i];
    }
  }
}
