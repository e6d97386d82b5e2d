/** What starts a token of the masker and where it ends, said without its scanners: by the strings a
    regular expression stands for, by first occurrences, by escaped delimiters and by balanced marks. */
module MaskingTokens {

  import opened Machine
  import opened Masking

  // ---------------------------------------------------------------------------------------------
  // First occurrences

  /** `k` is the first place at or after `from` where `p` stands. */
  ghost predicate FirstAt(text: string, p: string, from: nat, k: nat) {
    from <= k && StartsWith(text, p, k) && forall j: nat :: from <= j < k ==> !StartsWith(text, p, j)
  }

  /** `end` lies `past` characters after the first `p` at or after `from`, or at the end of the text. */
  ghost predicate EndsAtFirst(text: string, p: string, from: nat, past: nat, end: nat) {
    || (end >= past && FirstAt(text, p, from, end - past))
    || (end == |text| && forall k: nat :: from <= k ==> !StartsWith(text, p, k))
  }

  lemma FindEnds(text: string, p: string, from: nat, past: nat, end: nat)
    requires var f := Find(text, p, from); end == if f.None? then |text| else f.value + past
    ensures EndsAtFirst(text, p, from, past, end)
  {
    FindIsFirst(text, p, from);
  }

  // ---------------------------------------------------------------------------------------------
  // Raw strings

  function Hashes(n: nat): (h: string)
    ensures |h| == n && forall k :: 0 <= k < n ==> h[k] == '#'
  {
    seq(n, _ => '#')
  }

  ghost predicate HashRun(text: string, from: nat, n: nat) {
    from + n <= |text| && forall k :: from <= k < from + n ==> text[k] == '#'
  }

  /** The opener of a raw string stands at `i` and does not continue a word: `b`, `c` or nothing, then `r`,
      `n` hashes and a quote. */
  ghost predicate OpensRaw(text: string, i: nat, skip: nat, n: nat) {
    && (skip == 0 || (skip == 1 && (At(text, i, 'b') || At(text, i, 'c'))))
    && At(text, i + skip, 'r') && HashRun(text, i + skip + 1, n) && At(text, i + skip + 1 + n, '\"')
    && (0 < i <= |text| ==> !IsWord(text[i - 1]))
  }

  lemma {:induction false} HashesEnd(text: string, i: nat, n: nat)
    requires HashRun(text, i, n) && !At(text, i + n, '#')
    ensures SkipHashes(text, i) == i + n
    decreases n
  {
    if n > 0 {
      HashesEnd(text, i + 1, n - 1);
    }
  }

  /** The matcher finds an opener if and only if one stands there, and finds its quote. */
  lemma RawOpenIff(text: string, i: nat, skip: nat, n: nat)
    ensures OpensRaw(text, i, skip, n) ==> RawOpen(text, i) == Some(i + skip + 1 + n)
  {
    if OpensRaw(text, i, skip, n) {
      HashesEnd(text, i + skip + 1, n);
    }
  }

  lemma RawOpenFound(text: string, i: nat) returns (skip: nat, n: nat)
    requires RawOpen(text, i).Some?
    ensures OpensRaw(text, i, skip, n)
  {
    skip := if At(text, i, 'b') || At(text, i, 'c') then 1 else 0;
    n := RawOpen(text, i).value - (i + skip + 1);
    forall k | i + skip + 1 <= k < i + skip + 1 + n
      ensures text[k] == '#'
    {
      assert At(text, k, '#');
    }
  }

  lemma CloserIs(text: string, from: nat, n: nat)
    requires HashRun(text, from, n)
    ensures text[from..from + n] == Hashes(n)
  {
  }

  lemma RawEndIs(text: string, i: nat, skip: nat, n: nat, closer: string)
    requires OpensRaw(text, i, skip, n) && closer == "\"" + Hashes(n)
    ensures RawEnd(text, i, i + skip + 1 + n) ==
      var f := Find(text, closer, i + skip + 2 + n);
      if f.None? then |text| else f.value + (1 + n)
  {
    CloserIs(text, i + skip + 1, n);
  }

  /** The raw string ends with the first quote that is followed by as many hashes as opened it. */
  lemma RawEndMeans(text: string, i: nat, skip: nat, n: nat, closer: string)
    requires OpensRaw(text, i, skip, n) && closer == "\"" + Hashes(n)
    ensures EndsAtFirst(text, closer, i + skip + 2 + n, 1 + n, RawEnd(text, i, i + skip + 1 + n))
  {
    RawEndIs(text, i, skip, n, closer);
    FindEnds(text, closer, i + skip + 2 + n, 1 + n, RawEnd(text, i, i + skip + 1 + n));
  }

  // ---------------------------------------------------------------------------------------------
  // Character literals

  /** What may stand between the quotes: one plain character, or one escape. */
  predicate LiteralBody(b: string) {
    || (|b| == 1 && b[0] != '\\' && b[0] != '\'')
    || (|b| == 2 && b[0] == '\\' && b[1] != '\n')
    || (|b| == 4 && b[0] == '\\' && b[1] == 'x' && IsHex(b[2]) && IsHex(b[3]))
    || (|b| >= 5 && b[0] == '\\' && b[1] == 'u' && b[2] == '{' && b[|b| - 1] == '}'
        && forall k :: 3 <= k < |b| - 1 ==> IsHex(b[k]) || b[k] == '_')
  }

  /** A body at `i` and its closing quote end at `end`. */
  ghost predicate QuotedBody(text: string, i: nat, end: nat) {
    i < end <= |text| && LiteralBody(text[i..end - 1]) && text[end - 1] == '\''
  }

  lemma {:induction false} DigitsEnd(text: string, i: nat, e: nat)
    requires i <= e < |text| && !IsHex(text[e]) && text[e] != '_'
    requires forall k :: i <= k < e ==> IsHex(text[k]) || text[k] == '_'
    ensures SkipUnicodeDigits(text, i) == e
    decreases e - i
  {
    if i < e {
      DigitsEnd(text, i + 1, e);
    }
  }

  lemma RestIsBody(text: string, i: nat)
    requires LiteralRest(text, i).Some?
    ensures QuotedBody(text, i, LiteralRest(text, i).value)
  {
    var b := text[i..LiteralRest(text, i).value - 1];
    assert forall k :: 0 <= k < |b| ==> b[k] == text[i + k];
  }

  lemma BodyIsRest(text: string, i: nat, end: nat)
    requires QuotedBody(text, i, end)
    ensures LiteralRest(text, i) == Some(end)
  {
    var b := text[i..end - 1];
    assert forall k :: 0 <= k < |b| ==> b[k] == text[i + k];
    if |b| >= 5 {
      assert forall k :: i + 3 <= k < end - 2 ==> text[k] == b[k - i];
      DigitsEnd(text, i + 3, end - 2);
    }
  }

  /** A character literal at `i`: Rust's may be a byte literal, Lean's may not follow a word or a quote. */
  ghost predicate Literal(kind: CharLiteral, text: string, i: nat, end: nat) {
    match kind
    case NoCharLiteral => false
    case RustChar =>
      || (StartsWith(text, "b\'", i) && QuotedBody(text, i + 2, end))
      || (StartsWith(text, "\'", i) && QuotedBody(text, i + 1, end))
    case LeanChar =>
      && StartsWith(text, "\'", i) && QuotedBody(text, i + 1, end)
      && (i > 0 ==> !IsWord(text[i - 1]) && text[i - 1] != '\'')
  }

  /** The matcher finds a literal if and only if one is spelled out there, and ends where it ends. */
  lemma CharEndIff(kind: CharLiteral, text: string, i: nat, end: nat)
    requires i < |text|
    ensures CharEnd(kind, text, i) == Some(end) <==> Literal(kind, text, i, end)
  {
    QuoteAt(text, i);
    if LiteralRest(text, i + 1).Some? {
      RestIsBody(text, i + 1);
    }
    if LiteralRest(text, i + 2).Some? {
      RestIsBody(text, i + 2);
    }
    if QuotedBody(text, i + 1, end) {
      BodyIsRest(text, i + 1, end);
    }
    if QuotedBody(text, i + 2, end) {
      BodyIsRest(text, i + 2, end);
    }
  }

  lemma QuoteAt(text: string, i: nat)
    requires i < |text|
    ensures StartsWith(text, "\'", i) <==> text[i] == '\''
    ensures StartsWith(text, "b\'", i) <==> text[i] == 'b' && i + 1 < |text| && text[i + 1] == '\''
  {
    assert text[i..i + 1] == [text[i]];
    if i + 2 <= |text| {
      assert text[i..i + 2] == [text[i], text[i + 1]];
    }
  }

  // ---------------------------------------------------------------------------------------------
  // Tokens

  /** The kinds of token in the order in which the masker looks for them. */
  ghost predicate LineAt(syn: Syntax, text: string, i: nat) {
    syn.line.Some? && StartsWith(text, syn.line.value, i)
  }

  ghost predicate BlockAt(syn: Syntax, text: string, i: nat) {
    !LineAt(syn, text, i) && StartsWith(text, syn.blockOpen, i)
  }

  ghost predicate RawAt(syn: Syntax, text: string, i: nat, skip: nat, n: nat) {
    !LineAt(syn, text, i) && !StartsWith(text, syn.blockOpen, i) && syn.rawStrings && OpensRaw(text, i, skip, n)
  }

  /** None of the three. */
  ghost predicate OtherAt(syn: Syntax, text: string, i: nat) {
    && !LineAt(syn, text, i) && !StartsWith(text, syn.blockOpen, i)
    && forall skip: nat, n: nat :: !RawAt(syn, text, i, skip, n)
  }

  lemma LineMeans(syn: Syntax, text: string, i: nat)
    requires WellFormed(syn) && i < |text| && LineAt(syn, text, i)
    ensures TokenEnd(syn, text, i).Some? && EndsAtFirst(text, "\n", i, 0, TokenEnd(syn, text, i).value)
  {
    FindEnds(text, "\n", i, 0, TokenEnd(syn, text, i).value);
  }

  lemma BlockMeans(syn: Syntax, text: string, i: nat)
    requires WellFormed(syn) && i < |text| && BlockAt(syn, text, i)
    ensures TokenEnd(syn, text, i).Some? && BlockEnds(text, syn, i + |syn.blockOpen|, TokenEnd(syn, text, i).value)
  {
    ScanBlockEnds(text, syn, i + |syn.blockOpen|, [], i + |syn.blockOpen|, 1);
  }

  lemma RawMeans(syn: Syntax, text: string, i: nat, skip: nat, n: nat)
    requires WellFormed(syn) && i < |text| && RawAt(syn, text, i, skip, n)
    ensures TokenEnd(syn, text, i).Some?
    ensures EndsAtFirst(text, "\"" + Hashes(n), i + skip + 2 + n, 1 + n, TokenEnd(syn, text, i).value)
  {
    RawOpenIff(text, i, skip, n);
    RawEndMeans(text, i, skip, n, "\"" + Hashes(n));
  }

  lemma OtherMeans(syn: Syntax, text: string, i: nat)
    requires WellFormed(syn) && i < |text| && OtherAt(syn, text, i)
    ensures TokenEnd(syn, text, i) ==
      if CharEnd(syn.charLiteral, text, i).Some? then CharEnd(syn.charLiteral, text, i)
      else if text[i] in syn.delims then Some(ScanString(text, text[i], i + 1))
      else None
  {
    if syn.rawStrings && RawOpen(text, i).Some? {
      var skip, n := RawOpenFound(text, i);
      assert RawAt(syn, text, i, skip, n);
    }
  }

  /** For every text and every position that opens no comment and no raw string: the token found there is a
      literal that is spelled out there, or else a string, or else none. */
  lemma TokenMeans(syn: Syntax, text: string, i: nat)
    requires WellFormed(syn) && i < |text| && OtherAt(syn, text, i)
    ensures var t := TokenEnd(syn, text, i);
      if exists end: nat :: Literal(syn.charLiteral, text, i, end) then
        t.Some? && Literal(syn.charLiteral, text, i, t.value)
      else if text[i] in syn.delims then t.Some? && StringEnds(text, text[i], i + 1, t.value)
      else t.None?
  {
    OtherMeans(syn, text, i);
    var c := CharEnd(syn.charLiteral, text, i);
    if c.Some? {
      CharEndIff(syn.charLiteral, text, i, c.value);
    } else if end: nat :| Literal(syn.charLiteral, text, i, end) {
      CharEndIff(syn.charLiteral, text, i, end);
    }
    ScanStringEnds(text, text[i], i + 1, i + 1);
  }

  // ---------------------------------------------------------------------------------------------
  // The three languages

  /** The same text is one comment where comments nest and a comment followed by code where they do not. */
  lemma NestingTellsApart()
    ensures TokenEnd(RUST, "/*/**/x", 0) == Some(7)
    ensures TokenEnd(SOLIDITY, "/*/**/x", 0) == Some(6)
    ensures TokenEnd(LEAN, "/-/--/x", 0) == Some(7)
  {
    var text := "/*/**/x";
    assert text[0..2] == "/*" && text[2..4] == "/*" && text[3..5] == "**" && text[4..6] == "*/" && text[5..7] == "/x";
    TwoOpen(RUST, text);
    var lean := "/-/--/x";
    assert lean[0..2] == "/-" && lean[2..4] == "/-" && lean[4..6] == "-/" && lean[5..7] == "/x";
    TwoOpen(LEAN, lean);
    assert ScanBlock(text, SOLIDITY, 4, 1) == 6;
    assert ScanBlock(text, SOLIDITY, 2, 1) == 6;
  }

  lemma TwoOpen(syn: Syntax, text: string)
    requires |text| == 7 && syn.nested && |syn.blockOpen| == |syn.blockClose| == 2 && syn.blockOpen != syn.blockClose
    requires text[0..2] == text[2..4] == syn.blockOpen && text[4..6] == syn.blockClose && text[5..7] != syn.blockClose
    ensures ScanBlock(text, syn, 2, 1) == 7
  {
    assert ScanBlock(text, syn, 7, 1) == 7;
    assert ScanBlock(text, syn, 6, 1) == 7;
    assert ScanBlock(text, syn, 4, 2) == 7;
  }

  /** A backslash escapes a quote in a string, but not in a raw string, which only Rust has. */
  lemma EscapesTellApart()
    ensures TokenEnd(RUST, "r\"\\\"x", 0) == Some(4)
    ensures TokenEnd(RUST, "\"\\\"x", 0) == Some(4) == TokenEnd(LEAN, "\"\\\"x", 0)
    ensures TokenEnd(LEAN, "r\"\\\"x", 0) == None
  {
    var text := "r\"\\\"x";
    assert RawOpen(text, 0) == Some(1);
    assert text[1..1] == "" && "\"" + text[1..1] == "\"";
    assert Find(text, "\"", 2) == Some(3) by {
      assert text[2..3] == "\\" && text[3..4] == "\"";
    }
  }

  /** A quote opens a string in Solidity and a literal in Lean and Rust, but in Lean not after a word. */
  lemma QuotesTellApart()
    ensures TokenEnd(SOLIDITY, "\'ab\'x", 0) == Some(4) && TokenEnd(RUST, "\'ab\'x", 0) == None
    ensures TokenEnd(LEAN, "a\'b\'x", 1) == None && TokenEnd(RUST, "a\'b\'x", 1) == Some(4)
  {
    var text := "\'ab\'x";
    assert ScanString(text, '\'', 3) == 4;
    assert ScanString(text, '\'', 1) == 4;
    assert LiteralRest(text, 1) == None;
    assert RawOpen(text, 0) == None;
    var word := "a\'b\'x";
    assert PlainChar(word, 2) && !HexEscape(word, 2) && !UnicodeEscape(word, 2) && !AnyEscape(word, 2);
    assert LiteralRest(word, 2) == Some(4);
    assert RawOpen(word, 1) == None;
  }

  /** Each language has its own line comments. */
  lemma LinesTellApart()
    ensures TokenEnd(LEAN, "--\nx", 0) == Some(2) == TokenEnd(RUST, "//\nx", 0) == TokenEnd(SOLIDITY, "//\nx", 0)
    ensures TokenEnd(LEAN, "//\nx", 0) == None && TokenEnd(RUST, "--\nx", 0) == None
  {
    assert "--\nx"[0..2] == "--" && "//\nx"[0..2] == "//";
    assert Find("--\nx", "\n", 0) == Some(2) && Find("//\nx", "\n", 0) == Some(2) by {
      assert "--\nx"[2..3] == "\n" && "--\nx"[1..2] == "-" && "--\nx"[0..1] == "-";
      assert "//\nx"[2..3] == "\n" && "//\nx"[1..2] == "/" && "//\nx"[0..1] == "/";
    }
  }
}
