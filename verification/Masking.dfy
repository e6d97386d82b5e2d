/** The comment and string masker of the codemap generator (scripts/regenerate_codemaps.py).

    `Scan…` functions are the character-at-a-time lexer; the consumers and `MaskSource` are the
    source's find-based loops, proved to agree with it. The three regular expressions are written out
    as matchers. */
module Masking {

  import opened Machine

  datatype CharLiteral = NoCharLiteral | RustChar | LeanChar

  datatype Syntax = Syntax(
    line: Option<string>,
    blockOpen: string,
    blockClose: string,
    nested: bool,
    delims: string,
    rawStrings: bool,
    charLiteral: CharLiteral)

  const LEAN := Syntax(Some("--"), "/-", "-/", true, "\"", false, LeanChar)
  const RUST := Syntax(Some("//"), "/*", "*/", true, "\"", true, RustChar)
  const SOLIDITY := Syntax(Some("//"), "/*", "*/", false, "\"\'", false, NoCharLiteral)

  // ---------------------------------------------------------------------------------------------
  // Searching

  predicate StartsWith(text: string, p: string, i: nat) {
    i + |p| <= |text| && text[i..i + |p|] == p
  }

  /** `text.find(p, from)` */
  function Find(text: string, p: string, from: nat): (r: Option<nat>)
    ensures r.Some? ==> from <= r.value && StartsWith(text, p, r.value)
    decreases |text| - from
  {
    if from + |p| > |text| then None
    else if StartsWith(text, p, from) then Some(from)
    else Find(text, p, from + 1)
  }

  /** It is the first occurrence. */
  lemma {:induction false} FindIsFirst(text: string, p: string, from: nat)
    ensures var r := Find(text, p, from);
            forall k :: from <= k && (r.Some? ==> k < r.value) ==> !StartsWith(text, p, k)
    decreases |text| - from
  {
    if from + |p| <= |text| && !StartsWith(text, p, from) {
      FindIsFirst(text, p, from + 1);
    }
  }

  // ---------------------------------------------------------------------------------------------
  // Character by character

  /** The end of the block comment whose inside starts at `pos`, with `depth` comments open. */
  function ScanBlock(text: string, syn: Syntax, pos: nat, depth: nat): (end: nat)
    requires syn.blockOpen != [] && syn.blockClose != []
    ensures end <= |text| && (pos <= |text| ==> pos <= end)
    decreases |text| - pos
  {
    if pos >= |text| then |text|
    else if StartsWith(text, syn.blockClose, pos) then
      if depth <= 1 then pos + |syn.blockClose| else ScanBlock(text, syn, pos + |syn.blockClose|, depth - 1)
    else if syn.nested && StartsWith(text, syn.blockOpen, pos) then
      ScanBlock(text, syn, pos + |syn.blockOpen|, depth + 1)
    else
      ScanBlock(text, syn, pos + 1, depth)
  }

  /** The end of the string literal whose inside starts at `pos`. */
  function ScanString(text: string, delim: char, pos: nat): (end: nat)
    ensures end <= |text| && (pos < |text| ==> pos < end)
    decreases |text| - pos
  {
    if pos >= |text| then |text|
    else if text[pos] == delim then pos + 1
    else if text[pos] == '\\' then ScanString(text, delim, pos + 2)
    else ScanString(text, delim, pos + 1)
  }

  lemma {:induction false} BlockSkip(text: string, syn: Syntax, pos: nat, q: nat, depth: nat)
    requires syn.blockOpen != [] && syn.blockClose != []
    requires pos <= q <= |text|
    requires forall k :: pos <= k < q ==> !StartsWith(text, syn.blockClose, k)
    requires syn.nested ==> forall k :: pos <= k < q ==> !StartsWith(text, syn.blockOpen, k)
    ensures ScanBlock(text, syn, pos, depth) == ScanBlock(text, syn, q, depth)
    decreases q - pos
  {
    if pos < q {
      BlockSkip(text, syn, pos + 1, q, depth);
    }
  }

  lemma {:induction false} BlockUnclosed(text: string, syn: Syntax, pos: nat, depth: nat)
    requires syn.blockOpen != [] && syn.blockClose != []
    requires forall k :: pos <= k ==> !StartsWith(text, syn.blockClose, k)
    ensures ScanBlock(text, syn, pos, depth) == |text|
    decreases |text| - pos
  {
    if pos < |text| {
      if syn.nested && StartsWith(text, syn.blockOpen, pos) {
        BlockUnclosed(text, syn, pos + |syn.blockOpen|, depth + 1);
      } else {
        BlockUnclosed(text, syn, pos + 1, depth);
      }
    }
  }

  /** Where a scan that stands at `pos` with `depth` comments open will end. */
  function Remaining(text: string, syn: Syntax, pos: nat, depth: nat): nat
    requires syn.blockOpen != [] && syn.blockClose != []
  {
    if depth > 0 then ScanBlock(text, syn, pos, depth) else pos
  }

  lemma NoClose(text: string, syn: Syntax, pos: nat, depth: nat)
    requires syn.blockOpen != [] && syn.blockClose != []
    requires Find(text, syn.blockClose, pos).None?
    ensures depth > 0 ==> Remaining(text, syn, pos, depth) == |text|
  {
    FindIsFirst(text, syn.blockClose, pos);
    BlockUnclosed(text, syn, pos, depth);
  }

  lemma OpenStep(text: string, syn: Syntax, pos: nat, depth: nat, open: nat, close: nat)
    requires syn.nested && syn.blockOpen != [] && syn.blockClose != []
    requires Find(text, syn.blockOpen, pos) == Some(open) && Find(text, syn.blockClose, pos) == Some(close)
    requires open < close
    ensures depth > 0 ==> Remaining(text, syn, pos, depth) == Remaining(text, syn, open + |syn.blockOpen|, depth + 1)
    ensures pos < open + |syn.blockOpen| <= |text|
  {
    FindIsFirst(text, syn.blockOpen, pos);
    FindIsFirst(text, syn.blockClose, pos);
    BlockSkip(text, syn, pos, open, depth);
    assert !StartsWith(text, syn.blockClose, open);
  }

  lemma CloseStep(text: string, syn: Syntax, pos: nat, depth: nat, close: nat)
    requires syn.blockOpen != [] && syn.blockClose != []
    requires Find(text, syn.blockClose, pos) == Some(close)
    requires syn.nested ==> Find(text, syn.blockOpen, pos).None? || Find(text, syn.blockOpen, pos).value >= close
    ensures depth > 0 ==> Remaining(text, syn, pos, depth) == Remaining(text, syn, close + |syn.blockClose|, depth - 1)
    ensures pos < close + |syn.blockClose| <= |text|
  {
    FindIsFirst(text, syn.blockOpen, pos);
    FindIsFirst(text, syn.blockClose, pos);
    BlockSkip(text, syn, pos, close, depth);
  }

  /** One round of `_consume_block`: jump past the next delimiter, or report that none is left. */
  method NextDelimiter(text: string, syn: Syntax, pos: nat, depth: nat) returns (next: Option<(nat, nat)>)
    requires syn.blockOpen != [] && syn.blockClose != [] && depth > 0
    ensures next.None? ==> Remaining(text, syn, pos, depth) == |text|
    ensures next.Some? ==>
      && pos < next.value.0 <= |text|
      && Remaining(text, syn, next.value.0, next.value.1) == Remaining(text, syn, pos, depth)
  {
    var close := Find(text, syn.blockClose, pos);
    if close.None? {
      NoClose(text, syn, pos, depth);
      return None;
    }
    if syn.nested {
      var open := Find(text, syn.blockOpen, pos);
      if open.Some? && open.value < close.value {
        OpenStep(text, syn, pos, depth, open.value, close.value);
        return Some((open.value + |syn.blockOpen|, depth + 1));
      }
    }
    CloseStep(text, syn, pos, depth, close.value);
    return Some((close.value + |syn.blockClose|, depth - 1));
  }

  // ---------------------------------------------------------------------------------------------
  // What the end of a block comment is

  /** An opening or closing delimiter inside a block comment. */
  datatype Mark = Mark(at: nat, opens: bool)

  function MarkEnd(syn: Syntax, m: Mark): nat {
    m.at + if m.opens then |syn.blockOpen| else |syn.blockClose|
  }

  /** A delimiter that counts starts at `k`; opening ones count only where comments nest. */
  predicate DelimiterAt(text: string, syn: Syntax, k: nat) {
    StartsWith(text, syn.blockClose, k) || (syn.nested && StartsWith(text, syn.blockOpen, k))
  }

  /** Where the text after the first `k` marks begins. */
  function AfterMarks(syn: Syntax, from: nat, ms: seq<Mark>, k: nat): nat
    requires k <= |ms|
  {
    if k == 0 then from else MarkEnd(syn, ms[k - 1])
  }

  /** `m` is the first delimiter at or after `low`. */
  ghost predicate NextMark(text: string, syn: Syntax, low: nat, m: Mark) {
    && low <= m.at
    && (forall q: nat :: low <= q < m.at ==> !DelimiterAt(text, syn, q))
    && DelimiterAt(text, syn, m.at)
    && (m.opens <==> !StartsWith(text, syn.blockClose, m.at))
  }

  ghost predicate MarkAt(text: string, syn: Syntax, from: nat, ms: seq<Mark>, k: nat) {
    k < |ms| && NextMark(text, syn, AfterMarks(syn, from, ms, k), ms[k])
  }

  /** The marks are the delimiters met from `from` on, in order, none overlapping the one before. */
  ghost predicate Marks(text: string, syn: Syntax, from: nat, ms: seq<Mark>) {
    forall k: nat :: k < |ms| ==> MarkAt(text, syn, from, ms, k)
  }

  /** How many comments are open after the first `k` marks, the one that is being read included. */
  function Level(ms: seq<Mark>, k: nat): int
    requires k <= |ms|
  {
    if k == 0 then 1 else Level(ms, k - 1) + if ms[k - 1].opens then 1 else -1
  }

  /** The comment ends with the mark that closes the last open comment; if the closing delimiters run out
      before that, it ends with the text. */
  ghost predicate BlockEnds(text: string, syn: Syntax, from: nat, end: nat) {
    exists ms :: BlockEndsBy(text, syn, from, ms, end)
  }

  ghost predicate BlockEndsBy(text: string, syn: Syntax, from: nat, ms: seq<Mark>, end: nat) {
    && Marks(text, syn, from, ms)
    && (forall k :: 0 <= k < |ms| ==> Level(ms, k) > 0)
    && if Level(ms, |ms|) == 0 then end == AfterMarks(syn, from, ms, |ms|)
       else
         && end == |text|
         && forall q: nat :: AfterMarks(syn, from, ms, |ms|) <= q ==> !StartsWith(text, syn.blockClose, q)
  }

  lemma {:induction false} LevelOf(ms: seq<Mark>, m: Mark, k: nat)
    requires k <= |ms|
    ensures Level(ms + [m], k) == Level(ms, k)
  {
    if k > 0 {
      LevelOf(ms, m, k - 1);
    }
  }

  lemma MarksOne(text: string, syn: Syntax, from: nat, ms: seq<Mark>, m: Mark)
    requires Marks(text, syn, from, ms)
    requires NextMark(text, syn, AfterMarks(syn, from, ms, |ms|), m)
    ensures Marks(text, syn, from, ms + [m])
  {
    forall k: nat | k < |ms + [m]|
      ensures MarkAt(text, syn, from, ms + [m], k)
    {
      assert k < |ms| ==> MarkAt(text, syn, from, ms, k);
    }
  }

  /** The marks the scanner has met so far, and that it stands past all delimiters before `pos`. */
  ghost predicate Met(text: string, syn: Syntax, from: nat, ms: seq<Mark>, pos: nat, depth: nat) {
    && Marks(text, syn, from, ms)
    && (forall k :: 0 <= k < |ms| ==> Level(ms, k) > 0) && Level(ms, |ms|) == depth
    && AfterMarks(syn, from, ms, |ms|) <= pos
    && forall q: nat :: AfterMarks(syn, from, ms, |ms|) <= q < pos ==> !DelimiterAt(text, syn, q)
  }

  lemma MeetMark(text: string, syn: Syntax, from: nat, ms: seq<Mark>, pos: nat, depth: nat)
    requires Met(text, syn, from, ms, pos, depth) && depth > 0 && DelimiterAt(text, syn, pos)
    ensures var m := Mark(pos, !StartsWith(text, syn.blockClose, pos));
            Met(text, syn, from, ms + [m], MarkEnd(syn, m), if m.opens then depth + 1 else depth - 1)
  {
    var m := Mark(pos, !StartsWith(text, syn.blockClose, pos));
    MarksOne(text, syn, from, ms, m);
    forall k | 0 <= k <= |ms|
      ensures Level(ms + [m], k) == Level(ms, k)
    {
      LevelOf(ms, m, k);
    }
  }

  lemma {:induction false} ScanBlockEnds(text: string, syn: Syntax, from: nat, ms: seq<Mark>, pos: nat, depth: nat)
    requires syn.blockOpen != [] && syn.blockClose != []
    requires Met(text, syn, from, ms, pos, depth) && depth > 0
    ensures BlockEnds(text, syn, from, ScanBlock(text, syn, pos, depth))
    decreases |text| - pos
  {
    if pos >= |text| {
      forall q: nat | AfterMarks(syn, from, ms, |ms|) <= q
        ensures !StartsWith(text, syn.blockClose, q)
      {
        assert q < pos ==> !DelimiterAt(text, syn, q);
      }
      assert BlockEndsBy(text, syn, from, ms, |text|);
    } else if DelimiterAt(text, syn, pos) {
      var m := Mark(pos, !StartsWith(text, syn.blockClose, pos));
      MeetMark(text, syn, from, ms, pos, depth);
      if m.opens {
        ScanBlockEnds(text, syn, from, ms + [m], MarkEnd(syn, m), depth + 1);
      } else if depth > 1 {
        ScanBlockEnds(text, syn, from, ms + [m], MarkEnd(syn, m), depth - 1);
      } else {
        assert BlockEndsBy(text, syn, from, ms + [m], MarkEnd(syn, m));
      }
    } else {
      ScanBlockEnds(text, syn, from, ms, pos + 1, depth);
    }
  }

  /** `_consume_block`: the find-based loop ends where the character scanner does, past the delimiter that
      closes the comment. */
  method ConsumeBlock(text: string, start: nat, syn: Syntax) returns (end: nat)
    requires syn.blockOpen != [] && syn.blockClose != []
    ensures end == ScanBlock(text, syn, start + |syn.blockOpen|, 1)
    ensures BlockEnds(text, syn, start + |syn.blockOpen|, end)
  {
    ScanBlockEnds(text, syn, start + |syn.blockOpen|, [], start + |syn.blockOpen|, 1);
    var pos := start + |syn.blockOpen|;
    var depth := 1;
    ghost var goal := Remaining(text, syn, pos, depth);
    while depth > 0
      invariant Remaining(text, syn, pos, depth) == goal
      decreases |text| - pos, depth
    {
      var next := NextDelimiter(text, syn, pos, depth);
      if next.None? {
        return |text|;
      }
      pos, depth := next.value.0, next.value.1;
    }
    return pos;
  }

  lemma {:induction false} StringSkip(text: string, delim: char, pos: nat, q: nat)
    requires pos <= q <= |text|
    requires forall k :: pos <= k < q ==> text[k] != delim && text[k] != '\\'
    ensures ScanString(text, delim, pos) == ScanString(text, delim, q)
    decreases q - pos
  {
    if pos < q {
      StringSkip(text, delim, pos + 1, q);
    }
  }

  lemma {:induction false} StringUnclosed(text: string, delim: char, pos: nat)
    requires forall k :: pos <= k < |text| ==> text[k] != delim
    ensures ScanString(text, delim, pos) == |text|
    decreases |text| - pos
  {
    if pos < |text| {
      if text[pos] == '\\' {
        StringUnclosed(text, delim, pos + 2);
      } else {
        StringUnclosed(text, delim, pos + 1);
      }
    }
  }

  lemma FindChar(text: string, c: char, from: nat)
    ensures var r := Find(text, [c], from);
      && (r.Some? ==> from <= r.value < |text| && text[r.value] == c)
      && (forall k :: from <= k < (if r.Some? then r.value else |text|) ==> text[k] != c)
  {
    var r := Find(text, [c], from);
    FindIsFirst(text, [c], from);
    if r.Some? {
      assert text[r.value..r.value + 1][0] == c;
    }
    forall k | from <= k < (if r.Some? then r.value else |text|)
      ensures text[k] != c
    {
      assert !StartsWith(text, [c], k);
      assert text[k..k + 1] == [text[k]];
    }
  }

  // ---------------------------------------------------------------------------------------------
  // What the end of a string literal is

  /** The number of backslashes that stand directly before `p`, not looking below `low`. */
  function Backslashes(text: string, low: nat, p: nat): nat
    requires p <= |text|
  {
    if low < p && text[p - 1] == '\\' then Backslashes(text, low, p - 1) + 1 else 0
  }

  /** A delimiter at `p` that no backslash escapes, in a literal whose inside starts at `low`. */
  ghost predicate Unescaped(text: string, delim: char, low: nat, p: nat) {
    && low <= p < |text| && text[p] == delim
    && (delim != '\\' ==> Backslashes(text, low, p) % 2 == 0)
  }

  /** The literal ends just after its first unescaped delimiter, or with the text if there is none. */
  ghost predicate StringEnds(text: string, delim: char, low: nat, end: nat) {
    || (end > 0 && Unescaped(text, delim, low, end - 1)
        && forall p :: low <= p < end - 1 ==> !Unescaped(text, delim, low, p))
    || (end == |text| && forall p: nat :: !Unescaped(text, delim, low, p))
  }

  /** Where the scanner stands it has seen the backslashes in pairs, and passed no unescaped delimiter. */
  lemma {:induction false} ScanStringEnds(text: string, delim: char, low: nat, pos: nat)
    requires low <= pos
    requires pos <= |text| && delim != '\\' ==> Backslashes(text, low, pos) % 2 == 0
    requires forall p :: low <= p < pos ==> !Unescaped(text, delim, low, p)
    ensures StringEnds(text, delim, low, ScanString(text, delim, pos))
    decreases |text| - pos
  {
    if pos < |text| && text[pos] != delim {
      if text[pos] == '\\' {
        assert pos + 1 <= |text| ==> Backslashes(text, low, pos + 1) == Backslashes(text, low, pos) + 1;
        assert !Unescaped(text, delim, low, pos) && !Unescaped(text, delim, low, pos + 1);
        ScanStringEnds(text, delim, low, pos + 2);
      } else {
        ScanStringEnds(text, delim, low, pos + 1);
      }
    }
  }

  /** `_consume_string`, likewise: past the first delimiter that is not escaped. */
  method ConsumeString(text: string, start: nat, delim: char) returns (end: nat)
    ensures end == ScanString(text, delim, start + 1)
    ensures StringEnds(text, delim, start + 1, end)
  {
    ScanStringEnds(text, delim, start + 1, start + 1);
    var pos := start + 1;
    var length := |text|;
    while pos < length
      invariant ScanString(text, delim, pos) == ScanString(text, delim, start + 1)
    {
      var backslash := Find(text, "\\", pos);
      var close := Find(text, [delim], pos);
      FindChar(text, '\\', pos);
      FindChar(text, delim, pos);
      if close.None? {
        StringUnclosed(text, delim, pos);
        return length;
      }
      if backslash.Some? && backslash.value < close.value {
        StringSkip(text, delim, pos, backslash.value);
        pos := backslash.value + 2;
        continue;
      }
      StringSkip(text, delim, pos, close.value);
      return close.value + 1;
    }
    return length;
  }

  // ---------------------------------------------------------------------------------------------
  // Regular expressions

  predicate IsWord(c: char) {
    'A' <= c <= 'Z' || 'a' <= c <= 'z' || '0' <= c <= '9' || c == '_'
  }

  predicate IsHex(c: char) {
    '0' <= c <= '9' || 'A' <= c <= 'F' || 'a' <= c <= 'f'
  }

  predicate At(text: string, i: nat, c: char) {
    i < |text| && text[i] == c
  }

  /** The first position at or after `i` that does not satisfy the class. */
  function SkipHashes(text: string, i: nat): (end: nat)
    ensures i <= end && (i <= |text| ==> end <= |text|)
    ensures forall k :: i <= k < end ==> At(text, k, '#')
    ensures !At(text, end, '#')
    decreases |text| - i
  {
    if At(text, i, '#') then SkipHashes(text, i + 1) else i
  }

  function SkipUnicodeDigits(text: string, i: nat): (end: nat)
    ensures i <= end && (i <= |text| ==> end <= |text|)
    ensures forall k :: i <= k < end ==> k < |text| && (IsHex(text[k]) || text[k] == '_')
    ensures end < |text| ==> !IsHex(text[end]) && text[end] != '_'
    decreases |text| - i
  {
    if i < |text| && (IsHex(text[i]) || text[i] == '_') then SkipUnicodeDigits(text, i + 1) else i
  }

  /** `(?<![A-Za-z0-9_])(?:b|c)?r(#*)"`: where the opener's quote is. */
  function RawOpen(text: string, i: nat): (quote: Option<nat>)
    ensures quote.Some? ==> i < quote.value < |text| && text[quote.value] == '\"'
  {
    if i > 0 && i <= |text| && IsWord(text[i - 1]) then None
    else
      var r := if At(text, i, 'b') || At(text, i, 'c') then i + 1 else i;
      if !At(text, r, 'r') then None
      else
        var q := SkipHashes(text, r + 1);
        if At(text, q, '\"') then Some(q) else None
  }

  /** `_consume_raw_string`: the closer repeats the opener's hashes. */
  function RawEnd(text: string, i: nat, quote: nat): (end: nat)
    requires i < quote < |text|
    ensures quote < end <= |text|
  {
    var r := if At(text, i, 'b') || At(text, i, 'c') then i + 1 else i;
    var hashes := if r + 1 <= quote then text[r + 1..quote] else "";
    var closer := "\"" + hashes;
    var f := Find(text, closer, quote + 1);
    if f.None? then |text| else f.value + |closer|
  }

  /** The body of a character literal starting at `i` together with its closing quote: the first of the
      alternatives `\xHH`, `\u{…}`, `\.` and a plain character that is followed by a quote. */
  function LiteralRest(text: string, i: nat): (end: Option<nat>)
    ensures end.Some? ==> i + 2 <= end.value <= |text|
  {
    if HexEscape(text, i) then Some(i + 5)
    else if UnicodeEscape(text, i) then Some(SkipUnicodeDigits(text, i + 3) + 2)
    else if AnyEscape(text, i) then Some(i + 3)
    else if PlainChar(text, i) then Some(i + 2)
    else None
  }

  predicate HexEscape(text: string, i: nat) {
    && At(text, i, '\\') && At(text, i + 1, 'x') && i + 4 < |text|
    && IsHex(text[i + 2]) && IsHex(text[i + 3]) && text[i + 4] == '\''
  }

  predicate UnicodeEscape(text: string, i: nat) {
    && At(text, i, '\\') && At(text, i + 1, 'u') && At(text, i + 2, '{')
    && var e := SkipUnicodeDigits(text, i + 3);
       e > i + 3 && At(text, e, '}') && At(text, e + 1, '\'')
  }

  predicate AnyEscape(text: string, i: nat) {
    At(text, i, '\\') && i + 2 < |text| && text[i + 1] != '\n' && text[i + 2] == '\''
  }

  predicate PlainChar(text: string, i: nat) {
    i + 1 < |text| && text[i] != '\\' && text[i] != '\'' && text[i + 1] == '\''
  }

  /** A whole character literal at `i`, before any look-behind. */
  function LiteralAt(kind: CharLiteral, text: string, i: nat): (end: Option<nat>)
    ensures end.Some? ==> i + 3 <= end.value <= |text|
  {
    match kind
    case NoCharLiteral => None
    case RustChar =>
      if At(text, i, 'b') && At(text, i + 1, '\'') then LiteralRest(text, i + 2)
      else if At(text, i, '\'') then LiteralRest(text, i + 1)
      else None
    case LeanChar => if At(text, i, '\'') then LiteralRest(text, i + 1) else None
  }

  /** Lean's `(?<![A-Za-z0-9_'])`. */
  predicate Suppressed(kind: CharLiteral, text: string, i: nat) {
    kind.LeanChar? && 0 < i <= |text| && (IsWord(text[i - 1]) || text[i - 1] == '\'')
  }

  function CharEnd(kind: CharLiteral, text: string, i: nat): (end: Option<nat>)
    ensures end.Some? ==> i + 3 <= end.value <= |text|
  {
    if Suppressed(kind, text, i) then None else LiteralAt(kind, text, i)
  }

  // ---------------------------------------------------------------------------------------------
  // Masking

  /** What the three syntaxes have in common: two-character or longer openers free of blanks. */
  ghost predicate WellFormed(syn: Syntax) {
    && (syn.line.Some? ==> |syn.line.value| >= 2 && NoBlanks(syn.line.value))
    && |syn.blockOpen| >= 2 && NoBlanks(syn.blockOpen) && syn.blockClose != []
    && NoBlanks(syn.delims)
    && (syn.rawStrings ==> '\"' in syn.delims)
  }

  ghost predicate NoBlanks(p: string) {
    forall k :: 0 <= k < |p| ==> p[k] != ' ' && p[k] != '\n'
  }

  lemma SyntaxesAreWellFormed()
    ensures WellFormed(LEAN) && WellFormed(RUST) && WellFormed(SOLIDITY)
  {
  }

  predicate StartsLine(syn: Syntax, text: string, i: nat) {
    syn.line.Some? && StartsWith(text, syn.line.value, i)
  }

  /** A line comment stops at the newline, which is never among its first two characters. */
  lemma LineCommentEnd(syn: Syntax, text: string, i: nat)
    requires WellFormed(syn)
    requires StartsLine(syn, text, i)
    ensures var f := Find(text, "\n", i);
            i + 2 <= |text| && (f.Some? ==> i + 2 <= f.value < |text|)
  {
    FindChar(text, '\n', i);
    assert text[i..i + |syn.line.value|][0] == text[i] && text[i..i + |syn.line.value|][1] == text[i + 1];
  }

  function Blank(chunk: string): (r: string)
    ensures |r| == |chunk|
    ensures forall k :: 0 <= k < |chunk| ==> r[k] == if chunk[k] == '\n' then '\n' else ' '
  {
    seq(|chunk|, k requires 0 <= k < |chunk| => if chunk[k] == '\n' then '\n' else ' ')
  }

  /** The end of the comment, string or literal that starts at `i`, if one does. */
  function TokenEnd(syn: Syntax, text: string, i: nat): (end: Option<nat>)
    requires WellFormed(syn)
    requires i < |text|
    ensures end.Some? ==> i < end.value <= |text|
  {
    if StartsLine(syn, text, i) then
      LineCommentEnd(syn, text, i);
      var f := Find(text, "\n", i);
      if f.None? then Some(|text|) else f
    else if StartsWith(text, syn.blockOpen, i) then Some(ScanBlock(text, syn, i + |syn.blockOpen|, 1))
    else if syn.rawStrings && RawOpen(text, i).Some? then Some(RawEnd(text, i, RawOpen(text, i).value))
    else if CharEnd(syn.charLiteral, text, i).Some? then CharEnd(syn.charLiteral, text, i)
    else if text[i] in syn.delims then Some(ScanString(text, text[i], i + 1))
    else None
  }

  /** The masked text from `i` on. */
  function Mask(syn: Syntax, text: string, i: nat): (r: string)
    requires WellFormed(syn)
    requires i <= |text|
    ensures |r| == |text| - i
    decreases |text| - i
  {
    if i == |text| then ""
    else
      var t := TokenEnd(syn, text, i);
      if t.Some? then Blank(text[i..t.value]) + Mask(syn, text, t.value)
      else [text[i]] + Mask(syn, text, i + 1)
  }

  /** The branch a token at `i` takes in the scan; `None` when `i` is code. */
  method NextToken(text: string, syn: Syntax, i: nat) returns (end: Option<nat>)
    requires WellFormed(syn)
    requires i < |text|
    ensures end == TokenEnd(syn, text, i)
  {
    if StartsLine(syn, text, i) {
      var f := Find(text, "\n", i);
      return if f.None? then Some(|text|) else f;
    }
    if StartsWith(text, syn.blockOpen, i) {
      var e := ConsumeBlock(text, i, syn);
      return Some(e);
    }
    if syn.rawStrings {
      var raw := RawOpen(text, i);
      if raw.Some? {
        return Some(RawEnd(text, i, raw.value));
      }
    }
    var literal := CharEnd(syn.charLiteral, text, i);
    if literal.Some? {
      return literal;
    }
    if text[i] in syn.delims {
      var e := ConsumeString(text, i, text[i]);
      return Some(e);
    }
    return None;
  }

  /** What has been emitted, the pending stretch of code and the rest of the scan make up the result. */
  ghost predicate Emitted(syn: Syntax, text: string, out: string, codeStart: nat, i: nat) {
    && WellFormed(syn)
    && codeStart <= i <= |text|
    && out + text[codeStart..i] + Mask(syn, text, i) == Mask(syn, text, 0)
  }

  lemma Begin(syn: Syntax, text: string)
    requires WellFormed(syn)
    ensures Emitted(syn, text, "", 0, 0)
  {
    assert "" + text[0..0] + Mask(syn, text, 0) == Mask(syn, text, 0);
  }

  lemma EmitToken(syn: Syntax, text: string, out: string, codeStart: nat, i: nat, end: nat)
    requires Emitted(syn, text, out, codeStart, i)
    requires i < |text| && TokenEnd(syn, text, i) == Some(end)
    ensures Emitted(syn, text, out + text[codeStart..i] + Blank(text[i..end]), end, end)
  {
    Regroup(out + text[codeStart..i], Blank(text[i..end]), Mask(syn, text, end));
    assert text[end..end] == "";
  }

  lemma Regroup(a: string, b: string, c: string)
    ensures a + (b + c) == a + b + "" + c
  {
  }

  lemma EmitCode(syn: Syntax, text: string, out: string, codeStart: nat, i: nat)
    requires Emitted(syn, text, out, codeStart, i)
    requires i < |text| && TokenEnd(syn, text, i).None?
    ensures Emitted(syn, text, out, codeStart, i + 1)
  {
    assert text[codeStart..i + 1] == text[codeStart..i] + [text[i]];
    RegroupCode(out, text[codeStart..i], [text[i]], Mask(syn, text, i + 1));
  }

  lemma RegroupCode(a: string, b: string, c: string, d: string)
    ensures a + b + (c + d) == a + (b + c) + d
  {
  }

  /** `mask_source` */
  method MaskSource(text: string, syn: Syntax) returns (masked: string)
    requires WellFormed(syn)
    ensures masked == Mask(syn, text, 0)
  {
    var out := "";
    var i, codeStart := 0, 0;
    Begin(syn, text);
    while i < |text|
      invariant Emitted(syn, text, out, codeStart, i)
      decreases |text| - i
    {
      var token := NextToken(text, syn, i);
      if token.Some? {
        var end := token.value;
        EmitToken(syn, text, out, codeStart, i, end);
        out := out + text[codeStart..i] + Blank(text[i..end]);
        i := end;
        codeStart := i;
      } else {
        EmitCode(syn, text, out, codeStart, i);
        i := i + 1;
      }
    }
    Finish(syn, text, out, codeStart);
    masked := out + text[codeStart..];
  }

  lemma Finish(syn: Syntax, text: string, out: string, codeStart: nat)
    requires Emitted(syn, text, out, codeStart, |text|)
    ensures out + text[codeStart..] == Mask(syn, text, 0)
  {
    assert text[codeStart..] == text[codeStart..|text|];
  }
}
