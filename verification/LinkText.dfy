/** Characters, candidates, schemes and peeling: the pieces the chat linkifier works with. Text is UTF-16 code units. */
module LinkText {
  import opened Wrappers

  type Unit = u: int | 0 <= u < 0x1_0000

  type Text = seq<Unit>

  /** Unicode tables and the URL parser, which the program takes from its platform. */
  datatype Env = Env(letterOrNumber: int -> bool, mark: int -> bool, webUrl: Text -> bool)

  // ---------- Character classes ----------

  predicate IsSpace(u: int) {
    || 9 <= u <= 13 || u == 0x20 || u == 0xA0 || u == 0x1680 || 0x2000 <= u <= 0x200A
    || u == 0x2028 || u == 0x2029 || u == 0x202F || u == 0x205F || u == 0x3000 || u == 0xFEFF
  }

  predicate IsControl(u: int) { 0 <= u <= 0x1F || 0x7F <= u <= 0x9F }

  const LT := 0x3C
  const GT := 0x3E
  const QUOTE := 0x22
  const APOSTROPHE := 0x27
  const BACKTICK := 0x60
  const OPEN_BRACE := 0x7B
  const CLOSE_BRACE := 0x7D
  const COMMA := 0x2C
  const SEMICOLON := 0x3B
  const BAR := 0x7C
  const BACKSLASH := 0x5C
  const CARET := 0x5E
  const OPEN_BRACKET := 0x5B
  const CLOSE_BRACKET := 0x5D
  const DOT := 0x2E
  const COLON := 0x3A
  const BANG := 0x21
  const QUESTION := 0x3F
  const OPEN_PAREN := 0x28
  const CLOSE_PAREN := 0x29
  const SLASH := 0x2F
  const UNDERSCORE := 0x5F
  const HYPHEN := 0x2D
  const AT := 0x40
  const PLUS := 0x2B
  const TILDE := 0x7E
  const PERCENT := 0x25

  /** Ends a candidate, and starts a new segment, inside a token. */
  predicate IsSeparator(u: int) {
    || u == LT || u == GT || u == QUOTE || u == APOSTROPHE || u == BACKTICK || u == OPEN_BRACE || u == CLOSE_BRACE
    || u == COMMA || u == SEMICOLON || u == BAR || u == BACKSLASH || u == CARET || u == OPEN_BRACKET
    || u == CLOSE_BRACKET || IsControl(u)
  }

  predicate IsCandidate(u: int) { !IsSpace(u) && !IsSeparator(u) }

  predicate IsTrailing(u: int) {
    || u == DOT || u == COMMA || u == SEMICOLON || u == COLON || u == BANG || u == QUESTION || u == CLOSE_PAREN
    || u == QUOTE || u == APOSTROPHE || u == CLOSE_BRACKET
  }

  predicate IsAsciiLetter(u: int) { 0x41 <= u <= 0x5A || 0x61 <= u <= 0x7A }

  predicate IsAsciiDigit(u: int) { 0x30 <= u <= 0x39 }

  /** The table is consulted only where ASCII and white space do not already decide. */
  predicate IsLetterOrNumber(env: Env, u: int) {
    IsAsciiLetter(u) || IsAsciiDigit(u) || (!IsSpace(u) && env.letterOrNumber(u))
  }

  /** A code point that continues a URL, host name or address. */
  predicate Continues(env: Env, codePoint: int) {
    || IsLetterOrNumber(env, codePoint) || (!IsSpace(codePoint) && env.mark(codePoint))
    || codePoint == UNDERSCORE || codePoint == DOT || codePoint == HYPHEN || codePoint == AT || codePoint == PLUS
    || codePoint == TILDE || codePoint == PERCENT || codePoint == SLASH || codePoint == COLON
  }

  function CodePointBefore(text: Text, index: nat): int
    requires 0 < index <= |text|
  {
    var prev: int := text[index - 1];
    var high: int := if index >= 2 then text[index - 2] else 0;
    if 0xDC00 <= prev <= 0xDFFF && 0xD800 <= high <= 0xDBFF
    then (high - 0xD800) * 0x400 + (prev - 0xDC00) + 0x1_0000
    else prev
  }

  // ---------- Candidates ----------

  /** Case-insensitive, with Unicode folding: U+017F folds to `s`. */
  predicate Folds(u: int, lower: int) {
    u == lower || u == lower - 0x20 || (lower == 0x73 && u == 0x17F)
  }

  predicate HasHttp(text: Text, i: nat) {
    i + 4 <= |text| && Folds(text[i], 0x68) && Folds(text[i + 1], 0x74) && Folds(text[i + 2], 0x74) && Folds(text[i + 3], 0x70)
  }

  predicate HasSlashes(text: Text, i: nat) {
    i + 3 <= |text| && text[i] == COLON && text[i + 1] == SLASH && text[i + 2] == SLASH
  }

  predicate HasWww(text: Text, i: nat) {
    i + 4 <= |text| && Folds(text[i], 0x77) && Folds(text[i + 1], 0x77) && Folds(text[i + 2], 0x77) && text[i + 3] == DOT
  }

  /** Length of `https?://` or `www.` at `i`, or 0. */
  function PrefixLength(text: Text, i: nat): nat {
    if HasHttp(text, i) && HasSlashes(text, i + 4) then 7
    else if HasHttp(text, i) && i + 5 <= |text| && Folds(text[i + 4], 0x73) && HasSlashes(text, i + 5) then 8
    else if HasWww(text, i) then 4
    else 0
  }

  predicate StartsAt(text: Text, i: nat) {
    var n := PrefixLength(text, i);
    0 < n && i + n < |text| && IsCandidate(text[i + n])
  }

  function RunEnd(text: Text, i: nat): (end: nat)
    requires i <= |text|
    ensures i <= end <= |text|
    decreases |text| - i
  {
    if i < |text| && IsCandidate(text[i]) then RunEnd(text, i + 1) else i
  }

  datatype Match = Match(start: nat, end: nat)

  predicate IsMatch(text: Text, m: Match) {
    StartsAt(text, m.start) && m.end == RunEnd(text, m.start + PrefixLength(text, m.start))
  }

  /** The leftmost match at or after `from`. */
  function FindFrom(text: Text, from: nat): (m: Option<Match>)
    ensures m.Some? ==> from <= m.value.start < m.value.end <= |text| && IsMatch(text, m.value)
    decreases |text| - from
  {
    if from >= |text| then None
    else if StartsAt(text, from) then Some(Match(from, RunEnd(text, from + PrefixLength(text, from))))
    else FindFrom(text, from + 1)
  }

  /** A global regular expression: `lastIndex` moves to the match's end, and back to 0 when there is none. */
  class CandidateRegExp {
    var lastIndex: nat

    constructor ()
      ensures lastIndex == 0
    {
      lastIndex := 0;
    }

    method Exec(text: Text) returns (m: Option<Match>)
      modifies this
      ensures m == FindFrom(text, old(lastIndex))
      ensures lastIndex == if m.Some? then m.value.end else 0
    {
      m := FindFrom(text, lastIndex);
      lastIndex := if m.Some? then m.value.end else 0;
    }
  }

  // ---------- Schemes ----------

  predicate IsSchemeChar(u: int) {
    IsAsciiLetter(u) || IsAsciiDigit(u) || u == PLUS || u == DOT || u == HYPHEN
  }

  function SchemeRun(text: Text, i: nat): (end: nat)
    requires i <= |text|
    ensures i <= end <= |text|
    decreases |text| - i
  {
    if i < |text| && IsSchemeChar(text[i]) then SchemeRun(text, i + 1) else i
  }

  /** The name of the `scheme:` at `i`, if there is one. */
  function SchemeAt(text: Text, i: nat): Option<Text>
    requires i < |text|
  {
    var end := SchemeRun(text, i);
    if IsAsciiLetter(text[i]) && end < |text| && text[end] == COLON then Some(text[i..end]) else None
  }

  predicate EqualsIgnoringCase(name: Text, lower: seq<int>) {
    |name| == |lower| && forall k :: 0 <= k < |name| ==> name[k] == lower[k] || name[k] == lower[k] - 0x20
  }

  predicate IsWebScheme(name: Text) {
    EqualsIgnoringCase(name, [0x68, 0x74, 0x74, 0x70]) || EqualsIgnoringCase(name, [0x68, 0x74, 0x74, 0x70, 0x73])
  }

  function SkipWrappers(env: Env, text: Text, lo: nat, hi: nat): (i: nat)
    requires lo <= hi <= |text|
    ensures lo <= i <= hi
    decreases hi - lo
  {
    if lo < hi && !IsLetterOrNumber(env, text[lo]) then SkipWrappers(env, text, lo + 1, hi) else lo
  }

  /** `text[lo..hi]`, past any wrapping punctuation, opens with a scheme other than http and https. */
  predicate OpensForeign(env: Env, text: Text, lo: nat, hi: nat)
    requires lo <= hi <= |text|
  {
    var i := SkipWrappers(env, text, lo, hi);
    i < hi && SchemeAt(text, i).Some? && !IsWebScheme(SchemeAt(text, i).value)
  }

  method SegmentHasForeignScheme(env: Env, text: Text, lo: nat, hi: nat) returns (foreign: bool)
    requires lo <= hi <= |text|
    ensures foreign <==> OpensForeign(env, text, lo, hi)
  {
    var i := lo;
    while i < hi && !IsLetterOrNumber(env, text[i])
      invariant lo <= i <= hi
      invariant SkipWrappers(env, text, lo, hi) == SkipWrappers(env, text, i, hi)
    {
      i := i + 1;
    }
    if i >= hi { return false; }
    var scheme := SchemeAt(text, i);
    if scheme.None? { return false; }
    foreign := !IsWebScheme(scheme.value);
  }

  /** `text[i..j]` is a maximal piece of the token `text[lo..hi]` without separators. */
  predicate IsSegment(text: Text, lo: nat, hi: nat, i: nat, j: nat) {
    && lo <= i <= j <= hi <= |text|
    && (i == lo || IsSeparator(text[i - 1]))
    && (j == hi || IsSeparator(text[j]))
    && forall k :: i <= k < j ==> !IsSeparator(text[k])
  }

  ghost predicate Poisoned(env: Env, text: Text, lo: nat, hi: nat) {
    exists i, j :: IsSegment(text, lo, hi, i, j) && OpensForeign(env, text, i, j)
  }

  method TokenHasForeignScheme(env: Env, text: Text, tokenStart: nat, tokenEnd: nat) returns (foreign: bool)
    requires tokenStart <= tokenEnd <= |text|
    ensures foreign <==> Poisoned(env, text, tokenStart, tokenEnd)
  {
    var segmentStart := tokenStart;
    for i := tokenStart to tokenEnd + 1
      invariant tokenStart <= segmentStart && (i <= tokenEnd ==> segmentStart <= i)
      invariant i <= tokenEnd ==> segmentStart == tokenStart || IsSeparator(text[segmentStart - 1])
      invariant forall k :: segmentStart <= k < i && k < tokenEnd ==> !IsSeparator(text[k])
      invariant forall a: nat, b: nat ::
        IsSegment(text, tokenStart, tokenEnd, a, b) && b < i ==> !OpensForeign(env, text, a, b)
    {
      if i == tokenEnd || IsSeparator(text[i]) {
        var opens := SegmentHasForeignScheme(env, text, segmentStart, i);
        if opens {
          assert IsSegment(text, tokenStart, tokenEnd, segmentStart, i);
          return true;
        }
        segmentStart := i + 1;
      }
    }
    foreign := false;
  }

  // ---------- Peeling ----------

  function CountOf(raw: Text, c: int, end: nat): nat
    requires end <= |raw|
  {
    if end == 0 then 0 else CountOf(raw, c, end - 1) + (if raw[end - 1] == c then 1 else 0)
  }

  /** Nothing more is peeled from `raw[..end]`: parentheses are recounted from scratch. */
  predicate Settled(raw: Text, end: nat)
    requires end <= |raw|
  {
    || end == 0
    || !IsTrailing(raw[end - 1])
    || (raw[end - 1] == CLOSE_PAREN && CountOf(raw, OPEN_PAREN, end) >= CountOf(raw, CLOSE_PAREN, end))
  }

  function PeelFrom(raw: Text, end: nat): (e: nat)
    requires end <= |raw|
    ensures e <= end && Settled(raw, e)
    ensures forall k :: e < k <= end ==> !Settled(raw, k)
  {
    if Settled(raw, end) then end else PeelFrom(raw, end - 1)
  }

  /** Counts once, then peels by index. */
  method Peel(raw: Text) returns (end: nat)
    ensures end == PeelFrom(raw, |raw|)
  {
    var openParens, closeParens := 0, 0;
    for i := 0 to |raw|
      invariant openParens == CountOf(raw, OPEN_PAREN, i) && closeParens == CountOf(raw, CLOSE_PAREN, i)
    {
      if raw[i] == OPEN_PAREN { openParens := openParens + 1; }
      else if raw[i] == CLOSE_PAREN { closeParens := closeParens + 1; }
    }
    end := |raw|;
    while end > 0 && IsTrailing(raw[end - 1])
      invariant 0 <= end <= |raw|
      invariant openParens == CountOf(raw, OPEN_PAREN, end) && closeParens == CountOf(raw, CLOSE_PAREN, end)
      invariant forall k :: end < k <= |raw| ==> !Settled(raw, k)
    {
      if raw[end - 1] == CLOSE_PAREN {
        if openParens >= closeParens { break; }
        closeParens := closeParens - 1;
      }
      end := end - 1;
    }
    assert Settled(raw, end);
  }
}
