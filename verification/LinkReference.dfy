/** Which texts become links, said by the characters of the message and nothing else, and that it is what the scan does. */
module LinkReference {
  import opened Wrappers
  import opened LinkText
  import opened Linkifier

  // ---------- Characters ----------

  predicate OneOf(u: int, characters: string) {
    exists i :: 0 <= i < |characters| && characters[i] as int == u
  }

  /** The character classes of the program's regular expressions. */
  lemma ClassesByCharacter(env: Env, u: int)
    ensures IsSeparator(u) <==> 0 <= u <= 0x1F || 0x7F <= u <= 0x9F || OneOf(u, "<>\"'`{},;|\\^[]")
    ensures IsTrailing(u) <==> OneOf(u, ".,;:!?)\"']")
    ensures Continues(env, u) <==> IsLetterOrNumber(env, u) || (!IsSpace(u) && env.mark(u)) || OneOf(u, "_.-@+~%/:")
    ensures IsSchemeChar(u) <==> 'a' as int <= u <= 'z' as int || 'A' as int <= u <= 'Z' as int
                                 || '0' as int <= u <= '9' as int || OneOf(u, "+.-")
  {
    Separators(u);
    Trailers(u);
    Continuers(u);
    SchemeMarks(u);
    hide OneOf, IsSpace;
  }

  lemma Separators(u: int)
    ensures OneOf(u, "<>\"'`{},;|\\^[]")
            <==> u in {LT, GT, QUOTE, APOSTROPHE, BACKTICK, OPEN_BRACE, CLOSE_BRACE, COMMA, SEMICOLON, BAR, BACKSLASH, CARET,
                       OPEN_BRACKET, CLOSE_BRACKET}
  {
    var s := "<>\"'`{},;|\\^[]";
    assert s[0] as int == LT && s[1] as int == GT && s[2] as int == QUOTE && s[3] as int == APOSTROPHE;
    assert s[4] as int == BACKTICK && s[5] as int == OPEN_BRACE && s[6] as int == CLOSE_BRACE && s[7] as int == COMMA;
    assert s[8] as int == SEMICOLON && s[9] as int == BAR && s[10] as int == BACKSLASH && s[11] as int == CARET;
    assert s[12] as int == OPEN_BRACKET && s[13] as int == CLOSE_BRACKET && |s| == 14;
  }

  lemma Trailers(u: int)
    ensures OneOf(u, ".,;:!?)\"']")
            <==> u in {DOT, COMMA, SEMICOLON, COLON, BANG, QUESTION, CLOSE_PAREN, QUOTE, APOSTROPHE, CLOSE_BRACKET}
  {
    var s := ".,;:!?)\"']";
    assert s[0] as int == DOT && s[1] as int == COMMA && s[2] as int == SEMICOLON && s[3] as int == COLON;
    assert s[4] as int == BANG && s[5] as int == QUESTION && s[6] as int == CLOSE_PAREN && s[7] as int == QUOTE;
    assert s[8] as int == APOSTROPHE && s[9] as int == CLOSE_BRACKET && |s| == 10;
  }

  lemma Continuers(u: int)
    ensures OneOf(u, "_.-@+~%/:") <==> u in {UNDERSCORE, DOT, HYPHEN, AT, PLUS, TILDE, PERCENT, SLASH, COLON}
  {
    var s := "_.-@+~%/:";
    assert s[0] as int == UNDERSCORE && s[1] as int == DOT && s[2] as int == HYPHEN && s[3] as int == AT;
    assert s[4] as int == PLUS && s[5] as int == TILDE && s[6] as int == PERCENT && s[7] as int == SLASH;
    assert s[8] as int == COLON && |s| == 9;
  }

  lemma SchemeMarks(u: int)
    ensures OneOf(u, "+.-") <==> u in {PLUS, DOT, HYPHEN}
  {
    var s := "+.-";
    assert s[0] as int == PLUS && s[1] as int == DOT && s[2] as int == HYPHEN && |s| == 3;
  }

  /** The code point before a position is a surrogate pair if there is one, and else a single unit. */
  lemma CodePointIsEncoded(text: Text, index: nat)
    requires 0 < index <= |text|
    ensures var codePoint := CodePointBefore(text, index);
            if index >= 2 && 0xD800 <= text[index - 2] < 0xDC00 && 0xDC00 <= text[index - 1] < 0xE000
            then 0x1_0000 <= codePoint < 0x11_0000
                 && text[index - 2] == 0xD800 + (codePoint - 0x1_0000) / 0x400
                 && text[index - 1] == 0xDC00 + (codePoint - 0x1_0000) % 0x400
            else codePoint == text[index - 1]
  {
  }

  // ---------- What opens a link ----------

  /** One unit of a text against a lower-case character, in either case; U+017F is an `s`. */
  predicate Matches(u: int, c: char) {
    || u == c as int
    || ('a' <= c <= 'z' && u == c as int - 0x20)
    || (c == 's' && u == 0x17F)
  }

  predicate Reads(text: Text, i: nat, words: string) {
    i + |words| <= |text| && forall k :: 0 <= k < |words| ==> Matches(text[i + k], words[k])
  }

  predicate Opens(text: Text, i: nat, n: nat) {
    || (n == 7 && Reads(text, i, "http://"))
    || (n == 8 && Reads(text, i, "https://"))
    || (n == 4 && Reads(text, i, "www."))
  }

  lemma HttpReads(text: Text, i: nat)
    ensures Reads(text, i, "http://") <==> HasHttp(text, i) && HasSlashes(text, i + 4)
  {
    var s := "http://";
    assert s[0] == 'h' && s[1] == 't' && s[2] == 't' && s[3] == 'p' && s[4] == ':' && s[5] == '/' && s[6] == '/';
    if Reads(text, i, s) {
      assert Matches(text[i + 0], s[0]) && Matches(text[i + 1], s[1]) && Matches(text[i + 2], s[2]) && Matches(text[i + 3], s[3]);
      assert Matches(text[i + 4], s[4]) && Matches(text[i + 5], s[5]) && Matches(text[i + 6], s[6]);
    }
  }

  lemma HttpsReads(text: Text, i: nat)
    ensures Reads(text, i, "https://")
            <==> HasHttp(text, i) && i + 5 <= |text| && Folds(text[i + 4], 0x73) && HasSlashes(text, i + 5)
  {
    var s := "https://";
    assert s[0] == 'h' && s[1] == 't' && s[2] == 't' && s[3] == 'p' && s[4] == 's' && s[5] == ':' && s[6] == '/' && s[7] == '/';
    if Reads(text, i, s) {
      assert Matches(text[i + 0], s[0]) && Matches(text[i + 1], s[1]) && Matches(text[i + 2], s[2]) && Matches(text[i + 3], s[3]);
      assert Matches(text[i + 4], s[4]) && Matches(text[i + 5], s[5]) && Matches(text[i + 6], s[6]) && Matches(text[i + 7], s[7]);
    }
  }

  lemma WwwReads(text: Text, i: nat)
    ensures Reads(text, i, "www.") <==> HasWww(text, i)
  {
    var s := "www.";
    assert s[0] == 'w' && s[1] == 'w' && s[2] == 'w' && s[3] == '.';
    if Reads(text, i, s) {
      assert Matches(text[i + 0], s[0]) && Matches(text[i + 1], s[1]) && Matches(text[i + 2], s[2]) && Matches(text[i + 3], s[3]);
    }
  }

  lemma OpensIsPrefix(text: Text, i: nat, n: nat)
    ensures Opens(text, i, n) <==> 0 < n == PrefixLength(text, i)
  {
    HttpReads(text, i);
    HttpsReads(text, i);
    WwwReads(text, i);
    hide Reads;
  }

  /** An opening with at least one more character of a link after it. */
  ghost predicate Candidate(text: Text, i: nat) {
    exists n: nat :: Opens(text, i, n) && i + n < |text| && IsCandidate(text[i + n])
  }

  lemma CandidateStarts(text: Text, i: nat)
    ensures Candidate(text, i) <==> StartsAt(text, i)
  {
    OpensIsPrefix(text, i, PrefixLength(text, i));
    hide Opens, PrefixLength, IsCandidate;
    if Candidate(text, i) {
      var n: nat :| Opens(text, i, n) && i + n < |text| && IsCandidate(text[i + n]);
      OpensIsPrefix(text, i, n);
    }
  }

  // ---------- Pieces, and what poisons a word ----------

  /** A stretch of text between white space and separators. */
  predicate Piece(text: Text, i: nat, j: nat) {
    && i < j <= |text|
    && (i == 0 || !IsCandidate(text[i - 1])) && (j == |text| || !IsCandidate(text[j]))
    && forall k :: i <= k < j ==> IsCandidate(text[k])
  }

  predicate Spells(name: Text, words: string) {
    |name| == |words| && forall k :: 0 <= k < |words| ==> name[k] == words[k] as int || name[k] == words[k] as int - 0x20
  }

  /** Past its wrapping punctuation `text[i..j]` opens with the scheme `text[k..c]` and a colon, which is not a web scheme. */
  predicate ForeignAt(env: Env, text: Text, i: nat, j: nat, k: nat, c: nat)
    requires i <= j <= |text|
  {
    && i <= k < c < j
    && (forall m :: i <= m < k ==> !IsLetterOrNumber(env, text[m]))
    && IsAsciiLetter(text[k]) && (forall m :: k <= m < c ==> IsSchemeChar(text[m])) && text[c] == ':' as int
    && !Spells(text[k..c], "http") && !Spells(text[k..c], "https")
  }

  ghost predicate ForeignIn(env: Env, text: Text, lo: nat, hi: nat, i: nat, j: nat, k: nat, c: nat) {
    lo <= i <= j <= hi && Piece(text, i, j) && ForeignAt(env, text, i, j, k, c)
  }

  ghost predicate Tainted(env: Env, text: Text, lo: nat, hi: nat) {
    exists i: nat, j: nat, k: nat, c: nat :: ForeignIn(env, text, lo, hi, i, j, k, c)
  }

  lemma WebSchemes(name: Text)
    ensures IsWebScheme(name) <==> Spells(name, "http") || Spells(name, "https")
  {
    var s, t := "http", "https";
    assert s[0] == 'h' && s[1] == 't' && s[2] == 't' && s[3] == 'p' && |s| == 4;
    assert t[0] == 'h' && t[1] == 't' && t[2] == 't' && t[3] == 'p' && t[4] == 's' && |t| == 5;
    var a, b := [0x68, 0x74, 0x74, 0x70], [0x68, 0x74, 0x74, 0x70, 0x73];
    assert forall k :: 0 <= k < 4 ==> s[k] as int == a[k];
    assert forall k :: 0 <= k < 5 ==> t[k] as int == b[k];
  }

  lemma {:induction false} WrapperEnd(env: Env, text: Text, lo: nat, hi: nat, k: nat)
    requires lo <= k <= hi <= |text|
    requires forall m :: lo <= m < k ==> !IsLetterOrNumber(env, text[m])
    requires k == hi || IsLetterOrNumber(env, text[k])
    ensures SkipWrappers(env, text, lo, hi) == k
    decreases hi - lo
  {
    hide IsLetterOrNumber;
    if lo < k { WrapperEnd(env, text, lo + 1, hi, k); }
  }

  lemma {:induction false} WrappersSkipped(env: Env, text: Text, lo: nat, hi: nat)
    requires lo <= hi <= |text|
    ensures var k := SkipWrappers(env, text, lo, hi);
            (forall m :: lo <= m < k ==> !IsLetterOrNumber(env, text[m])) && (k < hi ==> IsLetterOrNumber(env, text[k]))
    decreases hi - lo
  {
    hide IsLetterOrNumber;
    if lo < hi && !IsLetterOrNumber(env, text[lo]) { WrappersSkipped(env, text, lo + 1, hi); }
  }

  lemma {:induction false} SchemeRunEnd(text: Text, i: nat, c: nat)
    requires i <= c <= |text| && (forall m :: i <= m < c ==> IsSchemeChar(text[m])) && (c == |text| || !IsSchemeChar(text[c]))
    ensures SchemeRun(text, i) == c
    decreases c - i
  {
    hide IsSchemeChar;
    if i < c { SchemeRunEnd(text, i + 1, c); }
  }

  lemma {:induction false} SchemeRunCovers(text: Text, i: nat)
    requires i <= |text|
    ensures var c := SchemeRun(text, i);
            (forall m :: i <= m < c ==> IsSchemeChar(text[m])) && (c < |text| ==> !IsSchemeChar(text[c]))
    decreases |text| - i
  {
    hide IsSchemeChar;
    if i < |text| && IsSchemeChar(text[i]) { SchemeRunCovers(text, i + 1); }
  }

  lemma ForeignIsLiteral(env: Env, text: Text, lo: nat, hi: nat, i: nat, j: nat)
    requires IsWord(text, lo, hi) && IsSegment(text, lo, hi, i, j)
    ensures OpensForeign(env, text, i, j) <==> exists k: nat, c: nat :: ForeignAt(env, text, i, j, k, c)
  {
    hide IsLetterOrNumber, IsWebScheme, Spells;
    if OpensForeign(env, text, i, j) {
      var k := SkipWrappers(env, text, i, j);
      var c := SchemeRun(text, k);
      WrappersSkipped(env, text, i, j);
      SchemeRunCovers(text, k);
      SchemeStaysInSegment(text, lo, hi, i, j, k);
      WebSchemes(text[k..c]);
      assert ForeignAt(env, text, i, j, k, c);
    }
    if exists k: nat, c: nat :: ForeignAt(env, text, i, j, k, c) {
      var k: nat, c: nat :| ForeignAt(env, text, i, j, k, c);
      assert IsLetterOrNumber(env, text[k]) by { LetterIsLetter(env, text[k]); }
      WrapperEnd(env, text, i, j, k);
      ColonEndsScheme();
      SchemeRunEnd(text, k, c);
      WebSchemes(text[k..c]);
    }
  }

  lemma LetterIsLetter(env: Env, u: int)
    requires IsAsciiLetter(u)
    ensures IsLetterOrNumber(env, u)
  {
  }

  lemma ColonEndsScheme()
    ensures !IsSchemeChar(':' as int) && ':' as int == COLON
  {
  }

  /** In a word a segment with something in it is a piece. */
  lemma SegmentIsPiece(text: Text, lo: nat, hi: nat, i: nat, j: nat)
    requires IsWord(text, lo, hi) && i < j
    ensures IsSegment(text, lo, hi, i, j) <==> lo <= i && j <= hi && Piece(text, i, j)
  {
    hide IsSpace, IsSeparator;
  }

  lemma TaintIsPoison(env: Env, text: Text, lo: nat, hi: nat)
    requires IsWord(text, lo, hi)
    ensures Poisoned(env, text, lo, hi) <==> Tainted(env, text, lo, hi)
  {
    hide IsWord, OpensForeign, ForeignAt, IsSeparator, IsCandidate;
    if Poisoned(env, text, lo, hi) {
      var i: nat, j: nat :| IsSegment(text, lo, hi, i, j) && OpensForeign(env, text, i, j);
      ForeignIsLiteral(env, text, lo, hi, i, j);
      var k: nat, c: nat :| ForeignAt(env, text, i, j, k, c);
      ForeignIsInside(env, text, i, j, k, c);
      SegmentIsPiece(text, lo, hi, i, j);
      assert ForeignIn(env, text, lo, hi, i, j, k, c);
    }
    if Tainted(env, text, lo, hi) {
      var i: nat, j: nat, k: nat, c: nat :| ForeignIn(env, text, lo, hi, i, j, k, c);
      ForeignIsInside(env, text, i, j, k, c);
      SegmentIsPiece(text, lo, hi, i, j);
      ForeignIsLiteral(env, text, lo, hi, i, j);
    }
  }

  lemma ForeignIsInside(env: Env, text: Text, i: nat, j: nat, k: nat, c: nat)
    requires i <= j <= |text| && ForeignAt(env, text, i, j, k, c)
    ensures i <= k < c < j
  {
  }

  // ---------- What is kept of a candidate, and where it points ----------

  /** Cut at `e`, the link that starts at `i` ends in no trailing punctuation, unless in a `)` that closes one of its own. */
  predicate Kept(text: Text, i: nat, e: nat)
    requires i <= e <= |text|
  {
    || e == i
    || !IsTrailing(text[e - 1])
    || (text[e - 1] == ')' as int && multiset(text[i..e])[')' as int] <= multiset(text[i..e])['(' as int])
  }

  /** The longest such cut up to `j`. */
  predicate LongestKept(text: Text, i: nat, j: nat, e: nat)
    requires i <= j <= |text|
  {
    i <= e <= j && Kept(text, i, e) && forall k :: e < k <= j ==> !Kept(text, i, k)
  }

  function Units(words: string): (units: Text)
    requires forall k :: 0 <= k < |words| ==> words[k] < 128 as char
    ensures |units| == |words| && forall k :: 0 <= k < |words| ==> units[k] == words[k] as int
  {
    seq(|words|, k requires 0 <= k < |words| => words[k] as int)
  }

  /** The text itself, or behind `https://` if it opens with `www.`. */
  predicate PointsTo(raw: Text, href: Text) {
    if Reads(raw, 0, "www.") then href == Units("https://") + raw else href == raw
  }

  lemma {:induction false} CountIsMultiplicity(raw: Text, u: Unit, end: nat)
    requires end <= |raw|
    ensures CountOf(raw, u, end) == multiset(raw[..end])[u]
  {
    if end > 0 {
      CountIsMultiplicity(raw, u, end - 1);
      assert raw[..end] == raw[..end - 1] + [raw[end - 1]];
    }
  }

  lemma KeptIsSettled(text: Text, i: nat, j: nat, e: nat)
    requires i <= e <= j <= |text|
    ensures Kept(text, i, e) <==> Settled(text[i..j], e - i)
  {
    var raw := text[i..j];
    assert raw[..e - i] == text[i..e];
    CountIsMultiplicity(raw, OPEN_PAREN, e - i);
    CountIsMultiplicity(raw, CLOSE_PAREN, e - i);
    assert '(' as int == OPEN_PAREN && ')' as int == CLOSE_PAREN;
    hide CountOf, IsTrailing;
  }

  lemma PeelIsLongestKept(text: Text, i: nat, j: nat, e: nat)
    requires i <= j <= |text|
    ensures LongestKept(text, i, j, e) <==> e == i + PeelFrom(text[i..j], j - i)
  {
    var p := i + PeelFrom(text[i..j], j - i);
    forall k | i <= k <= j ensures Kept(text, i, k) <==> Settled(text[i..j], k - i) { KeptIsSettled(text, i, j, k); }
    hide Kept, Settled, PeelFrom;
    assert Kept(text, i, p) && forall k :: p < k <= j ==> !Kept(text, i, k);
  }

  lemma HrefPoints(raw: Text, href: Text)
    ensures PointsTo(raw, href) <==> href == Href(raw)
  {
    WwwReads(raw, 0);
    var s := "https://";
    assert s[0] == 'h' && s[1] == 't' && s[2] == 't' && s[3] == 'p' && s[4] == 's' && s[5] == ':' && s[6] == '/' && s[7] == '/';
    assert Units(s) == HTTPS_PREFIX;
    hide Reads;
  }

  // ---------- The links of a message ----------

  /** The first candidate of the piece `text[i..j]` starts at `start`. */
  ghost predicate FirstCandidate(text: Text, i: nat, j: nat, start: nat) {
    && Piece(text, i, j) && i <= start < j && Candidate(text, start)
    && forall k: nat :: i <= k < start ==> !Candidate(text, k)
  }

  /** `link` is the first candidate of the piece `text[i..j]`, it stands at a boundary, and it points somewhere. */
  ghost predicate LinkOf(env: Env, text: Text, i: nat, j: nat, link: Link) {
    && FirstCandidate(text, i, j, link.start)
    && (link.start == 0 || !Continues(env, CodePointBefore(text, link.start)))
    && LongestKept(text, link.start, j, link.end) && link.start < link.end
    && PointsTo(text[link.start..link.end], link.href) && env.webUrl(link.href)
  }

  ghost predicate LinkIn(env: Env, text: Text, lo: nat, hi: nat, i: nat, j: nat, link: Link) {
    IsWord(text, lo, hi) && lo <= i && j <= hi && !Tainted(env, text, lo, hi) && LinkOf(env, text, i, j, link)
  }

  lemma AcceptIsLiteral(env: Env, text: Text, i: nat, j: nat, link: Link)
    requires FirstCandidate(text, i, j, link.start)
    ensures LinkOf(env, text, i, j, link) <==> Accept(env, text, Match(link.start, j)) == Some(link)
  {
    hide FirstCandidate, Continues, CodePointBefore, PeelFrom, Href, PointsTo, LongestKept;
    assert link.start < j <= |text| by { FirstIsInside(text, i, j, link.start); }
    var raw := text[link.start..j];
    PeelIsLongestKept(text, link.start, j, link.end);
    var e := PeelFrom(raw, |raw|);
    assert raw[..e] == text[link.start..link.start + e];
    HrefPoints(raw[..e], link.href);
  }

  lemma FirstIsInside(text: Text, i: nat, j: nat, start: nat)
    requires FirstCandidate(text, i, j, start)
    ensures i <= start < j <= |text|
  {
    hide Candidate;
  }

  // ---------- The scan finds exactly these ----------

  function PieceStart(text: Text, s: nat): (i: nat)
    requires s < |text| && IsCandidate(text[s])
    ensures i <= s && (forall k :: i <= k <= s ==> IsCandidate(text[k])) && (i == 0 || !IsCandidate(text[i - 1]))
  {
    if s == 0 || !IsCandidate(text[s - 1]) then s else PieceStart(text, s - 1)
  }

  lemma {:induction false} RunEndFacts(text: Text, i: nat)
    requires i <= |text|
    ensures var end := RunEnd(text, i);
            (forall k :: i <= k < end ==> IsCandidate(text[k])) && (end == |text| || !IsCandidate(text[end]))
    decreases |text| - i
  {
    hide IsCandidate;
    if i < |text| && IsCandidate(text[i]) { RunEndFacts(text, i + 1); }
  }

  /** A candidate lies in a piece and runs to its end. */
  lemma PieceAround(text: Text, m: Match) returns (i: nat)
    requires IsMatch(text, m) && m.end <= |text|
    ensures i <= m.start < m.end && Piece(text, i, m.end)
  {
    var n := PrefixLength(text, m.start);
    forall k | m.start <= k < m.start + n ensures k < |text| && IsCandidate(text[k]) { PrefixIsCandidate(text, m.start, k); }
    RunEndFacts(text, m.start + n);
    hide PrefixLength, IsCandidate;
    i := PieceStart(text, m.start);
  }

  lemma SamePiece(text: Text, i: nat, j: nat, i2: nat, j2: nat, s: nat)
    requires Piece(text, i, j) && Piece(text, i2, j2) && i <= s < j && i2 <= s < j2
    ensures i == i2 && j == j2
  {
    hide IsCandidate;
  }

  /** Not inside a piece. */
  predicate Between(text: Text, at: nat) {
    at == 0 || at >= |text| || !IsCandidate(text[at - 1]) || !IsCandidate(text[at])
  }

  lemma PieceIsAhead(text: Text, at: nat, i: nat, j: nat, s: nat)
    requires Between(text, at) && Piece(text, i, j) && i <= s < j
    ensures at <= s ==> at <= i
    ensures s < at ==> j <= at
  {
    hide IsCandidate;
  }

  lemma {:induction false} FindIsLeftmost(text: Text, from: nat)
    ensures var m := FindFrom(text, from);
            forall k: nat :: from <= k && (m.None? || k < m.value.start) ==> !StartsAt(text, k)
    decreases |text| - from
  {
    hide RunEnd, PrefixLength;
    if from < |text| && !StartsAt(text, from) { FindIsLeftmost(text, from + 1); }
  }

  lemma FirstIsStart(text: Text, i: nat, j: nat, start: nat)
    requires FirstCandidate(text, i, j, start)
    ensures Piece(text, i, j) && i <= start < j && StartsAt(text, start) && forall k: nat :: i <= k < start ==> !StartsAt(text, k)
  {
    forall k: nat | i <= k <= start ensures Candidate(text, k) <==> StartsAt(text, k) { CandidateStarts(text, k); }
    hide Candidate, StartsAt, IsCandidate;
  }

  /** What the search finds from between two pieces is the first candidate of its piece. */
  lemma FoundIsFirst(text: Text, at: nat, m: Match) returns (i: nat)
    requires Between(text, at) && FindFrom(text, at) == Some(m)
    ensures at <= i && FirstCandidate(text, i, m.end, m.start) && Between(text, m.end) && m.end <= |text|
  {
    FindIsLeftmost(text, at);
    i := PieceAround(text, m);
    PieceIsAhead(text, at, i, m.end, m.start);
    forall k: nat | i <= k <= m.start ensures Candidate(text, k) <==> StartsAt(text, k) { CandidateStarts(text, k); }
    hide Candidate, StartsAt, FindFrom, IsCandidate;
  }

  /** Any other first candidate ahead is found later. */
  lemma NextFirst(text: Text, at: nat, m: Match, i0: nat, i: nat, j: nat, start: nat)
    requires Between(text, at) && FindFrom(text, at) == Some(m) && FirstCandidate(text, i0, m.end, m.start)
    requires FirstCandidate(text, i, j, start) && at <= start
    ensures start == m.start ==> i == i0 && j == m.end
    ensures start != m.start ==> m.end <= start
  {
    FindIsLeftmost(text, at);
    FirstIsStart(text, i0, m.end, m.start);
    FirstIsStart(text, i, j, start);
    hide FirstCandidate, StartsAt, FindFrom;
    if start < m.end { SamePiece(text, i0, m.end, i, j, start); }
    if start == m.start { SamePiece(text, i0, m.end, i, j, start); }
  }

  lemma NoFirst(text: Text, at: nat, hi: nat, i: nat, j: nat, start: nat)
    requires FindFrom(text, at).None? || hi <= FindFrom(text, at).value.start
    requires FirstCandidate(text, i, j, start) && at <= start
    ensures hi <= start
  {
    FindIsLeftmost(text, at);
    FirstIsStart(text, i, j, start);
    hide FirstCandidate, StartsAt, FindFrom;
  }

  /** The search from a link's end and from its candidate's end leave the same to do. */
  lemma SameSearchSameRest(env: Env, text: Text, lo: nat, hi: nat, a: nat, b: nat)
    requires lo <= a <= hi <= |text| && lo <= b <= hi && IsWord(text, lo, hi) && FindFrom(text, a) == FindFrom(text, b)
    ensures Remaining(env, text, lo, hi, a) == Remaining(env, text, lo, hi, b)
  {
    hide FindFrom, IsWord, Remaining, Accept;
    var m := FindFrom(text, a);
    if m.None? || hi <= m.value.start {
      RemainingEmpty(env, text, lo, hi, a);
      RemainingEmpty(env, text, lo, hi, b);
    } else {
      RemainingNext(env, text, lo, hi, a, m.value);
      RemainingNext(env, text, lo, hi, b, m.value);
    }
  }

  /** One round of the scan: the candidate found, as a link if it is one, and the rest of the word behind it. */
  lemma RemainingRound(env: Env, text: Text, lo: nat, hi: nat, at: nat, m: Match)
    requires lo <= at <= hi <= |text| && IsWord(text, lo, hi) && FindFrom(text, at) == Some(m) && m.start < hi
    ensures at <= m.start < m.end <= hi
    ensures var link := Accept(env, text, m);
            Remaining(env, text, lo, hi, at)
            == (if link.Some? then [link.value] else []) + Remaining(env, text, lo, hi, m.end)
  {
    hide FindFrom, IsWord, Remaining, Accept;
    RemainingNext(env, text, lo, hi, at, m);
    var link := Accept(env, text, m);
    if link.Some? {
      ResumePointIsImmaterial(env, text, m);
      SameSearchSameRest(env, text, lo, hi, link.value.end, m.end);
    } else {
      assert [] + Remaining(env, text, lo, hi, m.end) == Remaining(env, text, lo, hi, m.end);
    }
  }

  ghost predicate LinkAhead(env: Env, text: Text, hi: nat, at: nat, link: Link) {
    at <= link.start < hi && exists i: nat, j: nat :: LinkOf(env, text, i, j, link)
  }

  lemma {:induction false} ScanFindsExactly(env: Env, text: Text, lo: nat, hi: nat, at: nat, link: Link)
    requires lo <= at <= hi <= |text| && IsWord(text, lo, hi) && Between(text, at)
    ensures link in Remaining(env, text, lo, hi, at) <==> LinkAhead(env, text, hi, at, link)
    decreases hi - at
  {
    hide FindFrom, IsWord, Remaining, Accept, Between, FirstCandidate, LinkOf;
    var found := FindFrom(text, at);
    if found.None? || hi <= found.value.start {
      RemainingEmpty(env, text, lo, hi, at);
      if LinkAhead(env, text, hi, at, link) {
        var i: nat, j: nat :| LinkOf(env, text, i, j, link);
        LinkIsFirst(env, text, i, j, link);
        NoFirst(text, at, hi, i, j, link.start);
      }
    } else {
      var m := found.value;
      var i0 := FoundIsFirst(text, at, m);
      RemainingRound(env, text, lo, hi, at, m);
      ScanFindsExactly(env, text, lo, hi, m.end, link);
      OneRound(env, text, hi, at, m, i0, link);
    }
  }

  lemma LinkIsFirst(env: Env, text: Text, i: nat, j: nat, link: Link)
    requires LinkOf(env, text, i, j, link)
    ensures FirstCandidate(text, i, j, link.start)
  {
  }

  lemma OneRound(env: Env, text: Text, hi: nat, at: nat, m: Match, i0: nat, link: Link)
    requires Between(text, at) && FindFrom(text, at) == Some(m) && at <= m.start < m.end <= hi
    requires FirstCandidate(text, i0, m.end, m.start)
    ensures LinkAhead(env, text, hi, at, link)
            <==> Accept(env, text, m) == Some(link) || LinkAhead(env, text, hi, m.end, link)
  {
    hide FindFrom, Accept, Between, FirstCandidate, LinkOf;
    if LinkAhead(env, text, hi, at, link) {
      var i: nat, j: nat :| LinkOf(env, text, i, j, link);
      LinkIsFirst(env, text, i, j, link);
      NextFirst(text, at, m, i0, i, j, link.start);
      if link.start == m.start { AcceptIsLiteral(env, text, i, j, link); }
    }
    if Accept(env, text, m) == Some(link) {
      AcceptStart(env, text, m);
      AcceptIsLiteral(env, text, i0, m.end, link);
    }
  }

  lemma AcceptStart(env: Env, text: Text, m: Match)
    requires m.start < m.end <= |text| && Accept(env, text, m).Some?
    ensures Accept(env, text, m).value.start == m.start
  {
  }

  // ---------- Whole messages ----------

  ghost predicate LinkFrom(env: Env, text: Text, from: nat, link: Link) {
    exists lo: nat, hi: nat, i: nat, j: nat :: from <= lo && LinkIn(env, text, lo, hi, i, j, link)
  }

  /** Where the walk over words may stand. */
  predicate AtWord(text: Text, from: nat) {
    0 < from < |text| ==> IsSpace(text[from - 1]) || IsSpace(text[from])
  }

  lemma SpaceIsBetween(text: Text, at: nat)
    requires at == 0 || at >= |text| || IsSpace(text[at - 1]) || IsSpace(text[at])
    ensures Between(text, at)
  {
  }

  /** A link of a word lies in a piece of it, so the word is not empty. */
  lemma LinkInIsInside(env: Env, text: Text, lo: nat, hi: nat, i: nat, j: nat, link: Link)
    requires LinkIn(env, text, lo, hi, i, j, link)
    ensures lo <= i <= link.start < j <= hi <= |text| && IsWord(text, lo, hi)
  {
    hide IsSpace, Tainted;
    LinkIsFirst(env, text, i, j, link);
    FirstIsInside(text, i, j, link.start);
  }

  lemma LinksOfWord(env: Env, text: Text, lo: nat, hi: nat, link: Link)
    requires lo < hi && IsWord(text, lo, hi)
    ensures link in Moved(WordLinks(env, text[lo..hi]), lo)
            <==> exists i: nat, j: nat :: LinkIn(env, text, lo, hi, i, j, link)
  {
    SliceIsWord(text, lo, hi);
    PoisonedInWord(env, text[lo..hi], text, lo, hi);
    TaintIsPoison(env, text, lo, hi);
    SpaceIsBetween(text, lo);
    SpaceIsBetween(text, hi);
    hide Poisoned, Tainted, Scan, WordOf, LinkOf, Between, IsWord;
    ScanFindsExactly(env, text, lo, hi, lo, link);
    if LinkAhead(env, text, hi, lo, link) && !Tainted(env, text, lo, hi) {
      var i: nat, j: nat :| LinkOf(env, text, i, j, link);
      LinkIsFirst(env, text, i, j, link);
      PieceStaysInWord(text, lo, hi, i, j, link.start);
      assert LinkIn(env, text, lo, hi, i, j, link);
    }
    if exists i: nat, j: nat :: LinkIn(env, text, lo, hi, i, j, link) {
      var i: nat, j: nat :| LinkIn(env, text, lo, hi, i, j, link);
      LinkInIsInside(env, text, lo, hi, i, j, link);
    }
  }

  lemma PieceStaysInWord(text: Text, lo: nat, hi: nat, i: nat, j: nat, start: nat)
    requires FirstCandidate(text, i, j, start) && Between(text, lo) && Between(text, hi) && lo <= start < hi
    ensures lo <= i && j <= hi
  {
    FirstIsStart(text, i, j, start);
    PieceIsAhead(text, lo, i, j, start);
    PieceIsAhead(text, hi, i, j, start);
  }

  lemma SameWord(text: Text, lo: nat, hi: nat, lo2: nat, hi2: nat, at: nat)
    requires IsWord(text, lo, hi) && IsWord(text, lo2, hi2) && lo <= at < hi && lo2 <= at < hi2
    ensures lo == lo2 && hi == hi2
  {
    hide IsSpace;
  }

  lemma WordAhead(text: Text, lo: nat, hi: nat, lo2: nat, hi2: nat)
    requires IsWord(text, lo, hi) && IsWord(text, lo2, hi2) && lo < hi && lo <= lo2 < hi2
    ensures (lo2 == lo && hi2 == hi) || hi <= lo2
  {
    hide IsSpace;
    if lo2 < hi { SameWord(text, lo, hi, lo2, hi2, lo2); }
  }

  lemma {:induction false} MessageLinksAre(env: Env, text: Text, from: nat, link: Link)
    requires AtWord(text, from)
    ensures link in MessageLinks(env, text, from) <==> LinkFrom(env, text, from, link)
    decreases |text| - from
  {
    hide LinkIn, WordLinks, IsSpace, IsWord, WordEnd;
    if from >= |text| {
      if LinkFrom(env, text, from, link) {
        var lo: nat, hi: nat, i: nat, j: nat :| from <= lo && LinkIn(env, text, lo, hi, i, j, link);
        LinkInIsInside(env, text, lo, hi, i, j, link);
      }
    } else if IsSpace(text[from]) {
      MessageLinksAre(env, text, from + 1, link);
      if LinkFrom(env, text, from, link) {
        var lo: nat, hi: nat, i: nat, j: nat :| from <= lo && LinkIn(env, text, lo, hi, i, j, link);
        LinkInIsInside(env, text, lo, hi, i, j, link);
        NoWordAtSpace(text, lo, hi, from);
      }
    } else {
      var end := WordEnd(text, from);
      WordEndIsWord(text, from);
      AfterWord(text, from, end);
      MessageLinksAre(env, text, end, link);
      LinksOfWord(env, text, from, end, link);
      if LinkFrom(env, text, from, link) {
        var lo: nat, hi: nat, i: nat, j: nat :| from <= lo && LinkIn(env, text, lo, hi, i, j, link);
        LinkInIsInside(env, text, lo, hi, i, j, link);
        WordAhead(text, from, end, lo, hi);
      }
    }
  }

  lemma NoWordAtSpace(text: Text, lo: nat, hi: nat, at: nat)
    requires IsWord(text, lo, hi) && lo < hi && at < |text| && IsSpace(text[at])
    ensures lo != at
  {
  }

  lemma AfterWord(text: Text, lo: nat, hi: nat)
    requires IsWord(text, lo, hi)
    ensures AtWord(text, hi)
  {
  }

  /** The links of a message, by its characters: in every word that no foreign scheme taints, the first candidate of every
      piece that stands at a boundary and whose kept text points to a web address; and no others. */
  lemma LinksAreExactly(env: Env, text: Text, link: Link)
    ensures link in MessageLinks(env, text, 0)
            <==> exists lo: nat, hi: nat, i: nat, j: nat :: LinkIn(env, text, lo, hi, i, j, link)
  {
    hide LinkIn, MessageLinks;
    MessageLinksAre(env, text, 0, link);
    if exists lo: nat, hi: nat, i: nat, j: nat :: LinkIn(env, text, lo, hi, i, j, link) {
      var lo: nat, hi: nat, i: nat, j: nat :| LinkIn(env, text, lo, hi, i, j, link);
      assert 0 <= lo && LinkIn(env, text, lo, hi, i, j, link);
    }
  }

  /** A word with a piece that opens with a foreign scheme stays plain. */
  lemma ForeignWordStaysPlain(env: Env, text: Text, lo: nat, hi: nat, i: nat, j: nat, k: nat, c: nat, link: Link)
    requires IsWord(text, lo, hi) && ForeignIn(env, text, lo, hi, i, j, k, c) && link in MessageLinks(env, text, 0)
    ensures link.start < lo || hi <= link.start
  {
    hide IsWord, MessageLinks;
    assert Tainted(env, text, lo, hi);
    LinksAreExactly(env, text, link);
    var lo2: nat, hi2: nat, i2: nat, j2: nat :| LinkIn(env, text, lo2, hi2, i2, j2, link);
    LinkInIsInside(env, text, lo2, hi2, i2, j2, link);
    if lo <= link.start < hi { SameWord(text, lo, hi, lo2, hi2, link.start); }
  }

  // ---------- A message that is one web address ----------

  lemma WholeTextIsWord(text: Text)
    requires Piece(text, 0, |text|)
    ensures IsWord(text, 0, |text|)
  {
  }

  /** The colon of `www.` and a host name taken for the end of a scheme. */
  ghost predicate PortLike(text: Text) {
    exists c: nat :: c < |text| && text[c] == ':' as int && forall m :: 0 <= m < c ==> IsSchemeChar(text[m])
  }

  lemma AddressOpens(env: Env, text: Text, n: nat)
    requires Opens(text, 0, n)
    ensures IsAsciiLetter(text[0]) && IsLetterOrNumber(env, text[0])
  {
    OpensIsPrefix(text, 0, n);
  }

  lemma HttpIsNotForeign(env: Env, text: Text, n: nat, k: nat, c: nat)
    requires Opens(text, 0, n) && n != 4
    ensures !ForeignAt(env, text, 0, |text|, k, c)
  {
    AddressOpens(env, text, n);
    OpensIsPrefix(text, 0, n);
    hide IsLetterOrNumber, Opens;
    if ForeignAt(env, text, 0, |text|, k, c) {
      assert k == 0;
      var colon := n - 3;
      ColonEndsScheme();
      assert text[colon] == COLON;
      assert c <= colon;
      SchemeOfHttp(text, n, c);
    }
  }

  lemma SchemeOfHttp(text: Text, n: nat, c: nat)
    requires 0 < n == PrefixLength(text, 0) && n != 4 && c <= n - 3 && text[c] == COLON
    requires forall m :: 0 <= m < c ==> IsSchemeChar(text[m])
    ensures Spells(text[0..c], "http") || Spells(text[0..c], "https")
  {
    var s, t := "http", "https";
    assert s[0] == 'h' && s[1] == 't' && s[2] == 't' && s[3] == 'p' && |s| == 4;
    assert t[0] == 'h' && t[1] == 't' && t[2] == 't' && t[3] == 'p' && t[4] == 's' && |t| == 5;
    assert c == n - 3;
  }

  lemma WwwIsForeign(env: Env, text: Text)
    requires Opens(text, 0, 4) && |text| > 4
    ensures (exists k: nat, c: nat :: ForeignAt(env, text, 0, |text|, k, c)) <==> PortLike(text)
  {
    AddressOpens(env, text, 4);
    OpensIsPrefix(text, 0, 4);
    assert text[3] == DOT && forall m :: 0 <= m < 4 ==> text[m] != COLON;
    hide Opens, IsLetterOrNumber, IsSchemeChar;
    if PortLike(text) {
      var c: nat :| c < |text| && text[c] == ':' as int && forall m :: 0 <= m < c ==> IsSchemeChar(text[m]);
      assert c > 3 && text[0..c][3] == DOT;
      DotSpellsNothing(text[0..c]);
      assert ForeignAt(env, text, 0, |text|, 0, c);
    }
  }

  lemma DotSpellsNothing(name: Text)
    requires |name| > 3 && name[3] == DOT
    ensures !Spells(name, "http") && !Spells(name, "https")
  {
    assert "http"[3] == 'p' && "https"[3] == 'p';
  }

  /** Whether the only piece of a message, which opens like a web address, is taken for a foreign scheme. */
  lemma AddressTaint(env: Env, text: Text, n: nat)
    requires Piece(text, 0, |text|) && Opens(text, 0, n) && n < |text|
    ensures Tainted(env, text, 0, |text|) <==> n == 4 && PortLike(text)
  {
    hide Opens, PortLike;
    if n == 4 { WwwIsForeign(env, text); }
    else { forall k: nat, c: nat ensures !ForeignAt(env, text, 0, |text|, k, c) { HttpIsNotForeign(env, text, n, k, c); } }
    hide ForeignAt;
    if Tainted(env, text, 0, |text|) {
      var i: nat, j: nat, k: nat, c: nat :| ForeignIn(env, text, 0, |text|, i, j, k, c);
      SamePiece(text, 0, |text|, i, j, i);
    }
    if exists k: nat, c: nat :: ForeignAt(env, text, 0, |text|, k, c) {
      var k: nat, c: nat :| ForeignAt(env, text, 0, |text|, k, c);
      assert ForeignIn(env, text, 0, |text|, 0, |text|, k, c);
    }
  }

  lemma AddressIsFirst(text: Text, n: nat)
    requires Piece(text, 0, |text|) && Opens(text, 0, n) && n < |text|
    ensures FirstCandidate(text, 0, |text|, 0)
  {
    hide Opens;
    assert Candidate(text, 0);
  }

  lemma OnlyLinkOfAddress(env: Env, text: Text, n: nat, e: nat, href: Text, link: Link)
    requires Piece(text, 0, |text|) && Opens(text, 0, n) && n < |text|
    requires LongestKept(text, 0, |text|, e) && PointsTo(text[..e], href)
    ensures link in MessageLinks(env, text, 0)
            <==> link == Link(0, e, href) && e > 0 && env.webUrl(href) && !(n == 4 && PortLike(text))
  {
    WholeTextIsWord(text);
    AddressTaint(env, text, n);
    AddressIsFirst(text, n);
    LinksAreExactly(env, text, link);
    hide MessageLinks, Opens, PortLike, Tainted, IsWord, PointsTo, LongestKept, FirstCandidate;
    assert text[0..e] == text[..e];
    if link in MessageLinks(env, text, 0) {
      var lo: nat, hi: nat, i: nat, j: nat :| LinkIn(env, text, lo, hi, i, j, link);
      LinkInIsInside(env, text, lo, hi, i, j, link);
      SameWord(text, lo, hi, 0, |text|, link.start);
      LinkIsFirst(env, text, i, j, link);
      SameFirst(text, i, j, link.start);
      SameCut(text, |text|, e, link.end);
      SameHref(text[..e], href, link.href);
    }
    if link == Link(0, e, href) && e > 0 && env.webUrl(href) && !(n == 4 && PortLike(text)) {
      assert LinkIn(env, text, 0, |text|, 0, |text|, link);
    }
  }

  lemma SameFirst(text: Text, i: nat, j: nat, start: nat)
    requires FirstCandidate(text, 0, |text|, 0) && FirstCandidate(text, i, j, start)
    ensures i == 0 && j == |text| && start == 0
  {
    SamePiece(text, 0, |text|, i, j, start);
    hide IsCandidate, Candidate;
  }

  lemma SameCut(text: Text, j: nat, e: nat, f: nat)
    requires j <= |text| && LongestKept(text, 0, j, e) && LongestKept(text, 0, j, f)
    ensures e == f
  {
    hide Kept;
  }

  lemma SameHref(raw: Text, href: Text, other: Text)
    requires PointsTo(raw, href) && PointsTo(raw, other)
    ensures href == other
  {
    hide Reads;
  }

  lemma NeighboursDiffer(links: seq<Link>, to: nat)
    requires Spaced(links, 0, to) && |links| > 1
    ensures links[0] != links[1]
  {
    assert links[1..][0] == links[1];
  }

  lemma AllAre(links: seq<Link>, only: Link, i: nat)
    requires i < |links| && forall link :: link in links ==> link == only
    ensures links[i] == only
  {
    assert links[i] in links;
  }

  /** A list of links in order, all of which are one and the same. */
  lemma OnlyOne(links: seq<Link>, only: Link, to: nat)
    requires Spaced(links, 0, to) && forall link :: link in links ==> link == only
    ensures links == [] || links == [only]
  {
    hide Spaced;
    if |links| > 0 { AllAre(links, only, 0); }
    if |links| > 1 {
      NeighboursDiffer(links, to);
      AllAre(links, only, 1);
    }
  }

  /** A message that is `http://`, `https://` or `www.` in any case, followed by characters of a link: its kept text becomes
      the one link, trailing punctuation after it plain, exactly when its target is a web address. But `www.` and a host
      name followed by a colon, as before a port, stays plain: it is taken for a scheme. */
  lemma AddressBecomesLink(env: Env, text: Text, n: nat, e: nat, href: Text)
    requires Piece(text, 0, |text|) && Opens(text, 0, n) && n < |text|
    requires LongestKept(text, 0, |text|, e) && PointsTo(text[..e], href)
    ensures Spaced(MessageLinks(env, text, 0), 0, |text|)
    ensures Rendered(text, MessageLinks(env, text, 0))
            == if e > 0 && env.webUrl(href) && !(n == 4 && PortLike(text))
               then [Anchor(href, text[..e])] + (if e < |text| then [Plain(text[e..])] else [])
               else [Plain(text)]
  {
    hide MessageLinks, Opens, PortLike, PointsTo, LongestKept, Piece;
    MessageIsSpaced(env, text, 0);
    var links, only := MessageLinks(env, text, 0), Link(0, e, href);
    var linked := e > 0 && env.webUrl(href) && !(n == 4 && PortLike(text));
    forall link ensures link in links <==> link == only && linked { OnlyLinkOfAddress(env, text, n, e, href, link); }
    OnlyOne(links, only, |text|);
    assert linked ==> only in links;
    assert links != [] ==> links[0] in links;
    assert links == if linked then [only] else [];
    RenderOne(text, e, href);
  }

  lemma RenderOne(text: Text, e: nat, href: Text)
    requires text != []
    ensures Rendered(text, []) == [Plain(text)]
    ensures 0 < e <= |text| ==>
              Spaced([Link(0, e, href)], 0, |text|)
              && Rendered(text, [Link(0, e, href)])
                 == [Anchor(href, text[..e])] + (if e < |text| then [Plain(text[e..])] else [])
  {
    assert text[0..] == text;
    if 0 < e <= |text| {
      var links := [Link(0, e, href)];
      assert links[1..] == [];
      assert text[0..e] == text[..e];
      assert Render(text, [], e) == if e < |text| then [Plain(text[e..])] else [];
      assert Render(text, links, 0) == [] + [Anchor(href, text[..e])] + Render(text, [], e);
    }
  }

  // ---------- Every link is shown as an anchor ----------

  function Anchors(nodes: seq<Node>): seq<Node> {
    if nodes == [] then [] else (if nodes[0].Anchor? then [nodes[0]] else []) + Anchors(nodes[1..])
  }

  lemma {:induction false} AnchorsConcat(p: seq<Node>, q: seq<Node>)
    ensures Anchors(p + q) == Anchors(p) + Anchors(q)
  {
    if p == [] {
      assert p + q == q;
    } else {
      assert (p + q)[0] == p[0] && (p + q)[1..] == p[1..] + q;
      AnchorsConcat(p[1..], q);
    }
  }

  /** The anchors among the nodes are the links, in order, each with its own text and target. */
  lemma {:induction false} AnchorsAreLinks(text: Text, links: seq<Link>, last: nat)
    requires last <= |text| && Spaced(links, last, |text|)
    ensures var anchors := Anchors(Render(text, links, last));
            |anchors| == |links|
            && forall i :: 0 <= i < |links| ==>
                 links[i].start < links[i].end <= |text|
                 && anchors[i] == Anchor(links[i].href, text[links[i].start..links[i].end])
    decreases |links|
  {
    if links != [] {
      var link, rest := links[0], links[1..];
      SpacedBound(rest, link.end, |text|);
      AnchorsAreLinks(text, rest, link.end);
      var before := if link.start > last then [Plain(text[last..link.start])] else [];
      var here := [Anchor(link.href, text[link.start..link.end])];
      AnchorsConcat(before + here, Render(text, rest, link.end));
      AnchorsConcat(before, here);
      assert Anchors(before) == [] && Anchors(here) == here;
      assert forall i :: 1 <= i < |links| ==> links[i] == rest[i - 1];
    } else if last < |text| {
      assert Anchors([Plain(text[last..])]) == [];
    }
  }
}
