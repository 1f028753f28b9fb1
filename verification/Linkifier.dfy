/** The chat linkifier: a one-pass scan of the whole message against scanning each word on its own. */
module Linkifier {
  import opened Wrappers
  import opened LinkText

  datatype Link = Link(start: nat, end: nat, href: Text)

  // ---------- Reference: one word at a time ----------

  const HTTPS_PREFIX: Text := [0x68, 0x74, 0x74, 0x70, 0x73, COLON, SLASH, SLASH]

  predicate OpensWww(raw: Text) {
    4 <= |raw| && EqualsIgnoringCase(raw[..3], [0x77, 0x77, 0x77]) && raw[3] == DOT
  }

  function Href(raw: Text): Text {
    if OpensWww(raw) then HTTPS_PREFIX + raw else raw
  }

  datatype Target = Target(length: nat, href: Text)

  /** Where the peeled text of a candidate points, if that is a web URL. */
  function TargetOf(env: Env, raw: Text): (target: Option<Target>)
    ensures target.Some? ==> 0 < target.value.length <= |raw|
  {
    var end := PeelFrom(raw, |raw|);
    if end == 0 || !env.webUrl(Href(raw[..end])) then None else Some(Target(end, Href(raw[..end])))
  }

  predicate AtBoundary(env: Env, text: Text, start: nat)
    requires start <= |text|
  {
    start == 0 || !Continues(env, CodePointBefore(text, start))
  }

  function Accept(env: Env, text: Text, m: Match): (link: Option<Link>)
    requires m.start < m.end <= |text|
    ensures link.Some? ==> link.value.start == m.start < link.value.end <= m.end
  {
    var target := TargetOf(env, text[m.start..m.end]);
    if AtBoundary(env, text, m.start) && target.Some?
    then Some(Link(m.start, m.start + target.value.length, target.value.href)) else None
  }

  /** Links of `word` from `from` on: after a link the search resumes behind it, after a rejected candidate behind that. */
  function Scan(env: Env, word: Text, from: nat): seq<Link>
    decreases |word| - from
  {
    match FindFrom(word, from)
    case None => []
    case Some(m) =>
      match Accept(env, word, m)
      case None => Scan(env, word, m.end)
      case Some(link) => [link] + Scan(env, word, link.end)
  }

  ghost function WordLinks(env: Env, word: Text): seq<Link> {
    if Poisoned(env, word, 0, |word|) then [] else Scan(env, word, 0)
  }

  function WordEnd(text: Text, i: nat): (end: nat)
    requires i <= |text|
    ensures i <= end <= |text|
    decreases |text| - i
  {
    if i < |text| && !IsSpace(text[i]) then WordEnd(text, i + 1) else i
  }

  function Moved(links: seq<Link>, shift: nat): (moved: seq<Link>)
    ensures |moved| == |links|
  {
    seq(|links|, i requires 0 <= i < |links| => Link(links[i].start + shift, links[i].end + shift, links[i].href))
  }

  /** Every word of `text[from..]` is scanned as if it stood alone. */
  ghost function MessageLinks(env: Env, text: Text, from: nat): seq<Link>
    decreases |text| - from
  {
    if from >= |text| then []
    else if IsSpace(text[from]) then MessageLinks(env, text, from + 1)
    else
      var end := WordEnd(text, from);
      Moved(WordLinks(env, text[from..end]), from) + MessageLinks(env, text, end)
  }

  // ---------- Nodes ----------

  datatype Node = Plain(text: Text) | Anchor(href: Text, text: Text)

  predicate Spaced(links: seq<Link>, from: nat, to: nat) {
    if links == [] then from <= to
    else from <= links[0].start < links[0].end && Spaced(links[1..], links[0].end, to)
  }

  /** The nodes for `text[last..]`. */
  function Render(text: Text, links: seq<Link>, last: nat): seq<Node>
    requires last <= |text| && Spaced(links, last, |text|)
    decreases |links|
  {
    if links == [] then if last < |text| then [Plain(text[last..])] else []
    else
      SpacedBound(links[1..], links[0].end, |text|);
      (if links[0].start > last then [Plain(text[last..links[0].start])] else [])
      + [Anchor(links[0].href, text[links[0].start..links[0].end])]
      + Render(text, links[1..], links[0].end)
  }

  function Rendered(text: Text, links: seq<Link>): seq<Node>
    requires Spaced(links, 0, |text|)
  {
    var nodes := Render(text, links, 0);
    if nodes == [] then [Plain(text)] else nodes
  }

  function Visible(nodes: seq<Node>): Text {
    if nodes == [] then [] else nodes[0].text + Visible(nodes[1..])
  }

  lemma {:induction false} SpacedBound(links: seq<Link>, from: nat, to: nat)
    requires Spaced(links, from, to)
    ensures from <= to
    decreases |links|
  {
    if links != [] {
      SpacedBound(links[1..], links[0].end, to);
    }
  }

  // ---------- A word in its message behaves as it does alone ----------

  predicate IsWord(text: Text, lo: nat, hi: nat) {
    && lo <= hi <= |text|
    && (lo == 0 || IsSpace(text[lo - 1]))
    && (hi == |text| || IsSpace(text[hi]))
    && forall k :: lo <= k < hi ==> !IsSpace(text[k])
  }

  /** `w` is a word of `text`, taken out of it. */
  ghost predicate WordOf(w: Text, text: Text, lo: nat, hi: nat) {
    && lo <= hi <= |text| && IsWord(text, lo, hi)
    && |w| == hi - lo && forall k :: 0 <= k < |w| ==> w[k] == text[lo + k]
  }

  lemma SliceOfWord(w: Text, text: Text, lo: nat, hi: nat, i: nat, j: nat)
    requires WordOf(w, text, lo, hi) && i <= j <= |w|
    ensures w[i..j] == text[lo + i..lo + j]
  {
    hide IsWord;
    forall k | 0 <= k < j - i ensures w[i..j][k] == text[lo + i..lo + j][k] {
      assert w[i + k] == text[lo + (i + k)];
    }
  }

  lemma FoldedIsCandidate(u: Unit, lower: int)
    requires Folds(u, lower) && 0x61 <= lower <= 0x7A
    ensures IsCandidate(u)
  {
  }

  /** A prefix contains no white space, so it cannot reach over the end of a word. */
  lemma PrefixIsCandidate(text: Text, i: nat, k: nat)
    requires i <= k < i + PrefixLength(text, i)
    ensures k < |text| && IsCandidate(text[k])
  {
    hide IsCandidate;
    var n := PrefixLength(text, i);
    assert IsCandidate(COLON) && IsCandidate(SLASH) && IsCandidate(DOT) by { PunctuationIsCandidate(); }
    if n == 4 {
      if k < i + 3 { FoldedIsCandidate(text[k], 0x77); }
    } else {
      if k == i { FoldedIsCandidate(text[k], 0x68); }
      else if k < i + 3 { FoldedIsCandidate(text[k], 0x74); }
      else if k == i + 3 { FoldedIsCandidate(text[k], 0x70); }
      else if n == 8 && k == i + 4 { FoldedIsCandidate(text[k], 0x73); }
    }
  }

  lemma PunctuationIsCandidate()
    ensures IsCandidate(COLON) && IsCandidate(SLASH) && IsCandidate(DOT)
  {
  }

  lemma PrefixStaysInWord(text: Text, lo: nat, hi: nat, i: nat)
    requires IsWord(text, lo, hi) && lo <= i < hi
    ensures i + PrefixLength(text, i) <= hi
  {
    hide PrefixLength;
    if hi < i + PrefixLength(text, i) {
      PrefixIsCandidate(text, i, hi);
    }
  }

  lemma PrefixInWord(w: Text, text: Text, lo: nat, hi: nat, i: nat)
    requires WordOf(w, text, lo, hi) && i < |w|
    ensures PrefixLength(w, i) == PrefixLength(text, lo + i)
  {
    PrefixStaysInWord(text, lo, hi, lo + i);
    hide IsWord;
    hide Folds;
  }

  lemma {:induction false} RunInWord(w: Text, text: Text, lo: nat, hi: nat, i: nat)
    requires WordOf(w, text, lo, hi) && i <= |w|
    ensures RunEnd(text, lo + i) == lo + RunEnd(w, i)
    decreases |w| - i
  {
    if i < |w| && IsCandidate(w[i]) {
      RunInWord(w, text, lo, hi, i + 1);
    }
  }

  lemma StartInWord(w: Text, text: Text, lo: nat, hi: nat, i: nat)
    requires WordOf(w, text, lo, hi) && i < |w|
    ensures StartsAt(w, i) <==> StartsAt(text, lo + i)
  {
    hide PrefixLength;
    PrefixInWord(w, text, lo, hi, i);
    PrefixStaysInWord(text, lo, hi, lo + i);
  }

  lemma {:induction false} FindInWord(w: Text, text: Text, lo: nat, hi: nat, i: nat)
    requires WordOf(w, text, lo, hi) && i <= |w|
    ensures var m := FindFrom(w, i);
            FindFrom(text, lo + i) == if m.Some? then Some(Match(lo + m.value.start, lo + m.value.end)) else FindFrom(text, hi)
    decreases |w| - i
  {
    hide PrefixLength;
    hide StartsAt;
    hide RunEnd;
    if i < |w| {
      StartInWord(w, text, lo, hi, i);
      if StartsAt(w, i) {
        PrefixInWord(w, text, lo, hi, i);
        assert i + PrefixLength(w, i) <= |w| by { PrefixStaysInWord(text, lo, hi, lo + i); }
        RunInWord(w, text, lo, hi, i + PrefixLength(w, i));
      } else {
        FindInWord(w, text, lo, hi, i + 1);
      }
    }
  }

  lemma SpaceDoesNotContinue(env: Env, u: Unit)
    requires IsSpace(u)
    ensures !Continues(env, u) && !(0xDC00 <= u <= 0xDFFF) && !(0xD800 <= u <= 0xDBFF)
  {
  }

  lemma BoundaryInWord(env: Env, w: Text, text: Text, lo: nat, hi: nat, i: nat)
    requires WordOf(w, text, lo, hi) && i < |w|
    ensures AtBoundary(env, text, lo + i) <==> AtBoundary(env, w, i)
  {
    hide Continues;
    hide IsSpace;
    if lo > 0 {
      SpaceDoesNotContinue(env, text[lo - 1]);
    }
  }

  lemma AcceptInWord(env: Env, w: Text, text: Text, lo: nat, hi: nat, m: Match)
    requires WordOf(w, text, lo, hi) && m.start < m.end <= |w|
    ensures var a := Accept(env, w, m);
            Accept(env, text, Match(lo + m.start, lo + m.end))
            == if a.Some? then Some(Link(lo + a.value.start, lo + a.value.end, a.value.href)) else None
  {
    hide AtBoundary;
    hide TargetOf;
    hide IsWord;
    BoundaryInWord(env, w, text, lo, hi, m.start);
    SliceOfWord(w, text, lo, hi, m.start, m.end);
  }

  lemma {:induction false} WrappersInWord(env: Env, w: Text, text: Text, lo: nat, hi: nat, i: nat, j: nat)
    requires WordOf(w, text, lo, hi) && i <= j <= |w|
    ensures SkipWrappers(env, text, lo + i, lo + j) == lo + SkipWrappers(env, w, i, j)
    decreases j - i
  {
    hide IsLetterOrNumber;
    hide IsWord;
    if i < j && !IsLetterOrNumber(env, w[i]) {
      WrappersInWord(env, w, text, lo, hi, i + 1, j);
    }
  }

  lemma {:induction false} SchemeRunInWord(w: Text, text: Text, lo: nat, hi: nat, i: nat)
    requires WordOf(w, text, lo, hi) && i <= |w|
    ensures SchemeRun(text, lo + i) == lo + SchemeRun(w, i)
    decreases |w| - i
  {
    if i < |w| && IsSchemeChar(w[i]) {
      SchemeRunInWord(w, text, lo, hi, i + 1);
    }
  }

  lemma SchemeInWord(w: Text, text: Text, lo: nat, hi: nat, i: nat)
    requires WordOf(w, text, lo, hi) && i < |w|
    ensures SchemeAt(text, lo + i) == SchemeAt(w, i)
  {
    SchemeRunInWord(w, text, lo, hi, i);
    hide SchemeRun;
    hide IsAsciiLetter;
    SliceOfWord(w, text, lo, hi, i, SchemeRun(w, i));
  }

  lemma OpensForeignInWord(env: Env, w: Text, text: Text, lo: nat, hi: nat, i: nat, j: nat)
    requires WordOf(w, text, lo, hi) && i <= j <= |w|
    ensures OpensForeign(env, w, i, j) <==> OpensForeign(env, text, lo + i, lo + j)
  {
    hide SchemeAt;
    hide SkipWrappers;
    hide IsWebScheme;
    WrappersInWord(env, w, text, lo, hi, i, j);
    var p := SkipWrappers(env, w, i, j);
    if p < j {
      SchemeInWord(w, text, lo, hi, p);
    }
  }

  lemma SegmentInWord(w: Text, text: Text, lo: nat, hi: nat, i: nat, j: nat)
    requires WordOf(w, text, lo, hi)
    ensures IsSegment(w, 0, |w|, i, j) <==> IsSegment(text, lo, hi, lo + i, lo + j)
  {
    hide IsSeparator;
    hide IsWord;
    if IsSegment(text, lo, hi, lo + i, lo + j) {
      assert forall k :: i <= k < j ==> w[k] == text[lo + k];
    } else if IsSegment(w, 0, |w|, i, j) {
      assert forall k :: lo + i <= k < lo + j ==> text[k] == w[k - lo];
    }
  }

  lemma PoisonedInWord(env: Env, w: Text, text: Text, lo: nat, hi: nat)
    requires WordOf(w, text, lo, hi)
    ensures Poisoned(env, w, 0, |w|) <==> Poisoned(env, text, lo, hi)
  {
    hide OpensForeign;
    hide IsWord;
    if Poisoned(env, w, 0, |w|) {
      var i: nat, j: nat :| IsSegment(w, 0, |w|, i, j) && OpensForeign(env, w, i, j);
      OpensForeignInWord(env, w, text, lo, hi, i, j);
      SegmentInWord(w, text, lo, hi, i, j);
    }
    if Poisoned(env, text, lo, hi) {
      var i: nat, j: nat :| IsSegment(text, lo, hi, i, j) && OpensForeign(env, text, i, j);
      OpensForeignInWord(env, w, text, lo, hi, i - lo, j - lo);
      SegmentInWord(w, text, lo, hi, i - lo, j - lo);
    }
  }

  lemma WordEndIsWord(text: Text, i: nat)
    requires i < |text| && !IsSpace(text[i]) && (i == 0 || IsSpace(text[i - 1]))
    ensures IsWord(text, i, WordEnd(text, i)) && i < WordEnd(text, i)
  {
    WordEndFacts(text, i);
  }

  lemma {:induction false} WordEndFacts(text: Text, i: nat)
    requires i <= |text|
    ensures forall k :: i <= k < WordEnd(text, i) ==> !IsSpace(text[k])
    ensures WordEnd(text, i) == |text| || IsSpace(text[WordEnd(text, i)])
    decreases |text| - i
  {
    if i < |text| && !IsSpace(text[i]) {
      WordEndFacts(text, i + 1);
    }
  }

  // ---------- Links are in order, apart, and inside words that are clear ----------

  lemma {:induction false} ScanIsSpaced(env: Env, word: Text, from: nat)
    requires from <= |word|
    ensures Spaced(Scan(env, word, from), from, |word|)
    decreases |word| - from
  {
    hide Accept;
    var m := FindFrom(word, from);
    if m.Some? {
      var link := Accept(env, word, m.value);
      if link.Some? {
        ScanIsSpaced(env, word, link.value.end);
        assert ([link.value] + Scan(env, word, link.value.end))[1..] == Scan(env, word, link.value.end);
      } else {
        ScanIsSpaced(env, word, m.value.end);
        SpacedFromEarlier(Scan(env, word, m.value.end), from, m.value.end, |word|);
      }
    }
  }

  lemma SpacedFromEarlier(links: seq<Link>, early: nat, from: nat, to: nat)
    requires early <= from && Spaced(links, from, to)
    ensures Spaced(links, early, to)
  {
  }

  lemma {:induction false} MovedIsSpaced(links: seq<Link>, shift: nat, from: nat, to: nat)
    requires Spaced(links, from, to)
    ensures Spaced(Moved(links, shift), from + shift, to + shift)
    decreases |links|
  {
    if links != [] {
      MovedIsSpaced(links[1..], shift, links[0].end, to);
      assert Moved(links, shift)[1..] == Moved(links[1..], shift);
    }
  }

  lemma {:induction false} SpacedConcat(p: seq<Link>, q: seq<Link>, from: nat, mid: nat, to: nat)
    requires Spaced(p, from, mid) && Spaced(q, mid, to)
    ensures Spaced(p + q, from, to)
    decreases |p|
  {
    if p == [] {
      assert p + q == q;
      SpacedFromEarlier(q, from, mid, to);
    } else {
      assert (p + q)[1..] == p[1..] + q;
      SpacedConcat(p[1..], q, p[0].end, mid, to);
    }
  }

  lemma WordIsSpaced(env: Env, word: Text)
    ensures Spaced(WordLinks(env, word), 0, |word|)
  {
    ScanIsSpaced(env, word, 0);
  }

  lemma {:induction false} MessageIsSpaced(env: Env, text: Text, from: nat)
    requires from <= |text|
    ensures Spaced(MessageLinks(env, text, from), from, |text|)
    decreases |text| - from
  {
    hide WordLinks;
    if from < |text| {
      if IsSpace(text[from]) {
        MessageIsSpaced(env, text, from + 1);
        SpacedFromEarlier(MessageLinks(env, text, from + 1), from, from + 1, |text|);
      } else {
        var end := WordEnd(text, from);
        WordIsSpaced(env, text[from..end]);
        MovedIsSpaced(WordLinks(env, text[from..end]), from, 0, end - from);
        MessageIsSpaced(env, text, end);
        SpacedConcat(Moved(WordLinks(env, text[from..end]), from), MessageLinks(env, text, end), from, end, |text|);
      }
    }
  }

  // ---------- The one-pass scan ----------

  lemma {:induction false} FindLater(text: Text, from: nat, later: nat)
    requires from <= later
    requires FindFrom(text, from).None? || later <= FindFrom(text, from).value.start
    ensures FindFrom(text, later) == FindFrom(text, from)
    decreases later - from
  {
    hide StartsAt;
    hide RunEnd;
    hide PrefixLength;
    if from < later {
      FindLater(text, from + 1, later);
    }
  }

  /** What is left to link in the word `text[lo..hi]` once the search stands at `at`. */
  ghost function Remaining(env: Env, text: Text, lo: nat, hi: nat, at: nat): seq<Link>
    requires lo <= at <= hi <= |text|
  {
    Moved(Scan(env, text[lo..hi], at - lo), lo)
  }

  lemma SliceIsWord(text: Text, lo: nat, hi: nat)
    requires IsWord(text, lo, hi)
    ensures WordOf(text[lo..hi], text, lo, hi)
  {
  }

  lemma MovedCons(link: Link, links: seq<Link>, shift: nat)
    ensures Moved([link] + links, shift)
            == [Link(link.start + shift, link.end + shift, link.href)] + Moved(links, shift)
  {
  }

  lemma ScanStep(env: Env, w: Text, from: nat)
    ensures var m := FindFrom(w, from);
            Scan(env, w, from)
            == if m.None? then []
               else if Accept(env, w, m.value).Some?
               then [Accept(env, w, m.value).value] + Scan(env, w, Accept(env, w, m.value).value.end)
               else Scan(env, w, m.value.end)
  {
    hide Accept;
    hide FindFrom;
  }

  /** The search in the message finds what the search in the word alone finds. */
  lemma FindBoth(w: Text, text: Text, lo: nat, hi: nat, at: nat)
    requires lo <= at <= hi && WordOf(w, text, lo, hi)
    ensures FindFrom(text, at).None? || hi <= FindFrom(text, at).value.start ==> FindFrom(w, at - lo).None?
    ensures var m := FindFrom(text, at);
            m.Some? && m.value.start < hi ==>
              lo <= m.value.start < m.value.end <= hi
              && FindFrom(w, at - lo) == Some(Match(m.value.start - lo, m.value.end - lo))
  {
    hide FindFrom;
    hide IsWord;
    hide IsMatch;
    FindInWord(w, text, lo, hi, at - lo);
  }

  lemma RemainingEmpty(env: Env, text: Text, lo: nat, hi: nat, at: nat)
    requires lo <= at <= hi <= |text| && IsWord(text, lo, hi)
    requires FindFrom(text, at).None? || hi <= FindFrom(text, at).value.start
    ensures Remaining(env, text, lo, hi, at) == []
  {
    hide FindFrom;
    SliceIsWord(text, lo, hi);
    FindBoth(text[lo..hi], text, lo, hi, at);
  }

  lemma RemainingNext(env: Env, text: Text, lo: nat, hi: nat, at: nat, m: Match)
    requires lo <= at <= hi <= |text| && IsWord(text, lo, hi)
    requires FindFrom(text, at) == Some(m) && m.start < hi
    ensures at <= m.start < m.end <= hi
    ensures var link := Accept(env, text, m);
            Remaining(env, text, lo, hi, at)
            == if link.Some? then [link.value] + Remaining(env, text, lo, hi, link.value.end)
               else Remaining(env, text, lo, hi, m.end)
  {
    hide Accept;
    hide FindFrom;
    hide Scan;
    hide IsWord;
    hide IsMatch;
    hide Moved;
    hide WordOf;
    var w := text[lo..hi];
    SliceIsWord(text, lo, hi);
    FindBoth(w, text, lo, hi, at);
    var alone := Match(m.start - lo, m.end - lo);
    AcceptInWord(env, w, text, lo, hi, alone);
    ScanStep(env, w, at - lo);
    var link := Accept(env, w, alone);
    if link.Some? {
      MovedCons(link.value, Scan(env, w, link.value.end), lo);
    }
  }

  /** How the regular expression, the carried match and the exhausted flag stand for the search at `at`. */
  ghost predicate Poised(text: Text, reIndex: nat, carried: Option<Match>, exhausted: bool, at: nat) {
    && (carried.Some? ==> !exhausted && FindFrom(text, at) == carried && reIndex == carried.value.end)
    && (carried.None? && exhausted ==> FindFrom(text, at).None?)
    && (carried.None? && !exhausted ==> reIndex <= at)
  }

  /** `nodes` and the nodes still to come for `links` make up `goal`. */
  ghost predicate Owes(text: Text, nodes: seq<Node>, links: seq<Link>, last: nat, goal: seq<Node>) {
    last <= |text| && Spaced(links, last, |text|) && nodes + Render(text, links, last) == goal
  }

  function LinkNodes(text: Text, link: Link, last: nat): seq<Node>
    requires last <= link.start <= link.end <= |text|
  {
    (if link.start > last then [Plain(text[last..link.start])] else []) + [Anchor(link.href, text[link.start..link.end])]
  }

  lemma PayLink(text: Text, nodes: seq<Node>, link: Link, links: seq<Link>, last: nat, goal: seq<Node>)
    requires Owes(text, nodes, [link] + links, last, goal)
    ensures last <= link.start < link.end <= |text|
    ensures Owes(text, nodes + LinkNodes(text, link, last), links, link.end, goal)
  {
    assert ([link] + links)[1..] == links;
    SpacedBound(links, link.end, |text|);
  }

  /** The inner loop: links the candidates of one clear word. `rest` are the links of the words after it. */
  method LinkWord(env: Env, text: Text, tokenStart: nat, tokenEnd: nat, candidateRe: CandidateRegExp,
                  carried0: Option<Match>, exhausted0: bool, nodes0: seq<Node>, lastIndex0: nat,
                  ghost rest: seq<Link>, ghost goal: seq<Node>)
    returns (carried: Option<Match>, exhausted: bool, nodes: seq<Node>, lastIndex: nat)
    requires lastIndex0 <= tokenStart <= tokenEnd <= |text| && IsWord(text, tokenStart, tokenEnd)
    requires Poised(text, candidateRe.lastIndex, carried0, exhausted0, tokenStart)
    requires Owes(text, nodes0, Remaining(env, text, tokenStart, tokenEnd, tokenStart) + rest, lastIndex0, goal)
    modifies candidateRe
    ensures Poised(text, candidateRe.lastIndex, carried, exhausted, tokenEnd)
    ensures lastIndex <= tokenEnd && Owes(text, nodes, rest, lastIndex, goal)
  {
    hide IsWord;
    hide Accept;
    hide FindFrom;
    hide Remaining;
    hide Owes;
    hide IsMatch;
    carried, exhausted, nodes, lastIndex := carried0, exhausted0, nodes0, lastIndex0;
    ghost var at := tokenStart;
    while true
      invariant tokenStart <= at <= tokenEnd && lastIndex <= at
      invariant Poised(text, candidateRe.lastIndex, carried, exhausted, at)
      invariant carried.None? && !exhausted ==> candidateRe.lastIndex == at || at == tokenStart
      invariant Owes(text, nodes, Remaining(env, text, tokenStart, tokenEnd, at) + rest, lastIndex, goal)
      decreases tokenEnd - at
    {
      var candidate := carried;
      carried := None;
      if candidate.None? {
        if exhausted {
          break;
        }
        if candidateRe.lastIndex < tokenStart { candidateRe.lastIndex := tokenStart; }
        candidate := candidateRe.Exec(text);
        if candidate.None? {
          exhausted := true;
          break;
        }
      }
      if candidate.value.start >= tokenEnd {
        carried := candidate;
        break;
      }
      RemainingNext(env, text, tokenStart, tokenEnd, at, candidate.value);
      var linked, end, href := TryLink(env, text, candidate.value);
      if !linked {
        at := candidate.value.end;
        continue;
      }
      var start := candidate.value.start;
      ghost var later := Remaining(env, text, tokenStart, tokenEnd, end);
      assert ([Link(start, end, href)] + later) + rest == [Link(start, end, href)] + (later + rest);
      PayLink(text, nodes, Link(start, end, href), later + rest, lastIndex, goal);
      nodes := nodes + ((if start > lastIndex then [Plain(text[lastIndex..start])] else [])
                        + [Anchor(href, text[start..end])]);
      lastIndex := end;
      candidateRe.lastIndex := lastIndex;
      at := end;
    }
    EndOfWord(env, text, tokenStart, tokenEnd, at);
    assert [] + rest == rest;
  }

  lemma EndOfWord(env: Env, text: Text, lo: nat, hi: nat, at: nat)
    requires lo <= at <= hi <= |text| && IsWord(text, lo, hi)
    requires FindFrom(text, at).None? || hi <= FindFrom(text, at).value.start
    ensures Remaining(env, text, lo, hi, at) == [] && FindFrom(text, hi) == FindFrom(text, at)
  {
    hide FindFrom;
    hide IsWord;
    RemainingEmpty(env, text, lo, hi, at);
    FindLater(text, at, hi);
  }

  /** Boundary, peeling and validation of one candidate. */
  method TryLink(env: Env, text: Text, m: Match) returns (linked: bool, end: nat, href: Text)
    requires m.start < m.end <= |text|
    ensures Accept(env, text, m) == if linked then Some(Link(m.start, end, href)) else None
  {
    hide Settled;
    hide Continues;
    hide CodePointBefore;
    hide OpensWww;
    linked, end, href := false, 0, [];
    if m.start > 0 && Continues(env, CodePointBefore(text, m.start)) { return; }
    var raw := text[m.start..m.end];
    var peeled := Peel(raw);
    raw := raw[..peeled];
    if raw == [] { return; }
    href := if OpensWww(raw) then HTTPS_PREFIX + raw else raw;
    if !env.webUrl(href) { return; }
    linked, end := true, m.start + |raw|;
  }

  /** The word at `lo` falls due: nothing if it is poisoned, its scan otherwise. */
  lemma OpenWord(env: Env, text: Text, lo: nat, hi: nat, nodes: seq<Node>, last: nat, goal: seq<Node>)
    requires lo < hi <= |text| && IsWord(text, lo, hi) && hi == WordEnd(text, lo)
    requires Owes(text, nodes, MessageLinks(env, text, lo), last, goal)
    ensures Owes(text, nodes, (if Poisoned(env, text, lo, hi) then [] else Remaining(env, text, lo, hi, lo))
                              + MessageLinks(env, text, hi), last, goal)
  {
    SliceIsWord(text, lo, hi);
    PoisonedInWord(env, text[lo..hi], text, lo, hi);
    hide Poisoned;
    hide Scan;
    hide WordOf;
    assert Moved([], lo) == [];
  }

  /** One turn of the token walk: sweeps the word for foreign schemes, then links it or skips past it. */
  method VisitWord(env: Env, text: Text, tokenStart: nat, tokenEnd: nat, candidateRe: CandidateRegExp,
                   carried0: Option<Match>, exhausted0: bool, nodes0: seq<Node>, lastIndex0: nat, ghost goal: seq<Node>)
    returns (carried: Option<Match>, exhausted: bool, nodes: seq<Node>, lastIndex: nat)
    requires lastIndex0 <= tokenStart < tokenEnd <= |text| && IsWord(text, tokenStart, tokenEnd)
    requires tokenEnd == WordEnd(text, tokenStart)
    requires Poised(text, candidateRe.lastIndex, carried0, exhausted0, tokenStart)
    requires Owes(text, nodes0, MessageLinks(env, text, tokenStart), lastIndex0, goal)
    modifies candidateRe
    ensures Poised(text, candidateRe.lastIndex, carried, exhausted, tokenEnd)
    ensures lastIndex <= tokenEnd && Owes(text, nodes, MessageLinks(env, text, tokenEnd), lastIndex, goal)
  {
    hide FindFrom;
    hide Poisoned;
    hide IsWord;
    hide Remaining;
    hide Owes;
    hide MessageLinks;
    hide WordEnd;
    carried, exhausted, nodes, lastIndex := carried0, exhausted0, nodes0, lastIndex0;
    OpenWord(env, text, tokenStart, tokenEnd, nodes, lastIndex, goal);
    ghost var rest := MessageLinks(env, text, tokenEnd);
    assert [] + rest == rest;
    var foreign := TokenHasForeignScheme(env, text, tokenStart, tokenEnd);
    if foreign {
      PoisedPastWord(text, tokenStart, tokenEnd, carried);
      if carried.Some? && carried.value.start < tokenEnd { carried := None; }
      if candidateRe.lastIndex < tokenEnd { candidateRe.lastIndex := tokenEnd; }
      return;
    }
    carried, exhausted, nodes, lastIndex :=
      LinkWord(env, text, tokenStart, tokenEnd, candidateRe, carried, exhausted, nodes, lastIndex, rest, goal);
  }

  method SkipWord(text: Text, start: nat) returns (cursor: nat)
    requires start <= |text|
    ensures cursor == WordEnd(text, start)
  {
    hide IsSpace;
    cursor := start;
    while cursor < |text| && !IsSpace(text[cursor])
      invariant start <= cursor <= |text| && WordEnd(text, cursor) == WordEnd(text, start)
    {
      cursor := cursor + 1;
    }
  }

  method LinkifyMessageText(env: Env, text: Text) returns (nodes: seq<Node>)
    ensures Spaced(MessageLinks(env, text, 0), 0, |text|)
    ensures nodes == Rendered(text, MessageLinks(env, text, 0))
  {
    hide Render;
    hide Spaced;
    hide MessageLinks;
    hide FindFrom;
    hide IsSpace;
    hide IsWord;
    hide WordEnd;
    MessageIsSpaced(env, text, 0);
    ghost var goal := Render(text, MessageLinks(env, text, 0), 0);
    var candidateRe := new CandidateRegExp();
    nodes := [];
    var lastIndex: nat, cursor: nat := 0, 0;
    var carried: Option<Match>, exhausted := None, false;
    assert Owes(text, nodes, MessageLinks(env, text, 0), 0, goal);
    hide Owes;
    while cursor < |text|
      invariant lastIndex <= cursor <= |text|
      invariant 0 < cursor < |text| ==> IsSpace(text[cursor - 1]) || IsSpace(text[cursor])
      invariant Poised(text, candidateRe.lastIndex, carried, exhausted, cursor)
      invariant Owes(text, nodes, MessageLinks(env, text, cursor), lastIndex, goal)
    {
      if IsSpace(text[cursor]) {
        SkipSpace(env, text, cursor);
        cursor := cursor + 1;
        continue;
      }
      var tokenStart := cursor;
      cursor := SkipWord(text, tokenStart);
      WordEndIsWord(text, tokenStart);
      carried, exhausted, nodes, lastIndex :=
        VisitWord(env, text, tokenStart, cursor, candidateRe, carried, exhausted, nodes, lastIndex, goal);
    }
    PayRest(env, text, nodes, lastIndex, goal);
    if lastIndex < |text| { nodes := nodes + [Plain(text[lastIndex..])]; }
    if nodes == [] { nodes := [Plain(text)]; }
  }

  lemma SkipSpace(env: Env, text: Text, i: nat)
    requires i < |text| && IsSpace(text[i])
    ensures FindFrom(text, i) == FindFrom(text, i + 1)
    ensures MessageLinks(env, text, i) == MessageLinks(env, text, i + 1)
  {
    if 0 < PrefixLength(text, i) {
      PrefixIsCandidate(text, i, i);
    }
  }

  lemma PayRest(env: Env, text: Text, nodes: seq<Node>, last: nat, goal: seq<Node>)
    requires Owes(text, nodes, MessageLinks(env, text, |text|), last, goal)
    ensures goal == nodes + (if last < |text| then [Plain(text[last..])] else [])
  {
  }

  /** Skipping a word keeps a carried match that lies beyond it, and no candidate of the word reaches past its end. */
  lemma PoisedPastWord(text: Text, lo: nat, hi: nat, carried: Option<Match>)
    requires IsWord(text, lo, hi)
    requires carried.Some? ==> FindFrom(text, lo) == carried
    ensures carried.Some? && hi <= carried.value.start ==> FindFrom(text, hi) == carried
    ensures carried.Some? && carried.value.start < hi ==> carried.value.end <= hi
    ensures FindFrom(text, lo).None? ==> FindFrom(text, hi).None?
  {
    SliceIsWord(text, lo, hi);
    hide FindFrom;
    hide IsWord;
    FindInWord(text[lo..hi], text, lo, hi, 0);
    if FindFrom(text, lo).None? || hi <= FindFrom(text, lo).value.start {
      FindLater(text, lo, hi);
    }
  }

  // ---------- Nothing is lost, and no link escapes the scheme sweep ----------

  lemma {:induction false} VisibleConcat(p: seq<Node>, q: seq<Node>)
    ensures Visible(p + q) == Visible(p) + Visible(q)
  {
    if p == [] {
      assert p + q == q;
    } else {
      assert (p + q)[0] == p[0] && (p + q)[1..] == p[1..] + q;
      VisibleConcat(p[1..], q);
      assert p[0].text + (Visible(p[1..]) + Visible(q)) == (p[0].text + Visible(p[1..])) + Visible(q);
    }
  }

  lemma VisibleLinkNodes(text: Text, link: Link, last: nat)
    requires last <= link.start <= link.end <= |text|
    ensures Visible(LinkNodes(text, link, last)) == text[last..link.end]
  {
    var anchor := Anchor(link.href, text[link.start..link.end]);
    assert Visible([anchor]) == text[link.start..link.end];
    if link.start > last {
      var plain := Plain(text[last..link.start]);
      assert [plain, anchor][1..] == [anchor] && [plain] + [anchor] == [plain, anchor];
      assert text[last..link.start] + text[link.start..link.end] == text[last..link.end];
    } else {
      assert [] + [anchor] == [anchor];
    }
  }

  lemma {:induction false} RenderShowsText(text: Text, links: seq<Link>, last: nat)
    requires last <= |text| && Spaced(links, last, |text|)
    ensures Visible(Render(text, links, last)) == text[last..]
    decreases |links|
  {
    if links != [] {
      var link, rest := links[0], links[1..];
      SpacedBound(rest, link.end, |text|);
      RenderShowsText(text, rest, link.end);
      VisibleLinkNodes(text, link, last);
      VisibleConcat(LinkNodes(text, link, last), Render(text, rest, link.end));
      assert text[last..link.end] + text[link.end..] == text[last..];
    }
  }

  /** The nodes show the message exactly, whatever was linked. */
  lemma NothingIsLost(env: Env, text: Text)
    ensures Spaced(MessageLinks(env, text, 0), 0, |text|)
    ensures Visible(Rendered(text, MessageLinks(env, text, 0))) == text
  {
    MessageIsSpaced(env, text, 0);
    RenderShowsText(text, MessageLinks(env, text, 0), 0);
  }

  /** A link of the word `text[lo..hi]`, which no segment with a foreign scheme touches. */
  ghost predicate Trusted(env: Env, text: Text, link: Link, lo: nat, hi: nat) {
    && IsWord(text, lo, hi) && lo <= link.start < link.end <= hi
    && !Poisoned(env, text, lo, hi)
    && StartsAt(text, link.start) && AtBoundary(env, text, link.start)
    && link.href == Href(text[link.start..link.end]) && env.webUrl(link.href)
  }

  ghost predicate SoundLink(env: Env, w: Text, link: Link) {
    && link.start < link.end <= |w| && StartsAt(w, link.start) && AtBoundary(env, w, link.start)
    && link.href == Href(w[link.start..link.end]) && env.webUrl(link.href)
  }

  lemma AcceptIsSound(env: Env, w: Text, m: Match)
    requires m.start < m.end <= |w| && StartsAt(w, m.start) && Accept(env, w, m).Some?
    ensures SoundLink(env, w, Accept(env, w, m).value)
  {
    hide StartsAt;
    hide AtBoundary;
    hide Href;
    var raw := w[m.start..m.end];
    var end := PeelFrom(raw, |raw|);
    assert raw[..end] == w[m.start..m.start + end];
  }

  lemma {:induction false} ScanIsSound(env: Env, w: Text, from: nat)
    ensures forall i :: 0 <= i < |Scan(env, w, from)| ==> SoundLink(env, w, Scan(env, w, from)[i])
    decreases |w| - from
  {
    hide Accept;
    hide SoundLink;
    hide StartsAt;
    var m := FindFrom(w, from);
    if m.Some? {
      var link := Accept(env, w, m.value);
      if link.Some? {
        AcceptIsSound(env, w, m.value);
        ScanIsSound(env, w, link.value.end);
      } else {
        ScanIsSound(env, w, m.value.end);
      }
    }
  }

  lemma SoundLinkIsTrusted(env: Env, w: Text, text: Text, lo: nat, hi: nat, link: Link)
    requires WordOf(w, text, lo, hi) && !Poisoned(env, w, 0, |w|) && SoundLink(env, w, link)
    ensures Trusted(env, text, Link(link.start + lo, link.end + lo, link.href), lo, hi)
  {
    hide Poisoned;
    hide StartsAt;
    hide AtBoundary;
    hide Href;
    hide IsWord;
    PoisonedInWord(env, w, text, lo, hi);
    StartInWord(w, text, lo, hi, link.start);
    BoundaryInWord(env, w, text, lo, hi, link.start);
    SliceOfWord(w, text, lo, hi, link.start, link.end);
  }

  lemma WordIsTrusted(env: Env, w: Text, text: Text, lo: nat, hi: nat, i: nat)
    requires WordOf(w, text, lo, hi) && i < |WordLinks(env, w)|
    ensures var link := WordLinks(env, w)[i]; Trusted(env, text, Link(link.start + lo, link.end + lo, link.href), lo, hi)
  {
    hide Poisoned;
    hide Trusted;
    hide SoundLink;
    hide Scan;
    hide WordOf;
    ScanIsSound(env, w, 0);
    SoundLinkIsTrusted(env, w, text, lo, hi, Scan(env, w, 0)[i]);
  }

  ghost predicate TrustedSomewhere(env: Env, text: Text, link: Link) {
    exists lo, hi :: Trusted(env, text, link, lo, hi)
  }

  lemma {:induction false} EveryLinkIsTrusted(env: Env, text: Text, from: nat)
    requires 0 < from < |text| ==> IsSpace(text[from - 1]) || IsSpace(text[from])
    ensures forall i :: 0 <= i < |MessageLinks(env, text, from)| ==>
              TrustedSomewhere(env, text, MessageLinks(env, text, from)[i])
    decreases |text| - from
  {
    hide Trusted;
    hide IsSpace;
    hide WordLinks;
    if from < |text| {
      if IsSpace(text[from]) {
        EveryLinkIsTrusted(env, text, from + 1);
      } else {
        var end := WordEnd(text, from);
        WordEndIsWord(text, from);
        EveryLinkIsTrusted(env, text, end);
        var here := Moved(WordLinks(env, text[from..end]), from);
        forall i | 0 <= i < |MessageLinks(env, text, from)|
          ensures TrustedSomewhere(env, text, MessageLinks(env, text, from)[i])
        {
          if i < |here| {
            assert MessageLinks(env, text, from)[i] == here[i];
            SliceIsWord(text, from, end);
            WordIsTrusted(env, text[from..end], text, from, end, i);
          } else {
            assert MessageLinks(env, text, from)[i] == MessageLinks(env, text, end)[i - |here|];
          }
        }
      }
    }
  }

  /** Punctuation peeled off a link cannot start another: resuming at the link's end or the candidate's is the same. */
  lemma ResumePointIsImmaterial(env: Env, text: Text, m: Match)
    requires m.start < m.end <= |text| && Accept(env, text, m).Some?
    ensures FindFrom(text, Accept(env, text, m).value.end) == FindFrom(text, m.end)
  {
    hide AtBoundary;
    hide Href;
    hide Settled;
    hide FindFrom;
    var raw := text[m.start..m.end];
    TrailingStartsNothing(text, m.start + PeelFrom(raw, |raw|), m.end, m.start);
  }

  lemma {:induction false} TrailingStartsNothing(text: Text, from: nat, end: nat, start: nat)
    requires start <= from <= end <= |text|
    requires forall k :: from - start < k <= end - start ==> !Settled(text[start..end], k)
    ensures FindFrom(text, from) == FindFrom(text, end)
    decreases end - from
  {
    if from < end {
      assert !Settled(text[start..end], from - start + 1);
      TrailingStartsNoLink(text, from);
      TrailingStartsNothing(text, from + 1, end, start);
    }
  }

  lemma TrailingStartsNoLink(text: Text, i: nat)
    requires i < |text| && IsTrailing(text[i])
    ensures !StartsAt(text, i)
  {
  }

  /** A scheme found inside a segment ends inside it, so the sweep needs no upper bound on the match. */
  lemma SchemeStaysInSegment(text: Text, lo: nat, hi: nat, i: nat, j: nat, at: nat)
    requires IsWord(text, lo, hi) && IsSegment(text, lo, hi, i, j) && i <= at < j
    requires SchemeAt(text, at).Some?
    ensures at + |SchemeAt(text, at).value| < j
  {
    SchemeRunStops(text, at, j);
    assert j < |text| ==> IsSpace(text[j]) || IsSeparator(text[j]);
  }

  lemma {:induction false} SchemeRunStops(text: Text, i: nat, j: nat)
    requires i <= j <= |text| && (j == |text| || !IsSchemeChar(text[j]))
    ensures SchemeRun(text, i) <= j
    decreases j - i
  {
    if i < j {
      SchemeRunStops(text, i + 1, j);
    }
  }
}
