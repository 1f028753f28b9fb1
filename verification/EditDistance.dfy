/** The edit distance that decides whether two transcripts of one turn differ enough to be merged. */
module EditDistance {
  import opened Wrappers

  // ---------- An independent reading: scripts of single-character edits ----------

  datatype Edit =
    | Insert(at: nat, c: char)
    | Delete(at: nat)
    | Substitute(at: nat, c: char)

  predicate Applicable(e: Edit, s: string) {
    match e
    case Insert(at, _) => at <= |s|
    case Delete(at) => at < |s|
    case Substitute(at, _) => at < |s|
  }

  function Apply(e: Edit, s: string): string
    requires Applicable(e, s)
  {
    match e
    case Insert(at, c) => s[..at] + [c] + s[at..]
    case Delete(at) => s[..at] + s[at + 1..]
    case Substitute(at, c) => s[..at] + [c] + s[at + 1..]
  }

  /** The string a script turns `s` into, or None when some edit does not fit. */
  function Replay(script: seq<Edit>, s: string): Option<string> {
    if script == [] then Some(s)
    else if Applicable(script[0], s) then Replay(script[1..], Apply(script[0], s))
    else None
  }

  // ---------- The recurrence ----------

  function Min(x: nat, y: nat): nat { if x < y then x else y }

  function Max(x: nat, y: nat): nat { if x < y then y else x }

  function Front(s: string): string
    requires s != ""
  {
    s[..|s| - 1]
  }

  function Last(s: string): char
    requires s != ""
  {
    s[|s| - 1]
  }

  function Mismatch(x: char, y: char): nat { if x == y then 0 else 1 }

  function Distance(a: string, b: string): nat
    decreases |a| + |b|
  {
    if a == "" then |b|
    else if b == "" then |a|
    else Min(Min(Distance(a, Front(b)) + 1, Distance(Front(a), b) + 1),
             Distance(Front(a), Front(b)) + Mismatch(Last(a), Last(b)))
  }

  // ---------- The two-row dynamic program ----------

  /** The row the program keeps for `a`: its distances to every prefix of `b`. */
  ghost function Row(a: string, b: string): seq<nat> {
    seq(|b| + 1, j requires 0 <= j <= |b| => Distance(a, b[..j]))
  }

  lemma RowCell(a: string, b: string, i: nat, j: nat)
    requires 1 <= i <= |a| && 1 <= j <= |b|
    ensures Row(a[..i], b)[j] ==
            Min(Min(Row(a[..i], b)[j - 1] + 1, Row(a[..i - 1], b)[j] + 1),
                Row(a[..i - 1], b)[j - 1] + Mismatch(a[i - 1], b[j - 1]))
  {
    assert Front(a[..i]) == a[..i - 1] && Front(b[..j]) == b[..j - 1];
  }

  method NextRow(a: string, b: string, i: nat, previous: array<nat>) returns (current: array<nat>)
    requires 1 <= i <= |a| && previous[..] == Row(a[..i - 1], b)
    ensures current[..] == Row(a[..i], b)
  {
    ghost var above, row := Row(a[..i - 1], b), Row(a[..i], b);
    assert forall k :: 0 <= k <= |b| ==> previous[k] == previous[..][k] == above[k];
    current := new nat[|b| + 1](_ => i);
    assert b[..0] == "";
    for j := 1 to |b| + 1
      invariant forall k :: 0 <= k < j ==> current[k] == row[k]
    {
      RowCell(a, b, i, j);
      current[j] := Min(Min(current[j - 1] + 1, previous[j] + 1),
                        previous[j - 1] + (if a[i - 1] == b[j - 1] then 0 else 1));
    }
  }

  method Levenshtein(a: string, b: string) returns (distance: nat)
    ensures distance == Distance(a, b)
  {
    if |a| == 0 { return |b|; }
    if |b| == 0 { return |a|; }
    var previous := new nat[|b| + 1](index => index);
    assert a[..0] == "";
    assert previous[..] == Row(a[..0], b);
    for i := 1 to |a| + 1
      invariant previous[..] == Row(a[..i - 1], b)
    {
      previous := NextRow(a, b, i, previous);
    }
    assert a[..|a|] == a && b[..|b|] == b;
    distance := previous[|b|];
    assert distance == previous[..][|b|];
  }

  // ---------- A metric ----------

  lemma {:induction false} DistanceBounds(a: string, b: string)
    ensures Max(|a|, |b|) - Min(|a|, |b|) <= Distance(a, b) <= Max(|a|, |b|)
    decreases |a| + |b|
  {
    if a != "" && b != "" {
      DistanceBounds(a, Front(b));
      DistanceBounds(Front(a), b);
      DistanceBounds(Front(a), Front(b));
    }
  }

  lemma {:induction false} Symmetric(a: string, b: string)
    ensures Distance(a, b) == Distance(b, a)
    decreases |a| + |b|
  {
    if a != "" && b != "" {
      Symmetric(a, Front(b));
      Symmetric(Front(a), b);
      Symmetric(Front(a), Front(b));
    }
  }

  lemma {:induction false} ZeroExactlyOnEqual(a: string, b: string)
    ensures Distance(a, b) == 0 <==> a == b
    decreases |a| + |b|
  {
    if a != "" && b != "" {
      ZeroExactlyOnEqual(Front(a), Front(b));
      assert a == Front(a) + [Last(a)] && b == Front(b) + [Last(b)];
    }
  }

  lemma {:induction false} TriangleInequality(a: string, b: string, c: string)
    ensures Distance(a, c) <= Distance(a, b) + Distance(b, c)
    decreases |a| + |b| + |c|
  {
    if b == "" {
      DistanceBounds(a, c);
    } else if a == "" {
      DistanceBounds(b, c);
    } else if c == "" {
      DistanceBounds(a, b);
    } else {
      TriangleInequality(Front(a), b, c);
      TriangleInequality(a, b, Front(c));
      TriangleInequality(a, Front(b), c);
      TriangleInequality(Front(a), Front(b), c);
      TriangleInequality(a, Front(b), Front(c));
      TriangleInequality(Front(a), Front(b), Front(c));
    }
  }

  // ---------- Minimum over edit scripts ----------

  lemma {:induction false} CommonSuffix(x: string, y: string, v: string)
    ensures Distance(x + v, y + v) <= Distance(x, y)
  {
    if v == "" {
      assert x + v == x && y + v == y;
    } else {
      CommonSuffix(x, y, Front(v));
      assert Front(x + v) == x + Front(v) && Front(y + v) == y + Front(v);
      assert Last(x + v) == Last(y + v) == Last(v);
    }
  }

  lemma OneEditIsOneStep(e: Edit, s: string)
    requires Applicable(e, s)
    ensures Distance(s, Apply(e, s)) <= 1
  {
    var u := s[..e.at];
    ZeroExactlyOnEqual(u, u);
    match e
    case Insert(at, c) =>
      assert Front(u + [c]) == u && s == u + s[at..];
      CommonSuffix(u, u + [c], s[at..]);
      DistanceOfAppend(u, c);
    case Delete(at) =>
      assert s == u + [s[at]] + s[at + 1..];
      CommonSuffix(u + [s[at]], u, s[at + 1..]);
      DistanceOfAppend(u, s[at]);
      Symmetric(u, u + [s[at]]);
    case Substitute(at, c) =>
      assert s == u + [s[at]] + s[at + 1..];
      CommonSuffix(u + [s[at]], u + [c], s[at + 1..]);
      assert Front(u + [s[at]]) == u && Front(u + [c]) == u;
  }

  lemma DistanceOfAppend(u: string, c: char)
    ensures Distance(u, u + [c]) <= 1
  {
    ZeroExactlyOnEqual(u, u);
    assert Front(u + [c]) == u;
  }

  lemma {:induction false} NoShorterScript(script: seq<Edit>, a: string, b: string)
    requires Replay(script, a) == Some(b)
    ensures Distance(a, b) <= |script|
  {
    if script == [] {
      ZeroExactlyOnEqual(a, b);
    } else {
      var next := Apply(script[0], a);
      OneEditIsOneStep(script[0], a);
      NoShorterScript(script[1..], next, b);
      TriangleInequality(a, next, b);
    }
  }

  lemma {:induction false} ReplayThen(p: seq<Edit>, q: seq<Edit>, s: string)
    requires Replay(p, s).Some?
    ensures Replay(p + q, s) == Replay(q, Replay(p, s).value)
  {
    if p == [] {
      assert p + q == q;
    } else {
      assert (p + q)[0] == p[0] && (p + q)[1..] == p[1..] + q;
      ReplayThen(p[1..], q, Apply(p[0], s));
    }
  }

  /** A script does not notice text that follows the string it was written for. */
  lemma {:induction false} ReplayBeforeSuffix(p: seq<Edit>, s: string, v: string)
    requires Replay(p, s).Some?
    ensures Replay(p, s + v) == Some(Replay(p, s).value + v)
  {
    if p != [] {
      assert Apply(p[0], s + v) == Apply(p[0], s) + v;
      ReplayBeforeSuffix(p[1..], Apply(p[0], s), v);
    }
  }

  lemma {:induction false} ShortestScript(a: string, b: string) returns (script: seq<Edit>)
    ensures Replay(script, a) == Some(b) && |script| == Distance(a, b)
    decreases |a| + |b|
  {
    if a == "" && b == "" {
      script := [];
    } else if b == "" || (a != "" && Distance(a, b) == Distance(Front(a), b) + 1) {
      var p := ShortestScript(Front(a), b);
      script := DropLast(p, a, b);
    } else if a == "" || Distance(a, b) == Distance(a, Front(b)) + 1 {
      var p := ShortestScript(a, Front(b));
      script := AppendLast(p, a, b);
    } else {
      var p := ShortestScript(Front(a), Front(b));
      script := ChangeLast(p, a, b);
    }
  }

  lemma DropLast(p: seq<Edit>, a: string, b: string) returns (script: seq<Edit>)
    requires a != "" && Replay(p, Front(a)) == Some(b)
    ensures Replay(script, a) == Some(b) && |script| == |p| + 1
  {
    script := p + [Delete(|b|)];
    assert a == Front(a) + [Last(a)];
    ReplayBeforeSuffix(p, Front(a), [Last(a)]);
    ReplayThen(p, [Delete(|b|)], a);
    assert Apply(Delete(|b|), b + [Last(a)]) == b;
  }

  lemma AppendLast(p: seq<Edit>, a: string, b: string) returns (script: seq<Edit>)
    requires b != "" && Replay(p, a) == Some(Front(b))
    ensures Replay(script, a) == Some(b) && |script| == |p| + 1
  {
    var e := Insert(|b| - 1, Last(b));
    script := p + [e];
    ReplayThen(p, [e], a);
    assert Apply(e, Front(b)) == b;
  }

  lemma ChangeLast(p: seq<Edit>, a: string, b: string) returns (script: seq<Edit>)
    requires a != "" && b != "" && Replay(p, Front(a)) == Some(Front(b))
    ensures Replay(script, a) == Some(b) && |script| == |p| + Mismatch(Last(a), Last(b))
  {
    assert a == Front(a) + [Last(a)] && b == Front(b) + [Last(b)];
    ReplayBeforeSuffix(p, Front(a), [Last(a)]);
    if Last(a) == Last(b) {
      script := p;
    } else {
      var e := Substitute(|b| - 1, Last(b));
      script := p + [e];
      ReplayThen(p, [e], a);
      assert Apply(e, Front(b) + [Last(a)]) == b;
    }
  }

  lemma DistanceIsMinimalScriptLength(a: string, b: string)
    ensures exists script :: Replay(script, a) == Some(b) && |script| == Distance(a, b)
    ensures forall script :: Replay(script, a) == Some(b) ==> Distance(a, b) <= |script|
  {
    var script := ShortestScript(a, b);
    forall other | Replay(other, a) == Some(b) ensures Distance(a, b) <= |other| {
      NoShorterScript(other, a, b);
    }
  }

  // ---------- The merge decision ----------

  function Spaces(s: string): nat {
    if s == "" then 0 else Spaces(Front(s)) + (if Last(s) == ' ' then 1 else 0)
  }

  function Ratio(a: string, b: string): real {
    Distance(a, b) as real / Max(Max(|a|, |b|), 1) as real
  }

  lemma RatioIsNormalised(a: string, b: string)
    ensures 0.0 <= Ratio(a, b) <= 1.0
    ensures Ratio(a, b) == 0.0 <==> a == b
  {
    DistanceBounds(a, b);
    ZeroExactlyOnEqual(a, b);
    FractionOfLonger(Distance(a, b), Max(Max(|a|, |b|), 1));
  }

  lemma FractionOfLonger(d: nat, n: nat)
    requires d <= n && 0 < n
    ensures 0.0 <= d as real / n as real <= 1.0
    ensures d as real / n as real == 0.0 <==> d == 0
  {
  }

  /** The decision for two lexical forms; `split(' ')` yields one part more than there are spaces. */
  predicate MergeNeeded(a: string, b: string) {
    a != b && (Ratio(a, b) > 0.12 || Spaces(a) != Spaces(b))
  }

  method CountSplitParts(s: string) returns (parts: nat)
    ensures parts == Spaces(s) + 1
  {
    parts := 1;
    for i := 0 to |s|
      invariant parts == Spaces(s[..i]) + 1
    {
      assert Front(s[..i + 1]) == s[..i];
      if s[i] == ' ' { parts := parts + 1; }
    }
    assert s[..|s|] == s;
  }

  method ShouldMerge(a: string, b: string) returns (merge: bool)
    ensures merge <==> MergeNeeded(a, b)
  {
    if a == b { return false; }
    var distance := Levenshtein(a, b);
    var ratio := distance as real / Max(Max(|a|, |b|), 1) as real;
    var partsA := CountSplitParts(a);
    var partsB := CountSplitParts(b);
    merge := ratio > 0.12 || partsA != partsB;
  }

  /** Which provider wrote which transcript does not matter to the decision. */
  lemma MergeDecisionIsSymmetric(a: string, b: string)
    ensures MergeNeeded(a, b) <==> MergeNeeded(b, a)
  {
    Symmetric(a, b);
  }

  lemma {:induction false} SpacesAreCounted(s: string)
    ensures Spaces(s) == multiset(s)[' ']
  {
    if s != "" {
      SpacesAreCounted(Front(s));
      assert s == Front(s) + [Last(s)];
    }
  }

  /** Two different texts are merged exactly when more than 12 edits are needed for every hundred characters of the longer
      one, or they differ in their number of spaces, however few the edits. */
  lemma MergeDecisionIsExact(a: string, b: string)
    ensures MergeNeeded(a, b)
            <==> a != b && (25 * Distance(a, b) > 3 * (if |a| >= |b| then |a| else |b|)
                            || multiset(a)[' '] != multiset(b)[' '])
  {
    SpacesAreCounted(a);
    SpacesAreCounted(b);
    if a != b { ShareOver(Distance(a, b), Max(Max(|a|, |b|), 1)); }
    hide Distance, Spaces;
  }

  lemma ShareOver(d: nat, n: nat)
    requires 0 < n
    ensures d as real / n as real > 0.12 <==> 25 * d > 3 * n
  {
    var q, size := d as real / n as real, n as real;
    ShareTimes(d as real, size);
    if q > 0.12 { LessShare(0.12, q, size); }
    if q < 0.12 { LessShare(q, 0.12, size); }
  }

  lemma ShareTimes(d: real, n: real)
    requires n > 0.0
    ensures (d / n) * n == d
  {
  }

  lemma LessShare(x: real, y: real, n: real)
    requires n > 0.0 && x < y
    ensures x * n < y * n
  {
    assert (y - x) * n > 0.0;
  }

  /** A space more always triggers a merge, in a text of any length. */
  lemma InsertedSpaceMerges(a: string, at: nat)
    requires at <= |a|
    ensures Distance(a, Apply(Insert(at, ' '), a)) == 1
    ensures MergeNeeded(a, Apply(Insert(at, ' '), a)) && MergeNeeded(Apply(Insert(at, ' '), a), a)
  {
    var b := Apply(Insert(at, ' '), a);
    OneEditIsOneStep(Insert(at, ' '), a);
    SpaceIsCounted(a, at);
    hide Distance, MergeNeeded;
    ZeroExactlyOnEqual(a, b);
    MergeDecisionIsExact(a, b);
    MergeDecisionIsSymmetric(a, b);
  }

  lemma SpaceIsCounted(a: string, at: nat)
    requires at <= |a|
    ensures multiset(Apply(Insert(at, ' '), a))[' '] == multiset(a)[' '] + 1
  {
    assert a == a[..at] + a[at..];
  }

  /** One wrong character never triggers a merge in a text of nine or more, and always in a shorter one. */
  lemma OneSubstitutionThreshold(a: string, at: nat, c: char)
    requires at < |a| && a[at] != c && a[at] != ' ' && c != ' '
    ensures MergeNeeded(a, Apply(Substitute(at, c), a)) <==> |a| <= 8
  {
    var b := Apply(Substitute(at, c), a);
    OneEditIsOneStep(Substitute(at, c), a);
    assert b[at] == c;
    ZeroExactlyOnEqual(a, b);
    SpacesAfterSubstitution(a, at, c);
    assert Ratio(a, b) == 1.0 / |a| as real;
    if |a| <= 8 {
      assert 1.0 / |a| as real >= 1.0 / 8.0;
    } else {
      assert 1.0 / |a| as real <= 1.0 / 9.0;
    }
  }

  lemma {:induction false} SpacesAfterSubstitution(a: string, at: nat, c: char)
    requires at < |a| && a[at] != ' ' && c != ' '
    ensures Spaces(Apply(Substitute(at, c), a)) == Spaces(a)
  {
    var b := Apply(Substitute(at, c), a);
    if at == |a| - 1 {
      assert Front(b) == Front(a);
    } else {
      assert Front(b) == Apply(Substitute(at, c), Front(a));
      SpacesAfterSubstitution(Front(a), at, c);
    }
  }
}
