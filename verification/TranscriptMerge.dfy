/** The client's merge of transcript entries: the newest version of each id, in sequence order. */
module TranscriptMerge {
  import opened OrderedMap
  import opened TranscriptLog

  // ---------- A stable sort ----------

  function Insert(e: Entry, s: seq<Entry>): seq<Entry> {
    if s == [] then [e]
    else if e.sequence < s[0].sequence then [e] + s
    else [s[0]] + Insert(e, s[1..])
  }

  /** What `sort((a, b) => a.sequence - b.sequence)` yields: elements inserted left to right, after their equals. */
  function SortBySequence(s: seq<Entry>): seq<Entry> {
    if s == [] then [] else Insert(s[|s| - 1], SortBySequence(s[..|s| - 1]))
  }

  predicate Ordered(s: seq<Entry>) {
    forall i, j :: 0 <= i < j < |s| ==> s[i].sequence <= s[j].sequence
  }

  function WithSequence(s: seq<Entry>, k: nat): seq<Entry> {
    if s == [] then []
    else if s[0].sequence == k then [s[0]] + WithSequence(s[1..], k)
    else WithSequence(s[1..], k)
  }

  lemma {:induction false} InsertElements(e: Entry, s: seq<Entry>)
    ensures multiset(Insert(e, s)) == multiset(s) + multiset{e}
  {
    if s != [] {
      assert s == [s[0]] + s[1..];
      InsertElements(e, s[1..]);
    }
  }

  lemma {:induction false} InsertIsOrdered(e: Entry, s: seq<Entry>)
    requires Ordered(s)
    ensures Ordered(Insert(e, s))
    ensures Insert(e, s)[0].sequence == if s != [] && s[0].sequence <= e.sequence then s[0].sequence else e.sequence
  {
    if s != [] && s[0].sequence <= e.sequence {
      InsertIsOrdered(e, s[1..]);
      OrderedCons(s[0], Insert(e, s[1..]));
    } else if s != [] {
      OrderedCons(e, s);
    }
  }

  lemma OrderedCons(e: Entry, s: seq<Entry>)
    requires Ordered(s) && s != [] && e.sequence <= s[0].sequence
    ensures Ordered([e] + s)
  {
    var all := [e] + s;
    forall i, j | 0 <= i < j < |all| ensures all[i].sequence <= all[j].sequence {
      assert all[j] == s[j - 1] && s[0].sequence <= s[j - 1].sequence;
    }
  }

  lemma {:induction false} InsertIsStable(e: Entry, s: seq<Entry>, k: nat)
    requires Ordered(s)
    ensures WithSequence(Insert(e, s), k) == if e.sequence == k then WithSequence(s, k) + [e] else WithSequence(s, k)
  {
    if s != [] {
      if e.sequence < s[0].sequence {
        assert ([e] + s)[1..] == s;
        if e.sequence == k { NoneWithSequence(s, k); }
      } else {
        InsertIsStable(e, s[1..], k);
        assert ([s[0]] + Insert(e, s[1..]))[1..] == Insert(e, s[1..]);
      }
    }
  }

  lemma {:induction false} NoneWithSequence(s: seq<Entry>, k: nat)
    requires forall i :: 0 <= i < |s| ==> s[i].sequence != k
    ensures WithSequence(s, k) == []
  {
    if s != [] { NoneWithSequence(s[1..], k); }
  }

  lemma {:induction false} WithSequenceNext(s: seq<Entry>, e: Entry, k: nat)
    ensures WithSequence(s + [e], k) == if e.sequence == k then WithSequence(s, k) + [e] else WithSequence(s, k)
  {
    if s == [] {
      assert [] + [e] == [e] && [e][1..] == [];
    } else {
      assert (s + [e])[0] == s[0] && (s + [e])[1..] == s[1..] + [e];
      WithSequenceNext(s[1..], e, k);
    }
  }

  lemma {:induction false} SortIsOrdered(s: seq<Entry>)
    ensures Ordered(SortBySequence(s)) && multiset(SortBySequence(s)) == multiset(s)
  {
    if s != [] {
      var front, last := s[..|s| - 1], s[|s| - 1];
      SortIsOrdered(front);
      hide Insert, Ordered;
      InsertIsOrdered(last, SortBySequence(front));
      InsertElements(last, SortBySequence(front));
      assert s == front + [last];
    }
  }

  /** Equal keys stay in their original order. */
  lemma {:induction false} SortIsStable(s: seq<Entry>, k: nat)
    ensures WithSequence(SortBySequence(s), k) == WithSequence(s, k)
  {
    if s != [] {
      var front, last := s[..|s| - 1], s[|s| - 1];
      SortIsStable(front, k);
      SortIsOrdered(front);
      hide Ordered;
      hide Insert;
      InsertIsStable(last, SortBySequence(front), k);
      assert s == front + [last];
      WithSequenceNext(front, last, k);
    }
  }

  // ---------- The merge ----------

  /** The map built by setting every entry under its id in turn. */
  function Collect(all: seq<Entry>): Assoc<string, Entry> {
    if all == [] then [] else Put(Collect(all[..|all| - 1]), all[|all| - 1].id, all[|all| - 1])
  }

  /** Incoming entries without an id are ignored. */
  function Identified(incoming: seq<Entry>): seq<Entry> {
    if incoming == [] then []
    else Identified(incoming[..|incoming| - 1]) + (if incoming[|incoming| - 1].id != "" then [incoming[|incoming| - 1]] else [])
  }

  function Values(m: Assoc<string, Entry>): (values: seq<Entry>)
    ensures |values| == |m| && forall i :: 0 <= i < |m| ==> values[i] == m[i].1
  {
    seq(|m|, i requires 0 <= i < |m| => m[i].1)
  }

  function Merge(current: seq<Entry>, incoming: seq<Entry>): seq<Entry> {
    SortBySequence(Values(Collect(current + Identified(incoming))))
  }

  lemma CollectNext(all: seq<Entry>, e: Entry)
    ensures Collect(all + [e]) == Put(Collect(all), e.id, e)
  {
    assert (all + [e])[..|all|] == all;
  }

  lemma IdentifiedNext(incoming: seq<Entry>, i: nat)
    requires i < |incoming|
    ensures Identified(incoming[..i + 1]) == Identified(incoming[..i]) + (if incoming[i].id != "" then [incoming[i]] else [])
  {
    assert incoming[..i + 1][..i] == incoming[..i];
  }

  method MergeTranscriptEntries(current: seq<Entry>, incoming: seq<Entry>) returns (merged: seq<Entry>)
    ensures merged == Merge(current, incoming)
  {
    var byId: Assoc<string, Entry> := [];
    assert current[..0] == [] && Collect([]) == [] && Identified(incoming[..0]) == [];
    hide Put;
    hide Collect;
    hide Identified;
    for i := 0 to |current|
      invariant byId == Collect(current[..i])
    {
      CollectNext(current[..i], current[i]);
      assert current[..i + 1] == current[..i] + [current[i]];
      byId := Put(byId, current[i].id, current[i]);
    }
    assert current[..|current|] == current && current + [] == current;
    for i := 0 to |incoming|
      invariant byId == Collect(current + Identified(incoming[..i]))
    {
      var entry := incoming[i];
      ghost var before := current + Identified(incoming[..i]);
      IdentifiedNext(incoming, i);
      if entry.id != "" {
        CollectNext(before, entry);
        assert current + Identified(incoming[..i + 1]) == before + [entry];
        byId := Put(byId, entry.id, entry);
      } else {
        assert current + Identified(incoming[..i + 1]) == before;
      }
    }
    assert incoming[..|incoming|] == incoming;
    merged := SortBySequence(Values(byId));
  }

  /** The last entry with its id. */
  ghost predicate Latest(all: seq<Entry>, e: Entry) {
    exists i :: 0 <= i < |all| && all[i] == e && forall j :: i < j < |all| ==> all[j].id != e.id
  }

  lemma LatestAfter(all: seq<Entry>, last: Entry, e: Entry)
    ensures Latest(all + [last], e) <==> e == last || (Latest(all, e) && e.id != last.id)
  {
    var more := all + [last];
    if e == last {
      assert more[|all|] == e;
    } else if Latest(all, e) && e.id != last.id {
      var i :| 0 <= i < |all| && all[i] == e && forall j :: i < j < |all| ==> all[j].id != e.id;
      assert more[i] == e;
    } else if Latest(more, e) {
      LatestBefore(all, last, e);
    }
  }

  lemma LatestBefore(all: seq<Entry>, last: Entry, e: Entry)
    requires Latest(all + [last], e) && e != last
    ensures Latest(all, e) && e.id != last.id
  {
    var more := all + [last];
    var i :| 0 <= i < |more| && more[i] == e && forall j :: i < j < |more| ==> more[j].id != e.id;
    assert more[|all|] == last;
    assert all[i] == e;
    forall j | i < j < |all| ensures all[j].id != e.id {
      assert all[j] == more[j];
    }
  }

  lemma {:induction false} CollectKeepsLatest(all: seq<Entry>)
    ensures Distinct(Collect(all))
    ensures forall p :: p in Collect(all) <==> p.0 == p.1.id && Latest(all, p.1)
  {
    if all != [] {
      var front, last := all[..|all| - 1], all[|all| - 1];
      CollectKeepsLatest(front);
      PutKeepsDistinct(Collect(front), last.id, last);
      PutElements(Collect(front), last.id, last);
      assert all == front + [last];
      hide Latest;
      hide Put;
      forall p ensures p in Collect(all) <==> p.0 == p.1.id && Latest(all, p.1) {
        LatestAfter(front, last, p.1);
      }
    }
  }

  /** The merge holds exactly the newest version of every id, in sequence order. */
  lemma MergeKeepsLatest(current: seq<Entry>, incoming: seq<Entry>)
    ensures Ordered(Merge(current, incoming))
    ensures forall e :: e in Merge(current, incoming) <==> Latest(current + Identified(incoming), e)
  {
    var all := current + Identified(incoming);
    var m := Collect(all);
    CollectKeepsLatest(all);
    SortIsOrdered(Values(m));
    hide Latest;
    hide Collect;
    forall e ensures e in Merge(current, incoming) <==> Latest(all, e) {
      assert e in Merge(current, incoming) <==> e in multiset(Values(m));
      if Latest(all, e) {
        assert (e.id, e) in m;
        var i :| 0 <= i < |m| && m[i] == (e.id, e);
        assert Values(m)[i] == e;
      }
      if e in Values(m) {
        var i :| 0 <= i < |m| && Values(m)[i] == e;
        assert m[i] in m;
      }
    }
  }

  /** Some entry has this id, in a list where entries without an id do not count. */
  predicate Brought(incoming: seq<Entry>, id: string) {
    id != "" && exists i :: 0 <= i < |incoming| && incoming[i].id == id
  }

  lemma BroughtAfter(front: seq<Entry>, last: Entry, id: string)
    ensures Brought(front + [last], id) <==> Brought(front, id) || (id != "" && last.id == id)
  {
    var all := front + [last];
    assert all[|front|] == last;
    if i :| 0 <= i < |front| && front[i].id == id { assert all[i].id == id; }
  }

  lemma {:induction false} IdentifiedKeepsLatest(current: seq<Entry>, incoming: seq<Entry>, e: Entry)
    ensures Latest(current + Identified(incoming), e)
            <==> if Brought(incoming, e.id) then Latest(incoming, e) else Latest(current, e)
    decreases |incoming|
  {
    if incoming == [] {
      assert current + Identified(incoming) == current;
    } else {
      var front, last := incoming[..|incoming| - 1], incoming[|incoming| - 1];
      assert incoming == front + [last];
      IdentifiedKeepsLatest(current, front, e);
      BroughtAfter(front, last, e.id);
      hide Latest, Brought;
      LatestAfter(front, last, e);
      if last.id != "" {
        LatestAfter(current + Identified(front), last, e);
        assert current + Identified(incoming) == current + Identified(front) + [last];
      } else {
        assert Identified(incoming) == Identified(front);
      }
    }
  }

  ghost predicate DistinctEntryIds(s: seq<Entry>) {
    forall i, j :: 0 <= i < j < |s| ==> s[i].id != s[j].id
  }

  lemma {:induction false} InsertKeepsIdsDistinct(e: Entry, s: seq<Entry>)
    requires DistinctEntryIds(s) && forall i :: 0 <= i < |s| ==> s[i].id != e.id
    ensures DistinctEntryIds(Insert(e, s))
  {
    if s != [] && e.sequence >= s[0].sequence {
      var rest := Insert(e, s[1..]);
      InsertKeepsIdsDistinct(e, s[1..]);
      InsertElements(e, s[1..]);
      forall j | 0 <= j < |rest| ensures rest[j].id != s[0].id {
        assert rest[j] in multiset(rest);
        assert rest[j] == e || rest[j] in s[1..];
      }
    }
  }

  lemma {:induction false} SortKeepsIdsDistinct(s: seq<Entry>)
    requires DistinctEntryIds(s)
    ensures DistinctEntryIds(SortBySequence(s))
  {
    if s != [] {
      var front, last := s[..|s| - 1], s[|s| - 1];
      SortKeepsIdsDistinct(front);
      SortIsOrdered(front);
      hide Insert, Ordered;
      var sorted := SortBySequence(front);
      forall i | 0 <= i < |sorted| ensures sorted[i].id != last.id {
        assert sorted[i] in multiset(front);
      }
      InsertKeepsIdsDistinct(last, sorted);
    }
  }

  /** An entry is in the merge exactly if it is the last one brought in with its id or, nothing having been brought in under
      that id, the last one held with it; entries brought in without an id change nothing. No id occurs twice. */
  lemma MergeIsNewest(current: seq<Entry>, incoming: seq<Entry>, e: Entry)
    ensures e in Merge(current, incoming)
            <==> if Brought(incoming, e.id) then Latest(incoming, e) else Latest(current, e)
    ensures DistinctEntryIds(Merge(current, incoming))
  {
    MergeKeepsLatest(current, incoming);
    IdentifiedKeepsLatest(current, incoming, e);
    MergeIdsDiffer(current, incoming);
  }

  lemma MergeIdsDiffer(current: seq<Entry>, incoming: seq<Entry>)
    ensures DistinctEntryIds(Merge(current, incoming))
  {
    var m := Collect(current + Identified(incoming));
    CollectKeepsLatest(current + Identified(incoming));
    hide Latest, Collect, SortBySequence;
    forall i, j | 0 <= i < j < |m| ensures Values(m)[i].id != Values(m)[j].id {
      assert m[i] in m && m[j] in m;
    }
    SortKeepsIdsDistinct(Values(m));
  }
}
