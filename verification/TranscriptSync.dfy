/** One server transcript and one client that receives segments and rejoin snapshots over a dropping connection. */
module TranscriptSync {
  import opened OrderedMap
  import opened TranscriptLog
  import opened TranscriptMerge

  predicate Strict(s: seq<Entry>) {
    forall i, j :: 0 <= i < j < |s| ==> s[i].sequence < s[j].sequence
  }

  predicate Coherent(roomId: string, s: seq<Entry>) {
    forall i :: 0 <= i < |s| ==> s[i].id == EntryId(roomId, s[i].sequence)
  }

  predicate Bounded(s: seq<Entry>, limit: nat) {
    forall i :: 0 <= i < |s| ==> s[i].sequence < limit
  }

  /** A list of one room's entries, in order, each once, numbered below `limit`. */
  predicate Good(roomId: string, s: seq<Entry>, limit: nat) {
    Strict(s) && Coherent(roomId, s) && Bounded(s, limit)
  }

  predicate Numbered(s: seq<Entry>, k: nat) {
    exists i :: 0 <= i < |s| && s[i].sequence == k
  }

  // ---------- The merge on good lists ----------

  predicate DistinctSequences(s: seq<Entry>) {
    forall i, j :: 0 <= i < j < |s| ==> s[i].sequence != s[j].sequence
  }

  lemma {:induction false} InsertKeepsStrict(e: Entry, s: seq<Entry>)
    requires Strict(s) && !Numbered(s, e.sequence)
    ensures Strict(Insert(e, s))
    ensures Insert(e, s)[0].sequence == if s != [] && s[0].sequence <= e.sequence then s[0].sequence else e.sequence
  {
    if s != [] {
      assert s[0].sequence != e.sequence;
      if s[0].sequence < e.sequence {
        assert !Numbered(s[1..], e.sequence);
        InsertKeepsStrict(e, s[1..]);
        StrictCons(s[0], Insert(e, s[1..]));
      } else {
        StrictCons(e, s);
      }
    }
  }

  lemma StrictCons(e: Entry, s: seq<Entry>)
    requires Strict(s) && s != [] && e.sequence < s[0].sequence
    ensures Strict([e] + s)
  {
    var all := [e] + s;
    forall i, j | 0 <= i < j < |all| ensures all[i].sequence < all[j].sequence {
      assert all[j] == s[j - 1] && s[0].sequence <= s[j - 1].sequence;
    }
  }

  lemma {:induction false} SortMakesStrict(s: seq<Entry>)
    requires DistinctSequences(s)
    ensures Strict(SortBySequence(s))
  {
    if s != [] {
      var front, last := s[..|s| - 1], s[|s| - 1];
      SortMakesStrict(front);
      SortIsOrdered(front);
      var sorted := SortBySequence(front);
      forall i | 0 <= i < |sorted| ensures sorted[i].sequence != last.sequence {
        assert sorted[i] in multiset(front);
      }
      InsertKeepsStrict(last, sorted);
    }
  }

  lemma {:induction false} AllIdentified(roomId: string, s: seq<Entry>)
    requires Coherent(roomId, s)
    ensures Identified(s) == s
  {
    if s != [] {
      var n := |s| - 1;
      AllIdentified(roomId, s[..n]);
      assert s[n].id == EntryId(roomId, s[n].sequence) && |s[n].id| > 0;
      assert s == s[..n] + [s[n]];
    }
  }

  lemma SameIdSameNumber(roomId: string, s: seq<Entry>, i: nat, j: nat)
    requires Coherent(roomId, s) && i < |s| && j < |s|
    ensures s[i].id == s[j].id <==> s[i].sequence == s[j].sequence
  {
    if s[i].id == s[j].id { EntryIdIsInjective(roomId, s[i].sequence, s[j].sequence); }
  }

  /** In a concatenation of good lists the later list wins. */
  lemma LatestOfTwo(roomId: string, p: seq<Entry>, q: seq<Entry>, e: Entry)
    requires Strict(p) && Strict(q) && Coherent(roomId, p + q)
    ensures Latest(p + q, e) <==> e in q || (e in p && !Numbered(q, e.sequence))
  {
    var all := p + q;
    hide Coherent;
    if e in q {
      var k :| 0 <= k < |q| && q[k] == e;
      forall j | |p| + k < j < |all| ensures all[j].id != e.id {
        assert all[j] == q[j - |p|] && all[|p| + k] == e;
        SameIdSameNumber(roomId, all, |p| + k, j);
      }
      assert all[|p| + k] == e;
    } else if e in p && !Numbered(q, e.sequence) {
      var k :| 0 <= k < |p| && p[k] == e;
      forall j | k < j < |all| ensures all[j].id != e.id {
        assert all[k] == e && (if j < |p| then all[j] == p[j] else all[j] == q[j - |p|]);
        SameIdSameNumber(roomId, all, k, j);
      }
      assert all[k] == e;
    } else if Latest(all, e) {
      EarlierIsReplaced(roomId, p, q, e);
    }
  }

  lemma EarlierIsReplaced(roomId: string, p: seq<Entry>, q: seq<Entry>, e: Entry)
    requires Coherent(roomId, p + q) && Latest(p + q, e) && e !in q
    ensures e in p && !Numbered(q, e.sequence)
  {
    var all := p + q;
    var i :| 0 <= i < |all| && all[i] == e && forall j :: i < j < |all| ==> all[j].id != e.id;
    assert forall j :: |p| <= j < |all| ==> all[j] in q;
    assert p[i] == e;
    forall k | 0 <= k < |q| ensures q[k].sequence != e.sequence {
      assert all[|p| + k] == q[k];
      SameIdSameNumber(roomId, all, i, |p| + k);
    }
  }

  lemma MergeOfGood(roomId: string, current: seq<Entry>, incoming: seq<Entry>, limit: nat)
    requires Good(roomId, current, limit) && Good(roomId, incoming, limit)
    ensures Good(roomId, Merge(current, incoming), limit)
    ensures forall e :: e in Merge(current, incoming)
              <==> e in incoming || (e in current && !Numbered(incoming, e.sequence))
  {
    AllIdentified(roomId, incoming);
    MergeKeepsLatest(current, incoming);
    MergeIsStrict(roomId, current, incoming);
    var merged := Merge(current, incoming);
    hide Merge;
    hide Latest;
    forall e ensures e in merged <==> e in incoming || (e in current && !Numbered(incoming, e.sequence)) {
      LatestOfTwo(roomId, current, incoming, e);
    }
    forall i | 0 <= i < |merged| ensures merged[i].id == EntryId(roomId, merged[i].sequence) && merged[i].sequence < limit {
      assert merged[i] in incoming || merged[i] in current;
    }
  }

  lemma MergeIsStrict(roomId: string, current: seq<Entry>, incoming: seq<Entry>)
    requires Coherent(roomId, current + incoming) && Identified(incoming) == incoming
    ensures Strict(Merge(current, incoming))
  {
    var all := current + incoming;
    var m := Collect(all);
    CollectKeepsLatest(all);
    var values := Values(m);
    hide Collect;
    forall i, j | 0 <= i < j < |values| ensures values[i].sequence != values[j].sequence {
      assert m[i] in m && m[j] in m && m[i].0 != m[j].0;
      var x :| 0 <= x < |all| && all[x] == m[i].1;
      var y :| 0 <= y < |all| && all[y] == m[j].1;
      SameIdSameNumber(roomId, all, x, y);
    }
    SortMakesStrict(values);
  }

  // ---------- Server, channel and client ----------

  /** `queue` holds the messages sent to the client and not yet merged; `live` means it has rejoined on this connection. */
  datatype World = World(log: Log, client: seq<Entry>, queue: seq<seq<Entry>>, live: bool)

  datatype Happening = ServerOp(op: Op) | GoOffline | Rejoin | Receive

  /** What an operation broadcasts: the new entry, the revised one, or nothing. */
  function Broadcast(log: Log, roomId: string, op: Op): seq<seq<Entry>> {
    match op
    case AppendOp(speaker, s, now) =>
      var result := Append(log, roomId, speaker, s, now).1;
      if result.Appended? then [[result.entry]] else []
    case ReviseOp(entryId, text, provider, now) =>
      var revised := Revise(log, entryId, text, provider, now).1;
      if revised.Some? then [[revised.value]] else []
    case _ => []
  }

  /** Going offline loses what is in flight; rejoining on a new connection starts with a snapshot. */
  function Step(roomId: string, w: World, h: Happening): World {
    match h
    case ServerOp(op) =>
      w.(log := Apply(w.log, roomId, op),
         queue := if w.live then w.queue + Broadcast(w.log, roomId, op) else w.queue)
    case GoOffline => w.(live := false, queue := [])
    case Rejoin => w.(live := true, queue := w.queue + [w.log.entries])
    case Receive =>
      if w.queue == [] then w else w.(client := Merge(w.client, w.queue[0]), queue := w.queue[1..])
  }

  /** The client's list once it has merged everything sent to it. */
  function Merged(client: seq<Entry>, queue: seq<seq<Entry>>): seq<Entry>
    decreases |queue|
  {
    if queue == [] then client else Merged(Merge(client, queue[0]), queue[1..])
  }

  ghost predicate GoodLog(roomId: string, log: Log) {
    exists accepted :: TranscriptLog.Inv(log, roomId, accepted)
  }

  predicate GoodQueue(roomId: string, queue: seq<seq<Entry>>, limit: nat) {
    forall i :: 0 <= i < |queue| ==> Good(roomId, queue[i], limit)
  }

  predicate Holds(list: seq<Entry>, entries: seq<Entry>) {
    forall i :: 0 <= i < |entries| ==> entries[i] in list
  }

  ghost predicate WorldInv(roomId: string, w: World) {
    && GoodLog(roomId, w.log)
    && Good(roomId, w.client, w.log.nextSequence)
    && GoodQueue(roomId, w.queue, w.log.nextSequence)
    && (w.live ==> Holds(Merged(w.client, w.queue), w.log.entries))
  }

  lemma {:induction false} MergedIsGood(roomId: string, client: seq<Entry>, queue: seq<seq<Entry>>, limit: nat)
    requires Good(roomId, client, limit) && GoodQueue(roomId, queue, limit)
    ensures Good(roomId, Merged(client, queue), limit)
    decreases |queue|
  {
    hide Good;
    hide Merge;
    if queue != [] {
      MergeOfGood(roomId, client, queue[0], limit);
      MergedIsGood(roomId, Merge(client, queue[0]), queue[1..], limit);
    }
  }

  lemma {:induction false} MergedNext(client: seq<Entry>, queue: seq<seq<Entry>>, message: seq<Entry>)
    ensures Merged(client, queue + [message]) == Merge(Merged(client, queue), message)
    decreases |queue|
  {
    hide Merge;
    if queue == [] {
      assert [] + [message] == [message] && [message][1..] == [];
    } else {
      assert (queue + [message])[0] == queue[0] && (queue + [message])[1..] == queue[1..] + [message];
      MergedNext(Merge(client, queue[0]), queue[1..], message);
    }
  }

  lemma LogIsGood(roomId: string, log: Log)
    requires GoodLog(roomId, log)
    ensures Good(roomId, log.entries, log.nextSequence) && |log.entries| < log.nextSequence
    ensures forall i :: 0 <= i < |log.entries| ==> log.entries[i].sequence == log.nextSequence - |log.entries| + i
  {
    hide EntryId;
    var accepted :| TranscriptLog.Inv(log, roomId, accepted);
    forall i | 0 <= i < |log.entries|
      ensures log.entries[i].sequence == log.nextSequence - |log.entries| + i
              && log.entries[i].id == EntryId(roomId, log.entries[i].sequence)
    {
      assert Placed(log.entries[i], roomId, log.nextSequence - |log.entries| + i);
    }
  }

  lemma GoodLater(roomId: string, s: seq<Entry>, limit: nat, later: nat)
    requires Good(roomId, s, limit) && limit <= later
    ensures Good(roomId, s, later)
  {
  }

  /** Sending one more good message: the client will hold it and what it does not replace. */
  lemma SendKeeps(roomId: string, client: seq<Entry>, queue: seq<seq<Entry>>, message: seq<Entry>, limit: nat)
    requires Good(roomId, client, limit) && GoodQueue(roomId, queue, limit) && Good(roomId, message, limit)
    ensures GoodQueue(roomId, queue + [message], limit)
    ensures forall e :: e in Merged(client, queue + [message])
              <==> e in message || (e in Merged(client, queue) && !Numbered(message, e.sequence))
  {
    hide Good;
    hide Merge;
    hide Numbered;
    MergedIsGood(roomId, client, queue, limit);
    MergedNext(client, queue, message);
    MergeOfGood(roomId, Merged(client, queue), message, limit);
  }

  lemma ApplyKeepsGoodLog(roomId: string, log: Log, op: Op)
    requires GoodLog(roomId, log)
    ensures GoodLog(roomId, Apply(log, roomId, op)) && log.nextSequence <= Apply(log, roomId, op).nextSequence
  {
    hide TranscriptLog.Inv;
    var accepted :| TranscriptLog.Inv(log, roomId, accepted);
    ApplyKeepsInv(log, roomId, accepted, op);
  }

  /** The broadcast of an operation is one entry that brings any list holding the old entries up to date. */
  lemma BroadcastUpdates(roomId: string, log: Log, op: Op)
    requires GoodLog(roomId, log)
    ensures var log' := Apply(log, roomId, op);
            var b := Broadcast(log, roomId, op);
            if b == [] then log'.entries == log.entries
            else |b| == 1 && |b[0]| == 1 && Good(roomId, b[0], log'.nextSequence)
                 && forall e :: e in log'.entries ==> e in b[0] || (e in log.entries && e.sequence != b[0][0].sequence)
  {
    LogIsGood(roomId, log);
    hide EntryId;
    hide TranscriptLog.IndexOf;
    hide GoodLog;
    var log' := Apply(log, roomId, op);
  }

  lemma ServerOpKeepsInv(roomId: string, w: World, op: Op)
    requires WorldInv(roomId, w)
    ensures WorldInv(roomId, Step(roomId, w, ServerOp(op)))
  {
    var log' := Apply(w.log, roomId, op);
    var b := Broadcast(w.log, roomId, op);
    ApplyKeepsGoodLog(roomId, w.log, op);
    BroadcastUpdates(roomId, w.log, op);
    hide GoodLog;
    hide Apply;
    hide Broadcast;
    GoodLater(roomId, w.client, w.log.nextSequence, log'.nextSequence);
    forall i | 0 <= i < |w.queue| ensures Good(roomId, w.queue[i], log'.nextSequence) {
      GoodLater(roomId, w.queue[i], w.log.nextSequence, log'.nextSequence);
    }
    hide Good;
    if w.live && b != [] {
      SendKeeps(roomId, w.client, w.queue, b[0], log'.nextSequence);
      assert w.queue + b == w.queue + [b[0]];
      hide Merged;
    } else {
      assert w.queue + [] == w.queue;
    }
  }

  lemma StepKeepsInv(roomId: string, w: World, h: Happening)
    requires WorldInv(roomId, w)
    ensures WorldInv(roomId, Step(roomId, w, h))
  {
    match h
    case ServerOp(op) => ServerOpKeepsInv(roomId, w, op);
    case GoOffline =>
    case Rejoin =>
      LogIsGood(roomId, w.log);
      SendKeeps(roomId, w.client, w.queue, w.log.entries, w.log.nextSequence);
      hide Merged;
      hide Good;
      hide GoodLog;
    case Receive =>
      hide Good;
      hide GoodLog;
      hide Merge;
      if w.queue != [] { MergeOfGood(roomId, w.client, w.queue[0], w.log.nextSequence); }
  }

  function Run(roomId: string, w: World, run: seq<Happening>): World
    decreases |run|
  {
    if run == [] then w else Run(roomId, Step(roomId, w, run[0]), run[1..])
  }

  lemma {:induction false} RunKeepsWorldInv(roomId: string, w: World, run: seq<Happening>)
    requires WorldInv(roomId, w)
    ensures WorldInv(roomId, Run(roomId, w, run))
    decreases |run|
  {
    hide WorldInv;
    hide Step;
    if run != [] {
      StepKeepsInv(roomId, w, run[0]);
      RunKeepsWorldInv(roomId, Step(roomId, w, run[0]), run[1..]);
    }
  }

  lemma {:induction false} HeldEntriesAreSuffix(list: seq<Entry>, entries: seq<Entry>, next: nat)
    requires Strict(list) && Bounded(list, next) && Holds(list, entries) && |entries| <= next
    requires forall i :: 0 <= i < |entries| ==> entries[i].sequence == next - |entries| + i
    ensures |entries| <= |list| && list[|list| - |entries|..] == entries
  {
    if entries != [] {
      var n, m := |list| - 1, |entries| - 1;
      assert entries[m] in list;
      var at :| 0 <= at < |list| && list[at] == entries[m];
      assert list[at].sequence == next - 1 && list[n].sequence < next;
      assert at == n;
      forall i | 0 <= i < m ensures entries[i] in list[..n] {
        assert entries[i] in list;
        var j :| 0 <= j < |list| && list[j] == entries[i];
        assert j < n;
        assert list[..n][j] == entries[i];
      }
      HeldEntriesAreSuffix(list[..n], entries[..m], next - 1);
      assert entries == entries[..m] + [entries[m]];
      assert list[|list| - |entries|..] == list[..n][n - m..] + [list[n]];
    } else {
      assert list[|list|..] == [];
    }
  }

  lemma CaughtUp(roomId: string, w: World)
    requires WorldInv(roomId, w)
    ensures Strict(w.client) && Coherent(roomId, w.client)
    ensures w.live && w.queue == [] ==>
              |w.log.entries| <= |w.client| && w.client[|w.client| - |w.log.entries|..] == w.log.entries
  {
    LogIsGood(roomId, w.log);
    hide Coherent;
    hide GoodLog;
    if w.live && w.queue == [] {
      HeldEntriesAreSuffix(w.client, w.log.entries, w.log.nextSequence);
    }
  }

  lemma StartIsGood(roomId: string)
    ensures WorldInv(roomId, World(EMPTY_LOG, [], [], false))
  {
    assert TranscriptLog.Inv(EMPTY_LOG, roomId, []);
  }

  /** Through any appends, revisions, losses and rejoins the client's list is in order without repeats, and once it has
      rejoined and caught up it ends with exactly the server's current version of every retained entry. */
  lemma ClientConverges(roomId: string, run: seq<Happening>)
    ensures var w := Run(roomId, World(EMPTY_LOG, [], [], false), run);
            Strict(w.client) && Coherent(roomId, w.client)
            && (w.live && w.queue == [] ==>
                  |w.log.entries| <= |w.client| && w.client[|w.client| - |w.log.entries|..] == w.log.entries)
  {
    hide WorldInv;
    hide Run;
    StartIsGood(roomId);
    RunKeepsWorldInv(roomId, World(EMPTY_LOG, [], [], false), run);
    CaughtUp(roomId, Run(roomId, World(EMPTY_LOG, [], [], false), run));
  }
}
