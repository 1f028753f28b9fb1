/** What a transcript log holds, told by the operations it was given: which segments were taken and what each entry says. */
module TranscriptHistory {
  import opened Wrappers
  import opened TranscriptLog

  /** The log as it stands after a series of operations. */
  function Logged(roomId: string, ops: seq<Op>): Log { Run(EMPTY_LOG, roomId, ops) }

  lemma {:induction false} RunAppend(log: Log, roomId: string, ops: seq<Op>, op: Op)
    ensures Run(log, roomId, ops + [op]) == Apply(Run(log, roomId, ops), roomId, op)
    decreases |ops|
  {
    hide Apply;
    if ops == [] {
      assert ops + [op] == [op];
      assert [op][1..] == [];
    } else {
      assert (ops + [op])[1..] == ops[1..] + [op];
      RunAppend(Apply(log, roomId, ops[0]), roomId, ops[1..], op);
    }
  }

  // ---------- The history ----------

  /** The latest of the starts and stops, if there was one, was a start. */
  ghost predicate StartedLast(ops: seq<Op>) {
    exists i :: 0 <= i < |ops| && ops[i].StartOp? && forall j :: i < j < |ops| ==> !ops[j].StopOp?
  }

  /** How many of the `n` segment ids accepted so far are remembered: all, until the 10001st cuts them to the last 5000,
      and again with every 5001 after that. */
  function RememberedCount(n: nat): (count: nat)
    ensures count <= n && count <= 10000
  {
    if n <= 10000 then n else 5000 + (n - 10001) % 5001
  }

  predicate Remembered(accepted: seq<string>, id: string) {
    id in accepted[|accepted| - RememberedCount(|accepted|)..]
  }

  function FirstHundred(id: string): string { if |id| > 100 then id[..100] else id }

  /** The segments taken, by their positions among the operations: a segment is taken when the transcript is running, its
      text and id are not empty, and its id is not remembered. */
  ghost predicate TakenAt(ops: seq<Op>, accepted: seq<string>, op: Op) {
    && op.AppendOp? && StartedLast(ops) && op.s.text != "" && op.s.clientSegmentId != ""
    && !Remembered(accepted, FirstHundred(op.s.clientSegmentId))
  }

  ghost function IdsTaken(ops: seq<Op>): seq<string> {
    if ops == [] then []
    else
      var before, op := ops[..|ops| - 1], ops[|ops| - 1];
      IdsTaken(before) + if TakenAt(before, IdsTaken(before), op) then [FirstHundred(op.s.clientSegmentId)] else []
  }

  /** The positions of the segments taken. */
  ghost function Taken(ops: seq<Op>): seq<nat> {
    if ops == [] then []
    else
      var before, op := ops[..|ops| - 1], ops[|ops| - 1];
      Taken(before) + if TakenAt(before, IdsTaken(before), op) then [|before|] else []
  }

  lemma {:induction false} TakenAreAppends(ops: seq<Op>)
    ensures |Taken(ops)| == |IdsTaken(ops)|
    ensures forall k :: 0 <= k < |Taken(ops)| ==>
              Taken(ops)[k] < |ops| && ops[Taken(ops)[k]].AppendOp?
              && IdsTaken(ops)[k] == FirstHundred(ops[Taken(ops)[k]].s.clientSegmentId)
  {
    hide StartedLast, Remembered, FirstHundred;
    if ops != [] { TakenAreAppends(ops[..|ops| - 1]); }
  }

  // ---------- Which segments are taken ----------

  lemma StartedNext(ops: seq<Op>, op: Op)
    ensures StartedLast(ops + [op]) <==> op.StartOp? || (StartedLast(ops) && !op.StopOp?)
  {
    var all := ops + [op];
    if op.StartOp? { assert all[|ops|].StartOp?; }
    if StartedLast(ops) && !op.StopOp? {
      var i :| 0 <= i < |ops| && ops[i].StartOp? && forall j :: i < j < |ops| ==> !ops[j].StopOp?;
      assert all[i].StartOp?;
    }
    if StartedLast(all) && !op.StartOp? {
      var i :| 0 <= i < |all| && all[i].StartOp? && forall j :: i < j < |all| ==> !all[j].StopOp?;
      assert i < |ops| && ops[i].StartOp? && !all[|ops|].StopOp?;
      assert forall j :: i < j < |ops| ==> ops[j] == all[j];
    }
  }

  /** The log runs when the history says so, and remembers the ids the history says. */
  ghost predicate Agrees(log: Log, ops: seq<Op>, accepted: seq<string>) {
    && (log.active <==> StartedLast(ops))
    && log.nextSequence == |accepted| + 1
    && log.seen == accepted[|accepted| - RememberedCount(|accepted|)..]
  }

  lemma RecordedRemembers(log: Log, entry: Entry, accepted: seq<string>, id: string)
    requires log.nextSequence == |accepted| + 1 && log.seen == accepted[|accepted| - RememberedCount(|accepted|)..]
    ensures var log', accepted' := Recorded(log, entry, id), accepted + [id];
            log'.active == log.active && log'.nextSequence == |accepted'| + 1
            && log'.seen == accepted'[|accepted'| - RememberedCount(|accepted'|)..]
  {
    var n := |accepted|;
    var seen := log.seen + [id];
    assert seen == (accepted + [id])[n - RememberedCount(n)..];
    CountNext(n);
    hide RememberedCount;
    if |seen| > 10000 { assert seen[|seen| - 5000..] == (accepted + [id])[n + 1 - 5000..]; }
  }

  lemma CountNext(n: nat)
    ensures RememberedCount(n + 1) == if RememberedCount(n) + 1 > 10000 then 5000 else RememberedCount(n) + 1
  {
    if n >= 10001 {
      var r := (n - 10001) % 5001;
      assert (n + 1 - 10001) % 5001 == if r == 5000 then 0 else r + 1;
    }
  }

  lemma ApplyAgrees(roomId: string, log: Log, ops: seq<Op>, accepted: seq<string>, op: Op)
    requires Agrees(log, ops, accepted)
    ensures var taken := TakenAt(ops, accepted, op);
            && Agrees(Apply(log, roomId, op), ops + [op],
                      accepted + if taken then [FirstHundred(op.s.clientSegmentId)] else [])
            && (op.AppendOp? ==> (taken <==> Append(log, roomId, op.speaker, op.s, op.now).1.Appended?))
  {
    StartedNext(ops, op);
    hide StartedLast, EntryId, Revise, RememberedCount;
    assert accepted + [] == accepted;
    if op.AppendOp? {
      RecordedRemembers(log, NewEntry(log, roomId, op.speaker, op.s, op.now), accepted, FirstHundred(op.s.clientSegmentId));
    } else if op.ReviseOp? {
      RevisionKeepsHead(log, op);
    }
  }

  lemma RevisionKeepsHead(log: Log, op: Op)
    requires op.ReviseOp?
    ensures var log' := Revise(log, op.entryId, op.text, op.provider, op.now).0;
            log'.active == log.active && log'.nextSequence == log.nextSequence && log'.seen == log.seen
  {
  }

  lemma {:induction false} LogAgrees(roomId: string, ops: seq<Op>)
    ensures Agrees(Logged(roomId, ops), ops, IdsTaken(ops))
  {
    hide Apply, TakenAt, FirstHundred;
    if ops == [] {
      AgreesAtStart(roomId);
    } else {
      var before, op := ops[..|ops| - 1], ops[|ops| - 1];
      assert ops == before + [op];
      LogAgrees(roomId, before);
      RunAppend(EMPTY_LOG, roomId, before, op);
      ApplyAgrees(roomId, Logged(roomId, before), before, IdsTaken(before), op);
    }
  }

  lemma AgreesAtStart(roomId: string)
    ensures Agrees(Logged(roomId, []), [], IdsTaken([]))
  {
  }

  /** After any operations, a segment is accepted exactly when the latest start or stop was a start, its text and id are not
      empty, and its id, cut at 100 characters, is not among the remembered ones: the last of those accepted, up to 10000.
      A refusal says which of these failed first. */
  lemma AcceptedExactlyWhenTaken(roomId: string, ops: seq<Op>, speaker: Speaker, s: Segment, now: int)
    ensures var result := Append(Logged(roomId, ops), roomId, speaker, s, now).1;
            && (result.Appended? <==> TakenAt(ops, IdsTaken(ops), AppendOp(speaker, s, now)))
            && (result == Error("Transcript is not active") <==> !StartedLast(ops))
            && (result == Error("Invalid transcript segment")
                <==> StartedLast(ops) && (s.text == "" || s.clientSegmentId == ""))
            && (result == Duplicate
                <==> StartedLast(ops) && s.text != "" && s.clientSegmentId != ""
                     && Remembered(IdsTaken(ops), FirstHundred(s.clientSegmentId)))
  {
    LogAgrees(roomId, ops);
    ApplyAgrees(roomId, Logged(roomId, ops), ops, IdsTaken(ops), AppendOp(speaker, s, now));
    assert "Transcript is not active"[0] != "Invalid transcript segment"[0];
    hide StartedLast, RememberedCount, IdsTaken, Run, Recorded, NewEntry;
  }

  // ---------- What the entries say ----------

  predicate Revises(op: Op, id: string) { op.ReviseOp? && op.entryId == id && op.text != "" }

  /** The `j`-th operation is the last to revise the entry recorded at `k`. */
  predicate LastRevision(ops: seq<Op>, k: nat, id: string, j: nat) {
    k < j < |ops| && Revises(ops[j], id) && forall m :: j < m < |ops| ==> !Revises(ops[m], id)
  }

  predicate Unrevised(ops: seq<Op>, k: nat, id: string) {
    forall m :: k < m < |ops| ==> !Revises(ops[m], id)
  }

  /** The last revision to name a provider. */
  predicate LastNaming(ops: seq<Op>, k: nat, id: string, j: nat) {
    && k < j < |ops| && Revises(ops[j], id) && ops[j].provider != ""
    && forall m :: j < m < |ops| && Revises(ops[m], id) ==> ops[m].provider == ""
  }

  predicate NoneNames(ops: seq<Op>, k: nat, id: string) {
    forall m :: k < m < |ops| && Revises(ops[m], id) ==> ops[m].provider == ""
  }

  /** The entry tells what was said at `k`, as last revised since. */
  ghost predicate Tells(ops: seq<Op>, k: nat, e: Entry)
    requires k < |ops| && ops[k].AppendOp?
  {
    var said := ops[k];
    && e.speaker == said.speaker && e.ts == said.now
    && (Unrevised(ops, k, e.id) ==>
          e.text == said.s.text && e.provisional == said.s.provisional && e.revisedAt == None)
    && (forall j: nat :: LastRevision(ops, k, e.id, j) ==>
          e.text == ops[j].text && !e.provisional && e.revisedAt == Some(ops[j].now))
    && (NoneNames(ops, k, e.id) ==> e.provider == if said.s.provider == "" then "browser" else said.s.provider)
    && (forall j: nat :: LastNaming(ops, k, e.id, j) ==> e.provider == ops[j].provider)
  }

  lemma TellsNext(ops: seq<Op>, k: nat, e: Entry, op: Op)
    requires k < |ops| && ops[k].AppendOp? && Tells(ops, k, e) && !Revises(op, e.id)
    ensures Tells(ops + [op], k, e)
  {
    var all, n, id := ops + [op], |ops|, e.id;
    assert all[n] == op;
    assert forall m :: 0 <= m < n ==> all[m] == ops[m];
    hide Revises;
    assert Unrevised(all, k, id) ==> Unrevised(ops, k, id) by { KeepsUnrevised(ops, k, id, op); }
    assert NoneNames(all, k, id) ==> NoneNames(ops, k, id) by { KeepsUnrevised(ops, k, id, op); }
    forall j: nat | LastRevision(all, k, id, j) ensures LastRevision(ops, k, id, j) && all[j] == ops[j] {
      assert forall m :: j < m < n ==> all[m] == ops[m];
    }
    forall j: nat | LastNaming(all, k, id, j) ensures LastNaming(ops, k, id, j) && all[j] == ops[j] {
      assert forall m :: j < m < n ==> all[m] == ops[m];
    }
    hide LastRevision, LastNaming, Unrevised, NoneNames;
  }

  lemma KeepsUnrevised(ops: seq<Op>, k: nat, id: string, op: Op)
    ensures Unrevised(ops + [op], k, id) ==> Unrevised(ops, k, id)
    ensures NoneNames(ops + [op], k, id) ==> NoneNames(ops, k, id)
  {
    hide Revises;
    var all := ops + [op];
    assert forall m :: 0 <= m < |ops| ==> all[m] == ops[m];
  }

  lemma TellsRevised(ops: seq<Op>, k: nat, e: Entry, op: Op)
    requires k < |ops| && ops[k].AppendOp? && Tells(ops, k, e) && Revises(op, e.id)
    ensures Tells(ops + [op], k, Revised(e, op.text, op.provider, op.now))
  {
    var all, n, id := ops + [op], |ops|, e.id;
    assert all[n] == op && all[k] == ops[k];
    assert forall m :: 0 <= m < n ==> all[m] == ops[m];
    KeepsUnrevised(ops, k, id, op);
    hide Revises;
    assert !Unrevised(all, k, id);
    forall j: nat | LastRevision(all, k, id, j) ensures j == n {
    }
    forall j: nat | LastNaming(all, k, id, j)
      ensures if op.provider != "" then j == n else j < n && LastNaming(ops, k, id, j) && all[j] == ops[j]
    {
      assert forall m :: j < m < n ==> all[m] == ops[m];
    }
    assert op.provider != "" ==> !NoneNames(all, k, id);
    hide LastRevision, LastNaming, Unrevised, NoneNames;
  }

  lemma TellsNew(ops: seq<Op>, op: Op, e: Entry)
    requires op.AppendOp? && e.speaker == op.speaker && e.ts == op.now
    requires e.text == op.s.text && e.provisional == op.s.provisional && e.revisedAt == None
    requires e.provider == if op.s.provider == "" then "browser" else op.s.provider
    ensures Tells(ops + [op], |ops|, e)
  {
    hide Revises;
  }

  /** An entry tells the segment whose place among the ones taken is the entry's number. */
  ghost predicate TellsItsOwn(ops: seq<Op>, taken: seq<nat>, e: Entry) {
    && 1 <= e.sequence <= |taken| && taken[e.sequence - 1] < |ops| && ops[taken[e.sequence - 1]].AppendOp?
    && Tells(ops, taken[e.sequence - 1], e)
  }

  ghost predicate AllTell(entries: seq<Entry>, ops: seq<Op>, taken: seq<nat>) {
    forall i :: 0 <= i < |entries| ==> TellsItsOwn(ops, taken, entries[i])
  }

  lemma TakenNext(ops: seq<Op>, op: Op)
    ensures Taken(ops + [op]) == Taken(ops) + if TakenAt(ops, IdsTaken(ops), op) then [|ops|] else []
    ensures IdsTaken(ops + [op])
            == IdsTaken(ops) + if TakenAt(ops, IdsTaken(ops), op) then [FirstHundred(op.s.clientSegmentId)] else []
  {
    hide TakenAt, FirstHundred;
    assert (ops + [op])[..|ops|] == ops;
  }

  lemma TellsOn(ops: seq<Op>, taken: seq<nat>, more: seq<nat>, e: Entry, op: Op)
    requires TellsItsOwn(ops, taken, e) && !Revises(op, e.id)
    ensures TellsItsOwn(ops + [op], taken + more, e)
  {
    hide Tells, Revises;
    TellsNext(ops, taken[e.sequence - 1], e, op);
  }

  lemma AllTellOn(entries: seq<Entry>, ops: seq<Op>, taken: seq<nat>, more: seq<nat>, op: Op)
    requires AllTell(entries, ops, taken) && !op.ReviseOp?
    ensures AllTell(entries, ops + [op], taken + more)
  {
    hide TellsItsOwn;
    forall i | 0 <= i < |entries| ensures TellsItsOwn(ops + [op], taken + more, entries[i]) {
      TellsOn(ops, taken, more, entries[i], op);
    }
  }

  lemma NewTells(ops: seq<Op>, taken: seq<nat>, op: Op, e: Entry)
    requires op.AppendOp? && e.sequence == |taken| + 1 && e.speaker == op.speaker && e.ts == op.now
    requires e.text == op.s.text && e.provisional == op.s.provisional && e.revisedAt == None
    requires e.provider == if op.s.provider == "" then "browser" else op.s.provider
    ensures TellsItsOwn(ops + [op], taken + [|ops|], e)
  {
    hide Tells;
    TellsNew(ops, op, e);
  }

  lemma RevisedTells(ops: seq<Op>, taken: seq<nat>, e: Entry, op: Op)
    requires TellsItsOwn(ops, taken, e) && Revises(op, e.id)
    ensures TellsItsOwn(ops + [op], taken, Revised(e, op.text, op.provider, op.now))
  {
    hide Tells, Revises;
    TellsRevised(ops, taken[e.sequence - 1], e, op);
  }

  lemma AppendTells(roomId: string, log: Log, ops: seq<Op>, op: Op)
    requires AllTell(log.entries, ops, Taken(ops)) && Agrees(log, ops, IdsTaken(ops)) && op.AppendOp?
    ensures AllTell(Apply(log, roomId, op).entries, ops + [op], Taken(ops + [op]))
  {
    ApplyAgrees(roomId, log, ops, IdsTaken(ops), op);
    TakenNext(ops, op);
    TakenAreAppends(ops);
    var taken, entry := Taken(ops), NewEntry(log, roomId, op.speaker, op.s, op.now);
    assert log.nextSequence == |taken| + 1;
    hide Taken, IdsTaken, TakenAt, Agrees, EntryId, FirstHundred, TellsItsOwn, Truncated;
    if Append(log, roomId, op.speaker, op.s, op.now).1.Appended? {
      NewTells(ops, taken, op, entry);
      AllTellOn(log.entries, ops, taken, [|ops|], op);
      assert AllTell(log.entries + [entry], ops + [op], taken + [|ops|]);
    } else {
      AllTellOn(log.entries, ops, taken, [], op);
    }
  }

  lemma RevisionTells(roomId: string, log: Log, ops: seq<Op>, op: Op, accepted: seq<string>)
    requires AllTell(log.entries, ops, Taken(ops)) && Inv(log, roomId, accepted) && op.ReviseOp?
    ensures AllTell(Apply(log, roomId, op).entries, ops + [op], Taken(ops + [op]))
  {
    TakenNext(ops, op);
    var taken := Taken(ops);
    assert taken + [] == taken;
    hide Taken, IdsTaken, Inv, TellsItsOwn;
    var entries, at := Apply(log, roomId, op).entries, IndexOf(log.entries, op.entryId);
    forall i | 0 <= i < |entries| ensures TellsItsOwn(ops + [op], taken, entries[i]) {
      if Revises(op, log.entries[i].id) {
        if at < |log.entries| { IdsDiffer(log, roomId, accepted, i, at); }
        RevisedTells(ops, taken, log.entries[i], op);
      } else {
        TellsOn(ops, taken, [], log.entries[i], op);
      }
    }
  }

  lemma SwitchTells(roomId: string, log: Log, ops: seq<Op>, op: Op)
    requires AllTell(log.entries, ops, Taken(ops)) && (op.StartOp? || op.StopOp?)
    ensures AllTell(Apply(log, roomId, op).entries, ops + [op], Taken(ops + [op]))
  {
    TakenNext(ops, op);
    AllTellOn(log.entries, ops, Taken(ops), [], op);
    hide Taken, AllTell;
  }

  lemma IdsDiffer(log: Log, roomId: string, accepted: seq<string>, i: nat, j: nat)
    requires Inv(log, roomId, accepted) && i < |log.entries| && j < |log.entries| && log.entries[i].id == log.entries[j].id
    ensures i == j
  {
    hide EntryId, DistinctStrings;
    assert Placed(log.entries[i], roomId, log.nextSequence - |log.entries| + i);
    assert Placed(log.entries[j], roomId, log.nextSequence - |log.entries| + j);
    EntryIdIsInjective(roomId, log.entries[i].sequence, log.entries[j].sequence);
  }

  lemma {:induction false} IdsTakenAreAccepted(roomId: string, ops: seq<Op>)
    ensures IdsTaken(ops) == AcceptedIds(EMPTY_LOG, roomId, ops)
  {
    hide TakenAt, FirstHundred, Append, Apply, Agrees, Truncated;
    if ops != [] {
      var before, op := ops[..|ops| - 1], ops[|ops| - 1];
      assert ops == before + [op];
      assert TakenAt(before, IdsTaken(before), op) ==> op.AppendOp? by { OnlyAppendsAreTaken(before, IdsTaken(before), op); }
      IdsTakenAreAccepted(roomId, before);
      AcceptedAppend(EMPTY_LOG, roomId, before, op);
      LogAgrees(roomId, before);
      ApplyAgrees(roomId, Logged(roomId, before), before, IdsTaken(before), op);
      SameCut(op);
    }
  }

  lemma OnlyAppendsAreTaken(ops: seq<Op>, accepted: seq<string>, op: Op)
    ensures TakenAt(ops, accepted, op) ==> op.AppendOp?
  {
  }

  lemma SameCut(op: Op)
    ensures op.AppendOp? ==> FirstHundred(op.s.clientSegmentId) == Truncated(op.s.clientSegmentId)
  {
  }

  lemma {:induction false} AcceptedAppend(log: Log, roomId: string, ops: seq<Op>, op: Op)
    ensures AcceptedIds(log, roomId, ops + [op])
            == AcceptedIds(log, roomId, ops) + Accepts(Run(log, roomId, ops), roomId, op)
    decreases |ops|
  {
    hide Apply, Accepts;
    if ops == [] {
      assert ops + [op] == [op] && [op][1..] == [];
      assert AcceptedIds(Apply(log, roomId, op), roomId, []) == [];
      assert AcceptedIds(log, roomId, [op]) == Accepts(log, roomId, op) + [];
    } else {
      assert (ops + [op])[1..] == ops[1..] + [op];
      AcceptedAppend(Apply(log, roomId, ops[0]), roomId, ops[1..], op);
    }
  }

  lemma {:induction false} EntriesTell(roomId: string, ops: seq<Op>)
    ensures AllTell(Logged(roomId, ops).entries, ops, Taken(ops))
  {
    hide Apply, AllTell, Agrees;
    if ops == [] {
      NothingToTell(roomId);
    } else {
      var before, op := ops[..|ops| - 1], ops[|ops| - 1];
      var log := Logged(roomId, before);
      assert ops == before + [op];
      EntriesTell(roomId, before);
      RunAppend(EMPTY_LOG, roomId, before, op);
      LogAgrees(roomId, before);
      LogInvariant(roomId, before);
      match op
      case AppendOp(_, _, _) => AppendTells(roomId, log, before, op);
      case ReviseOp(_, _, _, _) => RevisionTells(roomId, log, before, op, AcceptedIds(EMPTY_LOG, roomId, before));
      case _ => SwitchTells(roomId, log, before, op);
    }
  }

  lemma NothingToTell(roomId: string)
    ensures AllTell(Logged(roomId, []).entries, [], Taken([]))
  {
  }

  /** After any operations the log holds the last of the segments taken, at most 5000, numbered in the order in which they
      were taken; each entry has its segment's speaker and time, its text, provider and provisional mark as last revised, and
      the room and number for an id. */
  lemma LogTellsHistory(roomId: string, ops: seq<Op>)
    ensures var log, taken := Logged(roomId, ops), Taken(ops);
            && |log.entries| == (if |taken| <= 5000 then |taken| else 5000)
            && forall i :: 0 <= i < |log.entries| ==> EntryTells(roomId, ops, log, i)
  {
    EntriesTell(roomId, ops);
    LogInvariant(roomId, ops);
    IdsTakenAreAccepted(roomId, ops);
    TakenAreAppends(ops);
    var log := Logged(roomId, ops);
    assert Inv(log, roomId, IdsTaken(ops));
    hide AllTell, Run, Taken, IdsTaken, AcceptedIds, EntryTells, DistinctStrings;
    forall i | 0 <= i < |log.entries| ensures EntryTells(roomId, ops, log, i) {
      OneEntryTells(roomId, ops, log, i);
    }
  }

  ghost predicate EntryTells(roomId: string, ops: seq<Op>, log: Log, i: nat)
    requires i < |log.entries|
  {
    var e, k := log.entries[i], |Taken(ops)| - |log.entries| + i;
    && 0 <= k < |Taken(ops)| && Taken(ops)[k] < |ops| && ops[Taken(ops)[k]].AppendOp?
    && e.sequence == k + 1 && e.id == roomId + ":" + Decimal(k + 1)
    && Tells(ops, Taken(ops)[k], e)
  }

  lemma OneEntryTells(roomId: string, ops: seq<Op>, log: Log, i: nat)
    requires AllTell(log.entries, ops, Taken(ops)) && Inv(log, roomId, IdsTaken(ops)) && |Taken(ops)| == |IdsTaken(ops)| && i < |log.entries|
    ensures EntryTells(roomId, ops, log, i)
  {
    hide Tells, Decimal, Taken, IdsTaken;
    assert TellsItsOwn(ops, Taken(ops), log.entries[i]);
    assert Placed(log.entries[i], roomId, log.nextSequence - |log.entries| + i);
  }
}
