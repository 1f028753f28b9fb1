/** The server's transcript of one room: a sequenced, bounded log that ignores retries. */
module TranscriptLog {
  import opened Wrappers

  const MAX_TRANSCRIPT_ENTRIES := 5000
  const MAX_SEGMENT_ID := 100

  datatype Speaker = Speaker(id: string, name: string, avatar: string)

  datatype Entry = Entry(
    id: string, sequence: nat, speaker: Speaker, text: string, ts: int,
    provider: string, provisional: bool, revisedAt: Option<int>)

  /** A transcript segment; `text` is already normalised, and a field that is not a string is empty. */
  datatype Segment = Segment(text: string, clientSegmentId: string, provider: string, provisional: bool)

  /** `seen` lists the segment ids remembered for retries, oldest first. */
  datatype Log = Log(active: bool, nextSequence: nat, entries: seq<Entry>, seen: seq<string>)

  datatype AppendResult = Error(message: string) | Duplicate | Appended(entry: Entry)

  const EMPTY_LOG := Log(false, 1, [], [])

  // ---------- Specification ----------

  function Digit(d: nat): char
    requires d < 10
  {
    '0' + d as char
  }

  function Decimal(n: nat): string {
    if n < 10 then [Digit(n)] else Decimal(n / 10) + [Digit(n % 10)]
  }

  function EntryId(roomId: string, sequence: nat): string { roomId + ":" + Decimal(sequence) }

  function Truncated(id: string): string {
    if |id| <= MAX_SEGMENT_ID then id else id[..MAX_SEGMENT_ID]
  }

  function NewEntry(log: Log, roomId: string, speaker: Speaker, s: Segment, now: int): Entry {
    Entry(EntryId(roomId, log.nextSequence), log.nextSequence, speaker, s.text, now,
          if s.provider == "" then "browser" else s.provider, s.provisional, None)
  }

  function Recorded(log: Log, entry: Entry, segmentId: string): Log {
    var entries, seen := log.entries + [entry], log.seen + [segmentId];
    log.(nextSequence := log.nextSequence + 1,
         entries := if |entries| > MAX_TRANSCRIPT_ENTRIES then entries[1..] else entries,
         seen := if |seen| > 2 * MAX_TRANSCRIPT_ENTRIES then seen[|seen| - MAX_TRANSCRIPT_ENTRIES..] else seen)
  }

  function Append(log: Log, roomId: string, speaker: Speaker, s: Segment, now: int): (Log, AppendResult) {
    var segmentId := Truncated(s.clientSegmentId);
    if !log.active then (log, Error("Transcript is not active"))
    else if s.text == "" || segmentId == "" then (log, Error("Invalid transcript segment"))
    else if segmentId in log.seen then (log, Duplicate)
    else
      var entry := NewEntry(log, roomId, speaker, s, now);
      (Recorded(log, entry, segmentId), Appended(entry))
  }

  function IndexOf(entries: seq<Entry>, id: string): (i: nat)
    ensures i <= |entries|
    ensures i < |entries| ==> entries[i].id == id
    ensures forall j :: 0 <= j < i ==> entries[j].id != id
  {
    if entries == [] || entries[0].id == id then 0 else 1 + IndexOf(entries[1..], id)
  }

  function Revised(e: Entry, text: string, provider: string, now: int): Entry {
    e.(text := text, provider := if provider == "" then e.provider else provider, provisional := false, revisedAt := Some(now))
  }

  function Revise(log: Log, entryId: string, text: string, provider: string, now: int): (Log, Option<Entry>) {
    var i := IndexOf(log.entries, entryId);
    if text == "" || i == |log.entries| then (log, None)
    else
      var revised := Revised(log.entries[i], text, provider, now);
      (log.(entries := log.entries[i := revised]), Some(revised))
  }

  // ---------- The session ----------

  class Session {
    var active: bool
    var nextSequence: nat
    var entries: seq<Entry>
    var seenSegmentIds: seq<string>

    ghost function View(): Log
      reads this
    {
      Log(active, nextSequence, entries, seenSegmentIds)
    }

    constructor ()
      ensures View() == EMPTY_LOG
    {
      active, nextSequence, entries, seenSegmentIds := false, 1, [], [];
    }

    method Start()
      modifies `active
      ensures View() == old(View()).(active := true)
    {
      active := true;
    }

    method Stop()
      modifies `active
      ensures View() == old(View()).(active := false)
    {
      active := false;
    }

    method AppendSegment(roomId: string, speaker: Speaker, s: Segment, now: int) returns (result: AppendResult)
      modifies this
      ensures (View(), result) == Append(old(View()), roomId, speaker, s, now)
    {
      if !active { return Error("Transcript is not active"); }
      var segmentId := if |s.clientSegmentId| > MAX_SEGMENT_ID then s.clientSegmentId[..MAX_SEGMENT_ID] else s.clientSegmentId;
      if s.text == "" || segmentId == "" { return Error("Invalid transcript segment"); }
      if segmentId in seenSegmentIds { return Duplicate; }
      var entry := Entry(roomId + ":" + Decimal(nextSequence), nextSequence, speaker, s.text, now,
                         if s.provider != "" then s.provider else "browser", s.provisional, None);
      nextSequence := nextSequence + 1;
      entries := entries + [entry];
      seenSegmentIds := seenSegmentIds + [segmentId];
      if |entries| > MAX_TRANSCRIPT_ENTRIES {
        entries := entries[1..];
      }
      if |seenSegmentIds| > MAX_TRANSCRIPT_ENTRIES * 2 {
        seenSegmentIds := seenSegmentIds[|seenSegmentIds| - MAX_TRANSCRIPT_ENTRIES..];
      }
      result := Appended(entry);
    }

    method ReviseSegment(entryId: string, text: string, provider: string, now: int) returns (revised: Option<Entry>)
      modifies `entries
      ensures (View(), revised) == Revise(old(View()), entryId, text, provider, now)
    {
      var index := FindIndex(entryId);
      if text == "" || index == |entries| { return None; }
      var entry := entries[index];
      entry := entry.(text := text, provider := if provider != "" then provider else entry.provider,
                      provisional := false, revisedAt := Some(now));
      entries := entries[index := entry];
      revised := Some(entry);
    }

    method FindIndex(entryId: string) returns (index: nat)
      ensures index == IndexOf(entries, entryId)
    {
      index := 0;
      while index < |entries| && entries[index].id != entryId
        invariant index <= |entries|
        invariant forall j :: 0 <= j < index ==> entries[j].id != entryId
      {
        index := index + 1;
      }
    }
  }

  // ---------- Entry ids ----------

  lemma {:induction false} DecimalIsInjective(m: nat, n: nat)
    requires Decimal(m) == Decimal(n)
    ensures m == n
  {
    if m < 10 {
      DecimalLength(n);
      assert Decimal(m)[0] == Digit(m);
    } else {
      DecimalLength(m);
      DecimalLength(n);
      assert n >= 10;
      var x, y := Decimal(m), Decimal(n);
      assert x[..|x| - 1] == Decimal(m / 10) && y[..|y| - 1] == Decimal(n / 10);
      DecimalIsInjective(m / 10, n / 10);
      assert x[|x| - 1] == Digit(m % 10) && y[|y| - 1] == Digit(n % 10);
    }
  }

  lemma DecimalLength(n: nat)
    ensures |Decimal(n)| >= 1 && (|Decimal(n)| == 1 <==> n < 10)
  {
    if n >= 10 { DecimalLength(n / 10); }
  }

  /** Within a room an entry id stands for one sequence number. */
  lemma EntryIdIsInjective(roomId: string, m: nat, n: nat)
    requires EntryId(roomId, m) == EntryId(roomId, n)
    ensures m == n
  {
    var p := roomId + ":";
    assert Decimal(m) == EntryId(roomId, m)[|p|..] && Decimal(n) == EntryId(roomId, n)[|p|..];
    DecimalIsInjective(m, n);
  }

  // ---------- The invariant ----------

  /** `accepted` are the segment ids of every accepted segment, in order. */
  ghost predicate Inv(log: Log, roomId: string, accepted: seq<string>) {
    && log.nextSequence == |accepted| + 1
    && |log.entries| == (if |accepted| <= MAX_TRANSCRIPT_ENTRIES then |accepted| else MAX_TRANSCRIPT_ENTRIES)
    && (forall i :: 0 <= i < |log.entries| ==> Placed(log.entries[i], roomId, log.nextSequence - |log.entries| + i))
    && |log.entries| <= |log.seen| <= 2 * MAX_TRANSCRIPT_ENTRIES && |log.seen| <= |accepted|
    && log.seen == accepted[|accepted| - |log.seen|..]
    && DistinctStrings(log.seen)
  }

  predicate Placed(e: Entry, roomId: string, sequence: int) {
    e.sequence == sequence && e.id == EntryId(roomId, e.sequence)
  }

  predicate DistinctStrings(s: seq<string>) {
    forall i, j :: 0 <= i < j < |s| ==> s[i] != s[j]
  }

  lemma RecordKeepsInv(log: Log, roomId: string, accepted: seq<string>, entry: Entry, segmentId: string)
    requires Inv(log, roomId, accepted) && segmentId !in log.seen && Placed(entry, roomId, log.nextSequence)
    ensures Inv(Recorded(log, entry, segmentId), roomId, accepted + [segmentId])
  {
    hide Placed;
    var log' := Recorded(log, entry, segmentId);
    var accepted' := accepted + [segmentId];
    assert (log.seen + [segmentId]) == accepted'[|accepted'| - (|log.seen| + 1)..];
    assert log'.seen == accepted'[|accepted'| - |log'.seen|..];
  }

  datatype Op =
    | AppendOp(speaker: Speaker, s: Segment, now: int)
    | ReviseOp(entryId: string, text: string, provider: string, now: int)
    | StartOp
    | StopOp

  function Apply(log: Log, roomId: string, op: Op): Log {
    match op
    case AppendOp(speaker, s, now) => Append(log, roomId, speaker, s, now).0
    case ReviseOp(entryId, text, provider, now) => Revise(log, entryId, text, provider, now).0
    case StartOp => log.(active := true)
    case StopOp => log.(active := false)
  }

  /** The segment id an operation adds to the accepted ones, if it does. */
  function Accepts(log: Log, roomId: string, op: Op): seq<string> {
    if op.AppendOp? && Append(log, roomId, op.speaker, op.s, op.now).1.Appended? then [Truncated(op.s.clientSegmentId)] else []
  }

  function Run(log: Log, roomId: string, ops: seq<Op>): Log
    decreases |ops|
  {
    if ops == [] then log else Run(Apply(log, roomId, ops[0]), roomId, ops[1..])
  }

  function AcceptedIds(log: Log, roomId: string, ops: seq<Op>): seq<string>
    decreases |ops|
  {
    if ops == [] then []
    else Accepts(log, roomId, ops[0]) + AcceptedIds(Apply(log, roomId, ops[0]), roomId, ops[1..])
  }

  lemma ApplyKeepsInv(log: Log, roomId: string, accepted: seq<string>, op: Op)
    requires Inv(log, roomId, accepted)
    ensures Inv(Apply(log, roomId, op), roomId, accepted + Accepts(log, roomId, op))
  {
    assert accepted + [] == accepted;
    if op.AppendOp? {
      hide Inv;
      var segmentId := Truncated(op.s.clientSegmentId);
      if Accepts(log, roomId, op) != [] {
        RecordKeepsInv(log, roomId, accepted, NewEntry(log, roomId, op.speaker, op.s, op.now), segmentId);
      }
    } else {
      hide EntryId;
    }
  }

  lemma {:induction false} RunKeepsInv(log: Log, roomId: string, accepted: seq<string>, ops: seq<Op>)
    requires Inv(log, roomId, accepted)
    ensures Inv(Run(log, roomId, ops), roomId, accepted + AcceptedIds(log, roomId, ops))
    decreases |ops|
  {
    hide Inv;
    hide Apply;
    hide Accepts;
    if ops == [] {
      assert accepted + [] == accepted;
    } else {
      var now := Accepts(log, roomId, ops[0]);
      var log' := Apply(log, roomId, ops[0]);
      ApplyKeepsInv(log, roomId, accepted, ops[0]);
      RunKeepsInv(log', roomId, accepted + now, ops[1..]);
      assert accepted + now + AcceptedIds(log', roomId, ops[1..]) == accepted + (now + AcceptedIds(log', roomId, ops[1..]));
    }
  }

  /** After any operations: consecutive numbers up to the newest, at most 5000 entries, and a remembered id for each. */
  lemma LogInvariant(roomId: string, ops: seq<Op>)
    ensures var log := Run(EMPTY_LOG, roomId, ops);
            var accepted := AcceptedIds(EMPTY_LOG, roomId, ops);
            Inv(log, roomId, accepted)
  {
    RunKeepsInv(EMPTY_LOG, roomId, [], ops);
    assert [] + AcceptedIds(EMPTY_LOG, roomId, ops) == AcceptedIds(EMPTY_LOG, roomId, ops);
  }

  /** The segment an entry came from. */
  function SegmentOf(e: Entry, accepted: seq<string>): string
    requires 1 <= e.sequence <= |accepted|
  {
    accepted[e.sequence - 1]
  }

  /** Retained entries come from distinct segments, and resending any of them changes nothing. */
  lemma RetriesAreIgnored(log: Log, roomId: string, accepted: seq<string>, i: nat, speaker: Speaker, s: Segment, now: int)
    requires Inv(log, roomId, accepted) && i < |log.entries|
    ensures 1 <= log.entries[i].sequence <= |accepted|
    ensures Truncated(s.clientSegmentId) == SegmentOf(log.entries[i], accepted) ==>
              Append(log, roomId, speaker, s, now).0 == log
    ensures forall j :: i < j < |log.entries| ==>
              log.entries[i].sequence < log.entries[j].sequence <= |accepted|
              && SegmentOf(log.entries[i], accepted) != SegmentOf(log.entries[j], accepted)
  {
    hide EntryId;
    var from := |accepted| - |log.seen|;
    forall j | 0 <= j < |log.entries|
      ensures log.entries[j].sequence - 1 >= from
              && log.seen[log.entries[j].sequence - 1 - from] == accepted[log.entries[j].sequence - 1]
    {
      assert Placed(log.entries[j], roomId, log.nextSequence - |log.entries| + j);
    }
  }

  /** An entry that is still retained can be revised by its id, and keeps its place, number and speaker. */
  lemma RevisionReplacesInPlace(log: Log, roomId: string, accepted: seq<string>, i: nat, text: string, provider: string, now: int)
    requires Inv(log, roomId, accepted) && i < |log.entries| && text != ""
    ensures var (log', revised) := Revise(log, log.entries[i].id, text, provider, now);
            revised.Some? && revised.value.sequence == log.entries[i].sequence && revised.value.id == log.entries[i].id
            && revised.value.speaker == log.entries[i].speaker && revised.value.text == text && !revised.value.provisional
            && log'.entries == log.entries[..i] + [revised.value] + log.entries[i + 1..]
  {
    var at := IndexOf(log.entries, log.entries[i].id);
    assert Placed(log.entries[i], roomId, log.nextSequence - |log.entries| + i);
    assert at < |log.entries|;
    assert Placed(log.entries[at], roomId, log.nextSequence - |log.entries| + at);
    EntryIdIsInjective(roomId, log.entries[i].sequence, log.entries[at].sequence);
  }
}
