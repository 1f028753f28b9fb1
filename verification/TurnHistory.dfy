/** A contributor's turns told by the events alone: where each ends, what it says and which audio it carries. */
module TurnHistory {
  import opened TurnAssembly
  import opened TurnTheorems
  import opened ProviderTheorems

  // ---------- The words of a turn ----------

  predicate FinalText(e: Event) { e.Results? && e.isFinal && e.text != "" }

  /** Speech is noticed by the provider's mark or by the first text. */
  predicate Begins(e: Event) { e.SpeechStarted? || (e.Results? && e.text != "") }

  function Last(points: seq<nat>): nat { if points == [] then 0 else points[|points| - 1] }

  /** The last of these events ends a turn, the one before having ended with the first `from` of them: it is a result that
      ends speech, and some final text was heard. */
  ghost predicate EndsTurn(events: seq<Event>, from: nat) {
    && events != [] && events[|events| - 1].Results? && events[|events| - 1].speechFinal
    && exists k :: from <= k < |events| && FinalText(events[k])
  }

  /** After how many events each turn ends. */
  ghost function EndPoints(events: seq<Event>): seq<nat> {
    if events == [] then []
    else
      var before := EndPoints(events[..|events| - 1]);
      before + if EndsTurn(events, Last(before)) then [|events|] else []
  }

  function Finals(events: seq<Event>): seq<string> {
    if events == [] then []
    else
      var e := events[|events| - 1];
      Finals(events[..|events| - 1]) + if FinalText(e) then [e.text] else []
  }

  /** Immediate repeats dropped. */
  function NoRepeats(texts: seq<string>): seq<string> {
    if |texts| <= 1 then texts
    else
      var n := |texts| - 1;
      NoRepeats(texts[..n]) + if texts[n] == texts[n - 1] then [] else [texts[n]]
  }

  predicate StandsAt<T(==)>(whole: seq<T>, offset: nat, part: seq<T>) {
    offset + |part| <= |whole| && whole[offset..offset + |part|] == part
  }

  lemma StandsInFront<T>(whole: seq<T>, more: seq<T>, offset: nat, part: seq<T>)
    requires StandsAt(whole, offset, part)
    ensures StandsAt(whole + more, offset, part)
  {
    assert (whole + more)[offset..offset + |part|] == whole[offset..offset + |part|];
  }

  lemma StandsAtEnd<T>(whole: seq<T>, part: seq<T>)
    ensures StandsAt(whole + part, |whole|, part)
  {
  }

  /** The parts stand in the text at these offsets, one space between neighbours and nothing else. */
  ghost predicate Spelled(text: string, parts: seq<string>, offsets: seq<nat>) {
    && |offsets| == |parts|
    && (if parts == [] then text == "" else offsets[0] == 0)
    && (forall k :: 0 <= k < |parts| ==> StandsAt(text, offsets[k], parts[k]))
    && (forall k :: 0 <= k < |parts| - 1 ==>
          StandsAt(text, offsets[k] + |parts[k]|, " ") && offsets[k + 1] == offsets[k] + |parts[k]| + 1)
    && (parts != [] ==> offsets[|parts| - 1] + |parts[|parts| - 1]| == |text|)
  }

  lemma SpelledNext(text: string, parts: seq<string>, offsets: seq<nat>, part: string)
    requires parts != [] && Spelled(text, parts, offsets)
    ensures Spelled((text + " ") + part, parts + [part], offsets + [|text| + 1])
  {
    var whole, all, starts := (text + " ") + part, parts + [part], offsets + [|text| + 1];
    hide StandsAt;
    forall k | 0 <= k < |parts| ensures StandsAt(whole, starts[k], all[k]) {
      StandsInFront(text, " ", offsets[k], parts[k]);
      StandsInFront(text + " ", part, offsets[k], parts[k]);
    }
    forall k | 0 <= k < |parts| ensures StandsAt(whole, starts[k] + |all[k]|, " ") {
      if k < |parts| - 1 { StandsInFront(text, " ", offsets[k] + |parts[k]|, " "); } else { StandsAtEnd(text, " "); }
      StandsInFront(text + " ", part, offsets[k] + |parts[k]|, " ");
    }
    StandsAtEnd(text + " ", part);
  }

  lemma {:induction false} JoinSpells(parts: seq<string>) returns (offsets: seq<nat>)
    ensures Spelled(Join(parts), parts, offsets)
  {
    if parts == [] {
      offsets := [];
    } else if |parts| == 1 {
      offsets := [0];
    } else {
      var n := |parts| - 1;
      var front := parts[..n];
      var before := JoinSpells(front);
      assert Join(parts) == (Join(front) + " ") + parts[n] && parts == front + [parts[n]];
      hide Join;
      offsets := before + [|Join(front)| + 1];
      SpelledNext(Join(front), front, before, parts[n]);
    }
  }

  // ---------- The bytes of a turn ----------

  /** How many bytes lie before the `k`-th chunk. */
  function OffsetOf(chunks: seq<Chunk>, k: nat): nat
    requires k <= |chunks|
  {
    if k == 0 then 0 else OffsetOf(chunks, k - 1) + |chunks[k - 1]|
  }

  /** The chunks stand in the audio one behind the other. */
  ghost predicate LaidOut(audio: Chunk, chunks: seq<Chunk>) {
    && |audio| == OffsetOf(chunks, |chunks|)
    && forall k :: 0 <= k < |chunks| ==> StandsAt(audio, OffsetOf(chunks, k), chunks[k])
  }

  lemma {:induction false} OffsetInFront(chunks: seq<Chunk>, chunk: Chunk, k: nat)
    requires k <= |chunks|
    ensures OffsetOf(chunks + [chunk], k) == OffsetOf(chunks, k)
  {
    if k > 0 { OffsetInFront(chunks, chunk, k - 1); }
  }

  lemma LaidOutNext(audio: Chunk, chunks: seq<Chunk>, chunk: Chunk)
    requires LaidOut(audio, chunks)
    ensures LaidOut(audio + chunk, chunks + [chunk])
  {
    var all := chunks + [chunk];
    OffsetInFront(chunks, chunk, |chunks|);
    assert OffsetOf(all, |all|) == OffsetOf(all, |chunks|) + |chunk|;
    hide StandsAt;
    forall k | 0 <= k < |all| ensures StandsAt(audio + chunk, OffsetOf(all, k), all[k]) {
      OffsetInFront(chunks, chunk, if k < |chunks| then k else |chunks|);
      if k < |chunks| { StandsInFront(audio, chunk, OffsetOf(chunks, k), chunks[k]); } else { StandsAtEnd(audio, chunk); }
    }
  }

  lemma {:induction false} ConcatLaysOut(chunks: seq<Chunk>)
    ensures LaidOut(Concat(chunks), chunks)
  {
    if chunks != [] {
      var n := |chunks| - 1;
      assert chunks == chunks[..n] + [chunks[n]] && Concat(chunks) == Concat(chunks[..n]) + chunks[n];
      ConcatLaysOut(chunks[..n]);
      hide Concat, LaidOut;
      LaidOutNext(Concat(chunks[..n]), chunks[..n], chunks[n]);
    }
  }

  // ---------- The chunks taken ----------

  ghost predicate Stopped(events: seq<Event>) {
    exists k :: 0 <= k < |events| && events[k].StopRequested?
  }

  /** Every non-empty chunk sent before the session was asked to stop. */
  ghost function ChunksTaken(events: seq<Event>): seq<Chunk> {
    if events == [] then []
    else
      var e := events[|events| - 1];
      ChunksTaken(events[..|events| - 1])
      + if e.Send? && e.chunk != [] && !Stopped(events[..|events| - 1]) then [e.chunk] else []
  }

  lemma StoppedNext(events: seq<Event>, e: Event)
    ensures Stopped(events + [e]) <==> Stopped(events) || e.StopRequested?
  {
    var all := events + [e];
    assert all[|events|] == e;
    if Stopped(events) {
      var k :| 0 <= k < |events| && events[k].StopRequested?;
      assert all[k].StopRequested?;
    }
  }

  lemma StepKeepsStopping(h: History, e: Event)
    ensures Extend(h, e).state.stopping <==> h.state.stopping || e.StopRequested?
    ensures Extend(h, e).accepted == h.accepted + if e.Send? && e.chunk != [] && !h.state.stopping then [e.chunk] else []
  {
    ExtendIsStep(h, e);
    assert h.accepted + [] == h.accepted;
    hide Excess, Shifted, Forward, Announced, Join, Concat, Bytes;
  }

  lemma {:induction false} PlayTakes(events: seq<Event>)
    ensures Play(events).accepted == ChunksTaken(events)
    ensures Play(events).state.stopping <==> Stopped(events)
  {
    hide Extend, Stopped;
    if events != [] {
      var before, e := events[..|events| - 1], events[|events| - 1];
      assert events == before + [e];
      PlayTakes(before);
      StoppedNext(before, e);
      StepKeepsStopping(Play(before), e);
    } else {
      NotStoppedYet();
    }
  }

  lemma NotStoppedYet()
    ensures !Stopped([])
  {
  }

  /** A chunk is kept for the provider exactly if it is not empty, comes before the session is asked to stop, and finds the
      connection open or fewer than a hundred chunks waiting for it. */
  lemma KeptUnlessAHundredWait(events: seq<Event>, chunk: Chunk)
    ensures var before, after := Play(events), Play(events + [Send(chunk)]);
            var waiting := |before.kept| - |SentOf(Run(events).1)|;
            after.kept == before.kept
                          + if chunk != [] && !Stopped(events) && (before.state.connected || waiting < 100) then [chunk] else []
  {
    PlayTakes(events);
    ProviderInvAlways(events);
    PlayIsRun(events);
    hide Stopped, DoSend, SentOf, Run;
    assert (events + [Send(chunk)])[..|events|] == events;
    assert Play(events + [Send(chunk)]) == ExtendSend(Play(events), chunk);
    hide Play;
    assert Play(events).kept + [] == Play(events).kept;
  }

  // ---------- What the session has heard ----------

  lemma {:induction false} PointsAreInside(events: seq<Event>)
    ensures Last(EndPoints(events)) <= |events|
    ensures forall i :: 0 <= i < |EndPoints(events)| ==> 0 < EndPoints(events)[i] <= |events|
  {
    hide EndsTurn;
    if events != [] { PointsAreInside(events[..|events| - 1]); }
  }

  lemma PointsNext(events: seq<Event>, e: Event)
    ensures EndPoints(events + [e])
            == EndPoints(events) + if EndsTurn(events + [e], Last(EndPoints(events))) then [|events| + 1] else []
  {
    hide EndsTurn;
    assert (events + [e])[..|events|] == events;
  }

  lemma {:induction false} NoRepeatsKeepsLast(texts: seq<string>)
    ensures texts == [] <==> NoRepeats(texts) == []
    ensures texts != [] ==> NoRepeats(texts)[|NoRepeats(texts)| - 1] == texts[|texts| - 1]
  {
    if |texts| > 1 { NoRepeatsKeepsLast(texts[..|texts| - 1]); }
  }

  /** One more final text, unless it repeats the last one. */
  lemma NoRepeatsNext(texts: seq<string>, text: string)
    ensures NoRepeats(texts + [text])
            == NoRepeats(texts)
               + if NoRepeats(texts) != [] && NoRepeats(texts)[|NoRepeats(texts)| - 1] == text then [] else [text]
  {
    NoRepeatsKeepsLast(texts);
    var all := texts + [text];
    assert all[..|texts|] == texts;
    if texts == [] { assert all == [text]; }
  }

  lemma FinalsNext(events: seq<Event>, e: Event)
    ensures Finals(events + [e]) == Finals(events) + if FinalText(e) then [e.text] else []
  {
    assert (events + [e])[..|events|] == events;
  }

  lemma {:induction false} FinalsExist(events: seq<Event>)
    ensures Finals(events) != [] <==> exists k :: 0 <= k < |events| && FinalText(events[k])
  {
    hide FinalText;
    if events != [] {
      var before, e := events[..|events| - 1], events[|events| - 1];
      FinalsExist(before);
      if FinalText(e) { assert FinalText(events[|events| - 1]); }
      if k :| 0 <= k < |before| && FinalText(before[k]) { assert FinalText(events[k]); }
      if k :| 0 <= k < |events| && FinalText(events[k]) {
        if k < |before| { assert FinalText(before[k]); }
      }
    }
  }

  // ---------- One event ----------

  function WithText(parts: seq<string>, e: Event): seq<string> {
    if FinalText(e) && (parts == [] || parts[|parts| - 1] != e.text) then parts + [e.text] else parts
  }

  predicate Ends(parts: seq<string>, e: Event) { e.Results? && e.speechFinal && WithText(parts, e) != [] }

  /** How many chunks had been taken when the running speech was noticed, this event included. */
  function Noticed(h: History, e: Event): nat {
    if !h.state.speechActive && Begins(e) then |h.accepted| else h.detected
  }

  function TurnCut(h: History, e: Event, lo: int): Cut { Cut(Noticed(h, e), lo, |h.accepted|, h.tornDown) }

  /** What one event does to the words, the speech and the turns of a session; `lo` and `turn` belong to a turn it ends. */
  ghost predicate Moves(h: History, t: History, e: Event, lo: int, turn: Output) {
    var parts, ends := WithText(h.state.finalParts, e), Ends(h.state.finalParts, e);
    && t.state.finalParts == (if ends then [] else parts)
    && (t.state.speechActive <==> !ends && (h.state.speechActive || Begins(e)))
    && t.detected == Noticed(h, e)
    && t.cuts == h.cuts + (if ends then [TurnCut(h, e, lo)] else [])
    && TurnsOf(t.out) == TurnsOf(h.out) + (if ends then [turn] else [])
    && (ends ==> turn.Turn? && turn.text == Join(parts))
    && (t.tornDown ==> h.tornDown || e.StopCompleted?)
  }

  lemma HeardWords(s: State, e: Event)
    requires e.Results? && (s.finalParts != [] ==> s.speechActive)
    ensures var heard := Heard(s, e.text, e.isFinal);
            heard.finalParts == WithText(s.finalParts, e) && (heard.speechActive <==> s.speechActive || Begins(e))
  {
    hide Bytes;
  }

  lemma ResultsExtend(h: History, e: Event)
    requires e.Results?
    ensures var t, heard := Extend(h, e), Heard(h.state, e.text, e.isFinal);
            var begun := if !h.state.speechActive && Begins(e) then |h.accepted| else h.detected;
            var cut := Cut(begun, |h.accepted| - |heard.utteranceChunks|, |h.accepted|, h.tornDown);
            && t.state == DoResults(h.state, e.text, e.isFinal, e.speechFinal).0
            && t.out == h.out + DoResults(h.state, e.text, e.isFinal, e.speechFinal).1
            && t.detected == begun && t.tornDown == h.tornDown
            && t.cuts == h.cuts + if e.speechFinal && heard.finalParts != [] then [cut] else []
  {
    hide DoResults, Heard, BeginSpeech;
  }

  lemma ResultsMove(h: History, e: Event) returns (lo: int, turn: Output)
    requires e.Results? && (h.state.finalParts != [] ==> h.state.speechActive)
    ensures Moves(h, Extend(h, e), e, lo, turn)
  {
    hide Extend, TurnsOf, DoResults, Heard, Join, Concat, WithText, Begins;
    var heard, r := Heard(h.state, e.text, e.isFinal), DoResults(h.state, e.text, e.isFinal, e.speechFinal);
    lo := |h.accepted| - |heard.utteranceChunks|;
    turn := Turn(heard.utteranceNumber, Join(heard.finalParts), Concat(heard.utteranceChunks));
    ResultsExtend(h, e);
    HeardWords(h.state, e);
    OutputOfResults(h.state, e.text, e.isFinal, e.speechFinal);
    TurnsOfConcat(h.out, r.1);
  }

  lemma SendMoves(h: History, e: Event)
    requires e.Send?
    ensures Moves(h, Extend(h, e), e, 0, Interim(0, ""))
  {
    if Takes(h.state, e.chunk) {
      SendOutcome(h.state, e.chunk);
      QuietOutput(h, DoSend(h.state, e.chunk).1);
      BufferedKeepsWords(h.state, e.chunk);
    }
    hide DoSend, Buffered, TurnsOf, Join;
    assert h.cuts + [] == h.cuts && TurnsOf(h.out) + [] == TurnsOf(h.out);
  }

  lemma OthersMove(h: History, e: Event)
    requires !e.Results? && !e.Send? && (h.state.finalParts != [] ==> h.state.speechActive)
    ensures Moves(h, Extend(h, e), e, 0, Interim(0, ""))
  {
    if !e.SpeechStarted? && !e.StopCompleted? { QuietOutput(h, Step(h.state, e).1); }
    hide TurnsOf, Join, Bytes, Forward;
    assert h.cuts + [] == h.cuts && TurnsOf(h.out) + [] == TurnsOf(h.out);
  }

  lemma BufferedKeepsWords(s: State, chunk: Chunk)
    ensures Buffered(s, chunk).finalParts == s.finalParts && Buffered(s, chunk).speechActive == s.speechActive
  {
  }

  lemma EventMoves(h: History, e: Event) returns (lo: int, turn: Output)
    requires Inv(h)
    ensures Moves(h, Extend(h, e), e, lo, turn)
  {
    hide Moves, Extend;
    lo, turn := 0, Interim(0, "");
    if e.Results? { lo, turn := ResultsMove(h, e); } else if e.Send? { SendMoves(h, e); } else { OthersMove(h, e); }
  }

  // ---------- Whole runs ----------

  /** The first event from `from` on by which speech is noticed, or none. */
  function FirstBegin(events: seq<Event>, from: nat): (b: nat)
    requires from <= |events|
    ensures from <= b <= |events| && (b < |events| ==> Begins(events[b]))
    ensures forall k :: from <= k < b ==> !Begins(events[k])
    decreases |events| - from
  {
    if from == |events| || Begins(events[from]) then from else FirstBegin(events, from + 1)
  }

  lemma {:induction false} FirstBeginNext(events: seq<Event>, from: nat, e: Event)
    requires from <= |events|
    ensures FirstBegin(events + [e], from)
            == if FirstBegin(events, from) < |events| || Begins(e) then FirstBegin(events, from) else |events| + 1
    decreases |events| - from
  {
    hide Begins;
    if from < |events| {
      assert (events + [e])[from] == events[from];
      if !Begins(events[from]) { FirstBeginNext(events, from + 1, e); }
    } else {
      assert (events + [e])[from] == e;
    }
  }

  ghost predicate TornDown(events: seq<Event>) {
    exists k :: 0 <= k < |events| && events[k].StopCompleted?
  }

  lemma TornDownNext(events: seq<Event>, e: Event)
    ensures TornDown(events) || e.StopCompleted? ==> TornDown(events + [e])
  {
    var all := events + [e];
    assert all[|events|] == e;
    if TornDown(events) {
      var k :| 0 <= k < |events| && events[k].StopCompleted?;
      assert all[k].StopCompleted?;
    }
  }

  /** The running turn, which began with the event after the first `p`. */
  ghost predicate Current(h: History, events: seq<Event>, p: nat)
    requires p <= |events|
  {
    && h.state.finalParts == NoRepeats(Finals(events[p..]))
    && (h.state.speechActive <==> FirstBegin(events, p) < |events|)
    && (h.state.speechActive ==> h.detected == |ChunksTaken(events[..FirstBegin(events, p)])|)
    && (h.tornDown ==> TornDown(events))
  }

  /** A turn made of the events from `p` up to the `n`-th, which ended it: what it says, and when its audio was cut. */
  ghost predicate TurnRead(events: seq<Event>, p: nat, n: nat, turn: Output, cut: Cut) {
    && p < n <= |events| && FirstBegin(events[..n], p) < n
    && turn.Turn? && turn.text == Join(NoRepeats(Finals(events[p..n])))
    && cut.hi == |ChunksTaken(events[..n])|
    && cut.detected == |ChunksTaken(events[..FirstBegin(events[..n], p)])|
    && (cut.tornDown ==> TornDown(events[..n]))
  }

  function Prior(points: seq<nat>, i: nat): nat
    requires i <= |points|
  {
    if i == 0 then 0 else points[i - 1]
  }

  ghost predicate AllRead(events: seq<Event>, points: seq<nat>, turns: seq<Output>, cuts: seq<Cut>) {
    && |points| == |turns| == |cuts|
    && forall i :: 0 <= i < |points| ==> TurnRead(events, Prior(points, i), points[i], turns[i], cuts[i])
  }

  lemma ReadStays(events: seq<Event>, e: Event, p: nat, n: nat, turn: Output, cut: Cut)
    requires TurnRead(events, p, n, turn, cut)
    ensures TurnRead(events + [e], p, n, turn, cut)
  {
    var all := events + [e];
    assert all[..n] == events[..n] && all[p..n] == events[p..n];
    assert all[..FirstBegin(events[..n], p)] == events[..FirstBegin(events[..n], p)];
  }

  lemma WordNext(texts: seq<string>, e: Event)
    ensures WithText(NoRepeats(texts), e) == NoRepeats(texts + if FinalText(e) then [e.text] else [])
  {
    assert texts + [] == texts;
    if FinalText(e) { NoRepeatsNext(texts, e.text); }
    NoRepeatsKeepsLast(texts);
    hide NoRepeats;
  }

  lemma HeardInSpan(events: seq<Event>, p: nat)
    requires p <= |events|
    ensures NoRepeats(Finals(events[p..])) != [] <==> exists k :: p <= k < |events| && FinalText(events[k])
  {
    var span := events[p..];
    FinalsExist(span);
    NoRepeatsKeepsLast(Finals(span));
    hide Finals, NoRepeats, FinalText;
    if k :| p <= k < |events| && FinalText(events[k]) { assert FinalText(span[k - p]); }
    if k :| 0 <= k < |span| && FinalText(span[k]) { assert FinalText(events[p + k]); }
  }

  /** The words so far with one more event, and whether it ends the turn. */
  lemma WordsNext(events: seq<Event>, p: nat, e: Event)
    requires p <= |events|
    ensures WithText(NoRepeats(Finals(events[p..])), e) == NoRepeats(Finals((events + [e])[p..]))
    ensures Ends(NoRepeats(Finals(events[p..])), e) <==> EndsTurn(events + [e], p)
  {
    var span, all := events[p..], events + [e];
    assert all[p..] == span + [e];
    FinalsNext(span, e);
    WordNext(Finals(span), e);
    HeardInSpan(all, p);
    hide Finals, NoRepeats, FinalText, WithText;
    assert all[|all| - 1] == e;
  }

  lemma CurrentAfterTurn(h: History, events: seq<Event>, p: nat, e: Event, lo: int, turn: Output)
    requires p <= |events| && Current(h, events, p)
    requires Moves(h, Extend(h, e), e, lo, turn) && EndsTurn(events + [e], p)
    ensures Current(Extend(h, e), events + [e], |events| + 1)
  {
    WordsNext(events, p, e);
    TornDownNext(events, e);
    hide Extend, Ends, EndsTurn, TornDown, NoRepeats, WithText, Begins, Finals, TurnCut, TurnsOf, ChunksTaken;
    assert (events + [e])[|events| + 1..] == [];
    NothingSaid();
  }

  /** One event more: when the running speech was noticed, if it was. */
  lemma NoticedNext(h: History, events: seq<Event>, p: nat, e: Event)
    requires p <= |events| && Current(h, events, p) && h.accepted == ChunksTaken(events)
    ensures h.state.speechActive || Begins(e) <==> FirstBegin(events + [e], p) <= |events|
    ensures var b := FirstBegin(events + [e], p); b <= |events| ==> Noticed(h, e) == |ChunksTaken((events + [e])[..b])|
  {
    FirstBeginNext(events, p, e);
    hide TornDown, NoRepeats, Begins, Finals, ChunksTaken;
    var b := FirstBegin(events, p);
    assert (events + [e])[..b] == events[..b] && (b == |events| ==> events[..b] == events);
  }

  lemma CurrentInTurn(h: History, events: seq<Event>, p: nat, e: Event, lo: int, turn: Output)
    requires p <= |events| && Current(h, events, p) && h.accepted == ChunksTaken(events)
    requires Moves(h, Extend(h, e), e, lo, turn) && !EndsTurn(events + [e], p)
    ensures Current(Extend(h, e), events + [e], p)
  {
    WordsNext(events, p, e);
    NoticedNext(h, events, p, e);
    TornDownNext(events, e);
    hide Extend, Ends, EndsTurn, TornDown, NoRepeats, WithText, Begins, Finals, TurnCut, TurnsOf, ChunksTaken, FirstBegin, Noticed;
  }

  lemma NothingSaid()
    ensures NoRepeats(Finals([])) == []
  {
  }

  lemma TurnSays(h: History, events: seq<Event>, p: nat, e: Event, lo: int, turn: Output)
    requires p <= |events| && Current(h, events, p)
    requires Moves(h, Extend(h, e), e, lo, turn) && EndsTurn(events + [e], p)
    ensures turn.Turn? && turn.text == Join(NoRepeats(Finals((events + [e])[p..])))
    ensures Extend(h, e).cuts == h.cuts + [TurnCut(h, e, lo)] && TurnsOf(Extend(h, e).out) == TurnsOf(h.out) + [turn]
  {
    WordsNext(events, p, e);
    hide Extend, Ends, EndsTurn, TornDown, NoRepeats, WithText, Finals, Join, ChunksTaken, FirstBegin, TurnCut, Noticed, TurnsOf;
  }

  lemma TurnNoticed(h: History, events: seq<Event>, p: nat, e: Event)
    requires p <= |events| && Current(h, events, p) && h.accepted == ChunksTaken(events) && EndsTurn(events + [e], p)
    ensures var b := FirstBegin(events + [e], p);
            b <= |events| && Noticed(h, e) == |ChunksTaken((events + [e])[..b])|
  {
    hide Current, EndsTurn, ChunksTaken, FirstBegin, Noticed;
    NoticedNext(h, events, p, e);
    EndingBegins(events, p, e);
  }

  lemma TurnIsRead(h: History, events: seq<Event>, p: nat, e: Event, lo: int, turn: Output)
    requires p <= |events| && Current(h, events, p) && h.accepted == ChunksTaken(events)
    requires Moves(h, Extend(h, e), e, lo, turn) && EndsTurn(events + [e], p)
    ensures TurnRead(events + [e], p, |events| + 1, turn, TurnCut(h, e, lo))
    ensures Extend(h, e).cuts == h.cuts + [TurnCut(h, e, lo)] && TurnsOf(Extend(h, e).out) == TurnsOf(h.out) + [turn]
  {
    hide Extend, Moves, Current, EndsTurn, TornDown, NoRepeats, Finals, Join, ChunksTaken, FirstBegin, Noticed, TurnsOf;
    var all := events + [e];
    TurnSays(h, events, p, e, lo, turn);
    TurnNoticed(h, events, p, e);
    TurnTorn(h, events, p, e);
    EndingBegins(events, p, e);
    ResultAddsNoChunk(events, e);
    assert all[..|events| + 1] == all && all[p..|events| + 1] == all[p..];
  }

  lemma TurnTorn(h: History, events: seq<Event>, p: nat, e: Event)
    requires p <= |events| && Current(h, events, p)
    ensures h.tornDown ==> TornDown(events + [e])
  {
    TornDownNext(events, e);
    hide TornDown, NoRepeats, Finals, ChunksTaken, FirstBegin;
  }

  lemma ResultAddsNoChunk(events: seq<Event>, e: Event)
    requires e.Results?
    ensures ChunksTaken(events + [e]) == ChunksTaken(events)
  {
    assert (events + [e])[..|events|] == events;
  }

  /** Where a turn ends, speech was noticed: its final text is a text. */
  lemma EndingBegins(events: seq<Event>, p: nat, e: Event)
    requires p <= |events| && EndsTurn(events + [e], p)
    ensures FirstBegin(events + [e], p) <= |events|
    ensures e.Results?
  {
    var all := events + [e];
    var k :| p <= k < |all| && FinalText(all[k]);
    assert Begins(all[k]);
  }

  lemma ReadNext(events: seq<Event>, e: Event, points: seq<nat>, turns: seq<Output>, cuts: seq<Cut>)
    requires AllRead(events, points, turns, cuts)
    ensures AllRead(events + [e], points, turns, cuts)
  {
    hide TurnRead;
    forall i | 0 <= i < |points| ensures TurnRead(events + [e], Prior(points, i), points[i], turns[i], cuts[i]) {
      ReadStays(events, e, Prior(points, i), points[i], turns[i], cuts[i]);
    }
  }

  lemma ReadAppend(events: seq<Event>, points: seq<nat>, turns: seq<Output>, cuts: seq<Cut>, n: nat, turn: Output, cut: Cut)
    requires AllRead(events, points, turns, cuts) && TurnRead(events, Last(points), n, turn, cut)
    ensures AllRead(events, points + [n], turns + [turn], cuts + [cut])
  {
    hide TurnRead;
    var more := points + [n];
    forall i | 0 <= i < |more| ensures TurnRead(events, Prior(more, i), more[i], (turns + [turn])[i], (cuts + [cut])[i]) {
      if i < |points| { assert Prior(more, i) == Prior(points, i); } else { assert Prior(more, i) == Last(points); }
    }
  }

  ghost predicate Told(h: History, events: seq<Event>) {
    && Last(EndPoints(events)) <= |events|
    && Current(h, events, Last(EndPoints(events)))
    && AllRead(events, EndPoints(events), TurnsOf(h.out), h.cuts)
  }

  lemma ToldNext(h: History, events: seq<Event>, e: Event)
    requires Told(h, events) && Inv(h) && h.accepted == ChunksTaken(events)
    ensures Told(Extend(h, e), events + [e])
  {
    hide Extend, Moves, Current, EndsTurn, TurnRead, AllRead, TurnCut, TurnsOf, EndPoints, ChunksTaken, Inv;
    var p, points := Last(EndPoints(events)), EndPoints(events);
    var lo, turn := EventMoves(h, e);
    PointsNext(events, e);
    ReadNext(events, e, points, TurnsOf(h.out), h.cuts);
    if EndsTurn(events + [e], p) {
      CurrentAfterTurn(h, events, p, e, lo, turn);
      TurnIsRead(h, events, p, e, lo, turn);
      ReadAppend(events + [e], points, TurnsOf(h.out), h.cuts, |events| + 1, turn, TurnCut(h, e, lo));
    } else {
      CurrentInTurn(h, events, p, e, lo, turn);
      NoTurnEnds(h, events, p, e, lo, turn);
      assert points + [] == points;
    }
  }

  lemma NoTurnEnds(h: History, events: seq<Event>, p: nat, e: Event, lo: int, turn: Output)
    requires p <= |events| && Current(h, events, p)
    requires Moves(h, Extend(h, e), e, lo, turn) && !EndsTurn(events + [e], p)
    ensures Extend(h, e).cuts == h.cuts && TurnsOf(Extend(h, e).out) == TurnsOf(h.out)
  {
    WordsNext(events, p, e);
    hide Extend, Ends, EndsTurn, TornDown, NoRepeats, WithText, Finals, Join, ChunksTaken, FirstBegin, TurnCut, TurnsOf;
    assert h.cuts + [] == h.cuts && TurnsOf(h.out) + [] == TurnsOf(h.out);
  }

  lemma {:induction false} AllTold(events: seq<Event>)
    ensures Told(Play(events), events)
  {
    hide Told, Extend, Inv, ChunksTaken;
    if events == [] {
      ToldAtStart();
    } else {
      var before, e := events[..|events| - 1], events[|events| - 1];
      assert events == before + [e];
      AllTold(before);
      InvAlways(before);
      PlayTakes(before);
      ToldNext(Play(before), before, e);
    }
  }

  lemma ToldAtStart()
    ensures Told(Play([]), [])
  {
    NothingSaid();
    assert TurnsOf([]) == [];
  }

  /** The `i`-th turn, by the events: it runs from behind the turn before to a result that ends speech with some final text
      heard; it says the final texts in between, immediate repeats dropped, with single spaces; and its audio is a slice of
      the chunks sent, laid end to end, up to the newest. */
  ghost predicate TurnFromEvents(events: seq<Event>, i: nat, turn: Output, cut: Cut)
    requires i < |EndPoints(events)|
  {
    var p, n := Prior(EndPoints(events), i), EndPoints(events)[i];
    && p < n <= |events| && turn.Turn? && turn.number == i + 1
    && (exists offsets :: Spelled(turn.text, NoRepeats(Finals(events[p..n])), offsets))
    && FirstBegin(events[..n], p) < n
    && cut.detected == |ChunksTaken(events[..FirstBegin(events[..n], p)])|
    && cut.hi == |ChunksTaken(events[..n])|
    && (cut.tornDown ==> TornDown(events[..n]))
    && CutOk(ChunksTaken(events), |ChunksTaken(events[..p])|, cut)
    && LaidOut(turn.audio, ChunksTaken(events)[cut.lo..cut.hi])
  }

  lemma PriorCut(events: seq<Event>, turns: seq<Output>, cuts: seq<Cut>, i: nat)
    requires AllRead(events, EndPoints(events), turns, cuts) && i < |cuts|
    ensures Prior(EndPoints(events), i) <= |events|
    ensures (if i == 0 then 0 else cuts[i - 1].hi) == |ChunksTaken(events[..Prior(EndPoints(events), i)])|
  {
    hide EndPoints, ChunksTaken, FirstBegin, TornDown;
    if i > 0 { assert TurnRead(events, Prior(EndPoints(events), i - 1), EndPoints(events)[i - 1], turns[i - 1], cuts[i - 1]); }
    else { NoChunks(events); }
  }

  lemma NoChunks(events: seq<Event>)
    ensures ChunksTaken(events[..0]) == []
  {
  }

  lemma OneTurnFromEvents(events: seq<Event>, turns: seq<Output>, cuts: seq<Cut>, i: nat)
    requires AllRead(events, EndPoints(events), turns, cuts) && i < |cuts|
    requires TurnIsSlice(ChunksTaken(events), cuts, turns, i)
    ensures TurnFromEvents(events, i, turns[i], cuts[i])
  {
    PriorCut(events, turns, cuts, i);
    hide EndPoints, ChunksTaken, FirstBegin, TornDown, NoRepeats, Finals, LaidOut, Spelled, Join, Concat, CutOk;
    var p, n := Prior(EndPoints(events), i), EndPoints(events)[i];
    assert TurnRead(events, p, n, turns[i], cuts[i]);
    var offsets := JoinSpells(NoRepeats(Finals(events[p..n])));
    CutIsInside(ChunksTaken(events), if i == 0 then 0 else cuts[i - 1].hi, cuts[i]);
    ConcatLaysOut(ChunksTaken(events)[cuts[i].lo..cuts[i].hi]);
  }

  lemma CutIsInside(accepted: seq<Chunk>, prev: nat, cut: Cut)
    requires CutOk(accepted, prev, cut)
    ensures 0 <= cut.lo <= cut.hi <= |accepted|
  {
  }

  /** Every run's turns are exactly those its events tell: one for every result that ends speech with some final text heard
      since the turn before, with the words and the audio of its own events. */
  lemma TurnsAreThoseOfTheEvents(events: seq<Event>)
    ensures var turns, cuts := TurnsOf(Run(events).1), Play(events).cuts;
            |turns| == |cuts| == |EndPoints(events)|
            && forall i :: 0 <= i < |turns| ==> TurnFromEvents(events, i, turns[i], cuts[i])
  {
    hide Play, Run, TurnsOf, EndPoints, ChunksTaken, TurnIsSlice, TurnFromEvents, Current, TurnRead;
    AllTold(events);
    PlayTakes(events);
    PlayIsRun(events);
    TurnsAreSlices(events);
    var turns, cuts := TurnsOf(Run(events).1), Play(events).cuts;
    forall i | 0 <= i < |turns| ensures TurnFromEvents(events, i, turns[i], cuts[i]) {
      OneTurnFromEvents(events, turns, cuts, i);
    }
  }

  // ---------- What is shown while a turn runs ----------

  predicate NoneEmpty(parts: seq<string>) { forall k :: 0 <= k < |parts| ==> parts[k] != "" }

  lemma {:induction false} FinalsAreTexts(events: seq<Event>)
    ensures NoneEmpty(Finals(events))
  {
    if events != [] { FinalsAreTexts(events[..|events| - 1]); }
  }

  lemma {:induction false} NoRepeatsAreTexts(texts: seq<string>)
    requires NoneEmpty(texts)
    ensures NoneEmpty(NoRepeats(texts))
  {
    if |texts| > 1 { NoRepeatsAreTexts(texts[..|texts| - 1]); }
  }

  /** The words of the running turn, the last of them perhaps not final. */
  ghost function Words(events: seq<Event>, p: nat): seq<string>
    requires p < |events| && events[|events| - 1].Results?
  {
    var e := events[|events| - 1];
    NoRepeats(Finals(events[p..])) + if e.text != "" && !e.isFinal then [e.text] else []
  }

  lemma ResultSays(s: State, e: Event, parts: seq<string>)
    requires e.Results? && (s.finalParts != [] ==> s.speechActive) && NoneEmpty(parts)
    requires parts == WithText(s.finalParts, e) + if e.text != "" && !e.isFinal then [e.text] else []
    ensures var heard := Heard(s, e.text, e.isFinal);
            && heard.utteranceNumber == s.utteranceNumber
            && Announced(heard, e.text, e.isFinal) == if parts == [] then [] else [Interim(s.utteranceNumber, Join(parts))]
  {
    HeardWords(s, e);
    var finals := WithText(s.finalParts, e);
    assert finals + [] == finals;
    var offsets := JoinSpells(parts);
    assert parts != [] ==> StandsAt(Join(parts), offsets[0], parts[0]);
    HeardKeepsNumber(s, e);
    hide Join, Heard, WithText, Spelled;
    NothingJoined();
  }

  lemma HeardKeepsNumber(s: State, e: Event)
    requires e.Results?
    ensures Heard(s, e.text, e.isFinal).utteranceNumber == s.utteranceNumber
  {
    hide Bytes;
  }

  lemma NothingJoined()
    ensures Join([]) == ""
  {
  }

  lemma RunningTurn(h: History, events: seq<Event>)
    requires Told(h, events) && Inv(h)
    ensures h.state.utteranceNumber == |EndPoints(events)| + 1
    ensures h.state.finalParts == NoRepeats(Finals(events[Last(EndPoints(events))..]))
    ensures h.state.finalParts != [] ==> h.state.speechActive
  {
    hide NoRepeats, Finals, EndPoints, TurnRead, PreRollOk, CutsOk, TurnsMatch, ChunksTaken, TornDown;
  }

  /** What any result puts out, by the events alone: the words of the running turn under its number, unless there are none,
      and if it ends the turn a blank and the turn itself. */
  lemma ResultsShowTheRunningTurn(events: seq<Event>, e: Event) returns (live: string, offsets: seq<nat>, turn: Output)
    requires e.Results?
    ensures var p, n := Last(EndPoints(events)), |EndPoints(events)| + 1;
            && p <= |events|
            && Spelled(live, Words(events + [e], p), offsets)
            && Run(events + [e]).1 == Run(events).1
                 + (if Words(events + [e], p) == [] then [] else [Interim(n, live)])
                 + (if EndsTurn(events + [e], p) then [Interim(n, ""), turn] else [])
            && (EndsTurn(events + [e], p) ==> turn.Turn? && turn.number == n)
  {
    hide Told, Inv, Extend, EndPoints, EndsTurn, Spelled, Join, Words, Heard, Announced, Finals, NoRepeats;
    var all, h, p := events + [e], Play(events), Last(EndPoints(events));
    AllTold(events);
    InvAlways(events);
    RunningTurn(h, events);
    PointsAreInside(events);
    WordsNext(events, p, e);
    var parts := Words(all, p);
    WordsAre(all, p);
    ResultSays(h.state, e, parts);
    live := Join(parts);
    offsets := JoinSpells(parts);
    RunNext(events, e);
    PlayIsRun(events);
    turn := ResultOut(h.state, e);
    hide Run, Play, DoResults;
  }

  lemma WordsAre(events: seq<Event>, p: nat)
    requires p < |events| && events[|events| - 1].Results?
    ensures var e := events[|events| - 1];
            Words(events, p) == NoRepeats(Finals(events[p..])) + if e.text != "" && !e.isFinal then [e.text] else []
    ensures NoneEmpty(Words(events, p))
  {
    FinalsAreTexts(events[p..]);
    NoRepeatsAreTexts(Finals(events[p..]));
    hide Finals, NoRepeats;
  }

  lemma RunNext(events: seq<Event>, e: Event)
    ensures Run(events + [e]).1 == Run(events).1 + Step(Run(events).0, e).1
  {
    hide Step;
    assert (events + [e])[..|events|] == events;
  }

  /** What a result puts out besides the words. */
  lemma ResultOut(s: State, e: Event) returns (turn: Output)
    requires e.Results? && (s.finalParts != [] ==> s.speechActive)
    ensures var heard := Heard(s, e.text, e.isFinal);
            && Step(s, e).1 == Announced(heard, e.text, e.isFinal)
                 + (if Ends(s.finalParts, e) then [Interim(heard.utteranceNumber, ""), turn] else [])
            && (Ends(s.finalParts, e) ==> turn.Turn? && turn.number == heard.utteranceNumber)
  {
    HeardWords(s, e);
    hide Heard, Announced, Join, Concat, WithText;
    var heard := Heard(s, e.text, e.isFinal);
    turn := Turn(heard.utteranceNumber, Join(heard.finalParts), Concat(heard.utteranceChunks));
    assert Announced(heard, e.text, e.isFinal) + [] == Announced(heard, e.text, e.isFinal);
  }
}
