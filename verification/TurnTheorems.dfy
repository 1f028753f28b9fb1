/** What a contributor's session hands on: which audio belongs to a turn, how large it grows, what the provider gets. */
module TurnTheorems {
  import opened TurnAssembly

  // ---------- Runs ----------

  /** One finished turn: how many chunks had arrived when its speech was noticed, which chunks its audio holds,
      and whether the session had been torn down before. */
  datatype Cut = Cut(detected: nat, lo: int, hi: nat, tornDown: bool)

  /** The state with everything that happened before it: `accepted` is every chunk taken, `kept` leaves out the
      ones that found the connect buffer full. */
  datatype History = History(state: State, out: seq<Output>, accepted: seq<Chunk>, kept: seq<Chunk>,
                             detected: nat, cuts: seq<Cut>, tornDown: bool)

  const BEGINNING := History(NEW_SESSION, [], [], [], 0, [], false)

  function Begin(h: History): History {
    if h.state.speechActive then h else h.(state := BeginSpeech(h.state), detected := |h.accepted|)
  }

  function ExtendSend(h: History, chunk: Chunk): History {
    var r := DoSend(h.state, chunk);
    if !Takes(h.state, chunk) then h
    else
      var full := !h.state.connected && |h.state.connectBuffer| >= MAX_CONNECT_BUFFER_CHUNKS;
      h.(state := r.0, out := h.out + r.1, accepted := h.accepted + [chunk],
         kept := if full then h.kept else h.kept + [chunk])
  }

  function ExtendResults(h: History, text: string, isFinal: bool, speechFinal: bool): History {
    var begun := if text != "" then Begin(h) else h;
    var r := DoResults(h.state, text, isFinal, speechFinal);
    var heard := Heard(h.state, text, isFinal);
    var cut := Cut(begun.detected, |h.accepted| - |heard.utteranceChunks|, |h.accepted|, h.tornDown);
    begun.(state := r.0, out := h.out + r.1,
           cuts := if speechFinal && heard.finalParts != [] then h.cuts + [cut] else h.cuts)
  }

  function Extend(h: History, e: Event): History {
    match e
    case Send(chunk) => ExtendSend(h, chunk)
    case SpeechStarted => Begin(h)
    case Results(text, isFinal, speechFinal) => ExtendResults(h, text, isFinal, speechFinal)
    case StopCompleted =>
      h.(state := Step(h.state, e).0, tornDown := h.tornDown || (h.state.stopping && h.state.attached))
    case _ => h.(state := Step(h.state, e).0, out := h.out + Step(h.state, e).1)
  }

  function Play(events: seq<Event>): History {
    if events == [] then BEGINNING else Extend(Play(events[..|events| - 1]), events[|events| - 1])
  }

  function Run(events: seq<Event>): (State, seq<Output>) {
    if events == [] then (NEW_SESSION, [])
    else
      var r := Run(events[..|events| - 1]);
      var s := Step(r.0, events[|events| - 1]);
      (s.0, r.1 + s.1)
  }

  /** The bookkeeping only watches. */
  lemma {:induction false} PlayIsRun(events: seq<Event>)
    ensures Play(events).state == Run(events).0 && Play(events).out == Run(events).1
  {
    if events != [] {
      PlayIsRun(events[..|events| - 1]);
      ExtendIsStep(Play(events[..|events| - 1]), events[|events| - 1]);
    }
  }

  lemma ExtendIsStep(h: History, e: Event)
    ensures Extend(h, e).state == Step(h.state, e).0
    ensures Extend(h, e).out == h.out + Step(h.state, e).1
  {
    hide Buffered, Heard, Announced, Forward;
  }

  // ---------- Byte counts ----------

  lemma {:induction false} BytesOfConcat(a: seq<Chunk>, b: seq<Chunk>)
    ensures Bytes(a + b) == Bytes(a) + Bytes(b)
    decreases |b|
  {
    if b == [] {
      assert a + b == a;
    } else {
      BytesOfConcat(a, b[..|b| - 1]);
      assert (a + b)[..|a + b| - 1] == a + b[..|b| - 1];
    }
  }

  ghost predicate Fits(chunks: seq<Chunk>) {
    Bytes(chunks) <= MAX_UTTERANCE_BYTES || |chunks| <= 1
  }

  lemma BytesOfSuffix(chunks: seq<Chunk>, drop: nat)
    requires drop <= |chunks|
    ensures Bytes(chunks[drop..]) == Bytes(chunks) - Bytes(chunks[..drop])
  {
    assert chunks[..drop] + chunks[drop..] == chunks;
    BytesOfConcat(chunks[..drop], chunks[drop..]);
  }

  ghost predicate LeastDrop(chunks: seq<Chunk>, drop: nat) {
    && drop <= |chunks|
    && Fits(chunks[drop..])
    && (drop > 0 ==> drop < |chunks| && Bytes(chunks[drop - 1..]) > MAX_UTTERANCE_BYTES)
  }

  lemma LeastDropOneMore(chunks: seq<Chunk>, drop: nat)
    requires |chunks| > 1 && Bytes(chunks) > MAX_UTTERANCE_BYTES && LeastDrop(chunks[1..], drop)
    ensures LeastDrop(chunks, drop + 1)
  {
    hide Bytes;
    assert chunks[1..][drop..] == chunks[drop + 1..];
    if drop == 0 {
      assert chunks[drop + 1 - 1..] == chunks;
    } else {
      assert chunks[1..][drop - 1..] == chunks[drop + 1 - 1..];
    }
  }

  /** The cap drops no chunk it need not drop: with the last dropped one back, the limit is exceeded. */
  lemma {:induction false} ExcessIsLeast(chunks: seq<Chunk>)
    ensures LeastDrop(chunks, Excess(chunks, Bytes(chunks)))
    decreases |chunks|
  {
    if Bytes(chunks) > MAX_UTTERANCE_BYTES && |chunks| > 1 {
      BytesOfSuffix(chunks, 1);
      BytesOfOne(chunks[0]);
      assert chunks[..1] == [chunks[0]];
      ExcessIsLeast(chunks[1..]);
      LeastDropOneMore(chunks, Excess(chunks[1..], Bytes(chunks[1..])));
    } else {
      assert chunks[0..] == chunks;
    }
  }

  lemma BytesOfOne(chunk: Chunk)
    ensures Bytes([chunk]) == |chunk|
  {
    assert [chunk][..0] == [];
    assert Bytes([]) == 0;
  }

  // ---------- Turns are slices of what was sent ----------

  function Max(a: int, b: int): int { if a < b then b else a }

  function Min(a: int, b: int): int { if a < b then a else b }

  function Prev(cuts: seq<Cut>): nat { if cuts == [] then 0 else cuts[|cuts| - 1].hi }

  /** The chunks from `lo` on are a turn's audio: they start at the pre-roll before the speech was noticed (but never
      inside the turn before), or later only because one more chunk would break the cap. */
  ghost predicate Slice(accepted: seq<Chunk>, prev: nat, detected: nat, lo: int, hi: nat) {
    && prev <= detected <= hi <= |accepted|
    && prev <= Max(prev, detected - PRE_ROLL_CHUNKS) <= lo <= hi
    && (lo > Max(prev, detected - PRE_ROLL_CHUNKS) ==> Bytes(accepted[lo - 1..hi]) > MAX_UTTERANCE_BYTES)
    && (hi > detected ==> Fits(accepted[lo..hi]))
  }

  ghost predicate CutOk(accepted: seq<Chunk>, prev: nat, cut: Cut) {
    && prev <= cut.lo <= cut.hi <= |accepted|
    && (if cut.tornDown then cut.lo == cut.hi else Slice(accepted, prev, cut.detected, cut.lo, cut.hi))
  }

  ghost predicate CutsOk(accepted: seq<Chunk>, cuts: seq<Cut>) {
    && forall i :: 0 <= i < |cuts| ==> CutOk(accepted, Prev(cuts[..i]), cuts[i])
  }

  function TurnsOf(out: seq<Output>): seq<Output> {
    if out == [] then []
    else
      var last := out[|out| - 1];
      TurnsOf(out[..|out| - 1]) + if last.Turn? then [last] else []
  }

  ghost predicate TurnsMatch(accepted: seq<Chunk>, cuts: seq<Cut>, turns: seq<Output>) {
    && |turns| == |cuts|
    && forall i :: 0 <= i < |turns| ==>
      && turns[i].Turn? && turns[i].number == i + 1
      && 0 <= cuts[i].lo <= cuts[i].hi <= |accepted|
      && turns[i].audio == Concat(accepted[cuts[i].lo..cuts[i].hi])
  }

  function Suffix(accepted: seq<Chunk>, n: int): seq<Chunk>
    requires 0 <= n <= |accepted|
  {
    accepted[|accepted| - n..]
  }

  ghost predicate PreRollOk(preRoll: seq<Chunk>, accepted: seq<Chunk>, prev: nat, tornDown: bool) {
    && prev <= |accepted|
    && preRoll == Suffix(accepted, if tornDown then 0 else Min(PRE_ROLL_CHUNKS, |accepted| - prev))
  }

  ghost predicate SpeechOk(s: State, accepted: seq<Chunk>, prev: nat, detected: nat, tornDown: bool) {
    var n := |accepted|;
    && s.utteranceByteLength == Bytes(s.utteranceChunks)
    && (if s.speechActive && !tornDown
        then Slice(accepted, prev, detected, n - |s.utteranceChunks|, n)
             && s.utteranceChunks == Suffix(accepted, |s.utteranceChunks|)
        else s.utteranceChunks == [])
    && (s.finalParts != [] ==> s.speechActive)
    && (tornDown ==> s.stopping)
  }

  ghost predicate Inv(h: History) {
    && PreRollOk(h.state.preRoll, h.accepted, Prev(h.cuts), h.tornDown)
    && SpeechOk(h.state, h.accepted, Prev(h.cuts), h.detected, h.tornDown)
    && h.state.utteranceNumber == |h.cuts| + 1
    && CutsOk(h.accepted, h.cuts)
    && TurnsMatch(h.accepted, h.cuts, TurnsOf(h.out))
  }

  lemma BeginKeepsInv(h: History)
    requires Inv(h)
    ensures Inv(Begin(h)) && Begin(h).state.speechActive
  {
    hide CutsOk, TurnsMatch, TurnsOf;
    if !h.state.speechActive {
      var t := Begin(h);
      var n, s := |h.accepted|, t.state;
      assert s.utteranceChunks == h.state.preRoll;
      if !h.tornDown {
        assert n - |s.utteranceChunks| == Max(Prev(h.cuts), n - PRE_ROLL_CHUNKS);
      }
    }
  }

  lemma SliceGrows(accepted: seq<Chunk>, chunk: Chunk, prev: nat, detected: nat, lo: int, hi: nat)
    requires Slice(accepted, prev, detected, lo, hi)
    ensures Slice(accepted + [chunk], prev, detected, lo, hi)
  {
    hide Bytes;
    var more := accepted + [chunk];
    assert more[lo..hi] == accepted[lo..hi];
    assert lo > 0 ==> more[lo - 1..hi] == accepted[lo - 1..hi];
  }

  lemma CutsGrow(accepted: seq<Chunk>, chunk: Chunk, cuts: seq<Cut>)
    requires CutsOk(accepted, cuts)
    ensures CutsOk(accepted + [chunk], cuts)
  {
    hide Slice, Prev;
    forall i | 0 <= i < |cuts| ensures CutOk(accepted + [chunk], Prev(cuts[..i]), cuts[i]) {
      var c := cuts[i];
      assert CutOk(accepted, Prev(cuts[..i]), c);
      if !c.tornDown { SliceGrows(accepted, chunk, Prev(cuts[..i]), c.detected, c.lo, c.hi); }
    }
  }

  lemma TurnsStillMatch(accepted: seq<Chunk>, chunk: Chunk, cuts: seq<Cut>, turns: seq<Output>)
    requires TurnsMatch(accepted, cuts, turns)
    ensures TurnsMatch(accepted + [chunk], cuts, turns)
  {
    hide Concat;
    forall i | 0 <= i < |turns|
      ensures (accepted + [chunk])[cuts[i].lo..cuts[i].hi] == accepted[cuts[i].lo..cuts[i].hi]
    {
    }
  }

  lemma PreRollFollows(accepted: seq<Chunk>, chunk: Chunk, prev: nat)
    requires prev <= |accepted|
    ensures Shifted(Suffix(accepted, Min(PRE_ROLL_CHUNKS, |accepted| - prev)) + [chunk])
            == Suffix(accepted + [chunk], Min(PRE_ROLL_CHUNKS, |accepted| + 1 - prev))
  {
  }

  /** One more chunk in the utterance, and the cap applied. */
  lemma SliceFollows(accepted: seq<Chunk>, chunk: Chunk, prev: nat, detected: nat, lo: nat, drop: nat)
    requires Slice(accepted, prev, detected, lo, |accepted|)
    requires LeastDrop((accepted + [chunk])[lo..], drop)
    ensures Slice(accepted + [chunk], prev, detected, lo + drop, |accepted| + 1)
  {
    var more := accepted + [chunk];
    if lo > 0 {
      BytesOfConcat(accepted[lo - 1..], [chunk]);
      assert accepted[lo - 1..] + [chunk] == more[lo - 1..|more|];
      assert accepted[lo - 1..|accepted|] == accepted[lo - 1..];
    }
    hide Bytes;
    assert more[lo..][drop..] == more[lo + drop..|more|];
    if drop > 0 { assert more[lo..][drop - 1..] == more[lo + drop - 1..|more|]; }
  }

  /** What the cap leaves of a suffix of the accepted chunks is a suffix of them. */
  lemma CappedIsSuffix(s: State, accepted: seq<Chunk>, lo: nat)
    requires lo <= |accepted| && s.utteranceChunks == accepted[lo..]
    requires s.utteranceByteLength == Bytes(s.utteranceChunks)
    ensures var t := Capped(s);
            var drop := Excess(accepted[lo..], Bytes(accepted[lo..]));
            && t.utteranceByteLength == Bytes(t.utteranceChunks)
            && |t.utteranceChunks| == |accepted| - lo - drop
            && t.utteranceChunks == accepted[lo + drop..]
  {
    var drop := Excess(accepted[lo..], Bytes(accepted[lo..]));
    BytesOfSuffix(s.utteranceChunks, drop);
    hide Bytes, Excess;
    assert accepted[lo..][drop..] == accepted[lo + drop..];
  }

  lemma CappedKeepsSpeech(s: State, accepted: seq<Chunk>, chunk: Chunk, prev: nat, detected: nat, lo: nat)
    requires s.speechActive && Slice(accepted, prev, detected, lo, |accepted|) && lo <= |accepted|
    requires s.utteranceChunks == (accepted + [chunk])[lo..] && s.utteranceByteLength == Bytes(s.utteranceChunks)
    ensures SpeechOk(Capped(s), accepted + [chunk], prev, detected, false)
  {
    hide Bytes, Excess, Slice;
    var more := accepted + [chunk];
    CappedIsSuffix(s, more, lo);
    ExcessIsLeast(more[lo..]);
    hide LeastDrop;
    SliceFollows(accepted, chunk, prev, detected, lo, Excess(more[lo..], Bytes(more[lo..])));
  }

  lemma UtteranceFollows(s: State, accepted: seq<Chunk>, chunk: Chunk, prev: nat, detected: nat)
    requires SpeechOk(s, accepted, prev, detected, false) && s.speechActive
    ensures SpeechOk(Buffered(s, chunk), accepted + [chunk], prev, detected, false)
  {
    BytesOfConcat(s.utteranceChunks, [chunk]);
    BytesOfOne(chunk);
    hide Bytes, Excess, Shifted;
    var lo: nat := |accepted| - |s.utteranceChunks|;
    hide Slice, Capped;
    assert s.utteranceChunks + [chunk] == (accepted + [chunk])[lo..];
    var grown := s.(preRoll := Shifted(s.preRoll + [chunk]), utteranceChunks := s.utteranceChunks + [chunk],
                    utteranceByteLength := s.utteranceByteLength + |chunk|);
    CappedKeepsSpeech(grown, accepted, chunk, prev, detected, lo);
    hide SpeechOk;
    assert Buffered(s, chunk) == Capped(grown);
  }

  lemma {:induction false} TurnsOfConcat(a: seq<Output>, b: seq<Output>)
    ensures TurnsOf(a + b) == TurnsOf(a) + TurnsOf(b)
    decreases |b|
  {
    if b == [] {
      assert a + b == a;
    } else {
      TurnsOfConcat(a, b[..|b| - 1]);
      assert (a + b)[..|a + b| - 1] == a + b[..|b| - 1];
    }
  }

  lemma {:induction false} NoTurns(out: seq<Output>)
    requires forall i :: 0 <= i < |out| ==> !out[i].Turn?
    ensures TurnsOf(out) == []
  {
    if out != [] { NoTurns(out[..|out| - 1]); }
  }

  lemma QuietOutput(h: History, more: seq<Output>)
    requires forall i :: 0 <= i < |more| ==> !more[i].Turn?
    ensures TurnsOf(h.out + more) == TurnsOf(h.out)
  {
    TurnsOfConcat(h.out, more);
    NoTurns(more);
  }

  lemma SendOutcome(s: State, chunk: Chunk)
    requires Takes(s, chunk)
    ensures var r, t := DoSend(s, chunk), Buffered(s, chunk);
            && r.0 == t.(connectBuffer := r.0.connectBuffer)
            && t.preRoll == Shifted(s.preRoll + [chunk])
            && t.utteranceNumber == s.utteranceNumber
            && forall i :: 0 <= i < |r.1| ==> !r.1[i].Turn?
  {
    hide Shifted, Excess, Bytes;
  }

  lemma SendKeepsSpeech(s: State, accepted: seq<Chunk>, chunk: Chunk, prev: nat, detected: nat)
    requires SpeechOk(s, accepted, prev, detected, false) && Takes(s, chunk)
    ensures SpeechOk(DoSend(s, chunk).0, accepted + [chunk], prev, detected, false)
  {
    SendOutcome(s, chunk);
    hide DoSend, Excess, Bytes, Slice;
    if s.speechActive { UtteranceFollows(s, accepted, chunk, prev, detected); }
  }

  lemma SendKeepsInv(h: History, chunk: Chunk)
    requires Inv(h)
    ensures Inv(ExtendSend(h, chunk))
  {
    if Takes(h.state, chunk) {
      assert !h.tornDown;
      hide CutsOk, TurnsMatch, TurnsOf;
      PreRollFollows(h.accepted, chunk, Prev(h.cuts));
      SendOutcome(h.state, chunk);
      SendKeepsSpeech(h.state, h.accepted, chunk, Prev(h.cuts), h.detected);
      hide SpeechOk, DoSend, Buffered, Shifted, Suffix, Takes;
      CutsGrow(h.accepted, chunk, h.cuts);
      QuietOutput(h, DoSend(h.state, chunk).1);
      TurnsStillMatch(h.accepted, chunk, h.cuts, TurnsOf(h.out));
    }
  }

  lemma HearKeepsSpeech(s: State, accepted: seq<Chunk>, prev: nat, detected: nat, tornDown: bool, parts: seq<string>)
    requires SpeechOk(s, accepted, prev, detected, tornDown) && (parts != [] ==> s.speechActive)
    ensures SpeechOk(s.(finalParts := parts), accepted, prev, detected, tornDown)
  {
    hide Slice, Bytes;
  }

  lemma CutsAppend(accepted: seq<Chunk>, cuts: seq<Cut>, cut: Cut)
    requires CutsOk(accepted, cuts) && CutOk(accepted, Prev(cuts), cut)
    ensures CutsOk(accepted, cuts + [cut])
  {
    hide CutOk, Prev;
    var more := cuts + [cut];
    forall i | 0 <= i < |more| ensures CutOk(accepted, Prev(more[..i]), more[i]) {
      if i < |cuts| { assert more[..i] == cuts[..i]; } else { assert more[..i] == cuts; }
    }
  }

  lemma TurnsAppend(accepted: seq<Chunk>, cuts: seq<Cut>, turns: seq<Output>, cut: Cut, turn: Output)
    requires TurnsMatch(accepted, cuts, turns)
    requires turn.Turn? && turn.number == |cuts| + 1 && 0 <= cut.lo <= cut.hi <= |accepted|
    requires turn.audio == Concat(accepted[cut.lo..cut.hi])
    ensures TurnsMatch(accepted, cuts + [cut], turns + [turn])
  {
    hide Concat;
  }

  /** The cut the running speech would leave if its turn ended now. */
  lemma CurrentCut(s: State, accepted: seq<Chunk>, prev: nat, detected: nat, tornDown: bool)
    requires SpeechOk(s, accepted, prev, detected, tornDown) && s.speechActive && prev <= |accepted|
    ensures var lo := |accepted| - |s.utteranceChunks|;
            && 0 <= lo && CutOk(accepted, prev, Cut(detected, lo, |accepted|, tornDown))
            && s.utteranceChunks == accepted[lo..|accepted|]
  {
    hide Bytes;
  }

  lemma OutputOfResults(s: State, text: string, isFinal: bool, speechFinal: bool)
    ensures var heard, r := Heard(s, text, isFinal), DoResults(s, text, isFinal, speechFinal);
            if speechFinal && heard.finalParts != []
            then r.0 == NextTurn(heard)
                 && TurnsOf(r.1) == [Turn(heard.utteranceNumber, Join(heard.finalParts), Concat(heard.utteranceChunks))]
            else r.0 == heard && TurnsOf(r.1) == []
  {
    hide Heard, Join, Concat;
    var heard := Heard(s, text, isFinal);
    var interim := Announced(heard, text, isFinal);
    NoTurns(interim);
    hide Announced;
    if speechFinal && heard.finalParts != [] {
      var blank := Interim(heard.utteranceNumber, "");
      var turn := Turn(heard.utteranceNumber, Join(heard.finalParts), Concat(heard.utteranceChunks));
      TurnsOfConcat(interim, [blank, turn]);
      assert [blank, turn] == [blank] + [turn];
      TurnsOfConcat([blank], [turn]);
      NoTurns([blank]);
      assert [turn][..0] == [];
    }
  }

  lemma HeardIsBegun(h: History, text: string, isFinal: bool)
    requires Inv(h)
    ensures var begun := if text != "" then Begin(h) else h;
            && Inv(begun)
            && begun.accepted == h.accepted && begun.tornDown == h.tornDown && begun.cuts == h.cuts && begun.out == h.out
            && Heard(h.state, text, isFinal) == begun.state.(finalParts := Parts(begun.state, text, isFinal))
            && (Parts(begun.state, text, isFinal) != [] ==> begun.state.speechActive)
  {
    if text != "" { BeginKeepsInv(h); }
    hide CutsOk, TurnsMatch, TurnsOf, Slice, Suffix, Bytes;
  }

  lemma ResultsKeepInv(h: History, text: string, isFinal: bool, speechFinal: bool)
    requires Inv(h)
    ensures Inv(ExtendResults(h, text, isFinal, speechFinal))
  {
    hide SpeechOk, CutsOk, TurnsMatch, TurnsOf, Heard, Parts, Begin, DoResults, Concat, Join, CutOk;
    var begun := if text != "" then Begin(h) else h;
    HeardIsBegun(h, text, isFinal);
    OutputOfResults(h.state, text, isFinal, speechFinal);
    var heard, r := Heard(h.state, text, isFinal), DoResults(h.state, text, isFinal, speechFinal);
    var prev := Prev(h.cuts);
    HearKeepsSpeech(begun.state, h.accepted, prev, begun.detected, h.tornDown, heard.finalParts);
    TurnsOfConcat(h.out, r.1);
    if speechFinal && heard.finalParts != [] {
      CurrentCut(heard, h.accepted, prev, begun.detected, h.tornDown);
      var cut := Cut(begun.detected, |h.accepted| - |heard.utteranceChunks|, |h.accepted|, h.tornDown);
      CutsAppend(h.accepted, h.cuts, cut);
      TurnsAppend(h.accepted, h.cuts, TurnsOf(h.out), cut, TurnsOf(r.1)[0]);
      NextTurnKeepsSpeech(heard, h.accepted, prev, begun.detected, h.tornDown);
    } else {
      assert TurnsOf(h.out) + [] == TurnsOf(h.out);
    }
  }

  lemma NextTurnKeepsSpeech(s: State, accepted: seq<Chunk>, prev: nat, detected: nat, tornDown: bool)
    requires SpeechOk(s, accepted, prev, detected, tornDown)
    ensures SpeechOk(NextTurn(s), accepted, |accepted|, detected, tornDown)
  {
  }

  lemma OtherEventsKeepInv(h: History, e: Event)
    requires Inv(h) && (e.Attach? || e.Open? || e.Close? || e.StopRequested?)
    ensures Inv(Extend(h, e))
  {
    hide CutsOk, TurnsMatch, TurnsOf, Slice, Bytes;
    QuietOutput(h, Step(h.state, e).1);
  }

  lemma TearDownKeepsInv(h: History)
    requires Inv(h)
    ensures Inv(Extend(h, StopCompleted))
  {
    hide CutsOk, TurnsMatch, TurnsOf, Slice;
  }

  lemma ExtendKeepsInv(h: History, e: Event)
    requires Inv(h)
    ensures Inv(Extend(h, e))
  {
    hide Inv;
    match e
    case Send(chunk) => SendKeepsInv(h, chunk);
    case SpeechStarted => BeginKeepsInv(h);
    case Results(text, isFinal, speechFinal) => ResultsKeepInv(h, text, isFinal, speechFinal);
    case StopCompleted => TearDownKeepsInv(h);
    case _ => OtherEventsKeepInv(h, e);
  }

  lemma {:induction false} InvAlways(events: seq<Event>)
    ensures Inv(Play(events))
  {
    hide Inv, Extend;
    if events == [] {
      InvAtStart();
    } else {
      InvAlways(events[..|events| - 1]);
      ExtendKeepsInv(Play(events[..|events| - 1]), events[|events| - 1]);
    }
  }

  lemma InvAtStart()
    ensures Inv(BEGINNING)
  {
    assert TurnsOf([]) == [] && Bytes([]) == 0;
    hide TurnsOf, Bytes, Slice, CutOk, Concat;
  }

  ghost predicate TurnIsSlice(accepted: seq<Chunk>, cuts: seq<Cut>, turns: seq<Output>, i: nat)
    requires i < |turns| == |cuts|
  {
    && turns[i].Turn? && turns[i].number == i + 1
    && CutOk(accepted, if i == 0 then 0 else cuts[i - 1].hi, cuts[i])
    && turns[i].audio == Concat(accepted[cuts[i].lo..cuts[i].hi])
  }

  /** In every run, the i-th finished turn is numbered i + 1 and its audio is a contiguous slice of the chunks taken;
      the slices are in order and disjoint, each ends with the newest chunk, and each starts at the six-chunk pre-roll
      unless that would reach into the turn before, or the cap forces it to start later (then no later than needed). */
  lemma TurnsAreSlices(events: seq<Event>)
    ensures var h, turns := Play(events), TurnsOf(Run(events).1);
            && |turns| == |h.cuts|
            && forall i :: 0 <= i < |turns| ==> TurnIsSlice(h.accepted, h.cuts, turns, i)
  {
    hide Play, Run, TurnsOf, PreRollOk, SpeechOk, TurnIsSlice;
    InvAlways(events);
    PlayIsRun(events);
    var h, turns := Play(events), TurnsOf(Run(events).1);
    forall i | 0 <= i < |turns| ensures TurnIsSlice(h.accepted, h.cuts, turns, i) {
      OneTurn(h.accepted, h.cuts, turns, i);
    }
  }

  lemma OneTurn(accepted: seq<Chunk>, cuts: seq<Cut>, turns: seq<Output>, i: nat)
    requires CutsOk(accepted, cuts) && TurnsMatch(accepted, cuts, turns) && i < |turns|
    ensures TurnIsSlice(accepted, cuts, turns, i)
  {
    hide CutOk, Concat;
    assert CutOk(accepted, Prev(cuts[..i]), cuts[i]);
  }
}
