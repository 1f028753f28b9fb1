/** What bounds a turn's buffered audio, and which chunks reach the provider. */
module ProviderTheorems {
  import opened TurnAssembly
  import opened TurnTheorems

  // ---------- The cap ----------

  /** The largest chunk size for which six pre-roll chunks still fit under the cap. */
  const SAFE_CHUNK_BYTES := MAX_UTTERANCE_BYTES / PRE_ROLL_CHUNKS

  ghost predicate Limited(events: seq<Event>, limit: nat) {
    forall i :: 0 <= i < |events| ==> events[i].Send? ==> |events[i].chunk| <= limit
  }

  ghost predicate AllWithin(chunks: seq<Chunk>, limit: nat) {
    forall i :: 0 <= i < |chunks| ==> |chunks[i]| <= limit
  }

  lemma {:induction false} BytesBound(chunks: seq<Chunk>, limit: nat)
    requires AllWithin(chunks, limit)
    ensures Bytes(chunks) <= |chunks| * limit
  {
    if chunks != [] { BytesBound(chunks[..|chunks| - 1], limit); }
  }

  lemma AcceptedGrows(h: History, e: Event)
    ensures Extend(h, e).accepted == h.accepted
            || (e.Send? && Extend(h, e).accepted == h.accepted + [e.chunk])
  {
    hide DoSend, DoResults, Heard;
  }

  lemma {:induction false} AcceptedWithin(events: seq<Event>, limit: nat)
    requires Limited(events, limit)
    ensures AllWithin(Play(events).accepted, limit)
  {
    hide Extend;
    if events != [] {
      var before := events[..|events| - 1];
      AcceptedWithin(before, limit);
      AcceptedGrows(Play(before), events[|events| - 1]);
    }
  }

  lemma ShortRunFits(chunks: seq<Chunk>, limit: nat)
    requires AllWithin(chunks, limit) && |chunks| <= PRE_ROLL_CHUNKS && limit <= SAFE_CHUNK_BYTES
    ensures Bytes(chunks) <= MAX_UTTERANCE_BYTES
  {
    BytesBound(chunks, limit);
    hide Bytes, AllWithin;
    var n := |chunks|;
    assert n * limit <= n * SAFE_CHUNK_BYTES;
  }

  /** What the buffer holds is empty, or short, or was cut to the cap. */
  lemma UtteranceIsShortOrFits(s: State, accepted: seq<Chunk>, prev: nat, detected: nat, tornDown: bool)
    requires SpeechOk(s, accepted, prev, detected, tornDown)
    ensures |s.utteranceChunks| <= PRE_ROLL_CHUNKS || Fits(s.utteranceChunks)
    ensures |s.utteranceChunks| <= |accepted| && s.utteranceChunks == accepted[|accepted| - |s.utteranceChunks|..]
  {
    hide Bytes;
    if s.speechActive && !tornDown {
      assert accepted[|accepted| - |s.utteranceChunks|..|accepted|] == s.utteranceChunks;
    }
  }

  lemma UtteranceWithinCap(h: History, limit: nat)
    requires Inv(h) && AllWithin(h.accepted, limit) && limit <= 240000
    ensures h.state.utteranceByteLength == Bytes(h.state.utteranceChunks) <= 1440000
  {
    hide CutsOk, TurnsMatch, TurnsOf, PreRollOk, Bytes, Slice;
    var chunks := h.state.utteranceChunks;
    UtteranceIsShortOrFits(h.state, h.accepted, Prev(h.cuts), h.detected, h.tornDown);
    if |chunks| <= PRE_ROLL_CHUNKS { ShortRunFits(chunks, limit); }
  }

  function Copies(chunk: Chunk, n: nat): seq<Event> { seq(n, _ => Send(chunk)) }

  lemma {:induction false} CopiesAccepted(chunk: Chunk, n: nat)
    requires chunk != []
    ensures var h := Play(Copies(chunk, n));
            h.accepted == seq(n, _ => chunk) && h.cuts == [] && !h.tornDown && !h.state.stopping && !h.state.speechActive
  {
    hide Shifted, Forward;
    if n > 0 {
      CopiesAccepted(chunk, n - 1);
      assert Copies(chunk, n)[..n - 1] == Copies(chunk, n - 1);
    }
  }

  lemma {:induction false} BytesOfCopies(chunk: Chunk, n: nat)
    ensures Bytes(seq(n, _ => chunk)) == n * |chunk|
  {
    if n > 0 {
      BytesOfCopies(chunk, n - 1);
      assert seq(n, _ => chunk)[..n - 1] == seq(n - 1, _ => chunk);
    }
  }

  /** Six oversized chunks and then the start of speech. */
  function Oversized(limit: nat): seq<Event> {
    Copies(seq(limit, _ => 0), PRE_ROLL_CHUNKS) + [SpeechStarted]
  }

  lemma OversizedBreaksCap(limit: nat)
    requires limit > SAFE_CHUNK_BYTES
    ensures Limited(Oversized(limit), limit)
    ensures Play(Oversized(limit)).state.utteranceByteLength > MAX_UTTERANCE_BYTES
  {
    var chunk: Chunk := seq(limit, _ => 0);
    var sends := Copies(chunk, PRE_ROLL_CHUNKS);
    CopiesAccepted(chunk, PRE_ROLL_CHUNKS);
    InvAlways(sends);
    BytesOfCopies(chunk, PRE_ROLL_CHUNKS);
    var h := Play(sends);
    assert h.state.preRoll == h.accepted;
    hide Bytes, Inv, Extend;
    assert Oversized(limit)[..PRE_ROLL_CHUNKS] == sends;
    assert Play(Oversized(limit)) == Extend(h, SpeechStarted);
    SpeechStartsFromPreRoll(h);
  }

  lemma SpeechStartsFromPreRoll(h: History)
    requires !h.state.speechActive
    ensures Extend(h, SpeechStarted).state.utteranceByteLength == Bytes(h.state.preRoll)
  {
  }

  /** The buffered audio of a turn stays under the cap in every run whose chunks are at most `limit` bytes exactly when
      `limit` is at most 240000: the pre-roll is copied in without applying the cap. */
  lemma CapHoldsExactlyUpTo(limit: nat)
    ensures (forall events :: Limited(events, limit)
                              ==> Play(events).state.utteranceByteLength <= 1440000)
            <==> limit <= 240000
  {
    hide Play, Limited, Oversized;
    if limit <= SAFE_CHUNK_BYTES {
      forall events | Limited(events, limit)
        ensures Play(events).state.utteranceByteLength <= MAX_UTTERANCE_BYTES
      {
        InvAlways(events);
        AcceptedWithin(events, limit);
        UtteranceWithinCap(Play(events), limit);
      }
    } else {
      OversizedBreaksCap(limit);
    }
  }

  // ---------- What the provider gets ----------

  function SentOf(out: seq<Output>): seq<Chunk> {
    if out == [] then []
    else
      var last := out[|out| - 1];
      SentOf(out[..|out| - 1]) + if last.ToProvider? then [last.chunk] else []
  }

  lemma {:induction false} SentOfConcat(a: seq<Output>, b: seq<Output>)
    ensures SentOf(a + b) == SentOf(a) + SentOf(b)
    decreases |b|
  {
    if b == [] {
      assert a + b == a;
    } else {
      SentOfConcat(a, b[..|b| - 1]);
      assert (a + b)[..|a + b| - 1] == a + b[..|b| - 1];
    }
  }

  lemma {:induction false} SentOfForward(s: State, chunks: seq<Chunk>)
    requires s.attached
    ensures SentOf(Forward(s, chunks)) == chunks
  {
    if chunks != [] {
      SentOfForward(s, chunks[..|chunks| - 1]);
      assert Forward(s, chunks)[..|chunks| - 1] == Forward(s, chunks[..|chunks| - 1]);
    }
  }

  lemma {:induction false} NothingSent(out: seq<Output>)
    requires forall i :: 0 <= i < |out| ==> !out[i].ToProvider?
    ensures SentOf(out) == []
  {
    if out != [] { NothingSent(out[..|out| - 1]); }
  }

  ghost predicate Delivered(s: State, sent: seq<Chunk>, kept: seq<Chunk>, tornDown: bool) {
    && |s.connectBuffer| <= MAX_CONNECT_BUFFER_CHUNKS
    && (s.connected ==> s.attached && s.connectBuffer == [])
    && (if tornDown then sent <= kept && s.stopping && !s.attached else kept == sent + s.connectBuffer)
  }

  ghost predicate ProviderInv(h: History) {
    Delivered(h.state, SentOf(h.out), h.kept, h.tornDown)
  }

  lemma SendDelivers(h: History, chunk: Chunk)
    requires ProviderInv(h)
    ensures ProviderInv(ExtendSend(h, chunk))
  {
    var s := h.state;
    if Takes(s, chunk) {
      CappedOnlyCutsUtterance(s, chunk);
      BufferedKeepsStopping(s, chunk);
      hide Buffered, SentOf;
      var t := Buffered(s, chunk);
      SentOfConcat(h.out, DoSend(s, chunk).1);
      if t.connected {
        SentOfForward(t, [chunk]);
      } else {
        NothingSent([]);
      }
    }
  }

  lemma BufferedKeepsStopping(s: State, chunk: Chunk)
    ensures Buffered(s, chunk).stopping == s.stopping
  {
  }

  lemma ResultsDeliver(h: History, text: string, isFinal: bool, speechFinal: bool)
    requires ProviderInv(h)
    ensures ProviderInv(ExtendResults(h, text, isFinal, speechFinal))
  {
    hide SentOf, Join, Concat, Bytes;
    var more := DoResults(h.state, text, isFinal, speechFinal).1;
    SentOfConcat(h.out, more);
    NothingSent(more);
  }

  lemma OpenDelivers(h: History)
    requires ProviderInv(h)
    ensures ProviderInv(Extend(h, Open))
  {
    var s := h.state;
    SentOfConcat(h.out, Step(s, Open).1);
    if s.attached && !s.stopping { SentOfForward(s, s.connectBuffer); } else { NothingSent([]); }
    hide SentOf, Forward;
  }

  lemma OthersDeliver(h: History, e: Event)
    requires ProviderInv(h) && !e.Send? && !e.Open? && !e.Results?
    ensures ProviderInv(Extend(h, e))
  {
    NothingSent([]);
    SentOfConcat(h.out, []);
    hide SentOf, Bytes;
  }

  lemma {:induction false} ProviderInvAlways(events: seq<Event>)
    ensures ProviderInv(Play(events))
  {
    if events != [] {
      var h, e := Play(events[..|events| - 1]), events[|events| - 1];
      ProviderInvAlways(events[..|events| - 1]);
      assert Play(events) == Extend(h, e);
      hide ProviderInv, Play;
      match e
      case Send(chunk) => SendDelivers(h, chunk);
      case Results(text, isFinal, speechFinal) => ResultsDeliver(h, text, isFinal, speechFinal);
      case Open => OpenDelivers(h);
      case _ => OthersDeliver(h, e);
    }
  }

  /** Until the session is torn down, what was sent followed by what waits is every chunk taken, in order and once,
      except those that arrived while a hundred were already waiting for a connection. */
  lemma ProviderGetsKeptChunksInOrder(events: seq<Event>)
    ensures var h, sent := Play(events), SentOf(Run(events).1);
            && sent <= h.kept
            && (!h.tornDown ==> h.kept == sent + h.state.connectBuffer)
            && (h.state.connected ==> sent == h.kept)
  {
    hide Play, Run, SentOf;
    ProviderInvAlways(events);
    PlayIsRun(events);
  }
}
