/** One contributor's speech turns: pre-roll, the capped utterance buffer, and the stream to the provider. */
module TurnAssembly {

  type Chunk = seq<bv8>

  const MAX_CONNECT_BUFFER_CHUNKS := 100
  const MAX_UTTERANCE_BYTES := 16000 * 2 * 45
  const PRE_ROLL_CHUNKS := 6

  datatype State = State(
    attached: bool, connected: bool, stopping: bool,
    connectBuffer: seq<Chunk>, preRoll: seq<Chunk>,
    utteranceChunks: seq<Chunk>, utteranceByteLength: int,
    finalParts: seq<string>, speechActive: bool, utteranceNumber: nat)

  const NEW_SESSION := State(false, false, false, [], [], [], 0, [], false, 1)

  /** `Attach` is the provider connection becoming known; `text` of a result is already trimmed.
      Stopping happens in two steps, with messages possible in between. */
  datatype Event =
    | Attach
    | Open
    | Close
    | Send(chunk: Chunk)
    | SpeechStarted
    | Results(text: string, isFinal: bool, speechFinal: bool)
    | StopRequested
    | StopCompleted

  datatype Output =
    | ToProvider(chunk: Chunk)
    | Interim(number: nat, text: string)
    | Turn(number: nat, text: string, audio: Chunk)

  // ---------- Specification ----------

  function Bytes(chunks: seq<Chunk>): nat {
    if chunks == [] then 0 else Bytes(chunks[..|chunks| - 1]) + |chunks[|chunks| - 1]|
  }

  function Concat(chunks: seq<Chunk>): Chunk {
    if chunks == [] then [] else Concat(chunks[..|chunks| - 1]) + chunks[|chunks| - 1]
  }

  function Join(parts: seq<string>): string {
    if parts == [] then ""
    else if |parts| == 1 then parts[0]
    else Join(parts[..|parts| - 1]) + " " + parts[|parts| - 1]
  }

  function BeginSpeech(s: State): State {
    if s.speechActive then s
    else s.(speechActive := true, utteranceChunks := s.preRoll, utteranceByteLength := Bytes(s.preRoll), finalParts := [])
  }

  function Shifted(chunks: seq<Chunk>): seq<Chunk> {
    if |chunks| > PRE_ROLL_CHUNKS then chunks[1..] else chunks
  }

  /** How many chunks the cap drops from the front: as few as possible, and never the last. */
  function Excess(chunks: seq<Chunk>, bytes: int): (drop: nat)
    ensures drop <= |chunks|
  {
    if bytes > MAX_UTTERANCE_BYTES && |chunks| > 1 then 1 + Excess(chunks[1..], bytes - |chunks[0]|) else 0
  }

  function Capped(s: State): State {
    var drop := Excess(s.utteranceChunks, s.utteranceByteLength);
    s.(utteranceChunks := s.utteranceChunks[drop..],
       utteranceByteLength := s.utteranceByteLength - Bytes(s.utteranceChunks[..drop]))
  }

  predicate Takes(s: State, chunk: Chunk) { !s.stopping && chunk != [] }

  function Buffered(s: State, chunk: Chunk): State {
    var s1 := s.(preRoll := Shifted(s.preRoll + [chunk]));
    if s.speechActive
    then Capped(s1.(utteranceChunks := s.utteranceChunks + [chunk],
                    utteranceByteLength := s.utteranceByteLength + |chunk|))
    else s1
  }

  function Forward(s: State, chunks: seq<Chunk>): seq<Output> {
    if !s.attached then [] else seq(|chunks|, i requires 0 <= i < |chunks| => ToProvider(chunks[i]))
  }

  function DoSend(s: State, chunk: Chunk): (State, seq<Output>) {
    if !Takes(s, chunk) then (s, [])
    else
      var s1 := Buffered(s, chunk);
      if s1.connected then (s1, Forward(s1, [chunk]))
      else if |s1.connectBuffer| < MAX_CONNECT_BUFFER_CHUNKS then (s1.(connectBuffer := s1.connectBuffer + [chunk]), [])
      else (s1, [])
  }

  /** The parts after a result: a final text is added unless it repeats the last one. */
  function Parts(s: State, text: string, isFinal: bool): seq<string> {
    if text != "" && isFinal && (s.finalParts == [] || s.finalParts[|s.finalParts| - 1] != text)
    then s.finalParts + [text] else s.finalParts
  }

  /** The state once the text of a result is taken in. */
  function Heard(s: State, text: string, isFinal: bool): State {
    var s1 := if text != "" then BeginSpeech(s) else s;
    s1.(finalParts := Parts(s1, text, isFinal))
  }

  function Announced(s: State, text: string, isFinal: bool): seq<Output> {
    var live := Join(if isFinal || text == "" then s.finalParts else s.finalParts + [text]);
    if live == "" then [] else [Interim(s.utteranceNumber, live)]
  }

  function NextTurn(s: State): State {
    s.(utteranceNumber := s.utteranceNumber + 1, speechActive := false, utteranceChunks := [],
       utteranceByteLength := 0, finalParts := [], preRoll := [])
  }

  function DoResults(s: State, text: string, isFinal: bool, speechFinal: bool): (State, seq<Output>) {
    var heard := Heard(s, text, isFinal);
    var interim := Announced(heard, text, isFinal);
    if speechFinal && heard.finalParts != [] then
      (NextTurn(heard),
       interim + [Interim(heard.utteranceNumber, ""),
                  Turn(heard.utteranceNumber, Join(heard.finalParts), Concat(heard.utteranceChunks))])
    else (heard, interim)
  }

  function Step(s: State, e: Event): (State, seq<Output>) {
    match e
    case Attach => (if s.stopping then s else s.(attached := true), [])
    case Open =>
      if !s.attached || s.stopping then (s, [])
      else (s.(connected := true, connectBuffer := []), Forward(s, s.connectBuffer))
    case Close => (s.(connected := false), [])
    case Send(chunk) => DoSend(s, chunk)
    case SpeechStarted => (BeginSpeech(s), [])
    case Results(text, isFinal, speechFinal) => DoResults(s, text, isFinal, speechFinal)
    case StopRequested => (s.(stopping := true), [])
    case StopCompleted =>
      (if s.stopping && s.attached
       then s.(attached := false, connected := false, connectBuffer := [], preRoll := [], utteranceChunks := [],
               utteranceByteLength := 0)
       else s, [])
  }

  lemma BytesNext(chunks: seq<Chunk>, i: nat)
    requires i < |chunks|
    ensures Bytes(chunks[..i + 1]) == Bytes(chunks[..i]) + |chunks[i]|
  {
    assert chunks[..i + 1][..i] == chunks[..i];
  }

  lemma CappedOnlyCutsUtterance(s: State, chunk: Chunk)
    ensures var t := Buffered(s, chunk);
            t.connected == s.connected && t.attached == s.attached && t.connectBuffer == s.connectBuffer
  {
  }

  // ---------- The session ----------

  class DeepgramSession {
    var attached: bool
    var connected: bool
    var stopping: bool
    var connectBuffer: seq<Chunk>
    var preRoll: seq<Chunk>
    var utteranceChunks: seq<Chunk>
    var utteranceByteLength: int
    var finalParts: seq<string>
    var speechActive: bool
    var utteranceNumber: nat

    ghost function View(): State
      reads this
    {
      State(attached, connected, stopping, connectBuffer, preRoll, utteranceChunks, utteranceByteLength,
            finalParts, speechActive, utteranceNumber)
    }

    constructor ()
      ensures View() == NEW_SESSION
    {
      attached, connected, stopping := false, false, false;
      connectBuffer, preRoll, utteranceChunks, utteranceByteLength := [], [], [], 0;
      finalParts, speechActive, utteranceNumber := [], false, 1;
    }

    method OnOpen() returns (out: seq<Output>)
      modifies this
      ensures (View(), out) == Step(old(View()), Open)
    {
      out := [];
      if !attached || stopping { return; }
      connected := true;
      for i := 0 to |connectBuffer|
        invariant out == Forward(View(), connectBuffer[..i])
        invariant View() == old(View()).(connected := true)
      {
        out := out + [ToProvider(connectBuffer[i])];
      }
      assert connectBuffer[..|connectBuffer|] == connectBuffer;
      connectBuffer := [];
    }

    method OnAttach()
      modifies this
      ensures View() == Step(old(View()), Attach).0
    {
      if !stopping { attached := true; }
    }

    method OnClose()
      modifies this
      ensures View() == Step(old(View()), Close).0
    {
      connected := false;
    }

    method RequestStop()
      modifies this
      ensures View() == Step(old(View()), StopRequested).0
    {
      stopping := true;
    }

    /** What is left of stopping once the provider has been given time to finish. */
    method CompleteStop()
      modifies this
      ensures View() == Step(old(View()), StopCompleted).0
    {
      if !stopping || !attached { return; }
      attached, connected := false, false;
      connectBuffer, preRoll, utteranceChunks, utteranceByteLength := [], [], [], 0;
    }

    method OnSpeechStarted()
      modifies this
      ensures View() == BeginSpeech(old(View()))
    {
      if speechActive { return; }
      var chunks := preRoll;
      var sum := 0;
      for i := 0 to |chunks|
        invariant View() == old(View())
        invariant sum == Bytes(chunks[..i])
      {
        BytesNext(chunks, i);
        sum := sum + |chunks[i]|;
      }
      assert chunks[..|chunks|] == chunks;
      speechActive := true;
      utteranceChunks := chunks;
      utteranceByteLength := sum;
      finalParts := [];
    }

    method OnResults(text: string, isFinal: bool, speechFinal: bool) returns (out: seq<Output>)
      modifies this
      ensures (View(), out) == Step(old(View()), Results(text, isFinal, speechFinal))
    {
      hide Concat, Join, Bytes;
      out := [];
      if text != "" && !speechActive { OnSpeechStarted(); }
      if text != "" && isFinal {
        if finalParts == [] || finalParts[|finalParts| - 1] != text { finalParts := finalParts + [text]; }
      }
      ghost var heard := View();
      assert heard == Heard(old(View()), text, isFinal);
      hide Heard;
      var liveText := Join(if isFinal || text == "" then finalParts else finalParts + [text]);
      if liveText != "" { out := [Interim(utteranceNumber, liveText)]; }
      assert out == Announced(heard, text, isFinal);
      hide Announced;
      if speechFinal && |finalParts| > 0 {
        out := out + [Interim(utteranceNumber, ""), Turn(utteranceNumber, Join(finalParts), Concat(utteranceChunks))];
        utteranceNumber := utteranceNumber + 1;
        speechActive := false;
        utteranceChunks := [];
        utteranceByteLength := 0;
        finalParts := [];
        preRoll := [];
      }
    }

    /** Drops the oldest chunks of the utterance while it is over the cap. */
    method DropExcess()
      modifies `utteranceChunks, `utteranceByteLength
      ensures View() == Capped(old(View()))
    {
      ghost var chunks, bytes := utteranceChunks, utteranceByteLength;
      ghost var dropped: nat := 0;
      assert chunks[..0] == [] && Bytes([]) == 0;
      hide Bytes;
      while utteranceByteLength > MAX_UTTERANCE_BYTES && |utteranceChunks| > 1
        invariant dropped <= |chunks| && utteranceChunks == chunks[dropped..]
        invariant utteranceByteLength == bytes - Bytes(chunks[..dropped])
        invariant Excess(chunks, bytes) == dropped + Excess(utteranceChunks, utteranceByteLength)
        decreases |utteranceChunks|
      {
        BytesNext(chunks, dropped);
        utteranceByteLength := utteranceByteLength - |utteranceChunks[0]|;
        utteranceChunks := utteranceChunks[1..];
        dropped := dropped + 1;
      }
    }

    method SendChunk(chunk: Chunk) returns (out: seq<Output>)
      modifies this
      ensures (View(), out) == Step(old(View()), Send(chunk))
    {
      hide Capped;
      out := [];
      if stopping || |chunk| == 0 { return; }
      preRoll := preRoll + [chunk];
      if |preRoll| > PRE_ROLL_CHUNKS { preRoll := preRoll[1..]; }
      if speechActive {
        utteranceChunks := utteranceChunks + [chunk];
        utteranceByteLength := utteranceByteLength + |chunk|;
        DropExcess();
      }
      CappedOnlyCutsUtterance(old(View()), chunk);
      assert View() == Buffered(old(View()), chunk);
      if connected {
        if attached { out := [ToProvider(chunk)]; }
        assert out == Forward(View(), [chunk]);
      } else if |connectBuffer| < MAX_CONNECT_BUFFER_CHUNKS {
        connectBuffer := connectBuffer + [chunk];
      }
    }
  }
}
