/** The per-contributor audio budget: a one-second window of bytes in front of each session. */
module AudioBudget {
  import opened TurnAssembly
  import opened TurnTheorems
  import opened ProviderTheorems

  const MAX_CHUNK_BYTES := 64 * 1024
  const WINDOW_BYTES := 96 * 1024
  const WINDOW_MS := 1000

  datatype Window = Window(startedAt: int, bytes: nat)

  datatype Arrival = Arrival(size: nat, at: int)

  // ---------- Specification ----------

  /** The window an accepted-size chunk is counted in. */
  function Current(w: Window, now: int): Window {
    if now - w.startedAt >= WINDOW_MS then Window(now, 0) else w
  }

  function Admit(w: Window, a: Arrival): (Window, bool) {
    if a.size > MAX_CHUNK_BYTES then (w, false)
    else
      var c := Current(w, a.at);
      var bytes := c.bytes + a.size;
      (c.(bytes := bytes), bytes <= WINDOW_BYTES)
  }

  function After(w: Window, arrivals: seq<Arrival>): Window
    decreases |arrivals|
  {
    if arrivals == [] then w else After(Admit(w, arrivals[0]).0, arrivals[1..])
  }

  /** How many bytes of these arrivals are handed to the session. */
  function Forwarded(w: Window, arrivals: seq<Arrival>): nat
    decreases |arrivals|
  {
    if arrivals == [] then 0
    else
      var r := Admit(w, arrivals[0]);
      (if r.1 then arrivals[0].size else 0) + Forwarded(r.0, arrivals[1..])
  }

  /** The clock does not run backwards, and stays between the two times. */
  ghost predicate Ordered(arrivals: seq<Arrival>, first: int, last: int)
    decreases |arrivals|
  {
    if arrivals == [] then first <= last
    else first <= arrivals[0].at && Ordered(arrivals[1..], arrivals[0].at, last)
  }

  // ---------- The contributors ----------

  class ActiveContributor {
    const session: DeepgramSession
    var audioWindowStartedAt: int
    var audioWindowBytes: nat

    constructor (session: DeepgramSession, now: int)
      ensures this.session == session && Budget() == Window(now, 0)
    {
      this.session := session;
      audioWindowStartedAt, audioWindowBytes := now, 0;
    }

    ghost function Budget(): Window
      reads this
    {
      Window(audioWindowStartedAt, audioWindowBytes)
    }
  }

  function Touched(sessions: map<string, ActiveContributor>, socketId: string): set<object> {
    if socketId in sessions then {sessions[socketId], sessions[socketId].session} else {}
  }

  method SendContributorAudio(sessions: map<string, ActiveContributor>, socketId: string, audio: Chunk, now: int)
    returns (sent: bool, out: seq<Output>)
    modifies Touched(sessions, socketId)
    ensures socketId !in sessions ==> !sent && out == []
    ensures socketId in sessions ==>
      var c := sessions[socketId];
      (c.Budget(), sent) == Admit(old(c.Budget()), Arrival(|audio|, now))
      && (c.session.View(), out)
         == if sent then Step(old(c.session.View()), Send(audio)) else (old(c.session.View()), [])
  {
    out := [];
    if socketId !in sessions { return false, []; }
    var active := sessions[socketId];
    if |audio| > MAX_CHUNK_BYTES { return false, []; }
    if now - active.audioWindowStartedAt >= WINDOW_MS {
      active.audioWindowStartedAt := now;
      active.audioWindowBytes := 0;
    }
    active.audioWindowBytes := active.audioWindowBytes + |audio|;
    if active.audioWindowBytes > WINDOW_BYTES { return false, []; }
    out := active.session.SendChunk(audio);
    sent := true;
  }

  // ---------- How much gets through ----------

  function Remaining(w: Window): nat {
    if w.bytes <= WINDOW_BYTES then WINDOW_BYTES - w.bytes else 0
  }

  function Windows(ms: int): int { ms / WINDOW_MS }

  function WindowsUp(ms: int): int { (ms + WINDOW_MS - 1) / WINDOW_MS }

  /** A window opened at `startedAt` lets through what it has left and one budget for each full second after it. */
  lemma {:induction false} WindowBound(w: Window, arrivals: seq<Arrival>, first: int, last: int)
    requires w.startedAt <= first && Ordered(arrivals, first, last)
    ensures Forwarded(w, arrivals) <= Remaining(w) + WINDOW_BYTES * Windows(last - w.startedAt)
    ensures first <= last
    decreases |arrivals|
  {
    if arrivals != [] {
      var a := arrivals[0];
      var next := Admit(w, a).0;
      WindowBound(next, arrivals[1..], a.at, last);
      if a.at - w.startedAt >= WINDOW_MS {
        WindowsStep(last, a.at, w.startedAt);
      }
    }
  }

  lemma WindowsStep(last: int, later: int, earlier: int)
    requires earlier + WINDOW_MS <= later <= last
    ensures WINDOW_BYTES * Windows(last - earlier) >= WINDOW_BYTES * Windows(last - later) + WINDOW_BYTES
  {
    assert Windows(last - earlier) >= Windows(last - later) + 1;
  }

  /** Once a window is over, what it counted is forgotten. */
  lemma {:induction false} ExpiredBound(w: Window, arrivals: seq<Arrival>, first: int, last: int)
    requires w.startedAt + WINDOW_MS <= first && Ordered(arrivals, first, last)
    ensures Forwarded(w, arrivals) <= WINDOW_BYTES * (Windows(last - first) + 1)
    decreases |arrivals|
  {
    WindowBound(w, arrivals, first, last);
    if arrivals != [] {
      var a := arrivals[0];
      if a.size > MAX_CHUNK_BYTES {
        ExpiredBound(w, arrivals[1..], a.at, last);
      } else {
        WindowBound(Admit(w, a).0, arrivals[1..], a.at, last);
      }
      assert Windows(last - a.at) <= Windows(last - first);
    }
  }

  lemma {:induction false} WindowOpensInTime(w: Window, arrivals: seq<Arrival>, first: int, last: int)
    requires w.startedAt <= first && Ordered(arrivals, first, last)
    ensures After(w, arrivals).startedAt <= last
    decreases |arrivals|
  {
    if arrivals != [] { WindowOpensInTime(Admit(w, arrivals[0]).0, arrivals[1..], arrivals[0].at, last); }
  }

  /** From the start of a contribution: one budget, and one more for every full second. */
  lemma BudgetFromStart(start: int, arrivals: seq<Arrival>, ms: nat)
    requires Ordered(arrivals, start, start + ms)
    ensures Forwarded(Window(start, 0), arrivals) <= 98304 * (ms / 1000 + 1)
  {
    WindowBound(Window(start, 0), arrivals, start, start + ms);
  }

  /** Over any stretch of time, whatever came before it: one budget for every second begun, and one more. */
  lemma BudgetOverAnyInterval(start: int, before: seq<Arrival>, during: seq<Arrival>, first: int, ms: nat)
    requires Ordered(before, start, first) && Ordered(during, first, first + ms)
    ensures Forwarded(After(Window(start, 0), before), during) <= 98304 * ((ms + 999) / 1000 + 1)
    ensures Forwarded(After(Window(start, 0), before), during) <= 98304 * (ms / 1000 + 2)
  {
    var w := After(Window(start, 0), before);
    WindowOpensInTime(Window(start, 0), before, start, first);
    if w.startedAt + WINDOW_MS <= first {
      ExpiredBound(w, during, first, first + ms);
      assert Windows(ms) <= WindowsUp(ms);
    } else {
      WindowBound(w, during, first, first + ms);
      assert Windows(first + ms - w.startedAt) <= WindowsUp(ms);
    }
  }

  // ---------- The bounds are attained ----------

  function Burst(at: int): seq<Arrival> { [Arrival(64 * 1024, at), Arrival(32 * 1024, at)] }

  function Bursts(at: int, n: nat): seq<Arrival>
    decreases n
  {
    if n == 0 then [] else Burst(at) + Bursts(at + WINDOW_MS, n - 1)
  }

  lemma BurstForwarded(w: Window, at: int, rest: seq<Arrival>)
    requires Current(w, at).bytes == 0
    ensures Forwarded(w, Burst(at) + rest)
            == WINDOW_BYTES + Forwarded(Window(Current(w, at).startedAt, WINDOW_BYTES), rest)
  {
    var all := Burst(at) + rest;
    var w1 := Admit(w, all[0]).0;
    assert all[1..] == [Arrival(32 * 1024, at)] + rest;
    assert all[1..][1..] == rest;
    assert Forwarded(w, all) == 64 * 1024 + Forwarded(w1, all[1..]);
    assert Forwarded(w1, all[1..]) == 32 * 1024 + Forwarded(Admit(w1, all[1]).0, rest);
  }

  lemma {:induction false} BurstsForwarded(w: Window, at: int, n: nat)
    requires Current(w, at).bytes == 0 && Current(w, at).startedAt <= at
    ensures Forwarded(w, Bursts(at, n)) == n * WINDOW_BYTES
    decreases n
  {
    if n > 0 {
      BurstForwarded(w, at, Bursts(at + WINDOW_MS, n - 1));
      BurstsForwarded(Window(Current(w, at).startedAt, WINDOW_BYTES), at + WINDOW_MS, n - 1);
    }
  }

  lemma {:induction false} BurstsOrdered(at: int, n: nat, first: int, last: int)
    requires first <= at && first <= last && (n > 0 ==> at + (n - 1) * WINDOW_MS <= last)
    ensures Ordered(Bursts(at, n), first, last)
    decreases n
  {
    if n > 0 {
      var all := Bursts(at, n);
      BurstsOrdered(at + WINDOW_MS, n - 1, at, last);
      assert all[1..] == [Arrival(32 * 1024, at)] + Bursts(at + WINDOW_MS, n - 1);
      assert all[1..][1..] == Bursts(at + WINDOW_MS, n - 1);
    }
  }

  lemma StartBoundIsAttained(start: int, ms: nat)
    ensures exists arrivals ::
      Ordered(arrivals, start, start + ms) && Forwarded(Window(start, 0), arrivals) == 98304 * (ms / 1000 + 1)
  {
    BurstsForwarded(Window(start, 0), start, ms / 1000 + 1);
    BurstsOrdered(start, ms / 1000 + 1, start, start + ms);
  }

  /** No smaller number would do, for any length of interval. */
  lemma IntervalBoundIsAttained(ms: nat)
    ensures exists start, before, during, first ::
      && Ordered(before, start, first) && Ordered(during, first, first + ms)
      && Forwarded(After(Window(start, 0), before), during) == 98304 * ((ms + 999) / 1000 + 1)
  {
    var first, n: nat := WINDOW_MS - 1, WindowsUp(ms);
    var rest := Bursts(WINDOW_MS, n);
    var during := Burst(first) + rest;
    BurstForwarded(Window(0, 0), first, rest);
    BurstsForwarded(Window(0, WINDOW_BYTES), WINDOW_MS, n);
    BurstsOrdered(WINDOW_MS, n, first, first + ms);
    assert during[1..] == [Arrival(32 * 1024, first)] + rest;
    assert during[1..][1..] == rest;
    assert After(Window(0, 0), []) == Window(0, 0);
    assert Ordered([], 0, first) && Ordered(during, first, first + ms);
  }

  // ---------- Which arrivals get through ----------

  /** When the running window was opened, and how many arrivals came before the one that opened it: a chunk of at most
      65536 bytes opens a window if the one before it was opened a second or more ago. */
  function Opening(start: int, arrivals: seq<Arrival>): (r: (int, nat))
    ensures r.1 <= |arrivals|
  {
    if arrivals == [] then (start, 0)
    else
      var n := |arrivals| - 1;
      var before, a := Opening(start, arrivals[..n]), arrivals[n];
      if a.size <= 65536 && a.at - before.0 >= 1000 then (a.at, n) else before
  }

  /** What was offered in chunks of at most 65536 bytes, handed on or not. */
  function Offered(arrivals: seq<Arrival>): nat {
    if arrivals == [] then 0
    else
      var a := arrivals[|arrivals| - 1];
      Offered(arrivals[..|arrivals| - 1]) + if a.size <= 65536 then a.size else 0
  }

  /** The last of these arrivals gets through: it has at most 65536 bytes, and with it no more than 98304 bytes were offered
      in its window. */
  predicate GetsThrough(start: int, arrivals: seq<Arrival>)
    requires arrivals != []
  {
    arrivals[|arrivals| - 1].size <= 65536 && Offered(arrivals[Opening(start, arrivals).1..]) <= 98304
  }

  function Through(start: int, arrivals: seq<Arrival>): nat {
    if arrivals == [] then 0
    else
      var n := |arrivals| - 1;
      Through(start, arrivals[..n]) + if GetsThrough(start, arrivals) then arrivals[n].size else 0
  }

  lemma OfferedNext(arrivals: seq<Arrival>, a: Arrival)
    ensures Offered(arrivals + [a]) == Offered(arrivals) + if a.size <= 65536 then a.size else 0
  {
    assert (arrivals + [a])[..|arrivals|] == arrivals;
  }

  lemma OpeningNext(start: int, arrivals: seq<Arrival>, a: Arrival)
    ensures Opening(start, arrivals + [a])
            == if a.size <= 65536 && a.at - Opening(start, arrivals).0 >= 1000 then (a.at, |arrivals|)
               else Opening(start, arrivals)
  {
    assert (arrivals + [a])[..|arrivals|] == arrivals;
  }

  lemma {:induction false} AfterNext(w: Window, arrivals: seq<Arrival>, a: Arrival)
    ensures After(w, arrivals + [a]) == Admit(After(w, arrivals), a).0
    ensures Forwarded(w, arrivals + [a])
            == Forwarded(w, arrivals) + if Admit(After(w, arrivals), a).1 then a.size else 0
    decreases |arrivals|
  {
    var all := arrivals + [a];
    hide Admit;
    if arrivals == [] {
      assert all[1..] == [];
    } else {
      assert all[0] == arrivals[0] && all[1..] == arrivals[1..] + [a];
      AfterNext(Admit(w, arrivals[0]).0, arrivals[1..], a);
    }
  }

  /** The window counts everything offered since it was opened; what comes next gets through by that count alone. */
  lemma {:induction false} WindowIsWhatWasOffered(start: int, arrivals: seq<Arrival>)
    ensures After(Window(start, 0), arrivals)
            == Window(Opening(start, arrivals).0, Offered(arrivals[Opening(start, arrivals).1..]))
    ensures arrivals != [] ==>
      var n := |arrivals| - 1;
      Admit(After(Window(start, 0), arrivals[..n]), arrivals[n]).1 <==> GetsThrough(start, arrivals)
  {
    if arrivals != [] {
      var n := |arrivals| - 1;
      var front, a := arrivals[..n], arrivals[n];
      assert arrivals == front + [a];
      WindowIsWhatWasOffered(start, front);
      OpeningNext(start, front, a);
      OfferedNext(front[Opening(start, front).1..], a);
      assert arrivals[Opening(start, front).1..] == front[Opening(start, front).1..] + [a];
      OfferedNext([], a);
      assert arrivals[n..] == [] + [a];
      AfterNext(Window(start, 0), front, a);
      hide After, Forwarded, Opening, Offered;
      assert Offered([]) == 0 by { NothingOffered(); }
    }
  }

  lemma NothingOffered()
    ensures Offered([]) == 0
  {
  }

  /** Exactly the arrivals that fit their window by size and time get through, whatever was handed on before them. */
  lemma {:induction false} ForwardedExactly(start: int, arrivals: seq<Arrival>)
    ensures Forwarded(Window(start, 0), arrivals) == Through(start, arrivals)
  {
    hide Admit, After, GetsThrough;
    if arrivals != [] {
      var n := |arrivals| - 1;
      assert arrivals == arrivals[..n] + [arrivals[n]];
      ForwardedExactly(start, arrivals[..n]);
      WindowIsWhatWasOffered(start, arrivals);
      AfterNext(Window(start, 0), arrivals[..n], arrivals[n]);
      hide Forwarded;
    }
  }

  // ---------- The session behind the budget ----------

  /** What happens to one contributor: audio from the socket, or anything else the session sees. */
  datatype Call = Audio(chunk: Chunk, at: int) | Other(event: Event)

  function Admitted(w: Window, calls: seq<Call>): seq<Event>
    decreases |calls|
  {
    if calls == [] then []
    else match calls[0]
      case Audio(chunk, at) =>
        var r := Admit(w, Arrival(|chunk|, at));
        (if r.1 then [Send(chunk)] else []) + Admitted(r.0, calls[1..])
      case Other(event) => (if event.Send? then [] else [event]) + Admitted(w, calls[1..])
  }

  lemma {:induction false} AdmittedIsLimited(w: Window, calls: seq<Call>)
    ensures Limited(Admitted(w, calls), MAX_CHUNK_BYTES)
    decreases |calls|
  {
    if calls != [] {
      var next := if calls[0].Audio? then Admit(w, Arrival(|calls[0].chunk|, calls[0].at)).0 else w;
      AdmittedIsLimited(next, calls[1..]);
    }
  }

  /** Whatever a contributor sends, and whenever, a turn's buffered audio stays under the cap after every step. */
  lemma ContributorStaysUnderCap(w: Window, calls: seq<Call>)
    ensures var s := Play(Admitted(w, calls)).state;
            s.utteranceByteLength == Bytes(s.utteranceChunks) <= 1440000
  {
    hide Play, Admitted, Limited, Inv, Bytes;
    var events := Admitted(w, calls);
    AdmittedIsLimited(w, calls);
    InvAlways(events);
    AcceptedWithin(events, MAX_CHUNK_BYTES);
    UtteranceWithinCap(Play(events), MAX_CHUNK_BYTES);
  }
}
