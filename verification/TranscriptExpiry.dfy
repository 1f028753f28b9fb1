/** What becomes of a room's transcript once everybody has left. */
module TranscriptExpiry {
  import opened OrderedMap
  import opened RoomManager
  import opened Presence
  import opened PresenceTheorems

  predicate Empty(s: Server, roomId: string) { RoomOf(s.registry, roomId) == [] }

  ghost predicate LeavePendingIn(s: Server, roomId: string) {
    exists key :: key in s.pending && s.pending[key].roomId == roomId
  }

  /** Nobody in, no timer and no leave to come. */
  ghost predicate Unwatched(s: Server, roomId: string) {
    Empty(s, roomId) && roomId !in s.expiry && !LeavePendingIn(s, roomId)
  }

  /** A stored transcript that nothing will remove. */
  ghost predicate Stranded(s: Server, roomId: string) {
    roomId in s.sessions && Unwatched(s, roomId)
  }

  lemma JoinedRooms(g: Registry, roomId: string, socketId: string, user: User, r: string)
    ensures RoomOf(Add(g, roomId, socketId, user), r) == [] <==> RoomOf(g, r) == [] && r != roomId
  {
  }

  lemma LeftRooms(g: Registry, roomId: string, socketId: string, r: string)
    ensures r != roomId ==> RoomOf(Without(g, roomId, socketId), r) == RoomOf(g, r)
    ensures RoomOf(g, r) == [] ==> RoomOf(Without(g, roomId, socketId), r) == []
  {
    hide IndexOf;
    if r == roomId && RoomOf(g, r) == [] { assert Remove(RoomOf(g, r), socketId) == []; }
  }

  lemma MembersRoomIsOccupied(g: Registry, socketId: string)
    ensures var gone := FindMember(g, socketId); gone.Some? ==> RoomOf(g, gone.value.roomId) != []
  {
  }

  // ---------- An expiry timer needs an empty room ----------

  predicate TimersNeedEmptyRooms(s: Server) {
    forall r :: r in s.expiry ==> Empty(s, r)
  }

  lemma StepKeepsTimers(who: Directory, s: Server, e: Event)
    requires TimersNeedEmptyRooms(s)
    ensures TimersNeedEmptyRooms(Step(who, s, e).0)
  {
    hide Add, Without, FindMember, RosterRows, LeaveKey, Present;
    var s' := Step(who, s, e).0;
    forall r | r in s'.expiry ensures Empty(s', r) {
      match e
      case Join(socketId, roomId) => JoinedRooms(s.registry, roomId, socketId, who(socketId), r);
      case Leave(socketId) => TimersOutliveRemoval(s, socketId, r);
      case Drop(socketId) => TimersOutliveRemoval(s, socketId, r);
      case _ =>
    }
  }

  lemma TimersOutliveRemoval(s: Server, socketId: string, r: string)
    ensures var gone := FindMember(s.registry, socketId);
            gone.Some? && Empty(s, r) ==> RoomOf(Without(s.registry, gone.value.roomId, socketId), r) == []
  {
    var gone := FindMember(s.registry, socketId);
    if gone.Some? { LeftRooms(s.registry, gone.value.roomId, socketId, r); }
  }

  lemma {:induction false} TimersOnlyForEmptyRooms(who: Directory, s: Server, run: seq<Event>)
    requires TimersNeedEmptyRooms(s)
    ensures TimersNeedEmptyRooms(After(who, s, run))
    decreases |run|
  {
    hide Step, TimersNeedEmptyRooms;
    if run != [] {
      StepKeepsTimers(who, s, run[0]);
      TimersOnlyForEmptyRooms(who, Step(who, s, run[0]).0, run[1..]);
    }
  }

  /** Whatever happened before and happens next, and whatever the user ids, the transcript of an occupied room is never
      deleted. */
  lemma TranscriptOutlivesPresence(who: Directory, run: seq<Event>, e: Event, roomId: string)
    requires var s := After(who, EMPTY_SERVER, run); roomId in s.sessions && !Empty(s, roomId)
    ensures roomId in Step(who, After(who, EMPTY_SERVER, run), e).0.sessions
  {
    TimersOnlyForEmptyRooms(who, EMPTY_SERVER, run);
    hide After, Add, Without, FindMember, RosterRows, LeaveKey, Present;
  }

  // ---------- What strands a transcript, and what frees it ----------

  predicate Joins(e: Event, roomId: string) { e.Join? && e.roomId == roomId != "" }

  lemma PendingShrinks(s: Server, s': Server, r: string)
    requires forall k :: k in s'.pending && s'.pending[k].roomId == r ==> k in s.pending && s.pending[k] == s'.pending[k]
    ensures LeavePendingIn(s', r) ==> LeavePendingIn(s, r)
  {
  }

  lemma PendingStays(s: Server, s': Server, r: string)
    requires forall k :: k in s.pending && s.pending[k].roomId == r ==> k in s'.pending && s'.pending[k].roomId == r
    ensures LeavePendingIn(s, r) ==> LeavePendingIn(s', r)
  {
  }

  /** Nothing but a join helps a stranded transcript, whatever the user ids. */
  lemma StrandedStays(who: Directory, s: Server, e: Event, r: string)
    requires Stranded(s, r) && !Joins(e, r)
    ensures Stranded(Step(who, s, e).0, r)
  {
    var s' := Step(who, s, e).0;
    match e
    case Join(socketId, roomId) => JoinedRooms(s.registry, roomId, socketId, who(socketId), r);
    case Leave(socketId) =>
      MembersRoomIsOccupied(s.registry, socketId);
      TimersOutliveRemoval(s, socketId, r);
    case Drop(socketId) =>
      MembersRoomIsOccupied(s.registry, socketId);
      TimersOutliveRemoval(s, socketId, r);
    case _ =>
  }

  lemma JoinWatches(who: Directory, s: Server, e: Event, r: string)
    requires Joins(e, r)
    ensures !Empty(Step(who, s, e).0, r)
  {
    JoinedRooms(s.registry, r, e.socketId, who(e.socketId), r);
  }

  lemma JoinKeepsWatch(who: SafeDirectory, s: Server, socketId: string, roomId: string, r: string)
    requires Inv(who, s) && !Stranded(s, r) && roomId != ""
    ensures !Stranded(DoJoin(s, who(socketId), socketId, roomId).0, r)
  {
    var s' := DoJoin(s, who(socketId), socketId, roomId).0;
    KeyIsPending(who, s, roomId, socketId);
    JoinedRooms(s.registry, roomId, socketId, who(socketId), r);
    hide Safe, Inv, Add, RosterRows, LeaveKey;
    if r != roomId { PendingStays(s, s', r); }
  }

  lemma LeaveKeepsWatch(who: SafeDirectory, s: Server, socketId: string, r: string)
    requires Inv(who, s) && socketId in s.registry.socketRoom && !Stranded(s, r)
    ensures !Stranded(DoLeave(s, socketId, Removed(s.registry.socketRoom[socketId], who(socketId))).0, r)
  {
    var roomId, user := s.registry.socketRoom[socketId], who(socketId);
    var s' := DoLeave(s, socketId, Removed(roomId, user)).0;
    hide Safe;
    LeaveStatus(who, s, socketId, roomId, user.id);
    PresentIsNotPending(who, s, roomId, socketId);
    LeftRooms(s.registry, roomId, socketId, r);
    hide Inv, Without, LeaveKey, Present, LeavePendingIn;
    assert s'.pending == s.pending;
    PendingStays(s, s', r);
  }

  lemma DropKeepsWatch(who: SafeDirectory, s: Server, socketId: string, r: string)
    requires Inv(who, s) && socketId in s.registry.socketRoom && !Stranded(s, r)
    ensures !Stranded(DoDrop(s, socketId, Removed(s.registry.socketRoom[socketId], who(socketId))), r)
  {
    var roomId, user := s.registry.socketRoom[socketId], who(socketId);
    var s' := DoDrop(s, socketId, Removed(roomId, user));
    hide Safe;
    LeaveStatus(who, s, socketId, roomId, user.id);
    PresentIsNotPending(who, s, roomId, socketId);
    LeftRooms(s.registry, roomId, socketId, r);
    var key := LeaveKey(roomId, user.id);
    assert Empty(s', roomId) ==> key in s'.pending && s'.pending[key].roomId == roomId;
    hide Inv, Without, LeaveKey, Present;
    if r != roomId { PendingStays(s, s', r); }
  }

  lemma GraceOverKeepsWatch(s: Server, key: string, r: string)
    requires key in s.pending && !Stranded(s, r)
    ensures !Stranded(DoGraceOver(s, key).0, r)
  {
    hide Present;
    if s.pending[key].roomId != r { PendingStays(s, DoGraceOver(s, key).0, r); }
  }

  lemma TouchKeepsWatch(who: Directory, s: Server, socketId: string, r: string)
    requires Inv(who, s) && socketId in s.registry.socketRoom && !Stranded(s, r)
    ensures !Stranded(s.(sessions := s.sessions + {s.registry.socketRoom[socketId]}), r)
  {
    assert Located(s.registry, socketId);
    PendingStays(s, s.(sessions := s.sessions + {s.registry.socketRoom[socketId]}), r);
  }

  /** With ids that do not collide, no step strands a transcript. */
  lemma StepKeepsWatch(who: SafeDirectory, s: Server, e: Event, r: string)
    requires Inv(who, s) && !Stranded(s, r)
    ensures !Stranded(Step(who, s, e).0, r)
  {
    hide Safe, DoJoin, DoLeave, DoDrop, DoGraceOver;
    match e
    case Join(socketId, roomId) =>
      if roomId != "" { JoinKeepsWatch(who, s, socketId, roomId, r); }
    case Leave(socketId) =>
      FoundIn(who, s, socketId);
      if socketId in s.registry.socketRoom { LeaveKeepsWatch(who, s, socketId, r); }
    case Drop(socketId) =>
      var d := Disconnected(s, socketId);
      FoundIn(who, s, socketId);
      SameNews(who, s, d, "", "");
      PendingStays(s, d, r);
      if socketId in s.registry.socketRoom { DropKeepsWatch(who, d, socketId, r); }
    case GraceOver(key) =>
      if key in s.pending { GraceOverKeepsWatch(s, key, r); }
    case Expire(roomId) =>
      PendingStays(s, Step(who, s, e).0, r);
    case Touch(socketId) =>
      if socketId in s.registry.socketRoom { TouchKeepsWatch(who, s, socketId, r); }
  }

  lemma StrandedChange(who: SafeDirectory, s: Server, e: Event, r: string)
    requires Inv(who, s)
    ensures Stranded(Step(who, s, e).0, r) <==> Stranded(s, r) && !Joins(e, r)
  {
    hide Safe, Step;
    if Joins(e, r) { JoinWatches(who, s, e, r); }
    else if Stranded(s, r) { StrandedStays(who, s, e, r); }
    else { StepKeepsWatch(who, s, e, r); }
  }

  // ---------- Exactly when every transcript of an empty room is on its way out ----------

  ghost predicate NeverStrands(who: Directory) {
    forall run, r :: r in After(who, EMPTY_SERVER, run).sessions ==> !Stranded(After(who, EMPTY_SERVER, run), r)
  }

  lemma {:induction false} ExpiryFollowsPresence(who: SafeDirectory, s: Server, run: seq<Event>, r: string)
    requires Inv(who, s) && !Stranded(s, r)
    ensures !Stranded(After(who, s, run), r)
    decreases |run|
  {
    hide Safe, Inv, Stranded, Step;
    if run != [] {
      StepNews(who, s, run[0], "", "");
      StepKeepsWatch(who, s, run[0], r);
      ExpiryFollowsPresence(who, Step(who, s, run[0]).0, run[1..], r);
    }
  }

  /** `b` joins while the leave of `a` is pending under the same key: the leave that would have started the expiry of
      room "r" is gone. */
  function ForgottenLeave(who: Directory, a: string, b: string): seq<Event> {
    [Join(a, "r"), Drop(a)] + [Join(b, SecondRoom(who, a, b))]
  }

  lemma {:induction false} AfterAppend(who: Directory, s: Server, run: seq<Event>, e: Event)
    ensures After(who, s, run + [e]) == Step(who, After(who, s, run), e).0
    decreases |run|
  {
    hide Step;
    if run == [] {
      assert run + [e] == [e];
    } else {
      assert (run + [e])[1..] == run[1..] + [e];
      AfterAppend(who, Step(who, s, run[0]).0, run[1..], e);
    }
  }

  lemma JoinThenDrop(who: Directory, a: string)
    ensures var s := After(who, EMPTY_SERVER, [Join(a, "r"), Drop(a)]);
            && s.registry == Registry(map[], map[]) && s.sessions == {"r"} && s.expiry == {}
            && s.pending == map[LeaveKey("r", who(a).id) := PendingLeave("r", who(a))]
  {
    Alone(who, EMPTY_SERVER, a, "r");
    AloneLeaves(who(a), a, "r");
    EmittedTwo(who, EMPTY_SERVER, Join(a, "r"), Drop(a));
    hide Without, FindMember, Add, Present, RosterRows, Others, LeaveKey;
  }

  lemma ForgottenLeaveStrands(who: Directory, a: string, b: string)
    requires Collides(who(a).id, who(b).id)
    ensures Stranded(After(who, EMPTY_SERVER, ForgottenLeave(who, a, b)), "r")
  {
    var q := SecondRoom(who, a, b);
    CollidingKeys(who, a, b);
    JoinThenDrop(who, a);
    AfterAppend(who, EMPTY_SERVER, [Join(a, "r"), Drop(a)], Join(b, q));
    hide After, SecondRoom, LeaveKey, Collides, RosterRows, Present;
  }

  /** A stored transcript of an empty room always has a timer or a pending leave that will set one, in every run,
      exactly when no two user ids collide. */
  lemma ExpiryFollowsExactlyWhenSafe(who: Directory)
    ensures NeverStrands(who) <==> Safe(who)
  {
    if Safe(who) {
      SafeNeverStrands(who);
    } else {
      var a, b :| Collides(who(a).id, who(b).id);
      ForgottenLeaveStrands(who, a, b);
      hide After;
      assert Stranded(After(who, EMPTY_SERVER, ForgottenLeave(who, a, b)), "r");
    }
  }

  lemma SafeNeverStrands(who: SafeDirectory)
    ensures NeverStrands(who)
  {
    hide After, Safe;
    forall run, r ensures !Stranded(After(who, EMPTY_SERVER, run), r) {
      ExpiryFollowsPresence(who, EMPTY_SERVER, run, r);
    }
  }

  // ---------- Transcript writes that arrive late ----------

  /** A room's events, and writes to a room's transcript whoever is in it: a finished turn or a revision. */
  datatype Happening = Served(event: Event) | Write(roomId: string)

  function Apply(who: Directory, s: Server, h: Happening): Server {
    match h
    case Served(e) => Step(who, s, e).0
    case Write(roomId) => s.(sessions := s.sessions + {roomId})
  }

  function Reached(who: Directory, run: seq<Happening>): Server {
    if run == [] then EMPTY_SERVER else Apply(who, Reached(who, run[..|run| - 1]), run[|run| - 1])
  }

  predicate NobodyJoins(run: seq<Happening>, roomId: string, from: nat) {
    forall i :: from <= i < |run| ==> !(run[i].Served? && Joins(run[i].event, roomId))
  }

  /** The `i`-th happening wrote to a room that was not watched, and nobody has joined it since. */
  ghost predicate LateWriteAt(who: Directory, run: seq<Happening>, roomId: string, i: nat)
    requires i < |run|
  {
    run[i] == Write(roomId) && Unwatched(Reached(who, run[..i]), roomId) && NobodyJoins(run, roomId, i)
  }

  ghost predicate LateWritten(who: Directory, run: seq<Happening>, roomId: string) {
    exists i: nat :: i < |run| && LateWriteAt(who, run, roomId, i)
  }

  lemma {:induction false} ReachedKeepsInv(who: SafeDirectory, run: seq<Happening>)
    ensures Inv(who, Reached(who, run))
  {
    hide Safe, Step;
    if run != [] {
      var s, h := Reached(who, run[..|run| - 1]), run[|run| - 1];
      ReachedKeepsInv(who, run[..|run| - 1]);
      match h
      case Served(e) => StepNews(who, s, e, "", "");
      case Write(_) => SameNews(who, s, Apply(who, s, h), "", "");
    }
  }

  lemma ApplyStrands(who: SafeDirectory, s: Server, h: Happening, r: string)
    requires Inv(who, s)
    ensures Stranded(Apply(who, s, h), r)
            <==> (h == Write(r) && Unwatched(s, r)) || (Stranded(s, r) && !(h.Served? && Joins(h.event, r)))
  {
    hide Safe, Step;
    match h
    case Served(e) => StrandedChange(who, s, e, r);
    case Write(_) =>
      PendingStays(s, Apply(who, s, h), r);
      PendingShrinks(s, Apply(who, s, h), r);
  }

  lemma LateWrittenNext(who: Directory, run: seq<Happening>, h: Happening, r: string)
    ensures LateWritten(who, run + [h], r)
            <==> (h == Write(r) && Unwatched(Reached(who, run), r))
                 || (LateWritten(who, run, r) && !(h.Served? && Joins(h.event, r)))
  {
    hide Reached, Unwatched, Joins;
    var all, n := run + [h], |run|;
    assert all[..n] == run;
    forall i: nat | i < n ensures all[i] == run[i] && all[..i] == run[..i] { }
    forall i: nat | i <= n
      ensures NobodyJoins(all, r, i) <==> NobodyJoins(run, r, i) && !(h.Served? && Joins(h.event, r))
    {
      assert all[n] == h;
    }
    if h == Write(r) && Unwatched(Reached(who, run), r) { assert LateWriteAt(who, all, r, n); }
    if LateWritten(who, run, r) && !(h.Served? && Joins(h.event, r)) {
      var i: nat :| i < n && LateWriteAt(who, run, r, i);
      assert LateWriteAt(who, all, r, i);
    }
    if LateWritten(who, all, r) {
      var i: nat :| i < |all| && LateWriteAt(who, all, r, i);
      if i < n { assert LateWriteAt(who, run, r, i); }
    }
  }

  /** Over runs with writes at any time, a transcript is left behind for good exactly when some write hit a room that
      nobody was in, whose expiry had run and had no leave pending, and nobody has joined it since. */
  lemma {:induction false} StrandedExactlyByLateWrites(who: SafeDirectory, run: seq<Happening>, r: string)
    ensures Stranded(Reached(who, run), r) <==> LateWritten(who, run, r)
  {
    hide Safe, LateWritten, Apply, Stranded;
    if run == [] {
      NothingWritten(who, r);
    } else {
      var init, last := run[..|run| - 1], run[|run| - 1];
      assert run == init + [last];
      StrandedExactlyByLateWrites(who, init, r);
      ReachedKeepsInv(who, init);
      ApplyStrands(who, Reached(who, init), last, r);
      LateWrittenNext(who, init, last, r);
    }
  }

  lemma ReachedAppend(who: Directory, run: seq<Happening>, h: Happening)
    ensures Reached(who, run + [h]) == Apply(who, Reached(who, run), h)
  {
    hide Apply;
    assert (run + [h])[..|run|] == run;
  }

  /** The forgotten leave again, as a run in which nothing is written. */
  lemma UnwrittenRunStrands(who: Directory, a: string, b: string)
    requires Collides(who(a).id, who(b).id)
    ensures var run := [Served(Join(a, "r"))] + [Served(Drop(a))] + [Served(Join(b, SecondRoom(who, a, b)))];
            Stranded(Reached(who, run), "r") && !LateWritten(who, run, "r")
  {
    var q := SecondRoom(who, a, b);
    ForgottenLeaveStrands(who, a, b);
    AfterAppend(who, EMPTY_SERVER, [Join(a, "r"), Drop(a)], Join(b, q));
    EmittedTwo(who, EMPTY_SERVER, Join(a, "r"), Drop(a));
    hide Step, After, SecondRoom, Stranded, Unwatched, Collides;
    ReachedAppend(who, [], Served(Join(a, "r")));
    assert [] + [Served(Join(a, "r"))] == [Served(Join(a, "r"))];
    ReachedAppend(who, [Served(Join(a, "r"))], Served(Drop(a)));
    ReachedAppend(who, [Served(Join(a, "r"))] + [Served(Drop(a))], Served(Join(b, q)));
  }

  /** Late writes are the only way to strand a transcript exactly when no two user ids collide. */
  lemma OnlyLateWritesStrandExactlyWhenSafe(who: Directory)
    ensures (forall run, r :: Stranded(Reached(who, run), r) <==> LateWritten(who, run, r)) <==> Safe(who)
  {
    hide Reached, LateWritten, Stranded;
    if Safe(who) {
      SafeStrandsByWritesOnly(who);
    } else {
      var a, b :| Collides(who(a).id, who(b).id);
      UnwrittenRunStrands(who, a, b);
    }
  }

  lemma SafeStrandsByWritesOnly(who: SafeDirectory)
    ensures forall run, r :: Stranded(Reached(who, run), r) <==> LateWritten(who, run, r)
  {
    hide Reached, LateWritten, Stranded, Safe;
    forall run, r ensures Stranded(Reached(who, run), r) <==> LateWritten(who, run, r) {
      StrandedExactlyByLateWrites(who, run, r);
    }
  }

  lemma NothingWritten(who: Directory, r: string)
    ensures !Stranded(Reached(who, []), r) && !LateWritten(who, [], r)
  {
  }

  lemma ReachedOfFour(who: Directory, run: seq<Happening>)
    requires |run| == 4
    ensures Reached(who, run)
            == Apply(who, Apply(who, Apply(who, Apply(who, EMPTY_SERVER, run[0]), run[1]), run[2]), run[3])
  {
    hide Apply;
    assert run[..3][..2] == run[..2] && run[..2][..1] == run[..1] && run[..1][..0] == [];
    assert Reached(who, run[..1]) == Apply(who, EMPTY_SERVER, run[0]);
    assert Reached(who, run[..2]) == Apply(who, Reached(who, run[..1]), run[1]);
    assert Reached(who, run[..3]) == Apply(who, Reached(who, run[..2]), run[2]);
  }

  lemma JoinAndLeaveAlone(who: Directory, a: string, roomId: string)
    requires roomId != ""
    ensures var s := Step(who, Step(who, EMPTY_SERVER, Join(a, roomId)).0, Leave(a)).0;
            s.registry == Registry(map[], map[]) && s.pending == map[] && s.sessions == {roomId} && s.expiry == {roomId}
  {
    Alone(who, EMPTY_SERVER, a, roomId);
    AloneLeaves(who(a), a, roomId);
    hide Without, FindMember, Add, RosterRows, Others, LeaveKey;
  }

  /** Such a run, for any user ids: everybody leaves, the transcript expires, and a write brings it back. */
  lemma LateWriteStrands(who: Directory, a: string, roomId: string)
    requires roomId != ""
    ensures Stranded(Reached(who, [Served(Join(a, roomId)), Served(Leave(a)), Served(Expire(roomId)), Write(roomId)]), roomId)
  {
    ReachedOfFour(who, [Served(Join(a, roomId)), Served(Leave(a)), Served(Expire(roomId)), Write(roomId)]);
    JoinAndLeaveAlone(who, a, roomId);
    hide Reached, DoJoin, DoLeave;
  }
}
