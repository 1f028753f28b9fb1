/** Joining, leaving and the deferred leave: what the server changes and what it tells the room. */
module Presence {
  import opened Wrappers
  import opened OrderedMap
  import opened RoomManager

  /** The authenticated user behind each socket id. */
  type Directory = string -> User

  datatype PendingLeave = PendingLeave(roomId: string, user: User)

  /** `channels` are the transport's room memberships, `pending` the armed grace timers,
      `sessions` and `expiry` the stored transcripts and their armed expiry timers. */
  datatype Server = Server(
    registry: Registry,
    channels: set<(string, string)>,
    pending: map<string, PendingLeave>,
    sessions: set<string>,
    expiry: set<string>)

  const EMPTY_SERVER := Server(Registry(map[], map[]), {}, map[], {}, {})

  /** `GraceOver` and `Expire` are timers firing; `Touch` is any transcript request of a socket in a room. */
  datatype Event =
    | Join(socketId: string, roomId: string)
    | Leave(socketId: string)
    | Drop(socketId: string)
    | GraceOver(key: string)
    | Expire(roomId: string)
    | Touch(socketId: string)

  datatype Message = RoomUsers(rows: seq<Row>) | UserJoined(row: Row) | UserLeft(user: User)

  datatype Emission = Emission(roomId: string, receivers: set<string>, message: Message)

  // ---------- Specification ----------

  function LeaveKey(roomId: string, userId: string): string { roomId + "::" + userId }

  function Others(channels: set<(string, string)>, roomId: string, socketId: string): set<string> {
    set p | p in channels && p.0 == roomId && p.1 != socketId :: p.1
  }

  function Everyone(channels: set<(string, string)>, roomId: string): set<string> {
    set p | p in channels && p.0 == roomId :: p.1
  }

  function RosterRows(g: Registry, roomId: string): seq<Row> { Rows(Roster(RoomOf(g, roomId))) }

  function DoJoin(s: Server, user: User, socketId: string, roomId: string): (Server, seq<Emission>) {
    var key := LeaveKey(roomId, user.id);
    var registry := Add(s.registry, roomId, socketId, user);
    var channels := s.channels + {(roomId, socketId)};
    var rows := RosterRows(registry, roomId);
    var others := Others(channels, roomId, socketId);
    var welcome := Emission(roomId, {socketId}, RoomUsers(rows));
    (Server(registry, channels, s.pending - {key}, s.sessions + {roomId}, s.expiry - {roomId}),
     if key in s.pending then [welcome, Emission(roomId, others, RoomUsers(rows))]
     else if Present(s.registry, roomId, user.id) then [welcome]
     else [welcome, Emission(roomId, others, UserJoined(Row(user, socketId)))])
  }

  /** The transcript of a room found empty starts to expire. */
  function ExpireIfEmpty(g: Registry, expiry: set<string>, roomId: string): set<string> {
    if RoomOf(g, roomId) == [] then expiry + {roomId} else expiry
  }

  function DoLeave(s: Server, socketId: string, gone: Removed): (Server, seq<Emission>) {
    var Removed(roomId, user) := gone;
    var registry := Without(s.registry, roomId, socketId);
    var channels := s.channels - {(roomId, socketId)};
    (Server(registry, channels, s.pending - {LeaveKey(roomId, user.id)}, s.sessions,
            ExpireIfEmpty(registry, s.expiry, roomId)),
     if Present(registry, roomId, user.id) then []
     else [Emission(roomId, Others(channels, roomId, socketId), UserLeft(user))])
  }

  function DoDrop(s: Server, socketId: string, gone: Removed): Server {
    var Removed(roomId, user) := gone;
    var registry := Without(s.registry, roomId, socketId);
    var s' := s.(registry := registry);
    if Present(registry, roomId, user.id) then s'
    else s'.(pending := s.pending[LeaveKey(roomId, user.id) := PendingLeave(roomId, user)])
  }

  function DoGraceOver(s: Server, key: string): (Server, seq<Emission>)
    requires key in s.pending
  {
    var PendingLeave(roomId, user) := s.pending[key];
    (s.(pending := s.pending - {key}, expiry := ExpireIfEmpty(s.registry, s.expiry, roomId)),
     if Present(s.registry, roomId, user.id) then []
     else [Emission(roomId, Everyone(s.channels, roomId), UserLeft(user))])
  }

  /** The transport leaves every channel before it reports a disconnect. */
  function Disconnected(s: Server, socketId: string): Server {
    s.(channels := set p | p in s.channels && p.1 != socketId)
  }

  function Step(who: Directory, s: Server, e: Event): (Server, seq<Emission>) {
    match e
    case Join(socketId, roomId) =>
      if roomId == "" then (s, []) else DoJoin(s, who(socketId), socketId, roomId)
    case Leave(socketId) =>
      var gone := FindMember(s.registry, socketId);
      if gone.None? then (s, []) else DoLeave(s, socketId, gone.value)
    case Drop(socketId) =>
      var gone := FindMember(s.registry, socketId);
      (if gone.None? then Disconnected(s, socketId) else DoDrop(Disconnected(s, socketId), socketId, gone.value), [])
    case GraceOver(key) =>
      if key !in s.pending then (s, []) else DoGraceOver(s, key)
    case Expire(roomId) =>
      (if roomId in s.expiry then s.(sessions := s.sessions - {roomId}, expiry := s.expiry - {roomId}) else s, [])
    case Touch(socketId) =>
      (if socketId in s.registry.socketRoom then s.(sessions := s.sessions + {s.registry.socketRoom[socketId]}) else s, [])
  }

  // ---------- The handlers ----------

  class Handlers {
    const who: Directory
    const manager: Manager
    var channels: set<(string, string)>
    var pendingLeaves: map<string, PendingLeave>
    var transcripts: set<string>
    var expiryTimers: set<string>

    ghost function View(): Server
      reads this, manager
    {
      Server(manager.View(), channels, pendingLeaves, transcripts, expiryTimers)
    }

    constructor (who: Directory)
      ensures View() == EMPTY_SERVER && this.who == who && fresh(manager)
    {
      this.who := who;
      manager := new Manager();
      channels, pendingLeaves, transcripts, expiryTimers := {}, map[], {}, {};
    }

    method OnJoinRoom(socketId: string, roomId: string) returns (out: seq<Emission>)
      modifies this, manager
      ensures (View(), out) == Step(who, old(View()), Join(socketId, roomId))
    {
      if roomId == "" { return []; }
      ghost var before := View();
      hide Others;
      hide RosterRows;
      hide Roster;
      hide Add;
      hide UserIds;
      hide LeaveKey;
      var user := who(socketId);
      var key := LeaveKey(roomId, user.id);
      var rejoinedInGrace := key in pendingLeaves;
      assert key !in pendingLeaves ==> pendingLeaves - {key} == pendingLeaves;
      if rejoinedInGrace { pendingLeaves := pendingLeaves - {key}; }
      var alreadyPresent := manager.IsUserInRoom(roomId, user.id);
      assert alreadyPresent <==> Present(before.registry, roomId, user.id);
      channels := channels + {(roomId, socketId)};
      manager.AddUser(roomId, socketId, user);
      expiryTimers := expiryTimers - {roomId};
      var rows := manager.GetRoomUsers(roomId);
      assert rows == RosterRows(Add(before.registry, roomId, socketId, user), roomId) by { RosterRowsOf(manager.View(), roomId); }
      out := [Emission(roomId, {socketId}, RoomUsers(rows))];
      transcripts := transcripts + {roomId};
      if !alreadyPresent && !rejoinedInGrace {
        out := out + [Emission(roomId, Others(channels, roomId, socketId), UserJoined(Row(user, socketId)))];
      } else if rejoinedInGrace {
        out := out + [Emission(roomId, Others(channels, roomId, socketId), RoomUsers(rows))];
      }
      assert out == DoJoin(before, user, socketId, roomId).1;
    }

    method OnLeaveRoom(socketId: string) returns (out: seq<Emission>)
      modifies this, manager
      ensures (View(), out) == Step(who, old(View()), Leave(socketId))
    {
      out := [];
      var result := manager.RemoveUser(socketId);
      if result.None? { return; }
      var Removed(roomId, user) := result.value;
      pendingLeaves := pendingLeaves - {LeaveKey(roomId, user.id)};
      channels := channels - {(roomId, socketId)};
      var stillHere := manager.IsUserInRoom(roomId, user.id);
      if !stillHere {
        out := [Emission(roomId, Others(channels, roomId, socketId), UserLeft(user))];
      }
      EmptyRosterIffEmptyRoom(manager.View(), roomId);
      var users := manager.GetRoomUsers(roomId);
      if |users| == 0 { expiryTimers := expiryTimers + {roomId}; }
    }

    method OnDisconnect(socketId: string) returns (out: seq<Emission>)
      modifies this, manager
      ensures (View(), out) == Step(who, old(View()), Drop(socketId))
    {
      out := [];
      channels := set p | p in channels && p.1 != socketId;
      var result := manager.RemoveUser(socketId);
      if result.None? { return; }
      var Removed(roomId, user) := result.value;
      var stillHere := manager.IsUserInRoom(roomId, user.id);
      if stillHere { return; }
      pendingLeaves := pendingLeaves[LeaveKey(roomId, user.id) := PendingLeave(roomId, user)];
    }

    /** The deferred leave fires. */
    method OnGraceOver(key: string) returns (out: seq<Emission>)
      modifies this
      ensures (View(), out) == Step(who, old(View()), GraceOver(key))
    {
      out := [];
      if key !in pendingLeaves { return; }
      var PendingLeave(roomId, user) := pendingLeaves[key];
      pendingLeaves := pendingLeaves - {key};
      var present := manager.IsUserInRoom(roomId, user.id);
      if !present {
        out := [Emission(roomId, Everyone(channels, roomId), UserLeft(user))];
      }
      EmptyRosterIffEmptyRoom(manager.View(), roomId);
      var users := manager.GetRoomUsers(roomId);
      if |users| == 0 { expiryTimers := expiryTimers + {roomId}; }
    }

    /** The transcript's expiry timer fires. */
    method OnTranscriptExpiry(roomId: string)
      modifies `transcripts, `expiryTimers
      ensures (View(), []) == Step(who, old(View()), Expire(roomId))
    {
      if roomId !in expiryTimers { return; }
      transcripts := transcripts - {roomId};
      expiryTimers := expiryTimers - {roomId};
    }

    /** Any request that reads the transcript of the socket's room creates it on demand. */
    method OnTranscriptRequest(socketId: string)
      modifies `transcripts
      ensures (View(), []) == Step(who, old(View()), Touch(socketId))
    {
      if socketId !in manager.socketRoom { return; }
      transcripts := transcripts + {manager.socketRoom[socketId]};
    }
  }

  lemma RosterRowsOf(g: Registry, roomId: string)
    ensures RosterRows(g, roomId) == Rows(Roster(RoomOf(g, roomId)))
  {
  }

  lemma EmptyRosterIffEmptyRoom(g: Registry, roomId: string)
    ensures |RosterRows(g, roomId)| == 0 <==> RoomOf(g, roomId) == []
  {
    var room := RoomOf(g, roomId);
    RosterIsRight(room);
    if room != [] {
      assert Has(Roster(room), room[0].1.id);
    }
  }
}
