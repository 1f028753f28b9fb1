/** Who is in which room: two maps kept in step, and the roster one person per row. */
module RoomManager {
  import opened Wrappers
  import opened OrderedMap

  datatype User = User(id: string, name: string)

  /** A roster row: a person, and the socket to target for moderation. */
  datatype Row = Row(user: User, socketId: string)

  type Room = Assoc<string, User>

  /** Socket to user per room, and the reverse index. */
  datatype Registry = Registry(rooms: map<string, Room>, socketRoom: map<string, string>)

  datatype Removed = Removed(roomId: string, user: User)

  // ---------- Specification ----------

  function RoomOf(g: Registry, roomId: string): Room {
    if roomId in g.rooms then g.rooms[roomId] else []
  }

  function Add(g: Registry, roomId: string, socketId: string, user: User): Registry {
    Registry(g.rooms[roomId := Put(RoomOf(g, roomId), socketId, user)], g.socketRoom[socketId := roomId])
  }

  function FindMember(g: Registry, socketId: string): Option<Removed> {
    if socketId !in g.socketRoom || g.socketRoom[socketId] == "" then None
    else
      var roomId := g.socketRoom[socketId];
      var room := RoomOf(g, roomId);
      var i := IndexOf(room, socketId);
      if i == |room| then None else Some(Removed(roomId, room[i].1))
  }

  function Without(g: Registry, roomId: string, socketId: string): Registry {
    var room := Remove(RoomOf(g, roomId), socketId);
    Registry(if room == [] then g.rooms - {roomId} else g.rooms[roomId := room], g.socketRoom - {socketId})
  }

  function UserIds(room: Room): set<string> {
    set i | 0 <= i < |room| :: room[i].1.id
  }

  predicate Present(g: Registry, roomId: string, userId: string) {
    userId in UserIds(RoomOf(g, roomId))
  }

  /** One row per user id, in order of first appearance, with the most recent socket. */
  function Roster(room: Room): Assoc<string, Row> {
    if room == [] then []
    else
      var (socketId, user) := room[|room| - 1];
      Put(Roster(room[..|room| - 1]), user.id, Row(user, socketId))
  }

  function Rows(roster: Assoc<string, Row>): (rows: seq<Row>)
    ensures |rows| == |roster|
  {
    seq(|roster|, i requires 0 <= i < |roster| => roster[i].1)
  }

  // ---------- The two maps ----------

  class Manager {
    var rooms: map<string, Room>
    var socketRoom: map<string, string>

    ghost function View(): Registry
      reads this
    {
      Registry(rooms, socketRoom)
    }

    constructor ()
      ensures View() == Registry(map[], map[])
    {
      rooms, socketRoom := map[], map[];
    }

    method AddUser(roomId: string, socketId: string, user: User)
      modifies this
      ensures View() == Add(old(View()), roomId, socketId, user)
    {
      if roomId !in rooms { rooms := rooms[roomId := []]; }
      rooms := rooms[roomId := Put(rooms[roomId], socketId, user)];
      socketRoom := socketRoom[socketId := roomId];
    }

    method RemoveUser(socketId: string) returns (removed: Option<Removed>)
      modifies this
      ensures removed == FindMember(old(View()), socketId)
      ensures View() == if removed.Some? then Without(old(View()), removed.value.roomId, socketId) else old(View())
    {
      if socketId !in socketRoom || socketRoom[socketId] == "" { return None; }
      var roomId := socketRoom[socketId];
      if roomId !in rooms { return None; }
      var i := IndexOf(rooms[roomId], socketId);
      if i == |rooms[roomId]| { return None; }
      var user := rooms[roomId][i].1;
      rooms := rooms[roomId := Remove(rooms[roomId], socketId)];
      if |rooms[roomId]| == 0 { rooms := rooms - {roomId}; }
      socketRoom := socketRoom - {socketId};
      removed := Some(Removed(roomId, user));
    }

    method GetRoomUsers(roomId: string) returns (users: seq<Row>)
      ensures users == Rows(Roster(RoomOf(View(), roomId)))
    {
      var byUser: Assoc<string, Row> := [];
      var room := if roomId in rooms then rooms[roomId] else [];
      for i := 0 to |room|
        invariant byUser == Roster(room[..i])
      {
        var (socketId, user) := room[i];
        assert room[..i + 1][..i] == room[..i];
        byUser := Put(byUser, user.id, Row(user, socketId));
      }
      assert room[..|room|] == room;
      users := Rows(byUser);
    }

    method IsUserInRoom(roomId: string, userId: string) returns (found: bool)
      ensures found <==> Present(View(), roomId, userId)
    {
      var room := if roomId in rooms then rooms[roomId] else [];
      for i := 0 to |room|
        invariant forall j :: 0 <= j < i ==> room[j].1.id != userId
      {
        if room[i].1.id == userId { return true; }
      }
      found := false;
    }
  }

  // ---------- The roster ----------

  /** `row` is the last entry of its user. */
  ghost predicate IsLatest(room: Room, row: Row) {
    exists i :: 0 <= i < |room| && room[i] == (row.socketId, row.user)
                && forall j :: i < j < |room| ==> room[j].1.id != row.user.id
  }

  ghost predicate RosterFor(rows: Assoc<string, Row>, room: Room) {
    && Distinct(rows)
    && (forall p :: p in rows ==> p.1.user.id == p.0 && IsLatest(room, p.1))
    && (forall i :: 0 <= i < |room| ==> Has(rows, room[i].1.id))
  }

  /** Each person once, at the last of their sockets in map order. */
  lemma {:induction false} RosterIsRight(room: Room)
    ensures RosterFor(Roster(room), room)
  {
    if room != [] {
      var n := |room| - 1;
      var rest := room[..n];
      RosterIsRight(rest);
      RosterExtends(Roster(rest), rest, room[n].0, room[n].1);
      assert room == rest + [room[n]];
    }
  }

  lemma RosterExtends(rows: Assoc<string, Row>, room: Room, socketId: string, user: User)
    requires RosterFor(rows, room)
    ensures RosterFor(Put(rows, user.id, Row(user, socketId)), room + [(socketId, user)])
  {
    var rows' := Put(rows, user.id, Row(user, socketId));
    var room' := room + [(socketId, user)];
    PutKeepsDistinct(rows, user.id, Row(user, socketId));
    PutElements(rows, user.id, Row(user, socketId));
    hide IsLatest;
    hide Put;
    assert IsLatest(room', Row(user, socketId)) by { EndIsLatest(room, socketId, user); }
    forall p | p in rows' ensures p.1.user.id == p.0 && IsLatest(room', p.1) {
      if p.0 != user.id {
        StaysLatest(room, p.1, (socketId, user));
      }
    }
    forall i | 0 <= i < |room'| ensures Has(rows', room'[i].1.id) {
      if room'[i].1.id == user.id {
        assert (user.id, Row(user, socketId)) in rows';
      } else {
        var j :| 0 <= j < |rows| && rows[j].0 == room[i].1.id;
        assert rows[j] in rows';
      }
    }
  }

  lemma EndIsLatest(room: Room, socketId: string, user: User)
    ensures IsLatest(room + [(socketId, user)], Row(user, socketId))
  {
    assert (room + [(socketId, user)])[|room|] == (socketId, user);
  }

  lemma StaysLatest(room: Room, row: Row, entry: (string, User))
    requires IsLatest(room, row) && entry.1.id != row.user.id
    ensures IsLatest(room + [entry], row)
  {
    var i :| 0 <= i < |room| && room[i] == (row.socketId, row.user)
             && forall j :: i < j < |room| ==> room[j].1.id != row.user.id;
    assert (room + [entry])[i] == room[i];
  }

  lemma RosterIds(room: Room)
    ensures Keys(Roster(room)) == UserIds(room)
  {
    RosterIsRight(room);
    var rows := Roster(room);
    forall id | id in Keys(rows) ensures id in UserIds(room) {
      var k :| 0 <= k < |rows| && rows[k].0 == id;
      assert rows[k] in rows;
      var i :| 0 <= i < |room| && room[i] == (rows[k].1.socketId, rows[k].1.user);
      assert room[i].1.id == id;
    }
    forall id | id in UserIds(room) ensures id in Keys(rows) {
      var i :| 0 <= i < |room| && room[i].1.id == id;
      assert Has(rows, id);
    }
  }

  // ---------- Order of the rows, and which socket a row names ----------

  /** The first entry of a user. */
  function FirstOf(room: Room, id: string): (i: nat)
    ensures i <= |room|
    ensures i < |room| ==> room[i].1.id == id
    ensures forall j :: 0 <= j < i ==> room[j].1.id != id
  {
    if room == [] || room[0].1.id == id then 0 else 1 + FirstOf(room[1..], id)
  }

  ghost predicate FirstSeenOrder(rows: Assoc<string, Row>, room: Room) {
    forall i, j :: 0 <= i < j < |rows| ==> FirstOf(room, rows[i].0) < FirstOf(room, rows[j].0)
  }

  lemma FirstOfExtends(room: Room, entry: (string, User), id: string)
    ensures FirstOf(room, id) < |room| ==> FirstOf(room + [entry], id) == FirstOf(room, id)
    ensures FirstOf(room, id) == |room| && entry.1.id == id ==> FirstOf(room + [entry], id) == |room|
  {
    var more := room + [entry];
    var i, k := FirstOf(room, id), FirstOf(more, id);
    assert forall j :: 0 <= j < |room| ==> more[j] == room[j];
    assert more[|room|] == entry;
  }

  /** Rows stand in the order in which their users were first seen. */
  lemma {:induction false} RosterOrder(room: Room)
    ensures FirstSeenOrder(Roster(room), room)
  {
    if room != [] {
      var n := |room| - 1;
      var rest, entry := room[..n], room[n];
      RosterOrder(rest);
      RosterIsRight(rest);
      assert room == rest + [entry];
      RowsExtend(Roster(rest), rest, entry);
    }
  }

  lemma RowsExtend(rows: Assoc<string, Row>, room: Room, entry: (string, User))
    requires RosterFor(rows, room) && FirstSeenOrder(rows, room)
    ensures FirstSeenOrder(Put(rows, entry.1.id, Row(entry.1, entry.0)), room + [entry])
  {
    var rows', more := Put(rows, entry.1.id, Row(entry.1, entry.0)), room + [entry];
    SeenIsListed(rows, room, entry.1.id);
    forall k | 0 <= k < |rows'| ensures
      FirstOf(more, rows'[k].0) == if k < |rows| then FirstOf(room, rows[k].0) else |room|
    {
      FirstOfExtends(room, entry, rows'[k].0);
      if k < |rows| { RowIsSeen(rows, room, k); }
    }
    forall k | 0 <= k < |rows| ensures FirstOf(room, rows[k].0) < |room| {
      RowIsSeen(rows, room, k);
    }
  }

  lemma SeenIsListed(rows: Assoc<string, Row>, room: Room, id: string)
    requires RosterFor(rows, room)
    ensures FirstOf(room, id) < |room| ==> Has(rows, id)
  {
    if FirstOf(room, id) < |room| { assert Has(rows, room[FirstOf(room, id)].1.id); }
  }

  lemma RowIsSeen(rows: Assoc<string, Row>, room: Room, k: nat)
    requires RosterFor(rows, room) && k < |rows|
    ensures FirstOf(room, rows[k].0) < |room|
  {
    assert rows[k] in rows;
    var i :| 0 <= i < |room| && room[i] == (rows[k].1.socketId, rows[k].1.user);
  }

  /** After a join the user's row names the joining socket, unless that socket was in the room already and another of
      the user's sockets comes after it: a socket that joins again keeps its place. */
  lemma RowNamesJoiner(g: Registry, roomId: string, socketId: string, user: User)
    requires Distinct(RoomOf(g, roomId)) && (forall p :: p in RoomOf(g, roomId) && p.0 == socketId ==> p.1 == user)
    ensures var room := RoomOf(g, roomId);
            (user.id, Row(user, socketId)) in Roster(RoomOf(Add(g, roomId, socketId, user), roomId))
            <==> !Has(room, socketId) || IsLatest(room, Row(user, socketId))
  {
    var room := RoomOf(g, roomId);
    var at := IndexOf(room, socketId);
    if at < |room| {
      assert room[at] in room;
      assert room[at := (socketId, user)] == room;
      LatestIsListed(room, Row(user, socketId));
    } else {
      EndIsLatest(room, socketId, user);
      LatestIsListed(room + [(socketId, user)], Row(user, socketId));
    }
  }

  lemma LatestIsListed(room: Room, row: Row)
    ensures (row.user.id, row) in Roster(room) <==> IsLatest(room, row)
  {
    var rows := Roster(room);
    RosterIsRight(room);
    if IsLatest(room, row) {
      var i :| 0 <= i < |room| && room[i] == (row.socketId, row.user)
               && forall j :: i < j < |room| ==> room[j].1.id != row.user.id;
      assert Has(rows, room[i].1.id);
      var k :| 0 <= k < |rows| && rows[k].0 == row.user.id;
      assert rows[k] in rows;
      var l :| 0 <= l < |room| && room[l] == (rows[k].1.socketId, rows[k].1.user)
               && forall j :: l < j < |room| ==> room[j].1.id != rows[k].1.user.id;
      assert l == i;
    }
  }
}
