/** The rows themselves: which socket each names, in which order they stand, and whom they can ever name. */
module RosterRowTheorems {
  import opened Wrappers
  import opened OrderedMap
  import opened RoomManager
  import opened Presence
  import opened PresenceTheorems
  import opened RosterTheorems

  // ---------- The rows of a room ----------

  /** The only list with one row for each person in the room, in the order in which they were first seen, each row naming
      that person's last socket in map order. */
  ghost predicate RowsOf(rows: seq<Row>, room: Room) {
    && (forall k :: 0 <= k < |rows| ==> IsLatest(room, rows[k]))
    && (forall j, k :: 0 <= j < k < |rows| ==> FirstOf(room, rows[j].user.id) < FirstOf(room, rows[k].user.id))
    && (forall i :: 0 <= i < |room| ==> exists k :: 0 <= k < |rows| && rows[k].user.id == room[i].1.id)
  }

  lemma RowsAreThoseOfTheRoom(room: Room)
    ensures RowsOf(Rows(Roster(room)), room)
  {
    var roster := Roster(room);
    RosterIsRight(room);
    RosterOrder(room);
    hide IsLatest, FirstOf, Roster;
    var rows := Rows(roster);
    forall k | 0 <= k < |rows| ensures IsLatest(room, rows[k]) && rows[k].user.id == roster[k].0 {
      assert roster[k] in roster;
    }
    forall i | 0 <= i < |room| ensures exists k :: 0 <= k < |rows| && rows[k].user.id == room[i].1.id {
      assert Has(roster, room[i].1.id);
      var k :| 0 <= k < |roster| && roster[k].0 == room[i].1.id;
      assert rows[k].user.id == room[i].1.id;
    }
  }

  // ---------- What a message does to the rows ----------

  predicate Increasing(at: seq<nat>) { forall j, k :: 0 <= j < k < |at| ==> at[j] < at[k] }

  /** The other people's rows, unchanged and in their order: `at` tells where each stood. */
  ghost predicate KeepsOthers(rows: seq<Row>, id: string, kept: seq<Row>, at: seq<nat>) {
    && |at| == |kept| && Increasing(at)
    && (forall k :: 0 <= k < |at| ==> at[k] < |rows| && kept[k] == rows[at[k]] && kept[k].user.id != id)
    && (forall i :: 0 <= i < |rows| && rows[i].user.id != id ==> i in at)
  }

  function Later(at: seq<nat>): (r: seq<nat>)
    ensures |r| == |at| && forall k :: 0 <= k < |at| ==> r[k] == at[k] + 1
  {
    seq(|at|, k requires 0 <= k < |at| => at[k] + 1)
  }

  lemma OneRowDropped(row: Row, rows: seq<Row>, id: string, kept: seq<Row>, at: seq<nat>)
    requires KeepsOthers(rows, id, kept, at) && row.user.id == id
    ensures KeepsOthers([row] + rows, id, kept, Later(at))
  {
    var all, shifted := [row] + rows, Later(at);
    forall i | 0 <= i < |all| && all[i].user.id != id ensures i in shifted {
      assert rows[i - 1] == all[i];
      var k :| 0 <= k < |at| && at[k] == i - 1;
      assert shifted[k] == i;
    }
  }

  lemma OneMoreIncreases(at: seq<nat>)
    requires Increasing(at)
    ensures Increasing([0] + Later(at))
  {
    var shifted := [0] + Later(at);
    forall k | 1 <= k < |shifted| ensures shifted[k] == at[k - 1] + 1 { }
  }

  lemma OneRowKept(row: Row, rows: seq<Row>, id: string, kept: seq<Row>, at: seq<nat>)
    requires KeepsOthers(rows, id, kept, at) && row.user.id != id
    ensures KeepsOthers([row] + rows, id, [row] + kept, [0] + Later(at))
  {
    OneMoreIncreases(at);
    hide Increasing;
    var all, result, shifted := [row] + rows, [row] + kept, [0] + Later(at);
    forall k | 0 <= k < |shifted|
      ensures shifted[k] < |all| && result[k] == all[shifted[k]] && result[k].user.id != id
    {
      if k > 0 { assert shifted[k] == at[k - 1] + 1 && result[k] == kept[k - 1]; }
    }
    forall i | 0 <= i < |all| && all[i].user.id != id ensures i in shifted {
      if i == 0 {
        assert shifted[0] == 0;
      } else {
        assert rows[i - 1] == all[i];
        var k :| 0 <= k < |at| && at[k] == i - 1;
        assert shifted[k + 1] == i;
      }
    }
  }

  lemma {:induction false} FilterKeepsOthers(rows: seq<Row>, id: string) returns (at: seq<nat>)
    ensures KeepsOthers(rows, id, Filter(rows, id), at)
  {
    if rows == [] {
      at := [];
    } else {
      var rest := FilterKeepsOthers(rows[1..], id);
      assert rows == [rows[0]] + rows[1..];
      hide KeepsOthers;
      if rows[0].user.id == id {
        OneRowDropped(rows[0], rows[1..], id, Filter(rows[1..], id), rest);
        at := Later(rest);
        assert [] + Filter(rows[1..], id) == Filter(rows[1..], id);
      } else {
        OneRowKept(rows[0], rows[1..], id, Filter(rows[1..], id), rest);
        at := [0] + Later(rest);
      }
    }
  }

  /** A roster message replaces the list. A join leaves it alone if the person is listed, and else adds the row at the end. A
      leave takes out that person's rows and keeps the others, their sockets and their order. */
  lemma MessageChangesRows(rows: seq<Row>, m: Message)
    ensures var next := Reduce(rows, m);
            match m
            case RoomUsers(list) => next == list
            case UserJoined(row) =>
              if exists i :: 0 <= i < |rows| && rows[i].user.id == row.user.id then next == rows
              else |next| == |rows| + 1 && next[|rows|] == row && forall i :: 0 <= i < |rows| ==> next[i] == rows[i]
            case UserLeft(user) => exists at :: KeepsOthers(rows, user.id, next, at)
  {
    if m.UserLeft? { var at := FilterKeepsOthers(rows, m.user.id); }
    hide Filter, KeepsOthers;
  }

  // ---------- Whom a row names ----------

  /** The row's socket belongs to the row's user. */
  predicate Genuine(who: Directory, row: Row) { row.user == who(row.socketId) }

  ghost predicate AllGenuine(who: Directory, rows: seq<Row>) { forall i :: 0 <= i < |rows| ==> Genuine(who, rows[i]) }

  ghost predicate Named(who: Directory, room: Room) { forall i :: 0 <= i < |room| ==> room[i].1 == who(room[i].0) }

  ghost predicate RoomsNamed(who: Directory, g: Registry) { forall r :: r in g.rooms ==> Named(who, g.rooms[r]) }

  ghost predicate Fair(who: Directory, m: Message) {
    match m
    case RoomUsers(rows) => AllGenuine(who, rows)
    case UserJoined(row) => Genuine(who, row)
    case UserLeft(_) => true
  }

  lemma NamedRoomsGiveGenuineRows(who: Directory, g: Registry, roomId: string)
    requires RoomsNamed(who, g)
    ensures AllGenuine(who, RosterRows(g, roomId))
  {
    var room := RoomOf(g, roomId);
    RowsAreThoseOfTheRoom(room);
    var rows := RosterRows(g, roomId);
    assert rows == Rows(Roster(room));
    hide Roster, Rows, RosterRows;
    forall k | 0 <= k < |rows| ensures Genuine(who, rows[k]) {
      assert IsLatest(room, rows[k]);
    }
  }

  lemma AddKeepsNames(who: Directory, g: Registry, roomId: string, socketId: string)
    requires RoomsNamed(who, g)
    ensures RoomsNamed(who, Add(g, roomId, socketId, who(socketId)))
  {
  }

  lemma WithoutKeepsNames(who: Directory, g: Registry, roomId: string, socketId: string)
    requires RoomsNamed(who, g)
    ensures RoomsNamed(who, Without(g, roomId, socketId))
  {
  }

  lemma StepIsFair(who: Directory, s: Server, e: Event)
    requires RoomsNamed(who, s.registry)
    ensures RoomsNamed(who, Step(who, s, e).0.registry)
    ensures forall i :: 0 <= i < |Step(who, s, e).1| ==> Fair(who, Step(who, s, e).1[i].message)
  {
    hide RoomsNamed, Add, Without, FindMember, RosterRows, Present, LeaveKey, AllGenuine;
    match e
    case Join(socketId, roomId) =>
      AddKeepsNames(who, s.registry, roomId, socketId);
      NamedRoomsGiveGenuineRows(who, Add(s.registry, roomId, socketId, who(socketId)), roomId);
    case Leave(socketId) =>
      var gone := FindMember(s.registry, socketId);
      if gone.Some? { WithoutKeepsNames(who, s.registry, gone.value.roomId, socketId); }
    case Drop(socketId) =>
      var gone := FindMember(s.registry, socketId);
      if gone.Some? { WithoutKeepsNames(who, s.registry, gone.value.roomId, socketId); }
    case _ =>
  }

  ghost predicate ClientGenuine(who: Directory, c: Client) {
    AllGenuine(who, c.roster) && forall i :: 0 <= i < |c.queue| ==> Fair(who, c.queue[i])
  }

  ghost predicate SystemGenuine(who: Directory, y: System) {
    RoomsNamed(who, y.server.registry) && forall x :: ClientGenuine(who, y.clients(x))
  }

  lemma {:induction false} InboxIsFair(who: Directory, out: seq<Emission>, x: string)
    requires forall i :: 0 <= i < |out| ==> Fair(who, out[i].message)
    ensures forall i :: 0 <= i < |Inbox(out, x)| ==> Fair(who, Inbox(out, x)[i])
  {
    hide Fair;
    if out != [] { InboxIsFair(who, out[1..], x); }
  }

  lemma DeliveredIsGenuine(who: Directory, c: Client)
    requires ClientGenuine(who, c)
    ensures ClientGenuine(who, Delivered(c))
  {
    if c.queue != [] {
      var m := c.queue[0];
      assert Fair(who, m);
      MessageChangesRows(c.roster, m);
      var next := Reduce(c.roster, m);
      hide Reduce, Genuine;
      if m.UserLeft? {
        var at :| KeepsOthers(c.roster, m.user.id, next, at);
        assert AllGenuine(who, next);
      }
    }
  }

  lemma NextIsGenuine(who: Directory, y: System, a: Action)
    requires SystemGenuine(who, y)
    ensures SystemGenuine(who, Next(who, y, a))
  {
    var y' := Next(who, y, a);
    hide RoomsNamed, AllGenuine, Fair, Delivered;
    match a
    case Act(e) =>
      StepIsFair(who, y.server, e);
      var out := Step(who, y.server, e).1;
      hide Step;
      forall x ensures ClientGenuine(who, y'.clients(x)) {
        InboxIsFair(who, out, x);
        assert ClientGenuine(who, y.clients(x));
      }
    case Deliver(_) =>
      forall x ensures ClientGenuine(who, y'.clients(x)) {
        assert ClientGenuine(who, y.clients(x));
        DeliveredIsGenuine(who, y.clients(x));
      }
  }

  lemma {:induction false} ReachedIsGenuine(who: Directory, y: System, run: seq<Action>)
    requires SystemGenuine(who, y)
    ensures SystemGenuine(who, Reached(who, y, run))
    decreases |run|
  {
    hide SystemGenuine, Next;
    if run != [] {
      NextIsGenuine(who, y, run[0]);
      ReachedIsGenuine(who, Next(who, y, run[0]), run[1..]);
    }
  }

  /** Over every run, whatever the ids, a row shown to anybody pairs a socket with the user behind it: acting on the socket
      acts on the person listed. */
  lemma ShownRowsAreGenuine(who: Directory, run: seq<Action>, x: string, k: nat)
    requires k < |Reached(who, Start(), run).clients(x).roster|
    ensures var row := Reached(who, Start(), run).clients(x).roster[k]; row.user == who(row.socketId)
  {
    ReachedIsGenuine(who, Start(), run);
    hide Reached, RoomsNamed;
    var y := Reached(who, Start(), run);
    assert ClientGenuine(who, y.clients(x));
    assert Genuine(who, y.clients(x).roster[k]);
  }
}
