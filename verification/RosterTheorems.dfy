/** What each peer's participant list shows once it has caught up with its messages. */
module RosterTheorems {
  import opened OrderedMap
  import opened RoomManager
  import opened Presence
  import opened PresenceTheorems

  // ---------- The client's roster ----------

  function Ids(rows: seq<Row>): set<string> {
    set i | 0 <= i < |rows| :: rows[i].user.id
  }

  predicate DistinctIds(rows: seq<Row>) {
    forall i, j :: 0 <= i < j < |rows| ==> rows[i].user.id != rows[j].user.id
  }

  function Filter(rows: seq<Row>, id: string): seq<Row> {
    if rows == [] then [] else (if rows[0].user.id != id then [rows[0]] else []) + Filter(rows[1..], id)
  }

  /** The page's state update for one message. */
  function Reduce(rows: seq<Row>, m: Message): seq<Row> {
    match m
    case RoomUsers(list) => list
    case UserJoined(row) => if row.user.id in Ids(rows) then rows else rows + [row]
    case UserLeft(user) => Filter(rows, user.id)
  }

  /** The roster after applying a whole queue. */
  function Applied(rows: seq<Row>, queue: seq<Message>): seq<Row>
    decreases |queue|
  {
    if queue == [] then rows else Applied(Reduce(rows, queue[0]), queue[1..])
  }

  lemma {:induction false} FilterIds(rows: seq<Row>, id: string)
    ensures Ids(Filter(rows, id)) == Ids(rows) - {id}
    ensures DistinctIds(rows) ==> DistinctIds(Filter(rows, id))
  {
    if rows != [] {
      FilterIds(rows[1..], id);
      var rest := Filter(rows[1..], id);
      ConsIds(rows[0], rows[1..]);
      assert rows == [rows[0]] + rows[1..];
      if rows[0].user.id != id {
        ConsIds(rows[0], rest);
      } else {
        assert [] + rest == rest;
      }
    }
  }

  lemma ConsIds(row: Row, rows: seq<Row>)
    ensures Ids([row] + rows) == {row.user.id} + Ids(rows)
    ensures DistinctIds([row] + rows) <==> DistinctIds(rows) && row.user.id !in Ids(rows)
  {
    var all := [row] + rows;
    forall i | 0 <= i < |rows| ensures rows[i].user.id in Ids(all) {
      assert all[i + 1] == rows[i];
    }
    assert all[0] == row;
    if DistinctIds(all) {
      forall i, j | 0 <= i < j < |rows| ensures rows[i].user.id != rows[j].user.id {
        assert all[i + 1] == rows[i] && all[j + 1] == rows[j];
      }
      forall i | 0 <= i < |rows| ensures rows[i].user.id != row.user.id {
        assert all[i + 1] == rows[i];
      }
    }
  }

  lemma SnocIds(rows: seq<Row>, row: Row)
    ensures Ids(rows + [row]) == Ids(rows) + {row.user.id}
    ensures DistinctIds(rows) && row.user.id !in Ids(rows) ==> DistinctIds(rows + [row])
  {
    var all := rows + [row];
    forall i | 0 <= i < |rows| ensures rows[i].user.id in Ids(all) {
      assert all[i] == rows[i];
    }
    assert all[|rows|] == row;
  }

  lemma ReduceIds(rows: seq<Row>, m: Message)
    ensures Ids(Reduce(rows, m))
            == match m
               case RoomUsers(list) => Ids(list)
               case UserJoined(row) => Ids(rows) + {row.user.id}
               case UserLeft(user) => Ids(rows) - {user.id}
    ensures DistinctIds(rows) && (m.RoomUsers? ==> DistinctIds(m.rows)) ==> DistinctIds(Reduce(rows, m))
  {
    hide Ids;
    hide DistinctIds;
    match m
    case RoomUsers(list) =>
    case UserJoined(row) => SnocIds(rows, row);
    case UserLeft(user) => FilterIds(rows, user.id);
  }

  lemma {:induction false} AppliedConcat(rows: seq<Row>, p: seq<Message>, q: seq<Message>)
    ensures Applied(rows, p + q) == Applied(Applied(rows, p), q)
    decreases |p|
  {
    hide Reduce;
    if p == [] {
      assert p + q == q;
    } else {
      assert (p + q)[0] == p[0] && (p + q)[1..] == p[1..] + q;
      AppliedConcat(Reduce(rows, p[0]), p[1..], q);
    }
  }

  // ---------- Server and clients together ----------

  /** What a peer shows, and what has been sent to it but not applied. */
  datatype Client = Client(roster: seq<Row>, queue: seq<Message>)

  datatype System = System(server: Server, clients: string -> Client)

  datatype Action = Act(event: Event) | Deliver(socketId: string)

  function Inbox(out: seq<Emission>, socketId: string): seq<Message> {
    if out == [] then []
    else (if socketId in out[0].receivers then [out[0].message] else []) + Inbox(out[1..], socketId)
  }

  function Delivered(c: Client): Client {
    if c.queue == [] then c else Client(Reduce(c.roster, c.queue[0]), c.queue[1..])
  }

  function Next(who: Directory, y: System, a: Action): System {
    match a
    case Act(e) =>
      var (server, out) := Step(who, y.server, e);
      System(server, s => Client(y.clients(s).roster, y.clients(s).queue + Inbox(out, s)))
    case Deliver(socketId) =>
      y.(clients := s => if s == socketId then Delivered(y.clients(s)) else y.clients(s))
  }

  /** A socket joins only the room it is in, or none. */
  predicate OneRoomAtATime(y: System, a: Action) {
    a.Act? && a.event.Join? && a.event.socketId in y.server.registry.socketRoom ==>
      y.server.registry.socketRoom[a.event.socketId] == a.event.roomId
  }

  predicate LegalActions(who: Directory, y: System, run: seq<Action>)
    decreases |run|
  {
    run == [] || (OneRoomAtATime(y, run[0]) && LegalActions(who, Next(who, y, run[0]), run[1..]))
  }

  function Reached(who: Directory, y: System, run: seq<Action>): System
    decreases |run|
  {
    if run == [] then y else Reached(who, Next(who, y, run[0]), run[1..])
  }

  /** Everybody in the room is listed, and only people in it or about to be reported gone. */
  ghost predicate Sandwiched(s: Server, roomId: string, ids: set<string>) {
    forall id :: (Present(s.registry, roomId, id) ==> id in ids) && (id in ids ==> Announced(s, roomId, id))
  }

  /** Transport channels and room membership agree, and nobody is in two rooms. */
  ghost predicate SingleRooms(s: Server) { Matches(s.channels, s.registry.socketRoom) }

  ghost predicate Matches(channels: set<(string, string)>, index: map<string, string>) {
    && (forall r, x :: (r, x) in channels ==> x in index && index[x] == r)
    && (forall x :: x in index ==> (index[x], x) in channels)
  }

  ghost predicate Follows(y: System, roomId: string, socketId: string) {
    var rows := Applied(y.clients(socketId).roster, y.clients(socketId).queue);
    DistinctIds(rows) && Sandwiched(y.server, roomId, Ids(rows))
  }

  ghost predicate SystemInv(who: Directory, y: System) {
    && Inv(who, y.server) && SingleRooms(y.server)
    && (forall r, x :: (r, x) in y.server.channels ==> Follows(y, r, x))
  }

  // ---------- One step for one peer's set of ids ----------

  lemma JoinSandwich(who: SafeDirectory, s: Server, socketId: string, roomId: string, r: string, ids: set<string>)
    requires Inv(who, s) && roomId != "" && Sandwiched(s, r, ids)
    ensures var s' := DoJoin(s, who(socketId), socketId, roomId).0;
            var u := who(socketId).id;
            (r != roomId || Present(s.registry, r, u) ==> Sandwiched(s', r, ids))
            && (r == roomId && LeaveKey(roomId, u) !in s.pending ==> Sandwiched(s', r, ids + {u}))
  {
    hide Safe;
    hide Inv;
    hide Present;
    hide LeaveKey;
    hide DoJoin;
    var s' := DoJoin(s, who(socketId), socketId, roomId).0;
    forall id ensures var here := r == roomId && id == who(socketId).id;
      (Present(s'.registry, r, id) <==> Present(s.registry, r, id) || here)
      && (IsPending(s', r, id) <==> IsPending(s, r, id) && !here)
    {
      JoinStatus(who, s, socketId, roomId, r, id);
    }
    hide IsPending;
  }

  /** The roster the server sends lists exactly the people in the room. */
  lemma FreshRoster(s: Server, roomId: string)
    ensures DistinctIds(RosterRows(s.registry, roomId)) && Sandwiched(s, roomId, Ids(RosterRows(s.registry, roomId)))
  {
    var room := RoomOf(s.registry, roomId);
    var roster := Roster(room);
    RosterIsRight(room);
    RosterIds(room);
    var rows := Rows(roster);
    forall i | 0 <= i < |rows| ensures rows[i].user.id == roster[i].0 {
      assert roster[i] in roster;
    }
    assert Ids(rows) == Keys(roster);
  }

  lemma LeaveSandwich(who: SafeDirectory, s: Server, socketId: string, r: string, ids: set<string>)
    requires Inv(who, s) && socketId in s.registry.socketRoom && Sandwiched(s, r, ids)
    ensures var roomId := s.registry.socketRoom[socketId];
            var s' := DoLeave(s, socketId, Removed(roomId, who(socketId))).0;
            var u := who(socketId).id;
            if r == roomId && !Present(s'.registry, roomId, u) then Sandwiched(s', r, ids - {u}) else Sandwiched(s', r, ids)
  {
    hide Safe;
    hide Inv;
    hide Present;
    hide LeaveKey;
    hide Without;
    var roomId, user := s.registry.socketRoom[socketId], who(socketId);
    var s' := DoLeave(s, socketId, Removed(roomId, user)).0;
    LeaveStatus(who, s, socketId, roomId, user.id);
    PresentIsNotPending(who, s, roomId, socketId);
    assert s'.pending == s.pending;
    assert !IsPending(s, roomId, user.id);
    hide IsPending;
    forall id ensures IsPending(s', r, id) == IsPending(s, r, id) {
      SamePending(s, s', r, id);
    }
    forall id ensures (Present(s'.registry, r, id) ==> Present(s.registry, r, id))
      && (!(r == roomId && id == user.id) ==> (Present(s'.registry, r, id) <==> Present(s.registry, r, id)))
    {
      LeaveStatus(who, s, socketId, r, id);
    }
    hide DoLeave;
  }

  lemma DropSandwich(who: SafeDirectory, s: Server, socketId: string, r: string, ids: set<string>)
    requires Inv(who, s) && socketId in s.registry.socketRoom && Sandwiched(s, r, ids)
    ensures Sandwiched(DoDrop(s, socketId, Removed(s.registry.socketRoom[socketId], who(socketId))), r, ids)
  {
    hide Safe;
    hide Inv;
    hide Present;
    hide Announced;
    hide Without;
    var s' := DoDrop(s, socketId, Removed(s.registry.socketRoom[socketId], who(socketId)));
    forall id ensures (Present(s'.registry, r, id) ==> Present(s.registry, r, id)) && Announced(s', r, id) == Announced(s, r, id) {
      LeaveStatus(who, s, socketId, r, id);
      DropNews(who, s, socketId, r, id);
    }
    hide DoDrop;
  }

  lemma GraceOverSandwich(who: SafeDirectory, s: Server, key: string, r: string, ids: set<string>)
    requires Inv(who, s) && key in s.pending && Sandwiched(s, r, ids)
    ensures var p := s.pending[key];
            var s' := DoGraceOver(s, key).0;
            !Present(s.registry, p.roomId, p.user.id)
            && Sandwiched(s', r, if r == p.roomId then ids - {p.user.id} else ids)
  {
    hide Safe;
    var p := s.pending[key];
    assert GoodPending(who, s, key);
    hide Inv;
    hide GoodRegistry;
    hide Present;
    hide LeaveKey;
    var s' := DoGraceOver(s, key).0;
    forall id ensures IsPending(s', r, id) <==> IsPending(s, r, id) && !(r == p.roomId && id == p.user.id) {
    }
    hide IsPending;
    hide DoGraceOver;
  }

  lemma SameSandwich(s: Server, s': Server, r: string, ids: set<string>)
    requires s'.registry == s.registry && s'.pending == s.pending && Sandwiched(s, r, ids)
    ensures Sandwiched(s', r, ids)
  {
    hide Present;
    forall id ensures IsPending(s', r, id) == IsPending(s, r, id) {
      SamePending(s, s', r, id);
    }
    hide IsPending;
  }

  // ---------- One step for one peer's queue ----------

  /** What one more message, or none, does to the roster a peer will end up with. */
  lemma OneMore(c: Client, inbox: seq<Message>)
    requires |inbox| <= 1
    ensures Applied(c.roster, c.queue + inbox)
            == if inbox == [] then Applied(c.roster, c.queue) else Reduce(Applied(c.roster, c.queue), inbox[0])
  {
    hide Reduce;
    AppliedConcat(c.roster, c.queue, inbox);
    if inbox != [] {
      assert inbox[1..] == [];
    }
  }

  lemma InboxOfFew(out: seq<Emission>, x: string)
    ensures |out| == 0 ==> Inbox(out, x) == []
    ensures |out| == 1 ==> Inbox(out, x) == if x in out[0].receivers then [out[0].message] else []
    ensures |out| == 2 ==> Inbox(out, x) == (if x in out[0].receivers then [out[0].message] else [])
                                            + (if x in out[1].receivers then [out[1].message] else [])
  {
    if |out| == 2 {
      assert Inbox(out[1..], x) == (if x in out[1].receivers then [out[1].message] else []) + Inbox(out[2..], x);
    }
  }

  lemma JoinInbox(s: Server, user: User, socketId: string, roomId: string, x: string)
    ensures var (s', out) := DoJoin(s, user, socketId, roomId);
            var rows := RosterRows(s'.registry, roomId);
            Inbox(out, x)
            == if x == socketId then [RoomUsers(rows)]
               else if (roomId, x) !in s.channels then []
               else if LeaveKey(roomId, user.id) in s.pending then [RoomUsers(rows)]
               else if Present(s.registry, roomId, user.id) then []
               else [UserJoined(Row(user, socketId))]
  {
    hide RosterRows;
    hide Present;
    hide Add;
    hide LeaveKey;
    var (s', out) := DoJoin(s, user, socketId, roomId);
    InboxOfFew(out, x);
    hide Inbox;
  }

  lemma JoinFollows(who: SafeDirectory, y: System, socketId: string, roomId: string, r: string, x: string)
    requires SystemInv(who, y) && roomId != "" && OneRoomAtATime(y, Act(Join(socketId, roomId)))
    requires (r, x) in y.server.channels + {(roomId, socketId)}
    ensures Follows(Next(who, y, Act(Join(socketId, roomId))), r, x)
  {
    hide Safe;
    var s := y.server;
    var (s', out) := DoJoin(s, who(socketId), socketId, roomId);
    var c := y.clients(x);
    var inbox := Inbox(out, x);
    assert Inv(who, s) && ((r, x) in s.channels ==> Follows(y, r, x) && s.registry.socketRoom[x] == r);
    JoinInbox(s, who(socketId), socketId, roomId, x);
    OneMore(c, inbox);
    FreshRoster(s', roomId);
    var rows := Applied(c.roster, c.queue);
    hide Inv;
    hide SystemInv;
    hide DistinctIds;
    hide Ids;
    hide Applied;
    hide RosterRows;
    hide DoJoin;
    hide Sandwiched;
    hide LeaveKey;
    hide Inbox;
    hide Present;
    if x != socketId {
      if inbox != [] { ReduceIds(rows, inbox[0]); }
      hide Reduce;
      JoinSandwich(who, s, socketId, roomId, r, Ids(rows));
    }
  }

  /** A peer that is told at most that `user` left, in step with the server. */
  lemma TellLeft(y: System, y': System, r: string, x: string, user: User, told: bool)
    requires Follows(y, r, x)
    requires y'.clients(x) == Client(y.clients(x).roster, y.clients(x).queue + (if told then [UserLeft(user)] else []))
    requires var ids := Ids(Applied(y.clients(x).roster, y.clients(x).queue));
             Sandwiched(y'.server, r, if told then ids - {user.id} else ids)
    ensures Follows(y', r, x)
  {
    var c := y.clients(x);
    OneMore(c, if told then [UserLeft(user)] else []);
    ReduceIds(Applied(c.roster, c.queue), UserLeft(user));
    hide Sandwiched;
    hide DistinctIds;
    hide Ids;
    hide Applied;
  }

  lemma LeaveFollows(who: SafeDirectory, y: System, socketId: string, r: string, x: string)
    requires SystemInv(who, y) && socketId in y.server.registry.socketRoom
    requires (r, x) in Next(who, y, Act(Leave(socketId))).server.channels
    ensures Follows(Next(who, y, Act(Leave(socketId))), r, x)
  {
    hide Safe;
    var s := y.server;
    var roomId, user := s.registry.socketRoom[socketId], who(socketId);
    FoundIn(who, s, socketId);
    var (s', out) := DoLeave(s, socketId, Removed(roomId, user));
    var rows := Applied(y.clients(x).roster, y.clients(x).queue);
    assert Follows(y, r, x) && s.registry.socketRoom[x] == r;
    InboxOfFew(out, x);
    hide Inbox;
    hide Inv;
    hide SystemInv;
    hide FindMember;
    LeaveSandwich(who, s, socketId, r, Ids(rows));
    hide Present;
    hide Sandwiched;
    hide Without;
    hide LeaveKey;
    hide Applied;
    hide Ids;
    hide Follows;
    hide ExpireIfEmpty;
    TellLeft(y, Next(who, y, Act(Leave(socketId))), r, x, user, r == roomId && !Present(s'.registry, roomId, user.id));
  }

  lemma GraceOverFollows(who: SafeDirectory, y: System, key: string, r: string, x: string)
    requires SystemInv(who, y) && key in y.server.pending && (r, x) in y.server.channels
    ensures Follows(Next(who, y, Act(GraceOver(key))), r, x)
  {
    hide Safe;
    var s := y.server;
    var p := s.pending[key];
    var out := DoGraceOver(s, key).1;
    var rows := Applied(y.clients(x).roster, y.clients(x).queue);
    assert Follows(y, r, x) && s.registry.socketRoom[x] == r;
    assert SingleRooms(s);
    InboxOfFew(out, x);
    hide Inbox;
    hide Inv;
    hide SystemInv;
    GraceOverSandwich(who, s, key, r, Ids(rows));
    hide Present;
    hide Sandwiched;
    hide Applied;
    hide Ids;
    hide Follows;
    hide ExpireIfEmpty;
    TellLeft(y, Next(who, y, Act(GraceOver(key))), r, x, p.user, r == p.roomId);
  }

  lemma QuietFollows(who: SafeDirectory, y: System, e: Event, r: string, x: string)
    requires SystemInv(who, y) && (e.Drop? || e.Expire? || e.Touch?)
    requires (r, x) in Next(who, y, Act(e)).server.channels
    ensures Follows(Next(who, y, Act(e)), r, x)
  {
    hide Safe;
    var s := y.server;
    var (s', out) := Step(who, s, e);
    var rows := Applied(y.clients(x).roster, y.clients(x).queue);
    if e.Drop? { FoundIn(who, s, e.socketId); }
    assert (r, x) in s.channels;
    assert Follows(y, r, x);
    InboxOfFew(out, x);
    hide Inbox;
    hide SystemInv;
    hide Present;
    hide Applied;
    hide Ids;
    hide FindMember;
    if e.Drop? {
      var d := Disconnected(s, e.socketId);
      SameNews(who, s, d, "", "");
      SameSandwich(s, d, r, Ids(rows));
      if e.socketId in s.registry.socketRoom {
        hide Inv;
        DropSandwich(who, d, e.socketId, r, Ids(rows));
      }
    } else {
      SameSandwich(s, s', r, Ids(rows));
    }
    assert y.clients(x).queue + [] == y.clients(x).queue;
  }

  // ---------- The invariant over whole runs ----------

  lemma JoinMatches(channels: set<(string, string)>, index: map<string, string>, r: string, x: string)
    requires Matches(channels, index) && (x in index ==> index[x] == r)
    ensures Matches(channels + {(r, x)}, index[x := r])
  {
  }

  lemma LeaveMatches(channels: set<(string, string)>, index: map<string, string>, x: string)
    requires Matches(channels, index)
    ensures x in index ==> Matches(channels - {(index[x], x)}, index - {x})
    ensures Matches((set p | p in channels && p.1 != x), index - {x})
    ensures x !in index ==> Matches((set p | p in channels && p.1 != x), index)
  {
  }

  lemma StepKeepsSingleRooms(who: SafeDirectory, y: System, e: Event)
    requires Inv(who, y.server) && SingleRooms(y.server) && OneRoomAtATime(y, Act(e))
    ensures SingleRooms(Step(who, y.server, e).0)
  {
    hide Safe;
    hide Present;
    hide LeaveKey;
    hide Matches;
    hide FindMember;
    var s := y.server;
    match e
    case Join(x, r) => JoinMatches(s.channels, s.registry.socketRoom, r, x);
    case Leave(x) =>
      FoundIn(who, s, x);
      LeaveMatches(s.channels, s.registry.socketRoom, x);
    case Drop(x) =>
      FoundIn(who, s, x);
      LeaveMatches(s.channels, s.registry.socketRoom, x);
    case _ =>
  }

  lemma ActKeepsInv(who: SafeDirectory, y: System, e: Event)
    requires SystemInv(who, y) && OneRoomAtATime(y, Act(e))
    ensures SystemInv(who, Next(who, y, Act(e)))
  {
    hide Safe;
    hide Follows;
    hide Inv;
    hide SingleRooms;
    StepNews(who, y.server, e, "", "");
    StepKeepsSingleRooms(who, y, e);
    var y' := Next(who, y, Act(e));
    forall r, x | (r, x) in y'.server.channels ensures Follows(y', r, x) {
      EventFollows(who, y, e, r, x);
    }
  }

  lemma EventFollows(who: SafeDirectory, y: System, e: Event, r: string, x: string)
    requires SystemInv(who, y) && OneRoomAtATime(y, Act(e)) && (r, x) in Next(who, y, Act(e)).server.channels
    ensures Follows(Next(who, y, Act(e)), r, x)
  {
    hide Safe;
    hide Follows;
    hide Inv;
    match e
    case Join(socketId, roomId) =>
      if roomId == "" { NothingFollows(who, y, e, r, x); } else { JoinFollows(who, y, socketId, roomId, r, x); }
    case Leave(socketId) =>
      FoundIn(who, y.server, socketId);
      if socketId in y.server.registry.socketRoom { LeaveFollows(who, y, socketId, r, x); }
      else { NothingFollows(who, y, e, r, x); }
    case GraceOver(key) =>
      if key in y.server.pending { GraceOverFollows(who, y, key, r, x); }
      else { NothingFollows(who, y, e, r, x); }
    case _ => QuietFollows(who, y, e, r, x);
  }

  lemma NothingFollows(who: SafeDirectory, y: System, e: Event, r: string, x: string)
    requires Step(who, y.server, e) == (y.server, []) && Follows(y, r, x)
    ensures Follows(Next(who, y, Act(e)), r, x)
  {
    hide Step;
    InboxOfFew([], x);
    assert y.clients(x).queue + [] == y.clients(x).queue;
  }

  lemma DeliverKeepsInv(who: SafeDirectory, y: System, socketId: string)
    requires SystemInv(who, y)
    ensures SystemInv(who, Next(who, y, Deliver(socketId)))
  {
    hide Safe;
    hide Inv;
    hide SingleRooms;
    hide Sandwiched;
    hide Reduce;
    var y' := Next(who, y, Deliver(socketId));
    forall r, x | (r, x) in y'.server.channels ensures Follows(y', r, x) {
      assert Follows(y, r, x);
    }
  }

  lemma {:induction false} RunKeepsInv(who: SafeDirectory, y: System, run: seq<Action>)
    requires SystemInv(who, y) && LegalActions(who, y, run)
    ensures SystemInv(who, Reached(who, y, run))
    decreases |run|
  {
    hide Safe;
    hide SystemInv;
    hide Next;
    if run != [] {
      match run[0] {
        case Act(e) => ActKeepsInv(who, y, e);
        case Deliver(socketId) => DeliverKeepsInv(who, y, socketId);
      }
      RunKeepsInv(who, Next(who, y, run[0]), run[1..]);
    }
  }

  function Start(): System { System(EMPTY_SERVER, s => Client([], [])) }

  ghost predicate NobodyPending(s: Server, roomId: string) {
    forall id :: !IsPending(s, roomId, id)
  }

  /** Everybody in the room is listed once, and nobody else but users whose leave is pending. */
  ghost predicate Shows(shown: seq<Row>, s: Server, roomId: string) {
    var here := UserIds(RoomOf(s.registry, roomId));
    && DistinctIds(shown) && here <= Ids(shown)
    && (forall id :: id in Ids(shown) ==> id in here || IsPending(s, roomId, id))
    && (NobodyPending(s, roomId) ==> Ids(shown) == here)
  }

  /** A peer in the room that has applied its queue. */
  ghost predicate CaughtUp(y: System, roomId: string, socketId: string) {
    (roomId, socketId) in y.server.channels && y.clients(socketId).queue == []
  }

  /** With ids that do not collide, a peer that has applied its queue lists everybody in its room once, and nobody outside
      the room and its pending leaves; with none pending the list is the room. */
  lemma RosterSandwich(who: SafeDirectory, run: seq<Action>, roomId: string, socketId: string)
    requires LegalActions(who, Start(), run) && CaughtUp(Reached(who, Start(), run), roomId, socketId)
    ensures var y := Reached(who, Start(), run); Shows(y.clients(socketId).roster, y.server, roomId)
  {
    hide Safe;
    var y := Reached(who, Start(), run);
    RunKeepsInv(who, Start(), run);
    assert Follows(y, roomId, socketId);
    hide Reached;
    hide Ids;
    hide UserIds;
    hide IsPending;
  }
}
