/** What peers are told over whole runs: arrivals and departures alternate. */
module PresenceTheorems {
  import opened Wrappers
  import opened OrderedMap
  import opened RoomManager
  import opened Presence

  // ---------- Keys of the deferred leaves ----------

  predicate EndsWith(s: string, t: string) {
    |t| <= |s| && s[|s| - |t|..] == t
  }

  /** In suitable rooms both ids give the same key. */
  predicate Collides(u: string, v: string) {
    u != v && EndsWith("::" + u, "::" + v)
  }

  ghost predicate Safe(who: Directory) {
    forall a, b :: !Collides(who(a).id, who(b).id)
  }

  type SafeDirectory = who: Directory | Safe(who) ghost witness ((s: string) => User("", ""))

  lemma KeyEnd(r: string, u: string)
    ensures EndsWith(LeaveKey(r, u), "::" + u)
    ensures LeaveKey(r, u) == r + ("::" + u)
  {
  }

  lemma SuffixOfSuffix(k: string, s: string, t: string)
    requires EndsWith(k, s) && EndsWith(k, t) && |t| <= |s|
    ensures EndsWith(s, t)
  {
    assert s[|s| - |t|..] == k[|k| - |t|..];
  }

  lemma KeyDeterminesLeave(r: string, u: string, q: string, v: string)
    requires LeaveKey(r, u) == LeaveKey(q, v) && !Collides(u, v) && !Collides(v, u)
    ensures r == q && u == v
  {
    hide Collides;
    KeyEnd(r, u);
    KeyEnd(q, v);
    var k := LeaveKey(r, u);
    if |v| <= |u| {
      SuffixOfSuffix(k, "::" + u, "::" + v);
    } else {
      SuffixOfSuffix(k, "::" + v, "::" + u);
    }
    assert u == v by { DistinctWouldCollide(u, v); }
    assert r == k[..|k| - |u| - 2] == q;
  }

  lemma DistinctWouldCollide(u: string, v: string)
    requires EndsWith("::" + u, "::" + v) || EndsWith("::" + v, "::" + u)
    requires !Collides(u, v) && !Collides(v, u)
    ensures u == v
  {
  }

  lemma LongerKeyHasColon(u: string, v: string)
    requires EndsWith("::" + u, "::" + v) && |v| < |u|
    ensures ':' in u
  {
    var s, t := "::" + u, "::" + v;
    assert s[|s| - |t|..][1] == t[1] == ':';
    assert u[|u| - |v| - 1] == s[|s| - |t| + 1];
  }

  lemma EqualLengthSuffix(u: string, v: string)
    requires EndsWith("::" + u, "::" + v) && |u| == |v|
    ensures u == v
  {
    assert u == ("::" + u)[2..] && v == ("::" + v)[2..];
  }

  /** Ids without a colon, as the database assigns them, are safe. */
  lemma NoColonIsSafe(who: Directory)
    requires forall s :: ':' !in who(s).id
    ensures Safe(who)
  {
    forall a, b ensures !Collides(who(a).id, who(b).id) {
      var u, v := who(a).id, who(b).id;
      if EndsWith("::" + u, "::" + v) {
        if |u| == |v| { EqualLengthSuffix(u, v); }
        else { LongerKeyHasColon(u, v); }
      }
    }
  }

  // ---------- The registry ----------

  ghost predicate GoodRoom(who: Directory, room: Room) {
    room != [] && Distinct(room) && forall p :: p in room ==> p.1 == who(p.0)
  }

  ghost predicate Located(g: Registry, socketId: string)
    requires socketId in g.socketRoom
  {
    var r := g.socketRoom[socketId];
    r != "" && r in g.rooms && Has(g.rooms[r], socketId)
  }

  ghost predicate GoodRegistry(who: Directory, g: Registry) {
    && (forall r :: r in g.rooms ==> GoodRoom(who, g.rooms[r]))
    && (forall s :: s in g.socketRoom ==> Located(g, s))
  }

  lemma AddedRoom(who: Directory, room: Room, socketId: string)
    requires room == [] || GoodRoom(who, room)
    ensures GoodRoom(who, Put(room, socketId, who(socketId)))
    ensures UserIds(Put(room, socketId, who(socketId))) == UserIds(room) + {who(socketId).id}
    ensures Has(Put(room, socketId, who(socketId)), socketId)
    ensures forall k :: Has(room, k) ==> Has(Put(room, socketId, who(socketId)), k)
  {
    var room' := Put(room, socketId, who(socketId));
    PutElements(room, socketId, who(socketId));
    PutKeepsDistinct(room, socketId, who(socketId));
    var at := IndexOf(room, socketId);
    if at < |room| {
      assert room[at] in room;
      assert room' == room;
    } else {
      assert room' == room + [(socketId, who(socketId))];
      forall id | id in UserIds(room) ensures id in UserIds(room') {
        var i :| 0 <= i < |room| && room[i].1.id == id;
        assert room'[i] == room[i];
      }
      assert room'[|room|].1.id == who(socketId).id;
      forall k | Has(room, k) ensures Has(room', k) {
        var i :| 0 <= i < |room| && room[i].0 == k;
        assert room'[i] == room[i];
      }
    }
  }

  lemma RemovedRoom(who: Directory, room: Room, socketId: string)
    requires GoodRoom(who, room) && Has(room, socketId)
    ensures Remove(room, socketId) == [] || GoodRoom(who, Remove(room, socketId))
    ensures UserIds(room) - {who(socketId).id} <= UserIds(Remove(room, socketId)) <= UserIds(room)
    ensures forall k :: Has(room, k) && k != socketId ==> Has(Remove(room, socketId), k)
  {
    var room' := Remove(room, socketId);
    RemoveElements(room, socketId);
    forall id | id in UserIds(room') ensures id in UserIds(room) {
      var i :| 0 <= i < |room'| && room'[i].1.id == id;
      assert room'[i] in room;
      var j :| 0 <= j < |room| && room[j] == room'[i];
    }
    forall id | id in UserIds(room) && id != who(socketId).id ensures id in UserIds(room') {
      var i :| 0 <= i < |room| && room[i].1.id == id;
      assert room[i] in room && room[i].0 != socketId;
      var j :| 0 <= j < |room'| && room'[j] == room[i];
    }
    forall k | Has(room, k) && k != socketId ensures Has(room', k) {
      var i :| 0 <= i < |room| && room[i].0 == k;
      assert room[i] in room';
    }
  }

  lemma Added(who: Directory, g: Registry, roomId: string, socketId: string)
    requires GoodRegistry(who, g) && roomId != ""
    ensures GoodRegistry(who, Add(g, roomId, socketId, who(socketId)))
    ensures UserIds(RoomOf(Add(g, roomId, socketId, who(socketId)), roomId))
            == UserIds(RoomOf(g, roomId)) + {who(socketId).id}
  {
    AddedRoom(who, RoomOf(g, roomId), socketId);
    hide GoodRoom;
    hide UserIds;
    hide Put;
    hide Has;
    var g' := Add(g, roomId, socketId, who(socketId));
    forall s | s in g'.socketRoom ensures Located(g', s) {
      if s != socketId { assert Located(g, s); }
    }
  }

  /** A socket in the index is found, with the user that owns it. */
  lemma Found(who: Directory, g: Registry, socketId: string)
    requires GoodRegistry(who, g)
    ensures FindMember(g, socketId)
            == if socketId in g.socketRoom then Some(Removed(g.socketRoom[socketId], who(socketId))) else None
  {
    if socketId in g.socketRoom {
      assert Located(g, socketId);
      var room := g.rooms[g.socketRoom[socketId]];
      assert room[IndexOf(room, socketId)] in room;
    }
  }

  lemma Withdrawn(who: Directory, g: Registry, socketId: string)
    requires GoodRegistry(who, g) && socketId in g.socketRoom
    ensures var r := g.socketRoom[socketId];
            var g' := Without(g, r, socketId);
            GoodRegistry(who, g') && r in g.rooms
            && UserIds(RoomOf(g, r)) - {who(socketId).id} <= UserIds(RoomOf(g', r)) <= UserIds(RoomOf(g, r))
            && who(socketId).id in UserIds(RoomOf(g, r))
  {
    var r := g.socketRoom[socketId];
    var g' := Without(g, r, socketId);
    assert Located(g, socketId);
    RemovedRoom(who, g.rooms[r], socketId);
    var at := IndexOf(g.rooms[r], socketId);
    assert g.rooms[r][at] in g.rooms[r];
    forall s | s in g'.socketRoom ensures Located(g', s) {
      assert Located(g, s);
    }
  }

  // ---------- The invariant and what each step announces ----------

  ghost predicate Known(who: Directory, user: User) {
    exists socketId :: who(socketId) == user
  }

  /** A pending leave means nobody of that user is in the room. */
  ghost predicate GoodPending(who: Directory, s: Server, key: string)
    requires key in s.pending
  {
    var p := s.pending[key];
    key == LeaveKey(p.roomId, p.user.id) && Known(who, p.user) && !Present(s.registry, p.roomId, p.user.id)
  }

  ghost predicate Inv(who: Directory, s: Server) {
    GoodRegistry(who, s.registry) && forall key :: key in s.pending ==> GoodPending(who, s, key)
  }

  predicate IsPending(s: Server, roomId: string, userId: string) {
    var key := LeaveKey(roomId, userId);
    key in s.pending && s.pending[key].roomId == roomId && s.pending[key].user.id == userId
  }

  /** What the room has been told about the user: announced exactly when present or pending. */
  predicate Announced(s: Server, roomId: string, userId: string) {
    Present(s.registry, roomId, userId) || IsPending(s, roomId, userId)
  }

  /** `true` for a user-joined and `false` for a user-left about this user in this room. */
  function NewsOf(e: Emission, roomId: string, userId: string): seq<bool> {
    if e.roomId != roomId then []
    else match e.message
      case RoomUsers(_) => []
      case UserJoined(row) => if row.user.id == userId then [true] else []
      case UserLeft(user) => if user.id == userId then [false] else []
  }

  function News(out: seq<Emission>, roomId: string, userId: string): seq<bool> {
    if out == [] then [] else NewsOf(out[0], roomId, userId) + News(out[1..], roomId, userId)
  }

  function Change(before: bool, after: bool): seq<bool> {
    if before == after then [] else [after]
  }

  lemma NewsOfFew(out: seq<Emission>, roomId: string, userId: string)
    ensures |out| == 0 ==> News(out, roomId, userId) == []
    ensures |out| == 1 ==> News(out, roomId, userId) == NewsOf(out[0], roomId, userId)
    ensures |out| == 2 ==> News(out, roomId, userId) == NewsOf(out[0], roomId, userId) + NewsOf(out[1], roomId, userId)
  {
    if |out| == 2 {
      assert News(out[1..], roomId, userId) == NewsOf(out[1], roomId, userId) + News(out[2..], roomId, userId);
    }
  }

  lemma {:induction false} NewsOfRosters(out: seq<Emission>, r: string, u: string)
    requires forall i :: 0 <= i < |out| ==> out[i].message.RoomUsers?
    ensures News(out, r, u) == []
  {
    if out != [] { NewsOfRosters(out[1..], r, u); }
  }

  lemma JoinedNews(welcome: Emission, roomId: string, receivers: set<string>, row: Row, r: string, u: string)
    requires welcome.message.RoomUsers?
    ensures News([welcome, Emission(roomId, receivers, UserJoined(row))], r, u)
            == if r == roomId && u == row.user.id then [true] else []
  {
    NewsOfFew([welcome, Emission(roomId, receivers, UserJoined(row))], r, u);
  }

  /** In a safe directory a key in use belongs to exactly the room and user it was made for. */
  lemma KeyIsPending(who: SafeDirectory, s: Server, roomId: string, socketId: string)
    requires Inv(who, s)
    ensures LeaveKey(roomId, who(socketId).id) in s.pending <==> IsPending(s, roomId, who(socketId).id)
  {
    var key := LeaveKey(roomId, who(socketId).id);
    hide Present;
    hide LeaveKey;
    hide Collides;
    if key in s.pending {
      assert GoodPending(who, s, key);
      var p := s.pending[key];
      var x :| who(x) == p.user;
      assert !Collides(who(x).id, who(socketId).id) && !Collides(who(socketId).id, who(x).id);
      KeyDeterminesLeave(p.roomId, p.user.id, roomId, who(socketId).id);
    }
  }

  lemma JoinKeepsInv(who: SafeDirectory, s: Server, socketId: string, roomId: string)
    requires Inv(who, s) && roomId != ""
    ensures Inv(who, DoJoin(s, who(socketId), socketId, roomId).0)
  {
    hide Safe;
    Added(who, s.registry, roomId, socketId);
    var s' := DoJoin(s, who(socketId), socketId, roomId).0;
    hide GoodRegistry;
    hide UserIds;
    hide Put;
    forall key | key in s'.pending ensures GoodPending(who, s', key) {
      assert GoodPending(who, s, key);
    }
  }

  lemma JoinStatus(who: SafeDirectory, s: Server, socketId: string, roomId: string, r: string, u: string)
    requires Inv(who, s) && roomId != ""
    ensures var s' := DoJoin(s, who(socketId), socketId, roomId).0;
            var here := r == roomId && u == who(socketId).id;
            (Present(s'.registry, r, u) <==> Present(s.registry, r, u) || here)
            && (IsPending(s', r, u) <==> IsPending(s, r, u) && !here)
  {
    hide Safe;
    Added(who, s.registry, roomId, socketId);
    KeyIsPending(who, s, roomId, socketId);
    hide Inv;
    hide UserIds;
    hide Put;
    hide LeaveKey;
    hide RosterRows;
    hide Others;
  }

  lemma JoinNews(who: SafeDirectory, s: Server, socketId: string, roomId: string, r: string, u: string)
    requires Inv(who, s) && roomId != ""
    ensures var (s', out) := DoJoin(s, who(socketId), socketId, roomId);
            News(out, r, u) == Change(Announced(s, r, u), Announced(s', r, u))
  {
    hide Safe;
    var (s', out) := DoJoin(s, who(socketId), socketId, roomId);
    JoinStatus(who, s, socketId, roomId, r, u);
    KeyIsPending(who, s, roomId, socketId);
    hide Inv;
    hide Present;
    hide IsPending;
    hide Add;
    hide News;
    hide LeaveKey;
    hide RosterRows;
    hide Others;
    if |out| == 2 && out[1].message.UserJoined? {
      JoinedNews(out[0], roomId, out[1].receivers, out[1].message.row, r, u);
    } else {
      NewsOfRosters(out, r, u);
    }
  }

  lemma LeaveKeepsInv(who: SafeDirectory, s: Server, socketId: string)
    requires Inv(who, s) && socketId in s.registry.socketRoom
    ensures Inv(who, DoLeave(s, socketId, Removed(s.registry.socketRoom[socketId], who(socketId))).0)
  {
    hide Safe;
    var roomId := s.registry.socketRoom[socketId];
    Withdrawn(who, s.registry, socketId);
    var s' := DoLeave(s, socketId, Removed(roomId, who(socketId))).0;
    hide GoodRegistry;
    hide UserIds;
    hide Remove;
    forall key | key in s'.pending ensures GoodPending(who, s', key) {
      assert GoodPending(who, s, key);
    }
  }

  lemma LeaveStatus(who: SafeDirectory, s: Server, socketId: string, r: string, u: string)
    requires Inv(who, s) && socketId in s.registry.socketRoom
    ensures var roomId := s.registry.socketRoom[socketId];
            var registry := Without(s.registry, roomId, socketId);
            var here := r == roomId && u == who(socketId).id;
            (Present(registry, r, u) ==> Present(s.registry, r, u))
            && (here ==> Present(s.registry, r, u))
            && (!here ==> (Present(registry, r, u) <==> Present(s.registry, r, u)))
  {
    hide Safe;
    Withdrawn(who, s.registry, socketId);
    hide Inv;
    hide UserIds;
    hide Remove;
  }

  lemma PresentIsNotPending(who: SafeDirectory, s: Server, roomId: string, socketId: string)
    requires Inv(who, s) && Present(s.registry, roomId, who(socketId).id)
    ensures LeaveKey(roomId, who(socketId).id) !in s.pending
  {
    hide Safe;
    hide Present;
    hide LeaveKey;
    hide GoodRegistry;
    var key := LeaveKey(roomId, who(socketId).id);
    KeyIsPending(who, s, roomId, socketId);
    assert key in s.pending ==> GoodPending(who, s, key);
  }

  lemma SamePending(s: Server, s': Server, r: string, u: string)
    requires s'.pending == s.pending
    ensures IsPending(s', r, u) == IsPending(s, r, u)
  {
  }

  lemma LeftNews(roomId: string, receivers: set<string>, user: User, r: string, u: string)
    ensures News([Emission(roomId, receivers, UserLeft(user))], r, u)
            == if r == roomId && u == user.id then [false] else []
  {
    NewsOfFew([Emission(roomId, receivers, UserLeft(user))], r, u);
  }

  lemma LeaveNews(who: SafeDirectory, s: Server, socketId: string, r: string, u: string)
    requires Inv(who, s) && socketId in s.registry.socketRoom
    ensures var (s', out) := DoLeave(s, socketId, Removed(s.registry.socketRoom[socketId], who(socketId)));
            News(out, r, u) == Change(Announced(s, r, u), Announced(s', r, u))
  {
    hide Safe;
    var roomId, user := s.registry.socketRoom[socketId], who(socketId);
    var (s', out) := DoLeave(s, socketId, Removed(roomId, user));
    hide Inv;
    hide Present;
    hide Without;
    hide News;
    hide LeaveKey;
    hide Others;
    hide IsPending;
    LeaveStatus(who, s, socketId, roomId, user.id);
    PresentIsNotPending(who, s, roomId, socketId);
    assert s'.pending == s.pending;
    SamePending(s, s', r, u);
    LeaveStatus(who, s, socketId, r, u);
    if out == [] {
      NewsOfFew([], r, u);
    } else {
      LeftNews(roomId, out[0].receivers, user, r, u);
    }
  }

  lemma DropKeepsInv(who: SafeDirectory, s: Server, socketId: string)
    requires Inv(who, s) && socketId in s.registry.socketRoom
    ensures Inv(who, DoDrop(s, socketId, Removed(s.registry.socketRoom[socketId], who(socketId))))
  {
    hide Safe;
    var roomId := s.registry.socketRoom[socketId];
    Withdrawn(who, s.registry, socketId);
    var s' := DoDrop(s, socketId, Removed(roomId, who(socketId)));
    assert Known(who, who(socketId));
    hide GoodRegistry;
    hide UserIds;
    hide Remove;
    hide Known;
    forall key | key in s'.pending ensures GoodPending(who, s', key) {
      assert key in s.pending ==> GoodPending(who, s, key);
    }
  }

  lemma AddedPending(s: Server, s': Server, roomId: string, user: User, r: string, u: string)
    requires LeaveKey(roomId, user.id) !in s.pending
    requires s'.pending == s.pending[LeaveKey(roomId, user.id) := PendingLeave(roomId, user)]
    ensures IsPending(s', r, u) <==> IsPending(s, r, u) || (r == roomId && u == user.id)
  {
    hide LeaveKey;
  }

  lemma DropNews(who: SafeDirectory, s: Server, socketId: string, r: string, u: string)
    requires Inv(who, s) && socketId in s.registry.socketRoom
    ensures var s' := DoDrop(s, socketId, Removed(s.registry.socketRoom[socketId], who(socketId)));
            Announced(s, r, u) == Announced(s', r, u)
  {
    hide Safe;
    var roomId, user := s.registry.socketRoom[socketId], who(socketId);
    var s' := DoDrop(s, socketId, Removed(roomId, user));
    hide Inv;
    hide Present;
    hide Without;
    hide LeaveKey;
    hide IsPending;
    LeaveStatus(who, s, socketId, roomId, user.id);
    PresentIsNotPending(who, s, roomId, socketId);
    LeaveStatus(who, s, socketId, r, u);
    if s'.pending == s.pending {
      SamePending(s, s', r, u);
    } else {
      AddedPending(s, s', roomId, user, r, u);
    }
  }

  lemma GraceOverNews(who: SafeDirectory, s: Server, key: string, r: string, u: string)
    requires Inv(who, s) && key in s.pending
    ensures var (s', out) := DoGraceOver(s, key);
            Inv(who, s') && News(out, r, u) == Change(Announced(s, r, u), Announced(s', r, u))
  {
    hide Safe;
    var (s', out) := DoGraceOver(s, key);
    var p := s.pending[key];
    assert GoodPending(who, s, key);
    hide GoodRegistry;
    hide UserIds;
    hide News;
    hide LeaveKey;
    NewsOfFew(out, r, u);
    forall k | k in s'.pending ensures GoodPending(who, s', k) {
      assert GoodPending(who, s, k);
    }
  }

  /** Every step keeps the invariant and announces exactly the changes it makes. */
  lemma StepNews(who: SafeDirectory, s: Server, e: Event, r: string, u: string)
    requires Inv(who, s)
    ensures var (s', out) := Step(who, s, e);
            Inv(who, s') && News(out, r, u) == Change(Announced(s, r, u), Announced(s', r, u))
  {
    hide Safe;
    hide Announced;
    hide Inv;
    hide DoJoin;
    hide DoLeave;
    hide DoDrop;
    hide DoGraceOver;
    NewsOfFew([], r, u);
    match e
    case Join(socketId, roomId) =>
      if roomId != "" {
        JoinKeepsInv(who, s, socketId, roomId);
        JoinNews(who, s, socketId, roomId, r, u);
      }
    case Leave(socketId) =>
      FoundIn(who, s, socketId);
      if socketId in s.registry.socketRoom {
        LeaveKeepsInv(who, s, socketId);
        LeaveNews(who, s, socketId, r, u);
      }
    case Drop(socketId) =>
      FoundIn(who, s, socketId);
      SameNews(who, s, Disconnected(s, socketId), r, u);
      if socketId in s.registry.socketRoom {
        DropKeepsInv(who, Disconnected(s, socketId), socketId);
        DropNews(who, Disconnected(s, socketId), socketId, r, u);
      }
    case GraceOver(key) =>
      if key in s.pending { GraceOverNews(who, s, key, r, u); }
    case Expire(_) => SameNews(who, s, Step(who, s, e).0, r, u);
    case Touch(_) => SameNews(who, s, Step(who, s, e).0, r, u);
  }

  lemma FoundIn(who: Directory, s: Server, socketId: string)
    requires Inv(who, s)
    ensures FindMember(s.registry, socketId)
            == if socketId in s.registry.socketRoom then Some(Removed(s.registry.socketRoom[socketId], who(socketId))) else None
  {
    Found(who, s.registry, socketId);
  }

  lemma SameNews(who: Directory, s: Server, s': Server, r: string, u: string)
    requires Inv(who, s) && s'.registry == s.registry && s'.pending == s.pending
    ensures Inv(who, s') && Announced(s', r, u) == Announced(s, r, u)
  {
    hide GoodRegistry;
    forall key | key in s'.pending ensures GoodPending(who, s', key) {
      assert GoodPending(who, s, key);
    }
  }

  // ---------- Joined and left alternate ----------

  function Emitted(who: Directory, s: Server, run: seq<Event>): seq<Emission>
    decreases |run|
  {
    if run == [] then []
    else
      var (s', out) := Step(who, s, run[0]);
      out + Emitted(who, s', run[1..])
  }

  function After(who: Directory, s: Server, run: seq<Event>): Server
    decreases |run|
  {
    if run == [] then s else After(who, Step(who, s, run[0]).0, run[1..])
  }

  /** Alternating, the first being `first`. */
  predicate AlternatesFrom(news: seq<bool>, first: bool) {
    news == [] || (news[0] == first && AlternatesFrom(news[1..], !first))
  }

  lemma {:induction false} NewsConcat(p: seq<Emission>, q: seq<Emission>, r: string, u: string)
    ensures News(p + q, r, u) == News(p, r, u) + News(q, r, u)
  {
    hide NewsOf;
    if p == [] {
      assert p + q == q;
    } else {
      assert (p + q)[0] == p[0] && (p + q)[1..] == p[1..] + q;
      NewsConcat(p[1..], q, r, u);
      assert NewsOf(p[0], r, u) + (News(p[1..], r, u) + News(q, r, u))
             == (NewsOf(p[0], r, u) + News(p[1..], r, u)) + News(q, r, u);
    }
  }

  lemma {:induction false} NewsAlternates(who: SafeDirectory, s: Server, run: seq<Event>, r: string, u: string)
    requires Inv(who, s)
    ensures AlternatesFrom(News(Emitted(who, s, run), r, u), !Announced(s, r, u))
    decreases |run|
  {
    hide Safe;
    hide Announced;
    hide Inv;
    hide Step;
    NewsOfFew([], r, u);
    if run != [] {
      var (s', out) := Step(who, s, run[0]);
      var rest := Emitted(who, s', run[1..]);
      StepNews(who, s, run[0], r, u);
      NewsAlternates(who, s', run[1..], r, u);
      NewsConcat(out, rest, r, u);
      if Announced(s, r, u) == Announced(s', r, u) {
        assert [] + News(rest, r, u) == News(rest, r, u);
      } else {
        assert ([Announced(s', r, u)] + News(rest, r, u))[1..] == News(rest, r, u);
      }
    }
  }

  ghost predicate AlternatesEverywhere(who: Directory) {
    forall run, r, u :: AlternatesFrom(News(Emitted(who, EMPTY_SERVER, run), r, u), true)
  }

  lemma AlternatesExactlyWhenSafe(who: Directory)
    ensures AlternatesEverywhere(who) <==> Safe(who)
  {
    if Safe(who) {
      SafeAlternates(who);
    } else {
      var a, b :| Collides(who(a).id, who(b).id);
      var run := CollisionRun(who, a, b);
      CollisionNews(who, a, b);
      assert !AlternatesFrom(News(Emitted(who, EMPTY_SERVER, run), SecondRoom(who, a, b), who(b).id), true);
    }
  }

  lemma SafeAlternates(who: SafeDirectory)
    ensures AlternatesEverywhere(who)
  {
    forall run, r, u ensures AlternatesFrom(News(Emitted(who, EMPTY_SERVER, run), r, u), true) {
      NewsAlternates(who, EMPTY_SERVER, run, r, u);
    }
  }

  /** The room whose key for `b` is the key of `a` in room "r". */
  function SecondRoom(who: Directory, a: string, b: string): string {
    var key := LeaveKey("r", who(a).id);
    if |who(b).id| + 2 <= |key| then key[..|key| - |who(b).id| - 2] else ""
  }

  /** `b` joins while the leave of `a` is pending under the same key, and then leaves. */
  function CollisionRun(who: Directory, a: string, b: string): seq<Event> {
    [Join(a, "r"), Drop(a), Join(b, SecondRoom(who, a, b)), Leave(b)]
  }

  lemma CollidingKeys(who: Directory, a: string, b: string)
    requires Collides(who(a).id, who(b).id)
    ensures a != b && SecondRoom(who, a, b) != "" && SecondRoom(who, a, b) != "r"
    ensures LeaveKey(SecondRoom(who, a, b), who(b).id) == LeaveKey("r", who(a).id)
  {
    var u, v := who(a).id, who(b).id;
    if |u| == |v| { EqualLengthSuffix(u, v); }
    var key, q := LeaveKey("r", u), SecondRoom(who, a, b);
    assert key == "r" + ("::" + u);
    assert key[|key| - |v| - 2..] == ("::" + u)[|u| - |v|..] == "::" + v;
    assert q + ("::" + v) == q + "::" + v;
    assert |q| == 1 + |u| - |v|;
  }

  lemma Alone(who: Directory, s: Server, socketId: string, roomId: string)
    requires s.registry == Registry(map[], map[])
    ensures var s' := DoJoin(s, who(socketId), socketId, roomId).0;
            s'.registry == Registry(map[roomId := [(socketId, who(socketId))]], map[socketId := roomId])
  {
  }

  lemma AloneLeaves(user: User, socketId: string, roomId: string)
    requires roomId != ""
    ensures var g := Registry(map[roomId := [(socketId, user)]], map[socketId := roomId]);
            FindMember(g, socketId) == Some(Removed(roomId, user))
            && Without(g, roomId, socketId) == Registry(map[], map[])
            && !Present(Registry(map[], map[]), roomId, user.id)
  {
    var room := [(socketId, user)];
    assert IndexOf(room, socketId) == 0;
    assert Remove(room, socketId) == [];
  }

  lemma EmittedTwo(who: Directory, s: Server, e: Event, f: Event)
    ensures var (s1, out1) := Step(who, s, e);
            Emitted(who, s, [e, f]) == out1 + Step(who, s1, f).1 && After(who, s, [e, f]) == Step(who, s1, f).0
  {
    hide Step;
    var s1 := Step(who, s, e).0;
    assert [e, f][1..] == [f] && [f][1..] == [];
    assert Emitted(who, s1, [f]) == Step(who, s1, f).1 + [];
    assert After(who, s1, [f]) == Step(who, s1, f).0;
  }

  lemma {:induction false} EmittedConcat(who: Directory, s: Server, p: seq<Event>, q: seq<Event>)
    ensures Emitted(who, s, p + q) == Emitted(who, s, p) + Emitted(who, After(who, s, p), q)
    decreases |p|
  {
    hide Step;
    if p == [] {
      assert p + q == q;
    } else {
      assert (p + q)[0] == p[0] && (p + q)[1..] == p[1..] + q;
      EmittedConcat(who, Step(who, s, p[0]).0, p[1..], q);
    }
  }

  lemma CollisionNews(who: Directory, a: string, b: string)
    requires Collides(who(a).id, who(b).id)
    ensures News(Emitted(who, EMPTY_SERVER, CollisionRun(who, a, b)), SecondRoom(who, a, b), who(b).id) == [false]
  {
    var q, v := SecondRoom(who, a, b), who(b).id;
    var first, second := [Join(a, "r"), Drop(a)], [Join(b, q), Leave(b)];
    CollidingKeys(who, a, b);
    hide Collides;
    hide SecondRoom;
    hide News;
    assert CollisionRun(who, a, b) == first + second;
    var s2 := After(who, EMPTY_SERVER, first);
    EmittedConcat(who, EMPTY_SERVER, first, second);
    JoinAndDrop(who, a, q, v);
    JoinAndLeave(who, s2, b, q);
    NewsConcat(Emitted(who, EMPTY_SERVER, first), Emitted(who, s2, second), q, v);
  }

  lemma JoinAndDrop(who: Directory, a: string, q: string, v: string)
    requires q != "r"
    ensures var s := After(who, EMPTY_SERVER, [Join(a, "r"), Drop(a)]);
            s.registry == Registry(map[], map[]) && LeaveKey("r", who(a).id) in s.pending
    ensures News(Emitted(who, EMPTY_SERVER, [Join(a, "r"), Drop(a)]), q, v) == []
  {
    var (s1, out1) := DoJoin(EMPTY_SERVER, who(a), a, "r");
    Alone(who, EMPTY_SERVER, a, "r");
    AloneLeaves(who(a), a, "r");
    EmittedTwo(who, EMPTY_SERVER, Join(a, "r"), Drop(a));
    hide Without;
    hide FindMember;
    hide Add;
    hide Present;
    hide RosterRows;
    hide Others;
    hide LeaveKey;
    hide News;
    assert out1 + [] == out1;
    NewsElsewhere(out1, q, v);
  }

  lemma JoinAndLeave(who: Directory, s: Server, b: string, q: string)
    requires s.registry == Registry(map[], map[]) && LeaveKey(q, who(b).id) in s.pending && q != ""
    ensures News(Emitted(who, s, [Join(b, q), Leave(b)]), q, who(b).id) == [false]
  {
    var (s1, out1) := DoJoin(s, who(b), b, q);
    Alone(who, s, b, q);
    AloneLeaves(who(b), b, q);
    EmittedTwo(who, s, Join(b, q), Leave(b));
    hide Without;
    hide FindMember;
    hide Add;
    hide Present;
    hide RosterRows;
    hide Others;
    hide LeaveKey;
    hide News;
    var out2 := DoLeave(s1, b, Removed(q, who(b))).1;
    NewsOfRosters(out1, q, who(b).id);
    LeftNews(q, out2[0].receivers, who(b), q, who(b).id);
    NewsConcat(out1, out2, q, who(b).id);
  }

  lemma {:induction false} NewsElsewhere(out: seq<Emission>, r: string, u: string)
    requires forall i :: 0 <= i < |out| ==> out[i].roomId != r
    ensures News(out, r, u) == []
  {
    if out != [] { NewsElsewhere(out[1..], r, u); }
  }
}
