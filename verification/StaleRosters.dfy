/** Every peer's participant list comes right exactly when no two user ids share the key of a deferred leave. */
module StaleRosters {
  import opened Wrappers
  import opened OrderedMap
  import opened RoomManager
  import opened Presence
  import opened PresenceTheorems
  import opened RosterTheorems

  ghost predicate RostersRight(who: Directory) {
    forall run, r, x :: LegalActions(who, Start(), run) && CaughtUp(Reached(who, Start(), run), r, x) ==>
      Shows(Reached(who, Start(), run).clients(x).roster, Reached(who, Start(), run).server, r)
  }

  /** `a` drops out of `r` while `p` watches, and `b` joins `q` within the grace period. */
  function StaleRun(p: string, a: string, r: string, b: string, q: string): seq<Action> {
    [Act(Join(p, r)), Act(Join(a, r)), Act(Drop(a)), Act(Join(b, q)), Deliver(p), Deliver(p)]
  }

  /** The leave that `b` cancels is the one `p` was waiting for. */
  ghost predicate Confused(who: Directory, p: string, a: string, r: string, b: string, q: string) {
    && p != a && p != b && a != b && who(p).id != who(a).id
    && r != "" && q != "" && r != q && LeaveKey(r, who(a).id) == LeaveKey(q, who(b).id)
  }

  /** The server, and what the watching peer has been sent, after the first, second and third event. */
  function Watching(who: Directory, p: string, r: string): Server {
    Server(Registry(map[r := [(p, who(p))]], map[p := r]), {(r, p)}, map[], {r}, {})
  }

  lemma FirstJoins(who: Directory, p: string, r: string)
    requires r != ""
    ensures Step(who, EMPTY_SERVER, Join(p, r)).0 == Watching(who, p, r)
    ensures exists rows :: Inbox(Step(who, EMPTY_SERVER, Join(p, r)).1, p) == [RoomUsers(rows)]
  {
    Alone(who, EMPTY_SERVER, p, r);
    JoinInbox(EMPTY_SERVER, who(p), p, r, p);
    hide Add, RosterRows, Inbox, LeaveKey, Present, Others;
    var s := DoJoin(EMPTY_SERVER, who(p), p, r).0;
    assert s.pending == map[] && s.sessions == {r} && s.channels == {(r, p)} && s.expiry == {};
  }

  lemma SecondJoins(who: Directory, p: string, a: string, r: string)
    requires p != a && who(p).id != who(a).id && r != ""
    ensures var s := Step(who, Watching(who, p, r), Join(a, r)).0;
            && s.registry == Registry(map[r := [(p, who(p)), (a, who(a))]], map[p := r, a := r])
            && s.channels == {(r, p), (r, a)} && s.pending == map[]
    ensures Inbox(Step(who, Watching(who, p, r), Join(a, r)).1, p) == [UserJoined(Row(who(a), a))]
  {
    var s := Watching(who, p, r);
    JoinInbox(s, who(a), a, r, p);
    assert IndexOf([(p, who(p))], a) == 1;
    assert [(p, who(p))] + [(a, who(a))] == [(p, who(p)), (a, who(a))];
    assert !Present(s.registry, r, who(a).id);
    hide RosterRows, Inbox, LeaveKey, Present, Others, IndexOf;
  }

  lemma SecondDrops(who: Directory, s: Server, p: string, a: string, r: string)
    requires p != a && who(p).id != who(a).id && r != ""
    requires s.registry == Registry(map[r := [(p, who(p)), (a, who(a))]], map[p := r, a := r])
    requires s.channels == {(r, p), (r, a)} && s.pending == map[]
    ensures var (s', out) := Step(who, s, Drop(a));
            && s'.registry == Registry(map[r := [(p, who(p))]], map[p := r]) && s'.channels == {(r, p)}
            && s'.pending == map[LeaveKey(r, who(a).id) := PendingLeave(r, who(a))] && out == []
  {
    var room := [(p, who(p)), (a, who(a))];
    assert room[1..] == [(a, who(a))];
    assert IndexOf(room, a) == 1;
    assert room[..1] + room[2..] == [(p, who(p))];
    assert Without(s.registry, r, a) == Registry(map[r := [(p, who(p))]], map[p := r]);
    assert !Present(Without(s.registry, r, a), r, who(a).id);
    assert FindMember(s.registry, a) == Some(Removed(r, who(a)));
    hide Without, FindMember, IndexOf, LeaveKey, Present;
  }

  lemma ThirdJoins(who: Directory, s: Server, p: string, a: string, r: string, b: string, q: string)
    requires Confused(who, p, a, r, b, q)
    requires s.registry == Registry(map[r := [(p, who(p))]], map[p := r]) && s.channels == {(r, p)}
    requires s.pending == map[LeaveKey(r, who(a).id) := PendingLeave(r, who(a))]
    ensures var (s', out) := Step(who, s, Join(b, q));
            && RoomOf(s'.registry, r) == [(p, who(p))] && (r, p) in s'.channels && s'.pending == map[]
            && Inbox(out, p) == []
  {
    JoinInbox(s, who(b), b, q, p);
    hide RosterRows, Inbox, LeaveKey, Present, Others;
  }

  lemma OneActionMore(who: Directory, y: System, a: Action, rest: seq<Action>)
    ensures Reached(who, y, [a] + rest) == Reached(who, Next(who, y, a), rest)
    ensures LegalActions(who, y, [a] + rest) <==> OneRoomAtATime(y, a) && LegalActions(who, Next(who, y, a), rest)
  {
    hide Next, OneRoomAtATime;
    assert ([a] + rest)[1..] == rest;
  }

  /** What an event adds to one peer's queue. */
  lemma ActAddsToQueue(who: Directory, y: System, e: Event, p: string)
    ensures var (s', out) := Step(who, y.server, e);
            var y' := Next(who, y, Act(e));
            && y'.server == s' && y'.clients(p).roster == y.clients(p).roster
            && y'.clients(p).queue == y.clients(p).queue + Inbox(out, p)
  {
    hide Step, Inbox;
  }

  /** The four events of the stale run, and what the watching peer has been sent. */
  lemma StaleEvents(who: Directory, p: string, a: string, r: string, b: string, q: string) returns (y: System, rows: seq<Row>)
    requires Confused(who, p, a, r, b, q)
    ensures forall rest {:trigger LegalActions(who, y, rest)} ::
              LegalActions(who, y, rest) ==>
                LegalActions(who, Start(), [Act(Join(p, r))] + ([Act(Join(a, r))] + ([Act(Drop(a))] + ([Act(Join(b, q))] + rest))))
    ensures forall rest {:trigger LegalActions(who, y, rest)} ::
              Reached(who, Start(), [Act(Join(p, r))] + ([Act(Join(a, r))] + ([Act(Drop(a))] + ([Act(Join(b, q))] + rest))))
              == Reached(who, y, rest)
    ensures RoomOf(y.server.registry, r) == [(p, who(p))] && (r, p) in y.server.channels && y.server.pending == map[]
    ensures y.clients(p) == Client([], [RoomUsers(rows), UserJoined(Row(who(a), a))])
  {
    hide Next, Step, LegalActions, Reached, Inbox, LeaveKey, RoomOf;
    var y0 := Start();
    var y1 := Next(who, y0, Act(Join(p, r)));
    var y2 := Next(who, y1, Act(Join(a, r)));
    var y3 := Next(who, y2, Act(Drop(a)));
    y := Next(who, y3, Act(Join(b, q)));
    FirstJoins(who, p, r);
    SecondJoins(who, p, a, r);
    ActAddsToQueue(who, y0, Join(p, r), p);
    ActAddsToQueue(who, y1, Join(a, r), p);
    ActAddsToQueue(who, y2, Drop(a), p);
    ActAddsToQueue(who, y3, Join(b, q), p);
    SecondDrops(who, y2.server, p, a, r);
    InboxOfFew(Step(who, y2.server, Drop(a)).1, p);
    ThirdJoins(who, y3.server, p, a, r, b, q);
    rows :| Inbox(Step(who, EMPTY_SERVER, Join(p, r)).1, p) == [RoomUsers(rows)];
    forall rest
      ensures LegalActions(who, y, rest) ==>
                LegalActions(who, y0, [Act(Join(p, r))] + ([Act(Join(a, r))] + ([Act(Drop(a))] + ([Act(Join(b, q))] + rest))))
      ensures Reached(who, y0, [Act(Join(p, r))] + ([Act(Join(a, r))] + ([Act(Drop(a))] + ([Act(Join(b, q))] + rest))))
              == Reached(who, y, rest)
    {
      OneActionMore(who, y3, Act(Join(b, q)), rest);
      OneActionMore(who, y2, Act(Drop(a)), [Act(Join(b, q))] + rest);
      OneActionMore(who, y1, Act(Join(a, r)), [Act(Drop(a))] + ([Act(Join(b, q))] + rest));
      OneActionMore(who, y0, Act(Join(p, r)), [Act(Join(a, r))] + ([Act(Drop(a))] + ([Act(Join(b, q))] + rest)));
    }
  }

  lemma TwoDeliveries(who: Directory, y: System, p: string)
    requires |y.clients(p).queue| == 2
    ensures LegalActions(who, y, [Deliver(p), Deliver(p)])
    ensures var z := Reached(who, y, [Deliver(p), Deliver(p)]);
            var c := y.clients(p);
            z.server == y.server && z.clients(p) == Client(Reduce(Reduce(c.roster, c.queue[0]), c.queue[1]), [])
  {
    hide Reduce, LegalActions, Reached;
    var y1 := Next(who, y, Deliver(p));
    OneActionMore(who, y, Deliver(p), [Deliver(p)]);
    OneActionMore(who, y1, Deliver(p), []);
    assert [Deliver(p)] + [Deliver(p)] == [Deliver(p), Deliver(p)] && [Deliver(p)] + [] == [Deliver(p)];
    EmptyRun(who, Next(who, y1, Deliver(p)));
  }

  lemma EmptyRun(who: Directory, y: System)
    ensures LegalActions(who, y, []) && Reached(who, y, []) == y
  {
  }

  /** The watching peer lists a user who is gone, and no message to correct it is on its way. */
  lemma StaleRosterStays(who: Directory, p: string, a: string, r: string, b: string, q: string)
    requires Confused(who, p, a, r, b, q)
    ensures LegalActions(who, Start(), StaleRun(p, a, r, b, q))
    ensures var y := Reached(who, Start(), StaleRun(p, a, r, b, q));
            CaughtUp(y, r, p) && !Shows(y.clients(p).roster, y.server, r)
  {
    hide LegalActions, Reached, LeaveKey, Reduce, Filter;
    var y, rows := StaleEvents(who, p, a, r, b, q);
    TwoDeliveries(who, y, p);
    var last := [Deliver(p), Deliver(p)];
    assert StaleRun(p, a, r, b, q)
        == [Act(Join(p, r))] + ([Act(Join(a, r))] + ([Act(Drop(a))] + ([Act(Join(b, q))] + last)));
    var row := Row(who(a), a);
    var listed := Reduce([], RoomUsers(rows));
    ReduceIds(listed, UserJoined(row));
    var shown := Reduce(listed, UserJoined(row));
    assert who(a).id in Ids(shown);
    GoneIsNotShown(shown, y.server, r, (p, who(p)), who(a).id);
  }

  lemma GoneIsNotShown(shown: seq<Row>, s: Server, r: string, member: (string, User), id: string)
    requires id in Ids(shown) && RoomOf(s.registry, r) == [member] && member.1.id != id && s.pending == map[]
    ensures !Shows(shown, s, r)
  {
    hide Ids, DistinctIds, LeaveKey, RoomOf;
    assert id !in UserIds([member]);
    assert !IsPending(s, r, id);
  }

  /** Among the sockets there is always one to watch, from one of the two rooms. */
  lemma CollisionConfuses(who: Directory, a: string, b: string) returns (p: string, x: string, r: string, y: string, q: string)
    requires Collides(who(a).id, who(b).id)
    ensures Confused(who, p, x, r, y, q)
  {
    CollidingKeys(who, a, b);
    hide SecondRoom, Collides, LeaveKey;
    p := a + b + "w";
    assert |p| > |a| && |p| > |b|;
    if who(p).id != who(a).id {
      x, r, y, q := a, "r", b, SecondRoom(who, a, b);
    } else {
      x, r, y, q := b, SecondRoom(who, a, b), a, "r";
    }
  }

  /** Every caught-up roster is right, in every run in which a socket joins one room at a time, exactly when no two user
      ids collide. */
  lemma RostersRightExactlyWhenSafe(who: Directory)
    ensures RostersRight(who) <==> Safe(who)
  {
    if Safe(who) {
      SafeRostersRight(who);
    } else {
      var a, b :| Collides(who(a).id, who(b).id);
      hide LegalActions, Reached, CaughtUp, Shows, Confused, Collides, StaleRun;
      var p, x, r, y, q := CollisionConfuses(who, a, b);
      StaleRosterStays(who, p, x, r, y, q);
    }
  }

  lemma SafeRostersRight(who: SafeDirectory)
    ensures RostersRight(who)
  {
    hide LegalActions, Reached, CaughtUp, Shows, Safe;
    forall run, r, x | LegalActions(who, Start(), run) && CaughtUp(Reached(who, Start(), run), r, x)
      ensures Shows(Reached(who, Start(), run).clients(x).roster, Reached(who, Start(), run).server, r)
    {
      RosterSandwich(who, run, r, x);
    }
  }
}
