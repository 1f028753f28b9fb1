/** The actor-keyed limiter: entries refcounted by live sockets, swept only after a grace period. */
module RateLimiter {
  import opened Wrappers
  import opened TokenBucket

  /** A connection and the actor key derived from its user id or address. */
  datatype Socket = Socket(id: string, actor: string)

  datatype Entry = Entry(sockets: set<string>, buckets: map<string, Bucket>, emptySince: Option<int>)

  datatype Limits = Limits(buckets: map<string, Config>, floodDisconnectThreshold: int, evictionGraceMs: nat)

  /** The actors held, and the sockets flagged as already tracked. */
  datatype Store = Store(actors: map<string, Entry>, tracked: set<Socket>)

  const EMPTY_STORE := Store(map[], {})

  /** `requested` is None when the cost function returned NaN or an infinity. */
  datatype Event =
    | Register(socket: Socket, bucket: string, now: int)
    | Invoke(socket: Socket, bucket: string, requested: Option<real>, now: int)
    | Disconnect(socket: Socket, now: int)

  datatype Output =
    | Silent
    | UnknownBucket
    | Admitted
    | Denied(retryAfterMs: int)
    | FloodDisconnect

  // ---------- Specification ----------

  predicate Evictable(e: Entry, cutoff: int) {
    e.sockets == {} && e.emptySince.Some? && e.emptySince.value <= cutoff
  }

  function Kept(actors: map<string, Entry>, cutoff: int): map<string, Entry> {
    map k | k in actors && !Evictable(actors[k], cutoff) :: actors[k]
  }

  /** With `evicts` false this is the ideal limiter that never forgets an actor. */
  function Swept(limits: Limits, evicts: bool, actors: map<string, Entry>, now: int): map<string, Entry> {
    if evicts then Kept(actors, now - limits.evictionGraceMs) else actors
  }

  function EntryFor(actors: map<string, Entry>, actor: string): Entry {
    if actor in actors then actors[actor] else Entry({}, map[], None)
  }

  function Attached(e: Entry, socket: Socket, tracked: bool): Entry {
    if tracked then e else e.(sockets := e.sockets + {socket.id}, emptySince := None)
  }

  function Track(limits: Limits, evicts: bool, s: Store, socket: Socket, now: int): Store {
    var actors := Swept(limits, evicts, s.actors, now);
    Store(actors[socket.actor := Attached(EntryFor(actors, socket.actor), socket, socket in s.tracked)],
          s.tracked + {socket})
  }

  function Charge(requested: Option<real>, c: Config): real {
    if requested.Some? && requested.value > 0.0 then Min(Ceil(requested.value) as real, c.capacity) else 1.0
  }

  function BucketOf(e: Entry, bucket: string, c: Config, now: int): Bucket {
    if bucket in e.buckets then e.buckets[bucket] else Bucket(c.capacity, now, 0)
  }

  /** One guarded event against one bucket. */
  function Judge(b: Bucket, c: Config, now: int, cost: real, threshold: int): (Bucket, Output) {
    var (b', verdict) := Spend(b, c, now, cost);
    if verdict.allowed then (b'.(violations := 0), Admitted)
    else (b'.(violations := b'.violations + 1),
          if b'.violations + 1 >= threshold then FloodDisconnect else Denied(verdict.retryAfterMs))
  }

  function Detached(e: Entry, socket: Socket, now: int): Entry {
    e.(sockets := e.sockets - {socket.id},
       emptySince := if e.sockets - {socket.id} == {} then Some(now) else e.emptySince)
  }

  function Step(limits: Limits, evicts: bool, s: Store, e: Event): (Store, Output) {
    match e
    case Register(socket, bucket, now) =>
      if bucket !in limits.buckets then (s, UnknownBucket)
      else (Track(limits, evicts, s, socket, now), Silent)
    case Invoke(socket, bucket, requested, now) =>
      var t := Track(limits, evicts, s, socket, now);
      if bucket !in limits.buckets then (t, UnknownBucket)
      else
        var c := limits.buckets[bucket];
        var entry := t.actors[socket.actor];
        var (b, out) := Judge(BucketOf(entry, bucket, c, now), c, now, Charge(requested, c),
                              limits.floodDisconnectThreshold);
        (t.(actors := t.actors[socket.actor := entry.(buckets := entry.buckets[bucket := b])]), out)
    case Disconnect(socket, now) =>
      if socket.actor !in s.actors then (s, Silent)
      else (s.(actors := s.actors[socket.actor := Detached(s.actors[socket.actor], socket, now)]), Silent)
  }

  // ---------- The limiter itself ----------

  class SocketRateLimiter {
    const limits: Limits
    var actors: map<string, Entry>
    var tracked: set<Socket>

    ghost function View(): Store
      reads this
    {
      Store(actors, tracked)
    }

    constructor (limits: Limits)
      ensures this.limits == limits && View() == EMPTY_STORE
    {
      this.limits := limits;
      actors, tracked := map[], {};
    }

    method Sweep(now: int)
      modifies `actors
      ensures actors == Kept(old(actors), now - limits.evictionGraceMs)
    {
      var cutoff := now - limits.evictionGraceMs;
      var unseen := actors.Keys;
      while unseen != {}
        invariant unseen <= old(actors).Keys
        invariant forall k :: k in actors <==> k in old(actors) && (k in unseen || !Evictable(old(actors)[k], cutoff))
        invariant forall k :: k in actors ==> actors[k] == old(actors)[k]
        decreases unseen
      {
        var key :| key in unseen;
        unseen := unseen - {key};
        var entry := actors[key];
        if |entry.sockets| == 0 && entry.emptySince != None && entry.emptySince.value <= cutoff {
          actors := actors - {key};
        }
      }
    }

    method TrackSocket(socket: Socket, now: int)
      modifies this
      ensures View() == Track(limits, true, old(View()), socket, now)
    {
      Sweep(now);
      if socket.actor !in actors {
        actors := actors[socket.actor := Entry({}, map[], None)];
      }
      if socket !in tracked {
        tracked := tracked + {socket};
        var entry := actors[socket.actor];
        actors := actors[socket.actor := entry.(sockets := entry.sockets + {socket.id}, emptySince := None)];
      }
    }

    /** Wrapping a handler: an unknown bucket is refused before the socket is tracked. */
    method Guard(socket: Socket, bucket: string, now: int) returns (out: Output)
      modifies this
      ensures (View(), out) == Step(limits, true, old(View()), Register(socket, bucket, now))
    {
      if bucket !in limits.buckets { return UnknownBucket; }
      TrackSocket(socket, now);
      out := Silent;
    }

    method OnDisconnect(socket: Socket, now: int)
      modifies `actors
      ensures (View(), Silent) == Step(limits, true, old(View()), Disconnect(socket, now))
    {
      if socket.actor in actors {
        var current := actors[socket.actor];
        current := current.(sockets := current.sockets - {socket.id});
        if |current.sockets| == 0 {
          current := current.(emptySince := Some(now));
        }
        actors := actors[socket.actor := current];
      }
    }

    /** The wrapped handler: spends from the actor's bucket, then admits, drops or cuts the socket. */
    method Handle(socket: Socket, bucket: string, requested: Option<real>, now: int) returns (out: Output)
      modifies this
      ensures (View(), out) == Step(limits, true, old(View()), Invoke(socket, bucket, requested, now))
    {
      TrackSocket(socket, now);
      if bucket !in limits.buckets { return UnknownBucket; }
      var config := limits.buckets[bucket];
      var entry := actors[socket.actor];
      var state := new BucketState(BucketOf(entry, bucket, config, now));
      var cost := if requested != None && requested.value > 0.0
                  then Min(Ceil(requested.value) as real, config.capacity) else 1.0;
      var allowed, retryAfterMs := state.ConsumeToken(config, now, cost);
      if allowed {
        state.violations := 0;
        out := Admitted;
      } else {
        state.violations := state.violations + 1;
        out := if state.violations >= limits.floodDisconnectThreshold then FloodDisconnect else Denied(retryAfterMs);
      }
      actors := actors[socket.actor := entry.(buckets := entry.buckets[bucket :=
        Bucket(state.tokens, state.last, state.violations)])];
    }
  }
}
