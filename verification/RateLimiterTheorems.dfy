/** What holds of the limiter over whole runs: forgetting idle actors is unobservable, and no actor beats the refill rate. */
module RateLimiterTheorems {
  import opened Wrappers
  import opened TokenBucket
  import opened RateLimiter

  // ---------- Legal runs ----------

  /** Which sockets are connected, which have gone, and the time. */
  datatype Census = Census(live: set<Socket>, gone: set<Socket>, clock: int)

  predicate Legal(c: Census, e: Event) {
    c.clock <= e.now &&
    match e
    case Register(socket, _, _) => socket !in c.gone
    case Invoke(socket, _, _, _) => socket in c.live
    case Disconnect(socket, _) => socket in c.live
  }

  function Advance(limits: Limits, c: Census, e: Event): Census {
    match e
    case Register(socket, bucket, now) =>
      Census(if bucket in limits.buckets then c.live + {socket} else c.live, c.gone, now)
    case Invoke(_, _, _, now) => c.(clock := now)
    case Disconnect(socket, now) => Census(c.live - {socket}, c.gone + {socket}, now)
  }

  /** The clock never goes back, and a socket sends nothing after its disconnect. */
  predicate LegalRun(limits: Limits, c: Census, run: seq<Event>)
    decreases |run|
  {
    run == [] || (Legal(c, run[0]) && LegalRun(limits, Advance(limits, c, run[0]), run[1..]))
  }

  function Outputs(limits: Limits, evicts: bool, s: Store, run: seq<Event>): seq<Output>
    decreases |run|
  {
    if run == [] then []
    else
      var (s', out) := Step(limits, evicts, s, run[0]);
      [out] + Outputs(limits, evicts, s', run[1..])
  }

  function Final(limits: Limits, evicts: bool, s: Store, run: seq<Event>): Store
    decreases |run|
  {
    if run == [] then s else Final(limits, evicts, Step(limits, evicts, s, run[0]).0, run[1..])
  }

  // ---------- The simulation between the two limiters ----------

  /** Within the grace period every bucket refills from empty. */
  predicate GraceRefills(limits: Limits, c: Config) {
    limits.evictionGraceMs as real / 1000.0 * c.refillPerSec >= c.capacity
  }

  /** A plain event can be admitted, or the first denial disconnects so that nobody counts denials. */
  predicate CountsHarmlessly(limits: Limits, c: Config) {
    c.capacity >= 1.0 || limits.floodDisconnectThreshold <= 1
  }

  predicate Adequate(limits: Limits) {
    forall b :: b in limits.buckets ==>
      GraceRefills(limits, limits.buckets[b]) && CountsHarmlessly(limits, limits.buckets[b])
  }

  predicate Full(b: Bucket, c: Config, now: int) {
    b.tokens + Gain(c, now - b.last) >= c.capacity
  }

  /** A bucket last touched no later than `latest`. */
  predicate SoundBucket(limits: Limits, e: Entry, name: string, latest: int)
    requires name in e.buckets
  {
    && name in limits.buckets
    && e.buckets[name].tokens >= Min(0.0, limits.buckets[name].capacity) && e.buckets[name].last <= latest
  }

  predicate SoundEntry(limits: Limits, e: Entry, clock: int) {
    && (e.sockets == {} <==> e.emptySince.Some?)
    && (e.emptySince.Some? ==> e.emptySince.value <= clock)
    && forall name :: name in e.buckets ==>
         SoundBucket(limits, e, name, if e.emptySince.Some? then e.emptySince.value else clock)
  }

  /** Equal, except that a bucket that can never hold a token may disagree on its denials. */
  predicate Alike(c: Config, x: Bucket, y: Bucket) {
    x.tokens == y.tokens && x.last == y.last && (c.capacity >= 1.0 ==> x.violations == y.violations)
  }

  /** `d` remembers part of `e`; whatever it has forgotten is full again. */
  predicate Remembers(limits: Limits, d: Entry, e: Entry, clock: int) {
    && d.sockets == e.sockets && d.emptySince == e.emptySince
    && (forall name :: name in d.buckets ==>
          name in e.buckets && name in limits.buckets && Alike(limits.buckets[name], d.buckets[name], e.buckets[name]))
    && (forall name :: name in e.buckets && name !in d.buckets && name in limits.buckets ==>
          Full(e.buckets[name], limits.buckets[name], clock))
  }

  function Lookup(s: Store, actor: string): Option<Entry> {
    if actor in s.actors then Some(s.actors[actor]) else None
  }

  predicate Corresponds(limits: Limits, d: Option<Entry>, e: Option<Entry>, clock: int) {
    match (d, e)
    case (None, None) => true
    case (Some(_), None) => false
    case (None, Some(y)) =>
      SoundEntry(limits, y, clock) && Evictable(y, clock - limits.evictionGraceMs)
    case (Some(x), Some(y)) =>
      SoundEntry(limits, y, clock) && Remembers(limits, x, y, clock)
  }

  /** The evicting store `s` against the store `t` that never forgets. */
  ghost predicate Simulates(limits: Limits, s: Store, t: Store, c: Census) {
    && s.tracked == t.tracked == c.live + c.gone
    && c.live !! c.gone
    && (forall k :: Corresponds(limits, Lookup(s, k), Lookup(t, k), c.clock))
    && (forall socket :: socket in c.live ==> socket.actor in t.actors && socket.id in t.actors[socket.actor].sockets)
  }

  lemma FullLater(b: Bucket, c: Config, now: int, later: int)
    requires Full(b, c, now) && now <= later
    ensures Full(b, c, later)
  {
    GainIsMonotone(c, now - b.last, later - b.last);
  }

  lemma CorrespondsLater(limits: Limits, d: Option<Entry>, e: Option<Entry>, now: int, later: int)
    requires Corresponds(limits, d, e, now) && now <= later
    ensures Corresponds(limits, d, e, later)
  {
    if d.Some? && e.Some? {
      forall name | name in e.value.buckets && name !in d.value.buckets && name in limits.buckets
        ensures Full(e.value.buckets[name], limits.buckets[name], later)
      {
        FullLater(e.value.buckets[name], limits.buckets[name], now, later);
      }
    }
  }

  /** The claim in the limiter's header comment, for one entry: what a sweep may drop has refilled. */
  lemma EvictableIsFull(limits: Limits, e: Entry, name: string, clock: int)
    requires SoundEntry(limits, e, clock) && Evictable(e, clock - limits.evictionGraceMs)
    requires name in e.buckets && name in limits.buckets && GraceRefills(limits, limits.buckets[name])
    ensures Full(e.buckets[name], limits.buckets[name], clock)
  {
    assert SoundBucket(limits, e, name, e.emptySince.value);
    GainIsMonotone(limits.buckets[name], limits.evictionGraceMs, clock - e.buckets[name].last);
  }

  lemma SweepKeepsCorrespondence(limits: Limits, s: Store, t: Store, k: string, clock: int)
    requires Corresponds(limits, Lookup(s, k), Lookup(t, k), clock)
    ensures Corresponds(limits, Lookup(s.(actors := Swept(limits, true, s.actors, clock)), k), Lookup(t, k), clock)
  {
  }

  lemma AttachKeepsCorrespondence(limits: Limits, d: Option<Entry>, e: Option<Entry>, socket: Socket, tracked: bool, clock: int)
    requires Adequate(limits) && Corresponds(limits, d, e, clock)
    requires tracked ==> e.Some? && socket.id in e.value.sockets
    ensures Corresponds(limits,
              Some(Attached(if d.Some? then d.value else Entry({}, map[], None), socket, tracked)),
              Some(Attached(if e.Some? then e.value else Entry({}, map[], None), socket, tracked)), clock)
  {
    if d.None? && e.Some? {
      forall name | name in e.value.buckets ensures name in limits.buckets && Full(e.value.buckets[name], limits.buckets[name], clock) {
        assert SoundBucket(limits, e.value, name, e.value.emptySince.value);
        EvictableIsFull(limits, e.value, name, clock);
      }
    }
  }

  lemma TrackKeepsSimulation(limits: Limits, s: Store, t: Store, c: Census, socket: Socket, now: int)
    requires Adequate(limits) && Simulates(limits, s, t, c) && c.clock <= now && socket !in c.gone
    ensures Simulates(limits, Track(limits, true, s, socket, now), Track(limits, false, t, socket, now),
                      Census(c.live + {socket}, c.gone, now))
  {
    var s', t' := Track(limits, true, s, socket, now), Track(limits, false, t, socket, now);
    forall k ensures Corresponds(limits, Lookup(s', k), Lookup(t', k), now) {
      CorrespondsLater(limits, Lookup(s, k), Lookup(t, k), c.clock, now);
      SweepKeepsCorrespondence(limits, s, t, k, now);
      if k == socket.actor {
        AttachKeepsCorrespondence(limits, Lookup(s.(actors := Swept(limits, true, s.actors, now)), k), Lookup(t, k),
                                  socket, socket in s.tracked, now);
      }
    }
  }

  lemma ChargeWithinCapacity(requested: Option<real>, c: Config)
    requires c.capacity >= 1.0
    ensures Charge(requested, c) <= c.capacity
  {
  }

  /** Alike buckets answer alike, and stay alike. */
  lemma AlikeActAlike(limits: Limits, x: Bucket, y: Bucket, c: Config, now: int, cost: real)
    requires Alike(c, x, y) && CountsHarmlessly(limits, c)
    ensures var (x', out), (y', out') :=
              Judge(x, c, now, cost, limits.floodDisconnectThreshold), Judge(y, c, now, cost, limits.floodDisconnectThreshold);
            out == out' && Alike(c, x', y')
  {
  }

  /** A full bucket answers like a fresh one, and admits whatever is asked of it if it holds a whole token. */
  lemma FullActsFresh(limits: Limits, b: Bucket, c: Config, now: int, requested: Option<real>)
    requires Full(b, c, now) && CountsHarmlessly(limits, c)
    ensures var cost, threshold := Charge(requested, c), limits.floodDisconnectThreshold;
            var (full, out), (brandNew, out') := Judge(b, c, now, cost, threshold), Judge(Bucket(c.capacity, now, 0), c, now, cost, threshold);
            out == out' && Alike(c, brandNew, full) && (c.capacity >= 1.0 ==> out == Admitted)
  {
    if c.capacity >= 1.0 { ChargeWithinCapacity(requested, c); }
  }

  lemma JudgeIsSound(b: Bucket, c: Config, now: int, cost: real, threshold: int)
    requires b.tokens >= Min(0.0, c.capacity) && b.last <= now
    ensures Judge(b, c, now, cost, threshold).0.tokens >= Min(0.0, c.capacity)
    ensures Judge(b, c, now, cost, threshold).0.last == now
  {
    GainIsMonotone(c, 0, now - b.last);
  }

  lemma InvokeKeepsSimulation(limits: Limits, s: Store, t: Store, c: Census, e: Event)
    requires Adequate(limits) && Simulates(limits, s, t, c) && e.Invoke? && Legal(c, e)
    ensures Step(limits, true, s, e).1 == Step(limits, false, t, e).1
    ensures Simulates(limits, Step(limits, true, s, e).0, Step(limits, false, t, e).0, Advance(limits, c, e))
  {
    var Invoke(socket, bucket, requested, now) := e;
    TrackKeepsSimulation(limits, s, t, c, socket, now);
    assert c.live + {socket} == c.live;
    if bucket in limits.buckets {
      var s1, t1 := Track(limits, true, s, socket, now), Track(limits, false, t, socket, now);
      var cfg := limits.buckets[bucket];
      var k := socket.actor;
      var d, y := s1.actors[k], t1.actors[k];
      assert Corresponds(limits, Lookup(s1, k), Lookup(t1, k), now);
      assert socket.id in y.sockets;
      SpendKeepsCorrespondence(limits, d, y, bucket, requested, now);
      var s2, t2 := Step(limits, true, s, e).0, Step(limits, false, t, e).0;
      forall j ensures Corresponds(limits, Lookup(s2, j), Lookup(t2, j), now) {
        assert Corresponds(limits, Lookup(s1, j), Lookup(t1, j), now);
      }
    }
  }

  function Spent(e: Entry, limits: Limits, bucket: string, requested: Option<real>, now: int): (Entry, Output)
    requires bucket in limits.buckets
  {
    var c := limits.buckets[bucket];
    var (b, out) := Judge(BucketOf(e, bucket, c, now), c, now, Charge(requested, c), limits.floodDisconnectThreshold);
    (e.(buckets := e.buckets[bucket := b]), out)
  }

  /** A spend keeps an attached entry sound, whatever the limits. */
  lemma SpendKeepsSound(limits: Limits, e: Entry, bucket: string, requested: Option<real>, now: int)
    requires bucket in limits.buckets && SoundEntry(limits, e, now) && e.emptySince.None?
    ensures SoundEntry(limits, Spent(e, limits, bucket, requested, now).0, now)
  {
    var c := limits.buckets[bucket];
    assert bucket in e.buckets ==> SoundBucket(limits, e, bucket, now);
    JudgeIsSound(BucketOf(e, bucket, c, now), c, now, Charge(requested, c), limits.floodDisconnectThreshold);
    hide Judge, Charge;
    var e' := Spent(e, limits, bucket, requested, now).0;
    forall name | name in e'.buckets ensures SoundBucket(limits, e', name, now) {
      if name != bucket { assert SoundBucket(limits, e, name, now); }
    }
  }

  lemma SpendAnswersAlike(limits: Limits, d: Entry, e: Entry, bucket: string, requested: Option<real>, now: int)
    requires bucket in limits.buckets && CountsHarmlessly(limits, limits.buckets[bucket]) && Remembers(limits, d, e, now)
    ensures var (d', out), (e', out') := Spent(d, limits, bucket, requested, now), Spent(e, limits, bucket, requested, now);
            out == out' && Alike(limits.buckets[bucket], d'.buckets[bucket], e'.buckets[bucket])
  {
    var c := limits.buckets[bucket];
    if bucket in d.buckets {
      AlikeActAlike(limits, d.buckets[bucket], e.buckets[bucket], c, now, Charge(requested, c));
    } else if bucket in e.buckets {
      FullActsFresh(limits, e.buckets[bucket], c, now, requested);
    }
    hide Judge, Charge;
  }

  lemma SpendKeepsCorrespondence(limits: Limits, d: Entry, e: Entry, bucket: string, requested: Option<real>, now: int)
    requires Adequate(limits) && bucket in limits.buckets
    requires Corresponds(limits, Some(d), Some(e), now) && e.emptySince.None?
    ensures Spent(d, limits, bucket, requested, now).1 == Spent(e, limits, bucket, requested, now).1
    ensures Corresponds(limits, Some(Spent(d, limits, bucket, requested, now).0),
                        Some(Spent(e, limits, bucket, requested, now).0), now)
  {
    SpendKeepsSound(limits, e, bucket, requested, now);
    SpendAnswersAlike(limits, d, e, bucket, requested, now);
    hide Judge, Charge, SoundEntry, BucketOf, Alike;
  }

  lemma DisconnectKeepsSimulation(limits: Limits, s: Store, t: Store, c: Census, e: Event)
    requires Adequate(limits) && Simulates(limits, s, t, c) && e.Disconnect? && Legal(c, e)
    ensures Simulates(limits, Step(limits, true, s, e).0, Step(limits, false, t, e).0, Advance(limits, c, e))
  {
    var Disconnect(socket, now) := e;
    var s', t' := Step(limits, true, s, e).0, Step(limits, false, t, e).0;
    forall k ensures Corresponds(limits, Lookup(s', k), Lookup(t', k), now) {
      CorrespondsLater(limits, Lookup(s, k), Lookup(t, k), c.clock, now);
      if k == socket.actor {
        assert Corresponds(limits, Lookup(s, k), Lookup(t, k), now);
        DetachKeepsCorrespondence(limits, s.actors[k], t.actors[k], socket, now);
      }
    }
    forall other | other in c.live - {socket}
      ensures other.actor in t'.actors && other.id in t'.actors[other.actor].sockets
    {
      assert other.actor == socket.actor ==> other.id != socket.id;
    }
  }

  lemma DetachKeepsCorrespondence(limits: Limits, d: Entry, e: Entry, socket: Socket, now: int)
    requires Corresponds(limits, Some(d), Some(e), now) && socket.id in e.sockets
    ensures Corresponds(limits, Some(Detached(d, socket, now)), Some(Detached(e, socket, now)), now)
  {
    var e' := Detached(e, socket, now);
    forall name | name in e'.buckets ensures SoundBucket(limits, e', name, now) {
      assert SoundBucket(limits, e, name, now);
    }
  }

  lemma StepKeepsSimulation(limits: Limits, s: Store, t: Store, c: Census, e: Event)
    requires Adequate(limits) && Simulates(limits, s, t, c) && Legal(c, e)
    ensures Step(limits, true, s, e).1 == Step(limits, false, t, e).1
    ensures Simulates(limits, Step(limits, true, s, e).0, Step(limits, false, t, e).0, Advance(limits, c, e))
  {
    match e
    case Register(socket, bucket, now) =>
      if bucket in limits.buckets {
        TrackKeepsSimulation(limits, s, t, c, socket, now);
      } else {
        forall k ensures Corresponds(limits, Lookup(s, k), Lookup(t, k), now) {
          CorrespondsLater(limits, Lookup(s, k), Lookup(t, k), c.clock, now);
        }
      }
    case Invoke(_, _, _, _) => InvokeKeepsSimulation(limits, s, t, c, e);
    case Disconnect(_, _) => DisconnectKeepsSimulation(limits, s, t, c, e);
  }

  lemma {:induction false} RunsAgree(limits: Limits, s: Store, t: Store, c: Census, run: seq<Event>)
    requires Adequate(limits) && Simulates(limits, s, t, c) && LegalRun(limits, c, run)
    ensures Outputs(limits, true, s, run) == Outputs(limits, false, t, run)
    decreases |run|
  {
    if run != [] {
      StepKeepsSimulation(limits, s, t, c, run[0]);
      RunsAgree(limits, Step(limits, true, s, run[0]).0, Step(limits, false, t, run[0]).0,
                Advance(limits, c, run[0]), run[1..]);
    }
  }

  // ---------- Eviction is unobservable, exactly when the grace period refills every bucket ----------

  ghost predicate Unobservable(limits: Limits) {
    forall run, start :: LegalRun(limits, Census({}, {}, start), run) ==>
      Outputs(limits, true, EMPTY_STORE, run) == Outputs(limits, false, EMPTY_STORE, run)
  }

  /** Eviction loses nothing exactly when every bucket refills from empty within the grace period and holds a whole
      token, or else the first denial already disconnects. */
  lemma UnobservableExactlyWhenAdequate(limits: Limits)
    ensures Unobservable(limits) <==> Adequate(limits)
  {
    if Adequate(limits) {
      forall run, start | LegalRun(limits, Census({}, {}, start), run)
        ensures Outputs(limits, true, EMPTY_STORE, run) == Outputs(limits, false, EMPTY_STORE, run)
      {
        RunsAgree(limits, EMPTY_STORE, EMPTY_STORE, Census({}, {}, start), run);
      }
    } else {
      var bucket :| bucket in limits.buckets
        && !(GraceRefills(limits, limits.buckets[bucket]) && CountsHarmlessly(limits, limits.buckets[bucket]));
      if CountsHarmlessly(limits, limits.buckets[bucket]) {
        ShortGraceIsObservable(limits, bucket);
      } else {
        FractionIsObservable(limits, bucket);
      }
    }
  }

  /** Drain the bucket, disconnect, come back the moment the grace period ends. */
  function BypassRun(limits: Limits, bucket: string): seq<Event>
    requires bucket in limits.buckets
  {
    var first, second := Socket("a", "u"), Socket("b", "u");
    var all := Some(limits.buckets[bucket].capacity);
    var grace := limits.evictionGraceMs;
    [Register(first, bucket, 0), Invoke(first, bucket, all, 0), Disconnect(first, 0),
     Register(second, bucket, grace), Invoke(second, bucket, all, grace)]
  }

  lemma ShortGraceIsObservable(limits: Limits, bucket: string)
    requires bucket in limits.buckets && !GraceRefills(limits, limits.buckets[bucket])
    ensures LegalRun(limits, Census({}, {}, 0), BypassRun(limits, bucket))
    ensures Outputs(limits, true, EMPTY_STORE, BypassRun(limits, bucket))
            != Outputs(limits, false, EMPTY_STORE, BypassRun(limits, bucket))
  {
    var run := BypassRun(limits, bucket);
    BypassIsLegal(limits, bucket);
    var prefix := run[..4];
    assert run == prefix + [run[4]];
    OutputsAppend(limits, true, EMPTY_STORE, prefix, run[4]);
    OutputsAppend(limits, false, EMPTY_STORE, prefix, run[4]);
    BypassStores(limits, bucket);
    LastDiffers(Outputs(limits, true, EMPTY_STORE, prefix), Outputs(limits, false, EMPTY_STORE, prefix),
                Step(limits, true, Final(limits, true, EMPTY_STORE, prefix), run[4]).1,
                Step(limits, false, Final(limits, false, EMPTY_STORE, prefix), run[4]).1);
  }

  lemma LastDiffers<T>(p: seq<T>, q: seq<T>, x: T, y: T)
    requires x != y
    ensures p + [x] != q + [y]
  {
    assert (p + [x])[|p|] == x && (q + [y])[|q|] == y;
  }

  lemma BypassIsLegal(limits: Limits, bucket: string)
    requires bucket in limits.buckets
    ensures LegalRun(limits, Census({}, {}, 0), BypassRun(limits, bucket))
  {
    var run := BypassRun(limits, bucket);
    var first, second := Socket("a", "u"), Socket("b", "u");
    assert first.id != second.id;
    var c1 := Advance(limits, Census({}, {}, 0), run[0]);
    var c2 := Advance(limits, c1, run[1]);
    var c3 := Advance(limits, c2, run[2]);
    var c4 := Advance(limits, c3, run[3]);
    assert LegalRun(limits, c4, run[4..]) by { assert run[4..][1..] == []; }
    assert run[3..][1..] == run[4..] && run[2..][1..] == run[3..] && run[1..][1..] == run[2..];
    assert LegalRun(limits, c3, run[3..]);
    assert LegalRun(limits, c2, run[2..]);
    assert LegalRun(limits, c1, run[1..]);
  }

  lemma {:induction false} OutputsAppend(limits: Limits, evicts: bool, s: Store, run: seq<Event>, e: Event)
    ensures Outputs(limits, evicts, s, run + [e])
            == Outputs(limits, evicts, s, run) + [Step(limits, evicts, Final(limits, evicts, s, run), e).1]
    decreases |run|
  {
    if run == [] {
      assert run + [e] == [e];
    } else {
      assert (run + [e])[1..] == run[1..] + [e];
      OutputsAppend(limits, evicts, Step(limits, evicts, s, run[0]).0, run[1..], e);
    }
  }

  lemma NothingEvictable(actors: map<string, Entry>, cutoff: int)
    requires forall k :: k in actors ==> !Evictable(actors[k], cutoff)
    ensures Kept(actors, cutoff) == actors
  {
  }

  lemma DrainedStore(limits: Limits, evicts: bool, bucket: string)
    requires bucket in limits.buckets && limits.buckets[bucket].capacity > 0.0
    ensures Final(limits, evicts, EMPTY_STORE, BypassRun(limits, bucket)[..3])
            == Drained(bucket)
  {
    var run := BypassRun(limits, bucket);
    var cutoff := -(limits.evictionGraceMs as int);
    var joined := Entry({"a"}, map[], None);
    NothingEvictable(map[], cutoff);
    NothingEvictable(map["u" := joined], cutoff);
    var s1 := Step(limits, evicts, EMPTY_STORE, run[0]).0;
    assert Attached(Entry({}, map[], None), Socket("a", "u"), false).sockets == {"a"};
    assert s1.actors == map["u" := joined];
    var s2 := Step(limits, evicts, s1, run[1]).0;
    assert s2.actors == map["u" := joined.(buckets := map[bucket := Bucket(0.0, 0, 0)])];
    FinalOfThree(limits, evicts, EMPTY_STORE, run[..3]);
  }

  function Drained(bucket: string): Store {
    Store(map["u" := Entry({}, map[bucket := Bucket(0.0, 0, 0)], Some(0))], {Socket("a", "u")})
  }

  lemma ReturnAfterEviction(limits: Limits, bucket: string)
    requires bucket in limits.buckets && limits.buckets[bucket].capacity > 0.0
    ensures var run := BypassRun(limits, bucket);
            Step(limits, true, Step(limits, true, Drained(bucket), run[3]).0, run[4]).1 == Admitted
  {
    var run := BypassRun(limits, bucket);
    var again := Attached(Entry({}, map[], None), Socket("b", "u"), false);
    assert Kept(Drained(bucket).actors, 0) == map[];
    var s := Step(limits, true, Drained(bucket), run[3]).0;
    assert s.actors["u"] == again && s.actors.Keys == {"u"};
    NothingEvictable(s.actors, 0);
  }

  lemma ReturnToDrained(limits: Limits, bucket: string)
    requires bucket in limits.buckets && !GraceRefills(limits, limits.buckets[bucket])
    ensures var run := BypassRun(limits, bucket);
            Step(limits, false, Step(limits, false, Drained(bucket), run[3]).0, run[4]).1 != Admitted
  {
    var run := BypassRun(limits, bucket);
    var s := Step(limits, false, Drained(bucket), run[3]).0;
    assert s.actors["u"].buckets == map[bucket := Bucket(0.0, 0, 0)];
  }

  lemma BypassStores(limits: Limits, bucket: string)
    requires bucket in limits.buckets && !GraceRefills(limits, limits.buckets[bucket])
    ensures var run := BypassRun(limits, bucket);
            Step(limits, true, Final(limits, true, EMPTY_STORE, run[..4]), run[4]).1 == Admitted &&
            Step(limits, false, Final(limits, false, EMPTY_STORE, run[..4]), run[4]).1 != Admitted
  {
    var run := BypassRun(limits, bucket);
    DrainedStore(limits, true, bucket);
    DrainedStore(limits, false, bucket);
    assert run[..4] == run[..3] + [run[3]];
    FinalAppend(limits, true, EMPTY_STORE, run[..3], run[3]);
    FinalAppend(limits, false, EMPTY_STORE, run[..3], run[3]);
    ReturnAfterEviction(limits, bucket);
    ReturnToDrained(limits, bucket);
  }

  lemma FinalOfThree(limits: Limits, evicts: bool, s: Store, run: seq<Event>)
    requires |run| == 3
    ensures Final(limits, evicts, s, run)
            == Step(limits, evicts, Step(limits, evicts, Step(limits, evicts, s, run[0]).0, run[1]).0, run[2]).0
  {
    assert run == [run[0]] + [run[1]] + [run[2]];
    FinalAppend(limits, evicts, s, [run[0]] + [run[1]], run[2]);
    FinalAppend(limits, evicts, s, [run[0]], run[1]);
  }

  lemma {:induction false} FinalAppend(limits: Limits, evicts: bool, s: Store, run: seq<Event>, e: Event)
    ensures Final(limits, evicts, s, run + [e]) == Step(limits, evicts, Final(limits, evicts, s, run), e).0
    decreases |run|
  {
    if run == [] {
      assert run + [e] == [e];
    } else {
      assert (run + [e])[1..] == run[1..] + [e];
      FinalAppend(limits, evicts, Step(limits, evicts, s, run[0]).0, run[1..], e);
    }
  }

  // ---------- A bucket that never holds a whole token ----------

  /** A plain event costs one token, which such a bucket never has: every one of these is denied. */
  function Denials(bucket: string, n: nat): seq<Event> {
    var first := Socket("a", "u");
    if n == 0 then [Register(first, bucket, 0)] else Denials(bucket, n - 1) + [Invoke(first, bucket, None, 0)]
  }

  /** One denial short of a flood disconnect, then gone until the grace period ends, then one more. */
  function FloodRun(limits: Limits, bucket: string): seq<Event>
    requires limits.floodDisconnectThreshold >= 2
  {
    var grace := limits.evictionGraceMs;
    Denials(bucket, limits.floodDisconnectThreshold - 1)
    + [Disconnect(Socket("a", "u"), 0)] + [Register(Socket("b", "u"), bucket, grace)]
    + [Invoke(Socket("b", "u"), bucket, None, grace)]
  }

  function Flooding(limits: Limits, bucket: string, n: nat): Store
    requires bucket in limits.buckets
  {
    var buckets := if n == 0 then map[] else map[bucket := Bucket(limits.buckets[bucket].capacity, 0, n)];
    Store(map["u" := Entry({"a"}, buckets, None)], {Socket("a", "u")})
  }

  lemma {:induction false} DenialsAddUp(limits: Limits, evicts: bool, bucket: string, n: nat)
    requires bucket in limits.buckets && limits.buckets[bucket].capacity < 1.0
    ensures Final(limits, evicts, EMPTY_STORE, Denials(bucket, n)) == Flooding(limits, bucket, n)
  {
    var cutoff := -(limits.evictionGraceMs as int);
    if n == 0 {
      NothingEvictable(map[], cutoff);
      assert Attached(Entry({}, map[], None), Socket("a", "u"), false).sockets == {"a"};
      FinalAppend(limits, evicts, EMPTY_STORE, [], Denials(bucket, 0)[0]);
      assert [] + Denials(bucket, 0) == Denials(bucket, 0);
    } else {
      var e := Invoke(Socket("a", "u"), bucket, None, 0);
      DenialsAddUp(limits, evicts, bucket, n - 1);
      FinalAppend(limits, evicts, EMPTY_STORE, Denials(bucket, n - 1), e);
      OneMoreDenial(limits, evicts, bucket, n - 1);
    }
  }

  lemma OneMoreDenial(limits: Limits, evicts: bool, bucket: string, n: nat)
    requires bucket in limits.buckets && limits.buckets[bucket].capacity < 1.0
    ensures Step(limits, evicts, Flooding(limits, bucket, n), Invoke(Socket("a", "u"), bucket, None, 0)).0
            == Flooding(limits, bucket, n + 1)
  {
    var s := Flooding(limits, bucket, n);
    NothingEvictable(s.actors, -(limits.evictionGraceMs as int));
    assert Track(limits, evicts, s, Socket("a", "u"), 0) == s;
    var c, entry := limits.buckets[bucket], s.actors["u"];
    var next := Bucket(c.capacity, 0, n + 1);
    assert Level(BucketOf(entry, bucket, c, 0), c, 0) == c.capacity;
    assert Judge(BucketOf(entry, bucket, c, 0), c, 0, Charge(None, c), limits.floodDisconnectThreshold).0 == next;
    assert entry.buckets[bucket := next] == map[bucket := next];
    assert s.actors["u" := entry.(buckets := map[bucket := next])] == Flooding(limits, bucket, n + 1).actors;
  }

  lemma {:induction false} LegalAppend(limits: Limits, c: Census, run: seq<Event>, e: Event)
    requires LegalRun(limits, c, run) && Legal(CensusAfter(limits, c, run), e)
    ensures LegalRun(limits, c, run + [e])
    ensures CensusAfter(limits, c, run + [e]) == Advance(limits, CensusAfter(limits, c, run), e)
    decreases |run|
  {
    if run == [] {
      assert run + [e] == [e];
    } else {
      assert (run + [e])[1..] == run[1..] + [e];
      LegalAppend(limits, Advance(limits, c, run[0]), run[1..], e);
    }
  }

  lemma {:induction false} DenialsAreLegal(limits: Limits, bucket: string, n: nat)
    requires bucket in limits.buckets
    ensures LegalRun(limits, Census({}, {}, 0), Denials(bucket, n))
    ensures CensusAfter(limits, Census({}, {}, 0), Denials(bucket, n)) == Census({Socket("a", "u")}, {}, 0)
  {
    var start := Census({}, {}, 0);
    if n == 0 {
      LegalAppend(limits, start, [], Denials(bucket, 0)[0]);
      assert [] + Denials(bucket, 0) == Denials(bucket, 0);
      assert {} + {Socket("a", "u")} == {Socket("a", "u")};
    } else {
      DenialsAreLegal(limits, bucket, n - 1);
      LegalAppend(limits, start, Denials(bucket, n - 1), Invoke(Socket("a", "u"), bucket, None, 0));
    }
  }

  lemma FloodIsLegal(limits: Limits, bucket: string)
    requires bucket in limits.buckets && limits.floodDisconnectThreshold >= 2
    ensures LegalRun(limits, Census({}, {}, 0), FloodRun(limits, bucket))
  {
    hide Denials, LegalRun, CensusAfter;
    var start, a, b := Census({}, {}, 0), Socket("a", "u"), Socket("b", "u");
    var denials := Denials(bucket, limits.floodDisconnectThreshold - 1);
    var grace := limits.evictionGraceMs;
    assert a.id != b.id;
    DenialsAreLegal(limits, bucket, limits.floodDisconnectThreshold - 1);
    LegalAppend(limits, start, denials, Disconnect(a, 0));
    LegalAppend(limits, start, denials + [Disconnect(a, 0)], Register(b, bucket, grace));
    LegalAppend(limits, start, denials + [Disconnect(a, 0)] + [Register(b, bucket, grace)], Invoke(b, bucket, None, grace));
  }

  /** The answer to the last event, after the actor has been forgotten or not. */
  lemma FloodAnswer(limits: Limits, evicts: bool, bucket: string, n: nat)
    requires bucket in limits.buckets && limits.buckets[bucket].capacity < 1.0
    requires n == limits.floodDisconnectThreshold - 1 >= 1
    ensures var b, grace := Socket("b", "u"), limits.evictionGraceMs;
            var gone := Step(limits, evicts, Flooding(limits, bucket, n), Disconnect(Socket("a", "u"), 0)).0;
            var back := Step(limits, evicts, gone, Register(b, bucket, grace)).0;
            Step(limits, evicts, back, Invoke(b, bucket, None, grace)).1 == FloodDisconnect <==> !evicts
  {
    var b, grace := Socket("b", "u"), limits.evictionGraceMs;
    var gone := Step(limits, evicts, Flooding(limits, bucket, n), Disconnect(Socket("a", "u"), 0)).0;
    assert {"a"} - {"a"} == {};
    var was := Entry({}, map[bucket := Bucket(limits.buckets[bucket].capacity, 0, n)], Some(0));
    assert gone.actors == map["u" := was];
    var back := Step(limits, evicts, gone, Register(b, bucket, grace)).0;
    if evicts { assert Kept(gone.actors, 0) == map[]; }
    assert back.actors["u"] == Attached(if evicts then Entry({}, map[], None) else was, b, false);
    assert back.actors.Keys == {"u"} && b in back.tracked;
    assert b.id in back.actors["u"].sockets;
    NothingEvictable(back.actors, 0);
    assert Track(limits, evicts, back, b, grace).actors == back.actors;
  }

  lemma FractionIsObservable(limits: Limits, bucket: string)
    requires bucket in limits.buckets && limits.buckets[bucket].capacity < 1.0 && limits.floodDisconnectThreshold >= 2
    ensures LegalRun(limits, Census({}, {}, 0), FloodRun(limits, bucket))
    ensures Outputs(limits, true, EMPTY_STORE, FloodRun(limits, bucket))
            != Outputs(limits, false, EMPTY_STORE, FloodRun(limits, bucket))
  {
    hide Step, Final, Outputs, Denials, LegalRun;
    FloodIsLegal(limits, bucket);
    var n := limits.floodDisconnectThreshold - 1;
    FloodEnds(limits, true, bucket, n);
    FloodEnds(limits, false, bucket, n);
  }

  lemma FloodEnds(limits: Limits, evicts: bool, bucket: string, n: nat)
    requires bucket in limits.buckets && limits.buckets[bucket].capacity < 1.0
    requires n == limits.floodDisconnectThreshold - 1 >= 1
    ensures var out := Outputs(limits, evicts, EMPTY_STORE, FloodRun(limits, bucket));
            out != [] && (out[|out| - 1] == FloodDisconnect <==> !evicts)
  {
    hide Step, Final, Outputs, Denials, Flooding;
    var a, b, grace := Socket("a", "u"), Socket("b", "u"), limits.evictionGraceMs;
    var denials := Denials(bucket, n);
    var left := denials + [Disconnect(a, 0)];
    var returned := left + [Register(b, bucket, grace)];
    DenialsAddUp(limits, evicts, bucket, n);
    FinalAppend(limits, evicts, EMPTY_STORE, denials, Disconnect(a, 0));
    FinalAppend(limits, evicts, EMPTY_STORE, left, Register(b, bucket, grace));
    OutputsAppend(limits, evicts, EMPTY_STORE, returned, Invoke(b, bucket, None, grace));
    FloodAnswer(limits, evicts, bucket, n);
  }

  // ---------- What is still held ----------

  function CensusAfter(limits: Limits, c: Census, run: seq<Event>): Census
    decreases |run|
  {
    if run == [] then c else CensusAfter(limits, Advance(limits, c, run[0]), run[1..])
  }

  lemma {:induction false} RunKeepsSimulation(limits: Limits, s: Store, t: Store, c: Census, run: seq<Event>)
    requires Adequate(limits) && Simulates(limits, s, t, c) && LegalRun(limits, c, run)
    ensures Simulates(limits, Final(limits, true, s, run), Final(limits, false, t, run), CensusAfter(limits, c, run))
    decreases |run|
  {
    if run != [] {
      StepKeepsSimulation(limits, s, t, c, run[0]);
      RunKeepsSimulation(limits, Step(limits, true, s, run[0]).0, Step(limits, false, t, run[0]).0,
                         Advance(limits, c, run[0]), run[1..]);
    }
  }

  /** A bucket still held is the one an unforgetting limiter would hold, denials included if it can hold a token. */
  lemma HeldBucketsAgree(limits: Limits, start: int, run: seq<Event>, actor: string, bucket: string)
    requires Adequate(limits) && LegalRun(limits, Census({}, {}, start), run)
    requires var s := Final(limits, true, EMPTY_STORE, run);
             actor in s.actors && bucket in s.actors[actor].buckets
    ensures var s, t := Final(limits, true, EMPTY_STORE, run), Final(limits, false, EMPTY_STORE, run);
            actor in t.actors && bucket in t.actors[actor].buckets && bucket in limits.buckets
            && Alike(limits.buckets[bucket], s.actors[actor].buckets[bucket], t.actors[actor].buckets[bucket])
  {
    RunKeepsSimulation(limits, EMPTY_STORE, EMPTY_STORE, Census({}, {}, start), run);
    var s, t := Final(limits, true, EMPTY_STORE, run), Final(limits, false, EMPTY_STORE, run);
    assert Corresponds(limits, Lookup(s, actor), Lookup(t, actor),
                       CensusAfter(limits, Census({}, {}, start), run).clock);
  }

  /** The limits built from the environment defaults meet the condition: 300 at 100/s and 20 at 5/s, ten minutes' grace. */
  lemma DefaultLimitsAreAdequate()
    ensures Adequate(Limits(map["signaling" := BucketConfig(300.0, 100.0), "chat" := BucketConfig(20.0, 5.0)], 100, 600000))
  {
  }
}
