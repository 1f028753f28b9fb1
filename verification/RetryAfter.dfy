/** The wait a denied event is told is the one after which it is admitted, over whole runs of the limiter. */
module RetryAfter {
  import opened Wrappers
  import opened TokenBucket
  import opened RateLimiter
  import opened RateLimiterTheorems
  import opened LimiterEvents
  import opened RateBound

  /** Nothing in the run is admitted for the actor on the bucket. */
  predicate Quiet(limits: Limits, s: Store, run: seq<Event>, actor: string, bucket: string)
    decreases |run|
  {
    run == [] ||
    (var (s', out) := Step(limits, true, s, run[0]);
     !(out == Admitted && run[0].Invoke? && run[0].socket.actor == actor && run[0].bucket == bucket)
     && Quiet(limits, s', run[1..], actor, bucket))
  }

  /** The bucket is held, and reaches `level` at time `later`. */
  predicate Reaches(limits: Limits, s: Store, actor: string, bucket: string, later: int, level: real)
    requires bucket in limits.buckets
  {
    && actor in s.actors && bucket in s.actors[actor].buckets
    && Level(s.actors[actor].buckets[bucket], limits.buckets[bucket], later) == level
  }

  lemma QuietSpendKeepsReach(limits: Limits, e: Entry, bucket: string, requested: Option<real>, now: int, later: int)
    requires bucket in limits.buckets && bucket in e.buckets && e.buckets[bucket].last <= now <= later
    requires Spent(e, limits, bucket, requested, now).1 != Admitted
    ensures var c, e' := limits.buckets[bucket], Spent(e, limits, bucket, requested, now).0;
            Level(e'.buckets[bucket], c, later) == Level(e.buckets[bucket], c, later) && e'.buckets[bucket].last == now
  {
    RefillComposes(e.buckets[bucket], limits.buckets[bucket], now, later);
    hide Charge, Level;
  }

  /** While a socket of the actor is connected, an event that admits nothing on the bucket leaves its future as it was. */
  lemma QuietStepKeepsReach(limits: Limits, s: Store, c: Census, e: Event, socket: Socket, bucket: string, later: int, level: real)
    requires SoundStore(limits, s, c) && Legal(c, e) && e.now <= later && bucket in limits.buckets
    requires socket in c.live && Reaches(limits, s, socket.actor, bucket, later, level)
    requires Quiet(limits, s, [e], socket.actor, bucket)
    ensures Reaches(limits, Step(limits, true, s, e).0, socket.actor, bucket, later, level)
  {
    var entry := s.actors[socket.actor];
    assert socket.id in entry.sockets;
    assert SoundBucket(limits, entry, bucket, c.clock);
    if !e.Disconnect? {
      TrackedEntry(limits, true, s, e.socket, e.now);
      hide SoundStore, SoundEntry;
      if e.Invoke? && e.bucket in limits.buckets {
        InvokeIsSpend(limits, s, e);
        var t := Track(limits, true, s, e.socket, e.now).actors[e.socket.actor];
        hide Track, Level, Step;
        if e.socket.actor == socket.actor && e.bucket == bucket {
          QuietSpendKeepsReach(limits, t, bucket, e.requested, e.now, later);
        }
        hide Judge, Charge, BucketOf;
      }
    }
  }

  lemma {:induction false} QuietRunKeepsReach(limits: Limits, s: Store, c: Census, run: seq<Event>, socket: Socket,
                                              bucket: string, later: int, level: real)
    requires SoundStore(limits, s, c) && LegalRun(limits, c, run) && CensusAfter(limits, c, run).clock <= later
    requires bucket in limits.buckets && Reaches(limits, s, socket.actor, bucket, later, level)
    requires socket in CensusAfter(limits, c, run).live && socket in c.live
    requires Quiet(limits, s, run, socket.actor, bucket)
    ensures Reaches(limits, Final(limits, true, s, run), socket.actor, bucket, later, level)
    decreases |run|
  {
    assert c.live !! c.gone;
    hide SoundStore, Reaches, Step;
    if run != [] {
      var s', c' := Step(limits, true, s, run[0]).0, Advance(limits, c, run[0]);
      StepKeepsSound(limits, s, c, run[0]);
      StaysConnected(limits, c, run, socket);
      assert Quiet(limits, s, [run[0]], socket.actor, bucket) by { assert [run[0]][1..] == []; }
      QuietStepKeepsReach(limits, s, c, run[0], socket, bucket, later, level);
      QuietRunKeepsReach(limits, s', c', run[1..], socket, bucket, later, level);
    }
  }

  /** A socket connected before and after a run was so throughout: one that has gone stays gone. */
  lemma {:induction false} GoneStaysGone(limits: Limits, c: Census, run: seq<Event>, socket: Socket)
    requires LegalRun(limits, c, run) && c.live !! c.gone && socket in c.gone
    ensures socket !in CensusAfter(limits, c, run).live && c.clock <= CensusAfter(limits, c, run).clock
    decreases |run|
  {
    if run != [] { GoneStaysGone(limits, Advance(limits, c, run[0]), run[1..], socket); }
  }

  lemma {:induction false} ClockAdvances(limits: Limits, c: Census, run: seq<Event>)
    requires LegalRun(limits, c, run)
    ensures c.clock <= CensusAfter(limits, c, run).clock
    decreases |run|
  {
    if run != [] { ClockAdvances(limits, Advance(limits, c, run[0]), run[1..]); }
  }

  lemma StaysConnected(limits: Limits, c: Census, run: seq<Event>, socket: Socket)
    requires run != [] && LegalRun(limits, c, run) && c.live !! c.gone
    requires socket in c.live && socket in CensusAfter(limits, c, run).live
    ensures socket in Advance(limits, c, run[0]).live && run[0].now <= CensusAfter(limits, c, run).clock
  {
    var c' := Advance(limits, c, run[0]);
    ClockAdvances(limits, c', run[1..]);
    if socket !in c'.live { GoneStaysGone(limits, c', run[1..], socket); }
  }

  /** The same event again, on a bucket that will by then have reached `level`. */
  lemma AgainIsAdmitted(limits: Limits, s: Store, c: Census, e: Event, level: real)
    requires SoundStore(limits, s, c) && e.Invoke? && e.socket in c.live && e.bucket in limits.buckets
    requires Reaches(limits, s, e.socket.actor, e.bucket, e.now, level)
    ensures Step(limits, true, s, e).1 == Admitted <==> level >= Price(e.requested, limits.buckets[e.bucket].capacity)
  {
    var actor, cfg := e.socket.actor, limits.buckets[e.bucket];
    GuardedEvent(limits, true, s, e);
    LevelIsRefilled(s.actors[actor].buckets[e.bucket], cfg, e.now);
    assert e.socket.id in s.actors[actor].sockets;
    assert Surviving(limits, true, s, actor, e.now) == Some(s.actors[actor]);
    hide Step, Price, Level, Refilled, SoundStore;
  }

  /** What a denial leaves in the bucket, and when that is enough. */
  lemma DeniedLeaves(limits: Limits, s: Store, e: Event, later: int)
    requires e.Invoke? && e.bucket in limits.buckets && Step(limits, true, s, e).1.Denied? && e.now <= later
    ensures var (s1, out) := Step(limits, true, s, e);
            var cfg, price := limits.buckets[e.bucket], Price(e.requested, limits.buckets[e.bucket].capacity);
            && e.socket.actor in s1.actors && e.bucket in s1.actors[e.socket.actor].buckets
            && (Level(s1.actors[e.socket.actor].buckets[e.bucket], cfg, later) >= price
                <==> later - e.now >= out.retryAfterMs && price <= cfg.capacity)
  {
    var (s1, out) := Step(limits, true, s, e);
    var cfg, price := limits.buckets[e.bucket], Price(e.requested, limits.buckets[e.bucket].capacity);
    GuardedEvent(limits, true, s, e);
    var b := s1.actors[e.socket.actor].buckets[e.bucket];
    assert Covered(b.tokens, cfg.refillPerSec, price, later - e.now) <==> later - e.now >= out.retryAfterMs;
    hide Step, Price, FoundTokens, Surviving;
    WaitCovers(b, cfg, later, price);
  }

  lemma WaitCovers(b: Bucket, c: Config, later: int, price: real)
    requires b.last <= later
    ensures Level(b, c, later) >= price <==> Covered(b.tokens, c.refillPerSec, price, later - b.last) && price <= c.capacity
  {
    GainOverWindow(c, later - b.last);
    hide Gain;
  }

  /** An event told to wait is admitted when it is sent again exactly from the promised millisecond on, provided its price
      fits the bucket at all: over any legal run in between, of any actors, that admits nothing more on its bucket. */
  lemma RetryIsAdmittedOnTime(limits: Limits, s: Store, c: Census, e: Event, between: seq<Event>, later: int)
    requires SoundStore(limits, s, c) && Legal(c, e) && e.Invoke? && e.bucket in limits.buckets
    requires Step(limits, true, s, e).1.Denied?
    requires var s1, c1 := Step(limits, true, s, e).0, Advance(limits, c, e);
             && LegalRun(limits, c1, between) && Quiet(limits, s1, between, e.socket.actor, e.bucket)
             && e.socket in CensusAfter(limits, c1, between).live && CensusAfter(limits, c1, between).clock <= later
    ensures var (s1, out) := Step(limits, true, s, e);
            Step(limits, true, Final(limits, true, s1, between), Invoke(e.socket, e.bucket, e.requested, later)).1 == Admitted
            <==> later - e.now >= out.retryAfterMs
                 && Price(e.requested, limits.buckets[e.bucket].capacity) <= limits.buckets[e.bucket].capacity
  {
    hide Step, Price, Level, SoundStore, Final, Quiet, LegalRun, CensusAfter;
    var s1 := Step(limits, true, s, e).0;
    var c1, actor := Advance(limits, c, e), e.socket.actor;
    StepKeepsSound(limits, s, c, e);
    ClockAdvances(limits, c1, between);
    DeniedLeaves(limits, s, e, later);
    var level := Level(s1.actors[actor].buckets[e.bucket], limits.buckets[e.bucket], later);
    RunKeepsSound(limits, s1, c1, between);
    QuietRunKeepsReach(limits, s1, c1, between, e.socket, e.bucket, later, level);
    AgainIsAdmitted(limits, Final(limits, true, s1, between), CensusAfter(limits, c1, between), Invoke(e.socket, e.bucket, e.requested, later), level);
  }
}
