/** No actor beats the refill rate of a bucket, over any window of any run, exactly when the grace period refills it. */
module RateBound {
  import opened Wrappers
  import opened TokenBucket
  import opened RateLimiter
  import opened RateLimiterTheorems
  import opened LimiterEvents

  predicate Within(run: seq<Event>, from: int, to: int) {
    forall i :: 0 <= i < |run| ==> from <= run[i].now <= to
  }

  function CostOf(limits: Limits, e: Event, out: Output, actor: string, bucket: string): real {
    if e.Invoke? && e.socket.actor == actor && e.bucket == bucket && bucket in limits.buckets && out == Admitted
    then Price(e.requested, limits.buckets[bucket].capacity) else 0.0
  }

  /** What the limiter, as built, admits of one actor's events on one bucket. */
  function AdmittedCost(limits: Limits, s: Store, run: seq<Event>, actor: string, bucket: string): real
    decreases |run|
  {
    if run == [] then 0.0
    else
      var (s', out) := Step(limits, true, s, run[0]);
      CostOf(limits, run[0], out, actor, bucket) + AdmittedCost(limits, s', run[1..], actor, bucket)
  }

  // ---------- What holds of the store, whatever the limits ----------

  ghost predicate SoundStore(limits: Limits, s: Store, c: Census) {
    && s.tracked == c.live + c.gone
    && c.live !! c.gone
    && (forall k :: k in s.actors ==> SoundEntry(limits, s.actors[k], c.clock))
    && (forall socket :: socket in c.live ==> socket.actor in s.actors && socket.id in s.actors[socket.actor].sockets)
  }

  lemma AttachedIsSound(limits: Limits, e: Entry, socket: Socket, tracked: bool, clock: int, now: int)
    requires e == Entry({}, map[], None) || SoundEntry(limits, e, clock)
    requires clock <= now && (tracked ==> socket.id in e.sockets)
    ensures SoundEntry(limits, Attached(e, socket, tracked), now) && socket.id in Attached(e, socket, tracked).sockets
    ensures Attached(e, socket, tracked).emptySince.None?
  {
    var e' := Attached(e, socket, tracked);
    forall name | name in e'.buckets ensures SoundBucket(limits, e', name, now) {
      assert SoundBucket(limits, e, name, if e.emptySince.Some? then e.emptySince.value else clock);
    }
  }

  lemma SoundLater(limits: Limits, e: Entry, clock: int, now: int)
    requires SoundEntry(limits, e, clock) && clock <= now
    ensures SoundEntry(limits, e, now)
  {
    forall name | name in e.buckets
      ensures SoundBucket(limits, e, name, if e.emptySince.Some? then e.emptySince.value else now)
    {
      assert SoundBucket(limits, e, name, if e.emptySince.Some? then e.emptySince.value else clock);
    }
  }

  lemma TrackKeepsSound(limits: Limits, s: Store, c: Census, socket: Socket, now: int)
    requires SoundStore(limits, s, c) && c.clock <= now && socket !in c.gone
    ensures SoundStore(limits, Track(limits, true, s, socket, now), Census(c.live + {socket}, c.gone, now))
    ensures var e := Track(limits, true, s, socket, now).actors[socket.actor];
            socket.id in e.sockets && e.emptySince.None? && SoundEntry(limits, e, now)
  {
    var swept := Swept(limits, true, s.actors, now);
    var s' := Track(limits, true, s, socket, now);
    AttachedIsSound(limits, EntryFor(swept, socket.actor), socket, socket in s.tracked, c.clock, now);
    hide SoundEntry;
    forall k | k in s'.actors ensures SoundEntry(limits, s'.actors[k], now) {
      if k != socket.actor { SoundLater(limits, s.actors[k], c.clock, now); }
    }
  }

  lemma StepKeepsSound(limits: Limits, s: Store, c: Census, e: Event)
    requires SoundStore(limits, s, c) && Legal(c, e)
    ensures SoundStore(limits, Step(limits, true, s, e).0, Advance(limits, c, e))
  {
    match e
    case Register(socket, bucket, now) =>
      if bucket in limits.buckets { TrackKeepsSound(limits, s, c, socket, now); } else { WaitKeepsSound(limits, s, c, now); }
    case Invoke(socket, bucket, requested, now) =>
      TrackKeepsSound(limits, s, c, socket, now);
      assert c.live + {socket} == c.live;
      var t := Track(limits, true, s, socket, now);
      if bucket in limits.buckets {
        SpendKeepsSound(limits, t.actors[socket.actor], bucket, requested, now);
        InvokeIsSpend(limits, s, e);
      }
    case Disconnect(socket, now) =>
      WaitKeepsSound(limits, s, c, now);
      DetachKeepsSound(limits, s.actors[socket.actor], socket, now);
      hide SoundEntry;
  }

  /** A guarded event is tracking, then a spend on the actor's entry. */
  lemma InvokeIsSpend(limits: Limits, s: Store, e: Event)
    requires e.Invoke? && e.bucket in limits.buckets
    ensures var t := Track(limits, true, s, e.socket, e.now);
            var (entry, out) := Spent(t.actors[e.socket.actor], limits, e.bucket, e.requested, e.now);
            Step(limits, true, s, e) == (t.(actors := t.actors[e.socket.actor := entry]), out)
  {
    hide Judge, Charge, BucketOf;
  }

  lemma WaitKeepsSound(limits: Limits, s: Store, c: Census, now: int)
    requires SoundStore(limits, s, c) && c.clock <= now
    ensures SoundStore(limits, s, c.(clock := now))
  {
    hide SoundEntry;
    forall k | k in s.actors ensures SoundEntry(limits, s.actors[k], now) {
      SoundLater(limits, s.actors[k], c.clock, now);
    }
  }

  lemma DetachKeepsSound(limits: Limits, e: Entry, socket: Socket, now: int)
    requires SoundEntry(limits, e, now) && socket.id in e.sockets
    ensures SoundEntry(limits, Detached(e, socket, now), now)
  {
    var e' := Detached(e, socket, now);
    forall name | name in e'.buckets ensures SoundBucket(limits, e', name, now) {
      assert SoundBucket(limits, e, name, now);
    }
  }

  lemma {:induction false} RunKeepsSound(limits: Limits, s: Store, c: Census, run: seq<Event>)
    requires SoundStore(limits, s, c) && LegalRun(limits, c, run)
    ensures SoundStore(limits, Final(limits, true, s, run), CensusAfter(limits, c, run))
    decreases |run|
  {
    if run != [] {
      StepKeepsSound(limits, s, c, run[0]);
      hide SoundStore, Step;
      RunKeepsSound(limits, Step(limits, true, s, run[0]).0, Advance(limits, c, run[0]), run[1..]);
    }
  }

  // ---------- What one actor has left ----------

  /** The level an actor's next event on the bucket would find. */
  function Left(limits: Limits, s: Store, actor: string, bucket: string, now: int): real
    requires bucket in limits.buckets
  {
    var c := limits.buckets[bucket];
    if actor in s.actors && bucket in s.actors[actor].buckets then Level(s.actors[actor].buckets[bucket], c, now)
    else c.capacity
  }

  lemma LeftRange(limits: Limits, s: Store, c: Census, actor: string, bucket: string, now: int, later: int)
    requires SoundStore(limits, s, c) && bucket in limits.buckets && limits.buckets[bucket].capacity >= 0.0
    requires c.clock <= now <= later
    ensures 0.0 <= Left(limits, s, actor, bucket, now) <= limits.buckets[bucket].capacity
    ensures Left(limits, s, actor, bucket, later)
            <= Left(limits, s, actor, bucket, now) + Gain(limits.buckets[bucket], later - now)
  {
    var cfg := limits.buckets[bucket];
    GainIsMonotone(cfg, 0, later - now);
    if actor in s.actors && bucket in s.actors[actor].buckets {
      var e := s.actors[actor];
      var b := e.buckets[bucket];
      assert SoundBucket(limits, e, bucket, if e.emptySince.Some? then e.emptySince.value else c.clock);
      GainAdds(cfg, now - b.last, later - now);
      GainIsMonotone(cfg, 0, now - b.last);
    }
  }

  /** Sweeping and attaching give nobody anything: what is forgotten had refilled. */
  lemma TrackKeepsLeft(limits: Limits, s: Store, c: Census, socket: Socket, now: int, actor: string, bucket: string)
    requires SoundStore(limits, s, c) && c.clock <= now
    requires bucket in limits.buckets && GraceRefills(limits, limits.buckets[bucket])
    ensures Left(limits, Track(limits, true, s, socket, now), actor, bucket, now) == Left(limits, s, actor, bucket, now)
  {
    if actor in s.actors && bucket in s.actors[actor].buckets && Evictable(s.actors[actor], now - limits.evictionGraceMs) {
      SoundLater(limits, s.actors[actor], c.clock, now);
      EvictableIsFull(limits, s.actors[actor], bucket, now);
    }
    hide SoundEntry, GraceRefills;
  }

  lemma SpendTakesFromLeft(limits: Limits, e: Entry, bucket: string, requested: Option<real>, now: int)
    requires SoundEntry(limits, e, now) && e.emptySince.None?
    requires bucket in limits.buckets && limits.buckets[bucket].capacity >= 0.0
    ensures var c := limits.buckets[bucket];
            var (e', out) := Spent(e, limits, bucket, requested, now);
            (if out == Admitted then Price(requested, c.capacity) else 0.0) + Level(e'.buckets[bucket], c, now)
            <= Level(BucketOf(e, bucket, c, now), c, now) <= c.capacity
  {
    var c := limits.buckets[bucket];
    assert bucket in e.buckets ==> SoundBucket(limits, e, bucket, now);
    SpendIsExact(BucketOf(e, bucket, c, now), c, now, Charge(requested, c));
    ChargeIsPrice(requested, c);
    hide Charge, Price, SoundEntry;
  }

  lemma StepSpendsFromLeft(limits: Limits, s: Store, c: Census, e: Event, actor: string, bucket: string)
    requires SoundStore(limits, s, c) && Legal(c, e)
    requires bucket in limits.buckets && limits.buckets[bucket].capacity >= 0.0 && GraceRefills(limits, limits.buckets[bucket])
    ensures var (s', out) := Step(limits, true, s, e);
            CostOf(limits, e, out, actor, bucket) + Left(limits, s', actor, bucket, e.now)
            <= Left(limits, s, actor, bucket, e.now)
  {
    if e.Disconnect? {
      assert e.socket.actor in s.actors;
    } else {
      TrackKeepsLeft(limits, s, c, e.socket, e.now, actor, bucket);
      TrackKeepsSound(limits, s, c, e.socket, e.now);
      hide SoundStore, SoundEntry, GraceRefills, Track, Price;
      if e.Invoke? && e.bucket in limits.buckets {
        InvokeIsSpend(limits, s, e);
        if e.bucket == bucket {
          SpendTakesFromLeft(limits, Track(limits, true, s, e.socket, e.now).actors[e.socket.actor], bucket, e.requested, e.now);
        }
      }
    }
  }

  lemma {:induction false} SpendingIsFunded(limits: Limits, s: Store, c: Census, run: seq<Event>,
                                            actor: string, bucket: string, from: int, to: int)
    requires SoundStore(limits, s, c) && LegalRun(limits, c, run) && c.clock <= from <= to && Within(run, from, to)
    requires bucket in limits.buckets && limits.buckets[bucket].capacity >= 0.0 && GraceRefills(limits, limits.buckets[bucket])
    ensures AdmittedCost(limits, s, run, actor, bucket)
            <= Left(limits, s, actor, bucket, from) + Gain(limits.buckets[bucket], to - from)
    decreases |run|
  {
    var cfg := limits.buckets[bucket];
    GainIsMonotone(cfg, 0, to - from);
    LeftRange(limits, s, c, actor, bucket, from, from);
    hide Left, Gain, GraceRefills, SoundStore, Step;
    if run != [] {
      var at := run[0].now;
      LeftRange(limits, s, c, actor, bucket, from, at);
      StepSpendsFromLeft(limits, s, c, run[0], actor, bucket);
      StepKeepsSound(limits, s, c, run[0]);
      assert Within(run[1..], at, to) by { LegalRunIsOrdered(limits, Advance(limits, c, run[0]), run[1..]); }
      SpendingIsFunded(limits, Step(limits, true, s, run[0]).0, Advance(limits, c, run[0]), run[1..], actor, bucket, at, to);
      GainAdds(cfg, at - from, to - at);
    }
  }

  lemma {:induction false} LegalRunIsOrdered(limits: Limits, c: Census, run: seq<Event>)
    requires LegalRun(limits, c, run)
    ensures forall i :: 0 <= i < |run| ==> c.clock <= run[i].now
    decreases |run|
  {
    if run != [] {
      LegalRunIsOrdered(limits, Advance(limits, c, run[0]), run[1..]);
      forall i | 0 <= i < |run| ensures c.clock <= run[i].now {
        if i > 0 { assert run[i] == run[1..][i - 1]; }
      }
    }
  }

  // ---------- Exactly when the bound holds ----------

  /** A window of a legal run, after anything. */
  ghost predicate LegalWindow(limits: Limits, start: int, before: seq<Event>, window: seq<Event>, from: int, to: int) {
    var c := CensusAfter(limits, Census({}, {}, start), before);
    && LegalRun(limits, Census({}, {}, start), before) && LegalRun(limits, c, window)
    && c.clock <= from <= to && Within(window, from, to)
  }

  ghost predicate RateBounded(limits: Limits, bucket: string)
    requires bucket in limits.buckets
  {
    forall start, before, window, from, to, actor | LegalWindow(limits, start, before, window, from, to) ::
      AdmittedCost(limits, Final(limits, true, EMPTY_STORE, before), window, actor, bucket)
      <= limits.buckets[bucket].capacity + (to - from) as real / 1000.0 * limits.buckets[bucket].refillPerSec
  }

  lemma GainOverWindow(c: Config, ms: int)
    requires ms >= 0
    ensures Gain(c, ms) == ms as real / 1000.0 * c.refillPerSec
  {
  }

  lemma WindowIsFunded(limits: Limits, start: int, before: seq<Event>, window: seq<Event>,
                       actor: string, bucket: string, from: int, to: int)
    requires LegalWindow(limits, start, before, window, from, to)
    requires bucket in limits.buckets && limits.buckets[bucket].capacity >= 0.0 && GraceRefills(limits, limits.buckets[bucket])
    ensures AdmittedCost(limits, Final(limits, true, EMPTY_STORE, before), window, actor, bucket)
            <= limits.buckets[bucket].capacity + Gain(limits.buckets[bucket], to - from)
  {
    hide Gain, GraceRefills, Left, AdmittedCost;
    var begin := Census({}, {}, start);
    RunKeepsSound(limits, EMPTY_STORE, begin, before);
    var s, c := Final(limits, true, EMPTY_STORE, before), CensusAfter(limits, begin, before);
    SpendingIsFunded(limits, s, c, window, actor, bucket, from, to);
    LeftRange(limits, s, c, actor, bucket, from, from);
  }

  lemma RateBoundOverAnyWindow(limits: Limits, start: int, before: seq<Event>, window: seq<Event>,
                               actor: string, bucket: string, from: int, to: int)
    requires LegalWindow(limits, start, before, window, from, to)
    requires bucket in limits.buckets && limits.buckets[bucket].capacity >= 0.0 && GraceRefills(limits, limits.buckets[bucket])
    ensures AdmittedCost(limits, Final(limits, true, EMPTY_STORE, before), window, actor, bucket)
            <= limits.buckets[bucket].capacity + (to - from) as real / 1000.0 * limits.buckets[bucket].refillPerSec
  {
    hide Gain, AdmittedCost, Final, GraceRefills;
    GainOverWindow(limits.buckets[bucket], to - from);
    WindowIsFunded(limits, start, before, window, actor, bucket, from, to);
  }

  lemma {:induction false} CostAppend(limits: Limits, s: Store, run: seq<Event>, e: Event, actor: string, bucket: string)
    ensures AdmittedCost(limits, s, run + [e], actor, bucket)
            == AdmittedCost(limits, s, run, actor, bucket)
               + CostOf(limits, e, Step(limits, true, Final(limits, true, s, run), e).1, actor, bucket)
    decreases |run|
  {
    hide Step, CostOf;
    if run == [] {
      assert run + [e] == [e];
    } else {
      assert (run + [e])[1..] == run[1..] + [e];
      CostAppend(limits, Step(limits, true, s, run[0]).0, run[1..], e, actor, bucket);
    }
  }

  /** Draining a fresh bucket costs its whole capacity. */
  lemma FirstDrain(limits: Limits, bucket: string)
    requires bucket in limits.buckets && limits.buckets[bucket].capacity > 0.0
    ensures var run := BypassRun(limits, bucket);
            Step(limits, true, Final(limits, true, EMPTY_STORE, run[..1]), run[1]).1 == Admitted
  {
    var run := BypassRun(limits, bucket);
    NothingEvictable(map[], -(limits.evictionGraceMs as int));
    FinalAppend(limits, true, EMPTY_STORE, [], run[0]);
    assert [] + [run[0]] == run[..1];
    var s := Final(limits, true, EMPTY_STORE, run[..1]);
    var joined := Attached(Entry({}, map[], None), Socket("a", "u"), false);
    assert s.actors == map["u" := joined];
    NothingEvictable(s.actors, -(limits.evictionGraceMs as int));
  }

  /** How the i-th event of a run from the start is answered. */
  function Answer(limits: Limits, run: seq<Event>, i: nat): Output
    requires i < |run|
  {
    Step(limits, true, Final(limits, true, EMPTY_STORE, run[..i]), run[i]).1
  }

  lemma CostOfFive(limits: Limits, run: seq<Event>, actor: string, bucket: string)
    requires |run| == 5
    ensures AdmittedCost(limits, EMPTY_STORE, run, actor, bucket)
            == CostOf(limits, run[0], Answer(limits, run, 0), actor, bucket)
               + CostOf(limits, run[1], Answer(limits, run, 1), actor, bucket)
               + CostOf(limits, run[2], Answer(limits, run, 2), actor, bucket)
               + CostOf(limits, run[3], Answer(limits, run, 3), actor, bucket)
               + CostOf(limits, run[4], Answer(limits, run, 4), actor, bucket)
  {
    assert AdmittedCost(limits, EMPTY_STORE, run[..0], actor, bucket) == 0.0;
    hide Step, Final, CostOf, AdmittedCost;
    forall i | 0 <= i < 5 ensures run[..i + 1] == run[..i] + [run[i]] { }
    CostAppend(limits, EMPTY_STORE, run[..0], run[0], actor, bucket);
    CostAppend(limits, EMPTY_STORE, run[..1], run[1], actor, bucket);
    CostAppend(limits, EMPTY_STORE, run[..2], run[2], actor, bucket);
    CostAppend(limits, EMPTY_STORE, run[..3], run[3], actor, bucket);
    CostAppend(limits, EMPTY_STORE, run[..4], run[4], actor, bucket);
    assert run[..5] == run;
  }

  lemma PriceOfAll(capacity: real)
    requires capacity > 0.0
    ensures Price(Some(capacity), capacity) == capacity
  {
    PriceOfRest(Some(capacity), capacity);
  }

  /** With a shorter grace, coming back after it drains the bucket twice. */
  lemma BypassDrainsTwice(limits: Limits, bucket: string)
    requires bucket in limits.buckets && !GraceRefills(limits, limits.buckets[bucket])
    ensures AdmittedCost(limits, EMPTY_STORE, BypassRun(limits, bucket), "u", bucket) == 2.0 * limits.buckets[bucket].capacity
  {
    assert limits.buckets[bucket].capacity > 0.0;
    PriceOfAll(limits.buckets[bucket].capacity);
    FirstDrain(limits, bucket);
    BypassStores(limits, bucket);
    hide Step, Final, AdmittedCost, Price, GraceRefills;
    CostOfFive(limits, BypassRun(limits, bucket), "u", bucket);
  }

  lemma BypassIsLegalWindow(limits: Limits, bucket: string)
    requires bucket in limits.buckets
    ensures LegalWindow(limits, 0, [], BypassRun(limits, bucket), 0, limits.evictionGraceMs)
  {
    BypassIsLegal(limits, bucket);
    assert LegalRun(limits, Census({}, {}, 0), []) && CensusAfter(limits, Census({}, {}, 0), []) == Census({}, {}, 0);
    hide LegalRun, CensusAfter;
  }

  lemma RefillsBound(limits: Limits, bucket: string)
    requires bucket in limits.buckets
    requires limits.buckets[bucket].capacity >= 0.0 && GraceRefills(limits, limits.buckets[bucket])
    ensures RateBounded(limits, bucket)
  {
    var cfg := limits.buckets[bucket];
    hide LegalWindow, AdmittedCost, Final, GraceRefills;
    forall start, before, window, from, to, actor | LegalWindow(limits, start, before, window, from, to)
      ensures AdmittedCost(limits, Final(limits, true, EMPTY_STORE, before), window, actor, bucket)
              <= cfg.capacity + (to - from) as real / 1000.0 * cfg.refillPerSec
    {
      RateBoundOverAnyWindow(limits, start, before, window, actor, bucket, from, to);
    }
  }

  lemma NegativeIsUnbounded(limits: Limits, bucket: string)
    requires bucket in limits.buckets && limits.buckets[bucket].capacity < 0.0
    ensures !RateBounded(limits, bucket)
  {
    assert LegalWindow(limits, 0, [], [], 0, 0);
    assert AdmittedCost(limits, Final(limits, true, EMPTY_STORE, []), [], "u", bucket) == 0.0;
    assert (0 - 0) as real / 1000.0 * limits.buckets[bucket].refillPerSec == 0.0;
  }

  lemma BypassIsUnbounded(limits: Limits, bucket: string)
    requires bucket in limits.buckets && !GraceRefills(limits, limits.buckets[bucket])
    ensures !RateBounded(limits, bucket)
  {
    var cfg, run, grace := limits.buckets[bucket], BypassRun(limits, bucket), limits.evictionGraceMs as int;
    assert Final(limits, true, EMPTY_STORE, []) == EMPTY_STORE;
    assert (grace - 0) as real / 1000.0 * cfg.refillPerSec < cfg.capacity;
    hide LegalWindow, AdmittedCost, Final, GraceRefills, BypassRun;
    BypassDrainsTwice(limits, bucket);
    BypassIsLegalWindow(limits, bucket);
    assert AdmittedCost(limits, Final(limits, true, EMPTY_STORE, []), run, "u", bucket) == 2.0 * cfg.capacity;
  }

  /** Over every window of every run, and across all of an actor's sockets and reconnects, what is admitted on a bucket
      stays within its capacity plus the refill, exactly when the grace period refills that bucket. */
  lemma RateBoundExactlyWhenGraceRefills(limits: Limits, bucket: string)
    requires bucket in limits.buckets
    ensures RateBounded(limits, bucket)
            <==> limits.buckets[bucket].capacity >= 0.0 && GraceRefills(limits, limits.buckets[bucket])
  {
    hide RateBounded, GraceRefills;
    if limits.buckets[bucket].capacity < 0.0 {
      NegativeIsUnbounded(limits, bucket);
    } else if GraceRefills(limits, limits.buckets[bucket]) {
      RefillsBound(limits, bucket);
    } else {
      BypassIsUnbounded(limits, bucket);
    }
  }
}
