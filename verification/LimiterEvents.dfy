/** One guarded event in plain terms: what is asked, what the bucket holds, what the answer is and when to come back. */
module LimiterEvents {
  import opened Wrappers
  import opened TokenBucket
  import opened RateLimiter

  // ---------- The price of an event ----------

  /** The least whole number of tokens that covers `v`. */
  function WholeTokens(v: real): int {
    if v.Floor as real == v then v.Floor else v.Floor + 1
  }

  /** What the requested cost comes to: whole tokens, at most a full bucket, and one token for a plain event. */
  function Price(requested: Option<real>, capacity: real): real {
    if requested.None? || requested.value <= 0.0 then 1.0
    else if WholeTokens(requested.value) as real <= capacity then WholeTokens(requested.value) as real
    else capacity
  }

  lemma WholeTokensCover(v: real)
    ensures v <= WholeTokens(v) as real < v + 1.0
  {
  }

  lemma CeilCovers(v: real)
    ensures v <= Ceil(v) as real < v + 1.0
  {
    var floor := (-v).Floor;
    assert floor as real <= -v < floor as real + 1.0;
  }

  lemma SameWhole(v: real, m: int, n: int)
    requires v <= m as real < v + 1.0 && v <= n as real < v + 1.0
    ensures m == n
  {
    assert m < n + 1 && n < m + 1;
  }

  lemma ChargeIsPrice(requested: Option<real>, c: Config)
    ensures Charge(requested, c) == Price(requested, c.capacity)
  {
    if requested.Some? {
      var v := requested.value;
      WholeTokensCover(v);
      CeilCovers(v);
      SameWhole(v, WholeTokens(v), Ceil(v));
    }
    hide WholeTokens, Ceil;
  }

  /** A request of at most `n` tokens and more than `n - 1`, which the bucket can hold, costs `n`. */
  lemma PriceOfWholeTokens(v: real, capacity: real, n: int)
    requires 1 <= n && n as real <= capacity && (n - 1) as real < v <= n as real
    ensures Price(Some(v), capacity) == n as real
  {
    WholeTokensCover(v);
    SameWhole(v, WholeTokens(v), n);
    hide WholeTokens;
  }

  /** A request of at least the capacity costs the capacity, no request costs one token, and no other request is given
      away or rounded by a token or more. */
  lemma PriceOfRest(requested: Option<real>, capacity: real)
    ensures requested.None? || requested.value <= 0.0 ==> Price(requested, capacity) == 1.0
    ensures requested.Some? && 0.0 < requested.value && capacity <= requested.value ==> Price(requested, capacity) == capacity
    ensures requested.Some? && 0.0 < requested.value <= capacity ==>
              requested.value <= Price(requested, capacity) < requested.value + 1.0
  {
    if requested.Some? { WholeTokensCover(requested.value); }
    hide WholeTokens;
  }

  // ---------- What the event finds ----------

  /** The actor's entry, unless it is empty and its grace period is over by now. */
  function Surviving(limits: Limits, evicts: bool, s: Store, actor: string, now: int): Option<Entry> {
    if actor !in s.actors then None
    else
      var e := s.actors[actor];
      if evicts && e.sockets == {} && e.emptySince.Some? && now - e.emptySince.value >= limits.evictionGraceMs then None
      else Some(e)
  }

  /** What an untouched bucket grows to in some milliseconds. */
  function Refilled(tokens: real, c: BucketConfig, ms: int): real {
    var grown := if ms > 0 then tokens + ms as real / 1000.0 * c.refillPerSec else tokens;
    if grown < c.capacity then grown else c.capacity
  }

  function FoundTokens(limits: Limits, e: Option<Entry>, bucket: string, now: int): real
    requires bucket in limits.buckets
  {
    if e.Some? && bucket in e.value.buckets
    then Refilled(e.value.buckets[bucket].tokens, limits.buckets[bucket], now - e.value.buckets[bucket].last)
    else limits.buckets[bucket].capacity
  }

  function FoundViolations(e: Option<Entry>, bucket: string): nat {
    if e.Some? && bucket in e.value.buckets then e.value.buckets[bucket].violations else 0
  }

  lemma LevelIsRefilled(b: Bucket, c: Config, now: int)
    ensures Level(b, c, now) == Refilled(b.tokens, c, now - b.last)
  {
  }

  lemma TrackedEntry(limits: Limits, evicts: bool, s: Store, socket: Socket, now: int)
    ensures var t, e := Track(limits, evicts, s, socket, now), Surviving(limits, evicts, s, socket.actor, now);
            && t.actors[socket.actor].buckets == (if e.Some? then e.value.buckets else map[])
            && forall k :: k != socket.actor ==>
                 (k in t.actors <==> Surviving(limits, evicts, s, k, now).Some?) && (k in t.actors ==> t.actors[k] == s.actors[k])
  {
  }

  /** After some milliseconds the price is covered. */
  predicate Covered(found: real, refillPerSec: real, price: real, ms: int) {
    found + ms as real / 1000.0 * refillPerSec >= price
  }

  /** What the answer of one bucket must be, given what it held and the price. */
  ghost predicate Answers(found: real, price: real, violations: nat, refillPerSec: real, threshold: int, now: int,
                          after: Bucket, out: Output)
  {
    && after.last == now
    && (if found >= price
        then out == Admitted && after.tokens == found - price && after.violations == 0
        else after.tokens == found && after.violations == violations + 1
             && (if violations + 1 >= threshold then out == FloodDisconnect
                 else out.Denied? && forall ms: int :: ms >= 0 ==>
                        (Covered(found, refillPerSec, price, ms) <==> ms >= out.retryAfterMs)))
  }

  lemma JudgeAnswers(b: Bucket, c: Config, now: int, requested: Option<real>, threshold: int)
    ensures var (after, out) := Judge(b, c, now, Charge(requested, c), threshold);
            Answers(Refilled(b.tokens, c, now - b.last), Price(requested, c.capacity), b.violations, c.refillPerSec,
                    threshold, now, after, out)
  {
    ChargeIsPrice(requested, c);
    LevelIsRefilled(b, c, now);
    var price, found := Charge(requested, c), Level(b, c, now);
    hide Charge, Price, Level, Refilled;
    if found < price {
      forall ms: int | ms >= 0
        ensures Covered(found, c.refillPerSec, price, ms) <==> ms >= Ceil((price - found) / c.refillPerSec * 1000.0)
      {
        DeficitRefilled(c, price - found, ms);
        assert ms > 0 ==> Gain(c, ms) == ms as real / 1000.0 * c.refillPerSec;
        assert ms == 0 ==> ms as real / 1000.0 * c.refillPerSec == 0.0;
      }
    }
  }

  /** One guarded event: it is admitted exactly when the refilled bucket covers the price, which is then all it loses; a
      denial counts, disconnects at the threshold, and otherwise names the least wait after which the price is covered.
      Nothing else changes but that overdue entries go. */
  lemma GuardedEvent(limits: Limits, evicts: bool, s: Store, e: Event)
    requires e.Invoke? && e.bucket in limits.buckets
    ensures var (s', out) := Step(limits, evicts, s, e);
            var c, held := limits.buckets[e.bucket], Surviving(limits, evicts, s, e.socket.actor, e.now);
            && e.socket.actor in s'.actors && e.bucket in s'.actors[e.socket.actor].buckets
            && Answers(FoundTokens(limits, held, e.bucket, e.now), Price(e.requested, c.capacity),
                       FoundViolations(held, e.bucket), c.refillPerSec, limits.floodDisconnectThreshold, e.now,
                       s'.actors[e.socket.actor].buckets[e.bucket], out)
            && (forall b :: b != e.bucket ==>
                  (b in s'.actors[e.socket.actor].buckets <==> held.Some? && b in held.value.buckets)
                  && (held.Some? && b in held.value.buckets ==> s'.actors[e.socket.actor].buckets[b] == held.value.buckets[b]))
            && (forall k :: k != e.socket.actor ==>
                  (k in s'.actors <==> Surviving(limits, evicts, s, k, e.now).Some?)
                  && (k in s'.actors ==> s'.actors[k] == s.actors[k]))
  {
    var c := limits.buckets[e.bucket];
    TrackedEntry(limits, evicts, s, e.socket, e.now);
    var entry := Track(limits, evicts, s, e.socket, e.now).actors[e.socket.actor];
    JudgeAnswers(BucketOf(entry, e.bucket, c, e.now), c, e.now, e.requested, limits.floodDisconnectThreshold);
    hide Track, Judge, Charge, Price, Surviving, Answers;
  }
}
