/** One lazily refilled token bucket: what a spend does, and when a denied spend will succeed. */
module TokenBucket {

  datatype BucketConfig = BucketConfig(capacity: real, refillPerSec: real)

  type Config = c: BucketConfig | c.refillPerSec > 0.0 witness BucketConfig(1.0, 1.0)

  /** `last` is the millisecond of the latest refill; `violations` counts denials since the last admission. */
  datatype Bucket = Bucket(tokens: real, last: int, violations: nat)

  datatype Verdict = Verdict(allowed: bool, retryAfterMs: int)

  function Min(x: real, y: real): real { if x < y then x else y }

  function Ceil(x: real): int { -((-x).Floor) }

  /** Tokens gained in `ms` milliseconds; a clock that went back gains nothing. */
  function Gain(c: Config, ms: int): real {
    if ms <= 0 then 0.0 else ms as real / 1000.0 * c.refillPerSec
  }

  function Level(b: Bucket, c: Config, now: int): real {
    Min(c.capacity, b.tokens + Gain(c, now - b.last))
  }

  /** What a spend leaves behind and reports. Flood counting is the limiter's business, not the bucket's. */
  function Spend(b: Bucket, c: Config, now: int, cost: real): (Bucket, Verdict)
  {
    var level := Level(b, c, now);
    if level >= cost then (b.(tokens := level - cost, last := now), Verdict(true, 0))
    else (b.(tokens := level, last := now), Verdict(false, Ceil((cost - level) / c.refillPerSec * 1000.0)))
  }

  class BucketState {
    var tokens: real
    var last: int
    var violations: nat

    ghost function View(): Bucket
      reads this
    {
      Bucket(tokens, last, violations)
    }

    constructor (b: Bucket)
      ensures View() == b
    {
      tokens, last, violations := b.tokens, b.last, b.violations;
    }

    method ConsumeToken(c: Config, now: int, cost: real) returns (allowed: bool, retryAfterMs: int)
        modifies `tokens, `last
      ensures (View(), Verdict(allowed, retryAfterMs)) == Spend(old(View()), c, now, cost)
    {
      var elapsedSec := if now - last > 0 then (now - last) as real / 1000.0 else 0.0;
      tokens := Min(c.capacity, tokens + elapsedSec * c.refillPerSec);
      last := now;
      if tokens >= cost {
        tokens := tokens - cost;
        return true, 0;
      }
      var deficit := cost - tokens;
      retryAfterMs := Ceil(deficit / c.refillPerSec * 1000.0);
      allowed := false;
    }
  }

  // ---------- Lazy refill composes ----------

  lemma GainAdds(c: Config, x: int, y: int)
    requires 0 <= x && 0 <= y
    ensures Gain(c, x) + Gain(c, y) == Gain(c, x + y)
  {
    var r := c.refillPerSec;
    assert (x as real / 1000.0 + y as real / 1000.0) * r == x as real / 1000.0 * r + y as real / 1000.0 * r;
    assert (x + y) as real / 1000.0 == x as real / 1000.0 + y as real / 1000.0;
  }

  lemma GainIsMonotone(c: Config, x: int, y: int)
    requires x <= y
    ensures 0.0 <= Gain(c, x) <= Gain(c, y)
  {
    if 0 < x {
      assert x as real / 1000.0 <= y as real / 1000.0;
      ScaleMonotone(x as real / 1000.0, y as real / 1000.0, c.refillPerSec);
    }
    if 0 < y {
      ScaleMonotone(0.0, y as real / 1000.0, c.refillPerSec);
    }
  }

  lemma ScaleMonotone(x: real, y: real, r: real)
    requires x <= y && 0.0 < r
    ensures x * r <= y * r
  {
    assert (y - x) * r >= 0.0;
  }

  /** Refilling at `mid` and again at `now` gives what one refill at `now` gives. */
  lemma RefillComposes(b: Bucket, c: Config, mid: int, now: int)
    requires b.last <= mid <= now
    ensures Level(b.(tokens := Level(b, c, mid), last := mid), c, now) == Level(b, c, now)
  {
    GainAdds(c, mid - b.last, now - mid);
    GainIsMonotone(c, 0, mid - b.last);
    GainIsMonotone(c, 0, now - mid);
  }

  // ---------- retryAfterMs is exact ----------

  datatype Attempt = Attempt(at: int, cost: real)

  /** The bucket after a series of attempts. */
  function After(b: Bucket, c: Config, attempts: seq<Attempt>): Bucket
    decreases |attempts|
  {
    if attempts == [] then b
    else After(Spend(b, c, attempts[0].at, attempts[0].cost).0, c, attempts[1..])
  }

  predicate AllDenied(b: Bucket, c: Config, attempts: seq<Attempt>)
    decreases |attempts|
  {
    attempts == [] ||
    (!Spend(b, c, attempts[0].at, attempts[0].cost).1.allowed &&
     AllDenied(Spend(b, c, attempts[0].at, attempts[0].cost).0, c, attempts[1..]))
  }

  predicate InOrder(from: int, attempts: seq<Attempt>, to: int)
    decreases |attempts|
  {
    if attempts == [] then from <= to
    else from <= attempts[0].at && InOrder(attempts[0].at, attempts[1..], to)
  }

  lemma {:induction false} DeniedAttemptsChangeNothing(b: Bucket, c: Config, attempts: seq<Attempt>, now: int)
    requires InOrder(b.last, attempts, now) && AllDenied(b, c, attempts)
    ensures Level(After(b, c, attempts), c, now) == Level(b, c, now)
    decreases |attempts|
  {
    if attempts != [] {
      var next := Spend(b, c, attempts[0].at, attempts[0].cost).0;
      OrderBound(attempts[0].at, attempts[1..], now);
      DeniedAttemptsChangeNothing(next, c, attempts[1..], now);
      RefillComposes(b, c, attempts[0].at, now);
    }
  }

  lemma {:induction false} OrderBound(from: int, attempts: seq<Attempt>, to: int)
    requires InOrder(from, attempts, to)
    ensures from <= to
    decreases |attempts|
  {
    if attempts != [] {
      OrderBound(attempts[0].at, attempts[1..], to);
    }
  }

  lemma CeilIsLeast(x: real, n: int)
    ensures Ceil(x) <= n <==> x <= n as real
  {
  }

  lemma DeficitRefilled(c: Config, deficit: real, ms: int)
    requires deficit > 0.0
    ensures deficit <= Gain(c, ms) <==> Ceil(deficit / c.refillPerSec * 1000.0) <= ms
  {
    var r := c.refillPerSec;
    var q := deficit / r;
    assert q * r == deficit;
    assert q > 0.0;
    CeilIsLeast(q * 1000.0, ms);
    if ms > 0 {
      var sec := ms as real / 1000.0;
      if q <= sec {
        ScaleMonotone(q, sec, r);
      } else {
        assert (q - sec) * r > 0.0;
      }
    }
  }

  /** After a denial the same cost is denied until exactly `retryAfterMs` later, whatever else was denied meanwhile;
      a cost above the capacity is denied for ever, whatever `retryAfterMs` says. */
  lemma RetryAfterIsExact(b: Bucket, c: Config, now: int, cost: real, attempts: seq<Attempt>, later: int)
    requires !Spend(b, c, now, cost).1.allowed
    requires InOrder(now, attempts, later) && AllDenied(Spend(b, c, now, cost).0, c, attempts)
    ensures Spend(b, c, now, cost).1.retryAfterMs > 0
    ensures Spend(After(Spend(b, c, now, cost).0, c, attempts), c, later, cost).1.allowed
            <==> cost <= c.capacity && later >= now + Spend(b, c, now, cost).1.retryAfterMs
  {
    var denied := Spend(b, c, now, cost).0;
    DeniedAttemptsChangeNothing(denied, c, attempts, later);
    OrderBound(now, attempts, later);
    DeficitRefilled(c, cost - denied.tokens, later - now);
    DeficitRefilled(c, cost - denied.tokens, 0);
  }

  /** A spend costs what it says and never overdraws. */
  lemma SpendIsExact(b: Bucket, c: Config, now: int, cost: real)
    requires c.capacity >= 0.0 && b.tokens >= 0.0 && b.last <= now
    ensures var (b', v) := Spend(b, c, now, cost);
            b'.tokens == Level(b, c, now) - (if v.allowed then cost else 0.0) && b'.tokens >= 0.0 && b'.last == now
    ensures Level(b, c, now) <= c.capacity
  {
    GainIsMonotone(c, 0, now - b.last);
  }
}
