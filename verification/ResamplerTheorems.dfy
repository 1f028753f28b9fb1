/** The resampler's output in closed form, whatever the sizes of the blocks it is fed. */
module ResamplerTheorems {
  import opened Resampler

  // ---------- Sixteen-bit samples ----------

  /** No stored sample wraps: each is the scaled sample cut towards zero, within the range of an Int16. */
  lemma QuantisedNeverWraps(sample: real)
    ensures -0x8000 <= Quantised(sample) <= 0x7fff
    ensures Quantised(sample) == Truncate(Scaled(sample))
    ensures -1.0 < Quantised(sample) as real - Scaled(sample) < 1.0
    ensures sample >= 1.0 ==> Quantised(sample) == 0x7fff
    ensures sample <= -1.0 ==> Quantised(sample) == -0x8000
  {
    var t := Truncate(Scaled(sample));
    assert -32768.0 <= Scaled(sample) <= 32767.0;
    assert -0x8000 <= t <= 0x7fff;
    if t >= 0 { assert t % 0x1_0000 == t; } else { assert t % 0x1_0000 == t + 0x1_0000; }
  }

  /** What is stored for a sample, without naming how it is computed: full scale beyond either end, and in between the
      sample times 32767, or times 32768 when it is negative, cut towards zero. */
  predicate Stores(sample: real, stored: int) {
    if sample >= 1.0 then stored == 32767
    else if sample <= -1.0 then stored == -32768
    else if sample >= 0.0 then stored as real <= 32767.0 * sample < stored as real + 1.0
    else stored as real - 1.0 < 32768.0 * sample <= stored as real
  }

  lemma QuantisedStores(sample: real, stored: int)
    ensures Stores(sample, Quantised(sample))
    ensures Stores(sample, stored) ==> stored == Quantised(sample)
  {
    QuantisedNeverWraps(sample);
    assert Scaled(sample) == if sample >= 1.0 then 32767.0 else if sample <= -1.0 then -32768.0
                             else if sample >= 0.0 then 32767.0 * sample else 32768.0 * sample;
    hide Quantised, Scaled;
  }

  lemma QuantisedIsMonotone(a: real, b: real)
    requires a <= b
    ensures Quantised(a) <= Quantised(b)
  {
    QuantisedNeverWraps(a);
    QuantisedNeverWraps(b);
    assert Scaled(a) <= Scaled(b);
    hide Quantised, Scaled;
  }

  // ---------- What was posted and what is waiting ----------

  function Flat(chunks: seq<seq<int>>): seq<int> {
    if chunks == [] then [] else Flat(chunks[..|chunks| - 1]) + chunks[|chunks| - 1]
  }

  function Samples(s: Capture): seq<int> { Flat(s.posted) + s.output }

  ghost predicate WholeChunks(chunks: seq<seq<int>>) {
    forall i :: 0 <= i < |chunks| ==> |chunks[i]| == CHUNK_SAMPLES
  }

  lemma PushAddsOne(s: Capture, sample: real)
    requires Running(s) && WholeChunks(s.posted)
    ensures Samples(Push(s, sample)) == Samples(s) + [Quantised(sample)]
    ensures WholeChunks(Push(s, sample).posted)
  {
    hide Quantised;
    var output := s.output + [Quantised(sample)];
    var posted := s.posted + [output];
    assert posted[..|posted| - 1] == s.posted;
    assert Flat(s.posted) + output == Samples(s) + [Quantised(sample)];
    assert Flat(posted) + [] == Flat(posted);
  }

  lemma {:induction false} FlatLength(chunks: seq<seq<int>>)
    requires WholeChunks(chunks)
    ensures |Flat(chunks)| == CHUNK_SAMPLES * |chunks|
  {
    if chunks != [] { FlatLength(chunks[..|chunks| - 1]); }
  }

  lemma {:induction false} FlatChunk(chunks: seq<seq<int>>, i: nat)
    requires WholeChunks(chunks) && i < |chunks|
    ensures CHUNK_SAMPLES * (i + 1) <= |Flat(chunks)|
    ensures chunks[i] == Flat(chunks)[CHUNK_SAMPLES * i..CHUNK_SAMPLES * (i + 1)]
  {
    var init := chunks[..|chunks| - 1];
    FlatLength(init);
    if i < |init| {
      FlatChunk(init, i);
      assert Flat(chunks)[CHUNK_SAMPLES * i..CHUNK_SAMPLES * (i + 1)]
          == Flat(init)[CHUNK_SAMPLES * i..CHUNK_SAMPLES * (i + 1)];
    } else {
      assert Flat(chunks)[|Flat(init)|..] == chunks[i];
    }
  }

  // ---------- The closed form ----------

  function At(x: seq<real>, i: int): real { if 0 <= i < |x| then x[i] else 0.0 }

  /** Between two values, the nearer one weighing more. */
  function Between(a: real, b: real, t: real): real { (1.0 - t) * a + t * b }

  /** The input at a position between its samples. */
  function Lerp(x: seq<real>, position: real): real {
    Between(At(x, position.Floor), At(x, position.Floor + 1), position - position.Floor as real)
  }

  function Count(n: nat, ratio: real): nat
    requires ratio > 0.0
  {
    if n == 0 then 0
    else
      assert (n - 1) as real / ratio >= 0.0;
      ((n - 1) as real / ratio).Floor + 1
  }

  /** Where the k-th output sample lies in the input. */
  function Position(k: nat, ratio: real): real { k as real * ratio }

  function Sample(x: seq<real>, ratio: real, k: nat): int { Quantised(Lerp(x, Position(k, ratio))) }

  function Resampled(x: seq<real>, ratio: real, n: nat): (r: seq<int>)
    ensures |r| == n
  {
    if n == 0 then [] else Resampled(x, ratio, n - 1) + [Sample(x, ratio, n - 1)]
  }

  lemma {:induction false} ResampledAt(x: seq<real>, ratio: real, n: nat, k: nat)
    requires k < n
    ensures Resampled(x, ratio, n)[k] == Sample(x, ratio, k)
  {
    hide Sample;
    if k < n - 1 { ResampledAt(x, ratio, n - 1, k); }
  }

  lemma PositionsAdvance(k: nat, ratio: real)
    requires ratio > 0.0
    ensures Position(0, ratio) == 0.0 <= Position(k, ratio)
    ensures Position(k + 1, ratio) == Position(k, ratio) + ratio
  {
  }

  /** An output sample has been produced exactly when its position lies within the input heard. */
  lemma CountIsExact(n: nat, ratio: real, k: nat)
    requires ratio > 0.0
    ensures k < Count(n, ratio) <==> n > 0 && Position(k, ratio) <= (n - 1) as real
  {
    if n > 0 {
      var q := (n - 1) as real / ratio;
      Quotient((n - 1) as real, ratio);
      if k as real < q { LessProduct(k as real, q, ratio); }
      if q < k as real { LessProduct(q, k as real, ratio); }
    }
  }

  lemma CountGrows(n: nat, ratio: real)
    requires ratio > 0.0
    ensures Count(n, ratio) <= Count(n + 1, ratio)
  {
    if n > 0 {
      var last := Count(n, ratio) - 1;
      CountIsExact(n, ratio, last);
      CountIsExact(n + 1, ratio, last);
      hide Count, Position;
    }
  }

  lemma BetweenAtEnds(a: real, b: real)
    ensures Between(a, b, 0.0) == a && Between(a, b, 1.0) == b
  {
  }

  /** The worklet's one multiplication is the weighted mean. */
  lemma MixIsBetween(a: real, b: real, t: real)
    ensures Mix(a, b, t) == Between(a, b, t)
  {
    Distributes(b, a, t);
    Distributes(1.0, t, a);
  }

  lemma Distributes(x: real, y: real, z: real)
    ensures (x - y) * z == x * z - y * z
  {
  }

  /** Later input does not change the input at a position already reached. */
  lemma LerpIsSettled(x: seq<real>, more: seq<real>, position: real)
    requires x != [] && 0.0 <= position <= (|x| - 1) as real && x <= more
    ensures Lerp(more, position) == Lerp(x, position)
  {
    var i := position.Floor;
    BetweenAtEnds(At(x, i), At(x, i + 1));
    BetweenAtEnds(At(more, i), At(more, i + 1));
    hide Between;
    if i == |x| - 1 { assert position - i as real == 0.0; }
  }

  lemma {:induction false} ResampledIsSettled(x: seq<real>, current: real, ratio: real, n: nat)
    requires ratio > 0.0 && n <= Count(|x|, ratio)
    ensures Resampled(x + [current], ratio, n) == Resampled(x, ratio, n)
    decreases n
  {
    hide Count, Position, Lerp;
    if n > 0 {
      CountIsExact(|x|, ratio, n - 1);
      PositionsAdvance(n - 1, ratio);
      LerpIsSettled(x, x + [current], Position(n - 1, ratio));
      ResampledIsSettled(x, current, ratio, n - 1);
    }
  }

  function Last(x: seq<real>): real { if x == [] then 0.0 else x[|x| - 1] }

  /** A sample that falls due between the last input and the current one is the input at its position. */
  lemma DueSampleIsLerp(x: seq<real>, current: real, position: real)
    requires if x == [] then position == 0.0 else (|x| - 1) as real < position <= |x| as real
    ensures Lerp(x + [current], position)
            == Mix(Last(x), current, if x == [] then 1.0 else position - (|x| - 1) as real)
  {
    var y := x + [current];
    var t := if x == [] then 1.0 else position - (|x| - 1) as real;
    MixIsBetween(Last(x), current, t);
    BetweenAtEnds(Last(x), current);
    BetweenAtEnds(current, At(y, |x| + 1));
    hide Mix, Between;
    if position == |x| as real {
      assert position.Floor == |x|;
      assert Lerp(y, position) == current;
    } else {
      assert position.Floor == |x| - 1;
    }
  }

  /** All of `heard` has been taken in and `k` samples of `x` have been produced. */
  ghost predicate Emitting(s: Capture, heard: seq<real>, x: seq<real>, k: nat) {
    && Running(s) && WholeChunks(s.posted)
    && s.inputIndex == |heard| && s.previousSample == Last(heard)
    && s.nextOutputAt == Position(k, s.ratio)
    && Samples(s) == Resampled(x, s.ratio, k)
  }

  lemma NextSampleIsDue(s: Capture, heard: seq<real>, current: real, k: nat)
    requires Running(s) && s.inputIndex == |heard| && s.previousSample == Last(heard)
    requires s.nextOutputAt == Position(k, s.ratio)
    requires Count(|heard|, s.ratio) <= k < Count(|heard| + 1, s.ratio)
    ensures s.nextOutputAt <= s.inputIndex as real
    ensures Mix(s.previousSample, current, Fraction(s)) == Lerp(heard + [current], Position(k, s.ratio))
  {
    CountIsExact(|heard|, s.ratio, k);
    CountIsExact(|heard| + 1, s.ratio, k);
    PositionsAdvance(k, s.ratio);
    hide Count, Position, Lerp, Mix;
    DueSampleIsLerp(heard, current, Position(k, s.ratio));
  }

  lemma EmitOneFollows(s: Capture, heard: seq<real>, current: real, k: nat)
    requires Emitting(s, heard, heard + [current], k)
    requires Count(|heard|, s.ratio) <= k < Count(|heard| + 1, s.ratio)
    ensures Emitting(EmitOne(s, current), heard, heard + [current], k + 1)
  {
    NextSampleIsDue(s, heard, current, k);
    PositionsAdvance(k, s.ratio);
    var sample := Mix(s.previousSample, current, Fraction(s));
    PushAddsOne(s, sample);
    hide Count, Position, Lerp, Mix, Push, Quantised, WholeChunks;
    assert Samples(EmitOne(s, current)) == Samples(Push(s, sample));
  }

  lemma {:induction false} EmitFollows(s: Capture, heard: seq<real>, current: real, k: nat)
    requires Emitting(s, heard, heard + [current], k)
    requires Count(|heard|, s.ratio) <= k <= Count(|heard| + 1, s.ratio)
    ensures Emitting(Emit(s, current), heard, heard + [current], Count(|heard| + 1, s.ratio))
    decreases Count(|heard| + 1, s.ratio) - k
  {
    CountIsExact(|heard| + 1, s.ratio, k);
    hide Count, EmitOne, Position, Emit, Due;
    if k < Count(|heard| + 1, s.ratio) {
      EmitOneFollows(s, heard, current, k);
      EmitUnfolds(s, current);
      hide Emitting;
      EmitFollows(EmitOne(s, current), heard, current, k + 1);
    } else {
      EmitDone(s, current);
    }
  }

  /** Everything the worklet remembers and has produced, as a function of the samples it has heard. */
  ghost predicate Heard(s: Capture, x: seq<real>) {
    && s.ratio > 0.0 && Emitting(s, x, x, Count(|x|, s.ratio))
  }

  lemma FeedFollows(s: Capture, x: seq<real>, current: real)
    requires Heard(s, x)
    ensures Heard(Feed(s, current), x + [current])
  {
    ResampledIsSettled(x, current, s.ratio, Count(|x|, s.ratio));
    CountGrows(|x|, s.ratio);
    hide Count, Resampled, WholeChunks, Position;
    EmitFollows(s, x, current, Count(|x|, s.ratio));
    hide Emit;
    assert Samples(Feed(s, current)) == Samples(Emit(s, current));
  }

  lemma {:induction false} FeedAllFollows(s: Capture, x: seq<real>, input: seq<real>)
    requires Running(s) && Heard(s, x)
    ensures Heard(FeedAll(s, input), x + input)
    decreases |input|
  {
    hide Heard, Feed;
    if input == [] {
      assert x + input == x;
    } else {
      FeedFollows(s, x, input[0]);
      FeedAllFollows(Feed(s, input[0]), x + [input[0]], input[1..]);
      assert x + [input[0]] + input[1..] == x + input;
    }
  }

  function Joined(blocks: seq<seq<real>>): seq<real> {
    if blocks == [] then [] else blocks[0] + Joined(blocks[1..])
  }

  lemma {:induction false} FeedAllAppends(s: Capture, a: seq<real>, b: seq<real>)
    requires Running(s)
    ensures FeedAll(s, a + b) == FeedAll(FeedAll(s, a), b)
    decreases |a|
  {
    if a == [] {
      assert a + b == b;
    } else {
      hide Feed;
      FeedAllAppends(Feed(s, a[0]), a[1..], b);
      assert (a + b)[1..] == a[1..] + b;
    }
  }

  /** How the input is split into blocks makes no difference to the worklet. */
  lemma {:induction false} BlocksDoNotMatter(s: Capture, blocks: seq<seq<real>>)
    requires Running(s)
    ensures FeedBlocks(s, blocks) == FeedAll(s, Joined(blocks))
    decreases |blocks|
  {
    if blocks != [] {
      FeedAllAppends(s, blocks[0], Joined(blocks[1..]));
      BlocksDoNotMatter(FeedAll(s, blocks[0]), blocks[1..]);
    }
  }

  /** After any blocks of input, the posted chunks, all of 1600 samples, and the partial buffer hold together exactly the
      samples due so far, the k-th being the input interpolated at k times the ratio. */
  lemma OutputIsClosedForm(ratio: real, blocks: seq<seq<real>>)
    requires ratio > 0.0
    ensures var x, s := Joined(blocks), FeedBlocks(Started(ratio), blocks);
            && Samples(s) == Resampled(x, ratio, Count(|x|, ratio))
            && WholeChunks(s.posted) && |s.output| < 1600
  {
    BlocksDoNotMatter(Started(ratio), blocks);
    StartedHasHeardNothing(ratio);
    var x := Joined(blocks);
    FeedAllFollows(Started(ratio), [], x);
    assert [] + x == x;
    hide FeedBlocks, FeedAll, Joined, Count;
  }

  lemma StartedHasHeardNothing(ratio: real)
    requires ratio > 0.0
    ensures Heard(Started(ratio), [])
  {
  }

  /** The i-th message holds samples 1600 i to 1600 (i + 1) of the resampled input. */
  lemma PostedChunkIsSlice(ratio: real, blocks: seq<seq<real>>, i: nat)
    requires ratio > 0.0 && i < |FeedBlocks(Started(ratio), blocks).posted|
    ensures var x, s := Joined(blocks), FeedBlocks(Started(ratio), blocks);
            var all := Resampled(x, ratio, Count(|x|, ratio));
            && 1600 * (i + 1) <= |all|
            && s.posted[i] == all[1600 * i..1600 * (i + 1)]
  {
    hide FeedBlocks, Joined, Count, Resampled, Flat, WholeChunks;
    OutputIsClosedForm(ratio, blocks);
    FlatChunk(FeedBlocks(Started(ratio), blocks).posted, i);
  }

  // ---------- What each sample is ----------

  /** `stored` is the input at `position`, which lies from the i-th input sample on and before the next. */
  ghost predicate StoredAt(x: seq<real>, i: nat, position: real, stored: int) {
    && i < |x| && i as real <= position < (i + 1) as real && (i as real < position ==> i + 1 < |x|)
    && Stores(if position == i as real then x[i]
              else ((i + 1) as real - position) * x[i] + (position - i as real) * x[i + 1], stored)
  }

  lemma SampleIsStored(x: seq<real>, i: nat, position: real)
    requires x != [] && position <= (|x| - 1) as real && i as real <= position < (i + 1) as real
    ensures StoredAt(x, i, position, Quantised(Lerp(x, position)))
  {
    assert position.Floor == i;
    LerpHere(x, i, position);
    QuantisedStores(Lerp(x, position), 0);
    hide Lerp, Quantised, Stores;
  }

  lemma LerpHere(x: seq<real>, i: nat, position: real)
    requires i < |x| && position <= (|x| - 1) as real && position.Floor == i
    ensures i as real < position ==> i + 1 < |x|
    ensures Lerp(x, position) == if position == i as real then x[i]
                                 else ((i + 1) as real - position) * x[i] + (position - i as real) * x[i + 1]
  {
    BetweenAtEnds(At(x, i), At(x, i + 1));
    assert 1.0 - (position - i as real) == (i + 1) as real - position;
  }

  /** After any blocks of input there is a sample for each multiple of the ratio that lies within what was heard, and no
      other; the k-th stores the input interpolated linearly, in order, at k times the ratio. */
  lemma OutputIsInterpolation(ratio: real, blocks: seq<seq<real>>, k: nat, i: nat)
    requires ratio > 0.0
    ensures var x, out := Joined(blocks), Samples(FeedBlocks(Started(ratio), blocks));
            && (k < |out| <==> x != [] && k as real * ratio <= (|x| - 1) as real)
            && (k < |out| && i as real <= k as real * ratio < (i + 1) as real
                ==> StoredAt(x, i, k as real * ratio, out[k]))
  {
    OutputIsClosedForm(ratio, blocks);
    hide FeedBlocks, Joined, Samples, Resampled, Sample, Count, WholeChunks, Position, StoredAt, Quantised, Lerp;
    var x, out := Joined(blocks), Samples(FeedBlocks(Started(ratio), blocks));
    CountIsExact(|x|, ratio, k);
    PositionIs(k, ratio);
    if k < |out| && i as real <= k as real * ratio < (i + 1) as real {
      ResampledAt(x, ratio, |out|, k);
      SampleIsStored(x, i, k as real * ratio);
      SampleIs(x, ratio, k);
    }
  }

  lemma SampleIs(x: seq<real>, ratio: real, k: nat)
    ensures Sample(x, ratio, k) == Quantised(Lerp(x, k as real * ratio))
  {
    PositionIs(k, ratio);
    hide Quantised, Lerp, Position;
  }

  lemma PositionIs(k: nat, ratio: real)
    ensures Position(k, ratio) == k as real * ratio
    ensures ratio > 0.0 ==> k as real * ratio >= 0.0
  {
  }

  /** A straight line comes out as the same line: its k-th sample stores the line's own value k ratios along. */
  lemma LinesAreKept(ratio: real, blocks: seq<seq<real>>, p: real, q: real, k: nat)
    requires ratio > 0.0 && k < |Samples(FeedBlocks(Started(ratio), blocks))|
    requires forall i :: 0 <= i < |Joined(blocks)| ==> Joined(blocks)[i] == p + q * i as real
    ensures Stores(p + q * (k as real * ratio), Samples(FeedBlocks(Started(ratio), blocks))[k])
  {
    hide FeedBlocks, Joined, Samples, StoredAt, Stores;
    PositionIs(k, ratio);
    var i: nat := (k as real * ratio).Floor;
    OutputIsInterpolation(ratio, blocks, k, i);
    LineAt(Joined(blocks), p, q, i, k as real * ratio, Samples(FeedBlocks(Started(ratio), blocks))[k]);
  }

  lemma LineAt(x: seq<real>, p: real, q: real, i: nat, position: real, stored: int)
    requires StoredAt(x, i, position, stored)
    requires forall j :: 0 <= j < |x| ==> x[j] == p + q * j as real
    ensures Stores(p + q * position, stored)
  {
    hide Stores;
    if i as real < position {
      assert x[i] == p + q * i as real && x[i + 1] == p + q * (i as real + 1.0);
      OnTheLine(p, q, i as real, position);
      assert (i + 1) as real - position == i as real + 1.0 - position;
      Replaced((i + 1) as real - position, i as real + 1.0 - position, x[i], p + q * i as real);
      Replaced(position - i as real, position - i as real, x[i + 1], p + q * (i as real + 1.0));
      var v := ((i + 1) as real - position) * x[i] + (position - i as real) * x[i + 1];
      assert Stores(v, stored) && v == p + q * position;
    } else {
      assert x[i] == p + q * i as real;
      Replaced(q, q, i as real, position);
      assert x[i] == p + q * position && Stores(x[i], stored);
    }
  }

  lemma Replaced(a: real, b: real, c: real, d: real)
    requires a == b && c == d
    ensures a * c == b * d
  {
  }

  lemma OnTheLine(p: real, q: real, i: real, position: real)
    ensures (i + 1.0 - position) * (p + q * i) + (position - i) * (p + q * (i + 1.0)) == p + q * position
  {
  }
}
