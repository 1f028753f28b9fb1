/** The capture worklet: a streaming linear interpolator down to 16 kHz, posting chunks of 1600 samples. */
module Resampler {

  const CHUNK_SAMPLES := 1600

  /** `output` is the filled part of the worklet's buffer. */
  datatype Capture = Capture(
    ratio: real, nextOutputAt: real, inputIndex: nat, previousSample: real, output: seq<int>, posted: seq<seq<int>>)

  // ---------- Sixteen-bit samples ----------

  function Truncate(x: real): int {
    if x >= 0.0 then x.Floor else -((-x).Floor)
  }

  /** Storing into an `Int16Array`: ToInt16, section 7.1.8 of ECMA-262. */
  function ToInt16(x: real): int {
    var bits := Truncate(x) % 0x1_0000;
    if bits >= 0x8000 then bits - 0x1_0000 else bits
  }

  function Clamped(sample: real): real {
    var low := if sample < 1.0 then sample else 1.0;
    if low > -1.0 then low else -1.0
  }

  function Scaled(sample: real): real {
    var clamped := Clamped(sample);
    if clamped < 0.0 then clamped * 32768.0 else clamped * 32767.0
  }

  function Quantised(sample: real): int { ToInt16(Scaled(sample)) }

  // ---------- Specification of the worklet ----------

  predicate Running(s: Capture) { s.ratio > 0.0 && |s.output| < CHUNK_SAMPLES }

  function Started(ratio: real): Capture { Capture(ratio, 0.0, 0, 0.0, [], []) }

  function Push(s: Capture, sample: real): (t: Capture)
    requires Running(s)
    ensures Running(t) && t.ratio == s.ratio && t.nextOutputAt == s.nextOutputAt && t.inputIndex == s.inputIndex
    ensures t.previousSample == s.previousSample
  {
    var output := s.output + [Quantised(sample)];
    if |output| == CHUNK_SAMPLES then s.(posted := s.posted + [output], output := []) else s.(output := output)
  }

  /** How many output instants lie in a stretch of this length. */
  function DueIn(gap: real, ratio: real): nat
    requires ratio > 0.0
  {
    if gap < 0.0 then 0
    else
      assert gap / ratio >= 0.0;
      (gap / ratio).Floor + 1
  }

  /** How many samples are due before the next input sample. */
  function Due(s: Capture): nat
    requires s.ratio > 0.0
  {
    DueIn(s.inputIndex as real - s.nextOutputAt, s.ratio)
  }

  function Mix(a: real, b: real, fraction: real): real { a + (b - a) * fraction }

  function Fraction(s: Capture): real {
    if s.inputIndex == 0 then 1.0 else s.nextOutputAt - (s.inputIndex - 1) as real
  }

  function EmitOne(s: Capture, current: real): (t: Capture)
    requires Running(s)
    ensures Running(t) && t.ratio == s.ratio && t.nextOutputAt == s.nextOutputAt + s.ratio && t.inputIndex == s.inputIndex
  {
    Push(s, Mix(s.previousSample, current, Fraction(s))).(nextOutputAt := s.nextOutputAt + s.ratio)
  }

  lemma EmittingMakesProgress(s: Capture, current: real)
    requires Running(s) && s.nextOutputAt <= s.inputIndex as real
    ensures Due(EmitOne(s, current)) < Due(s)
  {
    var gap := s.inputIndex as real - s.nextOutputAt;
    DueInDrops(gap, s.ratio);
    hide DueIn, Push;
    assert Due(EmitOne(s, current)) == DueIn(gap - s.ratio, s.ratio);
  }

  lemma DueInDrops(gap: real, ratio: real)
    requires ratio > 0.0 && gap >= 0.0
    ensures DueIn(gap - ratio, ratio) < DueIn(gap, ratio)
  {
    OneRatioLess(gap, ratio);
  }

  lemma OneRatioLess(gap: real, ratio: real)
    requires ratio > 0.0
    ensures (gap - ratio) / ratio == gap / ratio - 1.0
  {
    var x, y := gap / ratio, (gap - ratio) / ratio;
    Quotient(gap, ratio);
    Quotient(gap - ratio, ratio);
    assert (x - 1.0) * ratio == x * ratio - ratio;
    SameProduct(x - 1.0, y, ratio);
  }

  lemma Quotient(a: real, b: real)
    requires b > 0.0
    ensures (a / b) * b == a
  {
  }

  lemma SameProduct(x: real, y: real, b: real)
    requires b > 0.0 && x * b == y * b
    ensures x == y
  {
    if x < y { LessProduct(x, y, b); }
    if y < x { LessProduct(y, x, b); }
  }

  lemma LessProduct(x: real, y: real, b: real)
    requires b > 0.0 && x < y
    ensures x * b < y * b
  {
    assert (y - x) * b > 0.0;
  }

  function Emit(s: Capture, current: real): (t: Capture)
    requires Running(s)
    ensures Running(t) && t.ratio == s.ratio && t.inputIndex == s.inputIndex
    decreases Due(s)
  {
    if s.nextOutputAt > s.inputIndex as real then s
    else
      EmittingMakesProgress(s, current);
      Emit(EmitOne(s, current), current)
  }

  function Feed(s: Capture, current: real): (t: Capture)
    requires Running(s)
    ensures Running(t) && t.ratio == s.ratio
  {
    Emit(s, current).(previousSample := current, inputIndex := s.inputIndex + 1)
  }

  function FeedAll(s: Capture, input: seq<real>): (t: Capture)
    requires Running(s)
    ensures Running(t) && t.ratio == s.ratio
    decreases |input|
  {
    if input == [] then s else FeedAll(Feed(s, input[0]), input[1..])
  }

  function FeedBlocks(s: Capture, blocks: seq<seq<real>>): (t: Capture)
    requires Running(s)
    ensures Running(t) && t.ratio == s.ratio
    decreases |blocks|
  {
    if blocks == [] then s else FeedBlocks(FeedAll(s, blocks[0]), blocks[1..])
  }

  // ---------- The worklet ----------

  lemma EmitUnfolds(s: Capture, current: real)
    requires Running(s) && s.nextOutputAt <= s.inputIndex as real
    ensures Emit(s, current) == Emit(EmitOne(s, current), current)
    ensures Due(EmitOne(s, current)) < Due(s)
  {
    EmittingMakesProgress(s, current);
    hide EmitOne, Due;
  }

  lemma EmitDone(s: Capture, current: real)
    requires Running(s) && s.nextOutputAt > s.inputIndex as real
    ensures Emit(s, current) == s
  {
  }

  lemma FeedAllUnfolds(s: Capture, input: seq<real>)
    requires Running(s) && input != []
    ensures FeedAll(s, input) == FeedAll(Feed(s, input[0]), input[1..])
  {
  }

  class PcmCaptureProcessor {
    const ratio: real
    var nextOutputAt: real
    var inputIndex: nat
    var previousSample: real
    var output: array<int>
    var outputIndex: nat
    var posted: seq<seq<int>>

    ghost predicate Valid()
      reads this
    {
      ratio > 0.0 && output.Length == CHUNK_SAMPLES && outputIndex < CHUNK_SAMPLES
    }

    ghost function View(): Capture
      reads this, output
      requires Valid()
    {
      Capture(ratio, nextOutputAt, inputIndex, previousSample, output[..outputIndex], posted)
    }

    constructor (sampleRate: real)
      requires sampleRate > 0.0
      ensures Valid() && fresh(output) && View() == Started(sampleRate / 16000.0)
    {
      ratio := sampleRate / 16000.0;
      nextOutputAt, inputIndex, previousSample := 0.0, 0, 0.0;
      output := new int[CHUNK_SAMPLES](_ => 0);
      outputIndex := 0;
      posted := [];
    }

    method PushSample(sample: real)
      requires Valid()
      modifies this, output
      ensures Valid() && (output == old(output) || fresh(output))
      ensures View() == Push(old(View()), sample)
    {
      var clamped := Clamped(sample);
      output[outputIndex] := ToInt16(if clamped < 0.0 then clamped * 32768.0 else clamped * 32767.0);
      assert output[..outputIndex + 1] == old(output[..outputIndex]) + [Quantised(sample)];
      outputIndex := outputIndex + 1;
      if outputIndex == output.Length {
        assert output[..] == output[..outputIndex];
        posted := posted + [output[..]];
        output := new int[CHUNK_SAMPLES](_ => 0);
        outputIndex := 0;
      }
    }

    /** The samples due before the next input sample: the inner loop of `Process`. */
    method EmitDue(current: real)
      requires Valid()
      modifies this, output
      ensures Valid() && (output == old(output) || fresh(output))
      ensures View() == Emit(old(View()), current)
    {
      hide Push, Mix, Due, Emit;
      while nextOutputAt <= inputIndex as real
        invariant Valid() && (output == old(output) || fresh(output))
        invariant Emit(View(), current) == Emit(old(View()), current)
        decreases Due(View())
      {
        ghost var s := View();
        EmitUnfolds(s, current);
        var fraction := if inputIndex == 0 then 1.0 else nextOutputAt - (inputIndex - 1) as real;
        PushSample(Mix(previousSample, current, fraction));
        nextOutputAt := nextOutputAt + ratio;
        assert View() == EmitOne(s, current);
      }
      EmitDone(View(), current);
    }

    /** One block of input, of any length. */
    method Process(input: seq<real>)
      requires Valid()
      modifies this, output
      ensures Valid() && (output == old(output) || fresh(output))
      ensures View() == FeedAll(old(View()), input)
    {
      hide Push, Mix, Due, Emit;
      for index := 0 to |input|
        invariant Valid() && (output == old(output) || fresh(output))
        invariant FeedAll(View(), input[index..]) == FeedAll(old(View()), input)
      {
        hide FeedAll;
        var current := input[index];
        ghost var before := View();
        EmitDue(current);
        previousSample := current;
        inputIndex := inputIndex + 1;
        FeedAllUnfolds(before, input[index..]);
        assert input[index..][1..] == input[index + 1..];
      }
    }
  }
}
