/** Resampling to 48 kHz: packets of any size become chunks for a Fourier resampler, and its output an exact length. */
module Resample {
  import opened Basics
  import Mix
  import Words

  type Frame = Mix.Frame

  const SILENCE := Mix.Frame(0.0, 0.0)

  type Positive = n: int | 0 < n witness 1

  const OUTPUT_SAMPLE_RATE: nat := 48000
  const CHUNK_FRAMES: nat := 1024

  // Division

  function CeilingDiv(a: nat, d: Positive): nat {
    (a + d - 1) / d
  }

  lemma CeilingBounds(a: nat, d: Positive)
    ensures (CeilingDiv(a, d) - 1) * d < a <= CeilingDiv(a, d) * d
  {}

  lemma MultiplesOrder(p: int, q: int, d: nat)
    requires p * d < q * d
    ensures p < q
  {}

  /** The ceiling is the least multiple that reaches a. */
  lemma CeilingLeast(a: nat, d: Positive, q: nat)
    ensures q * d >= a ==> q >= CeilingDiv(a, d)
    ensures q * d <= a ==> q <= CeilingDiv(a, d)
  {
    CeilingBounds(a, d);
    var c := CeilingDiv(a, d);
    if q * d >= a {
      MultiplesOrder(c - 1, q, d);
    }
    if q * d <= a {
      assert (c + 1) * d == c * d + d;
      MultiplesOrder(q, c + 1, d);
    }
  }

  lemma QuotientOrder(a: nat, b: nat, d: Positive)
    requires a <= b
    ensures a / d <= b / d
  {
    QuotientGrowth(a, b, 0, d);
  }

  lemma QuotientGrowth(a: nat, b: nat, n: nat, d: Positive)
    requires b >= a + n * d
    ensures b / d >= a / d + n
  {
    Words.QuotientBounds(a, d);
    Words.QuotientBounds(b, d);
    assert (a / d + n) * d == a / d * d + n * d;
    assert (b / d + 1) * d == b / d * d + d;
    MultiplesOrder(a / d + n, b / d + 1, d);
  }

  // The transform

  /**
    * What is known of the Fourier resampler: every sizeIn frames it has been fed make sizeOut frames, which depend on
    * nothing but the frames up to there; less than that many are saved for the next call.
    */
  datatype Fft = Fft(sizeIn: Positive, sizeOut: Positive, delay: nat, kernel: (seq<Frame>, nat) -> Frame) {
    function Length(fed: nat): nat {
      fed / sizeIn * sizeOut
    }

    function Transform(fed: seq<Frame>): (made: seq<Frame>)
      ensures |made| == Length(|fed|)
    {
      seq(Length(|fed|), j requires 0 <= j => kernel(Upto(fed, (j / sizeOut + 1) * sizeIn), j % sizeOut))
    }

    /** The most one chunk can make: fewer than sizeIn frames were saved before it. */
    function OutputFramesMax(): nat {
      CeilingDiv(CHUNK_FRAMES, sizeIn) * sizeOut
    }
  }

  function Upto<T>(s: seq<T>, n: nat): seq<T> {
    if n <= |s| then s[..n] else s
  }

  function From<T>(s: seq<T>, n: nat): (r: seq<T>)
    ensures |r| == if n <= |s| then |s| - n else 0
  {
    if n <= |s| then s[n..] else []
  }

  lemma BlockInside(fft: Fft, fed: nat, j: nat)
    requires j < fft.Length(fed)
    ensures (j / fft.sizeOut + 1) * fft.sizeIn <= fed
  {
    var q := fed / fft.sizeIn;
    Words.QuotientBounds(fed, fft.sizeIn);
    Words.QuotientBounds(j, fft.sizeOut);
    MultiplesOrder(j / fft.sizeOut, q, fft.sizeOut);
    Words.ProductsOrder(j / fft.sizeOut + 1, q, fft.sizeIn);
  }

  lemma LengthOrder(fft: Fft, a: nat, b: nat)
    requires a <= b
    ensures fft.Length(a) <= fft.Length(b)
  {
    QuotientOrder(a, b, fft.sizeIn);
    Words.ProductsOrder(a / fft.sizeIn, b / fft.sizeIn, fft.sizeOut);
  }

  lemma UptoGrows(fed: seq<Frame>, more: seq<Frame>, n: nat)
    requires n <= |fed|
    ensures Upto(fed + more, n) == Upto(fed, n)
  {}

  lemma TransformGrows(fft: Fft, fed: seq<Frame>, more: seq<Frame>)
    ensures fft.Transform(fed) <= fft.Transform(fed + more)
  {
    LengthOrder(fft, |fed|, |fed + more|);
    forall j | 0 <= j < fft.Length(|fed|) ensures fft.Transform(fed)[j] == fft.Transform(fed + more)[j] {
      BlockInside(fft, |fed|, j);
      UptoGrows(fed, more, (j / fft.sizeOut + 1) * fft.sizeIn);
    }
  }

  // Lengths

  function Ceiling48000(inputFrames: nat, sourceRate: Positive): nat {
    CeilingDiv(inputFrames * OUTPUT_SAMPLE_RATE, sourceRate)
  }

  lemma RateProduct(q: nat, sizeIn: nat, sizeOut: nat, rate: nat, factor: nat, n: nat)
    requires sizeOut * rate == sizeIn * factor && q * sizeIn <= n
    ensures (q * sizeOut) * rate <= n * factor
  {}

  lemma LengthWithinCeiling(fft: Fft, sourceRate: Positive, fed: nat, inputFrames: nat)
    requires fft.sizeOut * sourceRate == fft.sizeIn * OUTPUT_SAMPLE_RATE && fed <= inputFrames
    ensures fft.Length(fed) <= Ceiling48000(inputFrames, sourceRate)
  {
    Words.QuotientBounds(fed, fft.sizeIn);
    RateProduct(fed / fft.sizeIn, fft.sizeIn, fft.sizeOut, sourceRate, OUTPUT_SAMPLE_RATE, inputFrames);
    CeilingLeast(inputFrames * OUTPUT_SAMPLE_RATE, sourceRate, fft.Length(fed));
  }

  lemma SilenceSuffices(fft: Fft, fed: nat, n: nat)
    ensures fft.Length(fed + n * fft.sizeIn) >= n
  {
    QuotientGrowth(fed, fed + n * fft.sizeIn, n, fft.sizeIn);
    Words.ProductsOrder(1, fft.sizeOut, (fed + n * fft.sizeIn) / fft.sizeIn);
  }

  /** How many chunks of silence a flush may take, by its own reckoning: enough for the missing frames, and one more. */
  function FlushRounds(fft: Fft, missing: nat, delay: nat): nat {
    var subchunks := CeilingDiv(missing + delay, fft.sizeOut);
    CeilingDiv(subchunks * fft.sizeIn, 1024) + 1
  }

  lemma RoundsSuffice(fft: Fft, fed: nat, missing: nat, delay: nat, rounds: nat)
    requires rounds + 1 >= FlushRounds(fft, missing, delay)
    ensures fft.Length(fed + rounds * 1024) >= fft.Length(fed) + missing + delay
  {
    var subchunks := CeilingDiv(missing + delay, fft.sizeOut);
    CeilingBounds(missing + delay, fft.sizeOut);
    CeilingBounds(subchunks * fft.sizeIn, 1024);
    QuotientGrowth(fed, fed + rounds * 1024, subchunks, fft.sizeIn);
    SubchunksMade(fft.sizeOut, fed / fft.sizeIn, (fed + rounds * 1024) / fft.sizeIn, subchunks);
  }

  lemma SubchunksMade(sizeOut: nat, before: nat, after: nat, n: nat)
    requires after >= before + n
    ensures after * sizeOut >= before * sizeOut + n * sizeOut
  {}

  // The same by name: the proofs that follow do not look at how the numbers and the frames are made

  ghost predicate FitsRate(fft: Fft, sourceRate: Positive) {
    fft.sizeOut * sourceRate == fft.sizeIn * OUTPUT_SAMPLE_RATE
  }

  /** The sizes are in the ratio of the rates. */
  ghost predicate Fits(fft: Fft, sourceRate: Positive) {
    forall n {:trigger Shown(n)} :: Shown(n) ==> FitsRate(fft, sourceRate)
  }

  ghost predicate IsMade(fft: Fft, fed: seq<Frame>, made: seq<Frame>) {
    forall n {:trigger Shown(n)} :: Shown(n) ==> made == fft.Transform(fed)
  }

  /** All the output for what has been fed. */
  ghost function Made(fft: Fft, fed: seq<Frame>): (made: seq<Frame>)
    ensures IsMade(fft, fed, made)
  {
    assert IsMade(fft, fed, fft.Transform(fed));
    var made :| IsMade(fft, fed, made);
    made
  }

  ghost predicate IsExpected(inputFrames: nat, sourceRate: Positive, n: nat) {
    forall m {:trigger Shown(m)} :: Shown(m) ==> n == Ceiling48000(inputFrames, sourceRate)
  }

  /** The frames that so much input is to last for at 48 kHz. */
  ghost function ExpectedFrames(inputFrames: nat, sourceRate: Positive): (n: nat)
    ensures IsExpected(inputFrames, sourceRate, n)
  {
    assert IsExpected(inputFrames, sourceRate, Ceiling48000(inputFrames, sourceRate));
    var n: nat :| IsExpected(inputFrames, sourceRate, n);
    n
  }

  lemma FitsShown(fft: Fft, sourceRate: Positive)
    ensures Fits(fft, sourceRate) <==> FitsRate(fft, sourceRate)
  {
    assert Shown(0);
  }

  lemma MadeShown(fft: Fft, fed: seq<Frame>)
    ensures Made(fft, fed) == fft.Transform(fed)
  {
    assert Shown(0);
  }

  lemma ExpectedShown(inputFrames: nat, sourceRate: Positive)
    ensures ExpectedFrames(inputFrames, sourceRate) == Ceiling48000(inputFrames, sourceRate)
  {
    assert Shown(0);
  }

  /** They are the fewest that last as long as the input. */
  lemma ExpectedLasts(inputFrames: nat, sourceRate: Positive)
    ensures var n := ExpectedFrames(inputFrames, sourceRate);
      n * sourceRate >= inputFrames * 48000 && (n > 0 ==> (n - 1) * sourceRate < inputFrames * 48000)
  {
    ExpectedShown(inputFrames, sourceRate);
    CeilingBounds(inputFrames * 48000, sourceRate);
  }

  /** More input never changes what has been made already. */
  lemma MadeGrows(fft: Fft, fed: seq<Frame>, more: seq<Frame>)
    ensures Made(fft, fed) <= Made(fft, fed + more)
  {
    MadeShown(fft, fed);
    MadeShown(fft, fed + more);
    TransformGrows(fft, fed, more);
  }

  lemma MakesMore(fft: Fft, fed: seq<Frame>, more: seq<Frame>)
    ensures fft.Length(|fed|) <= fft.Length(|fed + more|)
    ensures Made(fft, fed + more) == Made(fft, fed) + fft.Transform(fed + more)[fft.Length(|fed|)..]
  {
    LengthOrder(fft, |fed|, |fed + more|);
    MadeGrows(fft, fed, more);
    MadeShown(fft, fed);
    MadeShown(fft, fed + more);
  }

  lemma NothingMade(fft: Fft)
    ensures Made(fft, []) == []
  {
    MadeShown(fft, []);
    assert 0 / fft.sizeIn == 0;
  }

  /** The transform never gets ahead of the length its input is to last for. */
  lemma MadeWithinExpected(fft: Fft, sourceRate: Positive, fed: seq<Frame>, inputFrames: nat)
    requires Fits(fft, sourceRate) && |fed| <= inputFrames
    ensures |Made(fft, fed)| <= ExpectedFrames(inputFrames, sourceRate)
  {
    FitsShown(fft, sourceRate);
    MadeShown(fft, fed);
    ExpectedShown(inputFrames, sourceRate);
    LengthWithinCeiling(fft, sourceRate, |fed|, inputFrames);
  }

  ghost predicate Reckoned(fft: Fft, missing: nat, delay: nat, rounds: nat) {
    forall n {:trigger Shown(n)} :: Shown(n) ==> rounds >= FlushRounds(fft, missing, delay)
  }

  /** The reckoned chunks push the missing frames and the delay out, and the one more is never needed. */
  lemma RoundsFlush(fft: Fft, missing: nat, delay: nat, rounds: nat, before: seq<Frame>, fed: seq<Frame>)
    requires Reckoned(fft, missing, delay, rounds + 1)
    requires |fed| == |before| + rounds * 1024
    ensures |Made(fft, fed)| >= |Made(fft, before)| + missing + delay
  {
    assert Shown(0);
    MadeShown(fft, before);
    MadeShown(fft, fed);
    RoundsSuffice(fft, |before|, missing, delay, rounds);
  }

  // The reference: the whole input at once

  function Silence(n: nat): (r: seq<Frame>)
    ensures |r| == n
  {
    seq(n, _ => SILENCE)
  }

  /** The part of the input that has reached the transform before the flush: its whole chunks. */
  function WholeChunks(input: seq<Frame>): (fed: seq<Frame>)
    ensures |input| < |fed| + CHUNK_FRAMES
  {
    input[..|input| / 1024 * 1024]
  }

  /** What has been heard of an input that may go on. */
  ghost function Audible(fft: Fft, input: seq<Frame>): seq<Frame> {
    From(Made(fft, WholeChunks(input)), fft.delay)
  }

  lemma SilenceFlushes(fft: Fft, input: seq<Frame>, n: nat) returns (silence: nat)
    ensures |Made(fft, input + Silence(silence))| >= n
  {
    silence := n * fft.sizeIn;
    SilenceSuffices(fft, |input|, n);
    MadeShown(fft, input + Silence(silence));
  }

  ghost predicate Flushes(fft: Fft, sourceRate: Positive, input: seq<Frame>, silence: nat) {
    |Made(fft, input + Silence(silence))| >= fft.delay + ExpectedFrames(|input|, sourceRate)
  }

  /** As much silence after the input as pushes the delay and the expected frames out. */
  ghost function FlushSilence(fft: Fft, sourceRate: Positive, input: seq<Frame>): (silence: nat)
    ensures Flushes(fft, sourceRate, input, silence)
  {
    assert exists n: nat :: Flushes(fft, sourceRate, input, n) by {
      var n := SilenceFlushes(fft, input, fft.delay + ExpectedFrames(|input|, sourceRate));
      assert Flushes(fft, sourceRate, input, n);
    }
    var n: nat :| Flushes(fft, sourceRate, input, n);
    n
  }

  /** The whole output of an input that has ended: the transform without its delay, cut to the expected length. */
  ghost function Complete(fft: Fft, sourceRate: Positive, input: seq<Frame>): (output: seq<Frame>)
    ensures |output| == ExpectedFrames(|input|, sourceRate)
  {
    var made := Made(fft, input + Silence(FlushSilence(fft, sourceRate, input)));
    made[fft.delay..fft.delay + ExpectedFrames(|input|, sourceRate)]
  }

  lemma SilenceOrder(fft: Fft, input: seq<Frame>, a: nat, b: nat)
    requires a <= b
    ensures Made(fft, input + Silence(a)) <= Made(fft, input + Silence(b))
  {
    MadeGrows(fft, input + Silence(a), Silence(b - a));
    assert input + Silence(a) + Silence(b - a) == input + Silence(b);
  }

  /** Any silence that pushes the delay and the expected frames out gives the same output, any less its beginning. */
  lemma AnySilenceCompletes(fft: Fft, sourceRate: Positive, input: seq<Frame>, n: nat)
    ensures var heard := From(Made(fft, input + Silence(n)), fft.delay);
      if Flushes(fft, sourceRate, input, n)
      then heard[..ExpectedFrames(|input|, sourceRate)] == Complete(fft, sourceRate, input)
      else heard <= Complete(fft, sourceRate, input)
  {
    var m := FlushSilence(fft, sourceRate, input);
    if n < m {
      SilenceOrder(fft, input, n, m);
    } else {
      SilenceOrder(fft, input, m, n);
    }
  }

  /** What is heard before the end is the beginning of the whole. */
  lemma AudibleStartsComplete(fft: Fft, sourceRate: Positive, input: seq<Frame>)
    requires Fits(fft, sourceRate)
    ensures Audible(fft, input) <= Complete(fft, sourceRate, input)
  {
    var fed := WholeChunks(input);
    MadeWithinExpected(fft, sourceRate, fed, |input|);
    var n := FlushSilence(fft, sourceRate, input);
    assert input + Silence(n) == fed + (input[|fed|..] + Silence(n));
    MadeGrows(fft, fed, input[|fed|..] + Silence(n));
  }

  lemma MadeAt(fft: Fft, fed: seq<Frame>, j: nat)
    requires j < |Made(fft, fed)|
    ensures (j / fft.sizeOut + 1) * fft.sizeIn <= |fed|
    ensures Made(fft, fed)[j] == fft.kernel(fed[..(j / fft.sizeOut + 1) * fft.sizeIn], j % fft.sizeOut)
  {
    MadeShown(fft, fed);
    BlockInside(fft, |fed|, j);
  }

  /**
    * The t-th frame of the output is the one after the delay: the transform's of the input up to the end of its
    * subchunk, with silence where the input has ended.
    */
  lemma CompleteFrame(fft: Fft, sourceRate: Positive, input: seq<Frame>, t: nat, silence: nat)
    requires t < |Complete(fft, sourceRate, input)|
    requires var block := (fft.delay + t) / fft.sizeOut; |input| + silence >= (block + 1) * fft.sizeIn
    ensures var block := (fft.delay + t) / fft.sizeOut;
      Complete(fft, sourceRate, input)[t]
      == fft.kernel((input + Silence(silence))[..(block + 1) * fft.sizeIn], (fft.delay + t) % fft.sizeOut)
  {
    var n, end := FlushSilence(fft, sourceRate, input), ((fft.delay + t) / fft.sizeOut + 1) * fft.sizeIn;
    MadeAt(fft, input + Silence(n), fft.delay + t);
    assert (input + Silence(n))[..end] == (input + Silence(silence))[..end];
  }

  /** What is heard on the way lags by no more than the delay behind the subchunks in the whole chunks of the input. */
  lemma AudibleLags(fft: Fft, input: seq<Frame>, chunks: nat, subchunks: nat)
    requires 1024 * chunks <= |input| && subchunks * fft.sizeIn <= 1024 * chunks
    ensures |Audible(fft, input)| + fft.delay >= subchunks * fft.sizeOut
  {
    var fed := WholeChunks(input);
    MadeShown(fft, fed);
    QuotientGrowth(0, |fed|, subchunks, fft.sizeIn);
    Words.ProductsOrder(subchunks, |fed| / fft.sizeIn, fft.sizeOut);
  }

  lemma ChunksGrow(input: seq<Frame>, more: seq<Frame>)
    ensures WholeChunks(input) <= WholeChunks(input + more)
  {}

  /** What has been heard is never taken back. */
  lemma AudibleGrows(fft: Fft, input: seq<Frame>, more: seq<Frame>)
    ensures Audible(fft, input) <= Audible(fft, input + more)
  {
    ChunksGrow(input, more);
    var fed, later := WholeChunks(input), WholeChunks(input + more);
    assert later == fed + later[|fed|..];
    MadeGrows(fft, fed, later[|fed|..]);
  }

  // Bounds

  /** The most that a push of so many frames can make: what the caller's buffer is to have room for. */
  function OutputFramesMax(fft: Fft, inputFrames: nat): nat {
    CeilingDiv(inputFrames, 1024) * fft.OutputFramesMax()
  }

  lemma OutputFramesMaxOrder(fft: Fft, a: nat, b: nat)
    requires a <= b
    ensures OutputFramesMax(fft, a) <= OutputFramesMax(fft, b)
  {
    Words.ProductsOrder(CeilingDiv(a, 1024), CeilingDiv(b, 1024), fft.OutputFramesMax());
  }

  lemma QuotientStep(fed: nat, d: Positive)
    ensures (fed + CHUNK_FRAMES) / d <= fed / d + CeilingDiv(CHUNK_FRAMES, d)
  {
    var q, c, n := fed / d, CeilingDiv(CHUNK_FRAMES, d), (fed + CHUNK_FRAMES) / d;
    Words.QuotientBounds(fed, d);
    Words.QuotientBounds(fed + CHUNK_FRAMES, d);
    CeilingBounds(CHUNK_FRAMES, d);
    assert (q + c + 1) * d == q * d + c * d + d;
    MultiplesOrder(n, q + c + 1, d);
  }

  lemma ChunkMakes(fft: Fft, fed: nat)
    ensures fft.Length(fed + CHUNK_FRAMES) <= fft.Length(fed) + fft.OutputFramesMax()
  {
    QuotientStep(fed, fft.sizeIn);
    var c := CeilingDiv(CHUNK_FRAMES, fft.sizeIn);
    Words.ProductsOrder((fed + CHUNK_FRAMES) / fft.sizeIn, fed / fft.sizeIn + c, fft.sizeOut);
    assert (fed / fft.sizeIn + c) * fft.sizeOut == fed / fft.sizeIn * fft.sizeOut + c * fft.sizeOut;
  }

  lemma {:induction false} ChunksMake(fft: Fft, fed: nat, n: nat)
    ensures fft.Length(fed + n * 1024) <= fft.Length(fed) + n * fft.OutputFramesMax()
    decreases n
  {
    if n > 0 {
      ChunksMake(fft, fed, n - 1);
      ChunkMakes(fft, fed + (n - 1) * 1024);
      var most := fft.OutputFramesMax();
      assert n * most == (n - 1) * most + most;
    }
  }

  lemma PushMakes(fft: Fft, before: nat, n: nat)
    ensures var fed, later := before / 1024 * 1024, (before + n) / 1024 * 1024;
      fft.Length(later) <= fft.Length(fed) + OutputFramesMax(fft, n)
  {
    var a, b := before / 1024, (before + n) / 1024;
    ChunksMake(fft, a * 1024, b - a);
    Words.ProductsOrder(b - a, CeilingDiv(n, 1024), fft.OutputFramesMax());
  }

  /** As less than one chunk is pending, a push of n frames completes no more than the ceiling of n / 1024 chunks. */
  lemma PushBound(fft: Fft, input: seq<Frame>, packet: seq<Frame>)
    ensures |Audible(fft, input + packet)| <= |Audible(fft, input)| + OutputFramesMax(fft, |packet|)
  {
    PushMakes(fft, |input|, |packet|);
    MadeShown(fft, WholeChunks(input));
    MadeShown(fft, WholeChunks(input + packet));
  }

  // The resampler

  lemma PiecesJoin(whole: seq<Frame>, first: seq<Frame>, second: seq<Frame>, n: nat)
    requires n <= |first| && first <= second
    ensures whole + first[n..] + second[|first|..] == whole + second[n..]
  {}

  lemma HeardGrows(made: seq<Frame>, produced: seq<Frame>, delay: nat)
    ensures var dropped := Least(if |made| <= delay then delay - |made| else 0, |produced|);
      From(made + produced, delay) == From(made, delay) + produced[dropped..]
  {}

  lemma CutJoins(heard: seq<Frame>, more: seq<Frame>, expected: nat, base: seq<Frame>, n: nat)
    requires n <= |heard| <= expected
    ensures base + heard[n..] + Upto(more, expected - |heard|) == base + Upto(heard + more, expected)[n..]
  {}

  lemma PaddedInput(fed: seq<Frame>, pending: seq<Frame>, input: seq<Frame>, silence: nat, padding: nat)
    requires fed + pending == input + Silence(silence)
    ensures fed + (pending + Silence(padding)) == input + Silence(silence + padding)
  {
    assert fed + (pending + Silence(padding)) == fed + pending + Silence(padding);
    assert input + Silence(silence) + Silence(padding) == input + Silence(silence + padding);
  }

  lemma AllChunksFed(fed: seq<Frame>, pending: seq<Frame>, input: seq<Frame>)
    requires fed + pending == input && |fed| % 1024 == 0 && |pending| < CHUNK_FRAMES
    ensures fed == WholeChunks(input) && pending == input[|fed|..]
  {}

  lemma RestIsPending(before: seq<Frame>, pending: seq<Frame>, tail: seq<Frame>, fed: seq<Frame>, rest: seq<Frame>)
    requires fed + rest == before + tail && |fed| % 1024 == |before| % 1024 && |rest| < CHUNK_FRAMES
    requires pending == [] || tail == []
    ensures fed + (pending + rest) == before + pending + tail
    ensures |pending| < CHUNK_FRAMES ==> |pending + rest| < CHUNK_FRAMES
  {
    if tail == [] {
      assert |before| == |fed| + |rest|;
      assert rest == [] && fed + rest == fed && before + tail == before;
    } else {
      assert pending + rest == rest && before + pending == before;
    }
  }

  /** The FFT's own state is what it has been fed. */
  class StereoResampler {
    const sourceRate: Positive
    const fft: Fft
    var fed: seq<Frame>
    var pending: seq<Frame>
    var inputFrames: nat
    var delayRemaining: nat
    var outputFrames: nat
    var finished: bool

    /** Everything pushed so far. */
    ghost var input: seq<Frame>

    ghost predicate Valid()
      reads this
    {
      && Fits(fft, sourceRate)
      && inputFrames == |input|
      && (!finished ==> fed == WholeChunks(input) && pending == input[|fed|..] && InStep())
      && (finished ==> outputFrames == ExpectedFrames(|input|, sourceRate))
    }

    ghost function Heard(): seq<Frame>
      reads this
    {
      From(Made(fft, fed), fft.delay)
    }

    /** The trim agrees with what the transform has made, and nothing was clipped. */
    ghost predicate InStep()
      reads this
    {
      && delayRemaining == (if |Made(fft, fed)| <= fft.delay then fft.delay - |Made(fft, fed)| else 0)
      && outputFrames == |Heard()|
    }

    constructor (sourceRate: Positive, fft: Fft)
      requires Fits(fft, sourceRate)
      ensures Valid() && !finished && input == []
      ensures this.sourceRate == sourceRate && this.fft == fft
    {
      NothingMade(fft);
      this.sourceRate, this.fft := sourceRate, fft;
      fed, pending, input := [], [], [];
      inputFrames, delayRemaining, outputFrames, finished := 0, fft.delay, 0, false;
    }

    method Expected() returns (n: nat)
      ensures n == ExpectedFrames(inputFrames, sourceRate)
    {
      ExpectedShown(inputFrames, sourceRate);
      n := Ceiling48000(inputFrames, sourceRate);
    }

    method Rounds(missing: nat, delay: nat) returns (rounds: nat)
      ensures rounds > 0 && Reckoned(fft, missing, delay, rounds)
    {
      rounds := FlushRounds(fft, missing, delay);
    }

    /** Zeros make up a partial chunk. */
    method Process(chunk: seq<Frame>) returns (produced: seq<Frame>)
      requires Fits(fft, sourceRate) && |chunk| <= CHUNK_FRAMES
      modifies this`fed
      ensures fed == old(fed) + (chunk + Silence(CHUNK_FRAMES - |chunk|))
      ensures Made(fft, fed) == Made(fft, old(fed)) + produced
    {
      var saved := fed;
      fed := saved + (chunk + Silence(CHUNK_FRAMES - |chunk|));
      MakesMore(fft, saved, chunk + Silence(CHUNK_FRAMES - |chunk|));
      produced := fft.Transform(fed)[fft.Length(|saved|)..];
    }

    /** Drops what is left of the delay, and what would go past the expected frames. */
    method Emit(produced: seq<Frame>, expected: nat, output: seq<Frame>) returns (r: seq<Frame>)
      modifies this`delayRemaining, this`outputFrames
      ensures
        var dropped := Least(old(delayRemaining), |produced|);
        var room := if expected > old(outputFrames) then expected - old(outputFrames) else 0;
        delayRemaining == old(delayRemaining) - dropped && r == output + Upto(produced[dropped..], room)
      ensures outputFrames == old(outputFrames) + |r| - |output|
    {
      var dropped := Least(delayRemaining, |produced|);
      delayRemaining := delayRemaining - dropped;
      var room := if expected > outputFrames then expected - outputFrames else 0;
      var kept := Least(|produced| - dropped, room);
      r := output + produced[dropped..][..kept];
      outputFrames := outputFrames + kept;
    }

    /** One step of the transform. The ghost parameters are the output before what has been heard from n on. */
    method Feed(chunk: seq<Frame>, expected: nat, output: seq<Frame>, ghost base: seq<Frame>, ghost n: nat)
      returns (r: seq<Frame>)
      requires Fits(fft, sourceRate) && |chunk| <= CHUNK_FRAMES && InStep()
      requires n <= outputFrames <= expected && output == base + Heard()[n..]
      modifies this`fed, this`delayRemaining, this`outputFrames
      ensures fed == old(fed) + (chunk + Silence(CHUNK_FRAMES - |chunk|))
      ensures old(Heard()) <= Heard()
      ensures outputFrames == |Upto(Heard(), expected)| >= n && r == base + Upto(Heard(), expected)[n..]
      ensures |Heard()| <= expected ==> InStep()
    {
      var produced := Process(chunk);
      HeardGrows(Made(fft, old(fed)), produced, fft.delay);
      CutJoins(old(Heard()), produced[Least(delayRemaining, |produced|)..], expected, base, n);
      r := Emit(produced, expected, output);
    }

    method FeedWhole(chunk: seq<Frame>, expected: nat, output: seq<Frame>, ghost base: seq<Frame>, ghost n: nat)
      returns (r: seq<Frame>)
      requires Fits(fft, sourceRate) && |chunk| == CHUNK_FRAMES && InStep()
      requires expected == ExpectedFrames(inputFrames, sourceRate) && |fed| + CHUNK_FRAMES <= inputFrames
      requires n <= outputFrames && output == base + Heard()[n..]
      modifies this`fed, this`delayRemaining, this`outputFrames
      ensures fed == old(fed) + chunk
      ensures old(Heard()) <= Heard() && InStep()
      ensures n <= outputFrames && r == base + Heard()[n..]
    {
      MadeWithinExpected(fft, sourceRate, fed, inputFrames);
      r := Feed(chunk, expected, output, base, n);
      assert chunk + Silence(0) == chunk;
      MadeWithinExpected(fft, sourceRate, fed, inputFrames);
    }

    method FeedChunks(packet: seq<Frame>, expected: nat, output: seq<Frame>, ghost base: seq<Frame>, ghost n: nat)
      returns (r: seq<Frame>, rest: seq<Frame>)
      requires Fits(fft, sourceRate) && InStep()
      requires expected == ExpectedFrames(inputFrames, sourceRate) && |fed| + |packet| <= inputFrames
      requires n <= outputFrames && output == base + Heard()[n..]
      modifies this`fed, this`delayRemaining, this`outputFrames
      ensures fed + rest == old(fed) + packet && |rest| < CHUNK_FRAMES
      ensures |fed| % 1024 == |old(fed)| % 1024
      ensures old(Heard()) <= Heard() && InStep()
      ensures n <= outputFrames && r == base + Heard()[n..]
    {
      r, rest := output, packet;
      while |rest| >= CHUNK_FRAMES
        invariant fed + rest == old(fed) + packet
        invariant |fed| % 1024 == |old(fed)| % 1024
        invariant old(Heard()) <= Heard() && InStep()
        invariant n <= outputFrames && r == base + Heard()[n..]
      {
        var chunk := rest[..CHUNK_FRAMES];
        rest := rest[CHUNK_FRAMES..];
        assert fed + (chunk + rest) == fed + chunk + rest;
        r := FeedWhole(chunk, expected, r, base, n);
      }
    }

    /** A chunk that was begun is filled first. */
    method FillPending(packet: seq<Frame>) returns (tail: seq<Frame>)
      requires |pending| < CHUNK_FRAMES
      modifies this`pending
      ensures pending + tail == old(pending) + packet && |pending| <= CHUNK_FRAMES
      ensures tail == [] || pending == [] || |pending| == CHUNK_FRAMES
    {
      var missing := Least(CHUNK_FRAMES - |pending|, |packet|);
      if pending == [] {
        return packet;
      }
      tail := packet[missing..];
      pending := pending + packet[..missing];
    }

    method FeedPending(expected: nat, output: seq<Frame>, ghost base: seq<Frame>, ghost n: nat) returns (r: seq<Frame>)
      requires Fits(fft, sourceRate) && InStep() && |pending| <= CHUNK_FRAMES
      requires expected == ExpectedFrames(inputFrames, sourceRate) && |fed| + |pending| <= inputFrames
      requires n <= outputFrames && output == base + Heard()[n..]
      modifies this`fed, this`pending, this`delayRemaining, this`outputFrames
      ensures fed + pending == old(fed) + old(pending) && |fed| % 1024 == |old(fed)| % 1024
      ensures pending == if |old(pending)| == CHUNK_FRAMES then [] else old(pending)
      ensures old(Heard()) <= Heard() && InStep()
      ensures n <= outputFrames && r == base + Heard()[n..]
    {
      r := output;
      if |pending| == CHUNK_FRAMES {
        r := FeedWhole(pending, expected, r, base, n);
        pending := [];
      }
    }

    method Push(packet: seq<Frame>, output: seq<Frame>) returns (r: seq<Frame>)
      requires Valid() && !finished
      modifies this
      ensures Valid() && !finished && input == old(input) + packet
      ensures Audible(fft, old(input)) <= Audible(fft, input)
      ensures r == output + Audible(fft, input)[|Audible(fft, old(input))|..]
    {
      ghost var heard := Heard();
      input := input + packet;
      inputFrames := inputFrames + |packet|;
      var expected := Expected();
      var tail := FillPending(packet);
      assert fed + pending + tail == input by {
        assert fed + (pending + tail) == fed + pending + tail;
      }
      r := output;
      r := FeedPending(expected, r, output, |heard|);
      ghost var before := fed;
      var rest;
      r, rest := FeedChunks(tail, expected, r, output, |heard|);
      RestIsPending(before, pending, tail, fed, rest);
      pending := pending + rest;
      AllChunksFed(fed, pending, input);
    }

    /** What is pending, and silence up to a chunk. */
    method FlushChunk(expected: nat, output: seq<Frame>, ghost base: seq<Frame>, ghost n: nat, ghost silence: nat)
      returns (r: seq<Frame>, ghost more: nat)
      requires Fits(fft, sourceRate) && InStep() && |pending| < CHUNK_FRAMES
      requires fed + pending == input + Silence(silence)
      requires n <= outputFrames <= expected && output == base + Heard()[n..]
      modifies this`fed, this`pending, this`delayRemaining, this`outputFrames
      ensures pending == [] && fed == input + Silence(more) && |fed| == |old(fed)| + CHUNK_FRAMES
      ensures n <= outputFrames == |Upto(Heard(), expected)| && r == base + Upto(Heard(), expected)[n..]
      ensures outputFrames < expected ==> InStep()
    {
      more := silence + CHUNK_FRAMES - |pending|;
      PaddedInput(fed, pending, input, silence, CHUNK_FRAMES - |pending|);
      r := Feed(pending, expected, output, base, n);
      pending := [];
    }

    /** The rounds never run out before the expected frames have come. */
    method Flush(rounds: nat, expected: nat, output: seq<Frame>, ghost base: seq<Frame>, ghost n: nat)
      returns (r: seq<Frame>, ghost silence: nat)
      requires Fits(fft, sourceRate) && InStep() && fed + pending == input && |pending| < CHUNK_FRAMES
      requires n <= outputFrames < expected && output == base + Heard()[n..]
      requires rounds > 0 && Reckoned(fft, expected - outputFrames, delayRemaining, rounds)
      modifies this`fed, this`pending, this`delayRemaining, this`outputFrames
      ensures fed == input + Silence(silence)
      ensures outputFrames == expected <= |Heard()| && r == base + Heard()[..expected][n..]
    {
      ghost var start, missing, delay := fed, expected - outputFrames, delayRemaining;
      var left := rounds;
      r, silence := output, 0;
      while left > 0 && outputFrames < expected
        invariant fed + pending == input + Silence(silence) && |pending| < CHUNK_FRAMES
        invariant 0 < left <= rounds && |fed| == |start| + (rounds - left) * 1024
        invariant if left == rounds then outputFrames < expected else fed == input + Silence(silence)
        invariant outputFrames < expected ==> InStep()
        invariant n <= outputFrames == |Upto(Heard(), expected)|
        invariant r == base + Upto(Heard(), expected)[n..]
      {
        if left == 1 {
          RoundsFlush(fft, missing, delay, rounds - 1, start, fed);
          assert false;
        }
        r, silence := FlushChunk(expected, r, base, n, silence);
        assert fed + pending == fed;
        left := left - 1;
      }
    }

    method Finish(output: seq<Frame>) returns (r: seq<Frame>)
      requires Valid()
      modifies this
      ensures Valid() && finished && input == old(input)
      ensures old(finished) ==> r == output
      ensures !old(finished) ==> Audible(fft, input) <= Complete(fft, sourceRate, input)
      ensures !old(finished) ==> r == output + Complete(fft, sourceRate, input)[|Audible(fft, input)|..]
    {
      if finished {
        return output;
      }
      finished := true;
      var expected := Expected();
      AudibleStartsComplete(fft, sourceRate, input);
      var rounds := Rounds(if expected > outputFrames then expected - outputFrames else 0, delayRemaining);
      r := output;
      if outputFrames < expected {
        ghost var silence;
        r, silence := Flush(rounds, expected, r, output, outputFrames);
        AnySilenceCompletes(fft, sourceRate, input, silence);
      }
    }
  }

  // Packets of any size

  /** However the input is cut into packets, a finished resampler has made the same output of the same length. */
  method ResamplePackets(sourceRate: Positive, fft: Fft, packets: seq<seq<Frame>>) returns (output: seq<Frame>)
    requires Fits(fft, sourceRate)
    ensures output == Complete(fft, sourceRate, Flat(packets))
    ensures var frames, n := |Flat(packets)|, |output|;
      n * sourceRate >= frames * 48000 && (n > 0 ==> (n - 1) * sourceRate < frames * 48000)
  {
    ExpectedLasts(|Flat(packets)|, sourceRate);
    var resampler := new StereoResampler(sourceRate, fft);
    output := [];
    NothingMade(fft);
    var i := 0;
    while i < |packets|
      invariant 0 <= i <= |packets|
      invariant resampler.Valid() && !resampler.finished && resampler.input == Flat(packets[..i])
      invariant output == Audible(fft, resampler.input)
    {
      ghost var before := Audible(fft, resampler.input);
      output := resampler.Push(packets[i], output);
      assert packets[..i + 1] == packets[..i] + [packets[i]];
      FlatAppends(packets[..i], packets[i]);
      PiecesJoin([], before, Audible(fft, resampler.input), 0);
      i := i + 1;
    }
    assert packets[..i] == packets;
    output := resampler.Finish(output);
    PiecesJoin([], Audible(fft, resampler.input), Complete(fft, sourceRate, resampler.input), 0);
  }
}
