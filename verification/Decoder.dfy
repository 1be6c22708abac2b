/** Packets into stereo frames at 48 kHz, however the caller cuts its reads. */
module Decode {
  import opened Basics
  import opened Demux
  import Mix
  import Resample

  type Frame = Mix.Frame

  /** A decoded packet. Its capacity is the most frames its codec may give at once. */
  datatype Buffer = Buffer(rate: nat, channels: Mix.Channels, planes: seq<seq<real>>, frames: nat, capacity: nat)

  datatype Decoded =
    | Audio(buffer: Buffer)
    | BadPacket
    | Truncated
    | CodecReset
    | CodecFailure

  /** A codec answers for a packet from all the packets it has been given, that one last. */
  type Codec = seq<Packet> -> Decoded

  function Kept(limit: Option<nat>, decoded: nat, frames: nat): (kept: nat)
    ensures kept <= frames
  {
    if limit.None? then frames
    else if limit.value <= decoded then 0
    else Least(frames, limit.value - decoded)
  }

  /** A track to decode: its container and codec, and what its header says of it. */
  datatype Track = Track(reader: Reader, trackId: nat, codec: Codec, sampleRate: Resample.Positive,
                         frameLimit: Option<nat>, fft: Option<Resample.Fft>)
  {
    ghost predicate Valid() {
      && (fft.None? <==> sampleRate == 48000)
      && (fft.Some? ==> Resample.Fits(fft.value, sampleRate))
    }

    function Packets(calls: nat): seq<Packet> {
      OwnPackets(reader, trackId, calls)
    }

    function MixedPacket(decoded: nat, packets: seq<Packet>): seq<Frame> {
      match codec(packets)
      case Audio(buffer) =>
        if buffer.rate != sampleRate then []
        else Mix.MixedFrames(Mix.GainsFor(buffer.channels, |buffer.planes|), buffer.planes,
                             Kept(frameLimit, decoded, buffer.frames))
      case _ => []
    }

    /** Every packet that can be decoded, mixed to stereo, up to the stated length. */
    function MixedPackets(packets: seq<Packet>): seq<Frame> {
      if packets == [] then []
      else
        var before := MixedPackets(packets[..|packets| - 1]);
        before + MixedPacket(|before|, packets)
    }

    function Mixed(calls: nat): seq<Frame> {
      MixedPackets(Packets(calls))
    }

    predicate LimitReached(calls: nat) {
      frameLimit.Some? && |Mixed(calls)| >= frameLimit.value
    }

    predicate EndSeen(calls: nat) {
      calls > 0 && reader(calls - 1).Ends()
    }

    /** Nothing more is to be decoded once the reader has been asked that often. */
    predicate Over(calls: nat) {
      LimitReached(calls) || EndSeen(calls)
    }

    ghost predicate NotOverBefore(calls: nat) {
      forall b: nat | b < calls :: !Over(b)
    }

    ghost predicate IsHeard(mixed: seq<Frame>, finished: bool, heard: seq<Frame>) {
      forall n {:trigger Shown(n)} :: Shown(n) ==>
        heard == match fft
                 case None => mixed
                 case Some(transform) =>
                   if finished then Resample.Complete(transform, sampleRate, mixed)
                   else Resample.Audible(transform, mixed)
    }

    /** What there is to hear of the mixed frames: all of them at 48 kHz, or what the resampler makes of them. */
    ghost function HeardOf(mixed: seq<Frame>, finished: bool): (heard: seq<Frame>)
      ensures IsHeard(mixed, finished, heard)
    {
      assert IsHeard(mixed, finished,
        match fft
        case None => mixed
        case Some(transform) =>
          if finished then Resample.Complete(transform, sampleRate, mixed) else Resample.Audible(transform, mixed));
      var heard :| IsHeard(mixed, finished, heard);
      heard
    }

    lemma HeardShown(mixed: seq<Frame>, finished: bool)
      ensures fft.None? ==> HeardOf(mixed, finished) == mixed
      ensures fft.Some? && finished ==> HeardOf(mixed, finished) == Resample.Complete(fft.value, sampleRate, mixed)
      ensures fft.Some? && !finished ==> HeardOf(mixed, finished) == Resample.Audible(fft.value, mixed)
    {
      assert Shown(0);
    }

    /** The frames for the caller, of a stream that may go on or has ended there. */
    ghost function Heard(calls: nat, finished: bool): seq<Frame> {
      HeardOf(Mixed(calls), finished)
    }

    /** The most that a packet of so many frames can make. */
    function FramesMax(frames: nat): nat {
      if fft.None? then frames else Resample.OutputFramesMax(fft.value, frames)
    }

    /** What an answer does to the run of packets passed over: a bad packet counts like another track's. */
    function CountOf(k: nat): Count {
      var event := reader(k);
      if event.Other(trackId) then PassesOver
      else if event.Own(trackId) then
        match codec(Packets(k + 1))
        case Audio(_) => StartsAnew
        case BadPacket | Truncated => PassesOver
        case CodecReset | CodecFailure => Stays
      else Stays
    }

    function Counts(calls: nat): (counts: seq<Count>)
      ensures |counts| == calls
    {
      seq(calls, k requires 0 <= k => CountOf(k))
    }

    /** The packets passed over since the last one that was decoded. */
    function SkipRun(calls: nat): nat {
      RunLength(Counts(calls))
    }

    /** A packet that the codec can make nothing of. */
    predicate BadAt(k: nat) {
      reader(k).Own(trackId) && (codec(Packets(k + 1)).BadPacket? || codec(Packets(k + 1)).Truncated?)
    }

    predicate PassedOverAt(k: nat) {
      reader(k).Other(trackId) || BadAt(k)
    }

    predicate DecodedAt(k: nat) {
      reader(k).Own(trackId) && codec(Packets(k + 1)).Audio?
    }

    /** How many packets were bad among the first answers. */
    function BadBefore(calls: nat): nat {
      if calls == 0 then 0 else BadBefore(calls - 1) + if BadAt(calls - 1) then 1 else 0
    }

    /** So many were, by name. */
    ghost predicate HasSkipped(count: nat, calls: nat) {
      forall n {:trigger Shown(n)} :: Shown(n) ==> count == BadBefore(calls)
    }

    function Judged(calls: nat): Option<Error>
      requires calls > 0
    {
      var event := reader(calls - 1);
      if CountOf(calls - 1).PassesOver? then
        if SkipRun(calls) > MAX_CONSECUTIVE_SKIPS then Some(TooManySkips) else None
      else match event
        case End | UnexpectedEnd => None
        case ResetRequired => Some(StreamChanged)
        case Failure => Some(UnreadableContainer)
        case Got(_) =>
          match codec(Packets(calls))
          case Audio(buffer) =>
            if buffer.rate == sampleRate then None else Some(SampleRateChanged(sampleRate, buffer.rate))
          case CodecReset => Some(StreamChanged)
          case BadPacket | Truncated | CodecFailure => Some(UndecodablePacket)
    }

    ghost predicate IsVerdict(calls: nat, verdict: Option<Error>)
      requires calls > 0
    {
      forall n {:trigger Shown(n)} :: Shown(n) ==> verdict == Judged(calls)
    }

    /** What the last answer means to a decoder that has not finished. */
    ghost function Verdict(calls: nat): (verdict: Option<Error>)
      requires calls > 0
      ensures IsVerdict(calls, verdict)
    {
      assert IsVerdict(calls, Judged(calls));
      var verdict :| IsVerdict(calls, verdict);
      verdict
    }

    lemma VerdictShown(calls: nat)
      requires calls > 0
      ensures Verdict(calls) == Judged(calls)
    {
      assert Shown(0);
    }

    ghost predicate Fails(calls: nat) {
      calls > 0 && Verdict(calls).Some?
    }

    /** A stream that was read up to there is over, and was not before. */
    ghost predicate OverAt(calls: nat) {
      Over(calls) && NotOverBefore(calls)
    }

    ghost predicate IsAnswer(from: nat, b: nat, needed: nat) {
      b >= from && (Over(b) || |Heard(b, false)| >= needed || (b > from && Fails(b)))
    }

    /**
      * A caller who wants so many frames in all, of a stream read up to `from`, has an answer at that point: it is
      * over, or there is enough to hear, or the last answer of the reader fails.
      */
    ghost predicate Settles(from: nat, b: nat, needed: nat) {
      forall n {:trigger Shown(n)} :: Shown(n) ==> IsAnswer(from, b, needed)
    }

    /** There is no such point before. */
    ghost predicate UnsettledBefore(from: nat, b: nat, needed: nat) {
      forall c: nat | c < b :: !Settles(from, c, needed)
    }

    ghost predicate SettlesFirst(from: nat, b: nat, needed: nat) {
      Settles(from, b, needed) && UnsettledBefore(from, b, needed)
    }

    /** From one point up to the next, nothing comes to anything. */
    ghost predicate Quiet(calls: nat, later: nat) {
      forall b: nat | calls <= b < later ::
        !Over(b) && Packets(b) == Packets(calls) && (b > calls ==> !Fails(b))
    }
  }

  // The stream as a whole

  lemma MixedStep(track: Track, packets: seq<Packet>, packet: Packet)
    ensures var before := track.MixedPackets(packets);
      track.MixedPackets(packets + [packet]) == before + track.MixedPacket(|before|, packets + [packet])
  {}

  lemma {:induction false} MixedGrows(track: Track, first: seq<Packet>, packets: seq<Packet>)
    requires first <= packets
    ensures track.MixedPackets(first) <= track.MixedPackets(packets)
    decreases |packets|
  {
    if first < packets {
      MixedGrows(track, first, packets[..|packets| - 1]);
    } else {
      assert first == packets;
    }
  }

  /** The limit is never passed. */
  lemma {:induction false} MixedWithinLimit(track: Track, packets: seq<Packet>)
    requires track.frameLimit.Some?
    ensures |track.MixedPackets(packets)| <= track.frameLimit.value
  {
    if packets != [] {
      MixedWithinLimit(track, packets[..|packets| - 1]);
    }
  }

  /** A stream is over at one point only, whoever reads it. */
  lemma OverOnce(track: Track, a: nat, b: nat)
    requires track.Over(a) && track.NotOverBefore(a) && track.Over(b) && track.NotOverBefore(b)
    ensures a == b
  {}

  /** What has been heard on the way is the beginning of the whole. */
  lemma HeardStartsWhole(track: Track, calls: nat, last: nat)
    requires track.Valid() && calls <= last
    ensures track.Heard(calls, false) <= track.Heard(last, true)
  {
    OwnPacketsGrow(track.reader, track.trackId, calls, last);
    MixedGrows(track, track.Packets(calls), track.Packets(last));
    track.HeardShown(track.Mixed(calls), false);
    track.HeardShown(track.Mixed(last), true);
    if track.fft.Some? {
      AudibleStartsWhole(track.fft.value, track.sampleRate, track.Mixed(calls), track.Mixed(last));
    }
  }

  lemma AudibleStartsWhole(fft: Resample.Fft, sourceRate: Resample.Positive, input: seq<Frame>, whole: seq<Frame>)
    requires Resample.Fits(fft, sourceRate) && input <= whole
    ensures Resample.Audible(fft, input) <= Resample.Complete(fft, sourceRate, whole)
  {
    assert whole == input + whole[|input|..];
    Resample.AudibleGrows(fft, input, whole[|input|..]);
    Resample.AudibleStartsComplete(fft, sourceRate, whole);
  }

  lemma SameRateLength(frames: nat)
    ensures Resample.ExpectedFrames(frames, 48000) == frames
  {
    Resample.ExpectedShown(frames, 48000);
  }

  /** The length of the whole at 48 kHz is exact: it is the least that lasts as long as the mixed frames. */
  lemma WholeLength(track: Track, last: nat)
    requires track.Valid()
    ensures |track.Heard(last, true)| == Resample.ExpectedFrames(|track.Mixed(last)|, track.sampleRate)
    ensures var frames, n := |track.Mixed(last)|, |track.Heard(last, true)|;
      n * track.sampleRate >= frames * 48000 && (n > 0 ==> (n - 1) * track.sampleRate < frames * 48000)
  {
    SameRateLength(|track.Mixed(last)|);
    track.HeardShown(track.Mixed(last), true);
    Resample.ExpectedLasts(|track.Mixed(last)|, track.sampleRate);
  }

  /** The frames of the packets that are decoded at the track's rate. */
  function FramesIn(track: Track, packets: seq<Packet>): nat {
    if packets == [] then 0
    else FramesIn(track, packets[..|packets| - 1]) + match track.codec(packets)
      case Audio(buffer) => if buffer.rate == track.sampleRate then buffer.frames else 0
      case _ => 0
  }

  /** As many frames are mixed as those packets have, or as the stated length leaves of them. */
  lemma {:induction false} MixedLength(track: Track, packets: seq<Packet>)
    ensures var all := FramesIn(track, packets);
      |track.MixedPackets(packets)| == match track.frameLimit
        case None => all
        case Some(limit) => if limit < all then limit else all
  {
    if packets != [] {
      MixedLength(track, packets[..|packets| - 1]);
    }
  }

  /** A stream is over when its packets have had the frames that its header states, or its container has ended. */
  lemma OverExactly(track: Track, calls: nat)
    ensures track.Over(calls) <==>
      || (track.frameLimit.Some? && FramesIn(track, track.Packets(calls)) >= track.frameLimit.value)
      || (calls > 0 && (track.reader(calls - 1).End? || track.reader(calls - 1).UnexpectedEnd?))
  {
    MixedLength(track, track.Packets(calls));
  }

  /** Each side of frame t: the samples of the planes there, times the gains of the layout. */
  function FrameOf(buffer: Buffer, t: nat): Frame {
    var gains := Mix.GainsFor(buffer.channels, |buffer.planes|);
    var n := Least(|gains|, |buffer.planes|);
    Mix.Frame(Mix.LeftSum(gains, buffer.planes, t, n), Mix.RightSum(gains, buffer.planes, t, n))
  }

  lemma LastMixed(track: Track, packets: seq<Packet>, t: nat)
    requires packets != [] && track.codec(packets).Audio? && track.codec(packets).buffer.rate == track.sampleRate
    requires t < track.codec(packets).buffer.frames
    requires track.frameLimit.Some? ==> FramesIn(track, packets[..|packets| - 1]) + t < track.frameLimit.value
    ensures var before, mixed := packets[..|packets| - 1], track.MixedPackets(packets);
      var buffer, place := track.codec(packets).buffer, FramesIn(track, before) + t;
      place < |mixed| && mixed[place] == FrameOf(buffer, t)
  {
    var before, buffer := packets[..|packets| - 1], track.codec(packets).buffer;
    MixedLength(track, before);
    var kept := Kept(track.frameLimit, FramesIn(track, before), buffer.frames);
    Mix.MixedFramesAreSums(Mix.GainsFor(buffer.channels, |buffer.planes|), buffer.planes, kept, t);
  }

  /**
    * Every frame that is mixed is at its place: frame t of a packet, after all those of the packets before it, is made
    * of what the packet's planes have there, by the gains of its layout.
    */
  lemma {:induction false} MixedInPlace(track: Track, packets: seq<Packet>, k: nat, t: nat)
    requires k < |packets|
    requires var decoded := track.codec(packets[..k + 1]);
      decoded.Audio? && decoded.buffer.rate == track.sampleRate && t < decoded.buffer.frames
    requires track.frameLimit.Some? ==> FramesIn(track, packets[..k]) + t < track.frameLimit.value
    ensures var mixed, buffer := track.MixedPackets(packets), track.codec(packets[..k + 1]).buffer;
      var place := FramesIn(track, packets[..k]) + t;
      place < |mixed| && mixed[place] == FrameOf(buffer, t)
  {
    var first := packets[..k + 1];
    assert first[..k] == packets[..k];
    LastMixed(track, first, t);
    MixedGrows(track, first, packets);
  }

  /** The whole is the mixed frames as they are at 48 kHz, and at any other rate what the resampler completes. */
  lemma WholeFrame(track: Track, last: nat, t: nat, silence: nat)
    requires track.Valid() && t < |track.Heard(last, true)|
    ensures var mixed, whole := track.Mixed(last), track.Heard(last, true);
      match track.fft
      case None => track.sampleRate == 48000 && |whole| == |mixed| && whole[t] == mixed[t]
      case Some(fft) =>
        var at := fft.delay + t;
        var end := (at / fft.sizeOut + 1) * fft.sizeIn;
        |mixed| + silence >= end ==>
          whole[t] == fft.kernel((mixed + Resample.Silence(silence))[..end], at % fft.sizeOut)
  {
    track.HeardShown(track.Mixed(last), true);
    if track.fft.Some? {
      var fft := track.fft.value;
      if |track.Mixed(last)| + silence >= ((fft.delay + t) / fft.sizeOut + 1) * fft.sizeIn {
        Resample.CompleteFrame(fft, track.sampleRate, track.Mixed(last), t, silence);
      }
    }
  }

  /** Where a stream that is over at some point is over first. */
  ghost function OverFirst(track: Track, calls: nat, point: nat): (last: nat)
    requires track.Over(point) && track.NotOverBefore(calls) && calls <= point
    ensures track.OverAt(last) && calls <= last <= point
    decreases point - calls
  {
    if track.Over(calls) then calls else OverFirst(track, calls + 1, point)
  }

  lemma HeardGrows(track: Track, calls: nat, later: nat)
    requires calls <= later
    ensures track.Heard(calls, false) <= track.Heard(later, false)
  {
    OwnPacketsGrow(track.reader, track.trackId, calls, later);
    MixedGrows(track, track.Packets(calls), track.Packets(later));
    track.HeardShown(track.Mixed(calls), false);
    track.HeardShown(track.Mixed(later), false);
    if track.fft.Some? {
      var mixed, more := track.Mixed(calls), track.Mixed(later);
      assert more == mixed + more[|mixed|..];
      Resample.AudibleGrows(track.fft.value, mixed, more[|mixed|..]);
    }
  }

  // One packet further

  lemma SkipRunStep(track: Track, calls: nat)
    ensures track.SkipRun(calls + 1) ==
      match track.CountOf(calls)
      case PassesOver => track.SkipRun(calls) + 1
      case StartsAnew => 0
      case Stays => track.SkipRun(calls)
  {
    assert track.Counts(calls + 1) == track.Counts(calls) + [track.CountOf(calls)];
    RunGrows(track.Counts(calls), track.CountOf(calls));
  }

  lemma SkippedShown(track: Track, count: nat, calls: nat)
    ensures track.HasSkipped(count, calls) <==> count == track.BadBefore(calls)
  {
    assert Shown(0);
  }

  lemma SkippedStep(track: Track, count: nat, calls: nat)
    requires track.HasSkipped(count, calls)
    ensures track.HasSkipped(if track.BadAt(calls) then count + 1 else count, calls + 1)
  {
    SkippedShown(track, count, calls);
  }

  lemma {:induction false} OthersAreNotBad(track: Track, count: nat, calls: nat, n: nat)
    requires track.HasSkipped(count, calls) && OthersOnly(track.reader, track.trackId, calls, n)
    ensures track.HasSkipped(count, calls + n)
    decreases n
  {
    if n > 0 {
      OthersAreNotBad(track, count, calls, n - 1);
      assert track.reader(calls + n - 1).Other(track.trackId);
      SkippedStep(track, count, calls + n - 1);
    }
  }

  /** Packets of other tracks, as many as are passed over, change nothing but the run. */
  lemma {:induction false} OthersChangeRunOnly(track: Track, calls: nat, n: nat)
    requires OthersOnly(track.reader, track.trackId, calls, n) && n <= Patience(track.SkipRun(calls))
    ensures track.SkipRun(calls + n) == track.SkipRun(calls) + n
    ensures track.Packets(calls + n) == track.Packets(calls)
    ensures n > 0 ==> !track.EndSeen(calls + n) && !track.Fails(calls + n)
    decreases n
  {
    if n > 0 {
      OthersChangeRunOnly(track, calls, n - 1);
      assert track.reader(calls + n - 1).Other(track.trackId);
      SkipRunStep(track, calls + n - 1);
      track.VerdictShown(calls + n);
    }
  }

  lemma OthersAreQuiet(track: Track, calls: nat, n: nat)
    requires OthersOnly(track.reader, track.trackId, calls, n) && n <= Patience(track.SkipRun(calls))
    requires !track.Over(calls)
    ensures track.Quiet(calls, calls + n + 1)
  {
    forall b: nat | calls < b <= calls + n
      ensures !track.Over(b) && !track.Fails(b) && track.Packets(b) == track.Packets(calls)
    {
      OthersChangeRunOnly(track, calls, b - calls);
    }
  }

  /** What one more answer of the reader changes, when it was asked in vain for other tracks' packets before. */
  lemma FetchKeepsOn(track: Track, calls: nat, n: nat)
    requires Passes(track.reader, track.trackId, calls, track.SkipRun(calls), n)
    requires track.NotOverBefore(calls) && !track.Over(calls)
    ensures track.NotOverBefore(calls + n + 1)
    ensures track.SkipRun(calls + n) == track.SkipRun(calls) + n
    ensures track.Quiet(calls, calls + n + 1)
    ensures var event := track.reader(calls + n);
      track.Packets(calls + n + 1) == track.Packets(calls) + if event.Own(track.trackId) then [event.packet] else []
  {
    FetchConserves(track.reader, track.trackId, calls, n);
    OthersChangeRunOnly(track, calls, n);
    OthersAreQuiet(track, calls, n);
  }

  /** What a packet of the track means that the codec has answered for. */
  lemma PacketMeans(track: Track, before: seq<Packet>, packet: Packet, calls: nat)
    requires calls > 0 && track.reader(calls - 1) == Got(packet) && packet.trackId == track.trackId
    requires track.Packets(calls) == before + [packet]
    ensures match track.codec(before + [packet])
      case BadPacket | Truncated =>
        && track.SkipRun(calls) == track.SkipRun(calls - 1) + 1 && track.BadAt(calls - 1)
        && track.Verdict(calls) == if track.SkipRun(calls) > MAX_CONSECUTIVE_SKIPS then Some(TooManySkips) else None
      case CodecReset =>
        && track.SkipRun(calls) == track.SkipRun(calls - 1) && !track.BadAt(calls - 1)
        && track.Verdict(calls) == Some(StreamChanged)
      case CodecFailure =>
        && track.SkipRun(calls) == track.SkipRun(calls - 1) && !track.BadAt(calls - 1)
        && track.Verdict(calls) == Some(UndecodablePacket)
      case Audio(buffer) =>
        && track.SkipRun(calls) == 0 && !track.BadAt(calls - 1)
        && track.Verdict(calls) == if buffer.rate == track.sampleRate then None
                                   else Some(SampleRateChanged(track.sampleRate, buffer.rate))
  {
    SkipRunStep(track, calls - 1);
    track.VerdictShown(calls);
  }

  /** What an answer means that is none of the track's packets. */
  lemma FetchMeans(track: Track, calls: nat, n: nat)
    requires Passes(track.reader, track.trackId, calls, track.SkipRun(calls), n)
    requires !track.reader(calls + n).Own(track.trackId)
    ensures var event := track.reader(calls + n);
      && track.SkipRun(calls + n + 1) == track.SkipRun(calls) + n + (if event.Other(track.trackId) then 1 else 0)
      && track.Verdict(calls + n + 1) == if event.Other(track.trackId) then Some(TooManySkips)
         else match Answer(event)
           case Err(error) => Some(error)
           case Ok(_) => None
  {
    OthersChangeRunOnly(track, calls, n);
    SkipRunStep(track, calls + n);
    track.VerdictShown(calls + n + 1);
  }

  /** The answers from there on that pass a packet over. */
  ghost function PassedSince(track: Track, start: nat, calls: nat): set<nat> {
    set k: nat | start <= k < calls && track.PassedOverAt(k)
  }

  lemma {:induction false} PassedSinceCounts(track: Track, start: nat, calls: nat)
    requires start <= calls
    ensures PassedOver(track.Counts(calls)[start..]) == |PassedSince(track, start, calls)|
    decreases calls
  {
    if start < calls {
      PassedSinceCounts(track, start, calls - 1);
      var counts, passed := track.Counts(calls)[start..], PassedSince(track, start, calls - 1);
      assert counts[..|counts| - 1] == track.Counts(calls - 1)[start..];
      assert counts[|counts| - 1] == track.CountOf(calls - 1);
      assert PassedSince(track, start, calls) == passed + if track.PassedOverAt(calls - 1) then {calls - 1} else {};
    } else {
      assert PassedSince(track, start, calls) == {};
    }
  }

  /**
    * Too many skips are reported exactly when, with the last answer, more than ten thousand packets have been passed
    * over without one decoded between: other tracks' packets and bad ones.
    */
  lemma TooManySkipsExactly(track: Track, calls: nat)
    requires calls > 0
    ensures track.Verdict(calls) == Some(TooManySkips) <==>
      && track.PassedOverAt(calls - 1)
      && exists start: nat ::
           && start <= calls && (forall k: nat | start <= k < calls :: !track.DecodedAt(k))
           && |PassedSince(track, start, calls)| > 10000
  {
    var counts := track.Counts(calls);
    RunTooLong(counts, 10000);
    track.VerdictShown(calls);
    forall start: nat | start <= calls
      ensures SameRun(counts, start) <==> forall k: nat | start <= k < calls :: !track.DecodedAt(k)
      ensures PassedOver(counts[start..]) == |PassedSince(track, start, calls)|
    {
      PassedSinceCounts(track, start, calls);
      forall k: nat | start <= k < calls ensures counts[k].StartsAnew? <==> track.DecodedAt(k) {}
    }
  }

  /** Every other failure is that of the last answer. */
  lemma FailuresExactly(track: Track, calls: nat)
    requires calls > 0
    ensures var event, decoded, verdict :=
        track.reader(calls - 1), track.codec(track.Packets(calls)), track.Verdict(calls);
      var own := event.Got? && event.packet.trackId == track.trackId;
      && (verdict == Some(UnreadableContainer) <==> event.Failure?)
      && (verdict == Some(StreamChanged) <==> event.ResetRequired? || (own && decoded.CodecReset?))
      && (verdict == Some(UndecodablePacket) <==> own && decoded.CodecFailure?)
      && (forall rate :: verdict == Some(SampleRateChanged(track.sampleRate, rate)) <==>
            own && decoded.Audio? && decoded.buffer.rate == rate != track.sampleRate)
      && (verdict.Some? ==>
            verdict.value in {UnreadableContainer, StreamChanged, UndecodablePacket, TooManySkips}
            || (own && decoded.Audio? && verdict.value == SampleRateChanged(track.sampleRate, decoded.buffer.rate)))
  {
    track.VerdictShown(calls);
  }

  lemma SettlesShown(track: Track, from: nat, b: nat, needed: nat)
    ensures track.Settles(from, b, needed) <==> track.IsAnswer(from, b, needed)
  {
    assert Shown(0);
  }

  lemma NothingSettles(track: Track, from: nat, needed: nat)
    ensures track.UnsettledBefore(from, from, needed)
  {
    forall c: nat | c < from ensures !track.Settles(from, c, needed) {
      SettlesShown(track, from, c, needed);
    }
  }

  /** A caller who had no answer up to one point has none while nothing comes to anything. */
  lemma QuietUnsettled(track: Track, from: nat, calls: nat, later: nat, needed: nat)
    requires from <= calls <= later && track.Quiet(calls, later) && track.UnsettledBefore(from, calls, needed)
    requires |track.Heard(calls, false)| < needed && (calls > from ==> !track.Fails(calls))
    ensures track.UnsettledBefore(from, later, needed)
  {
    forall c: nat | calls <= c < later ensures !track.Settles(from, c, needed) {
      SettlesShown(track, from, c, needed);
      assert track.Packets(c) == track.Packets(calls);
      assert track.Heard(c, false) == track.Heard(calls, false);
    }
  }

  /** As long as a caller has no answer, the point that is to give one is not behind. */
  lemma SettlesAhead(track: Track, from: nat, calls: nat, point: nat, needed: nat)
    requires track.Settles(from, point, needed) && track.UnsettledBefore(from, calls, needed)
    ensures calls <= point
  {}

  // Whether a read comes back

  /** How often the reader has been asked after one more packet of the track, or another answer that is not skipped. */
  ghost function NextCalls(track: Track, calls: nat): (next: nat)
    ensures next > calls
    decreases Patience(track.SkipRun(calls))
  {
    SkipRunStep(track, calls);
    if track.reader(calls).Other(track.trackId) && track.SkipRun(calls + 1) <= MAX_CONSECUTIVE_SKIPS
    then NextCalls(track, calls + 1)
    else calls + 1
  }

  lemma {:induction false} NextIs(track: Track, calls: nat, n: nat)
    requires Passes(track.reader, track.trackId, calls, track.SkipRun(calls), n)
    ensures NextCalls(track, calls) == calls + n + 1
    decreases n
  {
    SkipRunStep(track, calls);
    if n > 0 {
      assert track.reader(calls).Other(track.trackId);
      NextIs(track, calls + 1, n - 1);
    }
  }

  lemma {:induction false} SomePass(track: Track, calls: nat) returns (n: nat)
    ensures Passes(track.reader, track.trackId, calls, track.SkipRun(calls), n)
    decreases Patience(track.SkipRun(calls))
  {
    SkipRunStep(track, calls);
    if track.reader(calls).Other(track.trackId) && track.SkipRun(calls + 1) <= MAX_CONSECUTIVE_SKIPS {
      var m := SomePass(track, calls + 1);
      return m + 1;
    }
    return 0;
  }

  lemma QuietUntilNext(track: Track, calls: nat)
    requires !track.Over(calls)
    ensures track.Quiet(calls, NextCalls(track, calls))
  {
    var n := SomePass(track, calls);
    NextIs(track, calls, n);
    OthersAreQuiet(track, calls, n);
  }

  /** Where a fill is after so many of its turns: a stream that is over stays where it is. */
  ghost function AfterTurns(track: Track, from: nat, turns: nat): (calls: nat)
    ensures calls >= from
  {
    if turns == 0 then from
    else
      var calls := AfterTurns(track, from, turns - 1);
      if track.Over(calls) then calls else NextCalls(track, calls)
  }

  /** After some turn the loop of a fill has an answer for its caller. */
  ghost predicate ComesBack(track: Track, from: nat, needed: nat) {
    exists turns: nat :: track.Settles(from, AfterTurns(track, from, turns), needed)
  }

  lemma {:induction false} FirstPoint(track: Track, from: nat, point: nat, needed: nat) returns (first: nat)
    requires track.Settles(from, point, needed)
    ensures track.SettlesFirst(from, first, needed) && first <= point
    decreases point
  {
    if c: nat :| c < point && track.Settles(from, c, needed) {
      first := FirstPoint(track, from, c, needed);
    } else {
      first := point;
    }
  }

  lemma UnsettledMeans(track: Track, from: nat, calls: nat, needed: nat)
    requires from <= calls && !track.Settles(from, calls, needed)
    ensures !track.Over(calls) && |track.Heard(calls, false)| < needed && (calls > from ==> !track.Fails(calls))
  {
    SettlesShown(track, from, calls, needed);
  }

  /** A turn does not pass the first point that gives an answer. */
  lemma TurnStopsAtFirst(track: Track, from: nat, calls: nat, first: nat, needed: nat)
    requires track.SettlesFirst(from, first, needed) && from <= calls < first
    ensures !track.Over(calls) && NextCalls(track, calls) <= first
  {
    UnsettledMeans(track, from, calls, needed);
    QuietUntilNext(track, calls);
    QuietUnsettled(track, from, calls, NextCalls(track, calls), needed);
  }

  lemma {:induction false} TurnsReach(track: Track, from: nat, first: nat, needed: nat, turns: nat, calls: nat)
    requires track.SettlesFirst(from, first, needed) && from <= calls <= first
    requires calls == AfterTurns(track, from, turns)
    ensures ComesBack(track, from, needed)
    decreases first - calls
  {
    if calls < first {
      TurnStopsAtFirst(track, from, calls, first, needed);
      TurnsReach(track, from, first, needed, turns + 1, NextCalls(track, calls));
    } else {
      assert track.Settles(from, AfterTurns(track, from, turns), needed);
    }
  }

  /**
    * A fill that wants so many frames in all comes back exactly when, at some point, the stream is over, or there is
    * enough to hear, or an answer of the reader fails.
    */
  lemma ComesBackExactly(track: Track, from: nat, needed: nat)
    ensures ComesBack(track, from, needed) <==> exists point: nat :: track.Settles(from, point, needed)
  {
    if point: nat :| track.Settles(from, point, needed) {
      var first := FirstPoint(track, from, point, needed);
      SettlesShown(track, from, first, needed);
      TurnsReach(track, from, first, needed, 0, from);
    }
  }

  ghost predicate SilentCodec(track: Track) {
    forall packets | packets != [] ::
      var decoded := track.codec(packets);
      decoded.Audio? && decoded.buffer.frames == 0 && decoded.buffer.rate == track.sampleRate
  }

  lemma {:induction false} SilentPackets(track: Track, packets: seq<Packet>)
    requires SilentCodec(track)
    ensures track.MixedPackets(packets) == []
  {
    if packets != [] {
      SilentPackets(track, packets[..|packets| - 1]);
      assert track.codec(packets).buffer.frames == 0;
    }
  }

  lemma SilentPoint(track: Track, needed: nat, point: nat)
    requires track.frameLimit.None? && SilentCodec(track) && needed > 0
    requires forall k: nat :: track.reader(k).Own(track.trackId)
    ensures !track.Settles(0, point, needed)
  {
    SilentPackets(track, track.Packets(point));
    SettlesShown(track, 0, point, needed);
    track.HeardShown([], false);
    if track.fft.Some? {
      Resample.NothingMade(track.fft.value);
    }
    if point > 0 {
      assert track.reader(point - 1).Own(track.trackId);
      assert track.codec(track.Packets(point)).Audio?;
      track.VerdictShown(point);
    }
  }

  /** On a source that has nothing but packets without frames no read of a frame ever comes back. */
  lemma SilentSourceNeverOver(track: Track, needed: nat)
    requires track.frameLimit.None? && SilentCodec(track) && needed > 0
    requires forall k: nat :: track.reader(k).Own(track.trackId)
    ensures !ComesBack(track, 0, needed)
  {
    forall point: nat ensures !track.Settles(0, point, needed) {
      SilentPoint(track, needed, point);
    }
  }

  lemma UnreadGrows(delivered: seq<Frame>, ready: seq<Frame>, offset: nat, first: seq<Frame>, second: seq<Frame>)
    requires offset <= |ready| && delivered + ready[offset..] == first && first <= second
    ensures delivered + (ready + second[|first|..])[offset..] == second
  {}

  lemma FramesMaxOrder(track: Track, a: nat, b: nat)
    requires a <= b
    ensures track.FramesMax(a) <= track.FramesMax(b)
  {
    if track.fft.Some? {
      Resample.OutputFramesMaxOrder(track.fft.value, a, b);
    }
  }

  // The decoder

  class Decoder {
    const track: Track
    const resampler: Resample.StereoResampler?
    /** The codec's own state: the packets it was given. */
    var history: seq<Packet>
    var decodedFrames: nat
    var endedEarly: bool
    var finished: bool
    var mix: seq<Mix.Gain>
    var mixLayout: Option<(Mix.Channels, nat)>
    var packetFramesMax: nat
    var ready: seq<Frame>
    var readOffset: nat

    /** Every frame the caller has had. */
    ghost var delivered: seq<Frame>
    /** The capacity that packetFramesMax was worked out for. */
    ghost var capacity: nat

    ghost predicate Arranged()
      reads this`mix, this`mixLayout, this`packetFramesMax, this`capacity
    {
      && Sized()
      && (mixLayout.Some? ==> mix == Mix.GainsFor(mixLayout.value.0, mixLayout.value.1))
    }

    /** A packet that was due to fit in the buffer makes no more frames than there is room for. */
    ghost predicate Sized()
      reads this`mixLayout, this`packetFramesMax, this`capacity
    {
      mixLayout.Some? ==> packetFramesMax == track.FramesMax(capacity)
    }

    ghost predicate ResamplerAgrees(mixed: seq<Frame>)
      reads this`finished, resampler
    {
      && (resampler == null <==> track.fft.None?)
      && (resampler != null ==>
        && resampler.fft == track.fft.value && resampler.sourceRate == track.sampleRate
        && resampler.Valid() && resampler.input == mixed && resampler.finished == finished)
    }

    /** The demuxer is the track's, and has nothing put back. */
    ghost predicate Beside(demuxer: Demuxer)
      reads demuxer`calls, demuxer`pending, demuxer`ended
    {
      && demuxer.reader == track.reader && demuxer.trackId == track.trackId
      && demuxer.pending == None
      && (demuxer.ended <==> track.EndSeen(demuxer.calls))
    }

    /** Once over, the decoder says whether it was too soon. */
    ghost predicate EarlyEndSaid(calls: nat)
      reads this`finished, this`endedEarly
    {
      && (finished ==> track.Over(calls))
      && (endedEarly <==> finished && track.frameLimit.Some? && |track.Mixed(calls)| < track.frameLimit.value)
    }

    /** The decoder is where the reader's answers so far lead to. */
    ghost predicate StandsAt(calls: nat)
      reads this`history, this`decodedFrames, this`finished, this`endedEarly,
            this`mix, this`mixLayout, this`packetFramesMax, this`capacity, resampler
    {
      && track.Valid()
      && history == track.Packets(calls)
      && decodedFrames == |track.Mixed(calls)|
      && track.NotOverBefore(calls)
      && EarlyEndSaid(calls)
      && ResamplerAgrees(track.Mixed(calls))
      && Arranged()
    }

    /** The same by name. */
    ghost predicate Stands(calls: nat)
      reads this`history, this`decodedFrames, this`finished, this`endedEarly,
            this`mix, this`mixLayout, this`packetFramesMax, this`capacity, resampler
    {
      forall n {:trigger Shown(n)} :: Shown(n) ==> StandsAt(calls)
    }

    lemma StandsShown(calls: nat)
      ensures Stands(calls) <==> StandsAt(calls)
    {
      assert Shown(0);
    }

    /** Valid but for the counts of packets passed over. */
    ghost predicate InPlace(demuxer: Demuxer)
      reads this, demuxer`calls, demuxer`pending, demuxer`ended, resampler
    {
      Stands(demuxer.calls) && Beside(demuxer) && Unread(track.Heard(demuxer.calls, finished))
    }

    ghost predicate Holds(demuxer: Demuxer)
      reads this, demuxer, resampler
    {
      && InPlace(demuxer)
      && demuxer.consecutiveSkips == track.SkipRun(demuxer.calls)
      && track.HasSkipped(demuxer.skippedPackets, demuxer.calls)
    }

    ghost predicate Valid(demuxer: Demuxer)
      reads this, demuxer, resampler
    {
      forall n {:trigger Shown(n)} :: Shown(n) ==> Holds(demuxer)
    }

    lemma ValidShown(demuxer: Demuxer)
      ensures Valid(demuxer) <==> Holds(demuxer)
    {
      assert Shown(0);
    }

    /** So many frames have been given or are ready. */
    ghost predicate HasReady(n: nat)
      reads this
    {
      readOffset <= |ready| && |delivered| + |ready| - readOffset >= n
    }

    /** A decoder with enough ready, or that has finished or failed, has come to a caller's answer. */
    lemma Answers(demuxer: Demuxer, from: nat, needed: nat)
      requires Valid(demuxer) && demuxer.calls >= from
      requires finished || HasReady(needed) || (demuxer.calls > from && track.Fails(demuxer.calls))
      ensures track.Settles(from, demuxer.calls, needed)
    {
      Standing(demuxer);
      SettlesShown(track, from, demuxer.calls, needed);
    }

    /** One that has not enough ready, and has not finished, has still no answer when it comes to the next point. */
    lemma StillUnsettled(demuxer: Demuxer, from: nat, needed: nat)
      requires Valid(demuxer) && demuxer.calls >= from && !finished && !HasReady(needed)
      requires track.UnsettledBefore(from, demuxer.calls, needed)
      requires demuxer.calls > from ==> !track.Fails(demuxer.calls)
      ensures readOffset <= |ready|
      ensures forall later | later >= demuxer.calls && track.Quiet(demuxer.calls, later) ::
        track.UnsettledBefore(from, later, needed)
    {
      Standing(demuxer);
      forall later | later >= demuxer.calls && track.Quiet(demuxer.calls, later)
        ensures track.UnsettledBefore(from, later, needed)
      {
        QuietUnsettled(track, from, demuxer.calls, later, needed);
      }
    }

    /** What a valid decoder has given and holds is what there is to hear so far. */
    lemma Standing(demuxer: Demuxer)
      requires Valid(demuxer)
      ensures track.Valid() && track.NotOverBefore(demuxer.calls) && (finished ==> track.Over(demuxer.calls))
      ensures readOffset <= |ready| && delivered + ready[readOffset..] == track.Heard(demuxer.calls, finished)
      ensures decodedFrames == |track.Mixed(demuxer.calls)|
      ensures demuxer.reader == track.reader && demuxer.trackId == track.trackId && demuxer.pending == None
      ensures demuxer.ended <==> track.EndSeen(demuxer.calls)
    {
      ValidShown(demuxer);
      StandsShown(demuxer.calls);
    }

    constructor (track: Track, demuxer: Demuxer)
      requires track.Valid()
      requires demuxer.reader == track.reader && demuxer.trackId == track.trackId
      requires demuxer.calls == 0 && demuxer.pending == None && !demuxer.ended
      requires demuxer.consecutiveSkips == 0 && demuxer.skippedPackets == 0
      ensures Valid(demuxer) && this.track == track && !finished && delivered == []
      ensures fresh(this) && (resampler != null ==> fresh(resampler))
    {
      this.track := track;
      history, decodedFrames, endedEarly, finished := [], 0, false, false;
      mix, mixLayout, packetFramesMax := [], None, 0;
      ready, readOffset, delivered := [], 0, [];
      if track.fft.Some? {
        var stereo := new Resample.StereoResampler(track.sampleRate, track.fft.value);
        resampler := stereo;
        Resample.NothingMade(track.fft.value);
      } else {
        resampler := null;
      }
      new;
      track.HeardShown([], false);
      StandsShown(0);
      ValidShown(demuxer);
    }

    ghost predicate Unread(heard: seq<Frame>)
      reads this`ready, this`readOffset, this`delivered
    {
      readOffset <= |ready| && delivered + ready[readOffset..] == heard
    }

    /** Mixes the first frames of the planes into the ready buffer, through the resampler if the track needs one. */
    method Append(planes: seq<seq<real>>, frames: nat, ghost before: seq<Frame>)
      requires track.Valid() && !finished && ResamplerAgrees(before) && Unread(track.HeardOf(before, false))
      modifies this`ready, resampler
      ensures var mixed := before + Mix.MixedFrames(mix, planes, frames);
        ResamplerAgrees(mixed) && Unread(track.HeardOf(mixed, false)) && old(ready) <= ready
      ensures |ready| <= |old(ready)| + track.FramesMax(frames)
    {
      ghost var mixed := before + Mix.MixedFrames(mix, planes, frames);
      if resampler == null {
        ready := Mix.Apply(mix, planes, frames, ready);
      } else {
        var stereo := Mix.Apply(mix, planes, frames, []);
        assert stereo == Mix.MixedFrames(mix, planes, frames);
        ready := resampler.Push(stereo, ready);
        Resample.PushBound(track.fft.value, before, stereo);
      }
      track.HeardShown(before, false);
      track.HeardShown(mixed, false);
      ghost var was, now := track.HeardOf(before, false), track.HeardOf(mixed, false);
      assert was <= now && ready == old(ready) + now[|was|..];
      UnreadGrows(delivered, old(ready), readOffset, was, now);
    }

    /** The rest of the stream, out of the resampler if there is one. */
    method Complete(ghost mixed: seq<Frame>)
      requires track.Valid() && !finished && ResamplerAgrees(mixed) && Unread(track.HeardOf(mixed, false))
      modifies this`ready, resampler
      ensures resampler != null ==>
        && resampler.fft == track.fft.value && resampler.sourceRate == track.sampleRate
        && resampler.Valid() && resampler.input == mixed && resampler.finished
      ensures Unread(track.HeardOf(mixed, true)) && old(ready) <= ready
    {
      track.HeardShown(mixed, false);
      track.HeardShown(mixed, true);
      if resampler != null {
        ghost var audible := Resample.Audible(track.fft.value, mixed);
        ghost var complete := Resample.Complete(track.fft.value, track.sampleRate, mixed);
        ready := resampler.Finish(ready);
        UnreadGrows(delivered, old(ready), readOffset, audible, complete);
      }
    }

    method Finish(demuxer: Demuxer)
      requires Valid(demuxer) && !finished && track.Over(demuxer.calls)
      modifies this`finished, this`endedEarly, this`ready, resampler
      ensures Valid(demuxer) && finished
      ensures old(ready) <= ready
    {
      ValidShown(demuxer);
      StandsShown(demuxer.calls);
      Complete(track.Mixed(demuxer.calls));
      finished := true;
      endedEarly := track.frameLimit.Some? && decodedFrames < track.frameLimit.value;
      StandsShown(demuxer.calls);
      ValidShown(demuxer);
    }

    /** Valid but for a packet that the demuxer has given and nobody has looked at. */
    ghost predicate Owes(demuxer: Demuxer, packet: Packet)
      reads this, demuxer, resampler
    {
      && track.Valid() && !finished && !endedEarly
      && demuxer.reader == track.reader && demuxer.trackId == track.trackId
      && demuxer.pending == None && !demuxer.ended
      && demuxer.calls > 0 && track.reader(demuxer.calls - 1) == Got(packet) && packet.trackId == track.trackId
      && track.Packets(demuxer.calls) == history + [packet]
      && track.NotOverBefore(demuxer.calls)
      && demuxer.consecutiveSkips == track.SkipRun(demuxer.calls - 1)
      && track.HasSkipped(demuxer.skippedPackets, demuxer.calls - 1)
      && decodedFrames == |track.MixedPackets(history)|
      && ResamplerAgrees(track.MixedPackets(history))
      && Unread(track.HeardOf(track.MixedPackets(history), false))
      && Arranged()
    }

    /** Answers that are none of the track's packets leave the decoder where it is. */
    lemma StandsOn(calls: nat, n: nat)
      requires Stands(calls) && !finished && !track.Over(calls)
      requires Passes(track.reader, track.trackId, calls, track.SkipRun(calls), n)
      requires !track.reader(calls + n).Own(track.trackId)
      ensures Stands(calls + n + 1) && track.Heard(calls + n + 1, false) == track.Heard(calls, false)
    {
      var later := calls + n + 1;
      StandsShown(calls);
      StandsShown(later);
      FetchKeepsOn(track, calls, n);
      assert track.Packets(later) == track.Packets(calls);
      assert track.Mixed(later) == track.Mixed(calls) && track.Heard(later, false) == track.Heard(calls, false);
    }

    lemma TakesPacket(demuxer: Demuxer, calls: nat, n: nat, packet: Packet)
      requires Stands(calls) && !finished && !track.Over(calls) && Beside(demuxer) && !demuxer.ended
      requires Unread(track.Heard(calls, false))
      requires Passes(track.reader, track.trackId, calls, track.SkipRun(calls), n)
      requires demuxer.calls == calls + n + 1 && demuxer.consecutiveSkips == track.SkipRun(calls) + n
      requires track.HasSkipped(demuxer.skippedPackets, calls)
      requires track.reader(calls + n) == Got(packet) && packet.trackId == track.trackId
      ensures Owes(demuxer, packet)
    {
      StandsShown(calls);
      FetchKeepsOn(track, calls, n);
      OthersAreNotBad(track, demuxer.skippedPackets, calls, n);
    }

    /** What the demuxer's answer is to a decoder that stood where it was asked. */
    ghost predicate Taken(demuxer: Demuxer, calls: nat, fetched: Fetched)
      reads this, resampler, demuxer
    {
      && demuxer.calls == NextCalls(track, calls) && track.Quiet(calls, demuxer.calls)
      && match fetched
         case Ok(Some(packet)) => Owes(demuxer, packet)
         case Ok(None) => Valid(demuxer) && demuxer.ended
         case Err(error) => Valid(demuxer) && track.Verdict(demuxer.calls) == Some(error)
    }

    lemma TakesOther(demuxer: Demuxer, calls: nat, n: nat)
      requires Stands(calls) && !finished && !track.Over(calls) && Beside(demuxer) && Unread(track.Heard(calls, false))
      requires Passes(track.reader, track.trackId, calls, track.SkipRun(calls), n)
      requires demuxer.calls == calls + n + 1 && !track.reader(calls + n).Own(track.trackId)
      requires demuxer.consecutiveSkips
            == track.SkipRun(calls) + n + (if track.reader(calls + n).Other(track.trackId) then 1 else 0)
      requires track.HasSkipped(demuxer.skippedPackets, calls)
      ensures Valid(demuxer)
    {
      StandsOn(calls, n);
      FetchMeans(track, calls, n);
      OthersAreNotBad(track, demuxer.skippedPackets, calls, n);
      SkippedStep(track, demuxer.skippedPackets, calls + n);
      ValidShown(demuxer);
    }

    lemma Takes(demuxer: Demuxer, calls: nat, run: nat, fetched: Fetched)
      requires Stands(calls) && !finished && !track.Over(calls) && track.NotOverBefore(calls)
      requires Unread(track.Heard(calls, false))
      requires demuxer.reader == track.reader && demuxer.trackId == track.trackId && demuxer.pending == None
      requires run == track.SkipRun(calls) && demuxer.calls > calls && demuxer.Passed(calls, run, fetched)
      requires demuxer.ended == (fetched == Ok(None)) && track.HasSkipped(demuxer.skippedPackets, calls)
      ensures Taken(demuxer, calls, fetched)
    {
      var n := demuxer.calls - calls - 1;
      FetchKeepsOn(track, calls, n);
      NextIs(track, calls, n);
      if track.reader(calls + n).Own(track.trackId) {
        TakesPacket(demuxer, calls, n, track.reader(calls + n).packet);
      } else {
        FetchMeans(track, calls, n);
        TakesOther(demuxer, calls, n);
      }
    }

    method Take(demuxer: Demuxer) returns (fetched: Fetched)
      requires Valid(demuxer) && !finished && !track.LimitReached(demuxer.calls)
      modifies demuxer`calls, demuxer`consecutiveSkips, demuxer`pending, demuxer`ended
      ensures old(demuxer.ended) ==> fetched == Ok(None) && demuxer.calls == old(demuxer.calls) && Valid(demuxer)
      ensures !old(demuxer.ended) ==> Taken(demuxer, old(demuxer.calls), fetched)
    {
      Standing(demuxer);
      ValidShown(demuxer);
      ghost var calls, run := demuxer.calls, demuxer.consecutiveSkips;
      fetched := demuxer.NextPacket();
      if demuxer.calls > calls {
        Takes(demuxer, calls, run, fetched);
      } else {
        ValidShown(demuxer);
      }
    }

    /** The codec has been given the packet, and nothing of it is to be heard. */
    method PassOver(demuxer: Demuxer, packet: Packet)
      requires Owes(demuxer, packet)
      requires track.MixedPacket(decodedFrames, history + [packet]) == []
      modifies this`history
      ensures InPlace(demuxer) && !finished && history == old(history) + [packet]
    {
      MixedStep(track, history, packet);
      ghost var mixed := track.MixedPackets(history);
      history := history + [packet];
      assert track.Mixed(demuxer.calls) == mixed + [] == mixed;
      assert track.Heard(demuxer.calls, false) == track.HeardOf(mixed, false);
      StandsShown(demuxer.calls);
    }

    /** The mix is worked out again only when the layout or the number of planes changes. */
    method Arrange(buffer: Buffer)
      requires Arranged()
      modifies this`mix, this`mixLayout, this`packetFramesMax, this`capacity
      ensures Arranged()
      ensures mixLayout == Some((buffer.channels, |buffer.planes|))
      ensures mix == Mix.GainsFor(buffer.channels, |buffer.planes|)
    {
      if mixLayout != Some((buffer.channels, |buffer.planes|)) {
        var gains := Mix.ForChannels(buffer.channels, |buffer.planes|);
        mix := gains[..];
        mixLayout := Some((buffer.channels, |buffer.planes|));
        packetFramesMax := track.FramesMax(buffer.capacity);
        capacity := buffer.capacity;
      }
    }

    /** The packet decoded last has no more frames than the codec stated when the layout was last worked out. */
    ghost predicate Fitting()
      reads this
    {
      history != [] && track.codec(history).Audio? ==> track.codec(history).buffer.frames <= capacity
    }

    method MixIn(demuxer: Demuxer, packet: Packet, buffer: Buffer)
      requires Owes(demuxer, packet)
      requires track.codec(history + [packet]) == Audio(buffer) && buffer.rate == track.sampleRate
      modifies this`history, this`mix, this`mixLayout, this`packetFramesMax, this`capacity, this`decodedFrames,
               this`ready, resampler
      ensures InPlace(demuxer) && !finished && history == old(history) + [packet] && old(ready) <= ready
      ensures Fitting() ==> |ready| <= |old(ready)| + packetFramesMax
    {
      ghost var before := track.MixedPackets(history);
      MixedStep(track, history, packet);
      Arrange(buffer);
      history := history + [packet];
      var frames := Kept(track.frameLimit, decodedFrames, buffer.frames);
      decodedFrames := decodedFrames + frames;
      Append(buffer.planes, frames, before);
      if Fitting() {
        FramesMaxOrder(track, frames, capacity);
      }
    }

    /** A packet that the codec makes nothing of: the decoder stays where it is, but for the run. */
    method PassBad(demuxer: Demuxer, packet: Packet) returns (failure: Option<Error>)
      requires Owes(demuxer, packet)
      requires track.codec(history + [packet]).BadPacket? || track.codec(history + [packet]).Truncated?
      modifies this`history, demuxer`consecutiveSkips, demuxer`skippedPackets
      ensures Valid(demuxer) && !finished && history == old(history) + [packet]
      ensures failure == track.Verdict(demuxer.calls)
    {
      PacketMeans(track, history, packet, demuxer.calls);
      SkippedStep(track, demuxer.skippedPackets, demuxer.calls - 1);
      PassOver(demuxer, packet);
      failure := demuxer.Skip();
      ValidShown(demuxer);
    }

    /** One that it cannot go on after, or that has another rate. */
    method PassFailing(demuxer: Demuxer, packet: Packet) returns (failure: Option<Error>)
      requires Owes(demuxer, packet)
      requires var decoded := track.codec(history + [packet]);
        decoded.CodecReset? || decoded.CodecFailure? || (decoded.Audio? && decoded.buffer.rate != track.sampleRate)
      modifies this`history, demuxer`consecutiveSkips
      ensures Valid(demuxer) && !finished && history == old(history) + [packet]
      ensures failure.Some? && failure == track.Verdict(demuxer.calls)
    {
      PacketMeans(track, history, packet, demuxer.calls);
      SkippedStep(track, demuxer.skippedPackets, demuxer.calls - 1);
      PassOver(demuxer, packet);
      match track.codec(history) {
        case CodecReset =>
          failure := Some(StreamChanged);
        case Audio(buffer) =>
          demuxer.ResetSkips();
          failure := Some(SampleRateChanged(track.sampleRate, buffer.rate));
        case _ =>
          failure := Some(UndecodablePacket);
      }
      ValidShown(demuxer);
    }

    /** One that has been decoded: its frames are to be heard, and the run of packets passed over starts anew. */
    method PassOn(demuxer: Demuxer, packet: Packet, buffer: Buffer) returns (failure: Option<Error>)
      requires Owes(demuxer, packet)
      requires track.codec(history + [packet]) == Audio(buffer) && buffer.rate == track.sampleRate
      modifies this`history, this`mix, this`mixLayout, this`packetFramesMax, this`capacity, this`decodedFrames,
               this`ready, resampler, demuxer`consecutiveSkips
      ensures Valid(demuxer) && !finished && old(ready) <= ready
      ensures Fitting() ==> |ready| <= |old(ready)| + packetFramesMax
      ensures failure == None == track.Verdict(demuxer.calls)
    {
      PacketMeans(track, history, packet, demuxer.calls);
      SkippedStep(track, demuxer.skippedPackets, demuxer.calls - 1);
      MixIn(demuxer, packet, buffer);
      demuxer.ResetSkips();
      ValidShown(demuxer);
      failure := None;
    }

    method DecodePacket(demuxer: Demuxer, packet: Packet) returns (failure: Option<Error>)
      requires Owes(demuxer, packet)
      modifies this`history, this`mix, this`mixLayout, this`packetFramesMax, this`capacity, this`decodedFrames,
               this`ready, resampler,
               demuxer`consecutiveSkips, demuxer`skippedPackets
      ensures Valid(demuxer) && !finished && old(ready) <= ready
      ensures failure.Some? ==> ready == old(ready)
      ensures Fitting() ==> |ready| <= |old(ready)| + packetFramesMax
      ensures demuxer.calls > 0 && failure == track.Verdict(demuxer.calls)
    {
      match track.codec(history + [packet])
      case BadPacket | Truncated =>
        failure := PassBad(demuxer, packet);
      case CodecReset | CodecFailure =>
        failure := PassFailing(demuxer, packet);
      case Audio(buffer) =>
        if buffer.rate != track.sampleRate {
          failure := PassFailing(demuxer, packet);
        } else {
          failure := PassOn(demuxer, packet, buffer);
        }
    }

    method DecodeNext(demuxer: Demuxer) returns (failure: Option<Error>)
      requires Valid(demuxer) && !finished
      modifies this`history, this`mix, this`mixLayout, this`packetFramesMax, this`capacity, this`decodedFrames,
               this`ready, this`finished, this`endedEarly, resampler,
               demuxer`calls, demuxer`consecutiveSkips, demuxer`skippedPackets, demuxer`pending, demuxer`ended
      ensures Valid(demuxer) && old(ready) <= ready
      ensures failure.Some? ==> !finished && ready == old(ready)
      ensures demuxer.calls >= old(demuxer.calls) && (finished || demuxer.calls > old(demuxer.calls))
      ensures track.Quiet(old(demuxer.calls), demuxer.calls)
      ensures demuxer.calls == AfterTurns(track, old(demuxer.calls), 1)
      ensures !finished && Fitting() ==> |ready| <= |old(ready)| + packetFramesMax
      ensures old(demuxer.ended) ==> finished
      ensures !finished ==> demuxer.calls > 0 && failure == track.Verdict(demuxer.calls)
    {
      Standing(demuxer);
      if track.frameLimit.Some? && decodedFrames >= track.frameLimit.value {
        Finish(demuxer);
        return None;
      }
      var fetched := Take(demuxer);
      if fetched.Err? {
        return Some(fetched.error);
      }
      if fetched.value.None? {
        Standing(demuxer);
        Finish(demuxer);
        return None;
      }
      failure := DecodePacket(demuxer, fetched.value.value);
    }

    /** One turn of a fill that has no answer yet: it does not pass the first point that gives one. */
    method Turn(demuxer: Demuxer, ghost from: nat, ghost needed: nat, ghost point: nat)
      returns (failure: Option<Error>)
      requires Valid(demuxer) && !finished && !HasReady(needed)
      requires demuxer.calls >= from && (demuxer.calls > from ==> !track.Fails(demuxer.calls))
      requires track.Settles(from, point, needed) && track.UnsettledBefore(from, demuxer.calls, needed)
      modifies this`history, this`mix, this`mixLayout, this`packetFramesMax, this`capacity, this`decodedFrames,
               this`ready, this`finished, this`endedEarly, resampler,
               demuxer`calls, demuxer`consecutiveSkips, demuxer`skippedPackets, demuxer`pending, demuxer`ended
      ensures Valid(demuxer) && old(ready) <= ready
      ensures old(demuxer.calls) <= demuxer.calls <= point && (finished || demuxer.calls > old(demuxer.calls))
      ensures track.UnsettledBefore(from, demuxer.calls, needed)
      ensures failure.Some? ==> !finished && track.Settles(from, demuxer.calls, needed)
      ensures !finished ==> demuxer.calls > 0 && failure == track.Verdict(demuxer.calls)
      ensures !finished && Fitting() ==> |ready| <= |old(ready)| + packetFramesMax
    {
      StillUnsettled(demuxer, from, needed);
      failure := DecodeNext(demuxer);
      SettlesAhead(track, from, demuxer.calls, point, needed);
      if failure.Some? {
        Answers(demuxer, from, needed);
      }
    }

    /**
      * Packets until as many frames are ready as the caller wants, or the stream is over, or a packet fails: the first
      * such point, if there is one. A failure loses nothing.
      */
    method Fill(demuxer: Demuxer, wanted: nat, ghost point: nat) returns (failure: Option<Error>, ghost fitting: bool)
      requires Valid(demuxer) && readOffset <= |ready| < readOffset + wanted
      requires track.Settles(demuxer.calls, point, |delivered| + wanted)
      modifies this`history, this`mix, this`mixLayout, this`packetFramesMax, this`capacity, this`decodedFrames,
               this`ready, this`readOffset, this`finished, this`endedEarly, resampler,
               demuxer`calls, demuxer`consecutiveSkips, demuxer`skippedPackets, demuxer`pending, demuxer`ended
      ensures Valid(demuxer) && readOffset == 0 && old(ready[readOffset..]) <= ready
      ensures failure.None? ==> |ready| >= wanted || finished
      ensures failure.Some? ==> !finished && demuxer.calls > 0 && failure == track.Verdict(demuxer.calls)
      ensures track.SettlesFirst(old(demuxer.calls), demuxer.calls, |delivered| + wanted)
      ensures !finished && fitting ==> |ready| < wanted + packetFramesMax
      ensures old(finished) ==> finished && demuxer.calls == old(demuxer.calls)
    {
      Drain(demuxer);
      failure, fitting := None, true;
      ghost var from, needed := demuxer.calls, |delivered| + wanted;
      NothingSettles(track, from, needed);
      while |ready| < wanted && !finished
        invariant Valid(demuxer) && readOffset == 0 && old(ready[readOffset..]) <= ready && failure.None?
        invariant old(finished) ==> finished && demuxer.calls == from
        invariant !finished && fitting ==> |ready| < wanted + packetFramesMax
        invariant from <= demuxer.calls && track.UnsettledBefore(from, demuxer.calls, needed)
        invariant demuxer.calls > from && !finished ==> !track.Fails(demuxer.calls)
        decreases !finished, point + 1 - demuxer.calls
      {
        failure := Turn(demuxer, from, needed, point);
        fitting := fitting && Fitting();
        if failure.Some? {
          return;
        }
      }
      Answers(demuxer, from, needed);
    }

    lemma Bounded(demuxer: Demuxer)
      requires Valid(demuxer)
      ensures readOffset <= |ready|
    {
      Standing(demuxer);
    }

    /** Forgets what has been read. */
    method Drain(demuxer: Demuxer)
      requires Valid(demuxer) && readOffset <= |ready|
      modifies this`ready, this`readOffset
      ensures Valid(demuxer) && readOffset == 0 && ready == old(ready[readOffset..])
    {
      ValidShown(demuxer);
      ready, readOffset := ready[readOffset..], 0;
      assert ready[0..] == ready;
      ValidShown(demuxer);
    }

    /** The next frames have been read. */
    method Advance(demuxer: Demuxer, taken: nat)
      requires Valid(demuxer) && readOffset + taken <= |ready|
      modifies this`readOffset, this`delivered
      ensures Valid(demuxer) && readOffset == old(readOffset) + taken
      ensures delivered == old(delivered) + ready[old(readOffset)..readOffset]
      ensures readOffset == |ready| ==> delivered == track.Heard(demuxer.calls, finished)
    {
      ValidShown(demuxer);
      ghost var heard := track.Heard(demuxer.calls, finished);
      PieceAndRest(delivered, ready, readOffset, taken);
      delivered, readOffset := delivered + ready[readOffset..readOffset + taken], readOffset + taken;
      assert Unread(heard);
      if readOffset == |ready| {
        assert delivered + ready[readOffset..] == delivered;
      }
      ValidShown(demuxer);
    }

    method Deliver(demuxer: Demuxer, output: array<Frame>) returns (taken: nat)
      requires Valid(demuxer) && readOffset <= |ready|
      modifies this`readOffset, this`delivered, output
      ensures Valid(demuxer)
      ensures taken == Least(old(|ready| - readOffset), output.Length)
      ensures output[taken..] == old(output[taken..]) && delivered == old(delivered) + output[..taken]
      ensures taken < output.Length ==> delivered == track.Heard(demuxer.calls, finished)
    {
      taken := Least(|ready| - readOffset, output.Length);
      CopyInto(ready[readOffset..readOffset + taken], output);
      Advance(demuxer, taken);
    }

    /**
      * The next piece of the stream, as long as the output unless the stream is over: then what is left of it, and
      * from then on nothing. After a failure every frame not yet read is still to be had, once.
      */
    method Read(demuxer: Demuxer, output: array<Frame>, ghost point: nat) returns (r: Result<nat, Error>)
      requires Valid(demuxer) && track.Settles(demuxer.calls, point, |delivered| + output.Length)
      modifies this, resampler, output,
               demuxer`calls, demuxer`consecutiveSkips, demuxer`skippedPackets, demuxer`pending, demuxer`ended
      ensures Valid(demuxer)
      ensures r.Ok? ==> r.value <= output.Length && output[r.value..] == old(output[r.value..])
      ensures r.Ok? ==> delivered == old(delivered) + output[..r.value]
      ensures r.Ok? && r.value < output.Length ==> finished && delivered == track.Heard(demuxer.calls, true)
      ensures r.Err? ==> delivered == old(delivered) && output[..] == old(output[..])
      ensures r.Err? ==> !finished && demuxer.calls > 0 && Some(r.error) == track.Verdict(demuxer.calls)
      ensures track.SettlesFirst(old(demuxer.calls), demuxer.calls, |old(delivered)| + output.Length)
      ensures old(finished) ==> finished && r.Ok? && demuxer.calls == old(demuxer.calls)
      ensures output.Length == 0 ==> r == Ok(0) && finished == old(finished) && demuxer.calls == old(demuxer.calls)
    {
      ghost var needed := |delivered| + output.Length;
      Bounded(demuxer);
      NothingSettles(track, demuxer.calls, needed);
      if HasReady(needed) {
        Answers(demuxer, demuxer.calls, needed);
      }
      if |ready| - readOffset < output.Length {
        ghost var fitting;
        var failure;
        failure, fitting := Fill(demuxer, output.Length, point);
        if failure.Some? {
          return Err(failure.value);
        }
      }
      var taken := Deliver(demuxer, output);
      return Ok(taken);
    }
  }

  /** What a decoder that has finished has counted, made and judged. */
  lemma RunCounts(decoder: Decoder, demuxer: Demuxer)
    requires decoder.Valid(demuxer) && decoder.finished
    ensures decoder.readOffset <= |decoder.ready|
    ensures |decoder.delivered + decoder.ready[decoder.readOffset..]|
         == Resample.ExpectedFrames(decoder.decodedFrames, decoder.track.sampleRate)
    ensures var limit := decoder.track.frameLimit;
      && (limit.Some? ==> decoder.decodedFrames <= limit.value)
      && (decoder.endedEarly <==> limit.Some? && decoder.decodedFrames < limit.value)
  {
    decoder.ValidShown(demuxer);
    decoder.StandsShown(demuxer.calls);
    WholeLength(decoder.track, demuxer.calls);
    if decoder.track.frameLimit.Some? {
      MixedWithinLimit(decoder.track, decoder.track.Packets(demuxer.calls));
    }
  }

  /** The packets that are told as skipped are the track's bad ones. */
  lemma SkippedAreBad(decoder: Decoder, demuxer: Demuxer)
    requires decoder.Valid(demuxer)
    ensures demuxer.skippedPackets == decoder.track.BadBefore(demuxer.calls)
  {
    decoder.ValidShown(demuxer);
    SkippedShown(decoder.track, demuxer.skippedPackets, demuxer.calls);
  }

  /** What a decoder has given and holds is the beginning of the whole stream, and all of it once it has finished. */
  lemma ReadsAreTheWhole(decoder: Decoder, demuxer: Demuxer, last: nat)
    requires decoder.Valid(demuxer) && decoder.track.OverAt(last)
    ensures demuxer.calls <= last && decoder.readOffset <= |decoder.ready|
    ensures
      var heard := decoder.delivered + decoder.ready[decoder.readOffset..];
      var whole := decoder.track.Heard(last, true);
      heard <= whole && (decoder.finished ==> heard == whole)
  {
    decoder.Standing(demuxer);
    if decoder.finished {
      OverOnce(decoder.track, demuxer.calls, last);
    } else {
      HeardStartsWhole(decoder.track, demuxer.calls, last);
    }
  }
}
