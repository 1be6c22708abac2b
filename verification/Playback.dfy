/** A stream and the decode pipeline in its worker, together: what a caller has had of a track by the end. */
module Playback {
  import opened Basics
  import opened Decode
  import opened Demux
  import opened Players
  import opened Programs
  import Resample
  import Sessions
  import Streams
  import StreamSessions

  // Tracks known in part

  /** The reader of so many answers. */
  function ReaderOf(events: seq<ReaderEvent>): Reader {
    (k: nat) => if k < |events| then events[k] else Failure
  }

  predicate AgreeBelow(a: Reader, b: Reader, calls: nat) {
    forall k: nat | k < calls :: a(k) == b(k)
  }

  ghost predicate SameButReader(a: Track, b: Track) {
    a == b.(reader := a.reader)
  }

  lemma {:induction false} SamePackets(a: Reader, b: Reader, trackId: nat, calls: nat)
    requires AgreeBelow(a, b, calls)
    ensures OwnPackets(a, trackId, calls) == OwnPackets(b, trackId, calls)
    decreases calls
  {
    if calls > 0 {
      SamePackets(a, b, trackId, calls - 1);
    }
  }

  /** What is known of a track by some answers depends on those alone. */
  lemma SameSoFar(a: Track, b: Track, calls: nat)
    requires SameButReader(a, b) && AgreeBelow(a.reader, b.reader, calls)
    ensures a.Packets(calls) == b.Packets(calls) && a.Mixed(calls) == b.Mixed(calls)
    ensures a.Over(calls) == b.Over(calls) && a.EndSeen(calls) == b.EndSeen(calls)
    ensures a.Fails(calls) == b.Fails(calls)
    ensures calls > 0 ==> a.Verdict(calls) == b.Verdict(calls)
    ensures forall finished :: a.Heard(calls, finished) == b.Heard(calls, finished)
  {
    forall k: nat | k < calls ensures a.CountOf(k) == b.CountOf(k) {
      SamePackets(a.reader, b.reader, a.trackId, k + 1);
    }
    SamePackets(a.reader, b.reader, a.trackId, calls);
    SameMixed(a, b, a.Packets(calls));
    assert a.Counts(calls) == b.Counts(calls);
    if calls > 0 {
      a.VerdictShown(calls);
      b.VerdictShown(calls);
    }
    forall finished ensures a.Heard(calls, finished) == b.Heard(calls, finished) {
      a.HeardShown(a.Mixed(calls), finished);
      b.HeardShown(a.Mixed(calls), finished);
    }
  }

  lemma {:induction false} SameMixed(a: Track, b: Track, packets: seq<Packet>)
    requires SameButReader(a, b)
    ensures a.MixedPackets(packets) == b.MixedPackets(packets)
  {
    if packets != [] {
      SameMixed(a, b, packets[..|packets| - 1]);
    }
  }

  // Samples

  /** What a container says of a track to decode. */
  datatype Header = Header(trackId: nat, codec: Codec, sampleRate: Resample.Positive, frameLimit: Option<nat>,
                           fft: Option<Resample.Fft>)
  {
    function TrackOf(reader: Reader): Track {
      Track(reader, trackId, codec, sampleRate, frameLimit, fft)
    }
  }

  /** A frame as it is handed out: two samples of four bytes. */
  type Wire = Frame -> seq<Byte>

  ghost predicate EightBytes(wire: Wire) {
    forall frame :: |wire(frame)| == 8
  }

  function Written(wire: Wire, frames: seq<Frame>): seq<Byte> {
    if frames == [] then [] else wire(frames[0]) + Written(wire, frames[1..])
  }

  function WrittenBlocks(wire: Wire, blocks: seq<seq<Frame>>): (written: seq<Block>)
    ensures |written| == |blocks|
  {
    seq(|blocks|, i requires 0 <= i < |blocks| => Written(wire, blocks[i]))
  }

  lemma {:induction false} WrittenJoins(wire: Wire, a: seq<Frame>, b: seq<Frame>)
    ensures Written(wire, a + b) == Written(wire, a) + Written(wire, b)
  {
    if a == [] {
      assert a + b == b;
    } else {
      assert (a + b)[1..] == a[1..] + b;
      WrittenJoins(wire, a[1..], b);
    }
  }

  lemma {:induction false} WrittenLength(wire: Wire, frames: seq<Frame>)
    requires EightBytes(wire)
    ensures |Written(wire, frames)| == 8 * |frames|
  {
    if frames != [] {
      WrittenLength(wire, frames[1..]);
    }
  }

  /** Frame i is written at byte 8 * i. */
  lemma {:induction false} WrittenAt(wire: Wire, frames: seq<Frame>, i: nat)
    requires EightBytes(wire) && i < |frames|
    ensures 8 * i + 8 <= |Written(wire, frames)| && Written(wire, frames)[8 * i..8 * i + 8] == wire(frames[i])
    decreases i
  {
    WrittenLength(wire, frames);
    if i > 0 {
      WrittenAt(wire, frames[1..], i - 1);
    }
  }

  lemma {:induction false} WrittenFlat(wire: Wire, blocks: seq<seq<Frame>>)
    ensures Flat(WrittenBlocks(wire, blocks)) == Written(wire, Flat(blocks))
  {
    if blocks != [] {
      assert WrittenBlocks(wire, blocks)[1..] == WrittenBlocks(wire, blocks[1..]);
      WrittenFlat(wire, blocks[1..]);
      WrittenJoins(wire, blocks[0], Flat(blocks[1..]));
    }
  }

  ghost function Available(track: Track, calls: nat): seq<Frame> {
    track.Heard(calls, track.Over(calls))
  }

  /**
    * What a session comes to for the n-th time with so many answers: the next 4800 frames, or what is left, or the end,
    * or the failure of the last answer. Without any of those it goes on.
    */
  ghost function PcmOutcome(track: Track, wire: Wire, n: nat, calls: nat): Option<Outcome> {
    if track.Over(calls) || |track.Heard(calls, false)| >= 4800 * n + 4800 then
      if |Available(track, calls)| > 4800 * n then Some(Made(Written(wire, Sessions.Piece(Available(track, calls), n))))
      else Some(NoMore)
    else if track.Fails(calls) then Some(Failing(track.Verdict(calls).value))
    else None
  }

  /** It comes to something exactly where a read of that block has an answer. */
  lemma PcmSettles(track: Track, wire: Wire, n: nat, calls: nat)
    ensures PcmOutcome(track, wire, n, calls).Some? <==> track.Settles(0, calls, 4800 * n + 4800)
  {
    SettlesShown(track, 0, calls, 4800 * n + 4800);
  }

  ghost function PcmCourse(wire: Wire): Course<Header> {
    (header: Header, events: seq<ReaderEvent>, n: nat) =>
      PcmOutcome(header.TrackOf(ReaderOf(events)), wire, n, |events|)
  }

  ghost predicate PcmDecides(track: Track, wire: Wire, n: nat, calls: nat) {
    PcmOutcome(track, wire, n, calls).Some? && forall b: nat | b < calls :: PcmOutcome(track, wire, n, b).None?
  }

  lemma PcmCourseIs(media: Media<Header>, wire: Wire, header: Header, bytes: seq<Byte>, n: nat, calls: nat)
    ensures PcmCourse(wire)(header, media.Events(bytes, true, calls), n)
         == PcmOutcome(header.TrackOf(media.Reader(bytes)), wire, n, calls)
  {
    var events := media.Events(bytes, true, calls);
    SameSoFar(header.TrackOf(ReaderOf(events)), header.TrackOf(media.Reader(bytes)), calls);
  }

  lemma PcmDecided(media: Media<Header>, wire: Wire, header: Header, bytes: seq<Byte>, n: nat, outcome: Outcome)
    requires media.Valid()
    ensures var track := header.TrackOf(media.Reader(bytes));
      Decided(media, PcmCourse(wire), header, bytes, n, outcome) <==>
        exists calls :: PcmDecides(track, wire, n, calls) && PcmOutcome(track, wire, n, calls) == Some(outcome)
  {
    var track := header.TrackOf(media.Reader(bytes));
    forall calls: nat
      ensures PcmCourse(wire)(header, media.Events(bytes, true, calls), n) == PcmOutcome(track, wire, n, calls)
    {
      PcmCourseIs(media, wire, header, bytes, n, calls);
    }
    forall calls: nat ensures media.Known(bytes, true, calls) {
      forall k: nat | k < calls ensures media.answer(bytes, true, k).Says? {
        media.EndSettles(bytes, k);
      }
    }
    forall calls: nat
      ensures Decides(media, PcmCourse(wire), header, bytes, true, n, calls) <==> PcmDecides(track, wire, n, calls)
    {}
  }

  lemma PieceStays(first: seq<Frame>, whole: seq<Frame>, n: nat)
    requires first <= whole && |first| >= 4800 * n + 4800
    ensures Sessions.Piece(first, n) == Sessions.Piece(whole, n)
  {}

  /** A block that is made is the n-th of the whole. */
  lemma PieceIsOfWhole(track: Track, wire: Wire, last: nat, n: nat, calls: nat)
    requires track.Valid() && track.OverAt(last) && PcmDecides(track, wire, n, calls)
    requires PcmOutcome(track, wire, n, calls).value.Made?
    ensures var whole := track.Heard(last, true);
      && 4800 * n < |whole|
      && PcmOutcome(track, wire, n, calls) == Some(Made(Written(wire, Sessions.Piece(whole, n))))
  {
    assert PcmOutcome(track, wire, n, last).Some?;
    if track.Over(calls) {
      assert calls == last;
    } else {
      HeardStartsWhole(track, calls, last);
      PieceStays(track.Heard(calls, false), track.Heard(last, true), n);
    }
  }

  /** Where there are no more, the stream is over. */
  lemma NoMoreIsOver(track: Track, wire: Wire, n: nat, calls: nat)
    requires PcmDecides(track, wire, n, calls) && PcmOutcome(track, wire, n, calls) == Some(NoMore)
    ensures track.OverAt(calls) && |track.Heard(calls, true)| <= 4800 * n
  {
    forall b: nat | b < calls ensures !track.Over(b) {
      assert PcmOutcome(track, wire, n, b).None?;
    }
  }

  /** The answers up to there hold nothing that fails. */
  ghost predicate Clean(track: Track, last: nat) {
    forall b: nat | b < last :: !track.Fails(b)
  }

  lemma CleanDecides(track: Track, wire: Wire, last: nat, n: nat, top: nat) returns (calls: nat)
    requires track.OverAt(last) && Clean(track, last) && top <= last && PcmOutcome(track, wire, n, top).Some?
    ensures PcmDecides(track, wire, n, calls) && !PcmOutcome(track, wire, n, calls).value.Failing?
    decreases top
  {
    if b: nat :| b < top && PcmOutcome(track, wire, n, b).Some? {
      calls := CleanDecides(track, wire, last, n, b);
    } else {
      calls := top;
    }
  }

  ghost function TrackIn(media: Media<Header>, bytes: seq<Byte>): Track
    requires media.probe(bytes, true).Says? && media.probe(bytes, true).value.Ok?
  {
    media.probe(bytes, true).value.value.TrackOf(media.Reader(bytes))
  }

  ghost predicate HasTrack(media: Media<Header>, bytes: seq<Byte>) {
    media.probe(bytes, true).Says? && media.probe(bytes, true).value.Ok?
  }

  /** A session that plays to the end has made the whole track, cut into blocks. */
  lemma PlayedOutIsWhole(media: Media<Header>, wire: Wire, bytes: seq<Byte>, blocks: seq<Block>) returns (last: nat)
    requires media.Valid() && PlaysOut(media, PcmCourse(wire), bytes, blocks) && TrackIn(media, bytes).Valid()
    ensures TrackIn(media, bytes).OverAt(last) && Clean(TrackIn(media, bytes), last)
    ensures blocks == WrittenBlocks(wire, Sessions.Cut(TrackIn(media, bytes).Heard(last, true)))
  {
    var header, track := media.probe(bytes, true).value.value, TrackIn(media, bytes);
    PcmDecided(media, wire, header, bytes, |blocks|, NoMore);
    var end: nat :|
      PcmDecides(track, wire, |blocks|, end) && PcmOutcome(track, wire, |blocks|, end) == Some(NoMore);
    last := end;
    NoMoreIsOver(track, wire, |blocks|, last);
    forall b: nat | b < last ensures !track.Fails(b) {
      assert PcmOutcome(track, wire, |blocks|, b).None?;
    }
    var whole := track.Heard(last, true);
    forall i: nat | i < |blocks|
      ensures 4800 * i < |whole| && blocks[i] == Written(wire, Sessions.Piece(whole, i))
    {
      assert Decided(media, PcmCourse(wire), header, bytes, i, Made(blocks[i]));
      PcmDecided(media, wire, header, bytes, i, Made(blocks[i]));
      var calls: nat :|
        PcmDecides(track, wire, i, calls) && PcmOutcome(track, wire, i, calls) == Some(Made(blocks[i]));
      PieceIsOfWhole(track, wire, last, i, calls);
    }
    if |blocks| > 0 {
      assert 4800 * (|blocks| - 1) < |whole|;
    }
    assert |blocks| == Sessions.BlockCount(|whole|);
  }

  /** A track that is over at some point, with nothing that fails before, is played to the end. */
  lemma WholeIsPlayedOut(media: Media<Header>, wire: Wire, bytes: seq<Byte>, last: nat)
    requires media.Valid() && HasTrack(media, bytes) && TrackIn(media, bytes).Valid()
    requires TrackIn(media, bytes).OverAt(last) && Clean(TrackIn(media, bytes), last)
    ensures PlaysOut(media, PcmCourse(wire), bytes,
      WrittenBlocks(wire, Sessions.Cut(TrackIn(media, bytes).Heard(last, true))))
  {
    var header, track := media.probe(bytes, true).value.value, TrackIn(media, bytes);
    var whole := track.Heard(last, true);
    var blocks := WrittenBlocks(wire, Sessions.Cut(whole));
    forall i: nat | i < |blocks| ensures Decided(media, PcmCourse(wire), header, bytes, i, Made(blocks[i])) {
      var calls := CleanDecides(track, wire, last, i, last);
      if PcmOutcome(track, wire, i, calls) == Some(NoMore) {
        NoMoreIsOver(track, wire, i, calls);
        OverOnce(track, calls, last);
      } else {
        PieceIsOfWhole(track, wire, last, i, calls);
      }
      PcmDecided(media, wire, header, bytes, i, Made(blocks[i]));
    }
    var n := |blocks|;
    var calls := CleanDecides(track, wire, last, n, last);
    if PcmOutcome(track, wire, n, calls).value.Made? {
      PieceIsOfWhole(track, wire, last, n, calls);
    }
    PcmDecided(media, wire, header, bytes, n, NoMore);
  }

  /** Every block is full but for the last, which has something in it. */
  predicate InFullBlocks(blocks: seq<Block>) {
    forall i | 0 <= i < |blocks| ::
      && 0 < |blocks[i]| <= Sessions.BLOCK_FRAMES * BYTES_PER_FRAME
      && (i + 1 < |blocks| ==> |blocks[i]| == Sessions.BLOCK_FRAMES * BYTES_PER_FRAME)
  }

  lemma WrittenFull(wire: Wire, whole: seq<Frame>)
    requires EightBytes(wire)
    ensures InFullBlocks(WrittenBlocks(wire, Sessions.Cut(whole)))
    ensures Flat(WrittenBlocks(wire, Sessions.Cut(whole))) == Written(wire, whole)
  {
    Sessions.CutIsWhole(whole);
    WrittenFlat(wire, Sessions.Cut(whole));
    forall block <- Sessions.Cut(whole) ensures |Written(wire, block)| == 8 * |block| {
      WrittenLength(wire, block);
    }
  }

  /**
    * By the end, however the bytes were queued, the frames read and the two sides scheduled, the caller has had every
    * frame of the whole track once and in order, eight bytes each: the fewest that last at 48 kHz as long as the
    * frames that were mixed, from full blocks but for the last.
    */
  lemma EndToEnd(stream: StreamSessions.StreamSession, media: Media<Header>, wire: Wire) returns (last: nat)
    requires stream.Valid() && stream.WholeHandedOut() && !stream.program.isOpus
    requires media.Valid() && EightBytes(wire) && IsPlayer(stream.program, media, PcmCourse(wire))
    requires HasTrack(media, stream.sys.pushed) ==> TrackIn(media, stream.sys.pushed).Valid()
    ensures HasTrack(media, stream.sys.pushed)
    ensures var track := TrackIn(media, stream.sys.pushed);
      track.OverAt(last) && Clean(track, last)
    ensures
      var track := TrackIn(media, stream.sys.pushed);
      var whole, frames := track.Heard(last, true), |track.Mixed(last)|;
      && stream.handed == Written(wire, whole) && |stream.handed| == 8 * |whole|
      && (forall i | 0 <= i < |whole| :: stream.handed[8 * i..8 * i + 8] == wire(whole[i]))
      && |whole| * track.sampleRate >= frames * 48000
      && (whole != [] ==> (|whole| - 1) * track.sampleRate < frames * 48000)
    ensures InFullBlocks(stream.sys.taken)
  {
    var bytes, blocks := stream.sys.pushed, stream.sys.taken;
    YieldsOnlySound(stream.program, bytes, blocks);
    YieldsWhatIsDecided(stream.program, media, PcmCourse(wire), bytes, blocks);
    last := PlayedOutIsWhole(media, wire, bytes, blocks);
    var whole := TrackIn(media, bytes).Heard(last, true);
    WrittenFull(wire, whole);
    WrittenLength(wire, whole);
    WholeLength(TrackIn(media, bytes), last);
    forall i | 0 <= i < |whole| ensures Written(wire, whole)[8 * i..8 * i + 8] == wire(whole[i]) {
      WrittenAt(wire, whole, i);
    }
  }

  /** The other way round: one session on those bytes comes to the end of that track, and makes all of it. */
  lemma TrackIsPlayed(program: Program, media: Media<Header>, wire: Wire, bytes: seq<Byte>, last: nat)
    requires media.Valid() && EightBytes(wire) && IsPlayer(program, media, PcmCourse(wire))
    requires HasTrack(media, bytes) && TrackIn(media, bytes).Valid()
    requires TrackIn(media, bytes).OverAt(last) && Clean(TrackIn(media, bytes), last)
    ensures Yields(program, bytes, WrittenBlocks(wire, Sessions.Cut(TrackIn(media, bytes).Heard(last, true))))
  {
    var whole := TrackIn(media, bytes).Heard(last, true);
    var frames := Sessions.Cut(whole);
    var blocks := WrittenBlocks(wire, frames);
    Sessions.CutIsWhole(whole);
    forall i | 0 <= i < |blocks| ensures program.Sound(blocks[i]) {
      WrittenLength(wire, frames[i]);
    }
    WholeIsPlayedOut(media, wire, bytes, last);
    YieldsWhatIsDecided(program, media, PcmCourse(wire), bytes, blocks);
  }

  /**
    * And it comes to the end: where the input is closed on the bytes of such a track, a caller that takes a block
    * whenever the worker cannot go on finds, after so many turns, that the stream has ended with all of it sent.
    */
  lemma TrackComesThrough(program: Program, media: Media<Header>, wire: Wire, s: Streams.System, last: nat)
    returns (turns: nat)
    requires media.Valid() && EightBytes(wire) && IsPlayer(program, media, PcmCourse(wire))
    requires Streams.Inv(program, s) && s.outputRead && !s.inputOpen && !s.status.stopped
    requires HasTrack(media, s.pushed) && TrackIn(media, s.pushed).Valid()
    requires TrackIn(media, s.pushed).OverAt(last) && Clean(TrackIn(media, s.pushed), last)
    ensures forall later: nat | later >= turns ::
      var end := Streams.Served(program, s, later);
      && end.status.Observed() == Ended
      && end.sent == WrittenBlocks(wire, Sessions.Cut(TrackIn(media, s.pushed).Heard(last, true)))
  {
    var blocks := WrittenBlocks(wire, Sessions.Cut(TrackIn(media, s.pushed).Heard(last, true)));
    TrackIsPlayed(program, media, wire, s.pushed, last);
    var n: nat :| RunSteps(program, s.pushed, n).Over? && RunSteps(program, s.pushed, n).at.blocks == blocks;
    turns := 16 * n + 4 * |s.input| + 11;
    forall later: nat | later >= turns
      ensures Streams.Served(program, s, later).status.Observed() == Ended
      ensures Streams.Served(program, s, later).sent == blocks
    {
      Streams.ServedComesToTheEnd(program, s, n, later);
    }
  }

  /**
    * A session that fails on a track has made every block that the frames up to there fill, and nothing of the rest,
    * and fails for the reason of the first answer that does.
    */
  lemma FailsAfterFullBlocks(program: Program, media: Media<Header>, wire: Wire, bytes: seq<Byte>, blocks: seq<Block>,
                             error: Error) returns (calls: nat)
    requires media.Valid() && IsPlayer(program, media, PcmCourse(wire)) && HasTrack(media, bytes)
    requires FailsWith(program, bytes, blocks, error) && error != Panicked
    ensures var track := TrackIn(media, bytes);
      && calls > 0 && track.Verdict(calls) == Some(error) && !track.Over(calls)
      && (forall b: nat | b < calls :: !track.Over(b) && !track.Fails(b))
      && |blocks| == |track.Heard(calls, false)| / 4800
      && forall i | 0 <= i < |blocks| ::
           blocks[i] == Written(wire, track.Heard(calls, false)[4800 * i..4800 * i + 4800])
  {
    var header, track, n := media.probe(bytes, true).value.value, TrackIn(media, bytes), |blocks|;
    FailsAsDecided(program, media, PcmCourse(wire), bytes, blocks, error);
    PcmDecided(media, wire, header, bytes, n, Failing(error));
    var end: nat :| PcmDecides(track, wire, n, end) && PcmOutcome(track, wire, n, end) == Some(Failing(error));
    calls := end;
    forall b: nat | b < calls ensures !track.Over(b) && !track.Fails(b) {
      assert PcmOutcome(track, wire, n, b).None?;
    }
    forall i: nat | i < n
      ensures |track.Heard(calls, false)| >= 4800 * i + 4800
      ensures blocks[i] == Written(wire, track.Heard(calls, false)[4800 * i..4800 * i + 4800])
    {
      assert Decided(media, PcmCourse(wire), header, bytes, i, Made(blocks[i]));
      PcmDecided(media, wire, header, bytes, i, Made(blocks[i]));
      var c: nat :| PcmDecides(track, wire, i, c) && PcmOutcome(track, wire, i, c) == Some(Made(blocks[i]));
      MadeBeforeFailure(track, wire, i, c, calls);
    }
    assert n > 0 ==> |track.Heard(calls, false)| >= 4800 * (n - 1) + 4800;
    assert |track.Heard(calls, false)| < 4800 * n + 4800;
  }

  lemma MadeBeforeFailure(track: Track, wire: Wire, i: nat, c: nat, calls: nat)
    requires PcmDecides(track, wire, i, c) && PcmOutcome(track, wire, i, c).value.Made?
    requires !track.Over(calls) && track.Fails(calls) && forall b: nat | b < calls :: !track.Over(b) && !track.Fails(b)
    ensures |track.Heard(calls, false)| >= 4800 * i + 4800
    ensures PcmOutcome(track, wire, i, c)
         == Some(Made(Written(wire, track.Heard(calls, false)[4800 * i..4800 * i + 4800])))
  {
    assert PcmOutcome(track, wire, i, calls).Some?;
    HeardGrows(track, c, calls);
    assert !track.Over(c);
    PieceStays(track.Heard(c, false), track.Heard(calls, false), i);
    assert Sessions.Piece(track.Heard(calls, false), i) == track.Heard(calls, false)[4800 * i..4800 * i + 4800];
  }

  // Packets

  function PacketData(packets: seq<Packet>): seq<Block> {
    seq(|packets|, i requires 0 <= i < |packets| => packets[i].data)
  }

  /** What a session that passes packets through comes to for the n-th time with so many answers. */
  ghost function OpusOutcome(track: Track, n: nat, calls: nat): Option<Outcome> {
    if |Sessions.Packets(track, calls)| > n then Some(Made(Sessions.Packets(track, calls)[n].data))
    else if track.EndSeen(calls) then Some(NoMore)
    else if track.Fails(calls) then Some(Failing(track.Verdict(calls).value))
    else None
  }

  /** The container tells which track is to be passed through. */
  ghost function OpusCourse(): Course<nat> {
    (trackId: nat, events: seq<ReaderEvent>, n: nat) =>
      OpusOutcome(Sessions.OpusTrack(ReaderOf(events), trackId), n, |events|)
  }

  ghost predicate OpusDecides(track: Track, n: nat, calls: nat) {
    OpusOutcome(track, n, calls).Some? && forall b: nat | b < calls :: OpusOutcome(track, n, b).None?
  }

  lemma OpusDecided(media: Media<nat>, trackId: nat, bytes: seq<Byte>, n: nat, outcome: Outcome)
    requires media.Valid()
    ensures var track := Sessions.OpusTrack(media.Reader(bytes), trackId);
      Decided(media, OpusCourse(), trackId, bytes, n, outcome) <==>
        exists calls :: OpusDecides(track, n, calls) && OpusOutcome(track, n, calls) == Some(outcome)
  {
    var track := Sessions.OpusTrack(media.Reader(bytes), trackId);
    forall calls: nat
      ensures OpusCourse()(trackId, media.Events(bytes, true, calls), n) == OpusOutcome(track, n, calls)
    {
      SameSoFar(Sessions.OpusTrack(ReaderOf(media.Events(bytes, true, calls)), trackId), track, calls);
    }
    forall calls: nat ensures media.Known(bytes, true, calls) {
      forall k: nat | k < calls ensures media.answer(bytes, true, k).Says? {
        media.EndSettles(bytes, k);
      }
    }
    forall calls: nat
      ensures Decides(media, OpusCourse(), trackId, bytes, true, n, calls) <==> OpusDecides(track, n, calls)
    {}
  }

  lemma {:induction false} NonEmptyGrows(some: seq<Packet>, all: seq<Packet>)
    requires some <= all
    ensures Sessions.NonEmpty(some) <= Sessions.NonEmpty(all)
    decreases |all|
  {
    if some < all {
      NonEmptyGrows(some, all[..|all| - 1]);
    } else {
      assert some == all;
    }
  }

  lemma OpusPacketIs(track: Track, last: nat, n: nat, calls: nat)
    requires track.EndSeen(last) && OpusDecides(track, n, calls) && OpusOutcome(track, n, calls).value.Made?
    ensures n < |Sessions.Packets(track, last)|
    ensures OpusOutcome(track, n, calls) == Some(Made(Sessions.Packets(track, last)[n].data))
  {
    assert OpusOutcome(track, n, last).Some?;
    OwnPacketsGrow(track.reader, track.trackId, calls, last);
    NonEmptyGrows(track.Packets(calls), track.Packets(last));
  }

  ghost function OpusTrackIn(media: Media<nat>, bytes: seq<Byte>): Track
    requires media.probe(bytes, true).Says? && media.probe(bytes, true).value.Ok?
  {
    Sessions.OpusTrack(media.Reader(bytes), media.probe(bytes, true).value.value)
  }

  /** A session that plays packets to the end has passed on all of the track that have anything in them. */
  lemma OpusPlayedOut(media: Media<nat>, bytes: seq<Byte>, blocks: seq<Block>) returns (last: nat)
    requires media.Valid() && PlaysOut(media, OpusCourse(), bytes, blocks)
    ensures OpusTrackIn(media, bytes).OverAt(last)
    ensures blocks == PacketData(Sessions.Packets(OpusTrackIn(media, bytes), last))
  {
    var trackId, track := media.probe(bytes, true).value.value, OpusTrackIn(media, bytes);
    OpusDecided(media, trackId, bytes, |blocks|, NoMore);
    var end: nat :| OpusDecides(track, |blocks|, end) && OpusOutcome(track, |blocks|, end) == Some(NoMore);
    last := end;
    forall b: nat | b < last ensures !track.Over(b) {
      assert OpusOutcome(track, |blocks|, b).None?;
    }
    var packets := Sessions.Packets(track, last);
    forall i: nat | i < |blocks| ensures i < |packets| && blocks[i] == packets[i].data {
      assert Decided(media, OpusCourse(), trackId, bytes, i, Made(blocks[i]));
      OpusDecided(media, trackId, bytes, i, Made(blocks[i]));
      var calls: nat :| OpusDecides(track, i, calls) && OpusOutcome(track, i, calls) == Some(Made(blocks[i]));
      OpusPacketIs(track, last, i, calls);
    }
    if |blocks| > 0 {
      var final := blocks[|blocks| - 1];
      assert |blocks| - 1 < |packets|;
    }
  }

  /**
    * By the end of a stream of packets, the caller has had every packet of the track that has anything in it, once and
    * in order.
    */
  lemma EndToEndOpus(stream: StreamSessions.StreamSession, media: Media<nat>) returns (last: nat)
    requires stream.Valid() && stream.WholeHandedOut() && stream.program.isOpus
    requires media.Valid() && IsPlayer(stream.program, media, OpusCourse())
    ensures media.probe(stream.sys.pushed, true).Says? && media.probe(stream.sys.pushed, true).value.Ok?
    ensures OpusTrackIn(media, stream.sys.pushed).OverAt(last)
    ensures stream.packets == PacketData(Sessions.Packets(OpusTrackIn(media, stream.sys.pushed), last))
  {
    var bytes, blocks := stream.sys.pushed, stream.sys.taken;
    YieldsOnlySound(stream.program, bytes, blocks);
    YieldsWhatIsDecided(stream.program, media, OpusCourse(), bytes, blocks);
    last := OpusPlayedOut(media, bytes, blocks);
  }
}
