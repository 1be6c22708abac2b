/** An open track: its frames, or its Opus packets as they are. */
module Sessions {
  import opened Basics
  import opened Demux
  import opened Decode
  import Mix

  const BLOCK_FRAMES: nat := 4800

  /** The packets that have anything in them. */
  function NonEmpty(packets: seq<Packet>): seq<Packet> {
    if packets == [] then []
    else
      var last := packets[|packets| - 1];
      NonEmpty(packets[..|packets| - 1]) + if last.data == [] then [] else [last]
  }

  lemma NonEmptyStep(packets: seq<Packet>, packet: Packet)
    ensures NonEmpty(packets + [packet]) == NonEmpty(packets) + if packet.data == [] then [] else [packet]
  {}

  lemma NonEmptyOne(packet: Packet)
    ensures NonEmpty([packet]) == if packet.data == [] then [] else [packet]
  {}

  function Offered(pending: Option<Packet>): seq<Packet> {
    if pending.Some? then [pending.value] else []
  }

  // Opus: packets as they are

  /** Packets that are passed through count like decoded ones, unless there is nothing in them. */
  function PassThrough(packets: seq<Packet>): Decoded {
    if packets != [] && packets[|packets| - 1].data == [] then BadPacket
    else Audio(Buffer(48000, Mix.Unplaced, [], 0, 0))
  }

  /** A track to pass through, by the same rules as one to decode. */
  function OpusTrack(reader: Reader, trackId: nat): Track {
    Track(reader, trackId, PassThrough, 48000, None, None)
  }

  function Packets(track: Track, calls: nat): seq<Packet> {
    NonEmpty(track.Packets(calls))
  }

  /** Between two points of a track to pass through, nothing is seen but packets to pass over. */
  ghost predicate OnlyPassedOver(track: Track, calls: nat, later: nat) {
    forall b: nat | calls < b < later ::
      !track.EndSeen(b) && !track.Fails(b) && Packets(track, b) == Packets(track, calls)
  }

  lemma OthersPassedOver(reader: Reader, trackId: nat, calls: nat, n: nat)
    requires var track := OpusTrack(reader, trackId); Passes(reader, trackId, calls, track.SkipRun(calls), n)
    ensures OnlyPassedOver(OpusTrack(reader, trackId), calls, calls + n + 1)
  {
    var track := OpusTrack(reader, trackId);
    forall b: nat | calls < b <= calls + n
      ensures !track.EndSeen(b) && !track.Fails(b) && Packets(track, b) == Packets(track, calls)
    {
      OthersChangeRunOnly(track, calls, b - calls);
    }
  }

  /** The last answer was one of the track's packets. */
  lemma OwnPacketMeans(track: Track, before: seq<Packet>, later: nat, packet: Packet)
    requires track.codec == PassThrough && track.sampleRate == 48000 && later > 0
    requires track.reader(later - 1) == Got(packet) && packet.trackId == track.trackId
    requires track.Packets(later) == before + [packet]
    ensures var run := track.SkipRun(later - 1);
      && Packets(track, later) == NonEmpty(before) + (if packet.data == [] then [] else [packet])
      && track.SkipRun(later) == (if packet.data == [] then run + 1 else 0)
      && (track.Verdict(later) ==
          if packet.data == [] && run >= MAX_CONSECUTIVE_SKIPS then Some(TooManySkips) else None)
  {
    NonEmptyStep(before, packet);
    SkipRunStep(track, later - 1);
    track.VerdictShown(later);
  }

  lemma OwnPacketIs(reader: Reader, trackId: nat, calls: nat, n: nat)
    requires var track := OpusTrack(reader, trackId); Passes(reader, trackId, calls, track.SkipRun(calls), n)
    requires reader(calls + n).Own(trackId)
    ensures var track, packet := OpusTrack(reader, trackId), reader(calls + n).packet;
      var later, run := calls + n + 1, track.SkipRun(calls) + n;
      && Packets(track, later) == Packets(track, calls) + (if packet.data == [] then [] else [packet])
      && track.SkipRun(later) == (if packet.data == [] then run + 1 else 0)
      && (track.Verdict(later) ==
          if packet.data == [] && run >= MAX_CONSECUTIVE_SKIPS then Some(TooManySkips) else None)
  {
    var track, packet := OpusTrack(reader, trackId), reader(calls + n).packet;
    FetchConserves(reader, trackId, calls, n);
    OthersChangeRunOnly(track, calls, n);
    OwnPacketMeans(track, track.Packets(calls), calls + n + 1, packet);
  }

  lemma OtherAnswerIs(reader: Reader, trackId: nat, calls: nat, n: nat)
    requires var track := OpusTrack(reader, trackId); Passes(reader, trackId, calls, track.SkipRun(calls), n)
    requires !reader(calls + n).Own(trackId)
    ensures Packets(OpusTrack(reader, trackId), calls + n + 1) == Packets(OpusTrack(reader, trackId), calls)
    ensures var track, event := OpusTrack(reader, trackId), reader(calls + n);
      && track.SkipRun(calls + n + 1) == track.SkipRun(calls) + n + (if event.Other(trackId) then 1 else 0)
      && track.Verdict(calls + n + 1) == if event.Other(trackId) then Some(TooManySkips)
         else match Answer(event)
           case Err(error) => Some(error)
           case Ok(_) => None
  {
    var track := OpusTrack(reader, trackId);
    FetchConserves(reader, trackId, calls, n);
    assert track.Packets(calls) + [] == track.Packets(calls);
    FetchMeans(track, calls, n);
  }

  /** What a fetch has given of the packets that have anything in them. */
  function Given(r: Fetched): seq<Packet> {
    if r.Ok? then NonEmpty(Offered(r.value)) else []
  }

  /** How a fetch has come out that asked the reader: by the last answer, after packets to pass over. */
  ghost predicate CameOut(track: Track, before: nat, calls: nat, skips: nat, r: Fetched) {
    && calls > before && OnlyPassedOver(track, before, calls)
    && Packets(track, calls) == Packets(track, before) + Given(r)
    && (r == Ok(None) <==> track.EndSeen(calls))
    && match r
       case Ok(Some(packet)) =>
         && track.SkipRun(calls) == (if packet.data == [] then skips + 1 else 0)
         && track.Verdict(calls)
            == if packet.data == [] && skips >= MAX_CONSECUTIVE_SKIPS then Some(TooManySkips) else None
       case Ok(None) => skips == track.SkipRun(calls) && !track.Fails(calls)
       case Err(error) =>
         skips == track.SkipRun(calls) && track.Verdict(calls) == Some(error) && !error.PacketTooLarge?
  }

  lemma FetchCameOut(reader: Reader, trackId: nat, calls: nat, n: nat, r: Fetched)
    requires var track := OpusTrack(reader, trackId); Passes(reader, trackId, calls, track.SkipRun(calls), n)
    requires r == if reader(calls + n).Other(trackId) then Err(TooManySkips) else Answer(reader(calls + n))
    ensures var track, event := OpusTrack(reader, trackId), reader(calls + n);
      CameOut(track, calls, calls + n + 1, track.SkipRun(calls) + n + (if event.Other(trackId) then 1 else 0), r)
  {
    OthersPassedOver(reader, trackId, calls, n);
    if reader(calls + n).Own(trackId) {
      OwnPacketIs(reader, trackId, calls, n);
      NonEmptyOne(reader(calls + n).packet);
    } else {
      OtherAnswerIs(reader, trackId, calls, n);
      assert Packets(OpusTrack(reader, trackId), calls) + [] == Packets(OpusTrack(reader, trackId), calls);
    }
  }

  function EmptyOnes(r: Fetched): nat {
    if r.Ok? && r.value.Some? && r.value.value.data == [] then 1 else 0
  }

  /** Of the packets that a fetch asks for, only its own can be a bad one, if there is nothing in it. */
  lemma FetchSkips(reader: Reader, trackId: nat, calls: nat, n: nat, count: nat, r: Fetched)
    requires var track := OpusTrack(reader, trackId); Passes(reader, trackId, calls, track.SkipRun(calls), n)
    requires r == if reader(calls + n).Other(trackId) then Err(TooManySkips) else Answer(reader(calls + n))
    requires OpusTrack(reader, trackId).HasSkipped(count, calls)
    ensures OpusTrack(reader, trackId).HasSkipped(count + EmptyOnes(r), calls + n + 1)
  {
    var track, event := OpusTrack(reader, trackId), reader(calls + n);
    OthersAreNotBad(track, count, calls, n);
    SkippedStep(track, count, calls + n);
    if event.Own(trackId) {
      assert track.Packets(calls + n + 1) == track.Packets(calls + n) + [event.packet];
    }
  }

  /** Both together. */
  lemma FetchIs(reader: Reader, trackId: nat, calls: nat, n: nat, count: nat, r: Fetched)
    requires var track := OpusTrack(reader, trackId); Passes(reader, trackId, calls, track.SkipRun(calls), n)
    requires r == if reader(calls + n).Other(trackId) then Err(TooManySkips) else Answer(reader(calls + n))
    requires OpusTrack(reader, trackId).HasSkipped(count, calls)
    ensures var track, event := OpusTrack(reader, trackId), reader(calls + n);
      CameOut(track, calls, calls + n + 1, track.SkipRun(calls) + n + (if event.Other(trackId) then 1 else 0), r)
    ensures OpusTrack(reader, trackId).HasSkipped(count + EmptyOnes(r), calls + n + 1)
  {
    FetchCameOut(reader, trackId, calls, n, r);
    FetchSkips(reader, trackId, calls, n, count, r);
  }

  ghost predicate Asked(demuxer: Demuxer, calls: nat, r: Fetched)
    reads demuxer
  {
    var track := OpusTrack(demuxer.reader, demuxer.trackId);
    && CameOut(track, calls, demuxer.calls, demuxer.consecutiveSkips, r)
    && track.HasSkipped(demuxer.skippedPackets + EmptyOnes(r), demuxer.calls)
  }

  lemma FetchAsked(demuxer: Demuxer, calls: nat, r: Fetched)
    requires demuxer.calls > calls
    requires demuxer.Passed(calls, OpusTrack(demuxer.reader, demuxer.trackId).SkipRun(calls), r)
    requires OpusTrack(demuxer.reader, demuxer.trackId).HasSkipped(demuxer.skippedPackets, calls)
    ensures Asked(demuxer, calls, r)
  {
    var reader, trackId, n := demuxer.reader, demuxer.trackId, demuxer.calls - calls - 1;
    FetchIs(reader, trackId, calls, n, demuxer.skippedPackets, r);
    assert calls + n + 1 == demuxer.calls;
  }

  lemma PassedOverOn(track: Track, a: nat, b: nat, c: nat)
    requires a < b < c && OnlyPassedOver(track, a, b) && OnlyPassedOver(track, b, c)
    requires !track.EndSeen(b) && !track.Fails(b) && Packets(track, b) == Packets(track, a)
    ensures OnlyPassedOver(track, a, c)
  {}

  /** What a read comes to with so many frames ready, of a stream that is over or that has enough of them. */
  predicate MayRead(rest: nat, over: bool, room: nat, frames: nat) {
    (rest >= room || over) && frames == Least(rest, room)
  }

  class Session {
    const demuxer: Demuxer
    /** Without one, the track is Opus and its packets are passed through. */
    const decoder: Decoder?
    var ended: bool
    var failure: Option<Error>

    /** The Opus packets the caller has had. */
    ghost var returned: seq<Packet>

    ghost predicate Valid()
      reads this, demuxer, decoder, if decoder == null then null else decoder.resampler
    {
      if decoder != null then decoder.Valid(demuxer) else PacketsKept()
    }

    /** Every packet of the track that has anything in it was returned in order, or is offered next. */
    ghost predicate PacketsKept()
      reads this`returned, this`ended, demuxer
    {
      && returned + Offered(demuxer.pending) == Packets(Opus(), demuxer.calls)
      && (demuxer.pending.Some? ==> demuxer.pending.value.data != [] && !demuxer.ended)
      && (demuxer.pending.None? ==> demuxer.consecutiveSkips == Opus().SkipRun(demuxer.calls))
      && (demuxer.pending.Some? ==> Opus().SkipRun(demuxer.calls) == 0)
      && (demuxer.ended <==> Opus().EndSeen(demuxer.calls))
      && (ended ==> demuxer.ended)
      && Opus().HasSkipped(demuxer.skippedPackets, demuxer.calls)
    }

    ghost function Opus(): Track {
      OpusTrack(demuxer.reader, demuxer.trackId)
    }

    constructor (demuxer: Demuxer, decoder: Decoder?)
      requires demuxer.calls == 0 && demuxer.pending == None && !demuxer.ended
      requires demuxer.consecutiveSkips == 0 && demuxer.skippedPackets == 0
      requires decoder != null ==> decoder.Valid(demuxer)
      ensures Valid() && this.demuxer == demuxer && this.decoder == decoder
      ensures GetState() == Open && !ended && failure == None && returned == []
    {
      this.demuxer, this.decoder := demuxer, decoder;
      ended, failure, returned := false, None, [];
    }

    function GetState(): State
      reads this
    {
      if failure.Some? then Failed else if ended then Ended else Open
    }

    /** The first failure stays. */
    method MarkFailed(error: Error)
      requires Valid()
      modifies this`failure
      ensures Valid() && GetState() == Failed
      ensures failure == if old(failure).Some? then old(failure) else Some(error)
    {
      if failure.None? {
        failure := Some(error);
      }
    }

    /**
      * The next piece of the frames. The end is told by a read that gets none: a read without room tells it too,
      * whether the stream is over or not.
      */
    method Read(output: array<Frame>, ghost point: nat) returns (r: Result<nat, Error>)
      requires Valid()
      requires decoder != null ==> decoder.track.Settles(demuxer.calls, point, |decoder.delivered| + output.Length)
      modifies this`ended, decoder, if decoder == null then null else decoder.resampler, output,
               demuxer`calls, demuxer`consecutiveSkips, demuxer`skippedPackets, demuxer`pending, demuxer`ended
      ensures Valid()
      ensures decoder == null ==> r == Err(OpusNeedsReadPacket) && unchanged(demuxer) && ended == old(ended)
      ensures r.Err? ==> output[..] == old(output[..]) && ended == old(ended)
      ensures r.Err? && decoder != null ==>
        !decoder.finished && demuxer.calls > 0 && Some(r.error) == decoder.track.Verdict(demuxer.calls)
      ensures r.Ok? ==> decoder != null && r.value <= output.Length && ended == (r.value == 0)
      ensures r.Ok? && failure == None ==> GetState() == if r.value > 0 then Open else Ended
      ensures r.Ok? ==> output[r.value..] == old(output[r.value..])
      ensures decoder != null ==> decoder.delivered == old(decoder.delivered) + if r.Ok? then output[..r.value] else []
      ensures r.Ok? && r.value < output.Length ==>
        decoder.finished && decoder.delivered == decoder.track.Heard(demuxer.calls, true)
      ensures r.Ok? ==>
        && decoder.readOffset <= |decoder.ready|
        && MayRead(r.value + |decoder.ready| - decoder.readOffset, decoder.finished, output.Length, r.value)
      ensures decoder != null && old(decoder.finished) ==>
        decoder.finished && r.Ok? && demuxer.calls == old(demuxer.calls)
      ensures decoder != null && output.Length == 0 ==>
        r == Ok(0) && ended && decoder.finished == old(decoder.finished) && demuxer.calls == old(demuxer.calls)
    {
      if decoder == null {
        return Err(OpusNeedsReadPacket);
      }
      r := decoder.Read(demuxer, output, point);
      decoder.Standing(demuxer);
      if r.Ok? {
        ended := r.value == 0;
      }
    }

    /** One fetch: what it gives is all there is to the packets it took. */
    method Fetch() returns (r: Fetched)
      requires Valid() && decoder == null
      modifies demuxer`calls, demuxer`consecutiveSkips, demuxer`pending, demuxer`ended
      ensures demuxer.pending == None && (ended ==> demuxer.ended)
      ensures returned + Given(r) == Packets(Opus(), demuxer.calls)
      ensures r.Err? ==> !r.error.PacketTooLarge?
      ensures demuxer.ended <==> r == Ok(None)
      ensures demuxer.ended <==> Opus().EndSeen(demuxer.calls)
      ensures old(demuxer.pending).Some? ==> r == Ok(old(demuxer.pending)) && Opus().SkipRun(demuxer.calls) == 0
      ensures old(demuxer.pending).Some? || old(demuxer.ended) ==> demuxer.calls == old(demuxer.calls)
      ensures old(demuxer.ended) ==> r == Ok(None) && demuxer.consecutiveSkips == old(demuxer.consecutiveSkips)
      ensures demuxer.consecutiveSkips >= old(demuxer.consecutiveSkips)
      ensures Opus().HasSkipped(demuxer.skippedPackets + EmptyOnes(r), demuxer.calls)
      ensures old(demuxer.pending).None? && !old(demuxer.ended) ==>
        CameOut(Opus(), old(demuxer.calls), demuxer.calls, demuxer.consecutiveSkips, r)
    {
      ghost var calls := demuxer.calls;
      assert returned + [] == returned;
      r := demuxer.NextPacket();
      if old(demuxer.pending).Some? {
        NonEmptyOne(old(demuxer.pending).value);
        assert EmptyOnes(r) == 0;
      } else if old(demuxer.ended) {
        assert EmptyOnes(r) == 0;
      } else {
        FetchAsked(demuxer, calls, r);
      }
    }

    /** Asks the demuxer past the packets with nothing in them; the bound on skips ends that on any reader. */
    method NextNonEmpty() returns (r: Fetched)
      requires Valid() && decoder == null
      modifies demuxer`calls, demuxer`consecutiveSkips, demuxer`skippedPackets, demuxer`pending, demuxer`ended
      ensures demuxer.pending == None && (ended ==> demuxer.ended)
      ensures r.Ok? && r.value.Some? ==> r.value.value.data != [] && Opus().SkipRun(demuxer.calls) == 0
      ensures returned + (if r.Ok? then Offered(r.value) else []) == Packets(Opus(), demuxer.calls)
      ensures !(r.Ok? && r.value.Some?) ==> demuxer.consecutiveSkips == Opus().SkipRun(demuxer.calls)
      ensures r.Err? ==> demuxer.calls > 0 && Some(r.error) == Opus().Verdict(demuxer.calls)
      ensures demuxer.calls > old(demuxer.calls) ==> (r.Err? <==> Opus().Fails(demuxer.calls))
      ensures r.Err? ==> !r.error.PacketTooLarge?
      ensures demuxer.ended <==> r == Ok(None)
      ensures demuxer.ended <==> Opus().EndSeen(demuxer.calls)
      ensures old(demuxer.pending).Some? ==> r == Ok(old(demuxer.pending))
      ensures old(demuxer.pending).Some? || old(demuxer.ended) ==> demuxer.calls == old(demuxer.calls)
      ensures old(demuxer.ended) ==> r == Ok(None)
      ensures demuxer.calls > old(demuxer.calls) ==> OnlyPassedOver(Opus(), old(demuxer.calls), demuxer.calls)
      ensures Opus().HasSkipped(demuxer.skippedPackets, demuxer.calls)
    {
      ghost var first := demuxer.calls;
      while true
        invariant PacketsKept() && first <= demuxer.calls
        invariant old(demuxer.pending).Some? || old(demuxer.ended) ==>
          && demuxer.calls == first
          && demuxer.pending == old(demuxer.pending) && demuxer.ended == old(demuxer.ended)
        invariant demuxer.calls > first ==>
          && demuxer.pending.None? && !demuxer.ended && !Opus().Fails(demuxer.calls)
          && OnlyPassedOver(Opus(), first, demuxer.calls)
          && Packets(Opus(), demuxer.calls) == Packets(Opus(), first)
        decreases MAX_CONSECUTIVE_SKIPS - demuxer.consecutiveSkips
      {
        ghost var calls := demuxer.calls;
        r := Fetch();
        if first < calls < demuxer.calls {
          PassedOverOn(Opus(), first, calls, demuxer.calls);
        }
        if r.Err? || r.value.None? {
          return;
        }
        NonEmptyOne(r.value.value);
        if r.value.value.data != [] {
          return;
        }
        var failure := demuxer.Skip();
        if failure.Some? {
          return Err(failure.value);
        }
      }
    }

    /**
      * The next packet of the track that has anything in it. One that is too large is not lost: it is offered again,
      * unchanged, until it fits. After the end there is never another.
      */
    method ReadPacket(capacity: nat) returns (r: Result<Option<seq<Byte>>, Error>)
      requires Valid()
      modifies this`ended, this`returned,
               demuxer`calls, demuxer`consecutiveSkips, demuxer`skippedPackets, demuxer`pending, demuxer`ended
      ensures Valid()
      ensures decoder != null ==> r == Err(NotOpus) && unchanged(demuxer) && unchanged(this)
      ensures r.Ok? && r.value.Some? ==>
        exists packet: Packet ::
          && returned == old(returned) + [packet] && packet.data == r.value.value
          && 0 < |packet.data| <= capacity
      ensures !(r.Ok? && r.value.Some?) ==> returned == old(returned)
      ensures r == Ok(None) && failure == None ==> GetState() == Ended
      ensures r == Ok(None) ==> ended && returned == Packets(Opus(), demuxer.calls) && Opus().EndSeen(demuxer.calls)
      ensures r.Err? && decoder == null && demuxer.pending.None? ==>
        demuxer.calls > 0 && Some(r.error) == Opus().Verdict(demuxer.calls)
      ensures decoder == null && demuxer.calls > old(demuxer.calls) ==>
        && OnlyPassedOver(Opus(), old(demuxer.calls), demuxer.calls)
        && (r.Err? && !r.error.PacketTooLarge? <==> Opus().Fails(demuxer.calls))
      ensures r.Err? && r.error.PacketTooLarge? ==>
        demuxer.pending.Some? && |demuxer.pending.value.data| == r.error.length > r.error.capacity == capacity
      ensures decoder == null && old(demuxer.pending).Some? ==>
        && demuxer.calls == old(demuxer.calls)
        && r == (var data := old(demuxer.pending).value.data;
                 if |data| <= capacity then Ok(Some(data)) else Err(PacketTooLarge(|data|, capacity)))
      ensures decoder == null && old(demuxer.ended) ==> r == Ok(None) && demuxer.calls == old(demuxer.calls)
    {
      if decoder != null {
        return Err(NotOpus);
      }
      var fetched := NextNonEmpty();
      if fetched.Err? {
        return Err(fetched.error);
      }
      if fetched.value.None? {
        ended := true;
        return Ok(None);
      }
      var packet := fetched.value.value;
      if |packet.data| > capacity {
        demuxer.PutBack(packet);
        return Err(PacketTooLarge(|packet.data|, capacity));
      }
      demuxer.ResetSkips();
      returned := returned + [packet];
      return Ok(Some(packet.data));
    }
  }

  lemma {:induction false} SkippedOrNot(track: Track, calls: nat)
    requires track.codec == PassThrough
    ensures track.BadBefore(calls) + |Packets(track, calls)| == |track.Packets(calls)|
  {
    if calls > 0 {
      SkippedOrNot(track, calls - 1);
      var event := track.reader(calls - 1);
      if event.Own(track.trackId) {
        NonEmptyStep(track.Packets(calls - 1), event.packet);
        assert track.Packets(calls) == track.Packets(calls - 1) + [event.packet];
      } else {
        assert track.Packets(calls) == track.Packets(calls - 1);
      }
    }
  }

  /** Of the packets that are passed through, those told as skipped are the ones with nothing in them. */
  lemma SkippedAreEmpty(session: Session)
    requires session.Valid() && session.decoder == null
    ensures session.demuxer.skippedPackets + |Packets(session.Opus(), session.demuxer.calls)|
         == |session.Opus().Packets(session.demuxer.calls)|
  {
    SkippedShown(session.Opus(), session.demuxer.skippedPackets, session.demuxer.calls);
    SkippedOrNot(session.Opus(), session.demuxer.calls);
  }

  // The worker's blocks

  /** Full blocks, but for the last, which has something in it. */
  predicate InBlocks(blocks: seq<seq<Frame>>) {
    forall i | 0 <= i < |blocks| ::
      && 0 < |blocks[i]| <= BLOCK_FRAMES
      && (i + 1 < |blocks| ==> |blocks[i]| == BLOCK_FRAMES)
  }

  /** The next 4800 frames, or what is left at the end; after it there is none. */
  method ReadPcmBlock(session: Session, ghost point: nat) returns (r: Result<Option<seq<Frame>>, Error>)
    requires session.Valid() && session.decoder != null
    requires session.decoder.track.Settles(session.demuxer.calls, point, |session.decoder.delivered| + BLOCK_FRAMES)
    modifies session`ended, session.decoder, session.decoder.resampler,
             session.demuxer`calls, session.demuxer`consecutiveSkips, session.demuxer`skippedPackets,
             session.demuxer`pending, session.demuxer`ended
    ensures session.Valid()
    ensures session.decoder.delivered
         == old(session.decoder.delivered) + if r.Ok? && r.value.Some? then r.value.value else []
    ensures r.Ok? && r.value.Some? ==> 0 < |r.value.value| <= BLOCK_FRAMES
    ensures r.Ok? && (r.value.None? || |r.value.value| < BLOCK_FRAMES) ==>
      && session.decoder.finished
      && session.decoder.delivered == session.decoder.track.Heard(session.demuxer.calls, true)
    ensures r.Err? ==>
      session.demuxer.calls > 0 && Some(r.error) == session.decoder.track.Verdict(session.demuxer.calls)
    ensures r == Ok(None) ==> session.ended
  {
    var block := new Frame[BLOCK_FRAMES](_ => Mix.Frame(0.0, 0.0));
    var read := session.Read(block, point);
    if read.Err? {
      return Err(read.error);
    }
    if read.value == 0 {
      return Ok(None);
    }
    return Ok(Some(block[..read.value]));
  }

  /** The n-th block of a stream. */
  function Piece(whole: seq<Frame>, n: nat): seq<Frame>
    requires 4800 * n <= |whole|
  {
    whole[4800 * n..Least(4800 * n + 4800, |whole|)]
  }

  function BlockCount(frames: nat): (count: nat)
    ensures 4800 * count < frames + 4800 && frames <= 4800 * count
  {
    (frames + 4799) / 4800
  }

  /** The whole stream cut every 4800 frames. */
  function Cut(whole: seq<Frame>): (blocks: seq<seq<Frame>>)
    ensures |blocks| == BlockCount(|whole|)
  {
    seq(BlockCount(|whole|), n requires 0 <= n < BlockCount(|whole|) => Piece(whole, n))
  }

  lemma {:induction false} CutInOrder(whole: seq<Frame>, n: nat)
    requires n <= BlockCount(|whole|)
    ensures Flat(Cut(whole)[..n]) == whole[..Least(4800 * n, |whole|)]
    decreases n
  {
    if n > 0 {
      CutInOrder(whole, n - 1);
      assert Cut(whole)[..n] == Cut(whole)[..n - 1] + [Piece(whole, n - 1)];
      FlatAppends(Cut(whole)[..n - 1], Piece(whole, n - 1));
    }
  }

  lemma CutIsWhole(whole: seq<Frame>)
    ensures Flat(Cut(whole)) == whole && InBlocks(Cut(whole))
  {
    CutInOrder(whole, |Cut(whole)|);
    assert Cut(whole)[..|Cut(whole)|] == Cut(whole);
  }

  /** There is one way to cut a stream into blocks. */
  lemma {:induction false} BlocksAreCut(blocks: seq<seq<Frame>>, others: seq<seq<Frame>>)
    requires InBlocks(blocks) && InBlocks(others) && Flat(blocks) == Flat(others)
    ensures blocks == others
  {
    if blocks != [] && others != [] {
      var whole := Flat(blocks);
      assert |blocks| > 1 ==> |Flat(blocks[1..])| >= |blocks[1]|;
      assert |others| > 1 ==> |Flat(others[1..])| >= |others[1]|;
      assert blocks[0] == whole[..|blocks[0]|] && others[0] == whole[..|others[0]|];
      assert |blocks[0]| == |others[0]|;
      assert Flat(blocks[1..]) == whole[|blocks[0]|..];
      BlocksAreCut(blocks[1..], others[1..]);
    }
  }

  ghost predicate InOrder(session: Session)
    reads session, session.demuxer, session.decoder, if session.decoder == null then null else session.decoder.resampler
  {
    forall n {:trigger Shown(n)} :: Shown(n) ==> session.Valid()
  }

  /** A block of a stream that is over at some point. */
  method NextPcmBlock(session: Session, ghost last: nat, ghost whole: seq<Frame>)
    returns (r: Result<Option<seq<Frame>>, Error>)
    requires InOrder(session) && session.decoder != null && session.decoder.track.OverAt(last)
    requires whole == session.decoder.track.Heard(last, true)
    modifies session`ended, session.decoder, session.decoder.resampler,
             session.demuxer`calls, session.demuxer`consecutiveSkips, session.demuxer`skippedPackets,
             session.demuxer`pending, session.demuxer`ended
    ensures InOrder(session)
    ensures session.decoder.delivered
         == old(session.decoder.delivered) + (if r.Ok? && r.value.Some? then r.value.value else []) <= whole
    ensures r.Ok? && r.value.Some? ==> 0 < |r.value.value| <= BLOCK_FRAMES
    ensures r.Ok? && (r.value.None? || |r.value.value| < BLOCK_FRAMES) ==> session.decoder.delivered == whole
    ensures r.Err? ==>
      session.demuxer.calls > 0 && Some(r.error) == session.decoder.track.Verdict(session.demuxer.calls)
    ensures r == Ok(None) ==> session.ended
  {
    assert Shown(0);
    var decoder := session.decoder;
    ReadsAreTheWhole(decoder, session.demuxer, last);
    SettlesShown(decoder.track, session.demuxer.calls, last, |decoder.delivered| + BLOCK_FRAMES);
    r := ReadPcmBlock(session, last);
    ReadsAreTheWhole(decoder, session.demuxer, last);
    if decoder.finished {
      OverOnce(decoder.track, session.demuxer.calls, last);
    }
  }

  lemma BlockAppended(blocks: seq<seq<Frame>>, block: seq<Frame>)
    requires InBlocks(blocks) && 0 < |block| <= BLOCK_FRAMES
    requires blocks != [] ==> |blocks[|blocks| - 1]| == BLOCK_FRAMES
    ensures InBlocks(blocks + [block]) && Flat(blocks + [block]) == Flat(blocks) + block
  {
    FlatAppends(blocks, block);
  }

  /** Until the end, the blocks are the whole stream cut every 4800 frames; a failure leaves its beginning. */
  method DecodePcm(session: Session, ghost last: nat) returns (blocks: seq<seq<Frame>>, failure: Option<Error>)
    requires InOrder(session) && session.decoder != null && session.decoder.track.OverAt(last)
    requires session.decoder.delivered == []
    modifies session`ended, session.decoder, session.decoder.resampler,
             session.demuxer`calls, session.demuxer`consecutiveSkips, session.demuxer`skippedPackets,
             session.demuxer`pending, session.demuxer`ended
    ensures InOrder(session)
    ensures Flat(blocks) == session.decoder.delivered <= session.decoder.track.Heard(last, true) && InBlocks(blocks)
    ensures failure.None? ==> blocks == Cut(session.decoder.track.Heard(last, true)) && session.ended
    ensures failure.Some? ==>
      session.demuxer.calls > 0 && failure == session.decoder.track.Verdict(session.demuxer.calls)
  {
    var decoder := session.decoder;
    ghost var whole := decoder.track.Heard(last, true);
    blocks := [];
    while true
      invariant InOrder(session) && Flat(blocks) == decoder.delivered <= whole
      invariant InBlocks(blocks)
      invariant blocks != [] && |blocks[|blocks| - 1]| < BLOCK_FRAMES ==> decoder.delivered == whole
      decreases |whole| - |decoder.delivered|
    {
      var block := NextPcmBlock(session, last, whole);
      if block.Err? {
        return blocks, Some(block.error);
      }
      if block.value.None? {
        CutIsWhole(whole);
        BlocksAreCut(blocks, Cut(whole));
        return blocks, None;
      }
      BlockAppended(blocks, block.value.value);
      blocks := blocks + [block.value.value];
    }
  }

  // Reads without room

  /** Nothing read means that the stream is over and all of it was read: guaranteed exactly with room for a frame. */
  lemma RoomTellsTheEnd(room: nat)
    ensures room > 0 <==> forall rest, over | MayRead(rest, over, room, 0) :: over && rest == 0
  {
    if room == 0 {
      assert MayRead(1, false, room, 0);
    }
  }

  /** A session that has not so much as asked its reader says that it has ended, once it is read without room. */
  method ReadWithoutRoom(track: Track) returns (session: Session)
    requires track.Valid()
    ensures session.decoder != null && session.decoder.track == track
    ensures session.ended && !session.decoder.finished && session.demuxer.calls == 0
  {
    var demuxer := new Demuxer(track.reader, track.trackId);
    var decoder := new Decoder(track, demuxer);
    session := new Session(demuxer, decoder);
    var nothing := new Frame[0];
    SettlesShown(track, 0, 0, 0);
    var read := session.Read(nothing, 0);
  }
}
