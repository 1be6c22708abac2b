/** One track's packets out of a container, with a bound on the packets passed over in a row. */
module Demux {
  import opened Basics

  const MAX_CONSECUTIVE_SKIPS: nat := 10000

  datatype Packet = Packet(trackId: nat, data: seq<Byte>)

  /** What the container's reader answers when it is asked for a packet. */
  datatype ReaderEvent =
    | Got(packet: Packet)
    | End
    | UnexpectedEnd
    | ResetRequired
    | Failure
  {
    predicate Own(trackId: nat) {
      Got? && packet.trackId == trackId
    }

    predicate Other(trackId: nat) {
      Got? && packet.trackId != trackId
    }

    predicate Ends() {
      End? || UnexpectedEnd?
    }
  }

  /** A reader by its answers, in the order it is asked. It may go on for ever. */
  type Reader = nat -> ReaderEvent

  type Fetched = Result<Option<Packet>, Error>

  /** The answer to a caller for an event that is not another track's packet. */
  function Answer(event: ReaderEvent): Fetched {
    match event
    case Got(packet) => Ok(Some(packet))
    case End | UnexpectedEnd => Ok(None)
    case ResetRequired => Err(StreamChanged)
    case Failure => Err(UnreadableContainer)
  }

  /** The track's packets among the first answers. */
  function OwnPackets(reader: Reader, trackId: nat, calls: nat): seq<Packet> {
    if calls == 0 then []
    else
      var event := reader(calls - 1);
      OwnPackets(reader, trackId, calls - 1) + if event.Own(trackId) then [event.packet] else []
  }

  lemma {:induction false} OthersAddNothing(reader: Reader, trackId: nat, calls: nat, n: nat)
    requires forall k | calls <= k < calls + n :: !reader(k).Own(trackId)
    ensures OwnPackets(reader, trackId, calls + n) == OwnPackets(reader, trackId, calls)
    decreases n
  {
    if n > 0 {
      OthersAddNothing(reader, trackId, calls, n - 1);
    }
  }

  lemma {:induction false} OwnPacketsGrow(reader: Reader, trackId: nat, calls: nat, later: nat)
    requires calls <= later
    ensures OwnPackets(reader, trackId, calls) <= OwnPackets(reader, trackId, later)
    decreases later
  {
    if calls < later {
      OwnPacketsGrow(reader, trackId, calls, later - 1);
    }
  }

  // Runs of packets passed over

  /** What an answer does to the run: one more passed over, a new start, or neither. */
  datatype Count = PassesOver | StartsAnew | Stays

  function RunLength(counts: seq<Count>): nat {
    if counts == [] then 0
    else match counts[|counts| - 1]
      case PassesOver => RunLength(counts[..|counts| - 1]) + 1
      case StartsAnew => 0
      case Stays => RunLength(counts[..|counts| - 1])
  }

  function PassedOver(counts: seq<Count>): nat {
    if counts == [] then 0
    else PassedOver(counts[..|counts| - 1]) + if counts[|counts| - 1].PassesOver? then 1 else 0
  }

  /** No new start from there on. */
  predicate SameRun(counts: seq<Count>, start: nat) {
    start <= |counts| && forall k | start <= k < |counts| :: !counts[k].StartsAnew?
  }

  lemma {:induction false} RunCountsAtLeast(counts: seq<Count>, start: nat)
    requires SameRun(counts, start)
    ensures PassedOver(counts[start..]) <= RunLength(counts)
    decreases |counts|
  {
    if start < |counts| {
      var rest := counts[..|counts| - 1];
      assert counts[start..][..|counts| - 1 - start] == rest[start..];
      RunCountsAtLeast(rest, start);
    }
  }

  lemma {:induction false} RunCountsSince(counts: seq<Count>) returns (start: nat)
    ensures SameRun(counts, start) && PassedOver(counts[start..]) == RunLength(counts)
  {
    if counts == [] {
      return 0;
    }
    var rest, last := counts[..|counts| - 1], counts[|counts| - 1];
    if last.StartsAnew? {
      return |counts|;
    }
    start := RunCountsSince(rest);
    assert counts[start..][..|counts| - 1 - start] == rest[start..];
  }

  /** The run is longer than the bound exactly when more than that were passed over without a new start between. */
  lemma RunTooLong(counts: seq<Count>, bound: nat)
    ensures RunLength(counts) > bound <==>
      exists start: nat :: SameRun(counts, start) && PassedOver(counts[start..]) > bound
  {
    var since := RunCountsSince(counts);
    forall start: nat | SameRun(counts, start) ensures PassedOver(counts[start..]) <= RunLength(counts) {
      RunCountsAtLeast(counts, start);
    }
  }

  lemma RunGrows(counts: seq<Count>, count: Count)
    ensures RunLength(counts + [count]) ==
      match count
      case PassesOver => RunLength(counts) + 1
      case StartsAnew => 0
      case Stays => RunLength(counts)
  {
    assert (counts + [count])[..|counts|] == counts;
  }

  /** How many other tracks' packets may still be passed over before the run is too long. */
  function Patience(run: nat): nat {
    if run < MAX_CONSECUTIVE_SKIPS then MAX_CONSECUTIVE_SKIPS - run else 0
  }

  /** From an answer on, so many packets of other tracks. */
  predicate OthersOnly(reader: Reader, trackId: nat, calls: nat, n: nat) {
    forall k | calls <= k < calls + n :: reader(k).Other(trackId)
  }

  /** So many packets of other tracks come next, and then no more, or more than the run has room for. */
  predicate Passes(reader: Reader, trackId: nat, calls: nat, run: nat, n: nat) {
    && OthersOnly(reader, trackId, calls, n)
    && (reader(calls + n).Other(trackId) ==> n == Patience(run))
    && n <= Patience(run)
  }

  class Demuxer {
    const reader: Reader
    const trackId: nat
    /** The reader's own state: how often it has been asked. */
    var calls: nat
    var skippedPackets: nat
    var consecutiveSkips: nat
    var pending: Option<Packet>
    var ended: bool

    constructor (reader: Reader, trackId: nat)
      ensures this.reader == reader && this.trackId == trackId
      ensures calls == 0 && skippedPackets == 0 && consecutiveSkips == 0 && pending == None && !ended
    {
      this.reader, this.trackId := reader, trackId;
      calls, skippedPackets, consecutiveSkips, pending, ended := 0, 0, 0, None, false;
    }

    /**
      * The packet put back, or nothing after the end, or the answer that follows the other tracks' packets, which may
      * be too many: exactly when they take the run past its limit. It ends on any reader.
      */
    method NextPacket() returns (r: Fetched)
      modifies this`calls, this`consecutiveSkips, this`pending, this`ended
      ensures pending == None
      ensures old(pending).Some? ==> r == Ok(old(pending))
      ensures old(pending).None? && old(ended) ==> r == Ok(None)
      ensures old(pending).Some? || old(ended) ==> unchanged(`calls, `consecutiveSkips, `ended)
      ensures old(pending).None? && !old(ended) ==> calls > old(calls) && Passed(old(calls), old(consecutiveSkips), r)
      ensures old(pending).None? && !old(ended) ==> ended == (r == Ok(None))
    {
      if pending.Some? {
        r := Ok(pending);
        pending := None;
        return;
      }
      if ended {
        return Ok(None);
      }
      ghost var n := 0;
      while true
        modifies this`calls, this`consecutiveSkips
        invariant calls == old(calls) + n && consecutiveSkips == old(consecutiveSkips) + n
        invariant OthersOnly(reader, trackId, old(calls), n) && n <= Patience(old(consecutiveSkips))
        decreases Patience(old(consecutiveSkips)) - n
      {
        var event := reader(calls);
        calls := calls + 1;
        match event {
          case Got(packet) =>
            if packet.trackId == trackId {
              assert Passes(reader, trackId, old(calls), old(consecutiveSkips), n);
              return Ok(Some(packet));
            }
            var failure := ExtendRun();
            if failure.Some? {
              assert Passes(reader, trackId, old(calls), old(consecutiveSkips), n);
              return Err(failure.value);
            }
          case End | UnexpectedEnd =>
            assert Passes(reader, trackId, old(calls), old(consecutiveSkips), n);
            break;
          case ResetRequired =>
            assert Passes(reader, trackId, old(calls), old(consecutiveSkips), n);
            return Err(StreamChanged);
          case Failure =>
            assert Passes(reader, trackId, old(calls), old(consecutiveSkips), n);
            return Err(UnreadableContainer);
        }
        n := n + 1;
      }
      ended := true;
      return Ok(None);
    }

    /** What a fetch from a reader asked that often, in a run of that length, has come to. */
    ghost predicate Passed(before: nat, run: nat, r: Fetched)
      requires calls > before
      reads this
    {
      var n := calls - before - 1;
      var event := reader(before + n);
      && Passes(reader, trackId, before, run, n)
      && consecutiveSkips == run + n + (if event.Other(trackId) then 1 else 0)
      && r == if event.Other(trackId) then Err(TooManySkips) else Answer(event)
    }

    method PutBack(packet: Packet)
      modifies this`pending
      ensures pending == Some(packet)
    {
      pending := Some(packet);
    }

    method Skip() returns (failure: Option<Error>)
      modifies this`skippedPackets, this`consecutiveSkips
      ensures skippedPackets == old(skippedPackets) + 1 && consecutiveSkips == old(consecutiveSkips) + 1
      ensures failure == if consecutiveSkips > MAX_CONSECUTIVE_SKIPS then Some(TooManySkips) else None
    {
      skippedPackets := skippedPackets + 1;
      failure := ExtendRun();
    }

    method ResetSkips()
      modifies this`consecutiveSkips
      ensures consecutiveSkips == 0
    {
      consecutiveSkips := 0;
    }

    method ExtendRun() returns (failure: Option<Error>)
      modifies this`consecutiveSkips
      ensures consecutiveSkips == old(consecutiveSkips) + 1
      ensures failure == if consecutiveSkips > MAX_CONSECUTIVE_SKIPS then Some(TooManySkips) else None
    {
      consecutiveSkips := consecutiveSkips + 1;
      if consecutiveSkips > MAX_CONSECUTIVE_SKIPS {
        return Some(TooManySkips);
      }
      return None;
    }
  }

  /** A fetch passes over a definite number of packets: there is one count that fits, whatever the reader. */
  lemma PassesOnce(reader: Reader, trackId: nat, calls: nat, run: nat, m: nat, n: nat)
    requires Passes(reader, trackId, calls, run, m) && Passes(reader, trackId, calls, run, n)
    ensures m == n
  {}

  /** Too many skips are reported exactly when the run's room and one packet more are other tracks'. */
  lemma TooManyExactly(reader: Reader, trackId: nat, calls: nat, run: nat, n: nat)
    requires Passes(reader, trackId, calls, run, n)
    ensures reader(calls + n).Other(trackId) <==> OthersOnly(reader, trackId, calls, Patience(run) + 1)
  {}

  /** A fetch adds to the track's packets read what it gives, and loses none. */
  lemma FetchConserves(reader: Reader, trackId: nat, calls: nat, n: nat)
    requires OthersOnly(reader, trackId, calls, n)
    ensures var event := reader(calls + n);
      OwnPackets(reader, trackId, calls + n + 1)
      == OwnPackets(reader, trackId, calls) + if event.Own(trackId) then [event.packet] else []
  {
    forall k | calls <= k < calls + n ensures !reader(k).Own(trackId) {
      assert reader(k).Other(trackId);
    }
    OthersAddNothing(reader, trackId, calls, n);
  }
}
