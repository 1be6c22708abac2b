/** The caller's handle on a stream. Between any two of its accesses the worker takes as many steps as it likes. */
module StreamSessions {
  import opened Basics
  import opened Statuses
  import opened Programs
  import opened Streams

  datatype PushOutcome = Queued | Full | Refused

  datatype Poll<+T> = Pending | Ready(value: T)

  datatype Held = BlockHeld | AtEnd

  /** How many steps the worker takes before each of the caller's accesses. */
  type Schedule = nat -> nat

  // What the state machine guarantees, by name: the methods do not look at how it is made up

  /** The state is one that a run can come to. */
  ghost predicate Sane(program: Program, s: System) {
    forall n {:trigger Shown(n)} :: Shown(n) ==> Inv(program, s)
  }

  lemma SaneShown(program: Program, s: System)
    ensures Sane(program, s) <==> Inv(program, s)
  {
    assert Shown(0);
  }

  lemma InitiallySane(program: Program)
    ensures Sane(program, INITIAL)
  {}

  lemma WorkerStaysSane(program: Program, s: System, n: nat)
    requires Sane(program, s)
    ensures Sane(program, WorkerRuns(program, s, n)) && WorkerOnly(s, WorkerRuns(program, s, n))
  {
    SaneShown(program, s);
    WorkerRunsKeep(program, s, n);
  }

  /** A queue that is closed says so only when the stream is settled. */
  lemma SendSane(program: Program, s: System, chunk: Chunk)
    requires Sane(program, s) && s.inputOpen
    ensures Sane(program, TrySend(s, chunk).0)
    ensures TrySend(s, chunk).1.QueueFull? ==> |s.input| == INPUT_CHUNKS
    ensures s.outputRead && TrySend(s, chunk).1.Disconnected? ==> s.status.Settled()
  {
    SaneShown(program, s);
    TrySendKeeps(program, s, chunk);
    if s.outputRead && !s.inputRead {
      ClosedForAReason(program, s);
    }
  }

  lemma RecvSane(program: Program, s: System)
    requires Sane(program, s) && s.outputRead
    ensures Sane(program, TryRecv(s).0)
    ensures TryRecv(s).1.Closed? ==> s.status.Settled()
    ensures s.output != [] ==> program.Sound(s.output[0])
  {
    SaneShown(program, s);
    TryRecvKeeps(program, s);
    if s.output != [] {
      assert s.output[0] in s.sent && s.output[0] in s.run.at.blocks;
    } else if !s.outputOpen {
      ClosedForAReason(program, s);
    }
  }

  /** What was sent and not taken is in the output queue. */
  lemma OutputSane(program: Program, s: System)
    requires Sane(program, s) && s.outputRead
    ensures s.sent == s.taken + s.output
  {
    SaneShown(program, s);
  }

  lemma OutputGrows(program: Program, s: System, next: System)
    requires Sane(program, s) && Sane(program, next) && s.outputRead && WorkerOnly(s, next)
    ensures s.output <= next.output
  {
    OutputSane(program, s);
    OutputSane(program, next);
    assert s.output == s.sent[|s.taken|..] && next.output == next.sent[|s.taken|..];
  }

  lemma LetGoSane(program: Program, s: System)
    requires Sane(program, s)
    ensures Sane(program, Stop(s)) && Sane(program, CloseInput(s))
    ensures s.status.stopped && !s.inputOpen ==> Sane(program, CloseOutput(s))
  {
    SaneShown(program, s);
    LetGoKeeps(program, s);
  }

  lemma LetGoSaneExits(program: Program, s: System)
    requires Sane(program, s) && LetGo(s)
    ensures WorkerRuns(program, s, StepsLeft(s)).pc.Exited?
  {
    SaneShown(program, s);
    LetGoExits(program, s, StepsLeft(s));
  }

  /** What is shown of the session is the session's, and is shown before its first block. */
  lemma InfoSane(program: Program, s: System)
    requires Sane(program, s)
    ensures s.status.info.Some? ==> s.status.info.value.isOpus == program.isOpus
    ensures s.taken != [] || s.status.Observed() == Ended ==> s.status.info.Some?
  {
    SaneShown(program, s);
  }

  /** A settled stream with an empty queue: everything sent was taken, and it is all that one session makes. */
  lemma SettledSane(program: Program, s: System)
    requires Sane(program, s) && s.outputRead && s.status.Settled() && s.output == []
    ensures s.taken == s.sent
    ensures s.status.failure.None? ==> s.status.Observed() == Ended && Yields(program, s.pushed, s.taken)
    ensures s.status.failure.Some? && !s.status.stopped ==>
      FailsWith(program, s.pushed, s.taken, s.status.failure.value)
  {
    SaneShown(program, s);
    SettledAndDrained(program, s);
    if s.status.failure.None? {
      EndIsWhole(program, s);
    } else if !s.status.stopped {
      FailureIsOwn(program, s);
    }
  }

  /** How many frames a read takes of so many bytes left, into so many bytes of room. */
  function FramesTaken(rest: nat, room: nat): nat {
    Least(rest, room / 8 * 8) / 8
  }

  /** As many as there are and as fit: there is none more, or no room for one. */
  lemma MostFramesTaken(rest: nat, room: nat)
    requires rest % 8 == 0
    ensures var n := FramesTaken(rest, room);
      8 * n <= rest && 8 * n <= room && (8 * n == rest || 8 * (n + 1) > room)
  {}

  /** That something is taken of what is left of a block, so that nothing taken is the end, needs room for a frame. */
  lemma RoomTellsTheEnd(room: nat)
    ensures room >= 8 <==> forall rest: nat | rest > 0 && rest % 8 == 0 :: FramesTaken(rest, room) > 0
  {
    if room < 8 {
      assert FramesTaken(8, room) == 0;
    }
  }

  lemma WholeFrames(rest: nat, capacity: nat)
    requires rest % 8 == 0
    ensures var length := Least(rest, capacity / 8 * 8);
      length % 8 == 0 && 8 * (length / 8) == length <= capacity
  {}

  class StreamSession {
    const program: Program
    const schedule: Schedule
    /** Everything that is shared with the worker, and the worker. */
    var sys: System
    var accesses: nat
    /** The input's sender, until the caller has finished. */
    var input: bool
    var block: Block
    var offset: nat

    /** What the caller has had: the bytes of samples, and the packets. */
    ghost var handed: seq<Byte>
    ghost var packets: seq<Block>

    ghost predicate Valid()
      reads this
    {
      && Sane(program, sys)
      && input == sys.inputOpen
      && sys.outputRead && !sys.status.stopped
      && HandedOut()
    }

    /** What was taken has been handed out, but for the rest of the block at hand. */
    ghost predicate HandedOut()
      reads this
    {
      && offset <= |block|
      && if program.isOpus
         then offset == 0 && packets + (if block == [] then [] else [block]) == sys.taken
         else offset % 8 == 0 && |block| % 8 == 0 && handed + block[offset..] == Flat(sys.taken)
    }

    constructor (program: Program, schedule: Schedule)
      ensures Valid() && this.program == program && this.schedule == schedule
      ensures sys == INITIAL && input && handed == [] && packets == []
    {
      InitiallySane(program);
      this.program, this.schedule := program, schedule;
      sys, accesses, input, block, offset := INITIAL, 0, true, [], 0;
      handed, packets := [], [];
    }

    /** The worker runs on. */
    method Await()
      requires Sane(program, sys)
      modifies this`sys, this`accesses
      ensures Sane(program, sys) && WorkerOnly(old(sys), sys)
      ensures old(sys.outputRead) ==> old(sys.output) <= sys.output
    {
      WorkerStaysSane(program, sys, schedule(accesses));
      if sys.outputRead {
        OutputGrows(program, sys, WorkerRuns(program, sys, schedule(accesses)));
      }
      sys := WorkerRuns(program, sys, schedule(accesses));
      accesses := accesses + 1;
    }

    method GetState() returns (state: State)
      requires Valid()
      modifies this`sys, this`accesses
      ensures Valid() && WorkerOnly(old(sys), sys) && state == sys.status.Observed()
      ensures old(sys.output) <= sys.output
      ensures old(sys.status).Settled() ==> sys.status.Settled()
    {
      Await();
      state := sys.status.Observed();
    }

    /**
      * Bytes are queued whole or not at all. As long as the caller has not finished, a push is refused only when the
      * stream has ended or failed, and that can be observed.
      */
    method Push(chunk: seq<Byte>) returns (outcome: PushOutcome)
      requires Valid()
      modifies this`sys, this`accesses
      ensures Valid() && sys.taken == old(sys.taken)
      ensures sys.pushed == old(sys.pushed) + if outcome == Queued then chunk else []
      ensures outcome == Refused && input ==> sys.status.Settled()
      ensures outcome == Full ==> chunk != [] && |sys.input| == INPUT_CHUNKS
      ensures !input ==> outcome == Refused
      ensures old(sys.status).Settled() ==> outcome == Refused
    {
      assert sys.pushed + [] == sys.pushed;
      if !input {
        return Refused;
      }
      var state := GetState();
      if state != Probing && state != Open {
        return Refused;
      }
      if chunk == [] {
        return Queued;
      }
      outcome := Send(chunk);
    }

    method Send(chunk: seq<Byte>) returns (outcome: PushOutcome)
      requires Valid() && input
      modifies this`sys, this`accesses
      ensures Valid() && sys.taken == old(sys.taken)
      ensures sys.pushed == old(sys.pushed) + if outcome == Queued then chunk else []
      ensures outcome == Refused ==> sys.status.Settled()
      ensures outcome == Full ==> |sys.input| == INPUT_CHUNKS
    {
      Await();
      var sent := TrySend(sys, chunk);
      SendSane(program, sys, chunk);
      assert sys.pushed + [] == sys.pushed;
      sys := sent.0;
      match sent.1
      case Sent => return Queued;
      case QueueFull => return Full;
      case Disconnected => return Refused;
    }

    method Finish()
      requires Valid()
      modifies this`sys, this`accesses, this`input
      ensures Valid() && !input && sys.pushed == old(sys.pushed) && sys.taken == old(sys.taken)
    {
      Await();
      LetGoSane(program, sys);
      sys := CloseInput(sys);
      input := false;
    }

    /** All that the worker has sent, and will ever send, has been handed out. */
    ghost predicate AllHandedOut()
      reads this
    {
      && sys.status.Settled() && sys.taken == sys.sent
      && if program.isOpus then packets == sys.taken else handed == Flat(sys.taken)
    }

    /** It is all that one session makes of everything queued. */
    ghost predicate WholeHandedOut()
      reads this
    {
      AllHandedOut() && sys.status.Observed() == Ended && Yields(program, sys.pushed, sys.taken)
    }

    /** It is all that one session makes of everything queued before it fails like that. */
    ghost predicate FailureHandedOut(error: Error)
      reads this
    {
      AllHandedOut() && sys.status.failure == Some(error) && FailsWith(program, sys.pushed, sys.taken, error)
    }

    /**
      * An end or a failure is reported only when every block the worker will ever send has been handed out. Whether the
      * stream is settled is read before the queue is looked at: a block sent in between is still found there. The
      * caller is to try again only when there is no block to be had yet: one that is queued is taken.
      */
    method HoldBlock() returns (r: Result<Poll<Held>, Error>)
      requires Valid()
      modifies this`sys, this`accesses, this`block, this`offset
      ensures Valid() && Follows(old(sys), sys) && sys.pushed == old(sys.pushed)
      ensures r == Ok(Ready(BlockHeld)) ==> offset < |block|
      ensures r != Ok(Ready(BlockHeld)) ==> offset == |block|
      ensures r == Ok(Ready(AtEnd)) ==> WholeHandedOut()
      ensures r.Err? ==> FailureHandedOut(r.error)
      ensures old(offset) < |old(block)| ==>
        r == Ok(Ready(BlockHeld)) && block == old(block) && offset == old(offset)
      ensures old(sys.output) != [] && old(offset) == |old(block)| ==>
        r == Ok(Ready(BlockHeld)) && block == old(sys.output)[0] && offset == 0
      ensures r == Ok(Pending) ==> sys.output == [] && sys.outputOpen && sys.taken == old(sys.taken)
      ensures old(sys.status).Settled() ==> r != Ok(Pending)
    {
      while offset == |block|
        invariant Valid() && Follows(old(sys), sys) && sys.pushed == old(sys.pushed)
        invariant old(sys.status).Settled() ==> sys.status.Settled()
        invariant old(offset) < |old(block)| ==> block == old(block) && offset == old(offset)
        invariant old(offset) == |old(block)| ==>
          if offset == |block| then sys.taken == old(sys.taken) && old(sys.output) <= sys.output
          else old(sys.output) != [] ==> block == old(sys.output)[0] && offset == 0
        decreases offset == |block|
      {
        var state := GetState();
        var settled := state == Ended || state == Failed;
        var answer := Receive(settled);
        if answer.Some? {
          return answer.value;
        }
      }
      return Ok(Ready(BlockHeld));
    }

    /** One look at the output queue: a block comes, or there is an answer for the caller. */
    method Receive(settled: bool) returns (answer: Option<Result<Poll<Held>, Error>>)
      requires Valid() && offset == |block| && (settled ==> sys.status.Settled())
      modifies this`sys, this`accesses, this`block, this`offset
      ensures Valid() && Follows(old(sys), sys) && sys.pushed == old(sys.pushed)
      ensures old(sys.status).Settled() ==> sys.status.Settled()
      ensures answer.None? ==> offset < |block|
      ensures answer.Some? ==> offset == |block| && answer.value != Ok(Ready(BlockHeld))
      ensures settled ==> answer != Some(Ok(Pending))
      ensures old(sys.output) != [] ==> answer.None? && block == old(sys.output)[0] && offset == 0
      ensures answer == Some(Ok(Pending)) ==> sys.output == [] && sys.outputOpen
      ensures answer.Some? ==> sys.taken == old(sys.taken)
      ensures answer == Some(Ok(Ready(AtEnd))) ==> WholeHandedOut()
      ensures answer.Some? && answer.value.Err? ==> FailureHandedOut(answer.value.error)
    {
      Await();
      RecvSane(program, sys);
      match TryRecv(sys).1
      case Received(next) =>
        Hold(next);
        return None;
      case Empty =>
        if !settled {
          return Some(Ok(Pending));
        }
        var reason := Reason();
        return Some(reason);
      case Closed =>
        var reason := Reason();
        return Some(reason);
    }

    /** Takes the block that came. */
    method Hold(next: Block)
      requires Valid() && offset == |block| && sys.output != [] && next == sys.output[0]
      modifies this`sys, this`block, this`offset
      ensures Valid() && Follows(old(sys), sys) && sys.pushed == old(sys.pushed)
      ensures block == next && offset == 0 < |block|
    {
      RecvSane(program, sys);
      FlatAppends(sys.taken, next);
      sys := TryRecv(sys).0;
      block, offset := next, 0;
    }

    /** Why there is nothing to be had: the failure if there is one, or else the end. */
    method Reason() returns (r: Result<Poll<Held>, Error>)
      requires Valid() && offset == |block| && sys.status.Settled() && sys.output == []
      modifies this`sys, this`accesses
      ensures Valid() && WorkerOnly(old(sys), sys)
      ensures r == Ok(Ready(AtEnd)) || r.Err?
      ensures r.Ok? ==> WholeHandedOut()
      ensures r.Err? ==> FailureHandedOut(r.error)
    {
      SettledSane(program, sys);
      assert packets + [] == packets && handed + block[offset..] == handed;
      Await();
      match sys.status.failure
      case Some(error) => return Err(error);
      case None => return Ok(Ready(AtEnd));
    }

    method CheckPcm() returns (failure: Option<Error>)
      requires Valid()
      modifies this`sys, this`accesses
      ensures Valid() && WorkerOnly(old(sys), sys)
      ensures failure.Some? ==> failure.value == OpusNeedsReadPacket && program.isOpus
      ensures failure.None? && program.isOpus ==> sys.taken == [] && sys.status.Observed() != Ended
      ensures old(WholeHandedOut()) ==> WholeHandedOut()
    {
      Await();
      InfoSane(program, sys);
      if sys.status.info.Some? && sys.status.info.value.isOpus {
        return Some(OpusNeedsReadPacket);
      }
      return None;
    }

    method CheckOpus() returns (failure: Option<Error>)
      requires Valid()
      modifies this`sys, this`accesses
      ensures Valid() && WorkerOnly(old(sys), sys)
      ensures failure.Some? ==> failure.value == NotOpus && !program.isOpus
      ensures failure.None? && !program.isOpus ==> sys.taken == [] && sys.status.Observed() != Ended
      ensures old(WholeHandedOut()) ==> WholeHandedOut()
    {
      Await();
      InfoSane(program, sys);
      if sys.status.info.Some? && !sys.status.info.value.isOpus {
        return Some(NotOpus);
      }
      return None;
    }

    /**
      * The next whole frames. Nothing into a buffer with room for a frame means the end: every sample that one session
      * makes of everything queued has been handed out.
      */
    method Read(output: array<Byte>) returns (r: Result<Poll<nat>, Error>)
      requires Valid()
      modifies this`sys, this`accesses, this`block, this`offset, this`handed, output
      ensures Valid() && Follows(old(sys), sys) && sys.pushed == old(sys.pushed) && packets == old(packets)
      ensures r.Ok? && r.value.Ready? ==>
        && 8 * r.value.value <= output.Length && handed == old(handed) + output[..8 * r.value.value]
        && output[8 * r.value.value..] == old(output[8 * r.value.value..])
      ensures !(r.Ok? && r.value.Ready?) ==> handed == old(handed) && output[..] == old(output[..])
      ensures r == Ok(Ready(0)) && output.Length >= BYTES_PER_FRAME ==> WholeHandedOut() && !program.isOpus
      ensures old(offset) < |old(block)| && !program.isOpus ==>
        r == Ok(Ready(FramesTaken(|old(block)| - old(offset), output.Length)))
      ensures old(offset) == |old(block)| && old(sys.output) != [] && !program.isOpus ==>
        r == Ok(Ready(FramesTaken(|old(sys.output)[0]|, output.Length)))
      ensures r == Ok(Pending) ==> old(offset) == |old(block)| && old(sys.output) == [] && sys.taken == old(sys.taken)
      ensures r.Err? ==> (r.error == OpusNeedsReadPacket && program.isOpus) || FailureHandedOut(r.error)
      ensures old(sys.status).Settled() ==> r != Ok(Pending)
    {
      var held := HoldBlock();
      if held.Err? {
        return Err(held.error);
      }
      var failure := CheckPcm();
      if failure.Some? {
        return Err(failure.value);
      }
      match held.value
      case Pending =>
        return Ok(Pending);
      case Ready(AtEnd) =>
        assert output[..0] == [] && output[0..] == output[..];
        return Ok(Ready(0));
      case Ready(BlockHeld) =>
        var frames := Copy(output);
        return Ok(Ready(frames));
    }

    /** Hands out as much of the block as fits, in whole frames. */
    method Copy(output: array<Byte>) returns (frames: nat)
      requires Valid() && offset < |block| && !program.isOpus
      modifies this`offset, this`handed, output
      ensures Valid() && frames == FramesTaken(|block| - old(offset), output.Length)
      ensures output.Length >= BYTES_PER_FRAME ==> frames > 0
      ensures 8 * frames <= output.Length && handed == old(handed) + output[..8 * frames]
      ensures output[8 * frames..] == old(output[8 * frames..])
    {
      var length := Least(|block| - offset, output.Length / 8 * 8);
      frames := length / 8;
      WholeFrames(|block| - offset, output.Length);
      MostFramesTaken(|block| - offset, output.Length);
      CopyInto(block[offset..offset + length], output);
      PieceAndRest(handed, block, offset, length);
      handed := handed + block[offset..offset + length];
      offset := offset + length;
    }

    /** The next packet, if it is not larger than the caller can take: then it is offered again, whole. */
    method ReadPacket(capacity: nat) returns (r: Result<Poll<Option<Block>>, Error>)
      requires Valid()
      modifies this`sys, this`accesses, this`block, this`offset, this`packets
      ensures Valid() && Follows(old(sys), sys) && sys.pushed == old(sys.pushed)
      ensures r.Ok? && r.value.Ready? && r.value.value.Some? ==>
        packets == old(packets) + [r.value.value.value] && 0 < |r.value.value.value| <= capacity
      ensures !(r.Ok? && r.value.Ready? && r.value.value.Some?) ==> packets == old(packets)
      ensures r == Ok(Ready(None)) ==> WholeHandedOut() && program.isOpus
      ensures r.Err? ==>
        || (r.error == NotOpus && !program.isOpus)
        || (r.error == PacketTooLarge(|block|, capacity) && |block| > capacity)
        || FailureHandedOut(r.error)
      ensures program.isOpus && old(block) != [] ==>
        r == if |old(block)| <= capacity then Ok(Ready(Some(old(block))))
             else Err(PacketTooLarge(|old(block)|, capacity))
      ensures program.isOpus && old(block) == [] && old(sys.output) != [] ==>
        var packet := old(sys.output)[0];
        r == if |packet| <= capacity then Ok(Ready(Some(packet))) else Err(PacketTooLarge(|packet|, capacity))
      ensures r == Ok(Pending) ==> old(offset) == |old(block)| && old(sys.output) == [] && sys.taken == old(sys.taken)
      ensures old(sys.status).Settled() ==> r != Ok(Pending)
    {
      var held := HoldBlock();
      if held.Err? {
        return Err(held.error);
      }
      var failure := CheckOpus();
      if failure.Some? {
        return Err(failure.value);
      }
      match held.value
      case Pending =>
        return Ok(Pending);
      case Ready(AtEnd) =>
        return Ok(Ready(None));
      case Ready(BlockHeld) =>
        if |block| > capacity {
          return Err(PacketTooLarge(|block|, capacity));
        }
        packets := packets + [block];
        r := Ok(Ready(Some(block)));
        block := [];
    }

    /** Stops the stream, then lets go of its channels, the input first. Nothing is left that could hold a worker up. */
    method Drop()
      requires Valid()
      modifies this`sys, this`accesses, this`input
      ensures Sane(program, sys) && LetGo(sys)
      ensures WorkerRuns(program, sys, StepsLeft(sys)).pc.Exited?
    {
      Await();
      LetGoSane(program, sys);
      sys := Stop(sys);
      Await();
      LetGoSane(program, sys);
      sys, input := CloseInput(sys), false;
      Await();
      LetGoSane(program, sys);
      sys := CloseOutput(sys);
      LetGoSaneExits(program, sys);
    }
  }

  /**
    * A handle's read has room for a frame, or it is refused: a buffer without would get nothing from a stream that goes
    * on, which is how the end is told.
    */
  method ReadHandle(stream: StreamSession, output: array<Byte>) returns (r: Result<Poll<nat>, Error>)
    requires stream.Valid()
    modifies stream, output
    ensures stream.Valid()
    ensures output.Length < BYTES_PER_FRAME ==> r == Err(ZeroCapacity) && stream.sys == old(stream.sys)
    ensures r == Ok(Ready(0)) ==> stream.WholeHandedOut()
    ensures r.Ok? && r.value.Ready? ==>
      8 * r.value.value <= output.Length && stream.handed == old(stream.handed) + output[..8 * r.value.value]
    ensures !(r.Ok? && r.value.Ready?) ==> stream.handed == old(stream.handed) && output[..] == old(output[..])
  {
    if output.Length < BYTES_PER_FRAME {
      return Err(ZeroCapacity);
    }
    r := stream.Read(output);
  }
}
