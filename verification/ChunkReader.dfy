/** The worker's side of the input: a queue of chunks read as one stream of bytes. */
module ChunkReaders {
  import opened Basics

  /**
    * How a wait for a chunk came out: the chunk, or none once the other side has gone and the queue is empty, and
    * whether the stream was seen to be stopped right after.
    */
  datatype Arrival = Arrival(chunk: Option<seq<Byte>>, stopped: bool)

  /** The waits' outcomes, in their order. */
  type Arrivals = nat -> Arrival

  /** The bytes of the chunks that were taken in by the first waits. */
  function Received(arrivals: Arrivals, waits: nat): seq<Byte> {
    if waits == 0 then []
    else
      var arrival := arrivals(waits - 1);
      Received(arrivals, waits - 1) + if arrival.stopped || arrival.chunk.None? then [] else arrival.chunk.value
  }

  /** A wait that brings a read no further, so that it waits again. */
  const NOTHING := Arrival(Some([]), false)

  ghost predicate AllNothing(arrivals: Arrivals, start: nat, end: int) {
    forall k | start <= k < end :: arrivals(k) == NOTHING
  }

  class ChunkReader {
    const arrivals: Arrivals
    var waits: nat
    var chunk: seq<Byte>
    var offset: nat

    /** Every byte the reader has given. */
    ghost var given: seq<Byte>

    ghost predicate Valid()
      reads this
    {
      && offset <= |chunk|
      && given + chunk[offset..] == Received(arrivals, waits)
    }

    constructor (arrivals: Arrivals)
      ensures Valid() && this.arrivals == arrivals && waits == 0 && given == []
    {
      this.arrivals := arrivals;
      waits, chunk, offset, given := 0, [], 0, [];
    }

    method Hold(chunk: seq<Byte>)
      modifies this`chunk, this`offset
      ensures this.chunk == chunk && offset == 0
    {
      this.chunk, offset := chunk, 0;
    }

    /** One wait: a chunk that comes is held, unless the stream has been stopped. */
    method Wait() returns (arrival: Arrival)
      requires Valid() && offset == |chunk|
      modifies this`waits, this`chunk, this`offset
      ensures Valid() && waits == old(waits) + 1 && arrival == arrivals(old(waits))
      ensures !arrival.stopped && arrival.chunk.Some? ==> chunk == arrival.chunk.value && offset == 0
      ensures arrival.stopped || arrival.chunk.None? ==> offset == |chunk|
    {
      arrival := arrivals(waits);
      waits := waits + 1;
      if !arrival.stopped && arrival.chunk.Some? {
        Hold(arrival.chunk.value);
      }
    }

    /** Bytes of the chunk at hand. */
    method Give(buffer: array<Byte>) returns (copied: nat)
      requires Valid()
      modifies this`given, this`offset, buffer
      ensures Valid() && copied == Least(buffer.Length, |chunk| - old(offset))
      ensures given == old(given) + buffer[..copied] && buffer[copied..] == old(buffer[copied..])
    {
      copied := Least(buffer.Length, |chunk| - offset);
      CopyInto(chunk[offset..offset + copied], buffer);
      PieceAndRest(given, chunk, offset, copied);
      given, offset := given + chunk[offset..offset + copied], offset + copied;
    }

    /**
      * The next bytes, as many as there are of the chunk at hand and as fit. Nothing into a buffer with room means the
      * end: the queue had run dry after its sender had gone, every byte queued was given, and no stop was seen. A stop
      * that is seen is an error, never the end. A read that has to wait goes on past empty chunks, to the first wait
      * that brings anything else, at `point` at the latest.
      */
    method Read(buffer: array<Byte>, ghost point: nat) returns (r: Result<nat, Error>)
      requires Valid()
      requires offset == |chunk| && buffer.Length > 0 ==> waits <= point && arrivals(point) != NOTHING
      modifies this, buffer
      ensures Valid() && old(waits) <= waits
      ensures AllNothing(arrivals, old(waits), waits - 1)
      ensures waits > old(waits) ==> arrivals(waits - 1) != NOTHING && old(offset == |chunk|)
      ensures r.Ok? ==> r.value <= buffer.Length && given == old(given) + buffer[..r.value]
      ensures r.Ok? ==> buffer[r.value..] == old(buffer[r.value..])
      ensures r.Err? ==> given == old(given) && buffer[..] == old(buffer[..])
      ensures r.Err? <==> waits > old(waits) && arrivals(waits - 1).stopped
      ensures r.Err? ==> r.error == StreamClosed
      ensures r == Ok(0) && buffer.Length > 0 ==>
        && waits > old(waits) && arrivals(waits - 1) == Arrival(None, false)
        && given == old(given) && given == Received(arrivals, waits)
      ensures buffer.Length == 0 ==> r == Ok(0) && waits == old(waits)
      ensures waits == old(waits) ==> r == Ok(Least(buffer.Length, old(|chunk| - offset)))
      ensures r.Ok? && waits > old(waits) && arrivals(waits - 1).chunk.Some? ==>
        r.value == Least(buffer.Length, |arrivals(waits - 1).chunk.value|) > 0
    {
      while offset == |chunk| && buffer.Length != 0
        modifies this
        invariant Valid() && given == old(given) && old(waits) <= waits
        invariant buffer[..] == old(buffer[..])
        invariant offset == |chunk| && buffer.Length > 0 ==> waits <= point
        invariant waits > old(waits) ==>
          && buffer.Length > 0 && old(offset == |chunk|) && offset == 0
          && arrivals(waits - 1) == Arrival(Some(chunk), false)
        invariant AllNothing(arrivals, old(waits), waits - 1)
        decreases point + 1 - waits
      {
        var arrival := Wait();
        if arrival.stopped {
          return Err(StreamClosed);
        }
        if arrival.chunk.None? {
          return Ok(0);
        }
      }
      var copied := Give(buffer);
      return Ok(copied);
    }
  }
}
