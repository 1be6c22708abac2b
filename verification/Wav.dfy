/** The walk over the chunks of a RIFF file in search of the frame count of its fact chunk. */
module Wav {
  import opened Basics

  const RIFF: seq<Byte> := [0x52, 0x49, 0x46, 0x46]
  const WAVE: seq<Byte> := [0x57, 0x41, 0x56, 0x45]
  const FACT: seq<Byte> := [0x66, 0x61, 0x63, 0x74]
  const DATA: seq<Byte> := [0x64, 0x61, 0x74, 0x61]

  const FORM_TYPE_OFFSET: nat := 8
  const RIFF_HEADER_LENGTH: nat := 12
  const CHUNK_HEADER_LENGTH: nat := 8
  const FACT_FRAMES_LENGTH: nat := 4
  const HEADER_LIMIT: nat := 65536

  /** The bytes are those of the letters. */
  predicate Spells(bytes: seq<Byte>, letters: string) {
    |bytes| == |letters| && forall i | 0 <= i < |bytes| :: bytes[i] as int == letters[i] as int
  }

  lemma Identifiers()
    ensures Spells(RIFF, "RIFF") && Spells(WAVE, "WAVE") && Spells(FACT, "fact") && Spells(DATA, "data")
  {}

  function LittleEndian(word: seq<Byte>): (value: nat)
    requires |word| == 4
    ensures value < 0x1_0000_0000
  {
    word[0] as nat + 256 * word[1] as nat + 65536 * word[2] as nat + 16777216 * word[3] as nat
  }

  function LittleEndianBytes(value: nat): (word: seq<Byte>)
    requires value < 0x1_0000_0000
    ensures |word| == 4
  {
    [(value % 256) as Byte, (value / 256 % 256) as Byte, (value / 65536 % 256) as Byte, (value / 16777216) as Byte]
  }

  lemma LittleEndianRoundTrip(value: nat)
    requires value < 0x1_0000_0000
    ensures LittleEndian(LittleEndianBytes(value)) == value
  {
    assert value / 65536 == value / 256 / 256;
    assert value / 16777216 == value / 65536 / 256;
  }

  predicate IsWave(header: seq<Byte>) {
    && RIFF <= header
    && RIFF_HEADER_LENGTH <= |header|
    && header[FORM_TYPE_OFFSET..RIFF_HEADER_LENGTH] == WAVE
  }

  function ChunkId(header: seq<Byte>, position: nat): seq<Byte>
    requires position + CHUNK_HEADER_LENGTH <= |header|
  {
    header[position..position + 4]
  }

  function ChunkSize(header: seq<Byte>, position: nat): nat
    requires position + CHUNK_HEADER_LENGTH <= |header|
  {
    LittleEndian(header[position + 4..position + 8])
  }

  /** Where the chunk after the one at position starts: on an even offset from it. */
  function NextChunk(header: seq<Byte>, position: nat): nat
    requires position + CHUNK_HEADER_LENGTH <= |header|
  {
    var size := ChunkSize(header, position);
    position + CHUNK_HEADER_LENGTH + size + size % 2
  }

  /** Where the walk from position finds a frame count, if a fact chunk comes before the data. */
  function FactFrom(header: seq<Byte>, position: nat): (at: Option<nat>)
    ensures at.Some? ==> position < at.value && at.value + FACT_FRAMES_LENGTH <= |header|
    decreases |header| - position
  {
    if position + CHUNK_HEADER_LENGTH > |header| then None
    else if ChunkId(header, position) == FACT then
      var body := position + CHUNK_HEADER_LENGTH;
      if body + FACT_FRAMES_LENGTH <= |header| then Some(body) else None
    else if ChunkId(header, position) == DATA then None
    else FactFrom(header, NextChunk(header, position))
  }

  function FactAt(header: seq<Byte>): (at: Option<nat>)
    ensures at.Some? ==> at.value + FACT_FRAMES_LENGTH <= |header|
  {
    if IsWave(header) then FactFrom(header, RIFF_HEADER_LENGTH) else None
  }

  function FramesAt(header: seq<Byte>, at: Option<nat>): Option<nat>
    requires at.Some? ==> at.value + FACT_FRAMES_LENGTH <= |header|
  {
    match at
    case None => None
    case Some(start) => Some(LittleEndian(header[start..start + FACT_FRAMES_LENGTH]))
  }

  function StatedFrames(header: seq<Byte>): Option<nat> {
    FramesAt(header, FactAt(header))
  }

  method FactFrames(header: seq<Byte>) returns (frames: Option<nat>)
    ensures frames == StatedFrames(header)
  {
    if !(RIFF <= header) || |header| < RIFF_HEADER_LENGTH || header[FORM_TYPE_OFFSET..RIFF_HEADER_LENGTH] != WAVE {
      return None;
    }
    var position := RIFF_HEADER_LENGTH;
    while position + CHUNK_HEADER_LENGTH <= |header|
      invariant FactFrom(header, position) == FactAt(header)
      decreases |header| - position
    {
      var identifier := header[position..position + 4];
      var size := LittleEndian(header[position + 4..position + 8]);
      var body := position + CHUNK_HEADER_LENGTH;
      if identifier == FACT {
        if body + FACT_FRAMES_LENGTH > |header| {
          return None;
        }
        return Some(LittleEndian(header[body..body + FACT_FRAMES_LENGTH]));
      } else if identifier == DATA {
        return None;
      }
      position := body + size + size % 2;
    }
    return None;
  }

  /** Only a wave file that reaches as far as a first chunk's frame count states any frames. */
  lemma OnlyWaveFilesState(header: seq<Byte>)
    requires StatedFrames(header).Some?
    ensures |header| >= 24 && Spells(header[..4], "RIFF") && Spells(header[8..12], "WAVE")
  {
    Identifiers();
    assert header[..4] == RIFF;
    FactAfter(header, RIFF_HEADER_LENGTH);
  }

  lemma {:induction false} FactAfter(header: seq<Byte>, position: nat)
    requires FactFrom(header, position).Some?
    ensures position + CHUNK_HEADER_LENGTH <= FactFrom(header, position).value <= |header|
    decreases |header| - position
  {
    if ChunkId(header, position) != FACT {
      FactAfter(header, NextChunk(header, position));
    }
  }

  // A prefix never gives another answer

  lemma {:induction false} FactFromPrefix(header: seq<Byte>, n: nat, position: nat)
    requires n <= |header|
    ensures FactFrom(header[..n], position) == (match FactFrom(header, position)
        case Some(at) => if at + FACT_FRAMES_LENGTH <= n then Some(at) else None
        case None => None)
    decreases |header| - position
  {
    if position + CHUNK_HEADER_LENGTH <= n {
      assert ChunkId(header[..n], position) == ChunkId(header, position);
      assert header[..n][position + 4..position + 8] == header[position + 4..position + 8];
      if ChunkId(header, position) != FACT && ChunkId(header, position) != DATA {
        FactFromPrefix(header, n, NextChunk(header, position));
      }
    }
  }

  /** A prefix tells what the whole file tells as soon as it holds the frame count, and until then nothing. */
  lemma PrefixAnswers(header: seq<Byte>, n: nat)
    requires n <= |header|
    ensures StatedFrames(header[..n]) == (match FactAt(header)
        case Some(at) => if at + FACT_FRAMES_LENGTH <= n then StatedFrames(header) else None
        case None => None)
  {
    var prefix := header[..n];
    if n < RIFF_HEADER_LENGTH {
      assert !IsWave(prefix);
    } else {
      assert prefix[FORM_TYPE_OFFSET..RIFF_HEADER_LENGTH] == header[FORM_TYPE_OFFSET..RIFF_HEADER_LENGTH];
      assert prefix[..4] == header[..4];
      assert IsWave(prefix) == IsWave(header);
      FactFromPrefix(header, n, RIFF_HEADER_LENGTH);
      if FactAt(prefix).Some? {
        var at := FactAt(prefix).value;
        assert prefix[at..at + FACT_FRAMES_LENGTH] == header[at..at + FACT_FRAMES_LENGTH];
      }
    }
  }

  // What the walk finds in a file written chunk by chunk

  datatype Chunk = Chunk(id: seq<Byte>, body: seq<Byte>) {
    predicate Valid() {
      |id| == 4 && |body| < 0x1_0000_0000
    }

    function Padding(): seq<Byte> {
      if |body| % 2 == 1 then [0] else []
    }

    function Header(): (r: seq<Byte>)
      requires Valid()
      ensures |r| == CHUNK_HEADER_LENGTH
    {
      id + LittleEndianBytes(|body|)
    }

    function Written(): seq<Byte>
      requires Valid()
    {
      Header() + body + Padding()
    }
  }

  function WrittenChunks(chunks: seq<Chunk>): seq<Byte>
    requires forall c <- chunks :: c.Valid()
  {
    if chunks == [] then [] else chunks[0].Written() + WrittenChunks(chunks[1..])
  }

  /** A file of those chunks, whatever its header says of its size: a recorder may not have known it. */
  function WrittenFile(size: seq<Byte>, chunks: seq<Chunk>): seq<Byte>
    requires |size| == 4 && forall c <- chunks :: c.Valid()
  {
    RIFF + size + WAVE + WrittenChunks(chunks)
  }

  /** The frames stated by the first fact chunk, if it comes before any data and is long enough to state them. */
  function FramesOf(chunks: seq<Chunk>): Option<nat> {
    if chunks == [] || chunks[0].id == DATA then None
    else if chunks[0].id == FACT then
      if |chunks[0].body| >= FACT_FRAMES_LENGTH then Some(LittleEndian(chunks[0].body[..FACT_FRAMES_LENGTH])) else None
    else FramesOf(chunks[1..])
  }

  /**
    * The first fact chunk before any data, if there is one, is long enough, or the file ends before it could be taken
    * to be: fewer than four bytes come after its header.
    */
  predicate FactIsWhole(chunks: seq<Chunk>)
    requires forall c <- chunks :: c.Valid()
  {
    if chunks == [] || chunks[0].id == DATA then true
    else if chunks[0].id == FACT then
      var after := chunks[0].body + chunks[0].Padding() + WrittenChunks(chunks[1..]);
      |chunks[0].body| >= FACT_FRAMES_LENGTH || |after| < FACT_FRAMES_LENGTH
    else FactIsWhole(chunks[1..])
  }

  lemma FirstChunkSeen(before: seq<Byte>, chunk: Chunk, after: seq<Byte>)
    requires chunk.Valid()
    ensures var header := before + (chunk.Written() + after);
      && |before| + CHUNK_HEADER_LENGTH <= |header|
      && ChunkId(header, |before|) == chunk.id
      && ChunkSize(header, |before|) == |chunk.body|
      && header[|before| + CHUNK_HEADER_LENGTH..] == chunk.body + chunk.Padding() + after
      && NextChunk(header, |before|) == |before + chunk.Written()|
  {
    var header := before + (chunk.Written() + after);
    assert header[|before| + 4..|before| + 8] == LittleEndianBytes(|chunk.body|);
    LittleEndianRoundTrip(|chunk.body|);
  }

  lemma FactRead(header: seq<Byte>, position: nat, after: seq<Byte>)
    requires position + CHUNK_HEADER_LENGTH <= |header| && ChunkId(header, position) == FACT
    requires header[position + CHUNK_HEADER_LENGTH..] == after
    ensures FramesAt(header, FactFrom(header, position))
      == if |after| >= FACT_FRAMES_LENGTH then Some(LittleEndian(after[..FACT_FRAMES_LENGTH])) else None
  {
    var at := position + CHUNK_HEADER_LENGTH;
    if |after| >= FACT_FRAMES_LENGTH {
      assert header[at..at + FACT_FRAMES_LENGTH] == after[..FACT_FRAMES_LENGTH];
    }
  }

  lemma FactReached(before: seq<Byte>, chunk: Chunk, rest: seq<Byte>)
    requires chunk.Valid() && chunk.id == FACT
    ensures var header, after := before + (chunk.Written() + rest), chunk.body + chunk.Padding() + rest;
      FramesAt(header, FactFrom(header, |before|))
      == if |after| >= FACT_FRAMES_LENGTH then Some(LittleEndian(after[..FACT_FRAMES_LENGTH])) else None
  {
    FirstChunkSeen(before, chunk, rest);
    FactRead(before + (chunk.Written() + rest), |before|, chunk.body + chunk.Padding() + rest);
  }

  lemma {:induction false} WalkFindsFirstFact(before: seq<Byte>, chunks: seq<Chunk>)
    requires forall c <- chunks :: c.Valid()
    ensures var header := before + WrittenChunks(chunks);
      FramesAt(header, FactFrom(header, |before|)) == FramesOf(chunks) <==> FactIsWhole(chunks)
    decreases |chunks|
  {
    var header := before + WrittenChunks(chunks);
    if chunks != [] {
      var chunk, rest := chunks[0], WrittenChunks(chunks[1..]);
      FirstChunkSeen(before, chunk, rest);
      if chunk.id == FACT {
        FactReached(before, chunk, rest);
        var after := chunk.body + chunk.Padding() + rest;
        assert |chunk.body| >= FACT_FRAMES_LENGTH ==> after[..FACT_FRAMES_LENGTH] == chunk.body[..FACT_FRAMES_LENGTH];
      } else if chunk.id != DATA {
        assert header == before + chunk.Written() + rest;
        WalkFindsFirstFact(before + chunk.Written(), chunks[1..]);
      }
    }
  }

  /**
    * In any list of chunks padded to even sizes, the walk finds what the first fact chunk before any data states
    * exactly when that chunk is whole.
    */
  lemma WrittenFactFound(size: seq<Byte>, chunks: seq<Chunk>)
    requires |size| == 4 && forall c <- chunks :: c.Valid()
    ensures StatedFrames(WrittenFile(size, chunks)) == FramesOf(chunks) <==> FactIsWhole(chunks)
  {
    var before := RIFF + size + WAVE;
    var header := before + WrittenChunks(chunks);
    assert header == WrittenFile(size, chunks);
    assert header[FORM_TYPE_OFFSET..RIFF_HEADER_LENGTH] == WAVE;
    WalkFindsFirstFact(before, chunks);
  }

  /** A fact chunk too short for a frame count borrows the bytes after it: here a padding byte and an identifier. */
  lemma ShortFactBorrows()
    ensures var chunks := [Chunk(FACT, [7]), Chunk(DATA, [])];
      && !FactIsWhole(chunks) && FramesOf(chunks) == None
      && StatedFrames(WrittenFile([0, 0, 0, 0], chunks)) == Some(7 + 65536 * 0x64 + 16777216 * 0x61)
  {
    var fact, data := Chunk(FACT, [7]), Chunk(DATA, []);
    var chunks := [fact, data];
    assert chunks[1..] == [data] && [data][1..] == [];
    var before := RIFF + [0, 0, 0, 0] + WAVE;
    var rest := WrittenChunks([data]);
    assert rest == data.Written() + WrittenChunks([]) && rest[..4] == DATA;
    var header := before + (fact.Written() + rest);
    assert header == WrittenFile([0, 0, 0, 0], chunks);
    assert header[FORM_TYPE_OFFSET..RIFF_HEADER_LENGTH] == WAVE;
    FactReached(before, fact, rest);
    assert (fact.body + fact.Padding() + rest)[..4] == [7, 0, 0x64, 0x61];
  }

  // Reading the header of a source

  class Source {
    const bytes: seq<Byte>
    var position: nat

    constructor (bytes: seq<Byte>)
      ensures this.bytes == bytes && position == 0
    {
      this.bytes := bytes;
      position := 0;
    }

    /** Reads on from the position, no more than the limit. */
    method Take(limit: nat) returns (taken: seq<Byte>)
      modifies this
      ensures old(position) >= |bytes| ==> taken == [] && position == old(position)
      ensures old(position) < |bytes| ==> position == old(position) + |taken|
      ensures old(position) < |bytes| ==> taken == bytes[old(position)..][..Least(limit, |bytes| - old(position))]
    {
      if position >= |bytes| {
        return [];
      }
      taken := bytes[position..][..Least(limit, |bytes| - position)];
      position := position + |taken|;
    }

    method ReadFactFrames() returns (frames: Option<nat>)
      modifies this
      ensures position == 0
      ensures old(position) == 0 ==> frames == StatedFrames(bytes[..Least(HEADER_LIMIT, |bytes|)])
      ensures old(position) == 0 ==> frames == None || frames == StatedFrames(bytes)
      ensures old(position) == 0 && |bytes| <= HEADER_LIMIT ==> frames == StatedFrames(bytes)
    {
      var header := Take(HEADER_LIMIT);
      position := 0;
      frames := FactFrames(header);
      PrefixAnswers(bytes, Least(HEADER_LIMIT, |bytes|));
      assert bytes[0..] == bytes && bytes[..|bytes|] == bytes;
    }
  }

  // The length to play

  const WAVE_CONTAINER_NAME := "wave"
  const PCM_CODEC_PREFIX := "pcm_"

  /** A compressed wave file states the frames of its padded blocks. */
  predicate Padded(container: string, codec: string) {
    container == WAVE_CONTAINER_NAME && !(PCM_CODEC_PREFIX <= codec)
  }

  /** The fact chunk of a file with padded blocks may state fewer frames, but not none. */
  function PlayableFrames(stated: Option<nat>, container: string, codec: string, fact: Option<nat>): (r: Option<nat>)
    ensures r.Some? <==> stated.Some?
    ensures r == fact != stated <==>
      && container == "wave" && (|codec| < 4 || codec[..4] != "pcm_")
      && stated.Some? && fact.Some? && 0 < fact.value < stated.value
    ensures r == stated || r == fact
  {
    match (stated, fact)
    case (Some(s), Some(f)) => if Padded(container, codec) && 0 < f < s then Some(f) else stated
    case _ => stated
  }

  /** A file on disk plays as many frames as the same bytes in memory, or as many as its container states. */
  lemma FileLikeMemory(bytes: seq<Byte>, limit: nat, stated: Option<nat>, container: string, codec: string)
    requires limit <= |bytes|
    ensures var file := PlayableFrames(stated, container, codec, StatedFrames(bytes[..limit]));
      file == stated || file == PlayableFrames(stated, container, codec, StatedFrames(bytes))
  {
    PrefixAnswers(bytes, limit);
  }
}
