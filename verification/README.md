# The native decoder's stream protocol and pipeline, and the bundled 64-bit integers

This project models the parts of the repository whose correctness is not plain from reading one function, and proves
properties of the model for every input, every run and every reachable state. `dafny verify dfyconfig.toml` checks it.

**Streams** (`Stream.dfy`, `StreamSession.dfy`, `Programs.dfy`, `Status.dfy`, `ChunkReader.dfy`, `Workers.dfy`). A
caller queues bytes, a worker thread decodes them and sends blocks back, and the two share nothing but two bounded
queues and a locked status. `Streams.System` is the state of all of that; every step is one access to what is shared,
so that a run is any interleaving of the two sides. The worker's decoding session is a `Program`: it answers by what
it has read and made so far, and by nothing else. `Programs.RunSteps` is the same program reading a whole string of
bytes by itself, and is what streams are held against: the blocks that a caller has taken are always a beginning of
the blocks of that run, and are all of them when the end is told, however the bytes were cut into chunks and whoever
was faster. `StreamSession` is the caller's object with its real loops; between any two of its accesses the worker
takes as many steps as an arbitrary schedule says. A dropped session leaves a worker that nothing can hold up and that
exits within a stated number of steps. `Workers.Pool` puts any number of streams beside the counter of their workers.
The status and the chunk reader are classes of their own. Their specification functions are what the steps of
`Streams.System` are made of: the changes of its status are a history of `Statuses`, and the bytes that its worker
consumes are those that a chunk reader gives, whatever the sizes of the reads. What is safe also comes about: once the
input is closed, a worker that acts as often as a stated number of its session's steps allows has settled the stream,
and a caller that takes a block whenever the worker is held up gets it there.

**The decode pipeline** (`Demuxer.dfy`, `Decoder.dfy`, `Session.dfy`, `Resample.dfy`, `Mix.dfy`, `Wav.dfy`). Packets are
demuxed, decoded, mixed to stereo, resampled in chunks of 1024 frames, kept in a ready buffer, read in pieces of any
size and cut into blocks of 4800 frames. Each layer is a class with its buffers, proved against a function of the whole
stream at once: `Decode.Track.Heard` for what a caller is to hear, `Resample.Complete` for the output of the resampler.
The container's reader is its sequence of answers, which may go on for ever, and a codec is a function of the packets
it was given. The Fourier transform behind the resampler is not part of the repository. `Resample.Fft` states what is
assumed of it: every `sizeIn` frames make `sizeOut` frames that depend on nothing after them, fewer are saved for the
next call, the sizes are in the ratio of the rates, and a partial chunk is filled up with silence. Samples are reals.
A source may be endless. A fill or a read is given the point where it has an answer (`Decode.Track.Settles`: the stream
is over, enough can be heard, or an answer of the reader fails), stops at the first such point, and comes back exactly
when there is one.

**Both together** (`Players.dfy`, `Playback.dfy`). `Players.Media` is a container that is read as its bytes come: from
the bytes so far and whether they have ended, it tells what the track is and what the reader answers, or that it must
have more bytes. It is assumed to be steady, so that what it has told stays true however the bytes go on, and to have
an answer to everything once they have ended. A `Players.Course` is what a session does for the n-th time, by the
answers known so far; `Playback.PcmCourse` and `Playback.OpusCourse` are those of the two kinds of sessions. The program
of such a session exists for every container, and yields exactly what the bytes decide. A session that is still
undecided when all bytes have been told counts as a panic. `Playback.EndToEnd` follows from these and from the
protocol, with no assumption about the blocks. `Playback.TrackComesThrough` says that the end it speaks of is reached.

**64-bit integers** (`Words.dfy`, `Int64.dfy`, `Arithmetic64.dfy`, `Products64.dfy`, `Division64.dfy`, `Decimal.dfy`,
`BitStrings.dfy`). The Luau module keeps an unsigned 64-bit integer in a vector of 22, 20 and 22 bits. Numbers are
integers here, and the vectors' components and the numbers in between are bounded where the code relies on floats being
exact. `Int64.Value` is the integer that a vector denotes; every operation is proved to compute what its name says of
it, or exactly when it does. Luau's `bit32` is not part of the repository: that `rshift`, `lshift`, `extract`, `replace`
and `countlz` do what `Words` says is assumed, and so is that `tostring` of a number below 2^53 is its plain numeral.

Some definitions hold back behind a quantifier over `Shown`, or one like it, so that proofs that do not need them go by
name. Ghost parameters and fields carry what the code itself does not keep, such as everything heard so far.

## What does not hold

Each of these comes with the exact condition under which the code does what is expected of it.

- The shift-and-subtract loop of `div` moves the divisor up by the distance of the operands' lengths, whichever is
  longer. With a divisor that is longer than the dividend the move can wrap, and the result is then congruent but not a
  quotient and a remainder: 3 divided by 2^63 + 1 gives 2 and 1. `DivExactIff` says for which operands it is exact, and
  `NotTooLongDivides` that lengths alone suffice where the divisor is not much longer than the dividend.
- `div_32` loses a place of its partial remainder above 2^31, so that it is exact for all dividends if and only if the
  divisor is at most that (`Div32ExactFor`).
- A read need not come back: on a source with nothing but packets without frames none ever does, resampled or not
  (`SilentSourceNeverOver`). `ComesBackExactly` says of every track when a read does: if and only if at some point the
  stream is over, there is enough to hear, or an answer of the reader fails.
- A fact chunk that is shorter than four bytes is read together with the bytes after it (`ShortFactBorrows`). The walk
  finds what a file states if and only if its first fact chunk before any data is whole, or nothing that could be
  borrowed comes after it (`WrittenFactFound`).
- A read into a buffer without room for a frame tells the end of a stream that goes on, for a start that of every
  session that has just been opened (`ReadWithoutRoom`). That nothing read means the end is guaranteed if and only if
  there is room for a frame, for a session and for a stream (`RoomTellsTheEnd`); `ReadHandle` is the guard for it.

## Model

| member | source | states |
|---|---|---|
| Streams.InitiallyInv | packages/symphonia/native/src/stream.rs:46-62 | an opened stream's first state has every invariant of the protocol |
| Streams.WorkerKeeps | packages/symphonia/native/src/stream.rs:188-230 | every step of the worker keeps all invariants: bytes, blocks, course, status and channels |
| Streams.CheckKeeps | packages/symphonia/native/src/chunk_reader.rs:33-41 | after a wait, a stop comes before a chunk and before an end, and neither way is a byte misplaced |
| Streams.SendKeeps | packages/symphonia/native/src/stream.rs:218-220 | a block goes to the end of the queue, or nowhere once its receiver has gone |
| Streams.ShowKeeps | packages/symphonia/native/src/stream.rs:206-229 | a state or a failure is only stored where the worker has nothing left to send that it would contradict |
| Streams.TrySendKeeps | packages/symphonia/native/src/stream.rs:77-81 | queueing a chunk keeps all invariants |
| Streams.TryRecvKeeps | packages/symphonia/native/src/stream.rs:161-165 | taking a block keeps all invariants: it is the next one, once |
| Streams.LetGoKeeps | packages/symphonia/native/src/stream.rs:177-181 | stopping, closing the input and dropping the output keep all invariants |
| Streams.RunKeeps | packages/symphonia/native/src/stream.rs:45-230 | every state of every interleaving has all invariants |
| Streams.StepFollows | packages/symphonia/native/src/status.rs:21-53 | no step takes back a history, an observed state, a failure or a stop |
| Streams.RunGoesForward | packages/symphonia/native/src/stream.rs:157-169 | over any run nothing goes back, and once the stream is settled no block is ever sent again |
| Streams.EndIsWhole | packages/symphonia/native/src/stream.rs:226-229 | an observed end means that the blocks sent are those one session makes of all bytes queued |
| Streams.FailureIsOwn | packages/symphonia/native/src/stream.rs:188-195 | an observed failure is that of one session reading the bytes queued, after the same blocks |
| Streams.SettledAndDrained | packages/symphonia/native/src/stream.rs:157-169 | settled with an empty queue, every block sent has been taken |
| Streams.TakenIsPrefix | packages/symphonia/native/src/stream.rs:200-230 | at every moment the blocks taken begin those that one session makes of the whole |
| Streams.ChunksDoNotMatter | packages/symphonia/native/src/chunk_reader.rs:31-49 | two ended streams given the same bytes, cut and scheduled differently, gave the same blocks |
| Streams.ReadsAreConsumed | packages/symphonia/native/src/chunk_reader.rs:31-49 | in every run, what the session has consumed and has at hand is what a chunk reader is given by the same waits |
| Streams.RunPublishesForward | packages/symphonia/native/src/stream.rs:200-230 | in every run the status is what a history of forward publications, failures and stops makes of it |
| Streams.ClosedForAReason | packages/symphonia/native/src/stream.rs:188-198 | a closed channel implies a stored failure or the end, while the caller holds on |
| Streams.HeldUpForAReason | packages/symphonia/native/src/stream.rs:18-19 | only an empty input or a full output can hold a worker up |
| Streams.AllReadBeforeWaiting | packages/symphonia/native/src/chunk_reader.rs:33-41 | with room in the output queue a worker can act, or waits for more than has been queued, all of which it has read |
| Streams.RunComesNearer | packages/symphonia/native/src/stream.rs:188-230 | whatever the caller does beside, but for queueing more and stopping, each act of the worker lowers the stated measure until the stream is settled |
| Streams.EndComes | packages/symphonia/native/src/chunk_reader.rs:39-40 | once the input is closed and unless it is stopped, a worker that has acted more than 8n + 2q + 5 times, with a session that takes n steps and q chunks queued, has settled the stream as that session comes out, with all its blocks sent |
| Streams.ServedComesToTheEnd | packages/symphonia/native/src/stream.rs:157-230 | a caller that takes a block whenever the worker cannot act finds a closed stream settled within a stated number of turns, as one session on all the bytes comes out |
| Streams.LetGoGoesOn | packages/symphonia/native/src/stream.rs:177-198 | after the close the worker can always step, and each step lowers the stated measure |
| Streams.LetGoExits | packages/symphonia/native/src/stream.rs:188-198 | after the close the worker has exited once it has taken that many steps |
| Programs.OneOutcome | packages/symphonia/native/src/stream.rs:200-230 | a session reading given bytes comes to one outcome |
| Programs.YieldsOnce | packages/symphonia/native/src/stream.rs:200-230 | the blocks that a session makes of given bytes are determined by them |
| Programs.RunExtends | packages/symphonia/native/src/chunk_reader.rs:31-49 | until it is told of the end, a session does the same on any continuation of the bytes |
| StreamSessions.StreamSession.constructor | packages/symphonia/native/src/stream.rs:46-62 | a stream starts with nothing queued, sent or handed out |
| StreamSessions.StreamSession.Push | packages/symphonia/native/src/stream.rs:64-82 | a chunk is queued whole or not at all; on an unfinished stream a refusal means that it has ended or failed |
| StreamSessions.StreamSession.Finish | packages/symphonia/native/src/stream.rs:84-86 | from then on every push is refused, and nothing queued is lost |
| StreamSessions.StreamSession.GetState | packages/symphonia/native/src/stream.rs:88-90 | the state observed, which does not go back |
| StreamSessions.StreamSession.HoldBlock | packages/symphonia/native/src/stream.rs:157-169 | an end or a failure is told only when every block the worker will ever send has been handed out; a queued block is taken at once, so that the caller is to wait only on an empty, open queue, and never on a settled stream |
| StreamSessions.StreamSession.Read | packages/symphonia/native/src/stream.rs:108-126 | the next whole frames of a block at hand or else of the first one queued, as many as fit; to wait is told only with neither; nothing into a buffer with room means all that one session makes was handed out |
| StreamSessions.StreamSession.ReadPacket | packages/symphonia/native/src/stream.rs:128-141 | the packet at hand or else the first one queued, once; one that is too large is offered again whole; to wait is told only with neither; none only after all |
| StreamSessions.StreamSession.CheckPcm | packages/symphonia/native/src/stream.rs:143-148 | no samples are read from a stream of packets |
| StreamSessions.StreamSession.CheckOpus | packages/symphonia/native/src/stream.rs:150-155 | no packets are read from a stream of samples |
| StreamSessions.StreamSession.Drop | packages/symphonia/native/src/stream.rs:177-181 | whatever the worker does meanwhile, it is let go of in order and exits |
| StreamSessions.ReadHandle | packages/symphonia/native/src/handle.rs:89-98 | without room for a frame a read is refused, so that reading nothing always is the end |
| StreamSessions.RoomTellsTheEnd | packages/symphonia/native/src/stream.rs:108-126 | something is taken of whatever is left of a block if and only if there is room for a frame |
| StreamSessions.MostFramesTaken | packages/symphonia/native/src/stream.rs:108-126 | what is taken is whole frames that are there and fit, and one more would not be there or not fit |
| Players.YieldsWhatIsDecided | packages/symphonia/native/src/stream.rs:200-230 | a session yields some blocks if and only if the bytes decide that it makes those in turn and no more |
| Players.FailsAsDecided | packages/symphonia/native/src/stream.rs:188-195 | a session that fails without a panic does so for the reason the bytes decide, after the blocks they decide |
| Playback.PcmSettles | packages/symphonia/native/src/decoder.rs:76-87 | a session comes to its n-th block exactly where a read of that block has an answer |
| Playback.PlayedOutIsWhole | packages/symphonia/native/src/stream.rs:200-239 | a session that plays to the end has made the whole track cut every 4800 frames, and met nothing that fails |
| Playback.TrackIsPlayed | packages/symphonia/native/src/stream.rs:200-239 | a track that is over at some point with nothing that fails before is made whole by one session on its bytes |
| Playback.TrackComesThrough | packages/symphonia/native/src/stream.rs:157-239 | where the input is closed on the bytes of such a track, a caller that takes a block whenever the worker cannot act finds the stream ended, with all of the track sent, after so many turns and from then on |
| Playback.FailsAfterFullBlocks | packages/symphonia/native/src/stream.rs:206-239 | a session that fails on a track has made every block of 4800 frames that was filled up to there, nothing of the rest, and fails for the first reason there is |
| Playback.EndToEnd | packages/symphonia/native/src/stream.rs:108-126 | by the end the caller has had every frame of the whole track in the bytes queued, each as eight bytes at its place: the fewest that last at 48 kHz as long as the frames mixed, from full blocks but for the last, whatever the chunks, the reads and the interleaving |
| Playback.EndToEndOpus | packages/symphonia/native/src/stream.rs:128-141 | by the end the caller has had every packet of the track that has anything in it, once and in order |
| Playback.WrittenFlat | packages/symphonia/native/src/stream.rs:232-239 | blocks written out one by one are the frames written out |
| Workers.EventKeepsCount | packages/symphonia/native/src/stream.rs:46-62 | each event changes the counter with the workers: a start, a failed start, a last step |
| Workers.CountIsWorkers | packages/symphonia/native/src/stream.rs:183-198 | in every history of many streams the counter is the number of workers that have not exited |
| Workers.ZeroMeansGone | packages/symphonia/native/src/stream.rs:183-185 | the counter is zero exactly when no worker is left |
| Statuses.HistoryGoesForward | packages/symphonia/native/src/status.rs:21-57 | over any history that publishes forward, the observed state only moves up and the first failure, the names and the stop stay |
| Statuses.InfoIsLast | packages/symphonia/native/src/status.rs:21-29 | the info and the state are those of the last publication |
| Statuses.NamesAreFirst | packages/symphonia/native/src/status.rs:21-29 | the names of the codec and the container are those of the first publication |
| ChunkReaders.ChunkReader.Read | packages/symphonia/native/src/chunk_reader.rs:31-49 | bytes in order, once, past empty chunks; nothing means the sender had gone, every byte was given and no stop was seen; a stop seen is an error |
| Sessions.Session.Read | packages/symphonia/native/src/session.rs:118-127 | the next piece of the frames; ended exactly when a read got none; a failure has the reason of the last answer; without room nothing changes but that it is ended |
| Sessions.Session.Fetch | packages/symphonia/native/src/demuxer.rs:28-52 | a fetch conserves the packets: returned, offered and skipped ones are those of the track read so far |
| Sessions.Session.NextNonEmpty | packages/symphonia/native/src/session.rs:134-139 | empty packets are passed over within the bound on skips, on any reader; it fails exactly where the last answer does, for that reason |
| Sessions.Session.ReadPacket | packages/symphonia/native/src/session.rs:129-157 | the packets returned are the track's non-empty ones in order; one that is too large is offered again unchanged; any other failure is exactly the last answer's; after the end there is none |
| Sessions.SkippedAreEmpty | packages/symphonia/native/src/demuxer.rs:58-61 | of a track passed through, the packets told as skipped are the empty ones among those read |
| Sessions.Session.MarkFailed | packages/symphonia/native/src/session.rs:193-195 | the session is failed from then on, by its first failure |
| Sessions.RoomTellsTheEnd | packages/symphonia/native/src/session.rs:118-127 | nothing read means that the stream is over and read to its end, if and only if there was room for a frame |
| Sessions.ReadWithoutRoom | packages/symphonia/native/src/session.rs:118-127 | a session on any track that has not asked its reader yet says it has ended, once read without room |
| Sessions.ReadPcmBlock | packages/symphonia/native/src/stream.rs:232-239 | a block is the next 4800 frames, or what is left at the end, or none after it; a failure has the reason of the last answer |
| Sessions.DecodePcm | packages/symphonia/native/src/stream.rs:206-226 | up to the end, the blocks are the whole stream cut every 4800 frames; a failure leaves a beginning of it and has the reason of the last answer |
| Sessions.CutIsWhole | packages/symphonia/native/src/stream.rs:232-239 | the cut pieces are the whole in order, all full but the last, which is not empty |
| Sessions.BlocksAreCut | packages/symphonia/native/src/stream.rs:232-239 | there is one way to cut a stream into such blocks |
| Demux.Demuxer.NextPacket | packages/symphonia/native/src/demuxer.rs:28-52 | the packet put back, nothing after the end, or the answer after the other tracks' packets; it ends on an endless reader |
| Demux.PassesOnce | packages/symphonia/native/src/demuxer.rs:37-47 | how many packets a fetch passes over is determined by the reader and the run |
| Demux.TooManyExactly | packages/symphonia/native/src/demuxer.rs:67-75 | too many skips are reported exactly when the rest of the run and one packet more are other tracks' |
| Demux.RunTooLong | packages/symphonia/native/src/demuxer.rs:58-75 | the run is longer than the bound exactly when more than that were passed over without a packet decoded between |
| Demux.FetchConserves | packages/symphonia/native/src/demuxer.rs:37-47 | a fetch loses none of the track's packets |
| Decode.Decoder.constructor | packages/symphonia/native/src/decoder.rs:29-50 | a decoder starts with nothing decoded, and a resampler unless the track is at 48 kHz |
| Decode.Decoder.Read | packages/symphonia/native/src/decoder.rs:56-74 | the next piece of the stream, up to the first point with an answer; short only when it is over; after a failure, for the reason of the last answer, every unread frame is still there once; nothing after the end, for ever |
| Decode.Decoder.Fill | packages/symphonia/native/src/decoder.rs:76-87 | enough ready frames, the end or a failure, at the first point that gives one of them; no more than wanted and one packet's, for packets within the stated capacity |
| Decode.Decoder.DecodeNext | packages/symphonia/native/src/decoder.rs:89-113 | each call goes on to the next packet or other answer, or finishes, and fails exactly for the reason the last answer gives |
| Decode.Decoder.MixIn | packages/symphonia/native/src/decoder.rs:106-132 | a decoded packet's frames follow those before, up to the limit, in the current layout |
| Decode.Decoder.Append | packages/symphonia/native/src/decoder.rs:134-146 | the ready frames stay those of the whole input, within the packet's bound |
| Decode.Decoder.Finish | packages/symphonia/native/src/decoder.rs:148-156 | the rest of the whole stream is ready, and whether it ended early is judged |
| Decode.OverOnce | packages/symphonia/native/src/decoder.rs:89-96 | a stream is over at one point, however it is read |
| Decode.HeardStartsWhole | packages/symphonia/native/src/decoder.rs:76-87 | what is heard on the way begins the whole |
| Decode.WholeLength | packages/symphonia/native/src/resample.rs:99-101 | the whole stream is the fewest frames at 48 kHz that last as long as the frames mixed, in plain arithmetic |
| Decode.MixedLength | packages/symphonia/native/src/decoder.rs:115-120 | as many frames are mixed as the packets decoded at the track's rate have, all of them where no length is stated, or else as the stated length leaves |
| Decode.MixedInPlace | packages/symphonia/native/src/decoder.rs:106-132 | frame t of every packet stands after all frames of the packets before it, and is the sums of its planes' samples times the gains of its layout |
| Decode.WholeFrame | packages/symphonia/native/src/decoder.rs:122-156 | each frame of the whole is the mixed one itself at 48 kHz, and at another rate the transform's of the mixed frames and silence, after the delay |
| Decode.MixedWithinLimit | packages/symphonia/native/src/decoder.rs:115-116 | the frames decoded never exceed the limit |
| Decode.RunCounts | packages/symphonia/native/src/decoder.rs:89-157 | a finished run made exactly the resampled length of what it counted, within the limit, and ended early exactly when a limit was stated and fewer were decoded |
| Decode.TooManySkipsExactly | packages/symphonia/native/src/demuxer.rs:58-75 | too many skips are the verdict exactly when the last answer passed a packet over and, without one decoded between, more than ten thousand did: other tracks' packets and bad ones |
| Decode.FailuresExactly | packages/symphonia/native/src/decoder.rs:98-113 | every other failure comes exactly from its answer: an unreadable container, a reset, a codec that fails, a changed rate |
| Decode.OverExactly | packages/symphonia/native/src/decoder.rs:89-96 | a stream is over exactly when its packets have had the frames that its header states or its container has ended |
| Decode.SkippedAreBad | packages/symphonia/native/src/demuxer.rs:58-61 | the packets told as skipped are those of the track that the codec could make nothing of |
| Decode.ComesBackExactly | packages/symphonia/native/src/decoder.rs:76-87 | of every track, a fill comes back if and only if at some point the stream is over, there is enough to hear, or an answer fails |
| Decode.ReadsAreTheWhole | packages/symphonia/native/src/decoder.rs:56-87 | what was read and is ready begins the one whole stream of the source, and is all of it once finished |
| Decode.SilentSourceNeverOver | packages/symphonia/native/src/decoder.rs:80-82 | on packets without frames and without a limit, resampled or not, no read of a frame ever comes back |
| Resample.StereoResampler.Push | packages/symphonia/native/src/resample.rs:43-70 | the output is what the input so far makes audible, whatever the packets; the trim clips nothing |
| Resample.StereoResampler.Finish | packages/symphonia/native/src/resample.rs:72-93 | the output is completed to the exact length; a second finish does nothing |
| Resample.StereoResampler.Flush | packages/symphonia/native/src/resample.rs:84-90 | the rounds never run out before the expected frames have come |
| Resample.StereoResampler.Process | packages/symphonia/native/src/resample.rs:124-136 | a chunk, filled up with silence, yields the output it adds to the whole |
| Resample.ResamplePackets | packages/symphonia/native/src/resample.rs:43-93 | however the input is cut into packets, the output is the same, and the fewest frames at 48 kHz that last as long |
| Resample.MadeWithinExpected | packages/symphonia/native/src/resample.rs:109-121 | the transform never gets ahead of the expected length, so that a push never clips |
| Resample.RoundsFlush | packages/symphonia/native/src/resample.rs:138-142 | the reckoned chunks of silence push the missing frames and the delay out, one round less than the code allows |
| Resample.AnySilenceCompletes | packages/symphonia/native/src/resample.rs:72-93 | any flush that is long enough gives the same output, and a shorter one its beginning |
| Resample.AudibleStartsComplete | packages/symphonia/native/src/resample.rs:43-93 | what a push gives is never taken back by the finish |
| Resample.CompleteFrame | packages/symphonia/native/src/resample.rs:72-121 | frame t of the output is the one the transform makes t frames after its delay, of the input with silence after it |
| Resample.AudibleLags | packages/symphonia/native/src/resample.rs:43-70 | a push gives all that the transform makes of whole chunks, but for its delay |
| Resample.PushBound | packages/symphonia/native/src/resample.rs:95-97 | a push of n frames makes no more than ceil(n / 1024) chunks can |
| Resample.CeilingLeast | packages/symphonia/native/src/resample.rs:99-101 | the ceiling is the least multiple that reaches its input |
| Resample.ExpectedLasts | packages/symphonia/native/src/resample.rs:99-101 | the expected frames last as long as the input and one fewer would not |
| Mix.ForChannels | packages/symphonia/native/src/mix.rs:19-29 | the gains of a layout |
| Mix.PlaceGains | packages/symphonia/native/src/mix.rs:66-83 | the gains of a positioned layout, shared out when a side is silent, and never divided by zero |
| Mix.CopySide | packages/symphonia/native/src/mix.rs:89-93 | one side's gains become the other's |
| Mix.Normalise | packages/symphonia/native/src/mix.rs:95-101 | one side's gains are divided by their total, the other's stay |
| Mix.AddPlane | packages/symphonia/native/src/mix.rs:104-114 | a plane is added in place, weighted, as far as it goes |
| Mix.Apply | packages/symphonia/native/src/mix.rs:31-41 | behind what the output holds, the left and right of every frame are the sums of its samples times their planes' left and right gains |
| Mix.EveryLayoutBalanced | packages/symphonia/native/src/mix.rs:19-101 | for every layout of a plane or more, each side's gains are not negative and add up to one |
| Mix.NeverClips | packages/symphonia/native/src/mix.rs:31-41 | of every layout, a mixed frame's samples lie between the least and the greatest sample of its planes |
| Mix.SharedAudible | packages/symphonia/native/src/mix.rs:73-81 | when either side is heard, both totals are not zero before they are divided by |
| Mix.StereoPassesThrough | packages/symphonia/native/src/mix.rs:116-148 | of what is appended, left and right planes come out unchanged, each on its side |
| Mix.OnePlaneOnBothSides | packages/symphonia/native/src/mix.rs:19-64 | one plane, or the first of an ambisonic sound, comes out on both sides |
| Mix.FirstTwoWithoutPositions | packages/symphonia/native/src/mix.rs:50-83 | without positions, or with none to be heard, the first two planes come out left and right |
| Mix.SidesMirror | packages/symphonia/native/src/mix.rs:116-148 | a position and its mirror image have each other's coefficients, what stands on the left is louder there, and only what stands in the middle is alike on both |
| Mix.GainsInProportion | packages/symphonia/native/src/mix.rs:66-101 | the gains of a positioned layout are its positions' coefficients by one divisor a side, those of the other side where one is silent |
| Mix.HalfThePower | packages/symphonia/native/src/mix.rs:9 | three decibels down is half the power to 23 binary places |
| Mix.UnplacedPlaneUnheard | packages/symphonia/native/src/mix.rs:137-148 | a position without coefficients has no part in the mix |
| Wav.FactFrames | packages/symphonia/native/src/wav.rs:13-38 | the walk by position finds what the chunk list states, and ends |
| Wav.OnlyWaveFilesState | packages/symphonia/native/src/wav.rs:13-16 | frames are stated only by files that begin as RIFF wave files do and hold a first chunk |
| Wav.Source.ReadFactFrames | packages/symphonia/native/src/wav.rs:40-47 | from the start of a file, the whole file's answer or none, and the file rewound |
| Wav.WrittenFactFound | packages/symphonia/native/src/wav.rs:13-38 | in any file written chunk by chunk with even padding, the walk finds what the file states if and only if its first fact before any data is whole or has nothing to borrow |
| Wav.PrefixAnswers | packages/symphonia/native/src/wav.rs:40-47 | a prefix gives the whole file's answer exactly when it holds the frame count, and otherwise none |
| Wav.ShortFactBorrows | packages/symphonia/native/src/wav.rs:25-29 | a fact chunk of one byte, which is not whole, is read with the bytes after it |
| Wav.LittleEndianRoundTrip | packages/symphonia/native/src/wav.rs:22 | a size written as four bytes is read back |
| Wav.PlayableFrames | packages/symphonia/native/src/wav.rs:49-61 | the stated length, or the fact chunk's if and only if the container is wave, the codec is not PCM, and it states fewer frames, but not none |
| Wav.FileLikeMemory | packages/symphonia/native/src/session.rs:53-70 | opened by path or from memory, the bytes play as long, or as long as the container states |
| Words.Bitwise | packages/api_types/bundled.luau:4936-4946 | each place of the result is the gate of the operands' places |
| Words.GatedUnique | packages/api_types/bundled.luau:4936-4946 | the places of a gate determine its number |
| Int64.FromPair | packages/api_types/bundled.luau:4896-4902 | the vector of two 32-bit words denotes the number they make up |
| Int64.ToPair | packages/api_types/bundled.luau:4912-4917 | the words of a vector make up the number it denotes |
| Int64.ValueInjective | packages/api_types/bundled.luau:4932-4934 | equal numbers have equal vectors, so that vectors may be compared |
| Arithmetic64.Bitwise64 | packages/api_types/bundled.luau:4936-4946 | the gates of vectors are the gates of their numbers |
| Arithmetic64.Bnot64 | packages/api_types/bundled.luau:4948-4954 | the complement within 64 places |
| Arithmetic64.ShiftLeft | packages/api_types/bundled.luau:4956-4971 | the number moved up any number of places, within 64 |
| Arithmetic64.ShiftRight | packages/api_types/bundled.luau:4973-4985 | the number moved down any number of places |
| Products64.Add | packages/api_types/bundled.luau:5098-5105 | the sum modulo 2^64 |
| Products64.Sub | packages/api_types/bundled.luau:5107-5136 | the difference modulo 2^64 |
| Products64.ToQuartet | packages/api_types/bundled.luau:4919-4925 | four 16-bit parts make up the number |
| Products64.Mult | packages/api_types/bundled.luau:5138-5156 | the product modulo 2^64 |
| Products64.CarryColumns | packages/api_types/bundled.luau:5142-5155 | carrying from column to column adds the columns modulo 2^64, and no number on the way leaves 53 places |
| Products64.Pow | packages/api_types/bundled.luau:5182-5191 | the k-th power modulo 2^64, by repeated squaring, for every k |
| Division64.Gt | packages/api_types/bundled.luau:5040-5049 | the order of the numbers |
| Division64.GtEqual | packages/api_types/bundled.luau:5051-5053 | the order of the numbers, with equality |
| Division64.Countlz64 | packages/api_types/bundled.luau:5013-5020 | 64 without the number's length |
| Division64.Div32 | packages/api_types/bundled.luau:5070-5096 | long division place by place, and an error for zero |
| Division64.Div32Exact | packages/api_types/bundled.luau:5070-5096 | exact for every divisor up to 2^31 |
| Division64.Div32ExactFor | packages/api_types/bundled.luau:5070-5096 | exact for all dividends if and only if the divisor is at most 2^31 |
| Division64.FromF64 | packages/api_types/bundled.luau:4908-4910 | a number below 2^53 as a vector |
| Division64.ToF64 | packages/api_types/bundled.luau:4927-4930 | a vector below 2^53 as a number |
| Division64.Div | packages/api_types/bundled.luau:5158-5180 | the fast path or the shift-and-subtract loop, and an error for zero |
| Division64.DivCongruent | packages/api_types/bundled.luau:5167-5179 | for every divisor but zero, quotient times divisor and remainder make up the dividend modulo 2^64 |
| Division64.DivExactIff | packages/api_types/bundled.luau:5158-5180 | the result is the quotient and the remainder if and only if both are below 2^53, the divisor is no longer than the dividend, or no wrapped move of it fits |
| Division64.NotTooLongDivides | packages/api_types/bundled.luau:5158-5180 | the condition is met wherever the divisor's length is at most half of 64 and the dividend's together |
| Division64.DivFailsExample | packages/api_types/bundled.luau:5170-5177 | 3 divided by 2^63 + 1 comes out as 2 with 1 remaining, and the condition for an exact division fails |
| Division64.DivOfZeroFails | packages/api_types/bundled.luau:5170-5177 | nor is zero divided by a power of two of 53 places or more |
| Decimal.FromDecString | packages/api_types/bundled.luau:5250-5271 | the numeral's value modulo 2^64, or the position of the first character that is no digit |
| Decimal.ToDecString | packages/api_types/bundled.luau:5273-5285 | the decimal numeral of the number, by recursion on billions |
| Decimal.WriteThenRead | packages/api_types/bundled.luau:5250-5285 | what is written is read back, for every vector |
| Decimal.NumeralDigits | packages/api_types/bundled.luau:5273-5285 | a numeral is made of digits and has the value it was made for |
| Decimal.NumeralOfValue | packages/api_types/bundled.luau:5250-5271 | a numeral without needless zeros is the one of its value |
| Decimal.NumeralSplit | packages/api_types/bundled.luau:5277-5283 | the last nine digits, with their zeros, follow the numeral of the rest |
| Decimal.TwentyFiveDigits | packages/api_types/bundled.luau:5256-5268 | a numeral of up to 25 digits stays below 2^85, within which every number is exact while it is read |
| BitStrings.Bnot | packages/api_types/bundled.luau:5382-5384 | the numeral of the complement |
| BitStrings.ShortIsReadable | packages/api_types/bundled.luau:5382-5402 | every string of up to 25 characters can be read, or is refused as no numeral |
| BitStrings.Bitwise | packages/api_types/bundled.luau:5386-5392 | the numeral of the gate of two numerals |
| BitStrings.Shift | packages/api_types/bundled.luau:5394-5402 | the numeral of the number moved up or down, or the string itself for no places |
| BitStrings.ShiftsAreProducts | packages/api_types/bundled.luau:5404-5410 | moving up multiplies modulo 2^64 and moving down divides, by powers of two |
| BitStrings.ShiftTakenBack | packages/api_types/bundled.luau:5404-5410 | moving up and down again gives the number back if and only if nothing left it |
| BitStrings.ComplementGates | packages/api_types/bundled.luau:5382-5392 | a number and its complement have no place in common and together all |
| BitStrings.FlagsCleared | packages/api_types/bundled.luau:5382-5392 | the gate with a complement clears exactly the flags |

## Left out

- Symphonia's probing, containers and codecs, Rubato's transform and the threads and channels of the standard library: they are assumed as described above.
- The C interface, raw pointers and the catching of panics: a panic of the worker is a failure of its session here, and a panic on the caller's side, which marks the status failed from there, does not happen.
- Memory ordering beyond the lock and the channels, and the reservation of capacity, which has no effect that can be observed.
- A read of the input that meets a stop: the session is taken to fail with it rather than to try again.
- The session's own read-ahead: the worker holds one buffer of bytes, the rest of the chunk at hand, and consumes it byte by byte, in the order in which `ChunkReaders` gives them.
- How a container's bytes become packets is not visible: any steady container is allowed for. The header of a track that it tells is taken to come with a resampler that fits its rate.
- Error texts, numbers of fields, the parsing of Opus headers, limits on rates and packet sizes, and `duration_milliseconds`.
- Rounding, signed zeros and infinities of samples, and their bytes: samples are reals, and the decoder's buffers hold frames. Only whole frames are pushed to the resampler.
- Errors of the transform, and counts of frames that leave 64 bits.
- The handle of a session without a stream; only the rule of one frame's room is modelled, for streams.
- Settings, event types and endpoint tables of `bundled.luau`, and its `from_buffer`, byte strings, rotations, arithmetic shifts and other members that say nothing the ones here do not.
- ChunkReaders.ChunkReader.Read: is for queues that bring something else than empty chunks at some point, which are all that a push can make; on an endless run of empty ones the loop would not end.
- Resample.StereoResampler.Push: does not model a push after the finish, which the decoder never does; the chunks of silence already fed would come before it.
- Decode.Decoder.Fill: says nothing of a fill that never comes back; `ComesBackExactly` says which those are.
- Decode.Decoder.Read: says nothing of a read that never comes back, in the same way.
- Sessions.Session.Read: says nothing of a read that never comes back, in the same way.
- Sessions.DecodePcm: is for sources that are over at some point, and has the blocks in a list where the code sends each as it is made.
- Decimal.FromDecString: does not model numerals of 2^85 and more, where the high number leaves the 53 places in which floats are exact. Numerals of up to 25 digits are below.
- BitStrings.Bitwise: does not model numerals of 2^85 and more, for the same reason.
- BitStrings.Bnot: does not model numerals of 2^85 and more, for the same reason.
- BitStrings.Shift: does not model numerals of 2^85 and more, for the same reason, nor a number of places that is not an integer.
- Division64.Div: takes the floor of a quotient of floats below 2^53 to be exact.
- Division64.DivOfZeroFails: is about powers of two; other long divisors of zero are covered by DivExactIff.
