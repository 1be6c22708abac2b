/** Sessions over a container that is read as its bytes come: what they make is determined by the bytes alone. */
module Players {
  import opened Basics
  import opened Demux
  import opened Programs
  import opened Statuses

  /** What a container comes up with: that it must have more bytes, or an answer. */
  datatype Answered<+T> = Wants | Says(value: T)

  /**
    * A container by what it says of the bytes so far and of whether they have ended: what kind of track it has, or why
    * it cannot be read, and what its reader answers when it is asked for a packet for the k-th time.
    */
  datatype Media<!H> = Media(
    probe: (seq<Byte>, bool) -> Answered<Result<H, Error>>,
    answer: (seq<Byte>, bool, nat) -> Answered<ReaderEvent>)
  {
    /** What was said once stays said, however the bytes go on. */
    ghost predicate Steady() {
      && (forall first, bytes, eof | first <= bytes && probe(first, false).Says? ::
            probe(bytes, eof) == probe(first, false))
      && (forall first, bytes, eof, k | first <= bytes && answer(first, false, k).Says? ::
            answer(bytes, eof, k) == answer(first, false, k))
    }

    /** Once the bytes have ended, everything can be said. */
    ghost predicate Settled() {
      && (forall bytes :: probe(bytes, true).Says?)
      && (forall bytes, k :: answer(bytes, true, k).Says?)
    }

    ghost predicate Valid() {
      forall n {:trigger Shown(n)} :: Shown(n) ==> Steady() && Settled()
    }

    lemma ProbeStays(first: seq<Byte>, bytes: seq<Byte>, eof: bool)
      requires Valid() && first <= bytes && probe(first, false).Says?
      ensures probe(bytes, eof) == probe(first, false)
    {
      assert Shown(0);
    }

    lemma AnswerStays(first: seq<Byte>, bytes: seq<Byte>, eof: bool, k: nat)
      requires Valid() && first <= bytes && answer(first, false, k).Says?
      ensures answer(bytes, eof, k) == answer(first, false, k)
    {
      assert Shown(0);
    }

    lemma EndSettles(bytes: seq<Byte>, k: nat)
      requires Valid()
      ensures probe(bytes, true).Says? && answer(bytes, true, k).Says?
    {
      assert Shown(0);
    }

    predicate Known(bytes: seq<Byte>, eof: bool, calls: nat) {
      forall k: nat | k < calls :: answer(bytes, eof, k).Says?
    }

    function Event(bytes: seq<Byte>, eof: bool, k: nat): ReaderEvent {
      match answer(bytes, eof, k)
      case Says(event) => event
      case Wants => Failure
    }

    /** The first answers. */
    function Events(bytes: seq<Byte>, eof: bool, calls: nat): (events: seq<ReaderEvent>)
      ensures |events| == calls
    {
      seq(calls, k requires 0 <= k => Event(bytes, eof, k))
    }

    /** The reader of all the bytes. */
    function Reader(bytes: seq<Byte>): Reader {
      (k: nat) => Event(bytes, true, k)
    }
  }

  /** What a session does for the n-th time, once so many answers are known, or none if they do not suffice. */
  type Course<!H> = (H, seq<ReaderEvent>, nat) -> Option<Outcome>

  /** The answers that decide it: as many as suffice, and no more. */
  ghost predicate Decides<H(!new)>(media: Media<H>, course: Course<H>, header: H, bytes: seq<Byte>, eof: bool, n: nat,
                                   calls: nat)
  {
    && media.Known(bytes, eof, calls)
    && course(header, media.Events(bytes, eof, calls), n).Some?
    && forall b: nat | b < calls :: course(header, media.Events(bytes, eof, b), n).None?
  }

  ghost predicate CanDecide<H(!new)>(media: Media<H>, course: Course<H>, header: H, at: Position) {
    exists calls :: Decides(media, course, header, at.consumed, at.eof, |at.blocks|, calls)
  }

  /** Bytes until the container can be told, and then until the next thing to do is decided. */
  ghost function NextOf<H(!new)>(media: Media<H>, course: Course<H>, at: Position): Action {
    match media.probe(at.consumed, at.eof)
    case Wants => NeedByte
    case Says(Err(error)) => Comes(Failing(error))
    case Says(Ok(header)) =>
      if !at.isOpen then Opens
      else if CanDecide(media, course, header, at) then
        var calls :| Decides(media, course, header, at.consumed, at.eof, |at.blocks|, calls);
        Comes(course(header, media.Events(at.consumed, at.eof, calls), |at.blocks|).value)
      else NeedByte
  }

  /** The program of such a session. One that is never decided, though the bytes have ended, is counted as a panic. */
  ghost predicate IsPlayer<H(!new)>(program: Program, media: Media<H>, course: Course<H>) {
    forall at :: program.next(at) == NextOf(media, course, at)
  }

  // What the bytes decide

  ghost predicate Decided<H(!new)>(media: Media<H>, course: Course<H>, header: H, bytes: seq<Byte>, n: nat,
                                   outcome: Outcome)
  {
    exists calls :: Decides(media, course, header, bytes, true, n, calls)
      && course(header, media.Events(bytes, true, calls), n) == Some(outcome)
  }

  ghost predicate Makes<H(!new)>(media: Media<H>, course: Course<H>, header: H, bytes: seq<Byte>, blocks: seq<Block>) {
    forall i: nat | i < |blocks| :: Decided(media, course, header, bytes, i, Made(blocks[i]))
  }

  lemma DecidesOnce<H(!new)>(media: Media<H>, course: Course<H>, header: H, bytes: seq<Byte>, eof: bool, n: nat,
                             a: nat, b: nat)
    requires Decides(media, course, header, bytes, eof, n, a) && Decides(media, course, header, bytes, eof, n, b)
    ensures a == b
  {}

  lemma DecidedOnce<H(!new)>(media: Media<H>, course: Course<H>, header: H, bytes: seq<Byte>, n: nat, a: Outcome,
                             b: Outcome)
    requires Decided(media, course, header, bytes, n, a) && Decided(media, course, header, bytes, n, b)
    ensures a == b
  {
    var c :| Decides(media, course, header, bytes, true, n, c)
      && course(header, media.Events(bytes, true, c), n) == Some(a);
    var d :| Decides(media, course, header, bytes, true, n, d)
      && course(header, media.Events(bytes, true, d), n) == Some(b);
    DecidesOnce(media, course, header, bytes, true, n, c, d);
  }

  lemma EventsStay<H(!new)>(media: Media<H>, first: seq<Byte>, eof: bool, bytes: seq<Byte>, calls: nat)
    requires media.Valid() && first <= bytes && (eof ==> first == bytes) && media.Known(first, eof, calls)
    ensures media.Known(bytes, true, calls) && media.Events(bytes, true, calls) == media.Events(first, eof, calls)
  {
    forall k: nat | k < calls ensures media.answer(bytes, true, k) == media.answer(first, eof, k) {
      if !eof {
        media.AnswerStays(first, bytes, true, k);
      }
    }
  }

  /** What is decided on the way is what all the bytes decide. */
  lemma DecidesForAll<H(!new)>(media: Media<H>, course: Course<H>, header: H, first: seq<Byte>, eof: bool,
                               bytes: seq<Byte>, n: nat, calls: nat)
    requires media.Valid() && first <= bytes && (eof ==> first == bytes)
    requires Decides(media, course, header, first, eof, n, calls)
    ensures Decides(media, course, header, bytes, true, n, calls)
    ensures media.Events(bytes, true, calls) == media.Events(first, eof, calls)
  {
    EventsStay(media, first, eof, bytes, calls);
    forall b: nat | b < calls ensures course(header, media.Events(bytes, true, b), n).None? {
      EventsStay(media, first, eof, bytes, b);
    }
  }

  // The run of a player

  lemma ProbedOnTheWay<H(!new)>(media: Media<H>, bytes: seq<Byte>, at: Position)
    requires media.Valid() && at.consumed <= bytes && (at.eof ==> at.consumed == bytes)
    ensures media.probe(at.consumed, at.eof).Says? ==> media.probe(bytes, true) == media.probe(at.consumed, at.eof)
    ensures at.eof ==> media.probe(at.consumed, at.eof).Says?
  {
    if !at.eof && media.probe(at.consumed, false).Says? {
      media.ProbeStays(at.consumed, bytes, true);
    }
    if at.eof {
      media.EndSettles(bytes, 0);
    }
  }

  /** An open player comes to nothing but what all the bytes decide. */
  lemma NextIsDecided<H(!new)>(media: Media<H>, course: Course<H>, header: H, bytes: seq<Byte>, at: Position)
    requires media.Valid() && at.consumed <= bytes && (at.eof ==> at.consumed == bytes) && at.isOpen
    requires media.probe(bytes, true) == Says(Ok(header))
    ensures var action := NextOf(media, course, at);
      && (action.NeedByte? || action.Comes?)
      && (action.Comes? ==> Decided(media, course, header, bytes, |at.blocks|, action.outcome))
      && (action.NeedByte? && at.eof ==>
          forall calls :: !Decides(media, course, header, bytes, true, |at.blocks|, calls))
  {
    ProbedOnTheWay(media, bytes, at);
    if media.probe(at.consumed, at.eof).Says? && CanDecide(media, course, header, at) {
      var action := NextOf(media, course, at);
      var calls :| Decides(media, course, header, at.consumed, at.eof, |at.blocks|, calls)
        && action == Comes(course(header, media.Events(at.consumed, at.eof, calls), |at.blocks|).value);
      DecidesForAll(media, course, header, at.consumed, at.eof, bytes, |at.blocks|, calls);
    }
  }

  /** What can be said of a player's run at any time. */
  ghost predicate OnPlay<H(!new)>(media: Media<H>, course: Course<H>, bytes: seq<Byte>, run: Run) {
    var at, probed := run.at, media.probe(bytes, true);
    && (!at.isOpen ==> at.blocks == [])
    && (at.isOpen ==> probed.Says? && probed.value.Ok?)
    && (at.isOpen ==> Makes(media, course, probed.value.value, bytes, at.blocks))
    && match run
       case Going(_) => true
       case Over(_) => at.isOpen && Decided(media, course, probed.value.value, bytes, |at.blocks|, NoMore)
       case Broke(_, error) =>
         || error == Panicked
         || (at.isOpen && Decided(media, course, probed.value.value, bytes, |at.blocks|, Failing(error)))
         || (!at.isOpen && probed == Says(Err(error)))
  }

  lemma PlayStep<H(!new)>(program: Program, media: Media<H>, course: Course<H>, bytes: seq<Byte>, at: Position)
    requires media.Valid() && IsPlayer(program, media, course)
    requires at.consumed <= bytes && (at.eof ==> at.consumed == bytes)
    requires OnPlay(media, course, bytes, Going(at))
    ensures OnPlay(media, course, bytes, RunStep(program, bytes, Going(at)))
  {
    ProbedOnTheWay(media, bytes, at);
    assert program.next(at) == NextOf(media, course, at);
    if at.isOpen {
      NextIsDecided(media, course, media.probe(bytes, true).value.value, bytes, at);
    }
  }

  lemma {:induction false} RunOnPlay<H(!new)>(program: Program, media: Media<H>, course: Course<H>, bytes: seq<Byte>,
                                              n: nat)
    requires media.Valid() && IsPlayer(program, media, course)
    ensures OnPlay(media, course, bytes, RunSteps(program, bytes, n))
  {
    if n > 0 {
      RunOnPlay(program, media, course, bytes, n - 1);
      RunReads(program, bytes, n - 1);
      var run := RunSteps(program, bytes, n - 1);
      if run.Going? {
        PlayStep(program, media, course, bytes, run.at);
      }
    }
  }

  /** The blocks that all the bytes decide, and that there are no more. */
  ghost predicate PlaysOut<H(!new)>(media: Media<H>, course: Course<H>, bytes: seq<Byte>, blocks: seq<Block>) {
    var probed := media.probe(bytes, true);
    && probed.Says? && probed.value.Ok?
    && Makes(media, course, probed.value.value, bytes, blocks)
    && Decided(media, course, probed.value.value, bytes, |blocks|, NoMore)
  }

  /** How far a player has to go at most that is to make so many blocks. */
  function ToGo(bytes: seq<Byte>, count: nat, at: Position): int {
    |bytes| - |at.consumed| + (if at.eof then 0 else 1) + (if at.isOpen then 0 else 1) + count - |at.blocks|
  }

  lemma MakesStart<H(!new)>(media: Media<H>, course: Course<H>, header: H, bytes: seq<Byte>, some: seq<Block>,
                            all: seq<Block>)
    requires Makes(media, course, header, bytes, some) && Makes(media, course, header, bytes, all)
    requires Decided(media, course, header, bytes, |all|, NoMore)
    ensures some <= all
  {
    forall i: nat | i < |some| && i < |all| ensures some[i] == all[i] {
      DecidedOnce(media, course, header, bytes, i, Made(some[i]), Made(all[i]));
    }
    if |some| > |all| {
      DecidedOnce(media, course, header, bytes, |all|, Made(some[|all|]), NoMore);
    }
  }

  /** A player that has not made all its blocks, or not said that there are no more, takes a step nearer to it. */
  lemma NearerToTheEnd<H(!new)>(program: Program, media: Media<H>, course: Course<H>, bytes: seq<Byte>,
                                blocks: seq<Block>, at: Position)
    requires media.Valid() && IsPlayer(program, media, course)
    requires at.consumed <= bytes && (at.eof ==> at.consumed == bytes)
    requires OnPlay(media, course, bytes, Going(at)) && PlaysOut(media, course, bytes, blocks)
    requires forall block <- blocks :: program.Sound(block)
    ensures |at.blocks| <= |blocks|
    ensures var next := RunStep(program, bytes, Going(at));
      if next.Going? then ToGo(bytes, |blocks|, next.at) < ToGo(bytes, |blocks|, at)
      else next.Over? && next.at.blocks == blocks
  {
    var header := media.probe(bytes, true).value.value;
    ProbedOnTheWay(media, bytes, at);
    assert program.next(at) == NextOf(media, course, at);
    if at.isOpen {
      NextIsDecided(media, course, header, bytes, at);
      MakesStart(media, course, header, bytes, at.blocks, blocks);
      var n, action := |at.blocks|, NextOf(media, course, at);
      var due := if n < |blocks| then Made(blocks[n]) else NoMore;
      assert Decided(media, course, header, bytes, n, due);
      if action.Comes? {
        DecidedOnce(media, course, header, bytes, n, action.outcome, due);
      }
    }
  }

  lemma {:induction false} ComesToTheEnd<H(!new)>(program: Program, media: Media<H>, course: Course<H>,
                                                  bytes: seq<Byte>, blocks: seq<Block>, n: nat)
    requires media.Valid() && IsPlayer(program, media, course) && PlaysOut(media, course, bytes, blocks)
    requires forall block <- blocks :: program.Sound(block)
    requires RunSteps(program, bytes, n).Going?
    ensures Yields(program, bytes, blocks)
    decreases ToGo(bytes, |blocks|, RunSteps(program, bytes, n).at)
  {
    var run, next := RunSteps(program, bytes, n), RunSteps(program, bytes, n + 1);
    RunReads(program, bytes, n);
    RunOnPlay(program, media, course, bytes, n);
    NearerToTheEnd(program, media, course, bytes, blocks, run.at);
    if next.Going? {
      ComesToTheEnd(program, media, course, bytes, blocks, n + 1);
    }
  }

  /** A player yields some blocks exactly when the bytes decide that it makes those, and no more. */
  lemma YieldsWhatIsDecided<H(!new)>(program: Program, media: Media<H>, course: Course<H>, bytes: seq<Byte>,
                                     blocks: seq<Block>)
    requires media.Valid() && IsPlayer(program, media, course) && forall block <- blocks :: program.Sound(block)
    ensures Yields(program, bytes, blocks) <==> PlaysOut(media, course, bytes, blocks)
  {
    if Yields(program, bytes, blocks) {
      var n: nat :| RunSteps(program, bytes, n).Over? && RunSteps(program, bytes, n).at.blocks == blocks;
      RunOnPlay(program, media, course, bytes, n);
    }
    if PlaysOut(media, course, bytes, blocks) {
      ComesToTheEnd(program, media, course, bytes, blocks, 0);
    }
  }

  /** A player that fails does so for the reason that the bytes decide, or panics. */
  lemma FailsAsDecided<H(!new)>(program: Program, media: Media<H>, course: Course<H>, bytes: seq<Byte>,
                                blocks: seq<Block>, error: Error)
    requires media.Valid() && IsPlayer(program, media, course) && FailsWith(program, bytes, blocks, error)
    requires error != Panicked
    ensures var probed := media.probe(bytes, true);
      || (probed == Says(Err(error)) && blocks == [])
      || (probed.Says? && probed.value.Ok? && Makes(media, course, probed.value.value, bytes, blocks)
          && Decided(media, course, probed.value.value, bytes, |blocks|, Failing(error)))
  {
    var n: nat :| var run := RunSteps(program, bytes, n); run.Broke? && run.at.blocks == blocks && run.error == error;
    RunOnPlay(program, media, course, bytes, n);
  }

  /** There is such a program for every container and course. */
  ghost function Player<H(!new)>(media: Media<H>, course: Course<H>, broken: Position -> Error, face: Position -> Face,
                                 isOpus: bool): (program: Program)
    ensures IsPlayer(program, media, course) && program.isOpus == isOpus
  {
    Program((at: Position) => NextOf(media, course, at), broken, face, isOpus)
  }
}
