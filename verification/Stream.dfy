/**
  * The two sides of a stream as a state machine: a caller that queues bytes and takes blocks, a worker that decodes,
  * and between them two bounded queues and a shared status. Every step is one access to what they share.
  */
module Streams {
  import opened Basics
  import opened Statuses
  import opened Programs
  import ChunkReaders

  const INPUT_CHUNKS: nat := 64
  const OUTPUT_BLOCKS: nat := 64

  type Chunk = seq<Byte>

  /** What the worker is about to do. */
  datatype Pc =
    | Deciding
    | Checking(received: Option<Chunk>)
    | Opening
    | Publishing(outcome: Outcome)
    | Sending(block: Block)
    | Finishing
    | MarkingFailed(error: Error)
    | ClosingOutput
    | ClosingInput
    | Exiting
    | Exited

  datatype System = System(
    /** The input queue, its sender and its receiver. */
    input: seq<Chunk>, inputOpen: bool, inputRead: bool,
    /** The output queue, its sender and its receiver. */
    output: seq<Block>, outputOpen: bool, outputRead: bool,
    status: Record,
    /** The worker: its session after so many steps, the rest of the chunk at hand, and a read that met a stop. */
    pc: Pc, run: Run, steps: nat, held: seq<Byte>, broken: bool,
    /** Histories: the bytes queued, the blocks sent and the blocks taken. */
    pushed: seq<Byte>, sent: seq<Block>, taken: seq<Block>)

  const INITIAL := System([], true, true, [], true, true, NEW, Deciding, Going(START), 0, [], false, [], [], [])

  // The worker

  /** Waiting for a chunk and waiting for room in the output queue are all that can hold a worker up. */
  predicate CanStep(program: Program, s: System) {
    match s.pc
    case Deciding => program.Act(s.run.at).NeedByte? && s.held == [] ==> s.input != [] || !s.inputOpen
    case Sending(_) => s.outputRead ==> |s.output| < OUTPUT_BLOCKS
    case Exited => false
    case _ => true
  }

  /** The session comes to something, and has yet to show it. */
  function Concluded(s: System, outcome: Outcome): System {
    if s.run.at.isOpen then s.(pc := Publishing(outcome))
    else s.(pc := MarkingFailed(if outcome.Failing? then outcome.error else Panicked))
  }

  function Decided(program: Program, s: System, bytes: seq<Byte>): System {
    s.(run := RunStep(program, bytes, s.run), steps := s.steps + 1)
  }

  /** The session's own step: it takes a byte it has at hand, waits for a chunk, or comes to something. */
  function Decide(program: Program, s: System): System
    requires s.pc.Deciding? && CanStep(program, s)
  {
    var at := s.run.at;
    match program.Act(at)
    case NeedByte =>
      if s.held != [] then Decided(program, s, at.consumed + [s.held[0]]).(held := s.held[1..])
      else if s.input != [] then s.(input := s.input[1..], pc := Checking(Some(s.input[0])))
      else s.(pc := Checking(None))
    case Opens => Decided(program, s, at.consumed).(pc := Opening)
    case Comes(outcome) => Concluded(Decided(program, s, at.consumed), outcome)
    case Panics => Decided(program, s, at.consumed).(pc := MarkingFailed(Panicked))
  }

  /** After a wait the stop comes first: a chunk that came is dropped, and the end that was seen is none. */
  function Check(program: Program, s: System): System
    requires s.pc.Checking?
  {
    if s.status.stopped then Concluded(s.(broken := true), Failing(program.broken(s.run.at)))
    else match s.pc.received
      case Some(chunk) => s.(held := chunk, pc := Deciding)
      case None => Decided(program, s, s.run.at.consumed).(pc := Deciding)
  }

  function Publish(program: Program, s: System, state: State): System {
    s.(status := s.status.Published(program.Shown(s.run.at), state))
  }

  function WorkerStep(program: Program, s: System): System
    requires CanStep(program, s)
  {
    match s.pc
    case Deciding => Decide(program, s)
    case Checking(_) => Check(program, s)
    case Opening => Publish(program, s, Open).(pc := Deciding)
    case Publishing(outcome) =>
      Publish(program, s, Open).(pc := match outcome
        case Made(block) => Sending(block)
        case NoMore => Finishing
        case Failing(error) => MarkingFailed(error))
    case Sending(block) =>
      if s.outputRead then s.(output := s.output + [block], sent := s.sent + [block], pc := Deciding)
      else s.(pc := ClosingOutput)
    case Finishing => Publish(program, s, Ended).(pc := ClosingOutput)
    case MarkingFailed(error) => s.(status := s.status.MarkedFailed(error), pc := ClosingOutput)
    case ClosingOutput => s.(outputOpen := false, pc := ClosingInput)
    case ClosingInput => s.(inputRead := false, input := [], pc := Exiting)
    case Exiting => s.(pc := Exited)
  }

  // The caller

  datatype SendOutcome = Sent | QueueFull | Disconnected

  datatype RecvOutcome = Received(block: Block) | Empty | Closed

  function TrySend(s: System, chunk: Chunk): (System, SendOutcome) {
    if !s.inputRead then (s, Disconnected)
    else if |s.input| >= INPUT_CHUNKS then (s, QueueFull)
    else (s.(input := s.input + [chunk], pushed := s.pushed + chunk), Sent)
  }

  function CloseInput(s: System): System {
    s.(inputOpen := false)
  }

  function TryRecv(s: System): (System, RecvOutcome) {
    if s.output != [] then (s.(output := s.output[1..], taken := s.taken + [s.output[0]]), Received(s.output[0]))
    else (s, if s.outputOpen then Empty else Closed)
  }

  function Stop(s: System): System {
    s.(status := s.status.Halted())
  }

  function CloseOutput(s: System): System {
    s.(outputRead := false, output := [])
  }

  // What holds in every state

  function Pending(pc: Pc): seq<Byte> {
    if pc.Checking? && pc.received.Some? then pc.received.value else []
  }

  /** A block the session has made that is not in the output queue yet. */
  function Unsent(pc: Pc): seq<Block> {
    match pc
    case Publishing(Made(block)) => [block]
    case Sending(block) => [block]
    case _ => []
  }

  predicate Closing(pc: Pc) {
    pc.ClosingOutput? || pc.ClosingInput? || pc.Exiting? || pc.Exited?
  }

  /** No byte is lost or read twice, and an end is only seen when all that was queued has been read. */
  ghost predicate BytesKept(s: System) {
    && s.run.at.consumed <= s.pushed
    && (s.inputRead && !s.broken ==> s.pushed == s.run.at.consumed + s.held + Pending(s.pc) + Flat(s.input))
    && (s.pc.Checking? ==> s.held == [])
    && (s.pc == Checking(None) ==> !s.inputOpen && s.input == [])
    && (s.run.at.eof ==> !s.inputOpen && s.run.at.consumed == s.pushed)
    && |s.input| <= INPUT_CHUNKS
  }

  /** The worker is where the session would be that reads the bytes alone. */
  ghost predicate OnCourse(program: Program, s: System) {
    RunSteps(program, s.run.at.consumed, s.steps) == s.run
  }

  /** No block is lost, repeated or moved. Only one that could not be sent is, once its receiver has gone. */
  ghost predicate BlocksKept(program: Program, s: System) {
    && (s.outputRead ==> s.run.at.blocks == s.sent + Unsent(s.pc))
    && s.sent <= s.run.at.blocks
    && (s.outputRead ==> s.sent == s.taken + s.output)
    && s.taken <= s.sent
    && |s.output| <= OUTPUT_BLOCKS
    && (forall block <- s.run.at.blocks :: program.Sound(block))
  }

  /** What the status and the channels say of the worker, by what it is about to do. */
  ghost predicate InStep(program: Program, s: System) {
    var status, at := s.status, s.run.at;
    && (s.inputRead <==> !s.pc.Exiting? && !s.pc.Exited?)
    && (s.outputOpen <==> !s.pc.ClosingInput? && !s.pc.Exiting? && !s.pc.Exited?)
    && (status.failure.Some? ==> Closing(s.pc))
    && (s.broken ==> Closing(s.pc) || s.pc.MarkingFailed? || (s.pc.Publishing? && s.pc.outcome.Failing?))
    && (status.state == Probing ==> status.info == None && at.blocks == [])
    && (!at.isOpen ==> at.blocks == [])
    && (status.state != Probing ==> status.info.Some? && status.info.value.isOpus == program.isOpus && at.isOpen)
    && match s.pc
       case Deciding => s.run.Going? && status.state == if at.isOpen then Open else Probing
       case Checking(_) =>
         && s.run.Going? && status.state == (if at.isOpen then Open else Probing)
         && program.Act(at).NeedByte?
       case Opening => s.run.Going? && at.isOpen && status.state == Probing
       case Publishing(Made(_)) => s.run.Going? && status.state == Open
       case Publishing(NoMore) => s.run.Over? && status.state == Open
       case Publishing(Failing(error)) => BrokeWith(s, error) && status.state == Open
       case Sending(_) => s.run.Going? && status.state == Open
       case Finishing => s.run.Over? && status.state == Open
       case MarkingFailed(error) => BrokeWith(s, error) && status.state in {Probing, Open}
       case ClosingOutput | ClosingInput | Exiting | Exited => Accounted(s)
  }

  ghost predicate BrokeWith(s: System, error: Error) {
    if s.broken then s.run.Going? else s.run == Broke(s.run.at, error)
  }

  /** A worker that is done has said why, unless nobody is left to be told. */
  ghost predicate Accounted(s: System) {
    match s.status.failure
    case Some(error) => BrokeWith(s, error) && s.status.state in {Probing, Open}
    case None =>
      || (s.status.state == Ended && s.run.Over? && !s.broken)
      || (s.status.state == Open && !s.outputRead)
  }

  /** The caller stops the stream before it lets go of the queues, the input first. */
  ghost predicate LetGoInOrder(s: System) {
    && (s.broken ==> s.status.stopped)
    && (!s.outputRead ==> s.status.stopped && !s.inputOpen && s.output == [])
  }

  ghost predicate Inv(program: Program, s: System) {
    BytesKept(s) && OnCourse(program, s) && BlocksKept(program, s) && InStep(program, s) && LetGoInOrder(s)
  }

  lemma InitiallyInv(program: Program)
    ensures Inv(program, INITIAL)
  {}

  // Every step keeps it

  lemma FlatOfFirst<T>(pieces: seq<seq<T>>)
    requires pieces != []
    ensures Flat(pieces) == pieces[0] + Flat(pieces[1..])
  {}

  lemma NextByteOnCourse(program: Program, s: System, byte: Byte)
    requires Inv(program, s) && program.Act(s.run.at).NeedByte? && s.run.Going?
    ensures var at := s.run.at;
      RunStep(program, at.consumed + [byte], s.run) == Going(at.(consumed := at.consumed + [byte]))
      && RunSteps(program, at.consumed + [byte], s.steps + 1) == Going(at.(consumed := at.consumed + [byte]))
  {
    RunExtends(program, s.run.at.consumed, s.run.at.consumed + [byte], s.steps);
  }

  function ByteTaken(s: System): System
    requires s.held != []
  {
    var at := s.run.at;
    s.(run := Going(at.(consumed := at.consumed + [s.held[0]])), steps := s.steps + 1, held := s.held[1..])
  }

  lemma ByteTakenKept(s: System)
    requires BytesKept(s) && s.pc.Deciding? && s.inputRead && !s.broken && !s.run.at.eof && s.held != []
    ensures BytesKept(ByteTaken(s))
  {}

  lemma TakeHeldKeeps(program: Program, s: System)
    requires Inv(program, s) && s.pc.Deciding? && program.Act(s.run.at).NeedByte? && s.held != []
    ensures Inv(program, Decide(program, s))
  {
    NextByteOnCourse(program, s, s.held[0]);
    assert Decide(program, s) == ByteTaken(s);
    ByteTakenKept(s);
  }

  lemma WaitKeeps(program: Program, s: System)
    requires Inv(program, s) && CanStep(program, s)
    requires s.pc.Deciding? && program.Act(s.run.at).NeedByte? && s.held == []
    ensures Inv(program, Decide(program, s))
  {
    if s.input != [] {
      FlatOfFirst(s.input);
    }
  }

  lemma DecidedOnCourse(program: Program, s: System)
    requires Inv(program, s) && !program.Act(s.run.at).NeedByte?
    ensures OnCourse(program, Decided(program, s, s.run.at.consumed))
  {}

  lemma MakeKeeps(program: Program, s: System)
    requires Inv(program, s) && s.pc.Deciding? && program.Act(s.run.at).Comes? && program.Act(s.run.at).outcome.Made?
    ensures Inv(program, Decide(program, s))
  {}

  lemma OpenKeeps(program: Program, s: System)
    requires Inv(program, s) && s.pc.Deciding? && program.Act(s.run.at).Opens?
    ensures Inv(program, Decide(program, s))
  {
    DecidedOnCourse(program, s);
    var next := Decide(program, s);
    assert next == s.(run := Going(s.run.at.(isOpen := true)), steps := s.steps + 1, pc := Opening);
  }

  lemma EndKeeps(program: Program, s: System)
    requires Inv(program, s) && s.pc.Deciding? && program.Act(s.run.at) == Comes(NoMore)
    ensures Inv(program, Decide(program, s))
  {
    DecidedOnCourse(program, s);
    assert Decide(program, s) == s.(run := Over(s.run.at), steps := s.steps + 1, pc := Publishing(NoMore));
  }

  lemma BreakKeeps(program: Program, s: System, error: Error)
    requires Inv(program, s) && s.pc.Deciding?
    requires program.Act(s.run.at) == Comes(Failing(error)) || (program.Act(s.run.at).Panics? && error == Panicked)
    ensures Inv(program, Decide(program, s))
  {
    DecidedOnCourse(program, s);
    var at, next := s.run.at, Decide(program, s);
    assert next == s.(run := Broke(at, error), steps := s.steps + 1, pc := next.pc);
    assert next.pc == if at.isOpen && program.Act(at).Comes? then Publishing(Failing(error)) else MarkingFailed(error);
  }

  lemma ConcludeKeeps(program: Program, s: System)
    requires Inv(program, s) && s.pc.Deciding? && !program.Act(s.run.at).NeedByte?
    ensures Inv(program, Decide(program, s))
  {
    match program.Act(s.run.at)
    case Opens => OpenKeeps(program, s);
    case Panics => BreakKeeps(program, s, Panicked);
    case Comes(Made(_)) => MakeKeeps(program, s);
    case Comes(NoMore) => EndKeeps(program, s);
    case Comes(Failing(error)) => BreakKeeps(program, s, error);
  }

  lemma EndSeenKeeps(program: Program, s: System)
    requires Inv(program, s) && s.pc == Checking(None) && !s.status.stopped
    ensures Inv(program, Check(program, s))
  {}

  lemma StopSeenKeeps(program: Program, s: System)
    requires Inv(program, s) && s.pc.Checking? && s.status.stopped
    ensures Inv(program, Check(program, s))
  {}

  lemma ChunkComesKeeps(program: Program, s: System)
    requires Inv(program, s) && s.pc.Checking? && s.pc.received.Some? && !s.status.stopped
    ensures Inv(program, Check(program, s))
  {
    var chunk := s.pc.received.value;
    assert Check(program, s) == s.(held := chunk, pc := Deciding);
    assert s.run.at.consumed + s.held + chunk == s.run.at.consumed + chunk;
  }

  lemma CheckKeeps(program: Program, s: System)
    requires Inv(program, s) && s.pc.Checking?
    ensures Inv(program, Check(program, s))
  {
    if s.status.stopped {
      StopSeenKeeps(program, s);
    } else if s.pc.received.None? {
      EndSeenKeeps(program, s);
    } else {
      ChunkComesKeeps(program, s);
    }
  }

  lemma SendKeeps(program: Program, s: System)
    requires Inv(program, s) && s.pc.Sending? && CanStep(program, s)
    ensures Inv(program, WorkerStep(program, s))
  {
  }

  lemma ShowKeeps(program: Program, s: System)
    requires Inv(program, s) && (s.pc.Opening? || s.pc.Publishing? || s.pc.Finishing? || s.pc.MarkingFailed?)
    ensures Inv(program, WorkerStep(program, s))
  {
  }

  lemma CloseKeeps(program: Program, s: System)
    requires Inv(program, s) && Closing(s.pc) && !s.pc.Exited?
    ensures Inv(program, WorkerStep(program, s))
  {
  }

  lemma WorkerKeeps(program: Program, s: System)
    requires Inv(program, s) && CanStep(program, s)
    ensures Inv(program, WorkerStep(program, s))
  {
    if s.pc.Deciding? {
      if !program.Act(s.run.at).NeedByte? {
        ConcludeKeeps(program, s);
      } else if s.held != [] {
        TakeHeldKeeps(program, s);
      } else {
        WaitKeeps(program, s);
      }
    } else if s.pc.Checking? {
      CheckKeeps(program, s);
    } else if s.pc.Sending? {
      SendKeeps(program, s);
    } else if Closing(s.pc) {
      CloseKeeps(program, s);
    } else {
      ShowKeeps(program, s);
    }
  }

  lemma TrySendKeeps(program: Program, s: System, chunk: Chunk)
    requires Inv(program, s) && s.inputOpen
    ensures Inv(program, TrySend(s, chunk).0)
  {
    FlatAppends(s.input, chunk);
    if s.inputRead && |s.input| < INPUT_CHUNKS {
      var read := s.run.at.consumed + s.held + Pending(s.pc);
      assert read + (Flat(s.input) + chunk) == read + Flat(s.input) + chunk;
    }
  }

  lemma TryRecvKeeps(program: Program, s: System)
    requires Inv(program, s) && s.outputRead
    ensures Inv(program, TryRecv(s).0)
  {}

  lemma LetGoKeeps(program: Program, s: System)
    requires Inv(program, s)
    ensures Inv(program, Stop(s)) && Inv(program, CloseInput(s))
    ensures s.status.stopped && !s.inputOpen ==> Inv(program, CloseOutput(s))
  {}

  // Every run

  datatype Move =
    | WorkerActs
    | Pushes(chunk: Chunk)
    | Finishes
    | Takes
    | Stops
    | LetsGo

  /** What either side may do. The caller never queues an empty chunk, and lets go of its queues once it has stopped. */
  predicate Enabled(program: Program, s: System, move: Move) {
    match move
    case WorkerActs => CanStep(program, s)
    case Pushes(chunk) => s.inputOpen && chunk != []
    case Finishes => true
    case Takes => s.outputRead
    case Stops => true
    case LetsGo => s.status.stopped && !s.inputOpen
  }

  function Step(program: Program, s: System, move: Move): System
    requires Enabled(program, s, move)
  {
    match move
    case WorkerActs => WorkerStep(program, s)
    case Pushes(chunk) => TrySend(s, chunk).0
    case Finishes => CloseInput(s)
    case Takes => TryRecv(s).0
    case Stops => Stop(s)
    case LetsGo => CloseOutput(s)
  }

  /** The states of a run, from the first, with a move for each step. */
  ghost predicate IsRun(program: Program, states: seq<System>, moves: seq<Move>) {
    && |states| == |moves| + 1 && states[0] == INITIAL
    && forall i | 0 <= i < |moves| ::
         Enabled(program, states[i], moves[i]) && states[i + 1] == Step(program, states[i], moves[i])
  }

  lemma StepKeeps(program: Program, s: System, move: Move)
    requires Inv(program, s) && Enabled(program, s, move)
    ensures Inv(program, Step(program, s, move))
  {
    match move
    case WorkerActs => WorkerKeeps(program, s);
    case Pushes(chunk) => TrySendKeeps(program, s, chunk);
    case Takes => TryRecvKeeps(program, s);
    case Finishes | Stops | LetsGo => LetGoKeeps(program, s);
  }

  lemma {:induction false} RunKeeps(program: Program, states: seq<System>, moves: seq<Move>, i: nat)
    requires IsRun(program, states, moves) && i < |states|
    ensures Inv(program, states[i])
  {
    if i == 0 {
      InitiallyInv(program);
    } else {
      RunKeeps(program, states, moves, i - 1);
      StepKeeps(program, states[i - 1], moves[i - 1]);
    }
  }

  /** What one step can change: histories grow, what is observed goes forward, and a settled worker sends no more. */
  ghost predicate Follows(s: System, next: System) {
    && s.pushed <= next.pushed && s.sent <= next.sent && s.taken <= next.taken
    && Rank(s.status.Observed()) <= Rank(next.status.Observed())
    && (s.status.failure.Some? ==> next.status.failure == s.status.failure)
    && (s.status.stopped ==> next.status.stopped)
    && (!s.inputOpen ==> !next.inputOpen)
    && (s.status.Settled() ==>
      && next.sent == s.sent && next.run == s.run
      && next.status.state == s.status.state && next.status.failure == s.status.failure)
  }

  /** While the worker runs by itself, the caller's side of things stays as it is. */
  ghost predicate WorkerOnly(s: System, next: System) {
    && Follows(s, next)
    && next.pushed == s.pushed && next.taken == s.taken
    && next.inputOpen == s.inputOpen && next.outputRead == s.outputRead && next.status.stopped == s.status.stopped
  }

  lemma StepFollows(program: Program, s: System, move: Move)
    requires Inv(program, s) && Enabled(program, s, move)
    ensures Follows(s, Step(program, s, move))
  {
    if move.WorkerActs? {
      WorkerFollows(program, s);
    }
  }

  lemma SettledWorkerRests(program: Program, s: System)
    requires Inv(program, s) && CanStep(program, s) && s.status.Settled()
    ensures WorkerOnly(s, WorkerStep(program, s))
  {
    assert Closing(s.pc);
  }

  lemma DecidingFollows(program: Program, s: System)
    requires Inv(program, s) && CanStep(program, s) && s.pc.Deciding?
    ensures WorkerOnly(s, Decide(program, s))
  {}

  lemma WorkerFollows(program: Program, s: System)
    requires Inv(program, s) && CanStep(program, s)
    ensures WorkerOnly(s, WorkerStep(program, s))
  {
    if s.status.Settled() {
      SettledWorkerRests(program, s);
    } else if s.pc.Deciding? {
      DecidingFollows(program, s);
    }
  }

  lemma FollowsOn(a: System, b: System, c: System)
    requires Follows(a, b) && Follows(b, c)
    ensures Follows(a, c)
  {}

  /** Over any run, nothing goes back, and once the stream is settled no block is ever sent again. */
  lemma {:induction false} RunGoesForward(program: Program, states: seq<System>, moves: seq<Move>, i: nat, j: nat)
    requires IsRun(program, states, moves) && i <= j < |states|
    ensures Follows(states[i], states[j])
    decreases j
  {
    if i < j {
      RunGoesForward(program, states, moves, i, j - 1);
      RunKeeps(program, states, moves, j - 1);
      StepFollows(program, states[j - 1], moves[j - 1]);
      FollowsOn(states[i], states[j - 1], states[j]);
    }
  }

  // The changes of the status

  /** What a step of the worker changes the status by. */
  function WorkerChanges(program: Program, s: System): seq<Change> {
    var face := program.Shown(s.run.at);
    match s.pc
    case Opening | Publishing(_) => [Publishes(face, Open)]
    case Finishing => [Publishes(face, Ended)]
    case MarkingFailed(error) => [Fails(error)]
    case _ => []
  }

  function Changes(program: Program, s: System, move: Move): seq<Change> {
    match move
    case WorkerActs => WorkerChanges(program, s)
    case Stops => [Statuses.Stops]
    case _ => []
  }

  /** Everything that a run has changed the status by, one after the other. */
  function AllChanges(program: Program, states: seq<System>, moves: seq<Move>, i: nat): seq<Change>
    requires i <= |moves| < |states|
  {
    if i == 0 then [] else
      AllChanges(program, states, moves, i - 1) + Changes(program, states[i - 1], moves[i - 1])
  }

  lemma WorkerChangesStatus(program: Program, s: System)
    requires Inv(program, s) && CanStep(program, s)
    ensures var changes, status := WorkerChanges(program, s), WorkerStep(program, s).status;
      && |changes| <= 1
      && (changes == [] ==> status == s.status)
      && (changes != [] ==> status == Apply(s.status, changes[0]))
  {
    if s.pc.Deciding? {
      DecidingFollows(program, s);
    }
  }

  lemma WorkerPublishesForward(program: Program, s: System)
    requires Inv(program, s)
    ensures forall change <- WorkerChanges(program, s) | change.Publishes? ::
      change.state != Probing && Rank(change.state) >= Rank(s.status.state)
  {}

  lemma StepPublishesForward(program: Program, s: System, move: Move, changes: seq<Change>)
    requires Inv(program, s) && Enabled(program, s, move)
    requires s.status == After(changes) && PublishesForward(changes)
    ensures var more := changes + Changes(program, s, move);
      Step(program, s, move).status == After(more) && PublishesForward(more)
  {
    var now := Changes(program, s, move);
    if move.WorkerActs? {
      WorkerChangesStatus(program, s);
      WorkerPublishesForward(program, s);
    }
    if now == [] {
      assert changes + now == changes;
    } else {
      Changed(changes, now[0]);
      assert now == [now[0]];
    }
  }

  /** In every run the status is what its changes make of it, and states are published in their order. */
  lemma {:induction false} RunPublishesForward(program: Program, states: seq<System>, moves: seq<Move>, i: nat)
    requires IsRun(program, states, moves) && i < |states|
    ensures var changes := AllChanges(program, states, moves, i);
      states[i].status == After(changes) && PublishesForward(changes)
  {
    if i > 0 {
      RunPublishesForward(program, states, moves, i - 1);
      RunKeeps(program, states, moves, i - 1);
      StepPublishesForward(program, states[i - 1], moves[i - 1], AllChanges(program, states, moves, i - 1));
    }
  }

  // The reads of the worker's session

  function WaitOf(s: System): seq<ChunkReaders.Arrival> {
    if s.pc.Checking? then [ChunkReaders.Arrival(s.pc.received, s.status.stopped)] else []
  }

  /** How the worker's waits for a chunk came out, in the first steps of a run. */
  function Waits(states: seq<System>, moves: seq<Move>, i: nat): seq<ChunkReaders.Arrival>
    requires i <= |moves| < |states|
  {
    if i == 0 then []
    else
      var s := states[i - 1];
      Waits(states, moves, i - 1) + if moves[i - 1].WorkerActs? then WaitOf(s) else []
  }

  lemma CheckReceives(program: Program, s: System, arrivals: ChunkReaders.Arrivals, n: nat)
    requires Inv(program, s) && s.pc.Checking? && arrivals(n) == ChunkReaders.Arrival(s.pc.received, s.status.stopped)
    requires ChunkReaders.Received(arrivals, n) == s.run.at.consumed + s.held
    ensures var next := Check(program, s); ChunkReaders.Received(arrivals, n + 1) == next.run.at.consumed + next.held
  {}

  lemma DecideReceivesNothing(program: Program, s: System)
    requires Inv(program, s) && CanStep(program, s) && s.pc.Deciding?
    ensures var next := Decide(program, s); next.run.at.consumed + next.held == s.run.at.consumed + s.held
  {
    if program.Act(s.run.at).NeedByte? && s.held != [] {
      NextByteOnCourse(program, s, s.held[0]);
      assert Decide(program, s) == ByteTaken(s);
      ByteMoves(s);
    }
  }

  lemma ByteMoves(s: System)
    requires s.held != []
    ensures var next := ByteTaken(s); next.run.at.consumed + next.held == s.run.at.consumed + s.held
  {
    assert s.run.at.consumed + [s.held[0]] + s.held[1..] == s.run.at.consumed + s.held;
  }

  lemma OthersReceiveNothing(program: Program, s: System, move: Move)
    requires Inv(program, s) && Enabled(program, s, move) && !(move.WorkerActs? && s.pc.Checking?)
    ensures var next := Step(program, s, move); next.run.at.consumed + next.held == s.run.at.consumed + s.held
  {
    if move.WorkerActs? && s.pc.Deciding? {
      DecideReceivesNothing(program, s);
    }
  }

  /** A run by name, for proofs over the whole of it that do not look at its steps. */
  ghost predicate Runs(program: Program, states: seq<System>, moves: seq<Move>) {
    |states| == |moves| + 1 && forall n {:trigger Basics.Shown(n)} :: Basics.Shown(n) ==> IsRun(program, states, moves)
  }

  lemma MoveReceives(program: Program, states: seq<System>, moves: seq<Move>, i: nat, arrivals: ChunkReaders.Arrivals,
                     n: nat)
    requires Runs(program, states, moves) && i < |moves|
    requires ChunkReaders.Received(arrivals, n) == states[i].run.at.consumed + states[i].held
    requires moves[i].WorkerActs? && states[i].pc.Checking? ==>
      arrivals(n) == ChunkReaders.Arrival(states[i].pc.received, states[i].status.stopped)
    ensures var waits := if moves[i].WorkerActs? && states[i].pc.Checking? then 1 else 0;
      ChunkReaders.Received(arrivals, n + waits) == states[i + 1].run.at.consumed + states[i + 1].held
  {
    assert Basics.Shown(0);
    RunKeeps(program, states, moves, i);
    if moves[i].WorkerActs? && states[i].pc.Checking? {
      CheckReceives(program, states[i], arrivals, n);
    } else {
      OthersReceiveNothing(program, states[i], moves[i]);
    }
  }

  /**
    * What the session has consumed and the rest of the chunk at hand are what a chunk reader has been given by the same
    * waits: reads of any size, one after the other, give the session its bytes in this order.
    */
  lemma {:induction false} ReadsAreConsumed(program: Program, states: seq<System>, moves: seq<Move>, i: nat,
                                            arrivals: ChunkReaders.Arrivals)
    requires Runs(program, states, moves) && i < |states|
    requires forall k | 0 <= k < |Waits(states, moves, i)| :: arrivals(k) == Waits(states, moves, i)[k]
    ensures ChunkReaders.Received(arrivals, |Waits(states, moves, i)|) == states[i].run.at.consumed + states[i].held
    decreases i
  {
    assert |states| > 0 && states[0] == INITIAL by { assert Basics.Shown(0); }
    if i > 0 {
      var waits := Waits(states, moves, i - 1);
      assert forall k | 0 <= k < |waits| :: arrivals(k) == Waits(states, moves, i)[k];
      ReadsAreConsumed(program, states, moves, i - 1, arrivals);
      if moves[i - 1].WorkerActs? && states[i - 1].pc.Checking? {
        assert arrivals(|waits|) == Waits(states, moves, i)[|waits|];
      }
      MoveReceives(program, states, moves, i - 1, arrivals, |waits|);
    }
  }

  // What the caller can rely on

  /** What the worker's session has come to is what one comes to that reads everything queued. */
  lemma OnCourseOverAll(program: Program, s: System, bytes: seq<Byte>)
    requires Inv(program, s) && s.pushed <= bytes && (!s.inputOpen ==> bytes == s.pushed)
    ensures RunSteps(program, bytes, s.steps) == s.run
  {
    if !s.run.at.eof {
      RunExtends(program, s.run.at.consumed, bytes, s.steps);
    }
  }

  /** An end that is observed is the end of everything queued: the blocks sent are those one session makes of it. */
  lemma EndIsWhole(program: Program, s: System)
    requires Inv(program, s) && s.outputRead && s.status.Observed() == Ended
    ensures Yields(program, s.pushed, s.sent) && Closing(s.pc)
  {
    OnCourseOverAll(program, s, s.pushed);
    assert s.run.at.blocks == s.sent;
  }

  /** A failure is the session's own, after the blocks it made before, unless the caller had stopped the stream. */
  lemma FailureIsOwn(program: Program, s: System)
    requires Inv(program, s) && s.outputRead && s.status.failure.Some? && !s.status.stopped
    ensures FailsWith(program, s.pushed, s.sent, s.status.failure.value) && Closing(s.pc)
  {
    OnCourseOverAll(program, s, s.pushed);
    assert s.run.at.blocks == s.sent;
  }

  /** The caller has all there will be: no more is sent, and nothing is left in the queue. */
  lemma SettledAndDrained(program: Program, s: System)
    requires Inv(program, s) && s.outputRead && s.status.Settled() && s.output == []
    ensures s.taken == s.sent
  {}

  /** At every moment the blocks taken are a beginning of those that one session makes of all the bytes. */
  lemma TakenIsPrefix(program: Program, s: System, bytes: seq<Byte>, n: nat)
    requires Inv(program, s) && s.pushed <= bytes && (!s.inputOpen ==> bytes == s.pushed)
    requires !RunSteps(program, bytes, n).Going?
    ensures s.taken <= RunSteps(program, bytes, n).at.blocks
  {
    OnCourseOverAll(program, s, bytes);
    if s.steps <= n {
      RunGoesOn(program, bytes, s.steps, n);
    } else {
      RunGoesOn(program, bytes, n, s.steps);
    }
  }

  /**
    * Two streams that were given the same bytes, cut into chunks and scheduled however they were, give the same blocks
    * when they end.
    */
  lemma ChunksDoNotMatter(program: Program, a: System, b: System)
    requires Inv(program, a) && a.outputRead && a.status.Observed() == Ended && a.output == []
    requires Inv(program, b) && b.outputRead && b.status.Observed() == Ended && b.output == []
    requires a.pushed == b.pushed
    ensures a.taken == b.taken
  {
    EndIsWhole(program, a);
    EndIsWhole(program, b);
    YieldsOnce(program, a.pushed, a.sent, b.sent);
  }

  /** Whoever finds a channel closed finds a reason, as long as the caller holds on to both. */
  lemma ClosedForAReason(program: Program, s: System)
    requires Inv(program, s) && s.outputRead && (!s.outputOpen || !s.inputRead)
    ensures s.status.Settled()
  {}

  /** A worker that cannot go on waits for a chunk with nothing queued, or for room with a full queue, or has gone. */
  lemma HeldUpForAReason(program: Program, s: System)
    requires Inv(program, s) && !CanStep(program, s)
    ensures s.pc.Exited? || (s.inputOpen && s.input == []) || (s.outputRead && |s.output| == OUTPUT_BLOCKS)
  {}

  /** With room in the output queue, only a worker that has read everything queued waits for more. */
  lemma AllReadBeforeWaiting(program: Program, s: System)
    requires Inv(program, s) && s.outputRead && !s.status.Settled() && |s.output| < OUTPUT_BLOCKS
    ensures CanStep(program, s) || (s.inputOpen && s.input == [] && s.run.at.consumed == s.pushed)
  {
    if !CanStep(program, s) {
      HeldUpForAReason(program, s);
      assert s.run.at.consumed + [] + [] + [] == s.run.at.consumed;
    }
  }

  // The end comes

  /** After so many steps a session on what is queued has come to something, or has asked for more than that. */
  ghost predicate Conclusive(program: Program, s: System, n: nat) {
    var run := RunSteps(program, s.pushed, n);
    !run.Going? || (s.inputOpen && run.at.eof)
  }

  /** How many steps of its own the worker takes at most until the stream is settled, or it has nothing to read. */
  function StepsTo(s: System, n: nat): nat {
    var unread := |s.input| + if s.run.at.eof || s.pc == Checking(None) then 0 else 1;
    8 * (if s.steps < n then n - s.steps else 0) + 2 * unread + match s.pc
      case Publishing(_) => 3
      case Checking(_) | Opening | Sending(_) | Finishing | MarkingFailed(_) => 1
      case _ => 0
  }

  lemma NotThereYet(program: Program, s: System, n: nat)
    requires Inv(program, s) && s.run.Going? && Conclusive(program, s, n)
    ensures s.steps < n
  {
    OnCourseOverAll(program, s, s.pushed);
    if s.steps >= n {
      RunGoesOn(program, s.pushed, n, s.steps);
      assert false;
    }
  }

  lemma DecideComesNearer(program: Program, s: System, n: nat)
    requires Inv(program, s) && CanStep(program, s) && s.pc.Deciding? && Conclusive(program, s, n)
    ensures StepsTo(Decide(program, s), n) < StepsTo(s, n)
  {
    NotThereYet(program, s, n);
  }

  lemma WorkerComesNearer(program: Program, s: System, n: nat)
    requires Inv(program, s) && CanStep(program, s) && s.outputRead && !s.status.stopped && Conclusive(program, s, n)
    ensures s.status.Settled() || StepsTo(WorkerStep(program, s), n) < StepsTo(s, n)
  {
    if s.pc.Deciding? {
      DecideComesNearer(program, s, n);
    } else if s.pc.Checking? {
      NotThereYet(program, s, n);
    }
  }

  /** How often the worker acts. */
  function WorkerMoves(moves: seq<Move>): nat {
    if moves == [] then 0
    else WorkerMoves(moves[..|moves| - 1]) + if moves[|moves| - 1].WorkerActs? then 1 else 0
  }

  lemma WorkerMovesStep(moves: seq<Move>, i: nat, j: nat)
    requires i <= j < |moves|
    ensures WorkerMoves(moves[i..j + 1]) == WorkerMoves(moves[i..j]) + if moves[j].WorkerActs? then 1 else 0
  {
    assert moves[i..j + 1][..j - i] == moves[i..j];
  }

  lemma OtherComesNoFarther(program: Program, s: System, move: Move, n: nat)
    requires Inv(program, s) && Enabled(program, s, move) && !move.WorkerActs?
    requires Step(program, s, move).pushed == s.pushed
    ensures StepsTo(Step(program, s, move), n) <= StepsTo(s, n)
  {}

  /** One move of a run that neither stops the stream nor queues more. */
  ghost predicate GoesOn(program: Program, s: System, move: Move, next: System, n: nat) {
    && Inv(program, s) && Enabled(program, s, move) && next == Step(program, s, move)
    && !next.status.stopped && next.pushed == s.pushed && Conclusive(program, next, n)
  }

  lemma MoveComesNearer(program: Program, s: System, move: Move, next: System, n: nat)
    requires GoesOn(program, s, move, next, n)
    ensures Conclusive(program, s, n) && (s.status.Settled() ==> next.status.Settled())
    ensures s.status.Settled() || StepsTo(next, n) + (if move.WorkerActs? then 1 else 0) <= StepsTo(s, n)
  {
    StepFollows(program, s, move);
    if move.WorkerActs? {
      WorkerComesNearer(program, s, n);
    } else {
      OtherComesNoFarther(program, s, move, n);
    }
  }

  lemma MoveGoesOn(program: Program, states: seq<System>, moves: seq<Move>, i: nat, j: nat, n: nat)
    requires IsRun(program, states, moves) && i <= j < |moves|
    requires states[j + 1].pushed == states[i].pushed
    requires !states[j + 1].status.stopped && Conclusive(program, states[j + 1], n)
    ensures GoesOn(program, states[j], moves[j], states[j + 1], n) && states[j].pushed == states[i].pushed
    ensures !states[j].status.stopped
  {
    RunKeeps(program, states, moves, j);
    RunGoesForward(program, states, moves, i, j);
    RunGoesForward(program, states, moves, j, j + 1);
  }

  lemma MoveInRun(program: Program, states: seq<System>, moves: seq<Move>, i: nat, j: nat, n: nat)
    requires Runs(program, states, moves) && i <= j < |moves|
    requires states[j + 1].pushed == states[i].pushed
    requires !states[j + 1].status.stopped && Conclusive(program, states[j + 1], n)
    ensures states[j].pushed == states[i].pushed && !states[j].status.stopped && Conclusive(program, states[j], n)
    ensures states[j].status.Settled() ==> states[j + 1].status.Settled()
    ensures states[j].status.Settled()
      || StepsTo(states[j + 1], n) + (if moves[j].WorkerActs? then 1 else 0) <= StepsTo(states[j], n)
  {
    assert Basics.Shown(0);
    MoveGoesOn(program, states, moves, i, j, n);
    MoveComesNearer(program, states[j], moves[j], states[j + 1], n);
  }

  /** Whatever the caller does beside, but for queueing more or stopping, the worker gets nearer to where it settles. */
  lemma {:induction false} RunComesNearer(program: Program, states: seq<System>, moves: seq<Move>, i: nat, j: nat,
                                          n: nat)
    requires Runs(program, states, moves) && i <= j < |states|
    requires !states[j].status.stopped && states[j].pushed == states[i].pushed && Conclusive(program, states[j], n)
    ensures states[j].status.Settled()
      || StepsTo(states[j], n) + WorkerMoves(moves[i..j]) <= StepsTo(states[i], n)
    decreases j
  {
    if i < j {
      MoveInRun(program, states, moves, i, j - 1, n);
      RunComesNearer(program, states, moves, i, j - 1, n);
      WorkerMovesStep(moves, i, j - 1);
    }
  }

  lemma ClosedMoveGetsNoMore(program: Program, s: System, move: Move)
    requires Inv(program, s) && Enabled(program, s, move) && !s.inputOpen
    ensures Step(program, s, move).pushed == s.pushed && !Step(program, s, move).inputOpen
  {
    if move.WorkerActs? {
      WorkerFollows(program, s);
    }
  }

  lemma {:induction false} ClosedGetsNoMore(program: Program, states: seq<System>, moves: seq<Move>, i: nat, j: nat)
    requires IsRun(program, states, moves) && i <= j < |states| && !states[i].inputOpen
    ensures states[j].pushed == states[i].pushed && !states[j].inputOpen
    decreases j
  {
    if i < j {
      ClosedGetsNoMore(program, states, moves, i, j - 1);
      RunKeeps(program, states, moves, j - 1);
      ClosedMoveGetsNoMore(program, states[j - 1], moves[j - 1]);
    }
  }

  /** How a settled stream has settled is how one session on all its bytes comes out. */
  lemma SettledAsRun(program: Program, s: System, n: nat)
    requires Inv(program, s) && s.outputRead && !s.status.stopped && s.status.Settled()
    requires !RunSteps(program, s.pushed, n).Going?
    ensures var run := RunSteps(program, s.pushed, n);
      && s.sent == run.at.blocks
      && (run.Over? <==> s.status.Observed() == Ended)
      && (run.Broke? ==> s.status.failure == Some(run.error))
  {
    OnCourseOverAll(program, s, s.pushed);
    assert Closing(s.pc);
    OneOutcome(program, s.pushed, s.steps, n);
  }

  /**
    * The end comes: once the input is closed, a worker that acts often enough has settled the stream as one session on
    * all the bytes comes out, whatever the caller does meanwhile but stop it.
    */
  lemma EndComes(program: Program, states: seq<System>, moves: seq<Move>, i: nat, j: nat, n: nat)
    requires IsRun(program, states, moves) && i <= j < |states|
    requires !states[i].inputOpen && !states[j].status.stopped
    requires !RunSteps(program, states[i].pushed, n).Going?
    requires WorkerMoves(moves[i..j]) > 8 * n + 2 * |states[i].input| + 5
    ensures var s, run := states[j], RunSteps(program, states[i].pushed, n);
      && s.pushed == states[i].pushed && s.status.Settled() && s.sent == run.at.blocks
      && (run.Over? <==> s.status.Observed() == Ended)
      && (run.Broke? ==> s.status.failure == Some(run.error))
  {
    ClosedGetsNoMore(program, states, moves, i, j);
    RunComesNearer(program, states, moves, i, j, n);
    RunKeeps(program, states, moves, j);
    SettledAsRun(program, states[j], n);
  }

  /** A caller that takes a block whenever the worker cannot go on. */
  function Served(program: Program, s: System, turns: nat): System
    decreases turns
  {
    if turns == 0 then s
    else Served(program, if CanStep(program, s) then WorkerStep(program, s) else TryRecv(s).0, turns - 1)
  }

  lemma {:induction false} ServedStaysSettled(program: Program, s: System, turns: nat)
    requires Inv(program, s) && s.outputRead && s.status.Settled()
    ensures var last := Served(program, s, turns);
      && Inv(program, last) && last.outputRead && last.status.Settled() && last.pushed == s.pushed
      && last.status.stopped == s.status.stopped
    decreases turns
  {
    if turns > 0 {
      if CanStep(program, s) {
        WorkerKeeps(program, s);
        WorkerFollows(program, s);
        ServedStaysSettled(program, WorkerStep(program, s), turns - 1);
      } else {
        TryRecvKeeps(program, s);
        ServedStaysSettled(program, TryRecv(s).0, turns - 1);
      }
    }
  }

  /** The caller has closed the input and holds on, and so many steps of the session come to something. */
  ghost predicate Awaited(program: Program, s: System, n: nat) {
    && Inv(program, s) && s.outputRead && !s.inputOpen && !s.status.stopped
    && !RunSteps(program, s.pushed, n).Going?
  }

  lemma WorkerStepIsAwaited(program: Program, s: System, n: nat)
    requires Awaited(program, s, n) && !s.status.Settled() && CanStep(program, s)
    ensures var next := WorkerStep(program, s);
      Awaited(program, next, n) && StepsTo(next, n) < StepsTo(s, n) && next.pushed == s.pushed
  {
    WorkerKeeps(program, s);
    WorkerFollows(program, s);
    WorkerComesNearer(program, s, n);
  }

  lemma TakingLetsItGoOn(program: Program, s: System, n: nat)
    requires Awaited(program, s, n) && !s.status.Settled() && !CanStep(program, s)
    ensures var next := TryRecv(s).0;
      && Awaited(program, next, n) && !next.status.Settled() && CanStep(program, next)
      && StepsTo(next, n) == StepsTo(s, n) && next.pushed == s.pushed
  {
    HeldUpForAReason(program, s);
    TryRecvKeeps(program, s);
    AllReadBeforeWaiting(program, TryRecv(s).0);
  }

  lemma {:induction false} ServedSettles(program: Program, s: System, n: nat, turns: nat)
    requires Awaited(program, s, n)
    requires turns >= 2 * StepsTo(s, n) + (if CanStep(program, s) then 0 else 1)
    ensures var last := Served(program, s, turns);
      && Inv(program, last) && last.outputRead && last.status.Settled() && last.pushed == s.pushed
      && !last.status.stopped
    decreases turns
  {
    if s.status.Settled() {
      ServedStaysSettled(program, s, turns);
    } else if CanStep(program, s) {
      WorkerStepIsAwaited(program, s, n);
      ServedSettles(program, WorkerStep(program, s), n, turns - 1);
    } else {
      TakingLetsItGoOn(program, s, n);
      ServedSettles(program, TryRecv(s).0, n, turns - 1);
    }
  }

  /**
    * Nothing but the caller holds up the end of a stream whose input is closed: one that takes a block whenever the
    * worker cannot go on finds it settled after so many turns, as one session on all the bytes comes out.
    */
  lemma ServedComesToTheEnd(program: Program, s: System, n: nat, turns: nat)
    requires Inv(program, s) && s.outputRead && !s.inputOpen && !s.status.stopped
    requires !RunSteps(program, s.pushed, n).Going?
    requires turns >= 16 * n + 4 * |s.input| + 11
    ensures var last, run := Served(program, s, turns), RunSteps(program, s.pushed, n);
      && last.status.Settled() && last.sent == run.at.blocks
      && (run.Over? <==> last.status.Observed() == Ended)
      && (run.Broke? ==> last.status.failure == Some(run.error))
  {
    ServedSettles(program, s, n, turns);
    SettledAsRun(program, Served(program, s, turns), n);
  }

  // The close

  ghost predicate LetGo(s: System) {
    s.status.stopped && !s.inputOpen && !s.outputRead
  }

  /** How many steps a worker still has in it at most, once the caller has let go. */
  function StepsLeft(s: System): nat {
    match s.pc
    case Deciding => 8 + 2 * |s.held| + (if s.run.at.isOpen then 0 else 2)
    case Opening => 9 + 2 * |s.held|
    case Checking(_) => 7
    case Publishing(_) => 6
    case Sending(_) => 5
    case Finishing | MarkingFailed(_) => 4
    case ClosingOutput => 3
    case ClosingInput => 2
    case Exiting => 1
    case Exited => 0
  }

  lemma LetGoDecides(program: Program, s: System)
    requires Inv(program, s) && LetGo(s) && s.pc.Deciding?
    ensures CanStep(program, s) && StepsLeft(Decide(program, s)) < StepsLeft(s)
  {}

  /** Nothing holds a worker up that the caller has let go of, and every step it takes brings it nearer to its exit. */
  lemma LetGoGoesOn(program: Program, s: System)
    requires Inv(program, s) && LetGo(s) && !s.pc.Exited?
    ensures CanStep(program, s)
    ensures LetGo(WorkerStep(program, s)) && StepsLeft(WorkerStep(program, s)) < StepsLeft(s)
  {
    if s.pc.Deciding? {
      LetGoDecides(program, s);
    }
    WorkerFollows(program, s);
  }

  function WorkerRuns(program: Program, s: System, n: nat): System
    decreases n
  {
    if n == 0 || !CanStep(program, s) then s else WorkerRuns(program, WorkerStep(program, s), n - 1)
  }

  lemma {:induction false} LetGoExits(program: Program, s: System, n: nat)
    requires Inv(program, s) && LetGo(s) && n >= StepsLeft(s)
    ensures WorkerRuns(program, s, n).pc.Exited?
    decreases n
  {
    if !s.pc.Exited? {
      LetGoGoesOn(program, s);
      WorkerKeeps(program, s);
      LetGoExits(program, WorkerStep(program, s), n - 1);
    }
  }

  lemma WorkerOnlyOn(a: System, b: System, c: System)
    requires WorkerOnly(a, b) && WorkerOnly(b, c)
    ensures WorkerOnly(a, c)
  {}

  lemma {:induction false} WorkerRunsKeep(program: Program, s: System, n: nat)
    requires Inv(program, s)
    ensures Inv(program, WorkerRuns(program, s, n)) && WorkerOnly(s, WorkerRuns(program, s, n))
    decreases n
  {
    if n > 0 && CanStep(program, s) {
      var next := WorkerStep(program, s);
      WorkerKeeps(program, s);
      WorkerFollows(program, s);
      WorkerRunsKeep(program, next, n - 1);
      WorkerOnlyOn(s, next, WorkerRuns(program, s, n));
    }
  }
}
