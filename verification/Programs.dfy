/** A decoding session as a stream's worker sees it: a program that asks for bytes and makes blocks of them. */
module Programs {
  import opened Basics
  import opened Statuses

  const BYTES_PER_FRAME: nat := 8

  type Block = seq<Byte>

  /** How far a session is: the bytes it has read, whether it was told of their end, and the blocks it has made. */
  datatype Position = Position(consumed: seq<Byte>, eof: bool, isOpen: bool, blocks: seq<Block>)

  const START := Position([], false, false, [])

  datatype Outcome = Made(block: Block) | NoMore | Failing(error: Error)

  datatype Action =
    | NeedByte
    | Opens
    | Comes(outcome: Outcome)
    | Panics

  /**
    * A session answers for itself by its position alone: what it does next, what it makes of a read that fails, and
    * what it shows of itself.
    */
  datatype Program = Program(next: Position -> Action, broken: Position -> Error, face: Position -> Face, isOpus: bool)
  {
    function Shown(at: Position): Face {
      var shown := face(at);
      shown.(info := shown.info.(isOpus := isOpus))
    }

    /** No block is empty, and one of samples holds whole frames. */
    predicate Sound(block: Block) {
      block != [] && (!isOpus ==> |block| % 8 == 0)
    }

    /** What is done where it has no place is a panic. */
    function Act(at: Position): Action {
      var action := next(at);
      match action
      case NeedByte => if at.eof then Panics else action
      case Opens => if at.isOpen then Panics else action
      case Comes(Made(block)) => if at.isOpen && Sound(block) then action else Panics
      case Comes(NoMore) => if at.isOpen then action else Panics
      case Comes(Failing(_)) => action
      case Panics => action
    }
  }

  datatype Run =
    | Going(at: Position)
    | Over(at: Position)
    | Broke(at: Position, error: Error)

  /** The session as it reads a string of bytes that ends there. */
  function RunStep(program: Program, bytes: seq<Byte>, run: Run): Run {
    if !run.Going? then run
    else
      var at := run.at;
      match program.Act(at)
      case NeedByte =>
        if |at.consumed| < |bytes| then Going(at.(consumed := at.consumed + [bytes[|at.consumed|]]))
        else Going(at.(eof := true))
      case Opens => Going(at.(isOpen := true))
      case Comes(Made(block)) => Going(at.(blocks := at.blocks + [block]))
      case Comes(NoMore) => Over(at)
      case Comes(Failing(error)) => Broke(at, error)
      case Panics => Broke(at, Panicked)
  }

  function RunSteps(program: Program, bytes: seq<Byte>, n: nat): Run {
    if n == 0 then Going(START) else RunStep(program, bytes, RunSteps(program, bytes, n - 1))
  }

  /** Reading those bytes, a session makes those blocks and comes to its end. */
  ghost predicate Yields(program: Program, bytes: seq<Byte>, blocks: seq<Block>) {
    exists n: nat :: RunSteps(program, bytes, n).Over? && RunSteps(program, bytes, n).at.blocks == blocks
  }

  ghost predicate FailsWith(program: Program, bytes: seq<Byte>, blocks: seq<Block>, error: Error) {
    exists n: nat ::
      var run := RunSteps(program, bytes, n);
      run.Broke? && run.at.blocks == blocks && run.error == error
  }

  lemma {:induction false} RunReads(program: Program, bytes: seq<Byte>, n: nat)
    ensures var at := RunSteps(program, bytes, n).at;
      at.consumed <= bytes && (at.eof ==> at.consumed == bytes)
  {
    if n > 0 {
      RunReads(program, bytes, n - 1);
    }
  }

  lemma {:induction false} RunGoesOn(program: Program, bytes: seq<Byte>, m: nat, n: nat)
    requires m <= n
    ensures var before, after := RunSteps(program, bytes, m), RunSteps(program, bytes, n);
      && before.at.blocks <= after.at.blocks
      && (before.at.eof ==> after.at.eof)
      && (!before.Going? ==> after == before)
    decreases n
  {
    if m < n {
      RunGoesOn(program, bytes, m, n - 1);
    }
  }

  /** One string of bytes has one outcome. */
  lemma OneOutcome(program: Program, bytes: seq<Byte>, m: nat, n: nat)
    requires !RunSteps(program, bytes, m).Going? && !RunSteps(program, bytes, n).Going?
    ensures RunSteps(program, bytes, m) == RunSteps(program, bytes, n)
  {
    if m <= n {
      RunGoesOn(program, bytes, m, n);
    } else {
      RunGoesOn(program, bytes, n, m);
    }
  }

  lemma YieldsOnce(program: Program, bytes: seq<Byte>, first: seq<Block>, second: seq<Block>)
    requires Yields(program, bytes, first) && Yields(program, bytes, second)
    ensures first == second
  {
    var m: nat :| RunSteps(program, bytes, m).Over? && RunSteps(program, bytes, m).at.blocks == first;
    var n: nat :| RunSteps(program, bytes, n).Over? && RunSteps(program, bytes, n).at.blocks == second;
    OneOutcome(program, bytes, m, n);
  }

  /** Until a session is told of the end, it cannot know how the bytes go on. */
  lemma {:induction false} RunExtends(program: Program, first: seq<Byte>, bytes: seq<Byte>, n: nat)
    requires first <= bytes && !RunSteps(program, first, n).at.eof
    ensures RunSteps(program, bytes, n) == RunSteps(program, first, n)
  {
    if n > 0 {
      RunGoesOn(program, first, n - 1, n);
      RunExtends(program, first, bytes, n - 1);
      RunReads(program, first, n - 1);
    }
  }

  lemma {:induction false} RunMakesSound(program: Program, bytes: seq<Byte>, n: nat)
    ensures forall block <- RunSteps(program, bytes, n).at.blocks :: program.Sound(block)
  {
    if n > 0 {
      RunMakesSound(program, bytes, n - 1);
    }
  }

  lemma YieldsOnlySound(program: Program, bytes: seq<Byte>, blocks: seq<Block>)
    requires Yields(program, bytes, blocks)
    ensures forall block <- blocks :: program.Sound(block)
  {
    var n: nat :| RunSteps(program, bytes, n).Over? && RunSteps(program, bytes, n).at.blocks == blocks;
    RunMakesSound(program, bytes, n);
  }
}
