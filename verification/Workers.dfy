/** All streams of a process together, and the counter of their workers. */
module Workers {
  import opened Basics
  import opened Programs
  import opened Streams

  /** A stream whose worker is being started, one that is going, or one whose worker could not be started. */
  datatype Slot =
    | Starting
    | Running(program: Program, s: System)
    | Unavailable
  {
    /** Its worker is counted. */
    predicate Counted() {
      Starting? || (Running? && !s.pc.Exited?)
    }
  }

  datatype Pool = Pool(count: int, slots: seq<Slot>)

  datatype Event =
    | Begins
    | Spawns(i: nat, program: Program)
    | SpawnFails(i: nat)
    | Moves(i: nat, move: Move)

  predicate CanHappen(pool: Pool, event: Event) {
    match event
    case Begins => true
    case Spawns(i, _) => i < |pool.slots| && pool.slots[i].Starting?
    case SpawnFails(i) => i < |pool.slots| && pool.slots[i].Starting?
    case Moves(i, move) =>
      i < |pool.slots| && pool.slots[i].Running? && Enabled(pool.slots[i].program, pool.slots[i].s, move)
  }

  /** The counter goes up before a worker is started, and down when that fails and as the last thing a worker does. */
  function Happen(pool: Pool, event: Event): Pool
    requires CanHappen(pool, event)
  {
    match event
    case Begins => Pool(pool.count + 1, pool.slots + [Starting])
    case Spawns(i, program) => pool.(slots := pool.slots[i := Running(program, INITIAL)])
    case SpawnFails(i) => Pool(pool.count - 1, pool.slots[i := Unavailable])
    case Moves(i, move) =>
      var slot := pool.slots[i];
      Pool(if move.WorkerActs? && slot.s.pc.Exiting? then pool.count - 1 else pool.count,
           pool.slots[i := Running(slot.program, Step(slot.program, slot.s, move))])
  }

  function CountedSlots(slots: seq<Slot>): nat {
    if slots == [] then 0
    else CountedSlots(slots[..|slots| - 1]) + if slots[|slots| - 1].Counted() then 1 else 0
  }

  lemma {:induction false} SlotChanged(slots: seq<Slot>, i: nat, slot: Slot)
    requires i < |slots|
    ensures CountedSlots(slots[i := slot]) - CountedSlots(slots)
         == (if slot.Counted() then 1 else 0) - (if slots[i].Counted() then 1 else 0)
    decreases |slots|
  {
    var last := |slots| - 1;
    if i < last {
      assert slots[i := slot][..last] == slots[..last][i := slot];
      SlotChanged(slots[..last], i, slot);
    } else {
      assert slots[i := slot][..last] == slots[..last];
    }
  }

  lemma {:induction false} NoneCounted(slots: seq<Slot>)
    ensures CountedSlots(slots) == 0 <==> forall i | 0 <= i < |slots| :: !slots[i].Counted()
  {
    if slots != [] {
      var rest := slots[..|slots| - 1];
      NoneCounted(rest);
      assert forall i | 0 <= i < |rest| :: rest[i] == slots[i];
    }
  }

  ghost predicate Right(pool: Pool) {
    && pool.count == CountedSlots(pool.slots)
    && forall i | 0 <= i < |pool.slots| && pool.slots[i].Running? :: Inv(pool.slots[i].program, pool.slots[i].s)
  }

  lemma WorkerMoveCounts(program: Program, s: System)
    requires CanStep(program, s)
    ensures WorkerStep(program, s).pc.Exited? <==> s.pc.Exiting?
  {
    if s.pc.Deciding? {
      assert !Decide(program, s).pc.Exited?;
    } else if s.pc.Checking? {
      assert !Check(program, s).pc.Exited?;
    }
  }

  lemma MoveCounts(program: Program, s: System, move: Move)
    requires Enabled(program, s, move)
    ensures s.pc.Exited? ==> Step(program, s, move).pc.Exited?
    ensures !s.pc.Exited? ==> (Step(program, s, move).pc.Exited? <==> move.WorkerActs? && s.pc.Exiting?)
  {
    if move.WorkerActs? {
      WorkerMoveCounts(program, s);
    } else {
      assert Step(program, s, move).pc == s.pc;
    }
  }

  lemma EventKeepsCount(pool: Pool, event: Event)
    requires Right(pool) && CanHappen(pool, event)
    ensures Right(Happen(pool, event))
  {
    match event
    case Begins =>
      assert (pool.slots + [Starting])[..|pool.slots|] == pool.slots;
    case Spawns(i, program) =>
      InitiallyInv(program);
      SlotChanged(pool.slots, i, Running(program, INITIAL));
    case SpawnFails(i) =>
      SlotChanged(pool.slots, i, Unavailable);
    case Moves(i, move) =>
      var slot := pool.slots[i];
      StepKeeps(slot.program, slot.s, move);
      MoveCounts(slot.program, slot.s, move);
      SlotChanged(pool.slots, i, Running(slot.program, Step(slot.program, slot.s, move)));
  }

  ghost predicate IsHistory(pools: seq<Pool>, events: seq<Event>) {
    && |pools| == |events| + 1 && pools[0] == Pool(0, [])
    && forall i | 0 <= i < |events| :: CanHappen(pools[i], events[i]) && pools[i + 1] == Happen(pools[i], events[i])
  }

  /** In every history, the counter is the number of workers that are being started or have not exited. */
  lemma {:induction false} CountIsWorkers(pools: seq<Pool>, events: seq<Event>, i: nat)
    requires IsHistory(pools, events) && i < |pools|
    ensures Right(pools[i])
  {
    if i > 0 {
      CountIsWorkers(pools, events, i - 1);
      EventKeepsCount(pools[i - 1], events[i - 1]);
    }
  }

  /** The counter is zero exactly when no worker is left. */
  lemma ZeroMeansGone(pool: Pool)
    requires Right(pool)
    ensures pool.count == 0 <==> forall i | 0 <= i < |pool.slots| :: !pool.slots[i].Counted()
  {
    NoneCounted(pool.slots);
  }
}
