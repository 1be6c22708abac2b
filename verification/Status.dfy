/** What a stream's two sides know of each other, beside the channels between them. */
module Statuses {
  import opened Basics

  datatype Info = Info(sampleRate: nat, isOpus: bool, skippedPackets: nat, endedEarly: bool)

  /** What a session shows of itself. */
  datatype Face = Face(codecName: string, containerName: string, info: Info)

  datatype Record = Record(state: State, failure: Option<Error>, info: Option<Info>, codecName: string,
                           containerName: string, stopped: bool)
  {
    function Observed(): State {
      if failure.Some? then Failed else state
    }

    predicate Settled() {
      Observed().Ended? || Observed().Failed?
    }

    /** The names are those of the first time. */
    function Published(face: Face, newState: State): Record {
      var named := if state == Probing then this.(codecName := face.codecName, containerName := face.containerName)
                   else this;
      named.(info := Some(face.info), state := newState)
    }

    /** The first failure stays. */
    function MarkedFailed(error: Error): Record {
      if failure.Some? then this else this.(failure := Some(error))
    }

    function Halted(): Record {
      this.(stopped := true)
    }
  }

  const NEW := Record(Probing, None, None, "", "", false)

  class Status {
    var state: State
    var failure: Option<Error>
    var info: Option<Info>
    var codecName: string
    var containerName: string
    var stopped: bool

    ghost function View(): Record
      reads this
    {
      Record(state, failure, info, codecName, containerName, stopped)
    }

    constructor ()
      ensures View() == NEW
    {
      state, failure, info, codecName, containerName, stopped := Probing, None, None, "", "", false;
    }

    method Publish(face: Face, newState: State)
      modifies this
      ensures View() == old(View()).Published(face, newState)
      ensures info == Some(face.info) && state == newState
      ensures if old(state) == Probing
        then codecName == face.codecName && containerName == face.containerName
        else codecName == old(codecName) && containerName == old(containerName)
    {
      if state == Probing {
        codecName := face.codecName;
        containerName := face.containerName;
      }
      info := Some(face.info);
      state := newState;
    }

    function Observe(): (r: State)
      reads this
      ensures r == View().Observed()
    {
      if failure.Some? then Failed else state
    }

    method MarkFailed(error: Error)
      modifies this
      ensures View() == old(View()).MarkedFailed(error)
    {
      if failure.None? {
        failure := Some(error);
      }
    }

    method Stop()
      modifies this
      ensures View() == old(View()).Halted()
    {
      stopped := true;
    }

    function IsStopped(): (r: bool)
      reads this
      ensures r == View().stopped
    {
      stopped
    }
  }

  // Histories

  /** The changes that are made to a status. */
  datatype Change = Publishes(face: Face, state: State) | Fails(error: Error) | Stops

  function Apply(record: Record, change: Change): Record {
    match change
    case Publishes(face, state) => record.Published(face, state)
    case Fails(error) => record.MarkedFailed(error)
    case Stops => record.Halted()
  }

  function After(changes: seq<Change>): Record {
    if changes == [] then NEW else Apply(After(changes[..|changes| - 1]), changes[|changes| - 1])
  }

  /** Each state published is the one there was or a later one, and never the first. */
  predicate PublishesForward(changes: seq<Change>) {
    changes != [] ==>
      var rest, last := changes[..|changes| - 1], changes[|changes| - 1];
      && PublishesForward(rest)
      && (last.Publishes? ==> last.state != Probing && Rank(last.state) >= Rank(After(rest).state))
  }

  lemma Changed(changes: seq<Change>, last: Change)
    requires PublishesForward(changes)
    requires last.Publishes? ==> last.state != Probing && Rank(last.state) >= Rank(After(changes).state)
    ensures After(changes + [last]) == Apply(After(changes), last) && PublishesForward(changes + [last])
  {
    assert (changes + [last])[..|changes + [last]| - 1] == changes;
  }

  /**
    * If states are published in their order, what is observed never goes back, the failure that is observed is the
    * first there was, and a stop stays.
    */
  lemma {:induction false} HistoryGoesForward(changes: seq<Change>, n: nat)
    requires n <= |changes| && PublishesForward(changes)
    ensures var before, now := After(changes[..n]), After(changes);
      && Rank(before.state) <= Rank(now.state) && Rank(before.Observed()) <= Rank(now.Observed())
      && (before.failure.Some? ==> now.failure == before.failure)
      && (before.stopped ==> now.stopped)
      && (before.state != Probing ==> now.codecName == before.codecName && now.containerName == before.containerName)
    decreases |changes|
  {
    if n == |changes| {
      assert changes[..n] == changes;
    } else {
      var rest, last := changes[..|changes| - 1], changes[|changes| - 1];
      assert rest[..n] == changes[..n];
      HistoryGoesForward(rest, n);
    }
  }

  /** The info that is observed is that of the last publication. */
  lemma {:induction false} InfoIsLast(changes: seq<Change>, k: nat)
    requires k < |changes| && changes[k].Publishes?
    requires forall i | k < i < |changes| :: !changes[i].Publishes?
    ensures After(changes).info == Some(changes[k].face.info) && After(changes).state == changes[k].state
    decreases |changes|
  {
    if k + 1 < |changes| {
      InfoIsLast(changes[..|changes| - 1], k);
    }
  }

  lemma {:induction false} NothingPublished(changes: seq<Change>)
    requires forall i | 0 <= i < |changes| :: !changes[i].Publishes?
    ensures After(changes).state == Probing && After(changes).info == None
  {
    if changes != [] {
      NothingPublished(changes[..|changes| - 1]);
    }
  }

  /** The names are those of the first publication. */
  lemma {:induction false} NamesAreFirst(changes: seq<Change>, k: nat)
    requires PublishesForward(changes) && k < |changes| && changes[k].Publishes?
    requires forall i | 0 <= i < k :: !changes[i].Publishes?
    ensures var now := After(changes);
      && now.state != Probing
      && now.codecName == changes[k].face.codecName && now.containerName == changes[k].face.containerName
    decreases |changes|
  {
    if k + 1 < |changes| {
      NamesAreFirst(changes[..|changes| - 1], k);
    } else {
      NothingPublished(changes[..k]);
    }
  }
}
