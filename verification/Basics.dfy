/** Values and outcomes that every part of the decoder shares. */
module Basics {

  datatype Option<+T> = None | Some(value: T)

  datatype Result<+T, +E> = Ok(value: T) | Err(error: E)

  newtype Byte = x: int | 0 <= x < 256

  datatype Error =
    | StreamChanged
    | UnreadableContainer
    | UndecodablePacket
    | TooManySkips
    | SampleRateChanged(trackRate: nat, decodedRate: nat)
    | PacketTooLarge(length: nat, capacity: nat)
    | OpusNeedsReadPacket
    | NotOpus
    | StreamClosed
    | ZeroCapacity
    | Panicked

  datatype State = Probing | Open | Ended | Failed

  function Rank(state: State): nat {
    match state
    case Probing => 0
    case Open => 1
    case Ended => 2
    case Failed => 3
  }

  function Least(a: nat, b: nat): nat {
    if a < b then a else b
  }

  /** The pieces one after another. */
  function Flat<T>(pieces: seq<seq<T>>): seq<T> {
    if pieces == [] then [] else pieces[0] + Flat(pieces[1..])
  }

  lemma {:induction false} FlatAppends<T>(pieces: seq<seq<T>>, piece: seq<T>)
    ensures Flat(pieces + [piece]) == Flat(pieces) + piece
  {
    if pieces == [] {
      assert [] + [piece] == [piece] && [piece][1..] == [];
      assert Flat([piece]) == piece + Flat([]);
    } else {
      assert (pieces + [piece])[1..] == pieces[1..] + [piece];
      FlatAppends(pieces[1..], piece);
    }
  }

  /** A piece taken from a sequence is followed by the rest of it. */
  lemma PieceAndRest<T>(had: seq<T>, all: seq<T>, offset: nat, n: nat)
    requires offset + n <= |all|
    ensures had + all[offset..offset + n] + all[offset + n..] == had + all[offset..]
  {}

  method CopyInto<T>(source: seq<T>, output: array<T>)
    requires |source| <= output.Length
    modifies output
    ensures output[..|source|] == source && output[|source|..] == old(output[|source|..])
  {
    var i := 0;
    while i < |source|
      invariant 0 <= i <= |source|
      invariant forall k | 0 <= k < output.Length :: output[k] == if k < i then source[k] else old(output[k])
    {
      output[i] := source[i];
      i := i + 1;
    }
  }

  /**
    * Definitions that are of use only to the proofs about them hold back behind a quantifier over what is shown: a
    * proof that mentions it looks at them, and the others go by name.
    */
  ghost predicate Shown(n: int) {
    true
  }
}
