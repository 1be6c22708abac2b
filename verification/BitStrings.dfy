/** The `bit` library: operations on 64-bit integers written as decimal strings. */
module BitStrings {
  import opened Words
  import opened Int64
  import opened Decimal
  import Arithmetic64

  /** The integer that a numeral of at most 85 binary places is read as. */
  function Number(s: string): nat
    requires Digits(s)
  {
    Modulo64(NumeralValue(s))
  }

  /** A numeral that Luau numbers hold exactly while it is read, or a string that is refused. */
  predicate Readable(s: string) {
    Digits(s) ==> NumeralValue(s) < 0x20_0000_0000_0000_0000_0000
  }

  lemma ShortIsReadable(s: string)
    requires |s| <= 25
    ensures Readable(s)
  {
    if Digits(s) {
      TwentyFiveDigits(s);
    }
  }

  method Bnot(d: string) returns (r: Reading<string>)
    requires Readable(d)
    ensures r.Read? <==> Digits(d)
    ensures r.Read? ==> r.value == Numeral(0xffff_ffff_ffff_ffff - Number(d))
  {
    var v := FromDecString(d);
    if v.UnexpectedCharacter? {
      return UnexpectedCharacter(v.position);
    }
    var w := Arithmetic64.Bnot64(v.value);
    var s := ToDecString(w);
    r := Read(s);
  }

  /** `bor` and `band`: the numeral of the number with the gate of the operands' places. */
  method Bitwise(g: Gate, d: string, e: string) returns (r: Reading<string>)
    requires Readable(d) && Readable(e)
    ensures r.Read? <==> Digits(d) && Digits(e)
    ensures r.Read? ==>
      && Digits(r.value) && r.value == Numeral(NumeralValue(r.value))
      && Gated(g, Number(d), Number(e), NumeralValue(r.value))
  {
    var v := FromDecString(d);
    if v.UnexpectedCharacter? {
      return UnexpectedCharacter(v.position);
    }
    var w := FromDecString(e);
    if w.UnexpectedCharacter? {
      return UnexpectedCharacter(w.position);
    }
    var x := Arithmetic64.Bitwise64(g, v.value, w.value);
    var s := ToDecString(x);
    NumeralDigits(Value(x));
    r := Read(s);
  }

  /** A displacement of zero returns the string itself, whatever it is. */
  method Shift(d: string, e: int) returns (r: Reading<string>)
    requires e != 0 ==> Readable(d)
    ensures e == 0 ==> r == Read(d)
    ensures e != 0 ==> (r.Read? <==> Digits(d))
    ensures e > 0 && r.Read? ==> r.value == Numeral(Moved(Number(d), e))
    ensures e < 0 && r.Read? ==> r.value == Numeral(MovedDown(Number(d), -e))
  {
    if e == 0 {
      return Read(d);
    }
    var v := FromDecString(d);
    if v.UnexpectedCharacter? {
      return UnexpectedCharacter(v.position);
    }
    var w;
    if e > 0 {
      w := Arithmetic64.ShiftLeft(v.value, e);
    } else {
      w := Arithmetic64.ShiftRight(v.value, -e);
    }
    var s := ToDecString(w);
    r := Read(s);
  }

  /** Left shifts multiply by a power of two modulo 2^64, right shifts divide by one and round down. */
  lemma ShiftsAreProducts(v: nat, n: nat)
    ensures Moved(v, n) == v * Pow2(n) % 0x1_0000_0000_0000_0000
    ensures MovedDown(v, n) == v / Pow2(n)
  {
    MovedIsProduct(v, n);
    MovedDownIsQuotient(v, n);
  }

  /** A right shift takes a left shift back just when nothing was shifted out. */
  lemma ShiftTakenBack(v: nat, n: nat)
    requires v < 0x1_0000_0000_0000_0000
    ensures MovedDown(Moved(v, n), n) == v <==> v * Pow2(n) < 0x1_0000_0000_0000_0000
  {
    MovedIsProduct(v, n);
    MovedDownIsQuotient(Moved(v, n), n);
    TakenBack(v, Pow2(n), v * Pow2(n), Moved(v, n));
  }

  lemma TakenBack(v: nat, p: nat, product: nat, w: nat)
    requires p > 0 && product == v * p && w == Modulo64(product)
    ensures w / p == v <==> product < 0x1_0000_0000_0000_0000
  {
    if product < 0x1_0000_0000_0000_0000 {
      DivisionUnique(product, p, v, 0);
    } else {
      QuotientBounds(w, p);
      if w / p == v {
        assert false;
      }
    }
  }

  /** A number and its complement have no place in common, and all 64 between them. */
  lemma ComplementGates(v: nat)
    requires v < 0x1_0000_0000_0000_0000
    ensures Gated(And, v, 0xffff_ffff_ffff_ffff - v, 0)
    ensures Gated(Or, v, 0xffff_ffff_ffff_ffff - v, 0xffff_ffff_ffff_ffff)
  {
    LargePowers();
    forall i: nat
      ensures Place(0xffff_ffff_ffff_ffff - v, i) <==> i < 64 && !Place(v, i)
      ensures !Place(0, i)
      ensures Place(0xffff_ffff_ffff_ffff, i) <==> i < 64
      ensures i >= 64 ==> !Place(v, i)
    {
      PlacesOfComplement(v, 64, i);
      PlacesOfZero(i);
      PlacesOfFullMask(64, i);
      if i >= 64 {
        PlacesBelow(v, 64, i);
      }
    }
  }

  /** Masking by the complement of some flags clears those flags and keeps every other one. */
  lemma FlagsCleared(flags: nat, complement: nat, flagged: nat, kept: nat, i: nat)
    requires flags < 0x1_0000_0000_0000_0000 && complement == 0xffff_ffff_ffff_ffff - flags
    requires Gated(And, flagged, complement, kept)
    ensures Place(kept, i) <==> i < 64 && Place(flagged, i) && !Place(flags, i)
  {
    assert complement == Pow2(64) - 1 - flags by { LargePowers(); }
    PlacesOfComplement(flags, 64, i);
    assert Place(kept, i) == And.Of(Place(flagged, i), Place(complement, i));
  }
}
