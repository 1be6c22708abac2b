/** 64-bit integers held in the three components of a vector, 22, 20 and 22 binary places each. */
module Int64 {
  import opened Words

  datatype Vector = Vector(x: int, y: int, z: int)

  predicate InRange(v: Vector) {
    0 <= v.x < 0x40_0000 && 0 <= v.y < 0x10_0000 && 0 <= v.z < 0x40_0000
  }

  function Weighted(v: Vector): int {
    v.x * 0x400_0000_0000 + v.y * 0x40_0000 + v.z
  }

  /** Mentioned by the proofs that look at the components of a vector. The others speak of its value alone. */
  ghost predicate Shown(v: Vector) {
    true
  }

  /** Every component is within its binary places. */
  ghost predicate Canonical(v: Vector) {
    forall u {:trigger Shown(u)} :: Shown(u) && u == v ==> InRange(u)
  }

  ghost predicate Denotes(v: Vector, n: int) {
    forall u {:trigger Shown(u)} :: Shown(u) && u == v ==> n == Weighted(u)
  }

  /** The integer that the components make up. */
  ghost function Value(v: Vector): (n: int)
    ensures Denotes(v, n)
  {
    assert Denotes(v, Weighted(v));
    var n :| Denotes(v, n);
    n
  }

  lemma Show(v: Vector)
    ensures Canonical(v) <==> InRange(v)
    ensures Value(v) == Weighted(v)
  {
    assert Shown(v);
  }

  function Modulo64(n: int): (r: nat)
    ensures r < 0x1_0000_0000_0000_0000
  {
    n % 0x1_0000_0000_0000_0000
  }

  /** v moved n places up, as 64 places hold it. */
  function Moved(v: nat, n: nat): (r: nat)
    ensures r < 0x1_0000_0000_0000_0000
  {
    if n == 0 then Modulo64(v) else Moved(v, n - 1) * 2 % 0x1_0000_0000_0000_0000
  }

  lemma {:induction false} MovedIsProduct(v: nat, n: nat)
    ensures Moved(v, n) == Modulo64(v * Pow2(n))
  {
    PowerStep(0);
    if n > 0 {
      PowerStep(n - 1);
      MovedIsProduct(v, n - 1);
      var w := v * Pow2(n - 1);
      assert v * Pow2(n) == w * 2;
      assert w * 2 == Modulo64(w) * 2 + w / 0x1_0000_0000_0000_0000 * 2 * 0x1_0000_0000_0000_0000;
      MultiplesDropOut(Modulo64(w) * 2, w / 0x1_0000_0000_0000_0000 * 2, 0x1_0000_0000_0000_0000);
    }
  }

  lemma MovedWithin(v: nat, n: nat, w: nat)
    requires w == v * Pow2(n) && w < 0x1_0000_0000_0000_0000
    ensures Moved(v, n) == w
  {
    MovedIsProduct(v, n);
  }

  /** v moved n places down. */
  function MovedDown(v: nat, n: nat): nat {
    if n == 0 then v else MovedDown(v, n - 1) / 2
  }

  lemma {:induction false} MovedDownIsQuotient(v: nat, n: nat)
    ensures MovedDown(v, n) == v / Pow2(n)
  {
    PowerStep(0);
    if n > 0 {
      PowerStep(n - 1);
      MovedDownIsQuotient(v, n - 1);
      var h := Pow2(n - 1);
      QuotientBounds(v, h);
      var q, r := v / h, v % h;
      Distribute(q / 2, 2, q % 2, h);
      ProductsOrder(q % 2, 1, h);
      DivisionUnique(v, 2 * h, q / 2, q % 2 * h + r);
    } else {
      assert v / 1 == v;
    }
  }

  lemma ValueRange(v: Vector)
    requires Canonical(v)
    ensures 0 <= Value(v) < 0x1_0000_0000_0000_0000 && Modulo64(Value(v)) == Value(v)
  {
    Show(v);
  }

  /** A 64-bit number has one vector. */
  lemma ValueInjective(v: Vector, w: Vector)
    requires Canonical(v) && Canonical(w)
    requires Value(v) == Value(w)
    ensures v == w
  {
    Show(v);
    Show(w);
  }

  const ZERO := Vector(0, 0, 0)
  const ONE := Vector(0, 0, 1)

  lemma ValueOfConstants()
    ensures Canonical(ZERO) && Value(ZERO) == 0
    ensures Canonical(ONE) && Value(ONE) == 1
  {
    Show(ZERO);
    Show(ONE);
  }

  lemma SmallPowers()
    ensures Pow2(10) == 0x400 && Pow2(16) == 0x1_0000 && Pow2(20) == 0x10_0000 && Pow2(22) == 0x40_0000
  {
    PowerIs(2);
    PowerIs(6);
    PowerIs(10);
    Pow2Sum(10, 6);
    Pow2Sum(10, 10);
    Pow2Sum(20, 2);
  }

  lemma LargePowers()
    ensures Pow2(32) == 0x1_0000_0000 && Pow2(53) == 0x20_0000_0000_0000 && Pow2(64) == 0x1_0000_0000_0000_0000
  {
    SmallPowers();
    PowerIs(1);
    Pow2Sum(10, 22);
    Pow2Sum(20, 1);
    Pow2Sum(21, 32);
    Pow2Sum(32, 32);
  }

  // Pairs of 32-bit words

  lemma PairValue(h: nat, l: nat, v: Vector)
    requires h < 0x1_0000_0000 && l < 0x1_0000_0000
    requires v == Vector(h / 0x400, h % 0x400 * 0x400 + l / 0x40_0000, l % 0x40_0000)
    ensures Canonical(v) && Value(v) == h * 0x1_0000_0000 + l
  {
    Show(v);
  }

  /** `bor` of a number whose places are all from k on and one whose places are all below k. */
  method Join(ghost a: nat, top: nat, rest: nat, k: nat) returns (r: nat)
    requires top == a * Pow2(k) && rest < Pow2(k) && top + rest < 0x1_0000_0000
    ensures r == top + rest
  {
    r := Words.Bitwise(Or, top, rest);
    assert ToWord(top) == top && ToWord(rest) == rest;
    OrDisjoint(a, top, rest, k);
    GatedUnique(Or, top, rest, r, top + rest);
  }

  /** The middle component is ten places of the high word joined by `bor` to ten of the low one. */
  method FromPair(high: int, low: int) returns (r: Vector)
    ensures Canonical(r) && Value(r) == ToWord(high) * 0x1_0000_0000 + ToWord(low)
  {
    var h, l := ToWord(high), ToWord(low);
    SmallPowers();
    AndMask(h, 10);
    AndMask(l, 22);
    var masked := Words.Bitwise(And, high, 0x3ff);
    GatedUnique(And, h, 0x3ff, masked, h % 0x400);
    var top := Lshift(masked, 10);
    var rest := Extract(low, 22, 10);
    assert top == h % 0x400 * 0x400 && rest == l / 0x40_0000;
    var y := Join(h % 0x400, top, rest, 10);
    var z := Words.Bitwise(And, low, 0x3f_ffff);
    GatedUnique(And, l, 0x3f_ffff, z, l % 0x40_0000);
    var x := Rshift(high, 10);
    r := Vector(x, y, z);
    PairValue(h, l, r);
  }

  /** `from_pair` of two numbers that are 32-bit words already. */
  method FromWords(high: nat, low: nat) returns (r: Vector)
    requires high < 0x1_0000_0000 && low < 0x1_0000_0000
    ensures Canonical(r) && Value(r) == high * 0x1_0000_0000 + low
  {
    r := FromPair(high, low);
  }

  method ToPair(v: Vector) returns (high: nat, low: nat)
    requires Canonical(v)
    ensures high < 0x1_0000_0000 && low < 0x1_0000_0000
    ensures Value(v) == high * 0x1_0000_0000 + low
  {
    Show(v);
    SmallPowers();
    var top := Lshift(v.x, 10);
    var rest := Rshift(v.y, 10);
    assert top == v.x * 0x400 && rest == v.y / 0x400;
    high := Join(v.x, top, rest, 10);
    top := Lshift(v.y, 22);
    assert top == v.y % 0x400 * 0x40_0000;
    low := Join(v.y % 0x400, top, v.z, 22);
  }
}
