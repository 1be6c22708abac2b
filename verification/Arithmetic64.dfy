/** Gates, complements and shifts of 64-bit integers, each against the integer it stands for. */
module Arithmetic64 {
  import opened Words
  import opened Int64

  // Bit by bit

  lemma GatedVectors(g: Gate, j: Vector, k: Vector, r: Vector)
    requires InRange(j) && InRange(k) && InRange(r)
    requires Gated(g, j.x, k.x, r.x) && Gated(g, j.y, k.y, r.y) && Gated(g, j.z, k.z, r.z)
    ensures Value(j) >= 0 && Value(k) >= 0 && Value(r) >= 0
    ensures Gated(g, Value(j), Value(k), Value(r))
  {
    Show(j);
    Show(k);
    Show(r);
    SmallPowers();
    var y1, y2, y := j.y * 0x40_0000 + j.z, k.y * 0x40_0000 + k.z, r.y * 0x40_0000 + r.z;
    GatedParts(g, 22, j.y, k.y, r.y, j.z, k.z, r.z, y1, y2, y);
    assert Pow2(42) == 0x400_0000_0000 by { Pow2Sum(20, 22); }
    GatedParts(g, 42, j.x, k.x, r.x, y1, y2, y, Value(j), Value(k), Value(r));
  }

  lemma GateBound(g: Gate, a: nat, b: nat, r: nat, k: nat)
    requires Gated(g, a, b, r) && a < Pow2(k) && b < Pow2(k)
    ensures r < Pow2(k)
  {
    CombineGated(g, a, b);
    GatedUnique(g, a, b, r, Combine(g, a, b));
    CombineBound(g, a, b, k);
  }

  lemma GatedInRange(g: Gate, j: Vector, k: Vector, x: nat, y: nat, z: nat)
    requires InRange(j) && InRange(k)
    requires Gated(g, j.x, k.x, x) && Gated(g, j.y, k.y, y) && Gated(g, j.z, k.z, z)
    ensures InRange(Vector(x, y, z))
  {
    SmallPowers();
    GateBound(g, j.x, k.x, x, 22);
    GateBound(g, j.y, k.y, y, 20);
    GateBound(g, j.z, k.z, z, 22);
  }

  /** `band`, `bor` and `bxor` act on every binary place of the 64-bit integers. */
  method Bitwise64(g: Gate, j: Vector, k: Vector) returns (r: Vector)
    requires Canonical(j) && Canonical(k)
    ensures Canonical(r) && Value(j) >= 0 && Value(k) >= 0 && Value(r) >= 0
    ensures Gated(g, Value(j), Value(k), Value(r))
  {
    Show(j);
    Show(k);
    var x := Words.Bitwise(g, j.x, k.x);
    var y := Words.Bitwise(g, j.y, k.y);
    var z := Words.Bitwise(g, j.z, k.z);
    r := Vector(x, y, z);
    Show(r);
    GatedInRange(g, j, k, x, y, z);
    GatedVectors(g, j, k, r);
  }

  lemma ComplementComponent(x: nat, size: nat, q: nat)
    requires x < size && size * (q + 1) == 0x1_0000_0000
    ensures Bnot(x) % size == size - 1 - x
  {
    assert size * (q + 1) == q * size + size;
    ProductsOrder(1, q + 1, size);
    assert ToWord(x) == x;
    DivisionUnique(Bnot(x), size, q, size - 1 - x);
  }

  /** `bnot` is the complement in 64 places. */
  method Bnot64(j: Vector) returns (r: Vector)
    requires Canonical(j)
    ensures Canonical(r) && Value(r) == 0x1_0000_0000_0000_0000 - 1 - Value(j)
  {
    Show(j);
    ComplementComponent(j.x, 0x40_0000, 0x3ff);
    ComplementComponent(j.y, 0x10_0000, 0xfff);
    ComplementComponent(j.z, 0x40_0000, 0x3ff);
    r := Vector(Bnot(j.x) % 0x40_0000, Bnot(j.y) % 0x10_0000, Bnot(j.z) % 0x40_0000);
    Show(r);
  }

  // Shifts. The lemmas take quotients and remainders as parameters, so that they speak of products alone.

  lemma HighPower(places: nat)
    requires places >= 32
    ensures Pow2(places) == 0x1_0000_0000 * Pow2(places - 32)
  {
    LargePowers();
    Pow2Sum(32, places - 32);
  }

  lemma Split32(m: nat, n: nat)
    requires m + n == 32
    ensures Pow2(m) * Pow2(n) == 0x1_0000_0000
  {
    LargePowers();
    Pow2Sum(m, n);
  }

  /** w = q * a + r, scaled by b, splits at 2^32 = a * b. */
  lemma ScaledWord(w: nat, a: nat, b: nat, q: nat, r: nat)
    requires a * b == 0x1_0000_0000 && w == q * a + r && r < a
    ensures w * b == q * 0x1_0000_0000 + r * b
    ensures 0 <= r * b <= 0x1_0000_0000 - b
    ensures w < 0x1_0000_0000 ==> q < b
  {
    Distribute(q, a, r, b);
    ProductsOrder(r, a - 1, b);
    if q >= b {
      ProductsOrder(b, q, a);
    }
  }

  lemma ShiftedOut(v: nat, places: nat)
    requires places >= 64
    ensures Modulo64(v * Pow2(places)) == 0
  {
    LargePowers();
    Pow2Sum(64, places - 64);
    var p := Pow2(places - 64);
    assert v * Pow2(places) == (v * p) * 0x1_0000_0000_0000_0000;
  }

  lemma MovedOut(v: nat, places: nat)
    requires places >= 64
    ensures Moved(v, places) == 0
  {
    MovedIsProduct(v, places);
    ShiftedOut(v, places);
  }

  lemma LeftByWord(high: nat, low: nat, p: nat, b: nat, w: nat, v: nat)
    requires p == 0x1_0000_0000 * b && w == low * b && v == high * 0x1_0000_0000 + low
    ensures Modulo64(v * p) == w % 0x1_0000_0000 * 0x1_0000_0000
  {
    assert v * p == (high * b) * 0x1_0000_0000_0000_0000 + w * 0x1_0000_0000;
    DivisionUnique(v * p, 0x1_0000_0000_0000_0000, high * b + w / 0x1_0000_0000, w % 0x1_0000_0000 * 0x1_0000_0000);
  }

  lemma LeftWithinWord(high: nat, low: nat, a: nat, b: nat, q: nat, r: nat, s: nat, t: nat, v: nat)
    requires high < 0x1_0000_0000 && low < 0x1_0000_0000 && a * b == 0x1_0000_0000
    requires high == q * a + r && r < a
    requires low == s * a + t && t < a
    requires v == high * 0x1_0000_0000 + low
    ensures s < b && 0 <= r * b + s < 0x1_0000_0000 && 0 <= t * b < 0x1_0000_0000
    ensures Modulo64(v * b) == (r * b + s) * 0x1_0000_0000 + t * b
    ensures low * b % 0x1_0000_0000 == t * b
  {
    ScaledWord(high, a, b, q, r);
    ScaledWord(low, a, b, s, t);
    Distribute(high, 0x1_0000_0000, low, b);
    assert high * (0x1_0000_0000 * b) == high * b * 0x1_0000_0000;
    DivisionUnique(v * b, 0x1_0000_0000_0000_0000, q, (r * b + s) * 0x1_0000_0000 + t * b);
    DivisionUnique(low * b, 0x1_0000_0000, s, t * b);
  }

  /** Replacing the places above `field` of a word that has none there puts the new ones on top of it. */
  method ReplaceAbove(x: nat, v: nat, field: nat, width: nat) returns (r: nat)
    requires field + width == 32 && x < Pow2(field) && v < 0x1_0000_0000
    ensures r == v % Pow2(width) * Pow2(field) + x
  {
    LargePowers();
    Pow2Monotone(field, 32);
    assert ToWord(x) == x && ToWord(v) == v;
    SmallQuotient(x, Pow2(32));
    SmallQuotient(x, Pow2(field));
    r := Replace(x, v, field, width);
  }

  /** The pair that `lshift` hands to `from_pair`. */
  method LeftShiftedPair(high: nat, low: nat, places: nat, ghost v: nat) returns (h: nat, l: nat)
    requires high < 0x1_0000_0000 && low < 0x1_0000_0000 && v == high * 0x1_0000_0000 + low
    ensures h < 0x1_0000_0000 && l < 0x1_0000_0000
    ensures h * 0x1_0000_0000 + l == Moved(v, places)
  {
    MovedIsProduct(v, places);
    assert ToWord(low) == low;
    if places < 32 {
      var rest := 32 - places;
      ghost var a, b := Pow2(rest), Pow2(places);
      Split32(rest, places);
      QuotientBounds(high, a);
      QuotientBounds(low, a);
      LeftWithinWord(high, low, a, b, high / a, high % a, low / a, low % a, v);
      var x := Rshift(low, rest);
      h := ReplaceAbove(x, high, places, rest);
      l := Lshift(low, places);
    } else {
      HighPower(places);
      LeftByWord(high, low, Pow2(places), Pow2(places - 32), low * Pow2(places - 32), v);
      h := Lshift(low, places - 32);
      l := 0;
    }
  }

  method ShiftLeft(j: Vector, places: nat) returns (r: Vector)
    requires Canonical(j)
    ensures Canonical(r) && Value(j) >= 0 && Value(r) == Moved(Value(j), places)
  {
    ValueRange(j);
    ValueOfConstants();
    if places >= 64 {
      MovedOut(Value(j), places);
      return ZERO;
    } else if places == 0 {
      return j;
    }
    var high, low := ToPair(j);
    var h, l := LeftShiftedPair(high, low, places, Value(j));
    r := FromWords(h, l);
  }

  lemma RightWithinWord(high: nat, low: nat, a: nat, b: nat, q: nat, r: nat, s: nat, t: nat, v: nat)
    requires high < 0x1_0000_0000 && low < 0x1_0000_0000 && a * b == 0x1_0000_0000
    requires high == q * b + r && r < b
    requires low == s * b + t && t < b
    requires v == high * 0x1_0000_0000 + low
    ensures s < a && 0 <= r * a + s < 0x1_0000_0000 && q <= high
    ensures v / b == q * 0x1_0000_0000 + (r * a + s)
  {
    ScaledWord(high, b, a, q, r);
    ScaledWord(low, b, a, s, t);
    ProductsOrder(1, b, q);
    Distribute(high, a, s, b);
    DivisionUnique(v, b, high * a + s, t);
  }

  lemma RightByWord(high: nat, low: nat, p: nat, b: nat, q: nat, r: nat, v: nat)
    requires low < 0x1_0000_0000 && p == 0x1_0000_0000 * b
    requires high == q * b + r && r < b
    requires v == high * 0x1_0000_0000 + low
    ensures q <= high && v / p == q
  {
    ProductsOrder(1, b, q);
    assert q * p == (q * b) * 0x1_0000_0000;
    DivisionUnique(v, p, q, r * 0x1_0000_0000 + low);
  }

  /** The pair that `rshift` hands to `from_pair`. */
  method RightShiftedPair(high: nat, low: nat, places: nat, ghost v: nat) returns (h: nat, l: nat)
    requires high < 0x1_0000_0000 && low < 0x1_0000_0000 && v == high * 0x1_0000_0000 + low
    ensures h < 0x1_0000_0000 && l < 0x1_0000_0000
    ensures h * 0x1_0000_0000 + l == MovedDown(v, places)
  {
    MovedDownIsQuotient(v, places);
    assert ToWord(low) == low && ToWord(high) == high;
    if places < 32 {
      var rest := 32 - places;
      ghost var a, b := Pow2(rest), Pow2(places);
      Split32(rest, places);
      QuotientBounds(high, b);
      QuotientBounds(low, b);
      RightWithinWord(high, low, a, b, high / b, high % b, low / b, low % b, v);
      h := Rshift(high, places);
      var x := Rshift(low, places);
      l := ReplaceAbove(x, high, rest, places);
    } else {
      HighPower(places);
      ghost var b := Pow2(places - 32);
      QuotientBounds(high, b);
      RightByWord(high, low, Pow2(places), b, high / b, high % b, v);
      h := 0;
      l := Rshift(high, places - 32);
    }
  }

  method ShiftRight(j: Vector, places: nat) returns (r: Vector)
    requires Canonical(j)
    ensures Canonical(r) && Value(j) >= 0 && Value(r) == MovedDown(Value(j), places)
  {
    ValueRange(j);
    if places == 0 {
      return j;
    }
    var high, low := ToPair(j);
    var h, l := RightShiftedPair(high, low, places, Value(j));
    r := FromWords(h, l);
  }
}
