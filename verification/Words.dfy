/** Luau's `bit32` library on numbers, and the arithmetic of binary places it rests on. */
module Words {

  function PowerOfTwo(n: nat): nat {
    if n == 0 then 1 else 2 * PowerOfTwo(n - 1)
  }

  lemma {:induction false} PowerPositive(n: nat)
    ensures PowerOfTwo(n) > 0
  {
    if n > 0 {
      PowerPositive(n - 1);
    }
  }

  /** Mentioned by the proofs that look at how a power of two is made. */
  ghost predicate Doubling(n: nat) {
    true
  }

  ghost predicate IsPower(n: nat, p: nat) {
    forall m: nat {:trigger Doubling(m)} :: Doubling(m) && m == n ==> p == PowerOfTwo(m)
  }

  /** 2^n, as a number whose making only PowerStep and the lemmas from it look at. */
  ghost function Pow2(n: nat): (p: nat)
    ensures p > 0 && IsPower(n, p)
  {
    PowerPositive(n);
    assert IsPower(n, PowerOfTwo(n));
    var p: nat :| p > 0 && IsPower(n, p);
    p
  }

  lemma PowerIs(n: nat)
    ensures Pow2(n) == PowerOfTwo(n)
  {
    assert Doubling(n);
  }

  lemma PowerStep(n: nat)
    ensures Pow2(0) == 1 && Pow2(n + 1) == 2 * Pow2(n)
  {
    PowerIs(0);
    PowerIs(n);
    PowerIs(n + 1);
  }

  lemma {:induction false} Pow2Sum(m: nat, n: nat)
    ensures Pow2(m + n) == Pow2(m) * Pow2(n)
    decreases m
  {
    PowerStep(0);
    if m > 0 {
      Pow2Sum(m - 1, n);
      PowerStep(m - 1);
      PowerStep(m - 1 + n);
      Distribute(2, Pow2(m - 1), 0, Pow2(n));
    }
  }

  lemma {:induction false} Pow2Monotone(m: nat, n: nat)
    requires m <= n
    ensures Pow2(m) <= Pow2(n)
    ensures m < n ==> 2 * Pow2(m) <= Pow2(n)
    decreases n
  {
    if m < n {
      PowerStep(n - 1);
      Pow2Monotone(m, n - 1);
    }
  }

  lemma MultipleAtLeast(k: int, d: int)
    requires d > 0
    ensures k >= 1 ==> k * d >= d
    ensures k <= -1 ==> k * d <= -d
  {}

  lemma ProductsOrder(a: nat, b: nat, c: nat)
    requires a <= b
    ensures 0 <= a * c <= b * c
  {}

  /** w = q * a + r scaled by b. */
  lemma Distribute(q: int, a: int, r: int, b: int)
    ensures (q * a + r) * b == q * (a * b) + r * b
  {}

  /** Division is determined by its result: q and r are a's quotient and remainder by d. */
  lemma DivisionUnique(a: int, d: int, q: int, r: int)
    requires a == q * d + r && 0 <= r < d
    ensures a / d == q && a % d == r
  {
    var k := a / d - q;
    assert a == (a / d) * d + a % d;
    assert k * d == r - a % d;
    MultipleAtLeast(k, d);
  }

  lemma QuotientBounds(a: nat, d: nat)
    requires d > 0
    ensures a / d >= 0 && a / d * d <= a < a / d * d + d
    ensures a / d * d + a % d == a
  {}

  lemma SmallQuotient(a: nat, d: nat)
    requires a < d
    ensures a / d == 0 && a % d == a
  {}

  function Quotient(a: nat, d: nat): (q: nat)
    requires d > 0
  {
    QuotientBounds(a, d);
    a / d
  }

  lemma MultiplesDropOut(a: int, k: int, d: int)
    requires d > 0
    ensures (a + k * d) % d == a % d
  {
    assert a + k * d == (a / d + k) * d + a % d;
    DivisionUnique(a + k * d, d, a / d + k, a % d);
  }

  // Numbers of binary places

  function BitLength(v: nat): nat {
    if v == 0 then 0 else 1 + BitLength(v / 2)
  }

  lemma {:induction false} BitLengthBounds(v: nat)
    ensures v < Pow2(BitLength(v))
    ensures v > 0 ==> BitLength(v) > 0 && Pow2(BitLength(v) - 1) <= v
  {
    PowerStep(0);
    if v > 0 {
      BitLengthBounds(v / 2);
      PowerStep(BitLength(v / 2));
      if v > 1 {
        PowerStep(BitLength(v / 2) - 1);
      }
    }
  }

  lemma LengthsAgree(v: nat, m: nat, n: nat)
    requires v < Pow2(m) && (m > 0 ==> Pow2(m - 1) <= v)
    requires v < Pow2(n) && (n > 0 ==> Pow2(n - 1) <= v)
    ensures m == n
  {
    if m < n {
      Pow2Monotone(m, n - 1);
    } else if n < m {
      Pow2Monotone(n, m - 1);
    }
  }

  lemma BitLengthUnique(v: nat, n: nat)
    requires v < Pow2(n) && (n > 0 ==> Pow2(n - 1) <= v)
    ensures BitLength(v) == n
  {
    BitLengthBounds(v);
    LengthsAgree(v, BitLength(v), n);
  }

  // Bit by bit operations

  /** Binary place i of x, the lowest being place 0. */
  predicate Place(x: nat, i: nat)
    decreases i
  {
    if i == 0 then x % 2 == 1 else Place(x / 2, i - 1)
  }

  lemma {:induction false} PlacesOfZero(i: nat)
    ensures !Place(0, i)
  {
    if i > 0 {
      PlacesOfZero(i - 1);
    }
  }

  /** A number is determined by its binary places. */
  lemma {:induction false} PlacesDetermine(x: nat, y: nat)
    requires forall i: nat :: Place(x, i) == Place(y, i)
    ensures x == y
    decreases x + y
  {
    if x + y > 0 {
      assert Place(x, 0) == Place(y, 0);
      forall i: nat ensures Place(x / 2, i) == Place(y / 2, i) {
        assert Place(x, i + 1) == Place(y, i + 1);
      }
      PlacesDetermine(x / 2, y / 2);
    }
  }

  lemma PlaceStep(u: nat, b: nat, i: nat)
    ensures Place(2 * u + b, i) == if i == 0 then b % 2 == 1 else Place(u + b / 2, i - 1)
  {}

  lemma Doubled(a: nat, h: nat)
    ensures a * h >= 0 && a * (2 * h) == 2 * (a * h)
  {}

  /** The places of a * 2^k + b are b's below k and a's from k on. */
  lemma {:induction false} PlaceSplit(a: nat, b: nat, k: nat, x: nat, i: nat)
    requires x == a * Pow2(k) + b && b < Pow2(k)
    ensures Place(x, i) == if i < k then Place(b, i) else Place(a, i - k)
    decreases k
  {
    PowerStep(0);
    if k > 0 {
      var h := Pow2(k - 1);
      PowerStep(k - 1);
      Doubled(a, h);
      PlaceStep(a * h, b, i);
      if i > 0 {
        PlaceSplit(a, b / 2, k - 1, a * h + b / 2, i - 1);
      }
    }
  }

  /** The number that the places of x below n make. */
  ghost function LowPart(x: nat, n: nat): nat {
    if n == 0 then 0 else LowPart(x, n - 1) + if Place(x, n - 1) then Pow2(n - 1) else 0
  }

  lemma {:induction false} LowPartHalves(x: nat, n: nat)
    ensures LowPart(x, n + 1) == x % 2 + 2 * LowPart(x / 2, n)
  {
    PowerStep(0);
    if n > 0 {
      PowerStep(n - 1);
      LowPartHalves(x, n - 1);
    }
  }

  lemma {:induction false} LowPartWhole(x: nat, n: nat)
    requires x < Pow2(n)
    ensures LowPart(x, n) == x
    decreases n
  {
    PowerStep(0);
    if n > 0 {
      PowerStep(n - 1);
      LowPartHalves(x, n - 1);
      LowPartWhole(x / 2, n - 1);
    }
  }

  lemma {:induction false} PlaceOfQuotient(x: nat, n: nat)
    ensures Place(x, n) <==> x / Pow2(n) % 2 == 1
    decreases n
  {
    PowerStep(0);
    if n > 0 {
      PowerStep(n - 1);
      var h := Pow2(n - 1);
      PlaceOfQuotient(x / 2, n - 1);
      QuotientBounds(x / 2, h);
      var q, r := x / 2 / h, x / 2 % h;
      Doubled(q, h);
      DivisionUnique(x, 2 * h, q, 2 * r + x % 2);
    } else {
      assert x / 1 == x;
    }
  }

  lemma {:induction false} PlaceOfPower(k: nat, i: nat)
    ensures Place(Pow2(k), i) <==> i == k
    decreases k
  {
    PowerStep(0);
    if k == 0 {
      if i > 0 {
        PlacesOfZero(i - 1);
      }
    } else {
      PowerStep(k - 1);
      if i > 0 {
        PlaceOfPower(k - 1, i - 1);
      }
    }
  }

  datatype Gate = And | Or | Xor {
    predicate Of(p: bool, q: bool) {
      match this
      case And => p && q
      case Or => p || q
      case Xor => p != q
    }
  }

  /** Every binary place of r is the gate of the same places of a and b. */
  ghost predicate Gated(g: Gate, a: nat, b: nat, r: nat) {
    forall i: nat :: Place(r, i) == g.Of(Place(a, i), Place(b, i))
  }

  lemma GatedUnique(g: Gate, a: nat, b: nat, r: nat, s: nat)
    requires Gated(g, a, b, r) && Gated(g, a, b, s)
    ensures r == s
  {
    forall i: nat ensures Place(r, i) == Place(s, i) {
      assert Place(r, i) == g.Of(Place(a, i), Place(b, i));
    }
    PlacesDetermine(r, s);
  }

  function Combine(g: Gate, a: nat, b: nat): nat
    decreases a + b
  {
    if a == 0 && b == 0 then 0
    else 2 * Combine(g, a / 2, b / 2) + if g.Of(a % 2 == 1, b % 2 == 1) then 1 else 0
  }

  lemma {:induction false} CombinePlace(g: Gate, a: nat, b: nat, i: nat)
    ensures Place(Combine(g, a, b), i) == g.Of(Place(a, i), Place(b, i))
    decreases a + b
  {
    if a == 0 && b == 0 {
      PlacesOfZero(i);
    } else if i > 0 {
      CombinePlace(g, a / 2, b / 2, i - 1);
    }
  }

  lemma CombineGated(g: Gate, a: nat, b: nat)
    ensures Gated(g, a, b, Combine(g, a, b))
  {
    forall i: nat ensures Place(Combine(g, a, b), i) == g.Of(Place(a, i), Place(b, i)) {
      CombinePlace(g, a, b, i);
    }
  }

  lemma {:induction false} CombineBound(g: Gate, a: nat, b: nat, k: nat)
    requires a < Pow2(k) && b < Pow2(k)
    ensures Combine(g, a, b) < Pow2(k)
    decreases k
  {
    PowerStep(0);
    if k > 0 {
      PowerStep(k - 1);
      CombineBound(g, a / 2, b / 2, k - 1);
    }
  }

  /** A gate works on the places from k on and on the places below k apart from each other. */
  lemma GatedParts(g: Gate, k: nat, a1: nat, b1: nat, r1: nat, a0: nat, b0: nat, r0: nat, a: nat, b: nat, r: nat)
    requires Gated(g, a1, b1, r1) && Gated(g, a0, b0, r0)
    requires a0 < Pow2(k) && b0 < Pow2(k) && r0 < Pow2(k)
    requires a == a1 * Pow2(k) + a0 && b == b1 * Pow2(k) + b0 && r == r1 * Pow2(k) + r0
    ensures Gated(g, a, b, r)
  {
    forall i: nat ensures Place(r, i) == g.Of(Place(a, i), Place(b, i)) {
      PlaceSplit(a1, a0, k, a, i);
      PlaceSplit(b1, b0, k, b, i);
      PlaceSplit(r1, r0, k, r, i);
      if i < k {
        assert Place(r0, i) == g.Of(Place(a0, i), Place(b0, i));
      } else {
        assert Place(r1, i - k) == g.Of(Place(a1, i - k), Place(b1, i - k));
      }
    }
  }

  lemma GatedWithZero(a: nat)
    ensures Gated(Or, a, 0, a) && Gated(Or, 0, a, a) && Gated(And, a, 0, 0)
  {
    forall i: nat ensures !Place(0, i) {
      PlacesOfZero(i);
    }
  }

  /** Numbers with no place in common are joined by addition. */
  lemma OrDisjoint(a: nat, high: nat, low: nat, k: nat)
    requires high == a * Pow2(k) && low < Pow2(k)
    ensures Gated(Or, high, low, high + low) && Gated(Or, low, high, high + low)
  {
    GatedWithZero(a);
    GatedWithZero(low);
    GatedParts(Or, k, a, 0, a, 0, low, low, high, low, high + low);
    GatedParts(Or, k, 0, a, a, low, 0, low, low, high, high + low);
  }

  /** v has no place below k. */
  ghost predicate LowClear(v: nat, k: nat) {
    forall i: nat | i < k :: !Place(v, i)
  }

  lemma {:induction false} LowClearMultiple(v: nat, k: nat) returns (a: nat)
    requires LowClear(v, k)
    ensures v == a * Pow2(k)
    decreases k
  {
    PowerStep(0);
    if k == 0 {
      a := v;
    } else {
      PowerStep(k - 1);
      assert !Place(v, 0);
      forall i: nat | i < k - 1 ensures !Place(v / 2, i) {
        assert !Place(v, i + 1);
      }
      a := LowClearMultiple(v / 2, k - 1);
      Doubled(a, Pow2(k - 1));
    }
  }

  lemma MultipleLowClear(a: nat, k: nat, v: nat)
    requires v == a * Pow2(k)
    ensures LowClear(v, k)
  {
    forall i: nat | i < k ensures !Place(v, i) {
      PlaceSplit(a, 0, k, v, i);
      PlacesOfZero(i);
    }
  }

  /** A place with nothing at it or below can be joined by addition, and leaves nothing below it. */
  lemma JoinPlaceBelow(v: nat, k: nat)
    requires LowClear(v, k + 1)
    ensures Gated(Or, v, Pow2(k), v + Pow2(k)) && LowClear(v + Pow2(k), k)
  {
    var a := LowClearMultiple(v, k + 1);
    PowerStep(k);
    OrDisjoint(a, v, Pow2(k), k + 1);
    Distribute(a, 2, 1, Pow2(k));
    MultipleLowClear(a * 2 + 1, k, v + Pow2(k));
  }

  lemma {:induction false} PlacesOfFullMask(k: nat, i: nat)
    ensures Place(Pow2(k) - 1, i) <==> i < k
    decreases k
  {
    PowerStep(0);
    if k == 0 {
      PlacesOfZero(i);
    } else {
      PowerStep(k - 1);
      PlaceStep(Pow2(k - 1) - 1, 1, i);
      if i > 0 {
        PlacesOfFullMask(k - 1, i - 1);
      }
    }
  }

  lemma {:induction false} PlacesBelow(a: nat, k: nat, i: nat)
    requires a < Pow2(k) && i >= k
    ensures !Place(a, i)
    decreases k
  {
    PowerStep(0);
    if k == 0 {
      PlacesOfZero(i);
    } else {
      PowerStep(k - 1);
      PlacesBelow(a / 2, k - 1, i - 1);
    }
  }

  lemma AndFullMask(a: nat, k: nat)
    requires a < Pow2(k)
    ensures Gated(And, a, Pow2(k) - 1, a)
  {
    forall i: nat ensures Place(a, i) == (Place(a, i) && Place(Pow2(k) - 1, i)) {
      PlacesOfFullMask(k, i);
      if i >= k {
        PlacesBelow(a, k, i);
      }
    }
  }

  /** Masking with k ones keeps the remainder by 2^k. */
  lemma AndMask(a: nat, k: nat)
    ensures Gated(And, a, Pow2(k) - 1, a % Pow2(k))
  {
    var p := Pow2(k);
    var q := Quotient(a, p);
    QuotientBounds(a, p);
    GatedWithZero(q);
    AndFullMask(a % p, k);
    GatedParts(And, k, q, 0, 0, a % p, p - 1, a % p, a, p - 1, a % p);
  }

  /** The complement within k places has exactly the places the number lacks. */
  lemma {:induction false} PlacesOfComplement(a: nat, k: nat, i: nat)
    requires a < Pow2(k)
    ensures Place(Pow2(k) - 1 - a, i) <==> i < k && !Place(a, i)
    decreases k
  {
    PowerStep(0);
    if k == 0 {
      PlacesOfZero(i);
    } else {
      PowerStep(k - 1);
      var c := Pow2(k) - 1 - a;
      assert c / 2 == Pow2(k - 1) - 1 - a / 2 && c % 2 == 1 - a % 2;
      if i > 0 {
        PlacesOfComplement(a / 2, k - 1, i - 1);
      }
    }
  }

  // The library's functions: every argument is first taken modulo 2^32

  function ToWord(x: int): (r: nat)
    ensures r < 0x1_0000_0000
  {
    x % 0x1_0000_0000
  }

  method Rshift(x: int, places: nat) returns (r: nat)
    ensures r == ToWord(x) / Pow2(places)
  {
    PowerIs(places);
    r := Quotient(ToWord(x), PowerOfTwo(places));
  }

  method Lshift(x: int, places: nat) returns (r: nat)
    ensures r < 0x1_0000_0000 && r == ToWord(x) * Pow2(places) % 0x1_0000_0000
  {
    PowerIs(places);
    r := ToWord(x) * PowerOfTwo(places) % 0x1_0000_0000;
  }

  method Extract(x: int, field: nat, width: nat) returns (r: nat)
    ensures r == ToWord(x) / Pow2(field) % Pow2(width)
  {
    PowerIs(field);
    PowerIs(width);
    r := Quotient(ToWord(x), PowerOfTwo(field)) % PowerOfTwo(width);
  }

  /** x with the `width` places from `field` on taken from the low places of v. */
  method Replace(x: int, v: int, field: nat, width: nat) returns (r: nat)
    ensures r == ToWord(x) / Pow2(field + width) * Pow2(field + width)
      + ToWord(v) % Pow2(width) * Pow2(field) + ToWord(x) % Pow2(field)
  {
    PowerIs(field);
    PowerIs(width);
    PowerIs(field + width);
    var below, above := PowerOfTwo(field), PowerOfTwo(field + width);
    r := Quotient(ToWord(x), above) * above + ToWord(v) % PowerOfTwo(width) * below + ToWord(x) % below;
  }

  /** `bit32.band`, `bor` and `bxor`. */
  method Bitwise(g: Gate, x: int, y: int) returns (r: nat)
    ensures Gated(g, ToWord(x), ToWord(y), r)
  {
    r := Combine(g, ToWord(x), ToWord(y));
    CombineGated(g, ToWord(x), ToWord(y));
  }

  function Bnot(x: int): (r: nat)
    ensures r < 0x1_0000_0000
  {
    0x1_0000_0000 - 1 - ToWord(x)
  }

  /** The number of zero places above the highest one. */
  function Countlz(x: int): int {
    32 - BitLength(ToWord(x))
  }
}
