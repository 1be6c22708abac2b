/** Comparison and the two long divisions of 64-bit integers. */
module Division64 {
  import opened Words
  import opened Int64
  import Arithmetic64
  import Products64

  datatype Outcome<T> = Ok(value: T) | DivisionByZero

  const WORD_PLACES: nat := 32

  // Comparison

  method Gt(j: Vector, k: Vector) returns (r: bool)
    requires Canonical(j) && Canonical(k)
    ensures r <==> Value(j) > Value(k)
  {
    var l, m := ToPair(j);
    var n, o := ToPair(k);
    r := if l == n then m > o else l > n;
  }

  method GtEqual(j: Vector, k: Vector) returns (r: bool)
    requires Canonical(j) && Canonical(k)
    ensures r <==> Value(j) >= Value(k)
  {
    var greater := Gt(j, k);
    r := j == k || greater;
    if Value(j) == Value(k) {
      ValueInjective(j, k);
    }
  }

  lemma LengthOfPair(high: nat, low: nat)
    requires 0 < high < 0x1_0000_0000 && low < 0x1_0000_0000
    ensures BitLength(high * 0x1_0000_0000 + low) == BitLength(high) + 32
  {
    LargePowers();
    var n := BitLength(high);
    BitLengthBounds(high);
    Pow2Sum(n, 32);
    Pow2Sum(n - 1, 32);
    BitLengthUnique(high * 0x1_0000_0000 + low, n + 32);
  }

  lemma LengthBelow(n: nat, v: nat, places: nat)
    requires n > 0 && Pow2(n - 1) <= v < Pow2(places)
    ensures n <= places
  {
    if places < n {
      Pow2Monotone(places, n - 1);
    }
  }

  lemma LengthWithin(v: nat, places: nat)
    requires v < Pow2(places)
    ensures BitLength(v) <= places
  {
    BitLengthBounds(v);
    var n := BitLength(v);
    if n > 0 {
      LengthBelow(n, v, places);
    }
  }

  method CountlzWord(x: nat) returns (r: nat)
    requires x < 0x1_0000_0000
    ensures BitLength(x) <= 32 && r == 32 - BitLength(x)
  {
    LargePowers();
    LengthWithin(x, 32);
    assert ToWord(x) == x;
    r := Countlz(x);
  }

  method Countlz64(j: Vector) returns (r: nat)
    requires Canonical(j)
    ensures Value(j) >= 0 && BitLength(Value(j)) <= 64
    ensures r == 64 - BitLength(Value(j))
  {
    ValueRange(j);
    var high, low := ToPair(j);
    r := CountlzPair(high, low, Value(j));
  }

  method CountlzPair(high: nat, low: nat, ghost v: nat) returns (r: nat)
    requires high < 0x1_0000_0000 && low < 0x1_0000_0000 && v == high * 0x1_0000_0000 + low
    ensures BitLength(v) <= 64 && r == 64 - BitLength(v)
  {
    if high == 0 {
      assert v == low;
      r := CountlzWord(low);
      r := r + 32;
    } else {
      LengthOfPair(high, low);
      r := CountlzWord(high);
    }
  }

  // Division by a number, place by place

  /**
   * Quotient and remainder that the loops of `div_32` make of the `places` low places of a word, from remainder p
   * on. Doubling the remainder drops what leaves 32 places.
   */
  ghost function LongDivide(word: nat, k: nat, p: nat, places: nat): (r: (nat, nat))
    requires k > 0
    ensures r.0 < Pow2(places)
    decreases places
  {
    PowerStep(if places == 0 then 0 else places - 1);
    if places == 0 then (0, p)
    else
      var d := p * 2 % 0x1_0000_0000 + if Place(word, places - 1) then 1 else 0;
      if d >= k then
        var rest := LongDivide(word, k, d - k, places - 1);
        (Pow2(places - 1) + rest.0, rest.1)
      else LongDivide(word, k, d, places - 1)
  }

  lemma LongDividePlace(word: nat, k: nat, p: nat, q: nat, d: nat)
    requires k > 0 && d == p * 2 % 0x1_0000_0000 + if Place(word, q) then 1 else 0
    ensures var rest := LongDivide(word, k, if d >= k then d - k else d, q);
      LongDivide(word, k, p, q + 1) == ((if d >= k then Pow2(q) else 0) + rest.0, rest.1)
  {}

  /** One place of a long division: the remainder p takes place b in, and loses the divisor q times. */
  lemma LongStep(p: nat, h: nat, b: nat, k: nat, q: nat, n: nat, r: nat, w: nat, t: nat, part: nat)
    requires (p * 2 + b - q * k) * h + w == n * k + r
    requires t == 2 * h && part == w + b * h
    ensures p * t + part == (q * h + n) * k + r
  {}

  lemma LowPartPlace(word: nat, n: nat)
    ensures LowPart(word, n + 1) == LowPart(word, n) + if Place(word, n) then Pow2(n) else 0
  {}

  /** Within 31 places of divisor nothing is dropped, and the division is exact. */
  lemma {:induction false} LongDivideExact(word: nat, k: nat, p: nat, places: nat, r: (nat, nat))
    requires p < k <= 0x8000_0000 && r == LongDivide(word, k, p, places)
    ensures p * Pow2(places) + LowPart(word, places) == r.0 * k + r.1 && r.1 < k
    decreases places
  {
    if places == 0 {
      PowerStep(0);
      assert p * 1 == p;
    } else {
      var m := places - 1;
      var b := if Place(word, m) then 1 else 0;
      var q := if p * 2 + b >= k then 1 else 0;
      LongDividePlace(word, k, p, m, p * 2 + b);
      var rest := LongDivide(word, k, p * 2 + b - q * k, m);
      LongDivideExact(word, k, p * 2 + b - q * k, m, rest);
      PowerStep(m);
      LowPartPlace(word, m);
      LongStep(p, Pow2(m), b, k, q, rest.0, rest.1, LowPart(word, m), Pow2(places), LowPart(word, places));
    }
  }

  ghost function Div32Of(v: nat, k: nat): (r: (nat, nat))
    requires k > 0
  {
    var high := LongDivide(v / 0x1_0000_0000, k, 0, WORD_PLACES);
    var low := LongDivide(v % 0x1_0000_0000, k, high.1, WORD_PLACES);
    (high.0 * 0x1_0000_0000 + low.0, low.1)
  }

  ghost predicate Exact(v: nat, k: nat, r: (nat, nat))
    requires k > 0
  {
    r == (v / k, v % k)
  }

  lemma TwoWords(v: nat, k: nat, h: nat, l: nat, n: nat, p: nat, o: nat, r: nat)
    requires v == h * 0x1_0000_0000 + l && h == n * k + p && p * 0x1_0000_0000 + l == o * k + r && r < k
    ensures v / k == n * 0x1_0000_0000 + o && v % k == r
  {
    Distribute(n, 0x1_0000_0000, o, k);
    assert n * (0x1_0000_0000 * k) == n * k * 0x1_0000_0000;
    DivisionUnique(v, k, n * 0x1_0000_0000 + o, r);
  }

  lemma Div32Exact(v: nat, k: nat)
    requires v < 0x1_0000_0000_0000_0000 && 0 < k <= 0x8000_0000
    ensures Exact(v, k, Div32Of(v, k))
  {
    LargePowers();
    var h, l := v / 0x1_0000_0000, v % 0x1_0000_0000;
    var high := LongDivide(h, k, 0, WORD_PLACES);
    var low := LongDivide(l, k, high.1, WORD_PLACES);
    LongDivideExact(h, k, 0, WORD_PLACES, high);
    LongDivideExact(l, k, high.1, WORD_PLACES, low);
    LowPartWhole(h, 32);
    LowPartWhole(l, 32);
    TwoWords(v, k, h, l, high.0, high.1, low.0, low.1);
  }

  /** A divisor beyond 31 places lets the remainder grow until its doubling is dropped. */
  lemma {:induction false} RemainderDoubles(word: nat, k: nat, p: nat, places: nat, top: nat)
    requires forall i: nat | i < places :: !Place(word, i)
    requires p * Pow2(places) == top <= 0x8000_0000 < k
    ensures LongDivide(word, k, p, places) == (0, top)
    decreases places
  {
    PowerStep(0);
    if places > 0 {
      var m := places - 1;
      PowerStep(m);
      Distribute(p, 2, 0, Pow2(m));
      ProductsOrder(1, Pow2(m), p * 2);
      LongDividePlace(word, k, p, m, p * 2);
      RemainderDoubles(word, k, p * 2, m, top);
    }
  }

  lemma HighestPlace(k: nat, m: nat, top: nat)
    requires top == Pow2(m) == 0x8000_0000 < k
    ensures LongDivide(top, k, 0, m + 1) == (0, top)
  {
    forall i: nat ensures Place(top, i) <==> i == m {
      PlaceOfPower(m, i);
    }
    LongDividePlace(top, k, 0, m, 1);
    RemainderDoubles(top, k, 1, m, top);
  }

  lemma NothingLeft(k: nat, m: nat, top: nat)
    requires top == 0x8000_0000 < k
    ensures LongDivide(0, k, top, m + 1) == (0, 0)
  {
    forall i: nat ensures !Place(0, i) {
      PlacesOfZero(i);
    }
    LongDividePlace(0, k, top, m, 0);
    RemainderDoubles(0, k, 0, m, 0);
  }

  lemma Div32Fails(k: nat, v: nat)
    requires v == 0x8000_0000_0000_0000 && k > 0x8000_0000
    ensures Div32Of(v, k) == (0, 0)
  {
    LargePowers();
    var m, top := WORD_PLACES - 1, v / 0x1_0000_0000;
    PowerStep(m);
    HighestPlace(k, m, top);
    NothingLeft(k, m, top);
  }

  /** `div_32` divides every 64-bit integer exactly by just the divisors up to 2^31. */
  lemma Div32ExactFor(k: nat)
    requires k > 0
    ensures (forall v: nat | v < 0x1_0000_0000_0000_0000 :: Exact(v, k, Div32Of(v, k))) <==> k <= 0x8000_0000
  {
    if k <= 0x8000_0000 {
      forall v: nat | v < 0x1_0000_0000_0000_0000 ensures Exact(v, k, Div32Of(v, k)) {
        Div32Exact(v, k);
      }
    } else {
      var v: nat := 0x8000_0000_0000_0000;
      Div32Fails(k, v);
      QuotientBounds(v, k);
      assert !Exact(v, k, Div32Of(v, k));
    }
  }

  /** One of the two loops of `div_32`. */
  method DivideWord(word: nat, k: nat, start: nat) returns (n: nat, p: nat)
    requires word < 0x1_0000_0000 && k > 0
    ensures (n, p) == LongDivide(word, k, start, WORD_PLACES)
  {
    n, p := 0, start;
    var q := WORD_PLACES;
    ghost var whole := LongDivide(word, k, start, q);
    ghost var rest := whole;
    LargePowers();
    MultipleLowClear(0, q, 0);
    while q > 0
      invariant 0 <= q <= WORD_PLACES && LowClear(n, q)
      invariant whole == (n + rest.0, rest.1) && rest == LongDivide(word, k, p, q)
    {
      q := q - 1;
      var bit := PlaceOf(word, q);
      ghost var before := p;
      p := JoinPlace(p, bit);
      LongDividePlace(word, k, before, q, p);
      if p >= k {
        p := p - k;
        n := AddPlace(n, q);
      }
      rest := LongDivide(word, k, p, q);
    }
  }

  /** `bit32.band(bit32.rshift(word, q), 1)` */
  method PlaceOf(word: nat, q: nat) returns (bit: nat)
    requires word < 0x1_0000_0000
    ensures bit == if Place(word, q) then 1 else 0
  {
    PowerStep(0);
    var moved := Rshift(word, q);
    assert ToWord(word) == word;
    PlaceOfQuotient(word, q);
    QuotientBounds(word, Pow2(q));
    ProductsOrder(1, Pow2(q), moved);
    assert ToWord(moved) == moved;
    AndMask(moved, 1);
    bit := Words.Bitwise(And, moved, 1);
    GatedUnique(And, moved, 1, bit, moved % 2);
  }

  /** `bit32.bor(bit32.lshift(p, 1), bit)` */
  method JoinPlace(p: nat, bit: nat) returns (r: nat)
    requires bit < 2
    ensures r == p * 2 % 0x1_0000_0000 + bit
  {
    PowerStep(0);
    var top := Lshift(p, 1);
    assert top == p % 0x1_0000_0000 * 2 % 0x1_0000_0000;
    DoubledWord(p);
    r := Join(p % 0x8000_0000, top, bit, 1);
  }

  lemma DoubledWord(p: nat)
    ensures p % 0x1_0000_0000 * 2 % 0x1_0000_0000 == p * 2 % 0x1_0000_0000 == p % 0x8000_0000 * 2
  {
    DivisionUnique(p * 2, 0x1_0000_0000, p / 0x8000_0000, p % 0x8000_0000 * 2);
    MultiplesDropOut(p % 0x1_0000_0000 * 2, p / 0x1_0000_0000 * 2, 0x1_0000_0000);
  }

  /** `bit32.bor(n, bit32.lshift(1, q))` */
  method AddPlace(n: nat, q: nat) returns (r: nat)
    requires q < 32 && LowClear(n, q + 1) && n + Pow2(q) < 0x1_0000_0000
    ensures r == n + Pow2(q) && LowClear(r, q)
  {
    JoinPlaceBelow(n, q);
    PowerStep(q);
    var place := Lshift(1, q);
    assert place == Pow2(q);
    r := Words.Bitwise(Or, n, place);
    assert ToWord(n) == n && ToWord(place) == place;
    GatedUnique(Or, n, place, r, n + place);
  }

  method Div32(j: Vector, k: nat) returns (r: Outcome<(Vector, nat)>)
    requires Canonical(j)
    ensures r.DivisionByZero? <==> k == 0
    ensures Value(j) >= 0
    ensures k > 0 ==> Canonical(r.value.0) && (Value(r.value.0), r.value.1) == Div32Of(Value(j), k)
  {
    ValueRange(j);
    if k == 0 {
      return DivisionByZero;
    }
    LargePowers();
    var high, low := ToPair(j);
    var n, p := DivideWord(high, k, 0);
    var o, rest := DivideWord(low, k, p);
    var q := FromWords(n, o);
    DivisionUnique(Value(j), 0x1_0000_0000, high, low);
    r := Ok((q, rest));
  }

  // Division by shifting and subtracting

  /** `from_f64` of a whole number that is a Luau number exactly. */
  method FromF64(n: nat) returns (r: Vector)
    requires n < 0x20_0000_0000_0000
    ensures Canonical(r) && Value(r) == n
  {
    r := FromWords(n / 0x1_0000_0000, n % 0x1_0000_0000);
  }

  /** `to_f64` of a 64-bit integer below 2^53. */
  method ToF64(j: Vector) returns (n: nat)
    requires Canonical(j) && Value(j) < 0x20_0000_0000_0000
    ensures n == Value(j)
  {
    var high, low := ToPair(j);
    n := high * 0x1_0000_0000 + low;
  }

  /** What a place of the quotient is worth: `lshift` moves the one out of the vector at 64. */
  ghost function Worth(n: nat): nat {
    if n < 64 then Pow2(n) else 0
  }

  lemma WorthMoved(n: nat)
    ensures Moved(1, n) == Worth(n)
  {
    LargePowers();
    if n < 64 {
      Pow2Monotone(n, 64);
      MovedWithin(1, n, Pow2(n));
    } else {
      Arithmetic64.MovedOut(1, n);
    }
  }

  /** Quotient and remainder that the loop of `div` makes from place n down, from l and m on. */
  ghost function ShiftSubtractOf(k: nat, n: int, l: nat, m: nat): (nat, nat)
    decreases n
  {
    if n < 0 then (l, m)
    else
      var o := Moved(k, n);
      if o <= m then ShiftSubtractOf(k, n - 1, l + Worth(n), m - o)
      else ShiftSubtractOf(k, n - 1, l, m)
  }

  /** The distance between the lengths of dividend and divisor, where the loop starts. */
  function Distance(j: nat, k: nat): nat {
    var d := BitLength(j) - BitLength(k);
    if d < 0 then -d else d
  }

  ghost function DivOf(j: nat, k: nat): (nat, nat)
    requires k > 0
  {
    if j < 0x20_0000_0000_0000 && k < 0x20_0000_0000_0000 then (Quotient(j, k), j % k)
    else ShiftSubtractOf(k, Distance(j, k), 0, j)
  }

  // Quotient and remainder make up the dividend modulo 2^64

  lemma CongruentStep(k: nat, l: nat, m: nat, n: nat)
    requires Moved(k, n) <= m
    ensures Modulo64((l + Worth(n)) * k + (m - Moved(k, n))) == Modulo64(l * k + m)
  {
    var p, o := Pow2(n), Moved(k, n);
    var w := k * p;
    MovedIsProduct(k, n);
    if n < 64 {
      var c := w / 0x1_0000_0000_0000_0000;
      assert w == c * 0x1_0000_0000_0000_0000 + o;
      Distribute(1, l, p, k);
      assert (l + p) * k + (m - o) == l * k + m + c * 0x1_0000_0000_0000_0000;
      MultiplesDropOut(l * k + m, c, 0x1_0000_0000_0000_0000);
    } else {
      Arithmetic64.MovedOut(k, n);
    }
  }

  lemma {:induction false} ShiftSubtractCongruent(k: nat, n: int, l: nat, m: nat)
    ensures var r := ShiftSubtractOf(k, n, l, m); Modulo64(r.0 * k + r.1) == Modulo64(l * k + m)
    decreases n
  {
    if n >= 0 {
      if Moved(k, n) <= m {
        CongruentStep(k, l, m, n);
        ShiftSubtractCongruent(k, n - 1, l + Worth(n), m - Moved(k, n));
      } else {
        ShiftSubtractCongruent(k, n - 1, l, m);
      }
    }
  }

  lemma DivCongruent(j: nat, k: nat)
    requires j < 0x1_0000_0000_0000_0000 && k > 0
    ensures Modulo64(DivOf(j, k).0 * k + DivOf(j, k).1) == j
  {
    if j < 0x20_0000_0000_0000 && k < 0x20_0000_0000_0000 {
      QuotientBounds(j, k);
    } else {
      ShiftSubtractCongruent(k, Distance(j, k), 0, j);
    }
  }

  // A divisor no longer than the dividend

  lemma ScaledBelow(k: nat, bound: nat, p: nat)
    requires k < bound && p > 0
    ensures 0 <= k * p < bound * p
  {}

  /** Such a divisor never leaves 64 places as the loop moves it. */
  lemma MovedInPlace(k: nat, n: nat, w: nat)
    requires BitLength(k) + n <= 64 && w == k * Pow2(n)
    ensures Moved(k, n) == w
  {
    LargePowers();
    BitLengthBounds(k);
    var length := BitLength(k);
    Pow2Sum(length, n);
    Pow2Monotone(length + n, 64);
    ScaledBelow(k, Pow2(length), Pow2(n));
    MovedWithin(k, n, w);
  }

  lemma ExactStep(k: nat, l: nat, m: nat, p: nat)
    requires m < k * (2 * p) && k * p <= m
    ensures (l + p) * k + (m - k * p) == l * k + m && m - k * p < k * p
  {}

  lemma {:induction false} ShiftSubtractExact(k: nat, n: int, l: nat, m: nat)
    requires k > 0 && -1 <= n && BitLength(k) + n <= 64
    requires m < k * Pow2(n + 1)
    ensures var r := ShiftSubtractOf(k, n, l, m); r.0 * k + r.1 == l * k + m && r.1 < k
    decreases n
  {
    PowerStep(0);
    if n >= 0 {
      PowerStep(n);
      var p := Pow2(n);
      MovedInPlace(k, n, k * p);
      if k * p <= m {
        ExactStep(k, l, m, p);
        ShiftSubtractExact(k, n - 1, l + p, m - k * p);
      } else {
        ShiftSubtractExact(k, n - 1, l, m);
      }
    }
  }

  lemma ScaledAbove(j: nat, k: nat, length: nat, n: nat)
    requires j < Pow2(length + n + 1) && Pow2(length) <= k
    ensures j < k * Pow2(n + 1)
  {
    Pow2Sum(length, n + 1);
    ProductsOrder(Pow2(length), k, Pow2(n + 1));
  }

  lemma FirstPlace(j: nat, k: nat, n: nat)
    requires k > 0 && BitLength(j) == BitLength(k) + n
    ensures j < k * Pow2(n + 1)
  {
    BitLengthBounds(j);
    BitLengthBounds(k);
    var length := BitLength(k) - 1;
    assert length + n + 1 == BitLength(j);
    ScaledAbove(j, k, length, n);
  }

  lemma DivOfShorterDivisor(j: nat, k: nat)
    requires j < 0x1_0000_0000_0000_0000 && k > 0 && BitLength(k) <= BitLength(j)
    ensures Exact(j, k, ShiftSubtractOf(k, Distance(j, k), 0, j))
  {
    LargePowers();
    LengthWithin(j, 64);
    var n := Distance(j, k);
    FirstPlace(j, k, n);
    ShiftSubtractExact(k, n, 0, j);
    var r := ShiftSubtractOf(k, n, 0, j);
    DivisionUnique(j, k, r.0, r.1);
  }

  // A divisor longer than the dividend

  /** No move of the divisor, up to the given place, makes it look small enough to subtract. */
  ghost predicate NeverFits(j: nat, k: nat, last: int) {
    forall n: nat | n <= last && n < 64 :: Moved(k, n) > j
  }

  lemma {:induction false} ShiftSubtractGrows(k: nat, n: int, l: nat, m: nat)
    ensures ShiftSubtractOf(k, n, l, m).0 >= l
    decreases n
  {
    if n >= 0 {
      ShiftSubtractGrows(k, n - 1, l + Worth(n), if Moved(k, n) <= m then m - Moved(k, n) else m);
      ShiftSubtractGrows(k, n - 1, l, m);
    }
  }

  lemma {:induction false} ShiftSubtractOfLonger(j: nat, k: nat, n: int)
    ensures ShiftSubtractOf(k, n, 0, j) == (0, j) <==> NeverFits(j, k, n)
    decreases n
  {
    if n >= 0 {
      ShiftSubtractOfLonger(j, k, n - 1);
      if n >= 64 {
        Arithmetic64.MovedOut(k, n);
      } else if Moved(k, n) <= j {
        ShiftSubtractGrows(k, n - 1, Worth(n), j - Moved(k, n));
      }
    }
  }

  lemma LongerIsLarger(j: nat, k: nat)
    requires BitLength(j) < BitLength(k)
    ensures j < k
  {}

  /** Both numbers below 2^53, or a divisor no longer than the dividend, or one that never fits. */
  ghost predicate DivDivides(j: nat, k: nat) {
    || (j < 0x20_0000_0000_0000 && k < 0x20_0000_0000_0000)
    || BitLength(k) <= BitLength(j)
    || NeverFits(j, k, Distance(j, k))
  }

  /** `div` divides exactly just when DivDivides holds of its operands. */
  lemma DivExactIff(j: nat, k: nat)
    requires j < 0x1_0000_0000_0000_0000 && k > 0
    ensures Exact(j, k, DivOf(j, k)) <==> DivDivides(j, k)
  {
    if BitLength(k) <= BitLength(j) {
      DivOfShorterDivisor(j, k);
    } else {
      LongerIsLarger(j, k);
      SmallQuotient(j, k);
      ShiftSubtractOfLonger(j, k, Distance(j, k));
    }
  }

  lemma NoLess(k: nat, p: nat, w: nat)
    requires p > 0 && w == k * p
    ensures w >= k
  {}

  lemma MovedInPlaceNoLess(k: nat, n: nat)
    requires BitLength(k) + n <= 64
    ensures Moved(k, n) >= k
  {
    var p := Pow2(n);
    var w := k * p;
    NoLess(k, p, w);
    MovedInPlace(k, n, w);
  }

  /** `div` is exact wherever the divisor is no longer than half of what 64 and the dividend have places together. */
  lemma NotTooLongDivides(j: nat, k: nat)
    requires k > 0 && 2 * BitLength(k) <= 64 + BitLength(j)
    ensures DivDivides(j, k)
  {
    if BitLength(k) > BitLength(j) {
      LongerIsLarger(j, k);
      var last := Distance(j, k);
      forall n: nat | n <= last && n < 64 ensures Moved(k, n) > j {
        MovedInPlaceNoLess(k, n);
      }
      assert NeverFits(j, k, last);
    }
  }

  // The method

  lemma IsZero(k: Vector)
    requires Canonical(k)
    ensures k == ZERO <==> Value(k) == 0
  {
    Show(k);
  }

  method AddWorth(l: Vector, n: nat) returns (r: Vector)
    requires Canonical(l) && Value(l) >= 0 && LowClear(Value(l), n + 1) && (n >= 64 ==> Value(l) == 0)
    ensures Canonical(r) && Value(r) == Value(l) + Worth(n) && LowClear(Value(r), n)
  {
    WorthMoved(n);
    ValueOfConstants();
    GatedWithZero(Value(l));
    var place := Arithmetic64.ShiftLeft(ONE, n);
    r := Arithmetic64.Bitwise64(Or, l, place);
    if n < 64 {
      JoinPlaceBelow(Value(l), n);
    }
    GatedUnique(Or, Value(l), Worth(n), Value(r), Value(l) + Worth(n));
  }

  lemma ShiftSubtractPlace(k: nat, n: nat, l: nat, m: nat, o: nat)
    requires o == Moved(k, n)
    ensures ShiftSubtractOf(k, n, l, m)
      == if o <= m then ShiftSubtractOf(k, n - 1, l + Worth(n), m - o) else ShiftSubtractOf(k, n - 1, l, m)
  {}

  /** The body of the loop of `div`. */
  method SubtractPlace(k: Vector, n: nat, l: Vector, m: Vector) returns (l': Vector, m': Vector)
    requires Canonical(k) && Canonical(l) && Canonical(m)
    requires Value(k) >= 0 && Value(l) >= 0 && Value(m) >= 0
    requires LowClear(Value(l), n + 1) && (n >= 64 ==> Value(l) == 0)
    ensures Canonical(l') && Canonical(m') && Value(l') >= 0 && Value(m') >= 0
    ensures LowClear(Value(l'), n) && (n >= 64 ==> Value(l') == 0)
    ensures var o := Moved(Value(k), n);
      if o <= Value(m) then Value(l') == Value(l) + Worth(n) && Value(m') == Value(m) - o
      else l' == l && m' == m
  {
    l', m' := l, m;
    ValueRange(m);
    var o := Arithmetic64.ShiftLeft(k, n);
    var fits := GtEqual(m, o);
    if fits {
      m' := Products64.Sub(m, o);
      l' := AddWorth(l, n);
    }
  }

  /** The loop of `div`. */
  method ShiftSubtract(j: Vector, k: Vector, first: nat) returns (l: Vector, m: Vector)
    requires Canonical(j) && Canonical(k) && Value(j) >= 0 && Value(k) >= 0
    ensures Canonical(l) && Canonical(m) && Value(l) >= 0 && Value(m) >= 0
    ensures (Value(l), Value(m)) == ShiftSubtractOf(Value(k), first, 0, Value(j))
  {
    ValueOfConstants();
    l, m := ZERO, j;
    var n := first;
    MultipleLowClear(0, first + 1, 0);
    ghost var divisor, whole := Value(k), ShiftSubtractOf(Value(k), first, 0, Value(j));
    while n >= 0
      invariant -1 <= n <= first
      invariant Canonical(l) && Canonical(m) && Value(l) >= 0 && Value(m) >= 0
      invariant LowClear(Value(l), n + 1) && (n >= 64 ==> Value(l) == 0)
      invariant whole == ShiftSubtractOf(divisor, n, Value(l), Value(m))
    {
      ShiftSubtractPlace(divisor, n, Value(l), Value(m), Moved(divisor, n));
      l, m := SubtractPlace(k, n, l, m);
      n := n - 1;
    }
  }

  method Div(j: Vector, k: Vector) returns (r: Outcome<(Vector, Vector)>)
    requires Canonical(j) && Canonical(k)
    ensures Value(j) >= 0 && Value(k) >= 0
    ensures r.DivisionByZero? <==> Value(k) == 0
    ensures r.Ok? ==>
      && Canonical(r.value.0) && Canonical(r.value.1)
      && (Value(r.value.0), Value(r.value.1)) == DivOf(Value(j), Value(k))
  {
    ValueOfConstants();
    ValueRange(j);
    ValueRange(k);
    if k == ZERO {
      return DivisionByZero;
    }
    assert Value(k) != 0 by { IsZero(k); }
    var zerosJ := Countlz64(j);
    var zerosK := Countlz64(k);
    LengthOfNumbers(Value(j));
    LengthOfNumbers(Value(k));
    ghost var dividend, divisor := Value(j), Value(k);
    if zerosJ >= 11 && zerosK >= 11 {
      var l := ToF64(j);
      var m := ToF64(k);
      r := DivNumbers(l, m);
      assert DivOf(dividend, divisor) == (Quotient(l, m), l % m);
    } else {
      var n := if zerosJ >= zerosK then zerosJ - zerosK else zerosK - zerosJ;
      assert n == Distance(dividend, divisor);
      var l, m := ShiftSubtract(j, k, n);
      assert DivOf(dividend, divisor) == ShiftSubtractOf(divisor, n, 0, dividend);
      r := Ok((l, m));
    }
  }

  /** Division of two whole numbers that are Luau numbers exactly. */
  method DivNumbers(l: nat, m: nat) returns (r: Outcome<(Vector, Vector)>)
    requires l < 0x20_0000_0000_0000 && 0 < m
    ensures r.Ok? && Canonical(r.value.0) && Canonical(r.value.1)
    ensures (Value(r.value.0), Value(r.value.1)) == (Quotient(l, m), l % m)
  {
    QuotientBounds(l, m);
    ProductsOrder(1, m, l / m);
    var q := FromF64(l / m);
    var rest := FromF64(l % m);
    r := Ok((q, rest));
  }

  lemma LengthOfNumbers(v: nat)
    ensures BitLength(v) <= 53 <==> v < 0x20_0000_0000_0000
  {
    LargePowers();
    BitLengthBounds(v);
    if BitLength(v) <= 53 {
      Pow2Monotone(BitLength(v), 53);
    } else {
      Pow2Monotone(53, BitLength(v) - 1);
    }
  }

  const BEYOND_HALF: nat := 0x8000_0000_0000_0001

  lemma MovedOnce(v: nat, n: nat, p: nat)
    requires n > 0 && Moved(v, n - 1) == p && 2 * p < 0x1_0000_0000_0000_0000
    ensures Moved(v, n) == 2 * p
  {}

  lemma FirstMoveWraps(k: nat)
    requires k == 0x8000_0000_0000_0001
    ensures Moved(k, 1) == 2
  {
    assert Moved(k, 0) == k;
  }

  lemma {:induction false} HighPlaceMovesOut(n: nat)
    requires 1 <= n < 64
    ensures Moved(BEYOND_HALF, n) == Pow2(n)
    decreases n
  {
    PowerStep(n - 1);
    if n == 1 {
      PowerStep(0);
      FirstMoveWraps(BEYOND_HALF);
    } else {
      HighPlaceMovesOut(n - 1);
      LargePowers();
      Pow2Monotone(n, 63);
      PowerStep(63);
      MovedOnce(BEYOND_HALF, n, Pow2(n - 1));
    }
  }

  lemma {:induction false} WrappedMovesTooLarge(n: nat)
    requires 1 <= n < 64
    ensures ShiftSubtractOf(BEYOND_HALF, n, 0, 3) == ShiftSubtractOf(BEYOND_HALF, 1, 0, 3)
    decreases n
  {
    if n > 1 {
      HighPlaceMovesOut(n);
      PowerStep(0);
      PowerStep(1);
      Pow2Monotone(2, n);
      WrappedMovesTooLarge(n - 1);
    }
  }

  /** 3 divided by 2^63 + 1 comes out as 2, with 1 remaining: the divisor moved up by one is taken for 2. */
  lemma DivFailsExample()
    ensures DivOf(3, BEYOND_HALF) == (2, 1) && !DivDivides(3, BEYOND_HALF)
  {
    LargePowers();
    PowerStep(0);
    PowerStep(1);
    PowerStep(63);
    BitLengthUnique(3, 2);
    BitLengthUnique(BEYOND_HALF, 64);
    HighPlaceMovesOut(1);
    WorthMoved(1);
    WrappedMovesTooLarge(62);
    assert ShiftSubtractOf(BEYOND_HALF, 0, 2, 1) == (2, 1);
  }

  /** Zero divided by any power of two from 2^53 on is not zero. */
  lemma DivOfZeroFails(n: nat)
    requires 53 <= n < 64
    ensures !DivDivides(0, Pow2(n))
  {
    LargePowers();
    var k, places := Pow2(n), 64 - n;
    MovedIsProduct(k, places);
    Pow2Monotone(53, n);
    PowerStep(n);
    BitLengthUnique(k, n + 1);
    Pow2Sum(n, places);
    assert Moved(k, places) == 0;
  }
}
