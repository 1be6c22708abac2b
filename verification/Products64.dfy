/** Sums, differences, products and powers of 64-bit integers. */
module Products64 {
  import opened Words
  import opened Int64

  /** Sums keep every component below 2^24, where vector components are exact. */
  method Add(j: Vector, k: Vector) returns (r: Vector)
    requires Canonical(j) && Canonical(k)
    ensures Canonical(r) && Value(r) == Modulo64(Value(j) + Value(k))
  {
    Show(j);
    Show(k);
    var x, y, z := j.x + k.x, j.y + k.y, j.z + k.z;
    var carryZ := if z > 4194303 then 1 else 0;
    y := y + carryZ;
    var carryY := if y > 1048575 then 1 else 0;
    x := x + carryY;
    ghost var carryX := if x > 4194303 then 1 else 0;
    assert 0 <= x < 0x100_0000 && 0 <= y < 0x100_0000 && 0 <= z < 0x100_0000;
    DivisionUnique(z, 0x40_0000, carryZ, z - carryZ * 0x40_0000);
    DivisionUnique(y, 0x10_0000, carryY, y - carryY * 0x10_0000);
    DivisionUnique(x, 0x40_0000, carryX, x - carryX * 0x40_0000);
    r := Vector(x % 0x40_0000, y % 0x10_0000, z % 0x40_0000);
    Show(r);
    DivisionUnique(Value(j) + Value(k), 0x1_0000_0000_0000_0000, carryX, Value(r));
  }

  method Sub(j: Vector, k: Vector) returns (r: Vector)
    requires Canonical(j) && Canonical(k)
    ensures Canonical(r) && Value(r) == Modulo64(Value(j) - Value(k))
  {
    Show(j);
    Show(k);
    var m, n, o := j.z - k.z, j.y - k.y, j.x - k.x;
    var p := m < 0;
    if p {
      m := m + 4194304;
      n := n - 1;
    }
    var q := n < 0;
    if q {
      n := n + 1048576;
      o := o - 1;
    }
    if o < 0 {
      o := o + 4194304;
    }
    r := Vector(o, n, m);
    Show(r);
  }

  // Products by quartets of 16 binary places

  /** `bit32.rshift(x, 16)` of a number that is a 32-bit word. */
  method Upper(x: nat) returns (r: nat)
    requires x < 0x1_0000_0000
    ensures r == x / 0x1_0000
  {
    SmallPowers();
    r := Rshift(x, 16);
  }

  /** `bit32.band(x, 0xFFFF)` of a number that is a 32-bit word. */
  method Lower(x: nat) returns (r: nat)
    requires x < 0x1_0000_0000
    ensures r == x % 0x1_0000
  {
    SmallPowers();
    AndMask(x, 16);
    r := Words.Bitwise(And, x, 0xffff);
    GatedUnique(And, x, 0xffff, r, x % 0x1_0000);
  }

  lemma LowHalf(x: nat)
    ensures ToWord(x) % 0x1_0000 == x % 0x1_0000
  {}

  /** `bit32.replace(low, high, 16, 16)`: the low halves of two numbers, one above the other. */
  method Halves(low: nat, high: nat) returns (r: nat)
    ensures r == high % 0x1_0000 * 0x1_0000 + low % 0x1_0000
  {
    SmallPowers();
    LargePowers();
    assert Pow2(16 + 16) == 0x1_0000_0000;
    SmallQuotient(ToWord(low), 0x1_0000_0000);
    LowHalf(low);
    LowHalf(high);
    r := Replace(low, high, 16, 16);
  }

  method ToQuartet(j: Vector) returns (l: nat, m: nat, n: nat, o: nat)
    requires Canonical(j)
    ensures l < 0x1_0000 && m < 0x1_0000 && n < 0x1_0000 && o < 0x1_0000
    ensures Value(j) == l * 0x1_0000_0000_0000 + m * 0x1_0000_0000 + n * 0x1_0000 + o
  {
    var high, low := ToPair(j);
    l := Upper(high);
    m := Lower(high);
    n := Upper(low);
    o := Lower(low);
  }

  lemma Row(a: nat, k: nat, p: nat, q: nat, r: nat, s: nat)
    requires k == p * 0x1_0000_0000_0000 + q * 0x1_0000_0000 + r * 0x1_0000 + s
    ensures a * k == (a * p) * 0x1_0000_0000_0000 + (a * q) * 0x1_0000_0000 + (a * r) * 0x1_0000 + a * s
  {}

  /** The rows of a long multiplication, by their sixteen products, added up by columns. */
  lemma SumOfRows(jk: nat, lk: nat, mk: nat, nk: nat, ok: nat, lp: nat, lq: nat, lr: nat, ls: nat, mp: nat, mq: nat,
                  mr: nat, ms: nat, np: nat, nq: nat, nr: nat, ns: nat, op: nat, oq: nat, or: nat, os: nat)
    requires jk == lk * 0x1_0000_0000_0000 + mk * 0x1_0000_0000 + nk * 0x1_0000 + ok
    requires lk == lp * 0x1_0000_0000_0000 + lq * 0x1_0000_0000 + lr * 0x1_0000 + ls
    requires mk == mp * 0x1_0000_0000_0000 + mq * 0x1_0000_0000 + mr * 0x1_0000 + ms
    requires nk == np * 0x1_0000_0000_0000 + nq * 0x1_0000_0000 + nr * 0x1_0000 + ns
    requires ok == op * 0x1_0000_0000_0000 + oq * 0x1_0000_0000 + or * 0x1_0000 + os
    ensures Modulo64(jk) == Modulo64(os + (ns + or) * 0x1_0000 + (ms + nr + oq) * 0x1_0000_0000
      + (ls + mr + nq + op) * 0x1_0000_0000_0000)
  {}

  /** The columns of a product of quartets, from the lowest up, without what lies beyond 64 places. */
  lemma Columns(l: nat, m: nat, n: nat, o: nat, p: nat, q: nat, r: nat, s: nat, j: nat, k: nat)
    requires j == l * 0x1_0000_0000_0000 + m * 0x1_0000_0000 + n * 0x1_0000 + o
    requires k == p * 0x1_0000_0000_0000 + q * 0x1_0000_0000 + r * 0x1_0000 + s
    ensures Modulo64(j * k) == Modulo64(o * s + (n * s + o * r) * 0x1_0000
      + (m * s + n * r + o * q) * 0x1_0000_0000
      + (l * s + m * r + n * q + o * p) * 0x1_0000_0000_0000)
  {
    Row(k, j, l, m, n, o);
    Row(l, k, p, q, r, s);
    Row(m, k, p, q, r, s);
    Row(n, k, p, q, r, s);
    Row(o, k, p, q, r, s);
    SumOfRows(j * k, l * k, m * k, n * k, o * k, l * p, l * q, l * r, l * s, m * p, m * q, m * r, m * s,
      n * p, n * q, n * r, n * s, o * p, o * q, o * r, o * s);
  }

  /** Carrying from column to column changes no value below 2^64. */
  lemma Carried(t: nat, ns: nat, or: nat, ms: nat, nr: nat, oq: nat, top: nat,
                u: nat, v: nat, x: nat, y: nat, w: nat)
    requires u == (t / 0x1_0000 + ns) % 0x1_0000 + or
    requires v == (t / 0x1_0000 + ns) / 0x1_0000 + u / 0x1_0000 + ms
    requires x == v % 0x1_0000 + nr
    requires y == x % 0x1_0000 + oq
    requires w == v / 0x1_0000 + x / 0x1_0000 + y / 0x1_0000 + top
    ensures Modulo64(t + (ns + or) * 0x1_0000 + (ms + nr + oq) * 0x1_0000_0000 + top * 0x1_0000_0000_0000)
      == (w % 0x1_0000 * 0x1_0000 + y % 0x1_0000) * 0x1_0000_0000 + (u % 0x1_0000 * 0x1_0000 + t % 0x1_0000)
  {
    var sum := t + (ns + or) * 0x1_0000 + (ms + nr + oq) * 0x1_0000_0000 + top * 0x1_0000_0000_0000;
    DivisionUnique(sum, 0x1_0000_0000_0000_0000, w / 0x1_0000,
      (w % 0x1_0000 * 0x1_0000 + y % 0x1_0000) * 0x1_0000_0000 + (u % 0x1_0000 * 0x1_0000 + t % 0x1_0000));
  }

  /** A column product never leaves 32 places, even with a carry of one place value less than two. */
  lemma ColumnBound(a: nat, b: nat)
    requires a < 0x1_0000 && b < 0x1_0000
    ensures 0 <= a * b <= 0xfffe_0001
  {
    ProductsOrder(a, 0xffff, b);
    ProductsOrder(b, 0xffff, 0xffff);
  }

  /** Every word handed to bit32 fits 32 places, and every number stays below 2^53. */
  method Mult(j: Vector, k: Vector) returns (result: Vector)
    requires Canonical(j) && Canonical(k)
    ensures Canonical(result) && Value(result) == Modulo64(Value(j) * Value(k))
  {
    var l, m, n, o := ToQuartet(j);
    var p, q, r, s := ToQuartet(k);
    Columns(l, m, n, o, p, q, r, s, Value(j), Value(k));
    result := MultQuartets(l, m, n, o, p, q, r, s);
  }

  method MultQuartets(l: nat, m: nat, n: nat, o: nat, p: nat, q: nat, r: nat, s: nat) returns (result: Vector)
    requires l < 0x1_0000 && m < 0x1_0000 && n < 0x1_0000 && o < 0x1_0000
    requires p < 0x1_0000 && q < 0x1_0000 && r < 0x1_0000 && s < 0x1_0000
    ensures Canonical(result)
    ensures Value(result) == Modulo64(o * s + (n * s + o * r) * 0x1_0000
      + (m * s + n * r + o * q) * 0x1_0000_0000
      + (l * s + m * r + n * q + o * p) * 0x1_0000_0000_0000)
  {
    ColumnBound(o, s);
    ColumnBound(n, s);
    ColumnBound(o, r);
    ColumnBound(m, s);
    ColumnBound(n, r);
    ColumnBound(o, q);
    ColumnBound(l, s);
    ColumnBound(m, r);
    ColumnBound(n, q);
    ColumnBound(o, p);
    result := CarryColumns(o * s, n * s, o * r, m * s, n * r, o * q, l * s + m * r + n * q + o * p);
  }

  method CarryColumns(t: nat, ns: nat, or: nat, ms: nat, nr: nat, oq: nat, top: nat) returns (result: Vector)
    requires t <= 0xfffe_0001 && ns <= 0xfffe_0001 && or <= 0xfffe_0001 && ms <= 0xfffe_0001
    requires nr <= 0xfffe_0001 && oq <= 0xfffe_0001 && top <= 4 * 0xfffe_0001
    ensures Canonical(result)
    ensures Value(result)
      == Modulo64(t + (ns + or) * 0x1_0000 + (ms + nr + oq) * 0x1_0000_0000 + top * 0x1_0000_0000_0000)
  {
    var carry := Upper(t);
    var u := carry + ns;
    var v := Upper(u);
    var kept := Lower(u);
    u := kept + or;
    carry := Upper(u);
    v := v + carry + ms;
    var w := Upper(v);
    ghost var v0 := v;
    kept := Lower(v);
    v := kept + nr;
    ghost var x := v;
    carry := Upper(v);
    w := w + carry;
    kept := Lower(v);
    v := kept + oq;
    carry := Upper(v);
    w := w + carry + top;
    assert w < 0x20_0000_0000_0000;
    Carried(t, ns, or, ms, nr, oq, top, u, v0, x, v, w);
    var high := Halves(v, w);
    var low := Halves(t, u);
    result := FromWords(high, low);
  }

  function Power(b: int, e: nat): int {
    if e == 0 then 1 else b * Power(b, e - 1)
  }

  lemma {:induction false} PowerSum(b: int, m: nat, n: nat)
    ensures Power(b, m + n) == Power(b, m) * Power(b, n)
    decreases m
  {
    if m > 0 {
      PowerSum(b, m - 1, n);
      Distribute(b, Power(b, m - 1), 0, Power(b, n));
      assert Power(b, m + n) == b * Power(b, m - 1 + n);
    }
  }

  lemma ModuloProduct(a: int, b: int)
    ensures Modulo64(a * b) == Modulo64(Modulo64(a) * Modulo64(b))
  {
    var t := 0x1_0000_0000_0000_0000;
    var p, q, x, y := a / t, b / t, Modulo64(a), Modulo64(b);
    assert a == p * t + x && b == q * t + y;
    assert a * b == x * y + (p * q * t + p * y + q * x) * t by {
      Distribute(p, t, x, b);
      assert (p * t + x) * (q * t + y) == p * t * (q * t) + p * t * y + x * (q * t) + x * y;
      assert p * t * (q * t) == (p * q * t) * t && p * t * y == p * y * t && x * (q * t) == q * x * t;
    }
    MultiplesDropOut(x * y, p * q * t + p * y + q * x, t);
  }

  lemma PowerStep(b: int, k: nat, odd: int)
    requires k > 0 && odd == Modulo64(Power(b, k - 1)) && Modulo64(b) == b
    ensures Modulo64(b * odd) == Modulo64(Power(b, k))
  {
    ModuloProduct(b, Power(b, k - 1));
  }

  lemma PowerSquare(b: int, h: nat, half: int)
    requires half == Modulo64(Power(b, h))
    ensures Modulo64(half * half) == Modulo64(Power(b, h + h))
  {
    ModuloProduct(Power(b, h), Power(b, h));
    PowerSum(b, h, h);
  }

  /** Repeated squaring, for every natural exponent. */
  method Pow(j: Vector, k: nat) returns (r: Vector)
    requires Canonical(j)
    ensures Canonical(r) && Value(r) == Modulo64(Power(Value(j), k))
    decreases k
  {
    ValueOfConstants();
    if k == 0 {
      return ONE;
    } else if k % 2 == 1 {
      var rest := Pow(j, k - 1);
      r := Mult(j, rest);
      ValueRange(j);
      PowerStep(Value(j), k, Value(rest));
    } else {
      var l := Pow(j, k / 2);
      r := Mult(l, l);
      PowerSquare(Value(j), k / 2, Value(l));
    }
  }
}
