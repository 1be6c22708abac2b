/** Decimal numerals of 64-bit integers, read and written. */
module Decimal {
  import opened Words
  import opened Int64
  import Division64

  // Numerals

  predicate IsDigit(c: char) {
    '0' <= c <= '9'
  }

  predicate Digits(s: string) {
    forall i | 0 <= i < |s| :: IsDigit(s[i])
  }

  function Digit(n: nat): (c: char)
    requires n < 10
    ensures IsDigit(c) && c as int - 48 == n
  {
    (48 + n) as char
  }

  function NumeralValue(s: string): nat
    requires Digits(s)
  {
    if s == [] then 0 else NumeralValue(s[..|s| - 1]) * 10 + (s[|s| - 1] as int - 48)
  }

  /** The numeral without leading zeros. */
  function Numeral(n: nat): string {
    if n < 10 then [Digit(n)] else Numeral(n / 10) + [Digit(n % 10)]
  }

  lemma {:induction false} NumeralDigits(n: nat)
    ensures Digits(Numeral(n)) && |Numeral(n)| > 0
    ensures NumeralValue(Numeral(n)) == n
  {
    if n >= 10 {
      NumeralDigits(n / 10);
      assert Numeral(n)[..|Numeral(n)| - 1] == Numeral(n / 10);
    } else {
      assert Numeral(n)[..0] == [];
    }
  }

  /** A numeral that does not start with a zero, unless it is just that, is the numeral of its value. */
  lemma {:induction false} NumeralOfValue(s: string)
    requires Digits(s) && |s| > 0 && (|s| > 1 ==> s[0] != '0')
    ensures Numeral(NumeralValue(s)) == s
    ensures s[0] != '0' ==> NumeralValue(s) > 0
    decreases |s|
  {
    var rest, last := s[..|s| - 1], s[|s| - 1] as int - 48;
    assert s == rest + [Digit(last)];
    if rest != [] {
      NumeralOfValue(rest);
      assert NumeralValue(rest) > 0;
      assert NumeralValue(s) / 10 == NumeralValue(rest) && NumeralValue(s) % 10 == last;
    }
  }

  lemma {:induction false} NumeralPrefix(s: string, m: nat)
    requires Digits(s) && m <= |s|
    ensures NumeralValue(s[..m]) <= NumeralValue(s)
    decreases |s| - m
  {
    if m == |s| {
      assert s[..m] == s;
    } else {
      assert s[..m + 1][..m] == s[..m];
      NumeralPrefix(s, m + 1);
    }
  }

  // Zero padding

  function Pow10(w: nat): nat {
    if w == 0 then 1 else 10 * Pow10(w - 1)
  }

  /** The last w digits of n. */
  function LastDigits(n: nat, w: nat): string {
    if w == 0 then [] else LastDigits(n / 10, w - 1) + [Digit(n % 10)]
  }

  function Zeros(w: nat): string {
    seq(w, _ => '0')
  }

  /** `%0<w>u`: the numeral, after as many zeros as make w characters of it. */
  function Format(n: nat, w: nat): string {
    var s := Numeral(n);
    if |s| >= w then s else Zeros(w - |s|) + s
  }

  lemma {:induction false} LastDigitsOfZero(w: nat)
    ensures LastDigits(0, w) == Zeros(w)
  {
    if w > 0 {
      LastDigitsOfZero(w - 1);
    }
  }

  lemma {:induction false} FormatIsLastDigits(n: nat, w: nat)
    requires n < Pow10(w) && w > 0
    ensures Format(n, w) == LastDigits(n, w) && |Numeral(n)| <= w
    decreases w
  {
    if n < 10 {
      LastDigitsOfZero(w - 1);
      assert Zeros(w - 1) + [Digit(n)] == LastDigits(n, w);
    } else {
      FormatIsLastDigits(n / 10, w - 1);
      assert Format(n, w) == Format(n / 10, w - 1) + [Digit(n % 10)];
    }
  }

  lemma {:induction false} NumeralSplit(n: nat, q: nat, r: nat, w: nat)
    requires q > 0 && r < Pow10(w) && n == q * Pow10(w) + r
    ensures Numeral(n) == Numeral(q) + LastDigits(r, w)
    decreases w
  {
    if w > 0 {
      var t := Pow10(w - 1);
      assert q * Pow10(w) == 10 * (q * t);
      NumeralSplit(q * t + r / 10, q, r / 10, w - 1);
      assert n / 10 == q * t + r / 10 && n % 10 == r % 10;
      ProductsOrder(1, q, t);
      assert t >= 1 && n >= 10;
      assert Numeral(q) + LastDigits(r, w) == Numeral(q) + LastDigits(r / 10, w - 1) + [Digit(r % 10)];
    } else {
      assert Numeral(q) + [] == Numeral(q);
    }
  }

  // Reading

  datatype Reading<T> = Read(value: T) | UnexpectedCharacter(position: nat)

  lemma {:induction false} ValueBelow(s: string)
    requires Digits(s)
    ensures NumeralValue(s) < Pow10(|s|)
  {
    if s != [] {
      ValueBelow(s[..|s| - 1]);
    }
  }

  lemma {:induction false} Pow10Grows(v: nat, w: nat)
    requires v <= w
    ensures Pow10(v) <= Pow10(w)
    decreases w
  {
    if v < w {
      Pow10Grows(v, w - 1);
    }
  }

  /** A numeral of up to 25 digits keeps every number on the way below 2^53 while it is read. */
  lemma TwentyFiveDigits(s: string)
    requires Digits(s) && |s| <= 25
    ensures NumeralValue(s) < 0x20_0000_0000_0000_0000_0000
  {
    ValueBelow(s);
    Pow10Grows(|s|, 25);
    assert Pow10(13) == 10_000_000_000_000;
    assert Pow10(25) == 10_000_000_000_000_000_000_000_000;
  }

  method FindNonDigit(s: string) returns (position: nat)
    ensures position == 0 <==> Digits(s)
    ensures position > 0 ==> position <= |s| && !IsDigit(s[position - 1]) && Digits(s[..position - 1])
  {
    for m := 0 to |s|
      invariant Digits(s[..m])
    {
      if !IsDigit(s[m]) {
        return m + 1;
      }
    }
    assert s[..|s|] == s;
    position := 0;
  }

  method FromDecString(s: string) returns (r: Reading<Vector>)
    requires Digits(s) ==> NumeralValue(s) < 0x20_0000_0000_0000_0000_0000
    ensures r.Read? <==> Digits(s)
    ensures r.Read? ==> Canonical(r.value) && Value(r.value) == Modulo64(NumeralValue(s))
    ensures !r.Read? ==> 0 < r.position <= |s| && !IsDigit(s[r.position - 1]) && Digits(s[..r.position - 1])
  {
    var position := FindNonDigit(s);
    if position > 0 {
      return UnexpectedCharacter(position);
    }
    var k, l := 0, 0;
    for m := 0 to |s|
      invariant 0 <= k < 0x1_0000_0000 && 0 <= l
      invariant l * 0x1_0000_0000 + k == NumeralValue(s[..m])
    {
      var n := s[m] as int - 48;
      assert s[..m + 1][..m] == s[..m];
      NumeralPrefix(s, m + 1);
      k := k * 10;
      l := l * 10 + k / 0x1_0000_0000;
      k := ToWord(k) + n;
      if k >= 0x1_0000_0000 {
        k := k - 0x1_0000_0000;
        l := l + 1;
      }
      assert l < 0x20_0000_0000_0000;
    }
    assert s[..|s|] == s;
    var v := FromPair(l, k);
    PairModulo(l, k);
    r := Read(v);
  }

  lemma PairModulo(l: nat, k: nat)
    requires k < 0x1_0000_0000
    ensures ToWord(l) * 0x1_0000_0000 + ToWord(k) == Modulo64(l * 0x1_0000_0000 + k)
  {}

  // Writing

  lemma Billion()
    ensures Pow10(9) == 1_000_000_000
  {}

  method ToDecString(j: Vector) returns (s: string)
    requires Canonical(j)
    ensures Value(j) >= 0 && s == Numeral(Value(j))
    decreases Value(j)
  {
    ValueRange(j);
    Billion();
    var zeros := Division64.Countlz64(j);
    Division64.LengthOfNumbers(Value(j));
    if zeros >= 11 {
      var n := Division64.ToF64(j);
      return Numeral(n);
    }
    var divided := Division64.Div32(j, 1_000_000_000);
    var (k, l) := divided.value;
    Division64.Div32Exact(Value(j), 1_000_000_000);
    FormatIsLastDigits(l, 9);
    NumeralSplit(Value(j), Value(k), l, 9);
    var m, n := ToPair(k);
    if m == 0 && n < 1_000_000_000 {
      s := Numeral(n) + Format(l, 9);
    } else {
      var start := ToDecString(k);
      s := start + Format(l, 9);
    }
  }

  /** Reading what was written gives back every 64-bit integer. */
  method WriteThenRead(j: Vector) returns (k: Vector)
    requires Canonical(j)
    ensures k == j
  {
    ValueRange(j);
    NumeralDigits(Value(j));
    var s := ToDecString(j);
    var r := FromDecString(s);
    k := r.value;
    ValueInjective(j, k);
  }
}
