/** Powers of two, remainders and machine integers. */
module Arithmetic {

  function Pow2(n: nat): (p: int)
    ensures p > 0
  {
    if n == 0 then 1 else 2 * Pow2(n - 1)
  }

  lemma {:induction false} Pow2Sum(m: nat, n: nat)
    ensures Pow2(m + n) == Pow2(m) * Pow2(n)
  {
    if m > 0 {
      Pow2Sum(m - 1, n);
    }
  }

  /** Quotient and remainder are the only pair that recomposes p. */
  lemma DivModUnique(p: int, m: int, q: int, r: int)
    requires m > 0 && p == q * m + r && 0 <= r < m
    ensures p / m == q && p % m == r
  {
    var d := p / m - q;
    assert d * m == r - p % m;
    if d > 0 { MulMono(1, d, m); } else if d < 0 { MulMono(d, -1, m); }
  }

  lemma MulMono(a: int, b: int, m: int)
    requires a <= b && m >= 0
    ensures a * m <= b * m
  {
  }

  /** The values an integer type of this width and signedness can hold. */
  predicate InWindow(x: int, width: nat, signed: bool) {
    if signed then -Pow2(width) <= 2 * x < Pow2(width) else 0 <= x < Pow2(width)
  }

  /** The bit pattern, read without a sign, of an integer stored at this width. */
  function Pattern(v: int, width: nat): (p: int)
    ensures 0 <= p < Pow2(width)
  {
    v % Pow2(width)
  }

  /** The value of an integer type that has the same bit pattern as v. */
  function Wrap(v: int, width: nat, signed: bool): int {
    var p := Pattern(v, width);
    if signed && 2 * p >= Pow2(width) then p - Pow2(width) else p
  }

  lemma WrapMeaning(v: int, width: nat, signed: bool)
    ensures InWindow(Wrap(v, width, signed), width, signed)
    ensures Pattern(Wrap(v, width, signed), width) == Pattern(v, width)
  {
    var p, m := Pattern(v, width), Pow2(width);
    DivModUnique(p, m, 0, p);
    DivModUnique(p - m, m, -1, p);
  }

  /** The pattern of a value, whichever side of zero it lies. */
  lemma PatternOf(x: int, width: nat)
    ensures 0 <= x < Pow2(width) ==> Pattern(x, width) == x
    ensures -Pow2(width) <= x < 0 ==> Pattern(x, width) == x + Pow2(width)
  {
    if 0 <= x < Pow2(width) {
      DivModUnique(x, Pow2(width), 0, x);
    } else if -Pow2(width) <= x < 0 {
      DivModUnique(x, Pow2(width), -1, x + Pow2(width));
    }
  }

  /** Counting on from equal patterns keeps them equal. */
  lemma PatternAdd(x: int, y: int, j: int, width: nat)
    requires Pattern(x, width) == Pattern(y, width)
    ensures Pattern(x + j, width) == Pattern(y + j, width)
  {
    hide Pow2;
    var m := Pow2(width);
    var z := x % m + j;
    Shifted(x, z, m, j);
    Shifted(y, z, m, j);
  }

  lemma Shifted(x: int, z: int, m: int, j: int)
    requires m > 0 && z == x % m + j
    ensures (x + j) % m == z % m
  {
    assert x + j == x / m * m + z;
    assert x + j == (x / m + z / m) * m + z % m;
    DivModUnique(x + j, m, x / m + z / m, z % m);
  }

  /** Values less than a full turn apart have different patterns. */
  lemma PatternApart(x: int, d: int, width: nat)
    requires 0 < d < Pow2(width)
    ensures Pattern(x, width) != Pattern(x + d, width)
  {
    hide Pow2;
    var m := Pow2(width);
    if x % m == (x + d) % m {
      var k := (x + d) / m - x / m;
      assert d == k * m;
      if k >= 1 { MulMono(1, k, m); } else { MulMono(k, 0, m); }
    }
  }

  /** Cutting to more bits first does not change the pattern in fewer. */
  lemma PatternDown(v: int, bits: nat, width: nat)
    requires width <= bits
    ensures Pattern(Pattern(v, bits), width) == Pattern(v, width)
  {
    hide Pow2;
    var m, k := Pow2(width), Pow2(bits - width);
    Pow2Sum(width, bits - width);
    var p := v % Pow2(bits);
    var q := v / Pow2(bits);
    assert v == q * (m * k) + p;
    assert q * (m * k) == (q * k) * m;
    assert p == p / m * m + p % m;
    assert v == (q * k + p / m) * m + p % m;
    DivModUnique(v, m, q * k + p / m, p % m);
  }

  lemma Doubling(m: nat, n: nat)
    requires m < n
    ensures 2 * Pow2(m) <= Pow2(n)
  {
    if m + 1 < n { Doubling(m, n - 1); }
  }

  /** Inside one window the pattern determines the value. */
  lemma PatternInjective(x: int, y: int, width: nat, signed: bool)
    requires InWindow(x, width, signed) && InWindow(y, width, signed)
    requires Pattern(x, width) == Pattern(y, width)
    ensures x == y
  {
    var m := Pow2(width);
    var d := x / m - y / m;
    assert x - y == d * m;
    if d > 0 { MulMono(1, d, m); } else if d < 0 { MulMono(d, -1, m); }
  }
}
