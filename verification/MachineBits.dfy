/** Machine integers as bits, least significant first. */
module MachineBits {
  import opened Arithmetic

  type Bits = seq<bool>

  function FromNat(n: nat, v: nat): (r: Bits)
    ensures |r| == n
  {
    if n == 0 then [] else [v % 2 == 1] + FromNat(n - 1, v / 2)
  }

  function ToNat(b: Bits): nat {
    if b == [] then 0 else (if b[0] then 1 else 0) + 2 * ToNat(b[1..])
  }

  function And(a: Bits, b: Bits): (r: Bits)
    requires |a| == |b|
    ensures |r| == |a|
  {
    seq(|a|, i requires 0 <= i < |a| => a[i] && b[i])
  }

  function Or(a: Bits, b: Bits): (r: Bits)
    requires |a| == |b|
    ensures |r| == |a|
  {
    seq(|a|, i requires 0 <= i < |a| => a[i] || b[i])
  }

  /** Logical shifts at the width of the operand. */
  function Shl(a: Bits, k: nat): (r: Bits)
    ensures |r| == |a|
  {
    seq(|a|, i requires 0 <= i < |a| => i >= k && a[i - k])
  }

  function Shr(a: Bits, k: nat): (r: Bits)
    ensures |r| == |a|
  {
    seq(|a|, i requires 0 <= i < |a| => i + k < |a| && a[i + k])
  }

  /** The cast between integer types: a narrower one loses bits, a wider one repeats the sign bit. */
  function IntCast(v: Bits, n: nat): (r: Bits)
    ensures |r| == n
  {
    if |v| >= n then v[..n] else v + Fill(n - |v|, v != [] && v[|v| - 1])
  }

  function Fill(n: nat, bit: bool): (r: Bits)
    ensures |r| == n
  {
    seq(n, _ => bit)
  }

  lemma FromNatEven(n: nat, x: nat, i: nat)
    requires i < n
    ensures FromNat(n, 2 * x)[i] == (i > 0 && FromNat(n - 1, x)[i - 1])
  {
    DivModUnique(2 * x, 2, x, 0);
  }

  lemma {:induction false} FromNatShift(n: nat, v: nat, k: nat, i: nat)
    requires i < n
    ensures FromNat(n, v * Pow2(k))[i] == (i >= k && FromNat(n, v)[i - k])
    decreases k
  {
    hide FromNat;
    if k == 0 {
      assert v * Pow2(0) == v;
    } else {
      hide Pow2;
      DoublePower(v, k);
      FromNatEven(n, v * Pow2(k - 1), i);
      if i > 0 {
        FromNatShift(n - 1, v, k - 1, i - 1);
        if i >= k { FromNatWider(n - 1, v, i - k); }
      }
    }
  }

  lemma DoublePower(v: nat, k: nat)
    requires k > 0
    ensures v * Pow2(k) == 2 * (v * Pow2(k - 1))
  {
  }

  lemma {:induction false} FromNatWider(n: nat, v: nat, i: nat)
    requires i < n
    ensures FromNat(n + 1, v)[i] == FromNat(n, v)[i]
  {
    if i > 0 { FromNatWider(n - 1, v / 2, i - 1); }
  }

  lemma {:induction false} FromNatMask(n: nat, w: nat, i: nat)
    requires i < n
    ensures FromNat(n, Pow2(w) - 1)[i] == (i < w)
  {
    if w > 0 {
      assert (Pow2(w) - 1) / 2 == Pow2(w - 1) - 1 && (Pow2(w) - 1) % 2 == 1;
      if i > 0 { FromNatMask(n - 1, w - 1, i - 1); }
    } else {
      FromNatZero(n, i);
    }
  }

  lemma {:induction false} FromNatZero(n: nat, i: nat)
    requires i < n
    ensures !FromNat(n, 0)[i]
  {
    if i > 0 { FromNatZero(n - 1, i - 1); }
  }

  /** The bits of the complement of v in m bits, as far as n. */
  lemma {:induction false} FromNatNot(n: nat, m: nat, v: nat, i: nat)
    requires i < n <= m && v < Pow2(m)
    ensures FromNat(n, Pow2(m) - 1 - v)[i] == !FromNat(n, v)[i]
  {
    assert (Pow2(m) - 1 - v) % 2 == 1 - v % 2;
    assert (Pow2(m) - 1 - v) / 2 == Pow2(m - 1) - 1 - v / 2;
    if i > 0 { FromNatNot(n - 1, m - 1, v / 2, i - 1); }
  }

  /** Keeping the low w bits is the remainder modulo two to the w. */
  lemma {:induction false} LowBits(a: Bits, b: Bits, w: nat)
    requires |a| == |b| && forall i :: 0 <= i < |a| ==> b[i] == (i < w && a[i])
    ensures ToNat(b) == ToNat(a) % Pow2(w)
  {
    if w == 0 || a == [] {
      NoBits(b);
      if a != [] { DivModUnique(ToNat(a), 1, ToNat(a), 0); }
      else { DivModUnique(0, Pow2(w), 0, 0); }
    } else {
      LowBits(a[1..], b[1..], w - 1);
      DoubleMod(ToNat(a[1..]), Pow2(w - 1), if a[0] then 1 else 0);
    }
  }

  lemma DoubleMod(t: nat, p: nat, d: nat)
    requires p > 0 && d < 2
    ensures (2 * t + d) % (2 * p) == 2 * (t % p) + d
  {
    assert t / p * (2 * p) == 2 * (t / p * p);
    DivModUnique(2 * t + d, 2 * p, t / p, 2 * (t % p) + d);
  }

  lemma {:induction false} NoBits(b: Bits)
    requires forall i :: 0 <= i < |b| ==> !b[i]
    ensures ToNat(b) == 0
  {
    if b != [] { NoBits(b[1..]); }
  }

  lemma {:induction false} ToNatBound(b: Bits)
    ensures ToNat(b) < Pow2(|b|)
  {
    if b != [] { ToNatBound(b[1..]); }
  }

  lemma {:induction false} ToNatFromNat(n: nat, v: nat)
    requires v < Pow2(n)
    ensures ToNat(FromNat(n, v)) == v
  {
    if n > 0 {
      ToNatFromNat(n - 1, v / 2);
      assert FromNat(n, v)[1..] == FromNat(n - 1, v / 2);
    }
  }

  /** Shifting down is dividing by a power of two. */
  lemma {:induction false} ShrDivides(a: Bits, k: nat)
    ensures ToNat(Shr(a, k)) == ToNat(a) / Pow2(k)
    decreases k
  {
    if k == 0 || a == [] {
      assert Shr(a, k) == if a == [] then [] else a;
      DivModUnique(ToNat(a), if k == 0 then 1 else Pow2(k), if k == 0 then ToNat(a) else 0, 0);
    } else {
      var rest := Shr(a[1..], k - 1);
      assert Shr(a, k) == rest + [false];
      ZeroAbove(rest);
      ShrDivides(a[1..], k - 1);
      HalfThen(ToNat(a[1..]), if a[0] then 1 else 0, Pow2(k - 1));
    }
  }

  lemma {:induction false} ZeroAbove(b: Bits)
    ensures ToNat(b + [false]) == ToNat(b)
  {
    if b != [] {
      assert (b + [false])[1..] == b[1..] + [false];
      ZeroAbove(b[1..]);
    }
  }

  lemma HalfThen(t: nat, d: nat, p: nat)
    requires p > 0 && d < 2
    ensures (d + 2 * t) / (2 * p) == t / p
  {
    assert t / p * (2 * p) == 2 * (t / p * p);
    DivModUnique(d + 2 * t, 2 * p, t / p, 2 * (t % p) + d);
  }

  /** A cast keeps the value as a signed number, as far as it fits. */
  lemma CastValue(v: Bits, n: nat)
    ensures ToNat(IntCast(v, n)) == Pattern(Wrap(ToNat(v), |v|, true), n)
  {
    if n <= |v| { CutCast(v, n); } else { ExtendCast(v, n); }
  }

  lemma CutCast(v: Bits, n: nat)
    requires n <= |v|
    ensures ToNat(v[..n]) == Pattern(Wrap(ToNat(v), |v|, true), n)
  {
    hide Pow2, Pattern, ToNat, Wrap;
    CutValue(v, n);
    WrapMeaning(ToNat(v), |v|, true);
    PatternDown(ToNat(v), |v|, n);
    PatternDown(Wrap(ToNat(v), |v|, true), |v|, n);
  }

  lemma ExtendCast(v: Bits, n: nat)
    requires |v| < n
    ensures ToNat(v + Fill(n - |v|, v != [] && v[|v| - 1])) == Pattern(Wrap(ToNat(v), |v|, true), n)
  {
    hide Pow2, Pattern, ToNat, Wrap, Fill;
    var x, m, sign := ToNat(v), |v|, v != [] && v[|v| - 1];
    ToNatBound(v);
    SignBit(v);
    ConcatValue(v, Fill(n - m, sign));
    FillValue(n - m, sign);
    SignFill(x, m, n);
    WrapOf(x, m);
    PatternOf(Wrap(x, m, true), n);
  }

  lemma WrapOf(x: nat, m: nat)
    requires x < Pow2(m)
    ensures Wrap(x, m, true) == if 2 * x >= Pow2(m) then x - Pow2(m) else x
  {
    PatternOf(x, m);
  }

  lemma SignFill(x: nat, m: nat, n: nat)
    requires m < n && x < Pow2(m)
    ensures Pow2(m) * (Pow2(n - m) - 1) == Pow2(n) - Pow2(m) && 2 * Pow2(m) <= Pow2(n)
    ensures Pow2(m) * 0 == 0
  {
    hide Pow2;
    Pow2Sum(m, n - m);
    Doubling(m, n);
  }

  lemma {:induction false} CutValue(v: Bits, n: nat)
    requires n <= |v|
    ensures ToNat(v[..n]) == Pattern(ToNat(v), n)
  {
    if n == 0 {
      DivModUnique(ToNat(v), 1, ToNat(v), 0);
    } else {
      assert v[..n][1..] == v[1..][..n - 1];
      CutValue(v[1..], n - 1);
      DoubleMod(ToNat(v[1..]), Pow2(n - 1), if v[0] then 1 else 0);
    }
  }

  lemma {:induction false} ConcatValue(a: Bits, b: Bits)
    ensures ToNat(a + b) == ToNat(a) + Pow2(|a|) * ToNat(b)
  {
    if a == [] {
      assert a + b == b && Pow2(0) == 1;
    } else {
      assert (a + b)[1..] == a[1..] + b;
      ConcatValue(a[1..], b);
      DoubleTimes(Pow2(|a| - 1), Pow2(|a|), ToNat(b));
    }
  }

  lemma DoubleTimes(p: int, q: int, t: int)
    requires q == 2 * p
    ensures q * t == 2 * (p * t)
  {
  }

  lemma {:induction false} FillValue(n: nat, bit: bool)
    ensures ToNat(Fill(n, bit)) == if bit then Pow2(n) - 1 else 0
  {
    if n > 0 {
      assert Fill(n, bit)[1..] == Fill(n - 1, bit);
      FillValue(n - 1, bit);
    }
  }

  /** The last bit says whether the number is in the upper half. */
  lemma {:induction false} SignBit(v: Bits)
    ensures (v != [] && v[|v| - 1]) <==> 2 * ToNat(v) >= Pow2(|v|)
  {
    if |v| > 1 {
      SignBit(v[1..]);
      assert Pow2(|v| - 1) == 2 * Pow2(|v| - 2);
    } else if v != [] {
      assert ToNat(v[1..]) == 0 && Pow2(0) == 1;
    }
  }
}
