/**
 * Python's `float(...)` applied to a natural number: rounding to the nearest
 * IEEE 754 binary64 value, round half to even, with a result of 2^1024 or more
 * becoming infinity. Only natural numbers are rounded here, so there is no sign,
 * no subnormal range and no fraction to model.
 */
module Binary64 {
  import opened Wrappers

  /** Bits in a binary64 significand, the hidden bit included. */
  const Precision: nat := 53

  /** Every finite binary64 value is below two to this power. */
  const Emax: nat := 1024

  function Pow2(n: nat): (r: nat)
    ensures r > 0
  {
    if n == 0 then 1 else 2 * Pow2(n - 1)
  }

  /** The number of binary digits of `v`, 0 for 0. */
  function BitLength(v: nat): (r: nat)
    ensures v < Pow2(r)
    ensures v > 0 ==> r > 0 && Pow2(r - 1) <= v
  {
    if v == 0 then 0 else 1 + BitLength(v / 2)
  }

  /** The gap between neighbouring doubles around `v`: 1 up to 2^53, then doubling with each further bit. */
  function Ulp(v: nat): (r: nat)
    ensures r > 0
  {
    Pow2(if BitLength(v) <= Precision then 0 else BitLength(v) - Precision)
  }

  /** `v` rounded to a multiple of `unit`: the nearer of the two around it, the even one on a tie. */
  function RoundToMultiple(v: nat, unit: nat): (r: nat)
    requires unit > 0
    ensures 2 * (if r >= v then r - v else v - r) <= unit
  {
    var q := v / unit;
    var rem := v % unit;
    if 2 * rem > unit || (2 * rem == unit && q % 2 == 1) then v - rem + unit else v - rem
  }

  /** `float(v)` for a natural number `v`, as the integer it equals; None where it is infinite. */
  function NearestDouble(v: nat): (r: Option<nat>)
    ensures r.Some? ==> r.value < Pow2(Emax)
    ensures r.Some? ==> 2 * (if r.value >= v then r.value - v else v - r.value) <= Ulp(v)
  {
    var d := RoundToMultiple(v, Ulp(v));
    if d >= Pow2(Emax) then None else Some(d)
  }

  // ---------------------------------------------------------------------------
  // Arithmetic helpers

  lemma MulMonotone(a: nat, b: nat, c: nat)
    ensures a <= b ==> a * c <= b * c
  {
  }

  lemma MulSucc(a: nat, c: nat)
    ensures (a + 1) * c == a * c + c
  {
  }

  lemma DivMod(v: nat, unit: nat)
    requires unit > 0
    ensures v == v / unit * unit + v % unit && v % unit < unit
  {
  }

  /** `q` is the quotient of `v` by `unit` when `v` lies in the `q`-th interval of length `unit`. */
  lemma DivisionExact(v: nat, unit: nat, q: nat)
    requires unit > 0 && q * unit <= v < q * unit + unit
    ensures v / unit == q && v % unit == v - q * unit
  {
    var q' := v / unit;
    assert v == q' * unit + v % unit;
    MulMonotone(q' + 1, q, unit);
    MulSucc(q', unit);
    MulMonotone(q + 1, q', unit);
    MulSucc(q, unit);
  }

  /** A multiple of `unit` at most `v` is at most the largest multiple below `v`. */
  lemma FloorAtLeast(v: nat, unit: nat, m: nat)
    requires unit > 0 && m * unit <= v
    ensures m <= v / unit && m * unit <= v / unit * unit
  {
    var q := v / unit;
    DivMod(v, unit);
    assert m <= q by {
      MulSucc(q, unit);
      MulMonotone(q + 1, m, unit);
    }
    MulMonotone(m, q, unit);
  }

  /** Below `m` multiples of `unit`, fewer than `m` whole multiples fit. */
  lemma FloorBelow(v: nat, unit: nat, m: nat)
    requires unit > 0 && v < m * unit
    ensures v / unit < m
  {
    DivMod(v, unit);
    MulMonotone(m, v / unit, unit);
  }

  lemma {:induction false} Pow2Add(a: nat, b: nat)
    ensures Pow2(a + b) == Pow2(a) * Pow2(b)
    decreases a
  {
    if a > 0 {
      Pow2Add(a - 1, b);
      assert Pow2(a + b) == 2 * Pow2(a - 1 + b);
    }
  }

  lemma {:induction false} Pow2Monotone(a: nat, b: nat)
    ensures a <= b ==> Pow2(a) <= Pow2(b)
    decreases b
  {
    if a < b {
      Pow2Monotone(a, b - 1);
    }
  }

  /** One less than a positive power of two is odd. */
  lemma Pow2Odd(n: nat)
    requires n > 0
    ensures (Pow2(n) - 1) % 2 == 1
  {
    var x := Pow2(n - 1);
    assert Pow2(n) == 2 * x;
    DivisionExact(2 * x - 1, 2, x - 1);
  }

  /** A number below 2^n has at most n bits. */
  lemma BitLengthAtMost(v: nat, n: nat)
    requires v < Pow2(n)
    ensures BitLength(v) <= n
  {
    Pow2Monotone(n + 1, BitLength(v));
  }

  /** A number of at least 2^n has more than n bits. */
  lemma BitLengthAbove(v: nat, n: nat)
    requires Pow2(n) <= v
    ensures BitLength(v) > n
  {
    Pow2Monotone(BitLength(v), n);
  }

  /** Within the binade [2^(e-1), 2^e), past the precision, the gap is 2^(e-53). */
  lemma UlpInBinade(v: nat, e: nat)
    requires Precision < e && Pow2(e - 1) <= v < Pow2(e)
    ensures Ulp(v) == Pow2(e - Precision)
  {
    BitLengthAtMost(v, e);
    BitLengthAbove(v, e - 1);
  }

  // ---------------------------------------------------------------------------
  // Rounding to a multiple

  /** The rounded value is the multiple of `unit` just below `v` or the one just above. */
  lemma RoundNeighbours(v: nat, unit: nat)
    requires unit > 0
    ensures var r := RoundToMultiple(v, unit);
            r == v / unit * unit || r == (v / unit + 1) * unit
    ensures RoundToMultiple(v, unit) % unit == 0
    ensures var r := RoundToMultiple(v, unit);
            r / unit == v / unit || r / unit == v / unit + 1
  {
    var q := v / unit;
    MulSucc(q, unit);
    var r := RoundToMultiple(v, unit);
    if r == q * unit {
      DivisionExact(r, unit, q);
    } else {
      DivisionExact(r, unit, q + 1);
    }
  }

  /** No multiple of `unit` is nearer to `v` than the rounded value. */
  lemma RoundIsNearest(v: nat, unit: nat, k: nat)
    requires unit > 0
    ensures var r := RoundToMultiple(v, unit);
            (if r >= v then r - v else v - r) <= (if k * unit >= v then k * unit - v else v - k * unit)
  {
    var q := v / unit;
    assert v == q * unit + v % unit;
    MulMonotone(k, q, unit);
    MulMonotone(q + 1, k, unit);
    MulSucc(q, unit);
  }

  /** Of two equally near multiples, the rounded value is the even one. */
  lemma RoundTiesToEven(v: nat, unit: nat)
    requires unit > 0
    requires var r := RoundToMultiple(v, unit); 2 * (if r >= v then r - v else v - r) == unit
    ensures (RoundToMultiple(v, unit) / unit) % 2 == 0
  {
    var q := v / unit;
    assert v == q * unit + v % unit;
    MulSucc(q, unit);
    var r := RoundToMultiple(v, unit);
    if 2 * (v % unit) > unit || (2 * (v % unit) == unit && q % 2 == 1) {
      DivisionExact(r, unit, q + 1);
    } else {
      DivisionExact(r, unit, q);
    }
  }

  /** From the midpoint below `top` multiples of `unit`, with `top` even, rounding reaches `top` multiples. */
  lemma MidpointRoundsUp(v: nat, unit: nat, half: nat, top: nat)
    requires unit == 2 * half && half > 0 && top > 0 && (top - 1) % 2 == 1
    requires top * unit - half <= v < top * unit
    ensures RoundToMultiple(v, unit) == top * unit
  {
    MulSucc(top - 1, unit);
    RoundUpAt(v, unit, top - 1);
  }

  /** In the top half of an odd multiple's interval, rounding goes up to the next multiple. */
  lemma RoundUpAt(v: nat, unit: nat, q: nat)
    requires unit > 0 && q * unit <= v < q * unit + unit
    requires unit <= 2 * (v - q * unit) && q % 2 == 1
    ensures RoundToMultiple(v, unit) == q * unit + unit
  {
    DivisionExact(v, unit, q);
  }

  lemma RoundByOne(v: nat)
    ensures RoundToMultiple(v, 1) == v
  {
    DivisionExact(v, 1, v);
  }

  // ---------------------------------------------------------------------------
  // The binary64 rounding

  /** Every natural number below 2^53 is a double: `float` keeps it exactly. */
  lemma ExactBelowPrecision(v: nat)
    requires v < Pow2(Precision)
    ensures NearestDouble(v) == Some(v)
  {
    BitLengthAtMost(v, Precision);
    assert Ulp(v) == 1;
    RoundByOne(v);
    Pow2Monotone(Precision, Emax);
  }

  /** A rounded value has at most 53 significant bits: a multiple of the gap, at most 2^53 of them. */
  lemma SignificandFits(v: nat)
    requires NearestDouble(v).Some?
    ensures NearestDouble(v).value % Ulp(v) == 0
    ensures NearestDouble(v).value / Ulp(v) <= Pow2(Precision)
  {
    var unit := Ulp(v);
    var L := BitLength(v);
    RoundNeighbours(v, unit);
    if L <= Precision {
      Pow2Monotone(L, Precision);
      RoundByOne(v);
      DivisionExact(v, 1, v);
    } else {
      Pow2Add(Precision, L - Precision);
      FloorBelow(v, unit, Pow2(Precision));
    }
  }

  /** From 2^e on, rounding to the gap stays at or above 2^e. */
  lemma RoundsAtLeast(v: nat, e: nat)
    requires Precision < e && Pow2(e) <= v
    ensures RoundToMultiple(v, Ulp(v)) >= Pow2(e)
  {
    var L := BitLength(v);
    BitLengthAbove(v, e);
    var unit := Ulp(v);
    assert unit == Pow2(L - Precision);
    Pow2Add(Precision - 1, L - Precision);
    FloorAtLeast(v, unit, Pow2(Precision - 1));
    RoundNeighbours(v, unit);
    MulSucc(v / unit, unit);
    Pow2Monotone(e, L - 1);
  }

  /**
   * Below 2^e (e past the precision), from the midpoint between the largest
   * double below 2^e, 2^e - 2^(e-53), and 2^e on, rounding goes up to 2^e.
   */
  lemma RoundsUpTo(v: nat, e: nat)
    requires Precision < e
    requires Pow2(e) - Pow2(e - Precision - 1) <= v < Pow2(e)
    ensures RoundToMultiple(v, Ulp(v)) == Pow2(e)
  {
    var half := Pow2(e - Precision - 1);
    var unit := Pow2(e - Precision);
    var top := Pow2(Precision);
    assert unit == 2 * half;
    Pow2Add(Precision, e - Precision);
    assert Pow2(e) == top * unit;
    assert Pow2(e) == 2 * Pow2(e - 1);
    Pow2Monotone(e - Precision - 1, e - 1);
    UlpInBinade(v, e);
    Pow2Odd(Precision);
    MidpointRoundsUp(v, unit, half, top);
  }

  /** Below that midpoint, rounding to the gap stays below 2^e. */
  lemma RoundsBelow(v: nat, e: nat)
    requires Precision < e
    requires v < Pow2(e) - Pow2(e - Precision - 1)
    ensures RoundToMultiple(v, Ulp(v)) < Pow2(e)
  {
    var L := BitLength(v);
    BitLengthAtMost(v, e);
    var s := if L <= Precision then 0 else L - Precision;
    assert Ulp(v) == Pow2(s);
    Pow2Monotone(s, e - Precision);
    assert Pow2(e - Precision) == 2 * Pow2(e - Precision - 1);
  }

  /** `float` of a natural number is infinite exactly from the midpoint below 2^1024 on. */
  lemma InfiniteIff(v: nat)
    ensures NearestDouble(v).None? <==> v >= Pow2(Emax) - Pow2(Emax - Precision - 1)
  {
    if v >= Pow2(Emax) {
      RoundsAtLeast(v, Emax);
    } else if v >= Pow2(Emax) - Pow2(Emax - Precision - 1) {
      RoundsUpTo(v, Emax);
    } else {
      RoundsBelow(v, Emax);
    }
  }
}
