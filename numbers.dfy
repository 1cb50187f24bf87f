/**
 * Exact real arithmetic shared by the indicator, risk and analytics modules:
 * left-to-right sums (what `Array.prototype.reduce((a, b) => a + b)` computes),
 * squared deviations, the outcome of a JavaScript division whose divisor may be
 * zero, and an abstract square root.
 */
module Numbers {

  datatype Option<+T> = None | Some(value: T)

  function Abs(x: real): real { if x < 0.0 then -x else x }

  function Min(a: real, b: real): real { if a <= b then a else b }

  function MinNat(a: nat, b: nat): nat { if a <= b then a else b }

  function MaxNat(a: nat, b: nat): nat { if a >= b then a else b }

  /** `s.slice(0, n)`: the first `n` elements, or all of them when there are fewer. */
  function Take<T>(s: seq<T>, n: nat): (r: seq<T>)
    ensures |r| == MinNat(n, |s|)
    ensures forall i :: 0 <= i < |r| ==> r[i] == s[i]
  {
    if n <= |s| then s[..n] else s
  }

  /** Sum of a sequence, accumulated from the left. */
  function Sum(s: seq<real>): real
    decreases |s|
  {
    if |s| == 0 then 0.0 else Sum(s[..|s| - 1]) + s[|s| - 1]
  }

  /** `Math.pow(x, 2)`. */
  function Square(x: real): real { x * x }

  /** The squared deviations of `s` from `m`, `s.map(x => Math.pow(x - m, 2))`. */
  function SquaredDeviations(s: seq<real>, m: real): (r: seq<real>)
    ensures |r| == |s|
    ensures forall i :: 0 <= i < |s| ==> r[i] == Square(s[i] - m)
  {
    if |s| == 0 then [] else SquaredDeviations(s[..|s| - 1], m) + [Square(s[|s| - 1] - m)]
  }

  lemma SumPrefixStep(s: seq<real>, i: nat)
    requires i < |s|
    ensures Sum(s[..i + 1]) == Sum(s[..i]) + s[i]
  {
    assert s[..i + 1][..i] == s[..i];
  }

  lemma {:induction false} SumAppend(s: seq<real>, t: seq<real>)
    ensures Sum(s + t) == Sum(s) + Sum(t)
    decreases |t|
  {
    if |t| == 0 {
      assert s + t == s;
    } else {
      assert (s + t)[..|s + t| - 1] == s + t[..|t| - 1];
      SumAppend(s, t[..|t| - 1]);
    }
  }

  lemma SumCons(x: real, s: seq<real>)
    ensures Sum([x] + s) == x + Sum(s)
  {
    SumAppend([x], s);
    assert Sum([x]) == Sum([x][..0]) + x;
  }

  /** Moving a window one place right drops its first element and adds the next one. */
  lemma SumSlide(s: seq<real>, a: nat, b: nat)
    requires a < b < |s|
    ensures Sum(s[a + 1..b + 1]) == Sum(s[a..b]) - s[a] + s[b]
  {
    assert s[a..b + 1] == s[a..b] + [s[b]];
    SumAppend(s[a..b], [s[b]]);
    assert Sum([s[b]]) == Sum([s[b]][..0]) + s[b];
    assert s[a..b + 1] == [s[a]] + s[a + 1..b + 1];
    SumCons(s[a], s[a + 1..b + 1]);
  }

  /** Subtracting the same amount from every element lowers the sum by |s| times it. */
  lemma {:induction false} SumShifted(s: seq<real>, t: seq<real>, d: real)
    requires |s| == |t|
    requires forall i :: 0 <= i < |s| ==> t[i] == s[i] - d
    ensures Sum(t) == Sum(s) - (|s| as real) * d
    decreases |s|
  {
    if |s| > 0 {
      SumShifted(s[..|s| - 1], t[..|t| - 1], d);
    }
  }

  lemma {:induction false} SumConstant(s: seq<real>, v: real)
    requires forall i :: 0 <= i < |s| ==> s[i] == v
    ensures Sum(s) == (|s| as real) * v
    decreases |s|
  {
    if |s| > 0 {
      SumConstant(s[..|s| - 1], v);
    }
  }

  lemma {:induction false} SumNonNegative(s: seq<real>)
    requires forall i :: 0 <= i < |s| ==> s[i] >= 0.0
    ensures Sum(s) >= 0.0
    decreases |s|
  {
    if |s| > 0 {
      SumNonNegative(s[..|s| - 1]);
    }
  }

  /** A sum of non-negative terms one of which is positive is positive. */
  lemma {:induction false} SumPositive(s: seq<real>, k: nat)
    requires forall i :: 0 <= i < |s| ==> s[i] >= 0.0
    requires k < |s| && s[k] > 0.0
    ensures Sum(s) > 0.0
    decreases |s|
  {
    if k == |s| - 1 {
      SumNonNegative(s[..|s| - 1]);
    } else {
      SumPositive(s[..|s| - 1], k);
    }
  }

  /** A sum of |s| terms, each between `lo` and `hi`, lies between |s| * lo and |s| * hi. */
  lemma {:induction false} SumBetween(s: seq<real>, lo: real, hi: real)
    requires forall i :: 0 <= i < |s| ==> lo <= s[i] <= hi
    ensures (|s| as real) * lo <= Sum(s) <= (|s| as real) * hi
    decreases |s|
  {
    if |s| > 0 {
      SumBetween(s[..|s| - 1], lo, hi);
      CountStep(|s| - 1, lo);
      CountStep(|s| - 1, hi);
    }
  }

  lemma CountStep(n: nat, x: real)
    ensures ((n + 1) as real) * x == (n as real) * x + x
  {
  }

  /** The sum of squared deviations is never negative. */
  lemma SquaredDeviationsNonNegative(s: seq<real>, m: real)
    ensures Sum(SquaredDeviations(s, m)) >= 0.0
  {
    var d := SquaredDeviations(s, m);
    forall i | 0 <= i < |d| ensures d[i] >= 0.0 {
      SquareNonNegative(s[i] - m);
    }
    SumNonNegative(d);
  }

  /** It is zero when every element equals `m`. */
  lemma SquaredDeviationsAtConstant(s: seq<real>, m: real)
    requires forall i :: 0 <= i < |s| ==> s[i] == m
    ensures Sum(SquaredDeviations(s, m)) == 0.0
  {
    SumConstant(SquaredDeviations(s, m), 0.0);
  }

  /** It is positive when some element differs from `m`. */
  lemma SquaredDeviationsPositive(s: seq<real>, m: real, k: nat)
    requires k < |s| && s[k] != m
    ensures Sum(SquaredDeviations(s, m)) > 0.0
  {
    var d := SquaredDeviations(s, m);
    forall i | 0 <= i < |d| ensures d[i] >= 0.0 {
      SquareNonNegative(s[i] - m);
    }
    SquarePositive(s[k] - m);
    SumPositive(d, k);
  }

  lemma SquareNonNegative(x: real)
    ensures Square(x) >= 0.0
  {
    if x != 0.0 {
      SquarePositive(x);
    }
  }

  lemma SquarePositive(x: real)
    requires x != 0.0
    ensures Square(x) > 0.0
  {
    // The chains keep the product out of a comparison with zero, which the
    // solver handles poorly when the product is also named by Square(x).
    if x < 0.0 {
      calc {
        Square(x);
        (-x) * (-x);
      > 0.0;
      }
    } else {
      calc {
        Square(x);
        x * x;
      > 0.0;
      }
    }
  }

  /** Shifting the data and the centre by the same amount leaves the squared deviations alone. */
  lemma SquaredDeviationsShifted(s: seq<real>, t: seq<real>, m: real, d: real)
    requires |s| == |t|
    requires forall i :: 0 <= i < |s| ==> t[i] == s[i] - d
    ensures SquaredDeviations(t, m - d) == SquaredDeviations(s, m)
  {
    forall i | 0 <= i < |s| ensures SquaredDeviations(t, m - d)[i] == SquaredDeviations(s, m)[i] {
      assert t[i] - (m - d) == s[i] - m;
    }
  }

  lemma DivOfMul(a: real, p: real)
    requires p != 0.0
    ensures (p * a) / p == a
  {
  }

  lemma DivAtLeast(a: real, b: real, p: real)
    requires p > 0.0 && p * b <= a
    ensures b <= a / p
  {
  }

  lemma MulPositive(a: real, b: real)
    requires a > 0.0 && b > 0.0
    ensures a * b > 0.0
  {
  }

  /** For `a < b` and `0 < m <= 1`: `a * m < b * m` and the gap shrinks, `b * m - a * m <= b - a`. */
  lemma MulMonotone(a: real, b: real, m: real)
    requires a < b && 0.0 < m <= 1.0
    ensures a * m < b * m
    ensures b * m - a * m <= b - a
  {
    MulPositive(b - a, m);
    MulNonNegative(b - a, 1.0 - m);
    assert (b - a) * m == b * m - a * m;
    assert (b - a) * (1.0 - m) == (b - a) - (b * m - a * m);
  }

  lemma DivAtMost(a: real, b: real, p: real)
    requires p > 0.0 && a <= p * b
    ensures a / p <= b
  {
  }

  lemma DivBelow(a: real, b: real, p: real)
    requires p > 0.0 && a < p * b
    ensures a / p < b
  {
  }

  lemma MulNonNegative(a: real, b: real)
    requires a >= 0.0 && b >= 0.0
    ensures a * b >= 0.0
  {
  }

  lemma MulAtLeastSelf(a: real, p: real)
    requires a >= 0.0 && p >= 1.0
    ensures a * p >= a
  {
  }

  lemma DivNonNegative(a: real, p: real)
    requires a >= 0.0 && p > 0.0
    ensures a / p >= 0.0
  {
  }

  lemma DivPositive(a: real, p: real)
    requires a > 0.0 && p > 0.0
    ensures a / p > 0.0
  {
  }

  /** `x * d == y` and `d != 0` make `x` the quotient `y / d`. */
  lemma QuotientOf(x: real, y: real, d: real)
    requires d != 0.0 && x * d == y
    ensures x == y / d
  {
  }

  /**
   * The value of a JavaScript number expression over finite operands: a real, or one
   * of the three non-finite values a division by zero produces.
   */
  datatype Value = Finite(v: real) | PlusInfinity | MinusInfinity | NotANumber

  /** `a / b` in IEEE arithmetic, for finite `a` and `b`. */
  function Divide(a: real, b: real): (r: Value)
    ensures b != 0.0 <==> r.Finite?
    ensures b != 0.0 ==> r.v * b == a
    ensures r == PlusInfinity <==> b == 0.0 && a > 0.0
    ensures r == MinusInfinity <==> b == 0.0 && a < 0.0
  {
    if b != 0.0 then Finite(a / b)
    else if a > 0.0 then PlusInfinity
    else if a < 0.0 then MinusInfinity
    else NotANumber
  }

  /** `x < bound` in IEEE arithmetic: NaN compares false, -Infinity is below everything. */
  predicate LessThan(x: Value, bound: real)
    ensures LessThan(x, bound) <==> x.MinusInfinity? || (x.Finite? && x.v < bound)
  {
    match x
    case Finite(v) => v < bound
    case PlusInfinity => false
    case MinusInfinity => true
    case NotANumber => false
  }

  /** `Math.min(a, b)`: NaN if either is NaN, otherwise the smaller. */
  function MinValue(a: Value, b: Value): (r: Value)
    ensures r.NotANumber? <==> a.NotANumber? || b.NotANumber?
    ensures !r.NotANumber? ==> r == a || r == b
    ensures a.Finite? && b.Finite? ==> r.Finite? && r.v <= a.v && r.v <= b.v
    ensures a.PlusInfinity? ==> r == b
    ensures b.PlusInfinity? ==> r == a
    ensures (a.MinusInfinity? || b.MinusInfinity?) && !r.NotANumber? ==> r == MinusInfinity
  {
    if a.NotANumber? || b.NotANumber? then NotANumber
    else if a.MinusInfinity? || b.MinusInfinity? then MinusInfinity
    else if a.PlusInfinity? then b
    else if b.PlusInfinity? then a
    else Finite(Min(a.v, b.v))
  }

  /** `sqrt(x)` is the non-negative square root of `x`, when `x` is non-negative. */
  ghost predicate SqrtAt(sqrt: real -> real, x: real)
  {
    0.0 <= x ==> 0.0 <= sqrt(x) && sqrt(x) * sqrt(x) == x
  }

  /**
   * `sqrt` behaves as the non-negative square root on non-negative arguments. The
   * exact values of `Math.sqrt` are not modelled; only these facts are used.
   */
  ghost predicate IsSqrt(sqrt: real -> real)
  {
    forall x :: SqrtAt(sqrt, x)
  }

  lemma SqrtZero(sqrt: real -> real)
    requires IsSqrt(sqrt)
    ensures sqrt(0.0) == 0.0
  {
    assert SqrtAt(sqrt, 0.0);
    var r := sqrt(0.0);
    assert r >= 0.0 && r * r == 0.0 * 0.0;
    SquareInjective(r, 0.0);
  }

  lemma SqrtPositive(sqrt: real -> real, x: real)
    requires IsSqrt(sqrt) && x > 0.0
    ensures sqrt(x) > 0.0
  {
    assert SqrtAt(sqrt, x);
    assert sqrt(x) * sqrt(x) == x;
  }

  /** Two non-negative reals with equal squares are equal. */
  lemma SquareInjective(a: real, b: real)
    requires a >= 0.0 && b >= 0.0 && a * a == b * b
    ensures a == b
  {
    assert (a - b) * (a + b) == a * a - b * b;
    if a + b == 0.0 {
    } else {
      assert a + b > 0.0;
    }
  }

  /** The square root of c*c*x is c times the square root of x, for c >= 0. */
  lemma SqrtScaled(sqrt: real -> real, x: real, c: real)
    requires IsSqrt(sqrt) && x >= 0.0 && c >= 0.0
    ensures sqrt((c * c) * x) == c * sqrt(x)
  {
    var y := (c * c) * x;
    assert y >= 0.0;
    assert SqrtAt(sqrt, y) && SqrtAt(sqrt, x);
    var a, b := sqrt(y), c * sqrt(x);
    assert a >= 0.0 && a * a == y;
    assert sqrt(x) >= 0.0 && sqrt(x) * sqrt(x) == x;
    assert b * b == (c * c) * (sqrt(x) * sqrt(x));
    SquareInjective(a, b);
  }
}
