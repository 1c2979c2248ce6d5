/** Arithmetic over sequences of reals: the numpy sums, dot products,
    element-wise absolute values and scalings the risk kernels rely on. */
module RealSeqs {

  function Abs(x: real): (r: real)
    ensures r >= 0.0 && (r == x || r == -x)
  {
    if x < 0.0 then -x else x
  }

  /** `numpy.sum` of a one-dimensional array. */
  function Sum(s: seq<real>): real
  {
    if s == [] then 0.0 else s[0] + Sum(s[1..])
  }

  /** `numpy.dot` of two one-dimensional arrays of equal length. */
  function Dot(a: seq<real>, b: seq<real>): real
    requires |a| == |b|
  {
    if a == [] then 0.0 else a[0] * b[0] + Dot(a[1..], b[1..])
  }

  /** Multiplies every element by `c`. */
  function Scale(c: real, s: seq<real>): (r: seq<real>)
    ensures |r| == |s|
    ensures forall i :: 0 <= i < |s| ==> r[i] == c * s[i]
  {
    seq(|s|, i requires 0 <= i < |s| => c * s[i])
  }

  /** `numpy.abs` of a one-dimensional array. */
  function AbsAll(s: seq<real>): (r: seq<real>)
    ensures |r| == |s|
    ensures forall i :: 0 <= i < |s| ==> r[i] == Abs(s[i])
  {
    seq(|s|, i requires 0 <= i < |s| => Abs(s[i]))
  }

  /** An integer column read as floats, as numpy does when it mixes the two. */
  function Reals(s: seq<int>): (r: seq<real>)
    ensures |r| == |s|
    ensures forall i :: 0 <= i < |s| ==> r[i] == s[i] as real
  {
    seq(|s|, i requires 0 <= i < |s| => s[i] as real)
  }

  predicate NonNegative(s: seq<real>)
  {
    forall i :: 0 <= i < |s| ==> s[i] >= 0.0
  }

  lemma {:induction false} ScaleTail(c: real, s: seq<real>)
    requires s != []
    ensures Scale(c, s)[1..] == Scale(c, s[1..])
  {
    forall i | 0 <= i < |s| - 1
      ensures Scale(c, s)[1..][i] == Scale(c, s[1..])[i]
    {
      assert Scale(c, s)[1..][i] == Scale(c, s)[i + 1];
    }
  }

  lemma {:induction false} SumScale(c: real, s: seq<real>)
    ensures Sum(Scale(c, s)) == c * Sum(s)
  {
    if s != [] {
      ScaleTail(c, s);
      SumScale(c, s[1..]);
    }
  }

  lemma {:induction false} SumNonNegative(s: seq<real>)
    requires NonNegative(s)
    ensures Sum(s) >= 0.0
  {
    if s != [] {
      SumNonNegative(s[1..]);
    }
  }

  /** A non-negative entry never exceeds the total. */
  lemma {:induction false} EntryAtMostSum(s: seq<real>, i: nat)
    requires NonNegative(s) && i < |s|
    ensures s[i] <= Sum(s)
  {
    SumNonNegative(s[1..]);
    if i > 0 {
      EntryAtMostSum(s[1..], i - 1);
    }
  }

  /** The sum of absolute values is zero only for the zero vector. */
  lemma {:induction false} AbsSumPositive(s: seq<real>, k: nat)
    requires k < |s| && s[k] != 0.0
    ensures Sum(AbsAll(s)) > 0.0
  {
    assert AbsAll(s)[1..] == AbsAll(s[1..]);
    SumNonNegative(AbsAll(s[1..]));
    if k > 0 {
      AbsSumPositive(s[1..], k - 1);
    }
  }

  lemma {:induction false} DotScaleLeft(c: real, a: seq<real>, b: seq<real>)
    requires |a| == |b|
    ensures Dot(Scale(c, a), b) == c * Dot(a, b)
  {
    if a != [] {
      ScaleTail(c, a);
      DotScaleLeft(c, a[1..], b[1..]);
    }
  }

  lemma {:induction false} DotScaleRight(c: real, a: seq<real>, b: seq<real>)
    requires |a| == |b|
    ensures Dot(a, Scale(c, b)) == c * Dot(a, b)
  {
    if a != [] {
      ScaleTail(c, b);
      DotScaleRight(c, a[1..], b[1..]);
    }
  }

  lemma {:induction false} MulMonotone(w: real, x: real, y: real)
    requires w >= 0.0 && x <= y
    ensures w * x <= w * y
  {
    assert w * y - w * x == w * (y - x);
  }

  /** With non-negative weights, raising values never lowers the weighted sum. */
  lemma {:induction false} DotMonotone(a: seq<real>, b: seq<real>, b': seq<real>)
    requires |a| == |b| == |b'| && NonNegative(a)
    requires forall i :: 0 <= i < |b| ==> b[i] <= b'[i]
    ensures Dot(a, b) <= Dot(a, b')
  {
    if a != [] {
      DotMonotone(a[1..], b[1..], b'[1..]);
      MulMonotone(a[0], b[0], b'[0]);
    }
  }

  /** Weighting a constant value gives that value times the total weight. */
  lemma {:induction false} DotConstant(a: seq<real>, b: seq<real>, x: real)
    requires |a| == |b|
    requires forall i :: 0 <= i < |b| ==> b[i] == x
    ensures Dot(a, b) == x * Sum(a)
  {
    if a != [] {
      DotConstant(a[1..], b[1..], x);
    }
  }

  /** With non-negative weights `a`, the weighted sum of values in `[lo, hi]`
      lies between `lo` and `hi` times the total weight. */
  lemma {:induction false} DotBounds(a: seq<real>, b: seq<real>, lo: real, hi: real)
    requires |a| == |b| && NonNegative(a)
    requires forall i :: 0 <= i < |b| ==> lo <= b[i] <= hi
    ensures lo * Sum(a) <= Dot(a, b) <= hi * Sum(a)
  {
    var low := seq(|b|, i requires 0 <= i < |b| => lo);
    var high := seq(|b|, i requires 0 <= i < |b| => hi);
    DotConstant(a, low, lo);
    DotConstant(a, high, hi);
    DotMonotone(a, low, b);
    DotMonotone(a, b, high);
  }

  /** A sum of `n` equal terms. */
  lemma {:induction false} SumConstant(s: seq<real>, x: real)
    requires forall i :: 0 <= i < |s| ==> s[i] == x
    ensures Sum(s) == |s| as real * x
  {
    if s != [] {
      SumConstant(s[1..], x);
    }
  }

  // Facts about real division, kept apart so that the solver meets them one at a time.

  lemma {:induction false} DivUnique(a: real, b: real, q: real)
    requires b != 0.0 && q * b == a
    ensures a / b == q
  {
  }

  lemma {:induction false} DivCancel(c: real, x: real, y: real)
    requires c != 0.0 && y != 0.0
    ensures (c * x) / (c * y) == x / y
  {
    var q := x / y;
    assert q * y == x;
    assert q * (c * y) == c * x;
    DivUnique(c * x, c * y, q);
  }

  lemma {:induction false} DivAsProduct(x: real, y: real)
    requires y != 0.0
    ensures x / y == x * (1.0 / y)
  {
    var r := 1.0 / y;
    assert r * y == 1.0;
    assert (x * r) * y == x * (r * y);
    DivUnique(x, y, x * r);
  }

  lemma {:induction false} Ratios(x: real, y: real)
    requires x != 0.0 && y != 0.0
    ensures x / x == 1.0 && (x / y) * (y / x) == 1.0
  {
    var q, p := x / y, y / x;
    assert q * y == x && p * x == y;
    assert (q * p) * (x * y) == (q * y) * (p * x);
    MulNonZero(x, y);
    DivUnique(x * y, x * y, q * p);
    DivUnique(x, x, 1.0);
  }

  lemma {:induction false} MulNonZero(a: real, b: real)
    requires a != 0.0 && b != 0.0
    ensures a * b != 0.0
  {
  }

  /** A ratio of positives is at least `a` when its numerator is at least
      `a` times its denominator. */
  lemma {:induction false} DivLowerBound(x: real, y: real, a: real)
    requires y > 0.0 && a * y <= x
    ensures a <= x / y
  {
    var q := x / y;
    assert q * y == x;
    assert (q - a) * y == x - a * y;
  }

  lemma {:induction false} DivUpperBound(x: real, y: real, a: real)
    requires y > 0.0 && x <= a * y
    ensures x / y <= a
  {
    var q := x / y;
    assert q * y == x;
    assert (a - q) * y == a * y - x;
  }

  lemma {:induction false} MulStrictMonotone(w: real, x: real, y: real)
    requires w > 0.0 && x < y
    ensures w * x < w * y
  {
    assert w * y - w * x == w * (y - x);
  }

  lemma {:induction false} AbsMul(c: real, x: real)
    ensures Abs(c * x) == Abs(c) * Abs(x)
  {
  }

  lemma {:induction false} DivNonZero(a: real, b: real)
    requires a != 0.0 && b != 0.0
    ensures a / b != 0.0
  {
    var q := a / b;
    assert q * b == a;
  }
}
