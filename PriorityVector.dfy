/** `calculate_priority_vector`: the eigenvector of the pairwise matrix for
    its largest eigenvalue, made non-negative and scaled to sum to one.
    The eigen-solver itself is outside the model; its answer enters as an
    `Eigen` value. */
module PriorityVector {
  import opened RealSeqs
  import opened Pairwise

  /** `numpy.argmax`: the first index holding the largest value. */
  function ArgMax(s: seq<real>): (k: nat)
    requires |s| > 0
    ensures k < |s|
    ensures forall j :: 0 <= j < |s| ==> s[j] <= s[k]
    ensures forall j :: 0 <= j < k ==> s[j] < s[k]
  {
    if |s| == 1 then 0
    else
      var k := ArgMax(s[..|s| - 1]);
      if s[|s| - 1] > s[k] then |s| - 1 else k
  }

  /** Only the first index of the maximum satisfies ArgMax's contract. */
  lemma {:induction false} ArgMaxUnique(s: seq<real>, k: nat)
    requires k < |s|
    requires forall j :: 0 <= j < |s| ==> s[j] <= s[k]
    requires forall j :: 0 <= j < k ==> s[j] < s[k]
    ensures ArgMax(s) == k
  {
    var a := ArgMax(s);
    assert s[k] <= s[a] && s[a] <= s[k];
  }

  /** Scaling by a positive constant does not move the maximum. */
  lemma {:induction false} ArgMaxScale(c: real, s: seq<real>)
    requires c > 0.0 && |s| > 0
    ensures ArgMax(Scale(c, s)) == ArgMax(s)
  {
    var a, cs := ArgMax(s), Scale(c, s);
    forall j | 0 <= j < |s| ensures cs[j] <= cs[a] && (j < a ==> cs[j] < cs[a]) {
      assert cs[j] == c * s[j] && cs[a] == c * s[a];
      assert s[j] <= s[a] && (j < a ==> s[j] < s[a]);
      ScaledOrder(c, s[j], s[a]);
    }
    ArgMaxUnique(cs, a);
  }

  lemma {:induction false} ScaledOrder(c: real, x: real, y: real)
    requires c > 0.0
    ensures x <= y ==> c * x <= c * y
    ensures x < y ==> c * x < c * y
  {
    assert c * y - c * x == c * (y - x);
  }

  /** `v /= v.sum()` on a non-negative vector: each entry's share of the total. */
  function Shares(a: seq<real>): (pv: seq<real>)
    requires NonNegative(a) && Sum(a) != 0.0
    ensures |pv| == |a|
    ensures NonNegative(pv)
    ensures Sum(pv) == 1.0
  {
    var total := Sum(a);
    SharesAreScaled(a, total);
    seq(|a|, i requires 0 <= i < |a| => a[i] / total)
  }

  lemma {:induction false} SharesAreScaled(a: seq<real>, total: real)
    requires NonNegative(a) && total == Sum(a) && total != 0.0
    ensures var pv := seq(|a|, i requires 0 <= i < |a| => a[i] / total);
      pv == Scale(1.0 / total, a) && NonNegative(pv) && Sum(pv) == 1.0
  {
    var pv := seq(|a|, i requires 0 <= i < |a| => a[i] / total);
    var scaled := Scale(1.0 / total, a);
    SumNonNegative(a);
    forall i | 0 <= i < |a| ensures pv[i] == scaled[i] && pv[i] >= 0.0 {
      ShareIsScaled(a[i], total);
    }
    assert pv == scaled;
    ScaledToUnit(a, total);
  }

  /** One share is the entry times the reciprocal of the total, and not negative. */
  lemma {:induction false} ShareIsScaled(x: real, total: real)
    requires x >= 0.0 && total > 0.0
    ensures x / total == x * (1.0 / total) && x / total >= 0.0
  {
    DivAsProduct(x, total);
    DivLowerBound(x, total, 0.0);
  }

  /** Dividing every entry by the total makes the entries sum to one. */
  lemma {:induction false} ScaledToUnit(a: seq<real>, total: real)
    requires total == Sum(a) && total != 0.0
    ensures Sum(Scale(1.0 / total, a)) == 1.0
  {
    SumScale(1.0 / total, a);
    DivAsProduct(total, total);
    DivUnique(total, total, 1.0);
  }

  lemma {:induction false} ShareScale(k: real, x: real, total: real, x': real, total': real)
    requires k != 0.0 && total != 0.0 && x' == k * x && total' == k * total
    ensures x' / total' == x / total
  {
    DivCancel(k, x, total);
  }

  /** Scaling a non-negative vector by a positive constant keeps its shares. */
  lemma {:induction false} SharesScale(k: real, a: seq<real>)
    requires k > 0.0 && NonNegative(a) && Sum(a) != 0.0
    ensures NonNegative(Scale(k, a)) && Sum(Scale(k, a)) != 0.0
    ensures Shares(Scale(k, a)) == Shares(a)
  {
    var ka := Scale(k, a);
    forall i | 0 <= i < |a| ensures ka[i] >= 0.0 {
      MulMonotone(k, 0.0, a[i]);
    }
    SumScale(k, a);
    MulNonZero(k, Sum(a));
    var lhs, rhs := Shares(ka), Shares(a);
    forall i | 0 <= i < |a| ensures lhs[i] == rhs[i] {
      SharesScaleAt(k, a, i);
    }
    assert |lhs| == |rhs|;
  }

  /** SharesScale for one entry. */
  lemma {:induction false} SharesScaleAt(k: real, a: seq<real>, i: nat)
    requires k > 0.0 && NonNegative(a) && Sum(a) != 0.0 && i < |a|
    requires NonNegative(Scale(k, a)) && Sum(Scale(k, a)) != 0.0
    ensures Shares(Scale(k, a))[i] == Shares(a)[i]
  {
    var x, total, x', total' := a[i], Sum(a), Scale(k, a)[i], Sum(Scale(k, a));
    SumScale(k, a);
    assert x' == k * x && total' == k * total;
    ShareScale(k, x, total, x', total');
  }

  /** `np.abs(v)` followed by `v /= v.sum()`. */
  function Normalized(v: seq<real>): (pv: seq<real>)
    requires Sum(AbsAll(v)) != 0.0
    ensures |pv| == |v|
    ensures NonNegative(pv)
    ensures Sum(pv) == 1.0
  {
    Shares(AbsAll(v))
  }

  lemma {:induction false} AbsScale(c: real, v: seq<real>)
    ensures AbsAll(Scale(c, v)) == Scale(Abs(c), AbsAll(v))
  {
    var lhs, rhs := AbsAll(Scale(c, v)), Scale(Abs(c), AbsAll(v));
    forall i | 0 <= i < |v| ensures lhs[i] == rhs[i] {
      assert Scale(c, v)[i] == c * v[i];
      AbsMul(c, v[i]);
    }
    assert |lhs| == |rhs|;
  }

  /** The normalisation forgets sign and scale: a non-zero multiple of a
      vector normalises to the same priority vector. */
  lemma {:induction false} NormalizedScale(c: real, v: seq<real>)
    requires c != 0.0 && Sum(AbsAll(v)) != 0.0
    ensures Sum(AbsAll(Scale(c, v))) != 0.0
    ensures Normalized(Scale(c, v)) == Normalized(v)
  {
    AbsScale(c, v);
    SharesScale(Abs(c), AbsAll(v));
  }

  /** For positive entries the normalisation is each entry's share of the sum. */
  lemma {:induction false} NormalizedPositive(s: seq<real>)
    requires |s| > 0 && forall i :: 0 <= i < |s| ==> s[i] > 0.0
    ensures Sum(AbsAll(s)) != 0.0 && Sum(s) > 0.0
    ensures forall i :: 0 <= i < |s| ==> Normalized(s)[i] == s[i] / Sum(s)
    ensures Normalized(s) == Scale(1.0 / Sum(s), s)
  {
    assert AbsAll(s) == s;
    AbsSumPositive(s, 0);
    SharesAreScaled(s, Sum(s));
  }

  /** Equal entries give every item the weight 1/n. */
  lemma {:induction false} NormalizedEqual(s: seq<real>, x: real)
    requires |s| > 0 && x != 0.0 && forall i :: 0 <= i < |s| ==> s[i] == x
    ensures Sum(AbsAll(s)) != 0.0
    ensures forall i :: 0 <= i < |s| ==> Normalized(s)[i] == 1.0 / |s| as real
  {
    var a := AbsAll(s);
    AbsSumPositive(s, 0);
    assert forall i :: 0 <= i < |a| ==> a[i] == Abs(x);
    EqualShares(a, Abs(x));
    assert Normalized(s) == Shares(a);
  }

  /** Equal positive entries get equal shares of `1/n`. */
  lemma {:induction false} EqualShares(a: seq<real>, y: real)
    requires |a| > 0 && y > 0.0 && forall i :: 0 <= i < |a| ==> a[i] == y
    ensures NonNegative(a) && Sum(a) != 0.0
    ensures forall i :: 0 <= i < |a| ==> Shares(a)[i] == 1.0 / |a| as real
  {
    var n, total := |a| as real, Sum(a);
    SumConstant(a, y);
    MulNonZero(n, y);
    EqualShare(y, n);
    assert y / total == 1.0 / n;
    var pv := Shares(a);
    forall i | 0 <= i < |a| ensures pv[i] == 1.0 / n {
      assert pv[i] == a[i] / total;
    }
  }

  /** One of `n` equal parts of a non-zero whole is `1/n` of it. */
  lemma {:induction false} EqualShare(y: real, n: real)
    requires y != 0.0 && n != 0.0
    ensures y / (n * y) == 1.0 / n
  {
    DivCancel(y, 1.0, n);
    assert y * 1.0 == y && y * n == n * y;
  }

  /** The result of `np.linalg.eig(matrix)`: eigenvalues, and the eigenvectors
      as the columns of `vectors` (`vectors[:, k]` belongs to `values[k]`). */
  datatype Eigen = Eigen(values: seq<real>, vectors: seq<seq<real>>)

  /** Column k of a matrix given as a list of rows. */
  function Column(rows: seq<seq<real>>, k: nat): (c: seq<real>)
    requires forall i :: 0 <= i < |rows| ==> k < |rows[i]|
    ensures |c| == |rows| && forall i :: 0 <= i < |rows| ==> c[i] == rows[i][k]
  {
    seq(|rows|, i requires 0 <= i < |rows| => rows[i][k])
  }

  /** The shape an n-by-n eigen-decomposition has, and a non-zero vector for
      the largest eigenvalue (numpy returns unit vectors). */
  predicate Fits(e: Eigen, n: nat)
  {
    && n > 0 && |e.values| == n && |e.vectors| == n
    && (forall i :: 0 <= i < n ==> |e.vectors[i]| == n)
    && Sum(AbsAll(Column(e.vectors, ArgMax(e.values)))) != 0.0
  }

  /** What `calculate_priority_vector` returns for the decomposition `e`. */
  function PriorityVectorOf(e: Eigen): (pv: seq<real>)
    requires Fits(e, |e.values|)
    ensures |pv| == |e.values| && NonNegative(pv) && Sum(pv) == 1.0
  {
    Normalized(Column(e.vectors, ArgMax(e.values)))
  }

  /** `calculate_priority_vector`, after the eigen-solver: pick the
      eigenvector of the largest eigenvalue, take absolute values into a
      new array and divide it by its sum in place. */
  method CalculatePriorityVector(eigvals: seq<real>, eigvecs: seq<seq<real>>) returns (priorityVector: array<real>)
    requires Fits(Eigen(eigvals, eigvecs), |eigvals|)
    ensures fresh(priorityVector)
    ensures priorityVector[..] == PriorityVectorOf(Eigen(eigvals, eigvecs))
  {
    var maxIndex := ArgMax(eigvals);
    var column := Column(eigvecs, maxIndex);
    priorityVector := new real[|column|](i requires 0 <= i < |column| => Abs(column[i]));
    assert priorityVector[..] == AbsAll(column);
    var total := Sum(priorityVector[..]);
    var i := 0;
    while i < priorityVector.Length
      invariant 0 <= i <= priorityVector.Length
      invariant forall j :: 0 <= j < i ==> priorityVector[j] == Abs(column[j]) / total
      invariant forall j :: i <= j < priorityVector.Length ==> priorityVector[j] == Abs(column[j])
    {
      priorityVector[i] := priorityVector[i] / total;
      i := i + 1;
    }
  }

  /** The eigen-decomposition of an n-by-n matrix, as a correct solver
      returns it: every column is a non-zero eigenvector for its eigenvalue,
      and not every eigenvalue is zero (a full eigenbasis of a non-zero
      matrix has a non-zero eigenvalue). */
  predicate IsEigenDecomposition(m: seq<seq<real>>, e: Eigen)
    requires IsSquare(m)
  {
    && |e.values| == |m| && |e.vectors| == |m|
    && (forall i :: 0 <= i < |m| ==> |e.vectors[i]| == |m|)
    && (forall k :: 0 <= k < |m| ==>
          Sum(AbsAll(Column(e.vectors, k))) != 0.0
          && MatVec(m, Column(e.vectors, k)) == Scale(e.values[k], Column(e.vectors, k)))
    && (exists k :: 0 <= k < |m| && e.values[k] != 0.0)
  }

  lemma {:induction false} NonZeroEntry(v: seq<real>) returns (j: nat)
    requires Sum(AbsAll(v)) != 0.0
    ensures j < |v| && v[j] != 0.0
  {
    assert v != [];
    assert AbsAll(v)[1..] == AbsAll(v[1..]);
    if v[0] != 0.0 {
      j := 0;
    } else {
      var j' := NonZeroEntry(v[1..]);
      j := j' + 1;
    }
  }

  /** Whatever correct decomposition the solver returns for the slider
      matrix, the priority vector is the normalised slider vector: the
      largest eigenvalue is n and its eigenvectors are multiples of s. */
  lemma {:induction false} SliderPriorityVector(s: seq<real>, e: Eigen)
    requires |s| > 0 && NonZero(s)
    requires IsEigenDecomposition(PairwiseMatrix(s), e)
    ensures Fits(e, |s|) && Sum(AbsAll(s)) != 0.0
    ensures e.values[ArgMax(e.values)] == |s| as real
    ensures PriorityVectorOf(e) == Normalized(s)
  {
    var n := |s| as real;
    var m := PairwiseMatrix(s);
    AbsSumPositive(s, 0);
    forall k | 0 <= k < |s| ensures e.values[k] == 0.0 || e.values[k] == n {
      var col := Column(e.vectors, k);
      var j := NonZeroEntry(col);
      Eigenpairs(s, e.values[k], col, j);
    }
    var k0 :| 0 <= k0 < |s| && e.values[k0] != 0.0;
    var a := ArgMax(e.values);
    assert e.values[a] >= e.values[k0] == n > 0.0;
    var col := Column(e.vectors, a);
    var j := NonZeroEntry(col);
    Eigenpairs(s, e.values[a], col, j);
    var c := Dot(Reciprocals(s), col) / e.values[a];
    DivNonZero(Dot(Reciprocals(s), col), e.values[a]);
    NormalizedScale(c, s);
  }
}
