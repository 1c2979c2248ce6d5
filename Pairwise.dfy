/** The pairwise comparison matrix built from one risk driver's slider
    values: entry (i, j) is the importance of sub-driver i relative to j. */
module Pairwise {
  import opened RealSeqs

  /** The slider id of a sub-driver: `f"{risk_driver}-{sub_driver}"`. */
  function SliderKey(driver: string, sub: string): string
  {
    driver + "-" + sub
  }

  /** The slider values of a group's sub-drivers, in row order: the value
      stored under the sub-driver's slider id, or 1 when there is none. */
  function Sliders(values: map<string, real>, driver: string, subs: seq<string>): (s: seq<real>)
    ensures |s| == |subs|
    ensures forall i :: 0 <= i < |subs| && SliderKey(driver, subs[i]) !in values ==> s[i] == 1.0
    ensures forall i :: 0 <= i < |subs| && SliderKey(driver, subs[i]) in values ==> s[i] == values[SliderKey(driver, subs[i])]
    ensures (forall k :: k in values ==> values[k] > 0.0) ==> forall i :: 0 <= i < |s| ==> s[i] > 0.0
  {
    seq(|subs|, i requires 0 <= i < |subs| =>
      var key := SliderKey(driver, subs[i]);
      if key in values then values[key] else 1.0)
  }

  /** A value a slider can take: a whole number from 1 to 9. */
  predicate SliderValue(x: real)
  {
    x == x.Floor as real && 1.0 <= x <= 9.0
  }

  predicate NonZero(s: seq<real>)
  {
    forall i :: 0 <= i < |s| ==> s[i] != 0.0
  }

  predicate IsSquare(m: seq<seq<real>>)
  {
    forall i :: 0 <= i < |m| ==> |m[i]| == |m|
  }

  /** `[[sliders[i]/sliders[j] for j in ...] for i in ...]`. */
  function PairwiseMatrix(s: seq<real>): (m: seq<seq<real>>)
    requires NonZero(s)
    ensures |m| == |s| && IsSquare(m)
  {
    seq(|s|, i requires 0 <= i < |s| => seq(|s|, j requires 0 <= j < |s| => s[i] / s[j]))
  }

  /** Matrix times vector. */
  function MatVec(m: seq<seq<real>>, v: seq<real>): (r: seq<real>)
    requires forall i :: 0 <= i < |m| ==> |m[i]| == |v|
    ensures |r| == |m|
  {
    seq(|m|, i requires 0 <= i < |m| => Dot(m[i], v))
  }

  /** The diagonal is 1 and opposite entries are reciprocal. */
  lemma {:induction false} UnitDiagonalReciprocal(s: seq<real>)
    requires NonZero(s)
    ensures forall i :: 0 <= i < |s| ==> PairwiseMatrix(s)[i][i] == 1.0
    ensures forall i, j :: 0 <= i < |s| && 0 <= j < |s| ==> PairwiseMatrix(s)[i][j] * PairwiseMatrix(s)[j][i] == 1.0
  {
    var m := PairwiseMatrix(s);
    forall i, j | 0 <= i < |s| && 0 <= j < |s| ensures m[i][i] == 1.0 && m[i][j] * m[j][i] == 1.0 {
      assert m[i][i] == s[i] / s[i];
      assert m[i][j] == s[i] / s[j] && m[j][i] == s[j] / s[i];
      Ratios(s[i], s[j]);
    }
  }

  /** Slider values keep every entry positive and between 1/9 and 9. */
  lemma {:induction false} SliderMatrixBounded(s: seq<real>)
    requires forall i :: 0 <= i < |s| ==> SliderValue(s[i])
    ensures NonZero(s)
    ensures forall i, j :: 0 <= i < |s| && 0 <= j < |s| ==> 1.0 / 9.0 <= PairwiseMatrix(s)[i][j] <= 9.0
  {
    var m := PairwiseMatrix(s);
    forall i, j | 0 <= i < |s| && 0 <= j < |s| ensures 1.0 / 9.0 <= m[i][j] <= 9.0 {
      var x, y := s[i], s[j];
      assert m[i][j] == x / y;
      assert 1.0 <= x <= 9.0 && 1.0 <= y <= 9.0;
      DivUpperBound(x, y, 9.0);
      DivLowerBound(x, y, 1.0 / 9.0);
    }
  }

  /** Multiplying every slider of a group by the same non-zero constant
      leaves the matrix unchanged. */
  lemma {:induction false} ScaleInvariant(c: real, s: seq<real>)
    requires c != 0.0 && NonZero(s)
    ensures NonZero(Scale(c, s))
    ensures PairwiseMatrix(Scale(c, s)) == PairwiseMatrix(s)
  {
    var cs := Scale(c, s);
    var m, m' := PairwiseMatrix(cs), PairwiseMatrix(s);
    forall i | 0 <= i < |s| ensures m[i] == m'[i] {
      forall j | 0 <= j < |s| ensures m[i][j] == m'[i][j] {
        assert cs[i] == c * s[i] && cs[j] == c * s[j];
        assert m[i][j] == cs[i] / cs[j];
        assert m'[i][j] == s[i] / s[j];
        DivCancel(c, s[i], s[j]);
      }
      assert |m[i]| == |m'[i]|;
    }
  }

  /** The reciprocals of the sliders. */
  function Reciprocals(s: seq<real>): (r: seq<real>)
    requires NonZero(s)
    ensures |r| == |s|
  {
    seq(|s|, j requires 0 <= j < |s| => 1.0 / s[j])
  }

  lemma {:induction false} DotReciprocals(s: seq<real>)
    requires NonZero(s)
    ensures Dot(Reciprocals(s), s) == |s| as real
  {
    if s != [] {
      assert Reciprocals(s)[1..] == Reciprocals(s[1..]);
      DotReciprocals(s[1..]);
    }
  }

  /** Row i is s[i] times the reciprocals of the sliders. */
  lemma {:induction false} MatrixRow(s: seq<real>, i: nat)
    requires NonZero(s) && i < |s|
    ensures PairwiseMatrix(s)[i] == Scale(s[i], Reciprocals(s))
  {
    var row, w := PairwiseMatrix(s)[i], Reciprocals(s);
    var scaled := Scale(s[i], w);
    forall j | 0 <= j < |s| ensures row[j] == scaled[j] {
      assert row[j] == s[i] / s[j];
      assert w[j] == 1.0 / s[j];
      assert scaled[j] == s[i] * w[j];
      DivAsProduct(s[i], s[j]);
    }
    assert |row| == |scaled|;
  }

  /** The matrix has rank one: it maps any vector v to a multiple of the
      slider vector, namely (sum of v[j]/s[j]) times s. */
  lemma {:induction false} RankOne(s: seq<real>, v: seq<real>)
    requires NonZero(s) && |v| == |s|
    ensures MatVec(PairwiseMatrix(s), v) == Scale(Dot(Reciprocals(s), v), s)
  {
    var m, w := PairwiseMatrix(s), Reciprocals(s);
    var d := Dot(w, v);
    var lhs, rhs := MatVec(m, v), Scale(d, s);
    forall i | 0 <= i < |s| ensures lhs[i] == rhs[i] {
      RankOneRow(s, v, i);
    }
    assert |lhs| == |rhs|;
  }

  /** RankOne for one row. */
  lemma {:induction false} RankOneRow(s: seq<real>, v: seq<real>, i: nat)
    requires NonZero(s) && |v| == |s| && i < |s|
    ensures MatVec(PairwiseMatrix(s), v)[i] == Dot(Reciprocals(s), v) * s[i]
  {
    var m, w := PairwiseMatrix(s), Reciprocals(s);
    MatrixRow(s, i);
    DotScaleLeft(s[i], w, v);
    assert MatVec(m, v)[i] == Dot(m[i], v) == s[i] * Dot(w, v);
  }

  /** The slider vector is an eigenvector with eigenvalue n: M s = n s. */
  lemma {:induction false} SlidersAreEigenvector(s: seq<real>)
    requires NonZero(s)
    ensures MatVec(PairwiseMatrix(s), s) == Scale(|s| as real, s)
  {
    RankOne(s, s);
    DotReciprocals(s);
  }

  /** Every eigenpair (lambda, v) with v non-zero has lambda = 0 or lambda = n,
      and when lambda is not zero, v is a non-zero multiple of the sliders. */
  lemma {:induction false} Eigenpairs(s: seq<real>, lambda: real, v: seq<real>, k: nat)
    requires NonZero(s) && |v| == |s|
    requires k < |v| && v[k] != 0.0
    requires MatVec(PairwiseMatrix(s), v) == Scale(lambda, v)
    ensures lambda == 0.0 || lambda == |s| as real
    ensures lambda != 0.0 ==> Dot(Reciprocals(s), v) != 0.0 && v == Scale(Dot(Reciprocals(s), v) / lambda, s)
  {
    var t := Dot(Reciprocals(s), v);
    assert forall i :: 0 <= i < |s| ==> lambda * v[i] == t * s[i] by {
      forall i | 0 <= i < |s| ensures lambda * v[i] == t * s[i] {
        RankOneRow(s, v, i);
        assert MatVec(PairwiseMatrix(s), v)[i] == Scale(lambda, v)[i];
      }
    }
    if lambda != 0.0 {
      EigenvectorIsMultiple(s, lambda, t, v, k);
      EigenvalueIsN(s, lambda, t);
    }
  }

  lemma {:induction false} EigenvectorIsMultiple(s: seq<real>, lambda: real, t: real, v: seq<real>, k: nat)
    requires lambda != 0.0 && |v| == |s| && k < |v| && v[k] != 0.0
    requires forall i :: 0 <= i < |s| ==> lambda * v[i] == t * s[i]
    ensures t != 0.0 && v == Scale(t / lambda, s)
  {
    var c := t / lambda;
    var sc := Scale(c, s);
    forall i | 0 <= i < |s| ensures v[i] == sc[i] {
      assert sc[i] == c * s[i];
      assert c * lambda == t;
      assert (c * s[i]) * lambda == t * s[i];
      DivUnique(t * s[i], lambda, v[i]);
      DivUnique(t * s[i], lambda, c * s[i]);
    }
    assert |v| == |sc|;
    MulNonZero(lambda, v[k]);
  }

  lemma {:induction false} EigenvalueIsN(s: seq<real>, lambda: real, t: real)
    requires NonZero(s) && lambda != 0.0 && t != 0.0
    requires |s| == |Reciprocals(s)|
    requires Dot(Reciprocals(s), Scale(t / lambda, s)) == t
    ensures lambda == |s| as real
  {
    var c := t / lambda;
    DotScaleRight(c, Reciprocals(s), s);
    DotReciprocals(s);
    assert t == c * |s| as real;
    assert c * lambda == t;
    assert c != 0.0;
    assert c * lambda == c * |s| as real;
  }
}
