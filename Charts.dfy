/** `create_charts` and the summary cards of `render_graphics`: for every
    risk driver, the slider values of its sub-drivers become a pairwise
    matrix, the matrix a priority vector, and the priority vector the data of
    a bar chart and a pie chart. The figures themselves are outside the
    model; a `Chart` holds the data both of them plot. */
module Charts {
  import opened RealSeqs
  import opened Grouping
  import opened Pairwise
  import opened PriorityVector

  /** The sub-drivers of one risk driver (the chart labels) and the priority
      vector over them (the bar heights and the pie slice sizes). */
  datatype Chart = Chart(subDrivers: seq<string>, pv: seq<real>)

  /** The card `render_graphics` shows for a driver: the sub-driver with the
      largest priority-vector entry, and that entry. */
  datatype Summary = Summary(driver: string, subDriver: string, pv: real)

  /** The value a slider starts at before the user moves it. */
  const SliderDefault := 5.0

  /** Every slider value on hand is positive, so every ratio is defined. */
  predicate PositiveSliders(values: map<string, real>)
  {
    forall k :: k in values ==> values[k] > 0.0
  }

  /** The eigen-solver returns a decomposition of the right shape, with a
      non-zero eigenvector for its largest eigenvalue, for every square matrix. */
  ghost predicate SolverFits(eig: seq<seq<real>> -> Eigen)
  {
    forall m {:trigger eig(m)} :: 0 < |m| && IsSquare(m) ==> Fits(eig(m), |m|)
  }

  /** The solver answers exactly on the pairwise matrix of the sliders `s`. */
  ghost predicate ExactOn(eig: seq<seq<real>> -> Eigen, s: seq<real>)
  {
    NonZero(s) && IsEigenDecomposition(PairwiseMatrix(s), eig(PairwiseMatrix(s)))
  }

  /** The slider values of driver `d`'s sub-drivers, in row order. */
  function GroupSliders(drivers: seq<string>, subs: seq<string>, values: map<string, real>, d: string): (s: seq<real>)
    requires |drivers| == |subs|
    ensures |s| == Count(drivers, d)
  {
    Sliders(values, d, GroupColumn(drivers, subs, d))
  }

  /** The priority vector `create_charts` computes for driver `d`: one
      non-negative entry per row of the group, summing to one. */
  function GroupPriorityVector(drivers: seq<string>, subs: seq<string>, values: map<string, real>,
                               eig: seq<seq<real>> -> Eigen, d: string): (pv: seq<real>)
    requires |drivers| == |subs| && d in drivers
    requires PositiveSliders(values) && SolverFits(eig)
    ensures |pv| == Count(drivers, d)
    ensures NonNegative(pv) && Sum(pv) == 1.0
  {
    var s := GroupSliders(drivers, subs, values, d);
    PriorityVectorOf(eig(PairwiseMatrix(s)))
  }

  /** The chart data of driver `d`. */
  function ChartOf(drivers: seq<string>, subs: seq<string>, values: map<string, real>,
                   eig: seq<seq<real>> -> Eigen, d: string): (c: Chart)
    requires |drivers| == |subs| && d in drivers
    requires PositiveSliders(values) && SolverFits(eig)
    ensures |c.subDrivers| == |c.pv| == Count(drivers, d) > 0
    ensures forall x :: x in c.subDrivers ==> x in subs
  {
    Chart(GroupColumn(drivers, subs, d), GroupPriorityVector(drivers, subs, values, eig, d))
  }

  /** Every bar fits the chart's fixed y-axis range [0, 1]. */
  lemma {:induction false} BarsWithinAxis(drivers: seq<string>, subs: seq<string>, values: map<string, real>,
                                          eig: seq<seq<real>> -> Eigen, d: string)
    requires |drivers| == |subs| && d in drivers
    requires PositiveSliders(values) && SolverFits(eig)
    ensures forall i :: 0 <= i < Count(drivers, d) ==>
      0.0 <= ChartOf(drivers, subs, values, eig, d).pv[i] <= 1.0
  {
    var pv := ChartOf(drivers, subs, values, eig, d).pv;
    forall i | 0 <= i < |pv| ensures 0.0 <= pv[i] <= 1.0 {
      EntryAtMostSum(pv, i);
    }
  }

  /** The body of the group loop of `create_charts`: the sliders of the
      group (1 for a slider not given), their pairwise matrix, and the
      priority vector of the solver's decomposition of it. */
  method GroupChart(drivers: seq<string>, subs: seq<string>, values: map<string, real>,
                    eig: seq<seq<real>> -> Eigen, riskDriver: string)
    returns (chart: Chart)
    requires |drivers| == |subs| && riskDriver in drivers
    requires PositiveSliders(values) && SolverFits(eig)
    ensures chart == ChartOf(drivers, subs, values, eig, riskDriver)
  {
    var subDrivers := GroupColumn(drivers, subs, riskDriver);
    var sliders := Sliders(values, riskDriver, subDrivers);
    var matrix := PairwiseMatrix(sliders);
    var e := eig(matrix);
    var pv := CalculatePriorityVector(e.values, e.vectors);
    chart := Chart(subDrivers, pv[..]);
  }

  /** `create_charts`: one chart per distinct risk driver, each built from
      that driver's rows and its sliders' values. */
  method CreateCharts(drivers: seq<string>, subs: seq<string>, values: map<string, real>,
                      eig: seq<seq<real>> -> Eigen)
    returns (charts: map<string, Chart>)
    requires |drivers| == |subs|
    requires PositiveSliders(values) && SolverFits(eig)
    ensures forall d :: d in charts <==> d in drivers
    ensures forall d :: d in charts ==> charts[d] == ChartOf(drivers, subs, values, eig, d)
  {
    var groups := Distinct(drivers);
    charts := map[];
    var g := 0;
    while g < |groups|
      invariant 0 <= g <= |groups|
      invariant forall d :: d in charts <==> d in groups[..g]
      invariant forall d :: d in charts ==> d in drivers && charts[d] == ChartOf(drivers, subs, values, eig, d)
    {
      var riskDriver := groups[g];
      var chart := GroupChart(drivers, subs, values, eig, riskDriver);
      charts := charts[riskDriver := chart];
      assert groups[..g + 1] == groups[..g] + [riskDriver];
      g := g + 1;
    }
    assert groups[..g] == groups;
  }

  /** The summary card of one chart: the label and value at `np.argmax` of
      the pie values, which is the first index of the largest entry. */
  function SummaryOf(d: string, c: Chart): (r: Summary)
    requires 0 < |c.pv| == |c.subDrivers|
    ensures r.driver == d
    ensures exists k :: 0 <= k < |c.pv| && r.subDriver == c.subDrivers[k] && r.pv == c.pv[k]
              && (forall j :: 0 <= j < |c.pv| ==> c.pv[j] <= c.pv[k])
              && (forall j :: 0 <= j < k ==> c.pv[j] < c.pv[k])
  {
    var maxValueIndex := ArgMax(c.pv);
    Summary(d, c.subDrivers[maxValueIndex], c.pv[maxValueIndex])
  }

  /** The card loop of `render_graphics`: one summary per listed driver, in order. */
  method SummaryCards(groups: seq<string>, charts: map<string, Chart>) returns (summaries: seq<Summary>)
    requires forall d :: d in groups ==> d in charts && 0 < |charts[d].pv| == |charts[d].subDrivers|
    ensures |summaries| == |groups|
    ensures forall g :: 0 <= g < |groups| ==> summaries[g] == SummaryOf(groups[g], charts[groups[g]])
  {
    summaries := [];
    var g := 0;
    while g < |groups|
      invariant 0 <= g <= |groups|
      invariant |summaries| == g
      invariant forall h :: 0 <= h < g ==> summaries[h] == SummaryOf(groups[h], charts[groups[h]])
    {
      var riskDriver := groups[g];
      summaries := summaries + [SummaryOf(riskDriver, charts[riskDriver])];
      g := g + 1;
    }
  }

  /** `render_graphics`: builds the charts, then makes the summary card of
      every driver in order of first appearance (`unique()`). */
  method RenderGraphics(drivers: seq<string>, subs: seq<string>, values: map<string, real>,
                        eig: seq<seq<real>> -> Eigen)
    returns (summaries: seq<Summary>)
    requires |drivers| == |subs|
    requires PositiveSliders(values) && SolverFits(eig)
    ensures |summaries| == |Distinct(drivers)|
    ensures forall g :: 0 <= g < |summaries| ==>
      summaries[g] == SummaryOf(Distinct(drivers)[g], ChartOf(drivers, subs, values, eig, Distinct(drivers)[g]))
  {
    var charts := CreateCharts(drivers, subs, values, eig);
    summaries := SummaryCards(Distinct(drivers), charts);
  }

  /** With an exact solver, a driver's priority vector is its slider vector
      normalised: each sub-driver gets its slider's share of the group total. */
  lemma {:induction false} ChartFollowsSliders(drivers: seq<string>, subs: seq<string>, values: map<string, real>,
                                               eig: seq<seq<real>> -> Eigen, d: string)
    requires |drivers| == |subs| && d in drivers
    requires PositiveSliders(values) && SolverFits(eig)
    requires ExactOn(eig, GroupSliders(drivers, subs, values, d))
    ensures var s := GroupSliders(drivers, subs, values, d);
      && Sum(s) > 0.0
      && GroupPriorityVector(drivers, subs, values, eig, d) == Scale(1.0 / Sum(s), s)
      && forall i :: 0 <= i < |s| ==> GroupPriorityVector(drivers, subs, values, eig, d)[i] == s[i] / Sum(s)
  {
    var s := GroupSliders(drivers, subs, values, d);
    SliderPriorityVector(s, eig(PairwiseMatrix(s)));
    NormalizedPositive(s);
  }

  lemma {:induction false} GroupSlidersPositive(drivers: seq<string>, subs: seq<string>, values: map<string, real>, d: string)
    requires |drivers| == |subs| && PositiveSliders(values)
    ensures forall i :: 0 <= i < Count(drivers, d) ==> GroupSliders(drivers, subs, values, d)[i] > 0.0
  {
  }

  /** When every slider of a group shows the same value, every sub-driver
      gets weight 1/n. */
  lemma {:induction false} EqualSlidersEqualWeights(drivers: seq<string>, subs: seq<string>, values: map<string, real>,
                                                    eig: seq<seq<real>> -> Eigen, d: string, x: real)
    requires |drivers| == |subs| && d in drivers
    requires PositiveSliders(values) && SolverFits(eig)
    requires ExactOn(eig, GroupSliders(drivers, subs, values, d))
    requires forall i :: 0 <= i < Count(drivers, d) ==> GroupSliders(drivers, subs, values, d)[i] == x
    ensures forall i :: 0 <= i < Count(drivers, d) ==>
      GroupPriorityVector(drivers, subs, values, eig, d)[i] == 1.0 / Count(drivers, d) as real
  {
    var s := GroupSliders(drivers, subs, values, d);
    GroupSlidersPositive(drivers, subs, values, d);
    assert s[0] == x && x > 0.0;
    SliderPriorityVector(s, eig(PairwiseMatrix(s)));
    NormalizedEqual(s, x);
  }

  /** A group whose sliders all still sit at the starting value 5 weighs its
      sub-drivers equally. */
  lemma {:induction false} DefaultSlidersEqualWeights(drivers: seq<string>, subs: seq<string>, values: map<string, real>,
                                                      eig: seq<seq<real>> -> Eigen, d: string)
    requires |drivers| == |subs| && d in drivers
    requires PositiveSliders(values) && SolverFits(eig)
    requires ExactOn(eig, GroupSliders(drivers, subs, values, d))
    requires forall x :: x in GroupColumn(drivers, subs, d) ==> SliderKey(d, x) in values && values[SliderKey(d, x)] == SliderDefault
    ensures forall i :: 0 <= i < Count(drivers, d) ==>
      GroupPriorityVector(drivers, subs, values, eig, d)[i] == 1.0 / Count(drivers, d) as real
  {
    var group := GroupColumn(drivers, subs, d);
    forall i | 0 <= i < Count(drivers, d) ensures GroupSliders(drivers, subs, values, d)[i] == SliderDefault {
      assert group[i] in group;
    }
    EqualSlidersEqualWeights(drivers, subs, values, eig, d, SliderDefault);
  }

  /** `update_weights_output` passes no slider values at all: every slider
      defaults to 1 and every sub-driver of a group gets weight 1/n. */
  lemma {:induction false} DashboardEqualWeights(drivers: seq<string>, subs: seq<string>,
                                                 eig: seq<seq<real>> -> Eigen, d: string)
    requires |drivers| == |subs| && d in drivers && SolverFits(eig)
    requires ExactOn(eig, GroupSliders(drivers, subs, map[], d))
    ensures forall i :: 0 <= i < Count(drivers, d) ==>
      GroupPriorityVector(drivers, subs, map[], eig, d)[i] == 1.0 / Count(drivers, d) as real
  {
    EqualSlidersEqualWeights(drivers, subs, map[], eig, d, 1.0);
  }

  /** With an exact solver, the sub-driver the summary card names is the one
      whose slider is highest (the first of them on a tie). */
  lemma {:induction false} MostImportantIsTopSlider(drivers: seq<string>, subs: seq<string>, values: map<string, real>,
                                                    eig: seq<seq<real>> -> Eigen, d: string)
    requires |drivers| == |subs| && d in drivers
    requires PositiveSliders(values) && SolverFits(eig)
    requires ExactOn(eig, GroupSliders(drivers, subs, values, d))
    ensures ArgMax(ChartOf(drivers, subs, values, eig, d).pv) == ArgMax(GroupSliders(drivers, subs, values, d))
  {
    var s := GroupSliders(drivers, subs, values, d);
    ChartFollowsSliders(drivers, subs, values, eig, d);
    DivLowerBound(1.0, Sum(s), 0.0);
    DivNonZero(1.0, Sum(s));
    ArgMaxScale(1.0 / Sum(s), s);
  }

  /** A driver's chart depends on no slider outside its own group. */
  lemma {:induction false} ChartIgnoresOtherSliders(drivers: seq<string>, subs: seq<string>, values: map<string, real>,
                                                    eig: seq<seq<real>> -> Eigen, d: string, key: string, x: real)
    requires |drivers| == |subs| && d in drivers
    requires PositiveSliders(values) && SolverFits(eig) && x > 0.0
    requires forall sub :: sub in GroupColumn(drivers, subs, d) ==> SliderKey(d, sub) != key
    ensures PositiveSliders(values[key := x])
    ensures ChartOf(drivers, subs, values[key := x], eig, d) == ChartOf(drivers, subs, values, eig, d)
  {
    var group := GroupColumn(drivers, subs, d);
    var s, s' := GroupSliders(drivers, subs, values, d), GroupSliders(drivers, subs, values[key := x], d);
    forall i | 0 <= i < |s| ensures s'[i] == s[i] {
      assert group[i] in group;
    }
    assert s' == s;
  }

  /** Slider ids are not unique across drivers: a driver "a-b" with sub-driver
      "c" and a driver "a" with sub-driver "b-c" share the id "a-b-c", so
      one slider value feeds both groups. */
  lemma SliderKeysCanCollide()
    ensures SliderKey("a-b", "c") == SliderKey("a", "b-c")
    ensures "a-b" != "a"
  {
  }
}
