/** The three-band risk classifier and the cumulative (priority-weighted)
    risk index per risk driver. */
module RiskIndex {
  import opened RealSeqs
  import opened Grouping

  const Low := 1
  const Approaching := 2
  const High := 3

  /** The band above the threshold that still counts as "approaching":
      ten per cent of the threshold. */
  function RangeUnderThreshold(threshold: real): real
  {
    threshold * 0.10
  }

  /** `determine_risk_index`: 1 below the threshold, 2 from the threshold up
      to and including threshold plus ten per cent of it, 3 above that. */
  function DetermineRiskIndex(status: real, threshold: real): (r: int)
    ensures r == Low <==> status < threshold
    ensures r == Approaching <==> threshold <= status && 10.0 * status <= 11.0 * threshold
    ensures r == High <==> status >= threshold && 10.0 * status > 11.0 * threshold
    ensures Low <= r <= High
  {
    if status < threshold then Low
    else if threshold <= status <= threshold + RangeUnderThreshold(threshold) then Approaching
    else High
  }

  /** `process_risk_index`, a placeholder that hands its data back. */
  function ProcessRiskIndex<T>(data: T): (r: T)
    ensures r == data
  {
    data
  }

  /** For a fixed threshold, a higher status never gives a lower index. */
  lemma DetermineRiskIndexMonotone(status: real, status': real, threshold: real)
    requires status <= status'
    ensures DetermineRiskIndex(status, threshold) <= DetermineRiskIndex(status', threshold)
  {
  }

  /** A zero threshold is accepted: negative status is low, zero is
      approaching and any positive status is high. */
  lemma ZeroThreshold(status: real)
    ensures DetermineRiskIndex(status, 0.0) == (if status < 0.0 then Low else if status == 0.0 then Approaching else High)
  {
  }

  /** With a negative threshold the middle band is empty. */
  lemma NegativeThresholdSkipsApproaching(status: real, threshold: real)
    requires threshold < 0.0
    ensures DetermineRiskIndex(status, threshold) != Approaching
  {
  }

  /** The worked examples: threshold 100 with status 50, 100, 109, 110, 111. */
  lemma ClassifierExamples()
    ensures DetermineRiskIndex(50.0, 100.0) == Low
    ensures DetermineRiskIndex(100.0, 100.0) == Approaching
    ensures DetermineRiskIndex(109.0, 100.0) == Approaching
    ensures DetermineRiskIndex(110.0, 100.0) == Approaching
    ensures DetermineRiskIndex(111.0, 100.0) == High
  {
  }

  /** The `Risk Index` column: the classifier applied row by row. */
  function RiskIndexColumn(status: seq<real>, threshold: seq<real>): (r: seq<int>)
    requires |status| == |threshold|
    ensures |r| == |status|
    ensures forall i :: 0 <= i < |r| ==> Low <= r[i] <= High
  {
    seq(|status|, i requires 0 <= i < |status| => DetermineRiskIndex(status[i], threshold[i]))
  }

  /** The weighted risk index of one driver: the dot product of its rows'
      priority-vector entries with their risk indices. */
  function GroupWeightedIndex(drivers: seq<string>, pv: seq<real>, riskIndex: seq<int>, d: string): real
    requires |drivers| == |pv| == |riskIndex|
  {
    Dot(GroupColumn(drivers, pv, d), Reals(GroupColumn(drivers, riskIndex, d)))
  }

  /** The group loop of `calculate_cumulative_risk_index`: one entry per
      distinct driver, holding that driver's weighted index. */
  method WeightedRiskIndices(drivers: seq<string>, pv: seq<real>, riskIndex: seq<int>)
    returns (weighted: map<string, real>)
    requires |drivers| == |pv| == |riskIndex|
    ensures forall d :: d in weighted <==> d in drivers
    ensures forall d :: d in weighted ==> weighted[d] == GroupWeightedIndex(drivers, pv, riskIndex, d)
  {
    var groups := Distinct(drivers);
    weighted := map[];
    var g := 0;
    while g < |groups|
      invariant 0 <= g <= |groups|
      invariant forall d :: d in weighted <==> d in groups[..g]
      invariant forall d :: d in weighted ==> weighted[d] == GroupWeightedIndex(drivers, pv, riskIndex, d)
    {
      var d := groups[g];
      var priorityVector := GroupColumn(drivers, pv, d);
      var riskIndices := Reals(GroupColumn(drivers, riskIndex, d));
      weighted := weighted[d := Dot(priorityVector, riskIndices)];
      assert groups[..g + 1] == groups[..g] + [d];
      g := g + 1;
    }
    assert groups[..g] == groups;
  }

  /** If a driver's priority-vector entries are non-negative and sum to one,
      its weighted index is a convex combination of 1, 2 and 3. */
  lemma {:induction false} WeightedIndexInRange(drivers: seq<string>, status: seq<real>, threshold: seq<real>, pv: seq<real>, d: string)
    requires |drivers| == |status| == |threshold| == |pv|
    requires NonNegative(GroupColumn(drivers, pv, d)) && Sum(GroupColumn(drivers, pv, d)) == 1.0
    ensures 1.0 <= GroupWeightedIndex(drivers, pv, RiskIndexColumn(status, threshold), d) <= 3.0
  {
    var ri := RiskIndexColumn(status, threshold);
    var weights, values := GroupColumn(drivers, pv, d), Reals(GroupColumn(drivers, ri, d));
    GroupColumnAll(drivers, ri, d, (r: int) => 1 <= r <= 3);
    assert forall i :: 0 <= i < |values| ==> 1.0 <= values[i] <= 3.0 by {
      forall i | 0 <= i < |values| ensures 1.0 <= values[i] <= 3.0 {
        assert GroupColumn(drivers, ri, d)[i] in GroupColumn(drivers, ri, d);
      }
    }
    DotBounds(weights, values, 1.0, 3.0);
  }

  /** With non-negative weights, raising any statuses never lowers a driver's
      weighted index. */
  lemma {:induction false} WeightedIndexMonotone(drivers: seq<string>, status: seq<real>, status': seq<real>, threshold: seq<real>, pv: seq<real>, d: string)
    requires |drivers| == |status| == |status'| == |threshold| == |pv|
    requires NonNegative(GroupColumn(drivers, pv, d))
    requires forall i :: 0 <= i < |status| ==> status[i] <= status'[i]
    ensures GroupWeightedIndex(drivers, pv, RiskIndexColumn(status, threshold), d)
         <= GroupWeightedIndex(drivers, pv, RiskIndexColumn(status', threshold), d)
  {
    var ri, ri' := RiskIndexColumn(status, threshold), RiskIndexColumn(status', threshold);
    forall i | 0 <= i < |ri| ensures ri[i] <= ri'[i] {
      DetermineRiskIndexMonotone(status[i], status'[i], threshold[i]);
    }
    GroupColumnMonotone(drivers, ri, ri', d);
    DotMonotone(GroupColumn(drivers, pv, d), Reals(GroupColumn(drivers, ri, d)), Reals(GroupColumn(drivers, ri', d)));
  }

  lemma GroupColumnMonotone(drivers: seq<string>, a: seq<int>, b: seq<int>, d: string)
    requires |drivers| == |a| == |b|
    requires forall i :: 0 <= i < |a| ==> a[i] <= b[i]
    ensures forall i :: 0 <= i < Count(drivers, d) ==> GroupColumn(drivers, a, d)[i] <= GroupColumn(drivers, b, d)[i]
  {
  }

  /** A driver's weighted index depends on no other driver's rows. */
  lemma WeightedIndexIgnoresOtherDrivers(drivers: seq<string>, pv: seq<real>, riskIndex: seq<int>, d: string, k: nat, p: real, r: int)
    requires |drivers| == |pv| == |riskIndex| && k < |drivers| && drivers[k] != d
    ensures GroupWeightedIndex(drivers, pv[k := p], riskIndex[k := r], d) == GroupWeightedIndex(drivers, pv, riskIndex, d)
  {
    GroupColumnIgnoresOtherRows(drivers, pv, d, k, p);
    GroupColumnIgnoresOtherRows(drivers, riskIndex, d, k, r);
  }

  /** The table `calculate_cumulative_risk_index` works on: the columns it
      reads (`Risk Drivers`, `Status`, `Threshold`, `PV`) and the
      `Risk Index` column it writes into the frame. */
  class RiskFrame {
    var riskDrivers: seq<string>
    var status: seq<real>
    var threshold: seq<real>
    var pv: seq<real>
    var riskIndex: seq<int>

    ghost predicate Valid()
      reads this
    {
      |status| == |riskDrivers| && |threshold| == |riskDrivers| && |pv| == |riskDrivers|
    }

    constructor (riskDrivers: seq<string>, status: seq<real>, threshold: seq<real>, pv: seq<real>)
      requires |status| == |riskDrivers| && |threshold| == |riskDrivers| && |pv| == |riskDrivers|
      ensures Valid()
      ensures this.riskDrivers == riskDrivers && this.status == status
      ensures this.threshold == threshold && this.pv == pv && this.riskIndex == []
    {
      this.riskDrivers, this.status, this.threshold, this.pv := riskDrivers, status, threshold, pv;
      riskIndex := [];
    }

    /** `calculate_cumulative_risk_index`: adds the `Risk Index` column in
        place, then returns the weighted index of every driver. */
    method CalculateCumulativeRiskIndex() returns (weighted: map<string, real>)
      requires Valid()
      modifies this`riskIndex
      ensures Valid()
      ensures |riskIndex| == |riskDrivers|
      ensures forall i :: 0 <= i < |riskIndex| ==> riskIndex[i] == DetermineRiskIndex(status[i], threshold[i])
      ensures forall d :: d in weighted <==> d in riskDrivers
      ensures forall d :: d in weighted ==> weighted[d] == GroupWeightedIndex(riskDrivers, pv, riskIndex, d)
    {
      riskIndex := RiskIndexColumn(status, threshold);
      weighted := WeightedRiskIndices(riskDrivers, pv, riskIndex);
    }
  }
}
