/** The aggregation selector `getTargetAggregatedUsage`: which aggregated usage of a
    NodeMetric the filter and score steps evaluate. */
module Aggregation {
  import opened Wrappers
  import opened Resources
  import opened NodeMetrics

  /** An entry has usage recorded for aggregation type `t`. */
  predicate HasUsage(v: AggregatedUsage, t: AggregationType)
  {
    |UsageOf(v, t)| > 0
  }

  /** Index `k` holds the first entry with the strictly greatest positive duration
      among the entries that have usage for `t`. */
  ghost predicate IsFirstLongest(aggs: seq<AggregatedUsage>, t: AggregationType, k: int)
  {
    && 0 <= k < |aggs|
    && HasUsage(aggs[k], t)
    && aggs[k].duration > 0
    && (forall j :: 0 <= j < k && HasUsage(aggs[j], t) ==> aggs[j].duration < aggs[k].duration)
    && (forall j :: k < j < |aggs| && HasUsage(aggs[j], t) ==> aggs[j].duration <= aggs[k].duration)
  }

  /** No entry with usage for `t` has a positive duration. */
  ghost predicate NoLongest(aggs: seq<AggregatedUsage>, t: AggregationType)
  {
    forall j :: 0 <= j < |aggs| && HasUsage(aggs[j], t) ==> aggs[j].duration <= 0
  }

  /** Index `k` holds the first entry of duration `d` that has usage for `t`. */
  ghost predicate IsFirstExact(aggs: seq<AggregatedUsage>, d: Duration, t: AggregationType, k: int)
  {
    && 0 <= k < |aggs|
    && aggs[k].duration == d
    && HasUsage(aggs[k], t)
    && (forall j :: 0 <= j < k ==> !(aggs[j].duration == d && HasUsage(aggs[j], t)))
  }

  /** No duration requested: the caller asks for the default policy. */
  predicate IsDefaultPolicy(aggregatedDuration: Option<Duration>)
  {
    aggregatedDuration.None? || aggregatedDuration.value == 0
  }

  /** What the default policy selects from a non-empty list of windows. */
  ghost predicate DefaultSelection(info: NodeMetricInfo, t: AggregationType, usage: Option<ResourceList>)
  {
    var aggs := info.aggregatedNodeUsages;
    || (exists k :: IsFirstLongest(aggs, t, k) && usage == Some(UsageOf(aggs[k], t)))
    || (NoLongest(aggs, t) && usage == (if |info.nodeUsage| > 0 then Some(info.nodeUsage) else None))
  }

  /** What an exact request for duration `d` selects. */
  ghost predicate ExactSelection(aggs: seq<AggregatedUsage>, d: Duration, t: AggregationType, usage: Option<ResourceList>)
  {
    match usage
    case None => forall j :: 0 <= j < |aggs| ==> !(aggs[j].duration == d && HasUsage(aggs[j], t))
    case Some(u) => exists k :: IsFirstExact(aggs, d, t, k) && u == UsageOf(aggs[k], t)
  }

  /** `getTargetAggregatedUsage`. */
  method GetTargetAggregatedUsage(nodeMetric: NodeMetric, aggregatedDuration: Option<Duration>, aggregationType: AggregationType)
    returns (usage: Option<ResourceList>)
    ensures (nodeMetric.status.nodeMetric.None? ||
             |nodeMetric.status.nodeMetric.value.aggregatedNodeUsages| == 0) ==> usage == None
    ensures nodeMetric.status.nodeMetric.Some? &&
            |nodeMetric.status.nodeMetric.value.aggregatedNodeUsages| > 0 &&
            IsDefaultPolicy(aggregatedDuration) ==>
              DefaultSelection(nodeMetric.status.nodeMetric.value, aggregationType, usage)
    ensures nodeMetric.status.nodeMetric.Some? &&
            |nodeMetric.status.nodeMetric.value.aggregatedNodeUsages| > 0 &&
            !IsDefaultPolicy(aggregatedDuration) ==>
              ExactSelection(nodeMetric.status.nodeMetric.value.aggregatedNodeUsages,
                             aggregatedDuration.value, aggregationType, usage)
  {
    if nodeMetric.status.nodeMetric.None? || |nodeMetric.status.nodeMetric.value.aggregatedNodeUsages| == 0 {
      return None;
    }
    var info := nodeMetric.status.nodeMetric.value;
    var aggs := info.aggregatedNodeUsages;

    if IsDefaultPolicy(aggregatedDuration) {
      var maxDuration: Duration := 0;
      var maxIndex := -1;
      for i := 0 to |aggs|
        invariant maxIndex == -1 ==> maxDuration == 0
        invariant maxIndex == -1 ==>
                    forall j :: 0 <= j < i && HasUsage(aggs[j], aggregationType) ==> aggs[j].duration <= 0
        invariant maxIndex != -1 ==>
                    && 0 <= maxIndex < i
                    && HasUsage(aggs[maxIndex], aggregationType)
                    && aggs[maxIndex].duration == maxDuration > 0
                    && (forall j :: 0 <= j < maxIndex && HasUsage(aggs[j], aggregationType) ==>
                          aggs[j].duration < maxDuration)
                    && (forall j :: maxIndex < j < i && HasUsage(aggs[j], aggregationType) ==>
                          aggs[j].duration <= maxDuration)
      {
        if HasUsage(aggs[i], aggregationType) && aggs[i].duration > maxDuration {
          maxDuration := aggs[i].duration;
          maxIndex := i;
        }
      }

      if maxIndex == -1 {
        // every window is empty for this type: fall back to the current node usage
        if |info.nodeUsage| > 0 {
          return Some(info.nodeUsage);
        }
      } else {
        assert IsFirstLongest(aggs, aggregationType, maxIndex);
        return Some(UsageOf(aggs[maxIndex], aggregationType));
      }
    } else {
      var d := aggregatedDuration.value;
      for i := 0 to |aggs|
        invariant forall j :: 0 <= j < i ==> !(aggs[j].duration == d && HasUsage(aggs[j], aggregationType))
      {
        if aggs[i].duration == d {
          var u := UsageOf(aggs[i], aggregationType);
          if |u| > 0 {
            assert IsFirstExact(aggs, d, aggregationType, i);
            return Some(u);
          }
        }
      }
    }
    return None;
  }

  /** The default policy's choice is unique: two indices cannot both be the first
      longest non-empty window. */
  lemma FirstLongestUnique(aggs: seq<AggregatedUsage>, t: AggregationType, k1: int, k2: int)
    requires IsFirstLongest(aggs, t, k1) && IsFirstLongest(aggs, t, k2)
    ensures k1 == k2
  {
  }

  /** The default policy never picks a window of non-positive duration, and never
      one whose duration another non-empty window exceeds. */
  lemma FirstLongestIsMaximal(aggs: seq<AggregatedUsage>, t: AggregationType, k: int, j: int)
    requires IsFirstLongest(aggs, t, k)
    requires 0 <= j < |aggs| && HasUsage(aggs[j], t)
    ensures aggs[j].duration <= aggs[k].duration
    ensures aggs[k].duration > 0
  {
  }
}
