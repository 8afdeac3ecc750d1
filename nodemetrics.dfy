/** The NodeMetric object reported by the node agent, reduced to the fields the
    load-aware helpers read, and the time units they compare. */
module NodeMetrics {
  import opened Wrappers
  import opened Resources

  /** An instant, in nanoseconds since an arbitrary epoch. */
  type Time = int

  /** A `time.Duration`, in nanoseconds. */
  type Duration = int

  const Second: Duration := 1_000_000_000

  /** The report cadence assumed when a NodeMetric declares none (60 seconds). */
  const DefaultNodeMetricReportInterval: Duration := 60 * Second

  /** An aggregation style of historical usage, such as "avg" or "p95". */
  type AggregationType = string

  /** A priority class of a pod; "koord-prod" marks production pods. */
  type PriorityClass = string

  const PriorityProd: PriorityClass := "koord-prod"

  datatype CollectPolicy = CollectPolicy(reportIntervalSeconds: Option<int>)

  datatype NodeMetricSpec = NodeMetricSpec(collectPolicy: Option<CollectPolicy>)

  /** One retention window: its duration and, per aggregation type, the usage
      aggregated over that window. */
  datatype AggregatedUsage = AggregatedUsage(
    usage: map<AggregationType, ResourceList>,
    duration: Duration)

  datatype NodeMetricInfo = NodeMetricInfo(
    nodeUsage: ResourceList,
    aggregatedNodeUsages: seq<AggregatedUsage>)

  datatype PodMetricInfo = PodMetricInfo(
    namespace: string,
    name: string,
    podUsage: ResourceList,
    priority: PriorityClass)

  datatype NodeMetricStatus = NodeMetricStatus(
    updateTime: Option<Time>,
    nodeMetric: Option<NodeMetricInfo>,
    podsMetric: seq<PodMetricInfo>)

  datatype NodeMetric = NodeMetric(spec: NodeMetricSpec, status: NodeMetricStatus)

  /** `v.Usage[t]`: a missing aggregation type reads as an empty list. */
  function UsageOf(v: AggregatedUsage, t: AggregationType): ResourceList
  {
    if t in v.usage then v.usage[t] else map[]
  }
}
