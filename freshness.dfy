/** The freshness gate: whether a NodeMetric is too old to trust, and the report
    cadence the node follows. */
module Freshness {
  import opened Wrappers
  import opened NodeMetrics

  /** `isNodeMetricExpired`, with the wall clock passed in as `now`. */
  function IsNodeMetricExpired(nodeMetric: Option<NodeMetric>, expirationSeconds: int, now: Time): (expired: bool)
    ensures !expired ==> nodeMetric.Some? && nodeMetric.value.status.updateTime.Some?
    ensures expirationSeconds <= 0 ==>
              (expired <==> nodeMetric.None? || nodeMetric.value.status.updateTime.None?)
    ensures nodeMetric.Some? && nodeMetric.value.status.updateTime.Some? && expirationSeconds > 0 ==>
              (expired <==> now - nodeMetric.value.status.updateTime.value >= expirationSeconds * Second)
  {
    nodeMetric.None? ||
    nodeMetric.value.status.updateTime.None? ||
    (expirationSeconds > 0 &&
     now - nodeMetric.value.status.updateTime.value >= expirationSeconds * Second)
  }

  /** Once expired, a NodeMetric stays expired as the clock moves on. */
  lemma ExpiredStaysExpired(nodeMetric: Option<NodeMetric>, expirationSeconds: int, now: Time, later: Time)
    requires now <= later
    requires IsNodeMetricExpired(nodeMetric, expirationSeconds, now)
    ensures IsNodeMetricExpired(nodeMetric, expirationSeconds, later)
  {
  }

  /** A longer positive expiration never turns a fresh NodeMetric into an expired one. */
  lemma LongerExpirationKeepsFresh(nodeMetric: Option<NodeMetric>, e1: int, e2: int, now: Time)
    requires 0 < e1 <= e2
    requires !IsNodeMetricExpired(nodeMetric, e1, now)
    ensures !IsNodeMetricExpired(nodeMetric, e2, now)
  {
  }

  /** `getNodeMetricReportInterval`: the declared report interval, else the default. */
  function GetNodeMetricReportInterval(nodeMetric: NodeMetric): (interval: Duration)
    ensures interval % Second == 0
    ensures nodeMetric.spec.collectPolicy.None? ||
            nodeMetric.spec.collectPolicy.value.reportIntervalSeconds.None? ==>
              interval == DefaultNodeMetricReportInterval
    ensures nodeMetric.spec.collectPolicy.Some? &&
            nodeMetric.spec.collectPolicy.value.reportIntervalSeconds.Some? ==>
              interval / Second == nodeMetric.spec.collectPolicy.value.reportIntervalSeconds.value
  {
    match nodeMetric.spec.collectPolicy
    case None => DefaultNodeMetricReportInterval
    case Some(policy) =>
      match policy.reportIntervalSeconds
      case None => DefaultNodeMetricReportInterval
      case Some(seconds) => seconds * Second
  }
}
