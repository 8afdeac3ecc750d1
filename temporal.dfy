/** The temporal reconciler: how the time a pod was assigned to a node relates to
    the time of the node's latest report. */
module Temporal {
  import opened NodeMetrics

  /** `missedLatestUpdateTime`: the pod was assigned after the latest report. */
  predicate MissedLatestUpdateTime(assignedTime: Time, updateTime: Time): (missed: bool)
    ensures missed <==> Classify(assignedTime, updateTime, 0) == NotYetReported
    ensures missed ==> assignedTime != updateTime
  {
    assignedTime > updateTime
  }

  /** `stillInTheReportInterval`: the pod was assigned before the latest report, but
      less than one report interval before it. */
  predicate StillInTheReportInterval(assignedTime: Time, updateTime: Time, reportInterval: Duration): (inInterval: bool)
    ensures inInterval <==> Classify(assignedTime, updateTime, reportInterval) == WithinGracePeriod
    ensures inInterval ==> reportInterval > 0 && !MissedLatestUpdateTime(assignedTime, updateTime)
  {
    assignedTime < updateTime && updateTime - assignedTime < reportInterval
  }

  /** The three timing relations of a pod to the latest report. */
  datatype Timing = NotYetReported | WithinGracePeriod | Reported

  /** Reference classification, by the signed gap from assignment to report. */
  function Classify(assignedTime: Time, updateTime: Time, reportInterval: Duration): Timing
  {
    var gap := updateTime - assignedTime;
    if gap < 0 then NotYetReported
    else if 0 < gap < reportInterval then WithinGracePeriod
    else Reported
  }

  /** The two helpers are never both true, and a pod in neither class counts as
      reported. */
  lemma ClassifyAgrees(assignedTime: Time, updateTime: Time, reportInterval: Duration)
    ensures !MissedLatestUpdateTime(assignedTime, updateTime) &&
            !StillInTheReportInterval(assignedTime, updateTime, reportInterval) ==>
              Classify(assignedTime, updateTime, reportInterval) == Reported
    ensures !(MissedLatestUpdateTime(assignedTime, updateTime) &&
              StillInTheReportInterval(assignedTime, updateTime, reportInterval))
  {
  }

  /** A pod assigned at the very instant of the report is neither missed nor in the
      interval: its usage is taken as already reported. */
  lemma SameInstantIsReported(t: Time, reportInterval: Duration)
    ensures !MissedLatestUpdateTime(t, t)
    ensures !StillInTheReportInterval(t, t, reportInterval)
    ensures Classify(t, t, reportInterval) == Reported
  {
  }

  /** A longer report interval only widens the grace period. */
  lemma LongerIntervalWidensGrace(assignedTime: Time, updateTime: Time, i1: Duration, i2: Duration)
    requires i1 <= i2
    requires StillInTheReportInterval(assignedTime, updateTime, i1)
    ensures StillInTheReportInterval(assignedTime, updateTime, i2)
  {
  }
}
