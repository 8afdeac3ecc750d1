# Load-aware scheduling helpers, modelled in Dafny

This project models the decision helpers of koordinator's load-aware scheduler
plugin (`pkg/scheduler/plugins/loadaware/helper.go`). The plugin filters and scores
candidate nodes by their recently reported real usage (the `NodeMetric` object
written by the node agent) instead of by static resource requests. The helpers
decide:

- whether a node's `NodeMetric` is too old to trust (`isNodeMetricExpired`), and
  what report cadence the node follows (`getNodeMetricReportInterval`);
- how the time a pod was assigned to the node relates to the latest report, that
  is, whether its usage can be in the report yet (`missedLatestUpdateTime`,
  `stillInTheReportInterval`);
- which aggregated usage window to evaluate (`getTargetAggregatedUsage`): an exact
  requested duration, or by default the longest non-empty window, with a fall back
  to the current node usage;
- which usage thresholds apply to the node (`generateUsageThresholdsFilterProfile`,
  `filterWithAggregation`, `scoreWithAggregation`): the node's custom-thresholds
  annotation merged with the plugin's global arguments;
- the per-pod usage map (`buildPodMetricMap`) and its split into observed and
  estimated sums (`sumPodUsages`);
- how quantities are normalised (`getResourceValue`) and whether a pod belongs to a
  DaemonSet (`isDaemonSetPod`).

Files, one module per component:

| file | module | component |
|---|---|---|
| wrappers.dfy | Wrappers | Option and Result, for nil pointers and error returns |
| resources.dfy | Resources | resource names, quantities, resource lists, unit normalisation, per-key addition |
| nodemetrics.dfy | NodeMetrics | the NodeMetric object, time units, the default report interval |
| freshness.dfy | Freshness | expiry of a NodeMetric, report interval |
| temporal.dfy | Temporal | assignment time against report time |
| aggregation.dfy | Aggregation | selection of the aggregated usage window |
| thresholds.dfy | Thresholds | resolution of the threshold profile |
| podusage.dfy | PodUsage | per-pod usage map, observed and estimated sums |
| owners.dfy | Owners | DaemonSet ownership |

Modelling choices:

- Instants and durations are integers in nanoseconds. The wall clock that
  `time.Since` reads is the parameter `now`.
- A quantity is an integer number of thousandths of its natural unit, so
  `Quantity.Add` is integer addition, `MilliValue()` is the quantity itself, and
  `Value()` divides by 1000 rounding away from zero. Rounding away from zero is the
  documented rule of the Kubernetes quantity library.
- A Go nil map and an empty map read the same: zero length, and every lookup
  absent. Both are `map[]` here.
- The loops that work step by step in the source are methods with loops:
  `getTargetAggregatedUsage`, `buildPodMetricMap`, `sumPodUsages` and
  `isDaemonSetPod`. `generateUsageThresholdsFilterProfile` is a method that updates
  a local profile field by field. `sumPodUsages` ranges over a Go map, whose order is
  unspecified, so the method takes the pods in an arbitrary order (`:|`). Its
  contract holds for every order.
- Each method is proved against ghost predicates or a reference function, and the
  lemmas state the promised properties of those: the unique first-longest choice,
  the merge rules, the partition-sum law.
- `DefaultNodeMetricReportInterval` is declared in `load_aware.go`, which is not
  part of this model. The model uses its value there, 60 seconds.
- A pod assigned at the exact instant of the report is neither
  `missedLatestUpdateTime` nor `stillInTheReportInterval` (helper.go:50, 54), so
  callers treat it as already reported. `Temporal.Classify` puts this case in
  `Reported`, and `Temporal.SameInstantIsReported` proves it.

## Model

| member | source | states |
|---|---|---|
| Resources.WholeUnits | pkg/scheduler/plugins/loadaware/helper.go:151 | the whole-unit value lies within one unit of the quantity, rounded away from zero: above it for positive quantities, below it for negative ones |
| Resources.GetResourceValue | pkg/scheduler/plugins/loadaware/helper.go:147-152 | CPU is read in milli-units, unchanged; every other resource is read in whole units, within one unit of the quantity |
| Resources.GetResourceValueMonotonic | pkg/scheduler/plugins/loadaware/helper.go:147-152 | normalisation preserves the order of quantities, for every resource |
| Resources.GetResourceValueExact | pkg/scheduler/plugins/loadaware/helper.go:147-152 | whole units are read back exactly for every resource, and every CPU quantity, fractional cores included, is read back unchanged in milli-units |
| Resources.AddResourceList | pkg/scheduler/plugins/loadaware/helper.go:180-183 | the accumulator gains the union of the resource names, and each entry becomes the sum of the two entries, an absent entry counting as zero |
| Freshness.IsNodeMetricExpired | pkg/scheduler/plugins/loadaware/helper.go:35-40 | a fresh verdict implies that the metric and its update time are present; with expiration at most zero, only a missing metric or a missing update time expires; otherwise the metric expires iff its age reaches the expiration in seconds |
| Freshness.ExpiredStaysExpired | pkg/scheduler/plugins/loadaware/helper.go:35-40 | an expired metric stays expired at any later instant |
| Freshness.LongerExpirationKeepsFresh | pkg/scheduler/plugins/loadaware/helper.go:35-40 | a metric fresh under a positive expiration stays fresh under any longer one |
| Freshness.GetNodeMetricReportInterval | pkg/scheduler/plugins/loadaware/helper.go:42-47 | the interval is a whole number of seconds: the declared seconds when the collect policy declares them, else the 60-second default |
| Temporal.MissedLatestUpdateTime | pkg/scheduler/plugins/loadaware/helper.go:49-51 | true exactly when the pod was assigned after the report, the not-yet-reported class of the reference classification; never at the report's own instant |
| Temporal.StillInTheReportInterval | pkg/scheduler/plugins/loadaware/helper.go:53-55 | true exactly in the grace-period class: assigned before the report by less than one interval; it then implies a positive interval and excludes "missed the latest update" |
| Temporal.ClassifyAgrees | pkg/scheduler/plugins/loadaware/helper.go:49-55 | the two decisions are never both true, and a pod in neither class is in the reported class of the reference classification |
| Temporal.SameInstantIsReported | pkg/scheduler/plugins/loadaware/helper.go:49-55 | a pod assigned at the instant of the report is neither missed nor in the interval, so it counts as reported |
| Temporal.LongerIntervalWidensGrace | pkg/scheduler/plugins/loadaware/helper.go:53-55 | a pod in the grace period of an interval stays in it for any longer interval |
| Aggregation.GetTargetAggregatedUsage | pkg/scheduler/plugins/loadaware/helper.go:57-95 | no node usage info or no windows gives none, even with a non-empty current usage. With no requested duration (none or zero): the usage of the first non-empty window with the strictly greatest positive duration; if there is no such window, the current usage when non-empty, else none. With a requested duration: the usage of the first non-empty window of exactly that duration, else none |
| Aggregation.FirstLongestUnique | pkg/scheduler/plugins/loadaware/helper.go:64-83 | the default policy's choice is unique, so ties between equal durations go to the first occurrence |
| Aggregation.FirstLongestIsMaximal | pkg/scheduler/plugins/loadaware/helper.go:64-72 | the chosen window has a positive duration at least that of every non-empty window |
| Thresholds.FilterWithAggregation | pkg/scheduler/plugins/loadaware/helper.go:97-99 | true iff the aggregated arguments are present and their thresholds and aggregation type pass the same completeness test an override's aggregated block must pass |
| Thresholds.ScoreWithAggregation | pkg/scheduler/plugins/loadaware/helper.go:101-103 | true iff the aggregated arguments are present and name a non-empty score aggregation type; no usage thresholds are needed, and with none filtering with aggregation stays off |
| Thresholds.GenerateUsageThresholdsFilterProfile | pkg/scheduler/plugins/loadaware/helper.go:107-145 | the step-by-step merge yields the field-by-field reference profile, and its aggregated block is absent or complete |
| Thresholds.AggregatedBlockRule | pkg/scheduler/plugins/loadaware/helper.go:107-145 | the aggregated block is absent or has both thresholds and an aggregation type; it is absent iff the global arguments fail `filterWithAggregation` and the override is unreadable or brings no complete block |
| Thresholds.ThresholdsBackFilled | pkg/scheduler/plugins/loadaware/helper.go:108-128 | an unreadable override yields the global thresholds; otherwise empty override thresholds (plain and production) are replaced by the global ones and non-empty ones are kept |
| Thresholds.GlobalOverrideIsNoOverride | pkg/scheduler/plugins/loadaware/helper.go:107-145 | an override equal to the global profile, an empty override and an unreadable override all resolve to the global profile |
| Thresholds.ResolveIdempotent | pkg/scheduler/plugins/loadaware/helper.go:123-143 | resolving an already resolved profile as the override changes nothing |
| PodUsage.BuildPodMetricMap | pkg/scheduler/plugins/loadaware/helper.go:154-170 | exactly the pods kept by the production filter are mapped, each to the usage of its last kept entry, so a later duplicate overwrites an earlier one |
| PodUsage.ProdFilterKeepsOnlyProd | pkg/scheduler/plugins/loadaware/helper.go:160-162 | with the production filter on, every mapped pod has a production-priority entry |
| PodUsage.TotalRemove | pkg/scheduler/plugins/loadaware/helper.go:178-184 | a per-resource total over pods does not depend on the order the pods are taken in |
| PodUsage.TotalSplit | pkg/scheduler/plugins/loadaware/helper.go:178-184 | the total over two disjoint groups of pods is the sum of the two totals |
| PodUsage.AddedResources | pkg/scheduler/plugins/loadaware/helper.go:180-183 | adding a pod to a group adds exactly that pod's resource names |
| PodUsage.SumPodUsages | pkg/scheduler/plugins/loadaware/helper.go:172-186 | an empty map gives two empty lists; otherwise the observed list is the per-resource total over the pods outside the estimated set and the estimated list the total over the pods in it, each listing exactly the resources its pods report, and the two add up to the total over all pods |
| PodUsage.PartitionSum | pkg/scheduler/plugins/loadaware/helper.go:172-186 | for any estimated set, the observed and estimated totals add up to the total over all pods |
| Owners.IsDaemonSetPod | pkg/scheduler/plugins/loadaware/helper.go:188-196 | true iff some owner reference has kind "DaemonSet", so false for an empty list |

## Left out

- The diagnostic log line written when the custom-thresholds annotation cannot be read (helper.go:111).
- Reading the wall clock (`time.Since`, helper.go:39): the current instant is the parameter `now`.
- Parsing the node's custom-thresholds annotation (`extension.GetCustomUsageThresholds`): its outcome is the input `Result`, a parse error or the parsed override (an empty override when the node has no annotation).
- Quantity precision below one thousandth of a unit, and how `MilliValue` rounds it; the device list that `ResourceMap` carries beside its resource list.
- 64-bit overflow of `time.Duration(seconds) * time.Second`: the model uses unbounded integers.
- The difference between a nil Go map and an empty one in what `buildPodMetricMap` and `sumPodUsages` return (nil for an empty input). Every reader of a Go map sees the two alike.
- Fields of `NodeMetric`, of the plugin arguments and of `OwnerReference` that these helpers do not read.
- The scheduler framework's Filter and Score calls, which use these helpers, and its concurrent evaluation of nodes: neither is in helper.go.
- Nil pointers that the source dereferences without a check: `nodeMetric` in `getNodeMetricReportInterval` (helper.go:43), `getTargetAggregatedUsage` (helper.go:58) and `buildPodMetricMap` (helper.go:155), and `args` in `generateUsageThresholdsFilterProfile` (helper.go:108). Each panics on nil. The model's parameters of type `NodeMetric` and `LoadAwareArgs` cannot be absent, so it does not capture that panic.
- Aliasing in the resolved profile. In the source, the profile shares the maps `args.UsageThresholds` and `args.ProdUsageThresholds` (helper.go:113-114, 125, 128), and its aggregated block points into `args.Aggregated.UsageAggregatedDuration` (helper.go:120, 140). The model returns independent values, so it does not capture that a later change to the arguments would show through the profile.
