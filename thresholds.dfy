/** The threshold resolver `generateUsageThresholdsFilterProfile`: the usage
    thresholds a node is filtered against, merged from the plugin's global arguments
    and the node's own custom-thresholds annotation. */
module Thresholds {
  import opened Wrappers
  import opened Resources
  import opened NodeMetrics

  /** Usage thresholds: a percentage (0-100) per resource. */
  type ThresholdMap = map<ResourceName, int>

  /** The aggregated part of the plugin arguments (`LoadAwareSchedulingAggregatedArgs`). */
  datatype AggregatedArgs = AggregatedArgs(
    usageThresholds: ThresholdMap,
    usageAggregationType: AggregationType,
    usageAggregatedDuration: Duration,
    scoreAggregationType: AggregationType,
    scoreAggregatedDuration: Duration)

  /** The plugin arguments (`LoadAwareSchedulingArgs`) the resolver reads. */
  datatype LoadAwareArgs = LoadAwareArgs(
    usageThresholds: ThresholdMap,
    prodUsageThresholds: ThresholdMap,
    aggregated: Option<AggregatedArgs>)

  /** `CustomAggregatedUsage`: thresholds on aggregated usage. */
  datatype CustomAggregatedUsage = CustomAggregatedUsage(
    usageThresholds: ThresholdMap,
    usageAggregationType: AggregationType,
    usageAggregatedDuration: Option<Duration>)

  /** `CustomUsageThresholds`: both the per-node override and the resolved profile. */
  datatype CustomUsageThresholds = CustomUsageThresholds(
    usageThresholds: ThresholdMap,
    prodUsageThresholds: ThresholdMap,
    aggregatedUsage: Option<CustomAggregatedUsage>)

  /** `filterWithAggregation`: the global arguments declare thresholds on aggregated
      usage and the aggregation type to evaluate them on, which is the same test of
      completeness that an override's aggregated block must pass. */
  predicate FilterWithAggregation(args: Option<AggregatedArgs>): (filter: bool)
    ensures filter <==>
              args.Some? &&
              IsComplete(CustomAggregatedUsage(args.value.usageThresholds, args.value.usageAggregationType, None))
  {
    args.Some? && |args.value.usageThresholds| > 0 && args.value.usageAggregationType != ""
  }

  /** `scoreWithAggregation`: the global arguments name an aggregation type to score on;
      unlike filtering, scoring needs no thresholds. */
  predicate ScoreWithAggregation(args: Option<AggregatedArgs>): (score: bool)
    ensures score ==> args.Some?
    ensures args.Some? && args.value.scoreAggregationType == "" ==> !score
    ensures args.Some? && args.value.scoreAggregationType != "" ==> score
    ensures args.Some? && |args.value.usageThresholds| == 0 ==> !FilterWithAggregation(args)
  {
    args.Some? && args.value.scoreAggregationType != ""
  }

  /** An aggregated block is usable when it has thresholds and an aggregation type. */
  predicate IsComplete(block: CustomAggregatedUsage)
  {
    |block.usageThresholds| > 0 && block.usageAggregationType != ""
  }

  /** A map that is empty falls back to `fallback`. */
  function OrElse(m: ThresholdMap, fallback: ThresholdMap): ThresholdMap
  {
    if |m| > 0 then m else fallback
  }

  /** An aggregated block is kept only when complete. */
  function KeepComplete(block: Option<CustomAggregatedUsage>): Option<CustomAggregatedUsage>
  {
    if block.Some? && IsComplete(block.value) then block else None
  }

  /** The global aggregated block, when the global arguments make one usable. */
  function GlobalAggregated(args: LoadAwareArgs): Option<CustomAggregatedUsage>
  {
    if FilterWithAggregation(args.aggregated) then
      Some(CustomAggregatedUsage(args.aggregated.value.usageThresholds,
                                 args.aggregated.value.usageAggregationType,
                                 Some(args.aggregated.value.usageAggregatedDuration)))
    else None
  }

  /** The profile made from the global arguments alone. */
  function GlobalProfile(args: LoadAwareArgs): CustomUsageThresholds
  {
    CustomUsageThresholds(args.usageThresholds, args.prodUsageThresholds, GlobalAggregated(args))
  }

  /** Reference definition of the resolved profile, field by field: each field of a
      readable override wins unless empty (or incomplete), and the global field fills in. */
  function EffectiveProfile(args: LoadAwareArgs, custom: Result<CustomUsageThresholds, string>): CustomUsageThresholds
  {
    match custom
    case Failure(_) => GlobalProfile(args)
    case Success(c) =>
      CustomUsageThresholds(
        OrElse(c.usageThresholds, args.usageThresholds),
        OrElse(c.prodUsageThresholds, args.prodUsageThresholds),
        if KeepComplete(c.aggregatedUsage).Some? then c.aggregatedUsage else GlobalAggregated(args))
  }

  /** `generateUsageThresholdsFilterProfile`. `custom` is the outcome of reading the
      node's custom-thresholds annotation: a parse error, or the parsed override (an
      empty one when the node has no annotation). */
  method GenerateUsageThresholdsFilterProfile(args: LoadAwareArgs, custom: Result<CustomUsageThresholds, string>)
    returns (profile: CustomUsageThresholds)
    ensures profile == EffectiveProfile(args, custom)
    ensures profile.aggregatedUsage.None? || IsComplete(profile.aggregatedUsage.value)
  {
    var usageThresholds, prodUsageThresholds := args.usageThresholds, args.prodUsageThresholds;
    if custom.Failure? {
      // the annotation could not be read: fall back to the global arguments
      profile := CustomUsageThresholds(usageThresholds, prodUsageThresholds, None);
      if FilterWithAggregation(args.aggregated) {
        profile := profile.(aggregatedUsage := Some(CustomAggregatedUsage(
          args.aggregated.value.usageThresholds,
          args.aggregated.value.usageAggregationType,
          Some(args.aggregated.value.usageAggregatedDuration))));
      }
    } else {
      profile := custom.value;
      if |profile.usageThresholds| == 0 {
        profile := profile.(usageThresholds := usageThresholds);
      }
      if |profile.prodUsageThresholds| == 0 {
        profile := profile.(prodUsageThresholds := prodUsageThresholds);
      }
      if profile.aggregatedUsage.Some? {
        if |profile.aggregatedUsage.value.usageThresholds| == 0 ||
           profile.aggregatedUsage.value.usageAggregationType == "" {
          profile := profile.(aggregatedUsage := None);
        }
      }
      if profile.aggregatedUsage.None? && FilterWithAggregation(args.aggregated) {
        profile := profile.(aggregatedUsage := Some(CustomAggregatedUsage(
          args.aggregated.value.usageThresholds,
          args.aggregated.value.usageAggregationType,
          Some(args.aggregated.value.usageAggregatedDuration))));
      }
    }
  }

  /** The aggregated block of a resolved profile is absent exactly when the global
      arguments do not filter on aggregated usage and the override brings no complete
      block; when present it is complete. */
  lemma AggregatedBlockRule(args: LoadAwareArgs, custom: Result<CustomUsageThresholds, string>)
    ensures var p := EffectiveProfile(args, custom);
            && (p.aggregatedUsage.None? || IsComplete(p.aggregatedUsage.value))
            && (p.aggregatedUsage.None? <==>
                  !FilterWithAggregation(args.aggregated) &&
                  (custom.Failure? || KeepComplete(custom.value.aggregatedUsage).None?))
  {
  }

  /** Empty override thresholds are replaced by the global ones; non-empty ones are
      kept; an unreadable override yields exactly the global thresholds. */
  lemma ThresholdsBackFilled(args: LoadAwareArgs, custom: Result<CustomUsageThresholds, string>)
    ensures var p := EffectiveProfile(args, custom);
            && (custom.Failure? ==>
                  p.usageThresholds == args.usageThresholds &&
                  p.prodUsageThresholds == args.prodUsageThresholds)
            && (custom.Success? ==>
                  p.usageThresholds == (if |custom.value.usageThresholds| > 0
                                        then custom.value.usageThresholds else args.usageThresholds) &&
                  p.prodUsageThresholds == (if |custom.value.prodUsageThresholds| > 0
                                            then custom.value.prodUsageThresholds else args.prodUsageThresholds))
  {
  }

  /** An override equal to the global profile, an empty override (no annotation) and
      an unreadable one all resolve to the global profile. */
  lemma GlobalOverrideIsNoOverride(args: LoadAwareArgs, err: string)
    ensures EffectiveProfile(args, Success(GlobalProfile(args))) == GlobalProfile(args)
    ensures EffectiveProfile(args, Success(CustomUsageThresholds(map[], map[], None))) == GlobalProfile(args)
    ensures EffectiveProfile(args, Failure(err)) == GlobalProfile(args)
  {
  }

  /** Resolving an already resolved profile changes nothing. */
  lemma ResolveIdempotent(args: LoadAwareArgs, custom: Result<CustomUsageThresholds, string>)
    ensures EffectiveProfile(args, Success(EffectiveProfile(args, custom))) == EffectiveProfile(args, custom)
  {
  }
}
