/** The per-pod usage aggregator: `buildPodMetricMap` and `sumPodUsages`. */
module PodUsage {
  import opened Resources
  import opened NodeMetrics

  /** `types.NamespacedName`: the identity of a pod. */
  datatype NamespacedName = NamespacedName(namespace: string, name: string)

  type PodMetricMap = map<NamespacedName, ResourceList>

  function KeyOf(pod: PodMetricInfo): NamespacedName
  {
    NamespacedName(pod.namespace, pod.name)
  }

  /** A pod entry survives the optional production-only filter. */
  predicate Kept(pod: PodMetricInfo, filterProdPod: bool)
  {
    !filterProdPod || pod.priority == PriorityProd
  }

  /** Among the first `n` entries, `i` is the last kept entry named `key`. */
  ghost predicate IsLastKept(pods: seq<PodMetricInfo>, filterProdPod: bool, n: int, key: NamespacedName, i: int)
    requires 0 <= n <= |pods|
  {
    && 0 <= i < n
    && Kept(pods[i], filterProdPod)
    && KeyOf(pods[i]) == key
    && (forall j :: i < j < n && Kept(pods[j], filterProdPod) ==> KeyOf(pods[j]) != key)
  }

  /** `podMetrics` maps exactly the kept pods among the first `n` entries, each to the
      usage of its last kept entry. */
  ghost predicate MapsLastKept(pods: seq<PodMetricInfo>, filterProdPod: bool, n: int, podMetrics: PodMetricMap)
    requires 0 <= n <= |pods|
  {
    && (forall i :: 0 <= i < n && Kept(pods[i], filterProdPod) ==> KeyOf(pods[i]) in podMetrics)
    && (forall key :: key in podMetrics ==>
          exists i :: IsLastKept(pods, filterProdPod, n, key, i) && podMetrics[key] == pods[i].podUsage)
  }

  /** `buildPodMetricMap`: pod identity to reported usage, optionally keeping only
      production pods; a later entry for the same pod overwrites an earlier one. */
  method BuildPodMetricMap(nodeMetric: NodeMetric, filterProdPod: bool) returns (podMetrics: PodMetricMap)
    ensures MapsLastKept(nodeMetric.status.podsMetric, filterProdPod, |nodeMetric.status.podsMetric|, podMetrics)
  {
    var pods := nodeMetric.status.podsMetric;
    if |pods| == 0 {
      return map[];
    }
    podMetrics := map[];
    for i := 0 to |pods|
      invariant MapsLastKept(pods, filterProdPod, i, podMetrics)
    {
      var podMetric := pods[i];
      if filterProdPod && podMetric.priority != PriorityProd {
        continue;
      }
      var name := NamespacedName(podMetric.namespace, podMetric.name);
      ghost var before := podMetrics;
      podMetrics := podMetrics[name := podMetric.podUsage];
      forall key | key in podMetrics
        ensures exists j :: IsLastKept(pods, filterProdPod, i + 1, key, j) && podMetrics[key] == pods[j].podUsage
      {
        if key == name {
          assert IsLastKept(pods, filterProdPod, i + 1, key, i);
        } else {
          var j :| IsLastKept(pods, filterProdPod, i, key, j) && before[key] == pods[j].podUsage;
          assert IsLastKept(pods, filterProdPod, i + 1, key, j);
        }
      }
    }
  }

  /** With the production filter on, only production pods are mapped. */
  lemma ProdFilterKeepsOnlyProd(pods: seq<PodMetricInfo>, podMetrics: PodMetricMap, key: NamespacedName)
    requires MapsLastKept(pods, true, |pods|, podMetrics)
    requires key in podMetrics
    ensures exists i :: 0 <= i < |pods| && KeyOf(pods[i]) == key && pods[i].priority == PriorityProd
  {
    var i :| IsLastKept(pods, true, |pods|, key, i) && podMetrics[key] == pods[i].podUsage;
  }

  /** A fixed but arbitrary element of a non-empty set. */
  ghost function Pick(s: set<NamespacedName>): NamespacedName
    requires s != {}
  {
    var k :| k in s; k
  }

  /** The total of resource `r` over the pods `keys` of `podMetrics`. */
  ghost function Total(podMetrics: PodMetricMap, keys: set<NamespacedName>, r: ResourceName): int
    requires keys <= podMetrics.Keys
    decreases keys
  {
    if keys == {} then 0
    else
      var k := Pick(keys);
      Get(podMetrics[k], r) + Total(podMetrics, keys - {k}, r)
  }

  /** Every resource that some pod among `keys` reports. */
  ghost function ResourcesOf(podMetrics: PodMetricMap, keys: set<NamespacedName>): set<ResourceName>
    requires keys <= podMetrics.Keys
  {
    set k, r | k in keys && r in podMetrics[k] :: r
  }

  /** The total does not depend on the order pods are taken in: any pod can be taken first. */
  lemma {:induction false} TotalRemove(podMetrics: PodMetricMap, keys: set<NamespacedName>, k: NamespacedName, r: ResourceName)
    requires keys <= podMetrics.Keys && k in keys
    ensures Total(podMetrics, keys, r) == Get(podMetrics[k], r) + Total(podMetrics, keys - {k}, r)
    decreases keys
  {
    var p := Pick(keys);
    if p != k {
      TotalRemove(podMetrics, keys - {p}, k, r);
      TotalRemove(podMetrics, keys - {k}, p, r);
      assert keys - {p} - {k} == keys - {k} - {p};
    }
  }

  /** The total over two disjoint groups of pods is the sum of their totals. */
  lemma {:induction false} TotalSplit(podMetrics: PodMetricMap, a: set<NamespacedName>, b: set<NamespacedName>, r: ResourceName)
    requires a <= podMetrics.Keys && b <= podMetrics.Keys && a !! b
    ensures Total(podMetrics, a + b, r) == Total(podMetrics, a, r) + Total(podMetrics, b, r)
    decreases a
  {
    if a != {} {
      var k := Pick(a);
      TotalSplit(podMetrics, a - {k}, b, r);
      TotalRemove(podMetrics, a + b, k, r);
      assert (a + b) - {k} == (a - {k}) + b;
    } else {
      assert a + b == b;
    }
  }

  /** `sumPodUsages`: the usage of pods in `estimatedPods` summed into the estimated
      list, the usage of every other pod into the observed list. Map iteration order
      is unspecified, so the pods are taken in an arbitrary order. */
  method SumPodUsages(podMetrics: PodMetricMap, estimatedPods: set<NamespacedName>)
    returns (podUsages: ResourceList, estimatedPodsUsages: ResourceList)
    ensures |podMetrics| == 0 ==> podUsages == map[] && estimatedPodsUsages == map[]
    ensures forall r :: Get(podUsages, r) == Total(podMetrics, podMetrics.Keys - estimatedPods, r)
    ensures forall r :: Get(estimatedPodsUsages, r) == Total(podMetrics, podMetrics.Keys * estimatedPods, r)
    ensures podUsages.Keys == ResourcesOf(podMetrics, podMetrics.Keys - estimatedPods)
    ensures estimatedPodsUsages.Keys == ResourcesOf(podMetrics, podMetrics.Keys * estimatedPods)
    ensures forall r :: Get(podUsages, r) + Get(estimatedPodsUsages, r) == Total(podMetrics, podMetrics.Keys, r)
  {
    if |podMetrics| == 0 {
      assert podMetrics.Keys - estimatedPods == {} && podMetrics.Keys * estimatedPods == {};
      assert podMetrics.Keys == {};
      return map[], map[];
    }
    podUsages, estimatedPodsUsages := map[], map[];
    var remaining := podMetrics.Keys;
    while remaining != {}
      invariant remaining <= podMetrics.Keys
      invariant forall r :: Get(podUsages, r) == Total(podMetrics, (podMetrics.Keys - remaining) - estimatedPods, r)
      invariant forall r :: Get(estimatedPodsUsages, r) == Total(podMetrics, (podMetrics.Keys - remaining) * estimatedPods, r)
      invariant podUsages.Keys == ResourcesOf(podMetrics, (podMetrics.Keys - remaining) - estimatedPods)
      invariant estimatedPodsUsages.Keys == ResourcesOf(podMetrics, (podMetrics.Keys - remaining) * estimatedPods)
      decreases remaining
    {
      var podName :| podName in remaining;
      var usage := podMetrics[podName];
      ghost var done := podMetrics.Keys - remaining;
      ghost var done' := done + {podName};
      assert done' == podMetrics.Keys - (remaining - {podName});
      if podName in estimatedPods {
        ghost var group := done * estimatedPods;
        assert done' * estimatedPods == group + {podName};
        assert done' - estimatedPods == done - estimatedPods;
        forall r ensures Total(podMetrics, group + {podName}, r) == Get(usage, r) + Total(podMetrics, group, r) {
          TotalRemove(podMetrics, group + {podName}, podName, r);
          assert group + {podName} - {podName} == group;
        }
        AddedResources(podMetrics, group, podName);
        estimatedPodsUsages := AddResourceList(estimatedPodsUsages, usage);
      } else {
        ghost var group := done - estimatedPods;
        assert done' - estimatedPods == group + {podName};
        assert done' * estimatedPods == done * estimatedPods;
        forall r ensures Total(podMetrics, group + {podName}, r) == Get(usage, r) + Total(podMetrics, group, r) {
          TotalRemove(podMetrics, group + {podName}, podName, r);
          assert group + {podName} - {podName} == group;
        }
        AddedResources(podMetrics, group, podName);
        podUsages := AddResourceList(podUsages, usage);
      }
      remaining := remaining - {podName};
    }
    assert podMetrics.Keys - remaining == podMetrics.Keys;
    forall r ensures Get(podUsages, r) + Get(estimatedPodsUsages, r) == Total(podMetrics, podMetrics.Keys, r) {
      PartitionSum(podMetrics, estimatedPods, r);
    }
  }

  /** Adding one pod to a group adds that pod's resources to the group's resources. */
  lemma AddedResources(podMetrics: PodMetricMap, group: set<NamespacedName>, k: NamespacedName)
    requires group <= podMetrics.Keys && k in podMetrics
    ensures ResourcesOf(podMetrics, group + {k}) == ResourcesOf(podMetrics, group) + podMetrics[k].Keys
  {
  }

  /** Partition-sum law: per resource, the observed and estimated sums add up to the
      sum over all pods, whatever the estimated set. */
  lemma PartitionSum(podMetrics: PodMetricMap, estimatedPods: set<NamespacedName>, r: ResourceName)
    ensures Total(podMetrics, podMetrics.Keys - estimatedPods, r) +
            Total(podMetrics, podMetrics.Keys * estimatedPods, r) ==
            Total(podMetrics, podMetrics.Keys, r)
  {
    var keys := podMetrics.Keys;
    TotalSplit(podMetrics, keys - estimatedPods, keys * estimatedPods, r);
    assert (keys - estimatedPods) + (keys * estimatedPods) == keys;
  }
}
