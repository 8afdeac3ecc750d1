/** Resource names, quantities and resource lists (Kubernetes `corev1.ResourceList`),
    with the unit normalisation of `getResourceValue` and the per-key addition
    performed by `util.AddResourceList`. */
module Resources {

  /** A resource name such as "cpu" or "memory". */
  type ResourceName = string

  const ResourceCPU: ResourceName := "cpu"

  /** A resource quantity, held exactly in thousandths of the resource's natural unit
      (millicores for CPU, bytes/1000 for memory, ...). */
  type Quantity = int

  /** A resource list: a map from resource name to quantity. A nil Go map and an empty
      one read the same (length 0, every lookup absent), so both are `map[]`. */
  type ResourceList = map<ResourceName, Quantity>

  /** The quantity a list holds for `name`; an absent entry reads as zero. */
  function Get(list: ResourceList, name: ResourceName): Quantity
  {
    if name in list then list[name] else 0
  }

  /** `Quantity.Value()`: the quantity in whole natural units, rounded away from zero. */
  function WholeUnits(q: Quantity): (v: int)
    ensures q >= 0 ==> (v - 1) * 1000 < q <= v * 1000
    ensures q < 0 ==> v * 1000 <= q < (v + 1) * 1000
  {
    if q >= 0 then (q + 999) / 1000 else -((-q + 999) / 1000)
  }

  /** `getResourceValue`: CPU in milli-units, every other resource in whole units. */
  function GetResourceValue(name: ResourceName, q: Quantity): (v: int)
    ensures name == ResourceCPU ==> v == q
    ensures name != ResourceCPU && q >= 0 ==> (v - 1) * 1000 < q <= v * 1000
    ensures name != ResourceCPU && q < 0 ==> v * 1000 <= q < (v + 1) * 1000
  {
    if name == ResourceCPU then q else WholeUnits(q)
  }

  /** Normalisation keeps the order of quantities, for every resource. */
  lemma GetResourceValueMonotonic(name: ResourceName, q1: Quantity, q2: Quantity)
    requires q1 <= q2
    ensures GetResourceValue(name, q1) <= GetResourceValue(name, q2)
  {
  }

  /** A whole number of natural units is read back exactly, and any CPU quantity,
      fractional cores included, is read back unchanged in milli-units. */
  lemma GetResourceValueExact(name: ResourceName, units: int)
    ensures GetResourceValue(name, units * 1000) == (if name == ResourceCPU then units * 1000 else units)
    ensures GetResourceValue(ResourceCPU, units) == units
  {
  }

  /** `util.AddResourceList(acc, add)`: every entry of `add` is added to the entry of
      `acc` with the same name; an entry missing from `acc` is created. */
  function AddResourceList(acc: ResourceList, add: ResourceList): (r: ResourceList)
    ensures r.Keys == acc.Keys + add.Keys
    ensures forall name :: Get(r, name) == Get(acc, name) + Get(add, name)
  {
    map name | name in acc.Keys + add.Keys :: Get(acc, name) + Get(add, name)
  }
}
