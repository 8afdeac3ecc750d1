/** The daemon-workload classifier `isDaemonSetPod`. */
module Owners {

  /** A `metav1.OwnerReference`, reduced to the owner's kind. */
  datatype OwnerReference = OwnerReference(kind: string)

  const DaemonSetKind: string := "DaemonSet"

  /** `isDaemonSetPod`: some owner of the pod is a DaemonSet. */
  method IsDaemonSetPod(ownerRefList: seq<OwnerReference>) returns (isDaemon: bool)
    ensures isDaemon <==> exists i :: 0 <= i < |ownerRefList| && ownerRefList[i].kind == DaemonSetKind
  {
    for i := 0 to |ownerRefList|
      invariant forall j :: 0 <= j < i ==> ownerRefList[j].kind != DaemonSetKind
    {
      if ownerRefList[i].kind == DaemonSetKind {
        return true;
      }
    }
    return false;
  }
}
