/** The parts of the Kubernetes core API objects (package `corev1`) that the
    node and pod wrappers read. Only the fields the model uses are kept. */
module CoreV1 {

  /** `corev1.ConditionStatus`. */
  datatype ConditionStatus = ConditionTrue | ConditionFalse | ConditionUnknown

  /** `corev1.NodeAddressType` values used by the wrappers. */
  const NodeInternalIP: string := "InternalIP"
  const NodeHostName: string := "Hostname"

  /** `corev1.NodeReady` and `corev1.PodReady`. */
  const NodeReady: string := "Ready"
  const PodReady: string := "Ready"

  datatype NodeAddress = NodeAddress(addressType: string, address: string)

  datatype NodeCondition = NodeCondition(conditionType: string, status: ConditionStatus, message: string)

  /** A `corev1.Node`: its metadata name and labels, and its status. */
  datatype Node = Node(
    name: string,
    labels: map<string, string>,
    addresses: seq<NodeAddress>,
    conditions: seq<NodeCondition>)

  datatype OwnerReference = OwnerReference(kind: string, name: string)

  datatype PodCondition = PodCondition(conditionType: string, status: ConditionStatus, reason: string, message: string)

  datatype PodStatus = PodStatus(conditions: seq<PodCondition>)

  /** A `corev1.Pod`: its metadata (name, namespace, owners) and its status. */
  datatype Pod = Pod(
    name: string,
    namespace: string,
    ownerReferences: seq<OwnerReference>,
    status: PodStatus)
}
