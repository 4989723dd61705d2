/** The pod wrapper of the k8s package: a pod together with the few fields the
    HTTP responses expose. */
module K8sPod {
  import CoreV1

  /** The JSON-facing projection of a pod. */
  datatype SimplePod = SimplePod(name: string, namespace: string, status: CoreV1.PodStatus)

  /** A projection together with the wrapped API object. The Go wrapper embeds
      a pointer to the `corev1.Pod`; here the wrapped object is a value. */
  datatype Pod = Pod(simple: SimplePod, pod: CoreV1.Pod)

  /** A wrapper whose projection agrees with the object it wraps. */
  predicate Projects(p: Pod)
  {
    p.simple.name == p.pod.name
    && p.simple.namespace == p.pod.namespace
    && p.simple.status == p.pod.status
  }

  /** Wraps a pod: the projection copies the name and namespace and refers to
      the wrapped pod's own status. */
  function NewPod(pod: CoreV1.Pod): (p: Pod)
    ensures p.pod == pod
    ensures p.simple.name == pod.name
    ensures p.simple.namespace == pod.namespace
    ensures p.simple.status == pod.status
  {
    Pod(SimplePod(pod.name, pod.namespace, pod.status), pod)
  }

  /** Every wrapper NewPod builds keeps its projection in agreement with the
      wrapped pod, and wrapping is undone by taking the embedded pod: a
      consistent wrapper is exactly NewPod of what it wraps. */
  lemma NewPodProjects(pod: CoreV1.Pod, p: Pod)
    ensures Projects(NewPod(pod))
    ensures Projects(p) <==> p == NewPod(p.pod)
  {
  }
}
