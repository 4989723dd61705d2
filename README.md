# Talos cluster health checks, modelled in Dafny

The service answers HTTP health queries about a Talos Linux Kubernetes
cluster. For every query it fetches records from the Kubernetes API or from
the Talos machine API, judges them, and replies with 200 (healthy), 417
(expectation failed, with the reasons) or 503 (records unavailable).

This project models the parts that decide those answers:

- `handlers.dfy` (module `Handlers`) covers the judging loops of the handlers:
  - the service list and single-service checks, with their two exemption
    lists and their if / else-if rule;
  - the etcd status check, with its leader variable starting at 0 and its
    integer-division fragmentation test;
  - the etcd alarm check;
  - the pod readiness check, with its static-pod filter;
  - the node status mapping.

  Each handler is a method that takes the directory's answers and the fetch
  result as parameters. It is proved against specification functions: the
  reasons a list yields and the status they imply.
- `talos_client.dfy` (module `TalosClient`) covers the reconnecting Talos
  client:
  - a class holding one connection handle, which `RefreshConnection` closes
    and replaces;
  - the attempt closure shared by all fetchers, and the retry loop over a
    sequence of attempt outcomes, with the stop rule as a parameter;
  - the way each fetcher shapes its answer after the loop;
  - the flattening of the etcd alarms.
- `k8s_node.dfy` (module `K8sNode`) covers the node wrapper: address and name
  extraction, roles from the `node-role.kubernetes.io/` labels, address lookup
  by type, and the judgement of node conditions.
- `k8s_pod.dfy` (module `K8sPod`) covers the pod wrapper's field projection.
- Shared types:
  - `corev1.dfy` and `machine.dfy` hold the API records, keeping only the
    fields the code reads.
  - `wrappers.dfy` holds `Option`, `Result`, and `Fetched`, which models a Go
    `([]T, error)` pair.
  - `seqs.dfy` holds `FilterMap`, which keeps the `Some` results of a
    function over a sequence, with its lemmas.

Go slices built by `append` are modelled as sequences, and a nil slice is the
empty sequence. A nil pointer response is `None`. Go's truncating integer
division is `Handlers.Quot`.

## Model

| member | source | states |
|---|---|---|
| K8sPod.NewPod | k8s/pod.go:18-26 | The wrapper embeds the given pod; the projection's name and namespace are the pod's, and its status is the pod's own status |
| K8sPod.NewPodProjects | k8s/pod.go:18-26 | NewPod's projection always agrees with the wrapped pod, and a wrapper agrees with its pod iff it is NewPod of that pod |
| K8sNode.GetAddress | k8s/node.go:48-55 | Returns LastAddress of the node's status addresses for the requested type |
| K8sNode.LastAddressAbsent | k8s/node.go:48-55 | The looked-up address is "" when no entry has the type |
| K8sNode.LastAddressIsLastMatch | k8s/node.go:48-55 | When entry k has the type and no later entry does, the looked-up address is entry k's address |
| K8sNode.LastSegmentIsTextAfterLastSlash | k8s/node.go:40-41 | The last element of splitting a label at "/" is the label's longest suffix without "/": a suffix, holding no "/", and preceded by "/" unless it is the whole label |
| K8sNode.RoleCount | k8s/node.go:38-43 | Over labels seen once each, exactly one role is produced per label with the role prefix |
| K8sNode.RolesOfEnumeration | k8s/node.go:38-43 | In any iteration order of the label keys, there is one role per role label, and a string is a role iff it is the last segment of some role label |
| K8sNode.NewNode | k8s/node.go:25-46 | Embeds the node unchanged. The address is the last InternalIP address and the name the last Hostname address, "" if absent. The roles follow some iteration order of the labels, number the role labels, and are exactly their last segments |
| K8sNode.Status | k8s/node.go:57-68 | Keeps the node. There is one "<type>: <message>" error per degrading condition, in order: Ready unless True, any other unless False. The list is empty iff no condition degrades |
| TalosClient.New | talos/client.go:32-41 | A dial error gives that error behind the "failed to reinitialized talos client: " prefix; otherwise a client over a fresh, open connection |
| TalosClient.Client.constructor | talos/client.go:28-30 | The client holds the given connection handle |
| TalosClient.Client.RefreshConnection | talos/client.go:276-288 | Three outcomes. Probe succeeds: nil, handle kept and not closed. Probe fails, rebuild succeeds: nil, old handle closed and a fresh open one installed. Both fail: the handle is untouched and the error carries the prefix twice |
| TalosClient.AttemptOutcome | talos/client.go:48-62 | An attempt returns nil iff its RPC succeeded; an expected error always carries the doubled reinitialisation prefix |
| TalosClient.AttemptOutcomeCases | talos/client.go:48-62 | A failed RPC yields its own error iff the probe or the rebuild succeeded; the outcome is an expected error iff the RPC, the probe and the rebuild all failed |
| TalosClient.Client.Try | talos/client.go:48-62 | The captured response is the call's; the outcome is AttemptOutcome; the handle is replaced, the old one closed, iff the attempt reconnects, and is untouched otherwise |
| TalosClient.AttemptsRun | talos/client.go:48-62 | The loop runs at least one and at most all of the attempts |
| TalosClient.AttemptsRunStopsAtFirstFinal | talos/client.go:48-62 | Every attempt before the last one run was retried; if the loop stops before the last available attempt, the attempt it stopped on was not retried |
| TalosClient.FirstSuccessEndsLoop | talos/client.go:48-62 | A successful first attempt ends the loop with its own response and a nil error |
| TalosClient.Client.Retry | talos/client.go:48-62 | Returns the response and the outcome of the last attempt run. The handle is replaced iff some attempt run reconnected, and a replaced handle was closed |
| TalosClient.EtcdStatusResult | talos/client.go:63-70 | Any loop error discards the response and is returned behind "error getting etcd status: ". A missing response with no error is still an error. Otherwise the messages are returned with a nil error |
| TalosClient.Client.GetEtcdStatus | talos/client.go:43-71 | Answers EtcdStatusResult of the last attempt's response and outcome. The handle is replaced iff some attempt run reconnected; a new handle is fresh and open and the old one closed; a kept handle's closed state is unchanged |
| TalosClient.AlarmsConcat | talos/client.go:102-106 | Flattening consecutive runs of messages concatenates their alarms |
| TalosClient.AlarmsCons | talos/client.go:102-106 | The flattened list starts with the first message's alarms, followed by those of the rest |
| TalosClient.AlarmsLength | talos/client.go:102-106 | The flattened list has one entry per alarm of every message |
| TalosClient.AlarmsMember | talos/client.go:102-106 | An alarm is in the flattened list iff some message carries it |
| TalosClient.AlarmsEmpty | talos/client.go:74-106 | The flattened list stays empty (nil) iff no message carries an alarm |
| TalosClient.FlattenAlarms | talos/client.go:102-106 | The nested loops produce the alarms in message order, then member order, and their number is the total alarm count |
| TalosClient.EtcdAlarmsResult | talos/client.go:95-108 | No response gives nil data and an error behind "error getting status: ". Otherwise the flattened alarms come with the loop's error, which may be non-nil |
| TalosClient.Client.GetEtcdAlarms | talos/client.go:73-109 | Answers EtcdAlarmsResult of the last attempt's response and outcome. The handle is replaced iff some attempt run reconnected; a new handle is fresh and open and the old one closed; a kept handle's closed state is unchanged |
| TalosClient.ServiceListResult | talos/client.go:132-139 | No response gives nil data and an error behind "error listing services: ". Otherwise the per-node lists come with the loop's error, which may be non-nil |
| TalosClient.Client.GetServiceList | talos/client.go:111-140 | Answers ServiceListResult of the last attempt's response and outcome. The handle is replaced iff some attempt run reconnected; a new handle is fresh and open and the old one closed; a kept handle's closed state is unchanged |
| TalosClient.ServiceInfoResult | talos/client.go:162-169 | No entries gives nil data and an error behind "error getting service info: ". Otherwise the entries come with the loop's error |
| TalosClient.Client.GetServiceInfo | talos/client.go:142-170 | Answers ServiceInfoResult of the last attempt's response and outcome. The handle is replaced iff some attempt run reconnected; a new handle is fresh and open and the old one closed; a kept handle's closed state is unchanged |
| TalosClient.PartialAnswers | talos/client.go:63-139 | After a loop error with a response in hand, the service list keeps the data and passes the error on, while the etcd status discards the data |
| Handlers.Judgement | main.go:249-274 | The status is 200 iff no reason was found, 417 otherwise |
| Handlers.Addresses | main.go:232-234 | The targets are the nodes' internal addresses, one per node, in order |
| Handlers.ServiceReasonsEmpty | main.go:260-270 | A list of services yields no reason iff every service passes the rule |
| Handlers.NotHealthyIsNotNotRunning | main.go:262-269 | The "not healthy" and "not running" messages of a service differ |
| Handlers.ServiceReasonCases | main.go:260-270 | "Not healthy" iff not exempt and unhealthy. "Not running" iff exempt or healthy, and not Running. No reason iff exempt or healthy, and Running. So an unhealthy service is never reported as not running |
| Handlers.ExemptionScenarios | main.go:252-327 | An unhealthy but Running dashboard yields no reason under either list. An unhealthy ext-lldpd is "not healthy" for the single-service handler, and passes the list handler iff it is Running |
| Handlers.EntriesConcat | main.go:253-258 | The recorded (node, service) pairs of consecutive node lists concatenate |
| Handlers.EntriesLength | main.go:253-258 | One pair is recorded per service of every node |
| Handlers.EntriesMember | main.go:253-258 | A pair is recorded iff some node reports that service under that hostname |
| Handlers.CheckService | main.go:260-270 | One service appends its reason, if any, and then sets 417; a passing service changes nothing |
| Handlers.CheckNodeServices | main.go:254-271 | For one node, appends every pair and the reasons of the failing services; the status becomes 417 iff a reason was appended |
| Handlers.CheckServiceList | main.go:249-272 | Records every pair in node-then-service order and appends one reason per failing service after the carried errors. 417 iff some service fails, whatever errors were carried |
| Handlers.CheckServices | main.go:322-338 | Appends one reason per failing entry after the carried errors. 417 iff some entry fails, whatever errors were carried |
| Handlers.ServiceListHandler | main.go:204-275 | 503 when the named node's lookup fails, or when listing all nodes fails with no node listed (an empty listing without an error goes on with no targets). 503 when the fetch fails with nothing received. Otherwise all pairs, and the directory and fetch errors before the service reasons; a carried error alone leaves 200 |
| Handlers.ServiceHandler | main.go:277-341 | 503 on any node lookup error, or when the fetch fails with nothing received. Otherwise the entries, the fetch error before the reasons, and 417 iff some entry fails |
| Handlers.ElectedLeaderSnoc | main.go:380-385 | Seeing one more member sets the leader only while it is still 0 |
| Handlers.AnyDividesByZeroMeans | main.go:388-389 | The loop divides by zero iff some member's size is zero yet above the threshold |
| Handlers.EtcdStep | main.go:378-394 | One more member updates the leader, appends its own reasons, and divides by zero iff it has a zero size above the threshold |
| Handlers.CheckMember | main.go:379-393 | Panics iff the member divides by zero. Otherwise it sets the leader if none was known, appends the leader reason then the fragmentation reason, and sets 417 iff it appended one |
| Handlers.CheckEtcdStatus | main.go:377-395 | 500 (panic) iff some member divides by zero. Otherwise every member is listed, the reasons are EtcdReasons, and the status is 417 iff there is one |
| Handlers.EtcdStatusHandler | main.go:343-396 | 503 on a control-plane lookup error or a fetch error; otherwise CheckEtcdStatus of the fetched members |
| Handlers.OneDissenter | main.go:380-385 | Leaders 7, 7, 3 give exactly one leader reason |
| Handlers.FirstLeaderWins | main.go:380-385 | Leaders 7, 3, 3 give two leader reasons: members are compared with the first leader seen, not with a majority |
| Handlers.NoLeaderAfterLeader | main.go:380-385 | Leaders 0, 7, 0 give one reason: a 0 is skipped before a leader is known and counts as a disagreement after |
| Handlers.ElectedLeaderOfAgreeing | main.go:380-382 | Members that all report the same non-zero leader elect it |
| Handlers.AgreeingMembersPass | main.go:377-394 | Members agreeing on one non-zero leader, none fragmented, give no reason |
| Handlers.FragmentedMeansFullyUsed | main.go:388-392 | For a positive size above the threshold and a non-negative amount in use, the fragmentation reason fires iff the amount in use is at least the whole size |
| Handlers.EtcdAlarmsHandler | main.go:398-427 | 503 on a lookup or fetch error. Otherwise 417 with the alarms iff there are any, and 200 "No alarms present" iff there are none |
| Handlers.HasNodeOwnerSnoc | main.go:178-183 | After one more owner reference, `ok` holds iff it held before or the reference is of kind Node |
| Handlers.CopiesCount | main.go:177-187 | In static mode a pod is listed once per owner reference of kind Node, so not at all without one. Otherwise it is listed exactly once. Every copy is the pod's projection |
| Handlers.EveryPodListed | main.go:184-187 | Outside static mode, the listing is every pod's projection, in order |
| Handlers.PodReasonsEmpty | main.go:189-198 | There is no pod reason iff no listed pod has a PodReady condition that is neither True nor PodCompleted |
| Handlers.ListNodeOwned | main.go:178-183 | Appends one copy per Node owner reference; `ok` holds iff the pod has one |
| Handlers.CheckPodConditions | main.go:190-197 | Appends one "Pod '<ns>/<name>' not ready: <message>" per failing readiness condition; sets 417 iff it appended one |
| Handlers.CheckPods | main.go:172-199 | The listing is PodItems and the reasons PodReasons. 417 iff some listed pod is unready |
| Handlers.PodsHandler | main.go:148-202 | Selects by "spec.nodeName=<name>" when a node is named. 503 on a fetch error; otherwise the listing, the reasons and their judgement |
| Handlers.NodeStatusHandler | main.go:446-465 | 503 when the node lookup fails. Otherwise the node's status, and 200 iff no condition degrades (417 otherwise) |

## Left out

- HTTP plumbing is not modelled: gin routing, basic auth, logging, the
  recovery middleware (only its 500 answer to a panic is), `/ping`, and JSON
  writing.
- Environment setup, credential generation and trusted proxies are not
  modelled.
- The `static` and `minDbSize` queries arrive already parsed. `staticOnly` is
  `static == "true"`. `minDbSize` is an integer parameter whose default is
  `Handlers.DefaultMinDbSize` (512MiB). The parser is a library the model
  does not see; a parse error gives 0.
- The timing of the retry library and which returned errors it retries are
  not modelled. The loop runs over a given non-empty sequence of attempt
  outcomes, with the stop rule as the parameter `retries`. The wrapping the
  library adds to the loop's error is not modelled either: the loop returns
  the attempt's error text.
- The Talos RPCs, the `Version` probe and the client library's constructor
  are parameters of each attempt. The Kubernetes client (`k8s/client.go`) is
  not part of this model; its answers are the `Handlers.Directory` value.
  `talos.go` is not part of this model either.
- The image, metadata, system-information and time endpoints, and the
  `getNodes` handler, are not modelled. They are library formatting and
  remote lookups outside the health judgement.
- Concurrent use of the shared connection handle is not modelled.
- Handlers.FragmentedMeansFullyUsed: the `float64` conversion is not
  modelled, because it is applied to an integer quotient, and `q > 0.5` for an
  integer `q` is `q >= 1`.
- Pointers are modelled as values: `K8sNode.Node` and `K8sPod.Pod` hold the
  wrapped object itself, so aliasing between a wrapper and the object is not
  captured.
- TalosClient.ServiceInfoResult: an empty but non-nil slice from the client
  library is treated like nil. Every slice in the model is nil exactly when
  it is empty.
- Handlers.CheckEtcdStatus: a member with a zero size above a negative
  threshold makes the Go handler divide by zero. The model answers
  `Panicked` (500 from the recovery middleware) and does not model the
  partial response that a panic discards.
- The fetchers write the retry loop's error to standard error before shaping
  their answer. That output is not modelled.
- Handlers.Quot: integers are unbounded, so the 64-bit wrap-around of Go's
  division is not modelled. `MinInt64 / -1` wraps to `MinInt64` in Go but
  is 2^63 here. `Fragmented` therefore differs only for a size of -1 above
  the threshold with `MinInt64` bytes in use.
- TalosClient.Connection: only whether a connection was closed is observed.
  The client library's connection is not part of this model.
