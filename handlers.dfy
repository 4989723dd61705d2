/** The decision logic of the HTTP handlers: how each handler turns the
    records it fetched into an HTTP status code and a list of reasons.

    The handlers do not call the clients here: the Kubernetes directory's
    answers are a `Directory` value, and each Talos fetch is a function from
    the target node addresses to what the fetcher returned. Routing,
    authentication and JSON writing are not modelled. */
module Handlers {
  import opened Wrappers
  import opened Seqs
  import CoreV1
  import K8sNode
  import K8sPod
  import Machine

  const StatusOK: int := 200
  const StatusExpectationFailed: int := 417

  /** A handler's answer: `Unavailable` is 503 with the error, `Panicked` is
      500 after a runtime panic (caught by the recovery middleware), and
      `Report` carries the status (200 or 417) with the records and the
      reasons. */
  datatype Reply<T> =
    | Unavailable(error: string)
    | Panicked
    | Report(status: int, items: seq<T>, errors: seq<string>)

  /** What the Kubernetes directory client answers: one node by name, all
      nodes, the nodes of a role, and the pods of a namespace selected by a
      field selector. */
  datatype Directory = Directory(
    getNode: string -> Result<K8sNode.Node, string>,
    getNodes: Fetched<K8sNode.Node>,
    getNodesByRole: string -> Fetched<K8sNode.Node>,
    getPods: (string, string) -> Fetched<K8sPod.Pod>)

  /** 200 when no reason was found, 417 otherwise. */
  function Judgement(reasons: seq<string>): (status: int)
    ensures status == StatusOK <==> reasons == []
    ensures status == StatusOK || status == StatusExpectationFailed
  {
    if reasons == [] then StatusOK else StatusExpectationFailed
  }

  // ---------------------------------------------------------------------
  // Target addresses

  function AddressesOf(nodes: seq<K8sNode.Node>): seq<string>
  {
    seq(|nodes|, i requires 0 <= i < |nodes| => nodes[i].simple.address)
  }

  /** The internal addresses of the nodes, in order. */
  method Addresses(nodes: seq<K8sNode.Node>) returns (addresses: seq<string>)
    ensures |addresses| == |nodes|
    ensures forall i :: 0 <= i < |nodes| ==> addresses[i] == nodes[i].simple.address
  {
    addresses := [];
    var i := 0;
    while i < |nodes|
      invariant 0 <= i <= |nodes|
      invariant |addresses| == i
      invariant forall k :: 0 <= k < i ==> addresses[k] == nodes[k].simple.address
    {
      addresses := addresses + [nodes[i].simple.address];
      i := i + 1;
    }
  }

  // ---------------------------------------------------------------------
  // Services

  /** Services that never report healthy: the list handler's set and the
      single-service handler's set, which lacks "ext-lldpd". */
  const ListHealthUnknown: seq<string> := ["dashboard", "ext-iscsid", "ext-qemu-guest-agent", "ext-lldpd"]
  const InfoHealthUnknown: seq<string> := ["dashboard", "ext-iscsid", "ext-qemu-guest-agent"]

  const Running: string := "Running"

  function NotHealthy(info: Machine.ServiceInfo): string
  {
    "Service '" + info.service.id + "' on " + info.hostname + " not healthy"
  }

  function NotRunning(info: Machine.ServiceInfo): string
  {
    "Service '" + info.service.id + "' on " + info.hostname + " not running"
  }

  /** The reason one service on one node contributes, if any. Being unhealthy
      takes precedence: an unhealthy service is never also reported as not
      running. */
  function ServiceReason(healthUnknown: seq<string>, info: Machine.ServiceInfo): Option<string>
  {
    if info.service.id !in healthUnknown && !info.service.healthy then Some(NotHealthy(info))
    else if info.service.state != Running then Some(NotRunning(info))
    else None
  }

  function ServiceCheck(healthUnknown: seq<string>): Machine.ServiceInfo -> Option<string>
  {
    (info: Machine.ServiceInfo) => ServiceReason(healthUnknown, info)
  }

  /** No reason iff every service passes. */
  lemma ServiceReasonsEmpty(healthUnknown: seq<string>, services: seq<Machine.ServiceInfo>)
    ensures FilterMap(ServiceCheck(healthUnknown), services) == [] <==>
              forall k :: 0 <= k < |services| ==> ServiceReason(healthUnknown, services[k]).None?
  {
    FilterMapEmpty(ServiceCheck(healthUnknown), services);
  }

  lemma NotHealthyIsNotNotRunning(info: Machine.ServiceInfo)
    ensures NotHealthy(info) != NotRunning(info)
  {
    var p := "Service '" + info.service.id + "' on " + info.hostname + " not ";
    assert NotHealthy(info) == p + "healthy";
    assert NotRunning(info) == p + "running";
    assert NotHealthy(info)[|p|] == 'h';
  }

  /** The three outcomes of judging a service: "not healthy" iff it is not
      exempt and unhealthy; "not running" iff it is exempt or healthy and
      not Running; nothing otherwise. */
  lemma ServiceReasonCases(healthUnknown: seq<string>, info: Machine.ServiceInfo)
    ensures ServiceReason(healthUnknown, info) == Some(NotHealthy(info)) <==>
              info.service.id !in healthUnknown && !info.service.healthy
    ensures ServiceReason(healthUnknown, info) == Some(NotRunning(info)) <==>
              (info.service.id in healthUnknown || info.service.healthy) && info.service.state != Running
    ensures ServiceReason(healthUnknown, info).None? <==>
              (info.service.id in healthUnknown || info.service.healthy) && info.service.state == Running
  {
    NotHealthyIsNotNotRunning(info);
  }

  /** An unhealthy but Running dashboard yields no reason under either list;
      an unhealthy ext-lldpd is reported by the single-service handler only. */
  lemma ExemptionScenarios(host: string, state: string)
    ensures ServiceReason(ListHealthUnknown, Machine.ServiceInfo(host, Machine.Service("dashboard", Running, false))).None?
    ensures ServiceReason(InfoHealthUnknown, Machine.ServiceInfo(host, Machine.Service("dashboard", Running, false))).None?
    ensures var lldpd := Machine.ServiceInfo(host, Machine.Service("ext-lldpd", state, false));
              ServiceReason(InfoHealthUnknown, lldpd) == Some(NotHealthy(lldpd))
              && (ServiceReason(ListHealthUnknown, lldpd).None? <==> state == Running)
  {
    var lldpd := Machine.ServiceInfo(host, Machine.Service("ext-lldpd", state, false));
    assert "ext-lldpd" == ListHealthUnknown[3];
    assert "ext-lldpd"[0] != "dashboard"[0];
    assert "ext-lldpd"[4] != "ext-iscsid"[4];
    assert |"ext-lldpd"| != |"ext-qemu-guest-agent"|;
    assert "ext-lldpd" !in InfoHealthUnknown;
  }

  /** One entry per (node, service) pair, in node order, then service order. */
  function NodeEntries(list: Machine.ServiceList): seq<Machine.ServiceInfo>
  {
    seq(|list.services|, j requires 0 <= j < |list.services| => Machine.ServiceInfo(list.hostname, list.services[j]))
  }

  function Entries(lists: seq<Machine.ServiceList>): seq<Machine.ServiceInfo>
  {
    if lists == [] then []
    else Entries(lists[..|lists| - 1]) + NodeEntries(lists[|lists| - 1])
  }

  function ServiceCount(lists: seq<Machine.ServiceList>): nat
  {
    if lists == [] then 0 else ServiceCount(lists[..|lists| - 1]) + |lists[|lists| - 1].services|
  }

  lemma {:induction false} EntriesConcat(a: seq<Machine.ServiceList>, b: seq<Machine.ServiceList>)
    ensures Entries(a + b) == Entries(a) + Entries(b)
  {
    if b == [] {
      assert a + b == a;
    } else {
      var init, last := b[..|b| - 1], b[|b| - 1];
      calc {
        Entries(a + b);
      == { assert (a + b)[..|a + b| - 1] == a + init; assert (a + b)[|a + b| - 1] == last; }
        Entries(a + init) + NodeEntries(last);
      == { EntriesConcat(a, init); }
        Entries(a) + Entries(init) + NodeEntries(last);
      == { assert Entries(b) == Entries(init) + NodeEntries(last); }
        Entries(a) + Entries(b);
      }
    }
  }

  /** Every (node, service) pair is listed once: the entries number the
      services of all nodes. */
  lemma {:induction false} EntriesLength(lists: seq<Machine.ServiceList>)
    ensures |Entries(lists)| == ServiceCount(lists)
  {
    if lists != [] {
      EntriesLength(lists[..|lists| - 1]);
    }
  }

  /** A pair is listed iff some node reports that service under that
      hostname. */
  lemma {:induction false} EntriesMember(lists: seq<Machine.ServiceList>, e: Machine.ServiceInfo)
    ensures e in Entries(lists) <==>
              exists i, j :: 0 <= i < |lists| && 0 <= j < |lists[i].services|
                && lists[i].hostname == e.hostname && lists[i].services[j] == e.service
  {
    if lists != [] {
      var n := |lists| - 1;
      var init, last := lists[..n], lists[n];
      EntriesMember(init, e);
      assert Entries(lists) == Entries(init) + NodeEntries(last);
      if e in Entries(init) {
        var i, j :| 0 <= i < |init| && 0 <= j < |init[i].services|
                 && init[i].hostname == e.hostname && init[i].services[j] == e.service;
        assert lists[i] == init[i];
      }
      if e in NodeEntries(last) {
        var j :| 0 <= j < |last.services| && NodeEntries(last)[j] == e;
        assert lists[n].services[j] == e.service;
      }
      if exists i, j :: 0 <= i < |lists| && 0 <= j < |lists[i].services|
           && lists[i].hostname == e.hostname && lists[i].services[j] == e.service {
        var i, j :| 0 <= i < |lists| && 0 <= j < |lists[i].services|
                 && lists[i].hostname == e.hostname && lists[i].services[j] == e.service;
        if i == n {
          assert NodeEntries(last)[j] == e;
        } else {
          assert init[i] == lists[i];
        }
      }
    }
  }

  /** The rule applied to one service: its reason, if any, is appended and
      the status becomes 417; a passing service changes nothing. */
  method CheckService(healthUnknown: seq<string>, info: Machine.ServiceInfo, errors0: seq<string>, status0: int)
    returns (errors: seq<string>, status: int)
    ensures errors == errors0 + OptionToSeq(ServiceReason(healthUnknown, info))
    ensures status == if ServiceReason(healthUnknown, info).None? then status0 else StatusExpectationFailed
  {
    errors, status := errors0, status0;
    if info.service.id !in healthUnknown && !info.service.healthy {
      status := StatusExpectationFailed;
      errors := errors + [NotHealthy(info)];
    } else if info.service.state != Running {
      status := StatusExpectationFailed;
      errors := errors + [NotRunning(info)];
    }
  }

  /** The inner loop of the list handler, over the services of one node:
      records each pair and appends its reason; the status becomes 417 iff a
      reason was appended. */
  method CheckNodeServices(healthUnknown: seq<string>, nodeService: Machine.ServiceList, services0: seq<Machine.ServiceInfo>,
                           errors0: seq<string>, status0: int)
    returns (services: seq<Machine.ServiceInfo>, errors: seq<string>, status: int)
    ensures services == services0 + NodeEntries(nodeService)
    ensures errors == errors0 + FilterMap(ServiceCheck(healthUnknown), NodeEntries(nodeService))
    ensures status == if |FilterMap(ServiceCheck(healthUnknown), NodeEntries(nodeService))| == 0 then status0
                      else StatusExpectationFailed
  {
    ghost var entries := NodeEntries(nodeService);
    ghost var check := ServiceCheck(healthUnknown);
    ghost var reasons: seq<string> := [];
    services, errors, status := services0, errors0, status0;
    var j := 0;
    while j < |nodeService.services|
      invariant 0 <= j <= |nodeService.services|
      invariant services == services0 + entries[..j]
      invariant reasons == FilterMap(check, entries[..j])
      invariant errors == errors0 + reasons
      invariant status == if |reasons| == 0 then status0 else StatusExpectationFailed
    {
      var svc := nodeService.services[j];
      var info := Machine.ServiceInfo(nodeService.hostname, svc);
      assert entries[j] == info;
      assert entries[..j + 1] == entries[..j] + [info];
      FilterMapSnoc(check, entries[..j], info);
      ConcatAssoc(services0, entries[..j], [info]);
      ConcatAssoc(errors0, reasons, OptionToSeq(ServiceReason(healthUnknown, info)));
      reasons := reasons + OptionToSeq(ServiceReason(healthUnknown, info));
      services := services + [info];
      errors, status := CheckService(healthUnknown, info, errors, status);
      j := j + 1;
    }
    assert entries[..j] == entries;
  }

  /** The list handler's loop: records every (node, service) pair and
      appends the reason of each one that fails; the status becomes 417 iff
      some reason was appended, whatever `errors0` already held. */
  method CheckServiceList(healthUnknown: seq<string>, serviceList: seq<Machine.ServiceList>, errors0: seq<string>)
    returns (services: seq<Machine.ServiceInfo>, errors: seq<string>, status: int)
    ensures services == Entries(serviceList)
    ensures errors == errors0 + FilterMap(ServiceCheck(healthUnknown), services)
    ensures status == Judgement(FilterMap(ServiceCheck(healthUnknown), services))
    ensures status == StatusExpectationFailed <==>
              exists k :: 0 <= k < |services| && ServiceReason(healthUnknown, services[k]).Some?
  {
    status := StatusOK;
    services := [];
    errors := errors0;
    ghost var check := ServiceCheck(healthUnknown);
    var i := 0;
    while i < |serviceList|
      invariant 0 <= i <= |serviceList|
      invariant services == Entries(serviceList[..i])
      invariant errors == errors0 + FilterMap(check, services)
      invariant status == if |FilterMap(check, services)| == 0 then StatusOK else StatusExpectationFailed
    {
      var nodeService := serviceList[i];
      ghost var added := NodeEntries(nodeService);
      assert serviceList[..i + 1][..i] == serviceList[..i];
      assert Entries(serviceList[..i + 1]) == services + added;
      FilterMapConcat(check, services, added);
      ConcatAssoc(errors0, FilterMap(check, services), FilterMap(check, added));
      services, errors, status := CheckNodeServices(healthUnknown, nodeService, services, errors, status);
      i := i + 1;
    }
    assert serviceList[..i] == serviceList;
    ServiceReasonsEmpty(healthUnknown, services);
  }

  /** The single-service handler's loop over the entries it fetched. */
  method CheckServices(healthUnknown: seq<string>, services: seq<Machine.ServiceInfo>, errors0: seq<string>)
    returns (errors: seq<string>, status: int)
    ensures errors == errors0 + FilterMap(ServiceCheck(healthUnknown), services)
    ensures status == Judgement(FilterMap(ServiceCheck(healthUnknown), services))
    ensures status == StatusExpectationFailed <==>
              exists k :: 0 <= k < |services| && ServiceReason(healthUnknown, services[k]).Some?
  {
    ghost var check := ServiceCheck(healthUnknown);
    ghost var reasons: seq<string> := [];
    status := StatusOK;
    errors := errors0;
    var i := 0;
    while i < |services|
      invariant 0 <= i <= |services|
      invariant reasons == FilterMap(check, services[..i])
      invariant errors == errors0 + reasons
      invariant status == if |reasons| == 0 then StatusOK else StatusExpectationFailed
    {
      var svc := services[i];
      assert services[..i + 1] == services[..i] + [svc];
      FilterMapSnoc(check, services[..i], svc);
      ConcatAssoc(errors0, reasons, OptionToSeq(ServiceReason(healthUnknown, svc)));
      reasons := reasons + OptionToSeq(ServiceReason(healthUnknown, svc));
      errors, status := CheckService(healthUnknown, svc, errors, status);
      i := i + 1;
    }
    assert services[..i] == services;
    assert reasons == FilterMap(check, services);
    ServiceReasonsEmpty(healthUnknown, services);
  }

  /** The addresses the list handler asks about, or the error that makes it
      answer 503: one node by name, or all nodes, tolerating a directory
      error as long as some nodes were listed. */
  function ListTargets(name: string, dir: Directory): Result<seq<string>, string>
  {
    if name != "" then
      match dir.getNode(name)
      case Err(e) => Err(e)
      case Ok(node) => Ok([node.simple.address])
    else if dir.getNodes.err.Some? && dir.getNodes.data == [] then Err(dir.getNodes.err.value)
    else Ok(AddressesOf(dir.getNodes.data))
  }

  /** The single-service handler asks the same nodes but does not tolerate
      any directory error. */
  function InfoTargets(name: string, dir: Directory): Result<seq<string>, string>
  {
    if name != "" then
      match dir.getNode(name)
      case Err(e) => Err(e)
      case Ok(node) => Ok([node.simple.address])
    else if dir.getNodes.err.Some? then Err(dir.getNodes.err.value)
    else Ok(AddressesOf(dir.getNodes.data))
  }

  /** GET the services of all nodes, or of the node `name`. 503 when the
      nodes cannot be resolved or the fetch fails with nothing received;
      otherwise every (node, service) pair, the directory and fetch errors
      followed by one reason per failing service, and 417 iff some service
      fails, whatever errors were carried. */
  method ServiceListHandler(name: string, dir: Directory, fetch: seq<string> -> Fetched<Machine.ServiceList>)
    returns (reply: Reply<Machine.ServiceInfo>)
    ensures ListTargets(name, dir).Err? ==> reply == Unavailable(ListTargets(name, dir).error)
    ensures ListTargets(name, dir).Ok? ==>
              var fetched := fetch(ListTargets(name, dir).value);
              (fetched.err.Some? && fetched.data == [] ==> reply == Unavailable(fetched.err.value))
              && (fetched.err.None? || fetched.data != [] ==>
                    reply.Report?
                    && reply.items == Entries(fetched.data)
                    && reply.errors == (if name == "" then OptionToSeq(dir.getNodes.err) else [])
                                       + OptionToSeq(fetched.err)
                                       + FilterMap(ServiceCheck(ListHealthUnknown), reply.items)
                    && reply.status == Judgement(FilterMap(ServiceCheck(ListHealthUnknown), reply.items)))
  {
    var nodes: seq<string>;
    var errors: seq<string> := [];
    if name != "" {
      var node := dir.getNode(name);
      if node.Err? {
        return Unavailable(node.error);
      }
      nodes := [node.value.simple.address];
    } else {
      var nodeList := dir.getNodes;
      if nodeList.err.Some? {
        if nodeList.data == [] {
          return Unavailable(nodeList.err.value);
        }
        errors := errors + [nodeList.err.value];
      }
      nodes := Addresses(nodeList.data);
      assert nodes == AddressesOf(nodeList.data);
    }
    assert ListTargets(name, dir) == Ok(nodes);
    assert errors == if name == "" then OptionToSeq(dir.getNodes.err) else [];
    var serviceList := fetch(nodes);
    if serviceList.err.Some? {
      if serviceList.data == [] {
        return Unavailable(serviceList.err.value);
      }
      errors := errors + [serviceList.err.value];
    }
    assert errors == (if name == "" then OptionToSeq(dir.getNodes.err) else []) + OptionToSeq(serviceList.err);
    var services, status;
    services, errors, status := CheckServiceList(ListHealthUnknown, serviceList.data, errors);
    return Report(status, services, errors);
  }

  /** GET one service (by id) on all nodes, or on the node `name`. */
  method ServiceHandler(name: string, service: string, dir: Directory,
                        fetch: (seq<string>, string) -> Fetched<Machine.ServiceInfo>)
    returns (reply: Reply<Machine.ServiceInfo>)
    ensures InfoTargets(name, dir).Err? ==> reply == Unavailable(InfoTargets(name, dir).error)
    ensures InfoTargets(name, dir).Ok? ==>
              var fetched := fetch(InfoTargets(name, dir).value, service);
              (fetched.err.Some? && fetched.data == [] ==> reply == Unavailable(fetched.err.value))
              && (fetched.err.None? || fetched.data != [] ==>
                    reply.Report?
                    && reply.items == fetched.data
                    && reply.errors == OptionToSeq(fetched.err) + FilterMap(ServiceCheck(InfoHealthUnknown), reply.items)
                    && reply.status == Judgement(FilterMap(ServiceCheck(InfoHealthUnknown), reply.items)))
  {
    var nodes: seq<string>;
    if name != "" {
      var node := dir.getNode(name);
      if node.Err? {
        return Unavailable(node.error);
      }
      nodes := [node.value.simple.address];
    } else {
      var nodeList := dir.getNodes;
      if nodeList.err.Some? {
        return Unavailable(nodeList.err.value);
      }
      nodes := Addresses(nodeList.data);
      assert nodes == AddressesOf(nodeList.data);
    }
    assert InfoTargets(name, dir) == Ok(nodes);
    var services := fetch(nodes, service);
    var errors: seq<string> := [];
    if services.err.Some? {
      if services.data == [] {
        return Unavailable(services.err.value);
      }
      errors := errors + [services.err.value];
    }
    assert errors == OptionToSeq(services.err);
    var status;
    errors, status := CheckServices(InfoHealthUnknown, services.data, errors);
    return Report(status, services.data, errors);
  }

  // ---------------------------------------------------------------------
  // Etcd status

  const LeaderMismatch: string := "Members don't agree on the same leader"
  /** The message as written, with its doubled '%'. */
  const Fragmentation: string := "db exceeds 50%% fragmentation"
  const ControlPlane: string := "control-plane"
  /** The `minDbSize` query's default, 512MiB. */
  const DefaultMinDbSize: int := 512 * 1024 * 1024

  function Abs(x: int): nat
  {
    if x < 0 then -x else x
  }

  /** Go's integer division, which truncates toward zero. */
  function Quot(a: int, b: int): int
    requires b != 0
  {
    var q := Abs(a) / Abs(b);
    if (a < 0) == (b < 0) then q else -q
  }

  /** The value the handler's `leader` holds after it has seen `members`:
      the first non-zero leader any of them reports, or 0. */
  function ElectedLeader(members: seq<Machine.EtcdStatus>): nat
  {
    if members == [] then 0
    else if members[0].memberStatus.leader != 0 then members[0].memberStatus.leader
    else ElectedLeader(members[1..])
  }

  /** Seeing one more member sets the leader only while none is known. */
  lemma {:induction false} ElectedLeaderSnoc(members: seq<Machine.EtcdStatus>, m: Machine.EtcdStatus)
    ensures ElectedLeader(members + [m]) ==
              if ElectedLeader(members) == 0 then m.memberStatus.leader else ElectedLeader(members)
  {
    if members != [] {
      assert (members + [m])[1..] == members[1..] + [m];
      ElectedLeaderSnoc(members[1..], m);
    } else {
      assert [m][1..] == [];
    }
  }

  /** The member's size is above the threshold and zero: the handler then
      divides by zero, which panics. Only a negative threshold allows it. */
  predicate DividesByZero(m: Machine.EtcdStatus, minDbSize: int)
  {
    m.memberStatus.dbSize > minDbSize && m.memberStatus.dbSize == 0
  }

  /** Some member of `members` makes the handler divide by zero. */
  predicate AnyDividesByZero(members: seq<Machine.EtcdStatus>, minDbSize: int)
  {
    members != [] && (AnyDividesByZero(members[..|members| - 1], minDbSize) || DividesByZero(members[|members| - 1], minDbSize))
  }

  lemma {:induction false} AnyDividesByZeroMeans(members: seq<Machine.EtcdStatus>, minDbSize: int)
    ensures AnyDividesByZero(members, minDbSize) <==>
              exists k :: 0 <= k < |members| && DividesByZero(members[k], minDbSize)
  {
    if members != [] {
      var init := members[..|members| - 1];
      AnyDividesByZeroMeans(init, minDbSize);
      assert forall k :: 0 <= k < |init| ==> init[k] == members[k];
    }
  }

  /** The fragmentation test: above the threshold and the integer quotient
      in-use / size, converted to a float, above 0.5 -- for an integer
      quotient, at least 1. */
  predicate Fragmented(m: Machine.EtcdStatus, minDbSize: int)
  {
    m.memberStatus.dbSize > minDbSize && m.memberStatus.dbSize != 0
    && Quot(m.memberStatus.dbSizeInUse, m.memberStatus.dbSize) >= 1
  }

  /** The leader reason member `m` adds once `elected` is the leader seen
      so far: when one is known and `m` reports another one (0 included). */
  function LeaderReason(elected: nat, m: Machine.EtcdStatus): seq<string>
  {
    if elected != 0 && m.memberStatus.leader != elected then [LeaderMismatch] else []
  }

  function FragmentationReason(m: Machine.EtcdStatus, minDbSize: int): seq<string>
  {
    if Fragmented(m, minDbSize) then [Fragmentation] else []
  }

  /** The reasons member `m` adds once `elected` is the leader seen so far:
      the leader reason, then the fragmentation reason. */
  function MemberReasons(elected: nat, m: Machine.EtcdStatus, minDbSize: int): seq<string>
  {
    LeaderReason(elected, m) + FragmentationReason(m, minDbSize)
  }

  function EtcdReasons(members: seq<Machine.EtcdStatus>, minDbSize: int): seq<string>
  {
    if members == [] then []
    else EtcdReasons(members[..|members| - 1], minDbSize)
         + MemberReasons(ElectedLeader(members[..|members| - 1]), members[|members| - 1], minDbSize)
  }

  /** What one more member changes in the loop's ghost state. */
  lemma EtcdStep(before: seq<Machine.EtcdStatus>, m: Machine.EtcdStatus, minDbSize: int)
    ensures ElectedLeader(before + [m]) ==
              if ElectedLeader(before) == 0 then m.memberStatus.leader else ElectedLeader(before)
    ensures EtcdReasons(before + [m], minDbSize) ==
              EtcdReasons(before, minDbSize) + MemberReasons(ElectedLeader(before), m, minDbSize)
    ensures AnyDividesByZero(before + [m], minDbSize) <==>
              AnyDividesByZero(before, minDbSize) || DividesByZero(m, minDbSize)
  {
    assert (before + [m])[..|before|] == before;
    ElectedLeaderSnoc(before, m);
  }

  /** The body of the etcd status handler's loop for one member: the leader
      check against the leader seen so far, then, above the size threshold,
      the division that panics on a zero size and the fragmentation check. */
  method CheckMember(leader0: nat, etcdStatus: Machine.EtcdStatus, minDbSize: int, errors0: seq<string>, status0: int)
    returns (leader: nat, errors: seq<string>, status: int, panicked: bool)
    ensures panicked <==> DividesByZero(etcdStatus, minDbSize)
    ensures !panicked ==>
              && leader == (if leader0 == 0 then etcdStatus.memberStatus.leader else leader0)
              && errors == errors0 + MemberReasons(leader0, etcdStatus, minDbSize)
              && status == if |MemberReasons(leader0, etcdStatus, minDbSize)| == 0 then status0 else StatusExpectationFailed
  {
    leader, errors, status, panicked := leader0, errors0, status0, false;
    if leader == 0 {
      leader := etcdStatus.memberStatus.leader;
    } else if leader != etcdStatus.memberStatus.leader {
      status := StatusExpectationFailed;
      errors := errors + [LeaderMismatch];
    }
    assert errors == errors0 + LeaderReason(leader0, etcdStatus);
    if etcdStatus.memberStatus.dbSize > minDbSize {
      if etcdStatus.memberStatus.dbSize == 0 {
        panicked := true;
        return;
      }
      if Quot(etcdStatus.memberStatus.dbSizeInUse, etcdStatus.memberStatus.dbSize) >= 1 {
        status := StatusExpectationFailed;
        errors := errors + [Fragmentation];
      }
    }
    ConcatAssoc(errors0, LeaderReason(leader0, etcdStatus), FragmentationReason(etcdStatus, minDbSize));
  }

  /** The etcd status handler's loop: records every member, checks leader
      agreement and fragmentation member by member, and panics at the first
      member whose size is zero yet above the threshold. */
  method CheckEtcdStatus(etcdStatusList: seq<Machine.EtcdStatus>, minDbSize: int)
    returns (reply: Reply<Machine.EtcdStatus>)
    ensures reply.Panicked? <==> exists k :: 0 <= k < |etcdStatusList| && DividesByZero(etcdStatusList[k], minDbSize)
    ensures !reply.Panicked? ==>
              reply == Report(Judgement(EtcdReasons(etcdStatusList, minDbSize)), etcdStatusList,
                              EtcdReasons(etcdStatusList, minDbSize))
  {
    var leader: nat := 0;
    var statuses: seq<Machine.EtcdStatus> := [];
    var errors: seq<string> := [];
    var status := StatusOK;
    var i := 0;
    while i < |etcdStatusList|
      invariant 0 <= i <= |etcdStatusList|
      invariant statuses == etcdStatusList[..i]
      invariant !AnyDividesByZero(statuses, minDbSize)
      invariant leader == ElectedLeader(statuses)
      invariant errors == EtcdReasons(statuses, minDbSize)
      invariant status == if |errors| == 0 then StatusOK else StatusExpectationFailed
    {
      var etcdStatus := etcdStatusList[i];
      assert etcdStatusList[..i + 1] == statuses + [etcdStatus];
      EtcdStep(statuses, etcdStatus, minDbSize);
      statuses := statuses + [etcdStatus];
      var panicked;
      leader, errors, status, panicked := CheckMember(leader, etcdStatus, minDbSize, errors, status);
      if panicked {
        assert DividesByZero(etcdStatusList[i], minDbSize);
        return Panicked;
      }
      i := i + 1;
    }
    assert statuses == etcdStatusList;
    AnyDividesByZeroMeans(etcdStatusList, minDbSize);
    return Report(status, statuses, errors);
  }

  /** GET the etcd status of the control-plane nodes. */
  method EtcdStatusHandler(minDbSize: int, dir: Directory, fetch: seq<string> -> Fetched<Machine.EtcdStatus>)
    returns (reply: Reply<Machine.EtcdStatus>)
    ensures dir.getNodesByRole(ControlPlane).err.Some? ==>
              reply == Unavailable(dir.getNodesByRole(ControlPlane).err.value)
    ensures dir.getNodesByRole(ControlPlane).err.None? ==>
              var fetched := fetch(AddressesOf(dir.getNodesByRole(ControlPlane).data));
              (fetched.err.Some? ==> reply == Unavailable(fetched.err.value))
              && (fetched.err.None? ==>
                    (reply.Panicked? <==> exists k :: 0 <= k < |fetched.data| && DividesByZero(fetched.data[k], minDbSize))
                    && (!reply.Panicked? ==>
                          reply == Report(Judgement(EtcdReasons(fetched.data, minDbSize)), fetched.data,
                                          EtcdReasons(fetched.data, minDbSize))))
  {
    var nodeList := dir.getNodesByRole(ControlPlane);
    if nodeList.err.Some? {
      return Unavailable(nodeList.err.value);
    }
    var nodes := Addresses(nodeList.data);
    assert nodes == AddressesOf(nodeList.data);
    var etcdStatusList := fetch(nodes);
    if etcdStatusList.err.Some? {
      return Unavailable(etcdStatusList.err.value);
    }
    reply := CheckEtcdStatus(etcdStatusList.data, minDbSize);
  }

  /** A member reporting `leader`, small enough never to be checked for
      fragmentation. */
  function Member(leader: nat): Machine.EtcdStatus
  {
    Machine.EtcdStatus("", Machine.MemberStatus(0, leader, 0, 0))
  }

  /** Two members agree on leader 7 and a third reports 3: one reason. */
  lemma OneDissenter()
    ensures EtcdReasons([Member(7), Member(7), Member(3)], 0) == [LeaderMismatch]
  {
    var a, b := Member(7), Member(3);
    EtcdStep([], a, 0);
    assert [] + [a] == [a];
    EtcdStep([a], a, 0);
    assert [a] + [a] == [a, a];
    EtcdStep([a, a], b, 0);
    assert [a, a] + [b] == [a, a, b];
  }

  /** The first member reports 7 and two report 3: the reasons count the
      members that disagree with the first leader seen, not a majority, so
      there are two. */
  lemma FirstLeaderWins()
    ensures EtcdReasons([Member(7), Member(3), Member(3)], 0) == [LeaderMismatch, LeaderMismatch]
  {
    var a, b := Member(7), Member(3);
    EtcdStep([], a, 0);
    assert [] + [a] == [a];
    EtcdStep([a], b, 0);
    assert [a] + [b] == [a, b];
    EtcdStep([a, b], b, 0);
    assert [a, b] + [b] == [a, b, b];
  }

  /** A member reporting no leader is skipped until a leader is known, and
      a disagreement afterwards. */
  lemma NoLeaderAfterLeader()
    ensures EtcdReasons([Member(0), Member(7), Member(0)], 0) == [LeaderMismatch]
  {
    var a, c := Member(7), Member(0);
    EtcdStep([], c, 0);
    assert [] + [c] == [c];
    EtcdStep([c], a, 0);
    assert [c] + [a] == [c, a];
    EtcdStep([c, a], c, 0);
    assert [c, a] + [c] == [c, a, c];
  }

  /** With every member reporting the same leader in the list, the leader the
      handler elects is that leader (or 0 before any member). */
  lemma {:induction false} ElectedLeaderOfAgreeing(members: seq<Machine.EtcdStatus>, leader: nat)
    requires leader != 0
    requires forall k :: 0 <= k < |members| ==> members[k].memberStatus.leader == leader
    ensures ElectedLeader(members) == if members == [] then 0 else leader
  {
  }

  /** Members that all report the same non-zero leader and none of which
      trips the fragmentation test give no reason. */
  lemma {:induction false} AgreeingMembersPass(members: seq<Machine.EtcdStatus>, minDbSize: int, leader: nat)
    requires leader != 0
    requires forall k :: 0 <= k < |members| ==>
               members[k].memberStatus.leader == leader && !Fragmented(members[k], minDbSize)
    ensures EtcdReasons(members, minDbSize) == []
  {
    if members != [] {
      var init := members[..|members| - 1];
      assert forall k :: 0 <= k < |init| ==> init[k] == members[k];
      AgreeingMembersPass(init, minDbSize, leader);
      ElectedLeaderOfAgreeing(init, leader);
    }
  }

  /** For sizes as etcd reports them (a positive size, a non-negative amount
      in use), the fragmentation test fires iff the amount in use is at
      least the whole size. */
  lemma FragmentedMeansFullyUsed(m: Machine.EtcdStatus, minDbSize: int)
    requires m.memberStatus.dbSize > 0 && m.memberStatus.dbSizeInUse >= 0
    requires m.memberStatus.dbSize > minDbSize
    ensures Fragmented(m, minDbSize) <==> m.memberStatus.dbSizeInUse >= m.memberStatus.dbSize
  {
    var a, b := m.memberStatus.dbSizeInUse, m.memberStatus.dbSize;
    assert Quot(a, b) == a / b;
    if a < b {
      assert a / b == 0;
    }
  }

  // ---------------------------------------------------------------------
  // Etcd alarms

  /** The alarm handler's answer: `AlarmsUnavailable` is 503 with the error,
      `AlarmsRaised` is 417 with the alarms, and `NoAlarms` is 200 with
      "No alarms present". */
  datatype AlarmReply =
    | AlarmsUnavailable(error: string)
    | AlarmsRaised(alarms: seq<Machine.EtcdMemberAlarm>)
    | NoAlarms

  /** GET the etcd alarms of the control-plane nodes: any alarm at all means
      417 with the list as received. */
  method EtcdAlarmsHandler(dir: Directory, fetch: seq<string> -> Fetched<Machine.EtcdMemberAlarm>)
    returns (reply: AlarmReply)
    ensures dir.getNodesByRole(ControlPlane).err.Some? ==>
              reply == AlarmsUnavailable(dir.getNodesByRole(ControlPlane).err.value)
    ensures dir.getNodesByRole(ControlPlane).err.None? ==>
              var fetched := fetch(AddressesOf(dir.getNodesByRole(ControlPlane).data));
              (fetched.err.Some? ==> reply == AlarmsUnavailable(fetched.err.value))
              && (fetched.err.None? && fetched.data != [] ==> reply == AlarmsRaised(fetched.data))
              && (fetched.err.None? && fetched.data == [] ==> reply == NoAlarms)
  {
    var nodeList := dir.getNodesByRole(ControlPlane);
    if nodeList.err.Some? {
      return AlarmsUnavailable(nodeList.err.value);
    }
    var nodes := Addresses(nodeList.data);
    assert nodes == AddressesOf(nodeList.data);
    var alarms := fetch(nodes);
    if alarms.err.Some? {
      return AlarmsUnavailable(alarms.err.value);
    }
    if alarms.data != [] {
      return AlarmsRaised(alarms.data);
    }
    return NoAlarms;
  }

  // ---------------------------------------------------------------------
  // Pods

  /** Owner kind of the pods the node agent places itself. */
  const NodeKind: string := "Node"
  const PodCompleted: string := "PodCompleted"

  /** A copy of the pod's projection for every owner reference of kind Node. */
  function NodeOwned(pod: K8sPod.Pod): CoreV1.OwnerReference -> Option<K8sPod.SimplePod>
  {
    (ref: CoreV1.OwnerReference) => if ref.kind == NodeKind then Some(pod.simple) else None
  }

  /** How a pod is listed: in static mode once per Node owner reference,
      otherwise once. */
  function Copies(pod: K8sPod.Pod, staticOnly: bool): seq<K8sPod.SimplePod>
  {
    if staticOnly then FilterMap(NodeOwned(pod), pod.pod.ownerReferences) else [pod.simple]
  }

  /** The pod is listed, and so checked. */
  predicate Included(pod: K8sPod.Pod, staticOnly: bool)
  {
    !staticOnly || HasNodeOwner(pod.pod.ownerReferences)
  }

  predicate HasNodeOwner(refs: seq<CoreV1.OwnerReference>)
  {
    exists k :: 0 <= k < |refs| && refs[k].kind == NodeKind
  }

  lemma HasNodeOwnerSnoc(refs: seq<CoreV1.OwnerReference>, ref: CoreV1.OwnerReference)
    ensures HasNodeOwner(refs + [ref]) <==> HasNodeOwner(refs) || ref.kind == NodeKind
  {
    if HasNodeOwner(refs + [ref]) && ref.kind != NodeKind {
      var k :| 0 <= k < |refs + [ref]| && (refs + [ref])[k].kind == NodeKind;
      assert refs[k].kind == NodeKind;
    }
    if HasNodeOwner(refs) {
      var k :| 0 <= k < |refs| && refs[k].kind == NodeKind;
      assert (refs + [ref])[k].kind == NodeKind;
    }
    if ref.kind == NodeKind {
      assert (refs + [ref])[|refs|].kind == NodeKind;
    }
  }

  /** A PodReady condition that is not True and not a completed pod. */
  predicate NotReady(cond: CoreV1.PodCondition)
  {
    cond.conditionType == CoreV1.PodReady && cond.status != CoreV1.ConditionTrue && cond.reason != PodCompleted
  }

  function NotReadyMessage(pod: K8sPod.Pod, cond: CoreV1.PodCondition): string
  {
    "Pod '" + pod.simple.namespace + "/" + pod.simple.name + "' not ready: " + cond.message
  }

  function PodReason(pod: K8sPod.Pod): CoreV1.PodCondition -> Option<string>
  {
    (cond: CoreV1.PodCondition) => if NotReady(cond) then Some(NotReadyMessage(pod, cond)) else None
  }

  /** Checking one more condition appends its reason, if any. */
  lemma ConditionStep(pod: K8sPod.Pod, errors0: seq<string>, prefix: seq<CoreV1.PodCondition>, cond: CoreV1.PodCondition)
    ensures var added := if NotReady(cond) then [NotReadyMessage(pod, cond)] else [];
            && errors0 + FilterMap(PodReason(pod), prefix + [cond]) == errors0 + FilterMap(PodReason(pod), prefix) + added
            && |FilterMap(PodReason(pod), prefix + [cond])| == |FilterMap(PodReason(pod), prefix)| + |added|
  {
    FilterMapSnoc(PodReason(pod), prefix, cond);
    ConcatAssoc(errors0, FilterMap(PodReason(pod), prefix), OptionToSeq(PodReason(pod)(cond)));
  }

  function PodItems(pods: seq<K8sPod.Pod>, staticOnly: bool): seq<K8sPod.SimplePod>
  {
    if pods == [] then []
    else PodItems(pods[..|pods| - 1], staticOnly) + Copies(pods[|pods| - 1], staticOnly)
  }

  function PodReasons(pods: seq<K8sPod.Pod>, staticOnly: bool): seq<string>
  {
    if pods == [] then []
    else
      var pod := pods[|pods| - 1];
      PodReasons(pods[..|pods| - 1], staticOnly)
      + (if Included(pod, staticOnly) then FilterMap(PodReason(pod), pod.pod.status.conditions) else [])
  }

  /** What one more pod adds to the listing and to the reasons. */
  lemma PodStep(before: seq<K8sPod.Pod>, pod: K8sPod.Pod, staticOnly: bool)
    ensures PodItems(before + [pod], staticOnly) == PodItems(before, staticOnly) + Copies(pod, staticOnly)
    ensures PodReasons(before + [pod], staticOnly) ==
              PodReasons(before, staticOnly)
              + (if Included(pod, staticOnly) then FilterMap(PodReason(pod), pod.pod.status.conditions) else [])
  {
    assert (before + [pod])[..|before|] == before;
  }

  /** A listed pod with a failing readiness condition. */
  predicate Unready(pod: K8sPod.Pod, staticOnly: bool)
  {
    Included(pod, staticOnly)
    && exists j :: 0 <= j < |pod.pod.status.conditions| && NotReady(pod.pod.status.conditions[j])
  }

  /** In static mode a pod is listed once per owner reference of kind Node
      (so not at all without one); otherwise exactly once. */
  lemma CopiesCount(pod: K8sPod.Pod, staticOnly: bool)
    ensures staticOnly ==>
              (|Copies(pod, staticOnly)| ==
               |set k | 0 <= k < |pod.pod.ownerReferences| && pod.pod.ownerReferences[k].kind == NodeKind|)
    ensures staticOnly ==> (Copies(pod, staticOnly) == [] <==> !Included(pod, staticOnly))
    ensures !staticOnly ==> Copies(pod, staticOnly) == [pod.simple]
    ensures forall p :: p in Copies(pod, staticOnly) ==> p == pod.simple
  {
    var refs := pod.pod.ownerReferences;
    FilterMapLength(NodeOwned(pod), refs);
    FilterMapEmpty(NodeOwned(pod), refs);
    assert Accepted(NodeOwned(pod), refs) == set k | 0 <= k < |refs| && refs[k].kind == NodeKind;
    forall p | p in Copies(pod, staticOnly) ensures p == pod.simple {
      FilterMapMember(NodeOwned(pod), refs, p);
    }
  }

  /** Outside static mode every pod is listed once, in order. */
  lemma {:induction false} EveryPodListed(pods: seq<K8sPod.Pod>)
    ensures PodItems(pods, false) == seq(|pods|, i requires 0 <= i < |pods| => pods[i].simple)
  {
    if pods != [] {
      EveryPodListed(pods[..|pods| - 1]);
    }
  }

  /** No reason iff no listed pod has a failing readiness condition. */
  lemma {:induction false} PodReasonsEmpty(pods: seq<K8sPod.Pod>, staticOnly: bool)
    ensures PodReasons(pods, staticOnly) == [] <==> forall i :: 0 <= i < |pods| ==> !Unready(pods[i], staticOnly)
  {
    if pods != [] {
      var n := |pods| - 1;
      var init, pod := pods[..n], pods[n];
      var conditions := pod.pod.status.conditions;
      var added := if Included(pod, staticOnly) then FilterMap(PodReason(pod), conditions) else [];
      assert PodReasons(pods, staticOnly) == PodReasons(init, staticOnly) + added;
      PodReasonsEmpty(init, staticOnly);
      FilterMapEmpty(PodReason(pod), conditions);
      assert forall j :: 0 <= j < |conditions| ==> (PodReason(pod)(conditions[j]).None? <==> !NotReady(conditions[j]));
      assert added == [] <==> !Unready(pod, staticOnly);
      assert forall i :: 0 <= i < n ==> init[i] == pods[i];
    }
  }

  /** Looking at one more owner reference adds a copy iff it is of kind Node. */
  lemma NodeOwnedStep(pod: K8sPod.Pod, items0: seq<K8sPod.SimplePod>, prefix: seq<CoreV1.OwnerReference>,
                      ref: CoreV1.OwnerReference)
    ensures items0 + FilterMap(NodeOwned(pod), prefix + [ref]) ==
              items0 + FilterMap(NodeOwned(pod), prefix) + (if ref.kind == NodeKind then [pod.simple] else [])
  {
    FilterMapSnoc(NodeOwned(pod), prefix, ref);
    ConcatAssoc(items0, FilterMap(NodeOwned(pod), prefix), OptionToSeq(NodeOwned(pod)(ref)));
  }

  /** The owner-reference loop of the pod handler (static mode): one copy
      per owner reference of kind Node; `ok` tells whether there was one. */
  method ListNodeOwned(pod: K8sPod.Pod, items0: seq<K8sPod.SimplePod>)
    returns (items: seq<K8sPod.SimplePod>, ok: bool)
    ensures items == items0 + FilterMap(NodeOwned(pod), pod.pod.ownerReferences)
    ensures ok <==> Included(pod, true)
  {
    var refs := pod.pod.ownerReferences;
    items, ok := items0, false;
    var j := 0;
    while j < |refs|
      invariant 0 <= j <= |refs|
      invariant items == items0 + FilterMap(NodeOwned(pod), refs[..j])
      invariant ok <==> HasNodeOwner(refs[..j])
    {
      NodeOwnedStep(pod, items0, refs[..j], refs[j]);
      HasNodeOwnerSnoc(refs[..j], refs[j]);
      assert refs[..j + 1] == refs[..j] + [refs[j]];
      if refs[j].kind == NodeKind {
        items := items + [pod.simple];
        ok := true;
      }
      j := j + 1;
    }
    assert refs[..j] == refs;
  }

  /** The condition loop of the pod handler: one reason per failing
      readiness condition; the status becomes 417 iff one was added. */
  method CheckPodConditions(pod: K8sPod.Pod, errors0: seq<string>, status0: int)
    returns (errors: seq<string>, status: int)
    ensures errors == errors0 + FilterMap(PodReason(pod), pod.pod.status.conditions)
    ensures status == if |FilterMap(PodReason(pod), pod.pod.status.conditions)| == 0 then status0
                      else StatusExpectationFailed
  {
    var conds := pod.pod.status.conditions;
    errors, status := errors0, status0;
    var j := 0;
    while j < |conds|
      invariant 0 <= j <= |conds|
      invariant errors == errors0 + FilterMap(PodReason(pod), conds[..j])
      invariant status == if |FilterMap(PodReason(pod), conds[..j])| == 0 then status0 else StatusExpectationFailed
    {
      var cond := conds[j];
      ConditionStep(pod, errors0, conds[..j], cond);
      assert conds[..j + 1] == conds[..j] + [cond];
      if cond.conditionType == CoreV1.PodReady && cond.status != CoreV1.ConditionTrue && cond.reason != PodCompleted {
        status := StatusExpectationFailed;
        errors := errors + [NotReadyMessage(pod, cond)];
      }
      j := j + 1;
    }
    assert conds[..j] == conds;
  }

  /** The pod handler's loop: lists the pods (per Copies), checks the
      readiness of the listed ones, and sets 417 iff a reason was added. */
  method CheckPods(podList: seq<K8sPod.Pod>, staticOnly: bool)
    returns (items: seq<K8sPod.SimplePod>, errors: seq<string>, status: int)
    ensures items == PodItems(podList, staticOnly)
    ensures errors == PodReasons(podList, staticOnly)
    ensures status == Judgement(errors)
    ensures status == StatusExpectationFailed <==> exists i :: 0 <= i < |podList| && Unready(podList[i], staticOnly)
  {
    items, errors, status := [], [], StatusOK;
    var i := 0;
    while i < |podList|
      invariant 0 <= i <= |podList|
      invariant items == PodItems(podList[..i], staticOnly)
      invariant errors == PodReasons(podList[..i], staticOnly)
      invariant status == if |errors| == 0 then StatusOK else StatusExpectationFailed
    {
      var pod := podList[i];
      assert podList[..i + 1] == podList[..i] + [pod];
      PodStep(podList[..i], pod, staticOnly);
      var ok := false;
      if staticOnly {
        items, ok := ListNodeOwned(pod, items);
      } else {
        items := items + [pod.simple];
        ok := true;
      }
      if ok {
        errors, status := CheckPodConditions(pod, errors, status);
      }
      i := i + 1;
    }
    assert podList[..i] == podList;
    PodReasonsEmpty(podList, staticOnly);
  }

  /** GET the pods of a namespace (all namespaces for ""), on the node `name`
      if one is given; `staticOnly` keeps only pods the node agent placed. */
  method PodsHandler(name: string, namespace: string, staticOnly: bool, dir: Directory)
    returns (reply: Reply<K8sPod.SimplePod>)
    ensures var fetched := dir.getPods(namespace, if name != "" then "spec.nodeName=" + name else "");
              (fetched.err.Some? ==> reply == Unavailable(fetched.err.value))
              && (fetched.err.None? ==>
                    reply == Report(Judgement(PodReasons(fetched.data, staticOnly)), PodItems(fetched.data, staticOnly),
                                    PodReasons(fetched.data, staticOnly)))
  {
    var fieldSelector := "";
    if name != "" {
      fieldSelector := "spec.nodeName=" + name;
    }
    var podList := dir.getPods(namespace, fieldSelector);
    if podList.err.Some? {
      return Unavailable(podList.err.value);
    }
    var items, errors, status := CheckPods(podList.data, staticOnly);
    return Report(status, items, errors);
  }

  // ---------------------------------------------------------------------
  // Node status

  /** 503 with the error, or the node's status with 200 or 417. */
  datatype NodeReply = NodeUnavailable(error: string) | NodeReport(status: int, nodeStatus: K8sNode.NodeStatus)

  /** GET the status of node `name`: 417 iff some condition degrades it. */
  method NodeStatusHandler(name: string, dir: Directory) returns (reply: NodeReply)
    ensures dir.getNode(name).Err? ==> reply == NodeUnavailable(dir.getNode(name).error)
    ensures dir.getNode(name).Ok? ==>
              var conditions := dir.getNode(name).value.node.conditions;
              reply.NodeReport?
              && reply.nodeStatus.node == dir.getNode(name).value
              && reply.nodeStatus.errors == FilterMap(K8sNode.ConditionError, conditions)
              && (reply.status == StatusOK <==> forall i :: 0 <= i < |conditions| ==> !K8sNode.Degrades(conditions[i]))
              && (reply.status == StatusOK || reply.status == StatusExpectationFailed)
  {
    var node := dir.getNode(name);
    if node.Err? {
      return NodeUnavailable(node.error);
    }
    var nodeStatus := K8sNode.Status(node.value);
    var status;
    if nodeStatus.errors != [] {
      status := StatusExpectationFailed;
    } else {
      status := StatusOK;
    }
    return NodeReport(status, nodeStatus);
  }
}
