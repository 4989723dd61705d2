/** The node wrapper of the k8s package: the projection of a Kubernetes node
    to its name, internal address and roles, address lookup by type, and the
    judgement of a node's conditions. */
module K8sNode {
  import opened Wrappers
  import opened Seqs
  import CoreV1

  /** Labels with this prefix name a role of the node. */
  const RolePrefix: string := "node-role.kubernetes.io/"

  /** The JSON-facing projection of a node. */
  datatype SimpleNode = SimpleNode(name: string, address: string, roles: seq<string>)

  /** A projection together with the wrapped API object (a pointer in Go). */
  datatype Node = Node(simple: SimpleNode, node: CoreV1.Node)

  /** The node and the reasons it is not healthy, one per degrading condition. */
  datatype NodeStatus = NodeStatus(node: Node, errors: seq<string>)

  // ---------------------------------------------------------------------
  // Addresses

  /** The address of the last entry of the given type, or "" if none has it. */
  function LastAddress(addresses: seq<CoreV1.NodeAddress>, addressType: string): string
  {
    if addresses == [] then ""
    else if addresses[|addresses| - 1].addressType == addressType then addresses[|addresses| - 1].address
    else LastAddress(addresses[..|addresses| - 1], addressType)
  }

  /** Entry `k` has the type and no later entry has it. */
  predicate IsLastOfType(addresses: seq<CoreV1.NodeAddress>, addressType: string, k: int)
  {
    0 <= k < |addresses|
    && addresses[k].addressType == addressType
    && forall j :: k < j < |addresses| ==> addresses[j].addressType != addressType
  }

  /** LastAddress is "" when no entry has the type. */
  lemma {:induction false} LastAddressAbsent(addresses: seq<CoreV1.NodeAddress>, addressType: string)
    requires forall i :: 0 <= i < |addresses| ==> addresses[i].addressType != addressType
    ensures LastAddress(addresses, addressType) == ""
  {
    if addresses != [] {
      var init := addresses[..|addresses| - 1];
      assert forall i :: 0 <= i < |init| ==> init[i] == addresses[i];
      LastAddressAbsent(init, addressType);
    }
  }

  /** Otherwise LastAddress is the address of the last entry that has it. */
  lemma {:induction false} LastAddressIsLastMatch(addresses: seq<CoreV1.NodeAddress>, addressType: string, k: int)
    requires IsLastOfType(addresses, addressType, k)
    ensures LastAddress(addresses, addressType) == addresses[k].address
  {
    var n := |addresses| - 1;
    if k < n {
      var init := addresses[..n];
      assert addresses[n].addressType != addressType;
      assert forall j :: 0 <= j < n ==> init[j] == addresses[j];
      assert IsLastOfType(init, addressType, k);
      LastAddressIsLastMatch(init, addressType, k);
    }
  }

  /** The address of the last entry of the node's status addresses whose type
      is `addressType`, or "" if none matches. */
  method GetAddress(n: Node, addressType: string) returns (address: string)
    ensures address == LastAddress(n.node.addresses, addressType)
  {
    var addresses := n.node.addresses;
    address := "";
    var i := 0;
    while i < |addresses|
      invariant 0 <= i <= |addresses|
      invariant address == LastAddress(addresses[..i], addressType)
    {
      assert addresses[..i + 1][..i] == addresses[..i];
      if addresses[i].addressType == addressType {
        address := addresses[i].address;
      }
      i := i + 1;
    }
    assert addresses[..i] == addresses;
  }

  // ---------------------------------------------------------------------
  // Roles

  /** The text after the last '/' of `s` (all of `s` if it has none), as the
      last element of Go's `strings.Split(s, "/")`. */
  function LastSegment(s: string): string
  {
    if s == [] then []
    else if s[|s| - 1] == '/' then []
    else LastSegment(s[..|s| - 1]) + [s[|s| - 1]]
  }

  /** LastSegment is the longest suffix without a '/': it is a suffix, holds
      no '/', and is preceded by a '/' unless it is the whole string. */
  lemma {:induction false} LastSegmentIsTextAfterLastSlash(s: string)
    ensures |LastSegment(s)| <= |s|
    ensures LastSegment(s) == s[|s| - |LastSegment(s)|..]
    ensures '/' !in LastSegment(s)
    ensures |LastSegment(s)| < |s| ==> s[|s| - |LastSegment(s)| - 1] == '/'
  {
    if s != [] && s[|s| - 1] != '/' {
      var init := s[..|s| - 1];
      LastSegmentIsTextAfterLastSlash(init);
      var r := LastSegment(init);
      assert LastSegment(s) == r + [s[|s| - 1]];
      assert init[|init| - |r|..] + [s[|s| - 1]] == s[|s| - |r| - 1..];
      if |r| < |init| {
        assert s[|s| - |r| - 2] == init[|init| - |r| - 1];
      }
    }
  }

  /** The role a label names, if it is a role label. */
  function RoleOf(key: string): Option<string>
  {
    if RolePrefix <= key then Some(LastSegment(key)) else None
  }

  /** The role labels among `labels`. */
  function RoleLabels(labels: set<string>): set<string>
  {
    set l | l in labels && RolePrefix <= l
  }

  /** Adding a label that was not there adds one role label iff it has the
      role prefix. */
  lemma RoleLabelsAdd(labels: set<string>, x: string)
    requires x !in labels
    ensures RolePrefix <= x ==> RoleLabels(labels + {x}) == RoleLabels(labels) + {x}
    ensures !(RolePrefix <= x) ==> RoleLabels(labels + {x}) == RoleLabels(labels)
    ensures x !in RoleLabels(labels)
  {
  }

  /** Over labels listed without repetition, one role per role label. */
  lemma {:induction false} RoleCount(order: seq<string>)
    requires Distinct(order)
    ensures |FilterMap(RoleOf, order)| == |RoleLabels(set l | l in order)|
  {
    if order != [] {
      var n := |order| - 1;
      var init, x := order[..n], order[n];
      assert Distinct(init);
      RoleCount(init);
      assert init + [x] == order;
      FilterMapSnoc(RoleOf, init, x);
      assert (set l | l in order) == (set l | l in init) + {x};
      assert x !in init;
      RoleLabelsAdd((set l | l in init), x);
    }
  }

  /** Roles read in any iteration order of the labels: exactly one entry per
      role label, and each entry is the text after that label's last '/'. */
  lemma RolesOfEnumeration(order: seq<string>, keys: set<string>)
    requires EnumerationOf(order, keys)
    ensures |FilterMap(RoleOf, order)| == |RoleLabels(keys)|
    ensures forall r :: r in FilterMap(RoleOf, order) <==> exists l :: l in RoleLabels(keys) && LastSegment(l) == r
  {
    assert (set l | l in order) == keys;
    RoleCount(order);
    forall r ensures r in FilterMap(RoleOf, order) <==> exists l :: l in RoleLabels(keys) && LastSegment(l) == r
    {
      FilterMapMember(RoleOf, order, r);
      if exists l :: l in RoleLabels(keys) && LastSegment(l) == r {
        var l :| l in RoleLabels(keys) && LastSegment(l) == r;
        var i :| 0 <= i < |order| && order[i] == l;
        assert RoleOf(order[i]) == Some(r);
      }
    }
  }

  // ---------------------------------------------------------------------
  // Projection

  /** Wraps a node: the address is that of the last InternalIP entry, the name
      that of the last Hostname entry (not the metadata name), and the roles
      come from the role labels, read in the map's unspecified order. */
  method NewNode(node: CoreV1.Node) returns (n: Node)
    ensures n.node == node
    ensures n.simple.address == LastAddress(node.addresses, CoreV1.NodeInternalIP)
    ensures n.simple.name == LastAddress(node.addresses, CoreV1.NodeHostName)
    ensures exists order :: EnumerationOf(order, node.labels.Keys) && n.simple.roles == FilterMap(RoleOf, order)
    ensures |n.simple.roles| == |RoleLabels(node.labels.Keys)|
    ensures forall r :: r in n.simple.roles <==> exists l :: l in RoleLabels(node.labels.Keys) && LastSegment(l) == r
  {
    var address, name := "", "";
    var addresses := node.addresses;
    var i := 0;
    while i < |addresses|
      invariant 0 <= i <= |addresses|
      invariant address == LastAddress(addresses[..i], CoreV1.NodeInternalIP)
      invariant name == LastAddress(addresses[..i], CoreV1.NodeHostName)
    {
      assert addresses[..i + 1][..i] == addresses[..i];
      if addresses[i].addressType == CoreV1.NodeInternalIP {
        address := addresses[i].address;
      } else if addresses[i].addressType == CoreV1.NodeHostName {
        name := addresses[i].address;
      }
      i := i + 1;
    }
    assert addresses[..i] == addresses;

    var roles := [];
    var remaining := node.labels.Keys;
    ghost var order := [];
    while remaining != {}
      invariant remaining <= node.labels.Keys
      invariant Distinct(order)
      invariant forall l :: l in order ==> l in node.labels.Keys && l !in remaining
      invariant forall l :: l in node.labels.Keys ==> l in order || l in remaining
      invariant roles == FilterMap(RoleOf, order)
      decreases remaining
    {
      var key :| key in remaining;
      if RolePrefix <= key {
        roles := roles + [LastSegment(key)];
      }
      FilterMapSnoc(RoleOf, order, key);
      order := order + [key];
      remaining := remaining - {key};
    }
    assert EnumerationOf(order, node.labels.Keys);
    RolesOfEnumeration(order, node.labels.Keys);
    n := Node(SimpleNode(name, address, roles), node);
  }

  // ---------------------------------------------------------------------
  // Conditions

  /** The Ready condition degrades the node unless it is True; every other
      condition degrades it unless it is False (Unknown degrades both). */
  predicate Degrades(c: CoreV1.NodeCondition)
  {
    if c.conditionType == CoreV1.NodeReady then c.status != CoreV1.ConditionTrue
    else c.status != CoreV1.ConditionFalse
  }

  /** The reason a condition contributes, "<type>: <message>", if it degrades. */
  function ConditionError(c: CoreV1.NodeCondition): Option<string>
  {
    if Degrades(c) then Some(c.conditionType + ": " + c.message) else None
  }

  /** Judges the node's conditions in order: one error per degrading
      condition, and none (a nil list) when nothing degrades. */
  method Status(n: Node) returns (status: NodeStatus)
    ensures status.node == n
    ensures status.errors == FilterMap(ConditionError, n.node.conditions)
    ensures status.errors == [] <==> forall i :: 0 <= i < |n.node.conditions| ==> !Degrades(n.node.conditions[i])
    ensures |status.errors| == |Accepted(ConditionError, n.node.conditions)|
  {
    var conditions := n.node.conditions;
    var errors := [];
    var i := 0;
    while i < |conditions|
      invariant 0 <= i <= |conditions|
      invariant errors == FilterMap(ConditionError, conditions[..i])
    {
      var cond := conditions[i];
      FilterMapSnoc(ConditionError, conditions[..i], cond);
      assert conditions[..i + 1] == conditions[..i] + [cond];
      if cond.conditionType != CoreV1.NodeReady && cond.status != CoreV1.ConditionFalse {
        assert ConditionError(cond) == Some(cond.conditionType + ": " + cond.message);
        errors := errors + [cond.conditionType + ": " + cond.message];
      } else if cond.conditionType == CoreV1.NodeReady && cond.status != CoreV1.ConditionTrue {
        assert ConditionError(cond) == Some(cond.conditionType + ": " + cond.message);
        errors := errors + [cond.conditionType + ": " + cond.message];
      } else {
        assert ConditionError(cond) == None;
      }
      i := i + 1;
    }
    assert conditions[..i] == conditions;
    FilterMapEmpty(ConditionError, conditions);
    FilterMapLength(ConditionError, conditions);
    status := NodeStatus(n, errors);
  }
}
