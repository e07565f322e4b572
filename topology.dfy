/** Topology expansion of lib/utils.js: the declared node types of a cluster
    become replicated nodes (`getDefinedNodes`), and plain security group names
    become the `{name}` references OpenStack expects
    (`securityGroupsAsOpenstack`). */
module Topology {
  import opened Wrappers
  import opened Seqs
  import opened Naming

  /** One entry of `options.nodetypes`. `attrs` stands for the remaining
      properties (`imageRef`, `flavorRef`, `volumes`, ...) that a shallow
      copy carries over unchanged. */
  datatype NodeTypeDef = NodeTypeDef(
    name: string,
    replication: int,
    images: seq<string>,
    securitygroups: seq<string>,
    attrs: map<string, string>)

  /** A declared node: the copy of its type with `type` set to the type name
      and `name` set to the composed node name. */
  datatype Node = Node(
    name: string,
    typeName: string,
    replication: int,
    images: seq<string>,
    securitygroups: seq<string>,
    attrs: map<string, string>)

  /** How many times `for (var i = 1; i <= replication; i++)` runs. */
  function Count(t: NodeTypeDef): nat {
    if t.replication > 0 then t.replication else 0
  }

  /** The `i`-th replica of a node type. */
  function Replica(cluster: string, t: NodeTypeDef, i: nat): Node {
    Node(NodeName(cluster, t.name, i), t.name, t.replication, t.images, t.securitygroups, t.attrs)
  }

  /** The replicas of one type, with sequence numbers 1..replication. */
  function TypeReplicas(cluster: string, t: NodeTypeDef): seq<Node> {
    seq(Count(t), j requires 0 <= j < Count(t) => Replica(cluster, t, j + 1))
  }

  /** All declared nodes: the replicas of each type, type after type. */
  function DefinedNodes(cluster: string, types: seq<NodeTypeDef>): seq<Node>
    decreases |types|
  {
    if |types| == 0 then []
    else DefinedNodes(cluster, types[..|types| - 1]) + TypeReplicas(cluster, types[|types| - 1])
  }

  /** The sum of the (non-negative) replication counts. */
  function TotalReplication(types: seq<NodeTypeDef>): nat
    decreases |types|
  {
    if |types| == 0 then 0
    else TotalReplication(types[..|types| - 1]) + Count(types[|types| - 1])
  }

  /** `getDefinedNodes(options)`: pushes one node per replica in a nested
      loop over the types and the sequence numbers. */
  method GetDefinedNodes(cluster: string, types: seq<NodeTypeDef>) returns (nodes: seq<Node>)
    ensures nodes == DefinedNodes(cluster, types)
  {
    nodes := [];
    for k := 0 to |types|
      invariant nodes == DefinedNodes(cluster, types[..k])
    {
      var t := types[k];
      var i := 1;
      while i <= t.replication
        invariant 1 <= i <= Count(t) + 1
        invariant nodes == DefinedNodes(cluster, types[..k]) + TypeReplicas(cluster, t)[..i - 1]
      {
        nodes := nodes + [Replica(cluster, t, i)];
        i := i + 1;
      }
      assert TypeReplicas(cluster, t)[..i - 1] == TypeReplicas(cluster, t);
      assert types[..k + 1][..k] == types[..k];
    }
    assert types[..|types|] == types;
  }

  /** The expansion emits exactly the sum of the replication counts. */
  lemma {:induction false} DefinedNodesCount(cluster: string, types: seq<NodeTypeDef>)
    ensures |DefinedNodes(cluster, types)| == TotalReplication(types)
    decreases |types|
  {
    if |types| > 0 {
      DefinedNodesCount(cluster, types[..|types| - 1]);
    }
  }

  /** Expanding a concatenation of type lists concatenates the expansions. */
  lemma {:induction false} DefinedNodesAppend(cluster: string, a: seq<NodeTypeDef>, b: seq<NodeTypeDef>)
    ensures DefinedNodes(cluster, a + b) == DefinedNodes(cluster, a) + DefinedNodes(cluster, b)
    decreases |b|
  {
    if |b| == 0 {
      assert a + b == a;
    } else {
      var b', last := b[..|b| - 1], b[|b| - 1];
      assert (a + b)[..|a + b| - 1] == a + b';
      assert (a + b)[|a + b| - 1] == last;
      DefinedNodesAppend(cluster, a, b');
      var r := TypeReplicas(cluster, last);
      assert DefinedNodes(cluster, a + b) == DefinedNodes(cluster, a + b') + r;
      assert DefinedNodes(cluster, b) == DefinedNodes(cluster, b') + r;
    }
  }

  /** Type-major order: replica `i` of type `k` sits right after the replicas
      of the types before `k`, at sequence position `i - 1` within its type. */
  lemma DefinedNodesAt(cluster: string, types: seq<NodeTypeDef>, k: nat, i: nat)
    requires k < |types| && 1 <= i <= Count(types[k])
    ensures TotalReplication(types[..k]) + i - 1 < |DefinedNodes(cluster, types)|
    ensures DefinedNodes(cluster, types)[TotalReplication(types[..k]) + i - 1] == Replica(cluster, types[k], i)
  {
    var before, mid, after := types[..k], [types[k]], types[k + 1..];
    assert types == before + mid + after;
    DefinedNodesAppend(cluster, before + mid, after);
    DefinedNodesAppend(cluster, before, mid);
    DefinedNodesCount(cluster, before);
    assert mid[..0] == [];
    var x, r, y := DefinedNodes(cluster, before), TypeReplicas(cluster, types[k]), DefinedNodes(cluster, after);
    assert DefinedNodes(cluster, mid) == r;
    assert DefinedNodes(cluster, types) == x + r + y;
    assert r[i - 1] == Replica(cluster, types[k], i);
    assert (x + r + y)[|x| + i - 1] == r[i - 1];
  }

  /** Every declared node is a replica of one of the types, numbered within
      that type's replication count. */
  lemma {:induction false} DefinedNodesAreReplicas(cluster: string, types: seq<NodeTypeDef>, n: Node)
    requires n in DefinedNodes(cluster, types)
    ensures exists k, i :: 0 <= k < |types| && 1 <= i <= Count(types[k]) && n == Replica(cluster, types[k], i)
    decreases |types|
  {
    var init := types[..|types| - 1];
    var last := types[|types| - 1];
    if n in DefinedNodes(cluster, init) {
      DefinedNodesAreReplicas(cluster, init, n);
      var k, i :| 0 <= k < |init| && 1 <= i <= Count(init[k]) && n == Replica(cluster, init[k], i);
      assert init[k] == types[k];
    } else {
      var j :| 0 <= j < Count(last) && TypeReplicas(cluster, last)[j] == n;
      assert n == Replica(cluster, types[|types| - 1], j + 1);
    }
  }

  ghost predicate DashFreeNames(cluster: string, types: seq<NodeTypeDef>) {
    Sep !in cluster && forall k :: 0 <= k < |types| ==> Sep !in types[k].name
  }

  /** With dash-free names, every declared node's name projects back to the
      cluster and to the node's type. */
  lemma DefinedNodesProjectBack(cluster: string, types: seq<NodeTypeDef>, n: Node)
    requires DashFreeNames(cluster, types)
    requires n in DefinedNodes(cluster, types)
    ensures NodeCluster(n.name) == cluster
    ensures NodeType(n.name) == Some(n.typeName)
  {
    DefinedNodesAreReplicas(cluster, types, n);
    var k, i :| 0 <= k < |types| && 1 <= i <= Count(types[k]) && n == Replica(cluster, types[k], i);
    NodeNameRoundTrip(cluster, types[k].name, i);
  }

  /** The position of every declared node: index `p` holds replica `i` of
      type `k`, where `p` is the replicas before type `k` plus `i - 1`. */
  lemma {:induction false} DefinedNodesIndex(cluster: string, types: seq<NodeTypeDef>, p: nat)
    requires p < |DefinedNodes(cluster, types)|
    ensures exists k, i ::
              0 <= k < |types| && 1 <= i <= Count(types[k])
              && p == TotalReplication(types[..k]) + i - 1
              && DefinedNodes(cluster, types)[p] == Replica(cluster, types[k], i)
    decreases |types|
  {
    var init := types[..|types| - 1];
    DefinedNodesCount(cluster, init);
    if p < |DefinedNodes(cluster, init)| {
      DefinedNodesIndex(cluster, init, p);
      var k, i :| 0 <= k < |init| && 1 <= i <= Count(init[k])
        && p == TotalReplication(init[..k]) + i - 1
        && DefinedNodes(cluster, init)[p] == Replica(cluster, init[k], i);
      assert init[..k] == types[..k];
    } else {
      var k := |types| - 1;
      var i := p - TotalReplication(init) + 1;
      assert types[..k] == init;
      assert DefinedNodes(cluster, types)[p] == TypeReplicas(cluster, types[k])[i - 1];
    }
  }

  /** With dash-free names and distinct type names, the name of a declared
      node determines its position: no two declared nodes share a name. */
  lemma DefinedNodeNamesInjective(cluster: string, types: seq<NodeTypeDef>, p: nat, q: nat)
    requires DashFreeNames(cluster, types)
    requires forall a, b :: 0 <= a < |types| && 0 <= b < |types| && types[a].name == types[b].name ==> a == b
    requires p < |DefinedNodes(cluster, types)| && q < |DefinedNodes(cluster, types)|
    requires DefinedNodes(cluster, types)[p].name == DefinedNodes(cluster, types)[q].name
    ensures p == q
  {
    var nodes := DefinedNodes(cluster, types);
    DefinedNodesIndex(cluster, types, p);
    var k1, i1 :| 0 <= k1 < |types| && 1 <= i1 <= Count(types[k1])
      && p == TotalReplication(types[..k1]) + i1 - 1 && nodes[p] == Replica(cluster, types[k1], i1);
    DefinedNodesIndex(cluster, types, q);
    var k2, i2 :| 0 <= k2 < |types| && 1 <= i2 <= Count(types[k2])
      && q == TotalReplication(types[..k2]) + i2 - 1 && nodes[q] == Replica(cluster, types[k2], i2);
    NodeNameInjective(cluster, types[k1].name, i1, cluster, types[k2].name, i2);
  }

  /** A type with a replication count of zero or less contributes nothing. */
  lemma NonPositiveReplicationIsEmpty(cluster: string, types: seq<NodeTypeDef>, t: NodeTypeDef)
    requires t.replication <= 0
    ensures DefinedNodes(cluster, types + [t]) == DefinedNodes(cluster, types)
  {
    assert (types + [t])[..|types|] == types;
  }

  /** The names of the example nodes. */
  lemma ExampleNodeNames()
    ensures NodeName("oa", "computing", 1) == "oa-1-computing"
    ensures NodeName("oa", "computing", 2) == "oa-2-computing"
    ensures NodeName("oa", "computing", 3) == "oa-3-computing"
    ensures NodeName("oa", "loadbalancer", 1) == "oa-1-loadbalancer"
  {
    assert NatToString(1) == "1" && NatToString(2) == "2" && NatToString(3) == "3";
  }

  /** The two-type example: three computing nodes and one load balancer. */
  lemma DefinedNodesExample(computing: NodeTypeDef, loadbalancer: NodeTypeDef)
    requires computing.name == "computing" && computing.replication == 3
    requires loadbalancer.name == "loadbalancer" && loadbalancer.replication == 1
    ensures Map(DefinedNodes("oa", [computing, loadbalancer]), (n: Node) => n.name)
      == ["oa-1-computing", "oa-2-computing", "oa-3-computing", "oa-1-loadbalancer"]
  {
    var types := [computing, loadbalancer];
    assert types[..1] == [computing];
    assert [computing][..0] == [];
    var c1, c2, c3 := Replica("oa", computing, 1), Replica("oa", computing, 2), Replica("oa", computing, 3);
    var l1 := Replica("oa", loadbalancer, 1);
    assert TypeReplicas("oa", computing) == [c1, c2, c3];
    assert TypeReplicas("oa", loadbalancer) == [l1];
    assert DefinedNodes("oa", [computing]) == [c1, c2, c3];
    assert DefinedNodes("oa", types) == [c1, c2, c3, l1];
    ExampleNodeNames();
  }

  /** `_.find(nodetypes, t => t.name === name)`: the first configured type
      with that name, if any. */
  function FindType(types: seq<NodeTypeDef>, name: string): (r: Option<NodeTypeDef>)
    ensures r.None? <==> forall k :: 0 <= k < |types| ==> types[k].name != name
    ensures r.Some? ==> exists k :: 0 <= k < |types| && FirstOfName(types, name, k) && r.value == types[k]
    decreases |types|
  {
    if |types| == 0 then None
    else if types[0].name == name then Some(types[0])
    else
      var r := FindType(types[1..], name);
      assert r.Some? ==> exists k :: 0 <= k < |types| && FirstOfName(types, name, k) && r.value == types[k] by {
        if r.Some? {
          var k :| 0 <= k < |types| - 1 && FirstOfName(types[1..], name, k) && r.value == types[1..][k];
          assert FirstOfName(types, name, k + 1);
        }
      }
      r
  }

  /** Index `k` holds the first configured type called `name`. */
  ghost predicate FirstOfName(types: seq<NodeTypeDef>, name: string, k: nat) {
    k < |types| && types[k].name == name && forall j :: 0 <= j < k ==> types[j].name != name
  }

  /** The type `findWhere` finds is the first one of that name. */
  lemma {:induction false} FindTypeIsFirst(types: seq<NodeTypeDef>, name: string, k: nat)
    requires FirstOfName(types, name, k)
    ensures FindType(types, name) == Some(types[k])
    decreases k
  {
    if k > 0 {
      assert types[0].name != name;
      assert forall j :: 0 <= j < k - 1 ==> types[1..][j].name == types[j + 1].name;
      FindTypeIsFirst(types[1..], name, k - 1);
    }
  }

  // ---------------------------------------------------------------------
  // Security group references

  datatype GroupRef = GroupRef(name: string)

  /** `securityGroupsAsOpenstack(clusterName, secGroups)`. */
  function SecurityGroupsAsOpenstack(cluster: string, groups: seq<string>): (r: seq<GroupRef>)
    ensures |r| == |groups|
    ensures forall i :: 0 <= i < |groups| ==> r[i] == GroupRef(cluster + "-" + groups[i])
  {
    Map(groups, (g: string) => GroupRef(SecuritygroupName(cluster, g)))
  }

  /** Length and order are kept, and with dash-free names each reference
      projects back to the cluster and to its plain group name. */
  lemma SecurityGroupsAsOpenstackRoundTrip(cluster: string, groups: seq<string>, i: nat)
    requires Sep !in cluster
    requires forall j :: 0 <= j < |groups| ==> Sep !in groups[j]
    requires i < |groups|
    ensures SecuritygroupCluster(SecurityGroupsAsOpenstack(cluster, groups)[i].name) == cluster
    ensures SecuritygroupPlainName(SecurityGroupsAsOpenstack(cluster, groups)[i].name) == Some(groups[i])
  {
    SecuritygroupNameRoundTrip(cluster, groups[i]);
  }
}
