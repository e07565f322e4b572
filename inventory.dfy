/** The data-shaping steps of lib/utils.js that turn the inventory of live
    servers and security groups into work items: `iterateOverNodes` (and its
    cluster instance `iterateOverClusterNodes`), `iterateOverSecurityGroups`
    (`iterateOverClusterSecurityGroups`) and `iterateOverClusterImages`. The
    inventory, which the source fetches from the cloud, is an explicit
    input; the iterators are functions reporting an optional error. */
module Inventory {
  import opened Wrappers
  import opened Seqs
  import opened Naming
  import opened Topology

  // ---------------------------------------------------------------------
  // Sequential iteration

  /** The error `async.eachSeries` hands to `done`: that of the first item
      whose iterator fails, and none when every item succeeds. */
  function FirstError<T, E>(items: seq<T>, step: T -> Option<E>): (r: Option<E>)
    ensures r.None? <==> forall i :: 0 <= i < |items| ==> step(items[i]).None?
    ensures r.Some? ==>
      exists k :: 0 <= k < |items| && r == step(items[k]) && forall i :: 0 <= i < k ==> step(items[i]).None?
    decreases |items|
  {
    if |items| == 0 then None
    else if step(items[0]).Some? then step(items[0])
    else
      var r := FirstError(items[1..], step);
      assert forall i :: 0 < i < |items| ==> items[i] == items[1..][i - 1];
      assert r.Some? ==>
        exists k :: 0 <= k < |items| && r == step(items[k]) && forall i :: 0 <= i < k ==> step(items[i]).None?
      by {
        if r.Some? {
          var k :| 0 <= k < |items| - 1 && r == step(items[1..][k])
            && forall i :: 0 <= i < k ==> step(items[1..][i]).None?;
          assert r == step(items[k + 1]);
        }
      }
      r
  }

  /** The first failing item determines the reported error. */
  lemma {:induction false} FirstErrorAt<T, E>(items: seq<T>, step: T -> Option<E>, k: nat)
    requires k < |items| && step(items[k]).Some?
    requires forall i :: 0 <= i < k ==> step(items[i]).None?
    ensures FirstError(items, step) == step(items[k])
    decreases k
  {
    if k > 0 {
      assert step(items[0]).None?;
      assert forall i :: 0 <= i < k - 1 ==> items[1..][i] == items[i + 1];
      FirstErrorAt(items[1..], step, k - 1);
    }
  }

  /** `async.eachSeries(items, iterator, done)`: the iterator runs on each
      item in turn and the first error stops the iteration. Returns how many
      items the iterator ran on and the error handed to `done`, if any. */
  method EachSeries<T, E>(items: seq<T>, step: T -> Option<E>) returns (attempted: nat, err: Option<E>)
    ensures err == FirstError(items, step)
    ensures err.None? ==> attempted == |items|
    ensures err.Some? ==>
      0 < attempted <= |items| && err == step(items[attempted - 1])
      && forall i :: 0 <= i < attempted - 1 ==> step(items[i]).None?
  {
    attempted, err := 0, None;
    while attempted < |items| && err.None?
      invariant 0 <= attempted <= |items|
      invariant err.None? ==> forall i :: 0 <= i < attempted ==> step(items[i]).None?
      invariant err.Some? ==>
        0 < attempted && err == step(items[attempted - 1])
        && forall i :: 0 <= i < attempted - 1 ==> step(items[i]).None?
    {
      err := step(items[attempted]);
      attempted := attempted + 1;
    }
    if err.Some? {
      FirstErrorAt(items, step, attempted - 1);
    }
  }

  // ---------------------------------------------------------------------
  // Nodes

  /** A live server as listed by the compute service. */
  datatype LiveServer = LiveServer(id: string, name: string, publicAddresses: seq<string>)

  /** `{id, name, address: addresses.public[0], type: nodeType(name)}`. */
  datatype ServerInfo = ServerInfo(id: string, name: string, address: Option<string>, typeName: Option<string>)

  /** `options.docker.client`: protocol, port and credentials of the Docker
      daemons (the credentials are carried along, never inspected). */
  datatype DockerClientConfig = DockerClientConfig(protocol: string, port: int, auth: string)

  datatype DockerEndpoint = DockerEndpoint(protocol: string, host: Option<string>, port: int)

  /** One element of the `data` array handed to the node iterator. */
  datatype WorkItem = WorkItem(node: ServerInfo, images: seq<string>, docker: DockerEndpoint, auth: string)

  function Info(s: LiveServer): (r: ServerInfo)
    ensures r.id == s.id && r.name == s.name && r.typeName == NodeType(s.name)
    ensures r.address.Some? <==> |s.publicAddresses| > 0
    ensures r.address.Some? ==> r.address.value == s.publicAddresses[0]
  {
    ServerInfo(s.id, s.name, if |s.publicAddresses| > 0 then Some(s.publicAddresses[0]) else None, NodeType(s.name))
  }

  /** The predicate `nodetype.name === name` as one shared function value. */
  function HasName(name: string): NodeTypeDef -> bool {
    (t: NodeTypeDef) => t.name == name
  }

  /** `imageNames.length > 0 ? imageNames[0].images : []` where
      `imageNames` are the configured types named like the node's type. */
  function ImagesFor(types: seq<NodeTypeDef>, typeName: Option<string>): seq<string> {
    if typeName.None? then []
    else
      var named := Filter(types, HasName(typeName.value));
      if |named| > 0 then named[0].images else []
  }

  /** The images of a node are those of the first configured type of that
      name, and none when there is no such type. */
  lemma {:induction false} ImagesForFirstType(types: seq<NodeTypeDef>, name: string)
    ensures ImagesFor(types, Some(name)) == (match FindType(types, name) case Some(t) => t.images case None => [])
    decreases |types|
  {
    if |types| > 0 && types[0].name != name {
      ImagesForFirstType(types[1..], name);
    }
  }

  function SelectionItem(cfg: DockerClientConfig, types: seq<NodeTypeDef>, node: ServerInfo): WorkItem {
    WorkItem(node, ImagesFor(types, node.typeName), DockerEndpoint(cfg.protocol, node.address, cfg.port), cfg.auth)
  }

  /** The selected servers, reshaped, in inventory order. */
  function SelectNodes(active: seq<LiveServer>, selector: LiveServer -> bool): seq<ServerInfo> {
    Map(Filter(active, selector), Info)
  }

  /** The `data` array of `iterateOverNodes`. */
  function NodesData(
    cfg: DockerClientConfig, types: seq<NodeTypeDef>, active: seq<LiveServer>, selector: LiveServer -> bool): seq<WorkItem>
  {
    Map(SelectNodes(active, selector), (n: ServerInfo) => SelectionItem(cfg, types, n))
  }

  /** The `forEach` that pushes one work item per selected node. */
  method NodeWorkItems(cfg: DockerClientConfig, types: seq<NodeTypeDef>, selNodes: seq<ServerInfo>)
    returns (data: seq<WorkItem>)
    ensures |data| == |selNodes|
    ensures forall i :: 0 <= i < |data| ==>
      data[i].node == selNodes[i]
      && data[i].docker == DockerEndpoint(cfg.protocol, selNodes[i].address, cfg.port)
      && data[i].auth == cfg.auth
      && data[i].images == ImagesFor(types, selNodes[i].typeName)
  {
    data := [];
    for i := 0 to |selNodes|
      invariant |data| == i
      invariant forall j :: 0 <= j < i ==> data[j] == SelectionItem(cfg, types, selNodes[j])
    {
      var node := selNodes[i];
      data := data + [SelectionItem(cfg, types, node)];
    }
  }

  /** `iterateOverNodes(options, selector, iterator, done)` after the
      inventory is fetched: selects, reshapes, builds the work items and runs
      the iterator over them in series. */
  method IterateOverNodes<E>(
    cfg: DockerClientConfig, types: seq<NodeTypeDef>, active: seq<LiveServer>,
    selector: LiveServer -> bool, visit: WorkItem -> Option<E>)
    returns (data: seq<WorkItem>, outcome: Option<E>)
    ensures data == NodesData(cfg, types, active, selector)
    ensures outcome == FirstError(data, visit)
    ensures outcome.None? <==> forall i :: 0 <= i < |data| ==> visit(data[i]).None?
    ensures outcome.Some? ==>
      exists k :: 0 <= k < |data| && outcome == visit(data[k]) && forall i :: 0 <= i < k ==> visit(data[i]).None?
  {
    var selNodes := SelectNodes(active, selector);
    data := NodeWorkItems(cfg, types, selNodes);
    var attempted;
    attempted, outcome := EachSeries(data, visit);
  }

  /** `iterateOverClusterNodes`: the selector keeps the nodes whose name
      projects to the configured cluster. */
  function ClusterSelector(cluster: string): LiveServer -> bool {
    (s: LiveServer) => NodeCluster(s.name) == cluster
  }

  /** The cluster selection keeps exactly the live servers of the cluster. */
  lemma ClusterNodesSelected(cfg: DockerClientConfig, types: seq<NodeTypeDef>, active: seq<LiveServer>, cluster: string)
    ensures forall i :: 0 <= i < |NodesData(cfg, types, active, ClusterSelector(cluster))| ==>
      NodeCluster(NodesData(cfg, types, active, ClusterSelector(cluster))[i].node.name) == cluster
    ensures forall j :: 0 <= j < |active| && NodeCluster(active[j].name) == cluster ==>
      Info(active[j]) in SelectNodes(active, ClusterSelector(cluster))
  {
    var sel := Filter(active, ClusterSelector(cluster));
    assert forall i :: 0 <= i < |sel| ==> NodeCluster(sel[i].name) == cluster;
    forall j | 0 <= j < |active| && NodeCluster(active[j].name) == cluster
      ensures Info(active[j]) in SelectNodes(active, ClusterSelector(cluster))
    {
      assert active[j] in sel;
      var i :| 0 <= i < |sel| && sel[i] == active[j];
      assert SelectNodes(active, ClusterSelector(cluster))[i] == Info(active[j]);
    }
  }

  /** Selection commutes with splitting the inventory: items keep the
      inventory order. */
  lemma NodesDataAppend(
    cfg: DockerClientConfig, types: seq<NodeTypeDef>, a: seq<LiveServer>, b: seq<LiveServer>, selector: LiveServer -> bool)
    ensures NodesData(cfg, types, a + b, selector) == NodesData(cfg, types, a, selector) + NodesData(cfg, types, b, selector)
  {
    FilterConcat(a, b, selector);
  }

  /** A cluster inventory with one node of another cluster: that node is
      left out, and the remaining one gets its type's images and a Docker
      endpoint at its public address. */
  lemma ClusterNodesExample(computing: NodeTypeDef)
    requires computing.name == "computing" && computing.images == ["apache"]
    ensures var cfg := DockerClientConfig("http", 2375, "");
      var active := [LiveServer("1", "oa-1-computing", ["10.0.0.1"]), LiveServer("2", "ext-1-other", ["10.0.0.2"])];
      NodesData(cfg, [computing], active, ClusterSelector("oa"))
        == [WorkItem(ServerInfo("1", "oa-1-computing", Some("10.0.0.1"), Some("computing")), ["apache"],
                     DockerEndpoint("http", Some("10.0.0.1"), 2375), "")]
  {
    ExampleSelection();
    assert Filter([computing], HasName("computing")) == [computing];
    assert ImagesFor([computing], Some("computing")) == ["apache"];
  }

  lemma ExampleSelection()
    ensures var active := [LiveServer("1", "oa-1-computing", ["10.0.0.1"]), LiveServer("2", "ext-1-other", ["10.0.0.2"])];
      SelectNodes(active, ClusterSelector("oa")) == [ServerInfo("1", "oa-1-computing", Some("10.0.0.1"), Some("computing"))]
  {
    ExampleFilter();
    ExampleNames();
  }

  lemma ExampleFilter()
    ensures var active := [LiveServer("1", "oa-1-computing", ["10.0.0.1"]), LiveServer("2", "ext-1-other", ["10.0.0.2"])];
      Filter(active, ClusterSelector("oa")) == [active[0]]
  {
    var s1, s2 := LiveServer("1", "oa-1-computing", ["10.0.0.1"]), LiveServer("2", "ext-1-other", ["10.0.0.2"]);
    var active := [s1, s2];
    var sel := ClusterSelector("oa");
    assert sel(s1) && !sel(s2) by {
      ExampleNames();
    }
    assert active[1..] == [s2] && [s2][1..] == [];
    calc {
      Filter(active, sel);
      [s1] + Filter([s2], sel);
      [s1] + Filter([], sel);
    }
  }

  lemma ExampleNames()
    ensures NodeCluster("oa-1-computing") == "oa" && NodeType("oa-1-computing") == Some("computing")
    ensures NodeCluster("ext-1-other") == "ext"
  {
    assert NatToString(1) == "1";
    assert NodeName("oa", "computing", 1) == "oa-1-computing";
    assert NodeName("ext", "other", 1) == "ext-1-other";
    NodeNameRoundTrip("oa", "computing", 1);
    NodeNameRoundTrip("ext", "other", 1);
  }

  // ---------------------------------------------------------------------
  // Security groups

  /** A live security group as listed by the network service. */
  datatype LiveGroup = LiveGroup(id: string, name: string)

  function ClusterGroupSelector(cluster: string): LiveGroup -> bool {
    (g: LiveGroup) => SecuritygroupCluster(g.name) == cluster
  }

  /** `_.filter(activeGroups, selector)` with the cluster selector: the live
      groups whose name projects to the cluster, in inventory order. */
  function ClusterGroups(active: seq<LiveGroup>, cluster: string): (r: seq<LiveGroup>)
    ensures forall i :: 0 <= i < |r| ==> r[i] in active && SecuritygroupCluster(r[i].name) == cluster
    ensures forall j :: 0 <= j < |active| && SecuritygroupCluster(active[j].name) == cluster ==> active[j] in r
  {
    Filter(active, ClusterGroupSelector(cluster))
  }

  /** The selection commutes with splitting the inventory, so it keeps the
      inventory order and every occurrence of a group. */
  lemma ClusterGroupsAppend(a: seq<LiveGroup>, b: seq<LiveGroup>, cluster: string)
    ensures ClusterGroups(a + b, cluster) == ClusterGroups(a, cluster) + ClusterGroups(b, cluster)
  {
    FilterConcat(a, b, ClusterGroupSelector(cluster));
  }

  /** A single group is kept exactly when it belongs to the cluster. */
  lemma ClusterGroupsSingle(g: LiveGroup, cluster: string)
    ensures ClusterGroups([g], cluster) == if SecuritygroupCluster(g.name) == cluster then [g] else []
  {
    FilterSingle(g, ClusterGroupSelector(cluster));
  }

  /** `iterateOverClusterSecurityGroups`: runs the iterator in series over
      the live groups whose name projects to the cluster. */
  method IterateOverClusterSecurityGroups<E>(active: seq<LiveGroup>, cluster: string, visit: LiveGroup -> Option<E>)
    returns (selected: seq<LiveGroup>, outcome: Option<E>)
    ensures selected == ClusterGroups(active, cluster)
    ensures outcome == FirstError(selected, visit)
    ensures outcome.None? <==> forall i :: 0 <= i < |selected| ==> visit(selected[i]).None?
    ensures outcome.Some? ==>
      exists k :: 0 <= k < |selected| && outcome == visit(selected[k])
        && forall i :: 0 <= i < k ==> visit(selected[i]).None?
  {
    selected := Filter(active, ClusterGroupSelector(cluster));
    var attempted;
    attempted, outcome := EachSeries(selected, visit);
  }

  // ---------------------------------------------------------------------
  // Images

  /** One entry of `dock.options.images`; `attrs` stands for the other
      properties a shallow clone carries over. */
  datatype ImageDef = ImageDef(repo: string, tag: string, attrs: map<string, string>)

  /** `grunt.config.get().dock.options`. The image definitions keep the
      order of `_.keys`. */
  datatype DockOptions = DockOptions(
    auth: string, registry: string, docker: string, dockerclient: string,
    images: seq<(string, ImageDef)>)

  /** An image to pull onto a node. */
  datatype Pull = Pull(
    name: string, repo: string, tag: string, attrs: map<string, string>,
    auth: string, registry: string, docker: string, dockerclient: string, node: WorkItem)

  /** The clone of an image definition decorated for one node. */
  function MakePull(dock: DockOptions, entry: (string, ImageDef), node: WorkItem): Pull {
    Pull(entry.0, dock.registry + "/" + entry.1.repo + ":" + entry.1.tag, entry.1.tag, entry.1.attrs,
         dock.auth, dock.registry, dock.docker, dock.dockerclient, node)
  }

  function DeployedOn(node: WorkItem): Pull -> bool {
    (p: Pull) => p.name in node.images
  }

  /** The pulls of one node: the defined images that appear in its images. */
  function NodePulls(dock: DockOptions, node: WorkItem): seq<Pull> {
    Filter(Map(dock.images, (e: (string, ImageDef)) => MakePull(dock, e, node)), DeployedOn(node))
  }

  /** The pulls of all nodes, concatenated in node order. */
  function AllPulls(dock: DockOptions, nodes: seq<WorkItem>): seq<Pull> {
    ConcatMap(nodes, PullsOn(dock))
  }

  function PullsOn(dock: DockOptions): WorkItem -> seq<Pull> {
    (node: WorkItem) => NodePulls(dock, node)
  }

  /** The node iterator of `iterateOverClusterImages`: for each node, clone
      and decorate every defined image, keep those the node deploys, and
      append them to `pulls`. */
  method ClusterImagePulls(dock: DockOptions, nodes: seq<WorkItem>) returns (pulls: seq<Pull>)
    ensures pulls == AllPulls(dock, nodes)
  {
    pulls := [];
    for k := 0 to |nodes|
      invariant pulls == AllPulls(dock, nodes[..k])
    {
      var node := nodes[k];
      var nodePulls := [];
      for j := 0 to |dock.images|
        invariant |nodePulls| == j
        invariant forall i :: 0 <= i < j ==> nodePulls[i] == MakePull(dock, dock.images[i], node)
      {
        nodePulls := nodePulls + [MakePull(dock, dock.images[j], node)];
      }
      assert nodePulls == Map(dock.images, (e: (string, ImageDef)) => MakePull(dock, e, node));
      nodePulls := Filter(nodePulls, DeployedOn(node));
      assert nodes[..k + 1][..k] == nodes[..k];
      pulls := pulls + nodePulls;
    }
    assert nodes[..|nodes|] == nodes;
  }

  /** `iterateOverClusterImages` after the node phase: collects the pulls
      and runs the image iterator over them in series; `done` receives the
      first error. */
  method IterateOverClusterImages<E>(dock: DockOptions, nodes: seq<WorkItem>, visit: Pull -> Option<E>)
    returns (pulls: seq<Pull>, outcome: Option<E>)
    ensures pulls == AllPulls(dock, nodes)
    ensures outcome == FirstError(pulls, visit)
    ensures outcome.None? <==> forall i :: 0 <= i < |pulls| ==> visit(pulls[i]).None?
    ensures outcome.Some? ==>
      exists k :: 0 <= k < |pulls| && outcome == visit(pulls[k]) && forall i :: 0 <= i < k ==> visit(pulls[i]).None?
  {
    pulls := ClusterImagePulls(dock, nodes);
    var attempted;
    attempted, outcome := EachSeries(pulls, visit);
  }

  /** Pulls of a split node list are the concatenation of the parts' pulls. */
  lemma AllPullsAppend(dock: DockOptions, a: seq<WorkItem>, b: seq<WorkItem>)
    ensures AllPulls(dock, a + b) == AllPulls(dock, a) + AllPulls(dock, b)
  {
    ConcatMapAppend(a, b, PullsOn(dock));
  }

  /** Every pull is a defined image, deployed on one of the nodes, with the
      registry-qualified repository `registry/repo:tag`. */
  lemma AllPullsSound(dock: DockOptions, nodes: seq<WorkItem>, p: Pull)
    requires p in AllPulls(dock, nodes)
    ensures p.node in nodes && p.name in p.node.images
    ensures exists j :: 0 <= j < |dock.images| && p == MakePull(dock, dock.images[j], p.node)
    ensures exists j ::
              0 <= j < |dock.images| && dock.images[j].0 == p.name
              && p.repo == dock.registry + "/" + dock.images[j].1.repo + ":" + dock.images[j].1.tag
  {
    ConcatMapMember(nodes, PullsOn(dock), p);
    var k :| 0 <= k < |nodes| && p in PullsOn(dock)(nodes[k]);
    var node := nodes[k];
    var m := Map(dock.images, (e: (string, ImageDef)) => MakePull(dock, e, node));
    assert p in Filter(m, DeployedOn(node));
    var j :| 0 <= j < |m| && m[j] == p;
    assert p == MakePull(dock, dock.images[j], node);
  }

  /** Every defined image that a node deploys is pulled onto that node. */
  lemma AllPullsComplete(dock: DockOptions, nodes: seq<WorkItem>, k: nat, j: nat)
    requires k < |nodes| && j < |dock.images|
    requires dock.images[j].0 in nodes[k].images
    ensures MakePull(dock, dock.images[j], nodes[k]) in AllPulls(dock, nodes)
  {
    var m := Map(dock.images, (e: (string, ImageDef)) => MakePull(dock, e, nodes[k]));
    assert m[j] == MakePull(dock, dock.images[j], nodes[k]);
    assert nodes == nodes[..k] + [nodes[k]] + nodes[k + 1..];
    AllPullsAppend(dock, nodes[..k] + [nodes[k]], nodes[k + 1..]);
    AllPullsAppend(dock, nodes[..k], [nodes[k]]);
    assert [nodes[k]][..0] == [];
  }

  /** A node that deploys none of the defined images contributes no pull. */
  lemma NodeWithoutImagesPullsNothing(dock: DockOptions, nodes: seq<WorkItem>, node: WorkItem)
    requires forall j :: 0 <= j < |dock.images| ==> dock.images[j].0 !in node.images
    ensures AllPulls(dock, nodes + [node]) == AllPulls(dock, nodes)
  {
    assert (nodes + [node])[..|nodes|] == nodes;
    var m := Map(dock.images, (e: (string, ImageDef)) => MakePull(dock, e, node));
    assert forall i :: 0 <= i < |m| ==> !DeployedOn(node)(m[i]);
    FilterNone(m, DeployedOn(node));
  }
}
