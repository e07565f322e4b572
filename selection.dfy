/** The option-driven selection predicates of lib/utils.js: whether a
    container (`isContainerToBeProcessed`) or a node (`isNodeToBeProcessed`)
    falls within the `--nodetype`, `--nodeid` and `--containerid` options. */
module Selection {
  import opened Wrappers
  import opened Options
  import opened Topology

  /** No restricting option is truthy: everything is processed. */
  predicate NoContainerSelection(opts: SelectionOptions) {
    !opts.nodetype.Truthy() && !opts.containerid.Truthy() && !opts.nodeid.Truthy()
  }

  predicate NoNodeSelection(opts: SelectionOptions) {
    !opts.nodetype.Truthy() && !opts.nodeid.Truthy()
  }

  /** `--containerid` is defined and equals the (truthy) container id. */
  predicate ContainerIdMatches(opts: SelectionOptions, containerId: Option<string>) {
    opts.containerid != Unset && containerId.Some? && containerId.value != ""
    && opts.containerid == Text(containerId.value)
  }

  /** `--nodeid` is defined and equals the (truthy) node id. */
  predicate NodeIdMatches(opts: SelectionOptions, nodeId: string) {
    opts.nodeid != Unset && nodeId != "" && opts.nodeid == Text(nodeId)
  }

  /** `--nodetype` is defined and strictly equal to the node's type. */
  predicate TypeOptionMatches(opts: SelectionOptions, nodeType: Option<string>) {
    opts.nodetype != Unset && nodeType.Some? && opts.nodetype == Text(nodeType.value)
  }

  /** `isContainerToBeProcessed(grunt, nodeType, nodeId, imageName,
      containerId)`. The nodetype clause reads `.images` of the configured
      type found by name; when there is none, JavaScript throws a
      `TypeError`, modelled as `Err`. The disjunction short-circuits, so the
      error arises only when the earlier clauses are all false. */
  function IsContainerToBeProcessed(
    opts: SelectionOptions, types: seq<NodeTypeDef>,
    nodeType: Option<string>, nodeId: string, imageName: string, containerId: Option<string>): (r: Result<bool>)
    ensures r.Err? <==>
      !NoContainerSelection(opts) && !ContainerIdMatches(opts, containerId) && !NodeIdMatches(opts, nodeId)
      && TypeOptionMatches(opts, nodeType)
      && forall k :: 0 <= k < |types| ==> types[k].name != nodeType.value
    ensures r == Ok(true) <==>
      NoContainerSelection(opts) || ContainerIdMatches(opts, containerId) || NodeIdMatches(opts, nodeId)
      || (TypeOptionMatches(opts, nodeType)
          && exists k :: 0 <= k < |types| && FirstOfName(types, nodeType.value, k) && imageName in types[k].images)
  {
    if NoContainerSelection(opts) || ContainerIdMatches(opts, containerId) || NodeIdMatches(opts, nodeId) then
      Ok(true)
    else if !TypeOptionMatches(opts, nodeType) then
      Ok(false)
    else
      match FindType(types, nodeType.value)
      case None => Err(TypeError("Cannot read property 'images' of undefined"))
      case Some(t) =>
        assert forall k :: 0 <= k < |types| && FirstOfName(types, nodeType.value, k) ==> t == types[k] by {
          forall k | 0 <= k < |types| && FirstOfName(types, nodeType.value, k) ensures t == types[k] {
            FindTypeIsFirst(types, nodeType.value, k);
          }
        }
        Ok(imageName in t.images)
  }

  /** `isNodeToBeProcessed(grunt, nodeType, nodeId)`. */
  function IsNodeToBeProcessed(
    opts: SelectionOptions, types: seq<NodeTypeDef>, nodeType: Option<string>, nodeId: string): (r: bool)
    ensures r <==>
      NoNodeSelection(opts) || NodeIdMatches(opts, nodeId)
      || (TypeOptionMatches(opts, nodeType) && exists k :: 0 <= k < |types| && types[k].name == nodeType.value)
  {
    NoNodeSelection(opts) || NodeIdMatches(opts, nodeId)
    || (TypeOptionMatches(opts, nodeType) && FindType(types, nodeType.value).Some?)
  }

  /** The node predicate is the coarser one: a container selected by
      anything but its own id lies on a node that is selected too. */
  lemma ContainerSelectionImpliesNodeSelection(
    opts: SelectionOptions, types: seq<NodeTypeDef>,
    nodeType: Option<string>, nodeId: string, imageName: string, containerId: Option<string>)
    requires IsContainerToBeProcessed(opts, types, nodeType, nodeId, imageName, containerId) == Ok(true)
    requires !ContainerIdMatches(opts, containerId)
    ensures IsNodeToBeProcessed(opts, types, nodeType, nodeId)
  {
    if !NoContainerSelection(opts) && !NodeIdMatches(opts, nodeId) {
      var k :| 0 <= k < |types| && FirstOfName(types, nodeType.value, k) && imageName in types[k].images;
      assert types[k].name == nodeType.value;
    }
  }

  /** Without a `--nodetype` option the container predicate cannot throw. */
  lemma NoTypeOptionNeverThrows(
    opts: SelectionOptions, types: seq<NodeTypeDef>,
    nodeType: Option<string>, nodeId: string, imageName: string, containerId: Option<string>)
    requires opts.nodetype == Unset
    ensures IsContainerToBeProcessed(opts, types, nodeType, nodeId, imageName, containerId).Ok?
  {
  }

  /** The expected values of the selection unit tests, with the computing
      type deploying `apache` and the load balancer `apache` and `consul`. */
  lemma SelectionExamples(computing: NodeTypeDef, loadbalancer: NodeTypeDef, anyImage: string)
    requires computing.name == "computing" && computing.images == ["apache"]
    requires loadbalancer.name == "loadbalancer" && loadbalancer.images == ["apache", "consul"]
    ensures var types := [computing, loadbalancer];
      var o := SelectionOptions(Text("computing"), Unset, Text("123"));
      && IsContainerToBeProcessed(o, types, Some("computing"), "abc", "apache", None) == Ok(true)
      && IsContainerToBeProcessed(o, types, Some("loadbalancer"), "abc", "apache", None) == Ok(false)
      && IsContainerToBeProcessed(o, types, Some("computing"), "abc", "consul", None) == Ok(false)
    ensures var types := [computing, loadbalancer];
      var lb := Text("loadbalancer");
      IsContainerToBeProcessed(SelectionOptions(lb, lb, lb), types, Some("computing"), "abc", "apache", None) == Ok(false)
    ensures var types := [computing, loadbalancer];
      IsContainerToBeProcessed(SelectionOptions(Unset, Unset, Unset), types, Some("computing"), "abc", "apache", None) == Ok(true)
    ensures var types := [computing, loadbalancer];
      && IsContainerToBeProcessed(SelectionOptions(Unset, Text("123"), Text("123")), types, Some("computing"), "abc", "apache", Some("123")) == Ok(true)
      && IsContainerToBeProcessed(SelectionOptions(Unset, Text("456"), Text("456")), types, Some("computing"), "abc", "apache", Some("123")) == Ok(false)
      && IsContainerToBeProcessed(SelectionOptions(Unset, Text("abc"), Unset), types, Some("computing"), "abc", "apache", Some("123")) == Ok(true)
      && IsContainerToBeProcessed(SelectionOptions(Unset, Text("abc"), Text("123")), types, Some("computing"), "abc", "apache", Some("123")) == Ok(true)
      && IsContainerToBeProcessed(SelectionOptions(Unset, Text("def"), Unset), types, Some("computing"), "abc", "apache", Some("123")) == Ok(false)
    ensures var types := [computing, loadbalancer];
      var o := SelectionOptions(Text("computing"), Text("abc"), Text("abc"));
      && IsNodeToBeProcessed(o, types, Some("computing"), "abc")
      && IsNodeToBeProcessed(o, types, Some("loadbalancer"), "abc")
      && IsNodeToBeProcessed(SelectionOptions(Unset, Unset, Unset), types, Some("computing"), "abc")
      && IsNodeToBeProcessed(SelectionOptions(Unset, Text("abc"), Text("abc")), types, Some("computing"), "abc")
    ensures var types := [computing, loadbalancer];
      var cde := Text("cde");
      IsContainerToBeProcessed(SelectionOptions(Unset, cde, cde), types, Some("computing"), "abc", anyImage, None) == Ok(false)
  {
  }
}
