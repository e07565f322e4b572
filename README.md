# grunt-clouddity, modelled in Dafny

grunt-clouddity is a Grunt plugin. It provisions a compute cluster on
OpenStack and deploys Docker containers onto it. This project models the
rules inside it that decide *what* gets done:

- **Naming.** Node names (`cluster-seq-type`), security group names
  (`cluster-group`) and qualified image names.
- **Topology.** Node type definitions expand into declared nodes, one per
  replica, by a nested push loop.
- **Selection.** The `--nodetype`, `--nodeid` and `--containerid` options
  decide which nodes and containers a task touches.
- **Inventory.** Live servers and groups are correlated with the
  configuration and turned into per-node work items and image pulls. These
  are then walked in series, and the walk stops at the first error.
- **Security rules.** Each configured rule template becomes concrete
  firewall rules. There is one rule per server of the templated type and
  one per literal prefix.
- **CLI marshalling.**
  - The `_.reduce`/`_.extend` merge of option objects, including the
    in-place writes to the objects it folds.
  - The rendering of the merge as `-k v` / `--k v` switches.
  - The parser for `--key=value` flags.
  - The assembly of the OpenStack and Heat command lines in
    tasks/clouddity.js and index.js.

Functions model the code that is pure JavaScript expressions. Methods with
loops model the code that pushes or concatenates step by step:
`getDefinedNodes`, the `data.push` loop, the `pulls` concat loop, the nested
`rulesToAdd` loops and `async.eachSeries`. Each loop is proved against a
specification function, and the properties are proved about that function.
`_.extend` assigns into the array's own objects, so it is modelled on a
class `JsObject`:
- `ReduceExtend` performs the fold in place.
- A ghost store simulation covers repeated objects.
- A lemma shows that the in-place fold equals the value-level `Merge` when
  the objects are distinct.

Inputs that the original reads through I/O are parameters:
- the live servers, groups and addresses returned by the cloud SDK;
- the `servertypefunction`;
- the defined server names;
- the JSON command tables (`commands-output.json`,
  `openstack-singledash.json`, `openstack-commands.json`,
  `heat-commands.json`);
- the iterator callbacks, which return an optional error.

## Model

| member | source | states |
|---|---|---|
| Naming.NatToString | lib/utils.js:95-97 | the sequence number renders as decimal digits |
| Naming.DecimalRoundTrip | lib/utils.js:95-97 | the decimal rendering of a sequence number reads back as that number |
| Naming.NatToStringDashFree | lib/utils.js:95-97 | a rendered sequence number never contains the `-` separator |
| Naming.NodeType | lib/utils.js:107-109 | field 2 of the dash split, absent (`undefined`) when the name has fewer than three fields; never contains a dash |
| Naming.NodeCluster | lib/utils.js:119-121 | field 0 of the dash split: the longest dash-free prefix of the name |
| Naming.FirstField | lib/utils.js:119-121 | field 0 of a split is a dash-free prefix ending at the first dash or at the end |
| Naming.NodeNameRoundTrip | lib/utils.js:95-121 | with dash-free cluster and type, `nodeType` and `nodeCluster` recover the parts of `nodeName`, and the split is exactly `[cluster, seq, type]` |
| Naming.NodeNameInjective | lib/utils.js:95-97 | with dash-free parts, equal node names mean equal cluster, type and sequence number |
| Naming.DashInClusterIsNotRecovered | lib/utils.js:95-121 | a dash in the cluster name breaks the round trip (`o-a` gives back `o`, and the type `1`) |
| Naming.SecuritygroupCluster | lib/utils.js:146-148 | field 0 of the group name: the dash-free prefix |
| Naming.SecuritygroupPlainName | lib/utils.js:158-160 | field 1 of the group name; absent exactly when the name has no dash |
| Naming.SecuritygroupNameRoundTrip | lib/utils.js:134-160 | with dash-free parts, the two projections recover the cluster and the group of `securitygroupName` |
| Naming.NamingExamples | test/test-unit.js:49-75 | the naming unit-test values: `oa-1-computing`, `oa-http` and their projections |
| Naming.QualifiedImageName | lib/utils.js:220-224 | each of `registry` and `version` is applied exactly when it is truthy: a registry prefixes `registry/`, a version suffixes `:version`, and with neither the name is unchanged |
| Naming.QualifiedImageNameParts | lib/utils.js:220-224 | in all four cases the qualified name splits on `/` into the registry (when truthy) and the tagged name, and that splits on `:` into the name and the version (when truthy) |
| Naming.TaggedNameParts | lib/utils.js:221-223 | the tagged name has no `/`, and splits on `:` into the name and, when truthy, the version |
| Naming.QualifiedIsTagged | lib/utils.js:220-224 | the qualified name is `registry/`, when the registry is truthy, followed by the tagged name |
| Naming.SplitWithRegistry | lib/utils.js:222-223 | with a truthy slash-free registry, the qualified name splits on `/` into the registry and the tagged name |
| Naming.SplitWithoutRegistry | lib/utils.js:222-223 | without a truthy registry, the qualified name is one `/`-field: the tagged name |
| Naming.ImageTagParts | lib/utils.js:220-224 | `name:version` splits on `:` back into name and version when neither contains `:` |
| Topology.GetDefinedNodes | lib/utils.js:173-188 | the nested push loop yields exactly the declared-node sequence: the replicas of each type, type by type, numbered from 1 |
| Topology.DefinedNodesCount | lib/utils.js:173-188 | the number of declared nodes is the sum of the positive replication counts |
| Topology.DefinedNodesAppend | lib/utils.js:178-186 | expanding concatenated type lists concatenates the expansions |
| Topology.DefinedNodesAt | lib/utils.js:178-186 | replica `i` of type `k` sits right after all replicas of the earlier types |
| Topology.DefinedNodesAreReplicas | lib/utils.js:178-186 | every declared node is replica `i` (1 ≤ i ≤ replication) of some configured type |
| Topology.DefinedNodesIndex | lib/utils.js:178-186 | every position of the expansion is replica `i` of type `k`, at offset `TotalReplication(types[..k]) + i - 1` |
| Topology.DefinedNodesProjectBack | lib/utils.js:107-121 | with dash-free names, every declared node's name projects back to its cluster and its type |
| Topology.DefinedNodeNamesInjective | lib/utils.js:173-188 | with dash-free and distinct type names, no two declared nodes share a name |
| Topology.NonPositiveReplicationIsEmpty | lib/utils.js:180 | a type with replication ≤ 0 contributes no node |
| Topology.DefinedNodesExample | lib/utils.js:173-188 | three computing replicas and one load balancer give `oa-1/2/3-computing` and `oa-1-loadbalancer` |
| Topology.FindType | lib/utils.js:54-56 | absent exactly when no type has the name; otherwise the first configured type of that name |
| Topology.FindTypeIsFirst | lib/utils.js:54-56 | the type found by name is the first configured type of that name |
| Topology.SecurityGroupsAsOpenstack | lib/utils.js:201-207 | one reference per group, in order, reference i named `cluster-g` for group i, for every input |
| Topology.SecurityGroupsAsOpenstackRoundTrip | lib/utils.js:201-207 | reference `i` names group `i` of this cluster: both projections recover the cluster and the group |
| Selection.IsContainerToBeProcessed | lib/utils.js:46-57 | true iff no restricting option is set, or the container id matches, or the node id matches, or the type option equals the node type and the first configured type of that name lists the image; a `TypeError` exactly when the type option matches but no type of that name is configured |
| Selection.IsNodeToBeProcessed | lib/utils.js:73-80 | true iff neither `nodetype` nor `nodeid` is set, or the node id matches, or the type option equals the node type and a type of that name is configured |
| Selection.ContainerSelectionImpliesNodeSelection | lib/utils.js:46-80 | a container selected other than by its own id lies on a selected node |
| Selection.NoTypeOptionNeverThrows | lib/utils.js:46-57 | without `--nodetype` the container predicate never throws |
| Selection.SelectionExamples | test/test-unit.js:80-314 | the expected values of the container and node selection unit tests |
| Inventory.FirstError | lib/utils.js:307 | reference for a series walk: no error iff every step succeeds, otherwise the error of the first failing item |
| Inventory.FirstErrorAt | lib/utils.js:307 | when item `k` is the first to fail, the walk reports exactly its error |
| Inventory.EachSeries | lib/utils.js:307 | runs the items in order and stops at the first error: the outcome is the error of the first failing item, or none; every earlier item succeeded |
| Inventory.Info | lib/utils.js:276-283 | keeps id and name, takes the first public address when there is one, and derives the type from the name |
| Inventory.ImagesForFirstType | lib/utils.js:289-292 | the images of a node are those of the first configured type of its type name, or none |
| Inventory.NodeWorkItems | lib/utils.js:287-304 | the `data.push` loop yields one work item per selected node, in order, carrying its images and Docker endpoint |
| Inventory.IterateOverNodes | lib/utils.js:264-309 | `data` is the filter-then-map of the live servers; the outcome is no error iff the iterator succeeds on every item, and otherwise the error of the first item it fails on |
| Inventory.ClusterNodesSelected | lib/utils.js:240-244 | the cluster selector keeps exactly the live servers whose name projects to the cluster |
| Inventory.NodesDataAppend | lib/utils.js:272-304 | the work items of a concatenation of server lists are the concatenation of the work items |
| Inventory.ClusterNodesExample | lib/utils.js:240-309 | of `oa-1-computing` and `ext-1-other`, only the first gives a work item for cluster `oa` |
| Inventory.ClusterGroups | lib/utils.js:321-356 | the groups kept are exactly the live groups whose name projects to the cluster |
| Inventory.ClusterGroupsAppend | lib/utils.js:321-356 | the selection of a concatenation is the concatenation of the selections, so order and repetitions are kept |
| Inventory.ClusterGroupsSingle | lib/utils.js:321-356 | one group is kept, once, iff its name projects to the cluster |
| Inventory.IterateOverClusterSecurityGroups | lib/utils.js:321-358 | the walked groups are the cluster selection of the live groups, in order; no error iff the iterator succeeds on each, otherwise the error of the first it fails on |
| Inventory.ClusterImagePulls | lib/utils.js:379-403 | the nested clone/push/filter/concat loops yield exactly the pulls specification: node by node, the defined images that node deploys |
| Inventory.IterateOverClusterImages | lib/utils.js:375-418 | the pulls are collected first and then walked in series; no error iff every pull succeeds, otherwise the error of the first failing pull |
| Inventory.AllPullsAppend | lib/utils.js:402 | the pulls of a concatenation of nodes are the concatenation of their pulls |
| Inventory.AllPullsSound | lib/utils.js:387-400 | every pull is a defined image that its node deploys, with the repository `registry/repo:tag` |
| Inventory.AllPullsComplete | lib/utils.js:387-400 | every defined image a node deploys is pulled onto that node |
| Inventory.NodeWithoutImagesPullsNothing | lib/utils.js:398-400 | a node that deploys none of the defined images adds no pull |
| SecurityRules.Selected | lib/openstack.js:132-139 | a selected server keeps its id and name, takes its first public address and the type the type function gives |
| SecurityRules.SelectServers | lib/openstack.js:126-139 | exactly the live servers whose name is defined, in inventory order, each decorated |
| SecurityRules.SelectServersAppend | lib/openstack.js:126-139 | selecting from a concatenation concatenates the selections, so inventory order and repetitions are kept |
| SecurityRules.SelectServersSingle | lib/openstack.js:126-139 | one server is selected, once and decorated, iff its name is defined |
| SecurityRules.ServerIdsToDestroy | lib/openstack.js:297-304 | the ids of exactly the live servers whose name is defined, in inventory order |
| SecurityRules.ServerIdsToDestroyAppend | lib/openstack.js:297-304 | the ids of a concatenation are the concatenation of the ids |
| SecurityRules.ServerIdsToDestroySingle | lib/openstack.js:297-304 | one server contributes its id once iff its name is defined, and nothing otherwise |
| SecurityRules.SelectGroups | lib/openstack.js:150-154 | exactly the live groups that have a configuration entry, in order |
| SecurityRules.SelectGroupsAppend | lib/openstack.js:150-154 | selecting from a concatenation concatenates the selections |
| SecurityRules.SelectGroupsSingle | lib/openstack.js:150-154 | one group is kept, once, iff it has a configuration entry |
| SecurityRules.Concrete | lib/openstack.js:177-198 | a concrete rule carries the group id, copies direction, ethertype, port range and protocol, and has the given prefix |
| SecurityRules.RulesPerServerMatching | lib/openstack.js:174-188 | the template expansion is one rule per server of the templated type, in server order, with that server's address |
| SecurityRules.AddServerRules | lib/openstack.js:175-188 | the inner `selServers.forEach` appends exactly the per-server rules |
| SecurityRules.AddRule | lib/openstack.js:172-200 | the body for one template appends its templated rules, then its literal rule |
| SecurityRules.RulesToAdd | lib/openstack.js:157-201 | a fresh `rulesToAdd` per group ends as the expansion of the considered templates, in template order |
| SecurityRules.ExpandRulesSnoc | lib/openstack.js:172-201 | one more template appends exactly its own expansion |
| SecurityRules.AddGroupPlan | lib/openstack.js:157-201 | the body for one selected group records that group with the rules of its own configured templates |
| SecurityRules.UpdateSecurityGroups | lib/openstack.js:120-201 | the plan is one entry per selected group, in order, with the rules the plan specification gives |
| SecurityRules.PlanPerGroup | lib/openstack.js:157-163 | each planned group's rules depend only on that group's own configured templates |
| SecurityRules.ExpandRuleCount | lib/openstack.js:174-200 | a template yields as many rules as there are matching servers (for a truthy template) plus one for a truthy literal prefix |
| SecurityRules.TemplatedPrefixes | lib/openstack.js:174-188 | the prefixes of the templated rules are the addresses of the matching servers, in order |
| SecurityRules.NoMatchingServerEmitsNothing | lib/openstack.js:174-188 | when no server has the templated type nothing is emitted, and no error arises |
| SecurityRules.BothFieldsOrder | lib/openstack.js:174-200 | with both fields set, the templated rules come first and the literal rule last |
| SecurityRules.EmptyTemplateEmitsNothing | lib/openstack.js:163-174 | a template that is the empty string passes the filter but emits nothing |
| SecurityRules.ConsideredFilterIsHarmless | lib/openstack.js:163-167 | filtering out templates with neither field changes no output |
| SecurityRules.ExpandedRulesSound | lib/openstack.js:172-200 | every emitted rule comes from one considered template, copies its fields and carries the group id |
| SecurityRules.ExpandRuleSound | lib/openstack.js:174-200 | a rule emitted for a template copies it and has either a matching server's address or the literal prefix |
| SecurityRules.TemplatedRuleExample | lib/openstack.js:174-188 | two computing servers and a load balancer give the two computing addresses; without servers, nothing |
| JsObjects.Lookup | tasks/clouddity.js:106-108 | a property is absent exactly when its key is not among the object's keys |
| JsObjects.SetLookup | tasks/clouddity.js:107 | after an assignment the key reads the new value and other keys are unchanged |
| JsObjects.SetKeys | tasks/clouddity.js:107 | assignment keeps an existing key in place and appends a new one last |
| JsObjects.ExtendLookup | tasks/clouddity.js:106-108 | after `_.extend(target, src)` a key of the source reads the source's value, and any other key reads the target's |
| JsObjects.ExtendKeys | tasks/clouddity.js:106-108 | `_.extend` keeps keys distinct, keeps the target's keys first and in order, and adds exactly the source's keys |
| JsObjects.Merge | tasks/clouddity.js:106-108 | the memo-less fold is `undefined` exactly for an empty array or an `undefined` last element |
| JsObjects.MergeRestart | tasks/clouddity.js:106-108 | an `undefined` element throws away everything merged before it |
| JsObjects.MergeEarliestWins | tasks/clouddity.js:106-108 | when every element is an object, the fold has distinct keys, and each key reads the value of the earliest element that has it |
| JsObjects.OptionsToCLISwitches | tasks/clouddity.js:105-111 | one switch per property of the fold, none for an `undefined` fold |
| JsObjects.OptionsToCLISwitchesSpec | tasks/clouddity.js:105-111 | every key of the merged objects gets exactly one switch, `-k v` when it is single-dash and `--k v` otherwise, with the value of the earliest object that has it |
| JsObjects.UndefinedLastDropsAll | tasks/clouddity.js:105-111 | an `undefined` last element yields no switch at all |
| JsObjects.JsObject.ExtendWith | tasks/clouddity.js:107 | `_.extend(this, src)` in place: the object ends as the extension of its old properties by the source's old properties, and an `undefined` source leaves it unchanged |
| JsObjects.ReduceExtend | tasks/clouddity.js:106-108 | the in-place fold returns the last element (or `undefined`), and every object ends as the store simulation of the fold says |
| JsObjects.SimulateUntouched | tasks/clouddity.js:106-108 | the fold writes only into objects at positions after the first |
| JsObjects.SimulateIsMerge | tasks/clouddity.js:106-108 | for distinct objects the in-place fold computes the value-level merge of their initial properties |
| CliFlags.ValueGroupsAreLeftmostGreedy | tasks/clouddity.js:119-131 | the key and value taken from `/(\-+)(.+)=(.+)/` are those of the leftmost match with the longest dash run and the longest key; no groups exactly when the pattern cannot match |
| CliFlags.FlagGroupIsLeftmostGreedy | tasks/clouddity.js:119-139 | the key taken from `/(\-+)(.+)/` is that of the leftmost match with the longest dash run; no key exactly when the pattern cannot match |
| CliFlags.GruntCLIOptions | tasks/clouddity.js:141 | the parsed object has a property exactly for the names of the flags, with `null` keys named `"null"` |
| CliFlags.GruntCLIOptionsLastWins | tasks/clouddity.js:141 | when several flags share a key, the last of them gives the value |
| CliFlags.ValueFlagParses | tasks/clouddity.js:119-139 | any run of dashes, a key not starting with a dash, `=` and a non-empty value without `=` parse to exactly that key and value, also when the key holds `=` |
| CliFlags.ValueFlagExample | tasks/clouddity.js:119-139 | `--nodetype=computing` gives `nodetype` mapped to `computing` |
| CliFlags.GreedyKeyExample | tasks/clouddity.js:119-139 | `-a=b=c` gives `a=b` mapped to `c`: the key runs to the last `=` |
| CliFlags.BareFlagExamples | tasks/clouddity.js:119-139 | `--verbose`, `--x=` and `---` get the value `""` and the keys `verbose`, `x=` and `-`; `abc` gives `null` |
| CliFlags.GruntCLIOptionsExample | tasks/clouddity.js:119-141 | `--a=1 --b --a=2` parses to `a` mapped to `2` and `b` mapped to `""` |
| Commands.FirstWordIsPrefix | tasks/clouddity.js:225 | `cmd.split(" ")[0]` is the text before the first space |
| Commands.AsWrittenDropsOptions | tasks/clouddity.js:225 | as written, when no output switch is wanted, the option switches are empty whatever the options are |
| Commands.AsWrittenCounterexample | tasks/clouddity.js:225 | as written, `--name web` is lost for a command without output format; the corrected form keeps it |
| Commands.OutputEntry | tasks/clouddity.js:225 | the output entry holds the key `f` exactly when output is truthy and the command's first word takes an output format |
| Commands.OptionSwitchesKeepOptions | tasks/clouddity.js:225 | corrected: every option gets its switch with its own value, and the `f` switch with the output when it is wanted, an `f` option winning |
| Commands.OptionSwitchKeys | tasks/clouddity.js:225 | corrected: only the options' keys and, when wanted, `f` get a switch |
| Commands.CommandParts | tasks/clouddity.js:222-226 | the joined elements are the client, the global switches, `obj` and `cmd`, the option switches, and the debug switch, in that order |
| Commands.DebugSwitch | tasks/clouddity.js:226 | the last element is `--debug` iff the verbose option is truthy, otherwise empty |
| Commands.ExecuteTask | tasks/clouddity.js:221-247 | the command is the space-joined command parts and so starts with the client; `stdout` is the verbose option when given and `false` when absent; the callback is the caller's when it is a function and the default logger otherwise |
| Commands.HandlerFor | tasks/clouddity.js:238-245 | the caller's callback when it is a function, otherwise the default logger |
| Commands.ClientTaskFor | tasks/clouddity.js:182-205 | a task acts on `val[0]` (absent for an empty entry) with the command `val[1]`, or `""` when the entry has fewer than two words |
| Commands.ClientTasks | tasks/clouddity.js:182-205 | one task per key of the command table, each built from that key's entry |
| Commands.ClientTaskCommand | tasks/clouddity.js:182-226 | running the task of a key puts the client first, then the entry's object and action after the global switches |
| Commands.IndexFormat | index.js:43-47 | the format is `json` for a function callback, otherwise the output, which defaults to `table` |
| Commands.IndexCommandParts | index.js:46-48 | the configured words come first, then the switches of `[auth, options, {f}]`, then the debug switch |
| Commands.IndexCommandLinePrefix | index.js:46-48 | the joined command line starts with the configured words and a space |
| Commands.IndexFormatSwitch | index.js:23-29 | exactly one switch has the key `f` in the merged object, and it carries auth's `f` if it has one, else the options' `f`, else the computed format |
| Commands.SimulateIndexFold | index.js:47 | folding `[auth, options, {f}]` in place gives the value-level merge, and writes auth's properties into `options` |
| Commands.IndexCommand | index.js:45-48 | the `cmd` closure returns the joined command line of the objects' values at call time, and leaves the caller's `options` extended by `auth` |
| Commands.IndexExecuteTask | index.js:43-60 | `stdout` is always false; the format is the one the closure's `f` switch uses, `json` iff the callback is a function or the output is `json`; a function callback is returned unchanged, otherwise the default logger |
| Commands.IndexTask | index.js:65-74 | the task of a key passes that key's words as `cmd` and the caller's arguments on to `executeTask`, with `options` defaulting to `{}`; its line starts with the key's words |
| Commands.IndexTaskOmittedOptions | index.js:67 | leaving `options` out gives the same task result as passing `{}` |
| Commands.IndexTaskNullOptionsDropsAuth | index.js:43-71 | an explicit `null` options is not defaulted, and the line then carries only the format switch, losing auth's switches |

## Left out

- Cloud and Docker SDK calls, HTTP requests and Docker streams are left out, along with all of lib/docker.js. They are I/O. Their results are explicit inputs.
- `async.each` in lib/openstack.js is left out because it is parallel fan-out. `async.eachSeries` is modelled only as a sequential loop that stops at the first error.
- `iterateOverClusterContainers` (lib/utils.js:436-473) is left out. It lists Docker containers, logs second-phase errors and calls `done()` without an error.
- `dealWithError` (lib/utils.js:17) is left out. It logs and then falls through, so control continues after an error; that continuation is not modelled.
- The completion callback of `updatesecuritygroups` is not modelled. It is passed as `forEach`'s `thisArg` (lib/openstack.js:215) and never fires.
- `getDefinedServers`, `getNetworkClient` and `getComputeClient` are called by lib/openstack.js, but lib/utils.js does not define them. The defined server names and the server type function are therefore parameters.
- Grunt task registration and dispatch are left out. This covers tasks/grunt-clouddity.js, tasks/grunt-cluster-deploy.js and `processCommand` in tasks/clouddity.js.
- `ejs.render` of the command string (tasks/clouddity.js:227-230) is left out. It is a foreign template engine. That also excludes the options object it renders against, `getGruntCLIOptions`' only consumer.
- `compileTemplate` (tasks/clouddity.js:154-177) is left out. It only formats a fixed shell command and logs.
- lib/a57.js and lib/clouddity.js are not part of this model. Both use undefined names.
- test/config/template.js and the `remoteIpNodePrefixes` key of test/Gruntfile.js are not part of this model. The first is a file-reading config generator; openstack.js never reads the second.
- The server creation at lib/openstack.js:250 is not modelled. Only its helper `securityGroupsAsOpenstack` is, and it is modelled with both arguments. That call site passes one argument.
- Inventory.NodeWorkItems: the `hosts` field of a work item is not modelled. It is always `undefined`, because the selected nodes were remapped without it.
- Inventory.IterateOverNodes: the node phase never reports an error of its own, so its outcome is that of the iterator walk only.
- Inventory.ClusterImagePulls: the repository is `registry + "/" + repo + ":" + tag` even when no registry is set, as the code does it, unlike `qualifiedImageName`.
- SecurityRules.Plan: a group without a configuration entry gets no templates. Selection rules this case out, so it never arises.
- Auth objects, Docker option objects and image attributes are opaque strings or records. Their inner structure is not used.
- JavaScript details are modelled only partly:
  - Object key order is followed only for insertion-ordered string keys. Integer-like keys are not enumerated first.
  - Option values are strings. Non-string values and their `toString` are not modelled.
  - `.` in the flag patterns is taken to match any character. Line terminators are not distinguished.
  - The command JSON tables hold string arrays.
  - An option object passed as `null` (instead of omitted) is modelled only in index.js.
- Commands.CommandParts: uses the corrected option switches (see Findings), not the as-written ones.
- Commands.ExecuteTask: uses the corrected option switches (see Findings). Its command string is the one before the template render.

## Findings

| source | as written | input that shows it | evidently intended | confidence | as-written member | corrected member |
|---|---|---|---|---|---|---|
| tasks/clouddity.js:225 | the option switches fold `[options, wanted ? {f: output} : undefined]`; with `undefined` last, `_.extend(undefined, options)` returns `undefined` and `_.pairs` gives no switch | options `{name: "web"}`, no output, command `create`: the command line has no `--name web` | options are rendered whether or not an output switch is added, as with `{}` in place of `undefined` | not executed | Commands.AsWrittenDropsOptions | Commands.OptionSwitchesKeepOptions |
