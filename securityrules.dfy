/** Security-rule expansion of lib/openstack.js (`updatesecuritygroups`),
    and the selection by name shared with `destroysecuritygroups` and
    `destroyservers`. The live servers and groups, which the source lists
    through the cloud SDK, are explicit inputs; `servertypefunction` is a
    parameter. */
module SecurityRules {
  import opened Wrappers
  import opened Seqs
  import opened Naming
  import opened Inventory

  /** One entry of `options.securitygroups[name].rules`. The two prefix
      fields may be absent (`undefined`). */
  datatype RuleTemplate = RuleTemplate(
    direction: string, ethertype: string, portRangeMin: int, portRangeMax: int, protocol: string,
    remoteIpPrefixTemplate: Option<string>, remoteIpPrefix: Option<string>)

  /** One entry of `options.securitygroups`. */
  datatype GroupSpec = GroupSpec(description: string, rules: seq<RuleTemplate>)

  /** A concrete rule as handed to `createSecurityGroupRule`. */
  datatype Rule = Rule(
    securityGroupId: string, direction: string, ethertype: string, portRangeMin: int, portRangeMax: int,
    protocol: string, remoteIpPrefix: Option<string>)

  // ---------------------------------------------------------------------
  // Selection by name

  function NamedIn(names: seq<string>): LiveServer -> bool {
    (s: LiveServer) => s.name in names
  }

  /** `{id, name, address: addresses.public[0], type: servertypefunction(name)}`. */
  function Selected(typeOf: string -> Option<string>, s: LiveServer): (r: ServerInfo)
    ensures r.id == s.id && r.name == s.name && r.typeName == typeOf(s.name)
    ensures r.address == (if |s.publicAddresses| > 0 then Some(s.publicAddresses[0]) else None)
  {
    ServerInfo(s.id, s.name, if |s.publicAddresses| > 0 then Some(s.publicAddresses[0]) else None, typeOf(s.name))
  }

  function SelectedWith(typeOf: string -> Option<string>): LiveServer -> ServerInfo {
    (s: LiveServer) => Selected(typeOf, s)
  }

  /** The live servers whose name is among the defined server names, in
      inventory order, reshaped. */
  function SelectServers(servers: seq<LiveServer>, definedNames: seq<string>, typeOf: string -> Option<string>)
    : (r: seq<ServerInfo>)
    ensures |r| <= |servers|
    ensures forall i :: 0 <= i < |r| ==>
      exists j :: 0 <= j < |servers| && servers[j].name in definedNames && r[i] == Selected(typeOf, servers[j])
    ensures forall j :: 0 <= j < |servers| && servers[j].name in definedNames ==> Selected(typeOf, servers[j]) in r
  {
    var kept := Filter(servers, NamedIn(definedNames));
    var r := Map(kept, SelectedWith(typeOf));
    assert forall i :: 0 <= i < |r| ==> r[i] == Selected(typeOf, kept[i]) && kept[i] in servers;
    forall j | 0 <= j < |servers| && servers[j].name in definedNames
      ensures Selected(typeOf, servers[j]) in r
    {
      assert servers[j] in kept;
      var i :| 0 <= i < |kept| && kept[i] == servers[j];
      assert r[i] == Selected(typeOf, servers[j]);
    }
    r
  }

  /** `destroyservers`: the ids of the live servers with a defined name. */
  function ServerIdsToDestroy(servers: seq<LiveServer>, definedNames: seq<string>): (r: seq<string>)
    ensures |r| <= |servers|
    ensures forall i :: 0 <= i < |r| ==> exists j :: 0 <= j < |servers| && servers[j].name in definedNames && r[i] == servers[j].id
    ensures forall j :: 0 <= j < |servers| && servers[j].name in definedNames ==> servers[j].id in r
  {
    var kept := Filter(servers, NamedIn(definedNames));
    var r := Map(kept, ServerId);
    assert forall i :: 0 <= i < |r| ==> r[i] == kept[i].id && kept[i] in servers;
    forall j | 0 <= j < |servers| && servers[j].name in definedNames
      ensures servers[j].id in r
    {
      assert servers[j] in kept;
      var i :| 0 <= i < |kept| && kept[i] == servers[j];
      assert r[i] == servers[j].id;
    }
    r
  }

  function ServerId(s: LiveServer): string {
    s.id
  }

  /** The server selection commutes with splitting the inventory, so it
      keeps the inventory order and every occurrence of a server. */
  lemma SelectServersAppend(a: seq<LiveServer>, b: seq<LiveServer>, definedNames: seq<string>, typeOf: string -> Option<string>)
    ensures SelectServers(a + b, definedNames, typeOf)
      == SelectServers(a, definedNames, typeOf) + SelectServers(b, definedNames, typeOf)
  {
    FilterConcat(a, b, NamedIn(definedNames));
    MapConcat(Filter(a, NamedIn(definedNames)), Filter(b, NamedIn(definedNames)), SelectedWith(typeOf));
  }

  /** A single server is selected, reshaped, exactly when its name is defined. */
  lemma SelectServersSingle(s: LiveServer, definedNames: seq<string>, typeOf: string -> Option<string>)
    ensures SelectServers([s], definedNames, typeOf) == if s.name in definedNames then [Selected(typeOf, s)] else []
  {
    FilterSingle(s, NamedIn(definedNames));
  }

  /** The ids to destroy follow the inventory order. */
  lemma ServerIdsToDestroyAppend(a: seq<LiveServer>, b: seq<LiveServer>, definedNames: seq<string>)
    ensures ServerIdsToDestroy(a + b, definedNames) == ServerIdsToDestroy(a, definedNames) + ServerIdsToDestroy(b, definedNames)
  {
    FilterConcat(a, b, NamedIn(definedNames));
    MapConcat(Filter(a, NamedIn(definedNames)), Filter(b, NamedIn(definedNames)), ServerId);
  }

  /** A single server's id is taken exactly when its name is defined. */
  lemma ServerIdsToDestroySingle(s: LiveServer, definedNames: seq<string>)
    ensures ServerIdsToDestroy([s], definedNames) == if s.name in definedNames then [s.id] else []
  {
    FilterSingle(s, NamedIn(definedNames));
  }

  function SpecifiedIn(specs: map<string, GroupSpec>): LiveGroup -> bool {
    (g: LiveGroup) => g.name in specs
  }

  /** The live groups whose name is a key of `options.securitygroups`, in
      inventory order (`updatesecuritygroups` and `destroysecuritygroups`). */
  function SelectGroups(groups: seq<LiveGroup>, specs: map<string, GroupSpec>): (r: seq<LiveGroup>)
    ensures |r| <= |groups|
    ensures forall i :: 0 <= i < |r| ==> r[i] in groups && r[i].name in specs
    ensures forall j :: 0 <= j < |groups| && groups[j].name in specs ==> groups[j] in r
  {
    Filter(groups, SpecifiedIn(specs))
  }

  /** The group selection keeps the inventory order. */
  lemma SelectGroupsAppend(a: seq<LiveGroup>, b: seq<LiveGroup>, specs: map<string, GroupSpec>)
    ensures SelectGroups(a + b, specs) == SelectGroups(a, specs) + SelectGroups(b, specs)
  {
    FilterConcat(a, b, SpecifiedIn(specs));
  }

  /** A single group is selected exactly when it has a configuration entry. */
  lemma SelectGroupsSingle(g: LiveGroup, specs: map<string, GroupSpec>)
    ensures SelectGroups([g], specs) == if g.name in specs then [g] else []
  {
    FilterSingle(g, SpecifiedIn(specs));
  }

  // ---------------------------------------------------------------------
  // Rule expansion

  /** The rule template made concrete for a group and a prefix. */
  function Concrete(gid: string, t: RuleTemplate, prefix: Option<string>): (r: Rule)
    ensures CopiesTemplate(r, gid, t) && r.remoteIpPrefix == prefix
  {
    Rule(gid, t.direction, t.ethertype, t.portRangeMin, t.portRangeMax, t.protocol, prefix)
  }

  /** `r` belongs to group `gid` and copies the template's fields verbatim. */
  predicate CopiesTemplate(r: Rule, gid: string, t: RuleTemplate) {
    r.securityGroupId == gid && r.direction == t.direction && r.ethertype == t.ethertype
    && r.portRangeMin == t.portRangeMin && r.portRangeMax == t.portRangeMax && r.protocol == t.protocol
  }

  function ForServer(gid: string, t: RuleTemplate): ServerInfo -> Rule {
    (s: ServerInfo) => Concrete(gid, t, s.address)
  }

  /** `rule.remoteIpPrefixTemplate === server.type`. */
  function OfType(template: string): ServerInfo -> bool {
    (s: ServerInfo) => s.typeName == Some(template)
  }

  /** The filter on `selRules`: either prefix field is defined. */
  predicate Considered(t: RuleTemplate) {
    t.remoteIpPrefixTemplate.Some? || t.remoteIpPrefix.Some?
  }

  /** The servers a truthy template targets, in server order. */
  function MatchingServers(servers: seq<ServerInfo>, template: string): seq<ServerInfo> {
    Filter(servers, OfType(template))
  }

  /** The inner loop over the servers: one rule per server of the given
      type, carrying that server's address. */
  function RulesPerServer(gid: string, t: RuleTemplate, template: string, servers: seq<ServerInfo>): seq<Rule>
    decreases |servers|
  {
    if |servers| == 0 then []
    else
      var last := servers[|servers| - 1];
      RulesPerServer(gid, t, template, servers[..|servers| - 1])
        + (if last.typeName == Some(template) then [Concrete(gid, t, last.address)] else [])
  }

  /** One rule per server of the templated type, for a truthy template. */
  function TemplatedRules(gid: string, t: RuleTemplate, servers: seq<ServerInfo>): seq<Rule> {
    if Truthy(t.remoteIpPrefixTemplate) then RulesPerServer(gid, t, t.remoteIpPrefixTemplate.value, servers)
    else []
  }

  /** The per-server rules are the matching servers, in order, each made
      into a rule with its address. */
  lemma {:induction false} RulesPerServerMatching(gid: string, t: RuleTemplate, template: string, servers: seq<ServerInfo>)
    ensures RulesPerServer(gid, t, template, servers) == Map(MatchingServers(servers, template), ForServer(gid, t))
    decreases |servers|
  {
    if |servers| > 0 {
      var init, last := servers[..|servers| - 1], servers[|servers| - 1];
      assert servers == init + [last];
      RulesPerServerMatching(gid, t, template, init);
      FilterSnoc(init, last, OfType(template));
      MapConcat(Filter(init, OfType(template)), if OfType(template)(last) then [last] else [], ForServer(gid, t));
    }
  }

  /** One rule with the literal prefix, for a truthy one. */
  function LiteralRules(gid: string, t: RuleTemplate): seq<Rule> {
    if Truthy(t.remoteIpPrefix) then [Concrete(gid, t, t.remoteIpPrefix)] else []
  }

  /** The rules one template contributes: the templated ones first. */
  function ExpandRule(gid: string, t: RuleTemplate, servers: seq<ServerInfo>): seq<Rule> {
    TemplatedRules(gid, t, servers) + LiteralRules(gid, t)
  }

  function ExpandWith(gid: string, servers: seq<ServerInfo>): RuleTemplate -> seq<Rule> {
    (t: RuleTemplate) => ExpandRule(gid, t, servers)
  }

  /** The rules of a template list, in template order. */
  function ExpandRules(gid: string, rules: seq<RuleTemplate>, servers: seq<ServerInfo>): seq<Rule> {
    ConcatMap(rules, ExpandWith(gid, servers))
  }

  /** The `rulesToAdd` of one group. */
  function GroupRules(g: LiveGroup, rules: seq<RuleTemplate>, servers: seq<ServerInfo>): seq<Rule> {
    ExpandRules(g.id, Filter(rules, Considered), servers)
  }

  /** The per-group body of `updatesecuritygroups`: a fresh `rulesToAdd`
      filled by a loop over the considered templates. */
  method RulesToAdd(grp: LiveGroup, spec: GroupSpec, servers: seq<ServerInfo>) returns (rulesToAdd: seq<Rule>)
    ensures rulesToAdd == GroupRules(grp, spec.rules, servers)
  {
    rulesToAdd := [];
    var selRules := Filter(spec.rules, Considered);
    for k := 0 to |selRules|
      invariant rulesToAdd == ExpandRules(grp.id, selRules[..k], servers)
    {
      rulesToAdd := AddRule(rulesToAdd, grp.id, selRules[k], servers);
      ExpandRulesSnoc(grp.id, selRules, k, servers);
    }
    assert selRules[..|selRules|] == selRules;
  }

  /** The body of the loop over the considered templates: the templated
      rules, then the literal one. */
  method AddRule(acc: seq<Rule>, gid: string, rule: RuleTemplate, servers: seq<ServerInfo>) returns (rulesToAdd: seq<Rule>)
    ensures rulesToAdd == acc + ExpandRule(gid, rule, servers)
  {
    rulesToAdd := acc;
    if Truthy(rule.remoteIpPrefixTemplate) {
      rulesToAdd := AddServerRules(rulesToAdd, gid, rule, rule.remoteIpPrefixTemplate.value, servers);
    }
    assert rulesToAdd == acc + TemplatedRules(gid, rule, servers);
    if Truthy(rule.remoteIpPrefix) {
      rulesToAdd := rulesToAdd + [Concrete(gid, rule, rule.remoteIpPrefix)];
    }
  }

  lemma ExpandRulesSnoc(gid: string, rules: seq<RuleTemplate>, k: nat, servers: seq<ServerInfo>)
    requires k < |rules|
    ensures ExpandRules(gid, rules[..k + 1], servers) == ExpandRules(gid, rules[..k], servers) + ExpandRule(gid, rules[k], servers)
  {
    assert rules[..k + 1][..k] == rules[..k];
  }

  /** The inner `selServers.forEach` for a truthy template: pushes one rule
      per server of the templated type. */
  method AddServerRules(acc: seq<Rule>, gid: string, rule: RuleTemplate, template: string, servers: seq<ServerInfo>)
    returns (rulesToAdd: seq<Rule>)
    ensures rulesToAdd == acc + RulesPerServer(gid, rule, template, servers)
  {
    rulesToAdd := acc;
    for j := 0 to |servers|
      invariant rulesToAdd == acc + RulesPerServer(gid, rule, template, servers[..j])
    {
      var server := servers[j];
      assert servers[..j + 1][..j] == servers[..j];
      if server.typeName == Some(template) {
        rulesToAdd := rulesToAdd + [Concrete(gid, rule, server.address)];
      }
    }
    assert servers[..|servers|] == servers;
  }

  /** The rules planned for each selected group. */
  function Plan(groups: seq<LiveGroup>, specs: map<string, GroupSpec>, servers: seq<ServerInfo>)
    : seq<(LiveGroup, seq<Rule>)>
  {
    Map(SelectGroups(groups, specs), PlanEntry(specs, servers))
  }

  /** A group paired with the rules of its configured templates. */
  function PlanEntry(specs: map<string, GroupSpec>, servers: seq<ServerInfo>): LiveGroup -> (LiveGroup, seq<Rule>) {
    (g: LiveGroup) => (g, GroupRules(g, if g.name in specs then specs[g.name].rules else [], servers))
  }

  /** `updatesecuritygroups` up to the rule creation: selects the servers and
      the groups, then computes each selected group's rules independently. */
  method UpdateSecurityGroups(
    liveServers: seq<LiveServer>, definedNames: seq<string>, typeOf: string -> Option<string>,
    liveGroups: seq<LiveGroup>, specs: map<string, GroupSpec>)
    returns (plan: seq<(LiveGroup, seq<Rule>)>)
    ensures plan == Plan(liveGroups, specs, SelectServers(liveServers, definedNames, typeOf))
  {
    var selServers := SelectServers(liveServers, definedNames, typeOf);
    var selGroups := SelectGroups(liveGroups, specs);
    plan := [];
    for i := 0 to |selGroups|
      invariant plan == Map(selGroups[..i], PlanEntry(specs, selServers))
    {
      plan := AddGroupPlan(plan, selGroups[i], specs, selServers);
      assert selGroups[..i + 1] == selGroups[..i] + [selGroups[i]];
      MapConcat(selGroups[..i], [selGroups[i]], PlanEntry(specs, selServers));
    }
    assert selGroups[..|selGroups|] == selGroups;
  }

  /** The body of the loop over the selected groups: computes the group's
      `rulesToAdd` and records it. */
  method AddGroupPlan(
    plan: seq<(LiveGroup, seq<Rule>)>, grp: LiveGroup, specs: map<string, GroupSpec>, servers: seq<ServerInfo>)
    returns (plan': seq<(LiveGroup, seq<Rule>)>)
    requires grp.name in specs
    ensures plan' == plan + [PlanEntry(specs, servers)(grp)]
  {
    var rulesToAdd := RulesToAdd(grp, specs[grp.name], servers);
    plan' := plan + [(grp, rulesToAdd)];
  }

  // ---------------------------------------------------------------------
  // Properties of the expansion

  /** Each group's rules depend only on that group's id and templates: the
      group's entry in the plan is the expansion of its own spec. */
  lemma PlanPerGroup(groups: seq<LiveGroup>, specs: map<string, GroupSpec>, servers: seq<ServerInfo>, i: nat)
    requires i < |Plan(groups, specs, servers)|
    ensures var g := SelectGroups(groups, specs)[i];
      g.name in specs && Plan(groups, specs, servers)[i] == (g, GroupRules(g, specs[g.name].rules, servers))
  {
  }

  /** How many rules a template contributes. */
  lemma ExpandRuleCount(gid: string, t: RuleTemplate, servers: seq<ServerInfo>)
    ensures |ExpandRule(gid, t, servers)| ==
      (if Truthy(t.remoteIpPrefixTemplate) then |MatchingServers(servers, t.remoteIpPrefixTemplate.value)| else 0)
      + (if Truthy(t.remoteIpPrefix) then 1 else 0)
  {
    if Truthy(t.remoteIpPrefixTemplate) {
      RulesPerServerMatching(gid, t, t.remoteIpPrefixTemplate.value, servers);
    }
  }

  /** The templated rules carry exactly the addresses of the servers of the
      templated type, in server order. */
  lemma TemplatedPrefixes(gid: string, t: RuleTemplate, servers: seq<ServerInfo>)
    requires Truthy(t.remoteIpPrefixTemplate)
    ensures Map(TemplatedRules(gid, t, servers), (r: Rule) => r.remoteIpPrefix)
      == Map(MatchingServers(servers, t.remoteIpPrefixTemplate.value), (s: ServerInfo) => s.address)
  {
    RulesPerServerMatching(gid, t, t.remoteIpPrefixTemplate.value, servers);
  }

  /** A template that matches no server emits no templated rule (and no
      error). */
  lemma NoMatchingServerEmitsNothing(gid: string, t: RuleTemplate, servers: seq<ServerInfo>)
    requires forall i :: 0 <= i < |servers| ==> servers[i].typeName != t.remoteIpPrefixTemplate
    ensures TemplatedRules(gid, t, servers) == []
  {
    if Truthy(t.remoteIpPrefixTemplate) {
      FilterNone(servers, OfType(t.remoteIpPrefixTemplate.value));
      RulesPerServerMatching(gid, t, t.remoteIpPrefixTemplate.value, servers);
    }
  }

  /** A template with both fields emits its templated rules, then the
      literal one. */
  lemma BothFieldsOrder(gid: string, t: RuleTemplate, servers: seq<ServerInfo>)
    requires Truthy(t.remoteIpPrefixTemplate) && Truthy(t.remoteIpPrefix)
    ensures var out := ExpandRule(gid, t, servers);
      |out| == |MatchingServers(servers, t.remoteIpPrefixTemplate.value)| + 1
      && out[|out| - 1] == Concrete(gid, t, t.remoteIpPrefix)
      && out[..|out| - 1] == TemplatedRules(gid, t, servers)
  {
    var out := ExpandRule(gid, t, servers);
    RulesPerServerMatching(gid, t, t.remoteIpPrefixTemplate.value, servers);
    assert out[..|out| - 1] == TemplatedRules(gid, t, servers);
  }

  /** A defined but empty template passes the filter yet emits nothing. */
  lemma EmptyTemplateEmitsNothing(gid: string, t: RuleTemplate, servers: seq<ServerInfo>)
    requires t.remoteIpPrefixTemplate == Some("") && t.remoteIpPrefix.None?
    ensures Considered(t) && ExpandRule(gid, t, servers) == []
  {
  }

  /** The filter on defined fields changes nothing: a template without
      either field contributes nothing anyway. */
  lemma ConsideredFilterIsHarmless(gid: string, rules: seq<RuleTemplate>, servers: seq<ServerInfo>)
    ensures ExpandRules(gid, Filter(rules, Considered), servers) == ExpandRules(gid, rules, servers)
  {
    ConcatMapFilter(rules, Considered, ExpandWith(gid, servers));
  }

  /** Every emitted rule belongs to the group and copies one of its
      templates verbatim; its prefix is the template's literal prefix or
      the address of a server of the templated type. */
  lemma ExpandedRulesSound(gid: string, rules: seq<RuleTemplate>, servers: seq<ServerInfo>, r: Rule)
    requires r in ExpandRules(gid, rules, servers)
    ensures exists k ::
              0 <= k < |rules| && CopiesTemplate(r, gid, rules[k])
              && (r.remoteIpPrefix == rules[k].remoteIpPrefix
                  || exists s :: s in servers && s.typeName == rules[k].remoteIpPrefixTemplate && r.remoteIpPrefix == s.address)
  {
    ConcatMapMember(rules, ExpandWith(gid, servers), r);
    var k :| 0 <= k < |rules| && r in ExpandWith(gid, servers)(rules[k]);
    ExpandRuleSound(gid, rules[k], servers, r);
  }

  /** The same for the rules of one template. */
  lemma ExpandRuleSound(gid: string, t: RuleTemplate, servers: seq<ServerInfo>, r: Rule)
    requires r in ExpandRule(gid, t, servers)
    ensures CopiesTemplate(r, gid, t)
    ensures r.remoteIpPrefix == t.remoteIpPrefix
      || exists s :: s in servers && s.typeName == t.remoteIpPrefixTemplate && r.remoteIpPrefix == s.address
  {
    if r in TemplatedRules(gid, t, servers) {
      var m := MatchingServers(servers, t.remoteIpPrefixTemplate.value);
      RulesPerServerMatching(gid, t, t.remoteIpPrefixTemplate.value, servers);
      var i :| 0 <= i < |m| && Map(m, ForServer(gid, t))[i] == r;
      assert m[i] in servers && r == Concrete(gid, t, m[i].address);
    }
  }

  /** A template for `computing` against two computing servers and one load
      balancer emits two rules with the two computing addresses, and none
      when no server has the templated type. */
  lemma TemplatedRuleExample(t: RuleTemplate)
    requires t.remoteIpPrefixTemplate == Some("computing") && t.remoteIpPrefix.None?
    ensures var servers := [
        ServerInfo("1", "oa-1-computing", Some("10.0.0.1"), Some("computing")),
        ServerInfo("2", "oa-2-computing", Some("10.0.0.2"), Some("computing")),
        ServerInfo("3", "oa-1-loadbalancer", Some("10.0.0.3"), Some("loadbalancer"))];
      Map(ExpandRule("g", t, servers), (r: Rule) => r.remoteIpPrefix) == [Some("10.0.0.1"), Some("10.0.0.2")]
      && ExpandRule("g", t, servers[2..]) == []
  {
    var servers := [
        ServerInfo("1", "oa-1-computing", Some("10.0.0.1"), Some("computing")),
        ServerInfo("2", "oa-2-computing", Some("10.0.0.2"), Some("computing")),
        ServerInfo("3", "oa-1-loadbalancer", Some("10.0.0.3"), Some("loadbalancer"))];
    assert servers[1..] == [servers[1], servers[2]] && servers[1..][1..] == servers[2..] && servers[2..][1..] == [];
    assert MatchingServers(servers[2..], "computing") == [];
    assert MatchingServers(servers, "computing") == [servers[0], servers[1]];
    RulesPerServerMatching("g", t, "computing", servers);
    RulesPerServerMatching("g", t, "computing", servers[2..]);
  }
}
