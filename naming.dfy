/** The naming scheme of lib/utils.js: node names `cluster-seq-type`, security
    group names `cluster-group`, their projections (which split on `-` and take
    a fixed field), and qualified Docker image names. */
module Naming {
  import opened Wrappers
  import opened Seqs

  const Sep: char := '-'

  /** A JavaScript value is truthy when it is present and not `""`; the
      strings handled here are the only kind of value modelled. */
  predicate Truthy(v: Option<string>) {
    v.Some? && v.value != ""
  }

  // ---------------------------------------------------------------------
  // Decimal rendering of a sequence number (JavaScript `"" + n` for a
  // natural number)

  function DigitChar(d: nat): (c: char)
    requires d < 10
    ensures '0' <= c <= '9'
  {
    "0123456789"[d]
  }

  function DigitValue(c: char): nat {
    if '0' <= c <= '9' then (c as int - '0' as int) as nat else 0
  }

  predicate IsDecimal(s: string) {
    |s| > 0 && forall i :: 0 <= i < |s| ==> '0' <= s[i] <= '9'
  }

  /** `"" + n`: the decimal digits of `n`, most significant first. */
  function NatToString(n: nat): (s: string)
    ensures IsDecimal(s)
    decreases n
  {
    if n < 10 then [DigitChar(n)] else NatToString(n / 10) + [DigitChar(n % 10)]
  }

  /** The number a string of decimal digits denotes. */
  function DecimalValue(s: string): nat
    decreases |s|
  {
    if s == [] then 0 else 10 * DecimalValue(s[..|s| - 1]) + DigitValue(s[|s| - 1])
  }

  lemma {:induction false} DecimalRoundTrip(n: nat)
    ensures DecimalValue(NatToString(n)) == n
    decreases n
  {
    var s := NatToString(n);
    if n < 10 {
      assert s[..0] == [];
    } else {
      DecimalRoundTrip(n / 10);
      assert s[..|s| - 1] == NatToString(n / 10);
    }
  }

  lemma NatToStringDashFree(n: nat)
    ensures Sep !in NatToString(n)
  {
    var s := NatToString(n);
    assert forall i :: 0 <= i < |s| ==> s[i] != Sep;
  }

  // ---------------------------------------------------------------------
  // Node names

  /** `nodeName(clusterName, nodeType, index)`. */
  function NodeName(cluster: string, nodeType: string, index: nat): string {
    cluster + [Sep] + NatToString(index) + [Sep] + nodeType
  }

  /** `nodeName.split("-")[2]`; `None` stands for `undefined` when there
      are fewer than three fields. */
  function NodeType(name: string): (r: Option<string>)
    ensures r.Some? ==> Sep !in r.value
  {
    var parts := Split(name, Sep);
    if |parts| > 2 then Some(parts[2]) else None
  }

  /** `nodeName.split("-")[0]`: the longest dash-free prefix of the name. */
  function NodeCluster(name: string): (r: string)
    ensures r <= name && Sep !in r
    ensures |r| == |name| || name[|r|] == Sep
  {
    FirstField(name)
  }

  /** Field 0 of a split, shared by the node and the group projections. */
  function FirstField(name: string): (r: string)
    ensures r <= name && Sep !in r
    ensures |r| == |name| || name[|r|] == Sep
  {
    var parts := Split(name, Sep);
    JoinHead(parts, Sep);
    parts[0]
  }

  lemma JoinHead(parts: seq<string>, sep: char)
    requires |parts| >= 1
    ensures parts[0] <= Join(parts, sep)
    ensures |parts| == 1 ==> Join(parts, sep) == parts[0]
    ensures |parts| > 1 ==> |parts[0]| < |Join(parts, sep)| && Join(parts, sep)[|parts[0]|] == sep
  {
    if |parts| > 1 {
      assert Join(parts, sep) == parts[0] + [sep] + Join(parts[1..], sep);
    }
  }

  /** Round trip: with dash-free cluster and type, the projections recover
      the cluster, the sequence number and the type. */
  lemma NodeNameRoundTrip(cluster: string, nodeType: string, index: nat)
    requires Sep !in cluster && Sep !in nodeType
    ensures NodeType(NodeName(cluster, nodeType, index)) == Some(nodeType)
    ensures NodeCluster(NodeName(cluster, nodeType, index)) == cluster
    ensures Split(NodeName(cluster, nodeType, index), Sep) == [cluster, NatToString(index), nodeType]
  {
    var parts := [cluster, NatToString(index), nodeType];
    NatToStringDashFree(index);
    Join3(cluster, NatToString(index), nodeType, Sep);
    SplitJoin(parts, Sep);
  }

  /** Node names of dash-free clusters and types are unique: the name
      determines the cluster, the type and the sequence number. */
  lemma NodeNameInjective(c1: string, t1: string, s1: nat, c2: string, t2: string, s2: nat)
    requires Sep !in c1 && Sep !in t1 && Sep !in c2 && Sep !in t2
    requires NodeName(c1, t1, s1) == NodeName(c2, t2, s2)
    ensures c1 == c2 && t1 == t2 && s1 == s2
  {
    NodeNameRoundTrip(c1, t1, s1);
    NodeNameRoundTrip(c2, t2, s2);
    DecimalRoundTrip(s1);
    DecimalRoundTrip(s2);
  }

  /** A dash inside the cluster name breaks the round trip: the projection
      takes only the part before the first dash. */
  lemma DashInClusterIsNotRecovered()
    ensures NodeCluster(NodeName("o-a", "computing", 1)) == "o"
    ensures NodeType(NodeName("o-a", "computing", 1)) == Some("1")
  {
    var parts := ["o", "a", "1", "computing"];
    assert NodeName("o-a", "computing", 1) == Join(parts, Sep) by {
      assert parts[1..] == ["a", "1", "computing"];
      Join3("a", "1", "computing", Sep);
    }
    SplitJoin(parts, Sep);
  }

  // ---------------------------------------------------------------------
  // Security group names

  /** `securitygroupName(clusterName, securityGroupName)`. */
  function SecuritygroupName(cluster: string, group: string): string {
    cluster + [Sep] + group
  }

  /** `secName.split("-")[0]`. */
  function SecuritygroupCluster(name: string): (r: string)
    ensures r <= name && Sep !in r
    ensures |r| == |name| || name[|r|] == Sep
  {
    FirstField(name)
  }

  /** `secName.split("-")[1]`; `None` stands for `undefined`. */
  function SecuritygroupPlainName(name: string): (r: Option<string>)
    ensures r.Some? ==> Sep !in r.value
    ensures r.None? <==> Sep !in name
  {
    var parts := Split(name, Sep);
    JoinHead(parts, Sep);
    if |parts| > 1 then Some(parts[1]) else None
  }

  /** Round trip for security group names with dash-free parts. */
  lemma SecuritygroupNameRoundTrip(cluster: string, group: string)
    requires Sep !in cluster && Sep !in group
    ensures SecuritygroupCluster(SecuritygroupName(cluster, group)) == cluster
    ensures SecuritygroupPlainName(SecuritygroupName(cluster, group)) == Some(group)
  {
    Join2(cluster, group, Sep);
    SplitJoin([cluster, group], Sep);
  }

  /** The expected values of the naming unit tests. */
  lemma NamingExamples()
    ensures NodeType("oa-1-computing") == Some("computing")
    ensures NodeCluster("oa-1-computing") == "oa"
    ensures NodeName("oa", "computing", 1) == "oa-1-computing"
    ensures SecuritygroupName("oa", "http") == "oa-http"
    ensures SecuritygroupCluster("oa-http") == "oa"
    ensures SecuritygroupPlainName("oa-http") == Some("http")
  {
    assert NatToString(1) == "1";
    assert NodeName("oa", "computing", 1) == "oa-1-computing";
    assert SecuritygroupName("oa", "http") == "oa-http";
    NodeNameRoundTrip("oa", "computing", 1);
    SecuritygroupNameRoundTrip("oa", "http");
  }

  // ---------------------------------------------------------------------
  // Image names

  /** `qualifiedImageName(imageName, registryIn, versionIn)`. */
  function QualifiedImageName(name: string, registry: Option<string>, version: Option<string>): (r: string)
    ensures Truthy(registry) ==> registry.value + "/" <= r
    ensures !Truthy(registry) ==> name <= r
    ensures Truthy(version) ==> |r| > |version.value| && r[|r| - |version.value| - 1..] == ":" + version.value
    ensures !Truthy(version) ==> |r| >= |name| && r[|r| - |name|..] == name
    ensures !Truthy(registry) && !Truthy(version) ==> r == name
  {
    (if Truthy(registry) then registry.value + "/" else "")
      + name
      + (if Truthy(version) then ":" + version.value else "")
  }

  /** The image name with its version tag, when the version is truthy. */
  function TaggedName(name: string, version: Option<string>): string {
    name + (if Truthy(version) then ":" + version.value else "")
  }

  /** The qualified name splits back into its parts when none of them
      contains the separators `/` and `:`: on `/` into the registry (when it
      is truthy) and the tagged name, and the tagged name on `:` into the
      image name and the version (when it is truthy). */
  lemma QualifiedImageNameParts(name: string, registry: Option<string>, version: Option<string>)
    requires '/' !in name && ':' !in name
    requires registry.Some? ==> '/' !in registry.value
    requires version.Some? ==> '/' !in version.value && ':' !in version.value
    ensures Split(QualifiedImageName(name, registry, version), '/')
      == (if Truthy(registry) then [registry.value] else []) + [TaggedName(name, version)]
    ensures Split(TaggedName(name, version), ':') == [name] + (if Truthy(version) then [version.value] else [])
  {
    TaggedNameParts(name, version);
    if Truthy(registry) {
      SplitWithRegistry(name, registry.value, version);
    } else {
      SplitWithoutRegistry(name, registry, version);
    }
  }

  lemma SplitWithRegistry(name: string, registry: string, version: Option<string>)
    requires registry != "" && '/' !in registry && '/' !in TaggedName(name, version)
    ensures Split(QualifiedImageName(name, Some(registry), version), '/') == [registry, TaggedName(name, version)]
  {
    var tagged := TaggedName(name, version);
    QualifiedIsTagged(name, Some(registry), version);
    Join2(registry, tagged, '/');
    assert QualifiedImageName(name, Some(registry), version) == Join([registry, tagged], '/');
    assert SeparatorFree([registry, tagged], '/');
    SplitJoin([registry, tagged], '/');
  }

  lemma SplitWithoutRegistry(name: string, registry: Option<string>, version: Option<string>)
    requires !Truthy(registry) && '/' !in TaggedName(name, version)
    ensures Split(QualifiedImageName(name, registry, version), '/') == [TaggedName(name, version)]
  {
    var tagged := TaggedName(name, version);
    QualifiedIsTagged(name, registry, version);
    assert QualifiedImageName(name, registry, version) == Join([tagged], '/');
    assert SeparatorFree([tagged], '/');
    SplitJoin([tagged], '/');
  }

  /** The qualified name is the registry prefix followed by the tagged name. */
  lemma QualifiedIsTagged(name: string, registry: Option<string>, version: Option<string>)
    ensures QualifiedImageName(name, registry, version)
      == (if Truthy(registry) then registry.value + "/" else "") + TaggedName(name, version)
  {
  }

  lemma TaggedNameParts(name: string, version: Option<string>)
    requires '/' !in name && ':' !in name
    requires version.Some? ==> '/' !in version.value && ':' !in version.value
    ensures '/' !in TaggedName(name, version)
    ensures Split(TaggedName(name, version), ':') == [name] + (if Truthy(version) then [version.value] else [])
  {
    if Truthy(version) {
      assert TaggedName(name, version) == name + ":" + version.value;
      TagDashFree(name, version.value);
      ImageTagParts(name, version.value);
    } else {
      assert TaggedName(name, version) == Join([name], ':');
      assert SeparatorFree([name], ':');
      SplitJoin([name], ':');
    }
  }

  /** `name:version` splits back on `:` when neither part contains it. */
  lemma ImageTagParts(name: string, version: string)
    requires ':' !in name && ':' !in version
    ensures Split(name + ":" + version, ':') == [name, version]
  {
    Join2(name, version, ':');
    SplitJoin([name, version], ':');
  }

  lemma TagDashFree(name: string, version: string)
    requires '/' !in name && '/' !in version
    ensures '/' !in name + ":" + version
  {
    var tail := name + ":" + version;
    forall i | 0 <= i < |tail| ensures tail[i] != '/' {
      if i < |name| {
        assert tail[i] == name[i];
      } else if i > |name| {
        assert tail[i] == version[i - |name| - 1];
      }
    }
  }
}
