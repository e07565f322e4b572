/** `getGruntCLIOptions` (tasks/clouddity.js): every command-line flag
    string is matched against `/(\-+)(.+)=(.+)/` and then `/(\-+)(.+)/`,
    the second group becoming a key and the third (or `""`) its value, and
    the pairs are zipped into an object with `_.object`. */
module CliFlags {
  import opened Wrappers

  // ---------------------------------------------------------------------
  // Scanning helpers

  function FirstDash(s: string): (r: Option<nat>)
    ensures r.Some? ==> r.value < |s| && s[r.value] == '-' && forall i :: 0 <= i < r.value ==> s[i] != '-'
    ensures r.None? ==> forall i :: 0 <= i < |s| ==> s[i] != '-'
  {
    if |s| == 0 then None
    else if s[0] == '-' then Some(0)
    else match FirstDash(s[1..]) case None => None case Some(p) => Some(p + 1)
  }

  /** The end of the run of dashes starting at `p`. */
  function DashRunEnd(s: string, p: nat): (r: nat)
    requires p <= |s|
    ensures p <= r <= |s| && (forall i :: p <= i < r ==> s[i] == '-') && (r < |s| ==> s[r] != '-')
    decreases |s| - p
  {
    if p == |s| || s[p] != '-' then p else DashRunEnd(s, p + 1)
  }

  /** The last `=` strictly before `bound`. */
  function LastEqBelow(s: string, bound: nat): (r: Option<nat>)
    requires bound <= |s|
    ensures r.Some? ==> r.value < bound && s[r.value] == '=' && forall i :: r.value < i < bound ==> s[i] != '='
    ensures r.None? ==> forall i :: 0 <= i < bound ==> s[i] != '='
  {
    if bound == 0 then None
    else if s[bound - 1] == '=' then Some(bound - 1)
    else LastEqBelow(s, bound - 1)
  }

  function Min(a: int, b: int): int {
    if a <= b then a else b
  }

  // ---------------------------------------------------------------------
  // The two patterns, declaratively

  /** `/(\-+)(.+)=(.+)/` matches starting at `p`, with the dashes ending at
      `d` and the `=` at `e` (the third group then runs to the end). */
  ghost predicate IsValueMatch(s: string, p: int, d: int, e: int) {
    0 <= p < d < e < |s| - 1 && (forall i :: p <= i < d ==> s[i] == '-') && s[e] == '='
  }

  /** The match a backtracking engine reports: leftmost start, then the
      longest run of dashes, then the longest second group. */
  ghost predicate PreferredValueMatch(s: string, p: int, d: int, e: int) {
    IsValueMatch(s, p, d, e)
    && forall p', d', e' :: IsValueMatch(s, p', d', e') ==>
         p <= p' && (p' == p ==> d' <= d) && (p' == p && d' == d ==> e' <= e)
  }

  /** `/(\-+)(.+)/` matches starting at `p` with the dashes ending at `d`
      (the second group then runs to the end). */
  ghost predicate IsFlagMatch(s: string, p: int, d: int) {
    0 <= p < d < |s| && forall i :: p <= i < d ==> s[i] == '-'
  }

  ghost predicate PreferredFlagMatch(s: string, p: int, d: int) {
    IsFlagMatch(s, p, d)
    && forall p', d' :: IsFlagMatch(s, p', d') ==> p <= p' && (p' == p ==> d' <= d)
  }

  // ---------------------------------------------------------------------
  // The two patterns, computed

  /** Groups 2 and 3 of `v.match(/(\-+)(.+)=(.+)/)`, `None` when the
      pattern does not match. */
  function ValueGroups(s: string): Option<(string, string)> {
    match FirstDash(s)
    case None => None
    case Some(p) =>
      if |s| < 2 then None
      else match LastEqBelow(s, |s| - 1)
        case None => None
        case Some(e) =>
          if e < p + 2 then None
          else
            var d := Min(DashRunEnd(s, p), e - 1);
            Some((s[d..e], s[e + 1..]))
  }

  /** Group 2 of `v.match(/(\-+)(.+)/)`, `None` when it does not match. */
  function FlagGroup(s: string): Option<string> {
    match FirstDash(s)
    case None => None
    case Some(p) =>
      if p + 1 < |s| then Some(s[Min(DashRunEnd(s, p), |s| - 1)..]) else None
  }

  /** The computed groups are exactly those of the preferred match, and
      there is none exactly when the pattern cannot match at all. */
  lemma ValueGroupsAreLeftmostGreedy(s: string)
    ensures ValueGroups(s).Some? ==> exists p, d, e ::
              && PreferredValueMatch(s, p, d, e)
              && ValueGroups(s).value == (s[d..e], s[e + 1..])
    ensures (exists p, d, e :: IsValueMatch(s, p, d, e)) ==> ValueGroups(s).Some?
  {
    if ValueGroups(s).Some? {
      var p := FirstDash(s).value;
      var e := LastEqBelow(s, |s| - 1).value;
      var d := Min(DashRunEnd(s, p), e - 1);
      assert IsValueMatch(s, p, d, e);
      forall p', d', e' | IsValueMatch(s, p', d', e')
        ensures p <= p' && (p' == p ==> d' <= d) && (p' == p && d' == d ==> e' <= e)
      {
        assert s[p'] == '-';
        assert e' <= e;
        if p' == p {
          assert d' <= DashRunEnd(s, p);
        }
      }
      assert PreferredValueMatch(s, p, d, e);
    }
    forall p, d, e | IsValueMatch(s, p, d, e)
      ensures ValueGroups(s).Some?
    {
      assert s[p] == '-';
      assert s[e] == '=';
    }
  }

  lemma FlagGroupIsLeftmostGreedy(s: string)
    ensures FlagGroup(s).Some? ==> exists p, d :: PreferredFlagMatch(s, p, d) && FlagGroup(s).value == s[d..]
    ensures (exists p, d :: IsFlagMatch(s, p, d)) ==> FlagGroup(s).Some?
  {
    if FlagGroup(s).Some? {
      var p := FirstDash(s).value;
      var d := Min(DashRunEnd(s, p), |s| - 1);
      assert IsFlagMatch(s, p, d);
      forall p', d' | IsFlagMatch(s, p', d')
        ensures p <= p' && (p' == p ==> d' <= d)
      {
        assert s[p'] == '-';
        if p' == p {
          assert d' <= DashRunEnd(s, p);
        }
      }
      assert PreferredFlagMatch(s, p, d);
    }
    forall p, d | IsFlagMatch(s, p, d)
      ensures FlagGroup(s).Some?
    {
      assert s[p] == '-';
    }
  }

  // ---------------------------------------------------------------------
  // Keys and values

  /** A string or JavaScript `null`. */
  datatype FlagValue = Str(s: string) | Null

  /** The `keys` entry of a flag. */
  function FlagKey(v: string): FlagValue {
    match ValueGroups(v)
    case Some(g) => Str(g.0)
    case None => match FlagGroup(v) case Some(k) => Str(k) case None => Null
  }

  /** The `values` entry of a flag. */
  function FlagValueOf(v: string): FlagValue {
    if ValueGroups(v).Some? then Str(ValueGroups(v).value.1)
    else if FlagGroup(v).Some? then Str("")
    else Null
  }

  /** The property name `_.object` assigns: a `null` key becomes `"null"`. */
  function PropertyName(k: FlagValue): string {
    match k case Str(s) => s case Null => "null"
  }

  function FlagName(v: string): string {
    PropertyName(FlagKey(v))
  }

  /** `_.object(keys, values)` over the flags in order. */
  function GruntCLIOptions(flags: seq<string>): (r: map<string, FlagValue>)
    ensures forall k :: k in r <==> exists i :: 0 <= i < |flags| && FlagName(flags[i]) == k
  {
    if |flags| == 0 then map[]
    else
      var init, last := flags[..|flags| - 1], flags[|flags| - 1];
      var r := GruntCLIOptions(init)[FlagName(last) := FlagValueOf(last)];
      assert forall i :: 0 <= i < |init| ==> init[i] == flags[i];
      r
  }

  /** A key taken by several flags keeps the value of the last of them. */
  lemma {:induction false} GruntCLIOptionsLastWins(flags: seq<string>, i: nat)
    requires i < |flags|
    requires forall j :: i < j < |flags| ==> FlagName(flags[j]) != FlagName(flags[i])
    ensures GruntCLIOptions(flags)[FlagName(flags[i])] == FlagValueOf(flags[i])
  {
    if i < |flags| - 1 {
      var init := flags[..|flags| - 1];
      GruntCLIOptionsLastWins(init, i);
    }
  }

  /** `DashRunEnd` is pinned down by where the dashes stop. */
  lemma DashRunEndIs(s: string, p: nat, q: nat)
    requires p <= q <= |s|
    requires forall i :: p <= i < q ==> s[i] == '-'
    requires q < |s| ==> s[q] != '-'
    ensures DashRunEnd(s, p) == q
  {
  }

  /** `LastEqBelow` is pinned down by the last `=` before the bound. */
  lemma LastEqBelowIs(s: string, bound: nat, e: nat)
    requires e < bound <= |s| && s[e] == '='
    requires forall i :: e < i < bound ==> s[i] != '='
    ensures LastEqBelow(s, bound) == Some(e)
  {
  }

  /** A run of dashes, a key that does not start with a dash, `=`, and a
      non-empty value without `=` parse to exactly that key and value; the
      key may itself contain `=`. */
  lemma {:induction false} ValueFlagParses(dashes: string, k: string, v: string)
    requires |dashes| > 0 && forall i :: 0 <= i < |dashes| ==> dashes[i] == '-'
    requires |k| > 0 && k[0] != '-'
    requires |v| > 0 && '=' !in v
    ensures FlagKey(dashes + k + "=" + v) == Str(k)
    ensures FlagValueOf(dashes + k + "=" + v) == Str(v)
  {
    var s := dashes + k + "=" + v;
    var e := |dashes| + |k|;
    assert s[0] == '-';
    assert FirstDash(s) == Some(0);
    assert s[e] == '=';
    forall i | e < i < |s| - 1 ensures s[i] != '='
    {
      assert s[i] == v[i - e - 1];
    }
    LastEqBelowIs(s, |s| - 1, e);
    assert s[|dashes|] == k[0];
    DashRunEndIs(s, 0, |dashes|);
    assert s[..e] == dashes + k;
    assert (dashes + k)[|dashes|..] == k;
    assert s[|dashes|..e] == k;
    assert s[e + 1..] == v;
  }

  /** A flag with `=` maps its key to the rest. */
  lemma ValueFlagExample()
    ensures FlagKey("--nodetype=computing") == Str("nodetype") && FlagValueOf("--nodetype=computing") == Str("computing")
  {
    assert "--nodetype=computing" == "--" + "nodetype" + "=" + "computing";
    ValueFlagParses("--", "nodetype", "computing");
  }

  /** The key is greedy up to the last `=`. */
  lemma GreedyKeyExample()
    ensures FlagKey("-a=b=c") == Str("a=b") && FlagValueOf("-a=b=c") == Str("c")
  {
    assert "-a=b=c" == "-" + "a=b" + "=" + "c";
    ValueFlagParses("-", "a=b", "c");
  }

  /** Without a usable `=` the key is the text after the dashes (leaving at
      least one character) and the value `""`; without a dash it is `null`
      under the name `"null"`. */
  lemma BareFlagExamples()
    ensures FlagKey("--verbose") == Str("verbose") && FlagValueOf("--verbose") == Str("")
    ensures FlagKey("--x=") == Str("x=") && FlagValueOf("--x=") == Str("")
    ensures FlagKey("---") == Str("-") && FlagValueOf("---") == Str("")
    ensures FlagName("abc") == "null" && FlagValueOf("abc") == Null
  {
    var v := "--verbose";
    assert FirstDash(v) == Some(0) && DashRunEnd(v, 0) == 2 && LastEqBelow(v, 8) == None;
    assert v[2..] == "verbose";
    var x := "--x=";
    assert FirstDash(x) == Some(0) && DashRunEnd(x, 0) == 2 && LastEqBelow(x, 3) == None;
    assert x[2..] == "x=";
    var d := "---";
    assert FirstDash(d) == Some(0) && DashRunEnd(d, 0) == 3 && LastEqBelow(d, 2) == None;
    assert d[2..] == "-";
    assert FirstDash("abc") == None;
  }

  /** The last of two flags with the same key wins. */
  lemma GruntCLIOptionsExample()
    ensures GruntCLIOptions(["--a=1", "--b", "--a=2"]) == map["a" := Str("2"), "b" := Str("")]
  {
    var a1, b, a2 := "--a=1", "--b", "--a=2";
    assert FirstDash(a1) == Some(0) && DashRunEnd(a1, 0) == 2 && LastEqBelow(a1, 4) == Some(3);
    assert a1[2..3] == "a" && a1[4..] == "1";
    assert FirstDash(a2) == Some(0) && DashRunEnd(a2, 0) == 2 && LastEqBelow(a2, 4) == Some(3);
    assert a2[2..3] == "a" && a2[4..] == "2";
    assert FirstDash(b) == Some(0) && DashRunEnd(b, 0) == 2 && LastEqBelow(b, 2) == None;
    assert b[2..] == "b";
    assert FlagName(a1) == "a" && FlagName(a2) == "a" && FlagName(b) == "b";
    var flags := [a1, b, a2];
    assert flags[..2] == [a1, b] && flags[..2][..1] == [a1] && flags[..2][..1][..0] == [];
  }
}
