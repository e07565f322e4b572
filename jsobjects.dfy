/** The part of underscore that the CLI switch marshalling relies on: plain
    objects as ordered lists of properties, `_.extend`, the memo-less
    `_.reduce(arr, (e, acc) => _.extend(acc, e))` fold over an array of
    possibly `undefined` objects, `_.pairs`, and the rendering of each pair as
    a command-line switch (tasks/clouddity.js and index.js,
    `optionsToCLISwitches`). */
module JsObjects {
  import opened Wrappers
  import opened Seqs

  /** The own enumerable properties of an object, in enumeration order.
      Values are the strings the template literal renders them to. */
  type Props = seq<(string, string)>

  function Keys(p: Props): (ks: seq<string>)
    ensures |ks| == |p| && forall i :: 0 <= i < |p| ==> ks[i] == p[i].0
  {
    Map(p, (e: (string, string)) => e.0)
  }

  /** An object never has two properties of the same name. */
  ghost predicate DistinctKeys(p: Props) {
    var ks := Keys(p);
    forall i, j :: 0 <= i < j < |ks| ==> ks[i] != ks[j]
  }

  /** `obj[k]`, `None` standing for `undefined`. */
  function Lookup(p: Props, k: string): (r: Option<string>)
    ensures r.None? <==> k !in Keys(p)
    decreases |p|
  {
    if |p| == 0 then None
    else if p[0].0 == k then Some(p[0].1)
    else
      assert Keys(p) == [p[0].0] + Keys(p[1..]);
      Lookup(p[1..], k)
  }

  /** `obj[k] = v`: an existing property keeps its position, a new one goes
      last. */
  function Set(p: Props, k: string, v: string): Props
    decreases |p|
  {
    if |p| == 0 then [(k, v)]
    else if p[0].0 == k then [(k, v)] + p[1..]
    else [p[0]] + Set(p[1..], k, v)
  }

  /** `_.extend(target, src)`: every property of `src`, in order, is
      assigned onto `target`. */
  function Extend(target: Props, src: Props): Props
    decreases |src|
  {
    if |src| == 0 then target
    else
      var last := src[|src| - 1];
      Set(Extend(target, src[..|src| - 1]), last.0, last.1)
  }

  lemma {:induction false} SetLookup(p: Props, k: string, v: string, q: string)
    ensures Lookup(Set(p, k, v), q) == if q == k then Some(v) else Lookup(p, q)
    decreases |p|
  {
    if |p| > 0 && p[0].0 != k {
      SetLookup(p[1..], k, v, q);
      assert Set(p, k, v)[1..] == Set(p[1..], k, v);
    }
  }

  /** Assigning keeps the existing keys in place, and appends a new key. */
  lemma {:induction false} SetKeys(p: Props, k: string, v: string)
    ensures Keys(Set(p, k, v)) == if k in Keys(p) then Keys(p) else Keys(p) + [k]
    decreases |p|
  {
    if |p| > 0 {
      assert Keys(p) == [p[0].0] + Keys(p[1..]);
      if p[0].0 == k {
        assert Keys(Set(p, k, v)) == [k] + Keys(p[1..]);
      } else {
        SetKeys(p[1..], k, v);
        assert Keys(Set(p, k, v)) == [p[0].0] + Keys(Set(p[1..], k, v));
      }
    }
  }

  lemma SetDistinct(p: Props, k: string, v: string)
    requires DistinctKeys(p)
    ensures DistinctKeys(Set(p, k, v))
  {
    SetKeys(p, k, v);
  }

  /** The last property of a sequence comes last in lookups. */
  lemma {:induction false} LookupSnoc(p: Props, x: (string, string), q: string)
    ensures Lookup(p + [x], q) ==
      if Lookup(p, q).Some? then Lookup(p, q) else if x.0 == q then Some(x.1) else None
    decreases |p|
  {
    if |p| > 0 {
      assert (p + [x])[1..] == p[1..] + [x];
      LookupSnoc(p[1..], x, q);
    }
  }

  /** Distinct keys stay distinct without the last property, which then
      does not occur before it. */
  lemma DistinctSnoc(init: Props, last: (string, string))
    requires DistinctKeys(init + [last])
    ensures DistinctKeys(init) && last.0 !in Keys(init)
  {
    var ks := Keys(init + [last]);
    assert Keys(init) == ks[..|init|];
    assert ks[|init|] == last.0;
  }

  /** After `_.extend`, a property of the source wins over the target's. */
  lemma {:induction false} ExtendLookup(target: Props, src: Props, q: string)
    requires DistinctKeys(src)
    ensures Lookup(Extend(target, src), q) == if q in Keys(src) then Lookup(src, q) else Lookup(target, q)
    decreases |src|
  {
    if |src| > 0 {
      var init, last := src[..|src| - 1], src[|src| - 1];
      assert src == init + [last];
      assert Keys(src) == Keys(init) + [last.0];
      DistinctSnoc(init, last);
      ExtendLookup(target, init, q);
      SetLookup(Extend(target, init), last.0, last.1, q);
      LookupSnoc(init, last, q);
      if q == last.0 {
        assert Lookup(init, q) == None;
        assert Lookup(src, q) == Some(last.1);
      } else if q in Keys(init) {
        assert Lookup(src, q) == Lookup(init, q);
      }
    }
  }

  /** `_.extend` keeps the target's keys first, in order, and keeps keys
      distinct. */
  lemma {:induction false} ExtendKeys(target: Props, src: Props)
    requires DistinctKeys(target)
    ensures DistinctKeys(Extend(target, src))
    ensures Keys(target) <= Keys(Extend(target, src))
    ensures forall k :: k in Keys(Extend(target, src)) <==> k in Keys(target) || k in Keys(src)
    decreases |src|
  {
    if |src| > 0 {
      var init, last := src[..|src| - 1], src[|src| - 1];
      ExtendKeys(target, init);
      SetKeys(Extend(target, init), last.0, last.1);
      SetDistinct(Extend(target, init), last.0, last.1);
      assert Keys(src) == Keys(init) + [last.0];
    }
  }

  // ---------------------------------------------------------------------
  // The fold

  /** One step of the fold: `_.extend(value, memo)`. An `undefined` target
      makes `_.extend` return `undefined`; an `undefined` source adds
      nothing. */
  function ExtendStep(value: Option<Props>, memo: Option<Props>): Option<Props> {
    match value
    case None => None
    case Some(t) => match memo case None => Some(t) case Some(m) => Some(Extend(t, m))
  }

  /** `_.reduce(arr, (e, acc) => _.extend(acc, e))` without a memo: the
      first element is the initial memo and each later element is extended
      with the memo so far. */
  function Merge(arr: seq<Option<Props>>): (r: Option<Props>)
    ensures r.None? <==> |arr| == 0 || arr[|arr| - 1].None?
    decreases |arr|
  {
    if |arr| == 0 then None
    else if |arr| == 1 then arr[0]
    else ExtendStep(arr[|arr| - 1], Merge(arr[..|arr| - 1]))
  }

  /** An `undefined` element throws away everything merged before it. */
  lemma {:induction false} MergeRestart(a: seq<Option<Props>>, b: seq<Option<Props>>)
    requires |b| > 0
    ensures Merge(a + [None] + b) == Merge(b)
    decreases |b|
  {
    var s := a + [None] + b;
    if |b| == 1 {
      assert s[..|s| - 1] == a + [None];
    } else {
      assert s[..|s| - 1] == a + [None] + b[..|b| - 1];
      MergeRestart(a, b[..|b| - 1]);
    }
  }

  /** The value of `q` in the earliest element that has it. */
  function FirstLookup(arr: seq<Option<Props>>, q: string): Option<string>
    decreases |arr|
  {
    if |arr| == 0 then None
    else if arr[0].Some? && Lookup(arr[0].value, q).Some? then Lookup(arr[0].value, q)
    else FirstLookup(arr[1..], q)
  }

  lemma {:induction false} FirstLookupSnoc(arr: seq<Option<Props>>, x: Option<Props>, q: string)
    ensures FirstLookup(arr + [x], q) ==
      if FirstLookup(arr, q).Some? then FirstLookup(arr, q)
      else if x.Some? then Lookup(x.value, q) else None
    decreases |arr|
  {
    if |arr| > 0 {
      assert (arr + [x])[1..] == arr[1..] + [x];
      FirstLookupSnoc(arr[1..], x, q);
    } else {
      assert [x][1..] == [];
    }
  }

  /** The earliest-lookup of a sequence of two or three objects, written
      out. */
  lemma FirstLookupOfTwo(a: Props, b: Props, q: string)
    ensures FirstLookup([Some(a), Some(b)], q) == if q in Keys(a) then Lookup(a, q) else Lookup(b, q)
  {
    var arr := [Some(a), Some(b)];
    assert arr[1..] == [Some(b)] && arr[1..][1..] == [];
    assert FirstLookup(arr, q) == if q in Keys(a) then Lookup(a, q) else FirstLookup(arr[1..], q);
    assert FirstLookup(arr[1..], q) == if q in Keys(b) then Lookup(b, q) else FirstLookup(arr[1..][1..], q);
  }

  lemma FirstLookupOfThree(a: Props, b: Props, c: Props, q: string)
    ensures FirstLookup([Some(a), Some(b), Some(c)], q) ==
      if q in Keys(a) then Lookup(a, q) else if q in Keys(b) then Lookup(b, q) else Lookup(c, q)
  {
    var arr := [Some(a), Some(b), Some(c)];
    assert arr[1..] == [Some(b), Some(c)];
    assert FirstLookup(arr, q) == if q in Keys(a) then Lookup(a, q) else FirstLookup(arr[1..], q);
    FirstLookupOfTwo(b, c, q);
  }

  predicate AllPresent(arr: seq<Option<Props>>) {
    forall i :: 0 <= i < |arr| ==> arr[i].Some?
  }

  ghost predicate AllDistinct(arr: seq<Option<Props>>) {
    forall i :: 0 <= i < |arr| && arr[i].Some? ==> DistinctKeys(arr[i].value)
  }

  /** Earliest wins: when every element is an object, the fold has exactly
      the keys of all of them, each with the value of the earliest element
      that has it, and no key twice. */
  lemma {:induction false} MergeEarliestWins(arr: seq<Option<Props>>, q: string)
    requires |arr| > 0 && AllPresent(arr) && AllDistinct(arr)
    ensures Merge(arr).Some? && DistinctKeys(Merge(arr).value)
    ensures Lookup(Merge(arr).value, q) == FirstLookup(arr, q)
    decreases |arr|
  {
    if |arr| == 1 {
      assert arr[1..] == [];
    } else {
      var init, last := arr[..|arr| - 1], arr[|arr| - 1];
      assert arr == init + [last];
      MergeEarliestWins(init, q);
      var m := Merge(init).value;
      ExtendLookup(last.value, m, q);
      ExtendKeys(last.value, m);
      FirstLookupSnoc(init, last, q);
    }
  }

  // ---------------------------------------------------------------------
  // Switches

  /** `${singleDashOptions.includes(k) ? '-' : '--'}${k} ${v}`. */
  function Switch(p: (string, string), singleDash: seq<string>): string {
    (if p.0 in singleDash then "-" else "--") + p.0 + " " + p.1
  }

  function SwitchWith(singleDash: seq<string>): ((string, string)) -> string {
    (p: (string, string)) => Switch(p, singleDash)
  }

  /** `_.pairs` of the fold (of `undefined`, no pairs), each rendered. */
  function OptionsToCLISwitches(arr: seq<Option<Props>>, singleDash: seq<string>): (r: seq<string>)
    ensures |r| == |Merge(arr).GetOr([])|
  {
    Map(Merge(arr).GetOr([]), SwitchWith(singleDash))
  }

  /** Every key of the merged objects gets exactly one switch, rendered with
      one dash exactly when it is a single-dash option, carrying the value
      of the earliest object that has the key. */
  lemma OptionsToCLISwitchesSpec(arr: seq<Option<Props>>, singleDash: seq<string>, q: string, v: string)
    requires |arr| > 0 && AllPresent(arr) && AllDistinct(arr)
    requires FirstLookup(arr, q) == Some(v)
    ensures exists i ::
              && 0 <= i < |OptionsToCLISwitches(arr, singleDash)|
              && Keys(Merge(arr).value)[i] == q
              && OptionsToCLISwitches(arr, singleDash)[i] == Switch((q, v), singleDash)
    ensures forall i, j :: 0 <= i < j < |OptionsToCLISwitches(arr, singleDash)| ==>
      Keys(Merge(arr).value)[i] != Keys(Merge(arr).value)[j]
  {
    MergeEarliestWins(arr, q);
    var m := Merge(arr).value;
    var i := LookupIndex(m, q);
    assert OptionsToCLISwitches(arr, singleDash)[i] == Switch(m[i], singleDash);
  }

  /** The position of a present key. */
  lemma {:induction false} LookupIndex(p: Props, q: string) returns (i: nat)
    requires Lookup(p, q).Some?
    ensures i < |p| && p[i] == (q, Lookup(p, q).value)
    decreases |p|
  {
    if p[0].0 == q {
      i := 0;
    } else {
      var j := LookupIndex(p[1..], q);
      i := j + 1;
    }
  }

  /** Without an `undefined` last element nothing is lost; with one, the
      switch list is empty. */
  lemma UndefinedLastDropsAll(arr: seq<Option<Props>>, singleDash: seq<string>)
    requires |arr| > 0 && arr[|arr| - 1].None?
    ensures OptionsToCLISwitches(arr, singleDash) == []
  {
  }

  // ---------------------------------------------------------------------
  // In place: the fold writes into the array's own objects

  /** A JavaScript object whose properties `_.extend` assigns in place. */
  class JsObject {
    var props: Props

    constructor(p: Props)
      ensures props == p
    {
      props := p;
    }

    /** `_.extend(this, src)`; an `undefined` source adds nothing. Reading
        the source before writing also covers `src == this`. */
    method ExtendWith(src: JsObject?)
      modifies this
      ensures props == if src == null then old(props) else Extend(old(props), old(src.props))
    {
      if src != null {
        props := Extend(props, src.props);
      }
    }
  }

  /** The objects of an array (skipping `undefined`). */
  ghost function Objects(arr: seq<JsObject?>): set<JsObject> {
    set i | 0 <= i < |arr| && arr[i] != null :: arr[i]
  }

  /** The objects the fold may assign into: all but the first element. */
  ghost function Targets(arr: seq<JsObject?>): set<JsObject> {
    set i | 1 <= i < |arr| && arr[i] != null :: arr[i]
  }

  ghost function Store(objs: set<JsObject>): map<JsObject, Props>
    reads objs
  {
    map o | o in objs :: o.props
  }

  /** The fold on a store of objects: what each object's properties are
      after the fold ran over `arr`, starting from store `h`. Objects
      repeated in the array are handled as the JavaScript heap does. */
  ghost function Simulate(arr: seq<JsObject?>, h: map<JsObject, Props>): (r: map<JsObject, Props>)
    requires Objects(arr) <= h.Keys
    ensures r.Keys == h.Keys
    decreases |arr|
  {
    if |arr| <= 1 then h
    else
      var init := arr[..|arr| - 1];
      assert Objects(init) <= Objects(arr);
      var h' := Simulate(init, h);
      var target, memo := arr[|arr| - 1], arr[|arr| - 2];
      assert memo != null ==> memo in Objects(arr);
      if target == null || memo == null then h' else h'[target := Extend(h'[target], h'[memo])]
  }

  /** `_.reduce(arr, (e, acc) => _.extend(acc, e))` on the objects
      themselves: returns the last element (or `undefined`), and every
      object ends up as the store simulation says. */
  method ReduceExtend(arr: seq<JsObject?>) returns (r: JsObject?)
    modifies Targets(arr)
    ensures r == if |arr| == 0 then null else arr[|arr| - 1]
    ensures forall o :: o in Objects(arr) ==> o.props == Simulate(arr, old(Store(Objects(arr))))[o]
  {
    ghost var h0 := Store(Objects(arr));
    if |arr| == 0 {
      return null;
    }
    r := arr[0];
    assert Objects(arr[..1]) <= Objects(arr);
    for i := 1 to |arr|
      invariant r == arr[i - 1]
      invariant Objects(arr[..i]) <= Objects(arr)
      invariant forall o :: o in Objects(arr) ==> o.props == Simulate(arr[..i], h0)[o]
    {
      var value := arr[i];
      assert arr[..i + 1][..i] == arr[..i];
      assert Objects(arr[..i + 1]) <= Objects(arr);
      if value != null {
        assert value in Targets(arr);
        if r != null {
          assert r in Objects(arr);
          value.ExtendWith(r);
        }
      }
      r := value;
    }
    assert arr[..|arr|] == arr;
  }

  /** The values of the objects in a store, `undefined` for `null`. */
  function Snapshot(arr: seq<JsObject?>, h: map<JsObject, Props>): (s: seq<Option<Props>>)
    ensures |s| == |arr|
  {
    seq(|arr|, i requires 0 <= i < |arr| => if arr[i] != null && arr[i] in h then Some(h[arr[i]]) else None)
  }

  /** No object occurs twice. */
  ghost predicate Unaliased(arr: seq<JsObject?>) {
    forall i, j :: 0 <= i < j < |arr| && arr[i] != null ==> arr[i] != arr[j]
  }

  /** Objects outside the later positions keep their properties. */
  lemma {:induction false} SimulateUntouched(arr: seq<JsObject?>, h: map<JsObject, Props>, o: JsObject)
    requires Objects(arr) <= h.Keys && o in h
    requires forall i :: 1 <= i < |arr| ==> arr[i] != o
    ensures Simulate(arr, h)[o] == h[o]
    decreases |arr|
  {
    if |arr| > 1 {
      var init := arr[..|arr| - 1];
      assert Objects(init) <= Objects(arr);
      SimulateUntouched(init, h, o);
    }
  }

  /** For distinct objects the in-place fold computes the value-level fold:
      the returned object's properties are the merge of the objects' initial
      properties. */
  lemma {:induction false} SimulateIsMerge(arr: seq<JsObject?>, h: map<JsObject, Props>)
    requires Objects(arr) <= h.Keys && Unaliased(arr)
    ensures Merge(Snapshot(arr, h)).None? <==> |arr| == 0 || arr[|arr| - 1] == null
    ensures |arr| > 0 && arr[|arr| - 1] != null ==>
      Merge(Snapshot(arr, h)) == Some(Simulate(arr, h)[arr[|arr| - 1]])
    decreases |arr|
  {
    var snap := Snapshot(arr, h);
    if |arr| == 1 {
      if arr[0] != null {
        assert arr[0] in Objects(arr);
      }
    } else if |arr| > 1 {
      var init := arr[..|arr| - 1];
      var target, memo := arr[|arr| - 1], arr[|arr| - 2];
      assert Objects(init) <= Objects(arr);
      assert Snapshot(init, h) == snap[..|arr| - 1];
      SimulateIsMerge(init, h);
      if target != null {
        assert target in Objects(arr);
        SimulateUntouched(init, h, target);
        if memo != null {
          assert memo in Objects(arr);
        }
      }
    }
  }
}
