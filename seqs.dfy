/** Sequence and string helpers standing for the library calls the source
    makes: underscore's `_.filter` and `_.map`, `Array.prototype.join` and
    `String.prototype.split` with a one-character separator. */
module Seqs {

  /** `_.filter(s, p)`: the elements of `s` that satisfy `p`, in order. */
  function Filter<T>(s: seq<T>, p: T -> bool): (r: seq<T>)
    ensures |r| <= |s|
    ensures forall i :: 0 <= i < |r| ==> r[i] in s && p(r[i])
    ensures forall i :: 0 <= i < |s| && p(s[i]) ==> s[i] in r
    decreases |s|
  {
    if s == [] then [] else (if p(s[0]) then [s[0]] else []) + Filter(s[1..], p)
  }

  /** Filtering distributes over concatenation, so the filter keeps the
      relative order of the elements it retains. */
  lemma {:induction false} FilterConcat<T>(a: seq<T>, b: seq<T>, p: T -> bool)
    ensures Filter(a + b, p) == Filter(a, p) + Filter(b, p)
    decreases |a|
  {
    if a != [] {
      assert (a + b)[0] == a[0];
      assert (a + b)[1..] == a[1..] + b;
      FilterConcat(a[1..], b, p);
    } else {
      assert a + b == b;
    }
  }

  /** Filtering one element more at the end of the input. */
  lemma FilterSnoc<T>(a: seq<T>, x: T, p: T -> bool)
    ensures Filter(a + [x], p) == Filter(a, p) + (if p(x) then [x] else [])
  {
    FilterConcat(a, [x], p);
  }

  /** Filtering a single element keeps it exactly when it qualifies. */
  lemma FilterSingle<T>(x: T, p: T -> bool)
    ensures Filter([x], p) == if p(x) then [x] else []
  {
    assert [x][1..] == [];
  }

  /** The filter keeps everything exactly when every element qualifies. */
  lemma {:induction false} FilterAll<T>(s: seq<T>, p: T -> bool)
    requires forall i :: 0 <= i < |s| ==> p(s[i])
    ensures Filter(s, p) == s
    decreases |s|
  {
    if s != [] {
      FilterAll(s[1..], p);
    }
  }

  /** The filter keeps nothing when no element qualifies. */
  lemma {:induction false} FilterNone<T>(s: seq<T>, p: T -> bool)
    requires forall i :: 0 <= i < |s| ==> !p(s[i])
    ensures Filter(s, p) == []
    decreases |s|
  {
    if s != [] {
      FilterNone(s[1..], p);
    }
  }

  /** `_.map(s, f)`. */
  function Map<T, U>(s: seq<T>, f: T -> U): (r: seq<U>)
    ensures |r| == |s|
    ensures forall i :: 0 <= i < |s| ==> r[i] == f(s[i])
  {
    seq(|s|, i requires 0 <= i < |s| => f(s[i]))
  }

  /** Mapping distributes over concatenation. */
  lemma MapConcat<T, U>(a: seq<T>, b: seq<T>, f: T -> U)
    ensures Map(a + b, f) == Map(a, f) + Map(b, f)
  {
    assert forall i :: 0 <= i < |a + b| ==> Map(a + b, f)[i] == (Map(a, f) + Map(b, f))[i];
  }

  /** The concatenation of `f(x)` over the elements `x` of `s`, in order:
      a loop that appends each element's contribution to an accumulator. */
  function ConcatMap<T, U>(s: seq<T>, f: T -> seq<U>): seq<U>
    decreases |s|
  {
    if |s| == 0 then [] else ConcatMap(s[..|s| - 1], f) + f(s[|s| - 1])
  }

  lemma {:induction false} ConcatMapAppend<T, U>(a: seq<T>, b: seq<T>, f: T -> seq<U>)
    ensures ConcatMap(a + b, f) == ConcatMap(a, f) + ConcatMap(b, f)
    decreases |b|
  {
    if |b| == 0 {
      assert a + b == a;
    } else {
      assert (a + b)[..|a + b| - 1] == a + b[..|b| - 1];
      ConcatMapAppend(a, b[..|b| - 1], f);
    }
  }

  /** Every element of the concatenation comes from one element's
      contribution. */
  lemma {:induction false} ConcatMapMember<T, U>(s: seq<T>, f: T -> seq<U>, y: U)
    requires y in ConcatMap(s, f)
    ensures exists k :: 0 <= k < |s| && y in f(s[k])
    decreases |s|
  {
    if y !in f(s[|s| - 1]) {
      ConcatMapMember(s[..|s| - 1], f, y);
      var k :| 0 <= k < |s| - 1 && y in f(s[..|s| - 1][k]);
      assert s[..|s| - 1][k] == s[k];
    }
  }

  /** Filtering out elements that contribute nothing does not change the
      concatenation. */
  lemma {:induction false} ConcatMapFilter<T, U>(s: seq<T>, p: T -> bool, f: T -> seq<U>)
    requires forall i :: 0 <= i < |s| && !p(s[i]) ==> f(s[i]) == []
    ensures ConcatMap(Filter(s, p), f) == ConcatMap(s, f)
    decreases |s|
  {
    if |s| > 0 {
      var init, last := s[..|s| - 1], s[|s| - 1];
      assert s == init + [last];
      FilterSnoc(init, last, p);
      ConcatMapFilter(init, p, f);
      ConcatMapAppend(Filter(init, p), if p(last) then [last] else [], f);
      assert [last][..0] == [];
    }
  }

  /** `parts.join(sep)` for a one-character separator. */
  function Join(parts: seq<string>, sep: char): string
    decreases |parts|
  {
    if |parts| == 0 then ""
    else if |parts| == 1 then parts[0]
    else parts[0] + [sep] + Join(parts[1..], sep)
  }

  /** `s.split(sep)`: the maximal separator-free pieces of `s`, always at
      least one, which joined back give `s`. */
  function Split(s: string, sep: char): (parts: seq<string>)
    ensures |parts| >= 1
    ensures forall i :: 0 <= i < |parts| ==> sep !in parts[i]
    ensures Join(parts, sep) == s
    decreases |s|
  {
    if |s| == 0 then [""]
    else
      var rest := Split(s[1..], sep);
      if s[0] == sep then [""] + rest
      else [[s[0]] + rest[0]] + rest[1..]
  }

  ghost predicate SeparatorFree(parts: seq<string>, sep: char) {
    forall i :: 0 <= i < |parts| ==> sep !in parts[i]
  }

  /** The position of the first `sep` in `s`, or `|s|` if there is none. */
  function FirstSep(s: string, sep: char): (k: nat)
    ensures k <= |s|
    decreases |s|
  {
    if s == [] then 0 else if s[0] == sep then 0 else 1 + FirstSep(s[1..], sep)
  }

  lemma {:induction false} FirstSepAfter(x: string, y: string, sep: char)
    requires sep !in x
    ensures FirstSep(x + y, sep) == |x| + FirstSep(y, sep)
    decreases |x|
  {
    if x != [] {
      assert (x + y)[1..] == x[1..] + y;
      FirstSepAfter(x[1..], y, sep);
    } else {
      assert x + y == y;
    }
  }

  /** In the join of separator-free pieces the first separator ends the first
      piece, and there is none exactly when there is one piece. */
  lemma FirstSepOfJoin(a: seq<string>, sep: char)
    requires |a| >= 1 && SeparatorFree(a, sep)
    ensures FirstSep(Join(a, sep), sep) == |a[0]|
    ensures |a| == 1 <==> |a[0]| == |Join(a, sep)|
  {
    if |a| == 1 {
      FirstSepAfter(a[0], [], sep);
      assert a[0] + [] == a[0];
    } else {
      FirstSepAfter(a[0], [sep] + Join(a[1..], sep), sep);
      assert Join(a, sep) == a[0] + ([sep] + Join(a[1..], sep));
    }
  }

  /** Joining separator-free pieces loses nothing: two non-empty lists of such
      pieces with the same join are equal. */
  lemma {:induction false} JoinInjective(a: seq<string>, b: seq<string>, sep: char)
    requires |a| >= 1 && |b| >= 1
    requires SeparatorFree(a, sep) && SeparatorFree(b, sep)
    requires Join(a, sep) == Join(b, sep)
    ensures a == b
    decreases |a|
  {
    var s := Join(a, sep);
    FirstSepOfJoin(a, sep);
    FirstSepOfJoin(b, sep);
    if |a| == 1 {
      assert a == [s] == b;
    } else {
      var n := |a[0]|;
      assert s == a[0] + [sep] + Join(a[1..], sep);
      assert s == b[0] + [sep] + Join(b[1..], sep);
      assert a[0] == s[..n] == b[0];
      assert Join(a[1..], sep) == s[n + 1..] == Join(b[1..], sep);
      JoinInjective(a[1..], b[1..], sep);
      assert a == [a[0]] + a[1..];
      assert b == [b[0]] + b[1..];
    }
  }

  /** `split` inverts `join` on separator-free pieces. */
  lemma SplitJoin(parts: seq<string>, sep: char)
    requires |parts| >= 1 && SeparatorFree(parts, sep)
    ensures Split(Join(parts, sep), sep) == parts
  {
    var s := Join(parts, sep);
    JoinInjective(Split(s, sep), parts, sep);
  }

  /** The join of three pieces, written out. */
  lemma Join3(a: string, b: string, c: string, sep: char)
    ensures Join([a, b, c], sep) == a + [sep] + b + [sep] + c
  {
    assert [a, b, c][1..] == [b, c];
    assert [b, c][1..] == [c];
    assert Join([b, c], sep) == b + [sep] + c;
  }

  /** The join of two pieces, written out. */
  lemma Join2(a: string, b: string, sep: char)
    ensures Join([a, b], sep) == a + [sep] + b
  {
    assert [a, b][1..] == [b];
  }

  /** Joining two non-empty lists puts one separator between them. */
  lemma {:induction false} JoinAppend(a: seq<string>, b: seq<string>, sep: char)
    requires |a| > 0 && |b| > 0
    ensures Join(a + b, sep) == Join(a, sep) + [sep] + Join(b, sep)
    decreases |a|
  {
    if |a| > 1 {
      assert (a + b)[1..] == a[1..] + b;
      JoinAppend(a[1..], b, sep);
    } else {
      assert (a + b)[1..] == b;
    }
  }

  /** Joining a longer list starts with the join of its non-empty head
      part and a separator. */
  lemma JoinPrefix(a: seq<string>, b: seq<string>, sep: char)
    requires |a| > 0 && |b| > 0
    ensures Join(a, sep) + [sep] <= Join(a + b, sep)
  {
    JoinAppend(a, b, sep);
    var head := Join(a, sep) + [sep];
    assert (head + Join(b, sep))[..|head|] == head;
  }

  /** The first piece of `split` is the text before the first separator. */
  lemma {:induction false} SplitHead(s: string, sep: char)
    ensures Split(s, sep)[0] == s[..FirstSep(s, sep)]
    decreases |s|
  {
    if |s| > 0 && s[0] != sep {
      SplitHead(s[1..], sep);
      assert s[..FirstSep(s, sep)] == [s[0]] + s[1..][..FirstSep(s[1..], sep)];
    }
  }
}
