/**
 * Sequence, set and map helpers shared by the pages: JavaScript's `filter`,
 * `reduce((s, x) => s + f(x), 0)`, `[...new Set(xs)]`, a numeric
 * `sort((a, b) => b - a)` over distinct values, and `Object.values(m)` summed.
 */
module Collections {
  import opened Wrappers

  /** `s.filter(p)`, order kept. Defined on the last element so that a loop over a prefix extends it. */
  function Filter<T>(s: seq<T>, p: T -> bool): (r: seq<T>)
    ensures |r| <= |s|
    ensures forall i :: 0 <= i < |r| ==> r[i] in s && p(r[i])
    ensures forall i :: 0 <= i < |s| && p(s[i]) ==> s[i] in r
    decreases |s|
  {
    if s == [] then []
    else if p(s[|s| - 1]) then Filter(s[..|s| - 1], p) + [s[|s| - 1]]
    else Filter(s[..|s| - 1], p)
  }

  lemma {:induction false} FilterAppend<T>(a: seq<T>, b: seq<T>, p: T -> bool)
    ensures Filter(a + b, p) == Filter(a, p) + Filter(b, p)
    decreases |b|
  {
    if b == [] {
      assert a + b == a;
    } else {
      var b' := b[..|b| - 1];
      assert (a + b)[..|a + b| - 1] == a + b';
      FilterAppend(a, b', p);
    }
  }

  /** A filter and its complement split the sequence: their lengths add up to it. */
  lemma {:induction false} FilterComplementCount<T>(s: seq<T>, p: T -> bool, q: T -> bool)
    requires forall i :: 0 <= i < |s| ==> q(s[i]) == !p(s[i])
    ensures |Filter(s, p)| + |Filter(s, q)| == |s|
    decreases |s|
  {
    if s != [] {
      FilterComplementCount(s[..|s| - 1], p, q);
    }
  }

  /** Filtering with a predicate that holds of every element keeps the sequence. */
  lemma {:induction false} FilterAll<T>(s: seq<T>, p: T -> bool)
    requires forall i :: 0 <= i < |s| ==> p(s[i])
    ensures Filter(s, p) == s
    decreases |s|
  {
    if s != [] {
      FilterAll(s[..|s| - 1], p);
    }
  }

  /** Filtering with a predicate that holds of no element gives the empty sequence. */
  lemma {:induction false} FilterNone<T>(s: seq<T>, p: T -> bool)
    requires forall i :: 0 <= i < |s| ==> !p(s[i])
    ensures Filter(s, p) == []
    decreases |s|
  {
    if s != [] {
      FilterNone(s[..|s| - 1], p);
    }
  }

  /** Filters agree when their predicates agree on the elements. */
  lemma {:induction false} FilterCongruent<T>(s: seq<T>, p: T -> bool, q: T -> bool)
    requires forall i :: 0 <= i < |s| ==> p(s[i]) == q(s[i])
    ensures Filter(s, p) == Filter(s, q)
    decreases |s|
  {
    if s != [] {
      FilterCongruent(s[..|s| - 1], p, q);
    }
  }

  /** `s.findIndex(p)`: the first position whose element satisfies `p`. */
  function FindIndex<T>(s: seq<T>, p: T -> bool): (r: Option<nat>)
    ensures r.Some? ==> r.value < |s| && p(s[r.value])
    ensures r.Some? ==> forall j :: 0 <= j < r.value ==> !p(s[j])
    ensures r.None? <==> forall j :: 0 <= j < |s| ==> !p(s[j])
    decreases |s|
  {
    if s == [] then None
    else if p(s[0]) then Some(0)
    else
      var r := FindIndex(s[1..], p);
      if r.Some? then Some(r.value + 1) else None
  }

  /** `s.find(p)`: the first element that satisfies `p`. */
  function Find<T>(s: seq<T>, p: T -> bool): (r: Option<T>)
    ensures r.Some? <==> FindIndex(s, p).Some?
    ensures r.Some? ==> r.value == s[FindIndex(s, p).value]
  {
    var i := FindIndex(s, p);
    if i.Some? then Some(s[i.value]) else None
  }

  /** `s.reduce((acc, x) => acc + f(x), 0)`. */
  function SumBy<T>(s: seq<T>, f: T -> real): real
    decreases |s|
  {
    if s == [] then 0.0 else SumBy(s[..|s| - 1], f) + f(s[|s| - 1])
  }

  lemma {:induction false} SumByAppend<T>(a: seq<T>, b: seq<T>, f: T -> real)
    ensures SumBy(a + b, f) == SumBy(a, f) + SumBy(b, f)
    decreases |b|
  {
    if b == [] {
      assert a + b == a;
    } else {
      var b' := b[..|b| - 1];
      assert (a + b)[..|a + b| - 1] == a + b';
      SumByAppend(a, b', f);
    }
  }

  /** The sum of a pointwise sum is the sum of the sums. */
  lemma {:induction false} SumByAdd<T>(s: seq<T>, f: T -> real, g: T -> real, h: T -> real)
    requires forall i :: 0 <= i < |s| ==> h(s[i]) == f(s[i]) + g(s[i])
    ensures SumBy(s, h) == SumBy(s, f) + SumBy(s, g)
    decreases |s|
  {
    if s != [] {
      SumByAdd(s[..|s| - 1], f, g, h);
    }
  }

  /** A constant factor comes out of a sum. */
  lemma {:induction false} SumByScale<T>(s: seq<T>, f: T -> real, g: T -> real, c: real)
    requires forall i :: 0 <= i < |s| ==> g(s[i]) == c * f(s[i])
    ensures SumBy(s, g) == c * SumBy(s, f)
    decreases |s|
  {
    if s != [] {
      SumByScale(s[..|s| - 1], f, g, c);
    }
  }

  /** Sums agree when the summands agree on the elements. */
  lemma {:induction false} SumByCongruent<T>(s: seq<T>, f: T -> real, g: T -> real)
    requires forall i :: 0 <= i < |s| ==> f(s[i]) == g(s[i])
    ensures SumBy(s, f) == SumBy(s, g)
    decreases |s|
  {
    if s != [] {
      SumByCongruent(s[..|s| - 1], f, g);
    }
  }

  /** A sum of non-negative terms is non-negative. */
  lemma {:induction false} SumByNonNegative<T>(s: seq<T>, f: T -> real)
    requires forall i :: 0 <= i < |s| ==> f(s[i]) >= 0.0
    ensures SumBy(s, f) >= 0.0
    decreases |s|
  {
    if s != [] {
      SumByNonNegative(s[..|s| - 1], f);
    }
  }

  /** Summing over the elements that satisfy `p` and over those that do not gives the whole sum. */
  lemma {:induction false} SumByFilterSplit<T>(s: seq<T>, f: T -> real, p: T -> bool, q: T -> bool)
    requires forall i :: 0 <= i < |s| ==> q(s[i]) == !p(s[i])
    ensures SumBy(s, f) == SumBy(Filter(s, p), f) + SumBy(Filter(s, q), f)
    decreases |s|
  {
    if s != [] {
      var s' := s[..|s| - 1];
      var x := s[|s| - 1];
      SumByFilterSplit(s', f, p, q);
      if p(x) {
        SumByAppend(Filter(s', p), [x], f);
      } else {
        SumByAppend(Filter(s', q), [x], f);
      }
    }
  }

  /** Summing over a filter is summing a term that is zero off the filter. */
  lemma {:induction false} SumByFilterAsMask<T>(s: seq<T>, f: T -> real, p: T -> bool, g: T -> real)
    requires forall i :: 0 <= i < |s| ==> g(s[i]) == (if p(s[i]) then f(s[i]) else 0.0)
    ensures SumBy(Filter(s, p), f) == SumBy(s, g)
    decreases |s|
  {
    if s != [] {
      var s' := s[..|s| - 1];
      var x := s[|s| - 1];
      SumByFilterAsMask(s', f, p, g);
      if p(x) {
        SumByAppend(Filter(s', p), [x], f);
      }
    }
  }

  /** `xs.map(f)`. */
  function MapSeq<T, U>(s: seq<T>, f: T -> U): (r: seq<U>)
    ensures |r| == |s|
    ensures forall i :: 0 <= i < |s| ==> r[i] == f(s[i])
  {
    seq(|s|, i requires 0 <= i < |s| => f(s[i]))
  }

  /** Summing the images of a map is summing the composed function. */
  lemma {:induction false} SumByMapSeq<T, U>(s: seq<T>, f: T -> U, g: U -> real, h: T -> real)
    requires forall i :: 0 <= i < |s| ==> h(s[i]) == g(f(s[i]))
    ensures SumBy(MapSeq(s, f), g) == SumBy(s, h)
    decreases |s|
  {
    if s != [] {
      var s' := s[..|s| - 1];
      assert MapSeq(s, f)[..|s| - 1] == MapSeq(s', f);
      SumByMapSeq(s', f, g, h);
    }
  }

  /** Filtering commutes with a map that does not change whether an element passes the filter. */
  lemma {:induction false} FilterMapSeq<T>(s: seq<T>, f: T -> T, p: T -> bool)
    requires forall i :: 0 <= i < |s| ==> p(f(s[i])) == p(s[i])
    ensures Filter(MapSeq(s, f), p) == MapSeq(Filter(s, p), f)
    decreases |s|
  {
    if s != [] {
      var n := |s| - 1;
      var m := MapSeq(s, f);
      assert m[..n] == MapSeq(s[..n], f);
      assert m[n] == f(s[n]);
      assert forall i :: 0 <= i < n ==> s[..n][i] == s[i];
      FilterMapSeq(s[..n], f, p);
      var init := Filter(s[..n], p);
      if p(s[n]) {
        assert Filter(m, p) == Filter(m[..n], p) + [f(s[n])];
        assert Filter(s, p) == init + [s[n]];
        MapSeqSnoc(init, s[n], f);
      } else {
        assert Filter(m, p) == Filter(m[..n], p);
        assert Filter(s, p) == init;
      }
    }
  }

  /** An element satisfying `p` is in `s + [x]` exactly when it is in `s` or is `x`. */
  lemma ExistsSnoc<T>(s: seq<T>, init: seq<T>, p: T -> bool)
    requires s != [] && init == s[..|s| - 1]
    ensures (exists i :: 0 <= i < |s| && p(s[i]))
      <==> (exists i :: 0 <= i < |init| && p(init[i])) || p(s[|s| - 1])
  {
    if exists i :: 0 <= i < |s| && p(s[i]) {
      var i :| 0 <= i < |s| && p(s[i]);
      if i < |init| {
        assert init[i] == s[i];
      }
    }
    if exists i :: 0 <= i < |init| && p(init[i]) {
      var i :| 0 <= i < |init| && p(init[i]);
      assert s[i] == init[i];
    }
  }

  lemma MapSeqSnoc<T, U>(s: seq<T>, x: T, f: T -> U)
    ensures MapSeq(s + [x], f) == MapSeq(s, f) + [f(x)]
  {
  }

  predicate NoDuplicates<T(==)>(s: seq<T>) {
    forall i, j :: 0 <= i < j < |s| ==> s[i] != s[j]
  }

  /** `[...new Set(s)]`: the distinct elements in order of first occurrence. */
  function Dedup<T(==,!new)>(s: seq<T>): (r: seq<T>)
    ensures NoDuplicates(r)
    ensures forall x :: x in r <==> x in s
    decreases |s|
  {
    if s == [] then []
    else
      var d := Dedup(s[..|s| - 1]);
      if s[|s| - 1] in d then d else d + [s[|s| - 1]]
  }

  /** Deduplicating a sequence that has no repeats changes nothing. */
  lemma {:induction false} DedupNoDuplicates<T(!new)>(s: seq<T>)
    requires NoDuplicates(s)
    ensures Dedup(s) == s
    decreases |s|
  {
    if s != [] {
      DedupNoDuplicates(s[..|s| - 1]);
      assert s[|s| - 1] !in s[..|s| - 1];
    }
  }

  /** The largest element of a non-empty set. */
  function Max(s: set<int>): (m: int)
    requires s != {}
    ensures m in s && forall y :: y in s ==> y <= m
  {
    MaxExists(s);
    var m :| m in s && forall y :: y in s ==> y <= m;
    m
  }

  /** A set is empty or has an element. */
  lemma NonEmptyHasElement(s: set<int>)
    ensures s == {} || exists x :: x in s
  {
    if forall x :: x !in s {
      assert s == {};
    }
  }

  lemma {:induction false} MaxExists(s: set<int>)
    requires s != {}
    ensures exists m :: m in s && forall y :: y in s ==> y <= m
    decreases |s|
  {
    NonEmptyHasElement(s);
    var x :| x in s;
    if s == {x} {
      assert forall y :: y in s ==> y <= x;
    } else {
      var rest := s - {x};
      MaxExists(rest);
      var m :| m in rest && forall y :: y in rest ==> y <= m;
      var top := if m < x then x else m;
      forall y | y in s ensures y <= top {
        if y != x { assert y in rest; }
      }
      assert top in s;
    }
  }

  function Min(s: set<int>): (m: int)
    requires s != {}
    ensures m in s && forall y :: y in s ==> m <= y
  {
    MinExists(s);
    var m :| m in s && forall y :: y in s ==> m <= y;
    m
  }

  lemma {:induction false} MinExists(s: set<int>)
    requires s != {}
    ensures exists m :: m in s && forall y :: y in s ==> m <= y
    decreases |s|
  {
    NonEmptyHasElement(s);
    var x :| x in s;
    if s == {x} {
      assert forall y :: y in s ==> x <= y;
    } else {
      var rest := s - {x};
      MinExists(rest);
      var m :| m in rest && forall y :: y in rest ==> m <= y;
      var bottom := if x < m then x else m;
      forall y | y in s ensures bottom <= y {
        if y != x { assert y in rest; }
      }
      assert bottom in s;
    }
  }

  predicate StrictlyDescending(s: seq<int>) {
    forall i, j :: 0 <= i < j < |s| ==> s[i] > s[j]
  }

  predicate StrictlyAscending(s: seq<int>) {
    forall i, j :: 0 <= i < j < |s| ==> s[i] < s[j]
  }

  /** `Array.from(s).sort((a, b) => b - a)` for a set of numbers: every element once, largest first. */
  function SortDescending(s: set<int>): (r: seq<int>)
    ensures StrictlyDescending(r)
    ensures forall x :: x in r <==> x in s
    ensures |r| == |s|
    decreases |s|
  {
    if s == {} then []
    else
      var m := Max(s);
      [m] + SortDescending(s - {m})
  }

  /** The keys of a numerically keyed JavaScript object in enumeration order: ascending. */
  function SortAscending(s: set<int>): (r: seq<int>)
    ensures StrictlyAscending(r)
    ensures forall x :: x in r <==> x in s
    ensures |r| == |s|
    decreases |s|
  {
    if s == {} then []
    else
      var m := Min(s);
      [m] + SortAscending(s - {m})
  }

  /** `m[k] || 0` for a numeric record: a missing key reads as zero. */
  function Get(m: map<int, real>, k: int): real {
    if k in m then m[k] else 0.0
  }

  /**
   * `Object.values(m).reduce((s, v) => s + v, 0)`. Addition of reals does not
   * depend on the order, so the keys are taken smallest first.
   */
  function SumValues(m: map<int, real>): real
    decreases |m|
  {
    if |m| == 0 then 0.0
    else
      var k := Min(m.Keys);
      m[k] + SumValues(m - {k})
  }

  /** Any key can be taken out of the sum first: the sum does not depend on the enumeration order. */
  lemma {:induction false} SumValuesPick(m: map<int, real>, k: int)
    requires k in m
    ensures SumValues(m) == m[k] + SumValues(m - {k})
    decreases |m|
  {
    var j := Min(m.Keys);
    if j != k {
      var mj := m - {j};
      var mk := m - {k};
      assert k in mj && |mj| < |m|;
      SumValuesPick(mj, k);
      assert j in mk && (forall y :: y in mk.Keys ==> j <= y);
      assert Min(mk.Keys) == j;
      assert mj - {k} == mk - {j};
    }
  }

  /** Setting a key adds the difference to the sum. */
  lemma SumValuesUpdate(m: map<int, real>, k: int, v: real)
    ensures SumValues(m[k := v]) == SumValues(m) - Get(m, k) + v
  {
    var m' := m[k := v];
    SumValuesPick(m', k);
    assert m' - {k} == m - {k};
    if k in m {
      SumValuesPick(m, k);
    } else {
      assert m - {k} == m;
    }
  }
}
