/**
 * Order-preserving filtering of sequences, the one list primitive the store and
 * its views use besides element-wise mapping (`Array.prototype.filter`).
 */
module Seqs {

  /** `s.filter(p)`: the elements of `s` that satisfy `p`, in their original order. */
  function Filter<T(!new)>(s: seq<T>, p: T -> bool): (r: seq<T>)
    ensures |r| <= |s|
    ensures forall i :: 0 <= i < |r| ==> p(r[i])
  {
    if s == [] then []
    else
      assert s == [s[0]] + s[1..];
      (if p(s[0]) then [s[0]] else []) + Filter(s[1..], p)
  }

  /** An element survives filtering exactly when it occurs in the input and satisfies the predicate. */
  lemma {:induction false} FilterMembers<T(!new)>(s: seq<T>, p: T -> bool)
    ensures forall x :: x in Filter(s, p) <==> x in s && p(x)
  {
    if s != [] {
      FilterMembers(s[1..], p);
      assert s == [s[0]] + s[1..];
    }
  }

  /** Filtering keeps every copy of an element that satisfies the predicate and no copy of one that does not. */
  lemma {:induction false} FilterCounts<T(!new)>(s: seq<T>, p: T -> bool)
    ensures forall x :: multiset(Filter(s, p))[x] == if p(x) then multiset(s)[x] else 0
  {
    if s != [] {
      FilterCounts(s[1..], p);
      assert s == [s[0]] + s[1..];
      assert multiset(s) == multiset([s[0]]) + multiset(s[1..]);
      FilterCons(s[0], s[1..], p);
    }
  }

  /** The length of a filtered sequence grows by one for each element that satisfies the predicate. */
  lemma {:induction false} FilterLengthCons<T(!new)>(x: T, s: seq<T>, p: T -> bool)
    ensures |Filter([x] + s, p)| == (if p(x) then 1 else 0) + |Filter(s, p)|
  {
    FilterCons(x, s, p);
  }

  /** `r` can be obtained from `s` by deleting elements: its elements occur in `s` in the same order. */
  predicate IsSubsequence<T(==)>(r: seq<T>, s: seq<T>)
    decreases |s|
  {
    r == [] || (s != [] && if r[0] == s[0] then IsSubsequence(r[1..], s[1..]) else IsSubsequence(r, s[1..]))
  }

  /** Filtering keeps the relative order of the kept elements. */
  lemma {:induction false} FilterIsSubsequence<T(!new)>(s: seq<T>, p: T -> bool)
    ensures IsSubsequence(Filter(s, p), s)
  {
    if s != [] {
      FilterIsSubsequence(s[1..], p);
      var r := Filter(s, p);
      if p(s[0]) {
        assert r[0] == s[0] && r[1..] == Filter(s[1..], p);
      } else {
        assert r == Filter(s[1..], p);
        if r != [] {
          assert p(r[0]);
        }
      }
    }
  }

  /** Filtering distributes over concatenation, so each part keeps its place. */
  lemma {:induction false} FilterAppend<T(!new)>(a: seq<T>, b: seq<T>, p: T -> bool)
    ensures Filter(a + b, p) == Filter(a, p) + Filter(b, p)
  {
    if a == [] {
      assert a + b == b;
    } else {
      var head := if p(a[0]) then [a[0]] else [];
      calc {
        Filter(a + b, p);
        { assert a + b == [a[0]] + (a[1..] + b); }
        Filter([a[0]] + (a[1..] + b), p);
        { FilterCons(a[0], a[1..] + b, p); }
        head + Filter(a[1..] + b, p);
        { FilterAppend(a[1..], b, p); }
        head + (Filter(a[1..], p) + Filter(b, p));
        { assert a == [a[0]] + a[1..]; FilterCons(a[0], a[1..], p); }
        Filter(a, p) + Filter(b, p);
      }
    }
  }

  /** Filtering with a predicate every element satisfies changes nothing. */
  lemma {:induction false} FilterKeepsAll<T(!new)>(s: seq<T>, p: T -> bool)
    requires forall i :: 0 <= i < |s| ==> p(s[i])
    ensures Filter(s, p) == s
  {
    if s != [] {
      FilterKeepsAll(s[1..], p);
    }
  }

  /** Filtering out one rejected element between two fully kept parts just removes it. */
  lemma {:induction false} FilterSkipsOne<T(!new)>(a: seq<T>, x: T, b: seq<T>, p: T -> bool)
    requires forall i :: 0 <= i < |a| ==> p(a[i])
    requires forall i :: 0 <= i < |b| ==> p(b[i])
    requires !p(x)
    ensures Filter(a + [x] + b, p) == a + b
  {
    FilterAppend(a + [x], b, p);
    FilterAppend(a, [x], p);
    FilterKeepsAll(a, p);
    FilterKeepsAll(b, p);
    FilterOne(x, p);
  }

  lemma {:induction false} FilterOne<T(!new)>(x: T, p: T -> bool)
    ensures Filter([x], p) == if p(x) then [x] else []
  {
    assert [x][1..] == [];
  }

  /** No value occurs twice. */
  predicate NoDuplicates<T(==)>(s: seq<T>) {
    forall i, j :: 0 <= i < j < |s| ==> s[i] != s[j]
  }

  /** Splicing a value that occurs nowhere into a duplicate-free sequence keeps it duplicate-free. */
  lemma {:induction false} NoDuplicatesInsert<T>(a: seq<T>, x: T, b: seq<T>)
    requires NoDuplicates(a + b) && x !in a + b
    ensures NoDuplicates(a + [x] + b)
  {
    var s := a + [x] + b;
    forall i, j | 0 <= i < j < |s| ensures s[i] != s[j] {
      var i' := if i < |a| then i else i - 1;
      var j' := if j < |a| then j else j - 1;
      if i == |a| {
        assert s[j] == (a + b)[j'];
      } else if j == |a| {
        assert s[i] == (a + b)[i'];
      } else {
        assert s[i] == (a + b)[i'] && s[j] == (a + b)[j'];
      }
    }
  }

  /** One unfolding of `Filter` on a sequence given as head and tail. */
  lemma {:induction false} FilterCons<T(!new)>(x: T, s: seq<T>, p: T -> bool)
    ensures Filter([x] + s, p) == (if p(x) then [x] else []) + Filter(s, p)
  {
    assert ([x] + s)[1..] == s;
  }
}
