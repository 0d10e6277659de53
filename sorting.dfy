/** Python's `list.sort(key=k, reverse=True)`: the elements in order of non-increasing
    key. `geq(x, y)` says that x's key is at least y's; it has to be a total preorder,
    as Python's `<` on ints and on strs is. */
module Sorting {

  ghost predicate TotalPreorder<T(!new)>(geq: (T, T) -> bool) {
    && (forall x, y :: geq(x, y) || geq(y, x))
    && (forall x, y, z :: geq(x, y) && geq(y, z) ==> geq(x, z))
  }

  ghost predicate SortedDesc<T>(s: seq<T>, geq: (T, T) -> bool) {
    forall i, j :: 0 <= i < j < |s| ==> geq(s[i], s[j])
  }

  /** Puts x after the longest prefix of s whose elements are all at least x. */
  function Insert<T>(s: seq<T>, x: T, geq: (T, T) -> bool): (r: seq<T>)
    ensures multiset(r) == multiset(s) + multiset{x}
  {
    if s == [] then [x]
    else if geq(s[0], x) then
      assert s == [s[0]] + s[1..];
      [s[0]] + Insert(s[1..], x, geq)
    else [x] + s
  }

  function SortDesc<T>(s: seq<T>, geq: (T, T) -> bool): (r: seq<T>)
    ensures multiset(r) == multiset(s)
  {
    if s == [] then []
    else
      assert s == s[..|s| - 1] + [s[|s| - 1]];
      Insert(SortDesc(s[..|s| - 1], geq), s[|s| - 1], geq)
  }

  lemma {:induction false} InsertSorted<T(!new)>(s: seq<T>, x: T, geq: (T, T) -> bool)
    requires TotalPreorder(geq) && SortedDesc(s, geq)
    ensures SortedDesc(Insert(s, x, geq), geq)
  {
    if s != [] && geq(s[0], x) {
      InsertSorted(s[1..], x, geq);
      var r := Insert(s, x, geq);
      var t := Insert(s[1..], x, geq);
      assert r == [s[0]] + t;
      forall j | 0 < j < |r| ensures geq(r[0], r[j]) {
        assert r[j] in multiset(t);
        assert r[j] in multiset(s[1..]) + multiset{x};
        if r[j] != x {
          assert r[j] in s[1..];
        }
      }
    }
  }

  /** The result of SortDesc is ordered by non-increasing key. */
  lemma {:induction false} SortDescSorted<T(!new)>(s: seq<T>, geq: (T, T) -> bool)
    requires TotalPreorder(geq)
    ensures SortedDesc(SortDesc(s, geq), geq)
    ensures |SortDesc(s, geq)| == |s|
  {
    if s != [] {
      SortDescSorted(s[..|s| - 1], geq);
      InsertSorted(SortDesc(s[..|s| - 1], geq), s[|s| - 1], geq);
    }
    assert |multiset(SortDesc(s, geq))| == |multiset(s)|;
  }
  /** Lists the elements of a set once each, in an order the caller cannot rely on (as a
      query's rows come back before any ORDER BY). */
  method Enumerate<T>(s: set<T>) returns (r: seq<T>)
    ensures multiset(r) == multiset(s)
    ensures forall x :: x in r <==> x in s
    ensures forall i, j :: 0 <= i < j < |r| ==> r[i] != r[j]
  {
    var pending := s;
    r := [];
    while pending != {}
      invariant multiset(r) + multiset(pending) == multiset(s)
      invariant pending <= s
      invariant forall x :: x in r <==> x in s - pending
      invariant forall i, j :: 0 <= i < j < |r| ==> r[i] != r[j]
      decreases |pending|
    {
      var x :| x in pending;
      assert multiset(pending) == multiset(pending - {x}) + multiset{x};
      assert x !in r;
      r := r + [x];
      pending := pending - {x};
    }
  }

  /** A subset has no more elements than the set. */
  lemma {:induction false} SubsetCard<T>(a: set<T>, b: set<T>)
    requires a <= b
    ensures |a| <= |b|
    decreases |b|
  {
    if a != {} {
      var x :| x in a;
      SubsetCard(a - {x}, b - {x});
    }
  }
}
