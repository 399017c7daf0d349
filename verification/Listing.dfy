/** Walking a set in any order and sorting what was collected: the order of the
    walk leaves no trace. */
module Listing {
  import opened Sorting

  /** The members of s, each once. */
  ghost predicate Lists<T(!new)>(l: seq<T>, s: set<T>) {
    (forall x :: x in l <==> x in s) && forall i, j :: 0 <= i < j < |l| ==> l[i] != l[j]
  }

  /** Some listing of a set. */
  ghost function Listed<T(!new)>(s: set<T>): seq<T> {
    if s == {} then [] else
      var x :| x in s;
      Listed(s - {x}) + [x]
  }

  lemma {:induction false} ListedLists<T(!new)>(s: set<T>)
    ensures Lists(Listed(s), s)
  {
    if s != {} {
      var l := Listed(s);
      var x := l[|l| - 1];
      assert l == Listed(s - {x}) + [x] && x in s;
      ListedLists(s - {x});
    }
  }

  lemma {:induction false} ListsOnce<T(!new)>(l: seq<T>, x: T)
    requires forall i, j :: 0 <= i < j < |l| ==> l[i] != l[j]
    ensures multiset(l)[x] == if x in l then 1 else 0
  {
    if l != [] {
      ListsOnce(l[..|l| - 1], x);
      assert l == l[..|l| - 1] + [l[|l| - 1]];
    }
  }

  lemma ListsAgree<T(!new)>(l: seq<T>, k: seq<T>, s: set<T>)
    requires Lists(l, s) && Lists(k, s)
    ensures multiset(l) == multiset(k) && |l| == |k|
  {
    forall x ensures multiset(l)[x] == multiset(k)[x] {
      ListsOnce(l, x);
      ListsOnce(k, x);
    }
    assert |multiset(l)| == |l| && |multiset(k)| == |k|;
  }

  /** The members of s in order. */
  ghost function InOrder<T(!new)>(s: set<T>, le: (T, T) -> bool): seq<T> { StableSort(Listed(s), le) }

  ghost predicate Order<T(!new)>(le: (T, T) -> bool) {
    TotalPreorder(le) && forall x, y :: Equiv(x, y, le) ==> x == y
  }

  /** Whatever the listing, sorting it gives the same list. */
  lemma {:induction false} SortsTo<T(!new)>(l: seq<T>, s: set<T>, le: (T, T) -> bool)
    requires Lists(l, s) && Order(le)
    ensures StableSort(l, le) == InOrder(s, le)
  {
    ListedLists(s);
    ListsAgree(l, Listed(s), s);
    SortPermutation(l, Listed(s), le);
  }

  /** Collects a set in the order it happens to be walked in. */
  method Walk<T(==, !new)>(s: set<T>) returns (l: seq<T>)
    ensures Lists(l, s)
  {
    l := [];
    var todo := s;
    while todo != {}
      invariant todo <= s && Lists(l, s - todo)
      decreases todo
    {
      var x :| x in todo;
      l := l + [x];
      todo := todo - {x};
    }
  }
}
