/** Stable sorting, as Go's sort.SliceStable does it: the only order that is
    sorted and keeps equivalent elements in the order they came in. */
module Sorting {

  ghost predicate TotalPreorder<T(!new)>(le: (T, T) -> bool) {
    && (forall x, y :: le(x, y) || le(y, x))
    && (forall x, y, z :: le(x, y) && le(y, z) ==> le(x, z))
  }

  ghost predicate Sorted<T>(s: seq<T>, le: (T, T) -> bool) {
    forall i, j :: 0 <= i < j < |s| ==> le(s[i], s[j])
  }

  predicate Equiv<T>(x: T, y: T, le: (T, T) -> bool) {
    le(x, y) && le(y, x)
  }

  /** Puts x behind every element that may stand before it. */
  function Insert<T>(t: seq<T>, x: T, le: (T, T) -> bool): seq<T> {
    if t == [] || le(t[|t| - 1], x) then t + [x]
    else Insert(t[..|t| - 1], x, le) + [t[|t| - 1]]
  }

  function StableSort<T>(s: seq<T>, le: (T, T) -> bool): seq<T> {
    if s == [] then [] else Insert(StableSort(s[..|s| - 1], le), s[|s| - 1], le)
  }

  /** The members of s equivalent to x, in order. */
  function Class<T>(s: seq<T>, x: T, le: (T, T) -> bool): seq<T> {
    if s == [] then []
    else Class(s[..|s| - 1], x, le) + (if Equiv(x, s[|s| - 1], le) then [s[|s| - 1]] else [])
  }

  /** Two lists hold the same classes, each in the same order. */
  ghost predicate SameClasses<T(!new)>(a: seq<T>, b: seq<T>, le: (T, T) -> bool) {
    forall x :: Class(a, x, le) == Class(b, x, le)
  }

  lemma {:induction false} ClassAppend<T>(a: seq<T>, b: seq<T>, x: T, le: (T, T) -> bool)
    ensures Class(a + b, x, le) == Class(a, x, le) + Class(b, x, le)
  {
    if b == [] {
      assert a + b == a;
    } else {
      ClassAppend(a, b[..|b| - 1], x, le);
      assert (a + b)[..|a + b| - 1] == a + b[..|b| - 1];
    }
  }

  lemma {:induction false} ClassMembers<T>(s: seq<T>, x: T, le: (T, T) -> bool)
    ensures forall y :: y in Class(s, x, le) <==> y in s && Equiv(x, y, le)
  {
    if s != [] {
      ClassMembers(s[..|s| - 1], x, le);
      assert s == s[..|s| - 1] + [s[|s| - 1]];
    }
  }

  lemma {:induction false} InsertContents<T>(t: seq<T>, x: T, le: (T, T) -> bool)
    ensures multiset(Insert(t, x, le)) == multiset(t) + multiset{x}
  {
    if t != [] && !le(t[|t| - 1], x) {
      InsertContents(t[..|t| - 1], x, le);
      assert t == t[..|t| - 1] + [t[|t| - 1]];
    }
  }

  lemma {:induction false} InsertSorted<T(!new)>(t: seq<T>, x: T, le: (T, T) -> bool)
    requires TotalPreorder(le) && Sorted(t, le)
    ensures Sorted(Insert(t, x, le), le)
  {
    if t != [] && !le(t[|t| - 1], x) {
      var l := t[|t| - 1];
      var u := Insert(t[..|t| - 1], x, le);
      InsertSorted(t[..|t| - 1], x, le);
      InsertContents(t[..|t| - 1], x, le);
      forall i | 0 <= i < |u|
        ensures le(u[i], l)
      {
        assert u[i] in multiset(u);
        assert u[i] == x || u[i] in t[..|t| - 1];
      }
    } else if t != [] {
      forall i | 0 <= i < |t|
        ensures le(t[i], x)
      {
        assert i == |t| - 1 || le(t[i], t[|t| - 1]);
      }
    }
  }

  lemma ClassOne<T>(x: T, y: T, le: (T, T) -> bool)
    ensures Class([x], y, le) == if Equiv(y, x, le) then [x] else []
  {
    assert [x][..0] == [];
  }

  lemma {:induction false} InsertClass<T(!new)>(t: seq<T>, x: T, y: T, le: (T, T) -> bool)
    requires TotalPreorder(le) && Sorted(t, le)
    ensures Class(Insert(t, x, le), y, le) == Class(t + [x], y, le)
  {
    if t != [] && !le(t[|t| - 1], x) {
      var p, l := t[..|t| - 1], t[|t| - 1];
      calc {
        Class(Insert(t, x, le), y, le);
        { ClassAppend(Insert(p, x, le), [l], y, le); InsertClass(p, x, y, le); }
        Class(p + [x], y, le) + Class([l], y, le);
        { ClassAppend(p, [x], y, le); }
        Class(p, y, le) + Class([x], y, le) + Class([l], y, le);
        { OneOfTwo(x, l, y, le); }
        Class(p, y, le) + Class([l], y, le) + Class([x], y, le);
        { ClassAppend(p, [l], y, le); assert p + [l] == t; ClassAppend(t, [x], y, le); }
        Class(t + [x], y, le);
      }
    }
  }

  /** Elements that are not equivalent never share a class. */
  lemma OneOfTwo<T(!new)>(x: T, l: T, y: T, le: (T, T) -> bool)
    requires TotalPreorder(le) && !le(l, x)
    ensures Class([x], y, le) == [] || Class([l], y, le) == []
  {
    ClassOne(x, y, le);
    ClassOne(l, y, le);
  }

  lemma SortClass<T(!new)>(p: seq<T>, l: T, x: T, le: (T, T) -> bool)
    requires TotalPreorder(le) && Sorted(StableSort(p, le), le)
    requires Class(StableSort(p, le), x, le) == Class(p, x, le)
    ensures Class(Insert(StableSort(p, le), l, le), x, le) == Class(p + [l], x, le)
  {
    InsertClass(StableSort(p, le), l, x, le);
    ClassAppend(StableSort(p, le), [l], x, le);
    ClassAppend(p, [l], x, le);
  }

  lemma {:induction false} SortContents<T>(s: seq<T>, le: (T, T) -> bool)
    ensures multiset(StableSort(s, le)) == multiset(s)
  {
    if s != [] {
      SortContents(s[..|s| - 1], le);
      InsertContents(StableSort(s[..|s| - 1], le), s[|s| - 1], le);
      assert s == s[..|s| - 1] + [s[|s| - 1]];
    }
  }

  lemma {:induction false} SortSorted<T(!new)>(s: seq<T>, le: (T, T) -> bool)
    requires TotalPreorder(le)
    ensures Sorted(StableSort(s, le), le)
  {
    if s != [] {
      SortSorted(s[..|s| - 1], le);
      InsertSorted(StableSort(s[..|s| - 1], le), s[|s| - 1], le);
    }
  }

  lemma {:induction false} SortClasses<T(!new)>(s: seq<T>, x: T, le: (T, T) -> bool)
    requires TotalPreorder(le)
    ensures Class(StableSort(s, le), x, le) == Class(s, x, le)
  {
    if s != [] {
      var p, l := s[..|s| - 1], s[|s| - 1];
      SortClasses(p, x, le);
      SortSorted(p, le);
      SortClass(p, l, x, le);
      assert s == p + [l];
    }
  }

  /** What a stable sort promises: sorted, the same elements, and equivalent
      elements in the order they came in. */
  lemma SortSpec<T(!new)>(s: seq<T>, le: (T, T) -> bool)
    requires TotalPreorder(le)
    ensures Sorted(StableSort(s, le), le)
    ensures multiset(StableSort(s, le)) == multiset(s)
    ensures SameClasses(StableSort(s, le), s, le)
  {
    SortSorted(s, le);
    SortContents(s, le);
    forall x
      ensures Class(StableSort(s, le), x, le) == Class(s, x, le)
    {
      SortClasses(s, x, le);
    }
  }

  /** Sorted order and the order inside every class leave no freedom. */
  lemma {:induction false} SortedUnique<T(!new)>(a: seq<T>, b: seq<T>, le: (T, T) -> bool)
    requires TotalPreorder(le)
    requires Sorted(a, le) && Sorted(b, le)
    requires SameClasses(a, b, le)
    ensures a == b
    decreases |a|
  {
    SameMembers(a, b, le);
    SameMembers(b, a, le);
    if a != [] && b != [] {
      var x, a', b' := a[|a| - 1], a[..|a| - 1], b[..|b| - 1];
      LastAgree(a, b, le);
      assert a == a' + [x] && b == b' + [x];
      forall z
        ensures Class(a', z, le) == Class(b', z, le)
      {
        CancelLast(a', b', x, z, le);
      }
      SortedUnique(a', b', le);
    }
  }

  lemma CancelLast<T(!new)>(a: seq<T>, b: seq<T>, x: T, z: T, le: (T, T) -> bool)
    requires Class(a + [x], z, le) == Class(b + [x], z, le)
    ensures Class(a, z, le) == Class(b, z, le)
  {
    ClassAppend(a, [x], z, le);
    ClassAppend(b, [x], z, le);
    var ca, cb, c := Class(a, z, le), Class(b, z, le), Class([x], z, le);
    assert ca == (ca + c)[..|ca|] && cb == (cb + c)[..|cb|];
  }

  lemma SameMembers<T(!new)>(a: seq<T>, b: seq<T>, le: (T, T) -> bool)
    requires TotalPreorder(le)
    requires SameClasses(a, b, le)
    ensures forall x :: x in a ==> x in b
    ensures a != [] ==> b != []
  {
    forall x | x in a
      ensures x in b
    {
      ClassMembers(a, x, le);
      ClassMembers(b, x, le);
    }
    assert a != [] ==> a[0] in a;
  }

  lemma ClassEnd<T>(s: seq<T>, x: T, le: (T, T) -> bool)
    requires s != [] && Equiv(x, s[|s| - 1], le)
    ensures Class(s, x, le) != [] && Class(s, x, le)[|Class(s, x, le)| - 1] == s[|s| - 1]
  {
  }

  lemma LastAgree<T(!new)>(a: seq<T>, b: seq<T>, le: (T, T) -> bool)
    requires TotalPreorder(le)
    requires Sorted(a, le) && Sorted(b, le) && a != [] && b != []
    requires SameClasses(a, b, le)
    ensures a[|a| - 1] == b[|b| - 1]
  {
    var x, y := a[|a| - 1], b[|b| - 1];
    assert Equiv(x, y, le) && Equiv(x, x, le) by {
      LastIsGreatest(a, le);
      LastIsGreatest(b, le);
      SameMembers(a, b, le);
      SameMembers(b, a, le);
      assert x in a && y in b;
      assert x in b && y in a;
      assert le(x, x);
    }
    ClassEnd(a, x, le);
    ClassEnd(b, x, le);
  }

  lemma LastIsGreatest<T(!new)>(s: seq<T>, le: (T, T) -> bool)
    requires TotalPreorder(le) && Sorted(s, le) && s != []
    ensures forall y :: y in s ==> le(y, s[|s| - 1])
  {
    forall y | y in s
      ensures le(y, s[|s| - 1])
    {
      var i :| 0 <= i < |s| && s[i] == y;
      assert le(y, y);
    }
  }

  /** Two lists whose classes agree sort to the same sequence. */
  lemma SortAgree<T(!new)>(a: seq<T>, b: seq<T>, le: (T, T) -> bool)
    requires TotalPreorder(le)
    requires SameClasses(a, b, le)
    ensures StableSort(a, le) == StableSort(b, le)
  {
    SortSpec(a, le);
    SortSpec(b, le);
    SortedUnique(StableSort(a, le), StableSort(b, le), le);
  }

  /** Under an antisymmetric order the order of the input does not matter. */
  lemma {:induction false} SortPermutation<T(!new)>(a: seq<T>, b: seq<T>, le: (T, T) -> bool)
    requires TotalPreorder(le)
    requires multiset(a) == multiset(b)
    requires forall x, y :: x in a && y in a && Equiv(x, y, le) ==> x == y
    ensures StableSort(a, le) == StableSort(b, le)
  {
    forall x
      ensures Class(a, x, le) == Class(b, x, le)
    {
      assert forall y :: y in a <==> y in multiset(a);
      assert forall y :: y in b <==> y in multiset(b);
      ClassCopies(a, x, le);
      ClassCopies(b, x, le);
    }
    SortAgree(a, b, le);
  }

  /** When equivalent members are equal, a class is copies of one element, as
      many as the multiset holds. */
  lemma {:induction false} ClassCopies<T(!new)>(s: seq<T>, x: T, le: (T, T) -> bool)
    requires TotalPreorder(le)
    requires forall u, v :: u in s && v in s && Equiv(u, v, le) ==> u == v
    ensures forall y :: y in s && Equiv(x, y, le) ==> Class(s, x, le) == seq(multiset(s)[y], _ => y)
    ensures (forall y :: y in s ==> !Equiv(x, y, le)) ==> Class(s, x, le) == []
  {
    if s != [] {
      var p, l := s[..|s| - 1], s[|s| - 1];
      assert s == p + [l];
      ClassCopies(p, x, le);
      forall y | y in s && Equiv(x, y, le)
        ensures Class(s, x, le) == seq(multiset(s)[y], _ => y)
      {
        if Equiv(x, l, le) {
          assert Equiv(y, l, le);
          assert y == l;
          if l !in p {
            forall z | z in p
              ensures !Equiv(x, z, le)
            {
              assert Equiv(x, z, le) ==> Equiv(z, l, le);
            }
          }
        }
      }
    }
  }
}
