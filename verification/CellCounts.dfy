/** What the numbers of a cell count (internal/classify/classify.go, aggregate). */
module CellCounts {
  import opened Base
  import opened Evidence
  import opened Sorting
  import opened Cells

  /** The attempts of which p holds. */
  function Those(attempts: seq<Attempt>, p: Attempt -> bool): set<nat> {
    set i: nat | i < |attempts| && p(attempts[i])
  }

  lemma OneMore(attempts: seq<Attempt>, p: Attempt -> bool)
    requires attempts != []
    ensures var n := |attempts| - 1;
            |Those(attempts, p)| == |Those(attempts[..n], p)| + if p(attempts[n]) then 1 else 0
  {
    var n := |attempts| - 1;
    var init := attempts[..n];
    assert forall i: nat :: i < n ==> init[i] == attempts[i];
    assert n !in Those(init, p);
    assert Those(attempts, p) == Those(init, p) + if p(attempts[n]) then {n} else {};
  }

  /** An attempt that counts for a cell: it is the cell's, and neither an outage nor a stop took it out. */
  predicate In(a: Attempt, k: CellKey) {
    && a.testID == k.test && a.transport == k.transport && a.dstPort == k.port && a.variant == k.variant
    && Get(a.detail, Transient) != "true" && Get(a.detail, Cancelled) != "true"
  }

  /** One that measured something: no fault of either end, and nothing left open. */
  predicate Measures(a: Attempt) {
    && a.outcome !in {SERVER_ERROR, INCONCLUSIVE, SKIPPED} && a.merged !in {SERVER_ERROR, INCONCLUSIVE, SKIPPED}
    && LocalFailure(a) == ""
  }

  function All(attempts: seq<Attempt>, k: CellKey): nat { |Those(attempts, a => In(a, k))| }

  function Void(attempts: seq<Attempt>, k: CellKey): nat { |Those(attempts, a => In(a, k) && !Measures(a))| }

  function Passed(attempts: seq<Attempt>, k: CellKey): nat {
    |Those(attempts, a => In(a, k) && Measures(a) && a.outcome == OK)|
  }

  function Seen(attempts: seq<Attempt>, k: CellKey): nat { |Those(attempts, a => In(a, k) && a.server.Some?)| }

  function Ended(attempts: seq<Attempt>, k: CellKey, o: string): nat {
    |Those(attempts, a => In(a, k) && a.outcome == o)|
  }

  function Merged(attempts: seq<Attempt>, k: CellKey, m: string): nat {
    |Those(attempts, a => In(a, k) && a.merged == m)|
  }

  function Showed(attempts: seq<Attempt>, k: CellKey, m: string): nat {
    |Those(attempts, a => In(a, k) && Measures(a) && a.merged == m)|
  }

  /** The numbers of a cell are those of its attempts. */
  ghost predicate Numbers(attempts: seq<Attempt>, k: CellKey, c: Cell) {
    && c.key == k && c.total == All(attempts, k) && c.unmeasured == Void(attempts, k) && c.ok == Passed(attempts, k)
    && c.serverSaw == Seen(attempts, k)
  }

  /** So are its histograms. */
  ghost predicate Histograms(attempts: seq<Attempt>, k: CellKey, c: Cell) {
    && (forall o :: Count(c.outcomes, o) == Ended(attempts, k, o))
    && (forall m :: Count(c.merged, m) == Merged(attempts, k, m))
    && (forall m :: Count(c.measuredMerged, m) == Showed(attempts, k, m))
  }

  lemma InIs(a: Attempt, k: CellKey)
    ensures In(a, k) <==> Counts(a, k)
    ensures Measures(a) <==> !Unmeasured(a)
  {
    hide LocalFailure;
  }

  /** A cell is there exactly when an attempt counts for it. */
  lemma {:induction false} CellIff(attempts: seq<Attempt>, k: CellKey)
    ensures CellOf(attempts, k).Some? <==> exists i :: 0 <= i < |attempts| && In(attempts[i], k)
  {
    hide In, Counts, AddAttempt, Blank;
    if attempts != [] {
      var n := |attempts| - 1;
      CellIff(attempts[..n], k);
      InIs(attempts[n], k);
      if CellOf(attempts[..n], k).Some? {
        var i :| 0 <= i < n && In(attempts[..n][i], k);
        assert In(attempts[i], k);
      }
    }
  }

  lemma {:induction false} CellTells(attempts: seq<Attempt>, k: CellKey)
    requires CellOf(attempts, k).Some?
    ensures Numbers(attempts, k, CellOf(attempts, k).value) && Histograms(attempts, k, CellOf(attempts, k).value)
  {
    hide In, Counts, AddAttempt, Numbers, Histograms;
    var n := |attempts| - 1;
    var a := attempts[n];
    InIs(a, k);
    var before := CellOf(attempts[..n], k);
    if before.Some? {
      CellTells(attempts[..n], k);
      NumbersStep(attempts, k, before.value);
      HistogramsStep(attempts, k, before.value);
    } else {
      NoneYet(attempts[..n], k, a.role);
      NumbersStep(attempts, k, Blank(k, a.role));
      HistogramsStep(attempts, k, Blank(k, a.role));
    }
  }

  lemma NoneYet(attempts: seq<Attempt>, k: CellKey, role: Role)
    requires CellOf(attempts, k).None?
    ensures Numbers(attempts, k, Blank(k, role)) && Histograms(attempts, k, Blank(k, role))
  {
    hide In, Measures;
    CellIff(attempts, k);
    forall p: Attempt -> bool | forall a :: p(a) ==> In(a, k) ensures |Those(attempts, p)| == 0 {
      assert Those(attempts, p) == {};
    }
  }

  lemma NumbersStep(attempts: seq<Attempt>, k: CellKey, c: Cell)
    requires attempts != [] && Numbers(attempts[..|attempts| - 1], k, c)
    ensures var a := attempts[|attempts| - 1];
            Numbers(attempts, k, if In(a, k) then AddAttempt(c, a) else c)
  {
    hide In, Measures, Unmeasured, Those;
    InIs(attempts[|attempts| - 1], k);
    OneMore(attempts, a => In(a, k));
    OneMore(attempts, a => In(a, k) && !Measures(a));
    OneMore(attempts, a => In(a, k) && Measures(a) && a.outcome == OK);
    OneMore(attempts, a => In(a, k) && a.server.Some?);
  }

  lemma HistogramsStep(attempts: seq<Attempt>, k: CellKey, c: Cell)
    requires attempts != [] && Histograms(attempts[..|attempts| - 1], k, c)
    ensures var a := attempts[|attempts| - 1];
            Histograms(attempts, k, if In(a, k) then AddAttempt(c, a) else c)
  {
    hide In, Measures, Unmeasured, Ended, Merged, Showed;
    var a := attempts[|attempts| - 1];
    InIs(a, k);
    forall o ensures Ended(attempts, k, o) == Ended(attempts[..|attempts| - 1], k, o)
        + if In(a, k) && a.outcome == o then 1 else 0
    {
      EndedMore(attempts, k, o);
    }
    forall m
      ensures Merged(attempts, k, m)
           == Merged(attempts[..|attempts| - 1], k, m) + if In(a, k) && a.merged == m then 1 else 0
      ensures Showed(attempts, k, m)
           == Showed(attempts[..|attempts| - 1], k, m) + if In(a, k) && Measures(a) && a.merged == m then 1 else 0
    {
      EndedMore(attempts, k, m);
    }
  }

  lemma EndedMore(attempts: seq<Attempt>, k: CellKey, o: string)
    requires attempts != []
    ensures var init, a := attempts[..|attempts| - 1], attempts[|attempts| - 1];
            && Ended(attempts, k, o) == Ended(init, k, o) + (if In(a, k) && a.outcome == o then 1 else 0)
            && Merged(attempts, k, o) == Merged(init, k, o) + (if In(a, k) && a.merged == o then 1 else 0)
            && Showed(attempts, k, o) == Showed(init, k, o) + if In(a, k) && Measures(a) && a.merged == o then 1 else 0
  {
    hide In, Measures, Those;
    OneMore(attempts, a => In(a, k) && a.outcome == o);
    OneMore(attempts, a => In(a, k) && a.merged == o);
    OneMore(attempts, a => In(a, k) && Measures(a) && a.merged == o);
  }

  /** The cells of a scan are those of the keys some attempt counts for, each once. */
  lemma AggregatedAre(attempts: seq<Attempt>, c: Cell)
    ensures c in Aggregated(attempts) <==> CellOf(attempts, c.key) == Some(c)
  {
    hide CellOf, Keys;
    var ks := Keys(attempts);
    forall k ensures k in ks <==> CellOf(attempts, k).Some? { KeysHaveCells(attempts, k); }
    var cs := CellList(attempts, ks);
    SortContents(cs, KeyLe);
    assert c in multiset(Aggregated(attempts)) <==> c in multiset(cs);
    if c in cs {
      var i :| 0 <= i < |cs| && cs[i] == c;
      KeysHaveCells(attempts, ks[i]);
    }
    if CellOf(attempts, c.key) == Some(c) {
      var i :| 0 <= i < |ks| && ks[i] == c.key;
      assert cs[i] == c;
    }
  }

  /** No measured attempt of the cell passed. */
  ghost predicate AllLost(attempts: seq<Attempt>, k: CellKey) {
    forall i :: 0 <= i < |attempts| && In(attempts[i], k) && Measures(attempts[i]) ==> attempts[i].outcome != OK
  }

  /** The role of a cell is that of the first attempt that counts for it. */
  lemma {:induction false} RoleIs(attempts: seq<Attempt>, k: CellKey)
    requires CellOf(attempts, k).Some?
    ensures exists i :: 0 <= i < |attempts| && In(attempts[i], k) && CellOf(attempts, k).value.role == attempts[i].role
              && forall j :: 0 <= j < i ==> !In(attempts[j], k)
  {
    hide In, Counts, Unmeasured;
    var n := |attempts| - 1;
    var init := attempts[..n];
    InIs(attempts[n], k);
    if CellOf(init, k).Some? {
      RoleIs(init, k);
      var i :| 0 <= i < n && In(init[i], k) && CellOf(init, k).value.role == init[i].role
               && forall j :: 0 <= j < i ==> !In(init[j], k);
      assert In(attempts[i], k) && forall j :: 0 <= j < i ==> init[j] == attempts[j];
    } else {
      CellIff(init, k);
      assert forall j :: 0 <= j < n ==> init[j] == attempts[j];
      assert In(attempts[n], k);
    }
  }

  /** A cell passes exactly when more than half of its measured attempts did, and fails
      exactly when there are some and none did. */
  lemma PassIff(attempts: seq<Attempt>, c: Cell)
    requires c in Aggregated(attempts)
    ensures Measured(c) == All(attempts, c.key) - Void(attempts, c.key)
    ensures Pass(c) <==> 2 * Passed(attempts, c.key) > Measured(c) > 0
    ensures Fail(c) <==> Measured(c) > 0 && AllLost(attempts, c.key)
  {
    hide In, Measures, Aggregated, CellOf, All, Void;
    AggregatedAre(attempts, c);
    CellTells(attempts, c.key);
    NonePassed(attempts, c.key);
  }

  lemma NonePassed(attempts: seq<Attempt>, k: CellKey)
    ensures Passed(attempts, k) == 0 <==> AllLost(attempts, k)
  {
    hide In, Measures;
    var p := a => In(a, k) && Measures(a) && a.outcome == OK;
    if Passed(attempts, k) == 0 {
      assert Those(attempts, p) == {};
      forall i | 0 <= i < |attempts| && In(attempts[i], k) && Measures(attempts[i]) ensures attempts[i].outcome != OK {
        assert i !in Those(attempts, p);
      }
    } else {
      var i :| i in Those(attempts, p);
    }
  }
}
