/** Cells (internal/classify/classify.go): the attempts that share test,
    transport, port and variant, counted together, and what a cell shows. */
module Cells {
  import opened Base
  import opened Text
  import opened Evidence
  import opened Sorting

  datatype CellKey = CellKey(test: string, transport: string, port: int, variant: string)

  type Histogram = map<string, nat>

  datatype Cell = Cell(
    key: CellKey, role: Role, total: nat, ok: nat, outcomes: Histogram, merged: Histogram,
    serverSaw: nat, unmeasured: nat, measuredMerged: Histogram)

  function KeyOf(a: Attempt): CellKey { CellKey(a.testID, a.transport, a.dstPort, a.variant) }

  function PortText(transport: string, port: int): string { transport + "/" + Itoa(port) }

  function FamilyText(test: string, transport: string, port: int): string { test + " " + PortText(transport, port) }

  /** How subjects and evidence spell a cell. */
  function KeyText(k: CellKey): string { FamilyText(k.test, k.transport, k.port) + " " + k.variant }

  // ---- what counts ----

  predicate Nothing(s: string) { s == SERVER_ERROR || s == INCONCLUSIVE || s == SKIPPED }

  /** An attempt that is no evidence either way. */
  predicate Unmeasured(a: Attempt) { Nothing(a.outcome) || Nothing(a.merged) || LocalFailure(a) != "" }

  predicate LeftOut(a: Attempt) { Get(a.detail, Transient) == "true" || Get(a.detail, Cancelled) == "true" }

  predicate Counts(a: Attempt, k: CellKey) { !LeftOut(a) && KeyOf(a) == k }

  function Count(h: Histogram, s: string): nat { if s in h then h[s] else 0 }

  function Tick(h: Histogram, s: string): Histogram { h[s := Count(h, s) + 1] }

  function Blank(k: CellKey, role: Role): Cell { Cell(k, role, 0, 0, map[], map[], 0, 0, map[]) }

  function AddAttempt(c: Cell, a: Attempt): Cell {
    c.(total := c.total + 1, outcomes := Tick(c.outcomes, a.outcome), merged := Tick(c.merged, a.merged),
       unmeasured := c.unmeasured + if Unmeasured(a) then 1 else 0,
       ok := c.ok + if !Unmeasured(a) && a.outcome == OK then 1 else 0,
       measuredMerged := if Unmeasured(a) then c.measuredMerged else Tick(c.measuredMerged, a.merged),
       serverSaw := c.serverSaw + if a.server.Some? then 1 else 0)
  }

  /** The cell of a key, if an attempt counts for it. */
  function CellOf(attempts: seq<Attempt>, k: CellKey): Option<Cell> {
    if attempts == [] then None
    else
      var a := attempts[|attempts| - 1];
      var before := CellOf(attempts[..|attempts| - 1], k);
      if !Counts(a, k) then before
      else Some(AddAttempt(if before.Some? then before.value else Blank(k, a.role), a))
  }

  /** The keys of the cells, in order of first appearance. */
  function Keys(attempts: seq<Attempt>): seq<CellKey> {
    if attempts == [] then []
    else
      var a := attempts[|attempts| - 1];
      var ks := Keys(attempts[..|attempts| - 1]);
      if LeftOut(a) || KeyOf(a) in ks then ks else ks + [KeyOf(a)]
  }

  lemma {:induction false} KeysHaveCells(attempts: seq<Attempt>, k: CellKey)
    ensures k in Keys(attempts) <==> CellOf(attempts, k).Some?
    ensures CellOf(attempts, k).Some? ==> CellOf(attempts, k).value.key == k
  {
    if attempts != [] { KeysHaveCells(attempts[..|attempts| - 1], k); }
  }

  lemma {:induction false} KeysDistinct(attempts: seq<Attempt>)
    ensures forall i, j :: 0 <= i < j < |Keys(attempts)| ==> Keys(attempts)[i] != Keys(attempts)[j]
  {
    if attempts != [] { KeysDistinct(attempts[..|attempts| - 1]); }
  }

  predicate KeyLe(a: Cell, b: Cell) { StringLe(KeyText(a.key), KeyText(b.key)) }

  function CellList(attempts: seq<Attempt>, ks: seq<CellKey>): (cs: seq<Cell>)
    requires forall k :: k in ks ==> CellOf(attempts, k).Some?
    ensures |cs| == |ks| && forall i :: 0 <= i < |ks| ==> cs[i] == CellOf(attempts, ks[i]).value
  {
    seq(|ks|, i requires 0 <= i < |ks| => CellOf(attempts, ks[i]).value)
  }

  /** The cells of a scan, in the order of their texts. */
  function Aggregated(attempts: seq<Attempt>): seq<Cell> {
    var ks := Keys(attempts);
    assert forall k :: k in ks ==> CellOf(attempts, k).Some? by {
      forall k | k in ks ensures CellOf(attempts, k).Some? { KeysHaveCells(attempts, k); }
    }
    StableSort(CellList(attempts, ks), KeyLe)
  }

  // ---- passing and failing ----

  function Measured(c: Cell): int { c.total - c.unmeasured }

  predicate Pass(c: Cell) { Measured(c) > 0 && c.ok * 2 > Measured(c) }

  predicate Fail(c: Cell) { Measured(c) > 0 && c.ok == 0 }

  datatype Confidence = High | Medium | Low

  const HIGH_MIN: nat := 3
  const MEDIUM_MIN: nat := 2
  const MEDIUM_SHARE: nat := 3

  /** How sure a differential is: a cell that failed against the control that passed. */
  function Strength(failed: Cell, passed: Cell): (r: Confidence)
    ensures r == High ==>
              Measured(failed) >= 3 && Fail(failed) && Measured(passed) >= 3 && Pass(passed)
              && passed.ok == Measured(passed)
    ensures r == Medium ==> Measured(failed) >= 2 && Pass(passed) && !Pass(failed)
  {
    var f, p := Measured(failed), Measured(passed);
    if f >= HIGH_MIN && failed.ok == 0 && p >= HIGH_MIN && passed.ok == p then High
    else if f >= MEDIUM_MIN && failed.ok * MEDIUM_SHARE <= f && Pass(passed) then Medium
    else Low
  }

  // ---- the commonest result ----

  /** The histogram a cell shows: of its measured attempts, else of all. */
  function Shown(c: Cell): Histogram {
    if Measured(c) == 0 || c.measuredMerged == map[] then c.merged else c.measuredMerged
  }

  /** k is the commonest result of h; of equally common ones the first by name. */
  predicate Commonest(h: Histogram, k: string) {
    if h == map[] then k == ""
    else k in h && forall l :: l in h ==> h[l] < h[k] || (h[l] == h[k] && StringLe(k, l))
  }

  lemma CommonestUnique(h: Histogram, k: string, l: string)
    requires Commonest(h, k) && Commonest(h, l)
    ensures k == l
  {
    if h != map[] { StringLeTotal(k, l); }
  }

  /** Walking the histogram in any order finds the commonest result. */
  method FindDominant(h: Histogram) returns (best: string)
    ensures Commonest(h, best)
  {
    best := "";
    var n := -1;
    var todo := h.Keys;
    while todo != {}
      invariant todo <= h.Keys
      invariant todo == h.Keys ==> n == -1 && best == ""
      invariant todo != h.Keys ==> best in h && n == h[best]
      invariant forall l :: l in h.Keys - todo ==> h[l] < n || (h[l] == n && StringLe(best, l))
      decreases todo
    {
      var k :| k in todo;
      ghost var was := best;
      StringLeTotal(k, best);
      StringLeTotal(k, k);
      if h[k] > n || (h[k] == n && StringLe(k, best) && k != best) {
        forall l | l in h.Keys - todo ensures h[l] < h[k] || (h[l] == h[k] && StringLe(k, l)) {
          if h[l] == h[k] { StringLeTransitive(k, was, l); }
        }
        best, n := k, h[k];
      }
      todo := todo - {k};
    }
  }

  lemma {:induction false} SomeCommonest(ks: set<string>, h: Histogram) returns (best: string)
    requires ks != {} && ks <= h.Keys
    ensures best in ks && forall l :: l in ks ==> h[l] < h[best] || (h[l] == h[best] && StringLe(best, l))
  {
    var k :| k in ks;
    if ks == {k} {
      best := k;
      StringLeTotal(k, k);
    } else {
      var b := SomeCommonest(ks - {k}, h);
      StringLeTotal(k, b);
      best := if h[k] > h[b] || (h[k] == h[b] && StringLe(k, b)) then k else b;
      StringLeTotal(best, best);
      forall l | l in ks ensures h[l] < h[best] || (h[l] == h[best] && StringLe(best, l)) {
        if l != k && h[l] == h[b] && best == k && h[k] == h[b] { StringLeTransitive(k, b, l); }
      }
    }
  }

  lemma CommonestExists(h: Histogram)
    ensures exists k :: Commonest(h, k)
  {
    if h == map[] {
      assert Commonest(h, "");
    } else {
      var k := SomeCommonest(h.Keys, h);
      assert Commonest(h, k);
    }
  }

  /** The commonest merged result of a cell. */
  function Dominant(c: Cell): (k: string)
    ensures Commonest(Shown(c), k)
  {
    var h := Shown(c);
    CommonestExists(h);
    if h == map[] then ""
    else
      assert forall k, l :: Commonest(h, k) && Commonest(h, l) ==> k == l by {
        forall k, l | Commonest(h, k) && Commonest(h, l) ensures k == l { CommonestUnique(h, k, l); }
      }
      var k :| k in h && Commonest(h, k);
      k
  }

  // ---- building the cells ----

  /** Different cells are spelled differently. */
  ghost predicate WellKeyed(ks: set<CellKey>) {
    forall k, l :: k in ks && l in ks && KeyText(k) == KeyText(l) ==> k == l
  }

  /** So they are when test ids hold no blank and transports neither blank nor slash. */
  lemma PlainNamesAreWellKeyed(k: CellKey, l: CellKey)
    requires Free(k.test, ' ') && Free(l.test, ' ') && Free(k.transport, ' ') && Free(l.transport, ' ')
    requires Free(k.transport, '/') && Free(l.transport, '/')
    requires KeyText(k) == KeyText(l)
    ensures k == l
  {
    hide Itoa;
    var pk, pl := PortText(k.transport, k.port), PortText(l.transport, l.port);
    assert KeyText(k) == k.test + [' '] + (pk + " " + k.variant);
    assert KeyText(l) == l.test + [' '] + (pl + " " + l.variant);
    JoinInjective(k.test, pk + " " + k.variant, l.test, pl + " " + l.variant, ' ');
    PortHasNoBlank(k.transport, k.port);
    PortHasNoBlank(l.transport, l.port);
    JoinInjective(pk, k.variant, pl, l.variant, ' ');
    JoinInjective(k.transport, Itoa(k.port), l.transport, Itoa(l.port), '/');
    ItoaRoundTrip(k.port);
    ItoaRoundTrip(l.port);
  }

  /** Attempts of different cells are spelled differently. */
  ghost predicate Plain(attempts: seq<Attempt>) {
    forall i, j ::
      0 <= i < |attempts| && 0 <= j < |attempts| && KeyText(KeyOf(attempts[i])) == KeyText(KeyOf(attempts[j])) ==>
      KeyOf(attempts[i]) == KeyOf(attempts[j])
  }

  /** Test ids without blanks, transports with neither blanks nor slashes. */
  predicate PlainNames(attempts: seq<Attempt>) {
    forall i :: 0 <= i < |attempts| ==>
      Free(attempts[i].testID, ' ') && Free(attempts[i].transport, ' ') && Free(attempts[i].transport, '/')
  }

  lemma PlainScan(attempts: seq<Attempt>)
    requires PlainNames(attempts)
    ensures Plain(attempts)
  {
    hide KeyText;
    forall i, j | 0 <= i < |attempts| && 0 <= j < |attempts|
        && KeyText(KeyOf(attempts[i])) == KeyText(KeyOf(attempts[j]))
      ensures KeyOf(attempts[i]) == KeyOf(attempts[j])
    {
      PlainNamesAreWellKeyed(KeyOf(attempts[i]), KeyOf(attempts[j]));
    }
  }

  lemma {:induction false} KeysComeFrom(attempts: seq<Attempt>, k: CellKey)
    requires k in Keys(attempts)
    ensures exists i :: 0 <= i < |attempts| && KeyOf(attempts[i]) == k
  {
    var n := |attempts| - 1;
    if k in Keys(attempts[..n]) {
      KeysComeFrom(attempts[..n], k);
      var i :| 0 <= i < n && KeyOf(attempts[..n][i]) == k;
      assert KeyOf(attempts[i]) == k;
    } else {
      assert KeyOf(attempts[n]) == k;
    }
  }

  lemma PlainKeys(attempts: seq<Attempt>)
    requires Plain(attempts)
    ensures WellKeyed(set k | k in Keys(attempts))
  {
    hide KeyText;
    forall k, l | k in Keys(attempts) && l in Keys(attempts) && KeyText(k) == KeyText(l) ensures k == l {
      KeysComeFrom(attempts, k);
      KeysComeFrom(attempts, l);
    }
  }

  lemma PortHasNoBlank(transport: string, port: int)
    requires Free(transport, ' ')
    ensures Free(PortText(transport, port), ' ')
  {
    ItoaRoundTrip(port);
  }

  lemma KeyLeOrder()
    ensures TotalPreorder(KeyLe)
  {
    forall a: Cell, b: Cell ensures KeyLe(a, b) || KeyLe(b, a) { StringLeTotal(KeyText(a.key), KeyText(b.key)); }
    forall a: Cell, b: Cell, c: Cell | KeyLe(a, b) && KeyLe(b, c) ensures KeyLe(a, c) {
      StringLeTransitive(KeyText(a.key), KeyText(b.key), KeyText(c.key));
    }
  }

  /** The map of the cells of the attempts so far. */
  ghost predicate Holds(m: map<CellKey, Cell>, attempts: seq<Attempt>) {
    forall k :: (if k in m then Some(m[k]) else None) == CellOf(attempts, k)
  }

  /** The values of the map are the cells of the list, in some order. */
  lemma {:induction false} SameCells(m: map<CellKey, Cell>, attempts: seq<Attempt>, out: seq<Cell>)
    requires Holds(m, attempts)
    requires (forall i :: 0 <= i < |out| ==> out[i].key in m && out[i] == m[out[i].key])
    requires (forall i, j :: 0 <= i < j < |out| ==> out[i].key != out[j].key) && (forall k :: k in m ==> m[k] in out)
    ensures multiset(StableSort(out, KeyLe)) == multiset(Aggregated(attempts)) && Sorted(StableSort(out, KeyLe), KeyLe)
    ensures WellKeyed(m.Keys) ==> StableSort(out, KeyLe) == Aggregated(attempts)
  {
    hide KeyText, StringLe;
    var ks := Keys(attempts);
    forall k ensures k in ks <==> k in m {
      KeysHaveCells(attempts, k);
      assert (if k in m then Some(m[k]) else None) == CellOf(attempts, k);
    }
    forall k | k in m ensures m[k].key == k { KeysHaveCells(attempts, k); assert Some(m[k]) == CellOf(attempts, k); }
    var cs := CellList(attempts, ks);
    forall i | 0 <= i < |cs| ensures cs[i] == m[ks[i]] && cs[i].key == ks[i] {
      assert ks[i] in ks;
      assert Some(m[ks[i]]) == CellOf(attempts, ks[i]);
    }
    KeysDistinct(attempts);
    SameMultiset(out, cs);
    SortContents(out, KeyLe);
    SortContents(cs, KeyLe);
    KeyLeOrder();
    SortSorted(out, KeyLe);
    if WellKeyed(m.Keys) {
      forall x, y | x in out && y in out && Equiv(x, y, KeyLe) ensures x == y {
        StringLeTotal(KeyText(x.key), KeyText(y.key));
      }
      SortPermutation(out, cs, KeyLe);
    }
  }

  /** Two lists without repeated keys that hold the same cells are permutations. */
  lemma {:induction false} SameMultiset(a: seq<Cell>, b: seq<Cell>)
    requires forall i, j :: 0 <= i < j < |a| ==> a[i].key != a[j].key
    requires forall i, j :: 0 <= i < j < |b| ==> b[i].key != b[j].key
    requires forall x :: x in a <==> x in b
    ensures multiset(a) == multiset(b)
  {
    forall x ensures multiset(a)[x] == multiset(b)[x] {
      OnceInside(a, x);
      OnceInside(b, x);
      assert x in multiset(a) <==> x in a;
      assert x in multiset(b) <==> x in b;
    }
  }

  lemma {:induction false} OnceInside(a: seq<Cell>, x: Cell)
    requires forall i, j :: 0 <= i < j < |a| ==> a[i].key != a[j].key
    ensures multiset(a)[x] == if x in a then 1 else 0
  {
    if a != [] {
      var init := a[..|a| - 1];
      OnceInside(init, x);
      assert a == init + [a[|a| - 1]];
    }
  }

  /** One pass over the attempts: the cell of every key. */
  method Tally(attempts: seq<Attempt>) returns (m: map<CellKey, Cell>)
    ensures Holds(m, attempts)
  {
    m := map[];
    for i := 0 to |attempts|
      invariant Holds(m, attempts[..i])
    {
      assert attempts[..i + 1][..i] == attempts[..i];
      var a := attempts[i];
      if Get(a.detail, Transient) == "true" || Get(a.detail, Cancelled) == "true" {
        continue;
      }
      var k := KeyOf(a);
      assert (if k in m then Some(m[k]) else None) == CellOf(attempts[..i], k);
      var c := if k in m then m[k] else Blank(k, a.role);
      m := m[k := AddAttempt(c, a)];
    }
    assert attempts[..|attempts|] == attempts;
  }

  /** Aggregate: the cells in any order, sorted. Cells of one text may come in
      any order; when there are none, the list is determined. */
  method Aggregate(attempts: seq<Attempt>) returns (out: seq<Cell>)
    ensures multiset(out) == multiset(Aggregated(attempts)) && Sorted(out, KeyLe)
    ensures Plain(attempts) ==> out == Aggregated(attempts)
  {
    hide KeyText, Plain;
    var m := Tally(attempts);
    out := List(m, attempts);
    SameCells(m, attempts, out);
    out := StableSort(out, KeyLe);
    if Plain(attempts) {
      PlainKeys(attempts);
      forall k ensures k in Keys(attempts) <==> k in m {
        KeysHaveCells(attempts, k);
        assert (if k in m then Some(m[k]) else None) == CellOf(attempts, k);
      }
    }
  }

  method List(m: map<CellKey, Cell>, ghost attempts: seq<Attempt>) returns (out: seq<Cell>)
    requires Holds(m, attempts)
    ensures forall i :: 0 <= i < |out| ==> out[i].key in m && out[i] == m[out[i].key]
    ensures (forall i, j :: 0 <= i < j < |out| ==> out[i].key != out[j].key) && (forall k :: k in m ==> m[k] in out)
  {
    out := [];
    var todo := m.Keys;
    while todo != {}
      invariant todo <= m.Keys
      invariant forall i :: 0 <= i < |out| ==> out[i].key in m && out[i].key !in todo && out[i] == m[out[i].key]
      invariant forall i, j :: 0 <= i < j < |out| ==> out[i].key != out[j].key
      invariant forall k :: k in m && k !in todo ==> m[k] in out
      decreases todo
    {
      var k :| k in todo;
      KeysHaveCells(attempts, k);
      assert Some(m[k]) == CellOf(attempts, k);
      out := out + [m[k]];
      todo := todo - {k};
    }
  }
}
