/** What rule 7 adds (internal/classify/rules_path.go, ruleModification): which results
    of which cells it tells, and where. */
module MechanismLaws {
  import opened Base
  import opened Text
  import opened Sorting
  import opened Listing
  import opened Cells
  import opened Rules
  import opened Mechanisms
  import RuleLaws

  /** A result that says the path changed or forged something. */
  predicate Tampering(k: string) {
    k in {"uplink_modified", "downlink_modified", "injected", "rst_injected_or_path_reset",
          "rst_injected_bidirectional", "tls_mitm_or_wrong_server"}
  }

  /** A cell whose resets have a rule of their own: bulk, packet trains, bursts, sessions. */
  ghost predicate OwnRule(c: Cell) {
    c.key.test in {"tcp.bulk", "tcp.packets", "udp.packets", "tls.burst"} || exists h :: RuleLaws.Opens(h, c.key.test)
  }

  /** The cell shows the result. */
  ghost predicate Told(c: Cell, k: string) { Tampering(k) && k in c.merged && c.merged[k] > 0 && !OwnRule(c) }

  lemma OwnRuleIs(c: Cell)
    ensures OwnRule(c) <==> Elsewhere(c)
  {
    hide HandshakeTest, RuleLaws.Opens;
    forall h { RuleLaws.OpensIff(h, c.key.test); }
    if HandshakeTest(c.key.test) != "" { assert RuleLaws.Opens(HandshakeTest(c.key.test), c.key.test); }
  }

  lemma ShowsAre(c: Cell)
    ensures forall k :: k in Shows(c) <==> Told(c, k)
  {
    hide OwnRule, Elsewhere;
    OwnRuleIs(c);
    var l := Listed(Kinds(c));
    ListedLists(Kinds(c));
    SortContents(l, StringLe);
    forall k ensures k in InOrder(Kinds(c), StringLe) <==> k in Kinds(c) {
      assert k in multiset(StableSort(l, StringLe)) <==> k in multiset(l);
    }
    assert forall k :: Tampering(k) <==> k in MODIFICATIONS;
  }

  /** A verdict that tells a result on its own. */
  ghost predicate Stands(cells: seq<Cell>, n: nat, vs: seq<Verdict>, v: Verdict)
    requires n <= |cells|
  {
    exists i, k ::
      && 0 <= i < n && Told(cells[i], k) && (forall w :: w in vs ==> w.subject != KeyText(cells[i].key))
      && v == Verdict(k, KeyText(cells[i].key), if Count(cells[i].merged, k) >= 2 then Medium else Low, [])
  }

  /** A line that tells a result beside a verdict on the cell. */
  ghost predicate Joins(cells: seq<Cell>, n: nat, subject: string, l: Line)
    requires n <= |cells|
  {
    exists i, k ::
      && 0 <= i < n && Told(cells[i], k) && KeyText(cells[i].key) == subject
      && l == Mechanism(Count(cells[i].merged, k), cells[i].total, k)
  }

  /** The last verdict on its subject. */
  predicate LastOn(vs: seq<Verdict>, i: nat) {
    i < |vs| && forall j :: i < j < |vs| ==> vs[j].subject != vs[i].subject
  }

  lemma NamedIff(vs: seq<Verdict>, s: string)
    ensures Named(vs, s) <==> exists w :: w in vs && w.subject == s
  {
    if Named(vs, s) {
      var i :| 0 <= i < |vs| && vs[i].subject == s;
      assert vs[i] in vs;
    }
  }

  lemma AloneAre(c: Cell, v: Verdict)
    ensures v in Alone(c, Shows(c))
       <==> exists k ::
              Told(c, k) && v == Verdict(k, KeyText(c.key), if Count(c.merged, k) >= 2 then Medium else Low, [])
  {
    hide Told, KeyText, Shows;
    var ks := Shows(c);
    ShowsAre(c);
    if v in Alone(c, ks) {
      var i :| 0 <= i < |ks| && Alone(c, ks)[i] == v;
      assert ks[i] in ks;
    }
    if k :| Told(c, k) && v == Verdict(k, KeyText(c.key), if Count(c.merged, k) >= 2 then Medium else Low, []) {
      var i :| 0 <= i < |ks| && ks[i] == k;
      assert Alone(c, ks)[i] == v;
    }
  }

  lemma LinesAre(c: Cell, l: Line)
    ensures l in MechanismLines(c, Shows(c))
       <==> exists k :: Told(c, k) && l == Mechanism(Count(c.merged, k), c.total, k)
  {
    hide Told, Shows;
    var ks := Shows(c);
    ShowsAre(c);
    if l in MechanismLines(c, ks) {
      var i :| 0 <= i < |ks| && MechanismLines(c, ks)[i] == l;
      assert ks[i] in ks;
    }
    if k :| Told(c, k) && l == Mechanism(Count(c.merged, k), c.total, k) {
      var i :| 0 <= i < |ks| && ks[i] == k;
      assert MechanismLines(c, ks)[i] == l;
    }
  }

  /** Evidence goes to the last verdict on a subject, and to no other. */
  lemma {:induction false} AttachIs(vs: seq<Verdict>, s: string, lines: seq<Line>, i: nat)
    requires i < |vs|
    ensures |Attach(vs, s, lines)| == |vs|
    ensures Attach(vs, s, lines)[i] ==
            if vs[i].subject == s && LastOn(vs, i) then vs[i].(evidence := vs[i].evidence + lines) else vs[i]
  {
    var n := |vs| - 1;
    if vs[n].subject != s && i < n {
      AttachIs(vs[..n], s, lines, i);
      assert LastOn(vs[..n], i) && vs[i].subject == s <==> LastOn(vs, i) && vs[i].subject == s;
    }
  }

  /** kept are the verdicts vs with the lines of the first n cells added, each to the
      last verdict on its cell; added are those of the cells no verdict is on. */
  ghost predicate Adds(cells: seq<Cell>, n: nat, vs: seq<Verdict>, kept: seq<Verdict>, added: seq<Verdict>)
    requires n <= |cells|
  {
    && |kept| == |vs|
    && (forall i :: 0 <= i < |vs| ==> KeepsTo(cells, n, vs, i, kept[i]))
    && (forall v :: v in added <==> Stands(cells, n, vs, v))
  }

  ghost predicate KeepsTo(cells: seq<Cell>, n: nat, vs: seq<Verdict>, i: nat, k: Verdict)
    requires n <= |cells| && i < |vs|
  {
    && k.kind == vs[i].kind && k.subject == vs[i].subject && k.conf == vs[i].conf
    && forall l :: l in k.evidence <==> l in vs[i].evidence || (LastOn(vs, i) && Joins(cells, n, vs[i].subject, l))
  }

  lemma StandsMore(cells: seq<Cell>, n: nat, vs: seq<Verdict>, v: Verdict)
    requires n < |cells|
    ensures Stands(cells, n + 1, vs, v)
       <==> || Stands(cells, n, vs, v)
            || (!Named(vs, KeyText(cells[n].key)) && v in Alone(cells[n], Shows(cells[n])))
  {
    hide Told, KeyText, Shows, Alone, Named;
    AloneAre(cells[n], v);
    NamedIff(vs, KeyText(cells[n].key));
    if Stands(cells, n, vs, v) {
      var i, k :| 0 <= i < n && Told(cells[i], k) && (forall w :: w in vs ==> w.subject != KeyText(cells[i].key))
                 && v == Verdict(k, KeyText(cells[i].key), if Count(cells[i].merged, k) >= 2 then Medium else Low, []);
    }
  }

  lemma JoinsMore(cells: seq<Cell>, n: nat, subject: string, l: Line)
    requires n < |cells|
    ensures Joins(cells, n + 1, subject, l)
       <==> || Joins(cells, n, subject, l)
            || (KeyText(cells[n].key) == subject && l in MechanismLines(cells[n], Shows(cells[n])))
  {
    hide Told, KeyText, Shows, MechanismLines;
    LinesAre(cells[n], l);
    if Joins(cells, n, subject, l) {
      var i, k :| 0 <= i < n && Told(cells[i], k) && KeyText(cells[i].key) == subject
                 && l == Mechanism(Count(cells[i].merged, k), cells[i].total, k);
    }
  }

  /** Rule 7, cell by cell. */
  lemma {:induction false} ModifiedIs(x: Ctx, vs: seq<Verdict>, n: nat)
    requires n <= |x.cells|
    ensures Adds(x.cells, n, vs, Modified(x, vs, n).0, Modified(x, vs, n).1)
  {
    hide KeyText, Shows, Attach, Named, MechanismLines, Alone, LastOn, KeepsTo, Stands;
    if n == 0 {
      NoneAdded(x.cells, vs);
    } else {
      var (kept, added) := Modified(x, vs, n - 1);
      var c := x.cells[n - 1];
      ModifiedIs(x, vs, n - 1);
      forall v
        ensures Stands(x.cells, n, vs, v)
           <==> Stands(x.cells, n - 1, vs, v) || (!Named(vs, KeyText(c.key)) && v in Alone(c, Shows(c)))
      {
        StandsMore(x.cells, n - 1, vs, v);
      }
      forall i | 0 <= i < |vs|
        ensures KeepsTo(x.cells, n, vs, i, Modified(x, vs, n).0[i])
      {
        if Named(vs, KeyText(c.key)) {
          Attached(x.cells, n - 1, vs, kept, i);
        } else {
          Unattached(x.cells, n - 1, vs, kept, i);
        }
      }
    }
  }

  lemma NoneAdded(cells: seq<Cell>, vs: seq<Verdict>)
    ensures Adds(cells, 0, vs, vs, [])
  {
    hide KeyText, Told, LastOn;
  }

  lemma SameLast(vs: seq<Verdict>, kept: seq<Verdict>, i: nat)
    requires |kept| == |vs| && i < |vs| && forall j :: 0 <= j < |vs| ==> kept[j].subject == vs[j].subject
    ensures LastOn(kept, i) <==> LastOn(vs, i)
  {
  }

  lemma Attached(cells: seq<Cell>, n: nat, vs: seq<Verdict>, kept: seq<Verdict>, i: nat)
    requires n < |cells| && |kept| == |vs| && i < |vs|
    requires forall j :: 0 <= j < |vs| ==> KeepsTo(cells, n, vs, j, kept[j])
    ensures var c := cells[n]; var lines := MechanismLines(c, Shows(c));
            && |Attach(kept, KeyText(c.key), lines)| == |vs|
            && KeepsTo(cells, n + 1, vs, i, Attach(kept, KeyText(c.key), lines)[i])
  {
    hide KeyText, Shows, Attach, MechanismLines, LastOn, Joins;
    var c := cells[n];
    forall j | 0 <= j < |vs| ensures kept[j].subject == vs[j].subject { assert KeepsTo(cells, n, vs, j, kept[j]); }
    SameLast(vs, kept, i);
    AttachIs(kept, KeyText(c.key), MechanismLines(c, Shows(c)), i);
    forall l { JoinsMore(cells, n, vs[i].subject, l); }
  }

  lemma Unattached(cells: seq<Cell>, n: nat, vs: seq<Verdict>, kept: seq<Verdict>, i: nat)
    requires n < |cells| && |kept| == |vs| && i < |vs| && KeepsTo(cells, n, vs, i, kept[i])
    requires !Named(vs, KeyText(cells[n].key))
    ensures KeepsTo(cells, n + 1, vs, i, kept[i])
  {
    hide KeyText, Shows, MechanismLines, LastOn, Joins;
    assert vs[i].subject != KeyText(cells[n].key);
    forall l { JoinsMore(cells, n, vs[i].subject, l); }
  }

  /** What rule 7 makes of the verdicts before it. */
  lemma DecoratedIs(x: Ctx, vs: seq<Verdict>)
    ensures |Decorated(x, vs)| >= |vs|
    ensures Adds(x.cells, |x.cells|, vs, Decorated(x, vs)[..|vs|], Decorated(x, vs)[|vs|..])
  {
    hide Modified, Adds;
    ModifiedIs(x, vs, |x.cells|);
    AddsLength(x.cells, |x.cells|, vs, Modified(x, vs, |x.cells|).0, Modified(x, vs, |x.cells|).1);
    var (kept, added) := Modified(x, vs, |x.cells|);
    assert (kept + added)[..|vs|] == kept && (kept + added)[|vs|..] == added;
  }

  lemma AddsLength(cells: seq<Cell>, n: nat, vs: seq<Verdict>, kept: seq<Verdict>, added: seq<Verdict>)
    requires n <= |cells| && Adds(cells, n, vs, kept, added)
    ensures |kept| == |vs|
  {
  }
}
