/** Rules 7 and 8 (internal/classify/rules_path.go), which read what the rules
    before them wrote, and what it means for two verdict lists to differ only in
    an order that cannot show. */
module Mechanisms {
  import opened Text
  import opened Sorting
  import opened Cells
  import opened Rules
  import opened Listing

  // ---- lists that agree on every subject ----

  /** The verdicts on one subject, in order. */
  function BySubject(vs: seq<Verdict>, s: string): seq<Verdict> {
    if vs == [] then []
    else
      var before := BySubject(vs[..|vs| - 1], s);
      if vs[|vs| - 1].subject == s then before + [vs[|vs| - 1]] else before
  }

  ghost predicate SameSubjects(vs: seq<Verdict>, ws: seq<Verdict>) { forall s :: BySubject(vs, s) == BySubject(ws, s) }

  lemma {:induction false} SubjectAppend(vs: seq<Verdict>, ws: seq<Verdict>, s: string)
    ensures BySubject(vs + ws, s) == BySubject(vs, s) + BySubject(ws, s)
  {
    if ws == [] {
      assert vs + ws == vs;
    } else {
      SubjectAppend(vs, ws[..|ws| - 1], s);
      assert (vs + ws)[..|vs + ws| - 1] == vs + ws[..|ws| - 1];
    }
  }

  lemma SameAppend(a: seq<Verdict>, b: seq<Verdict>, c: seq<Verdict>, d: seq<Verdict>)
    requires SameSubjects(a, b) && SameSubjects(c, d)
    ensures SameSubjects(a + c, b + d)
  {
    forall s ensures BySubject(a + c, s) == BySubject(b + d, s) {
      SubjectAppend(a, c, s);
      SubjectAppend(b, d, s);
    }
  }

  lemma {:induction false} SubjectMembers(vs: seq<Verdict>, s: string, v: Verdict)
    ensures v in BySubject(vs, s) <==> v in vs && v.subject == s
  {
    if vs != [] { SubjectMembers(vs[..|vs| - 1], s, v); }
  }

  lemma SameMembersOf(vs: seq<Verdict>, ws: seq<Verdict>, v: Verdict)
    requires SameSubjects(vs, ws)
    ensures v in vs <==> v in ws
  {
    SubjectMembers(vs, v.subject, v);
    SubjectMembers(ws, v.subject, v);
  }

  // ---- the final order ----

  predicate VerdictLe(v: Verdict, w: Verdict) {
    if v.kind != w.kind then StringLe(v.kind, w.kind) else StringLe(v.subject, w.subject)
  }

  lemma VerdictLeOrder()
    ensures TotalPreorder(VerdictLe)
  {
    forall v: Verdict, w: Verdict ensures VerdictLe(v, w) || VerdictLe(w, v) {
      StringLeTotal(v.kind, w.kind);
      StringLeTotal(v.subject, w.subject);
    }
    forall u: Verdict, v: Verdict, w: Verdict | VerdictLe(u, v) && VerdictLe(v, w) ensures VerdictLe(u, w) {
      VerdictLeTransitive(u, v, w);
    }
  }

  lemma VerdictLeTransitive(u: Verdict, v: Verdict, w: Verdict)
    requires VerdictLe(u, v) && VerdictLe(v, w)
    ensures VerdictLe(u, w)
  {
    hide StringLe;
    if u.kind == v.kind == w.kind {
      StringLeTransitive(u.subject, v.subject, w.subject);
    } else if u.kind != v.kind && v.kind != w.kind {
      StringLeTransitive(u.kind, v.kind, w.kind);
      StringLeTotal(u.kind, v.kind);
    }
  }

  lemma EquivIsSame(v: Verdict, w: Verdict)
    ensures Equiv(v, w, VerdictLe) <==> v.kind == w.kind && v.subject == w.subject
  {
    StringLeTotal(v.kind, w.kind);
    StringLeTotal(v.subject, w.subject);
  }

  function ByKind(vs: seq<Verdict>, k: string): seq<Verdict> {
    if vs == [] then []
    else
      var before := ByKind(vs[..|vs| - 1], k);
      if vs[|vs| - 1].kind == k then before + [vs[|vs| - 1]] else before
  }

  lemma {:induction false} ClassIsSubject(vs: seq<Verdict>, x: Verdict)
    ensures Class(vs, x, VerdictLe) == ByKind(BySubject(vs, x.subject), x.kind)
  {
    hide VerdictLe;
    if vs != [] {
      var init, last := vs[..|vs| - 1], vs[|vs| - 1];
      ClassIsSubject(init, x);
      EquivIsSame(x, last);
      var b := BySubject(init, x.subject);
      assert (b + [last])[..|b|] == b;
    }
  }

  /** Lists that agree on every subject sort to the same list. */
  lemma SortSameSubjects(vs: seq<Verdict>, ws: seq<Verdict>)
    requires SameSubjects(vs, ws)
    ensures StableSort(vs, VerdictLe) == StableSort(ws, VerdictLe)
  {
    hide VerdictLe;
    VerdictLeOrder();
    forall x ensures Class(vs, x, VerdictLe) == Class(ws, x, VerdictLe) {
      ClassIsSubject(vs, x);
      ClassIsSubject(ws, x);
    }
    SortAgree(vs, ws, VerdictLe);
  }

  // ---- rule 7: how the path changed things ----

  /** Merge results that say the path changed or forged traffic. */
  const MODIFICATIONS: set<string> := {
    "uplink_modified", "downlink_modified", "injected", "rst_injected_or_path_reset", "rst_injected_bidirectional",
    "tls_mitm_or_wrong_server"}

  predicate Elsewhere(c: Cell) {
    c.key.test == "tcp.bulk" || c.key.test == "tcp.packets" || c.key.test == "udp.packets" || c.key.test == "tls.burst"
    || HandshakeTest(c.key.test) != ""
  }

  function Kinds(c: Cell): set<string> { set k | k in c.merged && c.merged[k] > 0 && k in MODIFICATIONS }

  /** The modifications a cell shows, in order of their names. */
  ghost function Shows(c: Cell): seq<string> { if Elsewhere(c) then [] else InOrder(Kinds(c), StringLe) }

  lemma StringOrder()
    ensures Order(StringLe)
  {
    forall a: string, b: string ensures StringLe(a, b) || StringLe(b, a) { StringLeTotal(a, b); }
    forall a: string, b: string, c: string | StringLe(a, b)
        && StringLe(b, c) ensures StringLe(a, c) { StringLeTransitive(a, b, c); }
    forall a: string, b: string | Equiv(a, b, StringLe) ensures a == b { StringLeTotal(a, b); }
  }

  function MechanismLines(c: Cell, ks: seq<string>): seq<Line> {
    seq(|ks|, i requires 0 <= i < |ks| => Mechanism(Count(c.merged, ks[i]), c.total, ks[i]))
  }

  function Alone(c: Cell, ks: seq<string>): seq<Verdict> {
    seq(|ks|, i requires 0 <= i < |ks| =>
      Verdict(ks[i], KeyText(c.key), if Count(c.merged, ks[i]) >= MEDIUM_MIN then Medium else Low, []))
  }

  predicate Named(vs: seq<Verdict>, s: string) { exists i :: 0 <= i < |vs| && vs[i].subject == s }

  /** The last verdict on a subject gets more evidence. */
  function Attach(vs: seq<Verdict>, s: string, lines: seq<Line>): (r: seq<Verdict>)
    ensures |r| == |vs| && forall i :: 0 <= i < |vs| ==> r[i] == vs[i].(evidence := r[i].evidence)
  {
    if vs == [] then []
    else
      var last := vs[|vs| - 1];
      if last.subject == s then vs[..|vs| - 1] + [last.(evidence := last.evidence + lines)]
      else Attach(vs[..|vs| - 1], s, lines) + [last]
  }

  /** The list after rule 7 has seen n cells: what was there, decorated, and what it added. */
  ghost function Modified(x: Ctx, vs: seq<Verdict>, n: nat): (seq<Verdict>, seq<Verdict>)
    requires n <= |x.cells|
  {
    if n == 0 then (vs, [])
    else
      var (kept, added) := Modified(x, vs, n - 1);
      var c := x.cells[n - 1];
      if Named(vs, KeyText(c.key)) then (Attach(kept, KeyText(c.key), MechanismLines(c, Shows(c))), added)
      else (kept, added + Alone(c, Shows(c)))
  }

  ghost function Decorated(x: Ctx, vs: seq<Verdict>): seq<Verdict> {
    var (kept, added) := Modified(x, vs, |x.cells|);
    kept + added
  }

  lemma {:induction false} AttachSubject(vs: seq<Verdict>, s: string, lines: seq<Line>, t: string)
    ensures BySubject(Attach(vs, s, lines), t) == if t == s then Attach(BySubject(vs, s), s, lines)
            else BySubject(vs, t)
  {
    if vs != [] {
      var init, last := vs[..|vs| - 1], vs[|vs| - 1];
      var r := Attach(vs, s, lines);
      var b := BySubject(init, s);
      if last.subject == s {
        assert r[..|r| - 1] == init;
        assert (b + [last])[..|b|] == b;
      } else {
        AttachSubject(init, s, lines, t);
        assert r[..|r| - 1] == Attach(init, s, lines);
      }
    }
  }

  lemma NamedAlike(vs: seq<Verdict>, ws: seq<Verdict>, s: string)
    requires SameSubjects(vs, ws)
    ensures Named(vs, s) == Named(ws, s)
  {
    NamedIs(vs, s);
    NamedIs(ws, s);
  }

  lemma {:induction false} NamedIs(vs: seq<Verdict>, s: string)
    ensures Named(vs, s) <==> BySubject(vs, s) != []
  {
    if vs != [] {
      var init := vs[..|vs| - 1];
      NamedIs(init, s);
      if Named(init, s) {
        var i :| 0 <= i < |init| && init[i].subject == s;
        assert vs[i].subject == s;
      }
    }
  }

  /** Rule 7 keeps lists that agree on every subject in agreement. */
  lemma {:induction false} ModifiedAlike(x: Ctx, vs: seq<Verdict>, ws: seq<Verdict>, n: nat)
    requires n <= |x.cells| && SameSubjects(vs, ws)
    ensures SameSubjects(Modified(x, vs, n).0, Modified(x, ws, n).0) && Modified(x, vs, n).1 == Modified(x, ws, n).1
  {
    hide BySubject, Attach, Named, KeyText, MechanismLines, Shows, Alone;
    if n > 0 {
      ModifiedAlike(x, vs, ws, n - 1);
      var s, lines := KeyText(x.cells[n - 1].key), MechanismLines(x.cells[n - 1], Shows(x.cells[n - 1]));
      NamedAlike(vs, ws, s);
      var a, b := Modified(x, vs, n - 1).0, Modified(x, ws, n - 1).0;
      forall t ensures BySubject(Attach(a, s, lines), t) == BySubject(Attach(b, s, lines), t) {
        AttachSubject(a, s, lines, t);
        AttachSubject(b, s, lines, t);
      }
    }
  }

  lemma DecoratedAlike(x: Ctx, vs: seq<Verdict>, ws: seq<Verdict>)
    requires SameSubjects(vs, ws)
    ensures SameSubjects(Decorated(x, vs), Decorated(x, ws))
  {
    hide Modified;
    ModifiedAlike(x, vs, ws, |x.cells|);
    var n := |x.cells|;
    SameAppend(Modified(x, vs, n).0, Modified(x, ws, n).0, Modified(x, vs, n).1, Modified(x, ws, n).1);
  }
}
