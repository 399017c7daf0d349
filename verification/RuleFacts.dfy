/** What the rules of the classifier say, cell by cell (internal/classify/rules*.go). */
module RuleFacts {
  import opened Base
  import opened Text
  import opened Evidence
  import opened Sorting
  import opened Cells
  import opened Rules

  // ---- looking cells up ----

  /** Find gives the first cell that matches, and nothing exactly when none does. */
  lemma {:induction false} FindFirst(cells: seq<Cell>, test: string, transport: string, port: int, variant: string)
    ensures match Find(cells, test, transport, port, variant)
            case None => forall i :: 0 <= i < |cells| ==> !Matches(cells[i], test, transport, port, variant)
            case Some(c) => exists i :: 0 <= i < |cells| && cells[i] == c && Matches(c, test, transport, port, variant)
                                        && forall j :: 0 <= j < i ==> !Matches(cells[j], test, transport, port, variant)
  {
    hide Matches;
    if cells != [] {
      var init := cells[..|cells| - 1];
      FindFirst(init, test, transport, port, variant);
      if Find(init, test, transport, port, variant).Some? {
        var i :| 0 <= i < |init| && init[i] == Find(init, test, transport, port, variant).value
                 && forall j :: 0 <= j < i ==> !Matches(init[j], test, transport, port, variant);
        assert cells[i] == init[i] && forall j :: 0 <= j < i ==> cells[j] == init[j];
      } else {
        assert forall j :: 0 <= j < |init| ==> cells[j] == init[j];
      }
    }
  }

  /** So does FirstOf among the cells that are wanted. */
  lemma {:induction false} FirstOfFirst(cells: seq<Cell>, w: Wanted)
    ensures match FirstOf(cells, w)
            case None => forall i :: 0 <= i < |cells| ==> !Meets(cells[i], w)
            case Some(c) => exists i :: 0 <= i < |cells| && cells[i] == c && Meets(c, w)
                                        && forall j :: 0 <= j < i ==> !Meets(cells[j], w)
  {
    hide Meets;
    if cells != [] {
      var init := cells[..|cells| - 1];
      FirstOfFirst(init, w);
      if FirstOf(init, w).Some? {
        var i :| 0 <= i < |init| && init[i] == FirstOf(init, w).value && forall j :: 0 <= j < i ==> !Meets(init[j], w);
        assert cells[i] == init[i] && forall j :: 0 <= j < i ==> cells[j] == init[j];
      } else {
        assert forall j :: 0 <= j < |init| ==> cells[j] == init[j];
      }
    }
  }

  lemma {:induction false} LastOfMeans(cells: seq<Cell>, test: string, variant: string)
    ensures match LastOf(cells, test, variant)
            case None => forall c :: c in cells ==> !(c.key.test == test && (variant == "" || c.key.variant == variant))
            case Some(c) => c in cells && c.key.test == test && (variant == "" || c.key.variant == variant)
  {
    if cells != [] { LastOfMeans(cells[..|cells| - 1], test, variant); }
  }

  // ---- the baseline of a group ----

  /** A cell that can stand for the nominal baseline of its group. */
  predicate IsNominal(c: Cell, vless: bool) { c.role == Baseline || (vless && c.role == Control) }

  /** Nominal: the last baseline; without one, for vless, the first control. */
  lemma {:induction false} NominalMeans(cs: seq<Cell>, vless: bool)
    ensures match Nominal(cs, vless)
            case None => forall i :: 0 <= i < |cs| ==> !IsNominal(cs[i], vless)
            case Some(c) =>
              exists i :: 0 <= i < |cs| && cs[i] == c && IsNominal(c, vless)
                && if c.role == Baseline then forall j :: i < j < |cs| ==> cs[j].role != Baseline
                   else
                     && (forall j :: 0 <= j < |cs| ==> cs[j].role != Baseline)
                     && (forall j :: 0 <= j < i ==> cs[j].role != Control)
  {
    if cs != [] {
      var n := |cs| - 1;
      var init := cs[..n];
      NominalMeans(init, vless);
      var c := cs[n];
      assert forall j :: 0 <= j < n ==> init[j] == cs[j];
      if Nominal(init, vless).Some? && c.role != Baseline {
        var b := Nominal(init, vless).value;
        var i :| 0 <= i < n && init[i] == b && IsNominal(b, vless)
                && if b.role == Baseline then forall j :: i < j < n ==> init[j].role != Baseline
                   else
                     && (forall j :: 0 <= j < n ==> init[j].role != Baseline)
                     && (forall j :: 0 <= j < i ==> init[j].role != Control);
        assert cs[i] == b;
      } else if IsNominal(c, vless) {
        assert cs[n] == c;
      }
    }
  }

  lemma {:induction false} FirstPassingMeans(cs: seq<Cell>)
    ensures match FirstPassing(cs)
            case None => forall i :: 0 <= i < |cs| ==> !(Pass(cs[i]) && cs[i].role != Control)
            case Some(c) => exists i :: 0 <= i < |cs| && cs[i] == c && Pass(c) && c.role != Control
                                        && forall j :: 0 <= j < i ==> !(Pass(cs[j]) && cs[j].role != Control)
  {
    hide Pass;
    if cs != [] {
      var init := cs[..|cs| - 1];
      FirstPassingMeans(init);
      assert forall j :: 0 <= j < |init| ==> cs[j] == init[j];
      if FirstPassing(init).Some? {
        var i :| 0 <= i < |init| && init[i] == FirstPassing(init).value && forall j ::
            0 <= j < i
            ==> !(Pass(init[j]) && init[j].role != Control);
        assert cs[i] == init[i];
      }
    }
  }

  /** The baseline of a group is its nominal one if that passes, else the first
      passing cell that is no control; there is none exactly when neither passes. */
  lemma BaselineChosen(test: string, cs: seq<Cell>)
    ensures var base := Nominal(cs, HasPrefix(test, "vless."));
            match VariantBaseline(test, cs)
            case None => !Passes(base) && forall i :: 0 <= i < |cs| && Pass(cs[i]) ==> cs[i].role == Control
            case Some(c) =>
              || (base == Some(c) && Pass(c))
              || (!Passes(base) && exists i :: 0 <= i < |cs| && cs[i] == c && Pass(c) && c.role != Control
                                              && forall j :: 0 <= j < i && Pass(cs[j]) ==> cs[j].role == Control)
  {
    hide Pass, Nominal;
    FirstPassingMeans(cs);
    if !Passes(Nominal(cs, HasPrefix(test, "vless."))) && FirstPassing(cs).Some? {
      var i :| 0 <= i < |cs| && cs[i] == FirstPassing(cs).value && Pass(cs[i]) && cs[i].role != Control
               && forall j :: 0 <= j < i ==> !(Pass(cs[j]) && cs[j].role != Control);
    }
  }

  // ---- rules that look at one cell at a time ----

  /** vs are the verdicts of the rule on the first n cells: those of the cells at the
      given places, in that order, and it does not apply to any other. */
  ghost predicate Picked(r: Rule, x: Ctx, n: nat, at: seq<nat>, vs: seq<Verdict>) {
    && n <= |x.cells| && |at| == |vs|
    && (forall i, j :: 0 <= i < j < |at| ==> at[i] < at[j])
    && (forall i :: 0 <= i < |at| ==> at[i] < n && Apply(r, x, x.cells[at[i]]) == Some(vs[i]))
    && (forall k :: 0 <= k < n && k !in at ==> Apply(r, x, x.cells[k]).None?)
  }

  /** The verdicts of a rule are those of the cells it applies to, one each, in cell order. */
  lemma {:induction false} EachPicks(r: Rule, x: Ctx, n: nat) returns (at: seq<nat>)
    requires n <= |x.cells|
    ensures Picked(r, x, n, at, Collect(r, x, n))
  {
    hide Apply;
    at := [];
    if n > 0 {
      at := EachPicks(r, x, n - 1);
      if Apply(r, x, x.cells[n - 1]).Some? {
        var before := at;
        at := at + [n - 1];
        assert forall k :: k in at <==> k in before || k == n - 1;
      }
    }
  }

  lemma EachMember(r: Rule, x: Ctx, v: Verdict)
    ensures v in Each(r, x) <==> exists c :: c in x.cells && Apply(r, x, c) == Some(v)
  {
    hide Apply;
    var at := EachPicks(r, x, |x.cells|);
    var vs := Each(r, x);
    if v in vs {
      var i :| 0 <= i < |vs| && vs[i] == v;
      assert x.cells[at[i]] in x.cells;
    }
    if c :| c in x.cells && Apply(r, x, c) == Some(v) {
      var k :| 0 <= k < |x.cells| && x.cells[k] == c;
      var i :| 0 <= i < |at| && at[i] == k;
      assert vs[i] == v;
    }
  }

  // ---- rule 4 ----

  const BLOCKED: string := "protocol_blocking_suspected"

  predicate Calls(x: Ctx, c: Cell) { ProtocolOf(x, c).Some? && ProtocolOf(x, c).value.kind == BLOCKED }

  lemma CallsFamily(x: Ctx, c: Cell)
    ensures Calls(x, c) ==> ProtocolOf(x, c).value.subject == Family(c)
  {
    hide HandshakeCell, ProtocolStrength, FamilyFails, KeyText, Family;
  }

  /** Which families the first n cells call blocked: each once, and no other. */
  lemma {:induction false} FamiliesOnce(x: Ctx, n: nat)
    requires n <= |x.cells|
    ensures var (vs, reported) := Protocols(x, n);
            && (forall i, j ::
                0 <= i < j < |vs| && vs[i].kind == BLOCKED && vs[j].kind == BLOCKED
                ==> vs[i].subject != vs[j].subject)
            && (forall s :: s in reported <==> Reports(vs, s))
            && (forall s :: s in reported <==> Called(x, n, s))
  {
    hide ProtocolOf, Family;
    if n > 0 {
      FamiliesOnce(x, n - 1);
      FamilyStep(x, n, Protocols(x, n - 1).0, Protocols(x, n - 1).1);
    }
  }

  ghost predicate Reports(vs: seq<Verdict>, s: string) {
    exists i :: 0 <= i < |vs| && vs[i].kind == BLOCKED && vs[i].subject == s
  }

  ghost predicate Called(x: Ctx, n: nat, s: string)
    requires n <= |x.cells|
  {
    exists k :: 0 <= k < n && Calls(x, x.cells[k]) && Family(x.cells[k]) == s
  }

  lemma FamilyStep(x: Ctx, n: nat, vs: seq<Verdict>, reported: set<string>)
    requires 0 < n <= |x.cells| && Protocols(x, n - 1) == (vs, reported)
    requires forall i, j ::
              0 <= i < j < |vs| && vs[i].kind == BLOCKED && vs[j].kind == BLOCKED
              ==> vs[i].subject != vs[j].subject
    requires forall s :: s in reported <==> Reports(vs, s)
    requires forall s :: s in reported <==> Called(x, n - 1, s)
    ensures var (ws, more) := Protocols(x, n);
            && (forall i, j ::
                0 <= i < j < |ws| && ws[i].kind == BLOCKED && ws[j].kind == BLOCKED
                ==> ws[i].subject != ws[j].subject)
            && (forall s :: s in more <==> Reports(ws, s))
            && (forall s :: s in more <==> Called(x, n, s))
  {
    hide ProtocolOf, Family;
    var c := x.cells[n - 1];
    CallsFamily(x, c);
    var (ws, more) := Protocols(x, n);
    forall s ensures Called(x, n, s) <==> Called(x, n - 1, s) || (Calls(x, c) && Family(c) == s) {
      if Called(x, n - 1, s) {
        var k :| 0 <= k < n - 1 && Calls(x, x.cells[k]) && Family(x.cells[k]) == s;
      }
      if Calls(x, c) && Family(c) == s {
        assert x.cells[n - 1] == c;
      }
    }
    forall s ensures Reports(ws, s) <==>
        Reports(vs, s)
        || (|ws| > |vs| && ws[|vs|].kind == BLOCKED && ws[|vs|].subject == s) {
      if Reports(vs, s) {
        var i :| 0 <= i < |vs| && vs[i].kind == BLOCKED && vs[i].subject == s;
        assert ws[i] == vs[i];
      }
    }
    if |ws| > |vs| && ws[|vs|].kind == BLOCKED {
      assert !Reports(vs, ws[|vs|].subject);
    }
  }

  // ---- rule 6 ----

  predicate IsEcho(o: Cell, transport: string, port: int) {
    IsBaseline(o) && o.key.transport == transport && o.key.port == port
  }

  /** A DNS cell the port rule looks at: it fails, no echo runs beside it, and an
      echo of its transport passes somewhere. */
  ghost predicate PortSuspect(cells: seq<Cell>, c: Cell) {
    && HasPrefix(c.key.test, "dns.") && c.key.test != "dns.system" && c.key.test != "dns.doh" && Fail(c)
    && (forall o :: o in cells ==> !IsEcho(o, c.key.transport, c.key.port))
    && (exists o :: o in cells && o.key.test == PlainTest(c.key.transport, "echo") && Pass(o))
  }

  /** The DNS cells rule 6 calls blocked: next to a passing dns.tcp, of the dns.udp
      cells only the last TXT one; otherwise those the port rule suspects. */
  ghost predicate DnsBlocked(x: Ctx, c: Cell) {
    if UdpOnly(x) && c.key.test == "dns.udp" then LastOf(x.cells, "dns.udp", "TXT") == Some(c) && Fail(c)
    else PortSuspect(x.cells, c)
  }

  predicate BlocksDns(v: Verdict, c: Cell) {
    (v.kind == "dns_udp_blocking_suspected" || v.kind == "dns_port_blocking_suspected") && About(c) in v.evidence
  }

  lemma PortRule(x: Ctx, c: Cell)
    requires c in x.cells
    ensures DnsPort(x, UdpOnly(x), c).Some? <==> PortSuspect(x.cells, c) && !(UdpOnly(x) && c.key.test == "dns.udp")
  {
    hide UdpOnly, HasPrefix, Strength, KeyText, Fail, Pass;
    var w := PassingTest(PlainTest(c.key.transport, "echo"));
    FindFirst(x.cells, "tcp.echo", c.key.transport, c.key.port, "");
    FindFirst(x.cells, "udp.echo", c.key.transport, c.key.port, "");
    FirstOfFirst(x.cells, w);
    assert FirstOf(x.cells, w).None? <==> forall o :: o in x.cells ==> !(o.key.test == w.test && Pass(o));
  }

  /** The one verdict of rule 6 that calls a cell blocked, if there is one. */
  function Blocker(x: Ctx, c: Cell): Option<Verdict> {
    if DnsUdp(x).Some? && LastOf(x.cells, "dns.udp", "TXT") == Some(c) then DnsUdp(x) else DnsPort(x, UdpOnly(x), c)
  }

  /** Rule 6 calls a cell blocked exactly when it is, and then once. */
  lemma DnsBlockedIff(x: Ctx, c: Cell)
    requires c in x.cells
    ensures (exists v :: v in Dns(x) && BlocksDns(v, c)) <==> DnsBlocked(x, c)
    ensures forall v, w :: v in Dns(x) && w in Dns(x) && BlocksDns(v, c) && BlocksDns(w, c) ==> v == w
  {
    hide PortSuspect, Each, DnsPort, BlocksDns, Dns;
    PortRule(x, c);
    LastOfMeans(x.cells, "dns.udp", "TXT");
    assert Blocker(x, c).Some? <==> DnsBlocked(x, c);
    forall v | v in Dns(x) && BlocksDns(v, c) ensures Blocker(x, c) == Some(v) { DnsCameFrom(x, v, c); }
    if Blocker(x, c).Some? { DnsGoesTo(x, c); }
  }

  /** Of the cells, exactly those that DnsBlocked tells are called blocked, and once. */
  ghost predicate DnsReported(x: Ctx, vs: seq<Verdict>) {
    forall c :: c in x.cells ==>
      && ((exists v :: v in vs && BlocksDns(v, c)) <==> DnsBlocked(x, c))
      && (forall v, w :: v in vs && w in vs && BlocksDns(v, c) && BlocksDns(w, c) ==> v == w)
  }

  lemma DnsExact(x: Ctx)
    ensures DnsReported(x, Dns(x))
  {
    hide Dns, BlocksDns, DnsBlocked;
    forall c | c in x.cells
      ensures (exists v :: v in Dns(x) && BlocksDns(v, c)) <==> DnsBlocked(x, c)
      ensures forall v, w :: v in Dns(x) && w in Dns(x) && BlocksDns(v, c) && BlocksDns(w, c) ==> v == w
    {
      DnsBlockedIff(x, c);
    }
  }

  lemma ManipulationBlocksNone(x: Ctx, v: Verdict, c: Cell)
    requires v in Each(Manipulated, x)
    ensures !BlocksDns(v, c)
  {
    hide HasPrefix, KeyText, Each;
    EachMember(Manipulated, x, v);
    var d :| d in x.cells && Apply(Manipulated, x, d) == Some(v);
    assert |v.kind| == 26 || |v.kind| == 38;
  }

  lemma PortBlocksItsCell(x: Ctx, v: Verdict, c: Cell)
    requires v in Each(DnsPorts, x) && BlocksDns(v, c)
    ensures DnsPort(x, UdpOnly(x), c) == Some(v)
  {
    hide UdpOnly, HasPrefix, KeyText, Strength, Fail, Pass, Each;
    EachMember(DnsPorts, x, v);
    var d :| d in x.cells && Apply(DnsPorts, x, d) == Some(v);
    assert v.evidence[0] == About(d) && v.evidence[1].Against? && |v.evidence| == 2;
    assert c == d;
  }

  lemma DnsCameFrom(x: Ctx, v: Verdict, c: Cell)
    requires v in Dns(x) && BlocksDns(v, c)
    ensures Blocker(x, c) == Some(v)
  {
    hide HasPrefix, Strength, KeyText, Pass, Each, DnsPort;
    if v in Each(Manipulated, x) {
      ManipulationBlocksNone(x, v, c);
    } else if v in Each(DnsPorts, x) {
      PortBlocksItsCell(x, v, c);
      PortNotLast(x, c);
    } else {
      assert DnsUdp(x) == Some(v);
      assert v.evidence == [About(LastOf(x.cells, "dns.udp", "TXT").value),
          Against(LastOf(x.cells, "dns.tcp", "").value)];
    }
  }

  /** The port rule leaves the dns.udp cells to the other part. */
  lemma PortNotLast(x: Ctx, c: Cell)
    requires DnsPort(x, UdpOnly(x), c).Some?
    ensures !(DnsUdp(x).Some? && LastOf(x.cells, "dns.udp", "TXT") == Some(c))
  {
    hide HasPrefix, Strength, KeyText, Pass, Fail;
    LastOfMeans(x.cells, "dns.udp", "TXT");
  }

  lemma DnsGoesTo(x: Ctx, c: Cell)
    requires c in x.cells && Blocker(x, c).Some?
    ensures Blocker(x, c).value in Dns(x) && BlocksDns(Blocker(x, c).value, c)
  {
    hide HasPrefix, Strength, KeyText, Pass, Each;
    var v := Blocker(x, c).value;
    assert v.evidence[0] == About(c);
    if Blocker(x, c) == DnsPort(x, UdpOnly(x), c) {
      EachMember(DnsPorts, x, v);
    }
  }

  /** So not every dns.udp cell the port rule skips is reported by the other part:
      next to a passing dns.tcp, rule 6 calls no cell of another query type blocked. */
  lemma OtherQueryTypeIsLeftOut(x: Ctx, c: Cell)
    requires c in x.cells && UdpOnly(x) && c.key.test == "dns.udp" && c.key.variant != "TXT"
    ensures forall v :: v in Dns(x) ==> !BlocksDns(v, c)
  {
    hide Dns, BlocksDns, PortSuspect, UdpOnly;
    LastOfMeans(x.cells, "dns.udp", "TXT");
    DnsBlockedIff(x, c);
  }

  // ---- scans of a few attempts ----

  /** An attempt that measured its outcome, with nothing else of note. */
  function Tried(test: string, role: Role, variant: string, transport: string, port: int, outcome: string): Attempt {
    Attempt(test, "", role, variant, transport, port, 0, 1, 0, map[], outcome, "", "", "", map[], None, outcome)
  }

  lemma TriedCounts(test: string, role: Role, variant: string, transport: string, port: int, outcome: string)
    requires !Nothing(outcome)
    ensures var a := Tried(test, role, variant, transport, port, outcome); !LeftOut(a) && !Unmeasured(a)
  {
  }

  /** The cell of one attempt. */
  function CellFrom(a: Attempt): Cell { AddAttempt(Blank(KeyOf(a), a.role), a) }

  lemma OneCell(a: Attempt)
    requires !LeftOut(a)
    ensures Aggregated([a]) == [CellFrom(a)]
  {
    hide AddAttempt, Blank, LeftOut;
    assert [a][..0] == [];
    assert CellOf([], KeyOf(a)) == None && Keys([]) == [];
    assert Keys([a]) == [KeyOf(a)];
    assert CellOf([a], KeyOf(a)) == Some(CellFrom(a));
    var cs := CellList([a], [KeyOf(a)]);
    assert cs == [CellFrom(a)];
    assert cs[..0] == [];
    assert StableSort(cs, KeyLe) == Insert(StableSort([], KeyLe), CellFrom(a), KeyLe);
  }

  /** Every attempt counts, each for a key of its own. */
  ghost predicate Own(attempts: seq<Attempt>) {
    && (forall i :: 0 <= i < |attempts| ==> !LeftOut(attempts[i]))
    && (forall i, j :: 0 <= i < j < |attempts| ==> KeyOf(attempts[i]) != KeyOf(attempts[j]))
  }

  lemma {:induction false} UnknownKey(attempts: seq<Attempt>, k: CellKey)
    requires forall i :: 0 <= i < |attempts| ==> KeyOf(attempts[i]) != k
    ensures CellOf(attempts, k) == None && k !in Keys(attempts)
  {
    hide LeftOut, AddAttempt, Blank;
    if attempts != [] { UnknownKey(attempts[..|attempts| - 1], k); }
  }

  lemma {:induction false} OwnKeys(attempts: seq<Attempt>)
    requires Own(attempts)
    ensures |Keys(attempts)| == |attempts|
    ensures forall i :: 0 <= i < |attempts| ==> Keys(attempts)[i] == KeyOf(attempts[i])
  {
    hide LeftOut;
    if attempts != [] {
      OwnKeys(attempts[..|attempts| - 1]);
      UnknownKey(attempts[..|attempts| - 1], KeyOf(attempts[|attempts| - 1]));
    }
  }

  lemma {:induction false} OwnCell(attempts: seq<Attempt>, i: nat)
    requires Own(attempts) && i < |attempts|
    ensures CellOf(attempts, KeyOf(attempts[i])) == Some(CellFrom(attempts[i]))
  {
    hide LeftOut, AddAttempt, Blank;
    var n := |attempts| - 1;
    if i < n {
      OwnCell(attempts[..n], i);
    } else {
      UnknownKey(attempts[..n], KeyOf(attempts[n]));
    }
  }

  /** Their cells are one each, in some order. */
  lemma AggregatedOwn(attempts: seq<Attempt>, cells: seq<Cell>)
    requires Own(attempts) && |cells| == |attempts|
    requires forall i :: 0 <= i < |attempts| ==> cells[i] == CellFrom(attempts[i])
    ensures multiset(Aggregated(attempts)) == multiset(cells)
    ensures forall c :: c in Aggregated(attempts) <==> c in cells
  {
    hide Own, AddAttempt, Blank, CellFrom, KeyLe;
    OwnKeys(attempts);
    forall i | 0 <= i < |attempts| ensures CellOf(attempts, KeyOf(attempts[i])) == Some(CellFrom(attempts[i])) {
      OwnCell(attempts, i);
    }
    var cs := CellList(attempts, Keys(attempts));
    assert cs == cells;
    SortContents(cs, KeyLe);
    forall c ensures c in Aggregated(attempts) <==> c in cells {
      assert c in multiset(Aggregated(attempts)) <==> c in multiset(cells);
    }
  }

  lemma TriedPasses(test: string, role: Role, variant: string, transport: string, port: int, outcome: string)
    requires !Nothing(outcome)
    ensures var c := CellFrom(Tried(test, role, variant, transport, port, outcome));
            c.key == CellKey(test, transport, port, variant) && if outcome == OK then Pass(c) else Fail(c)
  {
    TriedCounts(test, role, variant, transport, port, outcome);
  }

  /** dns.tcp and the TXT query pass, another query type fails, and an echo elsewhere
      would have told. */
  lemma LeftOutHere(x: Ctx, t: Cell, q: Cell, c: Cell, e: Cell)
    requires forall y :: y in x.cells <==> y == t || y == q || y == c || y == e
    requires t.key == CellKey("dns.tcp", "tcp", 53, "TXT") && q.key == CellKey("dns.udp", "udp", 53, "TXT")
    requires c.key == CellKey("dns.udp", "udp", 53, "A") && e.key == CellKey("udp.echo", "udp", 7, "") && Pass(t)
            && Fail(c) && Pass(e)
    ensures PortSuspect(x.cells, c) && forall v :: v in Dns(x) ==> !BlocksDns(v, c)
  {
    hide Dns, BlocksDns, Pass, Fail;
    LastOfMeans(x.cells, "dns.udp", "TXT");
    LastOfMeans(x.cells, "dns.tcp", "");
    assert q in x.cells && t in x.cells && e in x.cells;
    assert LastOf(x.cells, "dns.tcp", "") == Some(t);
    OtherQueryTypeIsLeftOut(x, c);
  }

  function SampleTcp(): Attempt { Tried("dns.tcp", Baseline, "TXT", "tcp", 53, OK) }

  function SampleTxt(): Attempt { Tried("dns.udp", Baseline, "TXT", "udp", 53, OK) }

  function SampleOther(): Attempt { Tried("dns.udp", Variant, "A", "udp", 53, DNS_TIMEOUT) }

  function SampleEcho(): Attempt { Tried("udp.echo", Baseline, "", "udp", 7, OK) }

  lemma SampleCells()
    ensures CellFrom(SampleTcp()).key == CellKey("dns.tcp", "tcp", 53, "TXT") && Pass(CellFrom(SampleTcp()))
    ensures CellFrom(SampleTxt()).key == CellKey("dns.udp", "udp", 53, "TXT")
    ensures CellFrom(SampleOther()).key == CellKey("dns.udp", "udp", 53, "A") && Fail(CellFrom(SampleOther()))
    ensures CellFrom(SampleEcho()).key == CellKey("udp.echo", "udp", 7, "") && Pass(CellFrom(SampleEcho()))
  {
    hide CellFrom, Pass, Fail, Tried;
    TriedPasses("dns.tcp", Baseline, "TXT", "tcp", 53, OK);
    TriedPasses("dns.udp", Baseline, "TXT", "udp", 53, OK);
    TriedPasses("dns.udp", Variant, "A", "udp", 53, DNS_TIMEOUT);
    TriedPasses("udp.echo", Baseline, "", "udp", 7, OK);
  }

  lemma SamplesCount()
    ensures !LeftOut(SampleTcp()) && !LeftOut(SampleTxt()) && !LeftOut(SampleOther()) && !LeftOut(SampleEcho())
    ensures KeyOf(SampleTcp()).test == "dns.tcp" && KeyOf(SampleEcho()).test == "udp.echo"
    ensures KeyOf(SampleTxt()) == CellKey("dns.udp", "udp", 53, "TXT")
    ensures KeyOf(SampleOther()) == CellKey("dns.udp", "udp", 53, "A")
  {
    hide LeftOut;
    TriedCounts("dns.tcp", Baseline, "TXT", "tcp", 53, OK);
    TriedCounts("dns.udp", Baseline, "TXT", "udp", 53, OK);
    TriedCounts("dns.udp", Variant, "A", "udp", 53, DNS_TIMEOUT);
    TriedCounts("udp.echo", Baseline, "", "udp", 7, OK);
  }

  /** A scan in which that happens. */
  lemma SomeQueryTypeIsLeftOut(hostOf: string -> string)
    ensures var x := Context([SampleTcp(), SampleTxt(), SampleOther(), SampleEcho()], hostOf);
            var c := CellFrom(SampleOther());
            c in x.cells && PortSuspect(x.cells, c) && forall v :: v in Dns(x) ==> !BlocksDns(v, c)
  {
    hide Aggregated, Dns, BlocksDns, PortSuspect, CellFrom, LeftOut, Pass, Fail, KeyOf;
    hide SampleTcp, SampleTxt, SampleOther, SampleEcho;
    var t, q, c, e := SampleTcp(), SampleTxt(), SampleOther(), SampleEcho();
    SampleCells();
    SamplesCount();
    AggregatedOwn([t, q, c, e], [CellFrom(t), CellFrom(q), CellFrom(c), CellFrom(e)]);
    LeftOutHere(Context([t, q, c, e], hostOf), CellFrom(t), CellFrom(q), CellFrom(c), CellFrom(e));
  }
}
