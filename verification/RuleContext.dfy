/** The classifier at work (internal/classify/rules.go, rules_*.go): an object that
    grows its verdict list rule by rule. Maps are walked in whatever order they
    happen to have; what comes out in the end is one list all the same. */
module RuleContext {
  import opened Base
  import opened Text
  import opened Evidence
  import opened Sorting
  import opened Listing
  import opened Cells
  import opened Rules
  import opened Mechanisms
  import opened SynAck
  import opened RuleFacts
  import RuleLaws

  /** Different cells are spelled differently. */
  ghost predicate WellSpelled(cells: seq<Cell>) {
    forall i, j :: 0 <= i < j < |cells| ==> KeyText(cells[i].key) != KeyText(cells[j].key)
  }

  // ---- verdicts with subjects of their own ----

  predicate OwnSubjects(vs: seq<Verdict>) { forall i, j :: 0 <= i < j < |vs| ==> vs[i].subject != vs[j].subject }

  lemma {:induction false} OwnSubject(vs: seq<Verdict>, v: Verdict)
    requires OwnSubjects(vs)
    ensures v in vs ==> BySubject(vs, v.subject) == [v]
    ensures (forall w :: w in vs ==> w.subject != v.subject) ==> BySubject(vs, v.subject) == []
  {
    if vs != [] {
      var init, last := vs[..|vs| - 1], vs[|vs| - 1];
      OwnSubject(init, v);
      forall w | w in init ensures w.subject != last.subject {
        var i :| 0 <= i < |init| && init[i] == w;
        assert vs[i] == w;
      }
    }
  }

  /** Two lists of the same verdicts, each with a subject of its own, agree on every subject. */
  lemma OwnSubjectsAgree(vs: seq<Verdict>, ws: seq<Verdict>)
    requires OwnSubjects(vs) && OwnSubjects(ws) && forall v :: v in vs <==> v in ws
    ensures SameSubjects(vs, ws)
  {
    hide OwnSubjects, BySubject;
    forall s ensures BySubject(vs, s) == BySubject(ws, s) {
      var probe := Verdict("", s, Low, []);
      OwnSubject(vs, probe);
      OwnSubject(ws, probe);
      if v :| v in vs && v.subject == s {
        OwnSubject(vs, v);
        OwnSubject(ws, v);
      }
    }
  }

  /** vs are the variant verdicts of some cells, each once. */
  ghost predicate VariantsOf(x: Ctx, vs: seq<Verdict>, cs: set<Cell>) {
    && OwnSubjects(vs)
    && (forall v :: v in vs ==> exists c :: c in cs && VariantOf(x, c) == Some(v))
    && (forall c :: c in cs && VariantOf(x, c).Some? ==> VariantOf(x, c).value in vs)
  }

  lemma VariantSubject(x: Ctx, c: Cell)
    ensures VariantOf(x, c).Some? ==> VariantOf(x, c).value.subject == KeyText(c.key)
  {
    hide KeyText, Strength, VariantKind, HandshakeCell;
  }

  lemma VariantsMore(x: Ctx, vs: seq<Verdict>, cs: set<Cell>, c: Cell)
    requires VariantsOf(x, vs, cs) && (forall d :: d in cs ==> KeyText(d.key) != KeyText(c.key))
    ensures VariantsOf(x, vs + Maybe(VariantOf(x, c)), cs + {c})
  {
    hide VariantOf, KeyText;
    VariantSubject(x, c);
    var more := vs + Maybe(VariantOf(x, c));
    if VariantOf(x, c).Some? {
      forall i | 0 <= i < |vs| ensures vs[i].subject != KeyText(c.key) {
        assert vs[i] in vs;
        var d :| d in cs && VariantOf(x, d) == Some(vs[i]);
        VariantSubject(x, d);
      }
    }
    forall v | v in more ensures exists d :: d in cs + {c} && VariantOf(x, d) == Some(v) {
      if v in vs {
        var d :| d in cs && VariantOf(x, d) == Some(v);
        assert d in cs + {c};
      } else {
        assert c in cs + {c};
      }
    }
  }

  lemma VariantsAgree(x: Ctx, vs: seq<Verdict>, ws: seq<Verdict>, cs: set<Cell>)
    requires VariantsOf(x, vs, cs) && VariantsOf(x, ws, cs)
    ensures SameSubjects(vs, ws)
  {
    hide VariantOf, OwnSubjects, SameSubjects;
    OwnSubjectsAgree(vs, ws);
  }

  function CellSet(cells: seq<Cell>): set<Cell> { set c | c in cells }

  lemma {:induction false} CollectedVariants(x: Ctx, n: nat)
    requires n <= |x.cells| && WellSpelled(x.cells)
    ensures VariantsOf(x, Collect(Variants, x, n), CellSet(x.cells[..n]))
  {
    hide VariantOf, KeyText, VariantsOf;
    if n == 0 {
      NoVariants(x);
      assert CellSet(x.cells[..0]) == {};
    } else {
      var c, before := x.cells[n - 1], x.cells[..n - 1];
      CollectedVariants(x, n - 1);
      forall d | d in CellSet(before) ensures KeyText(d.key) != KeyText(c.key) {
        var i :| 0 <= i < n - 1 && x.cells[i] == d;
      }
      VariantsMore(x, Collect(Variants, x, n - 1), CellSet(before), c);
      assert x.cells[..n] == before + [c];
      assert CellSet(x.cells[..n]) == CellSet(before) + {c};
      assert Collect(Variants, x, n) == Collect(Variants, x, n - 1) + Maybe(VariantOf(x, c));
    }
  }

  lemma NoVariants(x: Ctx)
    ensures VariantsOf(x, [], {})
  {
  }

  // ---- the object ----

  class RuleCtx {
    const x: Ctx
    var verdicts: seq<Verdict>

    constructor (x: Ctx)
      ensures this.x == x && verdicts == []
    {
      this.x, verdicts := x, [];
    }

    /** The echo cells, in cell order. */
    method CollectBaselines() returns (bs: seq<Cell>)
      ensures bs == Baselines(x.cells)
    {
      hide IsBaseline;
      bs := [];
      for i := 0 to |x.cells|
        invariant bs == Baselines(x.cells[..i])
      {
        assert x.cells[..i + 1][..i] == x.cells[..i];
        if IsBaseline(x.cells[i]) {
          bs := bs + [x.cells[i]];
        }
      }
      assert x.cells[..|x.cells|] == x.cells;
    }

    /** Rule 1: every baseline on every port failing. */
    method RuleEndpoint()
      modifies this`verdicts
      ensures verdicts == old(verdicts) + Maybe(EndpointVerdict(x))
    {
      hide Baselines, Fail;
      var bs := CollectBaselines();
      var fails := 0;
      for i := 0 to |bs|
        invariant 0 <= fails <= i && (fails == i <==> AllFail(bs[..i])) && verdicts == old(verdicts)
      {
        assert bs[..i + 1] == bs[..i] + [bs[i]];
        AllFailMore(bs[..i], bs[i]);
        if Fail(bs[i]) {
          fails := fails + 1;
        }
      }
      assert bs[..|bs|] == bs;
      var r := if |bs| > 0 && fails == |bs|
               then Some(Verdict("endpoint_blocking_suspected", "all baseline echo tests", Medium, AboutAll(bs)))
                   else None;
      verdicts := verdicts + Maybe(r);
    }

    /** Rule 3: all UDP baselines fail while a TCP one passes. */
    method RuleUdp()
      modifies this`verdicts
      ensures verdicts == old(verdicts) + Maybe(UdpVerdict(x))
    {
      hide Baselines, Pass, Fail;
      var bs := CollectBaselines();
      var tcpPass, udpTotal, udpFail := 0, 0, 0;
      for i := 0 to |bs|
        invariant EchoTally(bs[..i]) == (tcpPass, udpTotal, udpFail)
      {
        assert bs[..i + 1][..i] == bs[..i];
        if bs[i].key.transport == "tcp" && Pass(bs[i]) {
          tcpPass := tcpPass + 1;
        }
        if bs[i].key.transport == "udp" {
          udpTotal := udpTotal + 1;
          if Fail(bs[i]) {
            udpFail := udpFail + 1;
          }
        }
      }
      assert bs[..|bs|] == bs;
      EchoTallyMeans(bs);
      var r := if tcpPass > 0 && udpTotal > 0 && udpFail == udpTotal
               then Some(Verdict("udp_blocking_suspected", "all udp ports", Medium, [])) else None;
      assert r == UdpVerdict(x);
      verdicts := verdicts + Maybe(r);
    }

    /** The application protocols that pass on a port, in cell order. */
    method PassingOther(tr: string, port: int) returns (others: seq<Cell>)
      ensures (if others == [] then None else Some(others[0])) == FirstOf(x.cells, PassingApp(tr, port))
    {
      hide Pass, IsApp;
      others := [];
      for i := 0 to |x.cells|
        invariant (if others == [] then None else Some(others[0])) == FirstOf(x.cells[..i], PassingApp(tr, port))
      {
        assert x.cells[..i + 1][..i] == x.cells[..i];
        var o := x.cells[i];
        if o.key.transport == tr && o.key.port == port && Pass(o) && IsApp(o.key.test) {
          others := others + [o];
        }
      }
      assert x.cells[..|x.cells|] == x.cells;
    }

    /** The passing and the failing echoes of a transport. */
    method EchoLists(tr: string) returns (pass: seq<Cell>, fail: seq<Cell>)
      ensures pass == EchoesOf(Baselines(x.cells), tr, false) && fail == EchoesOf(Baselines(x.cells), tr, true)
    {
      hide Baselines, Pass, Fail;
      var bs := CollectBaselines();
      pass, fail := [], [];
      for i := 0 to |bs|
        invariant pass == EchoesOf(bs[..i], tr, false) && fail == EchoesOf(bs[..i], tr, true)
      {
        assert bs[..i + 1][..i] == bs[..i];
        if bs[i].key.transport == tr {
          NotBoth(bs[i]);
          if Pass(bs[i]) {
            pass := pass + [bs[i]];
          } else if Fail(bs[i]) {
            fail := fail + [bs[i]];
          }
        }
      }
      assert bs[..|bs|] == bs;
    }

    /** What rule 2 says of an echo that fails while another passes elsewhere. */
    method PortSays(tr: string, f: Cell, elsewhere: Cell) returns (v: Verdict)
      requires IsBaseline(f) && f.key.transport == tr && Fail(f) && FirstOf(x.cells, PassingEcho(tr)) == Some(elsewhere)
      ensures PortOrProxy(x, tr, f) == Some(v)
    {
      hide Fail, IsBaseline, FirstOf, PortOrProxy, Strength, PortText;
      var others := PassingOther(tr, f.key.port);
      PortVerdict(x, tr, f, elsewhere, others);
      var subject := PortText(tr, f.key.port);
      if |others| == 0 {
        return Verdict("port_blocking_suspected", subject, Strength(f, elsewhere), [About(f), Against(elsewhere)]);
      }
      return Verdict("transparent_proxy_suspected", subject, Strength(f, others[0]),
                     [About(f), Against(others[0]), Against(elsewhere)]);
    }

    /** Rule 2 on one transport: the failing echoes, against the first passing one
        or what else passes on the port. */
    method RulePort(tr: string)
      modifies this`verdicts
      ensures verdicts == old(verdicts) + Each(Ports(tr), x)
    {
      hide Baselines, Pass, Fail, PortOrProxy, Collect, FirstOf, EchoesOf, PortText, Strength, IsBaseline;
      var pass, fail := EchoLists(tr);
      assert x.cells[..|x.cells|] == x.cells;
      FirstEcho(x.cells, tr);
      PortsSaid(x, tr, |x.cells|);
      if |pass| == 0 {
        return;
      }
      EchoesAre(x.cells, tr);
      for i := 0 to |fail|
        invariant verdicts == old(verdicts) + Said(x, tr, fail[..i])
      {
        assert fail[..i + 1] == fail[..i] + [fail[i]];
        var f := fail[i];
        SaidMore(x, tr, fail[..i], f);
        var v := PortSays(tr, f, pass[0]);
        verdicts := verdicts + [v];
      }
      assert fail[..|fail|] == fail;
    }

    /** Rules 5b, 5c and 6: one cell after the other. The verdicts added are those of
        the cells the rule applies to, in cell order. */
    method RuleEach(r: Rule) returns (ghost at: seq<nat>)
      modifies this`verdicts
      ensures verdicts == old(verdicts) + Each(r, x)
      ensures Picked(r, x, |x.cells|, at, verdicts[|old(verdicts)|..])
    {
      hide Apply, Picked;
      for i := 0 to |x.cells|
        invariant verdicts == old(verdicts) + Collect(r, x, i)
      {
        match Apply(r, x, x.cells[i])
        case None =>
        case Some(v) => verdicts := verdicts + [v];
      }
      at := EachPicks(r, x, |x.cells|);
      assert verdicts[|old(verdicts)|..] == Collect(r, x, |x.cells|);
    }

    /** Rule 4: each family of a native protocol that some cell calls blocked is
        reported, once per port. */
    method RuleProtocol()
      modifies this`verdicts
      ensures verdicts == old(verdicts) + Protocols(x, |x.cells|).0
      ensures RuleLaws.ProtocolsTold(x, verdicts[|old(verdicts)|..])
    {
      hide ProtocolOf, Family, RuleLaws.ProtocolsTold;
      var reported: set<string> := {};
      ghost var added: seq<Verdict> := [];
      for i := 0 to |x.cells|
        invariant Protocols(x, i) == (added, reported) && verdicts == old(verdicts) + added
      {
        var c := x.cells[i];
        if Family(c) in reported {
          continue;
        }
        match ProtocolOf(x, c)
        case None =>
        case Some(v) =>
          if v.kind == "protocol_blocking_suspected" {
            reported := reported + {Family(c)};
          }
          verdicts := verdicts + [v];
          added := added + [v];
      }
      RuleLaws.ProtocolsAre(x);
      assert verdicts[|old(verdicts)|..] == added;
    }

    /** Rule 5: the groups of variants, in whatever order the maps give them. */
    method RuleVariant() returns (ghost added: seq<Verdict>)
      modifies this`verdicts
      ensures verdicts == old(verdicts) + added && (WellSpelled(x.cells) ==> SameSubjects(added, Each(Variants, x)))
    {
      hide VariantOf, VariantIn, KeyText, GroupKey, VariantsOf, SameSubjects, WellSpelled, Grouped, Each;
      var groups := GroupUp(x.cells);
      var todo := groups.Keys;
      ghost var seen: set<Cell> := {};
      NoVariants(x);
      added := [];
      while todo != {}
        invariant verdicts == old(verdicts) + added && todo <= groups.Keys
        invariant seen == (set c | c in x.cells && GroupKey(c) !in todo)
        invariant WellSpelled(x.cells) ==> VariantsOf(x, added, seen)
        decreases todo
      {
        var g :| g in todo;
        var more := OneGroup(g, groups[g], added, seen);
        verdicts := verdicts + more;
        added := added + more;
        seen := seen + CellSet(Grouped(x.cells, g));
        todo := todo - {g};
      }
      assert x.cells[..|x.cells|] == x.cells;
      assert seen == CellSet(x.cells);
      if WellSpelled(x.cells) {
        CollectedVariants(x, |x.cells|);
        VariantsAgree(x, added, Collect(Variants, x, |x.cells|), seen);
        EachCollects(Variants, x);
      }
    }

    /** The verdicts of one group. */
    method OneGroup(g: (string, string), cs: seq<Cell>, ghost before: seq<Verdict>, ghost seen: set<Cell>)
        returns (added: seq<Verdict>)
      requires cs == Grouped(x.cells, g) && forall c :: c in seen ==> c in x.cells && GroupKey(c) != g
      ensures WellSpelled(x.cells) && VariantsOf(x, before, seen) ==> VariantsOf(x, before + added, seen + CellSet(cs))
    {
      hide VariantIn, VariantOf, VariantsOf, GroupKey, WellSpelled, Grouped;
      added := [];
      assert before + added == before && seen + CellSet(cs[..0]) == seen;
      for i := 0 to |cs|
        invariant WellSpelled(x.cells) && VariantsOf(x, before, seen)
                ==> VariantsOf(x, before + added, seen + CellSet(cs[..i]))
      {
        if WellSpelled(x.cells) && VariantsOf(x, before, seen) {
          GroupStep(x, g, cs, i, before + added, seen);
        }
        var r := if IsDest(g.0) then None else VariantIn(x, cs, cs[i]);
        assert before + added + Maybe(r) == before + (added + Maybe(r));
        added := added + Maybe(r);
      }
      assert cs[..|cs|] == cs;
    }

    /** The last TXT query over UDP and the last query over TCP. */
    method DnsPair() returns (udp: Option<Cell>, tcp: Option<Cell>)
      ensures udp == LastOf(x.cells, "dns.udp", "TXT") && tcp == LastOf(x.cells, "dns.tcp", "")
    {
      udp, tcp := None, None;
      for i := 0 to |x.cells|
        invariant udp == LastOf(x.cells[..i], "dns.udp", "TXT") && tcp == LastOf(x.cells[..i], "dns.tcp", "")
      {
        assert x.cells[..i + 1][..i] == x.cells[..i];
        if x.cells[i].key.test == "dns.udp" && x.cells[i].key.variant == "TXT" {
          udp := Some(x.cells[i]);
        }
        if x.cells[i].key.test == "dns.tcp" {
          tcp := Some(x.cells[i]);
        }
      }
      assert x.cells[..|x.cells|] == x.cells;
    }

    /** Rule 6: manipulated answers, UDP alone, whole ports. A cell is called
        blocked exactly when DnsBlocked says so, and at most once. */
    method RuleDns()
      modifies this`verdicts
      ensures verdicts == old(verdicts) + Dns(x)
      ensures DnsReported(x, verdicts[|old(verdicts)|..])
    {
      hide Collect, DnsReported, Strength, KeyText, LastOf, Each, Picked, Apply, Pass, Fail;
      ghost var _ := RuleEach(Manipulated);
      var udp, tcp := DnsPair();
      if udp.Some? && tcp.Some? && Pass(tcp.value) && Fail(udp.value) {
        verdicts := verdicts + [Verdict("dns_udp_blocking_suspected", KeyText(udp.value.key),
                                        Strength(udp.value, tcp.value), [About(udp.value), Against(tcp.value)])];
      }
      assert verdicts == old(verdicts) + (Each(Manipulated, x) + Maybe(DnsUdp(x)));
      ghost var _ := RuleEach(DnsPorts);
      assert verdicts == old(verdicts) + Dns(x);
      DnsExact(x);
      assert verdicts[|old(verdicts)|..] == Dns(x);
    }

    // ---- rule 7 ----

    /** Where the last verdict on each subject stands. */
    method Index() returns (named: map<string, nat>)
      ensures forall s :: s in named <==> Named(verdicts, s)
      ensures forall s :: s in named ==> LastAt(verdicts, s, named[s])
    {
      named := map[];
      for i := 0 to |verdicts|
        invariant forall s :: s in named <==> Named(verdicts[..i], s)
        invariant forall s :: s in named ==> LastAt(verdicts[..i], s, named[s])
      {
        NamedMore(verdicts, i);
        named := named[verdicts[i].subject := i];
      }
      assert verdicts[..|verdicts|] == verdicts;
    }

    /** The modifications a cell shows: collected in any order, then sorted. */
    method ShownKinds(c: Cell) returns (ks: seq<string>)
      ensures ks == Shows(c)
    {
      if Elsewhere(c) {
        return [];
      }
      ks := Walk(Kinds(c));
      StringOrder();
      SortsTo(ks, Kinds(c), StringLe);
      ks := StableSort(ks, StringLe);
    }

    /** Attaches the mechanisms of a cell to the verdict at k, in place. */
    method AttachAll(k: nat, c: Cell, ks: seq<string>)
      requires k < |verdicts|
      modifies this`verdicts
      ensures verdicts == old(verdicts)[k := old(verdicts)[k].(evidence := old(verdicts)[k].evidence
              + MechanismLines(c, ks))]
    {
      ghost var lines := MechanismLines(c, ks);
      ghost var was := verdicts[k].evidence;
      assert was + lines[..0] == was;
      for j := 0 to |ks|
        invariant verdicts == old(verdicts)[k := old(verdicts)[k].(evidence := was + lines[..j])]
      {
        assert lines[..j + 1] == lines[..j] + [lines[j]];
        assert was + lines[..j + 1] == was + lines[..j] + [lines[j]];
        verdicts := verdicts[k := verdicts[k].(evidence := verdicts[k].evidence
            + [Mechanism(Count(c.merged, ks[j]), c.total, ks[j])])];
      }
      assert lines[..|ks|] == lines;
    }

    /** Reports the mechanisms of a cell no verdict names. */
    method AddAll(c: Cell, ks: seq<string>)
      modifies this`verdicts
      ensures verdicts == old(verdicts) + Alone(c, ks)
    {
      hide KeyText;
      for j := 0 to |ks|
        invariant verdicts == old(verdicts) + Alone(c, ks)[..j]
      {
        verdicts := verdicts + [Verdict(ks[j], KeyText(c.key), if Count(c.merged, ks[j]) >= MEDIUM_MIN then Medium
            else Low, [])];
      }
    }

    method RuleModification()
      modifies this`verdicts
      ensures verdicts == Decorated(x, old(verdicts))
    {
      hide KeyText, Shows, MechanismLines, Alone, Attach, Named, LastAt;
      ghost var was := verdicts;
      var named := Index();
      ghost var first, added: seq<Verdict> := verdicts, [];
      SameSubjectsAt(was, was);
      for i := 0 to |x.cells|
        invariant (first, added) == Modified(x, was, i) && verdicts == first + added
        invariant |first| == |was| && forall k :: 0 <= k < |was| ==> first[k].subject == was[k].subject
      {
        var c := x.cells[i];
        var ks := ShownKinds(c);
        var s := KeyText(c.key);
        if s in named {
          LastInRange(was, s, named[s]);
          LastKept(was, first, s, named[s]);
          AttachAt(first, s, MechanismLines(c, ks), named[s]);
          AttachAll(named[s], c, ks);
          first := Attach(first, s, MechanismLines(c, ks));
        } else {
          AddAll(c, ks);
          added := added + Alone(c, ks);
        }
      }
    }

    // ---- rule 8 ----

    method SuspectPorts() returns (ports: set<int>)
      ensures ports == Suspects(x.attempts)
    {
      ports := {};
      for i := 0 to |x.attempts|
        invariant ports == Suspects(x.attempts[..i])
      {
        var a := x.attempts[i];
        SuspectsMore(x.attempts, i);
        if a.testID == "tcp.rtt" && Get(a.detail, SynAckSuspect) == "true" {
          ports := ports + {a.dstPort};
        }
      }
      assert x.attempts[..|x.attempts|] == x.attempts;
    }

    /** The fast ports: medians, reference and result are all collected in any order. */
    method FastPorts() returns (ports: seq<int>, ghost fast: set<int>)
      ensures ports == Ascending(Fast(x.attempts)) && Lists(ports, Fast(x.attempts))
      ensures fast == Fast(x.attempts)
    {
      hide MedianConnect, IsFast, TcpPorts, Median, Reference;
      var m := Medians(x.attempts);
      IntOrder();
      fast := Fast(x.attempts);
      NothingAscends();
      if |m| < MIN_PORTS {
        return [], {};
      }
      var ks := Walk(m.Keys);
      ReferenceAgrees(m, ks);
      var ref := Median(Along(m, ks));
      if ref < MIN_REF_MS {
        return [], {};
      }
      var out := Walk(set p | p in m && IsFast(m[p], ref));
      SortsTo(out, fast, IntLe);
      SortedLists(out, fast);
      ports := StableSort(out, IntLe);
    }

    method RuleSynAck() returns (ghost added: seq<Verdict>)
      modifies this`verdicts
      ensures verdicts == old(verdicts) + added && SameSubjects(added, SynAcks(x, old(verdicts)))
    {
      hide Suspected, Proxied, PortText, Fast, Ascending, Suspects, Lists, SameSubjects, InOrder;
      var was := verdicts;
      var suspects := SuspectPorts();
      var ports, fast := FastPorts();
      ghost var terminated := TerminatedAll(x.attempts, was, ports);
      for i := 0 to |ports|
        invariant verdicts == was + terminated[..i]
      {
        verdicts := verdicts + [Terminated(x.attempts, was, ports[i])];
      }
      assert terminated[..|ports|] == terminated;
      var rest := suspects - (set i | 0 <= i < |ports| :: ports[i]);
      ListsSet(ports, fast);
      var walk := Walk(rest);
      ghost var spoofed := SpoofedAll(walk);
      for i := 0 to |walk|
        invariant verdicts == was + terminated + spoofed[..i]
      {
        verdicts := verdicts + [Spoofed(walk[i])];
      }
      assert spoofed[..|walk|] == spoofed;
      added := terminated + spoofed;
      AscendingLists(rest);
      SpoofedAlike(walk, Ascending(rest), rest);
      SameAsItself(terminated);
      SameAppend(terminated, terminated, spoofed, SpoofedAll(Ascending(rest)));
      assert was + terminated + spoofed == was + added;
    }

    method RunEarly()
      requires verdicts == []
      modifies this`verdicts
      ensures verdicts == Early(x)
    {
      hide Each, Protocols, EndpointVerdict, UdpVerdict, Maybe;
      RuleEndpoint();
      RulePort("tcp");
      RulePort("udp");
      assert verdicts == Maybe(EndpointVerdict(x)) + (Each(Ports("tcp"), x) + Each(Ports("udp"), x));
      RuleUdp();
      RuleProtocol();
    }

    method RunLate()
      modifies this`verdicts
      ensures verdicts == old(verdicts) + Late(x)
    {
      hide Each, Dns, Picked, DnsReported, Apply;
      ghost var _ := RuleEach(Bulks);
      ghost var added := Each(Bulks, x);
      ghost var _ := RuleEach(Packets);
      assert verdicts == old(verdicts) + (added + Each(Packets, x));
      added := added + Each(Packets, x);
      ghost var _ := RuleEach(Bursts);
      assert verdicts == old(verdicts) + (added + Each(Bursts, x));
      added := added + Each(Bursts, x);
      ghost var _ := RuleEach(Sessions);
      assert verdicts == old(verdicts) + (added + Each(Sessions, x));
      added := added + Each(Sessions, x);
      RuleDns();
      assert verdicts == old(verdicts) + (added + Dns(x));
    }

    /** All rules, in order. Whatever order the maps were walked in, the list
        agrees on every subject with the one the functions give. */
    method Run()
      requires verdicts == []
      modifies this`verdicts
      ensures WellSpelled(x.cells) ==>
                var d := Decorated(x, Differentials(x));
                SameSubjects(verdicts, d + SynAcks(x, d))
    {
      hide Each, Early, Late, Decorated, SynAcks, SameSubjects, WellSpelled;
      RunEarly();
      ghost var variants := RuleVariant();
      RunLate();
      ghost var list := verdicts;
      RuleModification();
      ghost var decorated := verdicts;
      ghost var added := RuleSynAck();
      if WellSpelled(x.cells) {
        Between(Early(x), variants, Each(Variants, x), Late(x));
        DecoratedAlike(x, list, Differentials(x));
        ghost var d := Decorated(x, Differentials(x));
        SynAcksAlike(x, decorated, d);
        SameAppend(decorated, d, added, SynAcks(x, d));
      }
    }
  }

  // ---- helpers ----

  lemma EachCollects(r: Rule, x: Ctx)
    ensures Each(r, x) == Collect(r, x, |x.cells|)
  {
    hide Collect;
  }

  lemma GroupStep(x: Ctx, g: (string, string), cs: seq<Cell>, i: nat, vs: seq<Verdict>, seen: set<Cell>)
    requires WellSpelled(x.cells) && cs == Grouped(x.cells, g) && i < |cs|
    requires VariantsOf(x, vs, seen + CellSet(cs[..i])) && forall c :: c in seen ==> c in x.cells && GroupKey(c) != g
    ensures var r := if IsDest(g.0) then None else VariantIn(x, cs, cs[i]);
            VariantsOf(x, vs + Maybe(r), seen + CellSet(cs[..i + 1]))
  {
    hide VariantIn, KeyText, VariantsOf, GroupKey;
    var v := cs[i];
    assert v in cs;
    GroupedDistinct(x.cells, g);
    forall d | d in seen + CellSet(cs[..i]) ensures KeyText(d.key) != KeyText(v.key) {
      if d in seen { SpelledApart(x.cells, d, v); }
    }
    VariantsMore(x, vs, seen + CellSet(cs[..i]), v);
    assert cs[..i + 1] == cs[..i] + [v];
    assert seen + CellSet(cs[..i + 1]) == seen + CellSet(cs[..i]) + {v};
    GroupOf(v, g);
  }

  predicate LastAt(vs: seq<Verdict>, s: string, k: nat) {
    k < |vs| && vs[k].subject == s && forall j :: k < j < |vs| ==> vs[j].subject != s
  }

  lemma NamedMore(vs: seq<Verdict>, i: nat)
    requires i < |vs|
    ensures LastAt(vs[..i + 1], vs[i].subject, i) && Named(vs[..i + 1], vs[i].subject)
    ensures forall s :: s != vs[i].subject ==> Named(vs[..i + 1], s) == Named(vs[..i], s)
    ensures forall s, k :: s != vs[i].subject && LastAt(vs[..i], s, k) ==> LastAt(vs[..i + 1], s, k)
  {
    var a, b := vs[..i], vs[..i + 1];
    assert b[i] == vs[i] && forall j :: 0 <= j < i ==> b[j] == a[j];
    forall s | s != vs[i].subject ensures Named(b, s) == Named(a, s) {
      if Named(a, s) {
        var j :| 0 <= j < |a| && a[j].subject == s;
        assert b[j].subject == s;
      }
    }
  }

  lemma LastInRange(vs: seq<Verdict>, s: string, k: nat)
    requires LastAt(vs, s, k)
    ensures k < |vs| && Named(vs, s)
  {
  }

  lemma LastKept(vs: seq<Verdict>, ws: seq<Verdict>, s: string, k: nat)
    requires |vs| == |ws| && (forall i :: 0 <= i < |vs| ==> ws[i].subject == vs[i].subject) && LastAt(vs, s, k)
    ensures LastAt(ws, s, k)
  {
  }

  lemma SameSubjectsAt(vs: seq<Verdict>, ws: seq<Verdict>)
    requires vs == ws
    ensures forall k :: 0 <= k < |vs| ==> vs[k].subject == ws[k].subject
  {
  }

  /** Attaching is updating the last verdict on the subject. */
  lemma {:induction false} AttachAt(vs: seq<Verdict>, s: string, lines: seq<Line>, k: nat)
    requires LastAt(vs, s, k)
    ensures Attach(vs, s, lines) == vs[k := vs[k].(evidence := vs[k].evidence + lines)]
  {
    var n := |vs| - 1;
    if k == n {
      assert vs[k := vs[k].(evidence := vs[k].evidence + lines)] == vs[..n]
          + [vs[n].(evidence := vs[n].evidence + lines)];
    } else {
      assert vs[n].subject != s;
      AttachAt(vs[..n], s, lines, k);
      assert vs[k := vs[k].(evidence := vs[k].evidence + lines)]
          == vs[..n][k := vs[k].(evidence := vs[k].evidence + lines)] + [vs[n]];
    }
  }

  lemma SuspectsMore(attempts: seq<Attempt>, i: nat)
    requires i < |attempts|
    ensures Suspects(attempts[..i + 1]) == Suspects(attempts[..i])
              + if attempts[i].testID == "tcp.rtt" && Get(attempts[i].detail, SynAckSuspect) == "true"
                  then {attempts[i].dstPort} else {}
  {
    var a, b := attempts[..i], attempts[..i + 1];
    assert forall j :: 0 <= j < |b| ==> b[j] == if j < i then a[j] else attempts[i];
  }

  lemma NothingAscends()
    ensures Ascending({}) == [] && Lists<int>([], {})
  {
  }

  lemma SortedLists(l: seq<int>, s: set<int>)
    requires Lists(l, s)
    ensures Lists(StableSort(l, IntLe), s)
  {
    var k := StableSort(l, IntLe);
    SortContents(l, IntLe);
    forall p ensures p in k <==> p in s { assert p in multiset(k) <==> p in multiset(l); }
    forall i, j | 0 <= i < j < |k| ensures k[i] != k[j] {
      ListsOnce(l, k[i]);
      if k[i] == k[j] { TwiceInside(k, i, j); }
    }
  }

  lemma TwiceInside(k: seq<int>, i: nat, j: nat)
    requires i < j < |k| && k[i] == k[j]
    ensures multiset(k)[k[i]] >= 2
  {
    assert k == k[..j] + [k[j]] + k[j + 1..];
    assert k[i] == k[..j][i];
    assert k[i] in multiset(k[..j]);
  }

  lemma AscendingLists(s: set<int>)
    ensures Lists(Ascending(s), s)
  {
    ListedLists(s);
    SortedLists(Listed(s), s);
  }

  lemma ListsSet(l: seq<int>, s: set<int>)
    requires Lists(l, s)
    ensures (set i | 0 <= i < |l| :: l[i]) == s
  {
    assert forall p :: p in l <==> p in s;
  }

  lemma SameAsItself(vs: seq<Verdict>)
    ensures SameSubjects(vs, vs)
  {
  }

  lemma Between(a: seq<Verdict>, b: seq<Verdict>, c: seq<Verdict>, d: seq<Verdict>)
    requires SameSubjects(b, c)
    ensures SameSubjects(a + b + d, a + c + d)
  {
    hide SameSubjects;
    SameAsItself(a);
    SameAsItself(d);
    SameAppend(a, a, b, c);
    SameAppend(a + b, a + c, d, d);
  }

  /** The passing or the failing echoes of a transport, in order. */
  function EchoesOf(bs: seq<Cell>, tr: string, failing: bool): seq<Cell> {
    if bs == [] then []
    else
      var r, c := EchoesOf(bs[..|bs| - 1], tr, failing), bs[|bs| - 1];
      if c.key.transport == tr && (if failing then Fail(c) else Pass(c)) then r + [c] else r
  }

  lemma NotBoth(c: Cell)
    ensures !(Pass(c) && Fail(c))
  {
  }

  lemma BaselinesMore(cells: seq<Cell>)
    requires cells != [] && IsBaseline(cells[|cells| - 1])
    ensures var bs := Baselines(cells);
            bs != [] && bs[|bs| - 1] == cells[|cells| - 1] && bs[..|bs| - 1] == Baselines(cells[..|cells| - 1])
  {
  }

  /** The control of rule 2 is the first passing echo. */
  lemma {:induction false} FirstEcho(cells: seq<Cell>, tr: string)
    ensures var pass := EchoesOf(Baselines(cells), tr, false);
            FirstOf(cells, PassingEcho(tr)) == if pass == [] then None else Some(pass[0])
  {
    hide Pass, IsBaseline;
    if cells != [] {
      FirstEcho(cells[..|cells| - 1], tr);
      EchoesMore(cells, tr, false);
    }
  }

  /** What rule 2 says of a list of failing echoes. */
  function Said(x: Ctx, tr: string, fs: seq<Cell>): seq<Verdict> {
    if fs == [] then [] else Said(x, tr, fs[..|fs| - 1]) + Maybe(PortOrProxy(x, tr, fs[|fs| - 1]))
  }

  /** One cell more: a failing echo of the transport comes last. */
  lemma EchoesMore(cells: seq<Cell>, tr: string, failing: bool)
    requires cells != []
    ensures var c, before := cells[|cells| - 1], EchoesOf(Baselines(cells[..|cells| - 1]), tr, failing);
            EchoesOf(Baselines(cells), tr, failing) ==
            if IsBaseline(c) && c.key.transport == tr && (if failing then Fail(c) else Pass(c)) then before + [c]
                else before
  {
    hide IsBaseline, Pass, Fail;
    if IsBaseline(cells[|cells| - 1]) { BaselinesMore(cells); }
  }

  lemma SaidMore(x: Ctx, tr: string, fs: seq<Cell>, c: Cell)
    ensures Said(x, tr, fs + [c]) == Said(x, tr, fs) + Maybe(PortOrProxy(x, tr, c))
  {
    hide PortOrProxy;
    assert (fs + [c])[..|fs|] == fs;
  }

  lemma {:induction false} PortsSaid(x: Ctx, tr: string, n: nat)
    requires n <= |x.cells|
    ensures Collect(Ports(tr), x, n)
         == if FirstOf(x.cells, PassingEcho(tr)).None? then []
             else Said(x, tr, EchoesOf(Baselines(x.cells[..n]), tr, true))
  {
    hide Fail, Pass, IsBaseline, FirstOf, EchoesOf, Baselines, Said, PortOrProxy;
    if n > 0 {
      PortsSaid(x, tr, n - 1);
      var cells := x.cells[..n];
      assert cells[..n - 1] == x.cells[..n - 1] && cells[n - 1] == x.cells[n - 1];
      EchoesMore(cells, tr, true);
      SaidMore(x, tr, EchoesOf(Baselines(x.cells[..n - 1]), tr, true), x.cells[n - 1]);
      PortNone(x, tr, x.cells[n - 1]);
    } else {
      NothingSaid(x, tr);
      assert x.cells[..0] == [];
    }
  }

  lemma NothingSaid(x: Ctx, tr: string)
    ensures Said(x, tr, EchoesOf(Baselines([]), tr, true)) == []
  {
  }

  lemma PortNone(x: Ctx, tr: string, c: Cell)
    ensures FirstOf(x.cells, PassingEcho(tr)).None? || !IsBaseline(c) || c.key.transport != tr || !Fail(c)
            ==> PortOrProxy(x, tr, c).None?
  {
    hide Fail, IsBaseline, FirstOf, Strength, PortText;
  }

  lemma {:induction false} EchoesAre(cells: seq<Cell>, tr: string)
    ensures forall c :: c in EchoesOf(Baselines(cells), tr, true) ==> IsBaseline(c) && c.key.transport == tr && Fail(c)
  {
    hide Fail, IsBaseline;
    if cells != [] {
      EchoesAre(cells[..|cells| - 1], tr);
      EchoesMore(cells, tr, true);
    }
  }

  lemma PortVerdict(x: Ctx, tr: string, f: Cell, elsewhere: Cell, others: seq<Cell>)
    requires IsBaseline(f) && f.key.transport == tr && Fail(f) && FirstOf(x.cells, PassingEcho(tr)) == Some(elsewhere)
    requires (if others == [] then None else Some(others[0])) == FirstOf(x.cells, PassingApp(tr, f.key.port))
    ensures PortOrProxy(x, tr, f) == Some(
              if others == []
              then Verdict("port_blocking_suspected", PortText(tr, f.key.port), Strength(f, elsewhere),
                  [About(f), Against(elsewhere)])
              else Verdict("transparent_proxy_suspected", PortText(tr, f.key.port), Strength(f, others[0]),
                           [About(f), Against(others[0]), Against(elsewhere)]))
  {
    hide Fail, IsBaseline, FirstOf, Strength, PortText;
  }

  lemma AllFailMore(bs: seq<Cell>, c: Cell)
    ensures AllFail(bs + [c]) <==> AllFail(bs) && Fail(c)
  {
    hide Fail;
    var more := bs + [c];
    assert more[|bs|] == c && forall i :: 0 <= i < |bs| ==> more[i] == bs[i];
  }

  /** Passing TCP, all UDP and failing UDP baselines. */
  function EchoTally(bs: seq<Cell>): (nat, nat, nat) {
    if bs == [] then (0, 0, 0)
    else
      var (p, u, f) := EchoTally(bs[..|bs| - 1]);
      var c := bs[|bs| - 1];
      (p + (if c.key.transport == "tcp" && Pass(c) then 1 else 0), u + (if c.key.transport == "udp" then 1 else 0),
       f + if c.key.transport == "udp" && Fail(c) then 1 else 0)
  }

  lemma {:induction false} EchoTallyMeans(bs: seq<Cell>)
    ensures var (p, u, f) := EchoTally(bs);
            && f <= u
            && (p > 0 <==> exists i :: 0 <= i < |bs| && bs[i].key.transport == "tcp" && Pass(bs[i]))
            && (u > 0 <==> exists i :: 0 <= i < |bs| && bs[i].key.transport == "udp")
            && (f == u <==> forall i :: 0 <= i < |bs| && bs[i].key.transport == "udp" ==> Fail(bs[i]))
  {
    hide Pass, Fail;
    if bs != [] {
      var init := bs[..|bs| - 1];
      EchoTallyMeans(init);
      assert forall i :: 0 <= i < |init| ==> init[i] == bs[i];
    }
  }

  lemma GroupOf(v: Cell, g: (string, string))
    requires GroupKey(v) == g
    ensures v.key.test == g.0
  {
  }

  lemma SpelledApart(cells: seq<Cell>, d: Cell, v: Cell)
    requires WellSpelled(cells) && d in cells && v in cells && d != v
    ensures KeyText(d.key) != KeyText(v.key)
  {
    var i :| 0 <= i < |cells| && cells[i] == d;
    var j :| 0 <= j < |cells| && cells[j] == v;
    assert i != j;
  }

  /** The groups of the cells, by family and port. */
  method GroupUp(cells: seq<Cell>) returns (m: map<(string, string), seq<Cell>>)
    ensures forall g :: g in m ==> m[g] == Grouped(cells, g)
    ensures forall c :: c in cells ==> GroupKey(c) in m
  {
    hide GroupKey;
    m := map[];
    for i := 0 to |cells|
      invariant forall g :: g in m ==> m[g] == Grouped(cells[..i], g)
      invariant forall g :: g !in m ==> Grouped(cells[..i], g) == []
      invariant forall c :: c in cells[..i] ==> GroupKey(c) in m
    {
      assert cells[..i + 1][..i] == cells[..i];
      var g := GroupKey(cells[i]);
      m := m[g := (if g in m then m[g] else []) + [cells[i]]];
    }
    assert cells[..|cells|] == cells;
  }

  lemma {:induction false} GroupedDistinct(cells: seq<Cell>, g: (string, string))
    requires WellSpelled(cells)
    ensures WellSpelled(Grouped(cells, g))
  {
    hide KeyText, GroupKey;
    if cells != [] {
      var init, last := cells[..|cells| - 1], cells[|cells| - 1];
      GroupedDistinct(init, g);
      var r := Grouped(init, g);
      forall i | 0 <= i < |r| ensures KeyText(r[i].key) != KeyText(last.key) {
        assert r[i] in init;
        var k :| 0 <= k < |init| && init[k] == r[i];
        assert cells[k] == r[i];
      }
    }
  }
}
