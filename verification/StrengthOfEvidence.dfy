/** How much stands behind a verdict: across all rules, a high one rests on a cell
    with at least three measured attempts and on a control that passed. */
module StrengthOfEvidence {
  import opened Base
  import opened Text
  import opened Evidence
  import opened Sorting
  import opened Cells
  import opened Rules
  import opened Mechanisms
  import opened SynAck
  import opened Dest
  import opened RuleFacts

  /** v names f, which was measured often enough and does not pass, and p, which does. */
  predicate Rests(cells: seq<Cell>, v: Verdict, f: Cell, p: Cell) {
    && f in cells && p in cells && About(f) in v.evidence && Against(p) in v.evidence
    && Measured(f) >= HIGH_MIN && !Pass(f) && Pass(p)
  }

  ghost predicate Backed(cells: seq<Cell>, v: Verdict) { v.conf == High ==> exists f, p :: Rests(cells, v, f, p) }

  ghost predicate MaybeBacked(cells: seq<Cell>, r: Option<Verdict>) { r.Some? ==> Backed(cells, r.value) }

  ghost predicate AllBacked(cells: seq<Cell>, vs: seq<Verdict>) { forall i :: 0 <= i < |vs| ==> Backed(cells, vs[i]) }

  /** The usual case: the confidence is that of a cell against a control both named. */
  lemma StrengthBacks(cells: seq<Cell>, v: Verdict, f: Cell, p: Cell)
    requires f in cells && p in cells && About(f) in v.evidence && Against(p) in v.evidence
    requires v.conf == High ==> Strength(f, p) == High
    ensures Backed(cells, v)
  {
    if v.conf == High { assert Rests(cells, v, f, p); }
  }

  lemma PortBacked(x: Ctx, tr: string, c: Cell)
    requires c in x.cells
    ensures MaybeBacked(x.cells, PortOrProxy(x, tr, c))
  {
    hide Backed, Strength, PortText, Meets;
    var r := PortOrProxy(x, tr, c);
    if r.Some? {
      var elsewhere, app := FirstOf(x.cells, PassingEcho(tr)), FirstOf(x.cells, PassingApp(tr, c.key.port));
      StrengthBacks(x.cells, r.value, c, if app.Some? then app.value else elsewhere.value);
    }
  }

  lemma BulkBacked(x: Ctx, c: Cell)
    requires c in x.cells
    ensures MaybeBacked(x.cells, BulkCut(x, c)) && MaybeBacked(x.cells, PacketCut(x, c))
  {
    hide Backed, Strength, KeyText, Contains, Matches;
    if BulkCut(x, c).Some? {
      StrengthBacks(x.cells, BulkCut(x, c).value, c, Find(x.cells, "tcp.echo", c.key.transport, c.key.port, "").value);
    }
    if PacketCut(x, c).Some? { StrengthBacks(x.cells, PacketCut(x, c).value, c, EchoCell(x.cells, c).value); }
  }

  lemma BurstBacked(x: Ctx, c: Cell)
    requires c in x.cells
    ensures MaybeBacked(x.cells, BurstFreeze(x, c))
  {
    hide Backed, Strength, KeyText, Matches;
    var r := BurstFreeze(x, c);
    if r.Some? {
      var outer := OuterControl(x, c);
      if Passes(outer) {
        assert r.value.evidence[0] == About(c) && r.value.evidence[1] == Against(outer.value);
        StrengthBacks(x.cells, r.value, c, outer.value);
      } else {
        NotHighBacked(x.cells, r.value);
      }
    }
  }

  lemma NotHighBacked(cells: seq<Cell>, v: Verdict)
    requires v.conf != High
    ensures Backed(cells, v)
  {
  }

  lemma SessionBacked(x: Ctx, c: Cell)
    requires c in x.cells
    ensures MaybeBacked(x.cells, SessionCut(x, c))
  {
    hide KeyText, Matches, HandshakeTest, TrimSuffix, HandshakeCell;
    var r := SessionCut(x, c);
    if r.Some? && r.value.conf == High {
      var init := HandshakeCell(x.cells, c);
      assert r.value.evidence[0] == About(c) && r.value.evidence[1] == Against(init.value);
      assert Rests(x.cells, r.value, c, init.value);
    }
  }

  lemma DnsBacked(x: Ctx, udpOnly: bool, c: Cell)
    requires c in x.cells
    ensures MaybeBacked(x.cells, DnsManipulation(x, c)) && MaybeBacked(x.cells, DnsPort(x, udpOnly, c))
  {
    hide Backed, Strength, KeyText, Matches, Meets;
    if DnsManipulation(x, c).Some? { NotHighBacked(x.cells, DnsManipulation(x, c).value); }
    if DnsPort(x, udpOnly, c).Some? {
      StrengthBacks(x.cells, DnsPort(x, udpOnly, c).value, c,
          FirstOf(x.cells, PassingTest(PlainTest(c.key.transport, "echo"))).value);
    }
  }

  lemma DnsUdpBacked(x: Ctx)
    ensures MaybeBacked(x.cells, DnsUdp(x))
  {
    hide Backed, Strength, KeyText;
    if DnsUdp(x).Some? {
      StrengthBacks(x.cells, DnsUdp(x).value, LastOf(x.cells, "dns.udp", "TXT").value,
          LastOf(x.cells, "dns.tcp", "").value);
    }
  }

  lemma VariantBacked(x: Ctx, c: Cell)
    requires c in x.cells
    ensures MaybeBacked(x.cells, VariantOf(x, c))
  {
    hide Backed, Strength, KeyText, VariantKind, HandshakeCell, GroupKey;
    if VariantOf(x, c).Some? {
      StrengthBacks(x.cells, VariantOf(x, c).value, c, VariantBaseline(c.key.test,
          Grouped(x.cells, GroupKey(c))).value);
    }
  }

  lemma ProtocolBacked(x: Ctx, c: Cell)
    requires c in x.cells
    ensures MaybeBacked(x.cells, ProtocolOf(x, c))
  {
    hide Backed, Strength, KeyText, FamilyText, HandshakeCell, Matches, FamilyFails, NatDetected;
    var r := ProtocolOf(x, c);
    if r.Some? {
      var echo := EchoCell(x.cells, c);
      assert r.value.evidence[0] == About(c) && Against(echo.value) in r.value.evidence;
      StrengthBacks(x.cells, r.value, c, echo.value);
    }
  }

  lemma ApplyBacked(r: Rule, x: Ctx, c: Cell)
    requires c in x.cells
    ensures MaybeBacked(x.cells, Apply(r, x, c))
  {
    hide PortOrProxy, VariantOf, BulkCut, PacketCut, BurstFreeze, SessionCut, DnsManipulation, DnsPort, MaybeBacked;
    match r
    case Ports(tr) => PortBacked(x, tr, c);
    case Variants => VariantBacked(x, c);
    case Bulks => BulkBacked(x, c);
    case Packets => BulkBacked(x, c);
    case Bursts => BurstBacked(x, c);
    case Sessions => SessionBacked(x, c);
    case Manipulated => DnsBacked(x, UdpOnly(x), c);
    case DnsPorts => DnsBacked(x, UdpOnly(x), c);
  }

  lemma {:induction false} CollectBacked(r: Rule, x: Ctx, n: nat)
    requires n <= |x.cells|
    ensures AllBacked(x.cells, Collect(r, x, n))
  {
    hide Apply, Backed;
    if n > 0 {
      CollectBacked(r, x, n - 1);
      ApplyBacked(r, x, x.cells[n - 1]);
    }
  }

  lemma {:induction false} ProtocolsBacked(x: Ctx, n: nat)
    requires n <= |x.cells|
    ensures AllBacked(x.cells, Protocols(x, n).0)
  {
    hide ProtocolOf, Backed, Family;
    if n > 0 {
      ProtocolsBacked(x, n - 1);
      ProtocolBacked(x, x.cells[n - 1]);
    }
  }

  lemma AppendBacked(cells: seq<Cell>, vs: seq<Verdict>, ws: seq<Verdict>)
    requires AllBacked(cells, vs) && AllBacked(cells, ws)
    ensures AllBacked(cells, vs + ws)
  {
    hide Backed;
  }

  lemma MaybesBacked(x: Ctx)
    ensures AllBacked(x.cells, Maybe(EndpointVerdict(x))) && AllBacked(x.cells, Maybe(UdpVerdict(x)))
            && AllBacked(x.cells, Maybe(DnsUdp(x)))
  {
    hide Baselines, AllFail, UdpSilent, DnsUdp;
    DnsUdpBacked(x);
  }

  lemma EarlyBacked(x: Ctx)
    ensures AllBacked(x.cells, Early(x))
  {
    hide AllBacked, Collect, Protocols, EndpointVerdict, UdpVerdict, DnsUdp, Maybe;
    var n := |x.cells|;
    MaybesBacked(x);
    ProtocolsBacked(x, n);
    CollectBacked(Ports("tcp"), x, n);
    CollectBacked(Ports("udp"), x, n);
    var ports := Each(Ports("tcp"), x) + Each(Ports("udp"), x);
    AppendBacked(x.cells, Each(Ports("tcp"), x), Each(Ports("udp"), x));
    var a := Maybe(EndpointVerdict(x)) + ports;
    AppendBacked(x.cells, Maybe(EndpointVerdict(x)), ports);
    AppendBacked(x.cells, a, Maybe(UdpVerdict(x)));
    AppendBacked(x.cells, a + Maybe(UdpVerdict(x)), Protocols(x, n).0);
  }

  lemma LateBacked(x: Ctx)
    ensures AllBacked(x.cells, Late(x))
  {
    hide AllBacked, Collect, DnsUdp, Maybe;
    var n := |x.cells|;
    MaybesBacked(x);
    CollectBacked(Bulks, x, n);
    CollectBacked(Packets, x, n);
    CollectBacked(Bursts, x, n);
    CollectBacked(Sessions, x, n);
    CollectBacked(Manipulated, x, n);
    CollectBacked(DnsPorts, x, n);
    AppendBacked(x.cells, Each(Manipulated, x), Maybe(DnsUdp(x)));
    AppendBacked(x.cells, Each(Manipulated, x) + Maybe(DnsUdp(x)), Each(DnsPorts, x));
    var a := Each(Bulks, x) + Each(Packets, x);
    AppendBacked(x.cells, Each(Bulks, x), Each(Packets, x));
    AppendBacked(x.cells, a, Each(Bursts, x));
    AppendBacked(x.cells, a + Each(Bursts, x), Each(Sessions, x));
    AppendBacked(x.cells, a + Each(Bursts, x) + Each(Sessions, x), Dns(x));
  }

  lemma DifferentialsBacked(x: Ctx)
    ensures AllBacked(x.cells, Differentials(x))
  {
    hide AllBacked, Collect, Early, Late;
    EarlyBacked(x);
    CollectBacked(Variants, x, |x.cells|);
    LateBacked(x);
    AppendBacked(x.cells, Early(x), Each(Variants, x));
    AppendBacked(x.cells, Early(x) + Each(Variants, x), Late(x));
  }

  // ---- rules 7 and 8, and the destinations ----

  lemma MoreEvidence(cells: seq<Cell>, v: Verdict, lines: seq<Line>)
    requires Backed(cells, v)
    ensures Backed(cells, v.(evidence := v.evidence + lines))
  {
    if v.conf == High {
      var f, p :| Rests(cells, v, f, p);
      assert Rests(cells, v.(evidence := v.evidence + lines), f, p);
    }
  }

  lemma {:induction false} AttachBacked(cells: seq<Cell>, vs: seq<Verdict>, s: string, lines: seq<Line>)
    requires AllBacked(cells, vs)
    ensures AllBacked(cells, Attach(vs, s, lines))
  {
    hide Backed;
    if vs != [] {
      AttachBacked(cells, vs[..|vs| - 1], s, lines);
      MoreEvidence(cells, vs[|vs| - 1], lines);
    }
  }

  lemma ModestBacked(cells: seq<Cell>, vs: seq<Verdict>)
    requires NoneHigh(vs)
    ensures AllBacked(cells, vs)
  {
  }

  lemma {:induction false} ModifiedBacked(x: Ctx, vs: seq<Verdict>, n: nat)
    requires n <= |x.cells| && AllBacked(x.cells, vs)
    ensures AllBacked(x.cells, Modified(x, vs, n).0) && NoneHigh(Modified(x, vs, n).1)
  {
    hide AllBacked, Named, KeyText, Shows, MechanismLines, Attach;
    if n > 0 {
      ModifiedBacked(x, vs, n - 1);
      var c := x.cells[n - 1];
      AttachBacked(x.cells, Modified(x, vs, n - 1).0, KeyText(c.key), MechanismLines(c, Shows(c)));
    }
  }

  /** Every verdict of the classifier, before they are put in order. */
  ghost function Unsorted(x: Ctx): seq<Verdict> {
    var d := Decorated(x, Differentials(x));
    d + SynAcks(x, d) + Destinations(x)
  }

  ghost function Verdicts(x: Ctx): seq<Verdict> { StableSort(Unsorted(x), VerdictLe) }

  lemma SynAcksModest(x: Ctx, vs: seq<Verdict>)
    ensures NoneHigh(SynAcks(x, vs))
  {
    hide Fast, Ascending, Suspected, Proxied, PortText;
  }

  lemma UnsortedBacked(x: Ctx)
    ensures AllBacked(x.cells, Unsorted(x))
  {
    hide AllBacked, NoneHigh, Differentials, Modified, SynAcks, Destinations;
    var n, vs := |x.cells|, Differentials(x);
    DifferentialsBacked(x);
    ModifiedBacked(x, vs, n);
    ModestBacked(x.cells, Modified(x, vs, n).1);
    var d := Decorated(x, vs);
    AppendBacked(x.cells, Modified(x, vs, n).0, Modified(x, vs, n).1);
    SynAcksModest(x, d);
    ModestBacked(x.cells, SynAcks(x, d));
    AppendBacked(x.cells, d, SynAcks(x, d));
    DestinationsNeverHigh(x);
    ModestBacked(x.cells, Destinations(x));
    AppendBacked(x.cells, d + SynAcks(x, d), Destinations(x));
  }

  /** Across all rules: every high verdict rests on a cell measured at least three
      times and on a control that passed in a majority of its measured attempts,
      and both are in its evidence. */
  lemma HighIsBacked(x: Ctx, v: Verdict)
    requires v in Verdicts(x) && v.conf == High
    ensures exists f, p :: Rests(x.cells, v, f, p)
  {
    hide Unsorted, Rests;
    UnsortedBacked(x);
    SortContents(Unsorted(x), VerdictLe);
    assert v in multiset(Verdicts(x));
    assert v in Unsorted(x);
  }

  // ---- no failure in isolation ----

  /** v names a measured cell that does not pass, and a control that does. */
  predicate Compares(cells: seq<Cell>, v: Verdict, f: Cell, p: Cell) {
    f in cells && p in cells && About(f) in v.evidence && Against(p) in v.evidence && Measured(f) != 0 && !Pass(f)
        && Pass(p)
  }

  ghost predicate Compared(cells: seq<Cell>, v: Verdict) { exists f, p :: Compares(cells, v, f, p) }

  lemma ComparedBy(cells: seq<Cell>, v: Verdict, f: Cell, p: Cell)
    requires Compares(cells, v, f, p)
    ensures Compared(cells, v)
  {
  }

  lemma PortCompares(x: Ctx, tr: string, c: Cell)
    requires c in x.cells && PortOrProxy(x, tr, c).Some?
    ensures Compared(x.cells, PortOrProxy(x, tr, c).value)
  {
    hide Compared, Strength, PortText;
    var elsewhere, app := FirstOf(x.cells, PassingEcho(tr)), FirstOf(x.cells, PassingApp(tr, c.key.port));
    ComparedBy(x.cells, PortOrProxy(x, tr, c).value, c, if app.Some? then app.value else elsewhere.value);
  }

  lemma FlowCompares(x: Ctx, c: Cell)
    requires c in x.cells
    ensures BulkCut(x, c).Some? ==> Compared(x.cells, BulkCut(x, c).value)
    ensures PacketCut(x, c).Some? ==> Compared(x.cells, PacketCut(x, c).value)
  {
    hide Compared, Strength, KeyText, Contains, Matches;
    if BulkCut(x, c).Some? {
      ComparedBy(x.cells, BulkCut(x, c).value, c, Find(x.cells, "tcp.echo", c.key.transport, c.key.port, "").value);
    }
    if PacketCut(x, c).Some? { ComparedBy(x.cells, PacketCut(x, c).value, c, EchoCell(x.cells, c).value); }
  }

  lemma SessionCompares(x: Ctx, c: Cell)
    requires c in x.cells && SessionCut(x, c).Some?
    ensures Compared(x.cells, SessionCut(x, c).value)
  {
    hide Compared, Strength, KeyText, HandshakeTest, TrimSuffix, HandshakeCell, Matches;
    var v, init := SessionCut(x, c).value, HandshakeCell(x.cells, c);
    assert v.evidence[0] == About(c) && v.evidence[1] == Against(init.value);
    ComparedBy(x.cells, v, c, init.value);
  }

  lemma DnsCompares(x: Ctx, udpOnly: bool, c: Cell)
    requires c in x.cells
    ensures DnsPort(x, udpOnly, c).Some? ==> Compared(x.cells, DnsPort(x, udpOnly, c).value)
    ensures DnsUdp(x).Some? ==> Compared(x.cells, DnsUdp(x).value)
  {
    hide Compared, Strength, KeyText, Matches;
    if DnsPort(x, udpOnly, c).Some? {
      ComparedBy(x.cells, DnsPort(x, udpOnly, c).value, c,
          FirstOf(x.cells, PassingTest(PlainTest(c.key.transport, "echo"))).value);
    }
    if DnsUdp(x).Some? {
      ComparedBy(x.cells, DnsUdp(x).value, LastOf(x.cells, "dns.udp", "TXT").value,
          LastOf(x.cells, "dns.tcp", "").value);
    }
  }

  lemma VariantCompares(x: Ctx, c: Cell)
    requires c in x.cells && VariantOf(x, c).Some?
    ensures Compared(x.cells, VariantOf(x, c).value)
  {
    hide Compared, Strength, KeyText, VariantKind, HandshakeCell, GroupKey;
    ComparedBy(x.cells, VariantOf(x, c).value, c, VariantBaseline(c.key.test, Grouped(x.cells, GroupKey(c))).value);
  }

  lemma ProtocolCompares(x: Ctx, c: Cell)
    requires c in x.cells && ProtocolOf(x, c).Some?
    ensures Compared(x.cells, ProtocolOf(x, c).value)
  {
    hide Compared, Strength, KeyText, FamilyText, HandshakeCell, Matches, FamilyFails, NatDetected;
    var v, echo := ProtocolOf(x, c).value, EchoCell(x.cells, c);
    assert v.evidence[0] == About(c) && Against(echo.value) in v.evidence;
    ComparedBy(x.cells, v, c, echo.value);
  }

  /** A frozen burst has a control when the single handshake on its port passes,
      or the same burst under another fingerprint does. */
  lemma BurstCompares(x: Ctx, c: Cell)
    requires c in x.cells && BurstFreeze(x, c).Some?
    ensures Compared(x.cells, BurstFreeze(x, c).value) <==> BurstControlled(x, c)
  {
    hide Compared, Strength, KeyText;
    var v, outer := BurstFreeze(x, c).value, OuterControl(x, c);
    var first := [About(c)] + Controls(outer);
    assert v.evidence == first + Peers(x.cells, c);
    if BurstControlled(x, c) {
      assert v.evidence[0] == About(c);
      if Passes(outer) {
        assert v.evidence[1] == Against(outer.value);
        ComparedBy(x.cells, v, c, outer.value);
      } else {
        var p :| p in x.cells && IsPeer(p, c) && Pass(p);
        assert Against(p) in Peers(x.cells, c);
        ComparedBy(x.cells, v, c, p);
      }
    }
    if Compared(x.cells, v) {
      var f, p := ComparedHow(x.cells, v);
      assert f == c;
    }
  }

  ghost predicate BurstControlled(x: Ctx, c: Cell) {
    Measured(c) != 0 && (Passes(OuterControl(x, c)) || exists p :: p in x.cells && IsPeer(p, c) && Pass(p))
  }

  lemma ComparedHow(cells: seq<Cell>, v: Verdict) returns (f: Cell, p: Cell)
    requires Compared(cells, v)
    ensures Compares(cells, v, f, p)
  {
    f, p :| Compares(cells, v, f, p);
  }

  lemma ManipulationStandsAlone(x: Ctx, c: Cell)
    requires DnsManipulation(x, c).Some?
    ensures !Compared(x.cells, DnsManipulation(x, c).value)
  {
  }

  /** When every baseline fails there is nothing to compare with. */
  lemma EndpointStandsAlone(x: Ctx)
    requires EndpointVerdict(x).Some?
    ensures !Compared(x.cells, EndpointVerdict(x).value)
  {
  }

  /** What a caller can tell beforehand: whether a verdict of the rule has a control. */
  ghost predicate Controlled(r: Rule, x: Ctx, c: Cell) {
    match r
    case Manipulated => false
    case Bursts => BurstControlled(x, c)
    case _ => true
  }

  /** Whatever its confidence, a verdict on a cell names the measured cell that
      does not pass and a control that does: always, but for a manipulated answer
      and for a burst without a passing control. */
  lemma NoFailureInIsolation(r: Rule, x: Ctx, c: Cell)
    requires c in x.cells && Apply(r, x, c).Some?
    ensures Compared(x.cells, Apply(r, x, c).value) <==> Controlled(r, x, c)
  {
    hide PortOrProxy, VariantOf, BulkCut, PacketCut, BurstFreeze, SessionCut, DnsManipulation, DnsPort, Compared,
        BurstControlled;
    match r
    case Ports(tr) => PortCompares(x, tr, c);
    case Variants => VariantCompares(x, c);
    case Bulks => FlowCompares(x, c);
    case Packets => FlowCompares(x, c);
    case Bursts => BurstCompares(x, c);
    case Sessions => SessionCompares(x, c);
    case Manipulated => ManipulationStandsAlone(x, c);
    case DnsPorts => DnsCompares(x, UdpOnly(x), c);
  }

  /** A scan of one frozen burst: its verdict stands alone. */
  lemma SomeBurstStandsAlone(port: int, variant: string, hostOf: string -> string)
    ensures var a := Tried("tls.burst", Variant, variant, "tcp", port, BURST_FREEZE);
            var x := Context([a], hostOf);
            x.cells == [CellFrom(a)] && BurstFreeze(x, CellFrom(a)).Some?
                && !Compared(x.cells, BurstFreeze(x, CellFrom(a)).value)
  {
    hide Compared, Strength, KeyText, Aggregated;
    var a := Tried("tls.burst", Variant, variant, "tcp", port, BURST_FREEZE);
    TriedCounts("tls.burst", Variant, variant, "tcp", port, BURST_FREEZE);
    OneCell(a);
    BurstCompares(Context([a], hostOf), CellFrom(a));
  }

  /** So does the verdict on a scan of one manipulated answer. */
  lemma SomeManipulationStandsAlone(port: int, hostOf: string -> string)
    ensures var a := Tried("dns.udp", Baseline, "TXT", "udp", port, DNS_MISMATCH);
            var x := Context([a], hostOf);
            x.cells == [CellFrom(a)] && DnsManipulation(x, CellFrom(a)).Some?
                && !Compared(x.cells, DnsManipulation(x, CellFrom(a)).value)
  {
    hide Compared, KeyText, Aggregated;
    var a := Tried("dns.udp", Baseline, "TXT", "udp", port, DNS_MISMATCH);
    TriedCounts("dns.udp", Baseline, "TXT", "udp", port, DNS_MISMATCH);
    OneCell(a);
    ManipulationStandsAlone(Context([a], hostOf), CellFrom(a));
  }

  /** And the verdict on a scan of one echo that found no answer. */
  lemma SomeEndpointStandsAlone(port: int, hostOf: string -> string)
    ensures var a := Tried("tcp.echo", Baseline, "", "tcp", port, CONNECT_TIMEOUT);
            var x := Context([a], hostOf);
            x.cells == [CellFrom(a)] && EndpointVerdict(x).Some? && !Compared(x.cells, EndpointVerdict(x).value)
  {
    hide Compared, KeyText, Aggregated;
    var a := Tried("tcp.echo", Baseline, "", "tcp", port, CONNECT_TIMEOUT);
    TriedCounts("tcp.echo", Baseline, "", "tcp", port, CONNECT_TIMEOUT);
    OneCell(a);
    var x := Context([a], hostOf);
    assert x.cells[..0] == [];
    assert Baselines(x.cells) == [CellFrom(a)];
    EndpointStandsAlone(x);
  }
}
