/** Which verdicts on real destinations name a control that passed, and what a
    resolver that cannot be trusted still lets be said (internal/classify/dest.go). */
module DestControls {
  import opened Base
  import opened Text
  import opened Evidence
  import opened Sorting
  import opened Cells
  import opened Rules
  import opened RuleFacts
  import opened Dest

  // ---- where a verdict comes from ----

  /** The places a verdict of the family can come from. */
  datatype Place =
    | Hijack | Anycast | Down | Unreliable
    | DnsOf(d: string) | TcpOf(d: string) | TlsOf(d: string) | ProtoOf(d: string) | HttpOf(d: string)

  function DownVerdict(y: Yardstick): Option<Verdict> {
    if SystemDown(y)
    then Some(Verdict("system_resolver_unreachable_suspected", "dest.dns udp/53",
                      if Passes(y.anycast) && y.timeouts >= RESOLVER_MIN_SITES then Medium else Low,
                      if Passes(y.anycast) then [Against(y.anycast.value)] else []))
    else None
  }

  function UnreliableVerdict(y: Yardstick): Option<Verdict> {
    if SystemUnreliable(y) then Some(Verdict("system_resolver_unreliable_suspected", "dest.dns udp/53", Low, []))
        else None
  }

  /** The verdict of a place, if it gives one. */
  function SaidAt(x: Ctx, p: Place): Option<Verdict> {
    var y := Yard(x);
    match p
    case Hijack => NxDomain(x)
    case Anycast => NoAnycast(y)
    case Down => DownVerdict(y)
    case Unreliable => UnreliableVerdict(y)
    case DnsOf(d) => SiteDns(x, y, d)
    case TcpOf(d) => SiteTcp(x, y, d)
    case TlsOf(d) => SiteTls(x, y, d)
    case ProtoOf(d) => SiteProto(x, y, d)
    case HttpOf(d) => SiteHttp(x, d)
  }

  predicate InScope(x: Ctx, p: Place) {
    match p
    case Hijack => true
    case Anycast => Domains(x.cells) != []
    case Down => Domains(x.cells) != []
    case Unreliable => Domains(x.cells) != []
    case _ => p.d in Domains(x.cells)
  }

  lemma MaybeHas(r: Option<Verdict>, v: Verdict)
    ensures v in Maybe(r) <==> r == Some(v)
  {
  }

  lemma ResolverHas(y: Yardstick, v: Verdict)
    ensures v in Resolver(y) <==> DownVerdict(y) == Some(v) || UnreliableVerdict(y) == Some(v)
  {
    hide SystemDown, SystemUnreliable;
  }

  ghost predicate FromSite(x: Ctx, d: string, v: Verdict) {
    || SaidAt(x, DnsOf(d)) == Some(v) || SaidAt(x, TcpOf(d)) == Some(v) || SaidAt(x, TlsOf(d)) == Some(v)
    || SaidAt(x, ProtoOf(d)) == Some(v) || SaidAt(x, HttpOf(d)) == Some(v)
  }

  lemma SiteHas(x: Ctx, d: string, v: Verdict)
    ensures v in Site(x, Yard(x), d) <==> FromSite(x, d, v)
  {
    hide SiteDns, SiteTcp, SiteTls, SiteProto, SiteHttp, Maybe, Yard;
    var y := Yard(x);
    MaybeHas(SiteDns(x, y, d), v);
    MaybeHas(SiteTcp(x, y, d), v);
    MaybeHas(SiteTls(x, y, d), v);
    MaybeHas(SiteProto(x, y, d), v);
    MaybeHas(SiteHttp(x, d), v);
  }

  lemma {:induction false} SitesHave(x: Ctx, ds: seq<string>, v: Verdict)
    ensures v in Sites(x, Yard(x), ds) <==> exists i :: 0 <= i < |ds| && FromSite(x, ds[i], v)
  {
    hide Site, FromSite, Yard;
    if ds != [] {
      var init, d := ds[..|ds| - 1], ds[|ds| - 1];
      SitesHave(x, init, v);
      SiteHas(x, d, v);
      if i :| 0 <= i < |init| && FromSite(x, init[i], v) {
        assert ds[i] == init[i];
      }
      if i :| 0 <= i < |ds| && FromSite(x, ds[i], v) {
        assert i < |init| ==> init[i] == ds[i];
      }
    }
  }

  /** The sorted domains are the domains. */
  lemma SortedDomains(ds: seq<string>, d: string)
    ensures d in StableSort(ds, StringLe) <==> d in ds
    ensures StableSort(ds, StringLe) == [] <==> ds == []
  {
    SortContents(ds, StringLe);
    assert d in multiset(StableSort(ds, StringLe)) <==> d in multiset(ds);
    assert |multiset(StableSort(ds, StringLe))| == |StableSort(ds, StringLe)| && |multiset(ds)| == |ds|;
  }

  /** The verdicts of the family are exactly those of its places. */
  lemma DestinationsAre(x: Ctx, v: Verdict)
    ensures v in Destinations(x) <==> exists p :: InScope(x, p) && SaidAt(x, p) == Some(v)
  {
    hide NxDomain, NoAnycast, Resolver, Sites, StableSort, Domains, Yard, SaidAt, Maybe, FromSite;
    var ds := StableSort(Domains(x.cells), StringLe);
    MaybeHas(NxDomain(x), v);
    MaybeHas(NoAnycast(Yard(x)), v);
    ResolverHas(Yard(x), v);
    SitesHave(x, ds, v);
    FamilySays(x);
    if v in Destinations(x) {
      if NxDomain(x) == Some(v) {
        assert InScope(x, Hijack);
      } else if NoAnycast(Yard(x)) == Some(v) {
        SortedDomains(Domains(x.cells), "");
        assert InScope(x, Anycast);
      } else if v in Resolver(Yard(x)) {
        SortedDomains(Domains(x.cells), "");
        assert InScope(x, Down) && InScope(x, Unreliable);
      } else {
        var i :| 0 <= i < |ds| && FromSite(x, ds[i], v);
        SortedDomains(Domains(x.cells), ds[i]);
        FromSomewhere(x, ds[i], v);
      }
    }
    if p :| InScope(x, p) && SaidAt(x, p) == Some(v) {
      if !p.Hijack? && !p.Anycast? && !p.Down? && !p.Unreliable? {
        SortedDomains(Domains(x.cells), p.d);
        var i :| 0 <= i < |ds| && ds[i] == p.d;
        SiteSays(x, p, v);
      } else {
        SortedDomains(Domains(x.cells), "");
      }
    }
  }

  lemma FamilySays(x: Ctx)
    ensures SaidAt(x, Hijack) == NxDomain(x) && SaidAt(x, Anycast) == NoAnycast(Yard(x))
    ensures SaidAt(x, Down) == DownVerdict(Yard(x)) && SaidAt(x, Unreliable) == UnreliableVerdict(Yard(x))
  {
    hide NxDomain, NoAnycast, DownVerdict, UnreliableVerdict, Yard, SiteDns, SiteTcp, SiteTls, SiteProto, SiteHttp;
  }

  lemma FromSomewhere(x: Ctx, d: string, v: Verdict)
    requires FromSite(x, d, v) && d in Domains(x.cells)
    ensures exists p :: InScope(x, p) && SaidAt(x, p) == Some(v)
  {
    hide SaidAt, Domains;
    assert InScope(x, DnsOf(d)) && InScope(x, TcpOf(d)) && InScope(x, TlsOf(d)) && InScope(x, ProtoOf(d))
        && InScope(x, HttpOf(d));
  }

  lemma SiteSays(x: Ctx, p: Place, v: Verdict)
    requires !p.Hijack? && !p.Anycast? && !p.Down? && !p.Unreliable? && SaidAt(x, p) == Some(v)
    ensures FromSite(x, p.d, v)
  {
    hide SaidAt;
  }

  // ---- the control that passed ----

  /** v names, as its control, a cell that passed. */
  ghost predicate Vouched(cells: seq<Cell>, v: Verdict) {
    exists p :: p in cells && Against(p) in v.evidence && Pass(p)
  }

  lemma {:induction false} LookupHolds(cells: seq<Cell>, test: string, variant: string)
    ensures match Lookup(cells, test, variant)
            case None => forall c :: c in cells ==> !(c.key.test == test && c.key.variant == variant)
            case Some(c) => c in cells && c.key.test == test && c.key.variant == variant
  {
    if cells != [] { LookupHolds(cells[..|cells| - 1], test, variant); }
  }

  lemma {:induction false} DnsControlHolds(cells: seq<Cell>)
    ensures match DnsControl(cells)
            case None => forall c :: c in cells ==> !(c.key.test == "dest.dns" && Pass(c))
            case Some(c) => c in cells && c.key.test == "dest.dns" && Pass(c)
  {
    hide Pass;
    if cells != [] { DnsControlHolds(cells[..|cells| - 1]); }
  }

  /** When a verdict of the place has a passing control to name. */
  predicate HasControl(x: Ctx, p: Place) {
    var y := Yard(x);
    match p
    case Hijack => false
    case Anycast => false
    case Down => Passes(y.anycast)
    case Unreliable => false
    case DnsOf(d) => y.dnsControl.Some? || DnsTimedOut(x, d)
    case TcpOf(d) => true
    case TlsOf(d) =>
      var c := Lookup(x.cells, "dest.tls", d);
      c.Some? && TlsHasControl(c.value, Lookup(x.cells, "dest.tcp", d), Lookup(x.cells, "dest.tls", "decoy:" + d),
                               Lookup(x.cells, "dest.tls", "absent:" + d))
    case ProtoOf(d) => Passes(Lookup(x.cells, "dest.tcp", d))
    case HttpOf(d) => Refused(x, d)
  }

  predicate DnsTimedOut(x: Ctx, d: string) {
    var dns := Lookup(x.cells, "dest.dns", d);
    dns.Some? && Dominant(dns.value) == DNS_TIMEOUT
  }

  predicate Refused(x: Ctx, d: string) {
    var http := Lookup(x.cells, "dest.http", d);
    http.Some? && Dominant(http.value) == HTTP_LEGAL_BLOCK
  }

  lemma FamilyControl(x: Ctx, p: Place)
    requires (p.Hijack? || p.Anycast? || p.Down? || p.Unreliable?) && SaidAt(x, p).Some?
    ensures Vouched(x.cells, SaidAt(x, p).value) <==> HasControl(x, p)
  {
    hide Dominant, KeyText, SystemDown, SystemUnreliable, Pass;
    LookupHolds(x.cells, "dest.tcp", "anycast");
  }

  lemma DnsControlNamed(x: Ctx, d: string)
    requires SiteDns(x, Yard(x), d).Some?
    ensures Vouched(x.cells, SiteDns(x, Yard(x), d).value) <==> HasControl(x, DnsOf(d))
  {
    hide Dominant, KeyText, SystemDown, SystemUnreliable, Pass, Capped, Failed, Lookup, DnsControl, Vouched;
    LookupHolds(x.cells, "dest.tcp", "anycast");
    DnsControlHolds(x.cells);
    var v, y := SiteDns(x, Yard(x), d).value, Yard(x);
    var c := Lookup(x.cells, "dest.dns", d).value;
    if v.evidence == [About(c)] {
      NoneVouches(x.cells, v);
    } else {
      var p := if Dominant(c) == DNS_MISMATCH then y.dnsControl.value else y.anycast.value;
      assert v.evidence == [About(c), Against(p)] + [];
      OneControl(x.cells, v, c, p, []);
    }
  }

  lemma TcpControlNamed(x: Ctx, d: string)
    requires SiteTcp(x, Yard(x), d).Some?
    ensures Vouched(x.cells, SiteTcp(x, Yard(x), d).value)
  {
    hide Dominant, KeyText, Pass, Capped, Failed, Lookup, DnsControl, Vouched, TcpKind;
    LookupHolds(x.cells, "dest.tcp", "anycast");
    var v, c, p := SiteTcp(x, Yard(x), d).value, Lookup(x.cells, "dest.tcp", d).value, Yard(x).anycast.value;
    assert v.evidence == [About(c), Against(p)] + [];
    OneControl(x.cells, v, c, p, []);
  }

  lemma VouchedBy(cells: seq<Cell>, v: Verdict, p: Cell)
    requires p in cells && Against(p) in v.evidence && Pass(p)
    ensures Vouched(cells, v)
  {
  }

  lemma NoneVouches(cells: seq<Cell>, v: Verdict)
    requires forall p :: Against(p) in v.evidence ==> !Pass(p)
    ensures !Vouched(cells, v)
  {
  }

  lemma UnreachableControl(x: Ctx, y: Yardstick, c: Cell, tcp: Option<Cell>)
    requires Unreachable(y, c, tcp).Some? && y.anycast == Lookup(x.cells, "dest.tcp", "anycast")
    ensures Vouched(x.cells, Unreachable(y, c, tcp).value)
  {
    hide Pass, KeyText, Vouched, Lookup;
    LookupHolds(x.cells, "dest.tcp", "anycast");
    var v := Unreachable(y, c, tcp).value;
    assert v.evidence[1] == Against(y.anycast.value);
    VouchedBy(x.cells, v, y.anycast.value);
  }

  /** Whether a failed handshake with the real name has a passing control. */
  predicate TlsHasControl(c: Cell, tcp: Option<Cell>, decoy: Option<Cell>, absent: Option<Cell>) {
    ConnectStage(c) || Passes(decoy) || (Passes(tcp) && !ResetByName(c, decoy, absent))
  }

  lemma OneControl(cells: seq<Cell>, v: Verdict, c: Cell, p: Cell, told: seq<Line>)
    requires v.evidence == [About(c), Against(p)] + told && p in cells && forall l :: l in told ==> !l.Against?
    ensures Vouched(cells, v) <==> Pass(p)
  {
    hide Pass;
    assert v.evidence[1] == Against(p);
    assert forall q :: Against(q) in v.evidence ==> q == p;
  }

  lemma TlsSaysControl(x: Ctx, y: Yardstick, c: Cell, d: string, decoy: Option<Cell>, absent: Option<Cell>)
    requires var tcp := Lookup(x.cells, "dest.tcp", d); TlsSays(x, y, c, tcp, decoy, absent).Some?
    requires y.anycast == Lookup(x.cells, "dest.tcp", "anycast") && (decoy.Some? ==> decoy.value in x.cells)
    ensures var tcp := Lookup(x.cells, "dest.tcp", d);
            Vouched(x.cells, TlsSays(x, y, c, tcp, decoy, absent).value) <==> TlsHasControl(c, tcp, decoy, absent)
  {
    hide Pass, KeyText, Vouched, Lookup, Capped, Failed, Dominant, ConnectStage, TimedOutOnly, Measured, EarlyResets,
        Unreachable;
    var tcp := Lookup(x.cells, "dest.tcp", d);
    var v := TlsSays(x, y, c, tcp, decoy, absent).value;
    if ConnectStage(c) {
      UnreachableControl(x, y, c, tcp);
    } else if Passes(decoy) {
      OneControl(x.cells, v, c, decoy.value, Told(absent));
    } else if ResetByName(c, decoy, absent) {
      OneControl(x.cells, v, c, decoy.value, Told(absent));
    } else if HasFailed(decoy) {
      TcpVouches(x, d, v, [About(c), Beside(decoy.value)], if Passes(absent) then Told(absent) else []);
    } else {
      assert v.evidence == [About(c)] + TcpLine(tcp) + [];
      TcpVouches(x, d, v, [About(c)], []);
    }
  }

  lemma TlsControl(x: Ctx, d: string)
    requires SiteTls(x, Yard(x), d).Some?
    ensures Vouched(x.cells, SiteTls(x, Yard(x), d).value) <==> HasControl(x, TlsOf(d))
  {
    hide Vouched, Lookup, TlsSays, TlsHasControl, Failed, Reached, DnsControl, Tallied;
    LookupHolds(x.cells, "dest.tls", "decoy:" + d);
    TlsSaysControl(x, Yard(x), Lookup(x.cells, "dest.tls", d).value, d, Lookup(x.cells, "dest.tls", "decoy:" + d),
                   Lookup(x.cells, "dest.tls", "absent:" + d));
  }

  /** Where TCP to the address is the only control there is. */
  lemma TcpVouches(x: Ctx, d: string, v: Verdict, a: seq<Line>, b: seq<Line>)
    requires v.evidence == a + TcpLine(Lookup(x.cells, "dest.tcp", d)) + b
            && (forall l :: l in a || l in b ==> !l.Against?)
    ensures Vouched(x.cells, v) <==> Passes(Lookup(x.cells, "dest.tcp", d))
  {
    hide Pass, Vouched, Lookup;
    LookupHolds(x.cells, "dest.tcp", d);
    var tcp := Lookup(x.cells, "dest.tcp", d);
    if Passes(tcp) {
      assert v.evidence[|a|] == Against(tcp.value);
      VouchedBy(x.cells, v, tcp.value);
    } else {
      assert forall l :: l in v.evidence ==> l in a || l in b;
      NoneVouches(x.cells, v);
    }
  }

  lemma ProtoControl(x: Ctx, d: string)
    requires SiteProto(x, Yard(x), d).Some?
    ensures Vouched(x.cells, SiteProto(x, Yard(x), d).value) <==> HasControl(x, ProtoOf(d))
  {
    hide Pass, KeyText, Vouched, Lookup, Capped, Failed, ConnectStage, Measured, Tallied, DnsControl, Unreachable;
    var tcp, c := Lookup(x.cells, "dest.tcp", d), Lookup(x.cells, "dest.proto", d).value;
    var v := SiteProto(x, Yard(x), d).value;
    if ConnectStage(c) {
      UnreachableControl(x, Yard(x), c, tcp);
    } else {
      assert v.evidence == [About(c)] + TcpLine(tcp) + [];
      TcpVouches(x, d, v, [About(c)], []);
    }
  }

  lemma HttpSaysControl(cells: seq<Cell>, c: Cell, name: Cell)
    requires HttpSays(c, name).Some? && name in cells && Pass(name)
    ensures Vouched(cells, HttpSays(c, name).value) <==> Dominant(c) == HTTP_LEGAL_BLOCK
  {
    hide Pass, KeyText, Vouched, Dominant, Measured;
    var v := HttpSays(c, name).value;
    if Dominant(c) == HTTP_LEGAL_BLOCK {
      assert v.evidence[1] == Against(name);
      VouchedBy(cells, v, name);
    } else {
      assert v.evidence == [About(c)];
      NoneVouches(cells, v);
    }
  }

  lemma HttpControl(x: Ctx, d: string)
    requires SiteHttp(x, d).Some?
    ensures Vouched(x.cells, SiteHttp(x, d).value) <==> HasControl(x, HttpOf(d))
  {
    hide Vouched, Lookup, HttpSays, Dominant, Failed, Yard, Pass;
    LookupHolds(x.cells, "dest.tls", d);
    HttpSaysControl(x.cells, Lookup(x.cells, "dest.http", d).value, Lookup(x.cells, "dest.tls", d).value);
  }

  lemma TcpAlways(x: Ctx, d: string)
    ensures HasControl(x, TcpOf(d))
  {
  }

  lemma SiteSaid(x: Ctx, d: string)
    ensures SaidAt(x, TlsOf(d)) == SiteTls(x, Yard(x), d) && SaidAt(x, ProtoOf(d)) == SiteProto(x, Yard(x), d)
    ensures SaidAt(x, HttpOf(d)) == SiteHttp(x, d) && SaidAt(x, DnsOf(d)) == SiteDns(x, Yard(x), d)
            && SaidAt(x, TcpOf(d)) == SiteTcp(x, Yard(x), d)
  {
    hide SiteTls, SiteProto, SiteHttp, SiteDns, SiteTcp, Yard;
  }

  lemma PlaceControl(x: Ctx, p: Place)
    requires SaidAt(x, p).Some?
    ensures Vouched(x.cells, SaidAt(x, p).value) <==> HasControl(x, p)
  {
    hide SaidAt, HasControl, Vouched;
    match p
    case DnsOf(d) => SiteSaid(x, d); DnsControlNamed(x, d);
    case TcpOf(d) => SiteSaid(x, d); TcpControlNamed(x, d); TcpAlways(x, d);
    case TlsOf(d) => SiteSaid(x, d); TlsControl(x, d);
    case ProtoOf(d) => SiteSaid(x, d); ProtoControl(x, d);
    case HttpOf(d) => SiteSaid(x, d); HttpControl(x, d);
    case _ => FamilyControl(x, p);
  }

  /** Every verdict on a destination names a control that passed, exactly when the
      place it comes from has one. */
  lemma DestinationControl(x: Ctx, v: Verdict)
    requires v in Destinations(x)
    ensures exists p :: InScope(x, p) && SaidAt(x, p) == Some(v) && (Vouched(x.cells, v) <==> HasControl(x, p))
    ensures forall p :: SaidAt(x, p) == Some(v) ==> (Vouched(x.cells, v) <==> HasControl(x, p))
  {
    hide SaidAt, HasControl, Vouched, Destinations, InScope;
    DestinationsAre(x, v);
    forall p | SaidAt(x, p) == Some(v) ensures Vouched(x.cells, v) <==> HasControl(x, p) { PlaceControl(x, p); }
  }

  /** A reset keyed on the name has its control all the same: the decoy on the same
      address, which failed but was never reset. */
  lemma ResetHasItsControl(x: Ctx, y: Yardstick, c: Cell, tcp: Option<Cell>, decoy: Option<Cell>, absent: Option<Cell>)
    requires !ConnectStage(c) && !Passes(decoy) && ResetByName(c, decoy, absent)
    ensures var r := TlsSays(x, y, c, tcp, decoy, absent);
            && r.Some? && Against(decoy.value) in r.value.evidence && Fail(decoy.value)
                && Count(decoy.value.outcomes, MIDSTREAM_RESET) == 0
  {
    hide Pass, KeyText, Capped, Dominant, ConnectStage, Measured, EarlyResets, TimedOutOnly;
    var v := TlsSays(x, y, c, tcp, decoy, absent).value;
    assert v.evidence[1] == Against(decoy.value);
    NeverReset(decoy.value);
  }

  lemma NeverReset(c: Cell)
    requires TimedOutOnly(c)
    ensures Count(c.outcomes, MIDSTREAM_RESET) == 0
  {
  }

  /** A scan whose verdict has no control: a name that cannot exist was answered. */
  lemma SomeHijackStandsAlone(hostOf: string -> string)
    ensures var x := Context([Tried("dest.nxdomain", Variant, "invalid", "udp", 53, DNS_MISMATCH)], hostOf);
            SaidAt(x, Hijack).Some? && SaidAt(x, Hijack).value in Destinations(x)
                && !Vouched(x.cells, SaidAt(x, Hijack).value)
  {
    var a := Tried("dest.nxdomain", Variant, "invalid", "udp", 53, DNS_MISMATCH);
    var x := Context([a], hostOf);
    HijackCell();
    hide SaidAt, Vouched, Aggregated, CellFrom, Failed, Dominant, Tried, LeftOut, Destinations, HasControl;
    OneCell(a);
    LookupHolds(x.cells, "dest.nxdomain", "invalid");
    HijackSaid(x);
    PlaceControl(x, Hijack);
    NoHijackControl(x);
    DestinationsAre(x, SaidAt(x, Hijack).value);
    assert InScope(x, Hijack);
  }

  lemma HijackCell()
    ensures var a := Tried("dest.nxdomain", Variant, "invalid", "udp", 53, DNS_MISMATCH); var c := CellFrom(a);
            !LeftOut(a) && c.key.test == "dest.nxdomain" && c.key.variant == "invalid" && Failed(c)
                && Dominant(c) == DNS_MISMATCH
  {
    TriedCounts("dest.nxdomain", Variant, "invalid", "udp", 53, DNS_MISMATCH);
    TriedPasses("dest.nxdomain", Variant, "invalid", "udp", 53, DNS_MISMATCH);
    var c := CellFrom(Tried("dest.nxdomain", Variant, "invalid", "udp", 53, DNS_MISMATCH));
    assert c.measuredMerged == map[DNS_MISMATCH := 1];
    assert Commonest(Shown(c), Dominant(c));
  }

  lemma HijackSaid(x: Ctx)
    requires var nx := Lookup(x.cells, "dest.nxdomain", "invalid");
              nx.Some? && Failed(nx.value)
              && Dominant(nx.value) == DNS_MISMATCH
    ensures SaidAt(x, Hijack).Some?
  {
    hide Failed, Dominant, Yard, KeyText, Lookup;
  }

  lemma NoHijackControl(x: Ctx)
    ensures !HasControl(x, Hijack)
  {
    hide Yard;
  }

  // ---- a resolver that cannot be trusted ----

  /** With a resolver that agrees with the trusted ones on no site, a site is called
      poisoned exactly when its lookup timed out, not half of them did, and the
      transport works. */
  lemma UnreliableStillPoisons(x: Ctx, d: string)
    requires SystemUnreliable(Yard(x))
    ensures var dns := Lookup(x.cells, "dest.dns", d);
            SaidAt(x, DnsOf(d)).Some? <==>
                HasFailed(dns) && Dominant(dns.value) == DNS_TIMEOUT
                && !SystemDown(Yard(x)) && Passes(Yard(x).anycast)
    ensures SaidAt(x, DnsOf(d)).Some? ==> SaidAt(x, DnsOf(d)).value.kind == "dest_dns_poisoning_suspected"
  {
    hide Lookup, Failed, Dominant, KeyText, Capped, SystemDown, Pass, Tallied, DnsControl;
  }

  // ---- a scan in which that happens ----

  function Tells(c: Cell, dominant: string): nat {
    if DnsCell(c) && (dominant == "" || (Failed(c) && Dominant(c) == dominant)) then 1 else 0
  }

  lemma {:induction false} TalliedSplit(a: seq<Cell>, b: seq<Cell>, dominant: string)
    ensures Tallied(a + b, dominant) == Tallied(a, dominant) + Tallied(b, dominant)
  {
    hide Failed, Dominant;
    if b == [] {
      assert a + b == a;
    } else {
      TalliedSplit(a, b[..|b| - 1], dominant);
      assert (a + b)[..|a + b| - 1] == a + b[..|b| - 1];
    }
  }

  lemma Without(b: seq<Cell>, i: nat)
    requires i < |b|
    ensures multiset(b[..i] + b[i + 1..]) == multiset(b) - multiset{b[i]}
  {
    assert b == b[..i] + [b[i]] + b[i + 1..];
  }

  /** Counting does not depend on the order of the cells. */
  lemma {:induction false} TalliedPermutation(a: seq<Cell>, b: seq<Cell>, dominant: string)
    requires multiset(a) == multiset(b)
    ensures Tallied(a, dominant) == Tallied(b, dominant)
  {
    hide Failed, Dominant, Tallied;
    if a == [] {
      assert |multiset(b)| == 0;
    } else {
      var n := |a| - 1;
      assert a[n] in multiset(b);
      var i :| 0 <= i < |b| && b[i] == a[n];
      Without(a, n);
      Without(b, i);
      assert a[..n] + a[n + 1..] == a[..n];
      TalliedPermutation(a[..n], b[..i] + b[i + 1..], dominant);
      TalliedOut(a, n, dominant);
      TalliedOut(b, i, dominant);
    }
  }

  lemma TalliedOut(b: seq<Cell>, i: nat, dominant: string)
    requires i < |b|
    ensures Tallied(b, dominant) == Tallied(b[..i] + b[i + 1..], dominant) + Tallied([b[i]], dominant)
  {
    hide Failed, Dominant, Tallied;
    assert b == b[..i] + [b[i]] + b[i + 1..];
    TalliedSplit(b[..i] + [b[i]], b[i + 1..], dominant);
    TalliedSplit(b[..i], [b[i]], dominant);
    TalliedSplit(b[..i], b[i + 1..], dominant);
  }

  // Four sites looked up through the resolver, and the transport control.

  function LookedUp(site: string, outcome: string): Attempt { Tried("dest.dns", Variant, site, "udp", 53, outcome) }

  function Scan(): seq<Attempt> {
    [LookedUp("a.example", DNS_MISMATCH), LookedUp("b.example", DNS_MISMATCH), LookedUp("c.example", DNS_TIMEOUT),
     LookedUp("d.example", DNS_RCODE), Tried("dest.tcp", Control, "anycast", "tcp", 443, OK)]
  }

  lemma LookedUpCell(site: string, outcome: string)
    requires !Nothing(outcome) && outcome != OK && site != "anycast"
    ensures var c := CellFrom(LookedUp(site, outcome));
            c.key == CellKey("dest.dns", "udp", 53, site) && Failed(c) && !Pass(c) && Dominant(c) == outcome
                && DnsCell(c)
    ensures !LeftOut(LookedUp(site, outcome))
  {
    TriedCounts("dest.dns", Variant, site, "udp", 53, outcome);
    TriedPasses("dest.dns", Variant, site, "udp", 53, outcome);
    var c := CellFrom(LookedUp(site, outcome));
    assert c.measuredMerged == map[outcome := 1];
    assert Commonest(Shown(c), Dominant(c));
  }

  /** A cell of a failed lookup. */
  ghost predicate Lost(c: Cell, outcome: string) { DnsCell(c) && Failed(c) && !Pass(c) && Dominant(c) == outcome }

  ghost predicate Reachable(t: Cell) { Pass(t) && t.key.test == "dest.tcp" && t.key.variant == "anycast" }

  lemma LostTells(c: Cell, outcome: string, m: string)
    requires Lost(c, outcome)
    ensures Tells(c, m) == if m == "" || m == outcome then 1 else 0
  {
    hide Dominant, Failed, Pass, DnsCell;
  }

  lemma ReachableTells(t: Cell, m: string)
    requires Reachable(t)
    ensures Tells(t, m) == 0
  {
    hide Dominant, Failed, Pass;
  }

  lemma Differ()
    ensures DNS_MISMATCH != DNS_TIMEOUT && DNS_RCODE != DNS_MISMATCH && DNS_RCODE != DNS_TIMEOUT
    ensures DNS_MISMATCH != "" && DNS_TIMEOUT != "" && DNS_RCODE != ""
  {
  }

  lemma CountHere(cells: seq<Cell>, a: Cell, b: Cell, c: Cell, e: Cell, t: Cell, m: string)
    requires multiset(cells) == multiset([a, b, c, e, t])
    requires Lost(a, DNS_MISMATCH) && Lost(b, DNS_MISMATCH) && Lost(c, DNS_TIMEOUT) && Lost(e, DNS_RCODE)
            && Reachable(t)
    ensures m == "" ==> Tallied(cells, m) == 4
    ensures m == DNS_TIMEOUT ==> Tallied(cells, m) == 1
    ensures m == DNS_MISMATCH ==> Tallied(cells, m) == 2
  {
    hide Tells, Tallied, Lost, Reachable;
    Differ();
    TalliedPermutation(cells, [a, b, c, e, t], m);
    FiveTold(a, b, c, e, t, m);
    LostTells(a, DNS_MISMATCH, m);
    LostTells(b, DNS_MISMATCH, m);
    LostTells(c, DNS_TIMEOUT, m);
    LostTells(e, DNS_RCODE, m);
    ReachableTells(t, m);
  }

  lemma YardHere(x: Ctx, a: Cell, b: Cell, c: Cell, e: Cell, t: Cell)
    requires multiset(x.cells) == multiset([a, b, c, e, t])
    requires Lost(a, DNS_MISMATCH) && Lost(b, DNS_MISMATCH) && Lost(c, DNS_TIMEOUT) && Lost(e, DNS_RCODE)
            && Reachable(t)
    ensures Yard(x) == Yardstick(Lookup(x.cells, "dest.tcp", "anycast"), DnsControl(x.cells), 4, 1, 2)
  {
    hide Tallied, Lost, Reachable, Lookup, DnsControl;
    CountHere(x.cells, a, b, c, e, t, "");
    CountHere(x.cells, a, b, c, e, t, DNS_TIMEOUT);
    CountHere(x.cells, a, b, c, e, t, DNS_MISMATCH);
  }

  lemma Members(cells: seq<Cell>, a: Cell, b: Cell, c: Cell, e: Cell, t: Cell, y: Cell)
    requires multiset(cells) == multiset([a, b, c, e, t])
    ensures y in cells <==> y == a || y == b || y == c || y == e || y == t
  {
    assert y in cells <==> y in multiset(cells);
    assert y in multiset([a, b, c, e, t]) <==> y in [a, b, c, e, t];
  }

  /** No lookup passed, and the transport control did. */
  lemma ControlsHere(x: Ctx, a: Cell, b: Cell, c: Cell, e: Cell, t: Cell)
    requires multiset(x.cells) == multiset([a, b, c, e, t])
    requires Lost(a, DNS_MISMATCH) && Lost(b, DNS_MISMATCH) && Lost(c, DNS_TIMEOUT) && Lost(e, DNS_RCODE)
            && Reachable(t)
    ensures DnsControl(x.cells).None? && Passes(Lookup(x.cells, "dest.tcp", "anycast"))
  {
    hide Dominant, Failed, Pass, DnsControl, Lookup;
    DnsControlHolds(x.cells);
    LookupHolds(x.cells, "dest.tcp", "anycast");
    Members(x.cells, a, b, c, e, t, t);
    if DnsControl(x.cells).Some? { Members(x.cells, a, b, c, e, t, DnsControl(x.cells).value); }
    if Lookup(x.cells, "dest.tcp", "anycast").Some? { Members(x.cells, a, b, c, e, t,
        Lookup(x.cells, "dest.tcp", "anycast").value); }
  }

  lemma FoundHere(cells: seq<Cell>, a: Cell, b: Cell, c: Cell, e: Cell, t: Cell)
    requires multiset(cells) == multiset([a, b, c, e, t])
    requires a.key.variant != c.key.variant && b.key.variant != c.key.variant && e.key.variant != c.key.variant
    requires c.key.test == "dest.dns" && t.key.test == "dest.tcp"
    ensures Lookup(cells, "dest.dns", c.key.variant) == Some(c)
  {
    hide Lookup;
    LookupHolds(cells, "dest.dns", c.key.variant);
    Members(cells, a, b, c, e, t, c);
    if Lookup(cells, "dest.dns", c.key.variant).Some? { Members(cells, a, b, c, e, t,
        Lookup(cells, "dest.dns", c.key.variant).value); }
  }

  /** Two sites disagree, one times out, a fourth fails otherwise, and the transport works. */
  lemma PoisonsHere(x: Ctx, a: Cell, b: Cell, c: Cell, e: Cell, t: Cell)
    requires multiset(x.cells) == multiset([a, b, c, e, t])
    requires Lost(a, DNS_MISMATCH) && Lost(b, DNS_MISMATCH) && Lost(c, DNS_TIMEOUT) && Lost(e, DNS_RCODE)
            && Reachable(t)
    requires a.key.variant != c.key.variant && b.key.variant != c.key.variant && e.key.variant != c.key.variant
    ensures SystemUnreliable(Yard(x)) && SaidAt(x, DnsOf(c.key.variant)).Some?
    ensures SaidAt(x, DnsOf(c.key.variant)).value.kind == "dest_dns_poisoning_suspected"
  {
    hide Failed, Dominant, Pass, SaidAt, Yard, Lookup, DnsControl;
    YardHere(x, a, b, c, e, t);
    ControlsHere(x, a, b, c, e, t);
    FoundHere(x.cells, a, b, c, e, t);
    UnreliableStillPoisons(x, c.key.variant);
  }

  lemma FiveTold(a: Cell, b: Cell, c: Cell, e: Cell, t: Cell, m: string)
    ensures Tallied([a, b, c, e, t], m) == Tells(a, m) + Tells(b, m) + Tells(c, m) + Tells(e, m) + Tells(t, m)
  {
    hide Failed, Dominant, DnsCell, Tallied, Tells;
    assert [a, b, c, e, t] == [a] + [b] + [c] + [e] + [t];
    TalliedSplit([a] + [b] + [c] + [e], [t], m);
    TalliedSplit([a] + [b] + [c], [e], m);
    TalliedSplit([a] + [b], [c], m);
    TalliedSplit([a], [b], m);
    OneTold(a, m); OneTold(b, m); OneTold(c, m); OneTold(e, m); OneTold(t, m);
  }

  lemma OneTold(a: Cell, m: string)
    ensures Tallied([a], m) == Tells(a, m)
  {
    hide Failed, Dominant, DnsCell;
    assert [a][..0] == [];
    assert Tallied([], m) == 0;
  }

  lemma ScanLost(site: string, outcome: string)
    requires !Nothing(outcome) && outcome != OK && site != "anycast"
    ensures Lost(CellFrom(LookedUp(site, outcome)), outcome) && CellFrom(LookedUp(site, outcome)).key.variant == site
    ensures !LeftOut(LookedUp(site, outcome)) && KeyOf(LookedUp(site, outcome)) == CellKey("dest.dns", "udp", 53, site)
  {
    hide Failed, Dominant, Pass, CellFrom, LeftOut;
    LookedUpCell(site, outcome);
  }

  lemma ScanReachable()
    ensures var t := Tried("dest.tcp", Control, "anycast", "tcp", 443, OK);
            Reachable(CellFrom(t)) && !LeftOut(t) && KeyOf(t) == CellKey("dest.tcp", "tcp", 443, "anycast")
  {
    hide Pass, CellFrom, LeftOut;
    TriedCounts("dest.tcp", Control, "anycast", "tcp", 443, OK);
    TriedPasses("dest.tcp", Control, "anycast", "tcp", 443, OK);
  }

  lemma ScanMeasures()
    ensures !Nothing(DNS_MISMATCH) && !Nothing(DNS_TIMEOUT) && !Nothing(DNS_RCODE)
    ensures DNS_MISMATCH != OK && DNS_TIMEOUT != OK && DNS_RCODE != OK
  {
  }

  /** So "no site may be called poisoned on it" is not so: the scan calls one. */
  lemma SomeSiteIsPoisoned(hostOf: string -> string)
    ensures var x := Context(Scan(), hostOf);
            && SystemUnreliable(Yard(x)) && SaidAt(x, DnsOf("c.example")).Some?
            && SaidAt(x, DnsOf("c.example")).value.kind == "dest_dns_poisoning_suspected"
  {
    hide SaidAt, SystemUnreliable, Yard, Aggregated, Lost, Reachable, CellFrom, LeftOut, KeyOf, LookedUp, Tried,
        Nothing;
    var a, b := LookedUp("a.example", DNS_MISMATCH), LookedUp("b.example", DNS_MISMATCH);
    var c, e, t := LookedUp("c.example", DNS_TIMEOUT), LookedUp("d.example", DNS_RCODE),
        Tried("dest.tcp", Control, "anycast", "tcp", 443, OK);
    ScanMeasures();
    ScanLost("a.example", DNS_MISMATCH);
    ScanLost("b.example", DNS_MISMATCH);
    ScanLost("c.example", DNS_TIMEOUT);
    ScanLost("d.example", DNS_RCODE);
    ScanReachable();
    AggregatedOwn([a, b, c, e, t], [CellFrom(a), CellFrom(b), CellFrom(c), CellFrom(e), CellFrom(t)]);
    PoisonsHere(Context(Scan(), hostOf), CellFrom(a), CellFrom(b), CellFrom(c), CellFrom(e), CellFrom(t));
  }
}
