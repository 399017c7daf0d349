/** Verdicts on real destinations (internal/classify/dest.go): one-sided evidence
    with controls of its own. */
module Dest {
  import opened Base
  import opened Text
  import opened Evidence
  import opened Sorting
  import opened Cells
  import opened Rules
  import Remerge

  const RESOLVER_MIN_SITES: nat := 2

  function Lookup(cells: seq<Cell>, test: string, variant: string): Option<Cell> {
    if cells == [] then None
    else
      match Lookup(cells[..|cells| - 1], test, variant)
      case Some(c) => Some(c)
      case None =>
        var c := cells[|cells| - 1];
        if c.key.test == test && c.key.variant == variant then Some(c) else None
  }

  function Domain(variant: string): string {
    if HasPrefix(variant, "decoy:") then TrimPrefix(variant, "decoy:")
    else if HasPrefix(variant, "absent:") then TrimPrefix(variant, "absent:")
    else variant
  }

  predicate OfSite(c: Cell) { IsDest(c.key.test) && c.key.test != "dest.nxdomain" && c.key.variant != "anycast" }

  function Domains(cells: seq<Cell>): seq<string> {
    if cells == [] then []
    else
      var ds, c := Domains(cells[..|cells| - 1]), cells[|cells| - 1];
      if OfSite(c) && Domain(c.key.variant) !in ds then ds + [Domain(c.key.variant)] else ds
  }

  /** Failed on its own account. */
  predicate Failed(c: Cell) { Fail(c) && !Nothing(Dominant(c)) }

  predicate HasFailed(c: Option<Cell>) { c.Some? && Failed(c.value) }

  /** One vantage point, no server half: never high. */
  function Capped(failed: Cell, passed: Option<Cell>): (r: Confidence)
    ensures r != High
  {
    if passed.None? then Low
    else if Strength(failed, passed.value) == High then Medium
    else Strength(failed, passed.value)
  }

  predicate ConnectStage(c: Cell) {
    Dominant(c) == CONNECT_TIMEOUT || Dominant(c) == CONNECT_RESET || Dominant(c) == CONNECT_REFUSED
  }

  /** Every measured failure ran out of time after the ClientHello. */
  predicate TimedOutOnly(c: Cell) {
    Count(c.outcomes, PAYLOAD_TIMEOUT) > 0
    && forall o :: o in c.outcomes && c.outcomes[o] > 0 ==> o == OK || o == PAYLOAD_TIMEOUT || Nothing(o)
  }

  // ---- resets that came too soon ----

  predicate Usable(rtt: real) { 0.0 < rtt < Remerge.RTT_MAX_CONNECT }

  function AddressOf(x: Ctx, a: Attempt): string {
    if Get(a.detail, IP) != "" then Get(a.detail, IP) else x.hostOf(Get(a.detail, Endpoint))
  }

  /** The shortest TCP handshake a destination attempt measured to an address. */
  function MinRtt(x: Ctx, ip: string, n: nat): Option<real>
    requires n <= |x.attempts|
  {
    if n == 0 then None
    else
      var best, a := MinRtt(x, ip, n - 1), x.attempts[n - 1];
      if IsDest(a.testID) && !LeftOut(a) && Connect in a.stages && AddressOf(x, a) == ip && ip != ""
          && Usable(a.stages[Connect])
         && (best.None? || a.stages[Connect] < best.value)
      then Some(a.stages[Connect]) else best
  }

  predicate TooSoon(x: Ctx, a: Attempt) {
    match Remerge.ResetTiming(a)
    case None => false
    case Some((reset, rtt)) =>
      var best := MinRtt(x, AddressOf(x, a), |x.attempts|);
      Remerge.BeforeRTT(reset, if best.Some? && (best.value < rtt || !Usable(rtt)) then best.value else rtt)
  }

  function EarlyResets(x: Ctx, c: Cell, n: nat): nat
    requires n <= |x.attempts|
  {
    if n == 0 then 0
    else
      var a := x.attempts[n - 1];
      EarlyResets(x, c, n - 1)
      + if a.testID == c.key.test && a.variant == c.key.variant && a.dstPort == c.key.port && !LeftOut(a)
          && !Unmeasured(a) && TooSoon(x, a)
        then 1 else 0
  }

  // ---- family controls ----

  /** What the sites are compared with. */
  datatype Yardstick = Yardstick(anycast: Option<Cell>, dnsControl: Option<Cell>, dnsCells: nat, timeouts: nat,
      mismatches: nat)

  predicate DnsCell(c: Cell) { c.key.test == "dest.dns" && c.key.variant != "anycast" }

  function Tallied(cells: seq<Cell>, dominant: string): nat {
    if cells == [] then 0
    else
      var c := cells[|cells| - 1];
      Tallied(cells[..|cells| - 1], dominant)
      + if DnsCell(c) && (dominant == "" || (Failed(c) && Dominant(c) == dominant)) then 1 else 0
  }

  /** The first clean lookup of a control site, else the first clean lookup. */
  function DnsControl(cells: seq<Cell>): Option<Cell> {
    if cells == [] then None
    else
      var best, c := DnsControl(cells[..|cells| - 1]), cells[|cells| - 1];
      if c.key.test == "dest.dns" && Pass(c) && (best.None? || (c.role == Baseline && best.value.role != Baseline))
          then Some(c) else best
  }

  function Yard(x: Ctx): Yardstick {
    Yardstick(Lookup(x.cells, "dest.tcp", "anycast"), DnsControl(x.cells), Tallied(x.cells, ""),
        Tallied(x.cells, DNS_TIMEOUT),
              Tallied(x.cells, DNS_MISMATCH))
  }

  predicate SystemDown(y: Yardstick) { y.dnsCells > 0 && y.timeouts * 2 >= y.dnsCells }

  predicate SystemUnreliable(y: Yardstick) {
    y.dnsControl.None? && y.mismatches >= RESOLVER_MIN_SITES && y.mismatches * 2 >= y.dnsCells
  }

  /** At most medium. */
  predicate Modest(r: Option<Verdict>) { r.Some? ==> r.value.conf != High }

  function NxDomain(x: Ctx): (r: Option<Verdict>)
    ensures Modest(r)
  {
    match Lookup(x.cells, "dest.nxdomain", "invalid")
    case None => None
    case Some(nx) =>
      if Failed(nx) && Dominant(nx) == DNS_MISMATCH
      then Some(Verdict("nxdomain_hijack_suspected", KeyText(nx.key), if Measured(nx) >= MEDIUM_MIN then Medium
          else Low, [About(nx)]))
      else None
  }

  function NoAnycast(y: Yardstick): (r: Option<Verdict>)
    ensures Modest(r)
  {
    if y.anycast.Some? && Measured(y.anycast.value) > 0 && !Pass(y.anycast.value)
    then Some(Verdict("control_failed_inconclusive", KeyText(y.anycast.value.key), Low, [About(y.anycast.value)]))
        else None
  }

  function Resolver(y: Yardstick): seq<Verdict> {
    (if SystemDown(y)
     then [Verdict("system_resolver_unreachable_suspected", "dest.dns udp/53",
                   if Passes(y.anycast) && y.timeouts >= RESOLVER_MIN_SITES then Medium else Low,
                   if Passes(y.anycast) then [Against(y.anycast.value)] else [])]
     else [])
    + if SystemUnreliable(y) then [Verdict("system_resolver_unreliable_suspected", "dest.dns udp/53", Low, [])] else []
  }

  // ---- one site ----

  function SiteDns(x: Ctx, y: Yardstick, d: string): (r: Option<Verdict>)
    ensures Modest(r)
  {
    var dns := Lookup(x.cells, "dest.dns", d);
    if !HasFailed(dns) then None
    else if Dominant(dns.value) == DNS_MISMATCH then
      if y.dnsControl.Some? then
        Some(Verdict("dest_dns_poisoning_suspected", KeyText(dns.value.key), Capped(dns.value, y.dnsControl),
                     [About(dns.value), Against(y.dnsControl.value)]))
      else if !SystemUnreliable(y) then Some(Verdict("dest_dns_poisoning_suspected", KeyText(dns.value.key), Low,
          [About(dns.value)]))
      else None
    else if Dominant(dns.value) == DNS_TIMEOUT && !SystemDown(y) && Passes(y.anycast) then
      Some(Verdict("dest_dns_poisoning_suspected", KeyText(dns.value.key), Low,
          [About(dns.value), Against(y.anycast.value)]))
    else None
  }

  function TcpKind(dominant: string): string {
    if dominant == CONNECT_TIMEOUT then "dest_tcp_blackhole_suspected"
    else if dominant == CONNECT_RESET || dominant == CONNECT_REFUSED then "dest_tcp_reset_suspected"
    else "dest_tcp_blocking_suspected"
  }

  function SiteTcp(x: Ctx, y: Yardstick, d: string): (r: Option<Verdict>)
    ensures Modest(r)
  {
    var tcp := Lookup(x.cells, "dest.tcp", d);
    if HasFailed(tcp) && Passes(y.anycast)
    then Some(Verdict(TcpKind(Dominant(tcp.value)), KeyText(tcp.value.key), Capped(tcp.value, y.anycast),
        [About(tcp.value), Against(y.anycast.value)]))
    else None
  }

  /** TCP to the address works, or was not measured and the failure came after it. */
  predicate Reached(tcp: Option<Cell>, c: Cell) {
    Passes(tcp) || ((tcp.None? || Measured(tcp.value) == 0) && !ConnectStage(c))
  }

  /** The first address does not answer while another one, which is told as well, does. */
  function Unreachable(y: Yardstick, c: Cell, tcp: Option<Cell>): (r: Option<Verdict>)
    ensures Modest(r)
  {
    if Passes(y.anycast)
    then Some(Verdict("dest_tcp_blackhole_suspected", KeyText(c.key), Low,
        [About(c), Against(y.anycast.value)] + Told(tcp))) else None
  }

  function Told(c: Option<Cell>): seq<Line> { if c.Some? then [Beside(c.value)] else [] }

  /** TCP to the address as the control, when its own layer passed. */
  function TcpLine(tcp: Option<Cell>): seq<Line> { if Passes(tcp) then [Against(tcp.value)] else [] }

  /** The real name was reset while the decoy, and nothing sent without a name, ever was. */
  predicate ResetByName(c: Cell, decoy: Option<Cell>, absent: Option<Cell>) {
    Dominant(c) == MIDSTREAM_RESET && HasFailed(decoy) && TimedOutOnly(decoy.value)
    && (absent.None? || TimedOutOnly(absent.value) || Pass(absent.value))
  }

  /** A handshake with the real name that failed on an address TCP reaches, against
      the handshakes with another name and with none on the same address. */
  function TlsSays(x: Ctx, y: Yardstick, c: Cell, tcp: Option<Cell>, decoy: Option<Cell>,
      absent: Option<Cell>): (r: Option<Verdict>)
    ensures Modest(r)
  {
    if ConnectStage(c) then Unreachable(y, c, tcp)
    else if Passes(decoy) then
      Some(Verdict("dest_sni_blocking_suspected", KeyText(c.key), Capped(c, decoy),
          [About(c), Against(decoy.value)] + Told(absent)))
    else if ResetByName(c, decoy, absent) then
      var early := EarlyResets(x, c, |x.attempts|);
      Some(Verdict("dest_sni_blocking_suspected", KeyText(c.key), if early == Measured(c)
          && early >= MEDIUM_MIN then Medium else Low,
                   [About(c), Against(decoy.value)] + Told(absent)))
    else if HasFailed(decoy) then
      Some(Verdict("dest_tls_blocking_suspected", KeyText(c.key), Capped(c, tcp),
                   [About(c), Beside(decoy.value)] + TcpLine(tcp) + if Passes(absent) then Told(absent) else []))
    else Some(Verdict("dest_tls_blocking_suspected", KeyText(c.key), Low, [About(c)] + TcpLine(tcp)))
  }

  function SiteTls(x: Ctx, y: Yardstick, d: string): (r: Option<Verdict>)
    ensures Modest(r)
  {
    var tcp, name := Lookup(x.cells, "dest.tcp", d), Lookup(x.cells, "dest.tls", d);
    if !HasFailed(name) || !Reached(tcp, name.value) then None
    else TlsSays(x, y, name.value, tcp, Lookup(x.cells, "dest.tls", "decoy:" + d),
        Lookup(x.cells, "dest.tls", "absent:" + d))
  }

  /** A service's own handshake has TCP to the same address as its control. */
  function ProtoSays(y: Yardstick, c: Cell, tcp: Option<Cell>): (r: Option<Verdict>)
    ensures Modest(r)
  {
    if ConnectStage(c) then Unreachable(y, c, tcp)
    else Some(Verdict("dest_proto_blocking_suspected", KeyText(c.key), Capped(c, tcp), [About(c)] + TcpLine(tcp)))
  }

  function SiteProto(x: Ctx, y: Yardstick, d: string): (r: Option<Verdict>)
    ensures Modest(r)
  {
    var tcp, proto := Lookup(x.cells, "dest.tcp", d), Lookup(x.cells, "dest.proto", d);
    if !HasFailed(proto) || !Reached(tcp, proto.value) then None else ProtoSays(y, proto.value, tcp)
  }

  function HttpSays(c: Cell, name: Cell): (r: Option<Verdict>)
    ensures Modest(r)
  {
    if Dominant(c) == HTTP_LEGAL_BLOCK then
      Some(Verdict("dest_legal_block_suspected", KeyText(c.key), if Measured(c) >= MEDIUM_MIN
          && c.ok == 0 then Medium else Low,
                   [About(c), Against(name)]))
    else if Dominant(c) == CERT_MISMATCH then Some(Verdict("dest_tls_interception_suspected", KeyText(c.key), Low,
        [About(c)]))
    else None
  }

  function SiteHttp(x: Ctx, d: string): (r: Option<Verdict>)
    ensures Modest(r)
  {
    var name, http := Lookup(x.cells, "dest.tls", d), Lookup(x.cells, "dest.http", d);
    if !HasFailed(http) || !Passes(name) then None else HttpSays(http.value, name.value)
  }

  function Site(x: Ctx, y: Yardstick, d: string): seq<Verdict> {
    Maybe(SiteDns(x, y, d)) + Maybe(SiteTcp(x, y, d)) + Maybe(SiteTls(x, y, d)) + Maybe(SiteProto(x, y, d))
        + Maybe(SiteHttp(x, d))
  }

  function Sites(x: Ctx, y: Yardstick, ds: seq<string>): seq<Verdict> {
    if ds == [] then [] else Sites(x, y, ds[..|ds| - 1]) + Site(x, y, ds[|ds| - 1])
  }

  function Destinations(x: Ctx): seq<Verdict> {
    var ds := StableSort(Domains(x.cells), StringLe);
    if ds == [] then Maybe(NxDomain(x))
    else
      var y := Yard(x);
      Maybe(NxDomain(x)) + Maybe(NoAnycast(y)) + Resolver(y) + Sites(x, y, ds)
  }

  // ---- never high ----

  predicate NoneHigh(vs: seq<Verdict>) { forall i :: 0 <= i < |vs| ==> vs[i].conf != High }

  lemma MaybeModest(r: Option<Verdict>)
    requires Modest(r)
    ensures NoneHigh(Maybe(r))
  {
  }

  lemma AppendModest(vs: seq<Verdict>, ws: seq<Verdict>)
    requires NoneHigh(vs) && NoneHigh(ws)
    ensures NoneHigh(vs + ws)
  {
  }

  lemma SiteNotHigh(x: Ctx, y: Yardstick, d: string)
    ensures NoneHigh(Site(x, y, d))
  {
    hide SiteDns, SiteTcp, SiteTls, SiteProto, SiteHttp, NoneHigh, Maybe;
    var a, b, c, e, f := SiteDns(x, y, d), SiteTcp(x, y, d), SiteTls(x, y, d), SiteProto(x, y, d), SiteHttp(x, d);
    MaybeModest(a);
    MaybeModest(b);
    MaybeModest(c);
    MaybeModest(e);
    MaybeModest(f);
    AppendModest(Maybe(a), Maybe(b));
    AppendModest(Maybe(a) + Maybe(b), Maybe(c));
    AppendModest(Maybe(a) + Maybe(b) + Maybe(c), Maybe(e));
    AppendModest(Maybe(a) + Maybe(b) + Maybe(c) + Maybe(e), Maybe(f));
  }

  lemma {:induction false} SitesNotHigh(x: Ctx, y: Yardstick, ds: seq<string>)
    ensures NoneHigh(Sites(x, y, ds))
  {
    hide Site;
    if ds != [] {
      SitesNotHigh(x, y, ds[..|ds| - 1]);
      SiteNotHigh(x, y, ds[|ds| - 1]);
    }
  }

  lemma ResolverNotHigh(y: Yardstick)
    ensures NoneHigh(Resolver(y))
  {
    hide SystemDown, SystemUnreliable;
  }

  /** No verdict on a destination is ever high. */
  lemma DestinationsNeverHigh(x: Ctx)
    ensures NoneHigh(Destinations(x))
  {
    hide NxDomain, NoAnycast, Resolver, Sites, StableSort, Domains, Yard, NoneHigh, Maybe;
    var y, ds := Yard(x), StableSort(Domains(x.cells), StringLe);
    var nx, no := Maybe(NxDomain(x)), Maybe(NoAnycast(y));
    MaybeModest(NxDomain(x));
    MaybeModest(NoAnycast(y));
    ResolverNotHigh(y);
    SitesNotHigh(x, y, ds);
    AppendModest(nx, no);
    AppendModest(nx + no, Resolver(y));
    AppendModest(nx + no + Resolver(y), Sites(x, y, ds));
  }
}
