/** The rules of the classifier (internal/classify/rules*.go) as functions of the
    cells. Of the evidence only what names cells is kept: the cell a verdict is
    about, the controls it is compared with, and the mechanisms attached to it. */
module Rules {
  import opened Base
  import opened Text
  import opened Evidence
  import opened Cells

  datatype Line = About(c: Cell) | Against(c: Cell) | Beside(c: Cell) | Mechanism(n: nat, total: nat, merged: string)

  datatype Verdict = Verdict(kind: string, subject: string, conf: Confidence, evidence: seq<Line>)

  /** What every rule reads. hostOf takes the host out of an endpoint. */
  datatype Ctx = Ctx(cells: seq<Cell>, attempts: seq<Attempt>, hostOf: string -> string)

  /** What the rules read of a scan. */
  function Context(attempts: seq<Attempt>, hostOf: string -> string): Ctx {
    Ctx(Aggregated(attempts), attempts, hostOf)
  }

  // ---- looking cells up ----

  predicate Matches(c: Cell, test: string, transport: string, port: int, variant: string) {
    c.key.test == test && c.key.transport == transport && c.key.port == port
        && (variant == "" || c.key.variant == variant)
  }

  /** The first cell of a test on a port; an empty variant matches any. */
  function Find(cells: seq<Cell>, test: string, transport: string, port: int, variant: string): (r: Option<Cell>)
    ensures r.Some? ==> r.value in cells && Matches(r.value, test, transport, port, variant)
  {
    if cells == [] then None
    else
      match Find(cells[..|cells| - 1], test, transport, port, variant)
      case Some(c) => Some(c)
      case None => if Matches(cells[|cells| - 1], test, transport, port, variant) then Some(cells[|cells| - 1])
          else None
  }

  function HandshakeTest(test: string): string {
    if test == "wireguard.session" then "wireguard.init"
    else if test == "openvpn.session" then "openvpn.reset"
    else if test == "ikev2.session" then "ikev2.init"
    else if test == "l2tp.session" then "l2tp.init"
    else if test == "socks5.session" then "socks5.connect"
    else if test == "vless.session" then "vless.reality"
    else if test == "tor.link" then "tor.handshake"
    else if test == "obfs4.session" then "obfs4.handshake"
    else ""
  }

  /** The handshake-only control of a session cell. */
  function HandshakeCell(cells: seq<Cell>, c: Cell): (r: Option<Cell>)
    ensures r.Some? ==> r.value in cells
  {
    var hs := HandshakeTest(c.key.test);
    if hs == "" then None
    else
      var own := Find(cells, hs, c.key.transport, c.key.port,
          TrimSuffix(TrimSuffix(c.key.variant, "+data"), "+control"));
      if own.Some? then own
      else
        var same := Find(cells, hs, c.key.transport, c.key.port, c.key.variant);
        if same.Some? then same else Find(cells, hs, c.key.transport, c.key.port, "")
  }

  function PlainTest(transport: string, name: string): string { (if transport == "udp" then "udp." else "tcp.") + name }

  function EchoCell(cells: seq<Cell>, c: Cell): Option<Cell> {
    Find(cells, PlainTest(c.key.transport, "echo"), c.key.transport, c.key.port, "")
  }

  predicate Passes(r: Option<Cell>) { r.Some? && Pass(r.value) }

  predicate IsBaseline(c: Cell) { c.key.test == "tcp.echo" || c.key.test == "udp.echo" }

  function Controls(r: Option<Cell>): seq<Line> { if r.Some? then [Against(r.value)] else [] }

  // ---- rules 1 and 3: all baselines at once ----

  function Baselines(cells: seq<Cell>): seq<Cell> {
    if cells == [] then []
    else
      var bs := Baselines(cells[..|cells| - 1]);
      if IsBaseline(cells[|cells| - 1]) then bs + [cells[|cells| - 1]] else bs
  }

  function AboutAll(cells: seq<Cell>): seq<Line> { seq(|cells|, i requires 0 <= i < |cells| => About(cells[i])) }

  predicate AllFail(cells: seq<Cell>) { forall i :: 0 <= i < |cells| ==> Fail(cells[i]) }

  function EndpointVerdict(x: Ctx): Option<Verdict> {
    var bs := Baselines(x.cells);
    if bs != [] && AllFail(bs)
    then Some(Verdict("endpoint_blocking_suspected", "all baseline echo tests", Medium, AboutAll(bs))) else None
  }

  predicate UdpSilent(cells: seq<Cell>) {
    var bs := Baselines(cells);
    && (exists i :: 0 <= i < |bs| && bs[i].key.transport == "tcp" && Pass(bs[i]))
    && (exists i :: 0 <= i < |bs| && bs[i].key.transport == "udp")
    && (forall i :: 0 <= i < |bs| && bs[i].key.transport == "udp" ==> Fail(bs[i]))
  }

  function UdpVerdict(x: Ctx): Option<Verdict> {
    if UdpSilent(x.cells) then Some(Verdict("udp_blocking_suspected", "all udp ports", Medium, [])) else None
  }

  // ---- rules that look at one cell at a time ----

  /** What a rule wants of a control. */
  datatype Wanted = PassingEcho(transport: string) | PassingApp(transport: string,
      port: int) | PassingTest(test: string)

  predicate IsApp(test: string) {
    HasPrefix(test, "http.") || HasPrefix(test, "tls.") || HasPrefix(test, "dns.") || test == "tor.dir"
  }

  predicate Meets(c: Cell, w: Wanted) {
    Pass(c) && match w
               case PassingEcho(tr) => IsBaseline(c) && c.key.transport == tr
               case PassingApp(tr, port) => c.key.transport == tr && c.key.port == port && IsApp(c.key.test)
               case PassingTest(test) => c.key.test == test
  }

  function FirstOf(cells: seq<Cell>, w: Wanted): (r: Option<Cell>)
    ensures r.Some? ==> r.value in cells && Meets(r.value, w)
  {
    if cells == [] then None
    else
      match FirstOf(cells[..|cells| - 1], w)
      case Some(c) => Some(c)
      case None => if Meets(cells[|cells| - 1], w) then Some(cells[|cells| - 1]) else None
  }

  /** Rule 2: a baseline that fails on a port while it passes elsewhere. */
  function PortOrProxy(x: Ctx, tr: string, f: Cell): Option<Verdict> {
    if !IsBaseline(f) || f.key.transport != tr || !Fail(f) then None
    else
      match FirstOf(x.cells, PassingEcho(tr))
      case None => None
      case Some(elsewhere) =>
        match FirstOf(x.cells, PassingApp(tr, f.key.port))
        case None =>
          Some(Verdict("port_blocking_suspected", PortText(tr, f.key.port), Strength(f, elsewhere),
              [About(f), Against(elsewhere)]))
        case Some(app) =>
          Some(Verdict("transparent_proxy_suspected", PortText(tr, f.key.port), Strength(f, app),
              [About(f), Against(app), Against(elsewhere)]))
  }

  /** Rule 5b: a long transfer that stops while short exchanges pass. */
  function BulkCut(x: Ctx, c: Cell): Option<Verdict> {
    if c.key.test != "tcp.bulk" || !Fail(c) then None
    else
      var short := Find(x.cells, "tcp.echo", c.key.transport, c.key.port, "");
      if !Passes(short) then None
      else
        var listed := Contains(c.key.variant, "trigger:") || Contains(c.key.variant, "list:");
        Some(Verdict(if listed then "sni_bulk_cut_suspected" else "bulk_transfer_cut_suspected", KeyText(c.key),
                     Strength(c, short.value), [About(c), Against(short.value)]))
  }

  function PacketCut(x: Ctx, c: Cell): Option<Verdict> {
    if (c.key.test != "tcp.packets" && c.key.test != "udp.packets") || !Fail(c) then None
    else
      var echo := EchoCell(x.cells, c);
      if !Passes(echo) then None
      else Some(Verdict("packet_count_cut_suspected", KeyText(c.key), Strength(c, echo.value),
          [About(c), Against(echo.value)]))
  }

  /** The same burst under another fingerprint on the port. */
  predicate IsPeer(o: Cell, c: Cell) {
    o.key.test == "tls.burst" && o.key.port == c.key.port && o.key.variant != c.key.variant
  }

  /** The peers that pass and those that fail, in cell order. */
  function Peers(cells: seq<Cell>, c: Cell): (r: seq<Line>)
    ensures forall f :: About(f) !in r
    ensures forall p :: Against(p) in r <==> p in cells && IsPeer(p, c) && Pass(p)
  {
    if cells == [] then []
    else
      var r, o := Peers(cells[..|cells| - 1], c), cells[|cells| - 1];
      if IsPeer(o, c) && Pass(o) then r + [Against(o)] else if IsPeer(o, c) && Fail(o) then r + [Beside(o)] else r
  }

  function OuterControl(x: Ctx, c: Cell): (r: Option<Cell>)
    ensures r.Some? ==> r.value in x.cells
  {
    Find(x.cells, "tls.sni", "tcp", c.key.port, "benign")
  }

  /** A burst of handshakes that freezes, against the single one on the port. */
  function BurstFreeze(x: Ctx, c: Cell): Option<Verdict> {
    var frozen := Count(c.outcomes, BURST_FREEZE);
    if c.key.test != "tls.burst" || frozen == 0 || Pass(c) then None
    else
      var outer := OuterControl(x, c);
      var conf := if Passes(outer) then Strength(c, outer.value)
                  else if Measured(c) >= MEDIUM_MIN && frozen * 2 > Measured(c) then Medium else Low;
      Some(Verdict("tls_burst_freeze_suspected", KeyText(c.key), conf,
          [About(c)] + Controls(outer) + Peers(x.cells, c)))
  }

  const REPEAT_NUM: nat := 2
  const REPEAT_DEN: nat := 3

  /** Rule 5c: the handshake is answered, the data that follows is not. */
  function SessionCut(x: Ctx, c: Cell): Option<Verdict> {
    if HandshakeTest(c.key.test) == "" || Pass(c) || Measured(c) == 0 then None
    else
      var init := HandshakeCell(x.cells, c);
      if !Passes(init) then None
      else
        var conf := Strength(c, init.value);
        var capped := if c.ok > 0 && conf == High then Medium else conf;
        var echo := EchoCell(x.cells, c);
        var packets := Find(x.cells, PlainTest(c.key.transport, "packets"), c.key.transport, c.key.port, "");
        var repeats := Count(c.outcomes, SESSION_CUT) * REPEAT_DEN >= Measured(c) * REPEAT_NUM
            && Measured(c) >= HIGH_MIN;
        var plain := repeats && (Passes(echo) || Passes(packets));
        Some(Verdict(TrimSuffix(c.key.test, ".session") + "_session_cut_suspected", KeyText(c.key), if plain then High
            else capped,
                     [About(c), Against(init.value)]
                     + if plain then [Against(if Passes(echo) then echo.value else packets.value)] else []))
  }

  /** Rule 6: an answer that is not the authoritative one. */
  function DnsManipulation(x: Ctx, c: Cell): Option<Verdict> {
    if !HasPrefix(c.key.test, "dns.") || Count(c.outcomes, DNS_MISMATCH) + Count(c.outcomes, DNS_RACE) == 0 then None
    else Some(Verdict(if c.key.test == "dns.system" then "system_resolver_manipulation_suspected"
        else "dns_manipulation_suspected",
                      KeyText(c.key), Medium, [About(c)]))
  }

  /** Rule 6: a DNS port without an echo of its own, against an echo elsewhere. */
  function DnsPort(x: Ctx, udpOnly: bool, c: Cell): Option<Verdict> {
    if !HasPrefix(c.key.test, "dns.") || c.key.test == "dns.system" || c.key.test == "dns.doh" || !Fail(c) then None
    else if Find(x.cells, "tcp.echo", c.key.transport, c.key.port, "").Some?
            || Find(x.cells, "udp.echo", c.key.transport, c.key.port, "").Some? then None
    else if udpOnly && c.key.test == "dns.udp" then None
    else
      match FirstOf(x.cells, PassingTest(PlainTest(c.key.transport, "echo")))
      case None => None
      case Some(echo) => Some(Verdict("dns_port_blocking_suspected", KeyText(c.key), Strength(c, echo),
          [About(c), Against(echo)]))
  }

  /** The last cell of a test (and variant). */
  function LastOf(cells: seq<Cell>, test: string, variant: string): (r: Option<Cell>)
    ensures r.Some? ==> r.value in cells
  {
    if cells == [] then None
    else
      var c := cells[|cells| - 1];
      if c.key.test == test && (variant == "" || c.key.variant == variant) then Some(c)
          else LastOf(cells[..|cells| - 1], test, variant)
  }

  predicate UdpOnly(x: Ctx) { LastOf(x.cells, "dns.udp", "TXT").Some? && Passes(LastOf(x.cells, "dns.tcp", "")) }

  function DnsUdp(x: Ctx): Option<Verdict> {
    var udp, tcp := LastOf(x.cells, "dns.udp", "TXT"), LastOf(x.cells, "dns.tcp", "");
    if UdpOnly(x) && Fail(udp.value)
    then Some(Verdict("dns_udp_blocking_suspected", KeyText(udp.value.key), Strength(udp.value, tcp.value),
        [About(udp.value), Against(tcp.value)]))
    else None
  }

  // ---- rule 5: variants of one family on one port ----

  /** Test family and port: what a group of variants shares. */
  function GroupKey(c: Cell): (string, string) { (c.key.test, PortText(c.key.transport, c.key.port)) }

  /** The cells of a group, in cell order. */
  function Grouped(cells: seq<Cell>, g: (string, string)): (r: seq<Cell>)
    ensures forall d :: d in r <==> d in cells && GroupKey(d) == g
  {
    if cells == [] then []
    else
      var r := Grouped(cells[..|cells| - 1], g);
      if GroupKey(cells[|cells| - 1]) == g then r + [cells[|cells| - 1]] else r
  }

  /** The nominal baseline: the last one; for vless, without one, the first control. */
  function Nominal(cs: seq<Cell>, vless: bool): (r: Option<Cell>)
    ensures r.Some? ==> r.value in cs
  {
    if cs == [] then None
    else
      var c, base := cs[|cs| - 1], Nominal(cs[..|cs| - 1], vless);
      if c.role == Baseline || (base.None? && c.role == Control && vless) then Some(c) else base
  }

  function FirstPassing(cs: seq<Cell>): (r: Option<Cell>)
    ensures r.Some? ==> r.value in cs && Pass(r.value)
  {
    if cs == [] then None
    else
      var c, first := cs[|cs| - 1], FirstPassing(cs[..|cs| - 1]);
      if first.Some? then first else if Pass(c) && c.role != Control then Some(c) else None
  }

  function VariantBaseline(test: string, cs: seq<Cell>): (r: Option<Cell>)
    ensures r.Some? ==> r.value in cs && Pass(r.value)
  {
    var base := Nominal(cs, HasPrefix(test, "vless."));
    if Passes(base) then base else FirstPassing(cs)
  }

  function VariantKind(test: string, variant: string): string {
    if test == "tls.sni" || test == "http.host" then
      if HasPrefix(variant, "trigger:") then "sni_or_host_blocking_suspected" else "sni_or_host_policy_suspected"
    else if test == "tls.fingerprint" then "fingerprint_blocking_suspected"
    else if (test == "vless.reality" || test == "vless.session")
        && HasPrefix(variant, "reality:") then "sni_ip_mismatch_blocking_suspected"
    else if test == "tls.alpn" then "alpn_policy_suspected"
    else if test == "tls.version" then "tls_version_policy_suspected"
    else if test == "dns.udp" then "dns_qtype_policy_suspected"
    else if test == "socks5.connect" then "socks5_auth_policy_suspected"
    else if test == "tor.handshake" then "tor_handshake_blocking_suspected"
    else if test == "dtls.hello" then "dtls_fingerprint_blocking_suspected"
    else "variant_blocking_suspected"
  }

  /** A failing variant against the group it stands in. */
  function VariantIn(x: Ctx, cs: seq<Cell>, v: Cell): Option<Verdict> {
    var base := VariantBaseline(v.key.test, cs);
    if base.None? || v.role == Baseline || !Fail(v) || KeyText(v.key) == KeyText(base.value.key)
        || Passes(HandshakeCell(x.cells, v)) then None
    else Some(Verdict(VariantKind(v.key.test, v.key.variant), KeyText(v.key), Strength(v, base.value),
        [About(v), Against(base.value)]))
  }

  function VariantOf(x: Ctx, v: Cell): Option<Verdict> {
    if IsDest(v.key.test) then None else VariantIn(x, Grouped(x.cells, GroupKey(v)), v)
  }

  // ---- applying them ----

  datatype Rule = Ports(transport: string) | Variants | Bulks | Packets | Bursts | Sessions | Manipulated | DnsPorts

  function Apply(r: Rule, x: Ctx, c: Cell): Option<Verdict> {
    match r
    case Ports(tr) => PortOrProxy(x, tr, c)
    case Variants => VariantOf(x, c)
    case Bulks => BulkCut(x, c)
    case Packets => PacketCut(x, c)
    case Bursts => BurstFreeze(x, c)
    case Sessions => SessionCut(x, c)
    case Manipulated => DnsManipulation(x, c)
    case DnsPorts => DnsPort(x, UdpOnly(x), c)
  }

  function Collect(r: Rule, x: Ctx, n: nat): seq<Verdict>
    requires n <= |x.cells|
  {
    if n == 0 then []
    else
      var vs := Collect(r, x, n - 1);
      match Apply(r, x, x.cells[n - 1])
      case Some(v) => vs + [v]
      case None => vs
  }

  function Each(r: Rule, x: Ctx): seq<Verdict> { Collect(r, x, |x.cells|) }

  function Maybe(v: Option<Verdict>): seq<Verdict> { if v.Some? then [v.value] else [] }

  // ---- rule 4: a whole native protocol on a port ----

  const NATIVE: set<string> := {
    "tcp.bulk", "openvpn.reset", "wireguard.init", "openvpn.session", "wireguard.session", "ikev2.init",
        "ikev2.session",
    "l2tp.init", "l2tp.session", "socks5.connect", "socks5.session", "vless.reality", "vless.session", "quic.v1",
        "tls.sni",
    "tls.version", "tls.alpn", "tls.fingerprint", "http.host", "dns.udp", "dns.tcp", "dns.dot", "tor.handshake",
        "tor.link",
    "tor.dir", "obfs4.handshake", "obfs4.session", "dtls.hello", "stun.binding"}

  /** Some flow left the client from another port than the server saw. */
  predicate NatDetected(attempts: seq<Attempt>) {
    exists i :: 0 <= i < |attempts| && attempts[i].server.Some? && attempts[i].srcPort != 0
                && attempts[i].server.value.srcPort != 0 && attempts[i].srcPort != attempts[i].server.value.srcPort
  }

  predicate SameFamily(o: Cell, c: Cell) {
    o.key.test == c.key.test && o.key.port == c.key.port && o.key.transport == c.key.transport
  }

  predicate FamilyFails(cells: seq<Cell>, c: Cell) {
    forall i :: 0 <= i < |cells| && SameFamily(cells[i], c) && Measured(cells[i]) > 0 ==> Fail(cells[i])
  }

  function Family(c: Cell): string { FamilyText(c.key.test, c.key.transport, c.key.port) }

  /** Confidence of a blocked protocol: a NAT in the path keeps IPsec and L2TP below high. */
  function ProtocolStrength(x: Ctx, c: Cell, echo: Cell): Confidence {
    var conf := Strength(c, echo);
    if (HasPrefix(c.key.test, "ikev2.") || HasPrefix(c.key.test, "l2tp.")) && NatDetected(x.attempts)
        && conf == High then Medium else conf
  }

  /** What rule 4 says of a cell whose family is not reported yet. */
  function ProtocolOf(x: Ctx, c: Cell): Option<Verdict> {
    var init := HandshakeCell(x.cells, c);
    if c.key.test !in NATIVE || !Fail(c) || (init.Some? && (Pass(init.value) || Fail(init.value))) then None
    else
      var echo := EchoCell(x.cells, c);
      var random := Find(x.cells, PlainTest(c.key.transport, "payload.random"), c.key.transport, c.key.port, "");
      if !Passes(echo) || c.role == Control then None
      else if random.Some? && Fail(random.value) then
        Some(Verdict("control_failed_inconclusive", KeyText(c.key), Low,
            [About(c), Against(random.value), Against(echo.value)]))
      else if (random.None? || Pass(random.value)) && FamilyFails(x.cells, c) then
        Some(Verdict("protocol_blocking_suspected", Family(c), ProtocolStrength(x, c, echo.value),
                     [About(c), Against(echo.value)] + Controls(random)))
      else None
  }

  /** The verdicts of the first n cells, and the families reported by then. */
  function Protocols(x: Ctx, n: nat): (seq<Verdict>, set<string>)
    requires n <= |x.cells|
  {
    if n == 0 then ([], {})
    else
      var (vs, reported) := Protocols(x, n - 1);
      var c := x.cells[n - 1];
      match if Family(c) in reported then None else ProtocolOf(x, c)
      case None => (vs, reported)
      case Some(v) => (vs + [v], if v.kind == "protocol_blocking_suspected" then reported + {Family(c)} else reported)
  }

  // ---- rules 1 to 6 ----

  function Dns(x: Ctx): seq<Verdict> { Each(Manipulated, x) + Maybe(DnsUdp(x)) + Each(DnsPorts, x) }

  /** Rules 1 to 4. */
  function Early(x: Ctx): seq<Verdict> {
    Maybe(EndpointVerdict(x)) + (Each(Ports("tcp"), x) + Each(Ports("udp"), x)) + Maybe(UdpVerdict(x))
        + Protocols(x, |x.cells|).0
  }

  /** Rules 5b to 6. */
  function Late(x: Ctx): seq<Verdict> {
    Each(Bulks, x) + Each(Packets, x) + Each(Bursts, x) + Each(Sessions, x) + Dns(x)
  }

  /** The differential verdicts, in the order of the rules. */
  function Differentials(x: Ctx): seq<Verdict> { Early(x) + Each(Variants, x) + Late(x) }
}
