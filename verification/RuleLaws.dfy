/** When a rule of the classifier speaks (internal/classify/rules*.go): for every rule
    its verdicts, told from the cells of the scan alone. */
module RuleLaws {
  import opened Base
  import opened Text
  import opened Evidence
  import opened Cells
  import opened Rules
  import opened RuleFacts

  // ---- the first cell of a kind ----

  ghost predicate FirstAt(cells: seq<Cell>, p: Cell -> bool, i: int) {
    0 <= i < |cells| && p(cells[i]) && forall j :: 0 <= j < i ==> !p(cells[j])
  }

  /** c is the first of the cells of which p holds. */
  ghost predicate First(cells: seq<Cell>, p: Cell -> bool, c: Cell) {
    exists i :: FirstAt(cells, p, i) && cells[i] == c
  }

  lemma FirstUnique(cells: seq<Cell>, p: Cell -> bool, c: Cell, d: Cell)
    requires First(cells, p, c) && First(cells, p, d)
    ensures c == d && c in cells && p(c)
  {
    var i :| FirstAt(cells, p, i) && cells[i] == c;
    var j :| FirstAt(cells, p, j) && cells[j] == d;
    assert i == j;
  }

  lemma FindIs(cells: seq<Cell>, test: string, transport: string, port: int, variant: string, p: Cell -> bool)
    requires forall o :: p(o) <==> Matches(o, test, transport, port, variant)
    ensures Find(cells, test, transport, port, variant).None? <==> forall o :: o in cells ==> !p(o)
    ensures forall c :: Find(cells, test, transport, port, variant) == Some(c) <==> First(cells, p, c)
  {
    hide Matches;
    var r := Find(cells, test, transport, port, variant);
    FindFirst(cells, test, transport, port, variant);
    if r.Some? {
      var i :| 0 <= i < |cells| && cells[i] == r.value && Matches(r.value, test, transport, port, variant)
               && forall j :: 0 <= j < i ==> !Matches(cells[j], test, transport, port, variant);
      assert FirstAt(cells, p, i);
      forall c | First(cells, p, c) ensures c == r.value { FirstUnique(cells, p, c, r.value); }
    }
  }

  lemma FirstOfIs(cells: seq<Cell>, w: Wanted, p: Cell -> bool)
    requires forall o :: p(o) <==> Meets(o, w)
    ensures FirstOf(cells, w).None? <==> forall o :: o in cells ==> !p(o)
    ensures forall c :: FirstOf(cells, w) == Some(c) <==> First(cells, p, c)
  {
    hide Meets;
    var r := FirstOf(cells, w);
    FirstOfFirst(cells, w);
    if r.Some? {
      var i :| 0 <= i < |cells| && cells[i] == r.value && Meets(r.value, w)
               && forall j :: 0 <= j < i ==> !Meets(cells[j], w);
      assert FirstAt(cells, p, i);
      forall c | First(cells, p, c) ensures c == r.value { FirstUnique(cells, p, c, r.value); }
    }
  }

  // ---- what the rules look cells up by ----

  predicate At(o: Cell, test: string, transport: string, port: int) {
    o.key.test == test && o.key.transport == transport && o.key.port == port
  }

  /** The first cell of a test on the port of c. */
  ghost predicate Beneath(cells: seq<Cell>, test: string, c: Cell, o: Cell) {
    First(cells, d => At(d, test, c.key.transport, c.key.port), o)
  }

  lemma BeneathIs(cells: seq<Cell>, test: string, c: Cell)
    ensures forall o :: Find(cells, test, c.key.transport, c.key.port, "") == Some(o) <==> Beneath(cells, test, c, o)
    ensures Find(cells, test, c.key.transport, c.key.port, "").None?
       <==> forall o :: o in cells ==> !At(o, test, c.key.transport, c.key.port)
  {
    FindIs(cells, test, c.key.transport, c.key.port, "", d => At(d, test, c.key.transport, c.key.port));
  }

  // ---- the handshake a session rests on ----

  /** Which test is the handshake of which session. */
  predicate Opens(handshake: string, session: string) {
    (handshake, session) in {
      ("wireguard.init", "wireguard.session"), ("openvpn.reset", "openvpn.session"), ("ikev2.init", "ikev2.session"),
      ("l2tp.init", "l2tp.session"), ("socks5.connect", "socks5.session"), ("vless.reality", "vless.session"),
      ("tor.handshake", "tor.link"), ("obfs4.handshake", "obfs4.session")}
  }

  lemma OpensIff(handshake: string, session: string)
    ensures Opens(handshake, session) <==> HandshakeTest(session) == handshake && handshake != ""
  {
  }

  /** A session variant is its handshake variant with "+control" and "+data" behind it. */
  function Stem(variant: string): string { TrimSuffix(TrimSuffix(variant, "+data"), "+control") }

  /** How closely a handshake cell answers to a session cell: of the same signature,
      of the same variant, or of any. */
  datatype Likeness = Signature | Name | Any

  predicate Suits(o: Cell, c: Cell, how: Likeness) {
    && Opens(o.key.test, c.key.test) && o.key.transport == c.key.transport && o.key.port == c.key.port
    && match how
       case Signature => Stem(c.key.variant) == "" || o.key.variant == Stem(c.key.variant)
       case Name => c.key.variant == "" || o.key.variant == c.key.variant
       case Any => true
  }

  /** h is the handshake cell c is held against: the first one of the closest likeness there is. */
  ghost predicate Rests(cells: seq<Cell>, c: Cell, h: Cell) {
    || First(cells, o => Suits(o, c, Signature), h)
    || (First(cells, o => Suits(o, c, Name), h) && forall o :: o in cells ==> !Suits(o, c, Signature))
    || (First(cells, o => Suits(o, c, Any), h)
        && forall o :: o in cells ==> !Suits(o, c, Signature) && !Suits(o, c, Name))
  }

  lemma RestsSuits(cells: seq<Cell>, c: Cell, h: Cell)
    requires Rests(cells, c, h)
    ensures h in cells && Opens(h.key.test, c.key.test)
  {
    hide Opens, Stem;
  }

  lemma HandshakeIs(cells: seq<Cell>, c: Cell)
    ensures forall h :: HandshakeCell(cells, c) == Some(h) <==> Rests(cells, c, h)
  {
    hide HandshakeTest, Opens, TrimSuffix, First;
    var hs := HandshakeTest(c.key.test);
    var k := c.key;
    forall o ensures Opens(o, k.test) <==> hs == o && o != "" { OpensIff(o, k.test); }
    var stem := Stem(k.variant);
    if hs != "" {
      FindIs(cells, hs, k.transport, k.port, stem, o => Suits(o, c, Signature));
      FindIs(cells, hs, k.transport, k.port, k.variant, o => Suits(o, c, Name));
      FindIs(cells, hs, k.transport, k.port, "", o => Suits(o, c, Any));
    } else {
      forall h ensures !Rests(cells, c, h) { if Rests(cells, c, h) { RestsSuits(cells, c, h); } }
    }
  }

  // ---- how sure a differential is ----

  /** Three measured attempts on each side, none passing against all passing: high.
      Two, at most a third of them passing, against a control that passes: medium. */
  lemma StrengthIff(f: Cell, p: Cell)
    ensures Strength(f, p) == High
       <==> Measured(f) >= 3 && f.ok == 0 && Measured(p) >= 3 && p.ok == Measured(p)
    ensures Strength(f, p) == Medium
       <==> && !(Measured(f) >= 3 && f.ok == 0 && Measured(p) >= 3 && p.ok == Measured(p))
            && Measured(f) >= 2 && 3 * f.ok <= Measured(f) && Measured(p) > 0 && 2 * p.ok > Measured(p)
  {
  }

  // ---- rules 1 and 3: the echoes of all ports ----

  predicate Echoes(o: Cell) { o.key.test in {"tcp.echo", "udp.echo"} }

  lemma {:induction false} BaselinesAre(cells: seq<Cell>)
    ensures forall c :: c in Baselines(cells) <==> c in cells && Echoes(c)
  {
    if cells != [] {
      BaselinesAre(cells[..|cells| - 1]);
      assert cells == cells[..|cells| - 1] + [cells[|cells| - 1]];
    }
  }

  /** The endpoint is suspected exactly when there are echoes and every one fails. */
  lemma EndpointIff(x: Ctx)
    ensures EndpointVerdict(x).Some?
       <==> && (exists c :: c in x.cells && Echoes(c))
            && (forall c :: c in x.cells && Echoes(c) ==> Fail(c))
    ensures forall v :: EndpointVerdict(x) == Some(v) ==> v.kind == "endpoint_blocking_suspected" && v.conf == Medium
    ensures forall v, c :: EndpointVerdict(x) == Some(v) ==> (About(c) in v.evidence <==> c in x.cells && Echoes(c))
  {
    hide Baselines, Echoes, Fail;
    var bs := Baselines(x.cells);
    BaselinesAre(x.cells);
    if bs != [] { assert bs[0] in x.cells; }
    forall c ensures About(c) in AboutAll(bs) <==> c in bs {
      if c in bs {
        var i :| 0 <= i < |bs| && bs[i] == c;
        assert AboutAll(bs)[i] == About(c);
      }
    }
  }

  /** UDP is suspected exactly when a TCP echo passes, there is a UDP one, and every UDP one fails. */
  lemma UdpIff(x: Ctx)
    ensures UdpVerdict(x).Some?
       <==> && (exists c :: c in x.cells && Echoes(c) && c.key.transport == "tcp" && Pass(c))
            && (exists c :: c in x.cells && Echoes(c) && c.key.transport == "udp")
            && (forall c :: c in x.cells && Echoes(c) && c.key.transport == "udp" ==> Fail(c))
    ensures forall v :: UdpVerdict(x) == Some(v) ==> v.kind == "udp_blocking_suspected" && v.conf == Medium
  {
    hide Baselines, Echoes, Pass, Fail;
    BaselinesAre(x.cells);
    var bs := Baselines(x.cells);
    assert forall i :: 0 <= i < |bs| ==> bs[i] in bs;
    assert forall c :: c in bs ==> exists i :: 0 <= i < |bs| && bs[i] == c;
  }

  // ---- rule 2 ----

  /** An application that reads what it is sent. */
  predicate Speaks(test: string) {
    test == "tor.dir" || exists p :: p in ["http.", "tls.", "dns."] && HasPrefix(test, p)
  }

  lemma SpeaksIff(test: string)
    ensures Speaks(test) <==> IsApp(test)
  {
    hide HasPrefix;
    var ps := ["http.", "tls.", "dns."];
    assert ps[0] == "http." && ps[1] == "tls." && ps[2] == "dns.";
  }

  /** An echo that passes over a transport, and an application that passes on a port. */
  predicate EchoPasses(o: Cell, tr: string) { Echoes(o) && o.key.transport == tr && Pass(o) }

  predicate AppPasses(o: Cell, tr: string, port: int) {
    o.key.transport == tr && o.key.port == port && Speaks(o.key.test) && Pass(o)
  }

  /** What rule 2 says of a failing echo: with a passing one elsewhere its port is
      suspected, or, when an application passes on the port, a proxy that relays only those. */
  ghost predicate PortSays(cells: seq<Cell>, tr: string, f: Cell, v: Verdict) {
    && Echoes(f) && f.key.transport == tr && Fail(f)
    && exists e ::
        && First(cells, o => EchoPasses(o, tr), e)
        && ((&& (forall o :: o in cells ==> !AppPasses(o, tr, f.key.port))
             && v == Verdict("port_blocking_suspected", PortText(tr, f.key.port), Strength(f, e),
                             [About(f), Against(e)]))
            || exists a ::
                 && First(cells, o => AppPasses(o, tr, f.key.port), a)
                 && v == Verdict("transparent_proxy_suspected", PortText(tr, f.key.port), Strength(f, a),
                                 [About(f), Against(a), Against(e)]))
  }

  lemma PortIs(x: Ctx, tr: string, f: Cell, v: Verdict)
    ensures PortOrProxy(x, tr, f) == Some(v) <==> PortSays(x.cells, tr, f, v)
  {
    hide Pass, Fail, Strength, PortText, IsApp, Speaks, First;
    var p := o => EchoPasses(o, tr);
    var q := o => AppPasses(o, tr, f.key.port);
    forall o ensures p(o) <==> Meets(o, PassingEcho(tr)) { }
    forall o ensures q(o) <==> Meets(o, PassingApp(tr, f.key.port)) { SpeaksIff(o.key.test); }
    FirstOfIs(x.cells, PassingEcho(tr), p);
    FirstOfIs(x.cells, PassingApp(tr, f.key.port), q);
  }

  lemma PortRuleIff(x: Ctx, tr: string, v: Verdict)
    ensures v in Each(Ports(tr), x) <==> exists f :: f in x.cells && PortSays(x.cells, tr, f, v)
  {
    hide PortSays, PortOrProxy, Each;
    EachMember(Ports(tr), x, v);
    forall f ensures Apply(Ports(tr), x, f) == Some(v) <==> PortSays(x.cells, tr, f, v) { PortIs(x, tr, f, v); }
  }

  // ---- rule 5b ----

  /** A long transfer fails where the echo of its port passes. */
  ghost predicate BulkSays(cells: seq<Cell>, c: Cell, v: Verdict) {
    && c.key.test == "tcp.bulk" && Fail(c)
    && exists e ::
        && Beneath(cells, "tcp.echo", c, e) && Pass(e)
        && v == Verdict(if Contains(c.key.variant, "trigger:") || Contains(c.key.variant, "list:")
                        then "sni_bulk_cut_suspected" else "bulk_transfer_cut_suspected",
                        KeyText(c.key), Strength(c, e), [About(c), Against(e)])
  }

  lemma BulkIff(x: Ctx, v: Verdict)
    ensures v in Each(Bulks, x) <==> exists c :: c in x.cells && BulkSays(x.cells, c, v)
  {
    hide BulkSays, BulkCut, Each;
    EachMember(Bulks, x, v);
    forall c ensures Apply(Bulks, x, c) == Some(v) <==> BulkSays(x.cells, c, v) { BulkIs(x, c, v); }
  }

  lemma BulkIs(x: Ctx, c: Cell, v: Verdict)
    ensures BulkCut(x, c) == Some(v) <==> BulkSays(x.cells, c, v)
  {
    hide Pass, Fail, Strength, KeyText, Contains, Beneath;
    BeneathIs(x.cells, "tcp.echo", c);
  }

  /** A packet train fails where the echo of its transport on the port passes. */
  ghost predicate PacketSays(cells: seq<Cell>, c: Cell, v: Verdict) {
    && c.key.test in {"tcp.packets", "udp.packets"} && Fail(c)
    && exists e ::
        && Beneath(cells, if c.key.transport == "udp" then "udp.echo" else "tcp.echo", c, e) && Pass(e)
        && v == Verdict("packet_count_cut_suspected", KeyText(c.key), Strength(c, e), [About(c), Against(e)])
  }

  lemma PacketIs(x: Ctx, c: Cell, v: Verdict)
    ensures PacketCut(x, c) == Some(v) <==> PacketSays(x.cells, c, v)
  {
    hide Pass, Fail, Strength, KeyText, Beneath;
    PlainNamed(c.key.transport);
    BeneathIs(x.cells, PlainTest(c.key.transport, "echo"), c);
  }

  lemma PlainNamed(transport: string)
    ensures PlainTest(transport, "echo") == if transport == "udp" then "udp.echo" else "tcp.echo"
    ensures PlainTest(transport, "packets") == if transport == "udp" then "udp.packets" else "tcp.packets"
    ensures PlainTest(transport, "payload.random")
         == if transport == "udp" then "udp.payload.random" else "tcp.payload.random"
  {
  }

  lemma PacketIff(x: Ctx, v: Verdict)
    ensures v in Each(Packets, x) <==> exists c :: c in x.cells && PacketSays(x.cells, c, v)
  {
    hide PacketSays, PacketCut, Each;
    EachMember(Packets, x, v);
    forall c ensures Apply(Packets, x, c) == Some(v) <==> PacketSays(x.cells, c, v) { PacketIs(x, c, v); }
  }

  /** The single handshake of the port, to the benign name. */
  predicate IsBenign(o: Cell, port: int) { At(o, "tls.sni", "tcp", port) && o.key.variant == "benign" }

  /** Bursts under other fingerprints on the port. */
  predicate Rivals(o: Cell, c: Cell) {
    o.key.test == "tls.burst" && o.key.port == c.key.port && o.key.variant != c.key.variant
  }

  predicate Frozen(c: Cell) { BURST_FREEZE in c.outcomes && c.outcomes[BURST_FREEZE] > 0 }

  /** More than half of at least two measured bursts froze. */
  predicate MostlyFrozen(c: Cell) { Frozen(c) && Measured(c) >= 2 && 2 * c.outcomes[BURST_FREEZE] > Measured(c) }

  /** A burst froze and the cell does not pass. It is held against the single handshake
      if that passes, and else against its own count; the evidence names the cell, that
      handshake, and the bursts of the port that pass and that fail. */
  ghost predicate BurstSays(cells: seq<Cell>, c: Cell, v: Verdict) {
    && c.key.test == "tls.burst" && Frozen(c) && !Pass(c)
    && v.kind == "tls_burst_freeze_suspected" && v.subject == KeyText(c.key)
    && (forall o :: First(cells, d => IsBenign(d, c.key.port), o) && Pass(o) ==> v.conf == Strength(c, o))
    && ((forall o :: First(cells, d => IsBenign(d, c.key.port), o) ==> !Pass(o)) ==>
        v.conf == if MostlyFrozen(c) then Medium else Low)
    && (forall o :: About(o) in v.evidence <==> o == c)
    && (forall o :: Against(o) in v.evidence <==>
          || First(cells, d => IsBenign(d, c.key.port), o) || (o in cells && Rivals(o, c) && Pass(o)))
    && (forall o :: Beside(o) in v.evidence <==> o in cells && Rivals(o, c) && Fail(o))
  }

  lemma {:induction false} PeersAre(cells: seq<Cell>, c: Cell)
    ensures forall o :: Beside(o) in Peers(cells, c) <==> o in cells && Rivals(o, c) && Fail(o)
  {
    hide Pass, Fail;
    if cells != [] {
      var o := cells[|cells| - 1];
      PeersAre(cells[..|cells| - 1], c);
      assert cells == cells[..|cells| - 1] + [o];
      PassOrFail(o);
    }
  }

  lemma PassOrFail(c: Cell)
    ensures !(Pass(c) && Fail(c))
  {
  }

  lemma BurstIs(x: Ctx, c: Cell)
    ensures BurstFreeze(x, c).Some? <==> c.key.test == "tls.burst" && Frozen(c) && !Pass(c)
    ensures BurstFreeze(x, c).Some? ==> BurstSays(x.cells, c, BurstFreeze(x, c).value)
  {
    hide Pass, Fail, Strength, KeyText, First, Peers, Measured;
    var p := o => IsBenign(o, c.key.port);
    FindIs(x.cells, "tls.sni", "tcp", c.key.port, "benign", p);
    if BurstFreeze(x, c).Some? {
      PeersAre(x.cells, c);
      var outer := OuterControl(x, c);
      assert forall o :: First(x.cells, p, o) <==> outer == Some(o);
    }
  }

  /** Rule 5b on bursts: one verdict for every cell with a frozen burst that does not
      pass, and no other. */
  lemma BurstIff(x: Ctx)
    ensures forall v :: v in Each(Bursts, x) ==> exists c :: c in x.cells && BurstSays(x.cells, c, v)
    ensures forall c :: c in x.cells && c.key.test == "tls.burst" && Frozen(c) && !Pass(c) ==>
              exists v :: v in Each(Bursts, x) && BurstSays(x.cells, c, v)
  {
    hide BurstSays, BurstFreeze, Each, Pass, Frozen;
    forall v | v in Each(Bursts, x) ensures exists c :: c in x.cells && BurstSays(x.cells, c, v) {
      EachMember(Bursts, x, v);
      var c :| c in x.cells && Apply(Bursts, x, c) == Some(v);
      BurstIs(x, c);
    }
    forall c | c in x.cells && c.key.test == "tls.burst" && Frozen(c) && !Pass(c)
      ensures exists v :: v in Each(Bursts, x) && BurstSays(x.cells, c, v)
    {
      BurstIs(x, c);
      var v := BurstFreeze(x, c).value;
      assert Apply(Bursts, x, c) == Some(v);
      EachMember(Bursts, x, v);
    }
  }

  // ---- rule 5c ----

  /** Two thirds of at least three measured sessions were cut. */
  predicate Repeats(c: Cell) {
    SESSION_CUT in c.outcomes && 3 * c.outcomes[SESSION_CUT] >= 2 * Measured(c) && Measured(c) >= 3
  }

  /** Plain traffic that passes on the port of c: the echo, and where that does not pass the packet train. */
  ghost predicate PlainPasses(cells: seq<Cell>, c: Cell, o: Cell) {
    var udp := c.key.transport == "udp";
    && Pass(o)
    && (|| Beneath(cells, if udp then "udp.echo" else "tcp.echo", c, o)
        || (&& Beneath(cells, if udp then "udp.packets" else "tcp.packets", c, o)
            && forall e :: Beneath(cells, if udp then "udp.echo" else "tcp.echo", c, e) ==> !Pass(e)))
  }

  /** A measured session does not pass while the handshake it rests on does. It is high
      when the cut repeats beside plain traffic that passes, and else as sure as the
      session against its handshake. */
  ghost predicate SessionSays(cells: seq<Cell>, c: Cell, v: Verdict) {
    && Measured(c) != 0 && !Pass(c)
    && v.kind == TrimSuffix(c.key.test, ".session") + "_session_cut_suspected" && v.subject == KeyText(c.key)
    && exists h ::
        && Rests(cells, c, h) && Pass(h)
        && (|| (&& v.conf == High && Repeats(c)
                && exists o :: PlainPasses(cells, c, o) && v.evidence == [About(c), Against(h), Against(o)])
            || (&& v.conf == Strength(c, h) && v.evidence == [About(c), Against(h)]
                && (Repeats(c) ==> forall o :: !PlainPasses(cells, c, o))))
  }

  lemma PlainIs(x: Ctx, c: Cell)
    ensures var echo := EchoCell(x.cells, c);
            var packets := Find(x.cells, PlainTest(c.key.transport, "packets"), c.key.transport, c.key.port, "");
            forall o :: PlainPasses(x.cells, c, o)
                <==> if Passes(echo) then echo == Some(o) else Passes(packets) && packets == Some(o)
  {
    hide Pass, Beneath, PlainTest;
    PlainNamed(c.key.transport);
    BeneathIs(x.cells, PlainTest(c.key.transport, "echo"), c);
    BeneathIs(x.cells, PlainTest(c.key.transport, "packets"), c);
  }

  lemma HighHasNoPass(c: Cell, h: Cell)
    ensures (if c.ok > 0 && Strength(c, h) == High then Medium else Strength(c, h)) == Strength(c, h)
  {
  }

  lemma RepeatsIs(c: Cell)
    ensures Repeats(c)
       <==> Count(c.outcomes, SESSION_CUT) * REPEAT_DEN >= Measured(c) * REPEAT_NUM && Measured(c) >= HIGH_MIN
  {
  }

  lemma SessionIs(x: Ctx, c: Cell, v: Verdict)
    ensures SessionCut(x, c) == Some(v) <==> SessionSays(x.cells, c, v)
  {
    hide Pass, Strength, KeyText, HandshakeTest, HandshakeCell, TrimSuffix, Rests, Repeats, PlainTest, PlainPasses,
        EchoCell, Find;
    HandshakeIs(x.cells, c);
    PlainIs(x, c);
    RepeatsIs(c);
    var init := HandshakeCell(x.cells, c);
    if init.Some? {
      var lines := [About(c), Against(init.value)];
      assert lines + [] == lines;
      forall o ensures lines + [Against(o)] == [About(c), Against(init.value), Against(o)] { }
      HighHasNoPass(c, init.value);
      RestsSuits(x.cells, c, init.value);
      OpensIff(init.value.key.test, c.key.test);
    }
  }

  /** Rule 5c: the verdicts are those of the sessions that are cut. */
  lemma SessionIff(x: Ctx, v: Verdict)
    ensures v in Each(Sessions, x) <==> exists c :: c in x.cells && SessionSays(x.cells, c, v)
  {
    hide SessionSays, SessionCut, Each;
    EachMember(Sessions, x, v);
    forall c ensures Apply(Sessions, x, c) == Some(v) <==> SessionSays(x.cells, c, v) { SessionIs(x, c, v); }
  }

  // ---- rule 6, the answers ----

  /** A DNS cell some answer of which is not the authoritative one, or was raced. */
  ghost predicate Manipulates(c: Cell, v: Verdict) {
    && HasPrefix(c.key.test, "dns.")
    && (exists o :: o in [DNS_MISMATCH, DNS_RACE] && o in c.outcomes && c.outcomes[o] > 0)
    && v == Verdict(if c.key.test == "dns.system" then "system_resolver_manipulation_suspected"
                    else "dns_manipulation_suspected", KeyText(c.key), Medium, [About(c)])
  }

  lemma ManipulatedIff(x: Ctx, v: Verdict)
    ensures v in Each(Manipulated, x) <==> exists c :: c in x.cells && Manipulates(c, v)
  {
    hide Manipulates, DnsManipulation, Each;
    EachMember(Manipulated, x, v);
    forall c ensures Apply(Manipulated, x, c) == Some(v) <==> Manipulates(c, v) { ManipulatesIs(x, c, v); }
  }

  lemma ManipulatesIs(x: Ctx, c: Cell, v: Verdict)
    ensures DnsManipulation(x, c) == Some(v) <==> Manipulates(c, v)
  {
    hide KeyText, HasPrefix;
    var os := [DNS_MISMATCH, DNS_RACE];
    assert os[0] == DNS_MISMATCH && os[1] == DNS_RACE;
  }

  // ---- rule 5 ----

  ghost predicate LastAt(cells: seq<Cell>, p: Cell -> bool, i: int) {
    0 <= i < |cells| && p(cells[i]) && forall j :: i < j < |cells| ==> !p(cells[j])
  }

  ghost predicate Last(cells: seq<Cell>, p: Cell -> bool, c: Cell) {
    exists i :: LastAt(cells, p, i) && cells[i] == c
  }

  lemma FirstSnoc(cells: seq<Cell>, p: Cell -> bool, c: Cell)
    requires cells != []
    ensures var init, last := cells[..|cells| - 1], cells[|cells| - 1];
            First(cells, p, c) <==> First(init, p, c) || (p(last) && c == last && forall o :: o in init ==> !p(o))
  {
    var n := |cells| - 1;
    var init := cells[..n];
    if First(init, p, c) {
      var i :| FirstAt(init, p, i) && init[i] == c;
      assert FirstAt(cells, p, i);
    } else if p(cells[n]) && c == cells[n] && forall o :: o in init ==> !p(o) {
      assert forall j :: 0 <= j < n ==> cells[j] in init;
      assert FirstAt(cells, p, n);
    }
    if First(cells, p, c) {
      var i :| FirstAt(cells, p, i) && cells[i] == c;
      if i < n { assert FirstAt(init, p, i); }
    }
  }

  lemma LastSnoc(cells: seq<Cell>, p: Cell -> bool, c: Cell)
    requires cells != []
    ensures var init, last := cells[..|cells| - 1], cells[|cells| - 1];
            Last(cells, p, c) <==> if p(last) then c == last else Last(init, p, c)
  {
    var n := |cells| - 1;
    var init := cells[..n];
    if p(cells[n]) {
      assert LastAt(cells, p, n);
    } else if Last(init, p, c) {
      var i :| LastAt(init, p, i) && init[i] == c;
      assert LastAt(cells, p, i);
    }
    if Last(cells, p, c) {
      var i :| LastAt(cells, p, i) && cells[i] == c;
      if i < n { assert LastAt(init, p, i); }
    }
  }

  lemma NotShorter(s: string, m: string, t: string, n: string)
    requires s + "/" + m == t + "/" + n
    ensures |s| < |t| ==> '/' in m
  {
    if |s| < |t| {
      assert (t + "/" + n)[|t|] == '/';
      assert m[|t| - |s| - 1] == '/';
    }
  }

  /** Groups are told apart by test, transport and port. */
  lemma GroupIff(o: Cell, c: Cell)
    ensures GroupKey(o) == GroupKey(c) <==> SameFamily(o, c)
  {
    hide Itoa;
    var s, t := o.key.transport, c.key.transport;
    var m, n := Itoa(o.key.port), Itoa(c.key.port);
    ItoaRoundTrip(o.key.port);
    ItoaRoundTrip(c.key.port);
    var a, b := PortText(s, o.key.port), PortText(t, c.key.port);
    if a == b {
      NotShorter(s, m, t, n);
      NotShorter(t, n, s, m);
      assert s == a[..|s|] && t == b[..|t|];
      assert m == a[|s| + 1..] && n == b[|t| + 1..];
    }
  }

  lemma {:induction false} FirstGrouped(cells: seq<Cell>, g: (string, string), p: Cell -> bool, q: Cell -> bool,
      c: Cell)
    requires forall o :: q(o) <==> GroupKey(o) == g && p(o)
    ensures First(Grouped(cells, g), p, c) <==> First(cells, q, c)
    ensures Last(Grouped(cells, g), p, c) <==> Last(cells, q, c)
  {
    hide GroupKey, First, Last;
    if cells == [] {
      NoneOfNone(p, c);
      NoneOfNone(q, c);
    } else {
      var init, last := cells[..|cells| - 1], cells[|cells| - 1];
      FirstGrouped(init, g, p, q, c);
      FirstSnoc(cells, q, c);
      LastSnoc(cells, q, c);
      if GroupKey(last) == g {
        var cs := Grouped(cells, g);
        assert cs[..|cs| - 1] == Grouped(init, g);
        FirstSnoc(cs, p, c);
        LastSnoc(cs, p, c);
      }
    }
  }

  lemma NoneOfNone(p: Cell -> bool, c: Cell)
    ensures !First([], p, c) && !Last([], p, c)
  {
  }

  lemma LastUnique(cells: seq<Cell>, p: Cell -> bool, c: Cell, d: Cell)
    requires Last(cells, p, c) && Last(cells, p, d)
    ensures c == d && c in cells && p(c)
  {
    var i :| LastAt(cells, p, i) && cells[i] == c;
    var j :| LastAt(cells, p, j) && cells[j] == d;
    assert i == j;
  }

  predicate BaselineOf(o: Cell, c: Cell) { SameFamily(o, c) && o.role == Baseline }

  predicate ControlOf(o: Cell, c: Cell) { SameFamily(o, c) && o.role == Control }

  predicate PassingOf(o: Cell, c: Cell) { SameFamily(o, c) && Pass(o) && o.role != Control }

  /** The nominal baseline of the family of c: its last baseline, for vless without one its first control. */
  ghost predicate NominalOf(cells: seq<Cell>, c: Cell, b: Cell) {
    || Last(cells, o => BaselineOf(o, c), b)
    || (&& HasPrefix(c.key.test, "vless.") && (forall o :: o in cells ==> !BaselineOf(o, c))
        && First(cells, o => ControlOf(o, c), b))
  }

  /** What the family of c is compared with: the nominal baseline if it passes, and
      else the first of its cells that passes and is no control. */
  ghost predicate BaseOf(cells: seq<Cell>, c: Cell, b: Cell) {
    || (NominalOf(cells, c, b) && Pass(b))
    || ((forall n :: NominalOf(cells, c, n) ==> !Pass(n)) && First(cells, o => PassingOf(o, c), b))
  }

  /** The same among the cells of one group. */
  lemma NominalAmong(cs: seq<Cell>, vless: bool)
    ensures forall b :: Nominal(cs, vless) == Some(b)
              <==> || Last(cs, (o: Cell) => o.role == Baseline, b)
                   || (&& vless && (forall o :: o in cs ==> o.role != Baseline)
                       && First(cs, (o: Cell) => o.role == Control, b))
  {
    var p, q := (o: Cell) => o.role == Baseline, (o: Cell) => o.role == Control;
    NominalMeans(cs, vless);
    var r := Nominal(cs, vless);
    if r.Some? {
      var c := r.value;
      var i :| 0 <= i < |cs| && cs[i] == c && IsNominal(c, vless)
                && if c.role == Baseline then forall j :: i < j < |cs| ==> cs[j].role != Baseline
                   else
                     && (forall j :: 0 <= j < |cs| ==> cs[j].role != Baseline)
                     && (forall j :: 0 <= j < i ==> cs[j].role != Control);
      if c.role == Baseline { assert LastAt(cs, p, i); } else { assert FirstAt(cs, q, i); }
      forall b | Last(cs, p, b) ensures b == c { if c.role == Baseline { LastUnique(cs, p, b, c); } }
      forall b | First(cs, q, b) && forall o :: o in cs ==> o.role != Baseline ensures b == c {
        assert c in cs;
        FirstUnique(cs, q, b, c);
      }
    }
  }

  lemma FirstPassingAmong(cs: seq<Cell>)
    ensures forall b :: FirstPassing(cs) == Some(b) <==> First(cs, o => Pass(o) && o.role != Control, b)
  {
    hide Pass;
    var p := (o: Cell) => Pass(o) && o.role != Control;
    FirstPassingMeans(cs);
    var r := FirstPassing(cs);
    if r.Some? {
      var i :| 0 <= i < |cs| && cs[i] == r.value && Pass(r.value) && r.value.role != Control
                && forall j :: 0 <= j < i ==> !(Pass(cs[j]) && cs[j].role != Control);
      assert FirstAt(cs, p, i);
      forall b | First(cs, p, b) ensures b == r.value { FirstUnique(cs, p, b, r.value); }
    }
  }

  lemma BaseIs(cells: seq<Cell>, c: Cell)
    ensures forall b :: VariantBaseline(c.key.test, Grouped(cells, GroupKey(c))) == Some(b) <==> BaseOf(cells, c, b)
  {
    hide GroupKey, SameFamily, HasPrefix, First, Last, Pass, Nominal, FirstPassing;
    var g := GroupKey(c);
    var cs := Grouped(cells, g);
    var vless := HasPrefix(c.key.test, "vless.");
    forall o ensures GroupKey(o) == g <==> SameFamily(o, c) { GroupIff(o, c); }
    NominalAmong(cs, vless);
    FirstPassingAmong(cs);
    forall b ensures Nominal(cs, vless) == Some(b) <==> NominalOf(cells, c, b) {
      FirstGrouped(cells, g, (o: Cell) => o.role == Baseline, o => BaselineOf(o, c), b);
      FirstGrouped(cells, g, (o: Cell) => o.role == Control, o => ControlOf(o, c), b);
    }
    forall b ensures FirstPassing(cs) == Some(b) <==> First(cells, o => PassingOf(o, c), b) {
      FirstGrouped(cells, g, o => Pass(o) && o.role != Control, o => PassingOf(o, c), b);
    }
  }

  /** A variant fails where its family has something to compare it with, and no passing
      handshake of its own makes it a cut session. */
  ghost predicate VariantSays(cells: seq<Cell>, c: Cell, v: Verdict) {
    && !HasPrefix(c.key.test, "dest.") && c.role != Baseline && Fail(c)
    && (forall h :: Rests(cells, c, h) ==> !Pass(h))
    && exists b ::
        && BaseOf(cells, c, b) && KeyText(c.key) != KeyText(b.key)
        && v == Verdict(VariantKind(c.key.test, c.key.variant), KeyText(c.key), Strength(c, b),
                        [About(c), Against(b)])
  }

  lemma VariantIs(x: Ctx, c: Cell, v: Verdict)
    ensures VariantOf(x, c) == Some(v) <==> VariantSays(x.cells, c, v)
  {
    hide Pass, Fail, Strength, KeyText, VariantKind, VariantBaseline, HandshakeCell, Rests, BaseOf, HasPrefix, GroupKey,
        Grouped;
    BaseIs(x.cells, c);
    HandshakeIs(x.cells, c);
  }

  lemma VariantIff(x: Ctx, v: Verdict)
    ensures v in Each(Variants, x) <==> exists c :: c in x.cells && VariantSays(x.cells, c, v)
  {
    hide VariantSays, VariantOf, Each;
    EachMember(Variants, x, v);
    forall c ensures Apply(Variants, x, c) == Some(v) <==> VariantSays(x.cells, c, v) { VariantIs(x, c, v); }
  }

  /** What a failing variant is called, by the family it is a variant of. */
  lemma VariantKindIff(test: string, variant: string)
    ensures var kind := VariantKind(test, variant);
            && (kind == "sni_or_host_blocking_suspected"
                <==> test in {"tls.sni", "http.host"} && HasPrefix(variant, "trigger:"))
            && (kind == "sni_or_host_policy_suspected"
                <==> test in {"tls.sni", "http.host"} && !HasPrefix(variant, "trigger:"))
            && (kind == "sni_ip_mismatch_blocking_suspected"
                <==> test in {"vless.reality", "vless.session"} && HasPrefix(variant, "reality:"))
  {
    hide HasPrefix;
  }

  lemma ShapeKindIff(test: string, variant: string)
    ensures var kind := VariantKind(test, variant);
            && (kind == "fingerprint_blocking_suspected" <==> test == "tls.fingerprint")
            && (kind == "dtls_fingerprint_blocking_suspected" <==> test == "dtls.hello")
            && (kind == "tor_handshake_blocking_suspected" <==> test == "tor.handshake")
  {
    hide HasPrefix;
  }

  lemma PolicyKindIff(test: string, variant: string)
    ensures var kind := VariantKind(test, variant);
            && (kind == "alpn_policy_suspected" <==> test == "tls.alpn")
            && (kind == "tls_version_policy_suspected" <==> test == "tls.version")
  {
    hide HasPrefix;
  }

  lemma OtherPolicyKindIff(test: string, variant: string)
    ensures var kind := VariantKind(test, variant);
            && (kind == "dns_qtype_policy_suspected" <==> test == "dns.udp")
            && (kind == "socks5_auth_policy_suspected" <==> test == "socks5.connect")
  {
    hide HasPrefix;
  }

  // ---- rule 4 ----

  /** A family of cells that speaks a protocol of its own fails as a whole where plain
      traffic passes: this cell fails and is no control, no measured cell of its test on
      the port has a success, the echo of the port passes, so does its random payload
      if there is one, and no handshake cell accounts for it either way. */
  ghost predicate Blocked(cells: seq<Cell>, c: Cell) {
    var udp := c.key.transport == "udp";
    && c.key.test in NATIVE && c.role != Control && Fail(c)
    && (forall o :: o in cells && At(o, c.key.test, c.key.transport, c.key.port) && Measured(o) > 0 ==> o.ok == 0)
    && (exists e :: Beneath(cells, if udp then "udp.echo" else "tcp.echo", c, e) && Pass(e))
    && (forall r :: Beneath(cells, if udp then "udp.payload.random" else "tcp.payload.random", c, r) ==> Pass(r))
    && (forall h :: Rests(cells, c, h) ==> !Pass(h) && !Fail(h))
  }

  /** The same with a random payload that fails: nothing can be told of this protocol. */
  ghost predicate Doubtful(cells: seq<Cell>, c: Cell) {
    var udp := c.key.transport == "udp";
    && c.key.test in NATIVE && c.role != Control && Fail(c)
    && (exists e :: Beneath(cells, if udp then "udp.echo" else "tcp.echo", c, e) && Pass(e))
    && (exists r :: Beneath(cells, if udp then "udp.payload.random" else "tcp.payload.random", c, r) && Fail(r))
    && (forall h :: Rests(cells, c, h) ==> !Pass(h) && !Fail(h))
  }

  /** A flow of the scan that left from another port than the server saw: a NAT. */
  ghost predicate Translated(attempts: seq<Attempt>) {
    exists a :: a in attempts && a.server.Some? && a.srcPort != 0 && a.server.value.srcPort !in {0, a.srcPort}
  }

  /** How sure a blocked protocol is: as the cell against its echo, but never high for
      IPsec or L2TP behind a NAT. */
  ghost predicate ProtocolSure(x: Ctx, c: Cell, conf: Confidence) {
    var udp := c.key.transport == "udp";
    exists e ::
      && Beneath(x.cells, if udp then "udp.echo" else "tcp.echo", c, e)
      && if Translated(x.attempts) && (HasPrefix(c.key.test, "ikev2.") || HasPrefix(c.key.test, "l2tp."))
         then conf != High && (conf == Low <==> Strength(c, e) == Low)
         else conf == Strength(c, e)
  }

  lemma TranslatedIs(attempts: seq<Attempt>)
    ensures Translated(attempts) <==> NatDetected(attempts)
  {
    if Translated(attempts) {
      var a :| a in attempts && a.server.Some? && a.srcPort != 0 && a.server.value.srcPort !in {0, a.srcPort};
      var i :| 0 <= i < |attempts| && attempts[i] == a;
    }
  }

  lemma FamilyFailsIs(cells: seq<Cell>, c: Cell)
    ensures FamilyFails(cells, c)
       <==> forall o :: o in cells && At(o, c.key.test, c.key.transport, c.key.port) && Measured(o) > 0 ==> o.ok == 0
  {
    if FamilyFails(cells, c) {
      forall o | o in cells && At(o, c.key.test, c.key.transport, c.key.port) && Measured(o) > 0 ensures o.ok == 0 {
        var i :| 0 <= i < |cells| && cells[i] == o;
      }
    }
  }

  predicate Speaking(r: Option<Verdict>, kind: string) { r.Some? && r.value.kind == kind }

  lemma ProtocolIs(x: Ctx, c: Cell)
    ensures Speaking(ProtocolOf(x, c), BLOCKED) <==> Blocked(x.cells, c)
    ensures Speaking(ProtocolOf(x, c), "control_failed_inconclusive") <==> Doubtful(x.cells, c)
    ensures ProtocolOf(x, c).None? <==> !Blocked(x.cells, c) && !Doubtful(x.cells, c)
  {
    hide Pass, Fail, Measured, ProtocolStrength, KeyText, Family, HandshakeCell, Rests, FamilyFails, Beneath, PlainTest,
        NATIVE, Find, Controls;
    HandshakeIs(x.cells, c);
    PlainNamed(c.key.transport);
    BeneathIs(x.cells, PlainTest(c.key.transport, "echo"), c);
    BeneathIs(x.cells, PlainTest(c.key.transport, "payload.random"), c);
    FamilyFailsIs(x.cells, c);
    var random := Find(x.cells, PlainTest(c.key.transport, "payload.random"), c.key.transport, c.key.port, "");
    if random.Some? { PassOrFail(random.value); }
    KindsDiffer();
  }

  lemma KindsDiffer()
    ensures BLOCKED != "control_failed_inconclusive"
  {
  }

  /** Each verdict of the walk is what some cell of it calls for, and a call is left
      out only when the family was reported before. */
  lemma {:induction false} ProtocolsFrom(x: Ctx, n: nat)
    requires n <= |x.cells|
    ensures var (vs, reported) := Protocols(x, n);
            && (forall v :: v in vs ==> exists k :: 0 <= k < n && ProtocolOf(x, x.cells[k]) == Some(v))
            && (forall k :: 0 <= k < n && ProtocolOf(x, x.cells[k]).Some? && Family(x.cells[k]) !in reported ==>
                ProtocolOf(x, x.cells[k]).value in vs)
  {
    hide ProtocolOf, Family;
    if n > 0 { ProtocolsFrom(x, n - 1); }
  }

  /** v calls a family blocked, by a cell of it. */
  ghost predicate BlocksFamily(x: Ctx, v: Verdict, c: Cell) {
    && Blocked(x.cells, c) && v.subject == FamilyText(c.key.test, c.key.transport, c.key.port)
    && ProtocolSure(x, c, v.conf) && About(c) in v.evidence
  }

  /** v leaves the protocol of a cell open. */
  ghost predicate LeavesOpen(x: Ctx, v: Verdict, c: Cell) {
    Doubtful(x.cells, c) && v.subject == KeyText(c.key) && v.conf == Low && About(c) in v.evidence
  }

  ghost predicate TellsOf(x: Ctx, v: Verdict, c: Cell) {
    if v.kind == BLOCKED then BlocksFamily(x, v, c)
    else v.kind == "control_failed_inconclusive" && LeavesOpen(x, v, c)
  }

  lemma ProtocolSays(x: Ctx, c: Cell, v: Verdict)
    requires ProtocolOf(x, c) == Some(v)
    ensures TellsOf(x, v, c)
  {
    hide Blocked, Doubtful, ProtocolSure;
    ProtocolIs(x, c);
    ProtocolParts(x, c, v);
  }

  lemma ProtocolParts(x: Ctx, c: Cell, v: Verdict)
    requires ProtocolOf(x, c) == Some(v)
    ensures v.kind in {BLOCKED, "control_failed_inconclusive"} && About(c) in v.evidence
    ensures v.kind == BLOCKED ==> v.subject == Family(c) && ProtocolSure(x, c, v.conf)
    ensures v.kind != BLOCKED ==> v.subject == KeyText(c.key) && v.conf == Low
  {
    hide Pass, Fail, Strength, KeyText, Family, HandshakeCell, FamilyFails, Beneath, PlainTest, NATIVE, HasPrefix,
        NatDetected, Translated, Find;
    PlainNamed(c.key.transport);
    BeneathIs(x.cells, PlainTest(c.key.transport, "echo"), c);
    TranslatedIs(x.attempts);
    KindsDiffer();
    assert v.evidence[0] == About(c);
  }

  /** The verdicts of rule 4, told from the cells: a family on a port is called blocked
      exactly when some cell of it is, and once; and a cell whose protocol cannot be told
      is said to be so, unless its family is called blocked. */
  ghost predicate ProtocolsTold(x: Ctx, vs: seq<Verdict>) {
    && (forall s :: Reports(vs, s) <==> exists c :: c in x.cells && Blocked(x.cells, c) && Family(c) == s)
    && (forall i, j ::
        0 <= i < j < |vs| && vs[i].kind == BLOCKED && vs[j].kind == BLOCKED ==> vs[i].subject != vs[j].subject)
    && (forall v :: v in vs ==> exists c :: c in x.cells && TellsOf(x, v, c))
    && (forall c :: c in x.cells && Doubtful(x.cells, c) && !Reports(vs, Family(c)) ==>
        exists v :: v in vs && v.kind == "control_failed_inconclusive" && LeavesOpen(x, v, c))
  }

  lemma ProtocolsAre(x: Ctx)
    ensures ProtocolsTold(x, Protocols(x, |x.cells|).0)
  {
    hide Protocols, ProtocolOf, Family, Blocked, Doubtful, BlocksFamily, LeavesOpen;
    var n := |x.cells|;
    var (vs, reported) := Protocols(x, n);
    FamiliesOnce(x, n);
    ProtocolsFrom(x, n);
    forall s ensures Called(x, n, s) <==> exists c :: c in x.cells && Blocked(x.cells, c) && Family(c) == s {
      CalledIs(x, s);
    }
    forall v | v in vs
      ensures exists c :: c in x.cells && TellsOf(x, v, c)
    {
      var k :| 0 <= k < n && ProtocolOf(x, x.cells[k]) == Some(v);
      ProtocolSays(x, x.cells[k], v);
      assert x.cells[k] in x.cells;
    }
    forall c | c in x.cells && Doubtful(x.cells, c) && !Reports(vs, Family(c))
      ensures exists v :: v in vs && v.kind == "control_failed_inconclusive" && LeavesOpen(x, v, c)
    {
      var k :| 0 <= k < n && x.cells[k] == c;
      ProtocolIs(x, c);
      KindsDiffer();
      ProtocolSays(x, c, ProtocolOf(x, c).value);
    }
  }

  lemma CalledIs(x: Ctx, s: string)
    ensures Called(x, |x.cells|, s) <==> exists c :: c in x.cells && Blocked(x.cells, c) && Family(c) == s
  {
    hide ProtocolOf, Family, Blocked, Doubtful;
    forall c ensures Calls(x, c) <==> Blocked(x.cells, c) { ProtocolIs(x, c); }
    if c :| c in x.cells && Blocked(x.cells, c) && Family(c) == s {
      var k :| 0 <= k < |x.cells| && x.cells[k] == c;
    }
  }

  /** A native protocol of which one variant passes is no blocked protocol. */
  lemma OneVariantPasses(x: Ctx, s: string, o: Cell)
    requires o in x.cells && o.ok > 0 && Measured(o) > 0
    requires forall c :: c in x.cells && Family(c) == s ==> SameFamily(o, c)
    ensures !Reports(Protocols(x, |x.cells|).0, s)
  {
    hide Protocols, Family;
    ProtocolsAre(x);
  }

  // ---- rule 6, the ports ----

  lemma {:induction false} LastOfIs(cells: seq<Cell>, test: string, variant: string, p: Cell -> bool)
    requires forall o :: p(o) <==> o.key.test == test && (variant == "" || o.key.variant == variant)
    ensures forall c :: LastOf(cells, test, variant) == Some(c) <==> Last(cells, p, c)
    ensures LastOf(cells, test, variant).None? <==> forall c :: c in cells ==> !p(c)
  {
    hide Last;
    if cells == [] {
      forall c ensures !Last([], p, c) { NoneOfNone(p, c); }
    } else {
      var init, last := cells[..|cells| - 1], cells[|cells| - 1];
      LastOfIs(init, test, variant, p);
      assert cells == init + [last];
      forall c ensures Last(cells, p, c) <==> if p(last) then c == last else Last(init, p, c) { LastSnoc(cells, p, c); }
    }
  }

  predicate IsTxt(o: Cell) { o.key.test == "dns.udp" && o.key.variant == "TXT" }

  predicate IsDnsTcp(o: Cell) { o.key.test == "dns.tcp" }

  /** DNS over UDP fails where DNS over TCP passes: the last TXT query against the last TCP one. */
  ghost predicate DnsUdpSays(cells: seq<Cell>, v: Verdict) {
    exists u, t ::
      && Last(cells, o => IsTxt(o), u) && Fail(u) && Last(cells, o => IsDnsTcp(o), t) && Pass(t)
      && v == Verdict("dns_udp_blocking_suspected", KeyText(u.key), Strength(u, t), [About(u), Against(t)])
  }

  /** Only DNS over UDP is in question: there is a TXT query over UDP, and the last one over TCP passes. */
  ghost predicate UdpInQuestion(cells: seq<Cell>) {
    (exists u :: u in cells && IsTxt(u)) && exists t :: Last(cells, o => IsDnsTcp(o), t) && Pass(t)
  }

  /** The echo test of a transport. */
  predicate EchoOver(o: Cell, transport: string) {
    o.key.test == if transport == "udp" then "udp.echo" else "tcp.echo"
  }

  /** A failing DNS cell over the network, without an echo on its port, and an echo elsewhere that passes. */
  ghost predicate DnsPortSays(cells: seq<Cell>, c: Cell, v: Verdict) {
    && HasPrefix(c.key.test, "dns.") && c.key.test !in {"dns.system", "dns.doh"} && Fail(c)
    && (forall o :: o in cells && Echoes(o) ==> o.key.transport != c.key.transport || o.key.port != c.key.port)
    && !(UdpInQuestion(cells) && c.key.test == "dns.udp")
    && exists e ::
        && First(cells, o => EchoOver(o, c.key.transport) && Pass(o), e)
        && v == Verdict("dns_port_blocking_suspected", KeyText(c.key), Strength(c, e), [About(c), Against(e)])
  }

  lemma UdpQuestionIs(x: Ctx)
    ensures UdpOnly(x) <==> UdpInQuestion(x.cells)
  {
    hide Pass, Last, LastOf;
    LastOfIs(x.cells, "dns.udp", "TXT", o => IsTxt(o));
    LastOfIs(x.cells, "dns.tcp", "", o => IsDnsTcp(o));
  }

  lemma DnsUdpIff(x: Ctx, v: Verdict)
    ensures DnsUdp(x) == Some(v) <==> DnsUdpSays(x.cells, v)
  {
    hide Pass, Fail, Strength, KeyText, Last, LastOf;
    LastOfIs(x.cells, "dns.udp", "TXT", o => IsTxt(o));
    LastOfIs(x.cells, "dns.tcp", "", o => IsDnsTcp(o));
  }

  lemma NoEchoIs(cells: seq<Cell>, c: Cell)
    ensures Find(cells, "tcp.echo", c.key.transport, c.key.port, "").None?
            && Find(cells, "udp.echo", c.key.transport, c.key.port, "").None?
       <==> forall o :: o in cells && Echoes(o) ==> o.key.transport != c.key.transport || o.key.port != c.key.port
  {
    BeneathIs(cells, "tcp.echo", c);
    BeneathIs(cells, "udp.echo", c);
  }

  lemma DnsPortIs(x: Ctx, c: Cell, v: Verdict)
    ensures DnsPort(x, UdpOnly(x), c) == Some(v) <==> DnsPortSays(x.cells, c, v)
  {
    hide Pass, Fail, Strength, KeyText, First, HasPrefix, UdpOnly, UdpInQuestion, Echoes, Find, PlainTest;
    UdpQuestionIs(x);
    NoEchoIs(x.cells, c);
    PlainNamed(c.key.transport);
    var echo := PlainTest(c.key.transport, "echo");
    var p := o => EchoOver(o, c.key.transport) && Pass(o);
    FirstOfIs(x.cells, PassingTest(echo), p);
  }

  /** Rule 6 on ports: the verdicts are those of such cells. */
  lemma DnsPortIff(x: Ctx, v: Verdict)
    ensures v in Each(DnsPorts, x) <==> exists c :: c in x.cells && DnsPortSays(x.cells, c, v)
  {
    hide DnsPortSays, DnsPort, Each, UdpOnly;
    EachMember(DnsPorts, x, v);
    forall c ensures Apply(DnsPorts, x, c) == Some(v) <==> DnsPortSays(x.cells, c, v) { DnsPortIs(x, c, v); }
  }
}
