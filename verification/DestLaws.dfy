/** When a real destination is reported, and as what (internal/classify/dest.go): every
    verdict of the family, told from the cells and attempts of the scan alone. */
module DestLaws {
  import opened Base
  import opened Text
  import opened Evidence
  import opened Sorting
  import opened Cells
  import opened Rules
  import opened RuleLaws
  import opened Dest
  import DestControls
  import Remerge

  // ---- cells and sites ----

  predicate Is(o: Cell, test: string, variant: string) { o.key.test == test && o.key.variant == variant }

  /** c is the cell of a test and variant: the first one. */
  ghost predicate The(cells: seq<Cell>, test: string, variant: string, c: Cell) {
    First(cells, o => Is(o, test, variant), c)
  }

  /** The cell is there and passes. */
  ghost predicate Good(cells: seq<Cell>, test: string, variant: string) {
    exists c :: The(cells, test, variant, c) && Pass(c)
  }

  /** A clean anycast address connects. */
  ghost predicate TransportWorks(cells: seq<Cell>) { Good(cells, "dest.tcp", "anycast") }

  lemma {:induction false} TheIs(cells: seq<Cell>, test: string, variant: string)
    ensures forall c :: Lookup(cells, test, variant) == Some(c) <==> The(cells, test, variant, c)
    ensures Lookup(cells, test, variant).None? <==> forall c :: c in cells ==> !Is(c, test, variant)
  {
    hide First;
    var p := o => Is(o, test, variant);
    if cells == [] {
      forall c ensures !First([], p, c) { NoneOfNone(p, c); }
    } else {
      var init, last := cells[..|cells| - 1], cells[|cells| - 1];
      TheIs(init, test, variant);
      assert cells == init + [last];
      forall c
        ensures First(cells, p, c) <==> First(init, p, c) || (p(last) && c == last && forall o :: o in init ==> !p(o))
      {
        FirstSnoc(cells, p, c);
      }
      if Lookup(init, test, variant).Some? {
        var c := Lookup(init, test, variant).value;
        FirstUnique(init, p, c, c);
      }
    }
  }

  lemma GoodIs(cells: seq<Cell>, test: string, variant: string)
    ensures Passes(Lookup(cells, test, variant)) <==> Good(cells, test, variant)
  {
    hide Lookup, The, Pass;
    TheIs(cells, test, variant);
  }

  /** A site the scan probed: by its name, or by a handshake with another name or none. */
  ghost predicate Probed(cells: seq<Cell>, d: string) {
    exists c ::
      && c in cells && HasPrefix(c.key.test, "dest.") && c.key.test != "dest.nxdomain"
      && c.key.variant != "anycast" && Names(c.key.variant, d)
  }

  predicate Names(variant: string, d: string) {
    if HasPrefix(variant, "decoy:") then variant == "decoy:" + d
    else if HasPrefix(variant, "absent:") then variant == "absent:" + d
    else variant == d
  }

  lemma NamesIs(variant: string, d: string)
    ensures Names(variant, d) <==> Domain(variant) == d
  {
    if HasPrefix(variant, "decoy:") {
      PrefixSplits(variant, "decoy:", d);
    } else if HasPrefix(variant, "absent:") {
      PrefixSplits(variant, "absent:", d);
    }
  }

  lemma PrefixSplits(s: string, p: string, d: string)
    requires HasPrefix(s, p)
    ensures s == p + d <==> s[|p|..] == d
  {
    assert s == p + s[|p|..];
  }

  lemma {:induction false} ProbedIs(cells: seq<Cell>, d: string)
    ensures d in Domains(cells) <==> Probed(cells, d)
  {
    hide HasPrefix, Names, Domain;
    if cells != [] {
      var init, last := cells[..|cells| - 1], cells[|cells| - 1];
      ProbedIs(init, d);
      NamesIs(last.key.variant, d);
      assert cells == init + [last];
      assert Probed(cells, d) <==> Probed(init, d) || (OfSite(last) && Names(last.key.variant, d)) by {
        if OfSite(last) && Names(last.key.variant, d) { assert last in cells; }
      }
    }
  }

  /** What the scan has for a test and variant. */
  ghost predicate Has(cells: seq<Cell>, test: string, variant: string, r: Option<Cell>) {
    match r
    case Some(c) => The(cells, test, variant, c)
    case None => forall c :: c in cells ==> !Is(c, test, variant)
  }

  lemma HasIs(cells: seq<Cell>, test: string, variant: string)
    ensures forall r :: Has(cells, test, variant, r) <==> r == Lookup(cells, test, variant)
  {
    hide Lookup, The;
    TheIs(cells, test, variant);
  }

  /** It failed, and not for want of a measurement. */
  predicate Own(c: Cell) { Fail(c) && Dominant(c) !in {SKIPPED, INCONCLUSIVE, SERVER_ERROR} }

  /** What failed was the connection, before anything was sent. */
  predicate AtConnect(c: Cell) { Dominant(c) in {CONNECT_TIMEOUT, CONNECT_RESET, CONNECT_REFUSED} }

  /** One vantage point: never more than medium. */
  function Modestly(c: Cell, control: Cell): Confidence {
    if Strength(c, control) == Low then Low else Medium
  }

  lemma CellFacts(c: Cell, control: Cell)
    ensures Own(c) <==> Failed(c)
    ensures AtConnect(c) <==> ConnectStage(c)
    ensures Modestly(c, control) == Capped(c, Some(control))
  {
    hide Dominant, Fail;
  }

  // ---- the resolver as a whole ----

  function Lookups(cells: seq<Cell>): set<nat> {
    set i: nat | i < |cells| && cells[i].key.test == "dest.dns" && cells[i].key.variant != "anycast"
  }

  /** The sites whose lookup failed with an outcome. */
  function LookupsLost(cells: seq<Cell>, outcome: string): set<nat> {
    set i: nat | i in Lookups(cells) && Fail(cells[i]) && Dominant(cells[i]) == outcome
  }

  /** The resolver did not answer for half of the sites or more. */
  predicate NoAnswers(cells: seq<Cell>) {
    Lookups(cells) != {} && 2 * |LookupsLost(cells, DNS_TIMEOUT)| >= |Lookups(cells)|
  }

  predicate CleanLookup(o: Cell) { o.key.test == "dest.dns" && Pass(o) }

  /** The resolver agrees with the trusted ones on no site, and disagrees on half or more, two at least. */
  ghost predicate NoAgreement(cells: seq<Cell>) {
    && (forall c :: c in cells ==> !CleanLookup(c))
    && |LookupsLost(cells, DNS_MISMATCH)| >= 2 && 2 * |LookupsLost(cells, DNS_MISMATCH)| >= |Lookups(cells)|
  }

  /** The lookup the others are held against: the first clean one of a control site, or else of any. */
  ghost predicate LookupControl(cells: seq<Cell>, k: Cell) {
    || First(cells, o => CleanLookup(o) && o.role == Baseline, k)
    || (First(cells, o => CleanLookup(o), k) && forall o :: o in cells ==> !(CleanLookup(o) && o.role == Baseline))
  }

  lemma {:induction false} TalliedIs(cells: seq<Cell>, outcome: string)
    requires outcome in {"", DNS_TIMEOUT, DNS_MISMATCH}
    ensures Tallied(cells, outcome) == if outcome == "" then |Lookups(cells)| else |LookupsLost(cells, outcome)|
  {
    hide Dominant, Fail, Lookups, LookupsLost;
    if cells == [] {
      NoLookups(outcome);
    } else {
      TalliedIs(cells[..|cells| - 1], outcome);
      OneLookupMore(cells, outcome);
      LostNames();
    }
  }

  lemma LostNames()
    ensures DNS_TIMEOUT != "" && DNS_MISMATCH != ""
    ensures !Nothing(DNS_TIMEOUT) && !Nothing(DNS_MISMATCH)
  {
  }

  lemma NoLookups(outcome: string)
    ensures Lookups([]) == {} && LookupsLost([], outcome) == {}
  {
  }

  lemma OneLookupMore(cells: seq<Cell>, outcome: string)
    requires cells != []
    ensures var n := |cells| - 1; var c := cells[n];
            && |Lookups(cells)| == |Lookups(cells[..n])| + (if DnsCell(c) then 1 else 0)
            && |LookupsLost(cells, outcome)| == |LookupsLost(cells[..n], outcome)|
                                                + if DnsCell(c) && Fail(c) && Dominant(c) == outcome then 1 else 0
  {
    hide Dominant, Fail;
    LookupsGrow(cells, outcome);
    var n := |cells| - 1;
    assert n !in Lookups(cells[..n]) && n !in LookupsLost(cells[..n], outcome);
  }

  lemma LookupsGrow(cells: seq<Cell>, outcome: string)
    requires cells != []
    ensures var n := |cells| - 1; var c := cells[n];
            && Lookups(cells) == Lookups(cells[..n]) + (if DnsCell(c) then {n} else {})
            && LookupsLost(cells, outcome) == LookupsLost(cells[..n], outcome)
                                              + if DnsCell(c) && Fail(c) && Dominant(c) == outcome then {n} else {}
  {
    hide Dominant, Fail;
    var init := cells[..|cells| - 1];
    assert forall i: nat :: i < |init| ==> init[i] == cells[i];
  }

  lemma {:induction false} LookupControlIs(cells: seq<Cell>)
    ensures forall k :: DnsControl(cells) == Some(k) <==> LookupControl(cells, k)
    ensures DnsControl(cells).None? <==> forall c :: c in cells ==> !CleanLookup(c)
    ensures DnsControl(cells).Some? && DnsControl(cells).value.role != Baseline ==>
              forall o :: o in cells ==> !(CleanLookup(o) && o.role == Baseline)
  {
    hide Pass, First;
    var p, q := o => CleanLookup(o) && o.role == Baseline, o => CleanLookup(o);
    if cells == [] {
      forall k ensures !First([], p, k) && !First([], q, k) {
        NoneOfNone(p, k);
        NoneOfNone(q, k);
      }
    } else {
      var init, last := cells[..|cells| - 1], cells[|cells| - 1];
      LookupControlIs(init);
      assert cells == init + [last];
      forall k
        ensures First(cells, p, k) <==> First(init, p, k) || (p(last) && k == last && forall o :: o in init ==> !p(o))
        ensures First(cells, q, k) <==> First(init, q, k) || (q(last) && k == last && forall o :: o in init ==> !q(o))
        ensures First(init, p, k) ==> k in init && p(k)
        ensures First(init, q, k) ==> k in init && q(k)
      {
        FirstSnoc(cells, p, k);
        FirstSnoc(cells, q, k);
        if First(init, p, k) { FirstUnique(init, p, k, k); }
        if First(init, q, k) { FirstUnique(init, q, k, k); }
      }
    }
  }

  lemma YardIs(x: Ctx)
    ensures SystemDown(Yard(x)) <==> NoAnswers(x.cells)
    ensures SystemUnreliable(Yard(x)) <==> NoAgreement(x.cells)
    ensures Yard(x).timeouts == |LookupsLost(x.cells, DNS_TIMEOUT)|
    ensures Yard(x).anycast == Lookup(x.cells, "dest.tcp", "anycast") && Yard(x).dnsControl == DnsControl(x.cells)
  {
    hide Lookups, LookupsLost, Tallied, Pass, DnsControl, Lookup;
    TalliedIs(x.cells, "");
    TalliedIs(x.cells, DNS_TIMEOUT);
    TalliedIs(x.cells, DNS_MISMATCH);
    LookupControlIs(x.cells);
  }

  // ---- the family ----

  /** A name that does not exist was answered. */
  ghost predicate HijackTold(x: Ctx, v: Verdict) {
    exists c ::
      && The(x.cells, "dest.nxdomain", "invalid", c) && Fail(c) && Dominant(c) == DNS_MISMATCH
      && v == Verdict("nxdomain_hijack_suspected", KeyText(c.key), if Measured(c) >= 2 then Medium else Low, [About(c)])
  }

  /** The clean address was measured and does not pass. */
  ghost predicate TransportTold(x: Ctx, v: Verdict) {
    exists c ::
      && The(x.cells, "dest.tcp", "anycast", c) && Measured(c) > 0 && !Pass(c)
      && v == Verdict("control_failed_inconclusive", KeyText(c.key), Low, [About(c)])
  }

  ghost predicate DownTold(x: Ctx, v: Verdict) {
    && NoAnswers(x.cells) && v.kind == "system_resolver_unreachable_suspected" && v.subject == "dest.dns udp/53"
    && (v.conf == Medium <==> TransportWorks(x.cells) && |LookupsLost(x.cells, DNS_TIMEOUT)| >= 2)
    && v.conf != High
    && exists r :: Has(x.cells, "dest.tcp", "anycast", r) && v.evidence == if Passes(r) then [Against(r.value)] else []
  }

  ghost predicate UnreliableTold(x: Ctx, v: Verdict) {
    NoAgreement(x.cells) && v == Verdict("system_resolver_unreliable_suspected", "dest.dns udp/53", Low, [])
  }

  lemma HijackIff(x: Ctx, v: Verdict)
    ensures NxDomain(x) == Some(v) <==> HijackTold(x, v)
  {
    hide Dominant, KeyText, Fail, Measured, The, Lookup, Nothing;
    TheIs(x.cells, "dest.nxdomain", "invalid");
    LostNames();
    var nx := Lookup(x.cells, "dest.nxdomain", "invalid");
    if nx.Some? { assert The(x.cells, "dest.nxdomain", "invalid", nx.value); }
  }

  lemma TransportIff(x: Ctx, v: Verdict)
    ensures NoAnycast(Yard(x)) == Some(v) <==> TransportTold(x, v)
  {
    hide KeyText, Pass, Measured, The, Lookup, Tallied, DnsControl;
    TheIs(x.cells, "dest.tcp", "anycast");
    var a := Lookup(x.cells, "dest.tcp", "anycast");
    if a.Some? { assert The(x.cells, "dest.tcp", "anycast", a.value); }
  }

  lemma ResolverIff(x: Ctx, v: Verdict)
    ensures DestControls.DownVerdict(Yard(x)) == Some(v) <==> DownTold(x, v)
    ensures DestControls.UnreliableVerdict(Yard(x)) == Some(v) <==> UnreliableTold(x, v)
  {
    hide Pass, Lookup, Tallied, DnsControl, LookupsLost, SystemDown, SystemUnreliable, NoAnswers, NoAgreement, Good,
        Has;
    HasIs(x.cells, "dest.tcp", "anycast");
    GoodIs(x.cells, "dest.tcp", "anycast");
    YardIs(x);
  }

  // ---- one site ----

  /** A failed lookup that disagrees is poisoning, against a clean lookup elsewhere, or
      on its own while the resolver can be trusted. */
  ghost predicate PoisonTold(x: Ctx, c: Cell, v: Verdict) {
    || (exists k :: LookupControl(x.cells, k) && v.conf == Modestly(c, k) && v.evidence == [About(c), Against(k)])
    || (&& (forall k :: k in x.cells ==> !CleanLookup(k)) && !NoAgreement(x.cells)
        && v.conf == Low && v.evidence == [About(c)])
  }

  /** One that times out alone is, while the transport works. */
  ghost predicate BlackholeTold(x: Ctx, c: Cell, v: Verdict) {
    && !NoAnswers(x.cells) && v.conf == Low
    && exists a :: The(x.cells, "dest.tcp", "anycast", a) && Pass(a) && v.evidence == [About(c), Against(a)]
  }

  ghost predicate DnsTold(x: Ctx, d: string, v: Verdict) {
    exists c ::
      && The(x.cells, "dest.dns", d, c) && Fail(c)
      && v.kind == "dest_dns_poisoning_suspected" && v.subject == KeyText(c.key)
      && (|| (Dominant(c) == DNS_MISMATCH && PoisonTold(x, c, v))
          || (Dominant(c) == DNS_TIMEOUT && BlackholeTold(x, c, v)))
  }

  lemma PoisonIs(x: Ctx, d: string, c: Cell)
    requires Lookup(x.cells, "dest.dns", d) == Some(c) && Fail(c) && Dominant(c) == DNS_MISMATCH
    ensures var kind, k := "dest_dns_poisoning_suspected", DnsControl(x.cells);
            SiteDns(x, Yard(x), d)
              == if k.Some? then Some(Verdict(kind, KeyText(c.key), Modestly(c, k.value), [About(c), Against(k.value)]))
                 else if NoAgreement(x.cells) then None
                 else Some(Verdict(kind, KeyText(c.key), Low, [About(c)]))
  {
    hide Dominant, KeyText, Fail, Lookup, Yard, DnsControl, SystemDown, SystemUnreliable, NoAgreement, Capped, Modestly,
        Nothing;
    YardIs(x);
    LostNames();
    if DnsControl(x.cells).Some? { CellFacts(c, DnsControl(x.cells).value); }
  }

  lemma PoisonToldIs(x: Ctx, c: Cell, v: Verdict)
    ensures PoisonTold(x, c, v)
       <==> match DnsControl(x.cells)
            case Some(k) => v.conf == Modestly(c, k) && v.evidence == [About(c), Against(k)]
            case None => !NoAgreement(x.cells) && v.conf == Low && v.evidence == [About(c)]
  {
    hide DnsControl, NoAgreement, LookupControl, Modestly, CleanLookup;
    LookupControlIs(x.cells);
    var k := DnsControl(x.cells);
    if k.Some? {
      SomeClean(x.cells, k.value);
    } else {
      assert forall l :: !LookupControl(x.cells, l);
    }
  }

  lemma PoisonIff(x: Ctx, d: string, c: Cell, v: Verdict)
    requires Lookup(x.cells, "dest.dns", d) == Some(c) && Fail(c) && Dominant(c) == DNS_MISMATCH
    ensures SiteDns(x, Yard(x), d) == Some(v)
       <==> v.kind == "dest_dns_poisoning_suspected" && v.subject == KeyText(c.key) && PoisonTold(x, c, v)
  {
    hide SiteDns, Yard, KeyText, PoisonTold, Modestly, NoAgreement, DnsControl, Lookup, Dominant, Fail;
    PoisonIs(x, d, c);
    PoisonToldIs(x, c, v);
  }

  lemma SomeClean(cells: seq<Cell>, k: Cell)
    requires LookupControl(cells, k)
    ensures k in cells && CleanLookup(k)
  {
    hide CleanLookup;
  }

  lemma BlackholeIff(x: Ctx, d: string, c: Cell, v: Verdict)
    requires Lookup(x.cells, "dest.dns", d) == Some(c) && Fail(c) && Dominant(c) == DNS_TIMEOUT
    ensures SiteDns(x, Yard(x), d) == Some(v)
       <==> v.kind == "dest_dns_poisoning_suspected" && v.subject == KeyText(c.key) && BlackholeTold(x, c, v)
  {
    hide Dominant, KeyText, Pass, Fail, The, Lookup, Yard, SystemDown, SystemUnreliable, NoAnswers, Nothing;
    TheIs(x.cells, "dest.tcp", "anycast");
    YardIs(x);
    LostNames();
    LostDiffer();
  }

  lemma DnsIff(x: Ctx, d: string, v: Verdict)
    ensures SiteDns(x, Yard(x), d) == Some(v) <==> DnsTold(x, d, v)
  {
    hide Dominant, KeyText, Fail, The, Lookup, Yard, PoisonTold, BlackholeTold, SystemDown, SystemUnreliable, Nothing;
    TheIs(x.cells, "dest.dns", d);
    LostDiffer();
    var dns := Lookup(x.cells, "dest.dns", d);
    if dns.Some? && Fail(dns.value) {
      if Dominant(dns.value) == DNS_MISMATCH {
        PoisonIff(x, d, dns.value, v);
      } else if Dominant(dns.value) == DNS_TIMEOUT {
        BlackholeIff(x, d, dns.value, v);
      }
    }
  }

  lemma LostDiffer()
    ensures DNS_TIMEOUT != DNS_MISMATCH
  {
  }

  /** A site whose address does not connect while a clean one does, by how it failed. */
  ghost predicate TcpTold(x: Ctx, d: string, v: Verdict) {
    exists c, a ::
      && The(x.cells, "dest.tcp", d, c) && Own(c) && The(x.cells, "dest.tcp", "anycast", a) && Pass(a)
      && v == Verdict(if Dominant(c) == CONNECT_TIMEOUT then "dest_tcp_blackhole_suspected"
                      else if Dominant(c) in {CONNECT_RESET, CONNECT_REFUSED} then "dest_tcp_reset_suspected"
                      else "dest_tcp_blocking_suspected", KeyText(c.key), Modestly(c, a), [About(c), Against(a)])
  }

  lemma TcpIff(x: Ctx, d: string, v: Verdict)
    ensures SiteTcp(x, Yard(x), d) == Some(v) <==> TcpTold(x, d, v)
  {
    hide Dominant, KeyText, Pass, Fail, The, Lookup, Tallied, DnsControl, Capped, Modestly, Own, Failed;
    TheIs(x.cells, "dest.tcp", d);
    TheIs(x.cells, "dest.tcp", "anycast");
    var tcp, a := Lookup(x.cells, "dest.tcp", d), Lookup(x.cells, "dest.tcp", "anycast");
    if tcp.Some? && a.Some? { CellFacts(tcp.value, a.value); }
  }

  /** TCP to the address is known to work: it passes, or it was not measured and what
      failed got past its own connect. */
  predicate Reaches(tcp: Option<Cell>, c: Cell) {
    if tcp.None? || Measured(tcp.value) == 0 then !AtConnect(c) else Pass(tcp.value)
  }

  lemma ReachesIs(tcp: Option<Cell>, c: Cell)
    ensures Reaches(tcp, c) <==> Reached(tcp, c)
  {
    hide Dominant;
    CellFacts(c, c);
  }

  /** What a control adds to the evidence when it is there, and when it passes. */
  function Aside(r: Option<Cell>): seq<Line> { if r.Some? then [Beside(r.value)] else [] }

  function Held(r: Option<Cell>): seq<Line> { if r.Some? && Pass(r.value) then [Against(r.value)] else [] }

  /** The first address did not take the connection; the name was never sent. */
  ghost predicate AddressTold(x: Ctx, c: Cell, tcp: Option<Cell>, v: Verdict) {
    exists a ::
      && The(x.cells, "dest.tcp", "anycast", a) && Pass(a)
      && v == Verdict("dest_tcp_blackhole_suspected", KeyText(c.key), Low, [About(c), Against(a)] + Aside(tcp))
  }

  /** Nothing answered, reset or refused the handshakes of the cell: they ran out of time. */
  predicate RanOutOnly(c: Cell) {
    && PAYLOAD_TIMEOUT in c.outcomes && c.outcomes[PAYLOAD_TIMEOUT] > 0
    && forall o :: o in c.outcomes && o !in {OK, PAYLOAD_TIMEOUT, SERVER_ERROR, INCONCLUSIVE, SKIPPED} ==>
         c.outcomes[o] == 0
  }

  lemma RanOutIs(c: Cell)
    ensures RanOutOnly(c) <==> TimedOutOnly(c)
  {
  }

  /** Only the real name draws a reset: the decoy fails and was never reset, and the
      handshake without a name was not either, or passes. */
  predicate NameReset(c: Cell, decoy: Option<Cell>, absent: Option<Cell>) {
    && Dominant(c) == MIDSTREAM_RESET && decoy.Some? && Own(decoy.value) && RanOutOnly(decoy.value)
    && (absent.Some? ==> RanOutOnly(absent.value) || Pass(absent.value))
  }

  lemma NameResetIs(c: Cell, decoy: Option<Cell>, absent: Option<Cell>)
    ensures NameReset(c, decoy, absent) <==> ResetByName(c, decoy, absent)
  {
    hide Dominant, RanOutOnly, TimedOutOnly, Own, Failed, Pass;
    if decoy.Some? {
      CellFacts(decoy.value, c);
      RanOutIs(decoy.value);
    }
    if absent.Some? { RanOutIs(absent.value); }
  }

  /** The measured attempts of a cell that were reset sooner than a round trip. */
  function EarlyOnes(x: Ctx, c: Cell): set<nat> {
    set i: nat | i < |x.attempts| && EarlyOf(x, c, x.attempts[i])
  }

  predicate EarlyOf(x: Ctx, c: Cell, a: Attempt) {
    && a.testID == c.key.test && a.variant == c.key.variant && a.dstPort == c.key.port
    && !LeftOut(a) && !Unmeasured(a) && TooSoon(x, a)
  }

  function EarlyUpTo(x: Ctx, c: Cell, n: nat): set<nat>
    requires n <= |x.attempts|
  {
    set i: nat | i < n && EarlyOf(x, c, x.attempts[i])
  }

  lemma {:induction false} EarlyCounted(x: Ctx, c: Cell, n: nat)
    requires n <= |x.attempts|
    ensures EarlyResets(x, c, n) == |EarlyUpTo(x, c, n)|
  {
    hide EarlyOf, EarlyUpTo;
    OneEarlyMore(x, c, n);
    if n > 0 {
      EarlyCounted(x, c, n - 1);
      EarlyOfIs(x, c, x.attempts[n - 1]);
    }
  }

  lemma OneEarlyMore(x: Ctx, c: Cell, n: nat)
    requires n <= |x.attempts|
    ensures n == 0 ==> EarlyUpTo(x, c, n) == {}
    ensures n > 0 ==>
              |EarlyUpTo(x, c, n)| == |EarlyUpTo(x, c, n - 1)| + if EarlyOf(x, c, x.attempts[n - 1]) then 1 else 0
  {
    hide EarlyOf;
    if n > 0 {
      var before := EarlyUpTo(x, c, n - 1);
      assert n - 1 !in before;
      assert EarlyUpTo(x, c, n) == before + if EarlyOf(x, c, x.attempts[n - 1]) then {n - 1} else {};
    }
  }

  lemma EarlyOfIs(x: Ctx, c: Cell, a: Attempt)
    ensures EarlyOf(x, c, a)
       <==> a.testID == c.key.test && a.variant == c.key.variant && a.dstPort == c.key.port && !LeftOut(a)
            && !Unmeasured(a) && TooSoon(x, a)
  {
  }

  /** A handshake with the real name failed on an address TCP reaches. It is the name
      when the decoy completes, or when only the name is reset; then medium takes two
      resets, all of them too soon. Otherwise it is the handshake. */
  ghost predicate HandshakeTold(x: Ctx, c: Cell, tcp: Option<Cell>, decoy: Option<Cell>, absent: Option<Cell>,
      v: Verdict)
  {
    if AtConnect(c) then AddressTold(x, c, tcp, v)
    else if decoy.Some? && Pass(decoy.value) then
      v == Verdict("dest_sni_blocking_suspected", KeyText(c.key), Modestly(c, decoy.value),
                   [About(c), Against(decoy.value)] + Aside(absent))
    else if NameReset(c, decoy, absent) then
      v == Verdict("dest_sni_blocking_suspected", KeyText(c.key),
                   if |EarlyOnes(x, c)| == Measured(c) >= 2 then Medium else Low,
                   [About(c), Against(decoy.value)] + Aside(absent))
    else if decoy.Some? && Own(decoy.value) then
      v == Verdict("dest_tls_blocking_suspected", KeyText(c.key), if tcp.Some? then Modestly(c, tcp.value) else Low,
                   [About(c), Beside(decoy.value)] + Held(tcp)
                   + if absent.Some? && Pass(absent.value) then Aside(absent) else [])
    else v == Verdict("dest_tls_blocking_suspected", KeyText(c.key), Low, [About(c)] + Held(tcp))
  }

  lemma AddressIff(x: Ctx, c: Cell, tcp: Option<Cell>, v: Verdict)
    ensures Unreachable(Yard(x), c, tcp) == Some(v) <==> AddressTold(x, c, tcp, v)
  {
    hide KeyText, Pass, The, Lookup, Tallied, DnsControl;
    TheIs(x.cells, "dest.tcp", "anycast");
  }

  lemma HandshakeIff(x: Ctx, c: Cell, tcp: Option<Cell>, decoy: Option<Cell>, absent: Option<Cell>, v: Verdict)
    ensures TlsSays(x, Yard(x), c, tcp, decoy, absent) == Some(v) <==> HandshakeTold(x, c, tcp, decoy, absent, v)
  {
    hide Dominant, KeyText, Pass, Fail, Measured, Yard, Unreachable, AddressTold, Own, Failed, Capped, Modestly,
        AtConnect, ConnectStage, ResetByName, NameReset, EarlyResets, EarlyOnes;
    AddressIff(x, c, tcp, v);
    NameResetIs(c, decoy, absent);
    CellFacts(c, c);
    if decoy.Some? {
      CellFacts(decoy.value, c);
      CellFacts(c, decoy.value);
    }
    if tcp.Some? { CellFacts(c, tcp.value); }
    EarlyIs(x, c);
    NoTcp(c);
    if NameReset(c, decoy, absent) { NamedDecoy(c, decoy, absent); }
  }

  lemma EarlyIs(x: Ctx, c: Cell)
    ensures EarlyResets(x, c, |x.attempts|) == |EarlyOnes(x, c)|
  {
    hide EarlyResets, EarlyOf;
    EarlyCounted(x, c, |x.attempts|);
    assert EarlyOnes(x, c) == EarlyUpTo(x, c, |x.attempts|);
  }

  /** b measured a TCP round trip to an address: under a second, so without a retransmission. */
  predicate Measures(x: Ctx, b: Attempt, ip: string, r: real) {
    && HasPrefix(b.testID, "dest.") && !LeftOut(b) && Connect in b.stages && b.stages[Connect] == r
    && 0.0 < r < 1000.0 && ip != "" && AddressOf(x, b) == ip
  }

  /** A round trip known for an attempt: its own, or one measured to the same address. */
  ghost predicate KnownTrip(x: Ctx, a: Attempt, r: real) {
    || (Connect in a.stages && a.stages[Connect] == r && 0.0 < r < 1000.0)
    || exists b :: b in x.attempts && Measures(x, b, AddressOf(x, a), r)
  }

  lemma {:induction false} MinRttIs(x: Ctx, ip: string, n: nat)
    requires n <= |x.attempts|
    ensures match MinRtt(x, ip, n)
            case None => forall i, r :: 0 <= i < n ==> !Measures(x, x.attempts[i], ip, r)
            case Some(m) =>
              && (exists i :: 0 <= i < n && Measures(x, x.attempts[i], ip, m))
              && (forall i, r :: 0 <= i < n && Measures(x, x.attempts[i], ip, r) ==> m <= r)
  {
    hide LeftOut, AddressOf, HasPrefix;
    if n > 0 {
      MinRttIs(x, ip, n - 1);
      var a := x.attempts[n - 1];
      if Connect in a.stages && Measures(x, a, ip, a.stages[Connect]) { assert 0 <= n - 1 < n; }
    }
  }

  lemma ShortestIs(x: Ctx, ip: string)
    ensures match MinRtt(x, ip, |x.attempts|)
            case None => forall b, r :: b in x.attempts ==> !Measures(x, b, ip, r)
            case Some(m) =>
              && (exists b :: b in x.attempts && Measures(x, b, ip, m))
              && (forall b, r :: b in x.attempts && Measures(x, b, ip, r) ==> m <= r)
  {
    hide Measures, MinRtt;
    MinRttIs(x, ip, |x.attempts|);
    if MinRtt(x, ip, |x.attempts|).Some? {
      var i :| 0 <= i < |x.attempts| && Measures(x, x.attempts[i], ip, MinRtt(x, ip, |x.attempts|).value);
      assert x.attempts[i] in x.attempts;
    }
  }

  /** A reset came too soon exactly when it was timed, some round trip to the address is
      known, and it came within four fifths of every one of them. */
  lemma SoonIff(x: Ctx, a: Attempt)
    ensures TooSoon(x, a)
       <==> && a.outcome == MIDSTREAM_RESET && {Connect, FirstWrite, Done} <= a.stages.Keys
            && a.stages[Connect] > 0.0 && a.stages[FirstWrite] <= a.stages[Done]
            && (exists r :: KnownTrip(x, a, r))
            && (forall r :: KnownTrip(x, a, r) ==> 5.0 * (a.stages[Done] - a.stages[FirstWrite]) < 4.0 * r)
  {
    hide AddressOf, MinRtt;
    var ip := AddressOf(x, a);
    ShortestIs(x, ip);
    var best := MinRtt(x, ip, |x.attempts|);
    if best.Some? {
      var b :| b in x.attempts && Measures(x, b, ip, best.value);
      assert KnownTrip(x, a, best.value);
    }
    if Connect in a.stages && Usable(a.stages[Connect]) { assert KnownTrip(x, a, a.stages[Connect]); }
  }

  lemma NoTcp(c: Cell)
    ensures Capped(c, None) == Low
  {
  }

  lemma NamedDecoy(c: Cell, decoy: Option<Cell>, absent: Option<Cell>)
    requires NameReset(c, decoy, absent)
    ensures decoy.Some?
  {
  }

  ghost predicate TlsTold(x: Ctx, d: string, v: Verdict) {
    exists c, tcp, decoy, absent ::
      && The(x.cells, "dest.tls", d, c) && Own(c) && Has(x.cells, "dest.tcp", d, tcp) && Reaches(tcp, c)
      && Has(x.cells, "dest.tls", "decoy:" + d, decoy) && Has(x.cells, "dest.tls", "absent:" + d, absent)
      && HandshakeTold(x, c, tcp, decoy, absent, v)
  }

  lemma TlsIff(x: Ctx, d: string, v: Verdict)
    ensures SiteTls(x, Yard(x), d) == Some(v) <==> TlsTold(x, d, v)
  {
    hide The, Has, Lookup, Yard, Own, Failed, Reaches, Reached, TlsSays, HandshakeTold;
    TheIs(x.cells, "dest.tls", d);
    HasIs(x.cells, "dest.tcp", d);
    HasIs(x.cells, "dest.tls", "decoy:" + d);
    HasIs(x.cells, "dest.tls", "absent:" + d);
    var tcp, name := Lookup(x.cells, "dest.tcp", d), Lookup(x.cells, "dest.tls", d);
    var decoy, absent := Lookup(x.cells, "dest.tls", "decoy:" + d), Lookup(x.cells, "dest.tls", "absent:" + d);
    if name.Some? {
      CellFacts(name.value, name.value);
      ReachesIs(tcp, name.value);
      HandshakeIff(x, name.value, tcp, decoy, absent, v);
    }
  }

  /** A service's own handshake failed on an address TCP reaches. */
  ghost predicate ProtoTold(x: Ctx, d: string, v: Verdict) {
    exists c, tcp ::
      && The(x.cells, "dest.proto", d, c) && Own(c) && Has(x.cells, "dest.tcp", d, tcp) && Reaches(tcp, c)
      && if AtConnect(c) then AddressTold(x, c, tcp, v)
         else v == Verdict("dest_proto_blocking_suspected", KeyText(c.key),
                           if tcp.Some? then Modestly(c, tcp.value) else Low, [About(c)] + Held(tcp))
  }

  lemma ProtoIff(x: Ctx, d: string, v: Verdict)
    ensures SiteProto(x, Yard(x), d) == Some(v) <==> ProtoTold(x, d, v)
  {
    hide The, Has, Lookup, Yard, Own, Failed, Reaches, Reached, AtConnect, ConnectStage, Unreachable, AddressTold,
        Capped, Modestly, KeyText, Pass;
    TheIs(x.cells, "dest.proto", d);
    HasIs(x.cells, "dest.tcp", d);
    var tcp, proto := Lookup(x.cells, "dest.tcp", d), Lookup(x.cells, "dest.proto", d);
    if proto.Some? {
      CellFacts(proto.value, proto.value);
      ReachesIs(tcp, proto.value);
      AddressIff(x, proto.value, tcp, v);
      if tcp.Some? { CellFacts(proto.value, tcp.value); }
      NoTcp(proto.value);
    }
  }

  /** After a clean handshake the service refused the region, or showed a certificate that does not verify. */
  ghost predicate HttpTold(x: Ctx, d: string, v: Verdict) {
    exists c, name ::
      && The(x.cells, "dest.http", d, c) && Fail(c) && The(x.cells, "dest.tls", d, name) && Pass(name)
      && (|| (&& Dominant(c) == HTTP_LEGAL_BLOCK
              && v == Verdict("dest_legal_block_suspected", KeyText(c.key), if Measured(c) >= 2 then Medium else Low,
                              [About(c), Against(name)]))
          || (&& Dominant(c) == CERT_MISMATCH
              && v == Verdict("dest_tls_interception_suspected", KeyText(c.key), Low, [About(c)])))
  }

  lemma HttpIff(x: Ctx, d: string, v: Verdict)
    ensures SiteHttp(x, d) == Some(v) <==> HttpTold(x, d, v)
  {
    hide The, Lookup, Dominant, KeyText, Pass, Measured, Fail, Nothing;
    TheIs(x.cells, "dest.http", d);
    TheIs(x.cells, "dest.tls", d);
    HttpNames();
    var name, http := Lookup(x.cells, "dest.tls", d), Lookup(x.cells, "dest.http", d);
    if name.Some? && http.Some? && Fail(http.value) {
      assert The(x.cells, "dest.http", d, http.value) && The(x.cells, "dest.tls", d, name.value);
      FailHasNone(http.value);
    }
  }

  lemma FailHasNone(c: Cell)
    requires Fail(c)
    ensures c.ok == 0
  {
  }

  lemma HttpNames()
    ensures HTTP_LEGAL_BLOCK != CERT_MISMATCH && !Nothing(HTTP_LEGAL_BLOCK) && !Nothing(CERT_MISMATCH)
  {
  }

  // ---- all of it ----

  /** What a probed site is reported as, layer by layer. */
  ghost predicate SiteTold(x: Ctx, d: string, v: Verdict) {
    DnsTold(x, d, v) || TcpTold(x, d, v) || TlsTold(x, d, v) || ProtoTold(x, d, v) || HttpTold(x, d, v)
  }

  /** Every verdict on real destinations, and no other. */
  lemma DestinationsIff(x: Ctx, v: Verdict)
    ensures v in Destinations(x)
       <==> || HijackTold(x, v)
            || (&& (exists d :: Probed(x.cells, d))
                && (TransportTold(x, v) || DownTold(x, v) || UnreliableTold(x, v)))
            || (exists d :: Probed(x.cells, d) && SiteTold(x, d, v))
  {
    hide Destinations, NxDomain, NoAnycast, Yard, SiteDns, SiteTcp, SiteTls, SiteProto, SiteHttp, Domains, Probed;
    hide DestControls.DownVerdict, DestControls.UnreliableVerdict;
    hide HijackTold, TransportTold, DownTold, UnreliableTold, DnsTold, TcpTold, TlsTold, ProtoTold, HttpTold;
    DestControls.DestinationsAre(x, v);
    HijackIff(x, v);
    TransportIff(x, v);
    ResolverIff(x, v);
    forall d ensures d in Domains(x.cells) <==> Probed(x.cells, d) { ProbedIs(x.cells, d); }
    SomeSite(x.cells);
    if p :| DestControls.InScope(x, p) && DestControls.SaidAt(x, p) == Some(v) { PlaceTold(x, p, v); }
    if d :| Probed(x.cells, d) && SiteTold(x, d, v) { ToldPlace(x, d, v); }
    if HijackTold(x, v) { assert DestControls.InScope(x, DestControls.Hijack); }
    if exists d :: Probed(x.cells, d) {
      assert DestControls.InScope(x, DestControls.Anycast) && DestControls.InScope(x, DestControls.Down);
      assert DestControls.InScope(x, DestControls.Unreliable);
      DestControls.FamilySays(x);
    }
  }

  lemma SomeSite(cells: seq<Cell>)
    ensures Domains(cells) != [] <==> exists d :: Probed(cells, d)
  {
    hide Domains, Probed;
    forall d ensures d in Domains(cells) <==> Probed(cells, d) { ProbedIs(cells, d); }
    if Domains(cells) != [] { assert Domains(cells)[0] in Domains(cells); }
  }

  lemma PlaceTold(x: Ctx, p: DestControls.Place, v: Verdict)
    requires DestControls.SaidAt(x, p) == Some(v)
    ensures match p
            case Hijack => HijackTold(x, v)
            case Anycast => TransportTold(x, v)
            case Down => DownTold(x, v)
            case Unreliable => UnreliableTold(x, v)
            case _ => SiteTold(x, p.d, v)
  {
    hide NxDomain, NoAnycast, Yard, SiteDns, SiteTcp, SiteTls, SiteProto, SiteHttp, DestControls.DownVerdict,
        DestControls.UnreliableVerdict, HijackTold, TransportTold, DownTold, UnreliableTold, DnsTold, TcpTold, TlsTold,
        ProtoTold, HttpTold;
    HijackIff(x, v);
    TransportIff(x, v);
    ResolverIff(x, v);
    match p {
      case DnsOf(d) => DnsIff(x, d, v);
      case TcpOf(d) => TcpIff(x, d, v);
      case TlsOf(d) => TlsIff(x, d, v);
      case ProtoOf(d) => ProtoIff(x, d, v);
      case HttpOf(d) => HttpIff(x, d, v);
      case _ =>
    }
  }

  lemma ToldPlace(x: Ctx, d: string, v: Verdict)
    requires Probed(x.cells, d) && SiteTold(x, d, v)
    ensures exists p :: DestControls.InScope(x, p) && DestControls.SaidAt(x, p) == Some(v)
  {
    hide Yard, SiteDns, SiteTcp, SiteTls, SiteProto, SiteHttp, DnsTold, TcpTold, TlsTold, ProtoTold, HttpTold, Domains,
        Probed;
    ProbedIs(x.cells, d);
    DnsIff(x, d, v);
    TcpIff(x, d, v);
    TlsIff(x, d, v);
    ProtoIff(x, d, v);
    HttpIff(x, d, v);
    assert DestControls.FromSite(x, d, v);
    DestControls.FromSomewhere(x, d, v);
  }
}
