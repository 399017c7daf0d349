/** What a report says (internal/classify/classify.go): a finding is in it exactly when
    the cells and attempts of the scan call for it, rule by rule, and in which order. */
module ReportLaws {
  import opened Base
  import opened Text
  import opened Evidence
  import opened Sorting
  import opened Cells
  import opened Rules
  import opened RuleFacts
  import opened RuleLaws
  import opened Mechanisms
  import SynAck
  import Dest
  import PortSpeeds
  import DestLaws
  import MechanismLaws
  import opened StrengthOfEvidence
  import Classify
  import HostRuns
  import LocalOutages
  import Outages
  import PathRuns

  /** What a verdict finds, of what, and how surely. */
  datatype Finding = Finding(kind: string, subject: string, conf: Confidence)

  function Head(v: Verdict): Finding { Finding(v.kind, v.subject, v.conf) }

  /** vs holds the finding. */
  ghost predicate Finds(vs: seq<Verdict>, h: Finding) { exists v :: v in vs && Head(v) == h }

  lemma FindsAppend(a: seq<Verdict>, b: seq<Verdict>, h: Finding)
    ensures Finds(a + b, h) <==> Finds(a, h) || Finds(b, h)
  {
    if Finds(a, h) {
      var v :| v in a && Head(v) == h;
      assert v in a + b;
    }
    if Finds(b, h) {
      var v :| v in b && Head(v) == h;
      assert v in a + b;
    }
  }

  // ---- rule 4, cell by cell ----

  /** v is what the k-th cell calls for, and no cell before it called its family blocked. */
  ghost predicate CallsFirst(x: Ctx, k: int, v: Verdict) {
    && 0 <= k < |x.cells| && ProtocolOf(x, x.cells[k]) == Some(v)
    && forall j :: 0 <= j < k ==> !(Blocked(x.cells, x.cells[j]) && Family(x.cells[j]) == Family(x.cells[k]))
  }

  lemma {:induction false} ProtocolsExact(x: Ctx, n: nat, v: Verdict)
    requires n <= |x.cells|
    ensures v in Protocols(x, n).0 <==> exists k :: k < n && CallsFirst(x, k, v)
  {
    hide ProtocolOf, Family, Blocked;
    if n > 0 {
      ProtocolsExact(x, n - 1, v);
      FamiliesOnce(x, n - 1);
      var c := x.cells[n - 1];
      assert Family(c) in Protocols(x, n - 1).1 <==> Called(x, n - 1, Family(c));
      forall j | 0 <= j < n - 1 ensures Calls(x, x.cells[j]) <==> Blocked(x.cells, x.cells[j]) {
        ProtocolIs(x, x.cells[j]);
      }
      assert CallsFirst(x, n - 1, v) <==> ProtocolOf(x, c) == Some(v) && !Called(x, n - 1, Family(c));
    }
  }

  /** The finding of a cell whose family is blocked, or whose protocol cannot be told, when
      no cell before it already stands for the family. */
  ghost predicate ProtocolTold(x: Ctx, v: Verdict) {
    exists k ::
      && 0 <= k < |x.cells| && TellsOf(x, v, x.cells[k])
      && forall j :: 0 <= j < k ==> !(Blocked(x.cells, x.cells[j]) && Family(x.cells[j]) == Family(x.cells[k]))
  }

  lemma SureOnce(x: Ctx, c: Cell, a: Confidence, b: Confidence)
    requires ProtocolSure(x, c, a) && ProtocolSure(x, c, b)
    ensures a == b
  {
    hide Strength, First, Translated, HasPrefix;
    var test := if c.key.transport == "udp" then "udp.echo" else "tcp.echo";
    forall e, f | Beneath(x.cells, test, c, e) && Beneath(x.cells, test, c, f) ensures e == f {
      FirstUnique(x.cells, d => At(d, test, c.key.transport, c.key.port), e, f);
    }
  }

  lemma TellsHead(x: Ctx, c: Cell, v: Verdict)
    requires TellsOf(x, v, c)
    ensures ProtocolOf(x, c).Some? && Head(ProtocolOf(x, c).value) == Head(v)
  {
    hide Blocked, Doubtful, ProtocolOf, ProtocolSure;
    ProtocolIs(x, c);
    KindsDiffer();
    var w := ProtocolOf(x, c).value;
    ProtocolSays(x, c, w);
    if v.kind == BLOCKED {
      assert w.kind == BLOCKED;
      SureOnce(x, c, v.conf, w.conf);
    }
  }

  lemma ProtocolsFind(x: Ctx, h: Finding)
    ensures Finds(Protocols(x, |x.cells|).0, h) <==> exists v :: ProtocolTold(x, v) && Head(v) == h
  {
    hide Protocols, ProtocolOf, Family, Blocked, TellsOf;
    var vs := Protocols(x, |x.cells|).0;
    if v :| v in vs && Head(v) == h {
      ProtocolsExact(x, |x.cells|, v);
      var k :| k < |x.cells| && CallsFirst(x, k, v);
      ProtocolSays(x, x.cells[k], v);
      assert ProtocolTold(x, v);
    }
    if v :| ProtocolTold(x, v) && Head(v) == h {
      var k :| 0 <= k < |x.cells| && TellsOf(x, v, x.cells[k])
               && forall j :: 0 <= j < k ==>
                    !(Blocked(x.cells, x.cells[j]) && Family(x.cells[j]) == Family(x.cells[k]));
      TellsHead(x, x.cells[k], v);
      var w := ProtocolOf(x, x.cells[k]).value;
      assert CallsFirst(x, k, w);
      ProtocolsExact(x, |x.cells|, w);
    }
  }

  // ---- the differentials ----

  /** All echoes fail. */
  ghost predicate EndpointTold(cells: seq<Cell>, v: Verdict) {
    && (exists c :: c in cells && Echoes(c)) && (forall c :: c in cells && Echoes(c) ==> Fail(c))
    && Head(v) == Finding("endpoint_blocking_suspected", "all baseline echo tests", Medium)
  }

  /** A TCP echo passes, and all of the UDP ones, of which there are some, fail. */
  ghost predicate UdpTold(cells: seq<Cell>, v: Verdict) {
    && (exists c :: c in cells && Echoes(c) && c.key.transport == "tcp" && Pass(c))
    && (exists c :: c in cells && Echoes(c) && c.key.transport == "udp")
    && (forall c :: c in cells && Echoes(c) && c.key.transport == "udp" ==> Fail(c))
    && Head(v) == Finding("udp_blocking_suspected", "all udp ports", Medium)
  }

  lemma EchoesFind(x: Ctx, h: Finding)
    ensures Finds(Maybe(EndpointVerdict(x)), h) <==> exists v :: EndpointTold(x.cells, v) && Head(v) == h
    ensures Finds(Maybe(UdpVerdict(x)), h) <==> exists v :: UdpTold(x.cells, v) && Head(v) == h
  {
    hide Pass, Fail, Echoes;
    EndpointIff(x);
    UdpIff(x);
    if EndpointVerdict(x).Some? { assert EndpointTold(x.cells, EndpointVerdict(x).value); }
    if UdpVerdict(x).Some? { assert UdpTold(x.cells, UdpVerdict(x).value); }
  }

  lemma EachFinds(r: Rule, x: Ctx, h: Finding)
    requires !r.Bursts?
    ensures Finds(Each(r, x), h) <==> exists v :: Head(v) == h && EachTold(r, x, v)
  {
    hide Each, EachTold, Head;
    forall v ensures v in Each(r, x) <==> EachTold(r, x, v) { EachIs(r, x, v); }
  }

  /** v is a verdict of the rule on single cells. */
  ghost predicate EachTold(r: Rule, x: Ctx, v: Verdict) {
    exists c :: c in x.cells && match r
      case Ports(tr) => PortSays(x.cells, tr, c, v)
      case Variants => VariantSays(x.cells, c, v)
      case Bulks => BulkSays(x.cells, c, v)
      case Packets => PacketSays(x.cells, c, v)
      case Bursts => BurstSays(x.cells, c, v)
      case Sessions => SessionSays(x.cells, c, v)
      case Manipulated => Manipulates(c, v)
      case DnsPorts => DnsPortSays(x.cells, c, v)
  }

  lemma EachIs(r: Rule, x: Ctx, v: Verdict)
    requires !r.Bursts?
    ensures v in Each(r, x) <==> EachTold(r, x, v)
  {
    hide Each, PortSays, VariantSays, BulkSays, PacketSays, BurstSays, SessionSays, Manipulates, DnsPortSays;
    match r {
      case Ports(tr) => PortRuleIff(x, tr, v);
      case Variants => VariantIff(x, v);
      case Bulks => BulkIff(x, v);
      case Packets => PacketIff(x, v);
      case Sessions => SessionIff(x, v);
      case Manipulated => ManipulatedIff(x, v);
      case DnsPorts => DnsPortIff(x, v);
    }
  }

  lemma BurstHead(cells: seq<Cell>, c: Cell, v: Verdict, w: Verdict)
    requires BurstSays(cells, c, v) && BurstSays(cells, c, w)
    ensures Head(v) == Head(w)
  {
    hide Pass, Fail, Strength, KeyText, First, Frozen, MostlyFrozen;
    if o :| First(cells, d => IsBenign(d, c.key.port), o) && Pass(o) {
      assert v.conf == Strength(c, o) && w.conf == Strength(c, o);
    }
  }

  lemma BurstsFind(x: Ctx, h: Finding)
    ensures Finds(Each(Bursts, x), h) <==> exists v :: Head(v) == h && EachTold(Bursts, x, v)
  {
    hide Each, BurstSays, Head, Pass, Frozen;
    BurstIff(x);
    if v :| v in Each(Bursts, x) && Head(v) == h { assert EachTold(Bursts, x, v); }
    if v :| Head(v) == h && EachTold(Bursts, x, v) {
      var c :| c in x.cells && BurstSays(x.cells, c, v);
      BurstFrozen(x.cells, c, v);
      var w :| w in Each(Bursts, x) && BurstSays(x.cells, c, w);
      BurstHead(x.cells, c, v, w);
    }
  }

  lemma BurstFrozen(cells: seq<Cell>, c: Cell, v: Verdict)
    requires BurstSays(cells, c, v)
    ensures c.key.test == "tls.burst" && Frozen(c) && !Pass(c)
  {
  }

  ghost predicate Told(x: Ctx, r: Rule, h: Finding) { exists v :: Head(v) == h && EachTold(r, x, v) }

  lemma RuleFinds(r: Rule, x: Ctx, h: Finding)
    ensures Finds(Each(r, x), h) <==> Told(x, r, h)
  {
    hide Each, EachTold, Head;
    if r.Bursts? { BurstsFind(x, h); } else { EachFinds(r, x, h); }
  }

  /** The findings of rules 1 to 6, rule by rule. */
  ghost predicate DifferentialTold(x: Ctx, h: Finding) {
    || (exists v :: EndpointTold(x.cells, v) && Head(v) == h)
    || (exists v :: UdpTold(x.cells, v) && Head(v) == h)
    || (exists v :: ProtocolTold(x, v) && Head(v) == h)
    || (exists v :: DnsUdpSays(x.cells, v) && Head(v) == h)
    || Told(x, Ports("tcp"), h) || Told(x, Ports("udp"), h) || Told(x, Variants, h) || Told(x, Bulks, h)
    || Told(x, Packets, h) || Told(x, Bursts, h) || Told(x, Sessions, h) || Told(x, Manipulated, h)
    || Told(x, DnsPorts, h)
  }

  lemma EarlyFinds(x: Ctx, h: Finding)
    ensures Finds(Early(x), h)
       <==> || (exists v :: EndpointTold(x.cells, v) && Head(v) == h)
            || Told(x, Ports("tcp"), h) || Told(x, Ports("udp"), h)
            || (exists v :: UdpTold(x.cells, v) && Head(v) == h) || (exists v :: ProtocolTold(x, v) && Head(v) == h)
  {
    hide Each, Finds, Told, EndpointTold, UdpTold, ProtocolTold, Protocols, EndpointVerdict, UdpVerdict, Maybe, Head;
    var a, b, c := Maybe(EndpointVerdict(x)), Each(Ports("tcp"), x), Each(Ports("udp"), x);
    var d, e := Maybe(UdpVerdict(x)), Protocols(x, |x.cells|).0;
    FindsAppend(b, c, h);
    FindsAppend(a, b + c, h);
    FindsAppend(a + (b + c), d, h);
    FindsAppend(a + (b + c) + d, e, h);
    EchoesFind(x, h);
    RuleFinds(Ports("tcp"), x, h);
    RuleFinds(Ports("udp"), x, h);
    ProtocolsFind(x, h);
  }

  lemma DnsFinds(x: Ctx, h: Finding)
    ensures Finds(Dns(x), h)
       <==> || Told(x, Manipulated, h) || (exists v :: DnsUdpSays(x.cells, v) && Head(v) == h) || Told(x, DnsPorts, h)
  {
    hide Each, Told, DnsUdp, DnsUdpSays, Head;
    var a, b, c := Each(Manipulated, x), Maybe(DnsUdp(x)), Each(DnsPorts, x);
    FindsAppend(a, b, h);
    FindsAppend(a + b, c, h);
    RuleFinds(Manipulated, x, h);
    RuleFinds(DnsPorts, x, h);
    forall v ensures DnsUdp(x) == Some(v) <==> DnsUdpSays(x.cells, v) { DnsUdpIff(x, v); }
  }

  lemma LateFinds(x: Ctx, h: Finding)
    ensures Finds(Late(x), h)
       <==> || Told(x, Bulks, h) || Told(x, Packets, h) || Told(x, Bursts, h) || Told(x, Sessions, h)
            || Finds(Dns(x), h)
  {
    hide Each, Finds, Told, Dns;
    var a, b, c, d := Each(Bulks, x), Each(Packets, x), Each(Bursts, x), Each(Sessions, x);
    FindsAppend(a, b, h);
    FindsAppend(a + b, c, h);
    FindsAppend(a + b + c, d, h);
    FindsAppend(a + b + c + d, Dns(x), h);
    RuleFinds(Bulks, x, h);
    RuleFinds(Packets, x, h);
    RuleFinds(Bursts, x, h);
    RuleFinds(Sessions, x, h);
  }

  lemma DifferentialsFind(x: Ctx, h: Finding)
    ensures Finds(Differentials(x), h) <==> DifferentialTold(x, h)
  {
    hide Each, Finds, Told, Early, Late, Dns, EndpointTold, UdpTold, ProtocolTold, DnsUdpSays, Head;
    FindsAppend(Early(x), Each(Variants, x), h);
    FindsAppend(Early(x) + Each(Variants, x), Late(x), h);
    EarlyFinds(x, h);
    RuleFinds(Variants, x, h);
    LateFinds(x, h);
    DnsFinds(x, h);
  }

  // ---- the report ----

  /** The findings of rule 7: what the path changed in cells no rule before it speaks of. */
  ghost predicate MechanismTold(x: Ctx, h: Finding) {
    exists v :: Head(v) == h && MechanismLaws.Stands(x.cells, |x.cells|, Differentials(x), v)
  }

  lemma DecoratedFinds(x: Ctx, h: Finding)
    ensures Finds(Decorated(x, Differentials(x)), h) <==> DifferentialTold(x, h) || MechanismTold(x, h)
  {
    hide Decorated, Differentials, DifferentialTold, MechanismLaws.Stands, MechanismLaws.Joins, MechanismLaws.LastOn;
    var vs := Differentials(x);
    var d := Decorated(x, vs);
    MechanismLaws.DecoratedIs(x, vs);
    DifferentialsFind(x, h);
    var kept, added := d[..|vs|], d[|vs|..];
    assert d == kept + added;
    FindsAppend(kept, added, h);
    forall i | 0 <= i < |vs| ensures Head(kept[i]) == Head(vs[i]) {
      assert MechanismLaws.KeepsTo(x.cells, |x.cells|, vs, i, kept[i]);
    }
    SameHeads(vs, kept, h);
  }

  lemma SameHeads(a: seq<Verdict>, b: seq<Verdict>, h: Finding)
    requires |a| == |b| && forall i :: 0 <= i < |a| ==> Head(a[i]) == Head(b[i])
    ensures Finds(a, h) <==> Finds(b, h)
  {
    if v :| v in a && Head(v) == h {
      var i :| 0 <= i < |a| && a[i] == v;
      assert b[i] in b;
    }
    if v :| v in b && Head(v) == h {
      var i :| 0 <= i < |b| && b[i] == v;
      assert a[i] in a;
    }
  }

  /** The findings of rule 8, which reads those before it for a proxy on the port. */
  ghost predicate SynAckTold(x: Ctx, h: Finding) {
    exists p, v ::
      && Head(v) == h && (p in SynAck.Fast(x.attempts) || PortSpeeds.RttSuspects(x.attempts, p))
      && PortSpeeds.SynAckSays(x, Decorated(x, Differentials(x)), p, v)
  }

  lemma SynAcksFind(x: Ctx, h: Finding)
    ensures Finds(SynAck.SynAcks(x, Decorated(x, Differentials(x))), h) <==> SynAckTold(x, h)
  {
    hide SynAck.SynAcks, SynAck.Fast, Decorated, Differentials, PortSpeeds.SynAckSays, PortSpeeds.RttSuspects, Head;
    var d := Decorated(x, Differentials(x));
    var vs := SynAck.SynAcks(x, d);
    if v :| v in vs && Head(v) == h { PortSpeeds.SynAckIff(x, d, v); }
    if SynAckTold(x, h) {
      var p, v :| Head(v) == h && (p in SynAck.Fast(x.attempts) || PortSpeeds.RttSuspects(x.attempts, p))
                  && PortSpeeds.SynAckSays(x, d, p, v);
      PortSpeeds.SynAckIff(x, d, v);
    }
  }

  /** The findings on real destinations. */
  ghost predicate DestinationTold(x: Ctx, h: Finding) {
    exists v ::
      && Head(v) == h
      && (|| DestLaws.HijackTold(x, v)
          || (&& (exists d :: DestLaws.Probed(x.cells, d))
              && (DestLaws.TransportTold(x, v) || DestLaws.DownTold(x, v) || DestLaws.UnreliableTold(x, v)))
          || (exists d :: DestLaws.Probed(x.cells, d) && DestLaws.SiteTold(x, d, v)))
  }

  lemma DestinationsFind(x: Ctx, h: Finding)
    ensures Finds(Dest.Destinations(x), h) <==> DestinationTold(x, h)
  {
    hide Dest.Destinations, DestLaws.HijackTold, DestLaws.TransportTold, DestLaws.DownTold, DestLaws.UnreliableTold,
        DestLaws.SiteTold, DestLaws.Probed, Head;
    forall v ensures v in Dest.Destinations(x)
         <==> || DestLaws.HijackTold(x, v)
              || (&& (exists d :: DestLaws.Probed(x.cells, d))
                  && (DestLaws.TransportTold(x, v) || DestLaws.DownTold(x, v) || DestLaws.UnreliableTold(x, v)))
              || (exists d :: DestLaws.Probed(x.cells, d) && DestLaws.SiteTold(x, d, v))
    {
      DestLaws.DestinationsIff(x, v);
    }
  }

  /** One of the rules, or a destination, calls for the finding. */
  ghost predicate CalledFor(x: Ctx, h: Finding) {
    DifferentialTold(x, h) || MechanismTold(x, h) || SynAckTold(x, h) || DestinationTold(x, h)
  }

  /** A finding is reported exactly when it is called for. */
  lemma ReportIff(x: Ctx, h: Finding)
    ensures Finds(Verdicts(x), h) <==> CalledFor(x, h)
  {
    hide SynAck.SynAcks, Dest.Destinations, Decorated, Differentials, DifferentialTold, MechanismTold, SynAckTold,
        DestinationTold;
    var d := Decorated(x, Differentials(x));
    var s, e := SynAck.SynAcks(x, d), Dest.Destinations(x);
    SortContents(Unsorted(x), VerdictLe);
    forall v ensures v in Verdicts(x) <==> v in Unsorted(x) {
      assert v in multiset(Verdicts(x)) <==> v in multiset(Unsorted(x));
    }
    FindsAppend(d, s, h);
    FindsAppend(d + s, e, h);
    DecoratedFinds(x, h);
    SynAcksFind(x, h);
    DestinationsFind(x, h);
  }

  /** Findings stand in the order of their kinds, and those of one kind in that of their subjects. */
  lemma ReportInOrder(x: Ctx, i: nat, j: nat)
    requires i < j < |Verdicts(x)|
    ensures var v, w := Verdicts(x)[i], Verdicts(x)[j];
            || (v.kind != w.kind && (v.kind <= w.kind || Lower(v.kind, w.kind)))
            || (v.kind == w.kind && (v.subject <= w.subject || Lower(v.subject, w.subject)))
  {
    hide Unsorted, StringLe;
    VerdictLeOrder();
    SortSorted(Unsorted(x), VerdictLe);
    var v, w := Verdicts(x)[i], Verdicts(x)[j];
    assert VerdictLe(v, w);
    StringLeIff(v.kind, w.kind);
    StringLeIff(v.subject, w.subject);
  }

  // ---- the whole scan ----

  /** An outage of the host, or of the path, takes the attempt out. */
  ghost predicate TakenOut(attempts: seq<Attempt>, at: seq<nat>, i: nat)
    requires i < |attempts| && forall k :: 0 <= k < |at| ==> at[k] < |attempts|
  {
    || (HostRuns.Losable(attempts[i]) && HostRuns.DuringOutage(attempts[i], HostRuns.Dates(attempts, at)))
    || PathRuns.Caught(Outages.Mark(attempts, LocalOutages.Locals(attempts)), LocalOutages.Locals(attempts), i)
  }

  /** The classifier marks exactly the attempts that outages take out, and changes nothing else. */
  lemma MarksIff(attempts: seq<Attempt>) returns (at: seq<nat>)
    ensures HostRuns.Timeline(attempts, at)
    ensures var marked := LocalOutages.Flag(attempts).marked;
            && |marked| == |attempts|
            && forall i: nat :: i < |attempts| ==>
                 marked[i] == if TakenOut(attempts, at, i) then Outages.MarkOne(attempts[i]) else attempts[i]
  {
    hide LocalOutages.Flag, LocalOutages.Locals, TakenOut;
    at := HostRuns.MarkedIff(attempts);
    FlagIs(attempts);
    forall i: nat | i < |attempts|
      ensures LocalOutages.Flag(attempts).marked[i]
           == if TakenOut(attempts, at, i) then Outages.MarkOne(attempts[i]) else attempts[i]
    {
      MarkAt(attempts, at, i);
    }
  }

  lemma FlagIs(attempts: seq<Attempt>)
    ensures var local := LocalOutages.Locals(attempts);
            var first := Outages.Mark(attempts, local);
            LocalOutages.Flag(attempts).marked == Outages.Mark(first, Outages.Suspects(first, local))
  {
    hide LocalOutages.Locals, Outages.Suspects, Outages.Mark, Outages.Queue, Outages.Notes, LocalOutages.LocalNotes;
  }

  lemma MarkAt(attempts: seq<Attempt>, at: seq<nat>, i: nat)
    requires i < |attempts| && HostRuns.Timeline(attempts, at)
    requires forall i: nat :: i in LocalOutages.Locals(attempts)
               <==> && i < |attempts| && HostRuns.Losable(attempts[i])
                    && HostRuns.DuringOutage(attempts[i], HostRuns.Dates(attempts, at))
    ensures var local := LocalOutages.Locals(attempts);
            var first := Outages.Mark(attempts, local);
            Outages.Mark(first, Outages.Suspects(first, local))[i]
              == if TakenOut(attempts, at, i) then Outages.MarkOne(attempts[i]) else attempts[i]
  {
    hide LocalOutages.Locals, Outages.Suspects, HostRuns.Losable, HostRuns.DuringOutage, HostRuns.HostFails,
        HostRuns.Before, PathRuns.Caught, HostRuns.Dates;
    var local := LocalOutages.Locals(attempts);
    var first := Outages.Mark(attempts, local);
    PathRuns.MarkedIff(first, local, i);
    LocalOutages.MarkOneTwice(attempts[i]);
  }

  /** The report of a scan: its cells are those of the attempts that were left in, and a
      finding is in it exactly when they call for it, or the probe was out of reach. */
  lemma ScanIff(attempts: seq<Attempt>, reachable: bool, standalone: bool, hostOf: string -> string, h: Finding)
    ensures var r := Classify.Classified(attempts, reachable, standalone, hostOf);
            var x := Context(LocalOutages.Flag(attempts).marked, hostOf);
            && r.cells == x.cells
            && (!reachable && !standalone ==>
                  (Finds(r.verdicts, h) <==> h == Finding("probe_unreachable", "control plane", High)))
            && (reachable || standalone ==> (Finds(r.verdicts, h) <==> CalledFor(x, h)))
  {
    hide LocalOutages.Flag, Verdicts, Aggregated, CalledFor;
    var x := Context(LocalOutages.Flag(attempts).marked, hostOf);
    ReportIff(x, h);
    assert Classify.UNREACHABLE in [Classify.UNREACHABLE];
  }
}
