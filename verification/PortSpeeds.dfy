/** Which ports rule 8 finds too fast (internal/classify/rules_path.go, fastConnectPorts),
    told by counting: a median has at most half of the values below it, and more than
    half at or below it. */
module PortSpeeds {
  import opened Base
  import opened Evidence
  import opened Sorting
  import opened Listing
  import opened Cells
  import opened Rules
  import opened SynAck

  // ---- counting finds the median ----

  function CountOf(v: seq<real>, p: real -> bool): nat {
    if v == [] then 0 else CountOf(v[..|v| - 1], p) + if p(v[|v| - 1]) then 1 else 0
  }

  lemma {:induction false} CountAppend(v: seq<real>, w: seq<real>, p: real -> bool)
    ensures CountOf(v + w, p) == CountOf(v, p) + CountOf(w, p)
  {
    if w == [] {
      assert v + w == v;
    } else {
      CountAppend(v, w[..|w| - 1], p);
      assert (v + w)[..|v + w| - 1] == v + w[..|w| - 1];
    }
  }

  lemma CountOne(x: real, p: real -> bool)
    ensures CountOf([x], p) == if p(x) then 1 else 0
  {
    assert [x][..0] == [];
  }

  lemma {:induction false} CountInserted(t: seq<real>, x: real, p: real -> bool)
    ensures CountOf(Insert(t, x, RealLe), p) == CountOf(t, p) + if p(x) then 1 else 0
  {
    CountOne(x, p);
    if t == [] || RealLe(t[|t| - 1], x) {
      CountAppend(t, [x], p);
    } else {
      var init, last := t[..|t| - 1], t[|t| - 1];
      CountInserted(init, x, p);
      CountAppend(Insert(init, x, RealLe), [last], p);
      CountOne(last, p);
    }
  }

  lemma {:induction false} CountSorted(v: seq<real>, p: real -> bool)
    ensures CountOf(StableSort(v, RealLe), p) == CountOf(v, p)
  {
    if v != [] {
      CountSorted(v[..|v| - 1], p);
      CountInserted(StableSort(v[..|v| - 1], RealLe), v[|v| - 1], p);
    }
  }

  lemma {:induction false} CountAll(v: seq<real>, p: real -> bool)
    ensures CountOf(v, p) <= |v|
    ensures (forall i :: 0 <= i < |v| ==> p(v[i])) ==> CountOf(v, p) == |v|
    ensures (forall i :: 0 <= i < |v| ==> !p(v[i])) ==> CountOf(v, p) == 0
  {
    if v != [] { CountAll(v[..|v| - 1], p); }
  }

  /** m has at most half of n values below it, and more than half at or below it. */
  predicate Middle(below: nat, upTo: nat, n: nat) { below <= n / 2 < upTo }

  function Below(m: real): real -> bool { (x: real) => x < m }

  function UpTo(m: real): real -> bool { (x: real) => x <= m }

  lemma PrefixCounts(s: seq<real>, n: nat, p: real -> bool)
    requires n <= |s|
    ensures (forall i :: 0 <= i < n ==> p(s[i])) ==> CountOf(s, p) >= n
    ensures (forall i :: n <= i < |s| ==> !p(s[i])) ==> CountOf(s, p) <= n
  {
    hide CountOf;
    assert s == s[..n] + s[n..];
    CountAppend(s[..n], s[n..], p);
    CountAll(s[..n], p);
    CountAll(s[n..], p);
  }

  lemma SortedMiddle(s: seq<real>, k: nat, m: real)
    requires Sorted(s, RealLe) && k < |s|
    ensures s[k] == m <==> CountOf(s, Below(m)) <= k < CountOf(s, UpTo(m))
  {
    hide CountOf;
    assert forall i :: 0 <= i < k ==> RealLe(s[i], s[k]);
    assert forall i :: k < i < |s| ==> RealLe(s[k], s[i]);
    PrefixCounts(s, k, Below(m));
    PrefixCounts(s, k + 1, Below(m));
    PrefixCounts(s, k, UpTo(m));
    PrefixCounts(s, k + 1, UpTo(m));
  }

  lemma MedianIff(v: seq<real>, m: real)
    requires v != []
    ensures Median(v) == m <==> Middle(CountOf(v, Below(m)), CountOf(v, UpTo(m)), |v|)
  {
    var s := StableSort(v, RealLe);
    SortContents(v, RealLe);
    assert |multiset(v)| == |v| && |multiset(s)| == |s|;
    SortSorted(v, RealLe);
    CountSorted(v, Below(m));
    CountSorted(v, UpTo(m));
    SortedMiddle(s, |v| / 2, m);
  }

  // ---- the dials of a port ----

  /** A TCP dial on the port that connected, the round-trip probe's own aside. */
  predicate Dialled(a: Attempt, port: int) {
    && a.transport == "tcp" && a.dstPort == port && a.testID != "tcp.rtt"
    && Connect in a.stages && a.stages[Connect] > 0.0
  }

  /** The dials of a port whose connect time meets p. */
  function Dials(attempts: seq<Attempt>, port: int, p: real -> bool): set<nat> {
    set i: nat | i < |attempts| && Dialled(attempts[i], port) && p(attempts[i].stages[Connect])
  }

  lemma {:induction false} DialsAre(attempts: seq<Attempt>, port: int, p: real -> bool)
    ensures |Dials(attempts, port, p)| == CountOf(Connects(attempts, port), p)
  {
    hide Dials, CountOf;
    if attempts == [] {
      assert Dials([], port, p) == {} by { NoDials(port, p); }
      CountAll([], p);
    } else {
      var n := |attempts| - 1;
      DialsAre(attempts[..n], port, p);
      OneDialMore(attempts, port, p);
      if Dialled(attempts[n], port) {
        CountAppend(Connects(attempts[..n], port), [attempts[n].stages[Connect]], p);
        CountOne(attempts[n].stages[Connect], p);
      }
    }
  }

  lemma NoDials(port: int, p: real -> bool)
    ensures Dials([], port, p) == {}
  {
  }

  lemma OneDialMore(attempts: seq<Attempt>, port: int, p: real -> bool)
    requires attempts != []
    ensures var n := |attempts| - 1;
            var more := Dialled(attempts[n], port) && p(attempts[n].stages[Connect]);
            |Dials(attempts, port, p)| == |Dials(attempts[..n], port, p)| + if more then 1 else 0
  {
    hide Dialled;
    var n := |attempts| - 1;
    var init := attempts[..n];
    var before := Dials(init, port, p);
    DialledConnects(attempts[n], port);
    assert n !in before;
    assert forall i: nat :: i < n ==> init[i] == attempts[i];
    assert Dials(attempts, port, p)
        == before + if Dialled(attempts[n], port) && p(attempts[n].stages[Connect]) then {n} else {};
  }

  lemma DialledConnects(a: Attempt, port: int)
    ensures Dialled(a, port) ==> Connect in a.stages
  {
  }

  function Any(): real -> bool { (x: real) => true }

  /** m is the typical connect time of a port: the median of at least two dials. */
  ghost predicate Typical(attempts: seq<Attempt>, port: int, m: real) {
    var n := |Dials(attempts, port, Any())|;
    n >= 2 && Middle(|Dials(attempts, port, Below(m))|, |Dials(attempts, port, UpTo(m))|, n)
  }

  lemma TypicalIff(attempts: seq<Attempt>, port: int, m: real)
    ensures MedianConnect(attempts, port) == Some(m) <==> Typical(attempts, port, m)
  {
    hide Connects, Dials, Median;
    DialsAre(attempts, port, Any());
    DialsAre(attempts, port, Below(m));
    DialsAre(attempts, port, UpTo(m));
    var v := Connects(attempts, port);
    CountAll(v, Any());
    if |v| >= 2 { MedianIff(v, m); }
  }

  lemma DialledPort(attempts: seq<Attempt>, port: int, m: real)
    requires Typical(attempts, port, m)
    ensures port in TcpPorts(attempts)
  {
    var ds := Dials(attempts, port, Any());
    assert |ds| > 0;
    var i :| i in ds;
  }

  /** The ports with a typical connect time, and what it is. */
  lemma MediansAre(attempts: seq<Attempt>)
    ensures forall p, m :: p in Medians(attempts) && Medians(attempts)[p] == m <==> Typical(attempts, p, m)
  {
    hide Typical, MedianConnect, TcpPorts;
    forall p, m ensures p in Medians(attempts) && Medians(attempts)[p] == m <==> Typical(attempts, p, m) {
      TypicalIff(attempts, p, m);
      if Typical(attempts, p, m) { DialledPort(attempts, p, m); }
    }
  }

  // ---- the ports ----

  /** The ports whose typical connect time meets p. */
  function Ports(med: map<int, real>, p: real -> bool): set<int> { set k | k in med && p(med[k]) }

  lemma {:induction false} PortsAre(med: map<int, real>, l: seq<int>, p: real -> bool)
    requires (forall i :: 0 <= i < |l| ==> l[i] in med) && forall i, j :: 0 <= i < j < |l| ==> l[i] != l[j]
    ensures |ListedPorts(med, l, p)| == CountOf(Along(med, l), p)
  {
    hide CountOf, Along, ListedPorts;
    if l == [] {
      CountAll([], p);
      NoPorts(med, p);
    } else {
      var init, last := l[..|l| - 1], l[|l| - 1];
      assert l == init + [last];
      PortsAre(med, init, p);
      AlongAppend(med, init, [last]);
      assert Along(med, [last]) == [med[last]] by { assert |Along(med, [last])| == 1; }
      CountAppend(Along(med, init), [med[last]], p);
      CountOne(med[last], p);
      OnePortMore(med, init, last, p);
    }
  }

  function ListedPorts(med: map<int, real>, l: seq<int>, p: real -> bool): set<int>
    requires forall i :: 0 <= i < |l| ==> l[i] in med
  {
    set k | k in l && p(med[k])
  }

  lemma NoPorts(med: map<int, real>, p: real -> bool)
    ensures ListedPorts(med, [], p) == {} && Along(med, []) == []
  {
  }

  lemma OnePortMore(med: map<int, real>, l: seq<int>, k: int, p: real -> bool)
    requires (forall i :: 0 <= i < |l| ==> l[i] in med) && k in med && k !in l
    ensures |ListedPorts(med, l + [k], p)| == |ListedPorts(med, l, p)| + if p(med[k]) then 1 else 0
  {
    assert ListedPorts(med, l + [k], p) == ListedPorts(med, l, p) + if p(med[k]) then {k} else {};
  }

  /** ref is the typical connect time across the ports. */
  ghost predicate Across(med: map<int, real>, ref: real) {
    Middle(|Ports(med, Below(ref))|, |Ports(med, UpTo(ref))|, |med|)
  }

  lemma AcrossIff(med: map<int, real>, ref: real)
    requires med != map[]
    ensures Reference(med) == ref <==> Across(med, ref)
  {
    hide Median, CountOf, Along;
    var l := Listed(med.Keys);
    ListedLists(med.Keys);
    ListedHasAll(med);
    PortsAre(med, l, Below(ref));
    PortsAre(med, l, UpTo(ref));
    assert ListedPorts(med, l, Below(ref)) == Ports(med, Below(ref));
    assert ListedPorts(med, l, UpTo(ref)) == Ports(med, UpTo(ref));
    MedianIff(Along(med, l), ref);
    PortsAre(med, l, Any());
    CountAll(Along(med, l), Any());
    assert ListedPorts(med, l, Any()) == med.Keys;
  }

  /** med has the typical connect times of a scan. */
  ghost predicate Told(attempts: seq<Attempt>, med: map<int, real>) {
    forall p, m :: p in med && med[p] == m <==> Typical(attempts, p, m)
  }

  lemma ToldAll(attempts: seq<Attempt>)
    ensures Told(attempts, Medians(attempts))
  {
    hide Typical, Medians;
    MediansAre(attempts);
  }

  lemma ToldIs(attempts: seq<Attempt>, med: map<int, real>)
    requires Told(attempts, med)
    ensures med == Medians(attempts)
  {
    hide Typical, Medians;
    MediansAre(attempts);
    forall p ensures p in med <==> p in Medians(attempts) {
      if p in med { assert Typical(attempts, p, med[p]); }
      if p in Medians(attempts) { assert Typical(attempts, p, Medians(attempts)[p]); }
    }
    forall p | p in med ensures med[p] == Medians(attempts)[p] { assert Typical(attempts, p, med[p]); }
  }

  /** A port is too fast exactly when three ports or more have a typical connect time,
      the one across them is 20 ms or more, and the port's own is under a quarter of it
      and more than 20 ms below it. */
  lemma FastIff(attempts: seq<Attempt>, port: int)
    ensures port in Fast(attempts)
       <==> exists med: map<int, real>, ref: real ::
              && Told(attempts, med) && |med| >= 3 && Across(med, ref) && ref >= 20.0
              && port in med && 4.0 * med[port] < ref && ref - med[port] > 20.0
  {
    hide Told, Across, Medians, Reference;
    var all := Medians(attempts);
    ToldAll(attempts);
    forall med | Told(attempts, med) ensures med == all { ToldIs(attempts, med); }
    if |all| >= 3 {
      assert all != map[];
      forall ref ensures Reference(all) == ref <==> Across(all, ref) { AcrossIff(all, ref); }
      assert Across(all, Reference(all));
    }
  }

  // ---- the verdicts ----

  /** The round-trip probe of the port saw a connect too fast for its payload. */
  ghost predicate RttSuspects(attempts: seq<Attempt>, port: int) {
    exists a :: a in attempts && a.testID == "tcp.rtt" && a.dstPort == port && Get(a.detail, SynAckSuspect) == "true"
  }

  /** A verdict before this rule suspects a proxy on the port. */
  ghost predicate ProxyFound(vs: seq<Verdict>, port: int) {
    exists v :: v in vs && v.kind == "transparent_proxy_suspected" && v.subject == PortText("tcp", port)
  }

  /** What rule 8 says of a port: fast, and surer when the probe or a proxy agrees; or
      suspected by the probe alone. */
  ghost predicate SynAckSays(x: Ctx, vs: seq<Verdict>, port: int, v: Verdict) {
    v == if port in Fast(x.attempts)
         then Verdict("synack_local_termination_suspected", PortText("tcp", port),
                      if RttSuspects(x.attempts, port) || ProxyFound(vs, port) then Medium else Low, [])
         else Verdict("synack_spoof_signal", PortText("tcp", port), Low, [])
  }

  lemma SuspectsAre(attempts: seq<Attempt>, vs: seq<Verdict>, port: int)
    ensures RttSuspects(attempts, port) <==> Suspected(attempts, port)
    ensures RttSuspects(attempts, port) <==> port in Suspects(attempts)
    ensures ProxyFound(vs, port) <==> Proxied(vs, PortText("tcp", port))
  {
    hide PortText;
    if RttSuspects(attempts, port) {
      var a :| a in attempts && a.testID == "tcp.rtt" && a.dstPort == port && Get(a.detail, SynAckSuspect) == "true";
      var i :| 0 <= i < |attempts| && attempts[i] == a;
    }
    if ProxyFound(vs, port) {
      var v :| v in vs && v.kind == "transparent_proxy_suspected" && v.subject == PortText("tcp", port);
      var i :| 0 <= i < |vs| && vs[i] == v;
    }
  }

  lemma AscendingAre(s: set<int>)
    ensures forall p :: p in Ascending(s) <==> p in s
  {
    var l := Listed(s);
    ListedLists(s);
    SortContents(l, IntLe);
    forall p ensures p in Ascending(s) <==> p in s {
      assert p in multiset(StableSort(l, IntLe)) <==> p in multiset(l);
    }
  }

  /** Rule 8 speaks of the ports that are fast or suspected by the probe, and of no other. */
  lemma SynAckIff(x: Ctx, vs: seq<Verdict>, v: Verdict)
    ensures v in SynAcks(x, vs)
       <==> exists p :: (p in Fast(x.attempts) || RttSuspects(x.attempts, p)) && SynAckSays(x, vs, p, v)
  {
    hide PortText, Fast, Ascending, RttSuspects, ProxyFound, Suspected, Proxied, Suspects;
    var fast := Fast(x.attempts);
    var some := Suspects(x.attempts) - fast;
    var a, b := Ascending(fast), Ascending(some);
    AscendingAre(fast);
    AscendingAre(some);
    forall p { SuspectsAre(x.attempts, vs, p); }
    if v in TerminatedAll(x.attempts, vs, a) {
      var i :| 0 <= i < |a| && Terminated(x.attempts, vs, a[i]) == v;
      assert a[i] in fast && SynAckSays(x, vs, a[i], v);
    } else if v in SpoofedAll(b) {
      var i :| 0 <= i < |b| && Spoofed(b[i]) == v;
      assert b[i] in some && SynAckSays(x, vs, b[i], v);
    }
    if p :| (p in fast || RttSuspects(x.attempts, p)) && SynAckSays(x, vs, p, v) {
      if p in fast {
        var i :| 0 <= i < |a| && a[i] == p;
        assert TerminatedAll(x.attempts, vs, a)[i] == v;
      } else {
        assert p in some;
        var i :| 0 <= i < |b| && b[i] == p;
        assert SpoofedAll(b)[i] == v;
      }
    }
  }
}
