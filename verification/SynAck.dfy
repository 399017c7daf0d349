/** Rule 8 (internal/classify/rules_path.go): ports whose TCP connect is answered
    by something closer than the server. */
module SynAck {
  import opened Base
  import opened Text
  import opened Evidence
  import opened Sorting
  import opened Cells
  import opened Rules
  import opened Mechanisms
  import opened Listing

  const MIN_SAMPLES: nat := 2
  const MIN_PORTS: nat := 3
  const MIN_REF_MS: real := 20.0
  const RATIO: real := 0.25
  const MIN_GAP_MS: real := 20.0

  predicate RealLe(a: real, b: real) { a <= b }
  predicate IntLe(a: int, b: int) { a <= b }

  /** The upper median of a list. */
  function Median(v: seq<real>): real
    requires v != []
  {
    SortContents(v, RealLe);
    assert |multiset(v)| == |v| && |multiset(StableSort(v, RealLe))| == |StableSort(v, RealLe)|;
    StableSort(v, RealLe)[|v| / 2]
  }

  /** The connect times of the successful dials on a port. */
  function Connects(attempts: seq<Attempt>, port: int): seq<real> {
    if attempts == [] then []
    else
      var v, a := Connects(attempts[..|attempts| - 1], port), attempts[|attempts| - 1];
      if a.transport == "tcp" && a.dstPort == port && a.testID != "tcp.rtt" && Connect in a.stages
          && a.stages[Connect] > 0.0
      then v + [a.stages[Connect]] else v
  }

  function MedianConnect(attempts: seq<Attempt>, port: int): Option<real> {
    var v := Connects(attempts, port);
    if |v| < MIN_SAMPLES then None else Some(Median(v))
  }

  function TcpPorts(attempts: seq<Attempt>): set<int> {
    set i | 0 <= i < |attempts| && attempts[i].transport == "tcp" :: attempts[i].dstPort
  }

  function Medians(attempts: seq<Attempt>): map<int, real> {
    map p | p in TcpPorts(attempts) && MedianConnect(attempts, p).Some? :: MedianConnect(attempts, p).value
  }

  predicate Suspected(attempts: seq<Attempt>, port: int) {
    exists i :: 0 <= i < |attempts| && attempts[i].testID == "tcp.rtt"
        && Get(attempts[i].detail, SynAckSuspect) == "true"
                && attempts[i].dstPort == port
  }

  function Suspects(attempts: seq<Attempt>): set<int> {
    set i | 0 <= i < |attempts| && attempts[i].testID == "tcp.rtt"
        && Get(attempts[i].detail, SynAckSuspect) == "true" :: attempts[i].dstPort
  }

  lemma IntOrder()
    ensures Order(IntLe)
  {
  }

  ghost function Ascending(s: set<int>): seq<int> { InOrder(s, IntLe) }

  /** The values of a map along a listing of its keys. */
  function Along(m: map<int, real>, l: seq<int>): (v: seq<real>)
    requires forall i :: 0 <= i < |l| ==> l[i] in m
    ensures |v| == |l| && forall i :: 0 <= i < |l| ==> v[i] == m[l[i]]
  {
    seq(|l|, i requires 0 <= i < |l| => m[l[i]])
  }

  lemma AlongAppend(m: map<int, real>, l: seq<int>, k: seq<int>)
    requires forall i :: 0 <= i < |l + k| ==> (l + k)[i] in m
    ensures (forall i :: 0 <= i < |l| ==> l[i] in m) && (forall i :: 0 <= i < |k| ==> k[i] in m)
    ensures Along(m, l + k) == Along(m, l) + Along(m, k)
  {
    assert forall i :: 0 <= i < |l| ==> (l + k)[i] == l[i];
    assert forall i :: 0 <= i < |k| ==> (l + k)[|l| + i] == k[i];
  }

  lemma Remove(k: seq<int>, j: nat)
    requires j < |k|
    ensures k == k[..j] + ([k[j]] + k[j + 1..]) && multiset(k) == multiset(k[..j] + k[j + 1..]) + multiset{k[j]}
  {
    assert k == k[..j] + ([k[j]] + k[j + 1..]);
  }

  lemma Cancel(a: multiset<int>, b: multiset<int>, p: int)
    requires a + multiset{p} == b + multiset{p}
    ensures a == b
  {
    assert a == a + multiset{p} - multiset{p} && b == b + multiset{p} - multiset{p};
  }

  /** Taking p out of k leaves a listing like that of l without its last. */
  lemma Without(l: seq<int>, k: seq<int>) returns (j: nat)
    requires l != [] && multiset(l) == multiset(k)
    ensures j < |k| && k[j] == l[|l| - 1] && k == k[..j] + ([k[j]] + k[j + 1..])
    ensures multiset(k[..j] + k[j + 1..]) == multiset(l[..|l| - 1])
  {
    var p, init := l[|l| - 1], l[..|l| - 1];
    assert l == init + [p];
    assert p in multiset(k);
    j :| 0 <= j < |k| && k[j] == p;
    Remove(k, j);
    Cancel(multiset(k[..j] + k[j + 1..]), multiset(init), p);
  }

  lemma AlongRemoved(m: map<int, real>, k: seq<int>, j: nat)
    requires j < |k| && forall i :: 0 <= i < |k| ==> k[i] in m
    ensures var rest := k[..j] + k[j + 1..];
            && (forall i :: 0 <= i < |rest| ==> rest[i] in m)
            && multiset(Along(m, k)) == multiset(Along(m, rest)) + multiset{m[k[j]]}
  {
    var rest := k[..j] + k[j + 1..];
    assert k == k[..j] + ([k[j]] + k[j + 1..]);
    AlongAppend(m, k[..j], [k[j]] + k[j + 1..]);
    AlongAppend(m, [k[j]], k[j + 1..]);
    AlongAppend(m, k[..j], k[j + 1..]);
    assert Along(m, [k[j]]) == [m[k[j]]];
  }

  lemma {:induction false} AlongCopies(m: map<int, real>, l: seq<int>, k: seq<int>)
    requires (forall i :: 0 <= i < |l| ==> l[i] in m) && (forall i :: 0 <= i < |k| ==> k[i] in m)
            && multiset(l) == multiset(k)
    ensures multiset(Along(m, l)) == multiset(Along(m, k))
    decreases |l|
  {
    hide Along;
    assert |multiset(l)| == |l| && |multiset(k)| == |k|;
    if l != [] {
      var j := Without(l, k);
      AlongRemoved(m, k, j);
      AlongRemoved(m, l, |l| - 1);
      assert l[..|l| - 1] + l[|l|..] == l[..|l| - 1];
      AlongCopies(m, l[..|l| - 1], k[..j] + k[j + 1..]);
    }
  }

  lemma ListedHasAll(m: map<int, real>)
    requires m != map[]
    ensures Listed(m.Keys) != [] && forall i :: 0 <= i < |Listed(m.Keys)| ==> Listed(m.Keys)[i] in m
  {
    var l := Listed(m.Keys);
    ListedLists(m.Keys);
    assert m.Keys != {};
    forall i | 0 <= i < |l| ensures l[i] in m { assert l[i] in l; }
  }

  /** The reference: the median of the medians, in whatever order they are listed. */
  ghost function Reference(m: map<int, real>): real
    requires m != map[]
  {
    ListedHasAll(m);
    Median(Along(m, Listed(m.Keys)))
  }

  lemma MedianAgrees(v: seq<real>, w: seq<real>)
    requires v != [] && multiset(v) == multiset(w)
    ensures w != [] && Median(v) == Median(w)
  {
    assert |multiset(v)| == |v| && |multiset(w)| == |w|;
    SortPermutation(v, w, RealLe);
  }

  lemma ReferenceAgrees(m: map<int, real>, l: seq<int>)
    requires Lists(l, m.Keys) && m != map[]
    ensures l != [] && (forall i :: 0 <= i < |l| ==> l[i] in m) && Median(Along(m, l)) == Reference(m)
  {
    ListedLists(m.Keys);
    ListsAgree(l, Listed(m.Keys), m.Keys);
    ListedHasAll(m);
    assert forall i :: 0 <= i < |l| ==> l[i] in l;
    AlongCopies(m, l, Listed(m.Keys));
    MedianAgrees(Along(m, l), Along(m, Listed(m.Keys)));
  }

  predicate IsFast(median: real, ref: real) { median < ref * RATIO && ref - median > MIN_GAP_MS }

  /** The ports that connect in a fraction of the time the others need. */
  ghost function Fast(attempts: seq<Attempt>): set<int> {
    var m := Medians(attempts);
    if |m| < MIN_PORTS || Reference(m) < MIN_REF_MS then {}
    else set p | p in m && IsFast(m[p], Reference(m))
  }

  // ---- the verdicts ----

  predicate Proxied(vs: seq<Verdict>, s: string) {
    exists i :: 0 <= i < |vs| && vs[i].kind == "transparent_proxy_suspected" && vs[i].subject == s
  }

  function Terminated(attempts: seq<Attempt>, vs: seq<Verdict>, port: int): Verdict {
    var s := PortText("tcp", port);
    Verdict("synack_local_termination_suspected", s, if Suspected(attempts, port)
        || Proxied(vs, s) then Medium else Low, [])
  }

  function Spoofed(port: int): Verdict { Verdict("synack_spoof_signal", PortText("tcp", port), Low, []) }

  function TerminatedAll(attempts: seq<Attempt>, vs: seq<Verdict>, ports: seq<int>): seq<Verdict> {
    seq(|ports|, i requires 0 <= i < |ports| => Terminated(attempts, vs, ports[i]))
  }

  function SpoofedAll(ports: seq<int>): seq<Verdict> { seq(|ports|, i requires 0 <= i < |ports| => Spoofed(ports[i])) }

  ghost function SynAcks(x: Ctx, vs: seq<Verdict>): seq<Verdict> {
    var fast := Fast(x.attempts);
    TerminatedAll(x.attempts, vs, Ascending(fast)) + SpoofedAll(Ascending(Suspects(x.attempts) - fast))
  }

  lemma ProxiedAlike(vs: seq<Verdict>, ws: seq<Verdict>, s: string)
    requires SameSubjects(vs, ws)
    ensures Proxied(vs, s) == Proxied(ws, s)
  {
    hide SameSubjects;
    forall i | 0 <= i < |vs| ensures vs[i] in ws { SameMembersOf(vs, ws, vs[i]); }
    forall i | 0 <= i < |ws| ensures ws[i] in vs { SameMembersOf(vs, ws, ws[i]); }
  }

  /** Rule 8 says the same on lists that agree on every subject. */
  lemma SynAcksAlike(x: Ctx, vs: seq<Verdict>, ws: seq<Verdict>)
    requires SameSubjects(vs, ws)
    ensures SynAcks(x, vs) == SynAcks(x, ws)
  {
    hide SameSubjects, Proxied, Suspected, PortText, Ascending, Fast;
    var ports := Ascending(Fast(x.attempts));
    forall i | 0 <= i < |ports| ensures Terminated(x.attempts, vs, ports[i]) == Terminated(x.attempts, ws, ports[i]) {
      ProxiedAlike(vs, ws, PortText("tcp", ports[i]));
    }
    assert TerminatedAll(x.attempts, vs, ports) == TerminatedAll(x.attempts, ws, ports);
  }

  lemma PortTextDiffers(p: int, q: int)
    ensures PortText("tcp", p) == PortText("tcp", q) <==> p == q
  {
    if PortText("tcp", p) == PortText("tcp", q) {
      JoinInjective("tcp", Itoa(p), "tcp", Itoa(q), '/');
      ItoaRoundTrip(p);
      ItoaRoundTrip(q);
    }
  }

  lemma {:induction false} SpoofedBySubject(ports: seq<int>, s: string)
    requires forall i, j :: 0 <= i < j < |ports| ==> ports[i] != ports[j]
    ensures forall p :: p in ports && PortText("tcp", p) == s ==> BySubject(SpoofedAll(ports), s) == [Spoofed(p)]
    ensures (forall p :: p in ports ==> PortText("tcp", p) != s) ==> BySubject(SpoofedAll(ports), s) == []
  {
    hide PortText;
    if ports != [] {
      var init, last := ports[..|ports| - 1], ports[|ports| - 1];
      SpoofedBySubject(init, s);
      assert SpoofedAll(ports)[..|ports| - 1] == SpoofedAll(init);
      forall p | p in ports && PortText("tcp", p) == s ensures BySubject(SpoofedAll(ports), s) == [Spoofed(p)] {
        PortTextDiffers(p, last);
        if p == last {
          forall q | q in init ensures PortText("tcp", q) != s { PortTextDiffers(p, q); }
        }
      }
    }
  }

  /** One verdict per port: in which order the ports are walked does not show. */
  lemma SpoofedAlike(l: seq<int>, k: seq<int>, s: set<int>)
    requires Lists(l, s) && Lists(k, s)
    ensures SameSubjects(SpoofedAll(l), SpoofedAll(k))
  {
    hide PortText;
    forall t ensures BySubject(SpoofedAll(l), t) == BySubject(SpoofedAll(k), t) {
      SpoofedBySubject(l, t);
      SpoofedBySubject(k, t);
    }
  }
}
