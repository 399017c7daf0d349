/** Which attempts an outage of the path takes out (internal/classify/transient.go,
    flagTransient), told from the attempts: by how many failures of passing cells
    fall into twenty seconds, and on how many ports. */
module PathRuns {
  import opened Base
  import opened Evidence
  import opened Sorting
  import opened Listing
  import opened Cells
  import opened CellCounts
  import opened Outages

  const TWENTY_SECONDS: int := 20_000_000_000

  /** A dated failure in a cell most of whose measured attempts passed, which no outage
      of the host explains. */
  predicate Loses(attempts: seq<Attempt>, local: set<nat>, i: nat) {
    && i < |attempts| && i !in local && attempts[i].startedAt != 0
    && attempts[i].outcome !in {OK, INCONCLUSIVE, SERVER_ERROR} && attempts[i].merged != "ok"
    && 2 * Passed(attempts, KeyOf(attempts[i])) > All(attempts, KeyOf(attempts[i])) - Void(attempts, KeyOf(attempts[i]))
    && All(attempts, KeyOf(attempts[i])) > Void(attempts, KeyOf(attempts[i]))
  }

  /** The failures of the twenty seconds from t on, and their ports. */
  function Lost(attempts: seq<Attempt>, local: set<nat>, t: int): set<nat> {
    set i: nat | i < |attempts| && Loses(attempts, local, i) && t <= attempts[i].startedAt <= t + TWENTY_SECONDS
  }

  function LostOn(attempts: seq<Attempt>, local: set<nat>, t: int): set<(string, int)> {
    set i | i in Lost(attempts, local, t) :: (attempts[i].transport, attempts[i].dstPort)
  }

  /** Six failures or more, on three ports or more. */
  predicate Full(attempts: seq<Attempt>, local: set<nat>, t: int) {
    |Lost(attempts, local, t)| >= 6 && |LostOn(attempts, local, t)| >= 3
  }

  /** A failure starts at t. */
  ghost predicate LosesAt(attempts: seq<Attempt>, local: set<nat>, t: nat) {
    exists i: nat :: i < |attempts| && Loses(attempts, local, i) && attempts[i].startedAt == t
  }

  /** An outage begins at t: a failure starts then, the twenty seconds from there are full,
      and no outage that began before still runs. */
  ghost predicate Begins(attempts: seq<Attempt>, local: set<nat>, t: nat)
    decreases t
  {
    && LosesAt(attempts, local, t) && Full(attempts, local, t)
    && forall u: nat :: u < t && t <= u + TWENTY_SECONDS ==> !Begins(attempts, local, u)
  }

  lemma LosesIs(attempts: seq<Attempt>, local: set<nat>, i: nat)
    requires i < |attempts|
    ensures Loses(attempts, local, i) <==> IsCandidate(attempts, local, i)
  {
    hide All, Void, CellCounts.Passed, CellOf, In;
    var k := KeyOf(attempts[i]);
    CellIff(attempts, k);
    if CellOf(attempts, k).Some? {
      CellTells(attempts, k);
    } else {
      NoneIn(attempts, k);
    }
  }

  lemma NoneIn(attempts: seq<Attempt>, k: CellKey)
    requires forall i :: 0 <= i < |attempts| ==> !In(attempts[i], k)
    ensures All(attempts, k) == 0
  {
    hide In;
    assert Those(attempts, a => In(a, k)) == {};
  }

  // ---- the queue ----

  /** q lists the failures, each once, in the order of their starts. */
  ghost predicate Lists(attempts: seq<Attempt>, local: set<nat>, q: seq<Candidate>) {
    && (forall k :: 0 <= k < |q| ==> Loses(attempts, local, q[k].i) && q[k] == CandidateAt(attempts, q[k].i))
    && (forall i: nat :: Loses(attempts, local, i) ==> exists k :: 0 <= k < |q| && q[k].i == i)
    && (forall j, k :: 0 <= j < k < |q| ==> q[j].start <= q[k].start && q[j].i != q[k].i)
  }

  ghost predicate Ascend(cs: seq<Candidate>, n: nat) {
    && (forall k :: 0 <= k < |cs| ==> cs[k].i < n)
    && (forall j, k :: 0 <= j < k < |cs| ==> cs[j].i < cs[k].i)
  }

  lemma {:induction false} CandidatesOnce(attempts: seq<Attempt>, local: set<nat>, n: nat)
    requires n <= |attempts|
    ensures Ascend(Candidates(attempts, local, n), n)
  {
    hide IsCandidate;
    if n > 0 { CandidatesOnce(attempts, local, n - 1); }
  }

  lemma Twice<T>(s: seq<T>, j: nat, k: nat)
    requires j < k < |s| && s[j] == s[k]
    ensures multiset(s)[s[j]] >= 2
  {
    assert s == s[..k] + [s[k]] + s[k + 1..];
    assert s[..k][j] == s[j];
    assert s[j] in multiset(s[..k]);
  }

  lemma SortedOnce(cs: seq<Candidate>)
    requires exists n :: Ascend(cs, n)
    ensures var q := StableSort(cs, StartLe);
            && (forall c :: c in q <==> c in cs)
            && (forall j, k :: 0 <= j < k < |q| ==> q[j].start <= q[k].start && q[j] != q[k])
  {
    var q := StableSort(cs, StartLe);
    SortContents(cs, StartLe);
    SortSorted(cs, StartLe);
    forall c ensures c in q <==> c in cs { assert c in multiset(q) <==> c in multiset(cs); }
    forall j, k | 0 <= j < k < |q| ensures q[j].start <= q[k].start && q[j] != q[k] {
      assert StartLe(q[j], q[k]);
      if q[j] == q[k] {
        Twice(q, j, k);
        assert forall i, l :: 0 <= i < l < |cs| ==> cs[i] != cs[l] by {
          forall i, l | 0 <= i < l < |cs| ensures cs[i] != cs[l] { assert cs[i].i < cs[l].i; }
        }
        ListsOnce(cs, q[j]);
      }
    }
  }

  lemma QueueLists(attempts: seq<Attempt>, local: set<nat>)
    ensures Lists(attempts, local, Queue(attempts, local))
  {
    hide Loses, IsCandidate, StableSort;
    var cs, q := Candidates(attempts, local, |attempts|), Queue(attempts, local);
    CandidatesOnce(attempts, local, |attempts|);
    CandidatesAre(attempts, local, |attempts|);
    SortedOnce(cs);
    forall k | 0 <= k < |q| ensures Loses(attempts, local, q[k].i) && q[k] == CandidateAt(attempts, q[k].i) {
      assert q[k] in q;
      assert q[k] in cs;
      LosesIs(attempts, local, q[k].i);
    }
    forall i: nat | Loses(attempts, local, i) ensures exists k :: 0 <= k < |q| && q[k].i == i {
      LosesInside(attempts, local, i);
      LosesIs(attempts, local, i);
      assert CandidateAt(attempts, i) in q;
      var k :| 0 <= k < |q| && q[k] == CandidateAt(attempts, i);
    }
  }

  lemma LosesInside(attempts: seq<Attempt>, local: set<nat>, i: nat)
    requires Loses(attempts, local, i)
    ensures i < |attempts|
  {
  }

  // ---- what the window of a start holds ----

  /** The candidates from k to e are those of the twenty seconds from the start of k on. */
  ghost predicate Holds(q: seq<Candidate>, k: nat, e: nat) {
    && k < e <= |q|
    && forall m :: 0 <= m < |q| ==> (k <= m < e <==> q[k].start <= q[m].start <= q[k].start + TWENTY_SECONDS)
  }

  /** No candidate before k has its start. */
  ghost predicate Leads(q: seq<Candidate>, k: nat) { k < |q| && forall j :: 0 <= j < k ==> q[j].start < q[k].start }

  lemma ReachHolds(attempts: seq<Attempt>, local: set<nat>, q: seq<Candidate>, k: nat)
    requires Lists(attempts, local, q) && Leads(q, k)
    ensures Holds(q, k, Reach(q, k, k + 1))
  {
    hide Loses;
  }

  lemma HoldsMembers(attempts: seq<Attempt>, local: set<nat>, q: seq<Candidate>, k: nat, e: nat)
    requires Lists(attempts, local, q) && Holds(q, k, e)
    ensures Members(q[k..e]) == Lost(attempts, local, q[k].start)
  {
    hide Loses;
    var win, t := q[k..e], q[k].start;
    forall i | i in Lost(attempts, local, t) ensures i in Members(win) {
      var m :| 0 <= m < |q| && q[m].i == i;
      assert q[m].start == attempts[i].startedAt;
      assert k <= m < e;
      assert win[m - k] == q[m];
    }
    forall i | i in Members(win) ensures i in Lost(attempts, local, t) {
      var m :| 0 <= m < |win| && win[m].i == i;
      assert q[k + m] == win[m];
      LosesInside(attempts, local, i);
    }
  }

  lemma HoldsPorts(attempts: seq<Attempt>, local: set<nat>, q: seq<Candidate>, win: seq<Candidate>, t: int)
    requires Lists(attempts, local, q) && Members(win) == Lost(attempts, local, t)
    requires forall m :: 0 <= m < |win| ==> win[m] in q
    ensures Outages.Ports(win) == LostOn(attempts, local, t)
  {
    hide Loses, Lost;
    forall m | 0 <= m < |win| ensures win[m].i < |attempts| && win[m] == CandidateAt(attempts, win[m].i) {
      var n :| 0 <= n < |q| && q[n] == win[m];
      LosesInside(attempts, local, q[n].i);
    }
    forall p | p in LostOn(attempts, local, t) ensures p in Outages.Ports(win) {
      var i :| i in Lost(attempts, local, t) && p == (attempts[i].transport, attempts[i].dstPort);
      var m :| 0 <= m < |win| && win[m].i == i;
      assert p == (win[m].transport, win[m].port);
    }
    forall p | p in Outages.Ports(win) ensures p in LostOn(attempts, local, t) {
      var m :| 0 <= m < |win| && p == (win[m].transport, win[m].port);
      assert win[m].i in Lost(attempts, local, t);
    }
  }

  /** As many of them, on as many ports, as failures fall into that time. */
  lemma HoldsAll(attempts: seq<Attempt>, local: set<nat>, q: seq<Candidate>, k: nat, e: nat)
    requires Lists(attempts, local, q) && Holds(q, k, e)
    ensures |q[k..e]| == |Lost(attempts, local, q[k].start)|
    ensures Outages.Ports(q[k..e]) == LostOn(attempts, local, q[k].start)
  {
    hide Loses, Lost, LostOn, Outages.Ports, Members;
    HoldsMembers(attempts, local, q, k, e);
    HoldsPorts(attempts, local, q, q[k..e], q[k].start);
    MembersCount(q[k..e]);
  }

  lemma {:induction false} MembersCount(win: seq<Candidate>)
    requires forall j, k :: 0 <= j < k < |win| ==> win[j].i != win[k].i
    ensures |Members(win)| == |win|
  {
    if win != [] {
      var init, last := win[..|win| - 1], win[|win| - 1];
      MembersCount(init);
      assert Members(win) == Members(init) + {last.i};
      assert last.i !in Members(init);
    }
  }

  lemma StartsIff(attempts: seq<Attempt>, local: set<nat>, q: seq<Candidate>, k: nat)
    requires Lists(attempts, local, q) && Leads(q, k)
    ensures Starts(q, k) <==> Full(attempts, local, q[k].start)
  {
    hide Loses, Reach, Lists, Lost, LostOn, Outages.Ports;
    ReachHolds(attempts, local, q, k);
    HoldsAll(attempts, local, q, k, Reach(q, k, k + 1));
  }

  // ---- the windows are the outages ----

  /** The first candidate with the start of k. */
  lemma Leader(q: seq<Candidate>, k: nat) returns (j: nat)
    requires k < |q| && forall i, j :: 0 <= i < j < |q| ==> q[i].start <= q[j].start
    ensures j <= k && q[j].start == q[k].start && Leads(q, j)
  {
    j := k;
    while j > 0 && q[j - 1].start == q[k].start
      invariant 0 <= j <= k && q[j].start == q[k].start
    {
      j := j - 1;
    }
    if j > 0 {
      forall i | 0 <= i < j ensures q[i].start < q[j].start { assert i == j - 1 || q[i].start <= q[j - 1].start; }
    }
  }

  /** A window begins with the first candidate of its start. */
  lemma WindowLeads(attempts: seq<Attempt>, local: set<nat>, q: seq<Candidate>, ws: seq<(nat, nat)>, w: nat)
    requires Lists(attempts, local, q) && Exact(q, 0, ws) && w < |ws|
    ensures Leads(q, ws[w].0) && Holds(q, ws[w].0, ws[w].1) && Starts(q, ws[w].0)
  {
    hide Loses, Reach, Starts;
    var k := ws[w].0;
    assert Good(q, 0, ws[w]);
    var j := Leader(q, k);
    if j < k {
      StartsEarlier(attempts, local, q, j, k);
      assert Covers(ws, j);
      var v :| 0 <= v < |ws| && ws[v].0 <= j < ws[v].1;
      assert Good(q, 0, ws[v]);
      ReachTies(q, ws[v].0, j, k);
    }
    ReachHolds(attempts, local, q, k);
  }

  /** From an earlier candidate of the same start the window holds no less. */
  lemma StartsEarlier(attempts: seq<Attempt>, local: set<nat>, q: seq<Candidate>, j: nat, k: nat)
    requires Lists(attempts, local, q) && j <= k < |q| && q[j].start == q[k].start && Starts(q, k)
    ensures Starts(q, j)
  {
    hide Loses, Outages.Ports;
    var e, f := Reach(q, k, k + 1), Reach(q, j, j + 1);
    assert e == f by { SameReach(q, j, k); }
    assert q[j..e] == q[j..k] + q[k..e];
    PortsGrow(q[j..k], q[k..e]);
  }

  lemma PortsGrow(a: seq<Candidate>, b: seq<Candidate>)
    ensures |Outages.Ports(b)| <= |Outages.Ports(a + b)|
  {
    forall p | p in Outages.Ports(b) ensures p in Outages.Ports(a + b) {
      var m :| 0 <= m < |b| && p == (b[m].transport, b[m].port);
      assert (a + b)[|a| + m] == b[m];
    }
    Within(Outages.Ports(b), Outages.Ports(a + b));
  }

  lemma {:induction false} Within<T>(a: set<T>, b: set<T>)
    requires a <= b
    ensures |a| <= |b|
  {
    assert b == a + (b - a);
  }

  lemma SameReach(q: seq<Candidate>, j: nat, k: nat)
    requires j <= k < |q| && q[j].start == q[k].start && forall i, j :: 0 <= i < j < |q| ==> q[i].start <= q[j].start
    ensures Reach(q, j, j + 1) == Reach(q, k, k + 1)
  {
    hide Reach;
    var e, f := Reach(q, j, j + 1), Reach(q, k, k + 1);
    ReachTies(q, j, j, k);
    assert e < |q| ==> q[e].start - q[k].start > SPAN;
    assert f < |q| ==> q[f].start - q[j].start > SPAN;
  }

  /** A window that holds a candidate holds the others of its start that follow. */
  lemma ReachTies(q: seq<Candidate>, i: nat, j: nat, k: nat)
    requires i <= j <= k < |q| && q[j].start == q[k].start && j < Reach(q, i, i + 1)
    requires forall i, j :: 0 <= i < j < |q| ==> q[i].start <= q[j].start
    ensures k < Reach(q, i, i + 1)
  {
    var e := Reach(q, i, i + 1);
  }

  /** A window of the walk begins at t. */
  ghost predicate WindowAt(q: seq<Candidate>, ws: seq<(nat, nat)>, t: int) {
    exists w :: 0 <= w < |ws| && ws[w].0 < |q| && q[ws[w].0].start == t
  }

  lemma {:induction false} BeginsIff(attempts: seq<Attempt>, local: set<nat>, q: seq<Candidate>, ws: seq<(nat, nat)>,
      t: nat)
    requires Lists(attempts, local, q) && Exact(q, 0, ws)
    ensures Begins(attempts, local, t) <==> WindowAt(q, ws, t)
    decreases t
  {
    hide Loses, Full, WindowAt, Lists, Exact, LosesAt;
    forall u: nat | u < t ensures Begins(attempts, local, u) <==> WindowAt(q, ws, u) {
      BeginsIff(attempts, local, q, ws, u);
    }
    if Begins(attempts, local, t) { BeginsWindow(attempts, local, q, ws, t); }
    if WindowAt(q, ws, t) { WindowBegins(attempts, local, q, ws, t); }
  }

  lemma BeginsWindow(attempts: seq<Attempt>, local: set<nat>, q: seq<Candidate>, ws: seq<(nat, nat)>, t: nat)
    requires Lists(attempts, local, q) && Exact(q, 0, ws)
    requires LosesAt(attempts, local, t) && Full(attempts, local, t)
    requires forall u: nat :: u < t && t <= u + TWENTY_SECONDS ==> !WindowAt(q, ws, u)
    ensures WindowAt(q, ws, t)
  {
    hide Loses, Full, Starts, Good;
    var i: nat :| i < |attempts| && Loses(attempts, local, i) && attempts[i].startedAt == t;
    var m :| 0 <= m < |q| && q[m].i == i;
    var k := Leader(q, m);
    StartsIff(attempts, local, q, k);
    var w :| 0 <= w < |ws| && ws[w].0 <= k < ws[w].1;
    WindowLeads(attempts, local, q, ws, w);
    var u := q[ws[w].0].start;
    assert u <= t <= u + TWENTY_SECONDS;
    assert WindowAt(q, ws, u);
  }

  lemma WindowBegins(attempts: seq<Attempt>, local: set<nat>, q: seq<Candidate>, ws: seq<(nat, nat)>, t: nat)
    requires Lists(attempts, local, q) && Exact(q, 0, ws) && WindowAt(q, ws, t)
    ensures LosesAt(attempts, local, t) && Full(attempts, local, t)
    ensures forall u: nat :: u < t && t <= u + TWENTY_SECONDS ==> !WindowAt(q, ws, u)
  {
    hide Loses, Full, Starts, Good;
    var w :| 0 <= w < |ws| && ws[w].0 < |q| && q[ws[w].0].start == t;
    WindowLeads(attempts, local, q, ws, w);
    StartsIff(attempts, local, q, ws[w].0);
    var i := q[ws[w].0].i;
    LosesInside(attempts, local, i);
    assert Loses(attempts, local, i) && attempts[i].startedAt == t;
    forall u: nat | u < t && t <= u + TWENTY_SECONDS ensures !WindowAt(q, ws, u) {
      if WindowAt(q, ws, u) {
        var v :| 0 <= v < |ws| && ws[v].0 < |q| && q[ws[v].0].start == u;
        WindowLeads(attempts, local, q, ws, v);
      }
    }
  }

  lemma SuspectAt(attempts: seq<Attempt>, local: set<nat>, q: seq<Candidate>, ws: seq<(nat, nat)>, i: nat)
      returns (t: nat)
    requires Lists(attempts, local, q) && Exact(q, 0, ws) && i in Flagged(q, ws)
    ensures i < |attempts| && Loses(attempts, local, i) && WindowAt(q, ws, t)
    ensures t <= attempts[i].startedAt <= t + TWENTY_SECONDS
  {
    hide Loses, Starts, Good, WindowAt;
    var w, k :| 0 <= w < |ws| && ws[w].0 <= k < ws[w].1 && k < |q| && q[k].i == i;
    WindowLeads(attempts, local, q, ws, w);
    LosesInside(attempts, local, i);
    AtStart(q, ws, w);
    t := q[ws[w].0].start;
  }

  lemma AtSuspect(attempts: seq<Attempt>, local: set<nat>, q: seq<Candidate>, ws: seq<(nat, nat)>, i: nat, t: nat)
    requires Lists(attempts, local, q) && Exact(q, 0, ws) && i < |attempts| && Loses(attempts, local, i)
    requires WindowAt(q, ws, t) && t <= attempts[i].startedAt <= t + TWENTY_SECONDS
    ensures i in Flagged(q, ws)
  {
    hide Loses, Starts, Good, WindowAt;
    var k :| 0 <= k < |q| && q[k].i == i;
    var w := StartAt(q, ws, t);
    WindowLeads(attempts, local, q, ws, w);
    assert q[k].start == attempts[i].startedAt;
    assert ws[w].0 <= k < ws[w].1;
  }

  /** A failure no outage of the host explains, while an outage of the path runs. */
  ghost predicate Caught(attempts: seq<Attempt>, local: set<nat>, i: nat) {
    && i < |attempts| && Loses(attempts, local, i)
    && exists t: nat :: Begins(attempts, local, t) && t <= attempts[i].startedAt <= t + TWENTY_SECONDS
  }

  /** An attempt is marked exactly when it is such a failure. */
  lemma MarkedIff(attempts: seq<Attempt>, local: set<nat>, i: nat)
    ensures i in Suspects(attempts, local) <==> Caught(attempts, local, i)
  {
    hide Loses, Begins, Queue, Windows, WindowAt, Flagged, Lists, Exact;
    var q := Queue(attempts, local);
    var ws := Windows(q, 0);
    QueueLists(attempts, local);
    WindowsExact(q, 0);
    forall t: nat ensures Begins(attempts, local, t) <==> WindowAt(q, ws, t) { BeginsIff(attempts, local, q, ws, t); }
    assert Suspects(attempts, local) == Flagged(q, ws);
    if i in Flagged(q, ws) {
      var t := SuspectAt(attempts, local, q, ws, i);
      assert Begins(attempts, local, t);
    } else if i < |attempts| && Loses(attempts, local, i) {
      forall t: nat | Begins(attempts, local, t) ensures !(t <= attempts[i].startedAt <= t + TWENTY_SECONDS) {
        if t <= attempts[i].startedAt <= t + TWENTY_SECONDS { AtSuspect(attempts, local, q, ws, i, t); }
      }
    }
  }

  lemma AtStart(q: seq<Candidate>, ws: seq<(nat, nat)>, w: nat)
    requires w < |ws| && ws[w].0 < |q|
    ensures WindowAt(q, ws, q[ws[w].0].start)
  {
  }

  lemma StartAt(q: seq<Candidate>, ws: seq<(nat, nat)>, t: int) returns (w: nat)
    requires WindowAt(q, ws, t)
    ensures w < |ws| && ws[w].0 < |q| && q[ws[w].0].start == t
  {
    w :| 0 <= w < |ws| && ws[w].0 < |q| && q[ws[w].0].start == t;
  }
}
