/** Outages (internal/classify/transient.go): attempts that failed because the
    host, or the whole path, was gone for a moment. They are marked in place and
    left out of the cells. Notes keep what they count, not their wording. */
module Outages {
  import opened Base
  import opened Evidence
  import opened Sorting
  import opened Cells

  const SPAN: int := 20 * SECOND
  const MIN_FAILURES: nat := 6
  const MIN_PORTS: nat := 3
  const LOCAL_MIN: nat := 2
  const LOCAL_GAP: int := 20 * SECOND
  const LOCAL_LEAD: int := 10 * SECOND

  predicate Started(a: Attempt) { a.startedAt != 0 }

  function MarkOne(a: Attempt): Attempt { a.(detail := a.detail[Transient := "true"]) }

  /** The attempts with those at the given positions marked. */
  function Mark(attempts: seq<Attempt>, which: set<nat>): (r: seq<Attempt>)
    ensures |r| == |attempts|
    ensures forall i :: 0 <= i < |attempts| ==> r[i] == if i in which then MarkOne(attempts[i]) else attempts[i]
  {
    seq(|attempts|, i requires 0 <= i < |attempts| => if i in which then MarkOne(attempts[i]) else attempts[i])
  }

  /** Equal up to marks. */
  predicate SameButMarks(scan: seq<Attempt>, bs: seq<Attempt>) {
    |scan| == |bs| && forall i :: 0 <= i < |scan| ==> MarkOne(scan[i]) == MarkOne(bs[i])
  }

  lemma MarkedAlike(attempts: seq<Attempt>, which: set<nat>)
    ensures SameButMarks(attempts, Mark(attempts, which))
  {
    forall i | 0 <= i < |attempts| ensures MarkOne(attempts[i]) == MarkOne(Mark(attempts, which)[i]) {
      assert MarkOne(MarkOne(attempts[i])) == MarkOne(attempts[i]);
    }
  }

  /** The earliest start of a scan, 0 when no attempt has one. */
  function FirstStart(attempts: seq<Attempt>): nat {
    if attempts == [] then 0
    else
      var a, t := attempts[|attempts| - 1], FirstStart(attempts[..|attempts| - 1]);
      if Started(a) && (t == 0 || a.startedAt < t) then a.startedAt else t
  }

  // ---- outages of the path ----

  /** A failure that may belong to an outage: in a cell that passes otherwise. */
  datatype Candidate = Candidate(i: nat, start: nat, transport: string, port: int, test: string, round: int)

  predicate Passing(attempts: seq<Attempt>, k: CellKey) {
    var c := CellOf(attempts, k);
    c.Some? && Pass(c.value)
  }

  predicate MayBe(a: Attempt) {
    a.merged != "ok" && a.outcome != OK && a.outcome != INCONCLUSIVE && a.outcome != SERVER_ERROR && Started(a)
  }

  predicate IsCandidate(attempts: seq<Attempt>, local: set<nat>, i: nat)
    requires i < |attempts|
  {
    MayBe(attempts[i]) && i !in local && Passing(attempts, KeyOf(attempts[i]))
  }

  function CandidateAt(attempts: seq<Attempt>, i: nat): Candidate
    requires i < |attempts|
  {
    var a := attempts[i];
    Candidate(i, a.startedAt, a.transport, a.dstPort, a.testID, a.round)
  }

  function Candidates(attempts: seq<Attempt>, local: set<nat>, n: nat): seq<Candidate>
    requires n <= |attempts|
  {
    if n == 0 then []
    else
      var cs := Candidates(attempts, local, n - 1);
      if IsCandidate(attempts, local, n - 1) then cs + [CandidateAt(attempts, n - 1)] else cs
  }

  predicate StartLe(a: Candidate, b: Candidate) { a.start <= b.start }

  function Queue(attempts: seq<Attempt>, local: set<nat>): seq<Candidate> {
    StableSort(Candidates(attempts, local, |attempts|), StartLe)
  }

  function Ports(cs: seq<Candidate>): set<(string, int)> { set k | 0 <= k < |cs| :: (cs[k].transport, cs[k].port) }

  /** The end (exclusive) of the widest window that starts at i. */
  function Reach(cs: seq<Candidate>, i: nat, j: nat): (e: nat)
    requires i < j <= |cs|
    ensures j <= e <= |cs|
    ensures forall k :: j <= k < e ==> cs[k].start - cs[i].start <= SPAN
    ensures e < |cs| ==> cs[e].start - cs[i].start > SPAN
    decreases |cs| - j
  {
    if j < |cs| && cs[j].start - cs[i].start <= SPAN then Reach(cs, i, j + 1) else j
  }

  predicate Enough(win: seq<Candidate>) { |win| >= MIN_FAILURES && |Ports(win)| >= MIN_PORTS }

  /** The windows of an outage, as half-open ranges of the queue. */
  function Windows(cs: seq<Candidate>, i: nat): seq<(nat, nat)>
    requires i <= |cs|
    decreases |cs| - i
  {
    if i == |cs| then []
    else
      var e := Reach(cs, i, i + 1);
      if Enough(cs[i..e]) then [(i, e)] + Windows(cs, e) else Windows(cs, i + 1)
  }

  function Members(cs: seq<Candidate>): set<nat> { set k | 0 <= k < |cs| :: cs[k].i }

  function Flagged(cs: seq<Candidate>, ws: seq<(nat, nat)>): set<nat> {
    set w, k | 0 <= w < |ws| && ws[w].0 <= k < ws[w].1 && k < |cs| :: cs[k].i
  }

  /** What is said about a window: how many failures, on which ports, of which
      tests and rounds, and when it began and ended. */
  datatype Outage = Outage(failures: nat, ports: set<(string, int)>, tests: set<string>, rounds: set<int>, from: int,
      to: int)

  function NoteOf(win: seq<Candidate>, t0: int): Outage
    requires win != []
  {
    Outage(|win|, Ports(win), set k | 0 <= k < |win| :: win[k].test, set k | 0 <= k < |win| :: win[k].round,
         win[0].start - t0, win[|win| - 1].start - t0)
  }

  predicate InRange(cs: seq<Candidate>, ws: seq<(nat, nat)>) {
    forall w :: 0 <= w < |ws| ==> ws[w].0 < ws[w].1 <= |cs|
  }

  function Notes(cs: seq<Candidate>, ws: seq<(nat, nat)>, t0: int): (ns: seq<Outage>)
    requires InRange(cs, ws)
    ensures |ns| == |ws|
  {
    seq(|ws|, w requires 0 <= w < |ws| => NoteOf(cs[ws[w].0..ws[w].1], t0))
  }

  // ---- windows are exact ----

  /** The widest window that starts at k has enough failures on enough ports. */
  predicate Starts(cs: seq<Candidate>, k: nat)
    requires k < |cs|
  {
    Enough(cs[k..Reach(cs, k, k + 1)])
  }

  /** A window as wide as 20 s allow, from i on, with enough in it. */
  predicate Good(cs: seq<Candidate>, i: nat, w: (nat, nat)) {
    i <= w.0 < w.1 <= |cs| && w.1 == Reach(cs, w.0, w.0 + 1) && Starts(cs, w.0)
  }

  predicate Covers(ws: seq<(nat, nat)>, k: nat) { exists w :: 0 <= w < |ws| && ws[w].0 <= k < ws[w].1 }

  /** Good windows in order and without overlap; and whatever candidate is in none
      of them starts a window that misses one of the thresholds. */
  predicate Exact(cs: seq<Candidate>, i: nat, ws: seq<(nat, nat)>) {
    && (forall w :: 0 <= w < |ws| ==> Good(cs, i, ws[w]))
    && (forall v, w :: 0 <= v < w < |ws| ==> ws[v].1 <= ws[w].0)
    && (forall k :: i <= k < |cs| ==> Covers(ws, k) || !Starts(cs, k))
  }

  lemma {:induction false} WindowsExact(cs: seq<Candidate>, i: nat)
    requires i <= |cs|
    ensures Exact(cs, i, Windows(cs, i))
    decreases |cs| - i
  {
    hide Exact, Enough, Reach;
    if i == |cs| {
      ExactNone(cs);
    } else {
      var e := Reach(cs, i, i + 1);
      if Starts(cs, i) {
        WindowsExact(cs, e);
        ExactMore(cs, i, e, Windows(cs, e));
      } else {
        WindowsExact(cs, i + 1);
        ExactSkip(cs, i, Windows(cs, i + 1));
      }
    }
  }

  lemma ExactNone(cs: seq<Candidate>)
    ensures Exact(cs, |cs|, [])
  {
  }

  lemma ExactSkip(cs: seq<Candidate>, i: nat, ws: seq<(nat, nat)>)
    requires i < |cs| && !Starts(cs, i) && Exact(cs, i + 1, ws)
    ensures Exact(cs, i, ws)
  {
    hide Starts, Reach;
  }

  lemma CoversMore(first: (nat, nat), ws: seq<(nat, nat)>, k: nat)
    requires Covers(ws, k) || first.0 <= k < first.1
    ensures Covers([first] + ws, k)
  {
    var more := [first] + ws;
    if Covers(ws, k) {
      var w :| 0 <= w < |ws| && ws[w].0 <= k < ws[w].1;
      assert more[w + 1] == ws[w];
    } else {
      assert more[0].0 <= k < more[0].1;
    }
  }

  lemma GoodFromEarlier(cs: seq<Candidate>, i: nat, e: nat, w: (nat, nat))
    requires i <= e && Good(cs, e, w)
    ensures Good(cs, i, w) && e <= w.0
  {
  }

  lemma GoodFirst(cs: seq<Candidate>, i: nat)
    requires i < |cs| && Starts(cs, i)
    ensures Good(cs, i, (i, Reach(cs, i, i + 1)))
  {
  }

  lemma {:induction false} ExactMore(cs: seq<Candidate>, i: nat, e: nat, ws: seq<(nat, nat)>)
    requires i < |cs| && e == Reach(cs, i, i + 1) && Starts(cs, i) && Exact(cs, e, ws)
    ensures Exact(cs, i, [(i, e)] + ws)
  {
    hide Starts, Reach, Good, Covers;
    var more := [(i, e)] + ws;
    GoodFirst(cs, i);
    forall w | 0 <= w < |ws| ensures Good(cs, i, ws[w]) && e <= ws[w].0 { GoodFromEarlier(cs, i, e, ws[w]); }
    forall w | 0 <= w < |more| ensures Good(cs, i, more[w]) {
      if w > 0 { assert more[w] == ws[w - 1]; }
    }
    forall v, w | 0 <= v < w < |more| ensures more[v].1 <= more[w].0 {
      assert more[w] == ws[w - 1] && (v > 0 ==> more[v] == ws[v - 1]);
    }
    forall k | i <= k < |cs| ensures Covers(more, k) || !Starts(cs, k) {
      if k < e || Covers(ws, k) { CoversMore((i, e), ws, k); }
    }
  }

  lemma WindowsInRange(cs: seq<Candidate>)
    ensures InRange(cs, Windows(cs, 0))
  {
    hide Windows, Starts, Reach;
    WindowsExact(cs, 0);
    var ws := Windows(cs, 0);
    forall w | 0 <= w < |ws| ensures ws[w].0 < ws[w].1 <= |cs| { assert Good(cs, 0, ws[w]); }
  }

  // ---- marking does not change what is marked ----

  function Oks(attempts: seq<Attempt>, k: CellKey): nat {
    if attempts == [] then 0
    else
      var a := attempts[|attempts| - 1];
      Oks(attempts[..|attempts| - 1], k) + if Counts(a, k) && !Unmeasured(a) && a.outcome == OK then 1 else 0
  }

  function Tries(attempts: seq<Attempt>, k: CellKey): nat {
    if attempts == [] then 0
    else
      var a := attempts[|attempts| - 1];
      Tries(attempts[..|attempts| - 1], k) + if Counts(a, k) && !Unmeasured(a) then 1 else 0
  }

  /** A cell passes when more than half of the tries that count were fine. */
  lemma {:induction false} PassingIsMajority(attempts: seq<Attempt>, k: CellKey)
    ensures match CellOf(attempts, k)
            case None => Oks(attempts, k) == 0 && Tries(attempts, k) == 0
            case Some(c) => c.ok == Oks(attempts, k) && Measured(c) == Tries(attempts, k)
    ensures Passing(attempts, k) <==> Oks(attempts, k) * 2 > Tries(attempts, k)
  {
    hide Unmeasured, LeftOut;
    if attempts != [] {
      PassingIsMajority(attempts[..|attempts| - 1], k);
    }
  }

  lemma MarkOneKeeps(a: Attempt)
    ensures var b := MarkOne(a);
            && KeyOf(b) == KeyOf(a) && Unmeasured(b) == Unmeasured(a) && MayBe(b) == MayBe(a) && LeftOut(b)
                && b.outcome == a.outcome
            && b.startedAt == a.startedAt && LocalFailure(b) == LocalFailure(a)
                && Get(b.detail, Cancelled) == Get(a.detail, Cancelled)
  {
    hide HostWords;
    var b := MarkOne(a);
    assert Get(b.detail, LocalError) == Get(a.detail, LocalError)
        && Get(b.detail, SystemError) == Get(a.detail, SystemError);
  }

  lemma {:induction false} MarkedCounts(attempts: seq<Attempt>, which: set<nat>, k: CellKey)
    requires forall i :: i in which && i < |attempts| ==> attempts[i].outcome != OK
    ensures Oks(Mark(attempts, which), k) == Oks(attempts, k) <= Tries(Mark(attempts, which), k) <= Tries(attempts, k)
    ensures (forall i :: i in which && i < |attempts| ==> KeyOf(attempts[i]) != k)
            ==> Tries(Mark(attempts, which), k) == Tries(attempts, k)
  {
    hide Unmeasured, LeftOut, MayBe;
    if attempts != [] {
      var n := |attempts| - 1;
      MarkedCounts(attempts[..n], which, k);
      assert Mark(attempts, which)[..n] == Mark(attempts[..n], which);
      MarkOneKeeps(attempts[n]);
    }
  }

  /** Leaving failures out of passing cells leaves every cell as it was: passing or not. */
  lemma MarkedPasses(attempts: seq<Attempt>, which: set<nat>, k: CellKey)
    requires forall i :: i in which && i < |attempts| ==>
              attempts[i].outcome != OK
              && Passing(attempts, KeyOf(attempts[i]))
    ensures Passing(Mark(attempts, which), k) == Passing(attempts, k)
  {
    hide Passing;
    PassingIsMajority(attempts, k);
    PassingIsMajority(Mark(attempts, which), k);
    MarkedCounts(attempts, which, k);
  }

  lemma {:induction false} CandidatesMarked(attempts: seq<Attempt>, which: set<nat>, local: set<nat>, n: nat)
    requires n <= |attempts|
    requires forall i :: i in which && i < |attempts| ==>
              attempts[i].outcome != OK
              && Passing(attempts, KeyOf(attempts[i]))
    ensures Candidates(Mark(attempts, which), local, n) == Candidates(attempts, local, n)
  {
    hide Passing, MayBe;
    if n > 0 {
      CandidatesMarked(attempts, which, local, n - 1);
      MarkedPasses(attempts, which, KeyOf(attempts[n - 1]));
      MarkOneKeeps(attempts[n - 1]);
    }
  }

  lemma {:induction false} CandidatesAre(attempts: seq<Attempt>, local: set<nat>, n: nat)
    requires n <= |attempts|
    ensures forall c :: c in Candidates(attempts, local, n) ==>
              c.i < n && IsCandidate(attempts, local, c.i) && c == CandidateAt(attempts, c.i)
    ensures forall i ::
              0 <= i < n && IsCandidate(attempts, local, i)
              ==> CandidateAt(attempts, i) in Candidates(attempts, local, n)
  {
    hide IsCandidate;
    if n > 0 { CandidatesAre(attempts, local, n - 1); }
  }

  lemma QueueAre(attempts: seq<Attempt>, local: set<nat>, k: nat)
    requires k < |Queue(attempts, local)|
    ensures var c := Queue(attempts, local)[k];
            c.i < |attempts| && IsCandidate(attempts, local, c.i) && c == CandidateAt(attempts, c.i)
  {
    hide IsCandidate;
    var cs := Candidates(attempts, local, |attempts|);
    CandidatesAre(attempts, local, |attempts|);
    SortContents(cs, StartLe);
    assert Queue(attempts, local)[k] in multiset(Queue(attempts, local));
  }

  // ---- what the rule marks ----

  function Suspects(attempts: seq<Attempt>, local: set<nat>): set<nat> {
    Flagged(Queue(attempts, local), Windows(Queue(attempts, local), 0))
  }

  /** The candidate of position i stands in a window of the queue that is narrow and full enough. */
  ghost predicate InWindow(q: seq<Candidate>, w: (nat, nat), i: nat) {
    && w.0 < w.1 <= |q| && Enough(q[w.0..w.1])
    && (forall k :: w.0 <= k < w.1 ==> q[k].start - q[w.0].start <= SPAN)
    && exists k :: w.0 <= k < w.1 && q[k].i == i
  }

  lemma GoodIsNarrow(q: seq<Candidate>, w: (nat, nat))
    requires Good(q, 0, w)
    ensures w.0 < w.1 <= |q| && Enough(q[w.0..w.1]) && forall k :: w.0 <= k < w.1 ==> q[k].start - q[w.0].start <= SPAN
  {
    hide Enough;
  }

  /** Every attempt the rule marks failed in a passing cell, and within a window of
      at least six such failures on at least three ports in twenty seconds. */
  lemma MarkedForCause(attempts: seq<Attempt>, local: set<nat>, i: nat)
    requires i in Suspects(attempts, local)
    ensures i < |attempts| && IsCandidate(attempts, local, i)
    ensures exists w :: InWindow(Queue(attempts, local), w, i)
  {
    hide IsCandidate, Windows, Enough, Queue, Good;
    var q := Queue(attempts, local);
    var ws := Windows(q, 0);
    WindowsExact(q, 0);
    var w, k :| 0 <= w < |ws| && ws[w].0 <= k < ws[w].1 && k < |q| && q[k].i == i;
    QueueAre(attempts, local, k);
    GoodIsNarrow(q, ws[w]);
    assert InWindow(q, ws[w], i);
  }

  /** Every candidate the rule leaves alone starts a window that misses one of the thresholds. */
  lemma LeftForCause(attempts: seq<Attempt>, local: set<nat>, k: nat)
    requires k < |Queue(attempts, local)| && Queue(attempts, local)[k].i !in Suspects(attempts, local)
    ensures !Starts(Queue(attempts, local), k)
  {
    hide Windows, Starts, Queue, Good;
    WindowsExact(Queue(attempts, local), 0);
  }

  /** Marking and looking again finds the same suspects, for the same reasons. */
  lemma SuspectsAgain(attempts: seq<Attempt>, local: set<nat>)
    ensures Queue(Mark(attempts, Suspects(attempts, local)), local) == Queue(attempts, local)
  {
    hide IsCandidate, Windows, Passing;
    var which := Suspects(attempts, local);
    forall i | i in which && i < |attempts| ensures attempts[i].outcome != OK && Passing(attempts, KeyOf(attempts[i])) {
      MarkedForCause(attempts, local, i);
      CandidateFails(attempts, local, i);
    }
    CandidatesMarked(attempts, which, local, |attempts|);
  }

  lemma CandidateFails(attempts: seq<Attempt>, local: set<nat>, i: nat)
    requires i < |attempts| && IsCandidate(attempts, local, i)
    ensures attempts[i].outcome != OK && Passing(attempts, KeyOf(attempts[i]))
  {
  }
}
