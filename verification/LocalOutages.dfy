/** Outages of the host itself (internal/classify/transient.go), the marking of
    both kinds in place, and that marking an already marked scan marks the same. */
module LocalOutages {
  import opened Base
  import opened Evidence
  import opened Sorting
  import opened Cells
  import opened Outages

  /** Milliseconds as nanoseconds, cut. */
  function Nanos(ms: real): int {
    var ns := ms * 1000000.0;
    if ns < 0.0 then -((-ns).Floor) else ns.Floor
  }

  function StageMs(a: Attempt, s: StageName): real { if s in a.stages then a.stages[s] else 0.0 }

  /** When an attempt was in flight, the reservation included. */
  function SpanOf(a: Attempt): (int, int) {
    (a.startedAt - Nanos(StageMs(a, Reserve)), a.startedAt + Nanos(StageMs(a, Done)))
  }

  datatype Event = Event(from: int, to: int, name: string)

  /** The failure of the host an attempt ended on, dated. */
  function EventOf(a: Attempt): Option<Event> {
    var name := LocalFailure(a);
    if !Started(a) || name == "" || name == NO_ROUTE then None
    else
      var (from, to) := SpanOf(a);
      Some(Event(if to - from > LOCAL_LEAD then to - LOCAL_LEAD else from, to, name))
  }

  function Events(attempts: seq<Attempt>): seq<Event> {
    if attempts == [] then []
    else
      var es, e := Events(attempts[..|attempts| - 1]), EventOf(attempts[|attempts| - 1]);
      if e.Some? then es + [e.value] else es
  }

  predicate FromLe(a: Event, b: Event) { a.from <= b.from }

  /** A window of failures of the host, each within the gap of the end of those before. */
  datatype Window = Window(from: int, to: int, n: nat, names: map<string, nat>)

  function Grow(w: Window, e: Event): Window {
    Window(w.from, Max(w.to, e.to), w.n + 1, w.names[e.name := (if e.name in w.names then w.names[e.name] else 0) + 1])
  }

  predicate Joins(w: Window, e: Event) { e.from <= w.to + LOCAL_GAP }

  /** The window that takes in events from j on, and the first event after it. */
  function Extended(es: seq<Event>, j: nat, w: Window): (r: (Window, nat))
    requires j <= |es|
    ensures j <= r.1 <= |es|
    decreases |es| - j
  {
    if j < |es| && Joins(w, es[j]) then Extended(es, j + 1, Grow(w, es[j])) else (w, j)
  }

  function Single(e: Event): Window { Window(e.from, e.to, 1, map[e.name := 1]) }

  function AllWindows(es: seq<Event>, i: nat): seq<Window>
    requires i <= |es|
    decreases |es| - i
  {
    if i == |es| then []
    else
      var (w, j) := Extended(es, i + 1, Single(es[i]));
      if w.n >= LOCAL_MIN then [w] + AllWindows(es, j) else AllWindows(es, j)
  }

  /** Failed while in flight inside the window. */
  predicate Hit(a: Attempt, w: Window) {
    && Started(a) && a.outcome != OK && Get(a.detail, Cancelled) != "true"
    && !(SpanOf(a).1 < w.from || SpanOf(a).0 > w.to)
  }

  function Hits(attempts: seq<Attempt>, w: Window): set<nat> { set i: nat | i < |attempts| && Hit(attempts[i], w) }

  function AllHits(attempts: seq<Attempt>, ws: seq<Window>): set<nat> {
    if ws == [] then {} else AllHits(attempts, ws[..|ws| - 1]) + Hits(attempts, ws[|ws| - 1])
  }

  /** What is said about a window, and how many attempts it flags that none before did. */
  datatype LocalNote = LocalNote(window: Window, since: int, flagged: nat)

  function LocalNotes(attempts: seq<Attempt>, ws: seq<Window>): seq<LocalNote> {
    if ws == [] then []
    else
      var init, w := ws[..|ws| - 1], ws[|ws| - 1];
      LocalNotes(attempts, init) + [LocalNote(w, FirstStart(attempts), |Hits(attempts, w) - AllHits(attempts, init)|)]
  }

  function WindowsOf(attempts: seq<Attempt>): seq<Window> { AllWindows(StableSort(Events(attempts), FromLe), 0) }

  function Locals(attempts: seq<Attempt>): set<nat> { AllHits(attempts, WindowsOf(attempts)) }

  // ---- both kinds ----

  datatype Flags = Flags(localNotes: seq<LocalNote>, notes: seq<Outage>, marked: seq<Attempt>)

  /** What the two rules say and mark. */
  function Flag(attempts: seq<Attempt>): Flags {
    var local := Locals(attempts);
    var first := Mark(attempts, local);
    var q := Queue(first, local);
    WindowsInRange(q);
    Flags(LocalNotes(attempts, WindowsOf(attempts)), Notes(q, Windows(q, 0), FirstStart(first)),
        Mark(first, Suspects(first, local)))
  }

  // ---- the marks are not read ----

  lemma EventMarked(a: Attempt, b: Attempt)
    requires MarkOne(a) == MarkOne(b)
    ensures EventOf(a) == EventOf(b) && a.startedAt == b.startedAt && forall w :: Hit(a, w) == Hit(b, w)
  {
    hide LocalFailure, Nanos;
    MarkOneKeeps(a);
    MarkOneKeeps(b);
    assert a.stages == MarkOne(a).stages && b.stages == MarkOne(b).stages;
    assert a.outcome == MarkOne(a).outcome && b.outcome == MarkOne(b).outcome;
  }

  lemma {:induction false} EventsMarked(scan: seq<Attempt>, bs: seq<Attempt>)
    requires SameButMarks(scan, bs)
    ensures Events(scan) == Events(bs) && FirstStart(scan) == FirstStart(bs)
  {
    hide EventOf, MarkOne;
    if scan != [] {
      EventsMarked(scan[..|scan| - 1], bs[..|bs| - 1]);
      EventMarked(scan[|scan| - 1], bs[|bs| - 1]);
    }
  }

  lemma HitsMarked(scan: seq<Attempt>, bs: seq<Attempt>, w: Window)
    requires SameButMarks(scan, bs)
    ensures Hits(scan, w) == Hits(bs, w)
  {
    hide Hit, MarkOne;
    forall i: nat | i < |scan| ensures Hit(scan[i], w) == Hit(bs[i], w) { EventMarked(scan[i], bs[i]); }
  }

  lemma {:induction false} NotesMarked(scan: seq<Attempt>, bs: seq<Attempt>, ws: seq<Window>)
    requires SameButMarks(scan, bs)
    ensures AllHits(scan, ws) == AllHits(bs, ws) && LocalNotes(scan, ws) == LocalNotes(bs, ws)
  {
    hide Hits, SameButMarks;
    if ws != [] {
      NotesMarked(scan, bs, ws[..|ws| - 1]);
      HitsMarked(scan, bs, ws[|ws| - 1]);
      EventsMarked(scan, bs);
    }
  }

  lemma LocalsMarked(scan: seq<Attempt>, bs: seq<Attempt>)
    requires SameButMarks(scan, bs)
    ensures WindowsOf(scan) == WindowsOf(bs) && Locals(scan) == Locals(bs) && FirstStart(scan) == FirstStart(bs)
    ensures LocalNotes(scan, WindowsOf(scan)) == LocalNotes(bs, WindowsOf(bs))
  {
    hide SameButMarks, AllHits, LocalNotes;
    EventsMarked(scan, bs);
    NotesMarked(scan, bs, WindowsOf(scan));
  }

  lemma MarkTwice(attempts: seq<Attempt>, which: set<nat>, more: set<nat>)
    ensures Mark(Mark(Mark(attempts, which), more), which) == Mark(Mark(attempts, which), more)
    ensures Mark(Mark(Mark(attempts, which), more), more) == Mark(Mark(attempts, which), more)
  {
    var r := Mark(Mark(attempts, which), more);
    forall i | 0 <= i < |attempts| ensures Mark(r, which)[i] == r[i] && Mark(r, more)[i] == r[i] {
      MarkOneTwice(attempts[i]);
    }
  }

  lemma MarkOneTwice(a: Attempt)
    ensures MarkOne(MarkOne(a)) == MarkOne(a)
  {
    assert a.detail[Transient := "true"][Transient := "true"] == a.detail[Transient := "true"];
  }

  lemma AlikeTwice(scan: seq<Attempt>, bs: seq<Attempt>, cs: seq<Attempt>)
    requires SameButMarks(scan, bs) && SameButMarks(bs, cs)
    ensures SameButMarks(scan, cs)
  {
    hide MarkOne;
  }

  /** Flagging is a fixpoint: a scan that was flagged, and whatever marks it came
      with, is flagged the same way again, with the same notes. */
  lemma FlagTwice(attempts: seq<Attempt>)
    ensures Flag(Flag(attempts).marked) == Flag(attempts)
  {
    hide Locals, WindowsOf, LocalNotes, Mark, Queue, Windows, SameButMarks, FirstStart;
    var local := Locals(attempts);
    var first := Mark(attempts, local);
    var suspects := Suspects(first, local);
    var bs := Mark(first, suspects);
    MarkedAlike(attempts, local);
    MarkedAlike(first, suspects);
    AlikeTwice(attempts, first, bs);
    LocalsMarked(attempts, bs);
    LocalsMarked(first, bs);
    MarkTwice(attempts, local, suspects);
    SuspectsAgain(first, local);
  }

  // ---- in place: outages of the host ----

  method CollectEvents(attempts: seq<Attempt>) returns (es: seq<Event>, t0: nat)
    ensures es == Events(attempts) && t0 == FirstStart(attempts)
  {
    es, t0 := [], 0;
    for i := 0 to |attempts|
      invariant es == Events(attempts[..i]) && t0 == FirstStart(attempts[..i])
    {
      assert attempts[..i + 1][..i] == attempts[..i];
      var a := attempts[i];
      if a.startedAt == 0 {
        continue;
      }
      if t0 == 0 || a.startedAt < t0 {
        t0 := a.startedAt;
      }
      var name := LocalFailure(a);
      if name == "" || name == NO_ROUTE {
        continue;
      }
      var (from, to) := SpanOf(a);
      if to - from > LOCAL_LEAD {
        from := to - LOCAL_LEAD;
      }
      es := es + [Event(from, to, name)];
    }
    assert attempts[..|attempts|] == attempts;
  }

  lemma MarkSome(attempts: seq<Attempt>, some: set<nat>, i: nat)
    requires i < |attempts|
    ensures Mark(attempts, some + {i}) == Mark(attempts, some)[i := MarkOne(attempts[i])]
  {
  }

  lemma MarkAgain(attempts: seq<Attempt>, some: set<nat>, i: nat)
    requires i < |attempts|
    ensures MarkOne(Mark(attempts, some)[i]) == MarkOne(attempts[i])
  {
    MarkOneTwice(attempts[i]);
  }

  /** Marks one attempt of a partly marked scan. */
  method MarkAt(attempts: array<Attempt>, i: nat, ghost some: set<nat>, ghost was: seq<Attempt>)
    requires i < attempts.Length && attempts[..] == Mark(was, some)
    modifies attempts
    ensures attempts[..] == Mark(was, some + {i})
  {
    hide Mark;
    MarkSome(was, some, i);
    MarkAgain(was, some, i);
    assert attempts[i] == attempts[..][i];
    attempts[i] := attempts[i].(detail := attempts[i].detail[Transient := "true"]);
  }

  lemma HitMarked(attempts: seq<Attempt>, some: set<nat>, i: nat, w: Window)
    requires i < |attempts|
    ensures Hit(Mark(attempts, some)[i], w) == Hit(attempts[i], w)
  {
    hide Hit;
    MarkAgain(attempts, some, i);
    EventMarked(attempts[i], Mark(attempts, some)[i]);
  }

  /** What a window hits among the first n attempts and no window before it did. */
  function NewHits(attempts: seq<Attempt>, w: Window, before: set<nat>, n: nat): set<nat>
    requires n <= |attempts|
  {
    set k: nat | k < n && Hit(attempts[k], w) && k !in before
  }

  function LocalAfter(attempts: seq<Attempt>, w: Window, before: set<nat>, n: nat): (set<nat>, nat)
    requires n <= |attempts|
  {
    (before + NewHits(attempts, w, before, n), |NewHits(attempts, w, before, n)|)
  }

  lemma NewHitsMore(attempts: seq<Attempt>, w: Window, before: set<nat>, n: nat)
    requires n < |attempts|
    ensures n !in NewHits(attempts, w, before, n)
    ensures NewHits(attempts, w, before, n + 1)
         == NewHits(attempts, w, before, n) + if Hit(attempts[n], w) && n !in before then {n} else {}
  {
    hide Hit;
  }

  lemma LocalAfterMore(attempts: seq<Attempt>, w: Window, before: set<nat>, n: nat)
    requires n < |attempts|
    ensures var (local, flagged) := LocalAfter(attempts, w, before, n);
            && (n in local <==> n in before)
            && LocalAfter(attempts, w, before, n + 1)
               == if Hit(attempts[n], w) && n !in before then (local + {n}, flagged + 1) else (local, flagged)
  {
    hide Hit, NewHits;
    NewHitsMore(attempts, w, before, n);
    var a := NewHits(attempts, w, before, n);
    if Hit(attempts[n], w) && n !in before {
      assert before + (a + {n}) == before + a + {n};
    } else {
      assert a + {} == a;
    }
  }

  lemma LocalAfterAll(attempts: seq<Attempt>, w: Window, before: set<nat>)
    ensures LocalAfter(attempts, w, before, |attempts|) == (before + Hits(attempts, w), |Hits(attempts, w) - before|)
    ensures LocalAfter(attempts, w, before, 0) == (before, 0)
  {
    hide Hit;
    assert NewHits(attempts, w, before, |attempts|) == Hits(attempts, w) - before;
    assert NewHits(attempts, w, before, 0) == {};
    assert before + (Hits(attempts, w) - before) == before + Hits(attempts, w);
    assert before + {} == before;
  }

  /** Marks what a window hits and no window before it did. */
  method MarkHits(attempts: array<Attempt>, w: Window, before: set<nat>, ghost was: seq<Attempt>)
      returns (local: set<nat>, flagged: nat)
    requires attempts[..] == Mark(was, before)
    modifies attempts
    ensures local == before + Hits(was, w) && attempts[..] == Mark(was, local)
    ensures flagged == |Hits(was, w) - before|
  {
    hide Hit, Hits, LocalAfter, Mark;
    local, flagged := before, 0;
    LocalAfterAll(was, w, before);
    assert |was| == attempts.Length;
    for i := 0 to attempts.Length
      invariant |was| == attempts.Length && (local, flagged) == LocalAfter(was, w, before, i)
      invariant attempts[..] == Mark(was, local)
    {
      HitMarked(was, local, i, w);
      LocalAfterMore(was, w, before, i);
      var a := attempts[i];
      assert a == attempts[..][i];
      if Hit(a, w) && i !in local {
        MarkAt(attempts, i, local, was);
        local, flagged := local + {i}, flagged + 1;
      }
    }
  }

  /** The window that starts at event i. */
  method WindowFrom(es: seq<Event>, i: nat) returns (w: Window, j: nat)
    requires i < |es|
    ensures i < j <= |es| && (w, j) == Extended(es, i + 1, Single(es[i]))
  {
    w, j := Single(es[i]), i + 1;
    while j < |es| && es[j].from <= w.to + LOCAL_GAP
      invariant i < j <= |es| && Extended(es, j, w) == Extended(es, i + 1, Single(es[i]))
    {
      w := Grow(w, es[j]);
      j := j + 1;
    }
  }

  lemma OneMoreWindow(attempts: seq<Attempt>, done: seq<Window>, w: Window)
    ensures AllHits(attempts, done + [w]) == AllHits(attempts, done) + Hits(attempts, w)
    ensures LocalNotes(attempts, done + [w])
         == LocalNotes(attempts, done) + [LocalNote(w, FirstStart(attempts),
             |Hits(attempts, w) - AllHits(attempts, done)|)]
  {
    assert (done + [w])[..|done|] == done;
  }

  /** Walks the windows of the host's failures and marks what failed inside them. */
  method FlagLocalOutage(attempts: array<Attempt>) returns (notes: seq<LocalNote>, local: set<nat>)
    modifies attempts
    ensures local == Locals(old(attempts[..])) && attempts[..] == Mark(old(attempts[..]), local)
    ensures notes == LocalNotes(old(attempts[..]), WindowsOf(old(attempts[..])))
  {
    hide Hits, Events, FirstStart, StableSort, Mark, Extended, AllHits, LocalNotes;
    ghost var was := attempts[..];
    var es, t0 := CollectEvents(attempts[..]);
    es := StableSort(es, FromLe);
    notes, local := [], {};
    ghost var done: seq<Window> := [];
    var i := 0;
    MarkNone(was);
    while i < |es|
      invariant 0 <= i <= |es|
      invariant done + AllWindows(es, i) == AllWindows(es, 0)
      invariant local == AllHits(was, done) && notes == LocalNotes(was, done) && attempts[..] == Mark(was, local)
      decreases |es| - i
    {
      var w, j := WindowFrom(es, i);
      if w.n >= LOCAL_MIN {
        var flagged;
        OneMoreWindow(was, done, w);
        local, flagged := MarkHits(attempts, w, local, was);
        notes := notes + [LocalNote(w, t0, flagged)];
        assert done + ([w] + AllWindows(es, j)) == done + [w] + AllWindows(es, j);
        done := done + [w];
      }
      i := j;
    }
    assert done == AllWindows(es, 0);
  }

  lemma MarkNone(attempts: seq<Attempt>)
    ensures Mark(attempts, {}) == attempts && AllHits(attempts, []) == {} && LocalNotes(attempts, []) == []
  {
  }

  // ---- in place: outages of the path ----

  method CollectCandidates(attempts: seq<Attempt>, local: set<nat>) returns (cand: seq<Candidate>)
    ensures cand == Candidates(attempts, local, |attempts|)
  {
    var m := Tally(attempts);
    cand := [];
    for i := 0 to |attempts|
      invariant cand == Candidates(attempts, local, i)
    {
      var a := attempts[i];
      assert (if KeyOf(a) in m then Some(m[KeyOf(a)]) else None) == CellOf(attempts, KeyOf(a));
      if a.merged == "ok" || a.outcome == OK || a.outcome == INCONCLUSIVE || a.outcome == SERVER_ERROR
          || a.startedAt == 0 || i in local {
        continue;
      }
      if KeyOf(a) in m && Pass(m[KeyOf(a)]) {
        cand := cand + [Candidate(i, a.startedAt, a.transport, a.dstPort, a.testID, a.round)];
      }
    }
  }

  /** Marks the members of one window. */
  method MarkWindow(attempts: array<Attempt>, cand: seq<Candidate>, from: nat, e: nat, ghost before: set<nat>,
      ghost was: seq<Attempt>)
    requires from <= e <= |cand| && attempts[..] == Mark(was, before)
    requires forall k :: 0 <= k < |cand| ==> cand[k].i < attempts.Length
    modifies attempts
    ensures attempts[..] == Mark(was, before + Members(cand[from..e]))
  {
    hide Mark, Members;
    ghost var all := before;
    MembersNone(cand, from);
    for k := from to e
      invariant attempts[..] == Mark(was, all) && all == before + Members(cand[from..k])
    {
      MarkAt(attempts, cand[k].i, all, was);
      MembersMore(cand, from, k);
      all := all + {cand[k].i};
    }
  }

  lemma MembersNone(cand: seq<Candidate>, from: nat)
    requires from <= |cand|
    ensures Members(cand[from..from]) == {}
  {
  }

  lemma MembersMore(cand: seq<Candidate>, from: nat, k: nat)
    requires from <= k < |cand|
    ensures Members(cand[from..k + 1]) == Members(cand[from..k]) + {cand[k].i}
  {
    var a, b := cand[from..k], cand[from..k + 1];
    assert forall j :: 0 <= j < |b| ==> b[j] == if j < |a| then a[j] else cand[k];
  }

  lemma FlaggedMore(cand: seq<Candidate>, ws: seq<(nat, nat)>, from: nat, e: nat)
    requires from <= e <= |cand|
    ensures Flagged(cand, ws + [(from, e)]) == Flagged(cand, ws) + Members(cand[from..e])
  {
    var more, win := ws + [(from, e)], cand[from..e];
    assert more[|ws|] == (from, e);
    forall i | i in Flagged(cand, more) ensures i in Flagged(cand, ws) + Members(win) {
      var w, k :| 0 <= w < |more| && more[w].0 <= k < more[w].1 && k < |cand| && cand[k].i == i;
      if w == |ws| { assert win[k - from] == cand[k]; } else { assert ws[w] == more[w]; }
    }
    forall i | i in Flagged(cand, ws) ensures i in Flagged(cand, more) {
      var w, k :| 0 <= w < |ws| && ws[w].0 <= k < ws[w].1 && k < |cand| && cand[k].i == i;
      assert more[w] == ws[w];
    }
    forall i | i in Members(win) ensures i in Flagged(cand, more) {
      var k :| 0 <= k < |win| && win[k].i == i;
      assert cand[from + k] == win[k];
    }
  }

  lemma NotesMore(cand: seq<Candidate>, ws: seq<(nat, nat)>, from: nat, e: nat, t0: int)
    requires InRange(cand, ws) && from < e <= |cand|
    ensures InRange(cand, ws + [(from, e)])
    ensures Notes(cand, ws + [(from, e)], t0) == Notes(cand, ws, t0) + [NoteOf(cand[from..e], t0)]
  {
    hide NoteOf;
    var more := ws + [(from, e)];
    assert forall k :: 0 <= k < |ws| ==> ws[k] == more[k];
    assert more[|ws|] == (from, e);
  }

  lemma WindowsStep(q: seq<Candidate>, ws: seq<(nat, nat)>, i: nat, e: nat)
    requires i < |q| && e == Reach(q, i, i + 1) && ws + Windows(q, i) == Windows(q, 0)
    ensures Enough(q[i..e]) ==> ws + [(i, e)] + Windows(q, e) == Windows(q, 0)
    ensures !Enough(q[i..e]) ==> ws + Windows(q, i + 1) == Windows(q, 0)
  {
    hide Enough, Reach;
    if Enough(q[i..e]) {
      assert ws + ([(i, e)] + Windows(q, e)) == ws + [(i, e)] + Windows(q, e);
    }
  }

  /** The end of the widest window that starts at i. */
  method ReachFrom(cand: seq<Candidate>, i: nat) returns (e: nat)
    requires i < |cand|
    ensures i < e <= |cand| && e == Reach(cand, i, i + 1)
  {
    e := i + 1;
    while e < |cand| && cand[e].start - cand[i].start <= SPAN
      invariant i < e <= |cand| && Reach(cand, i, e) == Reach(cand, i, i + 1)
    {
      e := e + 1;
    }
  }

  /** Walks the failures of passing cells in time and marks the windows that are
      full enough; the rest it steps over one at a time. */
  method FlagTransient(attempts: array<Attempt>, local: set<nat>) returns (notes: seq<Outage>)
    modifies attempts
    ensures attempts[..] == Mark(old(attempts[..]), Suspects(old(attempts[..]), local))
    ensures var q := Queue(old(attempts[..]), local);
            InRange(q, Windows(q, 0)) && notes == Notes(q, Windows(q, 0), FirstStart(old(attempts[..])))
  {
    hide Candidates, FirstStart, StableSort, Mark, Reach, Members, Enough, Flagged, NoteOf, Notes, Windows, InRange;
    ghost var was := attempts[..];
    var cand := CollectCandidates(attempts[..], local);
    cand := StableSort(cand, StartLe);
    var t0 := Earliest(attempts[..]);
    QueueInside(was, local);
    assert cand == Queue(was, local) && attempts.Length == |was|;
    notes := [];
    ghost var ws: seq<(nat, nat)> := [];
    MarkNone(was);
    NothingFlagged(cand, t0);
    var i := 0;
    while i < |cand|
      invariant 0 <= i <= |cand|
      invariant ws + Windows(cand, i) == Windows(cand, 0) && InRange(cand, ws)
      invariant attempts[..] == Mark(was, Flagged(cand, ws)) && notes == Notes(cand, ws, t0)
      decreases |cand| - i
    {
      var e := ReachFrom(cand, i);
      WindowsStep(cand, ws, i, e);
      if Enough(cand[i..e]) {
        FlaggedMore(cand, ws, i, e);
        NotesMore(cand, ws, i, e, t0);
        MarkWindow(attempts, cand, i, e, Flagged(cand, ws), was);
        notes := notes + [NoteOf(cand[i..e], t0)];
        ws := ws + [(i, e)];
        i := e;
      } else {
        i := i + 1;
      }
    }
    WindowsEnd(cand);
    assert ws == Windows(cand, 0);
  }

  lemma WindowsEnd(q: seq<Candidate>)
    ensures Windows(q, |q|) == []
  {
  }

  lemma NothingFlagged(q: seq<Candidate>, t0: int)
    ensures Flagged(q, []) == {} && InRange(q, []) && Notes(q, [], t0) == []
  {
  }

  lemma QueueInside(attempts: seq<Attempt>, local: set<nat>)
    ensures forall k :: 0 <= k < |Queue(attempts, local)| ==> Queue(attempts, local)[k].i < |attempts|
  {
    hide Queue, IsCandidate;
    forall k | 0 <= k < |Queue(attempts, local)| ensures Queue(attempts,
        local)[k].i < |attempts| { QueueAre(attempts, local, k); }
  }

  method Earliest(attempts: seq<Attempt>) returns (t0: nat)
    ensures t0 == FirstStart(attempts)
  {
    t0 := 0;
    for i := 0 to |attempts|
      invariant t0 == FirstStart(attempts[..i])
    {
      assert attempts[..i + 1][..i] == attempts[..i];
      if attempts[i].startedAt != 0 && (t0 == 0 || attempts[i].startedAt < t0) {
        t0 := attempts[i].startedAt;
      }
    }
    assert attempts[..|attempts|] == attempts;
  }

  /** Both rules, one after the other. */
  method FlagOutages(attempts: array<Attempt>) returns (localNotes: seq<LocalNote>, notes: seq<Outage>)
    modifies attempts
    ensures Flags(localNotes, notes, attempts[..]) == Flag(old(attempts[..]))
  {
    hide Locals, Mark, Suspects, Queue, Windows, Notes, FirstStart, LocalNotes, WindowsOf;
    var local;
    localNotes, local := FlagLocalOutage(attempts);
    notes := FlagTransient(attempts, local);
  }
}
