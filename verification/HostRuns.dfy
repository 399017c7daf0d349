/** Which attempts an outage of the host takes out (internal/classify/transient.go,
    flagLocalOutage), told from the attempts: the failures of the host in the order of
    their dates, the runs they form, and what was in flight during one. */
module HostRuns {
  import opened Base
  import opened Evidence
  import opened Sorting
  import opened Outages
  import opened LocalOutages

  // ---- the failures of the host, dated ----

  const TWENTY_SECONDS: int := 20_000_000_000
  const TEN_SECONDS: int := 10_000_000_000

  function Stage(a: Attempt, s: StageName): real { if s in a.stages then a.stages[s] else 0.0 }

  /** From when, and to when, an attempt was in flight. */
  function Leaves(a: Attempt): int { a.startedAt - Nanos(Stage(a, Reserve)) }

  function Lands(a: Attempt): int { a.startedAt + Nanos(Stage(a, Done)) }

  /** A failure of the host dates back to its start, but no more than ten seconds from its end. */
  function Since(a: Attempt): int { Max(Leaves(a), Lands(a) - TEN_SECONDS) }

  /** The attempt ended on a failure of the host other than a missing route. */
  predicate HostFails(a: Attempt) { a.startedAt != 0 && LocalFailure(a) !in {"", "no_route"} }

  /** Stage times are whole nanoseconds, cut towards zero. */
  lemma NanosAre(ms: real)
    ensures 0.0 <= ms ==> 0 <= Nanos(ms) && Nanos(ms) as real <= ms * 1000000.0 < Nanos(ms) as real + 1.0
    ensures Nanos(-ms) == -Nanos(ms)
  {
  }

  /** at lists the attempts that failed on the host, each once. */
  ghost predicate Lists(attempts: seq<Attempt>, at: seq<nat>) {
    && (forall k :: 0 <= k < |at| ==> at[k] < |attempts| && HostFails(attempts[at[k]]))
    && (forall i :: 0 <= i < |attempts| && HostFails(attempts[i]) ==> i in at)
  }

  /** The i-th attempt comes before the j-th: by its date, and on one date by its place in the scan. */
  predicate Before(attempts: seq<Attempt>, i: nat, j: nat)
    requires i < |attempts| && j < |attempts|
  {
    Since(attempts[i]) < Since(attempts[j]) || (Since(attempts[i]) == Since(attempts[j]) && i < j)
  }

  /** The failures of the host, one after the other. */
  ghost predicate Timeline(attempts: seq<Attempt>, at: seq<nat>) {
    Lists(attempts, at) && forall j, k :: 0 <= j < k < |at| ==> Before(attempts, at[j], at[k])
  }

  function Dated(a: Attempt): Event { Event(Since(a), Lands(a), LocalFailure(a)) }

  lemma EventIs(a: Attempt)
    ensures EventOf(a) == if HostFails(a) then Some(Dated(a)) else None
  {
    hide LocalFailure, Nanos;
  }

  function Dates(attempts: seq<Attempt>, at: seq<nat>): (es: seq<Event>)
    requires forall k :: 0 <= k < |at| ==> at[k] < |attempts|
    ensures |es| == |at| && forall k :: 0 <= k < |at| ==> es[k] == Dated(attempts[at[k]])
  {
    seq(|at|, k requires 0 <= k < |at| => Dated(attempts[at[k]]))
  }

  /** Where a sorted insertion puts its element. */
  lemma {:induction false} InsertAt<T>(t: seq<T>, x: T, le: (T, T) -> bool) returns (p: nat)
    ensures p <= |t| && Insert(t, x, le) == t[..p] + [x] + t[p..]
    ensures (p > 0 ==> le(t[p - 1], x)) && forall k :: p <= k < |t| ==> !le(t[k], x)
  {
    if t == [] || le(t[|t| - 1], x) {
      p := |t|;
    } else {
      var init := t[..|t| - 1];
      p := InsertAt(init, x, le);
      assert t == init + [t[|t| - 1]];
      assert init[..p] == t[..p] && init[p..] + [t[|t| - 1]] == t[p..];
    }
  }

  /** The failures are walked in the order of the timeline. */
  lemma {:induction false} Walked(attempts: seq<Attempt>) returns (at: seq<nat>)
    ensures Timeline(attempts, at) && StableSort(Events(attempts), FromLe) == Dates(attempts, at)
  {
    hide Timeline, HostFails, Dated, Events;
    if attempts == [] {
      at := [];
      NoTimeline();
    } else {
      var n := |attempts| - 1;
      at := Walked(attempts[..n]);
      at := WalkOn(attempts, at);
    }
  }

  lemma NoTimeline()
    ensures Timeline([], []) && Events([]) == []
  {
  }

  lemma WalkOn(attempts: seq<Attempt>, before: seq<nat>) returns (at: seq<nat>)
    requires attempts != [] && Timeline(attempts[..|attempts| - 1], before)
    requires StableSort(Events(attempts[..|attempts| - 1]), FromLe) == Dates(attempts[..|attempts| - 1], before)
    ensures Timeline(attempts, at) && StableSort(Events(attempts), FromLe) == Dates(attempts, at)
  {
    hide HostFails, Dated, Timeline, Insert, StableSort, Dates;
    var n := |attempts| - 1;
    var init, a := attempts[..n], attempts[n];
    EventIs(a);
    TimelineMore(attempts, before);
    if !HostFails(a) {
      at := before;
      assert Events(attempts) == Events(init);
      DatesMore(attempts, before);
    } else {
      var p := InsertAt(Dates(init, before), Dated(a), FromLe);
      at := before[..p] + [n] + before[p..];
      Placed(attempts, before, p);
      Inserted(attempts, before, p);
      InsertedDates(attempts, before, p);
      SortOneMore(Events(init), Dated(a));
    }
  }

  lemma SortOneMore(es: seq<Event>, e: Event)
    ensures StableSort(es + [e], FromLe) == Insert(StableSort(es, FromLe), e, FromLe)
  {
    assert (es + [e])[..|es|] == es;
  }

  /** What a shorter scan lists, and how it orders it, a longer one does not undo. */
  lemma TimelineMore(attempts: seq<Attempt>, at: seq<nat>)
    requires attempts != [] && Timeline(attempts[..|attempts| - 1], at)
    ensures forall k :: 0 <= k < |at| ==> at[k] < |attempts| - 1 && HostFails(attempts[at[k]])
    ensures forall i :: 0 <= i < |attempts| - 1 && HostFails(attempts[i]) ==> i in at
    ensures forall j, k :: 0 <= j < k < |at| ==> Before(attempts, at[j], at[k])
    ensures !HostFails(attempts[|attempts| - 1]) ==> Timeline(attempts, at)
  {
    hide HostFails, Since;
    var init := attempts[..|attempts| - 1];
    assert forall i :: 0 <= i < |init| ==> init[i] == attempts[i];
    forall j, k | 0 <= j < k < |at| ensures Before(attempts, at[j], at[k]) {
      assert Before(init, at[j], at[k]);
    }
  }

  lemma DatesMore(attempts: seq<Attempt>, at: seq<nat>)
    requires attempts != [] && forall k :: 0 <= k < |at| ==> at[k] < |attempts| - 1
    ensures Dates(attempts[..|attempts| - 1], at) == Dates(attempts, at)
  {
    hide Dated;
  }

  lemma Placed(attempts: seq<Attempt>, before: seq<nat>, p: nat)
    requires attempts != [] && (forall k :: 0 <= k < |before| ==> before[k] < |attempts| - 1) && p <= |before|
    requires var ds := Dates(attempts[..|attempts| - 1], before);
             && (p > 0 ==> FromLe(ds[p - 1], Dated(attempts[|attempts| - 1])))
             && forall k :: p <= k < |ds| ==> !FromLe(ds[k], Dated(attempts[|attempts| - 1]))
    ensures p > 0 ==> Since(attempts[before[p - 1]]) <= Since(attempts[|attempts| - 1])
    ensures forall k :: p <= k < |before| ==> Since(attempts[|attempts| - 1]) < Since(attempts[before[k]])
  {
    hide Since, Lands, LocalFailure;
    var ds := Dates(attempts[..|attempts| - 1], before);
    forall k | p <= k < |before| ensures Since(attempts[|attempts| - 1]) < Since(attempts[before[k]]) {
      assert !FromLe(ds[k], Dated(attempts[|attempts| - 1]));
    }
  }

  lemma InsertedDates(attempts: seq<Attempt>, before: seq<nat>, p: nat)
    requires attempts != [] && (forall k :: 0 <= k < |before| ==> before[k] < |attempts| - 1) && p <= |before|
    ensures var ds, n := Dates(attempts[..|attempts| - 1], before), |attempts| - 1;
            Dates(attempts, before[..p] + [n] + before[p..]) == ds[..p] + [Dated(attempts[n])] + ds[p..]
  {
    hide Dated;
  }

  lemma Inserted(attempts: seq<Attempt>, before: seq<nat>, p: nat)
    requires attempts != [] && HostFails(attempts[|attempts| - 1]) && p <= |before|
    requires forall k :: 0 <= k < |before| ==> before[k] < |attempts| - 1 && HostFails(attempts[before[k]])
    requires forall i :: 0 <= i < |attempts| - 1 && HostFails(attempts[i]) ==> i in before
    requires forall j, k :: 0 <= j < k < |before| ==> Before(attempts, before[j], before[k])
    requires p > 0 ==> Since(attempts[before[p - 1]]) <= Since(attempts[|attempts| - 1])
    requires forall k :: p <= k < |before| ==> Since(attempts[|attempts| - 1]) < Since(attempts[before[k]])
    ensures Timeline(attempts, before[..p] + [|attempts| - 1] + before[p..])
  {
    hide HostFails, Since, Before, Lists;
    var n := |attempts| - 1;
    var at := before[..p] + [n] + before[p..];
    InsertedLists(attempts, before, p);
    forall j, k | 0 <= j < k < |at| ensures Before(attempts, at[j], at[k]) {
      InsertedPair(attempts, before, p, j, k);
    }
  }

  lemma InsertedPair(attempts: seq<Attempt>, before: seq<nat>, p: nat, j: nat, k: nat)
    requires attempts != [] && p <= |before| && j < k <= |before|
    requires forall k :: 0 <= k < |before| ==> before[k] < |attempts| - 1
    requires forall j, k :: 0 <= j < k < |before| ==> Before(attempts, before[j], before[k])
    requires p > 0 ==> Since(attempts[before[p - 1]]) <= Since(attempts[|attempts| - 1])
    requires forall k :: p <= k < |before| ==> Since(attempts[|attempts| - 1]) < Since(attempts[before[k]])
    ensures var at := before[..p] + [|attempts| - 1] + before[p..];
            |at| == |before| + 1 && at[j] < |attempts| && at[k] < |attempts| && Before(attempts, at[j], at[k])
  {
    hide Since, Before;
    if j == p {
      AroundLast(attempts, before, p, k - 1);
    } else if k == p {
      AroundLast(attempts, before, p, j);
    } else {
      var u, v := if j < p then j else j - 1, if k < p then k else k - 1;
      assert Before(attempts, before[u], before[v]);
    }
  }

  lemma InsertedLists(attempts: seq<Attempt>, before: seq<nat>, p: nat)
    requires attempts != [] && HostFails(attempts[|attempts| - 1]) && p <= |before|
    requires forall k :: 0 <= k < |before| ==> before[k] < |attempts| - 1 && HostFails(attempts[before[k]])
    requires forall i :: 0 <= i < |attempts| - 1 && HostFails(attempts[i]) ==> i in before
    ensures Lists(attempts, before[..p] + [|attempts| - 1] + before[p..])
  {
    hide HostFails;
    Shifted(before, p, |attempts| - 1);
  }

  lemma Shifted(before: seq<nat>, p: nat, n: nat)
    requires p <= |before|
    ensures var at := before[..p] + [n] + before[p..];
            && |at| == |before| + 1
            && (forall k :: 0 <= k < |at| ==> at[k] == if k < p then before[k] else if k == p then n else before[k - 1])
            && (forall i :: i in at <==> i in before || i == n)
  {
    assert before == before[..p] + before[p..];
  }

  lemma AroundLast(attempts: seq<Attempt>, before: seq<nat>, p: nat, k: nat)
    requires attempts != [] && p <= |before| && k < |before|
    requires forall k :: 0 <= k < |before| ==> before[k] < |attempts| - 1
    requires forall j, k :: 0 <= j < k < |before| ==> Before(attempts, before[j], before[k])
    requires p > 0 ==> Since(attempts[before[p - 1]]) <= Since(attempts[|attempts| - 1])
    requires forall k :: p <= k < |before| ==> Since(attempts[|attempts| - 1]) < Since(attempts[before[k]])
    ensures if k < p then Before(attempts, before[k], |attempts| - 1) else Before(attempts, |attempts| - 1, before[k])
  {
    hide Since;
    if k < p - 1 { assert Before(attempts, before[k], before[p - 1]); }
  }

  // ---- the runs they form ----

  ghost predicate ByDate(es: seq<Event>) { forall j, k :: 0 <= j < k < |es| ==> es[j].from <= es[k].from }

  /** A new run begins at k: more than twenty seconds after the end of every failure before it. */
  ghost predicate Break(es: seq<Event>, k: int) {
    0 <= k <= |es| && (k < |es| ==> forall j :: 0 <= j < k ==> es[k].from > es[j].to + TWENTY_SECONDS)
  }

  /** The failures from lo up to hi are a run, as long as can be. */
  ghost predicate Run(es: seq<Event>, lo: int, hi: int) {
    0 <= lo < hi <= |es| && Break(es, lo) && Break(es, hi) && forall k :: lo < k < hi ==> !Break(es, k)
  }

  /** Inside a run each failure begins within twenty seconds of the end of one before it there. */
  lemma RunChained(es: seq<Event>, lo: int, hi: int, k: int)
    requires ByDate(es) && Run(es, lo, hi) && lo < k < hi
    ensures exists j :: lo <= j < k && es[k].from <= es[j].to + TWENTY_SECONDS
  {
    assert !Break(es, k);
    var j :| 0 <= j < k && es[k].from <= es[j].to + TWENTY_SECONDS;
    assert es[lo].from <= es[k].from;
  }

  /** Two runs are the same, or the later one begins more than twenty seconds after
      the end of every failure of the earlier one. */
  lemma RunsApart(es: seq<Event>, lo: int, hi: int, lo': int, hi': int)
    requires ByDate(es) && Run(es, lo, hi) && Run(es, lo', hi') && lo <= lo'
    ensures (lo, hi) == (lo', hi')
         || (hi <= lo' && forall j, k :: lo <= j < hi && lo' <= k < hi' ==> es[k].from > es[j].to + TWENTY_SECONDS)
  {
    if lo < lo' {
      forall j, k | lo <= j < hi && lo' <= k < hi' ensures es[k].from > es[j].to + TWENTY_SECONDS {
        assert es[lo'].from > es[j].to + TWENTY_SECONDS;
        assert k == lo' || es[lo'].from <= es[k].from;
      }
    }
  }

  /** Every failure lies in a run. */
  lemma RunAround(es: seq<Event>, k: nat) returns (lo: nat, hi: nat)
    requires k < |es|
    ensures lo <= k < hi && Run(es, lo, hi)
  {
    lo, hi := k, k + 1;
    while !Break(es, lo)
      invariant 0 <= lo <= k && forall m :: lo < m <= k ==> !Break(es, m)
      decreases lo
    {
      lo := lo - 1;
    }
    while !Break(es, hi)
      invariant k < hi <= |es| && forall m :: k < m < hi ==> !Break(es, m)
      decreases |es| - hi
    {
      hi := hi + 1;
    }
  }

  /** w is the window of a run: from its first failure to the last end, with the
      failures counted by name. */
  ghost predicate Spans(es: seq<Event>, lo: int, hi: int, w: Window)
    requires 0 <= lo < hi <= |es|
  {
    && w.from == es[lo].from && w.n == hi - lo
    && (forall k :: lo <= k < hi ==> es[k].to <= w.to) && (exists k :: lo <= k < hi && es[k].to == w.to)
    && (forall name :: Named(w, name) == Occurs(es[lo..hi], name))
  }

  function Named(w: Window, name: string): nat { if name in w.names then w.names[name] else 0 }

  function Occurs(es: seq<Event>, name: string): nat {
    if es == [] then 0 else Occurs(es[..|es| - 1], name) + if es[|es| - 1].name == name then 1 else 0
  }

  lemma {:induction false} ExtendedIs(es: seq<Event>, i: nat, j: nat, w: Window)
    requires ByDate(es) && i < j <= |es| && Break(es, i) && Spans(es, i, j, w)
    requires forall k :: i < k < j ==> !Break(es, k)
    ensures var (v, e) := Extended(es, j, w); e > i && Run(es, i, e) && Spans(es, i, e, v)
    decreases |es| - j
  {
    hide Spans;
    if j < |es| && Joins(w, es[j]) {
      JoinedIsNoBreak(es, i, j, w);
      GrownSpans(es, i, j, w);
      ExtendedIs(es, i, j + 1, Grow(w, es[j]));
    } else {
      if j < |es| { ApartIsBreak(es, i, j, w); }
    }
  }

  lemma JoinedIsNoBreak(es: seq<Event>, i: nat, j: nat, w: Window)
    requires i < j < |es| && Spans(es, i, j, w) && Joins(w, es[j])
    ensures !Break(es, j)
  {
    hide Occurs;
    var k :| i <= k < j && es[k].to == w.to;
  }

  lemma ApartIsBreak(es: seq<Event>, i: nat, j: nat, w: Window)
    requires ByDate(es) && i < j < |es| && Break(es, i) && Spans(es, i, j, w) && !Joins(w, es[j])
    ensures Break(es, j)
  {
    hide Occurs;
    forall m | 0 <= m < j ensures es[j].from > es[m].to + TWENTY_SECONDS {
      if m < i { assert es[i].from <= es[j].from; }
    }
  }

  lemma GrownSpans(es: seq<Event>, i: nat, j: nat, w: Window)
    requires i < j < |es| && Spans(es, i, j, w)
    ensures Spans(es, i, j + 1, Grow(w, es[j]))
  {
    hide Occurs;
    var v := Grow(w, es[j]);
    var m :| i <= m < j && es[m].to == w.to;
    assert es[if es[j].to > w.to then j else m].to == v.to;
    forall name ensures Named(v, name) == Occurs(es[i..j + 1], name) { OccursMore(es, i, j, name); }
  }

  lemma OccursMore(es: seq<Event>, i: nat, j: nat, name: string)
    requires i <= j < |es|
    ensures Occurs(es[i..j + 1], name) == Occurs(es[i..j], name) + if es[j].name == name then 1 else 0
  {
    assert es[i..j + 1][..j - i] == es[i..j];
  }

  lemma SingleSpans(es: seq<Event>, i: nat)
    requires i < |es|
    ensures Spans(es, i, i + 1, Single(es[i]))
  {
    forall name ensures Named(Single(es[i]), name) == Occurs(es[i..i + 1], name) {
      OccursMore(es, i, i, name);
    }
  }

  /** w is the window of a run of at least two failures from i on. */
  ghost predicate WindowIn(es: seq<Event>, i: nat, w: Window) {
    exists lo, hi :: i <= lo && Run(es, lo, hi) && hi - lo >= 2 && Spans(es, lo, hi, w)
  }

  /** The windows found are those of the runs of at least two failures. */
  lemma {:induction false} WindowsFrom(es: seq<Event>, i: nat)
    requires ByDate(es) && Break(es, i)
    ensures forall w :: w in AllWindows(es, i) ==> WindowIn(es, i, w)
    ensures forall lo, hi :: i <= lo && Run(es, lo, hi) && hi - lo >= 2 ==>
              exists w :: w in AllWindows(es, i) && Spans(es, lo, hi, w)
    decreases |es| - i
  {
    hide Break, Extended, Spans;
    if i < |es| {
      var (w, j) := Extended(es, i + 1, Single(es[i]));
      SingleSpans(es, i);
      ExtendedIs(es, i, i + 1, Single(es[i]));
      WindowsFrom(es, j);
      assert w.n == j - i by { SpansCount(es, i, j, w); }
      forall v | v in AllWindows(es, i) ensures WindowIn(es, i, v) {
        if v in AllWindows(es, j) {
          var lo, hi :| j <= lo && Run(es, lo, hi) && hi - lo >= 2 && Spans(es, lo, hi, v);
        }
      }
      forall lo, hi | i <= lo && Run(es, lo, hi) && hi - lo >= 2
        ensures exists v :: v in AllWindows(es, i) && Spans(es, lo, hi, v)
      {
        RunsApart(es, i, j, lo, hi);
        if lo >= j {
          var v :| v in AllWindows(es, j) && Spans(es, lo, hi, v);
        } else {
          assert w in AllWindows(es, i);
        }
      }
    }
  }

  lemma SpansCount(es: seq<Event>, i: nat, j: nat, w: Window)
    requires i < j <= |es| && Spans(es, i, j, w)
    ensures w.n == j - i
  {
  }

  // ---- what they take out ----

  /** A failed attempt that may be taken out, and was not called off. */
  predicate Losable(a: Attempt) { a.startedAt != 0 && a.outcome != OK && Get(a.detail, Cancelled) != "true" }

  /** The attempt was in flight during the stretch of the failures from lo up to hi: it
      landed no earlier than the first of them began and left no later than the last ended. */
  ghost predicate InFlight(a: Attempt, es: seq<Event>, lo: int, hi: int)
    requires 0 <= lo < hi <= |es|
  {
    es[lo].from <= Lands(a) && exists k :: lo <= k < hi && Leaves(a) <= es[k].to
  }

  lemma HitIs(a: Attempt, es: seq<Event>, lo: int, hi: int, w: Window)
    requires 0 <= lo < hi <= |es| && Spans(es, lo, hi, w)
    ensures Hit(a, w) <==> Losable(a) && InFlight(a, es, lo, hi)
  {
    hide Nanos, Occurs, Named;
    var m :| lo <= m < hi && es[m].to == w.to;
  }

  lemma {:induction false} AllHitsAre(attempts: seq<Attempt>, ws: seq<Window>)
    ensures forall i: nat ::
              i in AllHits(attempts, ws) <==> i < |attempts| && exists w :: w in ws && Hit(attempts[i], w)
  {
    hide Hit;
    if ws != [] {
      AllHitsAre(attempts, ws[..|ws| - 1]);
      assert ws == ws[..|ws| - 1] + [ws[|ws| - 1]];
    }
  }

  /** The attempt was in flight during a run of at least two of the failures. */
  ghost predicate DuringOutage(a: Attempt, es: seq<Event>) {
    exists lo, hi :: Run(es, lo, hi) && hi - lo >= 2 && InFlight(a, es, lo, hi)
  }

  lemma HitIff(a: Attempt, es: seq<Event>)
    requires ByDate(es) && Break(es, 0)
    ensures (exists w :: w in AllWindows(es, 0) && Hit(a, w)) <==> Losable(a) && DuringOutage(a, es)
  {
    hide AllWindows, Hit, Spans, InFlight, Break, Losable;
    var ws := AllWindows(es, 0);
    WindowsFrom(es, 0);
    if w :| w in ws && Hit(a, w) {
      var lo, hi :| 0 <= lo && Run(es, lo, hi) && hi - lo >= 2 && Spans(es, lo, hi, w);
      HitIs(a, es, lo, hi, w);
    }
    if Losable(a) && DuringOutage(a, es) {
      var lo, hi :| Run(es, lo, hi) && hi - lo >= 2 && InFlight(a, es, lo, hi);
      var w :| w in ws && Spans(es, lo, hi, w);
      HitIs(a, es, lo, hi, w);
    }
  }

  /** An attempt is marked exactly when it started, failed, was not called off, and was
      in flight during a run of at least two failures of the host. */
  lemma MarkedIff(attempts: seq<Attempt>) returns (at: seq<nat>)
    ensures Timeline(attempts, at)
    ensures forall i: nat :: i in Locals(attempts)
              <==> i < |attempts| && Losable(attempts[i]) && DuringOutage(attempts[i], Dates(attempts, at))
  {
    hide StableSort, Events, AllHits, AllWindows, Hit, Losable, DuringOutage, HostFails, Before, Dates, ByDate, Break;
    at := Walked(attempts);
    InDateOrder(attempts, at);
    AllHitsAre(attempts, WindowsOf(attempts));
    forall a { HitIff(a, Dates(attempts, at)); }
  }

  lemma InDateOrder(attempts: seq<Attempt>, at: seq<nat>)
    requires Timeline(attempts, at)
    ensures ByDate(Dates(attempts, at)) && Break(Dates(attempts, at), 0)
  {
    hide Since, Lands, HostFails, LocalFailure;
    forall j, k | 0 <= j < k < |at| ensures Dates(attempts, at)[j].from <= Dates(attempts, at)[k].from {
      assert Before(attempts, at[j], at[k]);
    }
  }
}
