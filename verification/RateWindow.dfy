/** The sliding-window limits of the store (allowSession, allowAttempt, prune
    and the window part of gc). */
module RateWindow {
  import opened Base
  import opened Addresses

  /** Drops the leading times before since. */
  function Prune(ts: seq<int>, since: int): seq<int> {
    if ts != [] && ts[0] < since then Prune(ts[1..], since) else ts
  }

  type Rates = map<Addr, seq<int>>

  function TimesOf(rates: Rates, k: Addr): seq<int> { if k in rates then rates[k] else [] }

  /** One question: prune the caller's window, admit when it is not full. */
  function Ask(rates: Rates, limit: int, width: int, ip: Addr, now: int): (Rates, bool) {
    AskKey(rates, limit, width, RateKey(ip), now)
  }

  function AskKey(rates: Rates, limit: int, width: int, k: Addr, now: int): (Rates, bool) {
    var ts := Prune(TimesOf(rates, k), now - width);
    if |ts| >= limit then (rates[k := ts], false) else (rates[k := ts + [now]], true)
  }

  /** Garbage collection of the windows: those whose pruned form is empty go. */
  function Sweep(rates: Rates, width: int, now: int): Rates {
    map k | k in rates && Prune(rates[k], now - width) != [] :: rates[k]
  }

  /** What can happen to one limit: a question (refused outright when the
      session table is full), or a garbage collection. */
  datatype Event = Question(ip: Addr, now: int, tableFull: bool) | Collect(now: int)

  datatype Admission = Admission(key: Addr, at: int)

  datatype Run = Run(rates: Rates, log: seq<Admission>)

  function Apply(r: Run, limit: int, width: int, e: Event): Run {
    match e
    case Collect(now) => r.(rates := Sweep(r.rates, width, now))
    case Question(ip, now, full) =>
      if full then r
      else
        var (rates, ok) := Ask(r.rates, limit, width, ip, now);
        Run(rates, if ok then r.log + [Admission(RateKey(ip), now)] else r.log)
  }

  function Replay(limit: int, width: int, es: seq<Event>): Run {
    if es == [] then Run(map[], []) else Apply(Replay(limit, width, es[..|es| - 1]), limit, width, es[|es| - 1])
  }

  ghost predicate Chronological(es: seq<Event>) {
    forall i, j :: 0 <= i < j < |es| ==> es[i].now <= es[j].now
  }

  /** The times one client was admitted at. */
  function Times(log: seq<Admission>, k: Addr): seq<int> {
    if log == [] then []
    else Times(log[..|log| - 1], k) + if log[|log| - 1].key == k then [log[|log| - 1].at] else []
  }

  /** How many of the times fall into the closed window from lo to hi. */
  function Within(ts: seq<int>, lo: int, hi: int): nat {
    if ts == [] then 0 else Within(ts[..|ts| - 1], lo, hi) + if lo <= ts[|ts| - 1] <= hi then 1 else 0
  }

  // ---- pruning ----

  lemma PruneTwice(ts: seq<int>, c: int, d: int)
    requires c <= d
    ensures Prune(Prune(ts, c), d) == Prune(ts, d)
  {
  }

  lemma {:induction false} PruneAppend(ts: seq<int>, t: int, c: int)
    requires c <= t
    ensures Prune(ts + [t], c) == Prune(ts, c) + [t]
  {
    if ts != [] {
      assert (ts + [t])[1..] == ts[1..] + [t];
      if ts[0] < c { PruneAppend(ts[1..], t, c); }
    }
  }

  lemma {:induction false} WithinAppend(a: seq<int>, b: seq<int>, lo: int, hi: int)
    ensures Within(a + b, lo, hi) == Within(a, lo, hi) + Within(b, lo, hi)
  {
    if b == [] {
      assert a + b == a;
    } else {
      WithinAppend(a, b[..|b| - 1], lo, hi);
      assert (a + b)[..|a + b| - 1] == a + b[..|b| - 1];
    }
  }

  lemma WithinAtMost(ts: seq<int>, lo: int, hi: int)
    ensures Within(ts, lo, hi) <= |ts|
  {
  }

  /** What pruning drops lies before the window. */
  lemma {:induction false} PruneKeepsWindow(ts: seq<int>, c: int, lo: int, hi: int)
    requires c <= lo
    ensures Within(ts, lo, hi) == Within(Prune(ts, c), lo, hi)
  {
    if ts != [] && ts[0] < c {
      PruneKeepsWindow(ts[1..], c, lo, hi);
      WithinAppend([ts[0]], ts[1..], lo, hi);
      assert ts == [ts[0]] + ts[1..] && [ts[0]][..0] == [];
    }
  }

  // ---- the invariant of every run ----

  /** Each admission found fewer than limit earlier ones in its own window. */
  ghost predicate Spaced(ts: seq<int>, limit: int, width: int) {
    forall j :: 0 <= j < |ts| ==> |Prune(ts[..j], ts[j] - width)| < limit
  }

  /** As seen from any time not before now, the stored window is the full history. */
  ghost predicate Tracks(r: Run, width: int, now: int, k: Addr) {
    Prune(TimesOf(r.rates, k), now - width) == Prune(Times(r.log, k), now - width)
  }

  ghost predicate Rising(ts: seq<int>, now: int) {
    && (forall i :: 0 <= i < |ts| ==> ts[i] <= now)
    && (forall i, j :: 0 <= i < j < |ts| ==> ts[i] <= ts[j])
  }

  ghost predicate Inv(r: Run, limit: int, width: int, now: int) {
    && (forall k :: Tracks(r, width, now, k))
    && (forall k :: Spaced(Times(r.log, k), limit, width))
    && (forall k :: Rising(Times(r.log, k), now))
  }

  lemma TracksLater(r: Run, width: int, now: int, later: int, k: Addr)
    requires Tracks(r, width, now, k) && now <= later
    ensures Tracks(r, width, later, k)
  {
    PruneTwice(TimesOf(r.rates, k), now - width, later - width);
    PruneTwice(Times(r.log, k), now - width, later - width);
  }

  lemma SpacedAppend(ts: seq<int>, t: int, limit: int, width: int)
    requires Spaced(ts, limit, width) && |Prune(ts, t - width)| < limit
    ensures Spaced(ts + [t], limit, width)
  {
    var us := ts + [t];
    forall j | 0 <= j < |us|
      ensures |Prune(us[..j], us[j] - width)| < limit
    {
      if j < |ts| {
        assert us[..j] == ts[..j] && us[j] == ts[j];
      } else {
        assert us[..j] == ts;
      }
    }
  }

  lemma InvCollect(r: Run, limit: int, width: int, before: int, now: int)
    requires Inv(r, limit, width, before) && before <= now
    ensures Inv(r.(rates := Sweep(r.rates, width, now)), limit, width, now)
  {
    forall k
      ensures Tracks(r.(rates := Sweep(r.rates, width, now)), width, now, k)
    {
      TracksLater(r, width, before, now, k);
    }
  }

  lemma InvQuestion(r: Run, limit: int, width: int, before: int, ip: Addr, now: int)
    requires Inv(r, limit, width, before) && before <= now && width >= 0
    ensures Inv(Apply(r, limit, width, Question(ip, now, false)), limit, width, now)
  {
    var r' := Apply(r, limit, width, Question(ip, now, false));
    forall k
      ensures Tracks(r', width, now, k)
      ensures Spaced(Times(r'.log, k), limit, width)
      ensures Rising(Times(r'.log, k), now)
    {
      TracksLater(r, width, before, now, k);
      QuestionOneKey(r, limit, width, ip, now, k);
    }
  }

  lemma QuestionOneKey(r: Run, limit: int, width: int, ip: Addr, now: int, k: Addr)
    requires Tracks(r, width, now, k) && width >= 0
    requires Spaced(Times(r.log, k), limit, width) && Rising(Times(r.log, k), now)
    ensures var r' := Apply(r, limit, width, Question(ip, now, false));
            Tracks(r', width, now, k) && Spaced(Times(r'.log, k), limit, width) && Rising(Times(r'.log, k), now)
  {
    var key := RateKey(ip);
    TimesAppend(r.log, Admission(key, now), k);
    WindowStep(TimesOf(r.rates, k), Times(r.log, k), limit, width, now);
    var r' := Apply(r, limit, width, Question(ip, now, false));
    if k != key {
      assert Times(r'.log, k) == Times(r.log, k);
      assert TimesOf(r'.rates, k) == TimesOf(r.rates, k);
    }
  }

  lemma TimesAppend(log: seq<Admission>, a: Admission, k: Addr)
    ensures Times(log + [a], k) == Times(log, k) + if a.key == k then [a.at] else []
  {
    assert (log + [a])[..|log + [a]| - 1] == log;
  }

  /** One window, the stored times against the whole history of its client. */
  lemma WindowStep(stored: seq<int>, history: seq<int>, limit: int, width: int, now: int)
    requires width >= 0 && Prune(stored, now - width) == Prune(history, now - width)
    requires Spaced(history, limit, width) && Rising(history, now)
    ensures var c := now - width; var kept := Prune(stored, c);
            && Prune(kept, c) == Prune(history, c)
            && (|kept| < limit ==>
                  && Prune(kept + [now], c) == Prune(history + [now], c)
                  && Spaced(history + [now], limit, width) && Rising(history + [now], now))
  {
    var c := now - width;
    PruneTwice(stored, c, c);
    PruneAppend(Prune(stored, c), now, c);
    PruneAppend(history, now, c);
    if |Prune(stored, c)| < limit { SpacedAppend(history, now, limit, width); }
  }

  lemma {:induction false} RunKeepsInv(limit: int, width: int, es: seq<Event>, now: int)
    requires Chronological(es) && width >= 0
    requires es != [] ==> es[|es| - 1].now <= now
    ensures Inv(Replay(limit, width, es), limit, width, now)
  {
    if es != [] {
      var p, e := es[..|es| - 1], es[|es| - 1];
      RunKeepsInv(limit, width, p, e.now);
      var r := Replay(limit, width, p);
      match e {
        case Collect(t) => InvCollect(r, limit, width, t, t);
        case Question(ip, t, full) => if !full { InvQuestion(r, limit, width, t, ip, t); }
      }
      var r' := Replay(limit, width, es);
      forall k
        ensures Tracks(r', width, now, k)
      {
        TracksLater(r', width, e.now, now, k);
      }
    }
  }

  // ---- the limits ----

  lemma {:induction false} SpacedWindow(ts: seq<int>, limit: int, width: int, lo: int)
    requires Spaced(ts, limit, width)
    ensures Within(ts, lo, lo + width) <= Max(limit, 0)
  {
    if ts != [] {
      var p, t := ts[..|ts| - 1], ts[|ts| - 1];
      if lo <= t <= lo + width {
        PruneKeepsWindow(p, t - width, lo, lo + width);
        WithinAtMost(Prune(p, t - width), lo, lo + width);
      } else {
        assert forall j :: 0 <= j < |p| ==> p[..j] == ts[..j];
        SpacedWindow(p, limit, width, lo);
      }
    }
  }

  /** In every run with a clock that never goes back, garbage collections
      anywhere, no closed window of the limit's width holds more admissions of
      one client than the limit. */
  lemma WindowNeverOverfull(limit: int, width: int, es: seq<Event>, k: Addr, lo: int)
    requires Chronological(es) && width >= 0
    ensures Within(Times(Replay(limit, width, es).log, k), lo, lo + width) <= Max(limit, 0)
  {
    var now := if es == [] then 0 else es[|es| - 1].now;
    RunKeepsInv(limit, width, es, now);
    SpacedWindow(Times(Replay(limit, width, es).log, k), limit, width, lo);
  }

  lemma {:induction false} SuffixInWindow(ts: seq<int>, c: int, hi: int)
    requires Rising(ts, hi)
    ensures |Prune(ts, c)| == Within(ts, c, hi)
  {
    if ts != [] {
      if ts[0] < c {
        SuffixInWindow(ts[1..], c, hi);
        WithinAppend([ts[0]], ts[1..], c, hi);
        assert ts == [ts[0]] + ts[1..] && [ts[0]][..0] == [];
      } else {
        AllInWindow(ts, c, hi);
      }
    }
  }

  lemma {:induction false} AllInWindow(ts: seq<int>, lo: int, hi: int)
    requires forall i :: 0 <= i < |ts| ==> lo <= ts[i] <= hi
    ensures Within(ts, lo, hi) == |ts|
  {
    if ts != [] { AllInWindow(ts[..|ts| - 1], lo, hi); }
  }

  /** Admission is exact: a question is admitted exactly when the table has room
      and the client's window ending now is not full of earlier admissions. */
  lemma AdmittedIffRoom(limit: int, width: int, es: seq<Event>, ip: Addr, now: int, full: bool)
    requires Chronological(es) && width >= 0 && (es != [] ==> es[|es| - 1].now <= now)
    ensures var before, after := Replay(limit, width, es).log, Replay(limit, width, es + [Question(ip, now, full)]).log;
            if !full && Within(Times(before, RateKey(ip)), now - width, now) < limit
            then after == before + [Admission(RateKey(ip), now)] else after == before
  {
    var all := es + [Question(ip, now, full)];
    assert all[..|all| - 1] == es;
    var r, k := Replay(limit, width, es), RateKey(ip);
    assert |Prune(TimesOf(r.rates, k), now - width)| == Within(Times(r.log, k), now - width, now) by {
      RunKeepsInv(limit, width, es, now);
      assert Tracks(r, width, now, k) && Rising(Times(r.log, k), now);
      SuffixInWindow(Times(r.log, k), now - width, now);
    }
  }
}
