/** What holds in every interleaving of a scan. */
module ScheduleRuns {
  import opened SchedulePlan
  import opened Scheduler
  import opened SchedulePools
  import opened ScheduleForecast

  // ---- nothing is left out of an unstopped scan ----

  predicate At(log: seq<Ran>, p: nat, k: nat) { exists i :: 0 <= i < |log| && log[i].phase == p && log[i].k == k }

  predicate InHand(ws: seq<Worker>, k: nat) { exists w :: 0 <= w < |ws| && Busy(ws[w]) && ws[w].k == k }

  predicate AllOf(log: seq<Ran>, p: nat, n: nat) { forall k :: 0 <= k < n ==> At(log, p, k) }

  predicate HandedOn(log: seq<Ran>, p: nat, ws: seq<Worker>, fed: nat) {
    forall k :: 0 <= k < fed ==> At(log, p, k) || InHand(ws, k)
  }

  predicate Covered(s: State)
    requires Begun(s)
  {
    !s.cancelled ==>
      && (forall p :: 0 <= p < Phase(s) ==> AllOf(s.log, p, |s.lists[p]|))
      && HandedOn(s.log, Phase(s), s.workers, s.fed)
  }

  lemma KeepsHand(log: seq<Ran>, p: nat, ws: seq<Worker>, w: nat, x: Worker, fed: nat)
    requires w < |ws| && HandedOn(log, p, ws, fed) && (Busy(ws[w]) ==> Busy(x) && x.k == ws[w].k)
    ensures HandedOn(log, p, ws[w := x], fed)
    ensures x == Got(fed) ==> HandedOn(log, p, ws[w := x], fed + 1)
  {
    var us := ws[w := x];
    forall k | 0 <= k < fed && !At(log, p, k) ensures InHand(us, k) {
      var v :| 0 <= v < |ws| && Busy(ws[v]) && ws[v].k == k;
      assert Busy(us[v]) && us[v].k == k;
    }
    if x == Got(fed) { assert Busy(us[w]) && us[w].k == fed; }
  }

  lemma RecordsHand(log: seq<Ran>, r: Ran, ws: seq<Worker>, w: nat, fed: nat)
    requires w < |ws| && Busy(ws[w]) && r.k == ws[w].k && HandedOn(log, r.phase, ws, fed)
    ensures HandedOn(log + [r], r.phase, ws[w := Idle], fed)
  {
    var us, more := ws[w := Idle], log + [r];
    forall k | 0 <= k < fed ensures At(more, r.phase, k) || InHand(us, k) {
      if At(log, r.phase, k) {
        AtGrows(log, r, r.phase, k);
      } else {
        var v :| 0 <= v < |ws| && Busy(ws[v]) && ws[v].k == k;
        if v == w {
          assert more[|log|].k == k;
        } else {
          assert Busy(us[v]) && us[v].k == k;
        }
      }
    }
  }

  lemma AtGrows(log: seq<Ran>, r: Ran, p: nat, k: nat)
    requires At(log, p, k)
    ensures At(log + [r], p, k)
  {
    var i :| 0 <= i < |log| && log[i].phase == p && log[i].k == k;
    assert (log + [r])[i] == log[i];
  }

  lemma AllGrows(log: seq<Ran>, r: Ran, p: nat, n: nat)
    requires AllOf(log, p, n)
    ensures AllOf(log + [r], p, n)
  {
    forall k | 0 <= k < n ensures At(log + [r], p, k) { AtGrows(log, r, p, k); }
  }

  lemma AllHanded(log: seq<Ran>, p: nat, ws: seq<Worker>, fed: nat)
    requires HandedOn(log, p, ws, fed) && forall w :: 0 <= w < |ws| ==> !Busy(ws[w])
    ensures AllOf(log, p, fed)
  {
  }

  lemma CoveredNext(c: Scan, s: State, retries: seq<Job>)
    requires Shape(c, s) && Covered(s) && Enabled(c, s, Next(retries))
    ensures Covered(Advanced(c, s, retries))
  {
    hide Fits, Tail, RetryList, Failed, LastTests, AllOf, HandedOn;
    var t := Advanced(c, s, retries);
    if !s.cancelled {
      AllHanded(s.log, Phase(s), s.workers, s.fed);
      NoneHanded(t.log, Phase(t), t.workers);
      NoneOf(t.log, 1);
      if Phase(s) < 3 {
        assert forall p :: 0 <= p < |s.lists| ==> t.lists[p] == s.lists[p];
      }
    }
  }

  lemma NoneHanded(log: seq<Ran>, p: nat, ws: seq<Worker>)
    ensures HandedOn(log, p, ws, 0)
  {
  }

  lemma NoneOf(log: seq<Ran>, p: nat)
    ensures AllOf(log, p, 0)
  {
  }

  lemma CoveredRecord(c: Scan, s: State, w: nat)
    requires Shape(c, s) && Covered(s) && Enabled(c, s, Record(w))
    ensures Covered(Recorded(c, s, w))
  {
    hide Fits, Tail, Foresee, AllOf, HandedOn;
    if !s.cancelled {
      var r := Ran(Phase(s), s.workers[w].k, Queue(s)[s.workers[w].k], s.workers[w].r);
      RecordsHand(s.log, r, s.workers, w, s.fed);
      forall p | 0 <= p < Phase(s) ensures AllOf(s.log + [r], p, |s.lists[p]|) { AllGrows(s.log, r, p, |s.lists[p]|); }
    }
  }

  lemma CoveredStep(c: Scan, s: State, e: Step)
    requires Shape(c, s) && Covered(s) && Enabled(c, s, e)
    ensures Covered(After(c, s, e))
  {
    hide Fits, Tail, RetryList, Failed, LastTests, Foresee, AllOf, HandedOn, Advanced, Recorded;
    if e.Next? {
      CoveredNext(c, s, e.retries);
    } else if e.Record? {
      CoveredRecord(c, s, e.w);
    } else if !s.cancelled {
      match e
      case Close =>
      case Cancel =>
      case Drop(_) =>
      case Hand(w) => KeepsHand(s.log, Phase(s), s.workers, w, Got(s.fed), s.fed);
      case Leave(w) => KeepsHand(s.log, Phase(s), s.workers, w, Gone, s.fed);
      case Start(w) => KeepsHand(s.log, Phase(s), s.workers, w, After(c, s, e).workers[w], s.fed);
      case Land(w, _) => KeepsHand(s.log, Phase(s), s.workers, w, After(c, s, e).workers[w], s.fed);
      case Check(w) => KeepsHand(s.log, Phase(s), s.workers, w, After(c, s, e).workers[w], s.fed);
    }
  }

  // ---- one invariant for all of it ----

  predicate Inv(c: Scan, s: State) {
    && Shape(c, s) && Once(c, s) && Pools(s) && Ordered(s) && Counted(s) && Forecasts(c, s) && Totalled(c, s)
        && Covered(s)
  }

  lemma PlacesInit(c: Scan, s: State)
    requires Initial(c, s)
    ensures Once(c, s) && Pools(s) && Ordered(s) && Covered(s)
  {
    hide Tail, Shuffled;
    NobodyFlies(Queue(s), s.workers);
  }

  lemma CountsInit(c: Scan, s: State)
    requires Initial(c, s)
    ensures Counted(s) && Forecasts(c, s) && Totalled(c, s)
  {
    hide Tail, Shuffled, Count, BusyCount;
    NobodyBusy(s.workers);
    assert s.lists == [] + [s.lists[0]];
    SizeMore([], s.lists[0]);
    CountNone(c.plans, false);
    CountNone(c.plans, true);
  }

  lemma InvInit(c: Scan, s: State)
    requires Initial(c, s)
    ensures Inv(c, s)
  {
    hide Initial, Shape, Once, Pools, Ordered, Counted, Forecasts, Totalled, Covered;
    ShapeInit(c, s);
    PlacesInit(c, s);
    CountsInit(c, s);
  }

  lemma InvStep(c: Scan, s: State, e: Step)
    requires Inv(c, s) && Enabled(c, s, e)
    ensures Inv(c, After(c, s, e)) && After(c, s, e).total >= s.total
  {
    hide Shape, Once, Pools, Ordered, Counted, Forecasts, Totalled, Covered, After, Enabled;
    ShapeStep(c, s, e);
    OnceStep(c, s, e);
    PoolsStep(c, s, e);
    OrderedStep(c, s, e);
    CountedStep(c, s, e);
    ForecastsStep(c, s, e);
    TotalledStep(c, s, e);
    CoveredStep(c, s, e);
  }

  lemma {:induction false} InvRun(c: Scan, s: State, run: seq<Step>)
    requires Inv(c, s) && Legal(c, s, run)
    ensures Inv(c, End(c, s, run)) && End(c, s, run).total >= s.total
    decreases |run|
  {
    hide Inv, After, Enabled;
    if run != [] {
      InvStep(c, s, run[0]);
      InvRun(c, After(c, s, run[0]), run[1..]);
    }
  }

  lemma Reachable(c: Scan, s0: State, run: seq<Step>)
    requires Initial(c, s0) && Legal(c, s0, run)
    ensures Inv(c, End(c, s0, run))
  {
    InvInit(c, s0);
    InvRun(c, s0, run);
  }

  // ---- the theorems ----

  /** Every job runs at most once; if the scan was not stopped and is over, every
      job of every phase ran exactly once. */
  lemma JobsRunOnce(c: Scan, s0: State, run: seq<Step>)
    requires Initial(c, s0) && Legal(c, s0, run)
    ensures var s := End(c, s0, run);
            && Begun(s) && Distinct(s.log) && Truthful(s.log, s.lists)
            && (s.over && !s.cancelled ==> |s.lists| == 4 && forall p :: 0 <= p < 4 ==> AllOf(s.log, p, |s.lists[p]|))
  {
    Reachable(c, s0, run);
    var s := End(c, s0, run);
    hide Legal, End, Once, Pools, Ordered, Counted, Forecasts, Totalled, Fits, Tail, AllOf, HandedOn;
    if s.over && !s.cancelled {
      AllHanded(s.log, 3, s.workers, s.fed);
    }
    OnceSays(c, s);
  }

  lemma OnceSays(c: Scan, s: State)
    requires Begun(s) && Once(c, s)
    ensures Distinct(s.log) && Truthful(s.log, s.lists)
  {
  }

  /** Two attempts of one pool are never in flight together; while an attempt of
      the tail is in flight nothing else is. */
  lemma FlightsAreSafe(c: Scan, s0: State, run: seq<Step>)
    requires Initial(c, s0) && Legal(c, s0, run)
    ensures var s := End(c, s0, run);
            Begun(s) && forall v, w :: 0 <= v < w < |s.workers| && s.workers[v].Flying? && s.workers[w].Flying? ==>
              && s.workers[v].k < |Queue(s)| && s.workers[w].k < |Queue(s)|
              && (Queue(s)[s.workers[v].k].p.serial == ""
                  || Queue(s)[s.workers[v].k].p.serial != Queue(s)[s.workers[w].k].p.serial)
              && !Queue(s)[s.workers[v].k].p.last && !Queue(s)[s.workers[w].k].p.last
  {
    Reachable(c, s0, run);
    var s := End(c, s0, run);
    hide Legal, End, Once, Ordered, Counted, Forecasts, Totalled, Covered, Tail;
    assert Fits(c, Phase(s), s.lists[Phase(s)]);
    forall v, w | 0 <= v < w < |s.workers| && s.workers[v].Flying? && s.workers[w].Flying?
      ensures && s.workers[v].k < |Queue(s)| && s.workers[w].k < |Queue(s)|
              && (Queue(s)[s.workers[v].k].p.serial == ""
                  || Queue(s)[s.workers[v].k].p.serial != Queue(s)[s.workers[w].k].p.serial)
              && !Queue(s)[s.workers[v].k].p.last && !Queue(s)[s.workers[w].k].p.last
    {
      assert PoolAt(Queue(s), s.workers[v].k) == Queue(s)[s.workers[v].k].p.serial;
    }
  }

  /** The first tail runs by rank: Tor and all else, then the bursts that are controls,
      then those that provoke; and it starts only after everything before it has been
      recorded. */
  lemma TailByRank(c: Scan, s0: State, run: seq<Step>, i: nat, j: nat)
    requires Initial(c, s0) && Legal(c, s0, run) && i < j < |End(c, s0, run).log|
    ensures var log := End(c, s0, run).log;
            && log[i].phase <= log[j].phase
            && (log[i].phase == log[j].phase == 2 ==> MayFollow(log[i].job.p, log[j].job.p))
  {
    Reachable(c, s0, run);
    var s := End(c, s0, run);
    hide Legal, End, Pools, Counted, Forecasts, Totalled, Covered, Tail, Fits, Distinct, Below, Mine, Apart;
    TailHolds(c.plans, c.opt.repeat);
    if s.log[i].phase == s.log[j].phase == 2 {
      assert RankLe(s.lists[2][s.log[i].k], s.lists[2][s.log[j].k]);
    }
  }

  /** The total never shrinks, progress never passes it, and an unstopped scan
      that is over ends with done = total = number of attempts. */
  lemma ProgressIsHonest(c: Scan, s0: State, run: seq<Step>, more: seq<Step>)
    requires Initial(c, s0) && Legal(c, s0, run) && Legal(c, End(c, s0, run), more)
    ensures var s, t := End(c, s0, run), End(c, End(c, s0, run), more);
            && s.total <= t.total && s.done == |s.log| && s.done <= s.total
            && (s.over && !s.cancelled ==> s.done == s.total == |s.log|)
  {
    Reachable(c, s0, run);
    InvRun(c, End(c, s0, run), more);
    hide Legal, End, Shape, Once, Pools, Ordered, Counted, Forecasts, Totalled, Covered;
    DoneWithinTotal(c, End(c, s0, run));
  }

  // ---- every scan comes to its end ----

  /** How many of its own steps a worker is away from returning, at least. */
  function Stage(w: Worker): nat {
    match w
    case Gone => 0
    case Idle => 1
    case Checked(_, _) => 2
    case Back(_, _) => 3
    case Flying(_) => 4
    case Got(_) => 5
  }

  function Stages(ws: seq<Worker>): nat {
    if ws == [] then 0 else Stages(ws[..|ws| - 1]) + Stage(ws[|ws| - 1])
  }

  lemma {:induction false} StagesSet(ws: seq<Worker>, w: nat, x: Worker)
    requires w < |ws|
    ensures Stages(ws[w := x]) + Stage(ws[w]) == Stages(ws) + Stage(x)
  {
    var us := ws[w := x];
    if w == |ws| - 1 {
      assert us[..|ws| - 1] == ws[..|ws| - 1];
    } else {
      StagesSet(ws[..|ws| - 1], w, x);
      assert us[..|ws| - 1] == ws[..|ws| - 1][w := x];
    }
  }

  /** Phases to come, and work left in this one. */
  function PhasesLeft(s: State): int { 4 - |s.lists| + if s.over then 0 else 1 }

  function WorkLeft(s: State): int
    requires Begun(s)
  {
    5 * (|Queue(s)| - s.fed) + Stages(s.workers) + if s.closed then 0 else 1
  }

  predicate Closer(s: State, t: State)
    requires Begun(s)
  {
    && 0 <= PhasesLeft(t) <= PhasesLeft(s)
    && (PhasesLeft(t) == PhasesLeft(s) ==> Begun(t) && 0 <= WorkLeft(t) < WorkLeft(s))
  }

  lemma NextIsCloser(c: Scan, s: State, retries: seq<Job>)
    requires Shape(c, s) && Enabled(c, s, Next(retries))
    ensures Closer(s, Advanced(c, s, retries))
  {
    hide Fits, Tail, RetryList, Failed, LastTests, Stages;
  }

  /** Every step but the caller's stop brings the scan closer to its end. */
  lemma StepsRunOut(c: Scan, s: State, e: Step)
    requires Shape(c, s) && Enabled(c, s, e) && e != Cancel
    ensures Closer(s, After(c, s, e))
  {
    hide Fits, Tail, RetryList, Failed, LastTests, Foresee, Stages, Advanced;
    match e
    case Close =>
    case Next(retries) => NextIsCloser(c, s, retries);
    case Hand(w) => StagesSet(s.workers, w, Got(s.fed));
    case Record(w) => StagesSet(s.workers, w, Idle);
    case Drop(w) => StagesSet(s.workers, w, Gone);
    case Leave(w) => StagesSet(s.workers, w, Gone);
    case Start(w) => StagesSet(s.workers, w, Flying(s.workers[w].k));
    case Land(w, r) => StagesSet(s.workers, w, Back(s.workers[w].k, r));
    case Check(w) => StagesSet(s.workers, w, After(c, s, e).workers[w]);
  }

  /** A step of worker w that is possible, unless it waits for work or for a pool. */
  function Own(w: nat, x: Worker): Step {
    match x
    case Got(_) => Start(w)
    case Flying(_) => Land(w, Good)
    case Back(_, _) => Check(w)
    case Checked(_, _) => Record(w)
    case Idle => Leave(w)
    case Gone => Close
  }

  /** The retries the next phase would be built of. */
  ghost function SomeRetries(c: Scan, s: State): seq<Job>
    requires Begun(s)
  {
    var w := Again(c, s);
    if !Retryable(c, s) then []
    else if w.last then RankedRounds(c.plans, w, c.opt.repeat + 1, c.opt.retry)
    else AllRounds(c.plans, w, c.opt.repeat + 1, c.opt.retry)
  }

  lemma {:induction false} UnshuffledIsShuffled(plans: seq<Plan>, w: Want, start: nat, n: nat)
    ensures Shuffled(AllRounds(plans, w, start, n), plans, w, start, n)
  {
    if n > 0 {
      UnshuffledIsShuffled(plans, w, start, n - 1);
      ShuffledStep(AllRounds(plans, w, start, n - 1), OneRound(plans, w, start + n - 1), plans, w, start, n - 1);
    }
  }

  lemma MayAdvance(c: Scan, s: State)
    requires Shape(c, s) && !s.over && s.closed && forall w :: 0 <= w < |s.workers| ==> s.workers[w].Gone?
    ensures Enabled(c, s, Next(SomeRetries(c, s)))
  {
    hide Fits, Tail, Failed, LastTests, Shuffled, AllRounds, RankedRounds;
    UnshuffledIsShuffled(c.plans, Again(c, s), c.opt.repeat + 1, c.opt.retry);
  }

  /** No deadlock: as long as the scan is not over some step of it is possible.
      A worker that waits for a pool waits for an attempt that is in flight. */
  lemma NeverStuck(c: Scan, s: State)
    requires Inv(c, s) && !s.over && c.opt.parallel > 0
    ensures exists e :: e != Cancel && Enabled(c, s, e)
  {
    hide Once, Ordered, Counted, Forecasts, Totalled, Covered, Fits, Tail, RetryList, Failed, LastTests;
    var first := s.workers[0];
    if w :| 0 <= w < |s.workers| && !s.workers[w].Gone? && !s.workers[w].Idle? && !s.workers[w].Got? {
      assert Enabled(c, s, Own(w, s.workers[w]));
    } else if w :| 0 <= w < |s.workers| && s.workers[w].Got? {
      assert InFlight(Queue(s), s.workers) == {};
      assert Enabled(c, s, Start(w));
    } else if !s.closed && (s.fed == |Queue(s)| || s.cancelled) {
      assert Enabled(c, s, Close);
    } else if w :| 0 <= w < |s.workers| && s.workers[w].Idle? {
      assert if s.closed then Enabled(c, s, Leave(w)) else Enabled(c, s, Hand(w));
    } else if s.closed {
      MayAdvance(c, s);
    }
  }
}
