/** The progress total of a scan: what was promised, what is built, what was done. */
module ScheduleForecast {
  import opened Base
  import opened SchedulePlan
  import opened Scheduler

  // ---- counting jobs ----

  function BusyCount(ws: seq<Worker>): nat {
    if ws == [] then 0 else BusyCount(ws[..|ws| - 1]) + if Busy(ws[|ws| - 1]) then 1 else 0
  }

  lemma {:induction false} BusySet(ws: seq<Worker>, w: nat, x: Worker)
    requires w < |ws|
    ensures BusyCount(ws[w := x]) + (if Busy(ws[w]) then 1 else 0) == BusyCount(ws) + if Busy(x) then 1 else 0
  {
    var us := ws[w := x];
    if w == |ws| - 1 {
      assert us[..|ws| - 1] == ws[..|ws| - 1];
    } else {
      BusySet(ws[..|ws| - 1], w, x);
      assert us[..|ws| - 1] == ws[..|ws| - 1][w := x];
    }
  }

  lemma {:induction false} NobodyBusy(ws: seq<Worker>)
    requires forall w :: 0 <= w < |ws| ==> !Busy(ws[w])
    ensures BusyCount(ws) == 0
  {
    if ws != [] { NobodyBusy(ws[..|ws| - 1]); }
  }

  /** The jobs of all lists together. */
  function Size(lists: seq<seq<Job>>): nat {
    if lists == [] then 0 else Size(lists[..|lists| - 1]) + |lists[|lists| - 1]|
  }

  lemma SizeMore(lists: seq<seq<Job>>, js: seq<Job>)
    ensures Size(lists + [js]) == Size(lists) + |js|
  {
    assert (lists + [js])[..|lists|] == lists;
  }

  lemma SizeTwoMore(lists: seq<seq<Job>>, js: seq<Job>, ks: seq<Job>)
    ensures Size(lists + [js, ks]) == Size(lists) + |js| + |ks| && (lists + [js, ks])[..|lists| + 1] == lists + [js]
  {
    assert lists + [js, ks] == lists + [js] + [ks];
    SizeMore(lists, js);
    SizeMore(lists + [js], ks);
  }

  /** Every job handed over is recorded or in a worker's hands, unless the scan was stopped. */
  predicate Counted(s: State)
    requires Begun(s)
  {
    && s.done == |s.log|
    && |s.log| + BusyCount(s.workers) <= Size(s.lists[..Phase(s)]) + s.fed
    && (!s.cancelled ==> |s.log| + BusyCount(s.workers) == Size(s.lists[..Phase(s)]) + s.fed)
  }

  lemma CountedNext(c: Scan, s: State, retries: seq<Job>)
    requires Shape(c, s) && Counted(s) && Enabled(c, s, Next(retries))
    ensures Counted(Advanced(c, s, retries))
  {
    hide Fits, Tail, RetryList, Failed, LastTests, BusyCount, Size;
    var t := Advanced(c, s, retries);
    NobodyBusy(s.workers);
    NobodyBusy(t.workers);
    SizeMore(s.lists[..Phase(s)], Queue(s));
    assert s.lists == s.lists[..Phase(s)] + [Queue(s)];
    if Phase(s) == 0 && |retries| == 0 {
      var tail := Tail(c.plans, c.opt.repeat);
      SizeTwoMore(s.lists, [], tail);
      SizeMore(s.lists, []);
    } else if Phase(s) < 3 {
      assert t.lists[..Phase(t)] == s.lists;
    }
  }

  lemma CountedStep(c: Scan, s: State, e: Step)
    requires Shape(c, s) && Counted(s) && Enabled(c, s, e)
    ensures Counted(After(c, s, e))
  {
    hide Fits, Tail, RetryList, Failed, LastTests, Foresee, BusyCount, Size, Advanced;
    match e
    case Close =>
    case Cancel =>
    case Next(retries) => CountedNext(c, s, retries);
    case Record(w) => BusySet(s.workers, w, Idle);
    case Hand(w) => BusySet(s.workers, w, Got(s.fed));
    case Drop(w) => BusySet(s.workers, w, Gone);
    case Leave(w) => BusySet(s.workers, w, Gone);
    case Start(w) => BusySet(s.workers, w, After(c, s, e).workers[w]);
    case Land(w, _) => BusySet(s.workers, w, After(c, s, e).workers[w]);
    case Check(w) => BusySet(s.workers, w, After(c, s, e).workers[w]);
  }

  // ---- what a forecast knows ----

  function FailedIn(log: seq<Ran>, phase: nat): set<string> {
    set i | 0 <= i < |log| && Failing(log[i]) && log[i].phase == phase :: log[i].job.p.group
  }

  /** A forecast counts the groups that failed in its phase, and promises one
      retry of each of their plans per retry round. */
  predicate Knows(c: Scan, f: Forecast, log: seq<Ran>, last: bool) {
    && f.count == c.opt.retry * Count(c.plans, Want(last, Some(f.groups)))
    && f.groups == if c.opt.retry > 0 then FailedIn(log, if last then 2 else 0) else {}
  }

  predicate Forecasts(c: Scan, s: State) { Knows(c, s.main, s.log, false) && Knows(c, s.tail, s.log, true) }

  lemma FailedInMore(log: seq<Ran>, r: Ran, phase: nat)
    ensures FailedIn(log + [r], phase) == FailedIn(log, phase) + if Failing(r)
            && r.phase == phase then {r.job.p.group} else {}
  {
    var more := log + [r];
    assert forall i :: 0 <= i < |log| ==> more[i] == log[i];
    assert more[|log|] == r;
  }

  lemma Distribute(a: nat, b: nat, c: nat)
    ensures a * (b + c) == a * b + a * c
  {
  }

  lemma KnowsMore(c: Scan, f: Forecast, log: seq<Ran>, r: Ran, last: bool)
    requires Knows(c, f, log, last) && Failing(r) && r.phase == (if last then 2 else 0) && r.job.p.last == last
            && c.opt.retry > 0
    ensures Knows(c, Foresee(c, f, r.job.p), log + [r], last)
  {
    hide FailedIn, Count;
    FailedInMore(log, r, r.phase);
    var g := r.job.p.group;
    CountGrows(c.plans, last, f.groups, g);
    Distribute(c.opt.retry, Count(c.plans, Want(last, Some(f.groups))), Count(c.plans, Want(last, Some({g}))));
    assert g in f.groups ==> f.groups + {g} == f.groups;
  }

  lemma KnowsSame(c: Scan, f: Forecast, log: seq<Ran>, r: Ran, last: bool)
    requires Knows(c, f, log, last) && (c.opt.retry == 0 || !Failing(r) || r.phase != if last then 2 else 0)
    ensures Knows(c, f, log + [r], last)
  {
    hide FailedIn, Count;
    FailedInMore(log, r, if last then 2 else 0);
  }

  lemma ForecastsStep(c: Scan, s: State, e: Step)
    requires Shape(c, s) && Forecasts(c, s) && Enabled(c, s, e)
    ensures Forecasts(c, After(c, s, e))
  {
    hide Tail, RetryList, Failed, LastTests, Foresee, Knows;
    if e.Record? {
      var t := After(c, s, e);
      var r := t.log[|s.log|];
      assert r.job == s.lists[Phase(s)][r.k] && Fits(c, Phase(s), s.lists[Phase(s)]);
      if c.opt.retry > 0 && r.job.round <= c.opt.repeat && r.result == Bad {
        KnowsMore(c, if r.job.p.last then s.tail else s.main, s.log, r, r.job.p.last);
        KnowsSame(c, if r.job.p.last then s.main else s.tail, s.log, r, !r.job.p.last);
      } else {
        KnowsSame(c, s.main, s.log, r, false);
        KnowsSame(c, s.tail, s.log, r, true);
      }
    }
  }

  // ---- forecast and construction ----

  /** Each test id is always late or never. */
  predicate Pure(plans: seq<Plan>) {
    forall i, j :: 0 <= i < |plans| && 0 <= j < |plans| && plans[i].test == plans[j].test
        ==> plans[i].last == plans[j].last
  }

  lemma FailedMain(c: Scan, s: State)
    requires Shape(c, s) && Once(c, s) && Phase(s) == 0
    ensures Failed(s.log, None) == FailedIn(s.log, 0)
  {
  }

  lemma FailedTail(c: Scan, s: State)
    requires Shape(c, s) && Once(c, s) && Phase(s) == 2
    ensures FailedIn(s.log, 2) <= Failed(s.log, Some(LastTests(c.plans)))
    ensures Pure(c.plans) ==> FailedIn(s.log, 2) == Failed(s.log, Some(LastTests(c.plans)))
  {
    hide Distinct, Below, Mine, Apart, Tail;
    forall i | 0 <= i < |s.log|
      ensures s.log[i].job.p in c.plans && s.log[i].job.p.last == (s.log[i].phase == 2)
    {
      assert Fits(c, s.log[i].phase, s.lists[s.log[i].phase]);
    }
    forall i | 0 <= i < |s.log| && s.log[i].phase == 2 ensures s.log[i].job.p.test in LastTests(c.plans) {
      var k :| 0 <= k < |c.plans| && c.plans[k] == s.log[i].job.p;
      assert c.plans[k].last;
    }
    if Pure(c.plans) {
      forall i | 0 <= i < |s.log| && s.log[i].job.p.test in LastTests(c.plans) ensures s.log[i].phase == 2 {
        var k :| 0 <= k < |c.plans| && c.plans[k] == s.log[i].job.p;
        var l :| 0 <= l < |c.plans| && c.plans[l].last && c.plans[l].test == s.log[i].job.p.test;
        assert c.plans[k].test == c.plans[l].test;
      }
    }
  }

  /** What a forecast of the ended phase promised. */
  function Promised(s: State): int
    requires Begun(s)
  {
    if Phase(s) == 0 then s.main.count else s.tail.count
  }

  lemma Scaled(n: nat, a: nat, b: nat)
    requires a <= b
    ensures n * a <= n * b
  {
  }

  lemma ScaledStrictly(n: nat, a: nat, b: nat)
    requires n > 0 && a <= b
    ensures n * a == n * b <==> a == b
  {
    if a < b {
      Scaled(n, 1, b - a);
      Distribute(n, a, b - a);
    }
  }

  /** The retries built are at least those foretold; in the main part exactly
      those. In the tail they are exactly those when no test id is both late and
      not, and in general exactly when no late plan stands in a group that only
      an attempt outside the tail, of a test that is late elsewhere, saw fail. */
  lemma BuiltAsForetold(c: Scan, s: State, retries: seq<Job>)
    requires Shape(c, s) && Once(c, s) && Forecasts(c, s) && Enabled(c, s, Next(retries)) && Retryable(c, s)
    ensures |retries| >= Promised(s)
    ensures Phase(s) == 0 || Pure(c.plans) ==> |retries| == Promised(s)
    ensures Phase(s) == 2 ==>
              (|retries| == Promised(s) <==>
               forall i :: 0 <= i < |c.plans| ==>
                             !Extra(c.plans[i], true, FailedIn(s.log, 2), Failed(s.log, Some(LastTests(c.plans)))))
  {
    hide Shape, Once, Fits, Failed, FailedIn, Count, LastTests, RetryList, Pure, Tail, Extra;
    RetryHolds(retries, c.plans, c.opt, Again(c, s));
    if Phase(s) == 0 {
      FailedMain(c, s);
    } else {
      FailedTail(c, s);
      var all := Failed(s.log, Some(LastTests(c.plans)));
      CountMonotone(c.plans, true, s.tail.groups, all);
      CountStrict(c.plans, true, s.tail.groups, all);
      ScaledStrictly(c.opt.retry, Count(c.plans, Want(true, Some(s.tail.groups))),
          Count(c.plans, Want(true, Some(all))));
      Scaled(c.opt.retry, Count(c.plans, Want(true, Some(s.tail.groups))), Count(c.plans, Want(true, Some(all))));
    }
  }

  // ---- the total ----

  function Ahead(c: Scan, s: State): int
    requires Begun(s)
  {
    Size(s.lists) + (if Phase(s) < 2 then |Tail(c.plans, c.opt.repeat)| else 0)
    + (if Phase(s) == 0 then s.main.count else 0) + if Phase(s) <= 2 then s.tail.count else 0
  }

  /** The total covers what ran, runs, will run, and is foretold; and no more,
      unless the scan was stopped. */
  predicate Totalled(c: Scan, s: State)
    requires Begun(s)
  {
    s.total >= Ahead(c, s) && (!s.cancelled ==> s.total == Ahead(c, s))
  }

  lemma {:induction false} CountNone(plans: seq<Plan>, last: bool)
    ensures Count(plans, Want(last, Some({}))) == 0
  {
    if plans != [] { CountNone(plans[..|plans| - 1], last); }
  }

  /** Where no retries are built in an unstopped scan, none were foretold. */
  lemma NothingForetold(c: Scan, s: State)
    requires Shape(c, s) && Once(c, s) && Forecasts(c, s) && !s.cancelled && !Retryable(c, s)
            && (Phase(s) == 0 || Phase(s) == 2)
    ensures Promised(s) == 0
  {
    hide Distinct, Below, Mine, Apart, Tail, Count;
    CountNone(c.plans, false);
    CountNone(c.plans, true);
    if c.opt.retry > 0 {
      assert Phase(s) == 2 && |s.lists[2]| == 0;
      assert FailedIn(s.log, 2) == {} by {
        assert forall i :: 0 <= i < |s.log| ==> s.log[i].phase != 2;
      }
    }
  }

  lemma Promises(c: Scan, s: State)
    requires Forecasts(c, s)
    ensures s.main.count >= 0 && s.tail.count >= 0
  {
    Scaled(c.opt.retry, 0, Count(c.plans, Want(false, Some(s.main.groups))));
    Scaled(c.opt.retry, 0, Count(c.plans, Want(true, Some(s.tail.groups))));
  }

  lemma TotalledNext(c: Scan, s: State, retries: seq<Job>)
    requires Shape(c, s) && Once(c, s) && Forecasts(c, s) && Totalled(c, s) && Enabled(c, s, Next(retries))
    ensures Totalled(c, Advanced(c, s, retries)) && Advanced(c, s, retries).total >= s.total
  {
    hide Shape, Once, Forecasts, Fits, Failed, FailedIn, Count, LastTests, RetryList, Pure, Tail, Size;
    var tail := Tail(c.plans, c.opt.repeat);
    Promises(c, s);
    if Retryable(c, s) {
      BuiltAsForetold(c, s, retries);
    } else if !s.cancelled && (Phase(s) == 0 || Phase(s) == 2) {
      NothingForetold(c, s);
    }
    SizeMore(s.lists, retries);
    SizeMore(s.lists, tail);
    SizeTwoMore(s.lists, [], tail);
  }

  lemma ForeseeGrows(c: Scan, f: Forecast, p: Plan)
    ensures Foresee(c, f, p).count >= f.count
  {
    Scaled(c.opt.retry, 0, Count(c.plans, Want(p.last, Some({p.group}))));
  }

  lemma TotalledRecord(c: Scan, s: State, w: nat)
    requires Shape(c, s) && Totalled(c, s) && Enabled(c, s, Record(w))
    ensures Totalled(c, Recorded(c, s, w)) && Recorded(c, s, w).total >= s.total
  {
    hide Tail, Size, Foresee;
    var job := Queue(s)[s.workers[w].k];
    assert Fits(c, Phase(s), s.lists[Phase(s)]);
    assert job.p.last == (Phase(s) >= 2) && (job.round <= c.opt.repeat <==> Phase(s) % 2 == 0);
    ForeseeGrows(c, s.main, job.p);
    ForeseeGrows(c, s.tail, job.p);
  }

  /** The total stays right, and never shrinks. */
  lemma TotalledStep(c: Scan, s: State, e: Step)
    requires Shape(c, s) && Once(c, s) && Forecasts(c, s) && Totalled(c, s) && Enabled(c, s, e)
    ensures Totalled(c, After(c, s, e)) && After(c, s, e).total >= s.total
  {
    hide Shape, Once, Forecasts, Tail, Size, Failed, LastTests, RetryList, Recorded, Advanced;
    match e
    case Record(w) => TotalledRecord(c, s, w);
    case Next(retries) => TotalledNext(c, s, retries);
    case _ =>
  }

  /** So progress never passes the total, and meets it when the scan is over. */
  lemma DoneWithinTotal(c: Scan, s: State)
    requires Shape(c, s) && Counted(s) && Forecasts(c, s) && Totalled(c, s)
    ensures s.done == |s.log| && s.done <= s.total
    ensures s.over && !s.cancelled ==> s.done == s.total
  {
    hide Tail, Size, Forecasts, BusyCount, Fits;
    Promises(c, s);
    assert s.lists == s.lists[..Phase(s)] + [Queue(s)];
    SizeMore(s.lists[..Phase(s)], Queue(s));
    if s.over {
      NobodyBusy(s.workers);
    }
  }
}
