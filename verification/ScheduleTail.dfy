/** When the retries of the tail are those foretold (internal/client/run.go): a
    condition on the plans alone, and a run that breaks it where they do not meet it. */
module ScheduleTail {
  import opened Base
  import opened SchedulePlan
  import opened Scheduler
  import opened SchedulePools
  import opened ScheduleForecast
  import opened ScheduleRuns

  /** A late plan i, and a plan j of its group that is not late, of a test that is late elsewhere. */
  predicate Mixes(plans: seq<Plan>, i: nat, j: nat) {
    && i < |plans| && j < |plans| && plans[i].last && !plans[j].last && plans[i].group == plans[j].group
    && plans[j].test in LastTests(plans)
  }

  ghost predicate Mixed(plans: seq<Plan>) { exists i, j :: Mixes(plans, i, j) }

  // ---- without such a pair the forecast is exact ----

  /** Only a failure outside the tail, of a test that is late elsewhere, goes beyond the forecast. */
  lemma ExtraMixes(c: Scan, s: State, i: nat)
    requires Shape(c, s) && Once(c, s) && Phase(s) == 2 && i < |c.plans|
    requires Extra(c.plans[i], true, FailedIn(s.log, 2), Failed(s.log, Some(LastTests(c.plans))))
    ensures Mixed(c.plans)
  {
    hide Distinct, Below, Mine, Apart, Tail, LastTests;
    var n :| 0 <= n < |s.log| && Failing(s.log[n]) && s.log[n].job.p.test in LastTests(c.plans)
        && s.log[n].job.p.group == c.plans[i].group;
    assert Fits(c, s.log[n].phase, s.lists[s.log[n].phase]);
    var j :| 0 <= j < |c.plans| && c.plans[j] == s.log[n].job.p;
    assert Mixes(c.plans, i, j);
  }

  /** In every run: the retries built are those foretold, if no pair of plans mixes. */
  lemma UnmixedIsExact(c: Scan, s0: State, run: seq<Step>, retries: seq<Job>)
    requires Initial(c, s0) && Legal(c, s0, run) && !Mixed(c.plans)
    requires var s := End(c, s0, run); Begun(s) && Enabled(c, s, Next(retries)) && Retryable(c, s)
    ensures |retries| == Promised(End(c, s0, run))
  {
    Reachable(c, s0, run);
    var s := End(c, s0, run);
    hide Initial, Legal, End, Shape, Once, Pools, Ordered, Counted, Forecasts, Totalled, Covered, Enabled, Failed,
        FailedIn, LastTests, Extra, Mixed;
    BuiltAsForetold(c, s, retries);
    if Phase(s) == 2 {
      forall i | 0 <= i < |c.plans|
        ensures !Extra(c.plans[i], true, FailedIn(s.log, 2), Failed(s.log, Some(LastTests(c.plans))))
      {
        if Extra(c.plans[i], true, FailedIn(s.log, 2), Failed(s.log, Some(LastTests(c.plans)))) {
          ExtraMixes(c, s, i);
        }
      }
    }
  }

  // ---- with one, some run builds more ----

  /** How the attempts of the run end: those of one plan fail before the tail. */
  function Script(phase: nat, p: Plan, bad: Plan): Result { if phase == 0 && p == bad then Bad else Good }

  ghost predicate Scripted(s: State, bad: Plan) {
    && Begun(s) && !s.cancelled && !s.over && Phase(s) <= 2
    && (forall i :: 0 <= i < |s.log| ==> s.log[i].result == Script(s.log[i].phase, s.log[i].job.p, bad))
    && (forall w :: 0 <= w < |s.workers| && (s.workers[w].Back? || s.workers[w].Checked?) ==>
          s.workers[w].k < |Queue(s)| && s.workers[w].r == Script(Phase(s), Queue(s)[s.workers[w].k].p, bad))
  }

  /** The step as the run takes it: an attempt ends as the script says. */
  function Played(s: State, e: Step, bad: Plan): Step
    requires Begun(s)
  {
    if e.Land? && e.w < |s.workers| && s.workers[e.w].Flying? && s.workers[e.w].k < |Queue(s)|
    then Land(e.w, Script(Phase(s), Queue(s)[s.workers[e.w].k].p, bad)) else e
  }

  lemma ScriptedNext(c: Scan, s: State, retries: seq<Job>, bad: Plan)
    requires Shape(c, s) && Scripted(s, bad) && Enabled(c, s, Next(retries)) && Phase(s) < 2
    ensures Scripted(Advanced(c, s, retries), bad) && Advanced(c, s, retries).lists[0] == s.lists[0]
  {
    hide Fits, Tail, RetryList, Failed, LastTests, Script;
  }

  lemma ScriptedRecord(c: Scan, s: State, w: nat, bad: Plan)
    requires Shape(c, s) && Scripted(s, bad) && Enabled(c, s, Record(w))
    ensures Scripted(Recorded(c, s, w), bad) && Recorded(c, s, w).lists == s.lists
  {
    hide Fits, Tail, Foresee, Script;
  }

  lemma ScriptedStep(c: Scan, s: State, e: Step, bad: Plan)
    requires Shape(c, s) && Scripted(s, bad) && Enabled(c, s, e) && e != Cancel && e == Played(s, e, bad)
    requires e.Next? ==> Phase(s) < 2
    ensures Scripted(After(c, s, e), bad) && After(c, s, e).lists[0] == s.lists[0]
  {
    hide Fits, Tail, RetryList, Failed, LastTests, Foresee, Recorded, Advanced, Script;
    match e
    case Next(retries) => ScriptedNext(c, s, retries, bad);
    case Record(w) => ScriptedRecord(c, s, w, bad);
    case _ =>
  }

  ghost predicate TailDone(s: State)
    requires Begun(s)
  {
    Phase(s) == 2 && s.closed && forall w :: 0 <= w < |s.workers| ==> s.workers[w].Gone?
  }

  /** A step of the script, as long as the tail is not done. */
  lemma NextMove(c: Scan, s: State, bad: Plan) returns (e: Step)
    requires Inv(c, s) && Scripted(s, bad) && c.opt.parallel > 0 && !TailDone(s)
    ensures Enabled(c, s, e) && e != Cancel && e == Played(s, e, bad) && (e.Next? ==> Phase(s) < 2)
  {
    hide Once, Pools, Ordered, Counted, Forecasts, Totalled, Covered, Fits, Tail, RetryList, Failed, LastTests, Script;
    NeverStuck(c, s);
    e :| e != Cancel && Enabled(c, s, e);
    e := Played(s, e, bad);
  }

  /** The run goes on by the script until the tail is done. */
  lemma {:induction false} PlayOn(c: Scan, s: State, bad: Plan) returns (run: seq<Step>)
    requires Inv(c, s) && Scripted(s, bad) && c.opt.parallel > 0
    ensures Legal(c, s, run)
    ensures var t := End(c, s, run); Inv(c, t) && Scripted(t, bad) && TailDone(t) && t.lists[0] == s.lists[0]
    decreases PhasesLeft(s), WorkLeft(s)
  {
    hide Inv, After, Enabled, Scripted, TailDone;
    assert Begun(s) by { ScriptedBegins(s, bad); }
    if TailDone(s) {
      run := [];
    } else {
      var e := NextMove(c, s, bad);
      var t := After(c, s, e);
      InvStep(c, s, e);
      InvShapes(c, s);
      StepsRunOut(c, s, e);
      ScriptedStep(c, s, e, bad);
      MeasureIsNat(c, s);
      var rest := PlayOn(c, t, bad);
      run := [e] + rest;
      assert run[0] == e && run[1..] == rest;
    }
  }

  lemma ScriptedBegins(s: State, bad: Plan)
    requires Scripted(s, bad)
    ensures Begun(s)
  {
  }

  lemma InvShapes(c: Scan, s: State)
    requires Inv(c, s)
    ensures Shape(c, s)
  {
  }

  lemma MeasureIsNat(c: Scan, s: State)
    requires Shape(c, s)
    ensures Begun(s) && PhasesLeft(s) >= 0 && WorkLeft(s) >= 0
  {
    hide Fits, Tail;
  }

  // ---- what that run has recorded ----

  lemma {:induction false} RoundHolds(plans: seq<Plan>, w: Want, round: nat, j: nat)
    requires j < |plans| && Wants(w, plans[j])
    ensures Job(plans[j], round) in OneRound(plans, w, round)
  {
    if j < |plans| - 1 { RoundHolds(plans[..|plans| - 1], w, round, j); }
  }

  lemma {:induction false} FirstRoundHolds(plans: seq<Plan>, w: Want, n: nat, j: nat)
    requires j < |plans| && Wants(w, plans[j]) && n > 0
    ensures Job(plans[j], 1) in AllRounds(plans, w, 1, n)
  {
    hide OneRound, Wants;
    RoundHolds(plans, w, 1, j);
    if n > 1 {
      FirstRoundHolds(plans, w, n - 1, j);
    } else {
      assert AllRounds(plans, w, 1, 0) == [];
    }
  }

  lemma {:induction false} CountSome(plans: seq<Plan>, w: Want, i: nat)
    requires i < |plans| && Wants(w, plans[i])
    ensures Count(plans, w) > 0
  {
    if i < |plans| - 1 { CountSome(plans[..|plans| - 1], w, i); }
  }

  /** The plan that failed did so in the log, and the tail saw no failure. */
  lemma BadIsLogged(c: Scan, s: State, bad: Plan, k: nat)
    requires Inv(c, s) && Scripted(s, bad) && TailDone(s) && k < |s.lists[0]| && s.lists[0][k].p == bad
            && bad.test in LastTests(c.plans)
    ensures bad.group in Failed(s.log, Some(LastTests(c.plans))) && FailedIn(s.log, 2) == {}
  {
    hide Pools, Ordered, Counted, Forecasts, Totalled, Fits, Tail, LastTests, Distinct, Below, Mine, Apart, HandedOn;
    assert AllOf(s.log, 0, |s.lists[0]|);
    assert At(s.log, 0, k);
    var n :| 0 <= n < |s.log| && s.log[n].phase == 0 && s.log[n].k == k;
    assert s.log[n].job == s.lists[0][k];
    assert Failing(s.log[n]);
  }

  lemma MoreIsBuilt(c: Scan, s: State, i: nat, j: nat, retries: seq<Job>)
    requires Mixes(c.plans, i, j) && c.opt.retry > 0 && Forecasts(c, s) && Begun(s) && Phase(s) == 2
            && FailedIn(s.log, 2) == {}
    requires c.plans[j].group in Failed(s.log, Some(LastTests(c.plans)))
    requires RetryList(retries, c.plans, c.opt, Want(true, Some(Failed(s.log, Some(LastTests(c.plans))))))
    ensures |retries| > Promised(s)
  {
    hide Failed, LastTests, Count, RetryList, FailedIn;
    var w := Want(true, Some(Failed(s.log, Some(LastTests(c.plans)))));
    RetryHolds(retries, c.plans, c.opt, w);
    CountSome(c.plans, w, i);
    CountNone(c.plans, true);
    Positive(c.opt.retry, Count(c.plans, w));
  }

  lemma Positive(a: nat, b: nat)
    requires a > 0 && b > 0
    ensures a * b > 0
  {
  }

  lemma TailIsSome(c: Scan, s: State, i: nat)
    requires Shape(c, s) && Phase(s) == 2 && i < |c.plans| && c.plans[i].last && c.opt.repeat > 0
    ensures |Queue(s)| > 0
  {
    hide Tail, Fits, Count;
    TailHolds(c.plans, c.opt.repeat);
    CountSome(c.plans, Want(true, None), i);
    Positive(c.opt.repeat, Count(c.plans, Want(true, None)));
  }

  function Opening(c: Scan): State {
    var jobs := AllRounds(c.plans, Want(false, None), 1, c.opt.repeat);
    State([jobs], false, 0, false, seq(c.opt.parallel, _ => Idle), {}, false, [], 0,
          |jobs| + |Tail(c.plans, c.opt.repeat)|, Forecast({}, 0), Forecast({}, 0))
  }

  lemma Opens(c: Scan, bad: Plan)
    ensures Initial(c, Opening(c)) && Scripted(Opening(c), bad)
  {
    hide Tail, Shuffled, AllRounds;
    UnshuffledIsShuffled(c.plans, Want(false, None), 1, c.opt.repeat);
  }

  lemma FallsShort(c: Scan, s: State, i: nat, j: nat, k: nat)
    requires Inv(c, s) && Mixes(c.plans, i, j) && c.opt.repeat > 0 && c.opt.retry > 0
    requires Scripted(s, c.plans[j]) && TailDone(s) && k < |s.lists[0]| && s.lists[0][k].p == c.plans[j]
    ensures Enabled(c, s, Next(SomeRetries(c, s))) && Retryable(c, s) && |SomeRetries(c, s)| > Promised(s)
  {
    hide Once, Pools, Ordered, Counted, Totalled, Covered, Fits, Tail, Failed, FailedIn, LastTests, RetryList,
        Forecasts, SomeRetries;
    BadIsLogged(c, s, c.plans[j], k);
    TailIsSome(c, s, i);
    MayAdvance(c, s);
    MoreIsBuilt(c, s, i, j, SomeRetries(c, s));
  }

  /** Where a pair of plans mixes, some run builds more retries than it foretold. */
  lemma MixedBreaks(c: Scan, i: nat, j: nat) returns (run: seq<Step>, retries: seq<Job>)
    requires Mixes(c.plans, i, j) && c.opt.repeat > 0 && c.opt.retry > 0 && c.opt.parallel > 0
    ensures Initial(c, Opening(c)) && Legal(c, Opening(c), run)
    ensures var s := End(c, Opening(c), run);
            Begun(s) && Enabled(c, s, Next(retries)) && Retryable(c, s) && |retries| > Promised(s)
  {
    hide Inv, Initial, Legal, End, Scripted, TailDone, AllRounds, Tail, SomeRetries, Retryable, Enabled;
    var bad, s0 := c.plans[j], Opening(c);
    Opens(c, bad);
    InvInit(c, s0);
    run := PlayOn(c, s0, bad);
    var s := End(c, s0, run);
    ScriptedBegins(s, bad);
    retries := SomeRetries(c, s);
    FirstRoundHolds(c.plans, Want(false, None), c.opt.repeat, j);
    var k :| 0 <= k < |s0.lists[0]| && s0.lists[0][k] == Job(bad, 1);
    FallsShort(c, s, i, j, k);
  }

  /** The run reaches a point where more retries are built than were foretold. */
  ghost predicate Breaks(c: Scan, s0: State, run: seq<Step>, retries: seq<Job>) {
    && Initial(c, s0) && Legal(c, s0, run)
    && var s := End(c, s0, run);
       Begun(s) && Enabled(c, s, Next(retries)) && Retryable(c, s) && |retries| != Promised(s)
  }

  /** So over all runs the forecast of the tail is exact if and only if no pair mixes. */
  lemma ForecastIsExactIff(c: Scan)
    requires c.opt.repeat > 0 && c.opt.retry > 0 && c.opt.parallel > 0
    ensures (forall s0, run, retries :: !Breaks(c, s0, run, retries)) <==> !Mixed(c.plans)
  {
    if Mixed(c.plans) {
      var i, j :| Mixes(c.plans, i, j);
      var run, retries := MixedBreaks(c, i, j);
      assert Breaks(c, Opening(c), run, retries);
    } else {
      hide Mixed, Initial, Legal, End, Enabled;
      forall s0, run, retries ensures !Breaks(c, s0, run, retries) {
        if Initial(c, s0) && Legal(c, s0, run) && Begun(End(c, s0, run)) && Enabled(c, End(c, s0, run), Next(retries))
           && Retryable(c, End(c, s0, run)) {
          UnmixedIsExact(c, s0, run, retries);
        }
      }
    }
  }

  /** Such a scan: one test, once in the tail and once outside it, on one port. */
  lemma SomeForecastFallsShort() returns (run: seq<Step>, retries: seq<Job>)
    ensures var late := Plan("tls.burst", "tcp/443", VariantRole, "chrome-x4", true, "");
            var c := Scan([late, late.(last := false)], Options(1, 1, 1));
            Breaks(c, Opening(c), run, retries)
  {
    var late := Plan("tls.burst", "tcp/443", VariantRole, "chrome-x4", true, "");
    var c := Scan([late, late.(last := false)], Options(1, 1, 1));
    assert c.plans[0].last && c.plans[1].test == c.plans[0].test;
    run, retries := MixedBreaks(c, 0, 1);
  }

  /** A catalogue in which every test id is always late or never does not mix. */
  lemma PureDoesNotMix(plans: seq<Plan>)
    requires Pure(plans)
    ensures !Mixed(plans)
  {
  }
}
