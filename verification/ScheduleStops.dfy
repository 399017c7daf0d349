/** What a scan that is stopped records (internal/client/run.go): an attempt that ends
    after the stop is never a failure. */
module ScheduleStops {
  import opened Base
  import opened SchedulePlan
  import opened Scheduler

  /** The jobs that had ended as failures, and were found so, when the scan stopped. */
  function FoundBad(s: State): set<nat> {
    set w | 0 <= w < |s.workers| && s.workers[w].Checked? && s.workers[w].r == Bad :: s.workers[w].k
  }

  /** Of what is recorded from place n on, and of what is about to be, only those are failures. */
  ghost predicate Spared(s: State, n: nat, phase: nat, bad: set<nat>) {
    && s.cancelled && Begun(s) && n <= |s.log| && phase <= Phase(s)
    && (forall i :: n <= i < |s.log| && s.log[i].result == Bad ==> s.log[i].phase == phase && s.log[i].k in bad)
    && (forall w :: 0 <= w < |s.workers| && s.workers[w].Checked? && s.workers[w].r == Bad ==>
          phase == Phase(s) && s.workers[w].k in bad)
  }

  lemma StopSpares(c: Scan, s: State)
    requires Begun(s) && Enabled(c, s, Cancel)
    ensures Spared(After(c, s, Cancel), |s.log|, Phase(s), FoundBad(s))
  {
  }

  lemma SparedStep(c: Scan, s: State, e: Step, n: nat, phase: nat, bad: set<nat>)
    requires Spared(s, n, phase, bad) && Enabled(c, s, e)
    ensures Spared(After(c, s, e), n, phase, bad)
  {
    hide Foresee, Tail, RetryList, Again, Pool;
  }

  lemma {:induction false} SparedRun(c: Scan, s: State, run: seq<Step>, n: nat, phase: nat, bad: set<nat>)
    requires Spared(s, n, phase, bad) && Legal(c, s, run)
    ensures Spared(End(c, s, run), n, phase, bad)
    decreases |run|
  {
    hide Spared, After, Enabled;
    if run != [] {
      SparedStep(c, s, run[0], n, phase, bad);
      SparedRun(c, After(c, s, run[0]), run[1..], n, phase, bad);
    }
  }

  /** In every run that goes on after the stop, an attempt recorded later is a failure
      only if it had ended as one before. */
  lemma StoppedIsNotFailed(c: Scan, s: State, run: seq<Step>, i: nat)
    requires Begun(s) && Enabled(c, s, Cancel) && Legal(c, After(c, s, Cancel), run)
    ensures var t := End(c, After(c, s, Cancel), run);
            |s.log| <= i < |t.log| && t.log[i].result == Bad ==> t.log[i].phase == Phase(s) && t.log[i].k in FoundBad(s)
  {
    hide FoundBad, Legal, End;
    StopSpares(c, s);
    SparedRun(c, After(c, s, Cancel), run, |s.log|, Phase(s), FoundBad(s));
  }
}
