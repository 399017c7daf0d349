/** Which plans a scan runs again (internal/client/run.go), in every interleaving: those of
    the groups with a failure, and no other. */
module ScheduleRetries {
  import opened Base
  import opened Sorting
  import opened SchedulePlan
  import opened Scheduler
  import opened ScheduleRuns

  /** An attempt up to phase p failed in the group; with only, of one of those tests. */
  ghost predicate FailedBy(log: seq<Ran>, p: nat, only: Option<set<string>>, group: string) {
    exists i ::
      && 0 <= i < |log| && log[i].phase <= p && log[i].result !in {Good, Skip} && log[i].job.p.group == group
      && (only.Some? ==> log[i].job.p.test in only.value)
  }

  function FailedUpTo(log: seq<Ran>, p: nat, only: Option<set<string>>): set<string> {
    set i | 0 <= i < |log| && log[i].phase <= p && log[i].result == Bad
            && (only.None? || log[i].job.p.test in only.value) :: log[i].job.p.group
  }

  lemma FailedUpToIs(log: seq<Ran>, p: nat, only: Option<set<string>>, group: string)
    ensures group in FailedUpTo(log, p, only) <==> FailedBy(log, p, only, group)
  {
  }

  lemma FailedAll(log: seq<Ran>, p: nat, only: Option<set<string>>)
    requires forall i :: 0 <= i < |log| ==> log[i].phase <= p
    ensures FailedUpTo(log, p, only) == Failed(log, only)
  {
  }

  lemma FailedLater(log: seq<Ran>, x: Ran, p: nat, only: Option<set<string>>)
    requires x.phase > p
    ensures FailedUpTo(log + [x], p, only) == FailedUpTo(log, p, only)
  {
    var more := log + [x];
    assert forall i :: 0 <= i < |log| ==> more[i] == log[i];
    forall g | g in FailedUpTo(log, p, only) ensures g in FailedUpTo(more, p, only) {
      var i :| 0 <= i < |log| && log[i].phase <= p && log[i].result == Bad
               && (only.None? || log[i].job.p.test in only.value) && log[i].job.p.group == g;
      assert more[i] == log[i];
    }
  }

  /** The lists of an unstopped scan hold what its first rounds and its failures call for. */
  predicate Retried(c: Scan, s: State) {
    !s.cancelled && Begun(s) ==>
      && Shuffled(s.lists[0], c.plans, Want(false, None), 1, c.opt.repeat)
      && (|s.lists| >= 2 ==>
            RetryList(s.lists[1], c.plans, c.opt, Want(false, Some(FailedUpTo(s.log, 0, None)))))
      && (|s.lists| >= 4 ==>
            if s.lists[2] == [] then s.lists[3] == []
            else RetryList(s.lists[3], c.plans, c.opt,
                           Want(true, Some(FailedUpTo(s.log, 2, Some(LastTests(c.plans)))))))
  }

  lemma NoRetries(c: Scan, w: Want)
    requires c.opt.retry == 0
    ensures RetryList([], c.plans, c.opt, w)
  {
  }

  lemma RetriedRecord(c: Scan, s: State, w: nat)
    requires Shape(c, s) && Retried(c, s) && Enabled(c, s, Record(w))
    ensures Retried(c, Recorded(c, s, w))
  {
    hide RetryList, Shuffled, FailedUpTo, Foresee, Tail, Fits;
    var x := Ran(Phase(s), s.workers[w].k, Queue(s)[s.workers[w].k], s.workers[w].r);
    if |s.lists| >= 2 { FailedLater(s.log, x, 0, None); }
    if |s.lists| >= 4 { FailedLater(s.log, x, 2, Some(LastTests(c.plans))); }
  }

  lemma RetriedNext(c: Scan, s: State, retries: seq<Job>)
    requires Shape(c, s) && Below(s.log, Phase(s), s.fed) && Retried(c, s) && Enabled(c, s, Next(retries))
    ensures Retried(c, Advanced(c, s, retries))
  {
    hide RetryList, Shuffled, FailedUpTo, Failed, Tail, Fits, LastTests;
    if !s.cancelled {
      if Phase(s) == 0 {
        FailedAll(s.log, 0, None);
        if c.opt.retry == 0 { NoRetries(c, Want(false, Some(FailedUpTo(s.log, 0, None)))); }
      } else if Phase(s) == 2 {
        FailedAll(s.log, 2, Some(LastTests(c.plans)));
        if c.opt.retry == 0 { NoRetries(c, Want(true, Some(FailedUpTo(s.log, 2, Some(LastTests(c.plans)))))); }
      }
    }
  }

  lemma RetriedStep(c: Scan, s: State, e: Step)
    requires Shape(c, s) && Below(s.log, Phase(s), s.fed) && Retried(c, s) && Enabled(c, s, e)
    ensures Retried(c, After(c, s, e))
  {
    hide RetryList, Shuffled, FailedUpTo, Recorded, Advanced, Tail, Fits, LastTests, Failed, Shape, Below;
    match e
    case Next(retries) => RetriedNext(c, s, retries);
    case Record(w) => RetriedRecord(c, s, w);
    case _ =>
  }

  lemma {:induction false} RetriedRun(c: Scan, s: State, run: seq<Step>)
    requires Inv(c, s) && Retried(c, s) && Legal(c, s, run)
    ensures Retried(c, End(c, s, run))
    decreases |run|
  {
    hide Shape, Once, Retried, After, Enabled;
    if run != [] {
      Bounds(c, s);
      RetriedStep(c, s, run[0]);
      InvStep(c, s, run[0]);
      RetriedRun(c, After(c, s, run[0]), run[1..]);
    }
  }

  lemma Bounds(c: Scan, s: State)
    requires Inv(c, s)
    ensures Shape(c, s) && Begun(s) && Below(s.log, Phase(s), s.fed)
  {
  }

  // ---- what the lists hold ----

  lemma {:induction false} RoundHas(plans: seq<Plan>, w: Want, round: nat, j: Job)
    ensures j in OneRound(plans, w, round) <==> j.p in plans && Wants(w, j.p) && j.round == round
  {
    hide Wants;
    if plans != [] {
      RoundHas(plans[..|plans| - 1], w, round, j);
      assert plans == plans[..|plans| - 1] + [plans[|plans| - 1]];
    }
  }

  lemma {:induction false} ShuffledHas(js: seq<Job>, plans: seq<Plan>, w: Want, start: nat, n: nat, j: Job)
    requires Shuffled(js, plans, w, start, n)
    ensures j in js <==> j.p in plans && Wants(w, j.p) && start <= j.round < start + n
    decreases n
  {
    hide Wants, OneRound, Count;
    if n > 0 {
      var c := Count(plans, w);
      var init, last := js[..|js| - c], js[|js| - c..];
      ShuffledHas(init, plans, w, start, n - 1, j);
      RoundHas(plans, w, start + n - 1, j);
      assert js == init + last;
      assert j in multiset(last) <==> j in multiset(OneRound(plans, w, start + n - 1));
    }
  }

  lemma {:induction false} RankedHas(plans: seq<Plan>, w: Want, start: nat, n: nat, j: Job)
    ensures j in RankedRounds(plans, w, start, n) <==> j.p in plans && Wants(w, j.p) && start <= j.round < start + n
  {
    hide Wants, OneRound, StableSort;
    if n > 0 {
      RankedHas(plans, w, start, n - 1, j);
      var round := OneRound(plans, w, start + n - 1);
      RoundHas(plans, w, start + n - 1, j);
      SortLength(round);
      assert j in multiset(StableSort(round, RankLe)) <==> j in multiset(round);
    }
  }

  lemma RetryHas(js: seq<Job>, plans: seq<Plan>, opt: Options, w: Want, j: Job)
    requires RetryList(js, plans, opt, w)
    ensures j in js <==> j.p in plans && Wants(w, j.p) && opt.repeat < j.round <= opt.repeat + opt.retry
  {
    hide Wants, Shuffled, RankedRounds;
    if w.last {
      RankedHas(plans, w, opt.repeat + 1, opt.retry, j);
    } else {
      ShuffledHas(js, plans, w, opt.repeat + 1, opt.retry, j);
    }
  }

  lemma TailHas(plans: seq<Plan>, repeat: nat, j: Job)
    ensures j in Tail(plans, repeat) <==> j.p in plans && j.p.last && 1 <= j.round <= repeat
  {
    hide StableSort, AllRounds;
    var flat := AllRounds(plans, Want(true, None), 1, repeat);
    AllHas(plans, Want(true, None), 1, repeat, j);
    SortContents(flat, RankLe);
    assert j in multiset(Tail(plans, repeat)) <==> j in multiset(flat);
  }

  lemma {:induction false} AllHas(plans: seq<Plan>, w: Want, start: nat, n: nat, j: Job)
    ensures j in AllRounds(plans, w, start, n) <==> j.p in plans && Wants(w, j.p) && start <= j.round < start + n
  {
    hide Wants, OneRound;
    if n > 0 {
      AllHas(plans, w, start, n - 1, j);
      RoundHas(plans, w, start + n - 1, j);
    }
  }

  // ---- the theorem ----

  /** The attempt was recorded. */
  ghost predicate RanIn(s: State, j: Job) { exists i :: 0 <= i < |s.log| && s.log[i].job == j }

  /** In an unstopped scan that is over, what ran is what is in the lists. */
  lemma RanIffListed(c: Scan, s0: State, run: seq<Step>, j: Job)
    requires Initial(c, s0) && Legal(c, s0, run) && End(c, s0, run).over && !End(c, s0, run).cancelled
    ensures |End(c, s0, run).lists| == 4
    ensures RanIn(End(c, s0, run), j) <==> exists p :: 0 <= p < 4 && j in End(c, s0, run).lists[p]
  {
    JobsRunOnce(c, s0, run);
    var s := End(c, s0, run);
    hide Legal, End, Initial, Distinct;
    if p :| 0 <= p < 4 && j in s.lists[p] {
      var k :| 0 <= k < |s.lists[p]| && s.lists[p][k] == j;
      assert At(s.log, p, k);
    }
    if RanIn(s, j) {
      var i :| 0 <= i < |s.log| && s.log[i].job == j;
      assert j in s.lists[s.log[i].phase];
    }
  }

  /** In every run of an unstopped scan that is over, an attempt was made exactly when it
      is one of the first rounds of a plan, or one of the retries of a plan whose group had
      a failure: for the main part in the first rounds, for the tail in any attempt before
      its retries, of a test that is late. */
  lemma RetriedIff(c: Scan, s0: State, run: seq<Step>, j: Job)
    requires Initial(c, s0) && Legal(c, s0, run) && End(c, s0, run).over && !End(c, s0, run).cancelled
    ensures var s := End(c, s0, run);
            RanIn(s, j)
            <==> && j.p in c.plans && 1 <= j.round <= c.opt.repeat + c.opt.retry
                 && (j.round > c.opt.repeat ==>
                       if j.p.last then FailedBy(s.log, 2, Some(LastTests(c.plans)), j.p.group)
                       else FailedBy(s.log, 0, None, j.p.group))
  {
    InvInit(c, s0);
    Reachable(c, s0, run);
    RetriedRun(c, s0, run);
    RanIffListed(c, s0, run, j);
    var s := End(c, s0, run);
    hide Legal, End, Initial;
    ListsHold(c, s, j);
  }

  lemma ListsHold(c: Scan, s: State, j: Job)
    requires Shape(c, s) && Once(c, s) && Retried(c, s) && !s.cancelled && |s.lists| == 4
    ensures (exists p :: 0 <= p < 4 && j in s.lists[p])
       <==> && j.p in c.plans && 1 <= j.round <= c.opt.repeat + c.opt.retry
            && (j.round > c.opt.repeat ==>
                  if j.p.last then FailedBy(s.log, 2, Some(LastTests(c.plans)), j.p.group)
                  else FailedBy(s.log, 0, None, j.p.group))
  {
    hide RetryList, Shuffled, FailedUpTo, FailedBy, Tail, Fits, LastTests, Distinct, Below, Mine, Apart;
    var only := Some(LastTests(c.plans));
    FailedUpToIs(s.log, 0, None, j.p.group);
    FailedUpToIs(s.log, 2, only, j.p.group);
    ShuffledHas(s.lists[0], c.plans, Want(false, None), 1, c.opt.repeat, j);
    RetryHas(s.lists[1], c.plans, c.opt, Want(false, Some(FailedUpTo(s.log, 0, None))), j);
    TailHas(c.plans, c.opt.repeat, j);
    if s.lists[2] != [] {
      RetryHas(s.lists[3], c.plans, c.opt, Want(true, Some(FailedUpTo(s.log, 2, only))), j);
    } else if j.p in c.plans && j.p.last {
      NoTail(c, s, j);
    }
    assert (exists p :: 0 <= p < 4 && j in s.lists[p])
      <==> j in s.lists[0] || j in s.lists[1] || j in s.lists[2] || j in s.lists[3];
  }

  /** Without a tail there were no first rounds, so nothing failed in them. */
  lemma NoTail(c: Scan, s: State, j: Job)
    requires Shape(c, s) && Once(c, s) && Retried(c, s) && !s.cancelled && |s.lists| == 4 && s.lists[2] == []
    requires j.p in c.plans && j.p.last
    ensures c.opt.repeat == 0 && !FailedBy(s.log, 2, Some(LastTests(c.plans)), j.p.group)
  {
    hide RetryList, Shuffled, Tail, Fits, LastTests, FailedUpTo, Distinct, Below, Mine, Apart;
    TailHas(c.plans, c.opt.repeat, Job(j.p, 1));
    assert c.opt.repeat == 0;
    ShuffledLength(s.lists[0], c.plans, Want(false, None), 1, 0);
    forall g ensures g !in FailedUpTo(s.log, 0, None) { NoneFailed(s.log, s.lists, 0, None, g); }
    var none := Want(false, Some(FailedUpTo(s.log, 0, None)));
    forall k ensures k !in s.lists[1] { RetryHas(s.lists[1], c.plans, c.opt, none, k); }
    if s.lists[1] != [] { FirstIn(s.lists[1]); }
    NoneFailed(s.log, s.lists, 2, Some(LastTests(c.plans)), j.p.group);
  }

  lemma FirstIn(js: seq<Job>)
    requires js != []
    ensures js[0] in js
  {
  }

  lemma NoneFailed(log: seq<Ran>, lists: seq<seq<Job>>, p: nat, only: Option<set<string>>, g: string)
    requires Truthful(log, lists) && forall q :: 0 <= q <= p && q < |lists| ==> lists[q] == []
    ensures !FailedBy(log, p, only, g) && g !in FailedUpTo(log, p, only)
  {
  }
}
