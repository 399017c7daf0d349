/** What a scan is made of (internal/client/run.go): the jobs of its rounds, the
    order of its tail, which groups failed, and the rounds that run them again. */
module SchedulePlan {
  import opened Base
  import opened Sorting

  datatype PlanRole = BaselineRole | VariantRole | ControlRole

  /** One test of the plan list; serial names its reservation pool, "" for none. */
  datatype Plan = Plan(test: string, group: string, role: PlanRole, variant: string, last: bool, serial: string)

  datatype Job = Job(p: Plan, round: nat)

  datatype Options = Options(repeat: nat, retry: nat, parallel: nat)

  datatype Result = Good | Skip | Bad

  /** A recorded attempt: job number k of the list of its phase. */
  datatype Ran = Ran(phase: nat, k: nat, job: Job, result: Result)

  // ---- rounds ----

  /** Which plans a list of rounds is made of. */
  datatype Want = Want(last: bool, only: Option<set<string>>)

  predicate Wants(w: Want, p: Plan) { p.last == w.last && (w.only.None? || p.group in w.only.value) }

  function Count(plans: seq<Plan>, w: Want): nat {
    if plans == [] then 0
    else Count(plans[..|plans| - 1], w) + if Wants(w, plans[|plans| - 1]) then 1 else 0
  }

  function OneRound(plans: seq<Plan>, w: Want, round: nat): (js: seq<Job>)
    ensures |js| == Count(plans, w)
  {
    if plans == [] then []
    else
      var js := OneRound(plans[..|plans| - 1], w, round);
      if Wants(w, plans[|plans| - 1]) then js + [Job(plans[|plans| - 1], round)] else js
  }

  function AllRounds(plans: seq<Plan>, w: Want, start: nat, n: nat): (js: seq<Job>)
    ensures |js| == n * Count(plans, w)
  {
    if n == 0 then [] else AllRounds(plans, w, start, n - 1) + OneRound(plans, w, start + n - 1)
  }

  /** js are n rounds one after the other, each in some order of its own. */
  predicate Shuffled(js: seq<Job>, plans: seq<Plan>, w: Want, start: nat, n: nat)
    decreases n
  {
    if n == 0 then js == []
    else
      var c := Count(plans, w);
      c <= |js| && Shuffled(js[..|js| - c], plans, w, start, n - 1)
      && multiset(js[|js| - c..]) == multiset(OneRound(plans, w, start + n - 1))
  }

  function TailRank(p: Plan): nat {
    if p.test == "tls.burst" && p.role == ControlRole then 1
    else if p.test == "tls.burst" then 2
    else 0
  }

  /** b may follow a in the tail: after a burst come only bursts, and after one that
      provokes only such. */
  predicate MayFollow(a: Plan, b: Plan) {
    a.test == "tls.burst" ==> b.test == "tls.burst" && (a.role != ControlRole ==> b.role != ControlRole)
  }

  predicate RankLe(a: Job, b: Job) { TailRank(a.p) <= TailRank(b.p) }

  function Tail(plans: seq<Plan>, repeat: nat): seq<Job> {
    StableSort(AllRounds(plans, Want(true, None), 1, repeat), RankLe)
  }

  /** The tail's retry rounds are ordered by rank one round at a time. */
  function RankedRounds(plans: seq<Plan>, w: Want, start: nat, n: nat): seq<Job> {
    if n == 0 then [] else RankedRounds(plans, w, start, n - 1) + StableSort(OneRound(plans, w, start + n - 1), RankLe)
  }

  // ---- failures ----

  predicate Failing(r: Ran) { r.result == Bad }

  /** The groups with a failed attempt; with only, of those tests. */
  function Failed(log: seq<Ran>, only: Option<set<string>>): set<string> {
    set i | 0 <= i < |log| && Failing(log[i]) && (only.None? || log[i].job.p.test in only.value) :: log[i].job.p.group
  }

  function LastTests(plans: seq<Plan>): set<string> {
    set i | 0 <= i < |plans| && plans[i].last :: plans[i].test
  }

  // ---- the loops ----

  /** rand.Shuffle: every order is possible, nothing is lost. */
  method Shuffle(js: seq<Job>) returns (r: seq<Job>)
    ensures |r| == |js| && multiset(r) == multiset(js)
  {
    r := js;
    var i := |js| - 1;
    while i > 0
      invariant -1 <= i < |js| && |r| == |js| && multiset(r) == multiset(js)
    {
      var j :| 0 <= j <= i;
      r := r[i := r[j]][j := r[i]];
      i := i - 1;
    }
  }

  method PickRound(plans: seq<Plan>, w: Want, round: nat) returns (js: seq<Job>)
    ensures js == OneRound(plans, w, round)
  {
    js := [];
    for i := 0 to |plans|
      invariant js == OneRound(plans[..i], w, round)
    {
      assert plans[..i + 1][..i] == plans[..i];
      if plans[i].last == w.last && (w.only.None? || plans[i].group in w.only.value) {
        js := js + [Job(plans[i], round)];
      }
    }
    assert plans[..|plans|] == plans;
  }

  lemma ShuffledStep(js: seq<Job>, more: seq<Job>, plans: seq<Plan>, w: Want, start: nat, n: nat)
    requires Shuffled(js, plans, w, start, n) && |more| == Count(plans, w)
    requires multiset(more) == multiset(OneRound(plans, w, start + n))
    ensures Shuffled(js + more, plans, w, start, n + 1)
  {
    var all := js + more;
    assert all[..|all| - |more|] == js && all[|all| - |more|..] == more;
  }

  /** The jobs that run in parallel, round after round, and the serial tail. */
  method BuildJobs(plans: seq<Plan>, opt: Options) returns (jobs: seq<Job>, tail: seq<Job>)
    ensures Shuffled(jobs, plans, Want(false, None), 1, opt.repeat)
    ensures tail == Tail(plans, opt.repeat)
  {
    jobs, tail := [], [];
    for r := 0 to opt.repeat
      invariant Shuffled(jobs, plans, Want(false, None), 1, r)
      invariant tail == AllRounds(plans, Want(true, None), 1, r)
    {
      var late := PickRound(plans, Want(true, None), r + 1);
      tail := tail + late;
      var round := PickRound(plans, Want(false, None), r + 1);
      round := Shuffle(round);
      ShuffledStep(jobs, round, plans, Want(false, None), 1, r);
      jobs := jobs + round;
    }
    tail := StableSort(tail, RankLe);
  }

  method FailedGroups(log: seq<Ran>, only: Option<set<string>>) returns (out: set<string>)
    ensures out == Failed(log, only)
  {
    out := {};
    for i := 0 to |log|
      invariant out == Failed(log[..i], only)
    {
      FailedStep(log, only, i);
      if only.Some? && log[i].job.p.test !in only.value {
        continue;
      }
      if log[i].result != Good && log[i].result != Skip {
        out := out + {log[i].job.p.group};
      }
    }
    assert log[..|log|] == log;
  }

  lemma FailedStep(log: seq<Ran>, only: Option<set<string>>, i: nat)
    requires i < |log|
    ensures Failed(log[..i + 1], only) == Failed(log[..i], only)
              + if Failing(log[i]) && (only.None? || log[i].job.p.test in only.value) then {log[i].job.p.group} else {}
  {
    var a, b := log[..i], log[..i + 1];
    assert forall j :: 0 <= j < |b| ==> b[j] == if j < i then a[j] else log[i];
  }

  /** The retry rounds of the main part (in any order) or of the tail (by rank). */
  predicate RetryList(js: seq<Job>, plans: seq<Plan>, opt: Options, w: Want) {
    if w.last then js == RankedRounds(plans, w, opt.repeat + 1, opt.retry)
    else Shuffled(js, plans, w, opt.repeat + 1, opt.retry)
  }

  method RetryRounds(plans: seq<Plan>, opt: Options, last: bool, failed: set<string>) returns (js: seq<Job>)
    ensures RetryList(js, plans, opt, Want(last, Some(failed)))
  {
    hide OneRound, Count, StableSort;
    js := [];
    var w := Want(last, Some(failed));
    for r := 0 to opt.retry
      invariant if last then js == RankedRounds(plans, w, opt.repeat + 1, r)
              else Shuffled(js, plans, w, opt.repeat + 1, r)
    {
      var round := PickRound(plans, w, opt.repeat + 1 + r);
      if last {
        round := StableSort(round, RankLe);
      } else {
        round := Shuffle(round);
        ShuffledStep(js, round, plans, w, opt.repeat + 1, r);
      }
      js := js + round;
    }
  }

  // ---- what the lists hold ----

  lemma {:induction false} RoundMembers(plans: seq<Plan>, w: Want, round: nat)
    ensures forall j :: j in OneRound(plans, w, round) ==> Wants(w, j.p) && j.round == round && j.p in plans
  {
    if plans != [] {
      RoundMembers(plans[..|plans| - 1], w, round);
    }
  }

  /** Every job of a list is wanted and belongs to one of its rounds. */
  predicate Proper(js: seq<Job>, plans: seq<Plan>, w: Want, start: nat, n: nat) {
    forall i :: 0 <= i < |js| ==> Wants(w, js[i].p) && start <= js[i].round < start + n && js[i].p in plans
  }

  lemma ProperStep(js: seq<Job>, more: seq<Job>, plans: seq<Plan>, w: Want, start: nat, n: nat)
    requires Proper(js, plans, w, start, n)
    requires multiset(more) == multiset(OneRound(plans, w, start + n))
    ensures Proper(js + more, plans, w, start, n + 1)
  {
    RoundMembers(plans, w, start + n);
    forall i | 0 <= i < |more|
      ensures Wants(w, more[i].p) && more[i].round == start + n && more[i].p in plans
    {
      assert more[i] in multiset(more);
      assert more[i] in OneRound(plans, w, start + n);
    }
  }

  lemma OneMore(n: nat, c: nat)
    requires n > 0
    ensures n * c == (n - 1) * c + c
  {
  }

  lemma {:induction false} ShuffledLength(js: seq<Job>, plans: seq<Plan>, w: Want, start: nat, n: nat)
    requires Shuffled(js, plans, w, start, n)
    ensures |js| == n * Count(plans, w)
    decreases n
  {
    hide Count, OneRound;
    if n > 0 {
      var c := Count(plans, w);
      ShuffledLength(js[..|js| - c], plans, w, start, n - 1);
      OneMore(n, c);
    }
  }

  lemma {:induction false} ShuffledProper(js: seq<Job>, plans: seq<Plan>, w: Want, start: nat, n: nat)
    requires Shuffled(js, plans, w, start, n)
    ensures Proper(js, plans, w, start, n)
    decreases n
  {
    hide Count, OneRound, Wants;
    if n > 0 {
      var c := Count(plans, w);
      ShuffledProper(js[..|js| - c], plans, w, start, n - 1);
      ProperStep(js[..|js| - c], js[|js| - c..], plans, w, start, n - 1);
      assert js == js[..|js| - c] + js[|js| - c..];
    }
  }

  lemma SortLength(js: seq<Job>)
    ensures |StableSort(js, RankLe)| == |js| && multiset(StableSort(js, RankLe)) == multiset(js)
  {
    SortContents(js, RankLe);
    assert |multiset(js)| == |js| && |multiset(StableSort(js, RankLe))| == |StableSort(js, RankLe)|;
  }

  lemma {:induction false} RankedHolds(plans: seq<Plan>, w: Want, start: nat, n: nat)
    ensures var js := RankedRounds(plans, w, start, n); |js| == n * Count(plans, w) && Proper(js, plans, w, start, n)
  {
    if n == 0 {
    } else {
      hide Proper, StableSort;
      RankedHolds(plans, w, start, n - 1);
      var round := OneRound(plans, w, start + n - 1);
      SortLength(round);
      ProperStep(RankedRounds(plans, w, start, n - 1), StableSort(round, RankLe), plans, w, start, n - 1);
      OneMore(n, Count(plans, w));
    }
  }

  lemma {:induction false} AllProper(plans: seq<Plan>, w: Want, start: nat, n: nat)
    ensures Proper(AllRounds(plans, w, start, n), plans, w, start, n)
  {
    if n > 0 {
      AllProper(plans, w, start, n - 1);
      ProperStep(AllRounds(plans, w, start, n - 1), OneRound(plans, w, start + n - 1), plans, w, start, n - 1);
    }
  }

  /** The first tail: every round of every late plan, by rank. */
  lemma TailHolds(plans: seq<Plan>, repeat: nat)
    ensures var w := Want(true, None);
            && |Tail(plans, repeat)| == repeat * Count(plans, w)
            && Proper(Tail(plans, repeat), plans, w, 1, repeat)
            && Sorted(Tail(plans, repeat), RankLe)
  {
    var w := Want(true, None);
    var flat, tail := AllRounds(plans, w, 1, repeat), Tail(plans, repeat);
    SortSpec(flat, RankLe);
    assert |multiset(flat)| == |flat| && |multiset(tail)| == |tail|;
    AllProper(plans, w, 1, repeat);
    forall i | 0 <= i < |tail| ensures Wants(w, tail[i].p) && 1 <= tail[i].round < 1 + repeat && tail[i].p in plans {
      assert tail[i] in multiset(tail);
      assert tail[i] in flat;
    }
  }

  /** Tor and all else, then the bursts that are controls, then those that provoke. */
  lemma TailInOrder(plans: seq<Plan>, repeat: nat, i: nat, j: nat)
    requires i < j < |Tail(plans, repeat)|
    ensures MayFollow(Tail(plans, repeat)[i].p, Tail(plans, repeat)[j].p)
  {
    hide Tail;
    TailHolds(plans, repeat);
    assert RankLe(Tail(plans, repeat)[i], Tail(plans, repeat)[j]);
  }

  lemma RetryHolds(js: seq<Job>, plans: seq<Plan>, opt: Options, w: Want)
    requires RetryList(js, plans, opt, w)
    ensures |js| == opt.retry * Count(plans, w) && Proper(js, plans, w, opt.repeat + 1, opt.retry)
  {
    if w.last {
      RankedHolds(plans, w, opt.repeat + 1, opt.retry);
    } else {
      ShuffledLength(js, plans, w, opt.repeat + 1, opt.retry);
      ShuffledProper(js, plans, w, opt.repeat + 1, opt.retry);
    }
  }

  // ---- counting plans by group ----

  lemma {:induction false} CountGrows(plans: seq<Plan>, last: bool, groups: set<string>, g: string)
    ensures Count(plans, Want(last, Some(groups + {g})))
         == Count(plans, Want(last, Some(groups))) + if g in groups then 0 else Count(plans, Want(last, Some({g})))
  {
    if plans != [] {
      CountGrows(plans[..|plans| - 1], last, groups, g);
    }
  }

  lemma {:induction false} CountMonotone(plans: seq<Plan>, last: bool, few: set<string>, many: set<string>)
    requires few <= many
    ensures Count(plans, Want(last, Some(few))) <= Count(plans, Want(last, Some(many)))
  {
    if plans != [] {
      CountMonotone(plans[..|plans| - 1], last, few, many);
    }
  }

  /** A plan that the wider set of groups takes in and the narrower does not. */
  predicate Extra(p: Plan, last: bool, few: set<string>, many: set<string>) {
    p.last == last && p.group in many && p.group !in few
  }

  lemma {:induction false} CountStrict(plans: seq<Plan>, last: bool, few: set<string>, many: set<string>)
    requires few <= many
    ensures Count(plans, Want(last, Some(few))) == Count(plans, Want(last, Some(many)))
       <==> forall i :: 0 <= i < |plans| ==> !Extra(plans[i], last, few, many)
  {
    if plans != [] {
      var init := plans[..|plans| - 1];
      CountStrict(init, last, few, many);
      CountMonotone(init, last, few, many);
      assert forall i :: 0 <= i < |init| ==> init[i] == plans[i];
    }
  }
}
