/** The scheduler of a scan (internal/client/run.go) as a step system: workers
    that take jobs off an unbuffered queue, lock the pool of the job, run it,
    and record it under one mutex; phases that wait for all their workers; and a
    total that is raised the moment a failure makes retries foreseeable. */
module Scheduler {
  import opened Base
  import opened SchedulePlan

  datatype Worker = Idle | Got(k: nat) | Flying(k: nat) | Back(k: nat, r: Result) | Checked(k: nat, r: Result) | Gone

  predicate Busy(w: Worker) { !w.Idle? && !w.Gone? }

  /** Groups whose failure was counted in, and the retries it added to the total. */
  datatype Forecast = Forecast(groups: set<string>, count: int)

  datatype Scan = Scan(plans: seq<Plan>, opt: Options)

  /** lists[p] holds the jobs of phase p: 0 the parallel rounds, 1 their retries,
      2 the serial tail, 3 its retries. The last one is being run. */
  datatype State = State(
    lists: seq<seq<Job>>, over: bool, fed: nat, closed: bool, workers: seq<Worker>, held: set<string>,
    cancelled: bool, log: seq<Ran>, done: nat, total: int, main: Forecast, tail: Forecast)

  predicate Begun(s: State) { |s.lists| > 0 }

  function Phase(s: State): nat
    requires Begun(s)
  {
    |s.lists| - 1
  }

  function Queue(s: State): seq<Job>
    requires Begun(s)
  {
    s.lists[|s.lists| - 1]
  }

  datatype Step =
    | Hand(w: nat)              // the queue passes the next job to an idle worker
    | Close                     // everything handed over, or the scan was stopped
    | Drop(w: nat)              // a worker that finds the scan stopped returns
    | Start(w: nat)             // the pool is locked, the attempt begins
    | Land(w: nat, r: Result)   // the attempt ends, the pool is released
    | Check(w: nat)             // a failure of a stopped scan is not one
    | Record(w: nat)
    | Leave(w: nat)             // the queue is closed
    | Cancel
    | Next(retries: seq<Job>)   // every worker has returned: what runs next

  function Pool(s: State, k: nat): string
    requires Begun(s)
  {
    if k < |Queue(s)| then Queue(s)[k].p.serial else ""
  }

  /** Whether the phase that just ended may be followed by retries. */
  predicate Retryable(c: Scan, s: State)
    requires Begun(s)
  {
    c.opt.retry > 0 && !s.cancelled && (Phase(s) == 0 || (Phase(s) == 2 && |Queue(s)| > 0))
  }

  function Again(c: Scan, s: State): Want
    requires Begun(s)
  {
    if Phase(s) == 0 then Want(false, Some(Failed(s.log, None)))
    else Want(true, Some(Failed(s.log, Some(LastTests(c.plans)))))
  }

  predicate Enabled(c: Scan, s: State, e: Step)
    requires Begun(s)
  {
    && !s.over
    && match e
       case Hand(w) => w < |s.workers| && s.workers[w].Idle? && !s.closed && s.fed < |Queue(s)|
       case Close => !s.closed && (s.fed == |Queue(s)| || s.cancelled)
       case Drop(w) => w < |s.workers| && s.workers[w].Got? && s.cancelled
       case Start(w) => w < |s.workers| && s.workers[w].Got?
           && (Pool(s, s.workers[w].k) == "" || Pool(s, s.workers[w].k) !in s.held)
       case Land(w, _) => w < |s.workers| && s.workers[w].Flying?
       case Check(w) => w < |s.workers| && s.workers[w].Back?
       case Record(w) => w < |s.workers| && s.workers[w].Checked? && s.workers[w].k < |Queue(s)|
       case Leave(w) => w < |s.workers| && s.workers[w].Idle? && s.closed
       case Cancel => true
       case Next(retries) =>
         && s.closed && (forall w :: 0 <= w < |s.workers| ==> s.workers[w].Gone?)
         && if Retryable(c, s) then RetryList(retries, c.plans, c.opt, Again(c, s)) else retries == []
  }

  function Set(s: State, w: nat, x: Worker): State
    requires w < |s.workers|
  {
    s.(workers := s.workers[w := x])
  }

  /** The first failure of a group in the rounds that count adds its retries. */
  function Foresee(c: Scan, f: Forecast, p: Plan): Forecast {
    if p.group in f.groups then f
    else Forecast(f.groups + {p.group}, f.count + c.opt.retry * Count(c.plans, Want(p.last, Some({p.group}))))
  }

  function Recorded(c: Scan, s: State, w: nat): State
    requires Begun(s) && w < |s.workers| && s.workers[w].Checked? && s.workers[w].k < |Queue(s)|
  {
    var job, r := Queue(s)[s.workers[w].k], s.workers[w].r;
    var t := Set(s, w, Idle).(log := s.log + [Ran(Phase(s), s.workers[w].k, job, r)], done := s.done + 1);
    if c.opt.retry > 0 && job.round <= c.opt.repeat && r == Bad then
      if job.p.last then
        var f := Foresee(c, s.tail, job.p);
        t.(tail := f, total := s.total + (f.count - s.tail.count))
      else
        var f := Foresee(c, s.main, job.p);
        t.(main := f, total := s.total + (f.count - s.main.count))
    else t
  }

  function Open(s: State, lists: seq<seq<Job>>, parallel: nat): State {
    s.(lists := s.lists + lists, fed := 0, closed := false, workers := seq(parallel, _ => Idle))
  }

  function Advanced(c: Scan, s: State, retries: seq<Job>): State
    requires Begun(s)
  {
    var tail := Tail(c.plans, c.opt.repeat);
    if Phase(s) == 0 then
      var t := if Retryable(c, s) then s.(total := s.total + (|retries| - s.main.count)) else s;
      if |retries| > 0 then Open(t, [retries], c.opt.parallel) else Open(t, [[], tail], 1)
    else if Phase(s) == 1 then Open(s, [tail], 1)
    else if Phase(s) == 2 then
      var t := if Retryable(c, s) then s.(total := s.total + (|retries| - s.tail.count)) else s;
      if |retries| > 0 then Open(t, [retries], 1) else t.(lists := t.lists + [[]], fed := 0, over := true)
    else s.(over := true)
  }

  function After(c: Scan, s: State, e: Step): State
    requires Begun(s) && Enabled(c, s, e)
  {
    match e
    case Hand(w) => Set(s, w, Got(s.fed)).(fed := s.fed + 1)
    case Close => s.(closed := true)
    case Drop(w) => Set(s, w, Gone)
    case Start(w) =>
      var pool := Pool(s, s.workers[w].k);
      Set(s, w, Flying(s.workers[w].k)).(held := if pool == "" then s.held else s.held + {pool})
    case Land(w, r) => Set(s, w, Back(s.workers[w].k, r)).(held := s.held - {Pool(s, s.workers[w].k)})
    case Check(w) =>
      var r := s.workers[w].r;
      Set(s, w, Checked(s.workers[w].k, if s.cancelled && r != Good then Skip else r))
    case Record(w) => Recorded(c, s, w)
    case Leave(w) => Set(s, w, Gone)
    case Cancel => s.(cancelled := true)
    case Next(retries) => Advanced(c, s, retries)
  }

  predicate Initial(c: Scan, s: State) {
    && |s.lists| == 1 && Shuffled(s.lists[0], c.plans, Want(false, None), 1, c.opt.repeat)
    && s == State(s.lists, false, 0, false, seq(c.opt.parallel, _ => Idle), {}, false, [], 0,
                  |s.lists[0]| + |Tail(c.plans, c.opt.repeat)|, Forecast({}, 0), Forecast({}, 0))
  }

  /** A run: every step is possible where it is taken. */
  ghost predicate Legal(c: Scan, s: State, run: seq<Step>)
    decreases |run|
  {
    run == [] || (Begun(s) && Enabled(c, s, run[0]) && Legal(c, After(c, s, run[0]), run[1..]))
  }

  ghost function End(c: Scan, s: State, run: seq<Step>): State
    requires Legal(c, s, run)
    decreases |run|
  {
    if run == [] then s else End(c, After(c, s, run[0]), run[1..])
  }

  // ---- the shape of the state ----

  /** The jobs of phase p are the right ones. */
  predicate Fits(c: Scan, p: nat, js: seq<Job>) {
    forall i :: 0 <= i < |js| ==>
                  js[i].p in c.plans && js[i].p.last == (p >= 2) && (js[i].round <= c.opt.repeat <==> p % 2 == 0)
  }

  predicate Shape(c: Scan, s: State) {
    && 1 <= |s.lists| <= 4 && s.fed <= |Queue(s)|
    && (forall p :: 0 <= p < |s.lists| ==> Fits(c, p, s.lists[p]))
    && (|s.lists| > 2 ==> s.lists[2] == Tail(c.plans, c.opt.repeat))
    && (s.over || |s.workers| == if Phase(s) < 2 then c.opt.parallel else 1)
    && (forall w :: 0 <= w < |s.workers| && Busy(s.workers[w]) ==> s.workers[w].k < s.fed)
    && (s.closed ==> s.fed == |Queue(s)| || s.cancelled)
    && (forall w :: 0 <= w < |s.workers| && s.workers[w].Gone? ==> s.closed || s.cancelled)
    && (s.over ==> |s.lists| == 4 && s.closed && forall w :: 0 <= w < |s.workers| ==> s.workers[w].Gone?)
  }

  lemma ProperFits(c: Scan, js: seq<Job>, w: Want, again: bool)
    requires if again then Proper(js, c.plans, w, c.opt.repeat + 1, c.opt.retry)
            else Proper(js, c.plans, w, 1, c.opt.repeat)
    ensures Fits(c, (if w.last then 2 else 0) + if again then 1 else 0, js)
  {
  }

  lemma ShapeInit(c: Scan, s: State)
    requires Initial(c, s)
    ensures Shape(c, s)
  {
    ShuffledProper(s.lists[0], c.plans, Want(false, None), 1, c.opt.repeat);
    ProperFits(c, s.lists[0], Want(false, None), false);
  }

  lemma ShapeNext(c: Scan, s: State, retries: seq<Job>)
    requires Shape(c, s) && Enabled(c, s, Next(retries))
    ensures Shape(c, Advanced(c, s, retries))
  {
    hide Fits, RetryList, Proper, Tail, Failed, LastTests;
    var tail, t := Tail(c.plans, c.opt.repeat), Advanced(c, s, retries);
    TailHolds(c.plans, c.opt.repeat);
    ProperFits(c, tail, Want(true, None), false);
    NoneFits(c, Phase(s) + 1);
    if Retryable(c, s) {
      RetryHolds(retries, c.plans, c.opt, Again(c, s));
      ProperFits(c, retries, Again(c, s), true);
    }
    if Phase(s) < 3 {
      assert forall p :: 0 <= p < |s.lists| ==> t.lists[p] == s.lists[p];
      assert forall p :: |s.lists| <= p < |t.lists| ==> Fits(c, p, t.lists[p]);
    }
  }

  lemma NoneFits(c: Scan, p: nat)
    ensures Fits(c, p, [])
  {
  }

  lemma ShapeRecord(c: Scan, s: State, w: nat)
    requires Shape(c, s) && Enabled(c, s, Record(w))
    ensures Shape(c, Recorded(c, s, w))
  {
    hide Fits, Tail, RetryList, Failed, LastTests, Foresee;
  }

  lemma ShapeStep(c: Scan, s: State, e: Step)
    requires Shape(c, s) && Enabled(c, s, e)
    ensures Shape(c, After(c, s, e))
  {
    hide Fits, Tail, RetryList, Failed, LastTests, Foresee, Recorded, Advanced;
    match e
    case Next(retries) => ShapeNext(c, s, retries);
    case Record(w) => ShapeRecord(c, s, w);
    case _ =>
  }

  // ---- every job at most once ----

  /** Nothing is recorded twice. */
  predicate Distinct(log: seq<Ran>) {
    forall i, j :: 0 <= i < j < |log| ==> !(log[i].phase == log[j].phase && log[i].k == log[j].k)
  }

  /** What is recorded is the job of that place. */
  predicate Truthful(log: seq<Ran>, lists: seq<seq<Job>>) {
    forall i :: 0 <= i < |log| ==>
                  log[i].phase < |lists| && log[i].k < |lists[log[i].phase]|
                      && log[i].job == lists[log[i].phase][log[i].k]
  }

  predicate Below(log: seq<Ran>, phase: nat, fed: nat) {
    forall i :: 0 <= i < |log| ==> log[i].phase <= phase && (log[i].phase == phase ==> log[i].k < fed)
  }

  /** No two workers hold the same job. */
  predicate Mine(ws: seq<Worker>) {
    forall v, w :: 0 <= v < w < |ws| && Busy(ws[v]) && Busy(ws[w]) ==> ws[v].k != ws[w].k
  }

  /** Nothing a worker holds is recorded. */
  predicate Apart(log: seq<Ran>, phase: nat, ws: seq<Worker>) {
    forall i, w :: 0 <= i < |log| && 0 <= w < |ws| && log[i].phase == phase && Busy(ws[w]) ==> log[i].k != ws[w].k
  }

  predicate Once(c: Scan, s: State)
    requires Begun(s)
  {
    && Distinct(s.log) && Truthful(s.log, s.lists) && Below(s.log, Phase(s), s.fed)
    && Mine(s.workers) && Apart(s.log, Phase(s), s.workers)
  }

  /** Putting worker w into state x, holding what it held or nothing, changes nothing of this. */
  lemma SetWorker(ws: seq<Worker>, w: nat, x: Worker, log: seq<Ran>, phase: nat)
    requires w < |ws| && (Busy(x) ==> Busy(ws[w]) && x.k == ws[w].k)
    requires Mine(ws) && Apart(log, phase, ws)
    ensures Mine(ws[w := x]) && Apart(log, phase, ws[w := x])
  {
  }

  lemma HandWorker(ws: seq<Worker>, w: nat, fed: nat, log: seq<Ran>, phase: nat)
    requires w < |ws| && Mine(ws) && Apart(log, phase, ws) && Below(log, phase, fed)
    requires forall v :: 0 <= v < |ws| && Busy(ws[v]) ==> ws[v].k < fed
    ensures Mine(ws[w := Got(fed)]) && Apart(log, phase, ws[w := Got(fed)]) && Below(log, phase, fed + 1)
  {
  }

  lemma RecordWorker(ws: seq<Worker>, w: nat, log: seq<Ran>, r: Ran)
    requires w < |ws| && Busy(ws[w]) && r.k == ws[w].k
    requires Mine(ws) && Apart(log, r.phase, ws) && Distinct(log)
    ensures Mine(ws[w := Idle]) && Apart(log + [r], r.phase, ws[w := Idle]) && Distinct(log + [r])
  {
    var more, rest := log + [r], ws[w := Idle];
    forall i, j | 0 <= i < j < |more| ensures !(more[i].phase == more[j].phase && more[i].k == more[j].k) {
      assert more[i] == log[i];
      if j == |log| { assert log[i].phase == r.phase ==> log[i].k != ws[w].k; }
    }
    forall i, v | 0 <= i < |more| && 0 <= v < |ws| && more[i].phase == r.phase && Busy(rest[v])
      ensures more[i].k != rest[v].k
    {
      assert v != w && rest[v] == ws[v];
      if i == |log| { assert ws[v].k != ws[w].k; }
    }
  }

  lemma OpenPhase(log: seq<Ran>, phase: nat, fed: nat, later: nat, ws: seq<Worker>)
    requires Below(log, phase, fed) && phase < later && forall w :: 0 <= w < |ws| ==> !Busy(ws[w])
    ensures Below(log, later, 0) && Mine(ws) && Apart(log, later, ws)
  {
  }

  lemma OnceNext(c: Scan, s: State, retries: seq<Job>)
    requires Shape(c, s) && Once(c, s) && Enabled(c, s, Next(retries))
    ensures Once(c, Advanced(c, s, retries))
  {
    hide Fits, Tail, RetryList, Failed, LastTests, Below, Mine, Apart, Distinct;
    var t := Advanced(c, s, retries);
    assert Truthful(s.log, t.lists);
    if Phase(s) < 3 {
      OpenPhase(s.log, Phase(s), s.fed, Phase(t), t.workers);
      BelowZero(s.log, Phase(t), t.fed);
    }
  }

  lemma BelowZero(log: seq<Ran>, phase: nat, fed: nat)
    requires Below(log, phase, 0)
    ensures Below(log, phase, fed)
  {
  }

  lemma LogGrows(log: seq<Ran>, r: Ran, lists: seq<seq<Job>>, fed: nat)
    requires Truthful(log, lists) && r.phase < |lists| && r.k < |lists[r.phase]| && r.job == lists[r.phase][r.k]
    requires Below(log, r.phase, fed) && r.k < fed
    ensures Truthful(log + [r], lists) && Below(log + [r], r.phase, fed)
  {
  }

  lemma OnceRecord(c: Scan, s: State, w: nat)
    requires Shape(c, s) && Once(c, s) && Enabled(c, s, Record(w))
    ensures Once(c, Recorded(c, s, w))
  {
    hide Fits, Tail, Foresee, Mine, Apart, Distinct, Truthful, Below;
    var r := Ran(Phase(s), s.workers[w].k, Queue(s)[s.workers[w].k], s.workers[w].r);
    RecordWorker(s.workers, w, s.log, r);
    LogGrows(s.log, r, s.lists, s.fed);
  }

  lemma OnceStep(c: Scan, s: State, e: Step)
    requires Shape(c, s) && Once(c, s) && Enabled(c, s, e)
    ensures Once(c, After(c, s, e))
  {
    hide Fits, Tail, RetryList, Failed, LastTests, Foresee, Below, Mine, Apart, Distinct, Truthful, Advanced, Recorded;
    match e
    case Hand(w) => HandWorker(s.workers, w, s.fed, s.log, Phase(s));
    case Record(w) => OnceRecord(c, s, w);
    case Next(retries) => OnceNext(c, s, retries);
    case Close =>
    case Cancel =>
    case Drop(w) => SetWorker(s.workers, w, Gone, s.log, Phase(s));
    case Leave(w) => SetWorker(s.workers, w, Gone, s.log, Phase(s));
    case Start(w) => SetWorker(s.workers, w, After(c, s, e).workers[w], s.log, Phase(s));
    case Land(w, _) => SetWorker(s.workers, w, After(c, s, e).workers[w], s.log, Phase(s));
    case Check(w) => SetWorker(s.workers, w, After(c, s, e).workers[w], s.log, Phase(s));
  }
}
