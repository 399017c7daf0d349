/** One attempt per reservation pool at a time, the tail alone and in order, and
    no scan that gets stuck. */
module SchedulePools {
  import opened SchedulePlan
  import opened Scheduler

  function PoolAt(q: seq<Job>, k: nat): string { if k < |q| then q[k].p.serial else "" }

  /** The pools of the attempts in flight. */
  function InFlight(q: seq<Job>, ws: seq<Worker>): set<string> {
    set w | 0 <= w < |ws| && ws[w].Flying? && PoolAt(q, ws[w].k) != "" :: PoolAt(q, ws[w].k)
  }

  predicate Exclusive(q: seq<Job>, ws: seq<Worker>) {
    forall v, w :: 0 <= v < w < |ws| && ws[v].Flying? && ws[w].Flying? && PoolAt(q, ws[v].k) != ""
                   ==> PoolAt(q, ws[v].k) != PoolAt(q, ws[w].k)
  }

  /** The locks held are those of the attempts in flight, one each. */
  predicate Pools(s: State)
    requires Begun(s)
  {
    s.held == InFlight(Queue(s), s.workers) && Exclusive(Queue(s), s.workers)
  }

  lemma Grounded(q: seq<Job>, ws: seq<Worker>, w: nat, x: Worker)
    requires w < |ws| && !x.Flying? && !ws[w].Flying? && Exclusive(q, ws)
    ensures InFlight(q, ws[w := x]) == InFlight(q, ws) && Exclusive(q, ws[w := x])
  {
    var us := ws[w := x];
    assert forall v :: 0 <= v < |ws| && v != w ==> us[v] == ws[v];
  }

  lemma TakesOff(q: seq<Job>, ws: seq<Worker>, w: nat, k: nat)
    requires w < |ws| && ws[w] == Got(k) && Exclusive(q, ws) && PoolAt(q, k) !in InFlight(q, ws)
    ensures Exclusive(q, ws[w := Flying(k)])
    ensures InFlight(q, ws[w := Flying(k)]) == InFlight(q, ws) + if PoolAt(q, k) == "" then {} else {PoolAt(q, k)}
  {
    var us := ws[w := Flying(k)];
    assert us[w] == Flying(k) && forall v :: 0 <= v < |ws| && v != w ==> us[v] == ws[v];
  }

  lemma Lands(q: seq<Job>, ws: seq<Worker>, w: nat, k: nat, r: Result)
    requires w < |ws| && ws[w] == Flying(k) && Exclusive(q, ws)
    ensures Exclusive(q, ws[w := Back(k, r)])
    ensures InFlight(q, ws[w := Back(k, r)]) == InFlight(q, ws) - {PoolAt(q, k)}
  {
    var us := ws[w := Back(k, r)];
    assert forall v :: 0 <= v < |ws| && v != w ==> us[v] == ws[v];
    assert forall v ::
        0 <= v < |ws| && v != w && ws[v].Flying? && PoolAt(q, ws[v].k) != ""
        ==> PoolAt(q, ws[v].k) != PoolAt(q, k);
  }

  lemma NobodyFlies(q: seq<Job>, ws: seq<Worker>)
    requires forall w :: 0 <= w < |ws| ==> !ws[w].Flying?
    ensures InFlight(q, ws) == {} && Exclusive(q, ws)
  {
  }

  lemma PoolsStep(c: Scan, s: State, e: Step)
    requires Shape(c, s) && Pools(s) && Enabled(c, s, e)
    ensures Pools(After(c, s, e))
  {
    hide Fits, Tail, RetryList, Failed, LastTests, Foresee, InFlight, Exclusive;
    var q, ws, t := Queue(s), s.workers, After(c, s, e);
    match e
    case Hand(w) => Grounded(q, ws, w, t.workers[w]);
    case Close =>
    case Cancel =>
    case Drop(w) => Grounded(q, ws, w, Gone);
    case Leave(w) => Grounded(q, ws, w, Gone);
    case Check(w) => Grounded(q, ws, w, t.workers[w]);
    case Record(w) => Grounded(q, ws, w, Idle);
    case Start(w) => NoBlank(q, ws); TakesOff(q, ws, w, ws[w].k);
    case Land(w, r) => Lands(q, ws, w, ws[w].k, r);
    case Next(retries) =>
      NobodyFlies(q, ws);
      NobodyFlies(Queue(t), t.workers);
  }

  lemma NoBlank(q: seq<Job>, ws: seq<Worker>)
    ensures "" !in InFlight(q, ws)
  {
  }

  // ---- order ----

  /** Phases follow each other, and in the serial ones the jobs do. */
  predicate InOrder(log: seq<Ran>) {
    forall i, j :: 0 <= i < j < |log| ==>
                     log[i].phase <= log[j].phase && (log[i].phase == log[j].phase >= 2 ==> log[i].k < log[j].k)
  }

  /** In a serial phase what is held is later than all that is recorded. */
  predicate Behind(log: seq<Ran>, phase: nat, ws: seq<Worker>) {
    phase >= 2 ==> forall i, w ::
        0 <= i < |log| && 0 <= w < |ws| && log[i].phase == phase && Busy(ws[w])
        ==> log[i].k < ws[w].k
  }

  predicate Ordered(s: State)
    requires Begun(s)
  {
    InOrder(s.log) && Behind(s.log, Phase(s), s.workers)
  }

  lemma OrderedSet(log: seq<Ran>, phase: nat, ws: seq<Worker>, w: nat, x: Worker, fed: nat)
    requires w < |ws| && Behind(log, phase, ws) && Below(log, phase, fed)
    requires Busy(x) ==> x.k == fed || (Busy(ws[w]) && x.k == ws[w].k)
    ensures Behind(log, phase, ws[w := x])
  {
    var us := ws[w := x];
    assert forall v :: 0 <= v < |ws| && v != w ==> us[v] == ws[v];
  }

  lemma OrderedRecord(log: seq<Ran>, r: Ran, ws: seq<Worker>, w: nat, fed: nat)
    requires w < |ws| && Busy(ws[w]) && r.k == ws[w].k && InOrder(log) && Behind(log, r.phase, ws)
            && Below(log, r.phase, fed)
    requires r.phase >= 2 ==> |ws| == 1
    ensures InOrder(log + [r]) && Behind(log + [r], r.phase, ws[w := Idle])
  {
  }

  lemma OrderedStep(c: Scan, s: State, e: Step)
    requires Shape(c, s) && Once(c, s) && Ordered(s) && Enabled(c, s, e)
    ensures Ordered(After(c, s, e))
  {
    hide Fits, Tail, RetryList, Failed, LastTests, Foresee, Below, Mine, Apart, Distinct, Truthful, InOrder, Behind;
    var t := After(c, s, e);
    match e
    case Hand(w) => OrderedSet(s.log, Phase(s), s.workers, w, t.workers[w], s.fed);
    case Close =>
    case Cancel =>
    case Drop(w) => OrderedSet(s.log, Phase(s), s.workers, w, t.workers[w], s.fed);
    case Leave(w) => OrderedSet(s.log, Phase(s), s.workers, w, t.workers[w], s.fed);
    case Check(w) => OrderedSet(s.log, Phase(s), s.workers, w, t.workers[w], s.fed);
    case Start(w) => OrderedSet(s.log, Phase(s), s.workers, w, t.workers[w], s.fed);
    case Land(w, _) => OrderedSet(s.log, Phase(s), s.workers, w, t.workers[w], s.fed);
    case Record(w) => OrderedRecord(s.log, t.log[|s.log|], s.workers, w, s.fed);
    case Next(retries) => NobodyBehind(t.log, Phase(t), t.workers);
  }

  lemma NobodyBehind(log: seq<Ran>, phase: nat, ws: seq<Worker>)
    requires forall w :: 0 <= w < |ws| ==> !Busy(ws[w])
    ensures Behind(log, phase, ws)
  {
  }
}
