/** The scheduler and the reservation protocol together: a worker locks the pool of
    its attempt when it starts and releases it when it lands (internal/client/run.go),
    and between the two the attempt reserves and its flow is matched. Every such
    run is a run of the protocol, so an attempt in flight has what the protocol
    promises to whoever holds the pool. */
module PoolProtocol {
  import opened SchedulePlan
  import S = Scheduler
  import P = SchedulePools
  import R = ScheduleRuns
  import C = Correlation
  import opened StoreModel

  /** What the reservations of a pool name must agree on. */
  type Naming = string -> C.Pool

  function Names(plans: seq<Plan>): set<string> { set i | 0 <= i < |plans| && plans[i].serial != "" :: plans[i].serial }

  /** Different pools of the plans are different pools of reservations. */
  ghost predicate Sound(c: S.Scan, poolOf: Naming) {
    && (forall k, l :: k in Names(c.plans) && l in Names(c.plans) && poolOf(k) == poolOf(l) ==> k == l)
    && (forall k :: k in Names(c.plans) ==> C.Proper(poolOf(k)))
  }

  /** What a step of the scheduler does to the locks of the protocol. */
  function Locks(s: S.State, e: S.Step, poolOf: Naming): seq<C.Event>
    requires S.Begun(s)
  {
    match e
    case Start(w) =>
      if w < |s.workers| && s.workers[w].Got? && S.Pool(s, s.workers[w].k) != ""
      then [C.Lock(poolOf(S.Pool(s, s.workers[w].k)), "")] else []
    case Land(w, _) =>
      if w < |s.workers| && s.workers[w].Flying? && S.Pool(s, s.workers[w].k) != ""
      then [C.Unlock(poolOf(S.Pool(s, s.workers[w].k)))] else []
    case _ => []
  }

  /** A step of the scheduler, or an event at the server: a reservation, a match, a collection. */
  datatype Move = Sched(step: S.Step) | Net(event: C.Event)

  datatype Both = Both(s: S.State, x: C.World)

  function Events(b: Both, m: Move, poolOf: Naming): seq<C.Event>
    requires S.Begun(b.s)
  {
    match m
    case Sched(e) => Locks(b.s, e, poolOf)
    case Net(e) => [e]
  }

  ghost predicate Allowed(c: S.Scan, b: Both, m: Move) {
    && S.Begun(b.s)
    && match m
       case Sched(e) => S.Enabled(c, b.s, e)
       case Net(e) => !e.Lock? && !e.Unlock? && C.Enabled(b.x, e)
  }

  ghost function Apply(c: S.Scan, b: Both, m: Move, poolOf: Naming): Both
    requires Allowed(c, b, m)
  {
    var x := C.End(b.x, Events(b, m, poolOf));
    match m
    case Sched(e) => Both(S.After(c, b.s, e), x)
    case Net(_) => Both(b.s, x)
  }

  ghost predicate Legal(c: S.Scan, b: Both, moves: seq<Move>, poolOf: Naming)
    decreases |moves|
  {
    moves == [] || (Allowed(c, b, moves[0]) && Legal(c, Apply(c, b, moves[0], poolOf), moves[1..], poolOf))
  }

  ghost function End(c: S.Scan, b: Both, moves: seq<Move>, poolOf: Naming): Both
    requires Legal(c, b, moves, poolOf)
    decreases |moves|
  {
    if moves == [] then b else End(c, Apply(c, b, moves[0], poolOf), moves[1..], poolOf)
  }

  /** What the run is to the protocol. */
  ghost function Projected(c: S.Scan, b: Both, moves: seq<Move>, poolOf: Naming): seq<C.Event>
    requires Legal(c, b, moves, poolOf)
    decreases |moves|
  {
    if moves == [] then [] else
        Events(b, moves[0], poolOf)
        + Projected(c, Apply(c, b, moves[0], poolOf), moves[1..], poolOf)
  }

  // ---- the locks of the two agree ----

  /** The pools held are those of the attempts in flight. */
  ghost predicate Linked(c: S.Scan, b: Both, poolOf: Naming) {
    b.s.held <= Names(c.plans) && forall p :: p in b.x.holder <==> exists k :: k in b.s.held && poolOf(k) == p
  }

  lemma PoolIsNamed(c: S.Scan, s: S.State, k: nat)
    requires S.Shape(c, s) && S.Pool(s, k) != ""
    ensures S.Pool(s, k) in Names(c.plans)
  {
    var job := S.Queue(s)[k];
    assert S.Fits(c, S.Phase(s), s.lists[S.Phase(s)]);
    var i :| 0 <= i < |c.plans| && c.plans[i] == job.p;
  }

  lemma OneEvent(x: C.World, e: C.Event)
    ensures C.Legal(x, [e]) <==> C.Enabled(x, e)
    ensures C.End(x, [e]) == C.After(x, e)
  {
    hide C.Enabled, C.After;
    assert [e][1..] == [];
  }

  /** A worker that starts finds the pool free. */
  lemma StartLinks(c: S.Scan, b: Both, w: nat, poolOf: Naming)
    requires R.Inv(c, b.s) && Sound(c, poolOf) && Linked(c, b, poolOf) && Allowed(c, b, Sched(S.Start(w)))
    ensures C.Legal(b.x, Locks(b.s, S.Start(w), poolOf)) && Linked(c, Apply(c, b, Sched(S.Start(w)), poolOf), poolOf)
  {
    hide S.Once, P.Pools, P.Ordered, R.Covered, Tail, S.Fits;
    var k := S.Pool(b.s, b.s.workers[w].k);
    if k != "" {
      PoolIsNamed(c, b.s, b.s.workers[w].k);
      OneEvent(b.x, C.Lock(poolOf(k), ""));
      var t := Apply(c, b, Sched(S.Start(w)), poolOf);
      assert t.s.held == b.s.held + {k};
      forall p ensures p in t.x.holder <==> exists l :: l in t.s.held && poolOf(l) == p {
        if l :| l in b.s.held && poolOf(l) == p { assert l in t.s.held; }
        if p == poolOf(k) { assert k in t.s.held; }
      }
    }
  }

  /** A worker that lands held its pool, and nobody else does. */
  lemma LandLinks(c: S.Scan, b: Both, w: nat, r: Result, poolOf: Naming)
    requires R.Inv(c, b.s) && Sound(c, poolOf) && Linked(c, b, poolOf) && Allowed(c, b, Sched(S.Land(w, r)))
    ensures C.Legal(b.x, Locks(b.s, S.Land(w, r), poolOf))
            && Linked(c, Apply(c, b, Sched(S.Land(w, r)), poolOf), poolOf)
  {
    hide S.Once, P.Ordered, R.Covered, Tail, S.Fits, P.Exclusive;
    var k := S.Pool(b.s, b.s.workers[w].k);
    var t := Apply(c, b, Sched(S.Land(w, r)), poolOf);
    assert t.s.held == b.s.held - {k};
    if k != "" {
      FlyingHolds(b.s, w);
      OneEvent(b.x, C.Unlock(poolOf(k)));
      forall p ensures p in t.x.holder <==> exists l :: l in t.s.held && poolOf(l) == p {
        if l :| l in b.s.held && poolOf(l) == p && l != k { assert l in t.s.held; }
      }
    } else {
      P.NoBlank(S.Queue(b.s), b.s.workers);
      assert t.s.held == b.s.held;
    }
  }

  lemma FlyingHolds(s: S.State, w: nat)
    requires S.Begun(s) && P.Pools(s) && w < |s.workers| && s.workers[w].Flying? && S.Pool(s, s.workers[w].k) != ""
    ensures S.Pool(s, s.workers[w].k) in s.held
  {
    assert P.PoolAt(S.Queue(s), s.workers[w].k) == S.Pool(s, s.workers[w].k);
  }

  lemma HeldKept(c: S.Scan, s: S.State, e: S.Step)
    requires S.Shape(c, s) && S.Enabled(c, s, e) && !e.Start? && !e.Land?
    ensures S.After(c, s, e).held == s.held
  {
    hide S.Fits, S.Foresee, RetryList, Failed, LastTests;
  }

  lemma NetLinks(c: S.Scan, b: Both, e: C.Event, poolOf: Naming)
    requires Linked(c, b, poolOf) && Allowed(c, b, Net(e))
    ensures C.Legal(b.x, [e]) && Linked(c, Apply(c, b, Net(e), poolOf), poolOf)
  {
    OneEvent(b.x, e);
  }

  lemma MoveLinks(c: S.Scan, b: Both, m: Move, poolOf: Naming)
    requires R.Inv(c, b.s) && Sound(c, poolOf) && Linked(c, b, poolOf) && Allowed(c, b, m)
    ensures C.Legal(b.x, Events(b, m, poolOf)) && Linked(c, Apply(c, b, m, poolOf), poolOf)
    ensures R.Inv(c, Apply(c, b, m, poolOf).s)
  {
    hide Linked, R.Inv, Sound, S.Enabled, S.After, C.Enabled, C.After;
    match m
    case Net(e) => NetLinks(c, b, e, poolOf);
    case Sched(e) =>
      R.InvStep(c, b.s, e);
      if e.Start? {
        StartLinks(c, b, e.w, poolOf);
      } else if e.Land? {
        LandLinks(c, b, e.w, e.r, poolOf);
      } else {
        StillLinked(c, b, e, poolOf);
      }
  }

  lemma StillLinked(c: S.Scan, b: Both, e: S.Step, poolOf: Naming)
    requires R.Inv(c, b.s) && Linked(c, b, poolOf) && Allowed(c, b, Sched(e)) && !e.Start? && !e.Land?
    ensures Locks(b.s, e, poolOf) == [] && Linked(c, Apply(c, b, Sched(e), poolOf), poolOf)
  {
    hide S.After, S.Enabled, S.Once, P.Pools, P.Ordered, R.Covered, S.Fits;
    HeldKept(c, b.s, e);
  }

  lemma {:induction false} Concatenated(x: C.World, a: seq<C.Event>, b: seq<C.Event>)
    requires C.Legal(x, a) && C.Legal(C.End(x, a), b)
    ensures C.Legal(x, a + b) && C.End(x, a + b) == C.End(C.End(x, a), b)
    decreases |a|
  {
    hide C.Enabled, C.After;
    if a == [] {
      assert a + b == b;
    } else {
      Concatenated(C.After(x, a[0]), a[1..], b);
      assert (a + b)[0] == a[0] && (a + b)[1..] == a[1..] + b;
    }
  }

  /** Every run of the two together is a run of the protocol. */
  lemma {:induction false} RunsAreProtocol(c: S.Scan, b: Both, moves: seq<Move>, poolOf: Naming)
    requires R.Inv(c, b.s) && Sound(c, poolOf) && Linked(c, b, poolOf) && Legal(c, b, moves, poolOf)
    ensures var t := End(c, b, moves, poolOf);
            && C.Legal(b.x, Projected(c, b, moves, poolOf)) && C.End(b.x, Projected(c, b, moves, poolOf)) == t.x
            && R.Inv(c, t.s) && Linked(c, t, poolOf)
    decreases |moves|
  {
    hide Linked, R.Inv, Sound, Allowed, Events, C.Enabled, C.After;
    if moves != [] {
      var m := moves[0];
      MoveIs(c, b, m, poolOf);
      MoveLinks(c, b, m, poolOf);
      var t := Apply(c, b, m, poolOf);
      RunsAreProtocol(c, t, moves[1..], poolOf);
      Concatenated(b.x, Events(b, m, poolOf), Projected(c, t, moves[1..], poolOf));
    }
  }

  lemma MoveIs(c: S.Scan, b: Both, m: Move, poolOf: Naming)
    requires Allowed(c, b, m)
    ensures S.Begun(b.s) && Apply(c, b, m, poolOf).x == C.End(b.x, Events(b, m, poolOf))
  {
    hide C.End, Events;
  }

  /** So in every run of a scan, an attempt in flight holds its pool alone; and once
      it has reserved, a flow of the pool that began within the window is matched
      to its own reservation if and only if none was matched since. */
  lemma FlightFindsItsOwn(c: S.Scan, s0: S.State, clock: int, moves: seq<Move>, poolOf: Naming, w: nat, seen: int)
    requires S.Initial(c, s0) && Sound(c, poolOf) && Legal(c, Both(s0, C.Empty(clock)), moves, poolOf)
    requires var t := End(c, Both(s0, C.Empty(clock)), moves, poolOf);
             S.Begun(t.s) && w < |t.s.workers| && t.s.workers[w].Flying? && S.Pool(t.s, t.s.workers[w].k) != ""
    ensures var t := End(c, Both(s0, C.Empty(clock)), moves, poolOf);
            var p := poolOf(S.Pool(t.s, t.s.workers[w].k));
            && p in t.x.holder
            && (forall v :: 0 <= v < |t.s.workers| && v != w && t.s.workers[v].Flying? ==>
                  S.Pool(t.s, t.s.workers[v].k) != S.Pool(t.s, t.s.workers[w].k))
            && (p in t.x.tickets && seen <= t.x.tickets[p].expires && t.x.clock < t.x.tickets[p].expires + MINUTE ==>
                  var found := FindIn(t.x.reservations, C.Ask(p), seen);
                  ((found.Some? && found.value.id == t.x.tickets[p].id) <==> !t.x.tickets[p].taken))
  {
    var b := Both(s0, C.Empty(clock));
    R.InvInit(c, s0);
    NothingHeld(c, s0, clock, poolOf);
    RunsAreProtocol(c, b, moves, poolOf);
    var t := End(c, b, moves, poolOf);
    hide S.Initial, Legal, End, Projected, C.Legal, C.End, S.Shape, S.Once, P.Ordered, R.Covered, FindIn, C.Ask;
    var p := poolOf(S.Pool(t.s, t.s.workers[w].k));
    FlyingHolds(t.s, w);
    assert P.PoolAt(S.Queue(t.s), t.s.workers[w].k) == S.Pool(t.s, t.s.workers[w].k);
    if p in t.x.tickets && seen <= t.x.tickets[p].expires && t.x.clock < t.x.tickets[p].expires + MINUTE {
      C.FirstMatchIsOwn(clock, Projected(c, b, moves, poolOf), p, seen);
    }
  }

  lemma NothingHeld(c: S.Scan, s0: S.State, clock: int, poolOf: Naming)
    requires S.Initial(c, s0)
    ensures Linked(c, Both(s0, C.Empty(clock)), poolOf)
  {
    hide Tail, Shuffled;
  }
}
