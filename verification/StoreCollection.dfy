/** Garbage collection is invisible: it never changes an answer of the store. */
module StoreCollection {
  import opened Base
  import opened Addresses
  import RateWindow
  import Quota
  import opened StoreModel

  const TEN_MINUTES: int := 10 * MINUTE

  // ---- one query, after one collection ----

  /** A session as its callers see it; its rows are read through observationsFor only. */
  function Face(s: Option<SessionState>): Option<SessionState> {
    if s.Some? then Some(s.value.(obs := [])) else None
  }

  lemma {:induction false} PendingKeepsNewest(rs: seq<ReservationState>, q: Query, g: int, now: int)
    requires now > g - MINUTE
    ensures |PendingOf(rs, g)| <= |rs|
    ensures match Newest(rs, q, now)
            case None => Newest(PendingOf(rs, g), q, now) == None
            case Some(i) =>
              var k := |PendingOf(rs[..i], g)|;
              Newest(PendingOf(rs, g), q, now) == Some(k) && PendingOf(rs, g)[k] == rs[i]
  {
    if rs != [] {
      var p, r := rs[..|rs| - 1], rs[|rs| - 1];
      PendingKeepsNewest(p, q, g, now);
      assert Eligible(r, q, now) ==> Pending(r, g);
      var kept := PendingOf(rs, g);
      if Pending(r, g) { assert kept[..|kept| - 1] == PendingOf(p, g); }
      match Newest(p, q, now) {
        case Some(i) => assert p[..i] == rs[..i];
        case None =>
      }
    }
  }

  /** What a query finds does not depend on a collection less than a minute
      ahead of it, nor on any earlier one. */
  lemma FindUnaffected(cfg: Config, st: State, q: Query, g: int, day: int, now: int)
    requires now > g - MINUTE
    ensures FindReservation(Gc(cfg, st, g, day), q, now) == FindReservation(st, q, now)
  {
    PendingKeepsNewest(st.reservations, q, g, now);
  }

  lemma GetUnaffected(cfg: Config, st: State, id: SessionId, g: int, day: int, now: int)
    requires now > g - MINUTE
    ensures Face(GetSession(Gc(cfg, st, g, day), id, now)) == Face(GetSession(st, id, now))
  {
  }

  /** Attempt limits from the time of the collection on, quotas on its day. */
  lemma LimitsUnaffected(cfg: Config, st: State, ip: Addr, n: int, g: int, day: int, now: int)
    requires g <= now
    ensures RateWindow.Ask(Gc(cfg, st, g, day).attemptRate, cfg.attPer10Min, TEN_MINUTES, ip, now).1
         == RateWindow.Ask(st.attemptRate, cfg.attPer10Min, TEN_MINUTES, ip, now).1
    ensures Quota.Consume(Gc(cfg, st, g, day).bulkUsed, cfg.bulkPerDay, ip, n, day).1
         == Quota.Consume(st.bulkUsed, cfg.bulkPerDay, ip, n, day).1
  {
    RateWindow.PruneTwice(RateWindow.TimesOf(st.attemptRate, RateKey(ip)), g - TEN_MINUTES, now - TEN_MINUTES);
  }

  /** Whether a new session is allowed: the table has room, and so has the window. */
  predicate Admits(cfg: Config, st: State, ip: Addr, now: int) {
    |st.sessions| < MAX_LIVE_SESSIONS && RateWindow.Ask(st.sessRate, cfg.sessPerMin, MINUTE, ip, now).1
  }

  /** A collection shows in the session limit exactly when it makes room in a full
      table and the window has room as well. */
  lemma SessionLimitUnaffectedIff(cfg: Config, st: State, ip: Addr, g: int, day: int, now: int)
    requires g <= now
    ensures Admits(cfg, Gc(cfg, st, g, day), ip, now) == Admits(cfg, st, ip, now) <==>
            !(|st.sessions| >= MAX_LIVE_SESSIONS && |SweepSessions(cfg, st.sessions, g)| < MAX_LIVE_SESSIONS
              && RateWindow.Ask(st.sessRate, cfg.sessPerMin, MINUTE, ip, now).1)
  {
    RateWindow.PruneTwice(RateWindow.TimesOf(st.sessRate, RateKey(ip)), g - MINUTE, now - MINUTE);
    Fewer(SweepSessions(cfg, st.sessions, g), st.sessions);
  }

  /** So it does show: a table full of sessions that ran out turns callers away until
      it is swept. */
  lemma StaleTableShows(cfg: Config, st: State, ip: Addr, g: int, day: int)
    requires |st.sessions| >= MAX_LIVE_SESSIONS && forall id :: id in st.sessions ==> Stale(st.sessions[id], g)
    requires st.sessRate == map[] && cfg.sessPerMin > 0
    ensures !Admits(cfg, st, ip, g) && Admits(cfg, Gc(cfg, st, g, day), ip, g)
  {
    assert SweepSessions(cfg, st.sessions, g) == map[];
    SessionLimitUnaffectedIff(cfg, st, ip, g, day, g);
  }

  lemma Fewer(a: map<SessionId, SessionState>, b: map<SessionId, SessionState>)
    requires a.Keys <= b.Keys
    ensures |a| <= |b|
  {
    FewerKeys(a.Keys, b.Keys);
    assert |a.Keys| == |a| && |b.Keys| == |b|;
  }

  lemma {:induction false} FewerKeys(a: set<SessionId>, b: set<SessionId>)
    requires a <= b
    ensures |a| <= |b|
  {
    if a != {} {
      var k :| k in a;
      FewerKeys(a - {k}, b - {k});
    }
  }

  // ---- whole runs, collections anywhere ----

  datatype What =
    | Get(id: SessionId)
    | Put(id: SessionId, s: SessionState)
    | Admit(ip: Addr)
    | Find(q: Query, consume: bool)
    | Reserve(r: ReservationState)
    | Attempt(ip: Addr)
    | Charge(ip: Addr, n: int)
    | Collect

  datatype Op = Op(now: int, day: int, what: What)

  datatype Answer = Live(s: Option<SessionState>) | Found(r: Option<ReservationState>) | Allowed(ok: bool) | NoAnswer

  function Ask(cfg: Config, st: State, op: Op): Answer {
    match op.what
    case Get(id) => Live(Face(GetSession(st, id, op.now)))
    case Admit(ip) => Allowed(Admits(cfg, st, ip, op.now))
    case Find(q, _) => Found(FindReservation(st, q, op.now))
    case Attempt(ip) => Allowed(RateWindow.Ask(st.attemptRate, cfg.attPer10Min, TEN_MINUTES, ip, op.now).1)
    case Charge(ip, n) => Allowed(Quota.Consume(st.bulkUsed, cfg.bulkPerDay, ip, n, op.day).1)
    case _ => NoAnswer
  }

  ghost function Next(cfg: Config, st: State, op: Op): State {
    match op.what
    case Get(_) => st
    case Put(id, s) => PutSession(st, id, s)
    case Admit(ip) =>
      if |st.sessions| >= MAX_LIVE_SESSIONS then st
      else st.(sessRate := RateWindow.Ask(st.sessRate, cfg.sessPerMin, MINUTE, ip, op.now).0)
    case Find(q, consume) => if consume then ConsumeReservation(st, q, op.now) else st
    case Reserve(r) => st.(reservations := st.reservations + [r])
    case Attempt(ip) => st.(attemptRate := RateWindow.Ask(st.attemptRate, cfg.attPer10Min, TEN_MINUTES, ip, op.now).0)
    case Charge(ip, n) => st.(bulkUsed := Quota.Consume(st.bulkUsed, cfg.bulkPerDay, ip, n, op.day).0)
    case Collect => Gc(cfg, st, op.now, op.day)
  }

  /** The answers of a run, with its collections carried out or ignored. */
  ghost function Answers(cfg: Config, st: State, ops: seq<Op>, collecting: bool): seq<Answer>
    decreases |ops|
  {
    if ops == [] then []
    else if ops[0].what.Collect? then Answers(cfg, if collecting then Next(cfg, st, ops[0])
        else st, ops[1..], collecting)
    else [Ask(cfg, st, ops[0])] + Answers(cfg, Next(cfg, st, ops[0]), ops[1..], collecting)
  }

  /** Neither the clock nor the day goes back. */
  ghost predicate From(ops: seq<Op>, t: int, day: int) {
    ops == [] || (t <= ops[0].now && day <= ops[0].day && From(ops[1..], ops[0].now, ops[0].day))
  }

  /** Whenever a session is asked for, the table has room even if nothing was ever collected. */
  ghost predicate Roomy(cfg: Config, st: State, ops: seq<Op>)
    decreases |ops|
  {
    ops == [] ||
    var op := ops[0];
    && (op.what.Admit? ==> |st.sessions| < MAX_LIVE_SESSIONS)
    && Roomy(cfg, if op.what.Collect? then st else Next(cfg, st, op), ops[1..])
  }

  /** No counter is of a day yet to come. */
  predicate Dated(uses: Quota.Uses, day: int) { forall k :: k in uses ==> uses[k].day <= day }

  /** What of a state can still show at time g or later. */
  datatype Facts = Facts(
    sessions: map<SessionId, SessionState>, reservations: seq<ReservationState>, asked: RateWindow.Rates,
        rates: RateWindow.Rates,
    uses: Quota.Uses)

  function Trim(st: State, g: int, day: int): Facts {
    Facts(map id | id in st.sessions && !Stale(st.sessions[id], g) :: st.sessions[id].(obs := []),
          PendingOf(st.reservations, g),
          RateWindow.Sweep(st.sessRate, MINUTE, g),
          RateWindow.Sweep(st.attemptRate, TEN_MINUTES, g),
          Quota.Sweep(st.bulkUsed, day))
  }

  /** a is b with collections: it shows the same from g on, and holds no session more. */
  predicate Alike(a: State, b: State, g: int, day: int) {
    && Trim(a, g, day) == Trim(b, g, day) && a.sessions.Keys <= b.sessions.Keys
    && Dated(a.bulkUsed, day) && Dated(b.bulkUsed, day)
  }

  lemma {:induction false} PendingTwice(rs: seq<ReservationState>, g: int, h: int)
    requires g <= h
    ensures PendingOf(PendingOf(rs, g), h) == PendingOf(rs, h)
  {
    if rs != [] {
      var p, r := rs[..|rs| - 1], rs[|rs| - 1];
      PendingTwice(p, g, h);
      var kept := PendingOf(rs, g);
      if Pending(r, g) { assert kept[..|kept| - 1] == PendingOf(p, g); }
    }
  }

  lemma SweepTwice(rates: RateWindow.Rates, width: int, g: int, h: int)
    requires g <= h
    ensures RateWindow.Sweep(RateWindow.Sweep(rates, width, g), width, h) == RateWindow.Sweep(rates, width, h)
  {
    forall k | k in rates ensures RateWindow.Prune(rates[k], h - width) != []
        ==> RateWindow.Prune(rates[k], g - width) != [] {
      RateWindow.PruneTwice(rates[k], g - width, h - width);
    }
  }

  /** The sessions that show at h are among those that show at g. */
  lemma SessionsLater(a: State, b: State, g: int, h: int, day: int)
    requires g <= h && Trim(a, g, day).sessions == Trim(b, g, day).sessions
    ensures Trim(a, h, day).sessions == Trim(b, h, day).sessions
  {
    forall id
      ensures id in Trim(a, h, day).sessions <==> id in Trim(b, h, day).sessions
      ensures id in Trim(a, h, day).sessions ==> Trim(a, h, day).sessions[id] == Trim(b, h, day).sessions[id]
    {
      assert id in Trim(a, g, day).sessions <==> id in Trim(b, g, day).sessions;
      assert id in Trim(a, g, day).sessions ==> Trim(a, g, day).sessions[id] == Trim(b, g, day).sessions[id];
    }
  }

  lemma UsesLater(a: Quota.Uses, b: Quota.Uses, day: int, later: int)
    requires day <= later && Dated(a, day) && Dated(b, day) && Quota.Sweep(a, day) == Quota.Sweep(b, day)
    ensures Quota.Sweep(a, later) == Quota.Sweep(b, later) && Dated(a, later) && Dated(b, later)
  {
  }

  /** Two states that show the same from g on show the same from h on. */
  lemma AlikeLater(a: State, b: State, g: int, h: int, day: int, later: int)
    requires g <= h && day <= later && Alike(a, b, g, day)
    ensures Alike(a, b, h, later)
  {
    hide PendingOf, RateWindow.Sweep, Quota.Sweep, Dated;
    PendingTwice(a.reservations, g, h);
    PendingTwice(b.reservations, g, h);
    SweepTwice(a.sessRate, MINUTE, g, h);
    SweepTwice(b.sessRate, MINUTE, g, h);
    SweepTwice(a.attemptRate, TEN_MINUTES, g, h);
    SweepTwice(b.attemptRate, TEN_MINUTES, g, h);
    SessionsLater(a, b, g, h, day);
    UsesLater(a.bulkUsed, b.bulkUsed, day, later);
  }

  lemma CollectTrims(cfg: Config, st: State, g: int, day: int)
    ensures Trim(Gc(cfg, st, g, day), g, day) == Trim(st, g, day)
  {
    PendingTwice(st.reservations, g, g);
    SweepTwice(st.sessRate, MINUTE, g, g);
    SweepTwice(st.attemptRate, TEN_MINUTES, g, g);
  }

  lemma CollectAlike(cfg: Config, a: State, b: State, g: int, day: int)
    requires Alike(a, b, g, day)
    ensures Alike(Gc(cfg, a, g, day), b, g, day)
  {
    hide Trim, PendingOf, RateWindow.Sweep;
    CollectTrims(cfg, a, g, day);
  }

  lemma SameSession(a: State, b: State, id: SessionId, now: int, day: int)
    requires Trim(a, now, day).sessions == Trim(b, now, day).sessions
    ensures Face(GetSession(a, id, now)) == Face(GetSession(b, id, now))
  {
    hide PendingOf, RateWindow.Sweep, Quota.Sweep;
    assert id in Trim(a, now, day).sessions <==> id in Trim(b, now, day).sessions;
    assert id in Trim(a, now, day).sessions ==> Trim(a, now, day).sessions[id] == Trim(b, now, day).sessions[id];
  }

  lemma SameFound(a: seq<ReservationState>, b: seq<ReservationState>, q: Query, now: int)
    requires PendingOf(a, now) == PendingOf(b, now)
    ensures FindIn(a, q, now) == FindIn(b, q, now)
  {
    hide PendingOf, Newest, Eligible;
    PendingKeepsNewest(a, q, now, now);
    PendingKeepsNewest(b, q, now, now);
  }

  lemma SameAnswer(cfg: Config, a: State, b: State, op: Op)
    requires Alike(a, b, op.now, op.day) && (op.what.Admit? ==> |b.sessions| < MAX_LIVE_SESSIONS)
    ensures Ask(cfg, a, op) == Ask(cfg, b, op)
  {
    hide PendingOf, RateWindow.Sweep, Quota.Sweep, Newest, GetSession, Face, FindIn, RateWindow.Prune,
        RateWindow.TimesOf, Quota.On, Dated, Stale;
    var now, day := op.now, op.day;
    match op.what {
      case Get(id) => SameSession(a, b, id, now, day);
      case Admit(ip) =>
        Fewer(a.sessions, b.sessions);
        SameWindow(a.sessRate, b.sessRate, MINUTE, RateKey(ip), now);
      case Find(q, _) => SameFound(a.reservations, b.reservations, q, now);
      case Attempt(ip) => SameWindow(a.attemptRate, b.attemptRate, TEN_MINUTES, RateKey(ip), now);
      case Charge(ip, _) =>
        SameUse(a.bulkUsed, b.bulkUsed, RateKey(ip), day);
        SameUse(a.bulkUsed, b.bulkUsed, NoAddr, day);
      case _ =>
    }
  }

  lemma SameWindow(a: RateWindow.Rates, b: RateWindow.Rates, width: int, k: Addr, now: int)
    requires RateWindow.Sweep(a, width, now) == RateWindow.Sweep(b, width, now)
    ensures RateWindow.Prune(RateWindow.TimesOf(a, k), now - width)
            == RateWindow.Prune(RateWindow.TimesOf(b, k), now - width)
  {
    assert k in RateWindow.Sweep(a, width, now) <==> k in RateWindow.Sweep(b, width, now);
  }

  lemma SameUse(a: Quota.Uses, b: Quota.Uses, k: Addr, day: int)
    requires Quota.Sweep(a, day) == Quota.Sweep(b, day)
    ensures Quota.On(a, k, day) == Quota.On(b, k, day)
  {
    assert k in Quota.Sweep(a, day) <==> k in Quota.Sweep(b, day);
    assert k in Quota.Sweep(a, day) ==> Quota.Sweep(a, day)[k] == Quota.Sweep(b, day)[k];
  }

  lemma {:induction false} PendingSplit(a: seq<ReservationState>, b: seq<ReservationState>, g: int)
    ensures PendingOf(a + b, g) == PendingOf(a, g) + PendingOf(b, g)
  {
    if b == [] {
      assert a + b == a;
    } else {
      PendingSplit(a, b[..|b| - 1], g);
      assert (a + b)[..|a + b| - 1] == a + b[..|b| - 1];
    }
  }

  /** Spending a reservation takes one entry out of the pending ones. */
  lemma SpendTakesOne(rs: seq<ReservationState>, i: nat, g: int)
    requires i < |rs| && Pending(rs[i], g)
    ensures var k := |PendingOf(rs[..i], g)|; var kept := PendingOf(rs, g);
            && k < |kept|
            && PendingOf(rs[i := rs[i].(used := true)], g) == kept[..k] + kept[k + 1..]
  {
    hide PendingOf;
    var x := rs[i];
    var used := x.(used := true);
    PendingAround(rs[..i], x, rs[i + 1..], g);
    PendingAround(rs[..i], used, rs[i + 1..], g);
    assert rs == rs[..i] + [x] + rs[i + 1..];
    assert rs[i := used] == rs[..i] + [used] + rs[i + 1..];
    var a, b := PendingOf(rs[..i], g), PendingOf(rs[i + 1..], g);
    assert (a + [x] + b)[..|a|] == a && (a + [x] + b)[|a| + 1..] == b;
  }

  lemma PendingAround(a: seq<ReservationState>, x: ReservationState, b: seq<ReservationState>, g: int)
    ensures PendingOf(a + [x] + b, g) == PendingOf(a, g) + (if Pending(x, g) then [x] else []) + PendingOf(b, g)
  {
    PendingSplit(a + [x], b, g);
    PendingSplit(a, [x], g);
    assert [x][..0] == [];
    assert PendingOf([x], g) == PendingOf([], g) + if Pending(x, g) then [x] else [];
  }

  lemma SpendAlike(rs: seq<ReservationState>, q: Query, g: int)
    ensures var kept := PendingOf(rs, g);
            PendingOf(Spend(rs, q, g), g) == match Newest(kept, q, g)
              case None => kept
              case Some(k) => kept[..k] + kept[k + 1..]
  {
    PendingKeepsNewest(rs, q, g, g);
    NewestSpec(rs, q, g);
    match Newest(rs, q, g) {
      case Some(i) => SpendTakesOne(rs, i, g);
      case None =>
    }
  }

  lemma AskAlike(a: RateWindow.Rates, b: RateWindow.Rates, limit: int, width: int, k: Addr, now: int)
    requires RateWindow.Sweep(a, width, now) == RateWindow.Sweep(b, width, now)
    ensures RateWindow.Sweep(RateWindow.AskKey(a, limit, width, k, now).0, width, now)
         == RateWindow.Sweep(RateWindow.AskKey(b, limit, width, k, now).0, width, now)
  {
    SameWindow(a, b, width, k, now);
    var a', b' := RateWindow.AskKey(a, limit, width, k, now).0, RateWindow.AskKey(b, limit, width, k, now).0;
    var sa, sb := RateWindow.Sweep(a, width, now), RateWindow.Sweep(b, width, now);
    forall j
      ensures j in RateWindow.Sweep(a', width, now) <==> j in RateWindow.Sweep(b', width, now)
      ensures j in RateWindow.Sweep(a', width, now) ==> a'[j] == b'[j]
    {
      assert j in sa <==> j in sb;
      assert j in sa ==> sa[j] == sb[j];
    }
  }

  lemma SpendQuotaAlike(a: Quota.Uses, b: Quota.Uses, perDay: int, k: Addr, n: int, day: int)
    requires Quota.Sweep(a, day) == Quota.Sweep(b, day)
    ensures Quota.Sweep(Quota.Spend(a, perDay, k, n, day).0, day)
            == Quota.Sweep(Quota.Spend(b, perDay, k, n, day).0, day)
  {
    SameUse(a, b, k, day);
    SameUse(a, b, NoAddr, day);
    var a', b' := Quota.Spend(a, perDay, k, n, day).0, Quota.Spend(b, perDay, k, n, day).0;
    forall j
      ensures j in Quota.Sweep(a', day) <==> j in Quota.Sweep(b', day)
      ensures j in Quota.Sweep(a', day) ==> a'[j] == b'[j]
    {
      assert j in Quota.Sweep(a, day) <==> j in Quota.Sweep(b, day);
      assert j in Quota.Sweep(a, day) ==> Quota.Sweep(a, day)[j] == Quota.Sweep(b, day)[j];
    }
  }

  lemma PutAlike(a: State, b: State, id: SessionId, s: SessionState, now: int, day: int)
    requires Trim(a, now, day).sessions == Trim(b, now, day).sessions
    ensures Trim(PutSession(a, id, s), now, day).sessions == Trim(PutSession(b, id, s), now, day).sessions
  {
    forall k
      ensures k in Trim(PutSession(a, id, s), now, day).sessions <==> k in Trim(PutSession(b, id, s), now, day).sessions
      ensures k in Trim(PutSession(a, id, s), now, day).sessions ==>
                Trim(PutSession(a, id, s), now, day).sessions[k] == Trim(PutSession(b, id, s), now, day).sessions[k]
    {
      assert k in Trim(a, now, day).sessions <==> k in Trim(b, now, day).sessions;
      assert k in Trim(a, now, day).sessions ==> Trim(a, now, day).sessions[k] == Trim(b, now, day).sessions[k];
    }
  }

  lemma ChargeDated(uses: Quota.Uses, perDay: int, ip: Addr, n: int, day: int)
    requires Dated(uses, day)
    ensures Dated(Quota.Consume(uses, perDay, ip, n, day).0, day)
  {
  }

  lemma FindAlike(a: seq<ReservationState>, b: seq<ReservationState>, q: Query, now: int)
    requires PendingOf(a, now) == PendingOf(b, now)
    ensures PendingOf(Spend(a, q, now), now) == PendingOf(Spend(b, q, now), now)
  {
    hide PendingOf, Newest, Spend;
    SpendAlike(a, q, now);
    SpendAlike(b, q, now);
  }

  /** Two states alike in every part are alike. */
  lemma AlikeBy(a: State, b: State, g: int, day: int)
    requires Trim(a, g, day).sessions == Trim(b, g, day).sessions
            && PendingOf(a.reservations, g) == PendingOf(b.reservations, g)
    requires RateWindow.Sweep(a.sessRate, MINUTE, g) == RateWindow.Sweep(b.sessRate, MINUTE, g)
    requires RateWindow.Sweep(a.attemptRate, TEN_MINUTES, g) == RateWindow.Sweep(b.attemptRate, TEN_MINUTES, g)
    requires Quota.Sweep(a.bulkUsed, day) == Quota.Sweep(b.bulkUsed, day)
    requires a.sessions.Keys <= b.sessions.Keys && Dated(a.bulkUsed, day) && Dated(b.bulkUsed, day)
    ensures Alike(a, b, g, day)
  {
    hide PendingOf, RateWindow.Sweep, Quota.Sweep, Dated, Stale;
  }

  lemma AlikeParts(a: State, b: State, g: int, day: int)
    requires Alike(a, b, g, day)
    ensures Trim(a, g, day).sessions == Trim(b, g, day).sessions
            && PendingOf(a.reservations, g) == PendingOf(b.reservations, g)
    ensures RateWindow.Sweep(a.sessRate, MINUTE, g) == RateWindow.Sweep(b.sessRate, MINUTE, g)
    ensures RateWindow.Sweep(a.attemptRate, TEN_MINUTES, g) == RateWindow.Sweep(b.attemptRate, TEN_MINUTES, g)
    ensures Quota.Sweep(a.bulkUsed, day) == Quota.Sweep(b.bulkUsed, day)
    ensures a.sessions.Keys <= b.sessions.Keys && Dated(a.bulkUsed, day) && Dated(b.bulkUsed, day)
  {
    hide PendingOf, RateWindow.Sweep, Quota.Sweep, Dated, Stale;
  }

  lemma SameSessionsKept(a: State, b: State, a': State, b': State, g: int, day: int)
    requires Trim(a, g, day).sessions == Trim(b, g, day).sessions && a'.sessions == a.sessions
            && b'.sessions == b.sessions
    ensures Trim(a', g, day).sessions == Trim(b', g, day).sessions
  {
    hide PendingOf, RateWindow.Sweep, Quota.Sweep;
  }

  lemma SamePut(cfg: Config, a: State, b: State, op: Op)
    requires Alike(a, b, op.now, op.day) && op.what.Put?
    ensures Alike(Next(cfg, a, op), Next(cfg, b, op), op.now, op.day)
  {
    hide PendingOf, RateWindow.Sweep, Quota.Sweep, RateWindow.AskKey, Quota.Spend, Spend, Dated, Trim, Alike, Gc;
    var a', b' := Next(cfg, a, op), Next(cfg, b, op);
    AlikeParts(a, b, op.now, op.day);
    PutAlike(a, b, op.what.id, op.what.s, op.now, op.day);
    AlikeBy(a', b', op.now, op.day);
  }

  lemma SameAdmit(cfg: Config, a: State, b: State, op: Op)
    requires Alike(a, b, op.now, op.day) && op.what.Admit? && |b.sessions| < MAX_LIVE_SESSIONS
    ensures Alike(Next(cfg, a, op), Next(cfg, b, op), op.now, op.day)
  {
    hide PendingOf, RateWindow.Sweep, Quota.Sweep, RateWindow.AskKey, Quota.Spend, Spend, Dated, Trim, Alike, Gc;
    var a', b' := Next(cfg, a, op), Next(cfg, b, op);
    AlikeParts(a, b, op.now, op.day);
    Fewer(a.sessions, b.sessions);
    SameSessionsKept(a, b, a', b', op.now, op.day);
    AskAlike(a.sessRate, b.sessRate, cfg.sessPerMin, MINUTE, RateKey(op.what.ip), op.now);
    AlikeBy(a', b', op.now, op.day);
  }

  lemma SameFind(cfg: Config, a: State, b: State, op: Op)
    requires Alike(a, b, op.now, op.day) && op.what.Find?
    ensures Alike(Next(cfg, a, op), Next(cfg, b, op), op.now, op.day)
  {
    hide PendingOf, RateWindow.Sweep, Quota.Sweep, RateWindow.AskKey, Quota.Spend, Spend, Dated, Trim, Alike, Gc;
    var a', b' := Next(cfg, a, op), Next(cfg, b, op);
    AlikeParts(a, b, op.now, op.day);
    SameSessionsKept(a, b, a', b', op.now, op.day);
    FindAlike(a.reservations, b.reservations, op.what.q, op.now);
    AlikeBy(a', b', op.now, op.day);
  }

  lemma SameReserve(cfg: Config, a: State, b: State, op: Op)
    requires Alike(a, b, op.now, op.day) && op.what.Reserve?
    ensures Alike(Next(cfg, a, op), Next(cfg, b, op), op.now, op.day)
  {
    hide PendingOf, RateWindow.Sweep, Quota.Sweep, RateWindow.AskKey, Quota.Spend, Spend, Dated, Trim, Alike, Gc;
    var a', b' := Next(cfg, a, op), Next(cfg, b, op);
    AlikeParts(a, b, op.now, op.day);
    SameSessionsKept(a, b, a', b', op.now, op.day);
    PendingSplit(a.reservations, [op.what.r], op.now);
    PendingSplit(b.reservations, [op.what.r], op.now);
    AlikeBy(a', b', op.now, op.day);
  }

  lemma SameAttempt(cfg: Config, a: State, b: State, op: Op)
    requires Alike(a, b, op.now, op.day) && op.what.Attempt?
    ensures Alike(Next(cfg, a, op), Next(cfg, b, op), op.now, op.day)
  {
    hide PendingOf, RateWindow.Sweep, Quota.Sweep, RateWindow.AskKey, Quota.Spend, Spend, Dated, Trim, Alike, Gc;
    var a', b' := Next(cfg, a, op), Next(cfg, b, op);
    AlikeParts(a, b, op.now, op.day);
    SameSessionsKept(a, b, a', b', op.now, op.day);
    AskAlike(a.attemptRate, b.attemptRate, cfg.attPer10Min, TEN_MINUTES, RateKey(op.what.ip), op.now);
    AlikeBy(a', b', op.now, op.day);
  }

  lemma SameCharge(cfg: Config, a: State, b: State, op: Op)
    requires Alike(a, b, op.now, op.day) && op.what.Charge?
    ensures Alike(Next(cfg, a, op), Next(cfg, b, op), op.now, op.day)
  {
    hide PendingOf, RateWindow.Sweep, Quota.Sweep, RateWindow.AskKey, Quota.Spend, Spend, Dated, Trim, Alike, Gc;
    var a', b' := Next(cfg, a, op), Next(cfg, b, op);
    AlikeParts(a, b, op.now, op.day);
    SameSessionsKept(a, b, a', b', op.now, op.day);
    var ip, n := op.what.ip, op.what.n;
    SpendQuotaAlike(a.bulkUsed, b.bulkUsed, cfg.bulkPerDay, RateKey(ip), n, op.day);
    ChargeDated(a.bulkUsed, cfg.bulkPerDay, ip, n, op.day);
    ChargeDated(b.bulkUsed, cfg.bulkPerDay, ip, n, op.day);
    AlikeBy(a', b', op.now, op.day);
  }

  lemma SameNext(cfg: Config, a: State, b: State, op: Op)
    requires Alike(a, b, op.now, op.day) && !op.what.Collect? && (op.what.Admit? ==> |b.sessions| < MAX_LIVE_SESSIONS)
    ensures Alike(Next(cfg, a, op), Next(cfg, b, op), op.now, op.day)
  {
    hide Alike, Gc, PutSession, ConsumeReservation, RateWindow.Ask, Quota.Consume;
    match op.what {
      case Get(_) =>
      case Put(_, _) => SamePut(cfg, a, b, op);
      case Admit(_) => SameAdmit(cfg, a, b, op);
      case Find(_, _) => SameFind(cfg, a, b, op);
      case Reserve(_) => SameReserve(cfg, a, b, op);
      case Attempt(_) => SameAttempt(cfg, a, b, op);
      case Charge(_, _) => SameCharge(cfg, a, b, op);
    }
  }

  lemma {:induction false} SameAnswers(cfg: Config, a: State, b: State, ops: seq<Op>, g: int, day: int)
    requires Alike(a, b, g, day) && From(ops, g, day) && Roomy(cfg, b, ops)
    ensures Answers(cfg, a, ops, true) == Answers(cfg, b, ops, false)
    decreases |ops|
  {
    hide Alike, Gc, Ask;
    if ops != [] {
      var op := ops[0];
      AlikeLater(a, b, g, op.now, day, op.day);
      if op.what.Collect? {
        CollectAlike(cfg, a, b, op.now, op.day);
        SameAnswers(cfg, Next(cfg, a, op), b, ops[1..], op.now, op.day);
      } else {
        SameAnswer(cfg, a, b, op);
        SameNext(cfg, a, b, op);
        SameAnswers(cfg, Next(cfg, a, op), Next(cfg, b, op), ops[1..], op.now, op.day);
      }
    }
  }

  /** Over every run of sessions stored, asked for and looked up, of matches,
      reservations, attempts and charges, with a clock and a day that never go
      back, collections anywhere in it change no answer, as long as the session
      table would not fill up without them. */
  lemma CollectionNeverShows(cfg: Config, st: State, ops: seq<Op>, start: int, day: int)
    requires From(ops, start, day) && Dated(st.bulkUsed, day) && Roomy(cfg, st, ops)
    ensures Answers(cfg, st, ops, true) == Answers(cfg, st, ops, false)
  {
    SameAnswers(cfg, st, st, ops, start, day);
  }
}
