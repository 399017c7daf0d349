/** The server store as the program holds it: one object whose methods are the
    sections under its mutex. Reservations are shared by pointer (a match marks
    the very reservation it hands out); sessions are held by value, since only
    the store ever touches their rows. Every method is proved against its
    value-level counterpart in StoreModel. */
module Store {
  import opened Base
  import opened Addresses
  import opened Evidence
  import opened Sums
  import opened StoreModel
  import opened Sorting
  import RateWindow
  import Quota

  class Reservation {
    var id: string
    const sessionID: SessionId
    const expires: int
    const clientIP: Addr
    const dstPort: int
    const transport: string
    const kind: string
    const testID: string
    const variant: string
    var used: bool

    constructor (r: ReservationState)
      ensures Value() == r
    {
      id, sessionID, expires, clientIP, dstPort := r.id, r.sessionID, r.expires, r.clientIP, r.dstPort;
      transport, kind, testID, variant, used := r.transport, r.kind, r.testID, r.variant, r.used;
    }

    function Value(): ReservationState
      reads this
    {
      ReservationState(id, sessionID, expires, clientIP, dstPort, transport, kind, testID, variant, used)
    }
  }

  function Values(rs: seq<Reservation>): (vs: seq<ReservationState>)
    reads rs
    ensures |vs| == |rs| && forall i :: 0 <= i < |rs| ==> vs[i] == rs[i].Value()
  {
    seq(|rs|, i requires 0 <= i < |rs| reads rs => rs[i].Value())
  }

  predicate SeenBefore(a: Observation, b: Observation) { a.firstSeenAt <= b.firstSeenAt }

  /** Drops the leading times before since. */
  method Prune(ts: seq<int>, since: int) returns (kept: seq<int>)
    ensures kept == RateWindow.Prune(ts, since)
  {
    var i := 0;
    while i < |ts| && ts[i] < since
      invariant 0 <= i <= |ts|
      invariant RateWindow.Prune(ts[i..], since) == RateWindow.Prune(ts, since)
    {
      i := i + 1;
    }
    kept := ts[i..];
  }

  method SweepRates(rates: RateWindow.Rates, width: int, now: int) returns (left: RateWindow.Rates)
    ensures left == RateWindow.Sweep(rates, width, now)
  {
    left := rates;
    var todo := rates.Keys;
    while todo != {}
      invariant todo <= rates.Keys
      invariant left == map k | k in rates && (k in todo || RateWindow.Prune(rates[k], now - width) != []) :: rates[k]
      decreases todo
    {
      var k :| k in todo;
      todo := todo - {k};
      var ts := Prune(rates[k], now - width);
      if ts == [] {
        left := left - {k};
      }
    }
  }

  method SweepUses(uses: Quota.Uses, day: int) returns (left: Quota.Uses)
    ensures left == Quota.Sweep(uses, day)
  {
    left := uses;
    var todo := uses.Keys;
    while todo != {}
      invariant todo <= uses.Keys
      invariant left == map k | k in uses && (k in todo || uses[k].day == day) :: uses[k]
      decreases todo
    {
      var k :| k in todo;
      todo := todo - {k};
      if uses[k].day != day {
        left := left - {k};
      }
    }
  }

  /** Compacts rows in place: those kept move to the front, in order, and no row is
      overwritten before it was looked at. */
  method CompactRows(cfg: Config, a: array<Observation>, now: int) returns (n: nat)
    modifies a
    ensures n <= a.Length && a[..n] == KeepRows(cfg, old(a[..]), now)
  {
    hide KeepRows;
    ghost var was := a[..];
    n := 0;
    KeepNoRows(cfg, now);
    for i := 0 to a.Length
      invariant n <= i && a[i..] == was[i..] && a[..n] == KeepRows(cfg, was[..i], now)
    {
      KeepOneMore(cfg, was, i, now);
      assert a[i] == a[i..][0] == was[i];
      if now - a[i].firstSeenAt < cfg.retention {
        ghost var before := a[..n];
        a[n] := a[i];
        n := n + 1;
        assert a[..n] == before + [was[i]];
      }
      assert a[i + 1..] == was[i + 1..];
    }
    assert was[..a.Length] == was;
  }

  lemma KeepNoRows(cfg: Config, now: int)
    ensures KeepRows(cfg, [], now) == []
  {
  }

  lemma KeepOneMore(cfg: Config, obs: seq<Observation>, i: nat, now: int)
    requires i < |obs|
    ensures KeepRows(cfg, obs[..i + 1], now) == KeepRows(cfg, obs[..i], now) + if Fresh(cfg, obs[i], now)
            then [obs[i]] else []
  {
    assert obs[..i + 1][..i] == obs[..i];
  }

  method SweepRows(cfg: Config, obs: seq<Observation>, now: int) returns (keep: seq<Observation>)
    ensures keep == KeepRows(cfg, obs, now)
  {
    var a := new Observation[|obs|](i requires 0 <= i < |obs| => obs[i]);
    assert a[..] == obs;
    var n := CompactRows(cfg, a, now);
    keep := a[..n];
  }

  lemma RowsWithout(ss: map<SessionId, SessionState>, id: SessionId)
    requires id in ss
    ensures Rows(ss - {id}) == Rows(ss) - |ss[id].obs|
  {
    assert RowCounts(ss - {id}) == RowCounts(ss) - {id};
    SumRemove(RowCounts(ss), id);
  }

  lemma RowsWith(ss: map<SessionId, SessionState>, id: SessionId, s: SessionState)
    requires id in ss
    ensures Rows(ss[id := s]) == Rows(ss) - |ss[id].obs| + |s.obs|
  {
    assert RowCounts(ss[id := s]) == RowCounts(ss)[id := |s.obs|];
    SumUpdate(RowCounts(ss), id, |s.obs|);
  }

  ghost function Swept(cfg: Config, ss: map<SessionId, SessionState>, id: SessionId, now: int): map<SessionId,
      SessionState>
    requires id in ss
  {
    if Stale(ss[id], now) then ss - {id} else ss[id := ss[id].(obs := KeepRows(cfg, ss[id].obs, now))]
  }

  /** The sweep with some sessions still to do. */
  ghost function Partly(cfg: Config, ss: map<SessionId, SessionState>, todo: set<SessionId>, now: int): map<SessionId,
      SessionState> {
    map id | id in ss && (id in todo || !Stale(ss[id], now)) ::
      if id in todo then ss[id] else ss[id].(obs := KeepRows(cfg, ss[id].obs, now))
  }

  lemma PartlyStep(cfg: Config, ss: map<SessionId, SessionState>, todo: set<SessionId>, id: SessionId, now: int)
    requires todo <= ss.Keys && id in todo
    ensures todo <= Partly(cfg, ss, todo, now).Keys
    ensures Swept(cfg, Partly(cfg, ss, todo, now), id, now) == Partly(cfg, ss, todo - {id}, now)
  {
  }

  lemma PartlyEnds(cfg: Config, ss: map<SessionId, SessionState>, now: int)
    ensures Partly(cfg, ss, ss.Keys, now) == ss
    ensures Partly(cfg, ss, {}, now) == SweepSessions(cfg, ss, now)
  {
  }

  predicate Distinct(rs: seq<Reservation>) { forall i, j :: 0 <= i < j < |rs| ==> rs[i] != rs[j] }

  lemma PendingOneMore(vs: seq<ReservationState>, i: nat, now: int)
    requires i < |vs|
    ensures PendingOf(vs[..i + 1], now) == PendingOf(vs[..i], now) + if Pending(vs[i], now) then [vs[i]] else []
  {
    assert vs[..i + 1][..i] == vs[..i];
  }

  lemma ValuesMore(rs: seq<Reservation>, r: Reservation)
    ensures Values(rs + [r]) == Values(rs) + [r.Value()]
  {
  }

  /** Compacts the list of reservations in place: the pending ones, in order. */
  method CompactReservations(a: array<Reservation>, now: int) returns (n: nat)
    requires Distinct(a[..])
    modifies a
    ensures n <= a.Length && Values(a[..n]) == PendingOf(old(Values(a[..])), now)
    ensures Distinct(a[..n]) && forall k :: 0 <= k < n ==> a[k] in old(a[..])
  {
    hide PendingOf, Values;
    ghost var was, vs := a[..], Values(a[..]);
    n := 0;
    assert PendingOf(vs[..0], now) == [] by { NonePending(now); }
    for i := 0 to a.Length
      invariant n <= i && a[i..] == was[i..] && vs == Values(was)
      invariant Values(a[..n]) == PendingOf(vs[..i], now)
      invariant Distinct(a[..n]) && forall k :: 0 <= k < n ==> a[k] in was[..i]
    {
      PendingOneMore(vs, i, now);
      var r := a[i];
      assert r == a[i..][0] == was[i];
      assert vs[i] == was[i].Value();
      ghost var before := a[..n];
      assert r !in was[..i];
      assert was[..i + 1] == was[..i] + [r];
      if !r.used && now < r.expires + MINUTE {
        ValuesMore(before, r);
        a[n] := r;
        n := n + 1;
        assert a[..n] == before + [r];
      }
      assert a[i + 1..] == was[i + 1..];
    }
    assert was[..a.Length] == was && vs[..a.Length] == vs;
  }

  lemma NonePending(now: int)
    ensures PendingOf([], now) == []
  {
  }

  class Store {
    const cfg: Config
    var sessions: map<SessionId, SessionState>
    var reservations: seq<Reservation>
    var obsCount: int
    var drops: Drops
    var sessRate: RateWindow.Rates
    var attemptRate: RateWindow.Rates
    var bulkUsed: Quota.Uses

    constructor (cfg: Config)
      ensures Valid() && this.cfg == cfg && sessions == map[] && reservations == []
      ensures obsCount == 0 && drops == Drops(0, 0, 0) && sessRate == map[] && attemptRate == map[] && bulkUsed == map[]
    {
      this.cfg := cfg;
      sessions, reservations, obsCount, drops := map[], [], 0, Drops(0, 0, 0);
      sessRate, attemptRate, bulkUsed := map[], map[], map[];
    }

    /** No reservation is filed twice. */
    ghost predicate Valid()
      reads this
    {
      forall i, j :: 0 <= i < j < |reservations| ==> reservations[i] != reservations[j]
    }

    /** The state the theorems of StoreAccounting and StoreCollection speak about. */
    ghost function View(): State
      reads this, reservations
    {
      State(sessions, Values(reservations), obsCount, drops, sessRate, attemptRate, bulkUsed)
    }

    method AllowSession(ip: Addr, now: int) returns (ok: bool)
      requires Valid()
      modifies this`sessRate
      ensures Valid()
      ensures var (rates, yes) := RateWindow.Ask(old(sessRate), cfg.sessPerMin, MINUTE, ip, now);
              if |old(sessions)| >= MAX_LIVE_SESSIONS then !ok && sessRate == old(sessRate)
              else ok == yes && sessRate == rates
    {
      if |sessions| >= MAX_LIVE_SESSIONS {
        return false;
      }
      var k := RateKey(ip);
      var kept := Prune(if k in sessRate then sessRate[k] else [], now - MINUTE);
      sessRate := sessRate[k := kept];
      if |sessRate[k]| >= cfg.sessPerMin {
        return false;
      }
      sessRate := sessRate[k := sessRate[k] + [now]];
      assert sessRate == old(sessRate)[k := kept + [now]];
      return true;
    }

    method AllowAttempt(ip: Addr, now: int) returns (ok: bool)
      requires Valid()
      modifies this`attemptRate
      ensures Valid()
      ensures (attemptRate, ok) == RateWindow.Ask(old(attemptRate), cfg.attPer10Min, 10 * MINUTE, ip, now)
    {
      var k := RateKey(ip);
      var kept := Prune(if k in attemptRate then attemptRate[k] else [], now - 10 * MINUTE);
      attemptRate := attemptRate[k := kept];
      if |attemptRate[k]| >= cfg.attPer10Min {
        return false;
      }
      attemptRate := attemptRate[k := attemptRate[k] + [now]];
      assert attemptRate == old(attemptRate)[k := kept + [now]];
      return true;
    }

    method ConsumeBulk(ip: Addr, n: int, day: int) returns (ok: bool)
      requires Valid()
      modifies this`bulkUsed
      ensures Valid()
      ensures (bulkUsed, ok) == Quota.Consume(old(bulkUsed), cfg.bulkPerDay, ip, n, day)
    {
      var k := RateKey(ip);
      var u := if k in bulkUsed then bulkUsed[k] else Quota.Use(0, 0);
      if u.day != day {
        u := Quota.Use(day, 0);
      }
      var g := if NoAddr in bulkUsed then bulkUsed[NoAddr] else Quota.Use(0, 0);
      if g.day != day {
        g := Quota.Use(day, 0);
      }
      if cfg.bulkPerDay > 0 && u.bytes + n > cfg.bulkPerDay {
        return false;
      }
      if g.bytes + n > Quota.GLOBAL_PER_DAY {
        return false;
      }
      u := u.(bytes := u.bytes + n);
      g := g.(bytes := g.bytes + n);
      bulkUsed := bulkUsed[k := u];
      bulkUsed := bulkUsed[NoAddr := g];
      return true;
    }

    /** Stores a session; an id already known keeps the rows filed under it. */
    method PutSession(id: SessionId, sess: SessionState)
      requires Valid()
      modifies this`sessions
      ensures Valid() && View() == StoreModel.PutSession(old(View()), id, sess)
    {
      var s := sess;
      if id in sessions {
        s := s.(obs := sessions[id].obs);
      }
      sessions := sessions[id := s];
    }

    method GetSession(id: SessionId, now: int) returns (s: Option<SessionState>)
      ensures s == StoreModel.GetSession(View(), id, now)
    {
      if id !in sessions || now > sessions[id].expires {
        return None;
      }
      return Some(sessions[id]);
    }

    /** Files a new reservation under the random id the caller drew for it. */
    method Reserve(r: Reservation, id: string)
      requires Valid() && r !in reservations
      modifies this`reservations, r`id
      ensures Valid() && reservations == old(reservations) + [r] && r.id == id
      ensures Values(reservations) == old(Values(reservations)) + [old(r.Value()).(id := id)]
    {
      r.id := id;
      reservations := reservations + [r];
    }

    /** The newest reservation a flow may spend, and where it is filed. */
    method NewestFor(q: Query, now: int) returns (best: Reservation?, ghost at: nat)
      ensures best == null ==> Newest(Values(reservations), q, now) == None
      ensures best != null ==>
                at < |reservations| && best == reservations[at]
                && Newest(Values(reservations), q, now) == Some(at)
    {
      var ip := Unmap(q.ip);
      best, at := null, 0;
      ghost var vs := Values(reservations);
      for i := 0 to |reservations|
        invariant best == null ==> Newest(vs[..i], q, now) == None
        invariant best != null ==> 0 <= at < i && best == reservations[at] && Newest(vs[..i], q, now) == Some(at)
      {
        assert vs[..i + 1][..i] == vs[..i];
        var r := reservations[i];
        if r.used || now > r.expires || r.clientIP != ip || r.transport != q.transport || r.dstPort != q.dstPort {
          continue;
        }
        if r.kind != "" && q.kind != "" && r.kind != q.kind {
          continue;
        }
        if best == null || r.expires > best.expires {
          best, at := r, i;
        }
      }
      assert vs[..|reservations|] == vs;
    }

    method FindReservation(q: Query, now: int, consume: bool) returns (best: Reservation?)
      requires Valid()
      modifies reservations`used
      ensures Valid()
      ensures best != null ==> best in reservations && Eligible(old(best.Value()), q, now)
      ensures forall r :: r in reservations ==> r.used == (old(r.used) || (consume && r == best))
      ensures (if best == null then None else Some(old(best.Value())))
              == StoreModel.FindReservation(old(View()), q, now)
      ensures View() == if consume then ConsumeReservation(old(View()), q, now) else old(View())
    {
      ghost var at;
      ghost var vs := Values(reservations);
      best, at := NewestFor(q, now);
      NewestSpec(vs, q, now);
      hide Newest;
      if best != null && consume {
        best.used := true;
        assert Values(reservations) == vs[at := vs[at].(used := true)];
      }
    }

    /** Records a row under the session it names; drawn is the random id a row without one gets. */
    method AddObservationAt(row: Observation, now: int, drawn: string) returns (kept: bool)
      requires Valid()
      modifies this`sessions, this`obsCount, this`drops
      ensures Valid()
      ensures var o := if row.id == "" then row.(id := drawn) else row;
              var v := Judge(cfg, old(sessions), old(obsCount), o, now);
              kept == (v == Kept) && View() == AddObservation(cfg, old(View()), o, now)
    {
      var o := if row.id == "" then row.(id := drawn) else row;
      var id := NamedSession(o);
      if id.None? || id.value !in sessions || now > sessions[id.value].expires {
        drops := drops.(noSession := drops.noSession + 1);
        return false;
      }
      var sess := sessions[id.value];
      if |sess.obs| >= MAX_SESSION_OBSERVATIONS {
        drops := drops.(sessionCap := drops.sessionCap + 1);
        return false;
      }
      if obsCount >= cfg.obsMax {
        drops := drops.(globalCap := drops.globalCap + 1);
        return false;
      }
      sessions := sessions[id.value := sess.(obs := sess.obs + [o])];
      obsCount := obsCount + 1;
      return true;
    }

    /** The rows of a session, oldest first, rows of one instant in the order they arrived. */
    method ObservationsFor(sid: string) returns (rows: seq<Observation>)
      requires Valid()
      ensures match ParseSessionId(sid)
              case Some(id) => if id in sessions then rows == StableSort(sessions[id].obs, SeenBefore) else rows == []
              case None => rows == []
    {
      var id := ParseSessionId(sid);
      if id.None? || id.value !in sessions || sessions[id.value].obs == [] {
        return [];
      }
      return StableSort(sessions[id.value].obs, SeenBefore);
    }

    method TakeDrops() returns (d: Drops, held: int)
      modifies this`drops
      ensures d == old(drops) && held == obsCount && drops == Drops(0, 0, 0)
    {
      d, drops := drops, Drops(0, 0, 0);
      held := obsCount;
    }

    method CollectSessions(now: int)
      modifies this`sessions, this`obsCount
      ensures sessions == SweepSessions(cfg, old(sessions), now)
      ensures obsCount == old(obsCount) - (Rows(old(sessions)) - Rows(sessions))
    {
      ghost var was := sessions;
      var todo := sessions.Keys;
      PartlyEnds(cfg, was, now);
      while todo != {}
        invariant todo <= was.Keys
        invariant sessions == Partly(cfg, was, todo, now)
        invariant obsCount == old(obsCount) - (Rows(was) - Rows(sessions))
        decreases todo
      {
        var id :| id in todo;
        PartlyStep(cfg, was, todo, id, now);
        var sess := sessions[id];
        if now > sess.expires + MINUTE {
          RowsWithout(sessions, id);
          sessions := sessions - {id};
          obsCount := obsCount - |sess.obs|;
        } else {
          var keep := SweepRows(cfg, sess.obs, now);
          RowsWith(sessions, id, sess.(obs := keep));
          obsCount := obsCount - (|sess.obs| - |keep|);
          sessions := sessions[id := sess.(obs := keep)];
        }
        todo := todo - {id};
      }
    }

    method CollectReservations(now: int)
      requires Valid()
      modifies this`reservations
      ensures Valid()
      ensures Values(reservations) == PendingOf(old(Values(reservations)), now)
      ensures forall r :: r in reservations ==> r in old(reservations)
    {
      var rs := reservations;
      var a := new Reservation[|rs|](i requires 0 <= i < |rs| => rs[i]);
      assert a[..] == rs;
      var n := CompactReservations(a, now);
      reservations := a[..n];
    }

    method CollectLimits(now: int, day: int)
      modifies this`sessRate, this`attemptRate, this`bulkUsed
      ensures sessRate == RateWindow.Sweep(old(sessRate), MINUTE, now)
      ensures attemptRate == RateWindow.Sweep(old(attemptRate), 10 * MINUTE, now)
      ensures bulkUsed == Quota.Sweep(old(bulkUsed), day)
    {
      sessRate := SweepRates(sessRate, MINUTE, now);
      attemptRate := SweepRates(attemptRate, 10 * MINUTE, now);
      bulkUsed := SweepUses(bulkUsed, day);
    }

    method GC(now: int, day: int)
      requires Valid()
      modifies this`sessions, this`obsCount, this`reservations, this`sessRate, this`attemptRate, this`bulkUsed
      ensures Valid()
      ensures sessions == SweepSessions(cfg, old(sessions), now)
      ensures obsCount == old(obsCount) - (Rows(old(sessions)) - Rows(sessions))
      ensures Values(reservations) == PendingOf(old(Values(reservations)), now)
      ensures forall r :: r in reservations ==> r in old(reservations)
      ensures sessRate == RateWindow.Sweep(old(sessRate), MINUTE, now)
      ensures attemptRate == RateWindow.Sweep(old(attemptRate), 10 * MINUTE, now)
      ensures bulkUsed == Quota.Sweep(old(bulkUsed), day)
      ensures View() == Gc(cfg, old(View()), now, day)
    {
      CollectSessions(now);
      CollectLimits(now, day);
      CollectReservations(now);
    }
  }

  /** Serving a session's rows: the same rows, in order of when each flow began,
      and rows of one instant in the order they were stored. */
  lemma ServedRows(obs: seq<Observation>)
    ensures Sorted(StableSort(obs, SeenBefore), SeenBefore)
    ensures multiset(StableSort(obs, SeenBefore)) == multiset(obs)
    ensures SameClasses(StableSort(obs, SeenBefore), obs, SeenBefore)
  {
    SortSpec(obs, SeenBefore);
  }
}
