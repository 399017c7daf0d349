/** What the operations of the store do, on the facts of its entries
    (internal/server/store.go): which reservation a flow gets, what is filed and
    what is dropped, and what garbage collection keeps. */
module StoreLaws {
  import opened Base
  import opened Bytes
  import opened Addresses
  import opened Evidence
  import opened StoreModel
  import RateWindow
  import Quota

  const A_MINUTE: int := 60_000_000_000

  // ---- reservations ----

  /** A reservation a flow may be matched to: unused, not run out, from the client, for
      the transport and port, and of the kind unless either leaves it open. */
  predicate Open(r: ReservationState, q: Query, now: int) {
    && !r.used && now <= r.expires && r.clientIP == (if q.ip.Mapped? then V4(q.ip.bits) else q.ip)
    && r.transport == q.transport && r.dstPort == q.dstPort && (r.kind == q.kind || r.kind == "" || q.kind == "")
  }

  /** i is the newest of the open reservations, of equally new ones the first. */
  ghost predicate Newest(rs: seq<ReservationState>, q: Query, now: int, i: nat) {
    && i < |rs| && Open(rs[i], q, now)
    && (forall j :: 0 <= j < i && Open(rs[j], q, now) ==> rs[j].expires < rs[i].expires)
    && (forall j :: i < j < |rs| && Open(rs[j], q, now) ==> rs[j].expires <= rs[i].expires)
  }

  lemma OpenIs(r: ReservationState, q: Query, now: int)
    ensures Open(r, q, now) <==> Eligible(r, q, now)
  {
  }

  /** A flow gets the newest open reservation, and consuming marks that one and leaves
      all others as they are; with none open it gets nothing and nothing changes. */
  lemma FindIff(st: State, q: Query, now: int)
    ensures FindReservation(st, q, now).None?
       <==> forall j :: 0 <= j < |st.reservations| ==> !Open(st.reservations[j], q, now)
    ensures forall i: nat :: Newest(st.reservations, q, now, i) ==>
              && FindReservation(st, q, now) == Some(st.reservations[i])
              && ConsumeReservation(st, q, now)
                 == st.(reservations := st.reservations[i := st.reservations[i].(used := true)])
    ensures (forall i: nat :: !Newest(st.reservations, q, now, i)) ==>
              FindReservation(st, q, now) == None && ConsumeReservation(st, q, now) == st
  {
    hide Eligible, Open, StoreModel.Newest;
    var rs := st.reservations;
    forall j | 0 <= j < |rs| ensures Open(rs[j], q, now) <==> Eligible(rs[j], q, now) { OpenIs(rs[j], q, now); }
    NewestSpec(rs, q, now);
    var best := StoreModel.Newest(rs, q, now);
    if best.Some? {
      assert Newest(rs, q, now, best.value);
      forall i: nat | Newest(rs, q, now, i) ensures i == best.value { }
    }
  }

  // ---- what garbage collection keeps ----

  /** at lists, in order, the places of s where p holds; kept are the elements there. */
  ghost predicate Sieved<T(!new)>(s: seq<T>, p: T -> bool, at: seq<nat>, kept: seq<T>) {
    && |kept| == |at|
    && (forall j, k :: 0 <= j < k < |at| ==> at[j] < at[k])
    && (forall k :: 0 <= k < |at| ==> at[k] < |s| && p(s[at[k]]) && kept[k] == s[at[k]])
    && (forall i: nat :: i < |s| && p(s[i]) ==> i in at)
  }

  lemma SievedMore<T(!new)>(s: seq<T>, x: T, p: T -> bool, at: seq<nat>, kept: seq<T>)
    requires Sieved(s, p, at, kept)
    ensures p(x) ==> Sieved(s + [x], p, at + [|s|], kept + [x])
    ensures !p(x) ==> Sieved(s + [x], p, at, kept)
  {
    var t := s + [x];
    assert forall i :: 0 <= i < |s| ==> t[i] == s[i];
    forall i: nat | i < |t| && p(t[i]) ensures i in at + [|s|] {
      if i < |s| { assert i in at; } else { assert (at + [|s|])[|at|] == i; }
    }
  }

  /** Rows younger than the retention. */
  function Young(cfg: Config, now: int): Observation -> bool {
    (o: Observation) => now - o.firstSeenAt < cfg.retention
  }

  /** Reservations unused and not a minute past their end. */
  function Waiting(now: int): ReservationState -> bool {
    (r: ReservationState) => !r.used && now < r.expires + A_MINUTE
  }

  lemma {:induction false} RowsKept(cfg: Config, obs: seq<Observation>, now: int) returns (at: seq<nat>)
    ensures Sieved(obs, Young(cfg, now), at, KeepRows(cfg, obs, now))
  {
    hide Sieved;
    if obs == [] {
      at := [];
      SievedNone(Young(cfg, now));
    } else {
      var init, last := obs[..|obs| - 1], obs[|obs| - 1];
      at := RowsKept(cfg, init, now);
      SievedMore(init, last, Young(cfg, now), at, KeepRows(cfg, init, now));
      assert obs == init + [last];
      if Young(cfg, now)(last) { at := at + [|init|]; }
    }
  }

  lemma SievedNone<T(!new)>(p: T -> bool)
    ensures Sieved([], p, [], [])
  {
  }

  lemma {:induction false} ReservationsKept(rs: seq<ReservationState>, now: int) returns (at: seq<nat>)
    ensures Sieved(rs, Waiting(now), at, PendingOf(rs, now))
  {
    hide Sieved;
    if rs == [] {
      at := [];
      SievedNone(Waiting(now));
    } else {
      var init, last := rs[..|rs| - 1], rs[|rs| - 1];
      at := ReservationsKept(init, now);
      SievedMore(init, last, Waiting(now), at, PendingOf(init, now));
      assert rs == init + [last];
      if Waiting(now)(last) { at := at + [|init|]; }
    }
  }

  /** kept are the elements of s that p holds of, in their order. */
  ghost predicate Sieve<T(!new)>(s: seq<T>, p: T -> bool, kept: seq<T>) { exists at :: Sieved(s, p, at, kept) }

  /** A collection keeps a session until a minute after it ran out, with all but its
      rows; of those the ones within retention. It keeps the day's counters, and the
      reservations still to be used. */
  lemma GcKeeps(cfg: Config, st: State, now: int, day: int)
    ensures var t := Gc(cfg, st, now, day);
            && (forall id :: id in t.sessions <==> id in st.sessions && now <= st.sessions[id].expires + A_MINUTE)
            && (forall id :: id in t.sessions ==>
                  && t.sessions[id] == st.sessions[id].(obs := t.sessions[id].obs)
                  && Sieve(st.sessions[id].obs, Young(cfg, now), t.sessions[id].obs))
            && Sieve(st.reservations, Waiting(now), t.reservations)
            && (forall k :: k in t.bulkUsed <==> k in st.bulkUsed && st.bulkUsed[k].day == day)
            && (forall k :: k in t.bulkUsed ==> t.bulkUsed[k] == st.bulkUsed[k])
            && t.drops == st.drops
  {
    hide KeepRows, PendingOf, Rows, Sieve;
    ReservationsSieved(st.reservations, now);
    forall id | id in st.sessions
      ensures Sieve(st.sessions[id].obs, Young(cfg, now), KeepRows(cfg, st.sessions[id].obs, now))
    {
      RowsSieved(cfg, st.sessions[id].obs, now);
    }
  }

  lemma ReservationsSieved(rs: seq<ReservationState>, now: int)
    ensures Sieve(rs, Waiting(now), PendingOf(rs, now))
  {
    hide Sieved;
    var at := ReservationsKept(rs, now);
  }

  lemma RowsSieved(cfg: Config, obs: seq<Observation>, now: int)
    ensures Sieve(obs, Young(cfg, now), KeepRows(cfg, obs, now))
  {
    hide Sieved;
    var at := RowsKept(cfg, obs, now);
  }

  /** A limit's times are forgotten exactly when they run in order and all are before the window. */
  lemma SweepKeeps(rates: RateWindow.Rates, width: int, now: int, k: Addr)
    requires k in rates && forall i, j :: 0 <= i < j < |rates[k]| ==> rates[k][i] <= rates[k][j]
    ensures k in RateWindow.Sweep(rates, width, now) <==> exists i :: 0 <= i < |rates[k]| && rates[k][i] >= now - width
    ensures k in RateWindow.Sweep(rates, width, now) ==> RateWindow.Sweep(rates, width, now)[k] == rates[k]
  {
    PruneIff(rates[k], now - width);
  }

  lemma {:induction false} PruneIff(ts: seq<int>, since: int)
    requires forall i, j :: 0 <= i < j < |ts| ==> ts[i] <= ts[j]
    ensures RateWindow.Prune(ts, since) != [] <==> exists i :: 0 <= i < |ts| && ts[i] >= since
  {
    if ts != [] && ts[0] < since {
      PruneIff(ts[1..], since);
      if i :| 0 <= i < |ts| && ts[i] >= since { assert ts[1..][i - 1] == ts[i]; }
    } else if ts != [] {
      assert ts[0] >= since;
    }
  }

  // ---- sessions ----

  /** A session stored is the one looked up until it runs out, with the rows that were
      filed under its id before; what is looked up under another id does not change. */
  lemma PutThenGet(st: State, id: SessionId, s: SessionState, other: SessionId, now: int)
    ensures var t := PutSession(st, id, s);
            && GetSession(t, id, now)
               == (if now > s.expires then None
                   else Some(s.(obs := if id in st.sessions then st.sessions[id].obs else s.obs)))
            && (other != id ==> GetSession(t, other, now) == GetSession(st, other, now))
            && t == st.(sessions := t.sessions)
  {
  }

  // ---- rows ----

  /** Which counter an observation that is not filed adds to. */
  lemma DropIff(cfg: Config, st: State, o: Observation, now: int)
    ensures var t := AddObservation(cfg, st, o, now);
            var live := exists id: SessionId ::
                id in st.sessions && Hex(id) == o.sessionID && now <= st.sessions[id].expires;
            var full := exists id: SessionId ::
                id in st.sessions && Hex(id) == o.sessionID && |st.sessions[id].obs| >= 8192;
            && t.drops.noSession == st.drops.noSession + (if live then 0 else 1)
            && t.drops.sessionCap == st.drops.sessionCap + (if live && full then 1 else 0)
            && t.drops.globalCap == st.drops.globalCap + (if live && !full && st.obsCount >= cfg.obsMax then 1 else 0)
            && t.obsCount == st.obsCount + if live && !full && st.obsCount < cfg.obsMax then 1 else 0
  {
    forall id: SessionId ensures Hex(id) == o.sessionID <==> NamedSession(o) == Some(id) { NamedIff(o, id); }
  }

  lemma NamedIff(o: Observation, id: SessionId)
    ensures Hex(id) == o.sessionID <==> NamedSession(o) == Some(id)
  {
    HexRoundTrip(id);
  }

  // ---- quotas ----

  /** In every run a charge is granted exactly when the client has not had its share of
      the day yet, and the server not its 4 GiB. */
  lemma GrantIff(perDay: int, es: seq<Quota.Event>, ip: Addr, n: int, day: int)
    requires Quota.Ordinary(es) && es != [] && es[|es| - 1].day == day
    ensures Quota.Consume(Quota.Replay(perDay, es), perDay, ip, n, day).1
       <==> && (perDay > 0 ==> Quota.Granted(perDay, es, RateKey(ip), day) + n <= perDay)
            && Quota.Granted(perDay, es, NoAddr, day) + n <= 4 * 1024 * 1024 * 1024
  {
    hide Quota.Replay, Quota.Granted, Quota.Ordinary;
    Quota.CountersAreGrants(perDay, es, RateKey(ip));
    Quota.CountersAreGrants(perDay, es, NoAddr);
  }
}
