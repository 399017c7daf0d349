/** Observation accounting and isolation over every run of the store. */
module StoreAccounting {
  import opened Bytes
  import opened Evidence
  import opened Sums
  import opened StoreModel

  datatype Op = Put(id: SessionId, s: SessionState) | Add(o: Observation, now: int) | Collect(now: int, day: int)

  ghost function Apply(cfg: Config, st: State, op: Op): State {
    match op
    case Put(id, s) => PutSession(st, id, s)
    case Add(o, now) => AddObservation(cfg, st, o, now)
    case Collect(now, day) => Gc(cfg, st, now, day)
  }

  ghost function Replay(cfg: Config, ops: seq<Op>): State {
    if ops == [] then State(map[], [], 0, Drops(0, 0, 0), map[], map[], map[])
    else Apply(cfg, Replay(cfg, ops[..|ops| - 1]), ops[|ops| - 1])
  }

  /** Sessions enter without rows; a known id is the same session stored again. */
  ghost predicate Ordinary(cfg: Config, ops: seq<Op>) {
    ops == [] ||
    var p, op := ops[..|ops| - 1], ops[|ops| - 1];
    Ordinary(cfg, p) && (op.Put? ==> op.s.obs == [] || op.id in Replay(cfg, p).sessions)
  }

  /** The rows of one session: bounded, and all naming it. */
  ghost predicate OwnRows(id: SessionId, s: SessionState) {
    && |s.obs| <= MAX_SESSION_OBSERVATIONS
    && forall i :: 0 <= i < |s.obs| ==> s.obs[i].sessionID == Hex(id)
  }

  ghost predicate Inv(cfg: Config, st: State) {
    && st.obsCount == Rows(st.sessions) <= cfg.obsMax
    && forall id :: id in st.sessions ==> OwnRows(id, st.sessions[id])
  }

  lemma PutRows(sessions: map<SessionId, SessionState>, id: SessionId, s: SessionState)
    ensures Rows(sessions[id := s]) == Rows(sessions) + |s.obs| - if id in sessions then |sessions[id].obs| else 0
  {
    assert RowCounts(sessions[id := s]) == RowCounts(sessions)[id := |s.obs|];
    SumUpdate(RowCounts(sessions), id, |s.obs|);
  }

  lemma {:induction false} KeptRows(cfg: Config, obs: seq<Observation>, now: int)
    ensures |KeepRows(cfg, obs, now)| <= |obs|
    ensures forall i :: 0 <= i < |KeepRows(cfg, obs, now)| ==> KeepRows(cfg, obs, now)[i] in obs
    ensures forall o :: o in obs && Fresh(cfg, o, now) ==> o in KeepRows(cfg, obs, now)
    ensures forall o :: o in KeepRows(cfg, obs, now) ==> Fresh(cfg, o, now)
  {
    if obs != [] {
      KeptRows(cfg, obs[..|obs| - 1], now);
      assert obs == obs[..|obs| - 1] + [obs[|obs| - 1]];
    }
  }

  lemma CollectKeepsInv(cfg: Config, st: State, now: int, day: int)
    requires Inv(cfg, st)
    ensures Inv(cfg, Gc(cfg, st, now, day))
  {
    var after := SweepSessions(cfg, st.sessions, now);
    forall id | id in after
      ensures OwnRows(id, after[id]) && |after[id].obs| <= |st.sessions[id].obs|
    {
      KeptRows(cfg, st.sessions[id].obs, now);
    }
    SumShrinks(RowCounts(after), RowCounts(st.sessions));
  }

  lemma AddKeepsInv(cfg: Config, st: State, o: Observation, now: int)
    requires Inv(cfg, st)
    ensures Inv(cfg, AddObservation(cfg, st, o, now))
  {
    if Judge(cfg, st.sessions, st.obsCount, o, now) == Kept {
      var id := NamedSession(o).value;
      PutRows(st.sessions, id, st.sessions[id].(obs := st.sessions[id].obs + [o]));
    }
  }

  lemma {:induction false} RunKeepsInv(cfg: Config, ops: seq<Op>)
    requires Ordinary(cfg, ops)
    ensures Inv(cfg, Replay(cfg, ops))
  {
    if ops == [] {
      var none: map<SessionId, SessionState> := map[];
      assert RowCounts(none) == map[];
    } else {
      var p, op := ops[..|ops| - 1], ops[|ops| - 1];
      var st := Replay(cfg, p);
      RunKeepsInv(cfg, p);
      match op {
        case Put(id, s) => PutRows(st.sessions, id, if id in st.sessions then s.(obs := st.sessions[id].obs) else s);
        case Add(o, now) => AddKeepsInv(cfg, st, o, now);
        case Collect(now, day) => CollectKeepsInv(cfg, st, now, day);
      }
    }
  }

  /** After every run: the counter is the number of rows held and within its
      limit, no session is over its own, every row names the session holding it. */
  lemma ObservationAccounting(cfg: Config, ops: seq<Op>)
    requires Ordinary(cfg, ops)
    ensures var st := Replay(cfg, ops);
            && st.obsCount == Rows(st.sessions) <= cfg.obsMax
            && (forall id :: id in st.sessions ==> |st.sessions[id].obs| <= MAX_SESSION_OBSERVATIONS)
            && (forall id, i :: id in st.sessions && 0 <= i < |st.sessions[id].obs| ==>
                  st.sessions[id].obs[i].sessionID == Hex(id))
  {
    RunKeepsInv(cfg, ops);
    var st := Replay(cfg, ops);
    assert forall id :: id in st.sessions ==> OwnRows(id, st.sessions[id]);
  }

  /** A row is kept exactly when it spells the id of a live session with room in
      the session and in the store; it is then the last row of that session, and
      nothing else in any session moves. A refused row moves no session. */
  lemma AddIsIsolated(cfg: Config, st: State, o: Observation, now: int, id: SessionId)
    requires id in st.sessions
    ensures var st' := AddObservation(cfg, st, o, now); var s := st.sessions[id];
            && id in st'.sessions && st'.sessions.Keys == st.sessions.Keys
            && var kept := o.sessionID == Hex(id) && now <= s.expires && |s.obs| < MAX_SESSION_OBSERVATIONS
                && st.obsCount < cfg.obsMax;
               st'.sessions[id] == if kept then s.(obs := s.obs + [o]) else s
  {
    HexRoundTrip(id);
  }

  /** Without a garbage collection no operation takes a row away: the rows a
      session had stay in place in front of those it has later. */
  lemma {:induction false} RowsOnlyGrow(cfg: Config, st: State, ops: seq<Op>, id: SessionId)
    requires id in st.sessions
    requires forall i :: 0 <= i < |ops| ==> !ops[i].Collect?
    ensures id in After(cfg, st, ops).sessions
    ensures st.sessions[id].obs <= After(cfg, st, ops).sessions[id].obs
  {
    if ops != [] {
      RowsOnlyGrow(cfg, st, ops[..|ops| - 1], id);
      var mid, op := After(cfg, st, ops[..|ops| - 1]), ops[|ops| - 1];
      if op.Add? { AddIsIsolated(cfg, mid, op.o, op.now, id); }
    }
  }

  ghost function After(cfg: Config, st: State, ops: seq<Op>): State {
    if ops == [] then st else Apply(cfg, After(cfg, st, ops[..|ops| - 1]), ops[|ops| - 1])
  }
}
