/** The server store on values: what every operation of internal/server/store.go
    answers and leaves behind, and what holds over whole runs of them. */
module StoreModel {
  import opened Base
  import opened Bytes
  import opened Addresses
  import opened Evidence
  import RateWindow
  import Quota
  import opened Sums

  const MINUTE: int := 60 * SECOND
  const MAX_LIVE_SESSIONS: int := 4096
  const MAX_SESSION_OBSERVATIONS: int := 8192

  type SessionId = s: seq<byte> | |s| == 16 witness seq(16, _ => 0)

  datatype SessionState = SessionState(
    key: seq<byte>, expires: int, clientIP: Addr, tests: set<string>, obs: seq<Observation>)

  datatype ReservationState = ReservationState(
    id: string, sessionID: SessionId, expires: int, clientIP: Addr, dstPort: int, transport: string,
    kind: string, testID: string, variant: string, used: bool)

  datatype Drops = Drops(noSession: nat, sessionCap: nat, globalCap: nat)

  datatype Config = Config(obsMax: nat, retention: int, sessPerMin: int, attPer10Min: int, bulkPerDay: int)

  datatype State = State(
    sessions: map<SessionId, SessionState>, reservations: seq<ReservationState>, obsCount: int, drops: Drops,
    sessRate: RateWindow.Rates, attemptRate: RateWindow.Rates, bulkUsed: Quota.Uses)

  // ---- sessions and their rows ----

  /** Files a session; an id already known keeps the rows filed under it. */
  function PutInto(sessions: map<SessionId, SessionState>, id: SessionId, s: SessionState): map<SessionId,
      SessionState> {
    sessions[id := if id in sessions then s.(obs := sessions[id].obs) else s]
  }

  function PutSession(st: State, id: SessionId, s: SessionState): State {
    st.(sessions := PutInto(st.sessions, id, s))
  }

  function GetSession(st: State, id: SessionId, now: int): Option<SessionState> {
    LiveSession(st.sessions, id, now)
  }

  function LiveSession(sessions: map<SessionId, SessionState>, id: SessionId, now: int): Option<SessionState> {
    if id in sessions && now <= sessions[id].expires then Some(sessions[id]) else None
  }

  function ParseSessionId(s: string): Option<SessionId> {
    match Unhex(s)
    case Some(b) => if |b| == 16 then Some(b) else None
    case None => None
  }

  /** The session a row counts for: the one whose id it spells the way it is asked for. */
  function NamedSession(o: Observation): Option<SessionId> {
    match ParseSessionId(o.sessionID)
    case Some(id) => if Hex(id) == o.sessionID then Some(id) else None
    case None => None
  }

  datatype Refusal = Kept | NoSession | SessionCap | GlobalCap

  function Judge(cfg: Config, sessions: map<SessionId, SessionState>, obsCount: int, o: Observation,
      now: int): (v: Refusal)
    ensures v == Kept ==> NamedSession(o).Some? && NamedSession(o).value in sessions
  {
    match NamedSession(o)
    case None => NoSession
    case Some(id) =>
      if id !in sessions || now > sessions[id].expires then NoSession
      else if |sessions[id].obs| >= MAX_SESSION_OBSERVATIONS then SessionCap
      else if obsCount >= cfg.obsMax then GlobalCap
      else Kept
  }

  /** The row becomes the last one of the session it names. */
  function FileRow(sessions: map<SessionId, SessionState>, o: Observation): map<SessionId, SessionState>
    requires NamedSession(o).Some? && NamedSession(o).value in sessions
  {
    var id := NamedSession(o).value;
    sessions[id := sessions[id].(obs := sessions[id].obs + [o])]
  }

  function CountDrop(d: Drops, v: Refusal): Drops {
    match v
    case Kept => d
    case NoSession => d.(noSession := d.noSession + 1)
    case SessionCap => d.(sessionCap := d.sessionCap + 1)
    case GlobalCap => d.(globalCap := d.globalCap + 1)
  }

  function AddObservation(cfg: Config, st: State, o: Observation, now: int): State {
    var v := Judge(cfg, st.sessions, st.obsCount, o, now);
    if v == Kept then st.(sessions := FileRow(st.sessions, o), obsCount := st.obsCount + 1)
    else st.(drops := CountDrop(st.drops, v))
  }

  // ---- reservations ----

  datatype Query = Query(ip: Addr, transport: string, dstPort: int, kind: string)

  predicate Eligible(r: ReservationState, q: Query, now: int) {
    && !r.used && now <= r.expires && r.clientIP == Unmap(q.ip) && r.transport == q.transport && r.dstPort == q.dstPort
    && (r.kind == "" || q.kind == "" || r.kind == q.kind)
  }

  /** The newest eligible reservation; of equally new ones the first made. */
  function Newest(rs: seq<ReservationState>, q: Query, now: int): (best: Option<nat>)
    ensures best.Some? ==> best.value < |rs|
  {
    if rs == [] then None
    else
      var n := |rs| - 1;
      var best := Newest(rs[..n], q, now);
      if Eligible(rs[n], q, now) && (best.None? || rs[n].expires > rs[best.value].expires) then Some(n) else best
  }

  function FindIn(rs: seq<ReservationState>, q: Query, now: int): Option<ReservationState> {
    match Newest(rs, q, now)
    case Some(i) => Some(rs[i])
    case None => None
  }

  function FindReservation(st: State, q: Query, now: int): Option<ReservationState> {
    FindIn(st.reservations, q, now)
  }

  function Spend(rs: seq<ReservationState>, q: Query, now: int): seq<ReservationState> {
    match Newest(rs, q, now)
    case Some(i) => rs[i := rs[i].(used := true)]
    case None => rs
  }

  function ConsumeReservation(st: State, q: Query, now: int): State {
    st.(reservations := Spend(st.reservations, q, now))
  }

  /** The scan finds the newest of the eligible reservations and nothing else. */
  lemma {:induction false} NewestSpec(rs: seq<ReservationState>, q: Query, now: int)
    ensures match Newest(rs, q, now)
            case None => forall j :: 0 <= j < |rs| ==> !Eligible(rs[j], q, now)
            case Some(i) =>
              && Eligible(rs[i], q, now)
              && forall j :: 0 <= j < |rs| && Eligible(rs[j], q, now) ==>
                   rs[j].expires < rs[i].expires || (rs[j].expires == rs[i].expires && i <= j)
  {
    if rs != [] { NewestSpec(rs[..|rs| - 1], q, now); }
  }

  // ---- garbage collection ----

  predicate Fresh(cfg: Config, o: Observation, now: int) { now - o.firstSeenAt < cfg.retention }

  function KeepRows(cfg: Config, obs: seq<Observation>, now: int): seq<Observation> {
    if obs == [] then []
    else
      var kept := KeepRows(cfg, obs[..|obs| - 1], now);
      if Fresh(cfg, obs[|obs| - 1], now) then kept + [obs[|obs| - 1]] else kept
  }

  predicate Stale(s: SessionState, now: int) { now > s.expires + MINUTE }

  function SweepSessions(cfg: Config, sessions: map<SessionId, SessionState>, now: int): map<SessionId, SessionState> {
    map id | id in sessions && !Stale(sessions[id], now) ::
      sessions[id].(obs := KeepRows(cfg, sessions[id].obs, now))
  }

  predicate Pending(r: ReservationState, now: int) { !r.used && now < r.expires + MINUTE }

  function PendingOf(rs: seq<ReservationState>, now: int): seq<ReservationState> {
    if rs == [] then []
    else
      var kept := PendingOf(rs[..|rs| - 1], now);
      if Pending(rs[|rs| - 1], now) then kept + [rs[|rs| - 1]] else kept
  }

  ghost function RowCounts(sessions: map<SessionId, SessionState>): map<SessionId, int> {
    map id | id in sessions :: |sessions[id].obs|
  }

  ghost function Rows(sessions: map<SessionId, SessionState>): int { Sum(RowCounts(sessions)) }

  /** gc at a time that falls on a day of the year. */
  ghost function Gc(cfg: Config, st: State, now: int, day: int): State {
    var sessions := SweepSessions(cfg, st.sessions, now);
    st.(sessions := sessions,
        obsCount := st.obsCount - (Rows(st.sessions) - Rows(sessions)),
        sessRate := RateWindow.Sweep(st.sessRate, MINUTE, now),
        attemptRate := RateWindow.Sweep(st.attemptRate, 10 * MINUTE, now),
        bulkUsed := Quota.Sweep(st.bulkUsed, day),
        reservations := PendingOf(st.reservations, now))
  }
}
