/** The VPN sessions of one UDP listener (internal/server/udp.go, udp_vpn.go).
    Parsing and cryptography are inputs: a datagram says how its bytes read, and
    whether what they carry authenticates. Every handler is one step. */
module UdpVpn {
  import opened Base
  import opened Addresses
  import opened StoreModel
  import opened Store
  import RateWindow
  import Quota

  const SESSION_TTL: int := 90 * SECOND
  const MAX_DATA: nat := 64

  datatype Proto = WireGuard | OpenVpn | Ike | L2tp

  /** The reservation kind that opens a session. */
  function Kind(p: Proto): string {
    match p
    case WireGuard => "wireguard_initiation"
    case OpenVpn => "openvpn_reset"
    case Ike => "ikev2"
    case L2tp => "l2tp_control"
  }

  datatype ControlRead = Unreadable | Ack | Message
  datatype ResetRead = Genuine | BadHmac | NotReset
  datatype L2tpMessage = Progress | CallRequest | Zlb | OtherMessage

  /** How the bytes of a datagram read. Identifiers the server draws at random
      (a receiver index, a responder SPI, a tunnel, a call) come with it. */
  datatype Reading =
    | WgInitiation(authentic: bool, answerable: bool, index: nat)
    | WgTransport(receiver: nat, opens: bool)
    | IkeInit(spii: nat, drawnSpir: nat)
    | IkeAuth(spii: nat, spir: nat)
    | Ignored
    | Esp(spi: nat)
    | L2tpOpen(drawnTunnel: nat)
    | L2tpControl(tunnel: nat, message: L2tpMessage, drawnCall: nat)
    | L2tpData(tunnel: nat)
    | OvpnReset(read: ResetRead, csid: nat, keyed: bool)
    | OvpnControl(csid: nat, control: ControlRead)
    | OvpnData(opens: bool)
    | Elsewhere(kind: Option<string>)

  datatype Datagram = Datagram(peer: string, ip: Addr, readings: seq<Reading>)

  /** What a session has counted, answered and agreed on. */
  datatype Tally = Tally(
    dataIn: nat, dataOut: nat, ctlIn: nat, ctlOut: nat, authd: bool, call: nat,
    answers: seq<string>,   // where each answered follow-up was sent
    controls: seq<string>)  // where each L2TP control answer was sent

  /** One packet of the data channel: always counted, answered within the budget. */
  function DataPacket(t: Tally, to: string, allowed: bool): Tally {
    var u := t.(dataIn := t.dataIn + 1);
    if allowed && u.ctlIn + u.dataIn <= MAX_DATA then u.(dataOut := u.dataOut + 1, answers := u.answers + [to]) else u
  }

  /** One OpenVPN control packet: it shares the budget of the data channel. */
  function ControlPacket(t: Tally, to: string): Tally {
    var u := t.(ctlIn := t.ctlIn + 1);
    if u.ctlIn + u.dataIn <= MAX_DATA then u.(ctlOut := u.ctlOut + 1, answers := u.answers + [to]) else u
  }

  /** One L2TP control message: answered whatever the counters say. */
  function ControlMessage(t: Tally, to: string, message: L2tpMessage, drawnCall: nat): Tally {
    match message
    case Progress => t.(controls := t.controls + [to])
    case CallRequest => t.(call := drawnCall, controls := t.controls + [to])
    case _ => t
  }

  /** What a follow-up does to the session it reaches. */
  function Followed(t: Tally, w: Reading, to: string): Tally {
    match w
    case IkeAuth(_, _) => var u := DataPacket(t, to, true); u.(authd := u.authd || u.answers != t.answers)
    case L2tpControl(_, message, drawnCall) => ControlMessage(t, to, message, drawnCall)
    case L2tpData(_) => DataPacket(t, to, t.call != 0)
    case OvpnControl(_, _) => ControlPacket(t, to)
    case _ => DataPacket(t, to, true)
  }

  class Session {
    const proto: Proto
    const peer: string
    const expires: int
    const reservation: Reservation
    const spir: nat
    const esp: nat
    const keyed: bool
    var dataIn: nat
    var dataOut: nat
    var ctlIn: nat
    var ctlOut: nat
    var authd: bool
    var call: nat
    ghost var answers: seq<string>   // where each answered follow-up was sent
    ghost var controls: seq<string>  // where each L2TP control answer was sent

    constructor (proto: Proto, peer: string, expires: int, reservation: Reservation, spir: nat, esp: nat, keyed: bool)
      ensures this.proto == proto && this.peer == peer && this.expires == expires && this.reservation == reservation
      ensures this.spir == spir && this.esp == esp && this.keyed == keyed && call == 0 && !authd
      ensures Bounded() && Counts() == Tally(0, 0, 0, 0, false, 0, [], [])
    {
      this.proto, this.peer, this.expires, this.reservation := proto, peer, expires, reservation;
      this.spir, this.esp, this.keyed := spir, esp, keyed;
      dataIn, dataOut, ctlIn, ctlOut, authd, call := 0, 0, 0, 0, false, 0;
      answers, controls := [], [];
    }

    ghost function Counts(): Tally
      reads this
    {
      Tally(dataIn, dataOut, ctlIn, ctlOut, authd, call, answers, controls)
    }

    /** The budget: at most 64 follow-ups answered, all to the one peer, and what
        the counters say is what was sent. */
    ghost predicate Bounded()
      reads this
    {
      && |answers| == dataOut + ctlOut && |answers| <= MAX_DATA && |answers| <= dataIn + ctlIn
      && (proto != OpenVpn ==> ctlIn == 0)
      && (forall i :: 0 <= i < |answers| ==> answers[i] == peer)
      && (forall i :: 0 <= i < |controls| ==> controls[i] == peer)
      && (proto != L2tp ==> controls == [])
    }

    /** One packet of the data channel: always counted, answered within the budget. */
    method Data(to: string, allowed: bool) returns (answered: bool)
      requires Bounded() && to == peer
      modifies this`dataIn, this`dataOut, this`answers
      ensures Bounded() && Counts() == DataPacket(old(Counts()), to, allowed)
      ensures answered == (allowed && ctlIn + dataIn <= MAX_DATA)
    {
      dataIn := dataIn + 1;
      if ctlIn + dataIn > MAX_DATA || !allowed {
        return false;
      }
      dataOut := dataOut + 1;
      answers := answers + [to];
      return true;
    }

    /** One IKE_AUTH: a packet of the data channel that lets ESP through afterwards. */
    method Authenticate(to: string) returns (answered: bool)
      requires Bounded() && to == peer
      modifies this`dataIn, this`dataOut, this`answers, this`authd
      ensures Bounded() && Counts() == DataPacket(old(Counts()), to, true).(authd := old(authd) || answered)
      ensures answered == (ctlIn + dataIn <= MAX_DATA)
    {
      answered := Data(to, true);
      if answered {
        authd := true;
      }
    }

    /** One OpenVPN control packet: it shares the budget of the data channel. */
    method Control(to: string) returns (answered: bool)
      requires Bounded() && to == peer && proto == OpenVpn
      modifies this`ctlIn, this`ctlOut, this`answers
      ensures Bounded() && Counts() == ControlPacket(old(Counts()), to)
      ensures answered == (ctlIn + dataIn <= MAX_DATA)
    {
      ctlIn := ctlIn + 1;
      if ctlIn + dataIn > MAX_DATA {
        return false;
      }
      ctlOut := ctlOut + 1;
      answers := answers + [to];
      return true;
    }

    /** One L2TP control message: answered whatever the counters say. */
    method Signal(to: string, message: L2tpMessage, drawnCall: nat) returns (answered: bool)
      requires Bounded() && to == peer && proto == L2tp
      modifies this`call, this`controls
      ensures Bounded() && Counts() == ControlMessage(old(Counts()), to, message, drawnCall)
      ensures answered == (message.Progress? || message.CallRequest?)
    {
      match message
      case Progress =>
        controls := controls + [to];
        return true;
      case CallRequest =>
        call := drawnCall;
        controls := controls + [to];
        return true;
      case _ =>
        return false;
    }
  }

  /** The entries of a session table that have not run out. */
  ghost function Live<K>(m: map<K, Session>, now: int): map<K, Session> {
    map k | k in m && now <= m[k].expires :: m[k]
  }

  /** The ESP entries that go with the IKE sessions that ran out. */
  function SpentSpis(ike: map<nat, Session>, now: int): set<nat> {
    set k | k in ike && now > ike[k].expires :: ike[k].esp
  }

  method DropExpired<K(==)>(m: map<K, Session>, now: int) returns (kept: map<K, Session>)
    ensures kept == Live(m, now)
  {
    kept := m;
    var todo := m.Keys;
    while todo != {}
      invariant todo <= m.Keys
      invariant kept == map k | k in m && (k in todo || now <= m[k].expires) :: m[k]
      decreases todo
    {
      var k :| k in todo;
      if now > m[k].expires {
        kept := kept - {k};
      }
      todo := todo - {k};
    }
  }

  /** Every entry is a session of the listener, of the table's protocol. */
  ghost predicate Table<K(!new)>(m: map<K, Session>, all: set<Session>, p: Proto) {
    forall k :: k in m ==> m[k] in all && m[k].proto == p
  }

  ghost predicate ByPeer(m: map<string, Session>) { forall a :: a in m ==> m[a].peer == a }

  lemma LiveTable<K(!new)>(m: map<K, Session>, all: set<Session>, p: Proto, now: int)
    requires Table(m, all, p)
    ensures Table(Live(m, now), all, p)
  {
  }

  lemma LessTable<K(!new)>(m: map<K, Session>, all: set<Session>, p: Proto, gone: set<K>)
    requires Table(m, all, p)
    ensures Table(m - gone, all, p)
  {
  }

  lemma LivePeers(m: map<string, Session>, now: int)
    requires ByPeer(m)
    ensures ByPeer(Live(m, now))
  {
  }

  lemma GrownTable<K(!new)>(m: map<K, Session>, all: set<Session>, p: Proto, s: Session)
    requires Table(m, all, p)
    ensures Table(m, all + {s}, p)
  {
  }

  lemma AddedTable<K(!new)>(m: map<K, Session>, all: set<Session>, p: Proto, k: K, s: Session)
    requires Table(m, all, p) && s in all && s.proto == p
    ensures Table(m[k := s], all, p)
  {
  }

  /** The session tables of a listener. */
  datatype Index = Index(wg: map<nat, Session>, ovpn: map<nat, Session>, ovpnPeer: map<string, Session>,
                         ike: map<nat, Session>, esp: map<nat, Session>, l2tp: map<nat, Session>)

  /** Every entry was there before, or is the new session under one of its names. */
  ghost predicate From<K(!new)>(m: map<K, Session>, was: map<K, Session>, names: set<K>, s: Session?) {
    forall k :: k in m ==> (k in was && m[k] == was[k]) || (m[k] == s && k in names)
  }

  lemma LiveFrom<K(!new)>(m: map<K, Session>, now: int, s: Session?)
    ensures From(Live(m, now), m, {}, s)
  {
  }

  lemma LessFrom<K(!new)>(m: map<K, Session>, gone: set<K>, now: int, s: Session?)
    ensures From(Live(m - gone, now), m, {}, s)
  {
  }

  lemma AddedFrom<K(!new)>(m: map<K, Session>, was: map<K, Session>, k: K, s: Session)
    requires From(m, was, {}, s)
    ensures From(m[k := s], was, {k}, s)
  {
  }

  /** The tables hold what they held, but for what ran out, and the new session under
      the names its opening gives it. */
  ghost predicate Grown(x: Index, was: Index, w: Reading, d: Datagram, s: Session?) {
    && From(x.wg, was.wg, if w.WgInitiation? then {w.index} else {}, s)
    && From(x.ovpn, was.ovpn, if w.OvpnReset? then {w.csid} else {}, s)
    && From(x.ovpnPeer, was.ovpnPeer, if w.OvpnReset? then {d.peer} else {}, s)
    && From(x.ike, was.ike, if w.IkeInit? then {w.spii} else {}, s)
    && From(x.esp, was.esp, if w.IkeInit? && s != null then {s.esp} else {}, s)
    && From(x.l2tp, was.l2tp, if w.L2tpOpen? then {w.drawnTunnel} else {}, s)
  }

  /** Nothing was added yet. */
  ghost predicate Shrunk(x: Index, was: Index, s: Session?) {
    && From(x.wg, was.wg, {}, s) && From(x.ovpn, was.ovpn, {}, s) && From(x.ovpnPeer, was.ovpnPeer, {}, s)
    && From(x.ike, was.ike, {}, s) && From(x.esp, was.esp, {}, s) && From(x.l2tp, was.l2tp, {}, s)
  }

  lemma SweptShrunk(was: Index, now: int, s: Session?)
    ensures Shrunk(Index(Live(was.wg, now), Live(was.ovpn, now), Live(was.ovpnPeer, now), Live(was.ike, now),
                         Live(was.esp - SpentSpis(was.ike, now), now), Live(was.l2tp, now)), was, s)
  {
    hide Live, From, SpentSpis;
    LiveFrom(was.wg, now, s);
    LiveFrom(was.ovpn, now, s);
    LiveFrom(was.ovpnPeer, now, s);
    LiveFrom(was.ike, now, s);
    LessFrom(was.esp, SpentSpis(was.ike, now), now, s);
    LiveFrom(was.l2tp, now, s);
  }

  lemma GrownNot(x: Index, w: Reading, d: Datagram)
    ensures Grown(x, x, w, d, null)
  {
  }

  /** What a session has of the opening it came from. */
  predicate Bears(s: Session, w: Reading, espOf: nat -> nat) {
    && s.esp == espOf(s.spir)
    && match w
       case WgInitiation(authentic, answerable, _) => s.proto == WireGuard && authentic && answerable
       case IkeInit(_, r) => s.proto == Ike && s.spir == r
       case L2tpOpen(_) => s.proto == L2tp
       case OvpnReset(read, _, keyed) => s.proto == OpenVpn && read == Genuine && s.keyed == keyed
       case _ => false
  }

  class Listener {
    const store: Store
    const port: int
    const espOf: nat -> nat  // the ESP SPI that goes with a responder SPI
    var wg: map<nat, Session>
    var ovpn: map<nat, Session>
    var ovpnPeer: map<string, Session>
    var ike: map<nat, Session>
    var esp: map<nat, Session>
    var l2tp: map<nat, Session>
    ghost var all: set<Session>  // every session this listener ever opened

    constructor (store: Store, port: int, espOf: nat -> nat)
      requires store.Valid()
      ensures Valid() && this.store == store && this.port == port && this.espOf == espOf && all == {}
      ensures Tables() == Index(map[], map[], map[], map[], map[], map[])
    {
      this.store, this.port, this.espOf := store, port, espOf;
      wg, ovpn, ovpnPeer, ike, esp, l2tp := map[], map[], map[], map[], map[], map[];
      all := {};
    }

    ghost function Tables(): Index
      reads this
    {
      Index(wg, ovpn, ovpnPeer, ike, esp, l2tp)
    }

    /** A session this listener opened: a reservation made for this port and
        this kind of handshake was spent on it. */
    ghost predicate Earned(s: Session)
      reads s, s.reservation
    {
      && s.Bounded() && s.reservation.used && s.reservation.transport == "udp" && s.reservation.dstPort == port
      && (s.reservation.kind == "" || s.reservation.kind == Kind(s.proto))
    }

    ghost predicate Sound()
      reads this`all, all, set s | s in all :: s.reservation
    {
      && (forall s :: s in all ==> Earned(s))
      && (forall s, t :: s in all && t in all && s != t ==> s.reservation != t.reservation)
    }

    ghost predicate Indexed()
      reads this
    {
      && Table(wg, all, WireGuard) && Table(ovpn, all, OpenVpn) && Table(ovpnPeer, all, OpenVpn) && ByPeer(ovpnPeer)
      && Table(ike, all, Ike) && Table(esp, all, Ike) && Table(l2tp, all, L2tp)
    }

    ghost predicate Valid()
      reads this, store, all, set s | s in all :: s.reservation
    {
      store.Valid() && Sound() && Indexed()
    }

    /** The reservation the peer holds for this port and kind. */
    ghost function Held(ip: Addr, kind: string, now: int): Option<ReservationState>
      reads store, store.reservations
    {
      StoreModel.FindReservation(store.View(), Query(ip, "udp", port, kind), now)
    }

    /** The test of the reservation the peer holds, or "". */
    method Peek(ip: Addr, kind: string, now: int) returns (test: string)
      requires Valid()
      modifies store.reservations`used
      ensures Valid() && forall r :: r in store.reservations ==> r.used == old(r.used)
      ensures Held(ip, kind, now) == old(Held(ip, kind, now))
      ensures test == match old(Held(ip, kind, now)) case None => "" case Some(r) => r.testID
    {
      hide Indexed, Table, StoreModel.FindReservation, Eligible;
      var r := store.FindReservation(Query(ip, "udp", port, kind), now, false);
      test := if r == null then "" else r.testID;
    }

    /** Spends the reservation the peer holds for this port and kind, if any. */
    method Correlate(ip: Addr, kind: string, now: int) returns (r: Reservation?)
      requires Valid()
      modifies store.reservations`used
      ensures Valid()
      ensures r != null ==> Spent(r, kind) && r in store.reservations && !old(r.used)
      ensures (if r == null then None else Some(old(r.Value()))) == old(Held(ip, kind, now))
      ensures forall q :: q in store.reservations && q != r ==> q.used == old(q.used)
    {
      hide Indexed, Table, StoreModel.FindReservation, ConsumeReservation;
      r := store.FindReservation(Query(ip, "udp", port, kind), now, true);
    }

    /** A reservation just spent on a handshake of this kind: no session has it yet. */
    ghost predicate Spent(r: Reservation, kind: string)
      reads this`all, r
    {
      && r.used && r.transport == "udp" && r.dstPort == port && (r.kind == "" || kind == "" || r.kind == kind)
      && forall s :: s in all ==> s.reservation != r
    }

    /** Sessions that ran out leave every table. */
    method GcVpn(now: int)
      requires Indexed()
      modifies this`wg, this`ovpn, this`ovpnPeer, this`ike, this`esp, this`l2tp
      ensures Indexed()
      ensures wg == Live(old(wg), now) && ovpn == Live(old(ovpn), now) && ovpnPeer == Live(old(ovpnPeer), now)
      ensures ike == Live(old(ike), now) && l2tp == Live(old(l2tp), now)
      ensures esp == Live(old(esp) - SpentSpis(old(ike), now), now)
    {
      hide Table, ByPeer, Live, SpentSpis;
      var gone := SpentSpis(ike, now);
      LiveTable(wg, all, WireGuard, now);
      LiveTable(ovpn, all, OpenVpn, now);
      LiveTable(ovpnPeer, all, OpenVpn, now);
      LivePeers(ovpnPeer, now);
      LiveTable(ike, all, Ike, now);
      LessTable(esp, all, Ike, gone);
      LiveTable(esp - gone, all, Ike, now);
      LiveTable(l2tp, all, L2tp, now);
      var w := DropExpired(wg, now);
      var o := DropExpired(ovpn, now);
      var p := DropExpired(ovpnPeer, now);
      var i := DropExpired(ike, now);
      var e := DropExpired(esp - gone, now);
      var l := DropExpired(l2tp, now);
      wg, ovpn, ovpnPeer, ike, esp, l2tp := w, o, p, i, e, l;
    }

    /** A new session on the reservation its handshake spent. */
    method Open(proto: Proto, d: Datagram, r: Reservation, now: int, spir: nat, keyed: bool) returns (s: Session)
      requires Valid() && Spent(r, Kind(proto))
      modifies this
      ensures Valid() && all == old(all) + {s} && fresh(s)
      ensures s.proto == proto && s.peer == d.peer && s.expires == now + SESSION_TTL && s.reservation == r
      ensures s.spir == spir && s.esp == espOf(spir) && s.keyed == keyed
              && s.Counts() == Tally(0, 0, 0, 0, false, 0, [], [])
      ensures wg == Live(old(wg), now) && ovpn == Live(old(ovpn), now) && ovpnPeer == Live(old(ovpnPeer), now)
      ensures ike == Live(old(ike), now) && l2tp == Live(old(l2tp), now)
      ensures esp == Live(old(esp) - SpentSpis(old(ike), now), now)
      ensures Shrunk(Tables(), old(Tables()), s)
    {
      hide Table, ByPeer, Live, SpentSpis, Shrunk;
      ghost var was := Tables();
      s := new Session(proto, d.peer, now + SESSION_TTL, r, spir, espOf(spir), keyed);
      GcVpn(now);
      SweptShrunk(was, now, s);
      GrownTable(wg, all, WireGuard, s);
      GrownTable(ovpn, all, OpenVpn, s);
      GrownTable(ovpnPeer, all, OpenVpn, s);
      GrownTable(ike, all, Ike, s);
      GrownTable(esp, all, Ike, s);
      GrownTable(l2tp, all, L2tp, s);
      all := all + {s};
    }

    ghost predicate NewSession(s: Session, r: Reservation, d: Datagram, now: int)
      reads r, s
    {
      && s.reservation == r && r.used && s.peer == d.peer && s.expires == now + SESSION_TTL
      && s.Counts() == Tally(0, 0, 0, 0, false, 0, [], [])
    }

    method ServeWgInitiation(d: Datagram, w: Reading, now: int) returns (s: Session?, r: Reservation?)
      requires Valid() && w.WgInitiation?
      modifies this, store.reservations`used
      ensures Valid() && all == old(all) + if s == null then {} else {s}
      ensures s != null ==>
                fresh(s) && r != null && r in old(store.reservations) && NewSession(s, r, d, now)
                && !old(r.used)
      ensures s != null <==>
                old(Held(d.ip, Kind(WireGuard), now)).Some?
                && old(Held(d.ip, Kind(WireGuard), now)).value.testID != ""
                && w.authentic && w.answerable
      ensures s != null ==> wg == Live(old(wg), now)[w.index := s]
      ensures Grown(Tables(), old(Tables()), w, d, s) && (s != null ==> Bears(s, w, espOf))
    {
      ghost var was := Tables();
      GrownNot(was, w, d);
      s, r := null, null;
      hide Table, ByPeer, Live, Sound, Held, SpentSpis, Kind, From;
      var test := Peek(d.ip, Kind(WireGuard), now);
      if test == "" {
        return null, null;
      }
      r := Correlate(d.ip, Kind(WireGuard), now);
      if r != null && w.authentic && w.answerable {
        s := Open(WireGuard, d, r, now, 0, false);
        AddedTable(wg, all, WireGuard, w.index, s);
        AddedFrom(wg, was.wg, w.index, s);
        wg := wg[w.index := s];
      }
    }

    method ServeIkeInit(d: Datagram, w: Reading, now: int) returns (s: Session?, r: Reservation?)
      requires Valid() && w.IkeInit?
      modifies this, store.reservations`used
      ensures Valid() && all == old(all) + if s == null then {} else {s}
      ensures s != null ==>
                fresh(s) && r != null && r in old(store.reservations) && NewSession(s, r, d, now)
                && !old(r.used)
      ensures s != null <==> old(Held(d.ip, Kind(Ike), now)).Some?
      ensures s != null ==> ike == Live(old(ike), now)[w.spii := s]
                            && esp == Live(old(esp) - SpentSpis(old(ike), now), now)[s.esp := s]
      ensures Grown(Tables(), old(Tables()), w, d, s) && (s != null ==> Bears(s, w, espOf))
    {
      ghost var was := Tables();
      GrownNot(was, w, d);
      s, r := null, null;
      hide Table, ByPeer, Live, Sound, Held, SpentSpis, Kind, From;
      r := Correlate(d.ip, Kind(Ike), now);
      if r != null {
        s := Open(Ike, d, r, now, w.drawnSpir, false);
        AddedTable(ike, all, Ike, w.spii, s);
        AddedTable(esp, all, Ike, s.esp, s);
        AddedFrom(ike, was.ike, w.spii, s);
        AddedFrom(esp, was.esp, s.esp, s);
        ike, esp := ike[w.spii := s], esp[s.esp := s];
      }
    }

    method ServeL2tpOpen(d: Datagram, w: Reading, now: int) returns (s: Session?, r: Reservation?)
      requires Valid() && w.L2tpOpen?
      modifies this, store.reservations`used
      ensures Valid() && all == old(all) + if s == null then {} else {s}
      ensures s != null ==>
                fresh(s) && r != null && r in old(store.reservations) && NewSession(s, r, d, now)
                && !old(r.used)
      ensures s != null <==> old(Held(d.ip, Kind(L2tp), now)).Some?
      ensures s != null ==> l2tp == Live(old(l2tp), now)[w.drawnTunnel := s]
      ensures Grown(Tables(), old(Tables()), w, d, s) && (s != null ==> Bears(s, w, espOf))
    {
      ghost var was := Tables();
      GrownNot(was, w, d);
      s, r := null, null;
      hide Table, ByPeer, Live, Sound, Held, SpentSpis, Kind, From;
      r := Correlate(d.ip, Kind(L2tp), now);
      if r != null {
        s := Open(L2tp, d, r, now, 0, false);
        AddedTable(l2tp, all, L2tp, w.drawnTunnel, s);
        AddedFrom(l2tp, was.l2tp, w.drawnTunnel, s);
        l2tp := l2tp[w.drawnTunnel := s];
      }
    }

    /** A reset whose HMAC fails spends the reservation and gets no answer. */
    method ServeOvpnReset(d: Datagram, w: Reading, now: int) returns (s: Session?, r: Reservation?)
      requires Valid() && w.OvpnReset?
      modifies this, store.reservations`used
      ensures Valid() && all == old(all) + if s == null then {} else {s}
      ensures s != null ==>
                fresh(s) && r != null && r in old(store.reservations) && NewSession(s, r, d, now)
                && !old(r.used)
      ensures s != null <==> old(Held(d.ip, Kind(OpenVpn), now)).Some? && w.read == Genuine
      ensures s != null ==>
                ovpn == Live(old(ovpn), now)[w.csid := s]
                && ovpnPeer == Live(old(ovpnPeer), now)[d.peer := s]
      ensures w.read == BadHmac ==> (r != null <==> old(Held(d.ip, Kind(OpenVpn), now)).Some?) && (r != null ==> r.used)
      ensures Grown(Tables(), old(Tables()), w, d, s) && (s != null ==> Bears(s, w, espOf))
    {
      ghost var was := Tables();
      GrownNot(was, w, d);
      s, r := null, null;
      hide Table, Live, Sound, Held, SpentSpis, Kind, From;
      if w.read == NotReset {
        return null, null;
      }
      r := Correlate(d.ip, Kind(OpenVpn), now);
      if r != null && w.read == Genuine {
        s := Open(OpenVpn, d, r, now, 0, w.keyed);
        AddedTable(ovpn, all, OpenVpn, w.csid, s);
        AddedTable(ovpnPeer, all, OpenVpn, d.peer, s);
        AddedFrom(ovpn, was.ovpn, w.csid, s);
        AddedFrom(ovpnPeer, was.ovpnPeer, d.peer, s);
        ovpn, ovpnPeer := ovpn[w.csid := s], ovpnPeer[d.peer := s];
      }
    }

    // ---- follow-ups ----

    /** What a follow-up may do: touch the one session it belongs to, if it is
        still alive, and answer it to the address that opened it. */
    ghost predicate Reached(s: Session?, d: Datagram, now: int)
      reads this
    {
      s != null ==> s in all && now <= s.expires && s.peer == d.peer
    }

    /** The session a follow-up reaches, if it is alive, the sender's, and ready for it. */
    ghost function Target(w: Reading, d: Datagram, now: int): Session?
      reads this, esp.Values
    {
      match w
      case WgTransport(i, opens) => if i in wg && now <= wg[i].expires && wg[i].peer == d.peer
          && opens then wg[i] else null
      case IkeAuth(i, r) => if i in ike && now <= ike[i].expires && ike[i].spir == r
          && ike[i].peer == d.peer then ike[i] else null
      case Esp(i) => if i in esp && now <= esp[i].expires && esp[i].peer == d.peer && esp[i].authd then esp[i] else null
      case L2tpControl(i, _, _) => if i in l2tp && now <= l2tp[i].expires
          && l2tp[i].peer == d.peer then l2tp[i] else null
      case L2tpData(i) => if i in l2tp && now <= l2tp[i].expires && l2tp[i].peer == d.peer then l2tp[i] else null
      case OvpnControl(i, read) =>
        if i in ovpn && now <= ovpn[i].expires && ovpn[i].peer == d.peer && read == Message then ovpn[i] else null
      case OvpnData(opens) =>
        if d.peer in ovpnPeer && now <= ovpnPeer[d.peer].expires && ovpnPeer[d.peer].keyed
            && opens then ovpnPeer[d.peer] else null
      case _ => null
    }

    method ServeWgTransport(d: Datagram, w: Reading, now: int) returns (s: Session?, answered: bool)
      requires Valid() && w.WgTransport?
      modifies all
      ensures Valid() && Reached(s, d, now) && s == old(Target(w, d, now))
      ensures s != null <==>
                w.receiver in wg && now <= wg[w.receiver].expires && wg[w.receiver].peer == d.peer && w.opens
      ensures s != null ==> s == wg[w.receiver] && (answered <==> old(s.ctlIn + s.dataIn) < 64)
      ensures forall t :: t in all && t != s ==> unchanged(t)
      ensures s != null ==>
                s.Counts() == Followed(old(s.Counts()), w, d.peer)
                && (answered <==> s.answers != old(s.answers))
    {
      if w.receiver !in wg || now > wg[w.receiver].expires || wg[w.receiver].peer != d.peer || !w.opens {
        return null, false;
      }
      s := wg[w.receiver];
      answered := s.Data(d.peer, true);
    }

    method ServeIkeAuth(d: Datagram, w: Reading, now: int) returns (s: Session?, answered: bool)
      requires Valid() && w.IkeAuth?
      modifies all
      ensures Valid() && Reached(s, d, now) && s == old(Target(w, d, now))
      ensures s != null <==>
                && w.spii in ike && now <= ike[w.spii].expires && ike[w.spii].spir == w.spir
                && ike[w.spii].peer == d.peer
      ensures s != null ==> s == ike[w.spii] && (answered <==> old(s.ctlIn + s.dataIn) < 64)
      ensures s != null ==> (s.authd <==> old(s.authd) || answered)
      ensures forall t :: t in all && t != s ==> unchanged(t)
      ensures s != null ==>
                s.Counts() == Followed(old(s.Counts()), w, d.peer)
                && (answered <==> s.answers != old(s.answers))
    {
      if w.spii !in ike || now > ike[w.spii].expires || w.spir != ike[w.spii].spir || ike[w.spii].peer != d.peer {
        return null, false;
      }
      s := ike[w.spii];
      answered := s.Authenticate(d.peer);
    }

    method ServeEsp(d: Datagram, w: Reading, s0: Session, now: int) returns (s: Session?, answered: bool)
      requires Valid() && w.Esp? && w.spi in esp && s0 == esp[w.spi] && now <= s0.expires
      modifies all
      ensures Valid() && Reached(s, d, now) && s == old(Target(w, d, now))
      ensures s != null <==> s0.peer == d.peer && old(s0.authd)
      ensures s != null ==> s == s0 && (answered <==> old(s.ctlIn + s.dataIn) < 64)
      ensures forall t :: t in all && t != s ==> unchanged(t)
      ensures s != null ==>
                s.Counts() == Followed(old(s.Counts()), w, d.peer)
                && (answered <==> s.answers != old(s.answers))
    {
      if s0.peer != d.peer || !s0.authd {
        return null, false;
      }
      s := s0;
      answered := s.Data(d.peer, true);
    }

    method ServeL2tpControl(d: Datagram, w: Reading, now: int) returns (s: Session?, answered: bool)
      requires Valid() && w.L2tpControl?
      modifies all
      ensures Valid() && Reached(s, d, now) && s == old(Target(w, d, now))
      ensures s != null <==> w.tunnel in l2tp && now <= l2tp[w.tunnel].expires && l2tp[w.tunnel].peer == d.peer
      ensures s != null ==> s == l2tp[w.tunnel] && (answered <==> w.message.Progress? || w.message.CallRequest?)
      ensures s != null ==> s.call == if w.message.CallRequest? then w.drawnCall else old(s.call)
      ensures forall t :: t in all && t != s ==> unchanged(t)
      ensures s != null ==>
                s.Counts() == Followed(old(s.Counts()), w, d.peer)
                && (answered <==> s.controls != old(s.controls))
    {
      if w.tunnel !in l2tp || now > l2tp[w.tunnel].expires || l2tp[w.tunnel].peer != d.peer {
        return null, false;
      }
      s := l2tp[w.tunnel];
      answered := s.Signal(d.peer, w.message, w.drawnCall);
    }

    method ServeL2tpData(d: Datagram, w: Reading, s0: Session, now: int) returns (s: Session?, answered: bool)
      requires Valid() && w.L2tpData? && w.tunnel in l2tp && s0 == l2tp[w.tunnel] && now <= s0.expires
      modifies all
      ensures Valid() && Reached(s, d, now) && s == old(Target(w, d, now))
      ensures s != null <==> s0.peer == d.peer
      ensures s != null ==> s == s0 && (answered <==> old(s.call) != 0 && old(s.ctlIn + s.dataIn) < 64)
      ensures forall t :: t in all && t != s ==> unchanged(t)
      ensures s != null ==>
                s.Counts() == Followed(old(s.Counts()), w, d.peer)
                && (answered <==> s.answers != old(s.answers))
    {
      if s0.peer != d.peer {
        return null, false;
      }
      s := s0;
      answered := s.Data(d.peer, s.call != 0);
    }

    method ServeOvpnControl(d: Datagram, w: Reading, now: int) returns (s: Session?, answered: bool)
      requires Valid() && w.OvpnControl?
      modifies all
      ensures Valid() && Reached(s, d, now) && s == old(Target(w, d, now))
      ensures s != null <==>
                && w.csid in ovpn && now <= ovpn[w.csid].expires && ovpn[w.csid].peer == d.peer
                && w.control == Message
      ensures s != null ==> s == ovpn[w.csid] && (answered <==> old(s.ctlIn + s.dataIn) < 64)
      ensures forall t :: t in all && t != s ==> unchanged(t)
      ensures s != null ==>
                s.Counts() == Followed(old(s.Counts()), w, d.peer)
                && (answered <==> s.answers != old(s.answers))
    {
      if w.csid !in ovpn || now > ovpn[w.csid].expires || ovpn[w.csid].peer != d.peer || w.control != Message {
        return null, false;
      }
      s := ovpn[w.csid];
      answered := s.Control(d.peer);
    }

    /** No identifier on the wire: the address is the key, so the address is right. */
    method ServeOvpnData(d: Datagram, w: Reading, now: int) returns (s: Session?, answered: bool)
      requires Valid() && w.OvpnData?
      modifies all
      ensures Valid() && Reached(s, d, now) && s == old(Target(w, d, now))
      ensures s != null <==>
                && d.peer in ovpnPeer && now <= ovpnPeer[d.peer].expires && ovpnPeer[d.peer].keyed
                && w.opens
      ensures s != null ==> s == ovpnPeer[d.peer] && (answered <==> old(s.ctlIn + s.dataIn) < 64)
      ensures forall t :: t in all && t != s ==> unchanged(t)
      ensures s != null ==>
                s.Counts() == Followed(old(s.Counts()), w, d.peer)
                && (answered <==> s.answers != old(s.answers))
    {
      if d.peer !in ovpnPeer || now > ovpnPeer[d.peer].expires || !ovpnPeer[d.peer].keyed || !w.opens {
        return null, false;
      }
      s := ovpnPeer[d.peer];
      answered := s.Data(d.peer, true);
    }

    // ---- dispatch ----

    /** Whether a reading claims the datagram: two shapes are too weak without a live session. */
    predicate Claims(w: Reading, now: int)
      reads this
    {
      match w
      case Esp(spi) => spi in esp && now <= esp[spi].expires
      case L2tpData(tunnel) => tunnel in l2tp && now <= l2tp[tunnel].expires
      case _ => true
    }

    /** The readings that open a session. */
    predicate Opens(w: Reading) { w.WgInitiation? || w.IkeInit? || w.L2tpOpen? || w.OvpnReset? }

    /** Whether an opening is accepted: on a reservation the peer holds. */
    ghost predicate Accepts(w: Reading, d: Datagram, now: int)
      reads this, store, store.reservations
    {
      match w
      case WgInitiation(authentic, answerable, _) =>
        Held(d.ip, Kind(WireGuard), now).Some? && Held(d.ip, Kind(WireGuard), now).value.testID != "" && authentic
            && answerable
      case IkeInit(_, _) => Held(d.ip, Kind(Ike), now).Some?
      case L2tpOpen(_) => Held(d.ip, Kind(L2tp), now).Some?
      case OvpnReset(read, _, _) => Held(d.ip, Kind(OpenVpn), now).Some? && read == Genuine
      case _ => false
    }

    /** Where a new session is found again. */
    ghost predicate Filed(w: Reading, d: Datagram, s: Session)
      reads this
    {
      match w
      case WgInitiation(_, _, i) => i in wg && wg[i] == s
      case IkeInit(i, _) => i in ike && ike[i] == s && s.esp in esp && esp[s.esp] == s
      case L2tpOpen(i) => i in l2tp && l2tp[i] == s
      case OvpnReset(_, i, _) => i in ovpn && ovpn[i] == s && d.peer in ovpnPeer && ovpnPeer[d.peer] == s
      case _ => false
    }

    /** The reading that is served: the first that claims the datagram. */
    function Claimed(ws: seq<Reading>, now: int): Option<Reading>
      reads this
    {
      if ws == [] then None else if Claims(ws[0], now) then Some(ws[0]) else Claimed(ws[1..], now)
    }

    lemma {:induction false} ClaimedAt(ws: seq<Reading>, now: int, i: nat)
      requires i <= |ws| && (forall j :: 0 <= j < i ==> !Claims(ws[j], now))
      requires i < |ws| ==> Claims(ws[i], now)
      ensures Claimed(ws, now) == if i < |ws| then Some(ws[i]) else None
    {
      if i > 0 {
        ClaimedAt(ws[1..], now, i - 1);
      }
    }

    method ServeOpening(d: Datagram, w: Reading, now: int) returns (s: Session?, r: Reservation?)
      requires Valid() && Opens(w)
      modifies this, store.reservations`used
      ensures Valid() && all == old(all) + if s == null then {} else {s}
      ensures s != null ==>
                fresh(s) && r != null && r in old(store.reservations) && NewSession(s, r, d, now)
                && !old(r.used)
      ensures (s != null <==> old(Accepts(w, d, now))) && (s != null ==> Filed(w, d, s))
      ensures Grown(Tables(), old(Tables()), w, d, s) && (s != null ==> Bears(s, w, espOf))
    {
      hide Valid, Sound, Indexed, Held, Live, SpentSpis, Grown, Bears;
      match w {
        case WgInitiation(_, _, _) => s, r := ServeWgInitiation(d, w, now);
        case IkeInit(_, _) => s, r := ServeIkeInit(d, w, now);
        case L2tpOpen(_) => s, r := ServeL2tpOpen(d, w, now);
        case OvpnReset(_, _, _) => s, r := ServeOvpnReset(d, w, now);
      }
    }

    method ServeFollowUp(d: Datagram, w: Reading, now: int) returns (s: Session?)
      requires Valid() && Claims(w, now)
      requires w.WgTransport? || w.IkeAuth? || w.Esp? || w.L2tpControl? || w.L2tpData? || w.OvpnControl? || w.OvpnData?
      modifies all
      ensures Valid() && Reached(s, d, now) && s == old(Target(w, d, now))
      ensures forall t :: t in all && t != s ==> unchanged(t)
      ensures s != null ==> s.Counts() == Followed(old(s.Counts()), w, d.peer)
    {
      hide Sound, Earned, Followed, Target;
      var answered;
      match w {
        case WgTransport(_, _) => s, answered := ServeWgTransport(d, w, now);
        case IkeAuth(_, _) => s, answered := ServeIkeAuth(d, w, now);
        case Esp(spi) => s, answered := ServeEsp(d, w, esp[spi], now);
        case L2tpControl(_, _, _) => s, answered := ServeL2tpControl(d, w, now);
        case L2tpData(tunnel) => s, answered := ServeL2tpData(d, w, l2tp[tunnel], now);
        case OvpnControl(_, _) => s, answered := ServeOvpnControl(d, w, now);
        case OvpnData(_) => s, answered := ServeOvpnData(d, w, now);
      }
    }

    /** One datagram: the first reading that claims it is served. At most one
        session is touched, one of the sender's: a new one on a reservation
        spent for it, or a live one the sender opened before. */
    method Handle(d: Datagram, now: int) returns (ghost s: Session?, ghost r: Reservation?)
      requires Valid()
      modifies this, all, store.reservations`used
      ensures Valid() && old(all) <= all && fresh(all - old(all))
      ensures all == old(all) + if s == null then {} else {s}
      ensures forall t :: t in old(all) && t != s ==> unchanged(t)
      ensures s != null ==> s.peer == d.peer && now <= s.expires && old(Claimed(d.readings, now)).Some?
      ensures s != null ==> (fresh(s) <==> Opens(old(Claimed(d.readings, now)).value))
      ensures s != null && fresh(s) ==>
                r != null && r in old(store.reservations) && NewSession(s, r, d, now)
                && !old(r.used)
      ensures old(Claimed(d.readings, now)).Some? ==>
                var w := old(Claimed(d.readings, now)).value;
                if Opens(w) then
                  && (s != null <==> old(Accepts(w, d, now))) && (s != null ==> Filed(w, d, s) && Bears(s, w, espOf))
                  && Grown(Tables(), old(Tables()), w, d, s)
                else
                  && unchanged(this) && s == old(Target(w, d, now))
                  && (s != null ==> s.Counts() == Followed(old(s.Counts()), w, d.peer))
      ensures old(Claimed(d.readings, now)).None? ==> s == null && unchanged(this) && unchanged(store.reservations)
    {
      hide Valid, Sound, Indexed, Followed, Accepts, Filed, Held, Kind, Grown, Bears;
      s, r := null, null;
      var i := 0;
      while i < |d.readings| && !Claims(d.readings[i], now)
        invariant 0 <= i <= |d.readings|
        invariant forall j :: 0 <= j < i ==> !Claims(d.readings[j], now)
      {
        i := i + 1;
      }
      ClaimedAt(d.readings, now, i);
      if i == |d.readings| {
        return;
      }
      var w := d.readings[i];
      if w.Elsewhere? {
        if w.kind.Some? {
          var _ := Correlate(d.ip, w.kind.value, now);
        }
      } else if Opens(w) {
        s, r := ServeOpening(d, w, now);
      } else if !w.Ignored? {
        s := ServeFollowUp(d, w, now);
      }
    }
  }

  // ---- whole runs ----

  /** What the listener and the rest of the server do to the state it stands on. */
  datatype Event =
    | Arrives(d: Datagram, now: int)
    | Announces(r: ReservationState, id: string)
    | Collects(now: int, day: int)

  /** What an event did: it opened a session, or one of its readings reached one. */
  datatype Deed = Idle | Opened(s: Session, w: Reading) | Served(s: Session, w: Reading, answered: bool)

  /** What must have gone before an answer to a follow-up. */
  ghost predicate Warranted(espOf: nat -> nat, before: seq<Deed>, s: Session, w: Reading) {
    match w
    case WgTransport(i, opens) => opens && Opened(s, WgInitiation(true, true, i)) in before
    case IkeAuth(i, r) => Opened(s, IkeInit(i, r)) in before
    case Esp(e) => exists i, r :: Served(s, IkeAuth(i, r), true) in before && e == espOf(r)
    case L2tpControl(t, message, _) =>
      (message.Progress? || message.CallRequest?) && Opened(s, L2tpOpen(t)) in before
    case L2tpData(t) => exists c :: c != 0 && Served(s, L2tpControl(t, CallRequest, c), true) in before
    case OvpnControl(c, read) => read == Message && exists k :: Opened(s, OvpnReset(Genuine, c, k)) in before
    case OvpnData(opens) => opens && exists c :: Opened(s, OvpnReset(Genuine, c, true)) in before
    case _ => false
  }

  /** A deed is one of a datagram from the peer of the session, by a reading of it. */
  ghost predicate Plausible(e: Event, x: Deed, espOf: nat -> nat) {
    match x
    case Idle => true
    case Opened(s, w) =>
      && e.Arrives? && w in e.d.readings && s.peer == e.d.peer && s.expires == e.now + 90_000_000_000
      && Bears(s, w, espOf)
    case Served(s, w, _) => e.Arrives? && w in e.d.readings && s.peer == e.d.peer && e.now <= s.expires
  }

  /** Every answer is warranted by the deeds before it, and no session opens twice. */
  ghost predicate Chronicle(espOf: nat -> nat, events: seq<Event>, deeds: seq<Deed>) {
    && |deeds| == |events|
    && (forall k :: 0 <= k < |deeds| ==> Plausible(events[k], deeds[k], espOf))
    && (forall k :: 0 <= k < |deeds| && deeds[k].Served? && deeds[k].answered ==>
        Warranted(espOf, deeds[..k], deeds[k].s, deeds[k].w))
    && (forall j, k :: 0 <= j < k < |deeds| && deeds[j].Opened? && deeds[k].Opened? ==> deeds[j].s != deeds[k].s)
  }

  /** The tables hold sessions under the names they opened with. */
  ghost predicate Listed(x: Index, deeds: seq<Deed>) {
    && (forall i :: i in x.wg ==> Opened(x.wg[i], WgInitiation(true, true, i)) in deeds)
    && (forall i :: i in x.ike ==> Opened(x.ike[i], IkeInit(i, x.ike[i].spir)) in deeds)
    && (forall e :: e in x.esp ==>
          x.esp[e].esp == e && exists i :: Opened(x.esp[e], IkeInit(i, x.esp[e].spir)) in deeds)
    && (forall t :: t in x.l2tp ==> Opened(x.l2tp[t], L2tpOpen(t)) in deeds)
    && (forall c :: c in x.ovpn ==> Opened(x.ovpn[c], OvpnReset(Genuine, c, x.ovpn[c].keyed)) in deeds)
    && (forall p :: p in x.ovpnPeer ==>
          exists c :: Opened(x.ovpnPeer[p], OvpnReset(Genuine, c, x.ovpnPeer[p].keyed)) in deeds)
  }

  /** The follow-ups of a session that were answered, L2TP control messages aside. */
  ghost function Answered(deeds: seq<Deed>, s: Session): nat {
    if deeds == [] then 0
    else
      var x := deeds[|deeds| - 1];
      Answered(deeds[..|deeds| - 1], s)
      + if x.Served? && x.s == s && x.answered && !x.w.L2tpControl? then 1 else 0
  }

  /** What a session remembers is in the deeds. */
  ghost predicate Remembers(t: Tally, s: Session, deeds: seq<Deed>) {
    && (t.authd ==> exists i :: Served(s, IkeAuth(i, s.spir), true) in deeds)
    && (t.call != 0 ==> exists u :: Served(s, L2tpControl(u, CallRequest, t.call), true) in deeds)
    && |t.answers| == Answered(deeds, s)
  }

  lemma WarrantedIn(espOf: nat -> nat, before: seq<Deed>, more: seq<Deed>, s: Session, w: Reading)
    requires Warranted(espOf, before, s, w) && before <= more
    ensures Warranted(espOf, more, s, w)
  {
    assert forall x :: x in before ==> x in more;
  }

  lemma ListedMore(x: Index, deeds: seq<Deed>, y: Deed)
    requires Listed(x, deeds)
    ensures Listed(x, deeds + [y])
  {
  }

  lemma RemembersMore(t: Tally, s: Session, deeds: seq<Deed>, y: Deed)
    requires Remembers(t, s, deeds) && !(y.Served? && y.s == s)
    ensures Remembers(t, s, deeds + [y])
  {
    assert (deeds + [y])[..|deeds|] == deeds;
  }

  /** The session a follow-up reaches is entitled to its answer. */
  lemma Entitled(l: Listener, events: seq<Event>, deeds: seq<Deed>, w: Reading, d: Datagram, now: int)
    requires Chronicle(l.espOf, events, deeds) && Listed(l.Tables(), deeds)
    requires l.Target(w, d, now) != null && Remembers(l.Target(w, d, now).Counts(), l.Target(w, d, now), deeds)
    requires w.L2tpData? ==> l.Target(w, d, now).call != 0
    requires w.L2tpControl? ==> w.message.Progress? || w.message.CallRequest?
    ensures Warranted(l.espOf, deeds, l.Target(w, d, now), w)
  {
  }
  /** What has happened to a listener, in order. */
  class History {
    ghost var events: seq<Event>
    ghost var deeds: seq<Deed>  // what each of them did

    constructor ()
      ensures events == [] && deeds == []
    {
      events, deeds := [], [];
    }

    /** The sessions a deed names are the listener's, and what they hold is what was done. */
    ghost predicate Tells(l: Listener)
      reads this, l, l.all
    {
      && Chronicle(l.espOf, events, deeds) && Listed(l.Tables(), deeds)
      && (forall x :: x in deeds && !x.Idle? ==> x.s in l.all)
      && (forall s :: s in l.all ==> Remembers(s.Counts(), s, deeds))
    }
  }

  lemma {:induction false} AnsweredNone(deeds: seq<Deed>, s: Session)
    requires forall x :: x in deeds && !x.Idle? ==> x.s != s
    ensures Answered(deeds, s) == 0
  {
    if deeds != [] { AnsweredNone(deeds[..|deeds| - 1], s); }
  }

  lemma ChronicleIdle(espOf: nat -> nat, events: seq<Event>, deeds: seq<Deed>, e: Event)
    requires Chronicle(espOf, events, deeds)
    ensures Chronicle(espOf, events + [e], deeds + [Idle])
  {
    hide Warranted, Bears;
    var more := deeds + [Idle];
    forall k | 0 <= k < |deeds| ensures more[..k] == deeds[..k] { }
  }

  lemma ChronicleOpens(espOf: nat -> nat, events: seq<Event>, deeds: seq<Deed>, e: Event, s: Session, w: Reading)
    requires Chronicle(espOf, events, deeds) && Plausible(e, Opened(s, w), espOf)
    requires forall x :: x in deeds && !x.Idle? ==> x.s != s
    ensures Chronicle(espOf, events + [e], deeds + [Opened(s, w)])
  {
    hide Warranted, Plausible;
    var more := deeds + [Opened(s, w)];
    forall k | 0 <= k < |deeds| ensures more[..k] == deeds[..k] { }
  }

  lemma ChronicleServes(espOf: nat -> nat, events: seq<Event>, deeds: seq<Deed>, e: Event, x: Deed)
    requires Chronicle(espOf, events, deeds) && Plausible(e, x, espOf) && x.Served?
    requires x.answered ==> Warranted(espOf, deeds, x.s, x.w)
    ensures Chronicle(espOf, events + [e], deeds + [x])
  {
    hide Warranted, Plausible;
    var more := deeds + [x];
    forall k | 0 <= k < |deeds| ensures more[..k] == deeds[..k] { }
    assert more[..|deeds|] == deeds;
  }

  lemma ListedOpens(x: Index, was: Index, deeds: seq<Deed>, w: Reading, d: Datagram, s: Session, espOf: nat -> nat)
    requires Listed(was, deeds) && Grown(x, was, w, d, s) && Bears(s, w, espOf)
    ensures Listed(x, deeds + [Opened(s, w)])
  {
  }

  lemma ListedStays(x: Index, was: Index, deeds: seq<Deed>, w: Reading, d: Datagram)
    requires Listed(was, deeds) && Grown(x, was, w, d, null)
    ensures Listed(x, deeds)
  {
  }

  /** Whether a follow-up was answered, by what it left in the session. */
  predicate AnsweredBy(t: Tally, u: Tally) { u.answers != t.answers || u.controls != t.controls }

  lemma RemembersServed(t: Tally, s: Session, deeds: seq<Deed>, w: Reading, to: string)
    requires Remembers(t, s, deeds) && (w.IkeAuth? ==> w.spir == s.spir)
    requires !w.WgInitiation? && !w.IkeInit? && !w.L2tpOpen? && !w.OvpnReset? && !w.Ignored? && !w.Elsewhere?
    ensures var u := Followed(t, w, to);
            && Remembers(u, s, deeds + [Served(s, w, AnsweredBy(t, u))])
            && (AnsweredBy(t, u) ==> && (w.L2tpData? ==> t.call != 0)
                                     && (w.L2tpControl? ==> w.message.Progress? || w.message.CallRequest?))
  {
    var u := Followed(t, w, to);
    var more := deeds + [Served(s, w, AnsweredBy(t, u))];
    assert more[..|deeds|] == deeds;
    assert forall x :: x in deeds ==> x in more;
  }

  lemma {:induction false} ClaimedIn(l: Listener, ws: seq<Reading>, now: int)
    ensures l.Claimed(ws, now).Some? ==> l.Claimed(ws, now).value in ws
  {
    if ws != [] && !l.Claims(ws[0], now) { ClaimedIn(l, ws[1..], now); }
  }

  /** What a datagram does to the deeds, by the session it touched. */
  ghost function DeedOf(l: Listener, c: Option<Reading>, s: Session?, answered: bool): Deed {
    if s == null || c.None? then Idle else if l.Opens(c.value) then Opened(s, c.value) else Served(s, c.value, answered)
  }

  /** A datagram arrives; s is the session it opens or reaches. */
  method Arrive(l: Listener, h: History, d: Datagram, now: int) returns (ghost s: Session?)
    requires l.Valid() && h.Tells(l)
    modifies h, l, l.all, l.store.reservations`used
    ensures l.Valid() && l.all == (old(l.all) + if s == null then {} else {s}) && fresh(l.all - old(l.all))
    ensures h.events == old(h.events) + [Arrives(d, now)] && h.Tells(l) && old(h.deeds) <= h.deeds
    ensures old(l.Claimed(d.readings, now)).Some? ==>
              var w := old(l.Claimed(d.readings, now)).value;
              if l.Opens(w) then
                && (s != null <==> old(l.Accepts(w, d, now)))
                && (s != null ==> fresh(s) && l.Filed(w, d, s) && l.NewSession(s, s.reservation, d, now))
              else
                && l.l2tp == old(l.l2tp) && s == old(l.Target(w, d, now))
                && (s != null ==> s in old(l.all) && s.Counts() == Followed(old(s.Counts()), w, d.peer))
  {
    hide l.Valid, l.Held, Followed, l.Accepts, l.Filed, l.Target, l.Claimed, Chronicle, Listed, Remembers, Grown, Bears,
        Warranted, AnsweredBy;
    ghost var c, was, t0 := l.Claimed(d.readings, now), l.Tables(), Tally(0, 0, 0, 0, false, 0, [], []);
    ghost var events, deeds, all := h.events, h.deeds, l.all;
    ClaimedIn(l, d.readings, now);
    if c.Some? && !l.Opens(c.value) && l.Target(c.value, d, now) != null {
      t0 := l.Target(c.value, d, now).Counts();
      Serving(l, h, c.value, d, now);
    }
    ghost var r;
    s, r := l.Handle(d, now);
    ghost var x := DeedOf(l, c, s, s != null && AnsweredBy(t0, s.Counts()));
    h.events, h.deeds := h.events + [Arrives(d, now)], h.deeds + [x];
    if c.Some? && l.Opens(c.value) && s == null { ListedStays(l.Tables(), was, deeds, c.value, d); }
    Recorded(l, h, all, was, events, deeds, d, s);
  }

  /** What a datagram did, written down, is what the listener holds. */
  lemma Recorded(l: Listener, h: History, all: set<Session>, was: Index, events: seq<Event>, deeds: seq<Deed>,
      d: Datagram, s: Session?)
    requires Chronicle(l.espOf, events, deeds) && (forall y :: y in deeds && !y.Idle? ==> y.s in all)
    requires l.all == all + if s == null then {} else {s}
    requires forall t :: t in all && t != s ==> Remembers(t.Counts(), t, deeds)
    requires |h.events| == |events| + 1 && h.events[..|events|] == events
    requires |h.deeds| == |deeds| + 1 && h.deeds[..|deeds|] == deeds
    requires Plausible(h.events[|events|], h.deeds[|deeds|], l.espOf)
    requires match h.deeds[|deeds|]
             case Idle => s == null && Listed(l.Tables(), deeds)
             case Opened(t, w) =>
               && t == s && s !in all && Listed(was, deeds) && Grown(l.Tables(), was, w, d, s)
               && s.Counts() == Tally(0, 0, 0, 0, false, 0, [], [])
             case Served(t, w, answered) =>
               && t == s && Listed(l.Tables(), deeds) && Remembers(s.Counts(), s, h.deeds)
               && (answered ==> Warranted(l.espOf, deeds, s, w))
    ensures h.Tells(l)
  {
    hide Chronicle, Listed, Remembers, Grown, Warranted, Bears;
    var e, x := h.events[|events|], h.deeds[|deeds|];
    assert h.events == events + [e] && h.deeds == deeds + [x];
    match x {
      case Idle =>
        ChronicleIdle(l.espOf, events, deeds, e);
        ListedMore(l.Tables(), deeds, x);
      case Opened(_, w) =>
        ChronicleOpens(l.espOf, events, deeds, e, s, w);
        ListedOpens(l.Tables(), was, deeds, w, d, s, l.espOf);
        NewRemembers(s, deeds, x);
      case Served(_, w, _) =>
        ChronicleServes(l.espOf, events, deeds, e, x);
        ListedMore(l.Tables(), deeds, x);
    }
    forall t | t in all && t != s ensures Remembers(t.Counts(), t, h.deeds) { RemembersMore(t.Counts(), t, deeds, x); }
  }

  lemma NewRemembers(s: Session, deeds: seq<Deed>, x: Deed)
    requires (forall y :: y in deeds && !y.Idle? ==> y.s != s) && x.Opened?
    ensures Remembers(Tally(0, 0, 0, 0, false, 0, [], []), s, deeds + [x])
  {
    AnsweredNone(deeds, s);
    assert (deeds + [x])[..|deeds|] == deeds;
  }

  /** Before a follow-up is served, what its answer will rest on is there. */
  lemma Serving(l: Listener, h: History, w: Reading, d: Datagram, now: int)
    requires l.Valid() && h.Tells(l) && l.Target(w, d, now) != null
    ensures var s := l.Target(w, d, now);
            var t := s.Counts(); var u := Followed(t, w, d.peer);
            && s in l.all && s.peer == d.peer && now <= s.expires
            && Remembers(u, s, h.deeds + [Served(s, w, AnsweredBy(t, u))])
            && (AnsweredBy(t, u) ==> Warranted(l.espOf, h.deeds, s, w))
  {
    hide l.Sound, Followed, Chronicle, Listed, Remembers, Warranted;
    var s := l.Target(w, d, now);
    RemembersServed(s.Counts(), s, h.deeds, w, d.peer);
    if AnsweredBy(s.Counts(), Followed(s.Counts(), w, d.peer)) { Entitled(l, h.events, h.deeds, w, d, now); }
  }

  /** A new listener and an empty history agree. */
  lemma NothingYet(l: Listener, h: History)
    requires h.events == [] && h.deeds == [] && l.all == {}
    requires l.Tables() == Index(map[], map[], map[], map[], map[], map[])
    ensures h.Tells(l)
  {
  }

  /** An event that touches no session. */
  ghost method NothingDone(l: Listener, h: History, e: Event)
    requires h.Tells(l)
    modifies h
    ensures h.Tells(l) && h.events == old(h.events) + [e] && h.deeds == old(h.deeds) + [Idle]
  {
    hide Chronicle, Listed, Remembers;
    ghost var events, deeds := h.events, h.deeds;
    h.events, h.deeds := h.events + [e], h.deeds + [Idle];
    ChronicleIdle(l.espOf, events, deeds, e);
    ListedMore(l.Tables(), deeds, Idle);
    forall s | s in l.all ensures Remembers(s.Counts(), s, h.deeds) { RemembersMore(s.Counts(), s, deeds, Idle); }
  }

  /** A reservation is filed under the id drawn for it. */
  method Announce(l: Listener, h: History, state: ReservationState, id: string)
    requires l.Valid() && h.Tells(l)
    modifies h, l.store`reservations
    ensures l.Valid() && h.events == old(h.events) + [Announces(state, id)] && h.Tells(l) && old(h.deeds) <= h.deeds
    ensures Values(l.store.reservations) == old(Values(l.store.reservations)) + [state.(id := id)]
    ensures |l.store.reservations| == old(|l.store.reservations|) + 1
            && fresh(l.store.reservations[old(|l.store.reservations|)])
    ensures l.store.reservations[..old(|l.store.reservations|)] == old(l.store.reservations)
  {
    hide l.Sound, l.Indexed, Values, Chronicle, Listed, Remembers;
    var r := new Reservation(state);
    l.store.Reserve(r, id);
    NothingDone(l, h, Announces(state, id));
  }

  method Collect(l: Listener, h: History, now: int, day: int)
    requires l.Valid() && h.Tells(l)
    modifies h, l.store
    ensures l.Valid() && h.events == old(h.events) + [Collects(now, day)] && h.Tells(l) && old(h.deeds) <= h.deeds
    ensures forall r :: r in l.store.reservations ==> r in old(l.store.reservations)
  {
    hide l.Sound, l.Indexed, Gc, SweepSessions, PendingOf, Values, RateWindow.Sweep, Quota.Sweep, Rows, Chronicle,
        Listed, Remembers;
    l.store.GC(now, day);
    NothingDone(l, h, Collects(now, day));
  }

  method Step(l: Listener, h: History, e: Event)
    requires l.Valid() && h.Tells(l)
    modifies h, l, l.all, l.store, l.store.reservations
    ensures l.Valid() && old(l.all) <= l.all && fresh(l.all - old(l.all)) && h.events == old(h.events) + [e]
    ensures h.Tells(l) && old(h.deeds) <= h.deeds
    ensures forall i :: 0 <= i < |l.store.reservations| ==>
                l.store.reservations[i] in old(l.store.reservations) || fresh(l.store.reservations[i])
  {
    hide l.Valid, Values, Followed, l.Accepts, l.Filed, l.Target, l.Claimed, l.NewSession, h.Tells;
    match e {
      case Arrives(d, now) => ghost var s := Arrive(l, h, d, now);
      case Announces(state, id) => Announce(l, h, state, id);
      case Collects(now, day) => Collect(l, h, now, day);
    }
  }

  /** Over every run of a listener, with reservations filed and the store swept
      at any moment: each session was opened by a reservation of its own, which
      is spent; every follow-up went to the address that opened the session;
      and no more than 64 of them were answered, but for the control messages
      of L2TP. */
  method Run(l: Listener, h: History, events: seq<Event>)
    requires l.Valid() && h.Tells(l)
    modifies h, l, l.all, l.store, l.store.reservations
    ensures l.Valid() && h.events == old(h.events) + events && old(h.deeds) <= h.deeds && h.Tells(l)
    ensures forall s :: s in l.all ==> |s.answers| == Answered(h.deeds, s) <= MAX_DATA && s.reservation.used
    ensures forall s, i :: s in l.all && 0 <= i < |s.answers| ==> s.answers[i] == s.peer
    ensures forall s, i :: s in l.all && 0 <= i < |s.controls| ==> s.controls[i] == s.peer
    ensures forall s :: s in l.all && s.proto != L2tp ==> s.controls == []
    ensures forall s, t :: s in l.all && t in l.all && s != t ==> s.reservation != t.reservation
  {
    hide h.Tells;
    var k := 0;
    while k < |events|
      invariant 0 <= k <= |events|
      invariant l.Valid() && old(l.all) <= l.all && fresh(l.all - old(l.all))
      invariant h.events == old(h.events) + events[..k] && old(h.deeds) <= h.deeds && h.Tells(l)
      invariant forall i :: 0 <= i < |l.store.reservations| ==>
                l.store.reservations[i] in old(l.store.reservations) || fresh(l.store.reservations[i])
    {
      Step(l, h, events[k]);
      assert events[..k + 1] == events[..k] + [events[k]];
      k := k + 1;
    }
    assert events[..k] == events;
    AnswersCounted(l, h);
  }

  lemma AnswersCounted(l: Listener, h: History)
    requires h.Tells(l)
    ensures forall s :: s in l.all ==> |s.answers| == Answered(h.deeds, s)
  {
    hide Chronicle, Listed;
  }

  /** A new listener, and all that happens to it. */
  method RunNew(cfg: Config, port: int, espOf: nat -> nat, events: seq<Event>) returns (l: Listener, h: History)
    ensures fresh(l) && fresh(h) && l.Valid() && l.port == port && l.espOf == espOf
    ensures h.events == events && h.Tells(l)
    ensures forall s :: s in l.all ==> |s.answers| == Answered(h.deeds, s) <= MAX_DATA
  {
    var store := new Store(cfg);
    l := new Listener(store, port, espOf);
    h := new History();
    NothingYet(l, h);
    Run(l, h, events);
    hide Chronicle, Listed;
  }

  // ---- what the deeds of a run say ----

  /** At event k a follow-up of a session was answered. */
  ghost predicate AnsweredAt(deeds: seq<Deed>, k: int, s: Session, w: Reading) {
    0 <= k < |deeds| && deeds[k] == Served(s, w, true)
  }

  ghost predicate OpenedAt(deeds: seq<Deed>, k: int, s: Session, w: Reading) {
    0 <= k < |deeds| && deeds[k] == Opened(s, w)
  }

  lemma Earlier(deeds: seq<Deed>, k: nat, x: Deed) returns (j: nat)
    requires k <= |deeds| && x in deeds[..k]
    ensures j < k && deeds[j] == x
  {
    j :| 0 <= j < k && deeds[..k][j] == x;
  }

  /** An answer to ESP has an answered IKE_AUTH before it, with the SPIs of the
      IKE_SA_INIT that opened the session, and is for the SPI that goes with them. */
  lemma AuthBeforeEsp(espOf: nat -> nat, events: seq<Event>, deeds: seq<Deed>, k: nat, s: Session, e: nat)
    requires Chronicle(espOf, events, deeds) && AnsweredAt(deeds, k, s, Esp(e))
    ensures exists m, j, i, r :: m < j < k && OpenedAt(deeds, m, s, IkeInit(i, r))
              && AnsweredAt(deeds, j, s, IkeAuth(i, r)) && e == espOf(r)
  {
    var i, r :| Served(s, IkeAuth(i, r), true) in deeds[..k] && e == espOf(r);
    var j := Earlier(deeds, k, Served(s, IkeAuth(i, r), true));
    assert Warranted(espOf, deeds[..j], s, IkeAuth(i, r));
    var m := Earlier(deeds, j, Opened(s, IkeInit(i, r)));
    assert OpenedAt(deeds, m, s, IkeInit(i, r)) && AnsweredAt(deeds, j, s, IkeAuth(i, r));
  }

  /** An answer to L2TP data has an answered request for a call on its tunnel before it. */
  lemma CallBeforeData(espOf: nat -> nat, events: seq<Event>, deeds: seq<Deed>, k: nat, s: Session, t: nat)
    requires Chronicle(espOf, events, deeds) && AnsweredAt(deeds, k, s, L2tpData(t))
    ensures exists m, j, c :: m < j < k && OpenedAt(deeds, m, s, L2tpOpen(t))
              && AnsweredAt(deeds, j, s, L2tpControl(t, CallRequest, c)) && c != 0
  {
    var c :| c != 0 && Served(s, L2tpControl(t, CallRequest, c), true) in deeds[..k];
    var j := Earlier(deeds, k, Served(s, L2tpControl(t, CallRequest, c), true));
    assert Warranted(espOf, deeds[..j], s, L2tpControl(t, CallRequest, c));
    var m := Earlier(deeds, j, Opened(s, L2tpOpen(t)));
    assert OpenedAt(deeds, m, s, L2tpOpen(t)) && AnsweredAt(deeds, j, s, L2tpControl(t, CallRequest, c));
  }

  /** An answer to OpenVPN data has a genuine reset before it, on a session with keys. */
  lemma KeysBeforeData(espOf: nat -> nat, events: seq<Event>, deeds: seq<Deed>, k: nat, s: Session, opens: bool)
    requires Chronicle(espOf, events, deeds) && AnsweredAt(deeds, k, s, OvpnData(opens))
    ensures opens && exists m, c :: m < k && OpenedAt(deeds, m, s, OvpnReset(Genuine, c, true))
  {
    assert Warranted(espOf, deeds[..k], s, OvpnData(opens));
    var c :| Opened(s, OvpnReset(Genuine, c, true)) in deeds[..k];
    var m := Earlier(deeds, k, Opened(s, OvpnReset(Genuine, c, true)));
    assert OpenedAt(deeds, m, s, OvpnReset(Genuine, c, true));
  }

  /** Every answered follow-up has the opening of its session before it. */
  lemma OpenedBefore(espOf: nat -> nat, events: seq<Event>, deeds: seq<Deed>, k: nat, s: Session, w: Reading)
    returns (m: nat, v: Reading)
    requires Chronicle(espOf, events, deeds) && AnsweredAt(deeds, k, s, w)
    ensures m < k && OpenedAt(deeds, m, s, v) && Bears(s, v, espOf)
    ensures match w
            case WgTransport(i, opens) => opens && v == WgInitiation(true, true, i)
            case IkeAuth(i, r) => v == IkeInit(i, r)
            case Esp(e) => v.IkeInit? && e == espOf(v.drawnSpir)
            case L2tpControl(t, _, _) => v == L2tpOpen(t)
            case L2tpData(t) => v == L2tpOpen(t)
            case OvpnControl(c, read) => read == Message && v.OvpnReset? && v.csid == c
            case OvpnData(opens) => opens && v.OvpnReset? && v.keyed
            case _ => false
  {
    hide Chronicle, Warranted, Bears;
    ChronicleSays(espOf, events, deeds, k);
    if w.Esp? {
      AuthBeforeEsp(espOf, events, deeds, k, s, w.spi);
      var m', j, i, r :| m' < j < k && OpenedAt(deeds, m', s, IkeInit(i, r)) && AnsweredAt(deeds, j, s, IkeAuth(i, r))
                         && w.spi == espOf(r);
      m, v := m', IkeInit(i, r);
    } else if w.L2tpData? {
      CallBeforeData(espOf, events, deeds, k, s, w.tunnel);
      var m', j, c :| m' < j < k && OpenedAt(deeds, m', s, L2tpOpen(w.tunnel))
                      && AnsweredAt(deeds, j, s, L2tpControl(w.tunnel, CallRequest, c)) && c != 0;
      m, v := m', L2tpOpen(w.tunnel);
    } else {
      v := OpeningOf(espOf, deeds[..k], s, w);
      m := Earlier(deeds, k, Opened(s, v));
    }
  }

  lemma ChronicleSays(espOf: nat -> nat, events: seq<Event>, deeds: seq<Deed>, k: nat)
    requires Chronicle(espOf, events, deeds) && k < |deeds| && deeds[k].Served? && deeds[k].answered
    ensures Warranted(espOf, deeds[..k], deeds[k].s, deeds[k].w) && |events| == |deeds|
    ensures forall j :: 0 <= j < k ==> Plausible(events[j], deeds[j], espOf)
  {
    hide Warranted, Plausible;
  }

  lemma OpeningOf(espOf: nat -> nat, before: seq<Deed>, s: Session, w: Reading) returns (v: Reading)
    requires Warranted(espOf, before, s, w) && !w.Esp? && !w.L2tpData?
    ensures Opened(s, v) in before
    ensures match w
            case WgTransport(i, opens) => opens && v == WgInitiation(true, true, i)
            case IkeAuth(i, r) => v == IkeInit(i, r)
            case L2tpControl(t, _, _) => v == L2tpOpen(t)
            case OvpnControl(c, read) => read == Message && v.OvpnReset? && v.csid == c
            case OvpnData(opens) => opens && v.OvpnReset? && v.keyed
            case _ => false
  {
    match w {
      case WgTransport(i, _) => v := WgInitiation(true, true, i);
      case IkeAuth(i, r) => v := IkeInit(i, r);
      case L2tpControl(t, _, _) => v := L2tpOpen(t);
      case OvpnControl(c, _) =>
        var k :| Opened(s, OvpnReset(Genuine, c, k)) in before;
        v := OvpnReset(Genuine, c, k);
      case OvpnData(_) =>
        var c :| Opened(s, OvpnReset(Genuine, c, true)) in before;
        v := OvpnReset(Genuine, c, true);
    }
  }

  /** The first answered follow-up of an IKE session is an IKE_AUTH. */
  lemma AuthComesFirst(espOf: nat -> nat, events: seq<Event>, deeds: seq<Deed>, k: nat, s: Session, w: Reading)
    requires Chronicle(espOf, events, deeds) && AnsweredAt(deeds, k, s, w) && s.proto == Ike
    requires forall j, v :: j < k ==> !AnsweredAt(deeds, j, s, v)
    ensures w.IkeAuth?
  {
    hide Chronicle, Warranted;
    var m, v := OpenedBefore(espOf, events, deeds, k, s, w);
    if w.Esp? { AuthBeforeEsp(espOf, events, deeds, k, s, w.spi); }
  }

  /** A session answers the follow-ups of its own protocol only. */
  lemma OwnProtocolOnly(espOf: nat -> nat, events: seq<Event>, deeds: seq<Deed>, k: nat, s: Session, w: Reading)
    requires Chronicle(espOf, events, deeds) && AnsweredAt(deeds, k, s, w)
    ensures match s.proto
            case WireGuard => w.WgTransport?
            case Ike => w.IkeAuth? || w.Esp?
            case L2tp => w.L2tpControl? || w.L2tpData?
            case OpenVpn => w.OvpnControl? || w.OvpnData?
  {
    hide Chronicle, Warranted;
    var m, v := OpenedBefore(espOf, events, deeds, k, s, w);
  }

  // ---- L2TP control ----

  function Repeated(e: Event, n: nat): seq<Event> { seq(n, _ => e) }

  /** A reservation for an L2TP tunnel from an address, and the datagrams that open
      the tunnel and signal on it. */
  function Reserved(ip: Addr, port: int, sid: SessionId): ReservationState {
    ReservationState("", sid, 1, Unmap(ip), port, "udp", Kind(L2tp), "l2tp.init", "", false)
  }

  function Opening(peer: string, ip: Addr, tunnel: nat): Event { Arrives(Datagram(peer, ip, [L2tpOpen(tunnel)]), 0) }

  function Signalling(peer: string, ip: Addr, tunnel: nat): Event {
    Arrives(Datagram(peer, ip, [L2tpControl(tunnel, Progress, 0)]), 0)
  }

  /** A new listener with a reservation for a tunnel. */
  method ReserveTunnel(cfg: Config, port: int, espOf: nat -> nat, ip: Addr, sid: SessionId)
      returns (l: Listener, h: History)
    ensures fresh(l) && fresh(h) && fresh(l.store) && l.all == {} && l.Valid() && l.port == port
    ensures forall i :: 0 <= i < |l.store.reservations| ==> fresh(l.store.reservations[i])
    ensures h.events == [Announces(Reserved(ip, port, sid), "1")] && h.Tells(l)
    ensures Values(l.store.reservations) == [Reserved(ip, port, sid).(id := "1")]
  {
    var store := new Store(cfg);
    l := new Listener(store, port, espOf);
    h := new History();
    NothingYet(l, h);
    hide l.Valid, Reserved, h.Tells;
    Announce(l, h, Reserved(ip, port, sid), "1");
  }

  lemma TunnelAccepted(l: Listener, peer: string, ip: Addr, sid: SessionId, tunnel: nat)
    requires Values(l.store.reservations) == [Reserved(ip, l.port, sid).(id := "1")]
    ensures l.Claimed([L2tpOpen(tunnel)], 0) == Some(L2tpOpen(tunnel))
    ensures l.Accepts(L2tpOpen(tunnel), Datagram(peer, ip, [L2tpOpen(tunnel)]), 0)
  {
    HeldAlone(l.store.reservations, Reserved(ip, l.port, sid).(id := "1"), Query(ip, "udp", l.port, Kind(L2tp)), 0);
  }

  /** The datagram that opens it. */
  method OpenTunnel(l: Listener, h: History, peer: string, ip: Addr, sid: SessionId, tunnel: nat)
    requires l.Valid() && h.Tells(l) && Values(l.store.reservations) == [Reserved(ip, l.port, sid).(id := "1")]
    modifies h, l, l.all, l.store.reservations`used
    ensures l.Valid() && fresh(l.all - old(l.all)) && h.events == old(h.events) + [Opening(peer, ip, tunnel)]
    ensures h.Tells(l)
    ensures tunnel in l.l2tp && l.l2tp[tunnel] in l.all && l.l2tp[tunnel].peer == peer
            && l.l2tp[tunnel].expires == SESSION_TTL
    ensures l.l2tp[tunnel].controls == []
  {
    hide l.Valid, Followed, l.Target, l.Accepts, l.Claimed, Reserved, Values, h.Tells;
    TunnelAccepted(l, peer, ip, sid, tunnel);
    ghost var s := Arrive(l, h, Datagram(peer, ip, [L2tpOpen(tunnel)]), 0);
  }

  /** One control message more is one answer more. */
  method SignalOnce(l: Listener, h: History, peer: string, ip: Addr, tunnel: nat)
    requires l.Valid() && h.Tells(l) && tunnel in l.l2tp && l.l2tp[tunnel] in l.all && l.l2tp[tunnel].peer == peer
            && 0 <= l.l2tp[tunnel].expires
    modifies h, l, l.all, l.store.reservations`used
    ensures l.Valid() && l.all == old(l.all) && l.l2tp == old(l.l2tp)
            && h.events == old(h.events) + [Signalling(peer, ip, tunnel)] && h.Tells(l)
    ensures l.l2tp[tunnel].controls == old(l.l2tp[tunnel].controls) + [peer]
  {
    hide l.Valid, h.Tells;
    ghost var s := Arrive(l, h, Datagram(peer, ip, [L2tpControl(tunnel, Progress, 0)]), 0);
  }

  /** The control messages of an L2TP tunnel are outside that budget: for every n
      there is a run of a new listener in which n of them are answered. */
  method L2tpControlUnbounded(cfg: Config, port: int, espOf: nat -> nat, peer: string, ip: Addr, sid: SessionId,
      tunnel: nat, n: nat)
    returns (l: Listener, h: History)
    ensures fresh(l) && fresh(h) && l.Valid() && h.Tells(l)
    ensures h.events == [Announces(Reserved(ip, port, sid), "1"), Opening(peer, ip, tunnel)]
            + Repeated(Signalling(peer, ip, tunnel), n)
    ensures tunnel in l.l2tp && l.l2tp[tunnel] in l.all && l.l2tp[tunnel].peer == peer
            && l.l2tp[tunnel].controls == seq(n, _ => peer)
  {
    l, h := ReserveTunnel(cfg, port, espOf, ip, sid);
    hide l.Valid, Values, Reserved, h.Tells;
    OpenTunnel(l, h, peer, ip, sid, tunnel);
    for k := 0 to n
      invariant l.Valid() && fresh(l.all) && h.Tells(l)
      invariant forall i :: 0 <= i < |l.store.reservations| ==> fresh(l.store.reservations[i])
      invariant h.events == [Announces(Reserved(ip, port, sid), "1"), Opening(peer, ip, tunnel)]
              + Repeated(Signalling(peer, ip, tunnel), k)
      invariant tunnel in l.l2tp && l.l2tp[tunnel] in l.all && l.l2tp[tunnel].peer == peer
              && l.l2tp[tunnel].expires == SESSION_TTL
      invariant l.l2tp[tunnel].controls == seq(k, _ => peer)
    {
      SignalOnce(l, h, peer, ip, tunnel);
    }
  }

  lemma HeldAlone(rs: seq<Reservation>, v: ReservationState, q: Query, now: int)
    requires Values(rs) == [v] && Eligible(v, q, now)
    ensures FindIn(Values(rs), q, now) == Some(v)
  {
    assert [v][..0] == [];
    assert Newest([], q, now) == None;
  }
}
