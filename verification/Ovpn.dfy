/** The OpenVPN control channel (internal/ovpn/ovpn.go), plain and tls-auth, and
    the size of the server's control answers (internal/server/udp_vpn.go). The
    HMAC is a parameter; only the length of what it returns is used. */
module Ovpn {
  import opened Base
  import opened Bytes
  import opened Envelope

  type Session = s: seq<byte> | |s| == 8 witness seq(8, _ => 0)
  type Sha1Tag = s: seq<byte> | |s| == 20 witness seq(20, _ => 0)
  type Hmac = (seq<byte>, seq<byte>) -> Sha1Tag

  const CONTROL_V1: nat := 4
  const ACK_V1: nat := 5
  const RESET_CLIENT_V2: nat := 7
  const RESET_SERVER_V2: nat := 8
  const HMAC_LEN: nat := 20
  const REPLAY_LEN: nat := 8
  const CONTROL_HDR_LEN: nat := 14
  const NO_SESSION: Session := [0, 0, 0, 0, 0, 0, 0, 0]

  predicate IsControlOp(op: nat) { op == CONTROL_V1 || op == ACK_V1 || op == RESET_CLIENT_V2 || op == RESET_SERVER_V2 }

  datatype Packet = Packet(op: nat, keyId: nat, sid: Session, acks: seq<u32>, remoteSid: Session,
                           pid: u32, payload: seq<byte>, replayId: u32, netTime: u32)

  datatype ParseError = NotControl | Short | BadHmac
  datatype Parsed = Accepted(p: Packet) | Rejected(error: ParseError)

  /** The layout of one direction: whether tls-auth is on, the key packets are
      made with, and the key they are checked with (none: not checked). */
  datatype Keys = Keys(tlsAuth: bool, send: seq<byte>, recv: Option<seq<byte>>)

  function HdrLen(tlsAuth: bool, nAcks: nat): nat {
    CONTROL_HDR_LEN + 4 * nAcks + (if nAcks > 0 then 8 else 0) + if tlsAuth then HMAC_LEN + REPLAY_LEN else 0
  }

  // ---- writing ----

  function Head(p: Packet): seq<byte> { [((8 * p.op + p.keyId % 8) % 256) as byte] + p.sid }

  function AckBytes(acks: seq<u32>): (b: seq<byte>)
    ensures |b| == 4 * |acks|
  {
    if acks == [] then [] else AckBytes(acks[..|acks| - 1]) + BigEndian(acks[|acks| - 1], 4)
  }

  function Remote(p: Packet): seq<byte> { if p.acks == [] then [] else p.remoteSid }

  function Message(p: Packet): seq<byte> { if p.op == ACK_V1 then [] else BigEndian(p.pid, 4) + p.payload }

  function Tail(p: Packet): seq<byte> { [(|p.acks| % 256) as byte] + AckBytes(p.acks) + Remote(p) + Message(p) }

  function Replay(p: Packet): (b: seq<byte>)
    ensures |b| == REPLAY_LEN
  {
    BigEndian(p.replayId, 4) + BigEndian(p.netTime, 4)
  }

  /** The bytes of p with the replay fields it carries. */
  function Wire(k: Keys, mac: Hmac, p: Packet): seq<byte> {
    if k.tlsAuth then Head(p) + mac(k.send, Replay(p) + Head(p) + Tail(p)) + Replay(p) + Tail(p)
    else Head(p) + Tail(p)
  }

  /** The id the next packet gets, and the counter after it (32 bits). */
  function NextId(replay: u32): u32 { if replay == 0 then 1 else replay }
  function Advance(replay: u32): u32 { (NextId(replay) + 1) % 0x1_0000_0000 }

  // ---- reading ----

  function ReadAcks(b: seq<byte>, n: nat): (acks: seq<u32>)
    requires 4 * n <= |b|
    ensures |acks| == n
  {
    if n == 0 then [] else
      var last := b[4 * n - 4..4 * n];
      BigEndianOfNumber(last);
      Widths();
      ReadAcks(b, n - 1) + [Number(last)]
  }

  /** What follows the session id (and the tls-auth block). */
  function ParseTail(p: Packet, rest: seq<byte>): Parsed
    requires |rest| >= 1
  {
    var n := rest[0] as nat;
    var body := rest[1..];
    var need := 4 * n + if n > 0 then 8 else 0;
    if |body| < need then Rejected(Short)
    else
      var p := p.(acks := ReadAcks(body, n), remoteSid := if n > 0 then body[4 * n..need] else NO_SESSION);
      ParseMessage(p, body[need..])
  }

  function ParseMessage(p: Packet, rest: seq<byte>): Parsed {
    if p.op == ACK_V1 then if rest == [] then Accepted(p) else Rejected(NotControl)
    else if |rest| < 4 then Rejected(Short)
    else
      BigEndianOfNumber(rest[..4]);
      Widths();
      Accepted(p.(pid := Number(rest[..4]), payload := rest[4..]))
  }

  function Start(b: seq<byte>): Packet
    requires |b| >= 9
  {
    Packet(b[0] as nat / 8, b[0] as nat % 8, b[1..9], [], NO_SESSION, 0, [], 0, 0)
  }

  function Stamp(p: Packet, replay: seq<byte>): Packet
    requires |replay| == REPLAY_LEN
  {
    BigEndianOfNumber(replay[..4]);
    BigEndianOfNumber(replay[4..]);
    Widths();
    p.(replayId := Number(replay[..4]), netTime := Number(replay[4..]))
  }

  function Read(k: Keys, mac: Hmac, b: seq<byte>): Parsed {
    if |b| < 10 || !IsControlOp(b[0] as nat / 8) then Rejected(NotControl)
    else if !k.tlsAuth then ParseTail(Start(b), b[9..])
    else if |b| < 9 + HMAC_LEN + REPLAY_LEN + 1 then Rejected(Short)
    else if k.recv.Some? && mac(k.recv.value, b[29..37] + b[..9] + b[37..]) != b[9..29] then Rejected(BadHmac)
    else ParseTail(Stamp(Start(b), b[29..37]), b[37..])
  }

  /** Where the acknowledgements of a packet begin, and where its message would. */
  function AcksAt(k: Keys): nat { if k.tlsAuth then 37 else 9 }

  function MessageAt(k: Keys, b: seq<byte>): nat
    requires |b| > AcksAt(k)
  {
    var n := b[AcksAt(k)] as nat;
    AcksAt(k) + 1 + if n == 0 then 0 else 4 * n + 8
  }

  /** Why a packet is turned down: too short for an opcode, or not one of the four; cut
      inside the header or before its message id; an HMAC that does not match, on a
      packet long enough to have one; an acknowledgement with something behind it. */
  lemma RejectedIff(k: Keys, mac: Hmac, b: seq<byte>)
    ensures var control := |b| >= 10 && b[0] as nat / 8 in {4, 5, 7, 8};
            var headed := control && |b| > AcksAt(k);
            var forged := headed && k.tlsAuth && k.recv.Some?
                && mac(k.recv.value, b[29..37] + b[..9] + b[37..]) != b[9..29];
            var ack := control && b[0] as nat / 8 == 5;
            && (Read(k, mac, b) == Rejected(BadHmac) <==> forged)
            && (Read(k, mac, b) == Rejected(NotControl) <==>
                !control || (headed && !forged && ack && |b| > MessageAt(k, b)))
            && (Read(k, mac, b) == Rejected(Short) <==>
                control && !forged && (!headed || |b| < MessageAt(k, b) + if ack then 0 else 4))
  {
  }

  // ---- the layout object ----

  class Layout {
    const keys: Keys
    const mac: Hmac
    var replay: u32

    /** A plain layout never counts; a tls-auth one starts at 1. */
    constructor (keys: Keys, mac: Hmac)
      ensures this.keys == keys && this.mac == mac && replay == if keys.tlsAuth then 1 else 0
    {
      this.keys, this.mac := keys, mac;
      replay := if keys.tlsAuth then 1 else 0;
    }

    /** Builds p at the time `clock`; whatever replay fields p has are replaced. */
    method Build(p: Packet, clock: u32) returns (b: seq<byte>)
      modifies this`replay
      ensures b == Wire(keys, mac, p.(replayId := NextId(old(replay)), netTime := clock))
      ensures replay == if keys.tlsAuth then Advance(old(replay)) else old(replay)
    {
      var head := [((8 * p.op + p.keyId % 8) % 256) as byte] + p.sid;
      var body: seq<byte> := [(|p.acks| % 256) as byte];
      var i := 0;
      while i < |p.acks|
        invariant 0 <= i <= |p.acks|
        invariant body == [(|p.acks| % 256) as byte] + AckBytes(p.acks[..i])
      {
        assert p.acks[..i + 1][..i] == p.acks[..i];
        body := body + BigEndian(p.acks[i], 4);
        i := i + 1;
      }
      assert p.acks[..i] == p.acks;
      if |p.acks| > 0 {
        body := body + p.remoteSid;
      }
      if p.op != ACK_V1 {
        body := body + BigEndian(p.pid, 4) + p.payload;
      }
      ghost var q := p.(replayId := NextId(replay), netTime := clock);
      assert body == Tail(q) && head == Head(q);
      if !keys.tlsAuth {
        return head + body;
      }
      var id := if replay == 0 then 1 else replay;
      replay := (id + 1) % 0x1_0000_0000;
      var stamp := BigEndian(id, 4) + BigEndian(clock, 4);
      return head + mac(keys.send, stamp + head + body) + stamp + body;
    }

    method Parse(b: seq<byte>) returns (r: Parsed)
      ensures r == Read(keys, mac, b)
    {
      if |b| < 10 || !IsControlOp(b[0] as nat / 8) {
        return Rejected(NotControl);
      }
      var p := Start(b);
      var rest := b[9..];
      if keys.tlsAuth {
        if |rest| < HMAC_LEN + REPLAY_LEN + 1 {
          return Rejected(Short);
        }
        var tag, stamp := rest[..HMAC_LEN], rest[HMAC_LEN..HMAC_LEN + REPLAY_LEN];
        rest := rest[HMAC_LEN + REPLAY_LEN..];
        assert tag == b[9..29] && stamp == b[29..37] && rest == b[37..];
        if keys.recv.Some? && mac(keys.recv.value, stamp + b[..9] + rest) != tag {
          return Rejected(BadHmac);
        }
        p := Stamp(p, stamp);
      }
      r := Fields(p, rest);
    }

    method Fields(p: Packet, rest: seq<byte>) returns (r: Parsed)
      requires |rest| >= 1
      ensures r == ParseTail(p, rest)
    {
      var n := rest[0] as nat;
      var body := rest[1..];
      var need := 4 * n + if n > 0 then 8 else 0;
      if |body| < need {
        return Rejected(Short);
      }
      var acks: seq<u32> := [];
      var i := 0;
      while i < n
        invariant 0 <= i <= n && acks == ReadAcks(body, i)
      {
        BigEndianOfNumber(body[4 * i..4 * i + 4]);
        Widths();
        acks := acks + [Number(body[4 * i..4 * i + 4])];
        i := i + 1;
      }
      r := ParseMessage(p.(acks := acks, remoteSid := if n > 0 then body[4 * n..need] else NO_SESSION), body[need..]);
    }
  }

  // ---- reading undoes writing ----

  /** The packets the layout can carry: what a field cannot say is zero. */
  predicate WellFormed(tlsAuth: bool, p: Packet) {
    && IsControlOp(p.op) && p.keyId < 8 && |p.acks| < 256
    && (p.acks == [] ==> p.remoteSid == NO_SESSION)
    && (p.op == ACK_V1 ==> p.pid == 0 && p.payload == [])
    && (!tlsAuth ==> p.replayId == 0 && p.netTime == 0)
  }

  predicate Matching(k: Keys) { k.recv.Some? ==> k.recv.value == k.send }

  lemma Three<T>(a: seq<T>, b: seq<T>, c: seq<T>)
    ensures var s := a + b + c;
            s == a + (b + c) && s[|a|..|a| + |b|] == b && s[|a| + |b|..] == c && s[|a|..] == b + c
  {
  }

  lemma AckRoundTrip(a: u32)
    ensures Number(BigEndian(a, 4)) == a
  {
    Widths();
    NumberOfBigEndian(a, 4);
  }

  lemma {:induction false} AcksRoundTrip(acks: seq<u32>, tail: seq<byte>)
    ensures ReadAcks(AckBytes(acks) + tail, |acks|) == acks
  {
    hide BigEndian, Number;
    if acks != [] {
      var init, last := acks[..|acks| - 1], acks[|acks| - 1];
      AcksRoundTrip(init, BigEndian(last, 4) + tail);
      Three(AckBytes(init), BigEndian(last, 4), tail);
      AckRoundTrip(last);
      assert acks == init + [last];
    }
  }

  lemma {:induction false} AcksBack(b: seq<byte>, n: nat)
    requires 4 * n <= |b|
    ensures AckBytes(ReadAcks(b, n)) == b[..4 * n]
  {
    hide BigEndian, Number;
    if n > 0 {
      AcksBack(b, n - 1);
      var init, last := ReadAcks(b, n - 1), b[4 * n - 4..4 * n];
      BigEndianOfNumber(last);
      Extend(b, 4 * n - 4, 4 * n);
      assert ReadAcks(b, n)[..n - 1] == init;
    }
  }

  lemma Extend<T>(s: seq<T>, i: nat, j: nat)
    requires i <= j <= |s|
    ensures s[..j] == s[..i] + s[i..j] && s[i..] == s[i..j] + s[j..]
  {
  }

  /** p as it stands before its tail is read. */
  function Bare(p: Packet): Packet { p.(acks := [], remoteSid := NO_SESSION, pid := 0, payload := []) }

  lemma MessageRoundTrip(p: Packet)
    requires p.op == ACK_V1 ==> p.pid == 0 && p.payload == []
    ensures ParseMessage(p.(pid := 0, payload := []), Message(p)) == Accepted(p)
  {
    Widths();
    NumberOfBigEndian(p.pid, 4);
    if p.op != ACK_V1 {
      assert Message(p)[..4] == BigEndian(p.pid, 4) && Message(p)[4..] == p.payload;
    }
  }

  /** Reading a tail given in its pieces: count, acks, session, message. */
  lemma ParsePieces(p: Packet, n: byte, a: seq<byte>, r: seq<byte>, m: seq<byte>)
    requires |a| == 4 * n as nat && |r| == if n > 0 then 8 else 0
    ensures ParseTail(p, [n] + a + r + m)
         == ParseMessage(p.(acks := ReadAcks(a + (r + m), n as nat), remoteSid := if n > 0 then r else NO_SESSION), m)
  {
    hide ParseMessage, ReadAcks;
    var rest := [n] + a + r + m;
    assert rest == [n] + (a + r + m);
    assert rest[1..] == a + r + m;
    Three(a, r, m);
  }

  lemma TailRoundTrip(tlsAuth: bool, p: Packet)
    requires WellFormed(tlsAuth, p)
    ensures ParseTail(Bare(p), Tail(p)) == Accepted(p)
  {
    hide Message, AckBytes, ReadAcks, ParseMessage, ParseTail;
    ParsePieces(Bare(p), |p.acks| as byte, AckBytes(p.acks), Remote(p), Message(p));
    AcksRoundTrip(p.acks, Remote(p) + Message(p));
    MessageRoundTrip(p);
  }

  lemma HeadRoundTrip(p: Packet, tail: seq<byte>)
    requires IsControlOp(p.op) && p.keyId < 8
    ensures Head(p) == (Head(p) + tail)[..9] && Start(Head(p) + tail) == Bare(p).(replayId := 0, netTime := 0)
  {
    var b := Head(p) + tail;
    assert b[1..9] == p.sid;
    assert b[0] as nat == 8 * p.op + p.keyId;
  }

  lemma StampRoundTrip(p: Packet)
    ensures Stamp(Bare(p).(replayId := 0, netTime := 0), Replay(p)) == Bare(p)
  {
    Widths();
    NumberOfBigEndian(p.replayId, 4);
    NumberOfBigEndian(p.netTime, 4);
    assert Replay(p)[..4] == BigEndian(p.replayId, 4) && Replay(p)[4..] == BigEndian(p.netTime, 4);
  }

  lemma Four<T>(a: seq<T>, b: seq<T>, c: seq<T>, d: seq<T>)
    ensures var s := a + b + c + d;
            && s == a + (b + c + d) && s[|a|..|a| + |b|] == b
            && s[|a| + |b|..|a| + |b| + |c|] == c && s[|a| + |b| + |c|..] == d
  {
  }

  /** Parse undoes Build: every well-formed packet is read back as it was. */
  lemma ParseUndoesBuild(k: Keys, mac: Hmac, p: Packet)
    requires WellFormed(k.tlsAuth, p) && Matching(k)
    ensures Read(k, mac, Wire(k, mac, p)) == Accepted(p)
  {
    hide Head, Tail, Replay, ParseTail, Stamp, Start;
    Sizes(p);
    TailRoundTrip(k.tlsAuth, p);
    if k.tlsAuth {
      var tag := mac(k.send, Replay(p) + Head(p) + Tail(p));
      Four(Head(p), tag, Replay(p), Tail(p));
      HeadRoundTrip(p, tag + Replay(p) + Tail(p));
      StampRoundTrip(p);
      FirstByte(p, tag + Replay(p) + Tail(p));
    } else {
      Extend(Head(p) + Tail(p), 9, 9);
      HeadRoundTrip(p, Tail(p));
      assert (Head(p) + Tail(p))[9..] == Tail(p);
      FirstByte(p, Tail(p));
    }
  }

  lemma Sizes(p: Packet)
    ensures |Tail(p)| >= 1 && |Head(p)| == 9
  {
  }

  lemma FirstByte(p: Packet, tail: seq<byte>)
    requires IsControlOp(p.op) && p.keyId < 8
    ensures IsControlOp((Head(p) + tail)[0] as nat / 8)
  {
  }

  // ---- writing undoes reading ----

  lemma MessageBack(p: Packet, rest: seq<byte>)
    requires ParseMessage(p, rest).Accepted? && p.pid == 0 && p.payload == []
    ensures var q := ParseMessage(p, rest).p;
            && q.(pid := 0, payload := []) == p && Message(q) == rest
            && (q.op == ACK_V1 ==> q.pid == 0 && q.payload == [])
  {
    if p.op != ACK_V1 {
      BigEndianOfNumber(rest[..4]);
      assert rest == rest[..4] + rest[4..];
    }
  }

  /** What a tail that is read consists of. */
  lemma TailBack(p: Packet, rest: seq<byte>)
    requires |rest| >= 1 && p == Bare(p) && ParseTail(p, rest).Accepted?
    ensures var q := ParseTail(p, rest).p;
            && Bare(q) == p && Tail(q) == rest && |q.acks| < 256
            && (q.acks == [] ==> q.remoteSid == NO_SESSION)
            && (q.op == ACK_V1 ==> q.pid == 0 && q.payload == [])
  {
    hide Message, AckBytes, ReadAcks, ParseMessage;
    var n := rest[0] as nat;
    var body := rest[1..];
    var need := 4 * n + if n > 0 then 8 else 0;
    var half := p.(acks := ReadAcks(body, n), remoteSid := if n > 0 then body[4 * n..need] else NO_SESSION);
    var q := ParseMessage(half, body[need..]).p;
    assert ParseTail(p, rest).p == q;
    MessageBack(half, body[need..]);
    AcksBack(body, n);
    assert Remote(q) == body[4 * n..need];
    Pieces(rest, 4 * n, need);
  }

  lemma Pieces(rest: seq<byte>, i: nat, j: nat)
    requires i <= j < |rest|
    ensures rest == [rest[0]] + rest[1..][..i] + rest[1..][i..j] + rest[1..][j..]
  {
  }

  lemma StampBack(p: Packet, replay: seq<byte>)
    requires |replay| == REPLAY_LEN
    ensures Replay(Stamp(p, replay)) == replay && Head(Stamp(p, replay)) == Head(p)
    ensures Bare(p) == p ==> Bare(Stamp(p, replay)) == Stamp(p, replay)
    ensures Stamp(p, replay).op == p.op && Stamp(p, replay).keyId == p.keyId
  {
    BigEndianOfNumber(replay[..4]);
    BigEndianOfNumber(replay[4..]);
    assert replay == replay[..4] + replay[4..];
  }

  lemma HeadBack(b: seq<byte>)
    requires |b| >= 9
    ensures Head(Start(b)) == b[..9] && Bare(Start(b)) == Start(b)
  {
  }

  /** And Build undoes Parse: what is accepted is a well-formed packet, and
      (tls-auth: when the tag was checked) it is written back to the same bytes. */
  lemma BuildUndoesParse(k: Keys, mac: Hmac, b: seq<byte>)
    requires Read(k, mac, b).Accepted?
    ensures var p := Read(k, mac, b).p;
            && WellFormed(k.tlsAuth, p)
            && (Matching(k) && (k.tlsAuth ==> k.recv.Some?) ==> Wire(k, mac, p) == b)
  {
    hide ParseTail, Tail, Replay, Stamp;
    HeadBack(b);
    if k.tlsAuth {
      StampBack(Start(b), b[29..37]);
      TailBack(Stamp(Start(b), b[29..37]), b[37..]);
      Blocks(b);
      SameStamp(Read(k, mac, b).p, Stamp(Start(b), b[29..37]));
    } else {
      TailBack(Start(b), b[9..]);
      Extend(b, 9, |b|);
      assert b[9..|b|] == b[9..];
    }
  }

  lemma SameStamp(p: Packet, q: Packet)
    requires Bare(p) == q
    ensures Head(p) == Head(q) && Replay(p) == Replay(q) && IsControlOp(p.op) == IsControlOp(q.op)
  {
  }

  lemma Blocks(b: seq<byte>)
    requires |b| >= 37
    ensures b == b[..9] + b[9..29] + b[29..37] + b[37..]
  {
  }

  // ---- lengths ----

  lemma WireLen(k: Keys, mac: Hmac, p: Packet)
    ensures |Wire(k, mac, p)| == HdrLen(k.tlsAuth, |p.acks|) + if p.op == ACK_V1 then -4 else |p.payload|
  {
  }

  // ---- replay ids over a whole flow ----

  /** The counter after k packets, from a fresh layout. */
  function Counter(k: nat): u32 { if k == 0 then 1 else Advance(Counter(k - 1)) }

  lemma IdStep(replay: u32)
    ensures NextId(Advance(replay)) == if NextId(replay) == 0xFFFF_FFFF then 1 else NextId(replay) + 1
  {
  }

  lemma ModStep(k: nat)
    requires k > 0
    ensures k % 0xFFFF_FFFF == if (k - 1) % 0xFFFF_FFFF == 0xFFFF_FFFE then 0 else (k - 1) % 0xFFFF_FFFF + 1
  {
  }

  /** Packet number k (from 0) carries id k + 1; after 2^32 - 1 packets the ids
      start over at 1. No packet carries id 0. */
  lemma {:induction false} KthId(k: nat)
    ensures NextId(Counter(k)) == k % 0xFFFF_FFFF + 1
    ensures k < 0xFFFF_FFFF ==> NextId(Counter(k)) == k + 1
  {
    hide Advance;
    if k > 0 {
      KthId(k - 1);
      IdStep(Counter(k - 1));
      ModStep(k);
    }
  }

  // ---- the server's control answer ----

  function Record(body: seq<byte>): seq<byte> { [0x16, 0x03, 0x03] + BigEndian(|body|, 2) + body }

  function Filler(n: nat): seq<byte> { seq<byte>(n, i => (i * 7) % 256) }

  /** The packet the server answers a control packet of `asked` bytes with. */
  function Answer(tlsAuth: bool, asked: nat, server: Session, pid: u32, ack: u32, client: Session): Packet {
    Packet(CONTROL_V1, 0, server, [ack], client, pid,
           Record(Filler(Max(0, asked - HdrLen(tlsAuth, 1) - 5))), 0, 0)
  }

  /** The answer is as long as the request, or as the shortest possible answer;
      so it outgrows the request exactly when the request is shorter than that. */
  lemma AnswerLen(k: Keys, mac: Hmac, asked: nat, server: Session, pid: u32, ack: u32, client: Session, id: u32,
      clock: u32)
    ensures var n := |Wire(k, mac, Answer(k.tlsAuth, asked, server, pid, ack, client).(replayId := id,
            netTime := clock))|;
            && n == Max(asked, HdrLen(k.tlsAuth, 1) + 5)
            && (n <= asked <==> HdrLen(k.tlsAuth, 1) + 5 <= asked)
  {
    WireLen(k, mac, Answer(k.tlsAuth, asked, server, pid, ack, client).(replayId := id, netTime := clock));
  }

  /** There are such requests: the bare control packet of either layout. */
  lemma ShortControlIsOutgrown(k: Keys, mac: Hmac, server: Session, id: u32, clock: u32, client: Session)
    requires Matching(k)
    ensures var p := Packet(CONTROL_V1, 0, client, [], NO_SESSION, 1, [], if k.tlsAuth then id
            else 0, if k.tlsAuth then clock else 0);
            var b := Wire(k, mac, p);
            && Read(k, mac, b) == Accepted(p)
            && |Wire(k, mac, Answer(k.tlsAuth, |b|, server, 1, p.pid, client).(replayId := id, netTime := clock))|
                == |b| + 17
  {
    var p := Packet(CONTROL_V1, 0, client, [], NO_SESSION, 1, [], if k.tlsAuth then id else 0, if k.tlsAuth then clock
        else 0);
    ParseUndoesBuild(k, mac, p);
    WireLen(k, mac, p);
    AnswerLen(k, mac, |Wire(k, mac, p)|, server, 1, p.pid, client, id, clock);
  }
}
