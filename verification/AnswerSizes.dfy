/** The size of every answer to a VPN follow-up (internal/server/udp_vpn.go, with the
    builders of internal/wg, internal/ike, internal/l2tp and internal/ovpn), against
    the promise never to answer with more bytes than a packet brought. */
module AnswerSizes {
  import opened Base
  import opened Bytes
  import opened Envelope
  import Ovpn

  /** An AEAD: a mask over the plaintext and a tag; only their lengths are used. */
  datatype Aead = Aead(mask: nat -> byte, tag: seq<byte> -> Tag)

  function Sealed(a: Aead, plain: seq<byte>): (c: seq<byte>)
    ensures |c| == |plain| + 16
  {
    seq<byte>(|plain|, i requires 0 <= i < |plain| => (plain[i] + a.mask(i)) % 256) + a.tag(plain)
  }

  // ---- the builders ----

  /** WireGuard transport data: the plaintext is padded to blocks of 16. */
  function Padded(plain: seq<byte>): (p: seq<byte>)
    ensures |p| % 16 == 0 && |plain| <= |p| < |plain| + 16
  {
    if |plain| % 16 == 0 then plain else plain + seq<byte>(16 - |plain| % 16, _ => 0)
  }

  function SealTransport(a: Aead, receiver: u32, counter: nat, plain: seq<byte>): seq<byte> {
    [4, 0, 0, 0] + BigEndian(receiver, 4) + BigEndian(counter, 8) + Sealed(a, Padded(plain))
  }

  const IKE_HEADER: nat := 28

  /** An IKE_AUTH with one encrypted payload of at least 32 bytes. */
  function IkeAuth(header: seq<byte>, noise: nat -> byte, inner: int): (m: seq<byte>)
    requires |header| == IKE_HEADER
    ensures |m| == IKE_HEADER + 4 + Max(inner, 32)
  {
    var n := Max(inner, 32);
    header + [0, 0] + BigEndian(4 + n, 2) + seq<byte>(n, i requires 0 <= i => noise(i))
  }

  function Marked(natt: bool, m: seq<byte>): seq<byte> { if natt then [0, 0, 0, 0] + m else m }

  function Esp(spi: u32, seqNo: u32, payload: seq<byte>): seq<byte> {
    BigEndian(spi, 4) + BigEndian(seqNo, 4) + payload
  }

  /** L2TP control messages: a header and attribute-value pairs. */
  function Avp(typ: nat, value: seq<byte>): seq<byte> {
    BigEndian(0x8000 + 6 + |value|, 2) + [0, 0] + BigEndian(typ, 2) + value
  }

  function L2tpControl(tunnel: nat, session: nat, ns: nat, nr: nat, avps: seq<byte>): seq<byte> {
    BigEndian(0xC802, 2) + BigEndian(12 + |avps|, 2) + BigEndian(tunnel, 2) + BigEndian(session, 2) + BigEndian(ns, 2)
        + BigEndian(nr, 2)
    + avps
  }

  function Icrp(tunnel: nat, session: nat, ours: nat, ns: nat, nr: nat): seq<byte> {
    L2tpControl(tunnel, session, ns, nr, Avp(0, BigEndian(11, 2)) + Avp(14, BigEndian(ours, 2)))
  }

  function L2tpData(tunnel: nat, session: nat, ppp: seq<byte>): seq<byte> {
    BigEndian(2, 2) + BigEndian(tunnel, 2) + BigEndian(session, 2) + ppp
  }

  function OvpnData(a: Aead, head: seq<byte>, plain: seq<byte>): seq<byte>
    requires |head| == 8
  {
    head + Sealed(a, plain)
  }

  // ---- requests and answers ----

  /** A follow-up the server answers. What is not sealed is given by its bytes; a
      sealed packet by the plaintext it opens to. */
  datatype Asked =
    | WgPacket(plain: seq<byte>)
    | IkeMessage(natt: bool, msg: seq<byte>)
    | EspPacket(payload: seq<byte>)
    | L2tpProgress(avps: seq<byte>)
    | L2tpCall(avps: seq<byte>)
    | L2tpFrame(ppp: seq<byte>)
    | OvpnControl(keys: Ovpn.Keys, len: nat)
    | OvpnFrame(plain: seq<byte>)

  /** What the readers of such packets have checked of their sizes. */
  predicate Readable(q: Asked) {
    match q
    case IkeMessage(_, msg) => |msg| >= IKE_HEADER
    case EspPacket(payload) => |payload| >= 16
    case L2tpProgress(avps) => |avps| >= 8
    case L2tpCall(avps) => |avps| >= 8
    case OvpnControl(keys, len) => len >= Ovpn.HdrLen(keys.tlsAuth, 0)
    case _ => true
  }

  function Brought(q: Asked): nat {
    match q
    case WgPacket(plain) => 16 + |plain| + 16
    case IkeMessage(natt, msg) => |Marked(natt, msg)|
    case EspPacket(payload) => 8 + |payload|
    case L2tpProgress(avps) => 12 + |avps|
    case L2tpCall(avps) => 12 + |avps|
    case L2tpFrame(ppp) => 6 + |ppp|
    case OvpnControl(_, len) => len
    case OvpnFrame(plain) => 8 + |plain| + 16
  }

  /** The keys, identifiers and counters an answer is made with. */
  datatype Made = Made(
    a: Aead, mac: Ovpn.Hmac, noise: nat -> byte, header: seq<byte>, head: seq<byte>, spi: u32, counter: nat,
    tunnel: nat, session: nat, ns: nat, nr: nat, server: Ovpn.Session, client: Ovpn.Session, pid: u32, ack: u32,
        id: u32, clock: u32)

  predicate Proper(m: Made) { |m.header| == IKE_HEADER && |m.head| == 8 }

  function Answer(q: Asked, m: Made): seq<byte>
    requires Proper(m)
  {
    match q
    case WgPacket(plain) => SealTransport(m.a, m.spi, m.counter, plain)
    case IkeMessage(natt, msg) => Marked(natt, IkeAuth(m.header, m.noise, |msg| - IKE_HEADER - 4 - 32))
    case EspPacket(payload) => Esp(m.spi, m.ack, payload)
    case L2tpProgress(_) => L2tpControl(m.tunnel, m.session, m.ns, m.nr, [])
    case L2tpCall(_) => Icrp(m.tunnel, m.session, m.id, m.ns, m.nr)
    case L2tpFrame(ppp) => L2tpData(m.tunnel, m.session, ppp)
    case OvpnControl(keys, len) =>
      var p := Ovpn.Answer(keys.tlsAuth, len, m.server, m.pid, m.ack, m.client);
      Ovpn.Wire(keys, m.mac, p.(replayId := m.id, netTime := m.clock))
    case OvpnFrame(plain) => OvpnData(m.a, m.head, plain)
  }

  /** What a caller can tell of a request beforehand: it is whole blocks, or long enough. */
  predicate Roomy(q: Asked) {
    match q
    case WgPacket(plain) => |plain| % 16 == 0
    case IkeMessage(_, msg) => |msg| >= 64
    case L2tpCall(avps) => |avps| >= 16
    case OvpnControl(keys, len) => len >= Ovpn.HdrLen(keys.tlsAuth, 1) + 5
    case _ => true
  }

  /** No answer has more bytes than its request, exactly when the request is roomy;
      and none has more than 36 bytes more. */
  lemma AnswersFitIff(q: Asked, m: Made)
    requires Proper(m) && Readable(q)
    ensures |Answer(q, m)| <= Brought(q) <==> Roomy(q)
    ensures |Answer(q, m)| <= Brought(q) + 36
  {
    hide Ovpn.Wire, Ovpn.Answer;
    match q
    case OvpnControl(keys, len) => Ovpn.AnswerLen(keys, m.mac, len, m.server, m.pid, m.ack, m.client, m.id, m.clock);
    case _ =>
  }

  /** Echoed data keeps its size, but for the padding of WireGuard. */
  lemma EchoKeepsItsSize(q: Asked, m: Made)
    requires Proper(m) && (q.EspPacket? || q.L2tpFrame? || q.OvpnFrame? || (q.WgPacket? && |q.plain| % 16 == 0))
    ensures |Answer(q, m)| == Brought(q)
  {
  }

  /** Of each kind that can be outgrown, the smallest request and by how much. */
  lemma SomeAreOutgrown(m: Made, msg: seq<byte>, avps: seq<byte>)
    requires Proper(m) && |msg| == IKE_HEADER && |avps| == 8
    ensures |Answer(WgPacket([0]), m)| == Brought(WgPacket([0])) + 15
    ensures |Answer(IkeMessage(false, msg), m)| == Brought(IkeMessage(false, msg)) + 36
    ensures |Answer(L2tpCall(avps), m)| == Brought(L2tpCall(avps)) + 8
  {
  }
}
