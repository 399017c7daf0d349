/** The CP1 test envelope (internal/proto/envelope.go): requests, replies, and
    what a cut request already tells. HMAC and SHA-256 are parameters; all that
    is used of them is the length of what they return. */
module Envelope {
  import opened Base
  import opened Bytes

  type Sid = s: seq<byte> | |s| == 16 witness seq(16, _ => 0)
  type Nonce = s: seq<byte> | |s| == 12 witness seq(12, _ => 0)
  type Tag = s: seq<byte> | |s| == 16 witness seq(16, _ => 0)
  type Digest = s: seq<byte> | |s| == 32 witness seq(32, _ => 0)
  type Cookie = s: seq<byte> | |s| == 16 witness seq(16, _ => 0)
  type u32 = n: nat | n < 0x1_0000_0000
  type i64 = n: int | -0x8000_0000_0000_0000 <= n < 0x8000_0000_0000_0000

  type Mac = (seq<byte>, seq<byte>) -> Tag
  type Sha = seq<byte> -> Digest

  const MAX_PAYLOAD: nat := 8192
  const MAC_LEN: nat := 16
  const PREFIX: seq<byte> := [67, 80, 49, 1]  // "CP1", version 1
  const REQUEST: byte := 1
  const REPLY: byte := 2

  datatype Request = Request(sid: Sid, test: seq<byte>, nonce: Nonce, seqNo: u32, cookie: Option<Cookie>,
      payload: seq<byte>)

  /** What EncodeRequest accepts. */
  predicate Legal(r: Request) { 1 <= |r.test| <= 255 && |r.payload| <= MAX_PAYLOAD }

  function CookieBytes(c: Option<Cookie>): seq<byte> { if c.Some? then c.value else [] }

  /** The fields of a request under a flags byte; lengths are written the way Go cuts them to size. */
  function Framed(r: Request, flags: byte): seq<byte> {
    PREFIX + [REQUEST, flags] + r.sid + [(|r.test| % 256) as byte] + r.test + r.nonce
    + BigEndian(r.seqNo, 4) + CookieBytes(r.cookie) + BigEndian(|r.payload|, 2) + r.payload
  }

  /** Everything the MAC covers. */
  function Body(r: Request): seq<byte> { Framed(r, if r.cookie.Some? then 1 else 0) }

  /** What a frame can say: lengths that fit their fields, and a flag for the cookie. */
  predicate Frameable(r: Request, flags: byte) {
    |r.test| <= 255 && |r.payload| < 0x1_0000 && (flags % 2 == 1 <==> r.cookie.Some?)
  }

  function EncodeRequest(r: Request, key: seq<byte>, mac: Mac): Option<seq<byte>> {
    if Legal(r) then Some(Body(r) + mac(key, Body(r))) else None
  }

  predicate IsEnvelope(b: seq<byte>) { |b| >= 6 && b[..4] == PREFIX }

  /** Where the payload length field of a request starts. */
  function LengthField(b: seq<byte>): nat
    requires |b| >= 23
  {
    23 + b[22] as nat + 12 + 4 + if b[5] % 2 == 1 then 16 else 0
  }

  /** The length of the request b starts with (0 while it is unknown or not all
      there), and how many bytes are needed to know more. */
  function RequestLen(b: seq<byte>): (r: (nat, nat))
    ensures (r.0 == 0 && |b| < r.1) || (55 <= r.0 == r.1 <= |b|)
  {
    if |b| < 23 then (0, 23)
    else
      var off := LengthField(b);
      if |b| < off + 2 then (0, off + 2)
      else
        var total := off + 2 + Number(b[off..off + 2]) + MAC_LEN;
        if |b| < total then (0, total) else (total, total)
  }

  datatype Decoded = Genuine(r: Request) | Unproven(r: Request) | NotEnvelope | Truncated

  function DecodeRequest(b: seq<byte>, keyFor: Sid -> Option<seq<byte>>, mac: Mac): Decoded {
    if !IsEnvelope(b) || b[4] != REQUEST then NotEnvelope
    else
      var (total, _) := RequestLen(b);
      if total == 0 then Truncated
      else
        var tl, off := b[22] as nat, LengthField(b);
        var r := ReadRequest(b, tl, off, total);
        match keyFor(r.sid)
        case None => Unproven(r)
        case Some(key) => if b[total - MAC_LEN..total] == mac(key, b[..total - MAC_LEN]) then Genuine(r)
            else Unproven(r)
  }

  function ReadRequest(b: seq<byte>, tl: nat, off: nat, total: nat): Request
    requires 39 + tl <= off && off + 2 + MAC_LEN <= total <= |b|
    requires off == 39 + tl + if b[5] % 2 == 1 then 16 else 0
  {
    var num := b[35 + tl..39 + tl];
    BigEndianOfNumber(num);
    Widths();
    Request(b[6..22], b[23..23 + tl], b[23 + tl..35 + tl], Number(num),
            if b[5] % 2 == 1 then Some(b[39 + tl..55 + tl]) else None, b[off + 2..total - MAC_LEN])
  }

  datatype Peek = Peek(have: nat, sid: Sid, test: seq<byte>, nonce: Nonce)

  const NO_SID: Sid := [0, 0, 0, 0, 0, 0, 0, 0, 0, 0, 0, 0, 0, 0, 0, 0]
  const NO_NONCE: Nonce := [0, 0, 0, 0, 0, 0, 0, 0, 0, 0, 0, 0]

  function PeekRequest(b: seq<byte>): Peek {
    if !IsEnvelope(b) || b[4] != REQUEST || |b| < 22 then Peek(0, NO_SID, [], NO_NONCE)
    else if |b| < 23 then Peek(1, b[6..22], [], NO_NONCE)
    else
      var tl := b[22] as nat;
      if |b| < 23 + tl then Peek(1, b[6..22], [], NO_NONCE)
      else if |b| < 35 + tl then Peek(2, b[6..22], b[23..23 + tl], NO_NONCE)
      else Peek(3, b[6..22], b[23..23 + tl], b[23 + tl..35 + tl])
  }

  // ---- requests ----

  lemma Piece<T>(before: seq<T>, piece: seq<T>, whole: seq<T>)
    requires before + piece <= whole
    ensures whole[|before|..|before| + |piece|] == piece
  {
    assert piece == (before + piece)[|before|..];
  }

  /** Where each field of a framed request lies. */
  lemma FrameFields(r: Request, flags: byte, tail: seq<byte>)
    requires Frameable(r, flags)
    ensures |Framed(r, flags)| == 41 + |r.test| + |CookieBytes(r.cookie)| + |r.payload|
    ensures (Framed(r, flags) + tail)[..4] == PREFIX && (Framed(r, flags) + tail)[4] == REQUEST
    ensures (Framed(r, flags) + tail)[5] == flags
    ensures (Framed(r, flags) + tail)[6..22] == r.sid && (Framed(r, flags) + tail)[22] == |r.test|
    ensures (Framed(r, flags) + tail)[23..23 + |r.test|] == r.test
    ensures (Framed(r, flags) + tail)[23 + |r.test|..35 + |r.test|] == r.nonce
    ensures (Framed(r, flags) + tail)[35 + |r.test|..39 + |r.test|] == BigEndian(r.seqNo, 4)
    ensures (Framed(r, flags) + tail)[39 + |r.test|..39 + |r.test| + |CookieBytes(r.cookie)|] == CookieBytes(r.cookie)
    ensures var off := 39 + |r.test| + |CookieBytes(r.cookie)|;
            && (Framed(r, flags) + tail)[off..off + 2] == BigEndian(|r.payload|, 2)
            && (Framed(r, flags) + tail)[off + 2..|Framed(r, flags)|] == r.payload
    ensures (Framed(r, flags) + tail)[..|Framed(r, flags)|] == Framed(r, flags)
  {
    var b := Framed(r, flags) + tail;
    var a0 := PREFIX + [REQUEST, flags];
    var a1 := a0 + r.sid;
    var a2 := a1 + [(|r.test| % 256) as byte];
    var a3 := a2 + r.test;
    var a4 := a3 + r.nonce;
    var a5 := a4 + BigEndian(r.seqNo, 4);
    var a6 := a5 + CookieBytes(r.cookie);
    var a7 := a6 + BigEndian(|r.payload|, 2);
    assert Framed(r, flags) == a7 + r.payload;
    assert a7 <= b && a6 <= a7 && a5 <= a6 && a4 <= a5 && a3 <= a4 && a2 <= a3 && a1 <= a2 && a0 <= a1;
    assert a6 <= b && a5 <= b && a4 <= b;
    assert a3 <= b && a2 <= b && a1 <= b && a0 <= b;
    Piece(a0, r.sid, b);
    Piece(a2, r.test, b);
    Piece(a3, r.nonce, b);
    Piece(a4, BigEndian(r.seqNo, 4), b);
    Piece(a5, CookieBytes(r.cookie), b);
    Piece(a6, BigEndian(|r.payload|, 2), b);
    Piece(a7, r.payload, b);
  }

  lemma FrameLen(r: Request, flags: byte, rest: seq<byte>)
    requires Frameable(r, flags) && |rest| >= MAC_LEN
    ensures RequestLen(Framed(r, flags) + rest) == (|Framed(r, flags)| + MAC_LEN, |Framed(r, flags)| + MAC_LEN)
  {
    FrameFields(r, flags, rest);
    Widths();
    NumberOfBigEndian(|r.payload|, 2);
  }

  lemma EncodedLen(r: Request, rest: seq<byte>)
    requires Legal(r) && |rest| >= MAC_LEN
    ensures RequestLen(Body(r) + rest) == (|Body(r)| + MAC_LEN, |Body(r)| + MAC_LEN)
    ensures |Body(r)| + MAC_LEN <= 8520
  {
    hide Framed, RequestLen;
    var flags: byte := if r.cookie.Some? then 1 else 0;
    FrameFields(r, flags, rest);
    FrameLen(r, flags, rest);
  }

  /** Reading a frame gives the request it was made of, and its tag decides. */
  lemma FrameDecodes(r: Request, flags: byte, tag: Tag, keyFor: Sid -> Option<seq<byte>>, mac: Mac, tail: seq<byte>)
    requires Frameable(r, flags)
    ensures DecodeRequest(Framed(r, flags) + tag + tail, keyFor, mac) ==
            if keyFor(r.sid).Some? && tag == mac(keyFor(r.sid).value, Framed(r, flags)) then Genuine(r) else Unproven(r)
  {
    hide Framed, RequestLen;
    var b := Framed(r, flags) + tag + tail;
    assert b == Framed(r, flags) + (tag + tail);
    FrameLen(r, flags, tag + tail);
    FrameFields(r, flags, tag + tail);
    Widths();
    NumberOfBigEndian(r.seqNo, 4);
    var total := |Framed(r, flags)| + MAC_LEN;
    assert b[total - MAC_LEN..total] == tag;
    assert ReadRequest(b, |r.test|, LengthField(b), total) == r;
  }

  /** Decoding undoes encoding, whatever follows the envelope on the wire. */
  lemma RequestRoundTrip(r: Request, key: seq<byte>, mac: Mac, keyFor: Sid -> Option<seq<byte>>, tail: seq<byte>)
    requires Legal(r)
    ensures var b := EncodeRequest(r, key, mac).value;
            && RequestLen(b + tail) == (|b|, |b|)
            && (keyFor(r.sid) == Some(key) ==> DecodeRequest(b + tail, keyFor, mac) == Genuine(r))
            && (keyFor(r.sid).None? ==> DecodeRequest(b + tail, keyFor, mac) == Unproven(r))
  {
    hide Framed, RequestLen, DecodeRequest;
    var tag := mac(key, Body(r));
    assert Body(r) + tag + tail == Body(r) + (tag + tail);
    EncodedLen(r, tag + tail);
    FrameDecodes(r, if r.cookie.Some? then 1 else 0, tag, keyFor, mac, tail);
  }

  // ---- all bytes ----

  /** b starts with the frame of r under the flags, and a tag. */
  predicate Carries(b: seq<byte>, r: Request, flags: byte, tag: Tag) {
    Frameable(r, flags) && Framed(r, flags) + tag <= b
  }

  /** b starts with an envelope of r that the key of its session has signed. */
  ghost predicate Authentic(b: seq<byte>, r: Request, keyFor: Sid -> Option<seq<byte>>, mac: Mac) {
    exists flags: byte, key :: keyFor(r.sid) == Some(key) && Carries(b, r, flags, mac(key, Framed(r, flags)))
  }

  /** b starts with an envelope of r whose tag is not that. */
  ghost predicate Tampered(b: seq<byte>, r: Request, keyFor: Sid -> Option<seq<byte>>, mac: Mac) {
    exists flags: byte, tag: Tag ::
      && Carries(b, r, flags, tag)
      && (keyFor(r.sid).None? || tag != mac(keyFor(r.sid).value, Framed(r, flags)))
  }

  /** The bytes of a complete request are the frame of what is read from them. */
  lemma ReadsAsFrame(b: seq<byte>)
    requires IsEnvelope(b) && b[4] == REQUEST && RequestLen(b).0 > 0
    ensures var total := RequestLen(b).0; var r := ReadRequest(b, b[22] as nat, LengthField(b), total);
            Frameable(r, b[5]) && Framed(r, b[5]) == b[..total - MAC_LEN]
  {
    var total, tl, off := RequestLen(b).0, b[22] as nat, LengthField(b);
    var r := ReadRequest(b, tl, off, total);
    BigEndianOfNumber(b[35 + tl..39 + tl]);
    BigEndianOfNumber(b[off..off + 2]);
    Widths();
    assert b[..6] == PREFIX + [REQUEST, b[5]] by { assert b[..6] == b[..4] + [b[4], b[5]]; }
    assert b[22..23] == [(|r.test| % 256) as byte];
    GlueFour(b, 6, 22, 23, 23 + tl, 35 + tl);
    GlueFour(b, 35 + tl, 39 + tl, off, off + 2, total - MAC_LEN);
    assert b[39 + tl..off] == CookieBytes(r.cookie);
  }

  lemma Glue<T>(b: seq<T>, i: nat, j: nat)
    requires i <= j <= |b|
    ensures b[..j] == b[..i] + b[i..j]
  {
  }

  lemma GlueFour<T>(b: seq<T>, i: nat, j: nat, k: nat, l: nat, m: nat)
    requires i <= j <= k <= l <= m <= |b|
    ensures b[..m] == b[..i] + b[i..j] + b[j..k] + b[k..l] + b[l..m]
  {
    Glue(b, i, j);
    Glue(b, j, k);
    Glue(b, k, l);
    Glue(b, l, m);
  }

  lemma DecodedCarries(b: seq<byte>, keyFor: Sid -> Option<seq<byte>>, mac: Mac)
    requires DecodeRequest(b, keyFor, mac).Genuine? || DecodeRequest(b, keyFor, mac).Unproven?
    ensures var r := DecodeRequest(b, keyFor, mac).r; var total := RequestLen(b).0;
            && |b| >= total >= 55 && Carries(b, r, b[5], b[total - MAC_LEN..total])
            && (DecodeRequest(b, keyFor, mac).Genuine? <==>
                keyFor(r.sid).Some? && b[total - MAC_LEN..total] == mac(keyFor(r.sid).value, Framed(r, b[5])))
  {
    hide Framed;
    ReadsAsFrame(b);
    var total := RequestLen(b).0;
    Glue(b, total - MAC_LEN, total);
  }

  lemma CarriedDecodes(b: seq<byte>, r: Request, flags: byte, tag: Tag, keyFor: Sid -> Option<seq<byte>>, mac: Mac)
    requires Carries(b, r, flags, tag)
    ensures DecodeRequest(b, keyFor, mac) ==
            if keyFor(r.sid).Some? && tag == mac(keyFor(r.sid).value, Framed(r, flags)) then Genuine(r) else Unproven(r)
  {
    hide Framed, DecodeRequest;
    var n := |Framed(r, flags) + tag|;
    assert b == Framed(r, flags) + tag + b[n..];
    FrameDecodes(r, flags, tag, keyFor, mac, b[n..]);
  }

  /** For all bytes: they decode as genuine exactly when they start with an envelope
      that the key of its session has signed, as unproven exactly when they start
      with one it has not; and as nothing at all exactly when they start with none. */
  lemma DecodesIff(b: seq<byte>, keyFor: Sid -> Option<seq<byte>>, mac: Mac, r: Request)
    ensures DecodeRequest(b, keyFor, mac) == Genuine(r) <==> Authentic(b, r, keyFor, mac)
    ensures DecodeRequest(b, keyFor, mac) == Unproven(r) <==> Tampered(b, r, keyFor, mac)
  {
    hide Framed, DecodeRequest, Carries;
    var d := DecodeRequest(b, keyFor, mac);
    if (d.Genuine? || d.Unproven?) && d.r == r {
      DecodedCarries(b, keyFor, mac);
      var flags, tag: Tag := b[5], b[RequestLen(b).0 - MAC_LEN..RequestLen(b).0];
      assert Carries(b, r, flags, tag);
      assert d.Genuine? <==> keyFor(r.sid).Some? && tag == mac(keyFor(r.sid).value, Framed(r, flags));
    }
    if Authentic(b, r, keyFor, mac) {
      var flags: byte, key :| keyFor(r.sid) == Some(key) && Carries(b, r, flags, mac(key, Framed(r, flags)));
      CarriedDecodes(b, r, flags, mac(key, Framed(r, flags)), keyFor, mac);
    }
    if Tampered(b, r, keyFor, mac) {
      var flags: byte, tag: Tag :|
        Carries(b, r, flags, tag) && (keyFor(r.sid).None? || tag != mac(keyFor(r.sid).value, Framed(r, flags)));
      CarriedDecodes(b, r, flags, tag, keyFor, mac);
    }
  }

  /** What is neither is no envelope, or not all of one. */
  lemma DecodesToNothingIff(b: seq<byte>, keyFor: Sid -> Option<seq<byte>>, mac: Mac)
    ensures DecodeRequest(b, keyFor, mac) == NotEnvelope <==> |b| < 6 || b[..5] != PREFIX + [REQUEST]
    ensures DecodeRequest(b, keyFor, mac) == Truncated <==>
            |b| >= 6 && b[..5] == PREFIX + [REQUEST] && RequestLen(b).0 == 0
  {
    hide RequestLen;
    if |b| >= 6 { assert b[..5] == b[..4] + [b[4]]; }
  }

  /** One bit flipped on the way is one such: under a tag that tells the two apart,
      the request is read and not believed. */
  lemma FlippedIsUnproven(r: Request, sent: Request, key: seq<byte>, keyFor: Sid -> Option<seq<byte>>, mac: Mac,
      tail: seq<byte>)
    requires Legal(r) && Legal(sent) && keyFor(r.sid) == Some(key) && mac(key, Body(r)) != mac(key, Body(sent))
    ensures DecodeRequest(Body(r) + mac(key, Body(sent)) + tail, keyFor, mac) == Unproven(r)
  {
    hide Framed, DecodeRequest;
    FrameDecodes(r, if r.cookie.Some? then 1 else 0, mac(key, Body(sent)), keyFor, mac, tail);
  }

  lemma SliceOfPrefix<T>(s: seq<T>, k: nat, i: nat, j: nat)
    requires i <= j <= k <= |s|
    ensures s[..k][i..j] == s[i..j]
  {
  }

  /** A cut request tells what it has in full, exactly: the session from 22 bytes
      on, the test id and the nonce once they are complete. */
  lemma PeekAgrees(r: Request, key: seq<byte>, mac: Mac, k: nat)
    requires Legal(r) && k <= |EncodeRequest(r, key, mac).value|
    ensures var p := PeekRequest(EncodeRequest(r, key, mac).value[..k]); var tl := |r.test|;
            && p.have == (if k < 22 then 0 else if k < 23 + tl then 1 else if k < 35 + tl then 2 else 3)
            && (p.have >= 1 ==> p.sid == r.sid) && (p.have >= 2 ==> p.test == r.test)
                && (p.have >= 3 ==> p.nonce == r.nonce)
  {
    var b := Body(r) + mac(key, Body(r));
    FrameFields(r, if r.cookie.Some? then 1 else 0, mac(key, Body(r)));
    var cut := b[..k];
    var tl := |r.test|;
    if k >= 6 { SliceOfPrefix(b, k, 0, 4); }
    if k >= 22 { SliceOfPrefix(b, k, 6, 22); }
    if k >= 23 + tl { SliceOfPrefix(b, k, 23, 23 + tl); }
    if k >= 35 + tl { SliceOfPrefix(b, k, 23 + tl, 35 + tl); }
    assert k >= 4 ==> cut[..4] == cut[0..4] && b[..4] == b[0..4];
  }

  // ---- replies ----

  datatype Reply = Reply(sid: Sid, test: seq<byte>, nonce: Nonce, seqNo: u32, recvLen: nat, sum: Digest, seenAt: i64,
      repliedAt: i64)

  function Unsigned(t: i64): nat { if t < 0 then t + 0x1_0000_0000_0000_0000 else t }

  function Signed(n: nat): i64
    requires n < 0x1_0000_0000_0000_0000
  {
    if n >= 0x8000_0000_0000_0000 then n - 0x1_0000_0000_0000_0000 else n
  }

  /** The fields of a reply under a flags byte. */
  function ReplyFrame(rep: Reply, flags: byte): seq<byte> {
    PREFIX + [REPLY, flags] + rep.sid + [(|rep.test| % 256) as byte] + rep.test + rep.nonce + BigEndian(rep.seqNo, 4)
    + BigEndian(rep.recvLen, 2) + rep.sum + BigEndian(Unsigned(rep.seenAt), 8) + BigEndian(Unsigned(rep.repliedAt), 8)
  }

  /** The reply to a request. */
  function ReplyTo(req: Request, seenAt: i64, repliedAt: i64, sha: Sha): Reply {
    Reply(req.sid, req.test, req.nonce, req.seqNo, |req.payload|, sha(req.payload), seenAt, repliedAt)
  }

  function ReplyBody(req: Request, seenAt: i64, repliedAt: i64, sha: Sha): seq<byte> {
    ReplyFrame(ReplyTo(req, seenAt, repliedAt, sha), 0)
  }

  function EncodeReply(req: Request, seenAt: i64, repliedAt: i64, key: seq<byte>, mac: Mac, sha: Sha): seq<byte> {
    ReplyBody(req, seenAt, repliedAt, sha) + mac(key, ReplyBody(req, seenAt, repliedAt, sha))
  }

  function ReplyLen(b: seq<byte>): (nat, nat) {
    if |b| < 23 then (0, 23)
    else
      var total := 23 + b[22] as nat + 12 + 4 + 2 + 32 + 8 + 8 + MAC_LEN;
      if |b| < total then (0, total) else (total, total)
  }

  datatype DecodedReply = GenuineReply(rep: Reply) | Forged(rep: Reply) | NotReply | CutReply

  function DecodeReply(b: seq<byte>, key: seq<byte>, mac: Mac): DecodedReply {
    if !IsEnvelope(b) || b[4] != REPLY then NotReply
    else
      var (total, _) := ReplyLen(b);
      if total == 0 then CutReply
      else
        var rep := ReadReply(b, b[22] as nat);
        if b[total - MAC_LEN..total] == mac(key, b[..total - MAC_LEN]) then GenuineReply(rep) else Forged(rep)
  }

  function ReadReply(b: seq<byte>, tl: nat): Reply
    requires |b| >= 23 + tl + 66
  {
    var num, seen, replied := b[35 + tl..39 + tl], b[73 + tl..81 + tl], b[81 + tl..89 + tl];
    BigEndianOfNumber(num);
    BigEndianOfNumber(seen);
    BigEndianOfNumber(replied);
    Widths();
    Reply(b[6..22], b[23..23 + tl], b[23 + tl..35 + tl], Number(num), Number(b[39 + tl..41 + tl]), b[41 + tl..73 + tl],
          Signed(Number(seen)), Signed(Number(replied)))
  }

  datatype Check = Good(rep: Reply) | Modified | Unexpected | NonceMismatch | UplinkModified

  /** The client's judgement of what came back for the request it sent. */
  function CheckReply(b: seq<byte>, key: seq<byte>, nonce: Nonce, payload: seq<byte>, mac: Mac, sha: Sha): Check {
    match DecodeReply(b, key, mac)
    case Forged(_) => Modified
    case NotReply => Unexpected
    case CutReply => Unexpected
    case GenuineReply(rep) =>
      if rep.nonce != nonce then NonceMismatch
      else if rep.sum != sha(payload) || rep.recvLen != |payload| then UplinkModified
      else Good(rep)
  }

  predicate ReplyFits(rep: Reply) { |rep.test| <= 255 && rep.recvLen < 0x1_0000 }

  lemma ReplyFields(rep: Reply, flags: byte, tail: seq<byte>)
    requires ReplyFits(rep)
    ensures |ReplyFrame(rep, flags)| == 89 + |rep.test|
    ensures var b := ReplyFrame(rep, flags) + tail; var tl := |rep.test|;
            && b[..4] == PREFIX && b[4] == REPLY && b[6..22] == rep.sid && b[22] == tl && b[23..23 + tl] == rep.test
            && b[23 + tl..35 + tl] == rep.nonce && b[35 + tl..39 + tl] == BigEndian(rep.seqNo, 4)
            && b[39 + tl..41 + tl] == BigEndian(rep.recvLen, 2) && b[41 + tl..73 + tl] == rep.sum
            && b[73 + tl..81 + tl] == BigEndian(Unsigned(rep.seenAt), 8)
            && b[81 + tl..89 + tl] == BigEndian(Unsigned(rep.repliedAt), 8)
            && b[..89 + tl] == ReplyFrame(rep, flags)
  {
    var b := ReplyFrame(rep, flags) + tail;
    var a0 := PREFIX + [REPLY, flags];
    var a1 := a0 + rep.sid + [(|rep.test| % 256) as byte];
    var a2 := a1 + rep.test;
    var a3 := a2 + rep.nonce;
    var a4 := a3 + BigEndian(rep.seqNo, 4);
    var a5 := a4 + BigEndian(rep.recvLen, 2);
    var a6 := a5 + rep.sum;
    var a7 := a6 + BigEndian(Unsigned(rep.seenAt), 8);
    assert ReplyFrame(rep, flags) == a7 + BigEndian(Unsigned(rep.repliedAt), 8);
    assert a7 <= b && a6 <= a7 && a5 <= a6 && a4 <= a5 && a3 <= a4 && a2 <= a3 && a1 <= a2;
    assert a6 <= b && a5 <= b && a4 <= b;
    assert a3 <= b && a2 <= b && a1 <= b;
    Piece(a0, rep.sid, b);
    Piece(a1, rep.test, b);
    Piece(a2, rep.nonce, b);
    Piece(a3, BigEndian(rep.seqNo, 4), b);
    Piece(a4, BigEndian(rep.recvLen, 2), b);
    Piece(a5, rep.sum, b);
    Piece(a6, BigEndian(Unsigned(rep.seenAt), 8), b);
    Piece(a7, BigEndian(Unsigned(rep.repliedAt), 8), b);
  }

  lemma ReplyDecodes(rep: Reply, flags: byte, tag: Tag, key: seq<byte>, mac: Mac, tail: seq<byte>)
    requires ReplyFits(rep)
    ensures DecodeReply(ReplyFrame(rep, flags) + tag + tail, key, mac) ==
            if tag == mac(key, ReplyFrame(rep, flags)) then GenuineReply(rep) else Forged(rep)
  {
    hide ReplyFrame;
    var body := ReplyFrame(rep, flags);
    var b := body + tag + tail;
    assert b == body + (tag + tail);
    ReplyFields(rep, flags, tag + tail);
    Widths();
    NumberOfBigEndian(rep.seqNo, 4);
    NumberOfBigEndian(rep.recvLen, 2);
    NumberOfBigEndian(Unsigned(rep.seenAt), 8);
    NumberOfBigEndian(Unsigned(rep.repliedAt), 8);
    assert b[|body|..|body| + MAC_LEN] == tag;
  }

  lemma ReplyRoundTrip(req: Request, seenAt: i64, repliedAt: i64, key: seq<byte>, mac: Mac, sha: Sha, tail: seq<byte>)
    requires |req.test| <= 255 && |req.payload| < 0x1_0000
    ensures DecodeReply(EncodeReply(req, seenAt, repliedAt, key, mac, sha) + tail, key, mac)
         == GenuineReply(ReplyTo(req, seenAt, repliedAt, sha))
  {
    hide ReplyFrame, DecodeReply;
    var tag := mac(key, ReplyBody(req, seenAt, repliedAt, sha));
    ReplyDecodes(ReplyTo(req, seenAt, repliedAt, sha), 0, tag, key, mac, tail);
  }

  /** b starts with the frame of a reply, and a tag. */
  predicate CarriesReply(b: seq<byte>, rep: Reply, flags: byte, tag: Tag) {
    ReplyFits(rep) && ReplyFrame(rep, flags) + tag <= b
  }

  lemma ReplySlices(b: seq<byte>, tl: nat)
    requires |b| >= 89 + tl && b[..4] == PREFIX && b[4] == REPLY
    ensures PREFIX + [REPLY, b[5]] + b[6..22] + [b[22]] + b[23..23 + tl] + b[23 + tl..35 + tl] + b[35 + tl..39 + tl]
            + b[39 + tl..41 + tl] + b[41 + tl..73 + tl] + b[73 + tl..81 + tl] + b[81 + tl..89 + tl] == b[..89 + tl]
  {
    assert b[..6] == PREFIX + [REPLY, b[5]] by { assert b[..6] == b[..4] + [b[4], b[5]]; }
    assert b[22..23] == [b[22]];
    GlueFour(b, 6, 22, 23, 23 + tl, 35 + tl);
    GlueFour(b, 35 + tl, 39 + tl, 41 + tl, 73 + tl, 81 + tl);
    Glue(b, 81 + tl, 89 + tl);
  }

  lemma ReadsAsReply(b: seq<byte>)
    requires IsEnvelope(b) && b[4] == REPLY && ReplyLen(b).0 > 0
    ensures var tl := b[22] as nat; var rep := ReadReply(b, tl);
            ReplyFits(rep) && ReplyFrame(rep, b[5]) == b[..89 + tl] && ReplyLen(b).0 == 105 + tl <= |b|
  {
    hide BigEndian, Number;
    var tl := b[22] as nat;
    BigEndianOfNumber(b[35 + tl..39 + tl]);
    BigEndianOfNumber(b[39 + tl..41 + tl]);
    BigEndianOfNumber(b[73 + tl..81 + tl]);
    BigEndianOfNumber(b[81 + tl..89 + tl]);
    Widths();
    ReplySlices(b, tl);
  }

  ghost predicate AuthenticReply(b: seq<byte>, rep: Reply, key: seq<byte>, mac: Mac) {
    exists flags: byte :: CarriesReply(b, rep, flags, mac(key, ReplyFrame(rep, flags)))
  }

  ghost predicate TamperedReply(b: seq<byte>, rep: Reply, key: seq<byte>, mac: Mac) {
    exists flags: byte, tag: Tag :: CarriesReply(b, rep, flags, tag) && tag != mac(key, ReplyFrame(rep, flags))
  }

  lemma CarriedReplyDecodes(b: seq<byte>, rep: Reply, flags: byte, tag: Tag, key: seq<byte>, mac: Mac)
    requires CarriesReply(b, rep, flags, tag)
    ensures DecodeReply(b, key, mac)
         == if tag == mac(key, ReplyFrame(rep, flags)) then GenuineReply(rep) else Forged(rep)
  {
    hide ReplyFrame, DecodeReply;
    var n := |ReplyFrame(rep, flags) + tag|;
    assert b == ReplyFrame(rep, flags) + tag + b[n..];
    ReplyDecodes(rep, flags, tag, key, mac, b[n..]);
  }

  lemma DecodedReplyCarries(b: seq<byte>, key: seq<byte>, mac: Mac)
    requires DecodeReply(b, key, mac).GenuineReply? || DecodeReply(b, key, mac).Forged?
    ensures var rep := DecodeReply(b, key, mac).rep;
            && |b| >= 105 && |b| >= 105 + b[22] as nat
            && CarriesReply(b, rep, b[5], b[89 + b[22] as nat..105 + b[22] as nat])
            && (DecodeReply(b, key, mac).GenuineReply? <==>
                b[89 + b[22] as nat..105 + b[22] as nat] == mac(key, ReplyFrame(rep, b[5])))
  {
    hide ReplyFrame;
    ReadsAsReply(b);
    Glue(b, 89 + b[22] as nat, 105 + b[22] as nat);
  }

  /** For all bytes: a reply is genuine exactly when the key has signed it. */
  lemma ReplyDecodesIff(b: seq<byte>, key: seq<byte>, mac: Mac, rep: Reply)
    ensures DecodeReply(b, key, mac) == GenuineReply(rep) <==> AuthenticReply(b, rep, key, mac)
    ensures DecodeReply(b, key, mac) == Forged(rep) <==> TamperedReply(b, rep, key, mac)
  {
    hide ReplyFrame, DecodeReply, CarriesReply;
    var d := DecodeReply(b, key, mac);
    if (d.GenuineReply? || d.Forged?) && d.rep == rep {
      DecodedReplyCarries(b, key, mac);
      var flags, tag: Tag := b[5], b[89 + b[22] as nat..105 + b[22] as nat];
      assert CarriesReply(b, rep, flags, tag);
      assert d.GenuineReply? <==> tag == mac(key, ReplyFrame(rep, flags));
    }
    if AuthenticReply(b, rep, key, mac) {
      var flags: byte :| CarriesReply(b, rep, flags, mac(key, ReplyFrame(rep, flags)));
      CarriedReplyDecodes(b, rep, flags, mac(key, ReplyFrame(rep, flags)), key, mac);
    }
    if TamperedReply(b, rep, key, mac) {
      var flags: byte, tag: Tag :| CarriesReply(b, rep, flags, tag) && tag != mac(key, ReplyFrame(rep, flags));
      CarriedReplyDecodes(b, rep, flags, tag, key, mac);
    }
  }

  /** The client takes a reply for good exactly when the key has signed it, for this
      request's nonce, over the payload that was sent; it tells apart a reply that
      was changed, one to another request, and one to another payload. */
  lemma ChecksIff(b: seq<byte>, key: seq<byte>, nonce: Nonce, payload: seq<byte>, mac: Mac, sha: Sha, rep: Reply)
    ensures CheckReply(b, key, nonce, payload, mac, sha) == Good(rep) <==>
            && AuthenticReply(b, rep, key, mac) && rep.nonce == nonce
            && rep.sum == sha(payload) && rep.recvLen == |payload|
    ensures CheckReply(b, key, nonce, payload, mac, sha) == Modified <==> exists x :: TamperedReply(b, x, key, mac)
    ensures CheckReply(b, key, nonce, payload, mac, sha) == NonceMismatch <==>
            exists x :: AuthenticReply(b, x, key, mac) && x.nonce != nonce
    ensures CheckReply(b, key, nonce, payload, mac, sha) == UplinkModified <==>
            exists x :: && AuthenticReply(b, x, key, mac) && x.nonce == nonce
                        && (x.sum != sha(payload) || x.recvLen != |payload|)
  {
    hide DecodeReply, AuthenticReply, TamperedReply;
    forall x
      ensures DecodeReply(b, key, mac) == GenuineReply(x) <==> AuthenticReply(b, x, key, mac)
      ensures DecodeReply(b, key, mac) == Forged(x) <==> TamperedReply(b, x, key, mac)
    {
      ReplyDecodesIff(b, key, mac, x);
    }
    var d := DecodeReply(b, key, mac);
    if d.GenuineReply? { assert AuthenticReply(b, d.rep, key, mac); }
    if d.Forged? { assert TamperedReply(b, d.rep, key, mac); }
  }

  /** The echo closes the loop: the reply the server makes of what it decoded is
      accepted by the client, whatever surrounds either on the wire; a reply to
      another payload is laid to the way there, unless the two have one length
      and one digest. */
  lemma EchoCloses(r: Request, got: Request, key: seq<byte>, mac: Mac, sha: Sha, keyFor: Sid -> Option<seq<byte>>,
                   after: seq<byte>, tail: seq<byte>, seenAt: i64, repliedAt: i64)
    requires Legal(r) && keyFor(r.sid) == Some(key)
    requires Legal(got) && got.nonce == r.nonce
    ensures var dec := DecodeRequest(EncodeRequest(r, key, mac).value + after, keyFor, mac);
            && dec.Genuine?
            && CheckReply(EncodeReply(dec.r, seenAt, repliedAt, key, mac, sha) + tail, key, r.nonce, r.payload, mac,
                sha).Good?
    ensures var c := CheckReply(EncodeReply(got, seenAt, repliedAt, key, mac, sha) + tail, key, r.nonce, r.payload,
            mac, sha);
            c == UplinkModified <==> sha(got.payload) != sha(r.payload) || |got.payload| != |r.payload|
  {
    hide ReplyFrame, DecodeReply, Framed, DecodeRequest, RequestLen;
    RequestRoundTrip(r, key, mac, keyFor, after);
    ReplyRoundTrip(r, seenAt, repliedAt, key, mac, sha, tail);
    ReplyRoundTrip(got, seenAt, repliedAt, key, mac, sha, tail);
  }
}
