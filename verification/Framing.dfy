/** The incremental envelope reader of a TCP flow (tcpEnvelope): a buffer that
    grows by whatever a read returns and shrinks by whole envelopes. */
module Framing {
  import opened Base
  import opened Bytes
  import opened Envelope

  const READ_MAX: nat := 8192
  const SIZE_GUARD: nat := MAX_PAYLOAD + 512

  /** What the flow asks the rest of the server: keys of live sessions, and
      whether the n-th envelope is for a granted test within the attempt limit. */
  datatype Env = Env(mac: Mac, keyFor: Sid -> Option<seq<byte>>, admit: (Request, nat) -> bool)

  /** Closed comes with the bytes of the envelope that was still arriving. */
  datatype End = Closed(rest: seq<byte>) | TooLarge | BadMac | Refused

  /** The envelopes answered, why the flow ended, and whether an envelope had
      been decoded at all (the observation then names its session). */
  datatype Flow = Flow(served: seq<Request>, end: End, named: bool)

  /** What the first envelope of a stream leads to: the end of the flow, or an
      answer that takes it off the stream. */
  datatype Step = Stop(end: End, named: bool) | Answer(r: Request, total: nat)

  function First(env: Env, s: seq<byte>, n: nat): (step: Step)
    ensures step.Answer? ==> 0 < step.total <= |s|
  {
    var len := RequestLen(s);
    if len.1 > SIZE_GUARD then Stop(TooLarge, n > 0)
    else if len.0 == 0 then Stop(Closed(s), n > 0)
    else Judge(env, s[..len.0], n)
  }

  /** A complete envelope: decoded, then granted or not. */
  function Judge(env: Env, e: seq<byte>, n: nat): (step: Step)
    ensures step.Answer? ==> step.total == |e|
  {
    match DecodeRequest(e, env.keyFor, env.mac)
    case Genuine(r) => if env.admit(r, n) then Answer(r, |e|) else Stop(Refused, true)
    case Unproven(_) => Stop(BadMac, true)
    case _ => Stop(BadMac, n > 0)
  }

  /** What the flow amounts to, read off the whole byte stream. */
  function Serve(env: Env, s: seq<byte>, served: seq<Request>): Flow
    decreases |s|
  {
    match First(env, s, |served|)
    case Stop(end, named) => Flow(served, end, named)
    case Answer(r, total) => Serve(env, s[total..], served + [r])
  }

  /** Bytes that follow do not change the length of what is already complete, and
      never shrink what is needed. */
  lemma LenGrows(b: seq<byte>, more: seq<byte>)
    ensures RequestLen(b).0 > 0 ==> RequestLen(b + more) == RequestLen(b)
    ensures RequestLen(b).1 <= RequestLen(b + more).1
    ensures RequestLen(b).1 > 312 ==> RequestLen(b + more).1 == RequestLen(b).1
  {
    var w := b + more;
    if |b| >= 23 {
      var off := LengthField(b);
      assert LengthField(w) == off;
      if |b| >= off + 2 { assert w[off..off + 2] == b[off..off + 2]; }
    }
  }

  lemma {:induction false} ConcatSplit<T>(pieces: seq<seq<T>>, k: nat)
    requires k < |pieces|
    ensures Concat(pieces[k..]) == pieces[k] + Concat(pieces[k + 1..])
  {
    assert pieces[k..][1..] == pieces[k + 1..];
  }

  /** Reads until an envelope is complete, the size guard trips or the stream ends. */
  method Fill(have: seq<byte>, chunks: seq<seq<byte>>, from: nat) returns (buf: seq<byte>, k: nat, big: bool)
    requires from <= |chunks| && |have| < READ_MAX
    requires forall i :: 0 <= i < |chunks| ==> |chunks[i]| <= READ_MAX
    ensures from <= k <= |chunks|
    ensures buf + Concat(chunks[k..]) == have + Concat(chunks[from..])
    ensures big == (RequestLen(buf).1 > SIZE_GUARD)
    ensures big ==> RequestLen(have + Concat(chunks[from..])).1 > SIZE_GUARD
    ensures !big && RequestLen(buf).0 > 0 ==>
              && RequestLen(have + Concat(chunks[from..])) == RequestLen(buf)
              && |buf| < RequestLen(buf).0 + READ_MAX
    ensures !big && RequestLen(buf).0 == 0 ==> k == |chunks|
  {
    buf, k := have, from;
    while RequestLen(buf).0 == 0
      invariant from <= k <= |chunks|
      invariant buf + Concat(chunks[k..]) == have + Concat(chunks[from..])
      invariant RequestLen(buf).1 > SIZE_GUARD ==> |buf| < RequestLen(buf).1
      invariant |buf| < RequestLen(buf).1 + READ_MAX
      decreases |chunks| - k
    {
      LenGrows(buf, Concat(chunks[k..]));
      if RequestLen(buf).1 > SIZE_GUARD {
        return buf, k, true;
      }
      if k == |chunks| {
        return buf, k, false;
      }
      LenGrows(buf, chunks[k]);
      ConcatSplit(chunks, k);
      assert buf + (chunks[k] + Concat(chunks[k + 1..])) == (buf + chunks[k]) + Concat(chunks[k + 1..]);
      buf := buf + chunks[k];
      k := k + 1;
    }
    LenGrows(buf, Concat(chunks[k..]));
    return buf, k, false;
  }

  /** Bytes that come with the error that ends the flow are kept, and not looked at. */
  function Ended(f: Flow, last: seq<byte>): Flow {
    if f.end.Closed? then f.(end := Closed(f.end.rest + last)) else f
  }

  /** The loop of the server. However the stream is cut into reads, it answers
      the same envelopes and ends the same way; last are the bytes of the read
      that failed. */
  method ServeFlow(env: Env, chunks: seq<seq<byte>>, last: seq<byte>) returns (flow: Flow)
    requires forall i :: 0 <= i < |chunks| ==> |chunks[i]| <= READ_MAX
    ensures flow == Ended(Serve(env, Concat(chunks), []), last)
  {
    hide RequestLen, Judge;
    var buf: seq<byte> := [];
    var served: seq<Request> := [];
    var k := 0;
    assert chunks[0..] == chunks;
    assert buf + Concat(chunks) == Concat(chunks);
    while true
      invariant 0 <= k <= |chunks|
      invariant |buf| < READ_MAX
      invariant Serve(env, buf + Concat(chunks[k..]), served) == Serve(env, Concat(chunks), [])
      decreases |buf + Concat(chunks[k..])|
    {
      ghost var ahead := buf + Concat(chunks[k..]);
      var big;
      buf, k, big := Fill(buf, chunks, k);
      if big {
        return Flow(served, TooLarge, |served| > 0);
      }
      var total := RequestLen(buf).0;
      if total == 0 {
        assert ahead == buf;
        return Flow(served, Closed(buf + last), |served| > 0);
      }
      assert ahead[..total] == buf[..total];
      var step := Judge(env, buf[..total], |served|);
      assert First(env, ahead, |served|) == step;
      if step.Stop? {
        JudgeDoesNotClose(env, buf[..total], |served|);
        return Flow(served, step.end, step.named);
      }
      assert ahead[total..] == buf[total..] + Concat(chunks[k..]);
      served := served + [step.r];
      buf := buf[total..];
    }
  }

  lemma {:induction false} ServedGrows(env: Env, s: seq<byte>, served: seq<Request>)
    ensures |Serve(env, s, served).served| >= |served|
    decreases |s|
  {
    hide First;
    match First(env, s, |served|)
    case Stop(_, _) =>
    case Answer(r, total) => ServedGrows(env, s[total..], served + [r]);
  }

  lemma FirstGrows(env: Env, s: seq<byte>, more: seq<byte>, n: nat)
    ensures var step := First(env, s, n);
            !(step.Stop? && step.end.Closed?) ==> First(env, s + more, n) == step
  {
    hide Judge;
    LenGrows(s, more);
    assert RequestLen(s).0 > 0 ==> (s + more)[..RequestLen(s).0] == s[..RequestLen(s).0];
  }

  lemma JudgeDoesNotClose(env: Env, e: seq<byte>, n: nat)
    ensures Judge(env, e, n).Stop? ==> !Judge(env, e, n).end.Closed?
  {
  }

  /** That loses nothing exactly when those bytes complete no envelope: otherwise an
      envelope that arrived whole is not answered. */
  lemma {:induction false} LastReadCounts(env: Env, s: seq<byte>, last: seq<byte>, served: seq<Request>)
    ensures var f := Serve(env, s, served);
            if f.end.Closed? then
              (Ended(f, last) == Serve(env, s + last, served) <==>
               RequestLen(f.end.rest + last).0 == 0 && RequestLen(f.end.rest + last).1 <= SIZE_GUARD)
            else Serve(env, s + last, served) == f
    decreases |s|
  {
    hide Judge, RequestLen;
    FirstGrows(env, s, last, |served|);
    match First(env, s, |served|)
    case Answer(r, total) =>
      assert (s + last)[total..] == s[total..] + last;
      LastReadCounts(env, s[total..], last, served + [r]);
    case Stop(end, _) =>
      if end.Closed? {
        ClosedKeeps(env, s, |served|);
        var all := s + last;
        match First(env, all, |served|)
        case Answer(r, total) => ServedGrows(env, all[total..], served + [r]);
        case Stop(_, _) => ClosedKeeps(env, all, |served|);
      }
  }

  lemma ClosedKeeps(env: Env, s: seq<byte>, n: nat)
    ensures var step := First(env, s, n);
            (step.Stop? && step.end.Closed? <==> RequestLen(s).0 == 0 && RequestLen(s).1 <= SIZE_GUARD)
            && (step.Stop? && step.end.Closed? ==> step == Stop(Closed(s), n > 0))
  {
    hide Judge, RequestLen;
    if RequestLen(s).0 > 0 && RequestLen(s).1 <= SIZE_GUARD { JudgeDoesNotClose(env, s[..RequestLen(s).0], n); }
  }

  // ---- every stream ----

  /** e is an envelope of r, whole, signed with the key of its live session. */
  ghost predicate Proven(env: Env, e: seq<byte>, r: Request) {
    exists flags: byte, key ::
      && env.keyFor(r.sid) == Some(key) && Frameable(r, flags)
      && e == Framed(r, flags) + env.mac(key, Framed(r, flags))
  }

  /** The pieces are proven envelopes of the requests, each within the size guard and
      granted in its place. */
  ghost predicate Granted(env: Env, pieces: seq<seq<byte>>, es: seq<Request>, n: nat) {
    && |pieces| == |es|
    && forall i :: 0 <= i < |es| ==>
         Proven(env, pieces[i], es[i]) && |pieces[i]| <= SIZE_GUARD && env.admit(es[i], n + i)
  }

  lemma GrantedCons(env: Env, e: seq<byte>, r: Request, ps: seq<seq<byte>>, fs: seq<Request>, n: nat)
    requires Proven(env, e, r) && |e| <= SIZE_GUARD && env.admit(r, n) && Granted(env, ps, fs, n + 1)
    ensures Granted(env, [e] + ps, [r] + fs, n)
  {
    hide Proven;
    var pieces, es := [e] + ps, [r] + fs;
    forall i | 0 <= i < |es|
      ensures Proven(env, pieces[i], es[i]) && |pieces[i]| <= SIZE_GUARD && env.admit(es[i], n + i)
    {
      if i > 0 {
        var j := i - 1;
        assert pieces[i] == ps[j] && es[i] == fs[j] && n + 1 + j == n + i;
      }
    }
  }

  lemma GrantedTail(env: Env, pieces: seq<seq<byte>>, es: seq<Request>, n: nat)
    requires Granted(env, pieces, es, n) && es != []
    ensures Proven(env, pieces[0], es[0]) && |pieces[0]| <= SIZE_GUARD && env.admit(es[0], n)
    ensures Granted(env, pieces[1..], es[1..], n + 1)
  {
    hide Proven;
    forall i | 0 <= i < |es| - 1
      ensures Proven(env, pieces[1..][i], es[1..][i]) && |pieces[1..][i]| <= SIZE_GUARD
              && env.admit(es[1..][i], n + 1 + i)
    {
      var j := i + 1;
      assert pieces[1..][i] == pieces[j] && es[1..][i] == es[j] && n + 1 + i == n + j;
    }
    assert n + 0 == n;
  }

  /** What is left of the stream, and how the flow ends on it. */
  ghost predicate Ends(env: Env, rest: seq<byte>, n: nat, end: End) {
    match end
    case TooLarge => RequestLen(rest).1 > SIZE_GUARD
    case Closed(cut) => cut == rest && RequestLen(rest).0 == 0 && RequestLen(rest).1 <= SIZE_GUARD
    case Refused => exists e, r :: e <= rest && Proven(env, e, r) && |e| <= SIZE_GUARD && !env.admit(r, n)
    case BadMac => 0 < RequestLen(rest).0 <= SIZE_GUARD && forall e, r :: e <= rest ==> !Proven(env, e, r)
  }

  /** Whole bytes decode as genuine exactly when they are a proven envelope. */
  lemma ProvenDecodes(env: Env, e: seq<byte>, r: Request)
    ensures Proven(env, e, r) <==> RequestLen(e).0 == |e| && DecodeRequest(e, env.keyFor, env.mac) == Genuine(r)
    ensures Proven(env, e, r) ==> RequestLen(e) == (|e|, |e|) && |e| > 0
  {
    hide Framed, RequestLen, DecodeRequest;
    DecodesIff(e, env.keyFor, env.mac, r);
    if Proven(env, e, r) {
      var flags: byte, key :|
        env.keyFor(r.sid) == Some(key) && Frameable(r, flags) && e == Framed(r, flags) + env.mac(key, Framed(r, flags));
      FrameLen(r, flags, env.mac(key, Framed(r, flags)));
      assert Carries(e, r, flags, env.mac(key, Framed(r, flags)));
    }
    if RequestLen(e).0 == |e| && Authentic(e, r, env.keyFor, env.mac) {
      var flags: byte, key :| env.keyFor(r.sid) == Some(key) && Carries(e, r, flags, env.mac(key, Framed(r, flags)));
      var frame := Framed(r, flags) + env.mac(key, Framed(r, flags));
      FrameLen(r, flags, e[|Framed(r, flags)|..]);
      assert e == Framed(r, flags) + e[|Framed(r, flags)|..];
      assert |e| == |frame|;
    }
  }

  /** A proven envelope at the start of a stream is what its length field says. */
  lemma ProvenIsFirst(env: Env, s: seq<byte>, e: seq<byte>, r: Request)
    requires e <= s && Proven(env, e, r)
    ensures RequestLen(s) == (|e|, |e|) && s[..|e|] == e && |e| > 0
  {
    hide Framed, RequestLen, DecodeRequest, Proven;
    ProvenDecodes(env, e, r);
    assert s == e + s[|e|..];
    LenGrows(e, s[|e|..]);
  }

  /** The first envelope is answered exactly when it is proven, in size and granted. */
  lemma FirstAnswers(env: Env, s: seq<byte>, n: nat, r: Request)
    ensures First(env, s, n).Answer? && First(env, s, n).r == r <==>
            exists e :: e <= s && Proven(env, e, r) && |e| <= SIZE_GUARD && env.admit(r, n)
    ensures First(env, s, n).Answer? && First(env, s, n).r == r ==>
            Proven(env, s[..First(env, s, n).total], r) && First(env, s, n).total <= SIZE_GUARD
  {
    hide Framed, RequestLen, DecodeRequest, Proven;
    var step, total := First(env, s, n), RequestLen(s).0;
    if step.Answer? && step.r == r {
      WholeLen(s);
      ProvenDecodes(env, s[..total], r);
      assert s[..total] <= s;
    }
    if e :| e <= s && Proven(env, e, r) && |e| <= SIZE_GUARD && env.admit(r, n) {
      ProvenIsFirst(env, s, e, r);
      ProvenDecodes(env, e, r);
    }
  }

  lemma WholeLen(s: seq<byte>)
    requires RequestLen(s).0 > 0
    ensures var total := RequestLen(s).0; total <= |s| && RequestLen(s[..total]) == (total, total)
  {
    var total := RequestLen(s).0;
    assert s == s[..total] + s[total..];
    assert LengthField(s[..total]) == LengthField(s);
    assert s[..total][LengthField(s)..LengthField(s) + 2] == s[LengthField(s)..LengthField(s) + 2];
  }

  /** How the flow ends, whatever the bytes. */
  lemma FirstStops(env: Env, s: seq<byte>, n: nat, end: End)
    ensures First(env, s, n).Stop? && First(env, s, n).end == end <==> Ends(env, s, n, end)
  {
    hide Framed, RequestLen, DecodeRequest, Proven;
    var step, total := First(env, s, n), RequestLen(s).0;
    forall e, r | e <= s && Proven(env, e, r)
      ensures RequestLen(s) == (|e|, |e|) && total > 0 && DecodeRequest(s[..total], env.keyFor, env.mac) == Genuine(r)
    {
      ProvenIsFirst(env, s, e, r);
      ProvenDecodes(env, e, r);
    }
    if total > 0 {
      WholeLen(s);
      var d := DecodeRequest(s[..total], env.keyFor, env.mac);
      if d.Genuine? {
        ProvenDecodes(env, s[..total], d.r);
        assert s[..total] <= s && Proven(env, s[..total], d.r);
      }
    }
  }

  lemma ConcatCons<T>(e: seq<T>, ps: seq<seq<T>>, left: seq<T>)
    ensures Concat([e] + ps) + left == e + (Concat(ps) + left)
  {
    assert ([e] + ps)[1..] == ps;
    assert (e + Concat(ps)) + left == e + (Concat(ps) + left);
  }

  lemma Onward<T>(served: seq<T>, r: T, fs: seq<T>)
    ensures served + [r] + fs == served + ([r] + fs)
  {
  }

  /** The stream is the pieces and the rest; the pieces are proven, granted envelopes
      of what was answered beyond served; and the flow ends on the rest. */
  ghost predicate Taken(env: Env, s: seq<byte>, served: seq<Request>, flow: Flow, pieces: seq<seq<byte>>,
                        es: seq<Request>, rest: seq<byte>) {
    && flow.served == served + es && s == Concat(pieces) + rest
    && Granted(env, pieces, es, |served|) && Ends(env, rest, |served| + |es|, flow.end)
  }

  lemma TakenCons(env: Env, s: seq<byte>, e: seq<byte>, r: Request, served: seq<Request>, flow: Flow,
                  ps: seq<seq<byte>>, fs: seq<Request>, rest: seq<byte>)
    requires e <= s && Proven(env, e, r) && |e| <= SIZE_GUARD && env.admit(r, |served|)
    requires Taken(env, s[|e|..], served + [r], flow, ps, fs, rest)
    ensures Taken(env, s, served, flow, [e] + ps, [r] + fs, rest)
  {
    hide Proven, Ends, Granted, Concat;
    GrantedCons(env, e, r, ps, fs, |served|);
    ConcatCons(e, ps, rest);
    Onward(served, r, fs);
    assert s == e + s[|e|..];
  }

  /** For every stream: the requests answered are those of a run of proven, granted
      envelopes it starts with, and the flow ends on what follows them. */
  lemma {:induction false} FlowSplits(env: Env, s: seq<byte>, served: seq<Request>)
    returns (pieces: seq<seq<byte>>, es: seq<Request>, rest: seq<byte>)
    ensures Taken(env, s, served, Serve(env, s, served), pieces, es, rest)
    decreases |s|
  {
    hide First, Proven, Ends, Granted, Taken;
    match First(env, s, |served|)
    case Stop(end, _) =>
      FirstStops(env, s, |served|, end);
      pieces, es, rest := [], [], s;
      TakenNone(env, s, served, Serve(env, s, served));
    case Answer(r, total) =>
      FirstAnswers(env, s, |served|, r);
      AdmittedFirst(env, s, |served|, r);
      var ps, fs, left := FlowSplits(env, s[total..], served + [r]);
      pieces, es, rest := [s[..total]] + ps, [r] + fs, left;
      TakenCons(env, s, s[..total], r, served, Serve(env, s, served), ps, fs, left);
  }

  lemma TakenNone(env: Env, s: seq<byte>, served: seq<Request>, flow: Flow)
    requires flow.served == served && Ends(env, s, |served|, flow.end)
    ensures Taken(env, s, served, flow, [], [], s)
  {
    hide Proven, Ends;
    NoneGranted(env, |served|);
    assert served + [] == served && Concat([]) + s == s;
  }

  lemma NoneGranted(env: Env, n: nat)
    ensures Granted(env, [], [], n)
  {
  }

  lemma AdmittedFirst(env: Env, s: seq<byte>, n: nat, r: Request)
    requires First(env, s, n).Answer? && First(env, s, n).r == r
    ensures env.admit(r, n)
  {
  }

  /** And there is only one such way to take a stream: whatever starts with proven,
      granted envelopes and goes on like that is served like that. */
  lemma {:induction false} SplitServes(env: Env, pieces: seq<seq<byte>>, es: seq<Request>, rest: seq<byte>,
                                       served: seq<Request>, end: End)
    requires Granted(env, pieces, es, |served|) && Ends(env, rest, |served| + |es|, end)
    ensures var flow := Serve(env, Concat(pieces) + rest, served); flow.served == served + es && flow.end == end
    decreases |pieces|
  {
    hide First, Proven, Ends, Granted, Concat;
    var s := Concat(pieces) + rest;
    GrantedLen(env, pieces, es, |served|);
    if es == [] {
      assert s == rest && served + es == served by { NothingTaken(pieces, rest); }
      FirstStops(env, s, |served|, end);
    } else {
      var e, r := pieces[0], es[0];
      var left := Concat(pieces[1..]) + rest;
      GrantedTail(env, pieces, es, |served|);
      ConcatCons(e, pieces[1..], rest);
      assert [e] + pieces[1..] == pieces;
      assert s[|e|..] == left;
      FirstAnswers(env, s, |served|, r);
      ProvenIsFirst(env, s, e, r);
      AnswerIsWhole(env, s, |served|);
      SplitServes(env, pieces[1..], es[1..], rest, served + [r], end);
      Onward(served, r, es[1..]);
      assert [r] + es[1..] == es;
    }
  }

  lemma NothingTaken<T>(pieces: seq<seq<T>>, rest: seq<T>)
    ensures pieces == [] ==> Concat(pieces) + rest == rest
  {
  }

  lemma GrantedLen(env: Env, pieces: seq<seq<byte>>, es: seq<Request>, n: nat)
    requires Granted(env, pieces, es, n)
    ensures |pieces| == |es|
  {
  }

  lemma AnswerIsWhole(env: Env, s: seq<byte>, n: nat)
    ensures First(env, s, n).Answer? ==> First(env, s, n).total == RequestLen(s).0
  {
    hide RequestLen, DecodeRequest;
  }

  // ---- streams a client makes ----

  predicate Sendable(env: Env, r: Request) { Legal(r) && env.keyFor(r.sid).Some? }

  /** The bytes a client that holds its session key puts on the wire. */
  function Wire(env: Env, r: Request): seq<byte>
    requires Sendable(env, r)
  {
    EncodeRequest(r, env.keyFor(r.sid).value, env.mac).value
  }

  /** Every one of the envelopes is sendable and granted in its place. */
  predicate AllGranted(env: Env, es: seq<Request>, n: nat) {
    es == [] || (Sendable(env, es[0]) && env.admit(es[0], n) && AllGranted(env, es[1..], n + 1))
  }

  function Stream(env: Env, es: seq<Request>, n: nat): seq<byte>
    requires AllGranted(env, es, n)
  {
    if es == [] then [] else Wire(env, es[0]) + Stream(env, es[1..], n + 1)
  }

  /** The start of an envelope that never arrived in full. */
  ghost predicate CutShort(env: Env, cut: seq<byte>) {
    exists r :: Sendable(env, r) && |cut| < |Wire(env, r)| && cut <= Wire(env, r)
  }

  lemma CutWaits(env: Env, cut: seq<byte>)
    requires CutShort(env, cut)
    ensures RequestLen(cut).0 == 0 && RequestLen(cut).1 <= SIZE_GUARD
  {
    var r :| Sendable(env, r) && |cut| < |Wire(env, r)| && cut <= Wire(env, r);
    var w := Wire(env, r);
    EncodedLen(r, env.mac(env.keyFor(r.sid).value, Body(r)));
    assert w == cut + w[|cut|..];
    LenGrows(cut, w[|cut|..]);
  }

  lemma WireFirst(env: Env, r: Request, rest: seq<byte>, n: nat)
    requires Sendable(env, r) && env.admit(r, n)
    ensures First(env, Wire(env, r) + rest, n) == Answer(r, |Wire(env, r)|)
  {
    var w := Wire(env, r);
    RequestRoundTrip(r, env.keyFor(r.sid).value, env.mac, env.keyFor, rest);
    RequestRoundTrip(r, env.keyFor(r.sid).value, env.mac, env.keyFor, []);
    EncodedLen(r, env.mac(env.keyFor(r.sid).value, Body(r)));
    assert (w + rest)[..|w|] == w && w + [] == w;
  }

  lemma {:induction false} StreamServed(env: Env, es: seq<Request>, cut: seq<byte>, before: seq<Request>)
    requires AllGranted(env, es, |before|) && CutShort(env, cut)
    ensures Serve(env, Stream(env, es, |before|) + cut, before) == Flow(before + es, Closed(cut), |before + es| > 0)
    decreases |es|
  {
    hide RequestLen, Judge, Sendable, Wire, CutShort;
    if es == [] {
      CutWaits(env, cut);
      assert Stream(env, es, |before|) + cut == cut && before + es == before;
    } else {
      var r, w := es[0], Wire(env, es[0]);
      var rest := Stream(env, es[1..], |before| + 1) + cut;
      WireFirst(env, r, rest, |before|);
      assert Stream(env, es, |before|) + cut == w + rest && (w + rest)[|w|..] == rest;
      StreamServed(env, es[1..], cut, before + [r]);
      assert before + [r] + es[1..] == before + es;
    }
  }

  /** For every list of legal envelopes of live sessions, granted and within the
      limit, and whatever part of a further one: the flow answers exactly these
      requests in order and is left holding exactly that part. The size guard
      refuses none of them. */
  lemma StreamExact(env: Env, es: seq<Request>, cut: seq<byte>)
    requires AllGranted(env, es, 0) && CutShort(env, cut)
    ensures Serve(env, Stream(env, es, 0) + cut, []) == Flow(es, Closed(cut), |es| > 0)
  {
    StreamServed(env, es, cut, []);
    assert [] + es == es;
  }

  /** The identity the server may record for a flow that was cut inside its first
      envelope is the one that envelope carries, as far as it arrived. */
  lemma CutFlowIdentified(env: Env, r: Request, k: nat)
    requires Sendable(env, r) && k < |Wire(env, r)|
    ensures var flow := Serve(env, Wire(env, r)[..k], []);
            && flow == Flow([], Closed(Wire(env, r)[..k]), false)
            && var p := PeekRequest(flow.end.rest);
               && (k >= 22 <==> p.have >= 1) && (p.have >= 1 ==> p.sid == r.sid)
               && (p.have >= 2 ==> p.test == r.test) && (p.have >= 3 ==> p.nonce == r.nonce)
  {
    var cut := Wire(env, r)[..k];
    assert cut <= Wire(env, r);
    CutWaits(env, cut);
    PeekAgrees(r, env.keyFor(r.sid).value, env.mac, k);
  }
}
