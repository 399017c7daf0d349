/** How a scan finds the server's half of an attempt (internal/client/merge.go):
    the indexes built in one pass over the observations, and what a plain scan
    would have found instead. */
module Merge {
  import opened Base
  import opened Text
  import opened Evidence

  const FORWARDED := "quic_forwarded"
  const EMPTY := "empty"

  function NonceKey(test: string, nonce: string): string { test + "/" + nonce }

  predicate FollowUp(o: Observation) {
    (Get(o.detail, Stage) == "transport" || Get(o.detail, Stage) == "control") && o.transport == "udp"
  }

  /** A follow-up the server could read and verify. */
  predicate Valid(o: Observation) {
    Get(o.detail, Auth) != "failed" && Get(o.detail, Parse) != "bad_control" && Get(o.detail, Mac) != "invalid"
  }

  // ---- the plain scans ----

  predicate OfNonce(o: Observation, key: string) { o.nonce != "" && NonceKey(o.testID, o.nonce) == key }

  predicate Handshake(o: Observation, id: string) { o.attemptID != "" && o.attemptID == id && !FollowUp(o) }

  /** Carries a handshake of its own: neither forwarded nor empty. */
  predicate Solid(o: Observation) { o.response != FORWARDED && o.parse != EMPTY }

  predicate Counts(o: Observation, id: string, control: bool) {
    o.attemptID != "" && o.attemptID == id && FollowUp(o) && Valid(o) && (Get(o.detail, Stage) == "control") == control
  }

  /** The first position at which p holds. */
  function First(obs: seq<Observation>, p: Observation -> bool): (r: Option<nat>)
    ensures r.Some? ==> r.value < |obs| && p(obs[r.value]) && forall j :: 0 <= j < r.value ==> !p(obs[j])
    ensures r.None? ==> forall j :: 0 <= j < |obs| ==> !p(obs[j])
  {
    if obs == [] then None
    else
      match First(obs[..|obs| - 1], p)
      case Some(i) => Some(i)
      case None => if p(obs[|obs| - 1]) then Some(|obs| - 1) else None
  }

  function Number(obs: seq<Observation>, p: Observation -> bool): nat {
    if obs == [] then 0 else Number(obs[..|obs| - 1], p) + if p(obs[|obs| - 1]) then 1 else 0
  }

  /** The observation of a nonce: the first that is not a mere forward, else the first. */
  function ByNonce(obs: seq<Observation>, key: string): Option<nat> {
    match First(obs, (o: Observation) => OfNonce(o, key) && o.response != FORWARDED)
    case Some(i) => Some(i)
    case None => First(obs, (o: Observation) => OfNonce(o, key))
  }

  // ---- the indexes ----

  datatype Index = Index(
    byNonce: map<string, nat>, byAttempt: map<string, nat>, dataSeen: map<string, nat>, ctlSeen: map<string, nat>,
        dns: seq<nat>)

  function Seen(m: map<string, nat>, id: string): nat { if id in m then m[id] else 0 }

  /** byNonce agrees with the scan for every key. */
  ghost predicate NonceRight(obs: seq<Observation>, m: map<string, nat>) {
    forall key :: (if key in m then Some(m[key]) else None) == ByNonce(obs, key)
  }

  /** A flow that carried nothing. */
  predicate Hollow(o: Observation) { o.response != FORWARDED && o.parse == EMPTY }

  /** Where handshakes of which none is solid leave it: nothing but empty flows came
      after, and only if this one is an empty flow itself; and every empty flow
      before it has given way to one that was not. */
  ghost predicate Settles(obs: seq<Observation>, id: string, i: nat)
    requires i < |obs|
  {
    && (forall j :: i < j < |obs| && Handshake(obs[j], id) ==> Hollow(obs[i]) && obs[j].parse == EMPTY)
    && (forall j :: 0 <= j < i && Handshake(obs[j], id) && Hollow(obs[j]) ==>
          exists k :: j < k <= i && Handshake(obs[k], id) && obs[k].parse != EMPTY)
  }

  /** There is one such place at most. */
  lemma SettlesOnce(obs: seq<Observation>, id: string, i: nat, j: nat)
    requires i < |obs| && j < |obs| && Handshake(obs[i], id) && Handshake(obs[j], id) && Settles(obs, id, i)
            && Settles(obs, id, j)
    ensures i == j
  {
  }

  ghost predicate NoneSolid(obs: seq<Observation>, id: string) {
    forall i :: 0 <= i < |obs| && Handshake(obs[i], id) ==> !Solid(obs[i])
  }

  ghost predicate AttemptSettled(obs: seq<Observation>, m: map<string, nat>) {
    forall id :: id in m ==> m[id] < |obs| && (NoneSolid(obs, id) ==> Settles(obs, id, m[id]))
  }

  /** byAttempt holds a handshake of the attempt exactly when there is one, and
      the first solid one whenever there is one. */
  ghost predicate AttemptRight(obs: seq<Observation>, m: map<string, nat>) {
    && AttemptSettled(obs, m)
    && (forall id :: id in m ==> m[id] < |obs| && Handshake(obs[m[id]], id))
    && (forall id, i :: 0 <= i < |obs| && Handshake(obs[i], id) ==> id in m)
    && (forall id, i ::
        0 <= i < |obs| && Handshake(obs[i], id) && Solid(obs[i])
        ==> id in m && m[id] <= i && Solid(obs[m[id]]))
  }

  ghost predicate CountRight(obs: seq<Observation>, m: map<string, nat>, control: bool) {
    forall id :: Seen(m, id) == Number(obs, (o: Observation) => Counts(o, id, control))
  }

  predicate IsQuery(o: Observation) { o.parse == "dns_query" }

  predicate DnsRight(obs: seq<Observation>, dns: seq<nat>) {
    && (forall k :: 0 <= k < |dns| ==> dns[k] < |obs| && IsQuery(obs[dns[k]]))
    && (forall j, k :: 0 <= j < k < |dns| ==> dns[j] < dns[k])
    && (forall i :: 0 <= i < |obs| && IsQuery(obs[i]) ==> i in dns)
  }

  ghost predicate Right(obs: seq<Observation>, x: Index) {
    && NonceRight(obs, x.byNonce) && AttemptRight(obs, x.byAttempt)
    && CountRight(obs, x.dataSeen, false) && CountRight(obs, x.ctlSeen, true) && DnsRight(obs, x.dns)
  }

  // ---- one more observation ----

  function AddNonce(obs: seq<Observation>, m: map<string, nat>, o: Observation): map<string, nat>
    requires forall k :: k in m ==> m[k] < |obs|
  {
    var key := NonceKey(o.testID, o.nonce);
    if o.nonce != "" && (key !in m || (obs[m[key]].response == FORWARDED && o.response != FORWARDED))
    then m[key := |obs|] else m
  }

  lemma FirstMore(obs: seq<Observation>, o: Observation, p: Observation -> bool)
    ensures First(obs + [o], p) == match First(obs, p) case Some(i) => Some(i) case None => if p(o) then Some(|obs|)
            else None
    ensures Number(obs + [o], p) == Number(obs, p) + if p(o) then 1 else 0
  {
    assert (obs + [o])[..|obs|] == obs;
  }

  lemma NonceMore(obs: seq<Observation>, m: map<string, nat>, o: Observation)
    requires NonceRight(obs, m) && forall k :: k in m ==> m[k] < |obs|
    ensures NonceRight(obs + [o], AddNonce(obs, m, o))
  {
    var n := AddNonce(obs, m, o);
    forall key ensures (if key in n then Some(n[key]) else None) == ByNonce(obs + [o], key) {
      FirstMore(obs, o, (o: Observation) => OfNonce(o, key) && o.response != FORWARDED);
      FirstMore(obs, o, (o: Observation) => OfNonce(o, key));
      assert (if key in m then Some(m[key]) else None) == ByNonce(obs, key);
    }
  }

  function AddAttempt(obs: seq<Observation>, m: map<string, nat>, o: Observation): map<string, nat>
    requires forall k :: k in m ==> m[k] < |obs|
  {
    var id := o.attemptID;
    if id == "" || FollowUp(o) then m
    else if id !in m || obs[m[id]].response == FORWARDED
        || (obs[m[id]].parse == EMPTY && o.parse != EMPTY) then m[id := |obs|]
    else m
  }

  lemma SettlesMore(obs: seq<Observation>, o: Observation, id: string, p: nat)
    requires p < |obs| && Handshake(obs[p], id) && !Solid(obs[p]) && Settles(obs, id, p)
    ensures !Handshake(o, id) ==> Settles(obs + [o], id, p)
    ensures Handshake(o, id) ==>
              Settles(obs + [o], id, if obs[p].response == FORWARDED
                  || (obs[p].parse == EMPTY && o.parse != EMPTY) then |obs| else p)
  {
    hide Handshake;
    var more := obs + [o];
    assert more[|obs|] == o && forall i :: 0 <= i < |obs| ==> more[i] == obs[i];
    var i := if Handshake(o, id) && (obs[p].response == FORWARDED || (obs[p].parse == EMPTY && o.parse != EMPTY))
        then |obs| else p;
    forall j | 0 <= j < i && Handshake(more[j], id) && Hollow(more[j])
      ensures exists k :: j < k <= i && Handshake(more[k], id) && more[k].parse != EMPTY
    {
      if j < p {
        var k :| j < k <= p && Handshake(obs[k], id) && obs[k].parse != EMPTY;
        assert Handshake(more[k], id);
      } else {
        assert Hollow(obs[p]);
        assert Handshake(more[|obs|], id);
      }
    }
  }

  lemma SettledMore(obs: seq<Observation>, m: map<string, nat>, o: Observation)
    requires AttemptRight(obs, m)
    ensures AttemptSettled(obs + [o], AddAttempt(obs, m, o))
  {
    hide FollowUp, Settles, Solid;
    var more, n := obs + [o], AddAttempt(obs, m, o);
    assert more[|obs|] == o && forall i :: 0 <= i < |obs| ==> more[i] == obs[i];
    forall id | id in n ensures n[id] < |more| && (NoneSolid(more, id) ==> Settles(more, id, n[id])) {
      if NoneSolid(more, id) {
        assert forall i :: 0 <= i < |obs| && Handshake(obs[i], id) ==> !Solid(more[i]);
        assert NoneSolid(obs, id);
        if id in m {
          SettlesMore(obs, o, id, m[id]);
        } else {
          FirstSettles(more, id, |obs|);
        }
      }
    }
  }

  lemma FirstSettles(obs: seq<Observation>, id: string, i: nat)
    requires i == |obs| - 1 && forall j :: 0 <= j < i ==> !Handshake(obs[j], id)
    ensures Settles(obs, id, i)
  {
  }

  lemma AttemptMore(obs: seq<Observation>, m: map<string, nat>, o: Observation)
    requires AttemptRight(obs, m)
    ensures AttemptRight(obs + [o], AddAttempt(obs, m, o))
  {
    hide FollowUp, AttemptSettled;
    SettledMore(obs, m, o);
    var more, n := obs + [o], AddAttempt(obs, m, o);
    assert forall i :: 0 <= i < |obs| ==> more[i] == obs[i];
    assert more[|obs|] == o;
    forall id, i | 0 <= i < |more| && Handshake(more[i], id) && Solid(more[i])
      ensures id in n && n[id] <= i && Solid(more[n[id]])
    {
      if i < |obs| {
        SolidAt(obs, m, id, i);
        assert n[id] == m[id];
      } else if id in m && Solid(obs[m[id]]) {
        assert n == m;
      }
    }
  }

  function AddCount(m: map<string, nat>, o: Observation, control: bool): map<string, nat> {
    if Counts(o, o.attemptID, control) then m[o.attemptID := Seen(m, o.attemptID) + 1] else m
  }

  lemma CountMore(obs: seq<Observation>, m: map<string, nat>, o: Observation, control: bool)
    requires CountRight(obs, m, control)
    ensures CountRight(obs + [o], AddCount(m, o, control), control)
  {
    hide FollowUp, Valid;
    var n := AddCount(m, o, control);
    forall id ensures Seen(n, id) == Number(obs + [o], (o: Observation) => Counts(o, id, control)) {
      FirstMore(obs, o, (o: Observation) => Counts(o, id, control));
      assert Seen(m, id) == Number(obs, (o: Observation) => Counts(o, id, control));
    }
  }

  lemma DnsMore(obs: seq<Observation>, dns: seq<nat>, o: Observation)
    requires DnsRight(obs, dns)
    ensures DnsRight(obs + [o], if IsQuery(o) then dns + [|obs|] else dns)
  {
    hide IsQuery;
    var more, all := obs + [o], if IsQuery(o) then dns + [|obs|] else dns;
    forall k | 0 <= k < |all| ensures all[k] < |more| && IsQuery(more[all[k]]) {
      if k < |dns| { assert all[k] == dns[k] && more[dns[k]] == obs[dns[k]]; }
    }
    forall j, k | 0 <= j < k < |all| ensures all[j] < all[k] {
      assert all[j] == dns[j];
    }
    forall i | 0 <= i < |more| && IsQuery(more[i]) ensures i in all {
      if i < |obs| {
        var k :| 0 <= k < |dns| && dns[k] == i;
        assert all[k] == i;
      } else {
        assert all[|dns|] == i;
      }
    }
  }

  /** The pass over the observations: after it every index agrees with a scan. */
  method BuildIndex(obs: seq<Observation>) returns (x: Index)
    ensures Right(obs, x)
  {
    hide NonceRight, AttemptRight, CountRight, DnsRight, FollowUp, Valid, NonceKey;
    x := Index(map[], map[], map[], map[], []);
    NothingSeen();
    for i := 0 to |obs|
      invariant Right(obs[..i], x)
    {
      var o := obs[i];
      ghost var before := obs[..i];
      assert obs[..i + 1] == before + [o];
      InRange(before, x);
      NonceMore(before, x.byNonce, o);
      AttemptMore(before, x.byAttempt, o);
      CountMore(before, x.dataSeen, o, false);
      CountMore(before, x.ctlSeen, o, true);
      DnsMore(before, x.dns, o);
      if o.nonce != "" {
        var key := NonceKey(o.testID, o.nonce);
        if key !in x.byNonce || (obs[x.byNonce[key]].response == FORWARDED && o.response != FORWARDED) {
          x := x.(byNonce := x.byNonce[key := i]);
        }
      }
      if o.attemptID != "" {
        if FollowUp(o) {
          if Valid(o) {
            if Get(o.detail, Stage) == "control" {
              x := x.(ctlSeen := x.ctlSeen[o.attemptID := Seen(x.ctlSeen, o.attemptID) + 1]);
            } else {
              x := x.(dataSeen := x.dataSeen[o.attemptID := Seen(x.dataSeen, o.attemptID) + 1]);
            }
          }
        } else if o.attemptID !in x.byAttempt || obs[x.byAttempt[o.attemptID]].response == FORWARDED
                  || (obs[x.byAttempt[o.attemptID]].parse == EMPTY && o.parse != EMPTY) {
          x := x.(byAttempt := x.byAttempt[o.attemptID := i]);
        }
      }
      if IsQuery(o) {
        x := x.(dns := x.dns + [i]);
      }
    }
    assert obs[..|obs|] == obs;
  }

  lemma NothingSeen()
    ensures Right([], Index(map[], map[], map[], map[], []))
  {
  }

  lemma InRange(obs: seq<Observation>, x: Index)
    requires Right(obs, x)
    ensures forall k :: k in x.byNonce ==> x.byNonce[k] < |obs|
    ensures forall k :: k in x.byAttempt ==> x.byAttempt[k] < |obs|
  {
    forall k | k in x.byNonce ensures x.byNonce[k] < |obs| {
      assert ByNonce(obs, k) == Some(x.byNonce[k]);
    }
  }

  /** The follow-ups of an attempt that the server could read: data or control packets
      over UDP, neither undecryptable nor malformed nor with a bad MAC. */
  function Follows(obs: seq<Observation>, id: string, control: bool): set<nat> {
    set i: nat | i < |obs| && id != "" && obs[i].attemptID == id && obs[i].transport == "udp"
                 && Get(obs[i].detail, Stage) == (if control then "control" else "transport")
                 && Get(obs[i].detail, Auth) != "failed" && Get(obs[i].detail, Parse) != "bad_control"
                 && Get(obs[i].detail, Mac) != "invalid"
  }

  function Those(obs: seq<Observation>, p: Observation -> bool): set<nat> { set i: nat | i < |obs| && p(obs[i]) }

  lemma {:induction false} NumberIs(obs: seq<Observation>, p: Observation -> bool)
    ensures Number(obs, p) == |Those(obs, p)|
  {
    if obs == [] {
      assert Those(obs, p) == {};
    } else {
      NumberIs(obs[..|obs| - 1], p);
      ThoseMore(obs, p);
    }
  }

  lemma ThoseMore(obs: seq<Observation>, p: Observation -> bool)
    requires obs != []
    ensures var n := |obs| - 1; |Those(obs, p)| == |Those(obs[..n], p)| + if p(obs[n]) then 1 else 0
  {
    var n := |obs| - 1;
    var init := obs[..n];
    assert forall i: nat :: i < n ==> init[i] == obs[i];
    assert n !in Those(init, p);
    assert Those(obs, p) == Those(init, p) + if p(obs[n]) then {n} else {};
  }

  /** The counters an attempt is given are the numbers of those. */
  lemma CountedIs(obs: seq<Observation>, x: Index, id: string)
    requires Right(obs, x)
    ensures Seen(x.dataSeen, id) == |Follows(obs, id, false)| && Seen(x.ctlSeen, id) == |Follows(obs, id, true)|
  {
    hide NonceRight, AttemptRight, DnsRight;
    forall control ensures Follows(obs, id, control) == Those(obs, (o: Observation) => Counts(o, id, control)) { }
    NumberIs(obs, (o: Observation) => Counts(o, id, false));
    NumberIs(obs, (o: Observation) => Counts(o, id, true));
  }

  // ---- attaching an attempt ----

  predicate OfQuery(o: Observation, nonce: string) { IsQuery(o) && HasPrefix(Get(o.detail, Qname), nonce + ".") }

  predicate OfFlow(o: Observation, a: Attempt) {
    o.transport == "tcp" && o.dstPort == a.dstPort && o.srcPort == a.srcPort && o.testID == a.testID
        && Get(o.detail, Partial) == "true"
  }

  predicate HasHandshake(obs: seq<Observation>, id: string) { exists i :: 0 <= i < |obs| && Handshake(obs[i], id) }

  /** What a plain scan attaches: by nonce, by reservation, by query name, by
      5-tuple, the first of these that applies; under a reservation the first solid
      handshake, or else the one place where the others settle. */
  ghost predicate Attached(obs: seq<Observation>, a: Attempt, r: Option<nat>) {
    if a.nonce != "" && ByNonce(obs, NonceKey(a.testID, a.nonce)).Some?
        then r == ByNonce(obs, NonceKey(a.testID, a.nonce))
    else if a.attemptID != "" && HasHandshake(obs, a.attemptID) then
      && r.Some? && r.value < |obs| && Handshake(obs[r.value], a.attemptID)
      && var solid := First(obs, (o: Observation) => Handshake(o, a.attemptID) && Solid(o));
         if solid.Some? then r == solid else Settles(obs, a.attemptID, r.value)
    else if HasPrefix(a.testID, "dns.") && a.nonce != "" then r == First(obs, (o: Observation) => OfQuery(o, a.nonce))
    else if a.transport == "tcp" && a.srcPort != 0 then r == First(obs, (o: Observation) => OfFlow(o, a))
    else r == None
  }

  /** The first indexed query whose name starts with the nonce. */
  method FindQuery(obs: seq<Observation>, dns: seq<nat>, nonce: string) returns (r: Option<nat>)
    requires DnsRight(obs, dns)
    ensures r == First(obs, (o: Observation) => OfQuery(o, nonce))
  {
    for k := 0 to |dns|
      invariant forall j :: 0 <= j < k ==> !OfQuery(obs[dns[j]], nonce)
    {
      if HasPrefix(Get(obs[dns[k]].detail, Qname), nonce + ".") {
        FirstIs(obs, (o: Observation) => OfQuery(o, nonce), dns, k);
        return Some(dns[k]);
      }
    }
    NoneIs(obs, (o: Observation) => OfQuery(o, nonce), dns);
    return None;
  }

  lemma FirstIs(obs: seq<Observation>, p: Observation -> bool, dns: seq<nat>, k: nat)
    requires DnsRight(obs, dns) && k < |dns| && p(obs[dns[k]]) && (forall o :: p(o) ==> IsQuery(o))
    requires forall j :: 0 <= j < k ==> !p(obs[dns[j]])
    ensures First(obs, p) == Some(dns[k])
  {
    var i := First(obs, p).value;
    assert i in dns;
    var j :| 0 <= j < |dns| && dns[j] == i;
    assert j >= k && i <= dns[k];
  }

  lemma NoneIs(obs: seq<Observation>, p: Observation -> bool, dns: seq<nat>)
    requires DnsRight(obs, dns) && (forall o :: p(o) ==> IsQuery(o))
    requires forall j :: 0 <= j < |dns| ==> !p(obs[dns[j]])
    ensures First(obs, p) == None
  {
    forall i | 0 <= i < |obs| ensures !p(obs[i]) {
      if IsQuery(obs[i]) { assert i in dns; }
    }
  }

  /** The first flow of the same ports that the server could only read in part. */
  method FindFlow(obs: seq<Observation>, a: Attempt) returns (r: Option<nat>)
    ensures r == First(obs, (o: Observation) => OfFlow(o, a))
  {
    for i := 0 to |obs|
      invariant First(obs[..i], (o: Observation) => OfFlow(o, a)) == None
    {
      ghost var p := (o: Observation) => OfFlow(o, a);
      if obs[i].transport == "tcp" && obs[i].dstPort == a.dstPort && obs[i].srcPort == a.srcPort
         && obs[i].testID == a.testID && Get(obs[i].detail, Partial) == "true" {
        FirstAt(obs, p, i);
        return Some(i);
      }
      assert obs[..i + 1] == obs[..i] + [obs[i]];
      FirstMore(obs[..i], obs[i], p);
    }
    assert obs[..|obs|] == obs;
    return None;
  }

  lemma FirstAt(obs: seq<Observation>, p: Observation -> bool, i: nat)
    requires i < |obs| && p(obs[i]) && First(obs[..i], p) == None
    ensures First(obs, p) == Some(i)
  {
    assert forall j :: 0 <= j < i ==> obs[j] == obs[..i][j];
  }

  /** attach: with indexes that are right it finds what the plain scan finds. */
  method Attach(obs: seq<Observation>, x: Index, a: Attempt) returns (r: Option<nat>)
    requires Right(obs, x)
    ensures Attached(obs, a, r)
  {
    hide FollowUp, CountRight, DnsRight, ByNonce, NonceKey, OfQuery, OfFlow;
    var key := NonceKey(a.testID, a.nonce);
    assert (if key in x.byNonce then Some(x.byNonce[key]) else None) == ByNonce(obs, key);
    if a.nonce != "" && key in x.byNonce {
      return Some(x.byNonce[key]);
    }
    if a.attemptID != "" && a.attemptID in x.byAttempt {
      r := Some(x.byAttempt[a.attemptID]);
      SolidFirst(obs, x.byAttempt, a.attemptID);
      return;
    }
    assert a.attemptID != "" ==> !HasHandshake(obs, a.attemptID);
    if HasPrefix(a.testID, "dns.") && a.nonce != "" {
      r := FindQuery(obs, x.dns, a.nonce);
      return;
    }
    if a.transport == "tcp" && a.srcPort != 0 {
      r := FindFlow(obs, a);
      return;
    }
    return None;
  }

  lemma SolidAt(obs: seq<Observation>, m: map<string, nat>, id: string, i: nat)
    requires AttemptRight(obs, m) && i < |obs| && Handshake(obs[i], id) && Solid(obs[i])
    ensures id in m && m[id] <= i && Solid(obs[m[id]])
  {
  }

  lemma HandshakeAt(obs: seq<Observation>, m: map<string, nat>, id: string)
    requires AttemptRight(obs, m) && id in m
    ensures m[id] < |obs| && Handshake(obs[m[id]], id)
  {
  }

  lemma SolidFirst(obs: seq<Observation>, m: map<string, nat>, id: string)
    requires AttemptRight(obs, m) && id in m
    ensures m[id] < |obs| && Handshake(obs[m[id]], id) && HasHandshake(obs, id)
    ensures var solid := First(obs, (o: Observation) => Handshake(o, id) && Solid(o));
            if solid.Some? then Some(m[id]) == solid else Settles(obs, id, m[id])
  {
    hide AttemptRight, Handshake, Solid, Settles;
    HandshakeAt(obs, m, id);
    var p := (o: Observation) => Handshake(o, id) && Solid(o);
    if First(obs, p).Some? {
      SolidAt(obs, m, id, First(obs, p).value);
      assert p(obs[m[id]]);
    } else {
      assert forall i :: 0 <= i < |obs| ==> !p(obs[i]);
      SettledAt(obs, m, id);
    }
  }

  lemma SettledAt(obs: seq<Observation>, m: map<string, nat>, id: string)
    requires AttemptRight(obs, m) && id in m && NoneSolid(obs, id)
    ensures m[id] < |obs| && Settles(obs, id, m[id])
  {
    hide Settles, Handshake, Solid;
  }

  /** Nonce keys tell test and nonce apart, as long as test ids hold no slash. */
  lemma KeyIdentifies(test: string, nonce: string, test': string, nonce': string)
    requires Free(test, '/') && Free(test', '/')
    ensures NonceKey(test, nonce) == NonceKey(test', nonce') <==> test == test' && nonce == nonce'
  {
    if NonceKey(test, nonce) == NonceKey(test', nonce') {
      JoinInjective(test, nonce, test', nonce', '/');
    }
  }
}
