/** The two-party protocol that ties a native flow to the attempt it belongs to:
    the client locks the pool of an attempt, reserves, and runs the flow; the
    server hands a flow the newest unused reservation of its pool. One client per
    address; every attempt reserves at most once, under an id of its own. */
module Correlation {
  import opened Base
  import opened Addresses
  import opened StoreModel

  const WINDOW: int := 15 * SECOND

  /** What a reservation and a flow must agree on. Kinds are never empty. */
  datatype Pool = Pool(ip: Addr, transport: string, port: int, kind: string)

  predicate Proper(p: Pool) { p.kind != "" && Unmap(p.ip) == p.ip }

  function Ask(p: Pool): Query { Query(p.ip, p.transport, p.port, p.kind) }

  predicate Of(r: ReservationState, p: Pool) {
    r.clientIP == p.ip && r.transport == p.transport && r.dstPort == p.port && r.kind == p.kind
  }

  /** What the attempt that holds a pool has reserved, and whether some flow of
      the pool was matched since, its beginning within the window. */
  datatype Ticket = Ticket(id: string, expires: int, taken: bool)

  datatype World = World(
    clock: int, holder: map<Pool, string>, tickets: map<Pool, Ticket>, ids: set<string>, newest: int,
    reservations: seq<ReservationState>)

  datatype Event =
    | Lock(p: Pool, a: string)
    | Reserve(p: Pool, r: ReservationState, at: int)
    | Match(p: Pool, seen: int, at: int)   // a flow that began at seen: the attempt's own or any other
    | Unlock(p: Pool)
    | Collect(at: int)

  predicate Enabled(s: World, e: Event) {
    match e
    case Lock(p, a) => Proper(p) && p !in s.holder
    case Reserve(p, r, at) =>
      && p in s.holder && p !in s.tickets && r.id !in s.ids && Of(r, p) && !r.used
      && s.clock <= at && s.newest < at && r.expires == at + WINDOW
    case Match(p, seen, at) => Proper(p) && seen <= at && s.clock <= at
    case Unlock(p) => p in s.holder
    case Collect(at) => s.clock <= at
  }

  function After(s: World, e: Event): World {
    match e
    case Lock(p, a) => s.(holder := s.holder[p := a])
    case Reserve(p, r, at) =>
      s.(clock := at, newest := at, ids := s.ids + {r.id}, reservations := s.reservations + [r],
         tickets := s.tickets[p := Ticket(r.id, r.expires, false)])
    case Match(p, seen, at) =>
      var tickets := if p in s.tickets && seen <= s.tickets[p].expires
          then s.tickets[p := s.tickets[p].(taken := true)] else s.tickets;
      s.(clock := at, tickets := tickets, reservations := Spend(s.reservations, Ask(p), seen))
    case Unlock(p) => s.(holder := s.holder - {p}, tickets := s.tickets - {p})
    case Collect(at) => s.(clock := at, reservations := PendingOf(s.reservations, at))
  }

  ghost predicate Legal(s: World, run: seq<Event>)
    decreases |run|
  {
    run == [] || (Enabled(s, run[0]) && Legal(After(s, run[0]), run[1..]))
  }

  ghost function End(s: World, run: seq<Event>): World
    decreases |run|
  {
    if run == [] then s else End(After(s, run[0]), run[1..])
  }

  function Empty(clock: int): World { World(clock, map[], map[], {}, clock, []) }

  // ---- what every run keeps ----

  /** Filed in order, each under its own id, each for one kind of flow. */
  predicate Filed(rs: seq<ReservationState>, ids: set<string>, newest: int) {
    && (forall i, j :: 0 <= i < j < |rs| ==> rs[i].expires < rs[j].expires && rs[i].id != rs[j].id)
    && (forall i :: 0 <= i < |rs| ==> rs[i].id in ids && rs[i].expires <= newest + WINDOW && rs[i].kind != "")
  }

  /** Where the reservation of a ticket stands: unspent and newest of its pool
      until a flow of the pool is matched; spent or swept away afterwards. */
  predicate Stands(rs: seq<ReservationState>, p: Pool, t: Ticket, clock: int) {
    && (forall j :: 0 <= j < |rs| && Of(rs[j], p) ==> rs[j].expires <= t.expires)
    && (t.taken ==> forall j :: 0 <= j < |rs| && rs[j].id == t.id ==> rs[j].used)
    && (!t.taken ==> forall j ::
        0 <= j < |rs| && rs[j].id == t.id
        ==> Of(rs[j], p) && rs[j].expires == t.expires && !rs[j].used)
    && (!t.taken && clock < t.expires + MINUTE ==> exists i :: 0 <= i < |rs| && rs[i].id == t.id)
  }

  predicate Inv(s: World) {
    && Filed(s.reservations, s.ids, s.newest) && s.newest <= s.clock
    && (forall p :: p in s.tickets ==> Proper(p) && p in s.holder && s.tickets[p].id in s.ids
                                       && s.tickets[p].expires <= s.newest + WINDOW
                                       && Stands(s.reservations, p, s.tickets[p], s.clock))
    && (forall p :: p in s.holder ==> Proper(p))
    && (forall p, q :: p in s.tickets && q in s.tickets && p != q ==> s.tickets[p].id != s.tickets[q].id)
  }

  /** Only reservations of its own pool are eligible for a flow. */
  lemma EligibleIsOf(r: ReservationState, p: Pool, now: int)
    requires Proper(p) && r.kind != ""
    ensures Eligible(r, Ask(p), now) <==> Of(r, p) && !r.used && now <= r.expires
  {
  }

  // ---- each event keeps it ----

  lemma StandsFiled(rs: seq<ReservationState>, r: ReservationState, p: Pool, t: Ticket, clock: int, at: int)
    requires Stands(rs, p, t, clock) && clock <= at && r.id != t.id && !Of(r, p)
    ensures Stands(rs + [r], p, t, at)
  {
    var more := rs + [r];
    assert forall i :: 0 <= i < |rs| ==> more[i] == rs[i];
    if !t.taken && at < t.expires + MINUTE {
      var i :| 0 <= i < |rs| && rs[i].id == t.id;
      assert Of(more[i], p) && more[i].id == t.id;
    }
  }

  lemma FiledMore(rs: seq<ReservationState>, ids: set<string>, newest: int, r: ReservationState, at: int)
    requires Filed(rs, ids, newest) && newest < at && r.expires == at + WINDOW && r.id !in ids && r.kind != ""
    ensures Filed(rs + [r], ids + {r.id}, at)
  {
    var more := rs + [r];
    assert forall i :: 0 <= i < |rs| ==> more[i] == rs[i];
  }

  lemma ReserveKeeps(s: World, p: Pool, r: ReservationState, at: int)
    requires Inv(s) && Enabled(s, Reserve(p, r, at))
    ensures Inv(After(s, Reserve(p, r, at)))
  {
    hide Filed, Stands;
    var t := After(s, Reserve(p, r, at));
    FiledMore(s.reservations, s.ids, s.newest, r, at);
    forall q | q in t.tickets ensures Stands(t.reservations, q, t.tickets[q], at) {
      if q == p {
        OwnStands(s.reservations, s.ids, s.newest, r, p, at);
      } else {
        assert !Of(r, q);
        StandsFiled(s.reservations, r, q, s.tickets[q], s.clock, at);
      }
    }
  }

  lemma OwnStands(rs: seq<ReservationState>, ids: set<string>, newest: int, r: ReservationState, p: Pool, at: int)
    requires Filed(rs, ids, newest) && newest < at && r.expires == at + WINDOW && Of(r, p) && !r.used && r.id !in ids
    ensures Stands(rs + [r], p, Ticket(r.id, r.expires, false), at)
  {
    var more := rs + [r];
    assert forall i :: 0 <= i < |rs| ==> more[i] == rs[i];
    assert more[|rs|] == r;
  }

  lemma FiledSpent(rs: seq<ReservationState>, ids: set<string>, newest: int, q: Query, seen: int)
    requires Filed(rs, ids, newest)
    ensures Filed(Spend(rs, q, seen), ids, newest)
  {
    var us := Spend(rs, q, seen);
    assert forall i :: 0 <= i < |rs| ==>
        us[i].expires == rs[i].expires && us[i].id == rs[i].id
        && us[i].kind == rs[i].kind;
  }

  /** A match leaves the tickets of other pools alone, and takes that of its own
      if the flow began within its window. */
  lemma StandsSpent(rs: seq<ReservationState>, ids: set<string>, newest: int, p: Pool, q: Pool, t: Ticket, clock: int,
      seen: int, at: int)
    requires Filed(rs, ids, newest) && Stands(rs, q, t, clock) && clock <= at && Proper(p)
    ensures p != q || t.expires < seen ==> Stands(Spend(rs, Ask(p), seen), q, t, at)
    ensures p == q && t.taken ==> Stands(Spend(rs, Ask(p), seen), q, t, at)
  {
    hide Newest, Eligible;
    NewestSpec(rs, Ask(p), seen);
    var us := Spend(rs, Ask(p), seen);
    forall i | 0 <= i < |rs| ensures Eligible(rs[i], Ask(p), seen)
        <==> Of(rs[i], p) && !rs[i].used && seen <= rs[i].expires {
      EligibleIsOf(rs[i], p, seen);
    }
    assert forall i :: 0 <= i < |rs| ==>
        us[i] == rs[i]
        || (us[i] == rs[i].(used := true) && Eligible(rs[i], Ask(p), seen));
    if (p != q || t.expires < seen) && !t.taken && at < t.expires + MINUTE {
      var i :| 0 <= i < |rs| && rs[i].id == t.id;
      assert !Eligible(rs[i], Ask(p), seen);
      assert us[i] == rs[i];
    }
  }

  /** A flow of the pool that began within the window finds the untaken
      reservation, wherever it is filed: nothing of its pool is newer. */
  lemma FindsOwn(rs: seq<ReservationState>, ids: set<string>, newest: int, p: Pool, t: Ticket, clock: int, seen: int,
      i: nat)
    requires Filed(rs, ids, newest) && Stands(rs, p, t, clock) && Proper(p) && !t.taken && seen <= t.expires
    requires i < |rs| && rs[i].id == t.id
    ensures Newest(rs, Ask(p), seen) == Some(i)
  {
    hide Newest, Eligible;
    NewestSpec(rs, Ask(p), seen);
    EligibleIsOf(rs[i], p, seen);
    var k := Newest(rs, Ask(p), seen).value;
    EligibleIsOf(rs[k], p, seen);
    assert rs[k].expires == rs[i].expires;
  }

  lemma TakenStands(rs: seq<ReservationState>, ids: set<string>, newest: int, p: Pool, t: Ticket, clock: int,
      seen: int, at: int)
    requires Filed(rs, ids, newest) && Stands(rs, p, t, clock) && Proper(p) && !t.taken && seen <= t.expires
    ensures Stands(Spend(rs, Ask(p), seen), p, t.(taken := true), at)
  {
    hide Newest;
    var us := Spend(rs, Ask(p), seen);
    assert forall i :: 0 <= i < |rs| ==>
        us[i].expires == rs[i].expires && us[i].id == rs[i].id
        && (Of(us[i], p) <==> Of(rs[i], p));
    forall i | 0 <= i < |rs| && rs[i].id == t.id ensures us[i].used {
      FindsOwn(rs, ids, newest, p, t, clock, seen, i);
    }
  }

  lemma MatchKeeps(s: World, p: Pool, seen: int, at: int)
    requires Inv(s) && Enabled(s, Match(p, seen, at))
    ensures Inv(After(s, Match(p, seen, at)))
  {
    hide Filed, Stands, Spend;
    var t := After(s, Match(p, seen, at));
    FiledSpent(s.reservations, s.ids, s.newest, Ask(p), seen);
    forall q | q in t.tickets ensures Stands(t.reservations, q, t.tickets[q], at) {
      StandsSpent(s.reservations, s.ids, s.newest, p, q, s.tickets[q], s.clock, seen, at);
      if q == p && seen <= s.tickets[p].expires && !s.tickets[p].taken {
        TakenStands(s.reservations, s.ids, s.newest, p, s.tickets[p], s.clock, seen, at);
      }
    }
  }

  lemma PendingIsSubsequence(rs: seq<ReservationState>, now: int)
    ensures forall r :: r in PendingOf(rs, now) <==> r in rs && Pending(r, now)
  {
    if rs != [] { PendingIsSubsequence(rs[..|rs| - 1], now); }
  }

  lemma {:induction false} FiledPending(rs: seq<ReservationState>, ids: set<string>, newest: int, now: int)
    requires Filed(rs, ids, newest)
    ensures Filed(PendingOf(rs, now), ids, newest)
  {
    if rs != [] {
      var init, kept := rs[..|rs| - 1], PendingOf(rs[..|rs| - 1], now);
      FiledPending(init, ids, newest, now);
      PendingIsSubsequence(init, now);
      forall i | 0 <= i < |kept| ensures kept[i].expires < rs[|rs| - 1].expires && kept[i].id != rs[|rs| - 1].id {
        assert kept[i] in init;
      }
    }
  }

  lemma StandsPending(rs: seq<ReservationState>, p: Pool, t: Ticket, clock: int, at: int)
    requires Stands(rs, p, t, clock) && clock <= at
    ensures Stands(PendingOf(rs, at), p, t, at)
  {
    hide PendingOf;
    PendingIsSubsequence(rs, at);
    var us := PendingOf(rs, at);
    assert forall j :: 0 <= j < |us| ==> us[j] in rs;
    if !t.taken && at < t.expires + MINUTE {
      var i :| 0 <= i < |rs| && rs[i].id == t.id;
      assert rs[i] in us;
    }
  }

  lemma CollectKeeps(s: World, at: int)
    requires Inv(s) && Enabled(s, Collect(at))
    ensures Inv(After(s, Collect(at)))
  {
    hide Filed, Stands, PendingOf;
    FiledPending(s.reservations, s.ids, s.newest, at);
    forall q | q in s.tickets ensures Stands(PendingOf(s.reservations, at), q, s.tickets[q], at) {
      StandsPending(s.reservations, q, s.tickets[q], s.clock, at);
    }
  }

  lemma Keeps(s: World, e: Event)
    requires Inv(s) && Enabled(s, e)
    ensures Inv(After(s, e))
  {
    hide Filed, Stands;
    match e
    case Lock(_, _) =>
    case Unlock(_) =>
    case Reserve(p, r, at) => ReserveKeeps(s, p, r, at);
    case Match(p, seen, at) => MatchKeeps(s, p, seen, at);
    case Collect(at) => CollectKeeps(s, at);
  }

  lemma {:induction false} RunKeeps(s: World, run: seq<Event>)
    requires Inv(s) && Legal(s, run)
    ensures Inv(End(s, run))
    decreases |run|
  {
    hide Inv, After, Enabled;
    if run != [] {
      Keeps(s, run[0]);
      RunKeeps(After(s, run[0]), run[1..]);
    }
  }

  // ---- the protocol theorem ----

  /** In every run, for an attempt that holds its pool and has reserved: a flow of
      the pool that began within the window is matched to the attempt's own
      reservation if and only if no such flow was matched since it reserved,
      whatever older reservations of the pool were left behind. */
  lemma FirstMatchIsOwn(clock: int, run: seq<Event>, p: Pool, seen: int)
    requires Legal(Empty(clock), run)
    requires var s := End(Empty(clock), run);
             p in s.tickets && seen <= s.tickets[p].expires && s.clock < s.tickets[p].expires + MINUTE
    ensures var s := End(Empty(clock), run);
            && p in s.holder
            && var found := FindIn(s.reservations, Ask(p), seen);
               ((found.Some? && found.value.id == s.tickets[p].id) <==> !s.tickets[p].taken)
  {
    RunKeeps(Empty(clock), run);
    hide Legal, End;
    var s := End(Empty(clock), run);
    var rs, t := s.reservations, s.tickets[p];
    if !t.taken {
      var i :| 0 <= i < |rs| && rs[i].id == t.id;
      FindsOwn(rs, s.ids, s.newest, p, t, s.clock, seen, i);
    } else {
      NewestSpec(rs, Ask(p), seen);
    }
  }

  lemma FirstOf(s: World, e: Event, rest: seq<Event>)
    ensures Legal(s, [e] + rest) <==> Enabled(s, e) && Legal(After(s, e), rest)
    ensures End(s, [e] + rest) == End(After(s, e), rest)
  {
    hide Enabled, After;
    assert ([e] + rest)[1..] == rest;
  }

  /** It does fail: a flow of an attempt that has given its pool up arrives after
      the next attempt reserved, and takes the reservation of that one. */
  lemma LateFlowTakesTheNext(p: Pool, first: ReservationState, second: ReservationState)
    requires Proper(p) && Of(first, p) && Of(second, p) && !first.used && !second.used && first.id != second.id
    requires first.expires == 1 + WINDOW && second.expires == 2 + WINDOW
    ensures var run := [Lock(p, "first")] + ([Reserve(p, first, 1)]
            + ([Unlock(p)] + ([Lock(p, "second")] + ([Reserve(p, second, 2)] + []))));
            && Legal(Empty(0), run)
            && var s := End(Empty(0), run);
               && FindIn(s.reservations, Ask(p), 1) == Some(second)
               && FindIn(After(s, Match(p, 1, 3)).reservations, Ask(p), 3) == Some(first)
  {
    hide Legal, End, FindIn, Spend;
    var s1 := After(Empty(0), Lock(p, "first"));
    var s2 := After(s1, Reserve(p, first, 1));
    var s3 := After(s2, Unlock(p));
    var s4 := After(s3, Lock(p, "second"));
    var s5 := After(s4, Reserve(p, second, 2));
    var r4: seq<Event> := [Reserve(p, second, 2)] + [];
    var r3 := [Lock(p, "second")] + r4;
    var r2 := [Unlock(p)] + r3;
    NoneOf(s5);
    FirstOf(s4, Reserve(p, second, 2), []);
    FirstOf(s3, Lock(p, "second"), r4);
    FirstOf(s2, Unlock(p), r3);
    FirstOf(s1, Reserve(p, first, 1), r2);
    FirstOf(Empty(0), Lock(p, "first"), [Reserve(p, first, 1)] + r2);
    assert s5.reservations == [first, second];
    TwoFiled(p, first, second);
  }

  lemma TwoFiled(p: Pool, first: ReservationState, second: ReservationState)
    requires Proper(p) && Of(first, p) && Of(second, p) && !first.used && !second.used
    requires first.expires == 1 + WINDOW && second.expires == 2 + WINDOW
    ensures var rs := [first, second];
            && FindIn(rs, Ask(p), 1) == Some(second)
            && FindIn(Spend(rs, Ask(p), 1), Ask(p), 3) == Some(first)
  {
    var rs := [first, second];
    assert rs[..1] == [first] && rs[..1][..0] == [];
    assert Newest(rs[..1], Ask(p), 1) == Some(0);
    var us := Spend(rs, Ask(p), 1);
    assert us == [first, second.(used := true)] && us[..1] == [first] && us[..1][..0] == [];
    assert Newest(us[..1], Ask(p), 3) == Some(0);
  }

  lemma NoneOf(s: World)
    ensures Legal(s, []) && End(s, []) == s
  {
  }
}
