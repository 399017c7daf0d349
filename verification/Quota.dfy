/** The daily bulk quotas of the store (consumeBulk and the quota part of gc).
    The zero address holds the counter of the whole server. */
module Quota {
  import opened Addresses
  import opened Sums

  const GLOBAL_PER_DAY: int := 0x1_0000_0000

  datatype Use = Use(day: int, bytes: int)

  type Uses = map<Addr, Use>

  /** What a counter stands at on a day: a counter of another day starts over. */
  function On(uses: Uses, k: Addr, day: int): int {
    if k in uses && uses[k].day == day then uses[k].bytes else 0
  }

  function Consume(uses: Uses, perDay: int, ip: Addr, n: int, day: int): (Uses, bool) {
    Spend(uses, perDay, RateKey(ip), n, day)
  }

  function Spend(uses: Uses, perDay: int, k: Addr, n: int, day: int): (Uses, bool) {
    var u, g := On(uses, k, day), On(uses, NoAddr, day);
    if perDay > 0 && u + n > perDay then (uses, false)
    else if g + n > GLOBAL_PER_DAY then (uses, false)
    else (uses[k := Use(day, u + n)][NoAddr := Use(day, g + n)], true)
  }

  function Sweep(uses: Uses, day: int): Uses {
    map k | k in uses && uses[k].day == day :: uses[k]
  }

  datatype Event = Charge(ip: Addr, n: int, day: int) | Collect(day: int)

  function Apply(uses: Uses, perDay: int, e: Event): Uses {
    match e
    case Charge(ip, n, day) => Consume(uses, perDay, ip, n, day).0
    case Collect(day) => Sweep(uses, day)
  }

  function Replay(perDay: int, es: seq<Event>): Uses {
    if es == [] then map[] else Apply(Replay(perDay, es[..|es| - 1]), perDay, es[|es| - 1])
  }

  /** The bytes the run granted to one client (or, for the zero address, to all) on a day. */
  function Granted(perDay: int, es: seq<Event>, k: Addr, day: int): int {
    if es == [] then 0
    else
      var p, e := es[..|es| - 1], es[|es| - 1];
      Granted(perDay, p, k, day)
      + if e.Charge? && e.day == day && (k == NoAddr || RateKey(e.ip) == k)
           && Consume(Replay(perDay, p), perDay, e.ip, e.n, e.day).1
        then e.n else 0
  }

  function Days(es: seq<Event>): set<int> {
    if es == [] then {} else Days(es[..|es| - 1]) + {es[|es| - 1].day}
  }

  /** Valid addresses, charges of at least nothing, and no day that comes back:
      every event is on the day of the one before it or on a new one. */
  ghost predicate Ordinary(es: seq<Event>) {
    es == [] ||
    var p, e := es[..|es| - 1], es[|es| - 1];
    && Ordinary(p)
    && (e.Charge? ==> e.ip != NoAddr && e.n >= 0)
    && (e.day in Days(p) ==> p[|p| - 1].day == e.day)
  }

  /** The client counters of a day. */
  ghost function ClientsOn(uses: Uses, day: int): map<Addr, int> {
    map k | k in uses && k != NoAddr && uses[k].day == day :: uses[k].bytes
  }

  /** Counters are non-negative and within their limits. */
  ghost predicate Bounded(uses: Uses, perDay: int) {
    && (forall k :: k in uses ==> 0 <= uses[k].bytes)
    && (perDay > 0 ==> forall k :: k in uses && k != NoAddr ==> uses[k].bytes <= perDay)
    && (NoAddr in uses ==> uses[NoAddr].bytes <= GLOBAL_PER_DAY)
  }

  /** Any counter of the day implies that the global one is of the day. */
  ghost predicate Led(uses: Uses, day: int) {
    forall k :: k in uses && uses[k].day == day ==> NoAddr in uses && uses[NoAddr].day == day
  }

  ghost predicate Summed(uses: Uses) {
    NoAddr in uses ==> uses[NoAddr].bytes == Sum(ClientsOn(uses, uses[NoAddr].day))
  }

  ghost predicate OfDays(uses: Uses, days: set<int>) {
    forall k :: k in uses ==> uses[k].day in days
  }

  ghost predicate Inv(uses: Uses, perDay: int, es: seq<Event>) {
    && Bounded(uses, perDay) && Summed(uses) && OfDays(uses, Days(es))
    && (es != [] ==> Led(uses, es[|es| - 1].day))
  }

  /** Granting n moves the client's counter and the sum of its day by n alike. */
  lemma SpendKeeps(uses: Uses, perDay: int, k: Addr, n: int, day: int)
    requires k != NoAddr && n >= 0
    requires Bounded(uses, perDay) && Summed(uses) && Led(uses, day)
    ensures var uses' := Spend(uses, perDay, k, n, day).0;
            Bounded(uses', perDay) && Summed(uses') && Led(uses', day)
  {
    if Spend(uses, perDay, k, n, day).1 {
      SpendMoves(uses, perDay, k, n, day);
      assert NoAddr !in uses || uses[NoAddr].day != day ==> ClientsOn(uses, day) == map[];
    }
  }

  lemma SweepKeeps(uses: Uses, perDay: int, day: int)
    requires Bounded(uses, perDay) && Summed(uses) && Led(uses, day)
    ensures Bounded(Sweep(uses, day), perDay) && Summed(Sweep(uses, day)) && Led(Sweep(uses, day), day)
  {
    SweepSame(uses, day);
  }

  lemma {:induction false} RunKeepsInv(perDay: int, es: seq<Event>)
    requires Ordinary(es)
    ensures Inv(Replay(perDay, es), perDay, es)
  {
    if es != [] {
      var p, e := es[..|es| - 1], es[|es| - 1];
      RunKeepsInv(perDay, p);
      var uses := Replay(perDay, p);
      assert Led(uses, e.day);
      match e {
        case Charge(ip, n, day) => SpendKeeps(uses, perDay, RateKey(ip), n, day);
        case Collect(day) => SweepKeeps(uses, perDay, day);
      }
    }
  }

  /** After every ordinary run the global counter is the sum of the client
      counters of its day, and every counter is within its limit. */
  lemma QuotaConserved(perDay: int, es: seq<Event>)
    requires Ordinary(es)
    ensures var uses := Replay(perDay, es);
            && (NoAddr in uses ==> uses[NoAddr].bytes == Sum(ClientsOn(uses, uses[NoAddr].day)))
            && (NoAddr in uses ==> 0 <= uses[NoAddr].bytes <= GLOBAL_PER_DAY)
            && (forall k :: k in uses && k != NoAddr ==> 0 <= uses[k].bytes)
            && (perDay > 0 ==> forall k :: k in uses && k != NoAddr ==> uses[k].bytes <= perDay)
  {
    RunKeepsInv(perDay, es);
  }

  /** A day no event of the run is on was granted nothing. */
  lemma {:induction false} UnseenDay(perDay: int, es: seq<Event>, k: Addr, day: int)
    requires day !in Days(es)
    ensures Granted(perDay, es, k, day) == 0
  {
    if es != [] { UnseenDay(perDay, es[..|es| - 1], k, day); }
  }

  /** The counters of the current day are exactly what the run granted that day. */
  lemma {:induction false} CountersAreGrants(perDay: int, es: seq<Event>, k: Addr)
    requires Ordinary(es) && es != []
    ensures On(Replay(perDay, es), k, es[|es| - 1].day) == Granted(perDay, es, k, es[|es| - 1].day)
  {
    var p, e := es[..|es| - 1], es[|es| - 1];
    assert On(Replay(perDay, p), k, e.day) == Granted(perDay, p, k, e.day) by {
      RunKeepsInv(perDay, p);
      if e.day in Days(p) {
        CountersAreGrants(perDay, p, k);
      } else {
        UnseenDay(perDay, p, k, e.day);
      }
    }
    GrantStep(Replay(perDay, p), perDay, k, e);
  }

  /** One event moves a counter of its day by what it grants that client. */
  lemma GrantStep(uses: Uses, perDay: int, k: Addr, e: Event)
    requires e.Charge? ==> e.ip != NoAddr
    ensures On(Apply(uses, perDay, e), k, e.day) == On(uses, k, e.day)
            + if e.Charge? && (k == NoAddr || RateKey(e.ip) == k) && Consume(uses, perDay, e.ip, e.n, e.day).1
              then e.n else 0
  {
  }

  /** Within the client's limit, if there is one, and the server's. */
  predicate Fits(uses: Uses, perDay: int, k: Addr, n: int, day: int) {
    (perDay <= 0 || On(uses, k, day) + n <= perDay) && On(uses, NoAddr, day) + n <= GLOBAL_PER_DAY
  }

  lemma GrantedIffFits(uses: Uses, perDay: int, k: Addr, n: int, day: int)
    ensures Spend(uses, perDay, k, n, day).1 <==> Fits(uses, perDay, k, n, day)
  {
  }

  /** A charge within the limits that opens a day on the global counter while a client
      counter of an earlier day of that number still stands. */
  ghost predicate Reopens(uses: Uses, perDay: int, e: Event) {
    && e.Charge? && Fits(uses, perDay, RateKey(e.ip), e.n, e.day)
    && !(NoAddr in uses && uses[NoAddr].day == e.day)
    && Stands(uses, e.day)
  }

  ghost predicate Stands(uses: Uses, day: int) {
    exists k :: k in uses && k != NoAddr && uses[k].day == day && uses[k].bytes != 0
  }

  ghost predicate Proper(es: seq<Event>) {
    forall i :: 0 <= i < |es| && es[i].Charge? ==> es[i].ip != NoAddr && es[i].n >= 0
  }

  lemma {:induction false} ZeroSum(m: map<Addr, int>)
    requires forall k :: k in m ==> m[k] >= 0
    ensures Sum(m) == 0 <==> forall k :: k in m ==> m[k] == 0
    decreases |m|
  {
    SumBounds(m);
    if m != map[] {
      var k :| k in m;
      SumRemove(m, k);
      ZeroSum(m - {k});
      SumBounds(m - {k});
    }
  }

  lemma StandsIff(uses: Uses, perDay: int, day: int)
    requires Bounded(uses, perDay)
    ensures Stands(uses, day) <==> Sum(ClientsOn(uses, day)) != 0
  {
    var m := ClientsOn(uses, day);
    ZeroSum(m);
    if Stands(uses, day) {
      var k :| k in uses && k != NoAddr && uses[k].day == day && uses[k].bytes != 0;
      assert k in m && m[k] != 0;
    }
    if k :| k in m && m[k] != 0 {
      assert k in uses && k != NoAddr && uses[k].day == day && uses[k].bytes != 0;
    }
  }

  /** Granting a charge moves client sum and global counter alike; the global one
      starts from nothing when it is of another day. */
  lemma SpendMoves(uses: Uses, perDay: int, k: Addr, n: int, day: int)
    requires k != NoAddr && Spend(uses, perDay, k, n, day).1
    ensures var uses' := Spend(uses, perDay, k, n, day).0;
            && NoAddr in uses' && uses'[NoAddr] == Use(day, On(uses, NoAddr, day) + n)
            && Sum(ClientsOn(uses', day)) == Sum(ClientsOn(uses, day)) + n
  {
    var was := ClientsOn(uses, day);
    assert ClientsOn(Spend(uses, perDay, k, n, day).0, day) == was[k := On(uses, k, day) + n];
    SumUpdate(was, k, On(uses, k, day) + n);
  }

  lemma SpendBounded(uses: Uses, perDay: int, k: Addr, n: int, day: int)
    requires k != NoAddr && n >= 0 && Bounded(uses, perDay)
    ensures Bounded(Spend(uses, perDay, k, n, day).0, perDay)
  {
  }

  /** One event keeps the sum exactly when it does not reopen a day. */
  lemma SumKept(uses: Uses, perDay: int, e: Event)
    requires e.Charge? ==> e.ip != NoAddr && e.n >= 0
    requires Bounded(uses, perDay) && Summed(uses)
    ensures Bounded(Apply(uses, perDay, e), perDay)
    ensures Summed(Apply(uses, perDay, e)) <==> !Reopens(uses, perDay, e)
  {
    hide ClientsOn, Stands;
    match e {
      case Charge(ip, n, day) =>
        hide Spend, Bounded, Fits;
        var k := RateKey(ip);
        SpendBounded(uses, perDay, k, n, day);
        GrantedIffFits(uses, perDay, k, n, day);
        if Spend(uses, perDay, k, n, day).1 {
          SpendMoves(uses, perDay, k, n, day);
          StandsIff(uses, perDay, day);
        } else {
          SpendRefused(uses, perDay, k, n, day);
        }
      case Collect(day) =>
        SweepSame(uses, day);
    }
  }

  lemma SpendRefused(uses: Uses, perDay: int, k: Addr, n: int, day: int)
    requires !Spend(uses, perDay, k, n, day).1
    ensures Spend(uses, perDay, k, n, day).0 == uses
  {
  }

  lemma SweepSame(uses: Uses, day: int)
    ensures ClientsOn(Sweep(uses, day), day) == ClientsOn(uses, day)
  {
  }

  /** The sum holds after every event of a run. */
  ghost predicate SummedThroughout(perDay: int, es: seq<Event>) {
    es == [] || (SummedThroughout(perDay, es[..|es| - 1]) && Summed(Replay(perDay, es)))
  }

  ghost predicate NeverReopens(perDay: int, es: seq<Event>) {
    es == [] ||
    var p := es[..|es| - 1];
    NeverReopens(perDay, p) && !Reopens(Replay(perDay, p), perDay, es[|es| - 1])
  }

  /** So it does exactly when no charge of the run reopens a day. */
  lemma {:induction false} SumHoldsIff(perDay: int, es: seq<Event>)
    requires Proper(es)
    ensures SummedThroughout(perDay, es) <==> NeverReopens(perDay, es)
    ensures SummedThroughout(perDay, es) ==> Summed(Replay(perDay, es)) && Bounded(Replay(perDay, es), perDay)
  {
    hide Summed, Bounded, Reopens, Apply;
    if es == [] {
      NothingYet(perDay);
    } else {
      var p := es[..|es| - 1];
      SumHoldsIff(perDay, p);
      if SummedThroughout(perDay, p) {
        SumKept(Replay(perDay, p), perDay, es[|es| - 1]);
      }
    }
  }

  lemma NothingYet(perDay: int)
    ensures Summed(map[]) && Bounded(map[], perDay)
  {
  }

  /** A day of the year that comes back finds last year's client counters: the
      sum no longer matches the global counter. */
  lemma RecurringDayBreaksTheSum(a: Addr, b: Addr)
    requires a != NoAddr && b != NoAddr && RateKey(a) != RateKey(b)
    ensures var uses := Replay(0, [Charge(a, 1, 1), Charge(b, 1, 2), Charge(b, 1, 1)]);
            NoAddr in uses && uses[NoAddr] == Use(1, 1) && Sum(ClientsOn(uses, 1)) == 2
  {
    var e1, e2, e3 := Charge(a, 1, 1), Charge(b, 1, 2), Charge(b, 1, 1);
    ReplayThree(0, e1, e2, e3);
    ThreeSpends(RateKey(a), RateKey(b));
  }

  lemma ReplayThree(perDay: int, e1: Event, e2: Event, e3: Event)
    ensures Replay(perDay, [e1, e2, e3]) == Apply(Apply(Apply(map[], perDay, e1), perDay, e2), perDay, e3)
  {
    assert [e1, e2, e3][..2] == [e1, e2] && [e1, e2][..1] == [e1] && [e1][..0] == [];
    assert Replay(perDay, [e1]) == Apply(Replay(perDay, []), perDay, e1);
    assert Replay(perDay, [e1, e2]) == Apply(Replay(perDay, [e1]), perDay, e2);
  }

  lemma ThreeSpends(ka: Addr, kb: Addr)
    requires ka != NoAddr && kb != NoAddr && ka != kb
    ensures var uses := Spend(Spend(Spend(map[], 0, ka, 1, 1).0, 0, kb, 1, 2).0, 0, kb, 1, 1).0;
            NoAddr in uses && uses[NoAddr] == Use(1, 1) && Sum(ClientsOn(uses, 1)) == 2
  {
    var u1 := Spend(map[], 0, ka, 1, 1).0;
    assert u1 == map[ka := Use(1, 1), NoAddr := Use(1, 1)];
    var u2 := Spend(u1, 0, kb, 1, 2).0;
    assert u2 == u1[kb := Use(2, 1)][NoAddr := Use(2, 1)];
    var u3 := Spend(u2, 0, kb, 1, 1).0;
    assert u3 == u2[kb := Use(1, 1)][NoAddr := Use(1, 1)];
    var zero: map<Addr, int> := map[];
    assert ClientsOn(u3, 1) == zero[ka := 1][kb := 1];
    SumUpdate(zero, ka, 1);
    SumUpdate(zero[ka := 1], kb, 1);
  }
}
