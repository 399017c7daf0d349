/** Small shared vocabulary: optional values, sums over maps, addresses. */
module Base {
  /** Times and durations are nanoseconds. */
  const SECOND: int := 1_000_000_000

  datatype Option<+T> = None | Some(value: T)

  function Max(a: int, b: int): int { if a < b then b else a }

  function Min(a: int, b: int): int { if a < b then a else b }

  /** The concatenation of a list of pieces. */
  function Concat<T>(pieces: seq<seq<T>>): seq<T> {
    if pieces == [] then [] else pieces[0] + Concat(pieces[1..])
  }
}

/** Sums over finite maps. */
module Sums {
  ghost function Sum<K(!new)>(m: map<K, int>): int
    decreases |m|
  {
    if m == map[] then 0
    else
      var k :| k in m;
      m[k] + Sum(m - {k})
  }

  lemma {:induction false} SumRemove<K(!new)>(m: map<K, int>, k: K)
    requires k in m
    ensures Sum(m) == m[k] + Sum(m - {k})
    decreases |m|
  {
    var j :| j in m && Sum(m) == m[j] + Sum(m - {j});
    if j != k {
      SumRemove(m - {j}, k);
      SumRemove(m - {k}, j);
      assert m - {j} - {k} == m - {k} - {j};
    }
  }

  lemma SumUpdate<K(!new)>(m: map<K, int>, k: K, v: int)
    ensures Sum(m[k := v]) == Sum(m - {k}) + v
    ensures Sum(m[k := v]) == Sum(m) + v - if k in m then m[k] else 0
  {
    SumRemove(m[k := v], k);
    assert m[k := v] - {k} == m - {k};
    if k in m {
      SumRemove(m, k);
    } else {
      assert m - {k} == m;
    }
  }

  lemma {:induction false} SumShrinks<K(!new)>(m: map<K, int>, n: map<K, int>)
    requires forall k :: k in m ==> k in n && m[k] <= n[k]
    requires forall k :: k in n ==> n[k] >= 0
    ensures Sum(m) <= Sum(n)
    decreases |n|
  {
    if n != map[] {
      var k :| k in n;
      SumRemove(n, k);
      SumShrinks(m - {k}, n - {k});
      if k in m { SumRemove(m, k); } else { assert m - {k} == m; }
    } else {
      assert m == map[];
    }
  }

  lemma {:induction false} SumBounds<K(!new)>(m: map<K, int>)
    requires forall k :: k in m ==> m[k] >= 0
    ensures Sum(m) >= 0
    ensures forall k :: k in m ==> m[k] <= Sum(m)
    decreases |m|
  {
    if m != map[] {
      forall k | k in m
        ensures 0 <= m[k] <= Sum(m)
      {
        SumRemove(m, k);
        SumBounds(m - {k});
      }
      var k :| k in m;
    }
  }
}

/** IP addresses as net/netip keeps them. */
module Addresses {
  /** NoAddr is the zero netip.Addr; Mapped is an IPv4 address written as
      ::ffff:a.b.c.d; V6 is any other IPv6 address, as its two 64-bit halves. */
  datatype Addr = NoAddr | V4(bits: nat) | Mapped(bits: nat, zone: string) | V6(hi: nat, lo: nat, zone: string)

  function Unmap(a: Addr): Addr { if a.Mapped? then V4(a.bits) else a }

  /** What a rate limit counts as one client: the address for IPv4, the /64 for IPv6. */
  function RateKey(a: Addr): (k: Addr)
    ensures k == NoAddr <==> a == NoAddr
  {
    match Unmap(a)
    case V6(hi, _, _) => V6(hi, 0, "")
    case u => u
  }

  /** Two addresses count as one client exactly when they are the same IPv4 address,
      written either way, or share the upper half of an IPv6 address. */
  lemma SameClient(a: Addr, b: Addr)
    ensures RateKey(a) == RateKey(b)
       <==> match (Unmap(a), Unmap(b))
            case (V4(m), V4(n)) => m == n
            case (V6(h, _, _), V6(k, _, _)) => h == k
            case (NoAddr, NoAddr) => true
            case _ => false
    ensures forall n: nat, z: string :: RateKey(Mapped(n, z)) == RateKey(V4(n)) == V4(n)
    ensures RateKey(RateKey(a)) == RateKey(a)
  {
  }
}
