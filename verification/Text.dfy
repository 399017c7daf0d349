/** The few string operations the classifier rests on. */
module Text {
  import opened Base

  predicate HasPrefix(s: string, p: string) { |p| <= |s| && s[..|p|] == p }

  predicate HasSuffix(s: string, p: string) { |p| <= |s| && s[|s| - |p|..] == p }

  predicate Contains(s: string, sub: string) {
    HasPrefix(s, sub) || (s != [] && Contains(s[1..], sub))
  }

  predicate StandsAt(s: string, sub: string, i: int) { 0 <= i <= |s| - |sub| && s[i..i + |sub|] == sub }

  /** A text holds words exactly when they stand somewhere in it. */
  lemma {:induction false} ContainsIff(s: string, sub: string)
    ensures Contains(s, sub) <==> exists i :: StandsAt(s, sub, i)
  {
    if HasPrefix(s, sub) {
      assert StandsAt(s, sub, 0);
    } else if s == [] {
      assert forall i :: !StandsAt(s, sub, i);
    } else {
      ContainsIff(s[1..], sub);
      forall i ensures StandsAt(s, sub, i) <==> StandsAt(s[1..], sub, i - 1) {
        if 0 < i <= |s| - |sub| { assert s[1..][i - 1..i - 1 + |sub|] == s[i..i + |sub|]; }
      }
      if i :| StandsAt(s[1..], sub, i) { assert StandsAt(s, sub, i + 1); }
    }
  }

  function TrimPrefix(s: string, p: string): string { if HasPrefix(s, p) then s[|p|..] else s }

  function TrimSuffix(s: string, p: string): string { if HasSuffix(s, p) then s[..|s| - |p|] else s }

  /** Splits at the first c: what stands before it and what follows it. */
  function Cut(s: string, c: char): (string, string) {
    if s == [] then ("", "")
    else if s[0] == c then ("", s[1..])
    else var (a, b) := Cut(s[1..], c); ([s[0]] + a, b)
  }

  // ---- decimal numbers ----

  function Decimal(n: nat): string {
    (if n < 10 then "" else Decimal(n / 10)) + [('0' as int + n % 10) as char]
  }

  function Itoa(n: int): string { if n < 0 then "-" + Decimal(-n) else Decimal(n) }

  predicate IsDigit(c: char) { '0' <= c <= '9' }

  function Undecimal(s: string): Option<nat> {
    if s == "" || !IsDigit(s[|s| - 1]) then None
    else
      var d := s[|s| - 1] as int - '0' as int;
      if |s| == 1 then Some(d)
      else match Undecimal(s[..|s| - 1]) case None => None case Some(n) => Some(10 * n + d)
  }

  /** strconv.Atoi without its range check. */
  function Atoi(s: string): Option<int> {
    if s != "" && (s[0] == '-' || s[0] == '+') then
      match Undecimal(s[1..]) case None => None case Some(n) => var v: int := n; Some(if s[0] == '-' then -v else v)
    else match Undecimal(s) case None => None case Some(n) => Some(n)
  }

  lemma {:induction false} DecimalRoundTrip(n: nat)
    ensures Decimal(n) != "" && (forall i :: 0 <= i < |Decimal(n)| ==> IsDigit(Decimal(n)[i]))
    ensures Undecimal(Decimal(n)) == Some(n)
  {
    var s := Decimal(n);
    if n >= 10 {
      DecimalRoundTrip(n / 10);
      assert s[..|s| - 1] == Decimal(n / 10);
    } else {
      assert s[..|s| - 1] == "";
    }
  }

  lemma ItoaRoundTrip(n: int)
    ensures Atoi(Itoa(n)) == Some(n)
    ensures forall i :: 0 <= i < |Itoa(n)| ==> IsDigit(Itoa(n)[i]) || Itoa(n)[i] == '-'
  {
    DecimalRoundTrip(if n < 0 then -n else n);
    var s := Itoa(n);
    if n < 0 {
      assert s[1..] == Decimal(-n);
    } else {
      assert IsDigit(s[0]);
    }
  }

  // ---- splitting is unambiguous ----

  predicate Free(s: string, c: char) { c !in s }

  lemma {:induction false} CutJoin(a: string, b: string, c: char)
    requires Free(a, c)
    ensures Cut(a + [c] + b, c) == (a, b)
  {
    var s := a + [c] + b;
    if a == [] {
      assert s == [c] + b;
    } else {
      assert s[1..] == a[1..] + [c] + b;
      CutJoin(a[1..], b, c);
      assert a == [a[0]] + a[1..];
    }
  }

  lemma JoinInjective(a: string, b: string, a': string, b': string, c: char)
    requires Free(a, c) && Free(a', c)
    requires a + [c] + b == a' + [c] + b'
    ensures a == a' && b == b'
  {
    CutJoin(a, b, c);
    CutJoin(a', b', c);
  }

  // ---- alphabetical order ----

  predicate StringLe(a: string, b: string) {
    a == "" || (b != "" && (a[0] < b[0] || (a[0] == b[0] && StringLe(a[1..], b[1..]))))
  }

  /** One text comes before another exactly when it is the start of it, or has the lower
      character at the first place where they differ. */
  lemma {:induction false} StringLeIff(a: string, b: string)
    ensures StringLe(a, b) <==> a <= b || Lower(a, b)
  {
    if a != "" && b != "" {
      var s, t := a[1..], b[1..];
      if a[0] == b[0] {
        StringLeIff(s, t);
        assert a <= b <==> s <= t by { assert a == [a[0]] + s && b == [b[0]] + t; }
        if i :| LowerAt(s, t, i) { assert LowerAt(a, b, i + 1); }
        if i :| LowerAt(a, b, i) { assert i > 0 && LowerAt(s, t, i - 1); }
      } else if a[0] < b[0] {
        assert LowerAt(a, b, 0);
      } else {
        forall i ensures !LowerAt(a, b, i) { assert i > 0 && i <= |a| && i <= |b| ==> a[..i][0] != b[..i][0]; }
      }
    }
  }

  predicate LowerAt(a: string, b: string, i: int) { 0 <= i < |a| && i < |b| && a[..i] == b[..i] && a[i] < b[i] }

  ghost predicate Lower(a: string, b: string) { exists i :: LowerAt(a, b, i) }

  lemma {:induction false} StringLeTotal(a: string, b: string)
    ensures StringLe(a, b) || StringLe(b, a)
    ensures StringLe(a, b) && StringLe(b, a) ==> a == b
  {
    if a != "" && b != "" && a[0] == b[0] {
      StringLeTotal(a[1..], b[1..]);
      assert a == [a[0]] + a[1..] && b == [b[0]] + b[1..];
    }
  }

  lemma {:induction false} StringLeTransitive(a: string, b: string, c: string)
    requires StringLe(a, b) && StringLe(b, c)
    ensures StringLe(a, c)
  {
    if a != "" && a[0] == b[0] && b[0] == c[0] { StringLeTransitive(a[1..], b[1..], c[1..]); }
  }
}
