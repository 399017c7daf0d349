/** Stored reports read again (internal/client/merge.go): what an older attempt
    means to this build, when the server saw its flow, and the merge table. */
module Remerge {
  import opened Base
  import opened Text
  import opened Evidence

  // ---- numbers in text ----

  /** strconv.Atoi with its error dropped: 0 for no number, the nearest bound for one out of range. */
  function Int(s: string): int {
    match Atoi(s)
    case None => 0
    case Some(n) => Max(-0x8000_0000_0000_0000, Min(n, 0x7FFF_FFFF_FFFF_FFFF))
  }

  predicate IsInt(s: string) {
    Atoi(s).Some? && -0x8000_0000_0000_0000 <= Atoi(s).value <= 0x7FFF_FFFF_FFFF_FFFF
  }

  /** The nearest whole number, of two equally near ones the even one. */
  function Nearest(x: real): int {
    var n := x.Floor;
    var rest := x - n as real;
    if rest < 0.5 || (rest == 0.5 && n % 2 == 0) then n else n + 1
  }

  /** A number printed without decimals. */
  function Whole(x: real): (s: string)
    ensures s != ""
  {
    var n := Nearest(x);
    if n == 0 && x < 0.0 then "-0" else
      ItoaRoundTrip(n);
      Itoa(n)
  }

  /** Nanoseconds as milliseconds, cut to microseconds. */
  function Millis(ns: int): real { (if ns < 0 then -(-ns / 1000) else ns / 1000) as real / 1000.0 }

  /** ParseFloat, as the reports are read: a parameter. */
  type ParseReal = string -> Option<real>

  // ---- a disagreement between resolvers, judged again ----

  datatype ServeResult = ServeResult(handshake: bool, chain: string, why: string, outcome: string)

  function ServeResultFrom(why: string): ServeResult {
    var (stage, what) := Cut(why, ':');
    if what == "ok" && stage != "cert" then ServeResult(true, "true", why, "")
    else if stage == "cert" then ServeResult(true, what, why, "")
    else ServeResult(false, "", why, what)
  }

  predicate Unfinished(r: ServeResult) {
    r.outcome == CONNECT_TIMEOUT || r.outcome == PAYLOAD_TIMEOUT || r.outcome == SERVER_ERROR
    || r.outcome == SKIPPED || r.outcome == INCONCLUSIVE
  }

  datatype Disagreement = GeoDns | Poisoned | Unverified | NeitherServes

  function JudgeDisagreement(sys: ServeResult, tr: ServeResult): Disagreement {
    var sysServes := sys.handshake && (sys.chain == "true" || (tr.handshake && tr.chain != "true"));
    var trServes := tr.handshake && (tr.chain == "true" || !sys.handshake);
    if sysServes then GeoDns
    else if Unfinished(sys) || (!trServes && Unfinished(tr)) then Unverified
    else if trServes then Poisoned
    else NeitherServes
  }

  function Verdict(a: Attempt): Disagreement {
    JudgeDisagreement(ServeResultFrom(Get(a.detail, VerifySystem)), ServeResultFrom(Get(a.detail, VerifyTrusted)))
  }

  predicate Disputed(a: Attempt) {
    a.testID == "dest.dns" && a.outcome == DNS_MISMATCH && Get(a.detail, Tamper) == "system_address_fails"
  }

  function UnverifiedNote(d: Detail): string {
    "the check did not finish " + "(" + "system address " + Get(d, VerifyIP) + ":" + " " + Get(d, VerifySystem) + ";"
    + " trusted address" + ":" + " " + Get(d, VerifyTrusted) + ")" + ": the disagreement is not verified"
  }

  // ---- reset timing ----

  const RTT_MAX_CONNECT: real := 1000.0
  const RTT_EARLY_SHARE: real := 0.8

  /** How long after the ClientHello the reset came, and the connect time before it. */
  function ResetTiming(a: Attempt): Option<(real, real)> {
    if a.outcome != MIDSTREAM_RESET then None
    else if Connect !in a.stages || FirstWrite !in a.stages || Done !in a.stages then None
    else if a.stages[Connect] <= 0.0 || a.stages[Done] < a.stages[FirstWrite] then None
    else Some((a.stages[Done] - a.stages[FirstWrite], a.stages[Connect]))
  }

  predicate BeforeRTT(resetMs: real, rttMs: real) {
    0.0 < rttMs < RTT_MAX_CONNECT && resetMs < RTT_EARLY_SHARE * rttMs
  }

  function WithResetTiming(a: Attempt): Attempt {
    match ResetTiming(a)
    case None => a
    case Some((reset, rtt)) =>
      var d := a.detail[ResetMs := Whole(reset)];
      a.(detail := if BeforeRTT(reset, rtt) then d[ResetBeforeRTT := "true"] else d)
  }

  // ---- reinterpret ----

  const LOCAL_SYNC_MS: real := 5.0

  /** How long a failed connect took, in milliseconds. */
  function ConnectFailedAt(a: Attempt): real {
    if Done !in a.stages then 1073741824.0
    else a.stages[Done] - if FirstWrite in a.stages then a.stages[FirstWrite] else 0.0
  }

  function HostFailure(a: Attempt): Attempt {
    var name := LocalFailure(a);
    if name == "" || Get(a.detail, LocalError) != "" then a
    else
      var b := a.(detail := a.detail[LocalError := name]);
      if a.outcome != INCONCLUSIVE && a.outcome != SKIPPED then b.(outcome := SERVER_ERROR) else b
  }

  function InstantTimeout(a: Attempt): Attempt {
    if a.outcome == CONNECT_TIMEOUT && Get(a.detail, LocalError) == "" && ConnectFailedAt(a) < LOCAL_SYNC_MS
    then a.(detail := a.detail[LocalError := NO_ROUTE], outcome := SERVER_ERROR)
    else a
  }

  function Rejudged(a: Attempt): Attempt {
    if !Disputed(a) then a
    else
      match Verdict(a)
      case Poisoned => a
      case Unverified =>
        var d := a.detail - {Tamper};
        a.(detail := d[Note := UnverifiedNote(d)], outcome := INCONCLUSIVE, error := UnverifiedNote(d))
      case _ => a.(detail := a.detail - {Tamper}, outcome := OK, error := "")
  }

  function Timed(a: Attempt): Attempt {
    if a.testID == "dest.tls" && Get(a.detail, ResetMs) == "" then WithResetTiming(a) else a
  }

  function Reinterpreted(a: Attempt): Attempt {
    if a.outcome == OK then a else Timed(Rejudged(InstantTimeout(HostFailure(a))))
  }

  /** The note a reading writes holds words that are read as a failure of the host. */
  predicate Misread(a: Attempt) {
    && Disputed(a) && Verdict(a) == Unverified && Get(a.detail, LocalError) == ""
    && HostWords(UnverifiedNote(a.detail - {Tamper}), Get(a.detail, SystemError)) != ""
  }

  /** Nothing of the host's own is left to mark. */
  predicate Settled(a: Attempt) { HostFailure(a) == a && InstantTimeout(a) == a }

  lemma Settles(a: Attempt)
    requires a.outcome != OK
    ensures Settled(InstantTimeout(HostFailure(a))) && InstantTimeout(HostFailure(a)).outcome != OK
    ensures InstantTimeout(HostFailure(a)).testID == a.testID
  {
    hide HostWords;
  }

  lemma Rejudges(b: Attempt)
    requires Settled(b) && b.outcome != OK
    ensures var c := Rejudged(b);
            && c.testID == b.testID && Rejudged(c) == c
            && (c.outcome == OK || (Settled(c) <==> !Misread(b)))
            && (Misread(b) ==> c.outcome != OK && c.testID != "dest.tls")
  {
    hide HostWords, ServeResultFrom, JudgeDisagreement, UnverifiedNote, ConnectFailedAt;
    var c := Rejudged(b);
    if Disputed(b) && Verdict(b) == Unverified {
      assert c.outcome == INCONCLUSIVE && Get(c.detail, LocalError) == Get(b.detail, LocalError);
      assert Get(c.detail, SystemError) == Get(b.detail, SystemError);
    }
  }

  lemma Times(c: Attempt)
    ensures var d := Timed(c);
            && Timed(d) == d && d.outcome == c.outcome && Rejudged(d) == (if d == c then Rejudged(c) else d)
            && (Settled(d) <==> Settled(c))
  {
    hide HostWords, Whole, ConnectFailedAt, UnverifiedNote;
    var d := Timed(c);
    assert Get(d.detail, LocalError) == Get(c.detail, LocalError)
        && Get(d.detail, SystemError) == Get(c.detail, SystemError);
    if d != c {
      assert !Disputed(d) && Get(d.detail, ResetMs) != "";
      SettledAlike(c, d);
    }
  }

  lemma SettledAlike(c: Attempt, d: Attempt)
    requires d == c.(detail := d.detail)
    requires Get(d.detail, LocalError) == Get(c.detail, LocalError)
            && Get(d.detail, SystemError) == Get(c.detail, SystemError)
    ensures Settled(d) <==> Settled(c)
  {
    hide HostWords;
  }

  lemma MisreadShows(b: Attempt)
    requires Misread(b)
    ensures var c := Rejudged(b);
            Timed(c) == c && Get(c.detail, LocalError) == "" && Get(Reinterpreted(c).detail, LocalError) != ""
  {
    hide HostWords, ServeResultFrom, JudgeDisagreement, UnverifiedNote, ConnectFailedAt;
    var c := Rejudged(b);
    assert c.outcome == INCONCLUSIVE && Get(c.detail, LocalError) == ""
        && Get(c.detail, SystemError) == Get(b.detail, SystemError);
    var e := InstantTimeout(HostFailure(c));
    assert Get(e.detail, LocalError) != "" && e.outcome == INCONCLUSIVE && e.testID == "dest.dns";
  }

  lemma SecondReading(a: Attempt)
    ensures Reinterpreted(Reinterpreted(a)) == Reinterpreted(a)
       <==> a.outcome == OK || !Misread(InstantTimeout(HostFailure(a)))
    ensures a.outcome != OK && Misread(InstantTimeout(HostFailure(a))) ==>
              Get(Reinterpreted(Reinterpreted(a)).detail, LocalError) != Get(Reinterpreted(a).detail, LocalError)
  {
    hide HostFailure, InstantTimeout, Rejudged, Timed, Misread;
    if a.outcome != OK {
      var b := InstantTimeout(HostFailure(a));
      Settles(a);
      Rejudges(b);
      Times(Rejudged(b));
      if Misread(b) {
        MisreadShows(b);
      }
    }
  }

  /** The attempts a second reading reads differently: nothing about them points
      to the host, but the note the first reading writes does. */
  predicate Fragile(a: Attempt) { Misread(a) && LocalFailure(a) == "" }

  lemma FragileBefore(a: Attempt)
    requires a.outcome != OK
    ensures Misread(InstantTimeout(HostFailure(a))) <==> Fragile(a)
  {
    hide HostWords, ServeResultFrom, JudgeDisagreement, UnverifiedNote, ConnectFailedAt;
    var b := HostFailure(a);
    if LocalFailure(a) != "" && Get(a.detail, LocalError) == "" {
      assert Get(b.detail, LocalError) != "";
    } else {
      assert b == a;
    }
  }

  /** Reading a report again changes nothing more, exactly when the attempt is not fragile. */
  lemma ReinterpretTwice(a: Attempt)
    ensures Reinterpreted(Reinterpreted(a)) == Reinterpreted(a) <==> !Fragile(a)
    ensures Fragile(a) ==> Get(Reinterpreted(Reinterpreted(a)).detail, LocalError) != Get(Reinterpreted(a).detail,
            LocalError)
  {
    hide Reinterpreted, HostFailure, InstantTimeout, Verdict, HostWords;
    SecondReading(a);
    if a.outcome != OK { FragileBefore(a); }
  }

  lemma EmptyHolds(sub: string)
    requires sub != ""
    ensures !Contains("", sub)
  {
  }

  lemma TimedOutCheck()
    ensures ServeResultFrom("tls:payload_timeout") == ServeResult(false, "", "tls:payload_timeout", PAYLOAD_TIMEOUT)
  {
    assert "tls:payload_timeout" == "tls" + [':'] + PAYLOAD_TIMEOUT;
    CutJoin("tls", PAYLOAD_TIMEOUT, ':');
  }

  const ABORT := "software caused connection abort"
  const EPERM := "operation not permitted"

  /** The words that an error text is searched for. */
  predicate HasHostWords(s: string) { Contains(s, ABORT) || Contains(s, EPERM) }

  // Words across the pieces of a text.

  lemma {:induction false} ContainsTransitive(s: string, t: string, w: string)
    requires Contains(s, t) && Contains(t, w)
    ensures Contains(s, w)
  {
    if HasPrefix(s, t) {
      ContainsLonger(t, s[|t|..], w);
      assert s == t + s[|t|..];
    } else {
      ContainsTransitive(s[1..], t, w);
    }
  }

  lemma {:induction false} ContainsLonger(t: string, rest: string, w: string)
    requires Contains(t, w)
    ensures Contains(t + rest, w)
  {
    if HasPrefix(t, w) {
      assert (t + rest)[..|w|] == w;
    } else {
      ContainsLonger(t[1..], rest, w);
      assert (t + rest)[1..] == t[1..] + rest;
    }
  }

  lemma PrefixBefore(u: string, sep: char, v: string, w: string)
    requires sep !in w
    ensures HasPrefix(u + [sep] + v, w) <==> HasPrefix(u, w)
  {
    var s := u + [sep] + v;
    if |u| < |w| <= |s| {
      assert s[..|w|][|u|] == sep;
    } else if |w| <= |u| {
      assert s[..|w|] == u[..|w|];
    }
  }

  /** Words without the separator stand on one side of it. */
  lemma {:induction false} ContainsEitherSide(u: string, sep: char, v: string, w: string)
    requires sep !in w && w != ""
    ensures Contains(u + [sep] + v, w) <==> Contains(u, w) || Contains(v, w)
  {
    var s := u + [sep] + v;
    PrefixBefore(u, sep, v, w);
    if u == "" {
      assert s[1..] == v;
    } else {
      ContainsEitherSide(u[1..], sep, v, w);
      assert s[1..] == u[1..] + [sep] + v;
    }
  }

  /** Words that do not begin in a lead are in what follows it. */
  predicate Unlike(lead: string, w: string)
    requires |w| >= 2
  {
    forall i :: 0 <= i < |lead| ==> lead[i] != w[0] || (i + 1 < |lead| && lead[i + 1] != w[1])
  }

  lemma NotHere(lead: string, s: string, w: string)
    requires |w| >= 2 && lead != "" && Unlike(lead, w)
    ensures !HasPrefix(lead + s, w)
  {
    var t, i := lead + s, 0;
    assert lead[i] != w[0] || (i + 1 < |lead| && lead[i + 1] != w[1]);
    assert t[0] == lead[0] && (|lead| > 1 ==> t[1] == lead[1]);
    if |w| <= |t| {
      assert t[..|w|][0] == t[0] && t[..|w|][1] == t[1];
    }
  }

  lemma {:induction false} ContainsAfter(lead: string, s: string, w: string)
    requires |w| >= 2 && Unlike(lead, w)
    ensures Contains(lead + s, w) <==> Contains(s, w)
  {
    if lead == "" {
      assert lead + s == s;
    } else {
      NotHere(lead, s, w);
      var rest := lead[1..];
      forall i | 0 <= i < |rest| ensures rest[i] != w[0] || (i + 1 < |rest| && rest[i + 1] != w[1]) {
        var k := i + 1;
        assert lead[k] != w[0] || (k + 1 < |lead| && lead[k + 1] != w[1]);
        assert rest[i] == lead[k] && (i + 1 < |rest| ==> rest[i + 1] == lead[k + 1]);
      }
      ContainsAfter(rest, s, w);
      assert (lead + s)[1..] == rest + s;
    }
  }

  lemma {:induction false} Lacks(t: string, x: char, w: string)
    requires x in w && x !in t
    ensures !Contains(t, w)
  {
    if |w| <= |t| {
      var i :| 0 <= i < |w| && w[i] == x;
      assert t[..|w|][i] == t[i];
    }
    if t != "" { Lacks(t[1..], x, w); }
  }

  predicate IsHostWord(w: string) { w == ABORT || w == EPERM }

  /** A letter of each of them that the fixed parts of the note do not have. */
  function Telltale(w: string): char { if w == ABORT then 'w' else 'p' }

  lemma AbortWord()
    ensures ':' !in ABORT && ';' !in ABORT && '(' !in ABORT && ')' !in ABORT && |ABORT| == 32
    ensures ABORT[0] == 's' && ABORT[1] == 'o' && 'w' in ABORT
  {
    assert ABORT[4] == 'w';
  }

  lemma EpermWord()
    ensures ':' !in EPERM && ';' !in EPERM && '(' !in EPERM && ')' !in EPERM && |EPERM| == 23
    ensures EPERM[0] == 'o' && EPERM[1] == 'p' && 'p' in EPERM
  {
  }

  lemma HostWord(w: string)
    requires IsHostWord(w)
    ensures |w| >= 2 && ':' !in w && ';' !in w && '(' !in w && ')' !in w && Telltale(w) in w && w[0] != ' '
    ensures (w[0] == 's' || w[0] == 'o') && (w[1] == 'o' || w[1] == 'p')
  {
    AbortWord();
    EpermWord();
  }

  lemma NoteStart(w: string)
    requires IsHostWord(w)
    ensures !Contains("the check did not finish ", w)
  {
    hide Contains, IsHostWord, HasPrefix;
    HostWord(w);
    assert 'w' !in "the check did not finish " && 'p' !in "the check did not finish ";
    Lacks("the check did not finish ", Telltale(w), w);
  }

  lemma NoteLabel(w: string)
    requires IsHostWord(w)
    ensures !Contains(" trusted address", w)
  {
    hide Contains, IsHostWord, HasPrefix;
    HostWord(w);
    assert 'w' !in " trusted address" && 'p' !in " trusted address";
    Lacks(" trusted address", Telltale(w), w);
  }

  lemma NoTelltale()
    ensures 'w' !in ": the disagreement is not verified" && 'p' !in ": the disagreement is not verified"
  {
  }

  lemma NoteEnd(w: string)
    requires IsHostWord(w)
    ensures !Contains(": the disagreement is not verified", w)
  {
    hide Contains, IsHostWord, HasPrefix;
    HostWord(w);
    NoTelltale();
    Lacks(": the disagreement is not verified", Telltale(w), w);
  }

  lemma Leads(w: string)
    requires IsHostWord(w)
    ensures |w| >= 2 && Unlike(" ", w) && Unlike("system address ", w)
  {
    hide IsHostWord;
    HostWord(w);
    var lead := "system address ";
    forall i | 0 <= i < |lead| ensures lead[i] != w[0] || (i + 1 < |lead| && lead[i + 1] != w[1]) {
      assert lead[i] != 'o' && lead[i] != 'p';
    }
  }

  /** What the note says of the host is what the address or one of the checks says. */
  lemma NoteWords(d: Detail, w: string)
    requires IsHostWord(w)
    ensures Contains(UnverifiedNote(d), w)
       <==> Contains(Get(d, VerifyIP), w) || Contains(Get(d, VerifySystem), w) || Contains(Get(d, VerifyTrusted), w)
  {
    hide Contains, IsHostWord;
    var ip, sys, tr := Get(d, VerifyIP), Get(d, VerifySystem), Get(d, VerifyTrusted);
    NoteStart(w);
    NoteLabel(w);
    NoteEnd(w);
    HostWord(w);
    NoteParts(d);
    ContainsEitherSide("the check did not finish ", '(', FromAddress(d), w);
    ContainsEitherSide("system address " + ip, ':', FromSystem(d), w);
    ContainsEitherSide(" " + sys, ';', FromLabel(d), w);
    ContainsEitherSide(" trusted address", ':', FromTrusted(d), w);
    ContainsEitherSide(" " + tr, ')', ": the disagreement is not verified", w);
    Leads(w);
    ContainsAfter("system address ", ip, w);
    ContainsAfter(" ", sys, w);
    ContainsAfter(" ", tr, w);
  }

  // The note from each of its separators on.

  function FromTrusted(d: Detail): string { " " + Get(d, VerifyTrusted) + [')'] + ": the disagreement is not verified" }

  function FromLabel(d: Detail): string { " trusted address" + [':'] + FromTrusted(d) }

  function FromSystem(d: Detail): string { " " + Get(d, VerifySystem) + [';'] + FromLabel(d) }

  function FromAddress(d: Detail): string { "system address " + Get(d, VerifyIP) + [':'] + FromSystem(d) }

  lemma NoteParts(d: Detail)
    ensures UnverifiedNote(d) == "the check did not finish " + ['('] + FromAddress(d)
  {
    Regroup("the check did not finish ", "(", "system address ", Get(d, VerifyIP), ":", " ", Get(d, VerifySystem),
        ";", " trusted address",
            Get(d, VerifyTrusted), ")", ": the disagreement is not verified");
  }

  lemma Regroup(a: string, b: string, c: string, ip: string, e: string, f: string, sys: string, g: string, h: string,
      tr: string, k: string, l: string)
    ensures a + b + c + ip + e + f + sys + g + h + e + f + tr + k + l == a + b
            + (c + ip + e + (f + sys + g + (h + e + (f + tr + k + l))))
  {
  }

  /** When an attempt on an ordinary address is fragile: a disagreement that did not
      finish, nothing that points to the host, and a check that quotes its words. */
  lemma FragileIff(a: Attempt)
    requires !HasHostWords(Get(a.detail, VerifyIP))
    ensures Fragile(a) <==> Disputed(a) && Verdict(a) == Unverified && LocalFailure(a) == ""
                            && (HasHostWords(Get(a.detail, VerifySystem)) || HasHostWords(Get(a.detail, VerifyTrusted)))
  {
    hide Contains, UnverifiedNote, ServeResultFrom, JudgeDisagreement;
    var d := a.detail - {Tamper};
    assert Get(d, VerifyIP) == Get(a.detail, VerifyIP) && Get(d, VerifySystem) == Get(a.detail, VerifySystem)
           && Get(d, VerifyTrusted) == Get(a.detail, VerifyTrusted);
    NoteWords(d, ABORT);
    NoteWords(d, EPERM);
  }

  /** The text a build writes with such a disagreement quotes both checks. */
  function PoisonedNote(ip: string, sys: string, trusted: string, tr: string): string {
    "system address " + ip + " does not serve the name (" + sys + ") while trusted address " + trusted + " does ("
        + tr + "): poisoning"
  }

  lemma PoisonedNoteQuotes(ip: string, sys: string, trusted: string, tr: string)
    ensures Contains(PoisonedNote(ip, sys, trusted, tr), sys) && Contains(PoisonedNote(ip, sys, trusted, tr), tr)
  {
    hide Contains;
    var lead := "system address " + ip + " does not serve the name (";
    var rest := ") while trusted address " + trusted + " does (" + tr + "): poisoning";
    assert PoisonedNote(ip, sys, trusted, tr) == lead + sys + rest;
    ContainsMiddle(lead, sys, rest);
    var lead' := lead + sys + ") while trusted address " + trusted + " does (";
    assert PoisonedNote(ip, sys, trusted, tr) == lead' + tr + "): poisoning";
    ContainsMiddle(lead', tr, "): poisoning");
  }

  /** An attempt as a build records it: the error of a disagreement quotes both checks,
      and its address spells none of the words. */
  predicate Recorded(a: Attempt) {
    Disputed(a) ==> && Contains(a.error, Get(a.detail, VerifySystem)) && Contains(a.error, Get(a.detail, VerifyTrusted))
                    && !HasHostWords(Get(a.detail, VerifyIP))
  }

  /** No such attempt is fragile: the words a check would bring into the note are
      in its error already, and the first reading finds them. */
  lemma RecordedIsNotFragile(a: Attempt)
    requires Recorded(a)
    ensures !Fragile(a)
  {
    hide Contains, Verdict;
    if Disputed(a) {
      FragileIff(a);
      QuotedWord(a, ABORT);
      QuotedWord(a, EPERM);
    }
  }

  lemma QuotedWord(a: Attempt, w: string)
    requires Contains(a.error, Get(a.detail, VerifySystem)) && Contains(a.error, Get(a.detail, VerifyTrusted))
    ensures Contains(Get(a.detail, VerifySystem), w) || Contains(Get(a.detail, VerifyTrusted), w)
            ==> Contains(a.error, w)
  {
    hide Contains;
    if Contains(Get(a.detail, VerifySystem), w) {
      ContainsTransitive(a.error, Get(a.detail, VerifySystem), w);
    } else if Contains(Get(a.detail, VerifyTrusted), w) {
      ContainsTransitive(a.error, Get(a.detail, VerifyTrusted), w);
    }
  }

  lemma WrittenIsNotFragile(a: Attempt, trusted: string)
    requires a.error == PoisonedNote(Get(a.detail, VerifyIP), Get(a.detail, VerifySystem), trusted,
            Get(a.detail, VerifyTrusted))
    requires !HasHostWords(Get(a.detail, VerifyIP))
    ensures !Fragile(a)
  {
    hide Contains, Fragile, PoisonedNote;
    PoisonedNoteQuotes(Get(a.detail, VerifyIP), Get(a.detail, VerifySystem), trusted, Get(a.detail, VerifyTrusted));
    RecordedIsNotFragile(a);
  }

  /** Without that text there are fragile attempts: the system check timed out, and
      the trusted one quotes a certificate error that spells the words. */
  lemma SomeFragile(a: Attempt)
    requires a.testID == "dest.dns" && a.outcome == DNS_MISMATCH && a.error == ""
    requires a.detail == map[Tamper := "system_address_fails", VerifyIP := "192.0.2.1",
            VerifySystem := "tls:payload_timeout",
                             VerifyTrusted := "cert:x509: system roots: operation not permitted"]
    ensures Fragile(a)
  {
    hide Contains, ServeResultFrom, UnverifiedNote;
    TimedOutCheck();
    PlainAddress();
    ContainsMiddle("cert:x509: system roots: ", EPERM, "");
    assert "cert:x509: system roots: operation not permitted" == "cert:x509: system roots: " + EPERM + "";
    EmptyHolds(ABORT);
    EmptyHolds(EPERM);
    EmptyHolds("resNetworkResult failed: ECONNREFUSED");
    FragileIff(a);
  }

  lemma PlainAddress()
    ensures !HasHostWords("192.0.2.1")
  {
    ContainsAfter("192.0.2.1", "", ABORT);
    ContainsAfter("192.0.2.1", "", EPERM);
    assert "192.0.2.1" + "" == "192.0.2.1";
  }

  lemma {:induction false} ContainsMiddle(before: string, words: string, after: string)
    ensures Contains(before + words + after, words)
  {
    var s := before + words + after;
    if before == "" {
      assert s[..|words|] == words;
    } else {
      ContainsMiddle(before[1..], words, after);
      assert s[1..] == before[1..] + words + after;
    }
  }

  // ---- when the server saw the flow ----

  function WithServerDelay(a: Attempt, o: Observation, skew: int): Attempt {
    if o.firstSeenAt == 0 || a.startedAt == 0 then a
    else
      var sent := if FirstWrite in a.stages then a.stages[FirstWrite]
          else if Connect in a.stages then a.stages[Connect] else 0.0;
      a.(detail := a.detail[ServerDelayMs := Whole(Millis(o.firstSeenAt - skew - a.startedAt) - sent)])
  }

  predicate PastDeadline(a: Attempt, parse: ParseReal) {
    match parse(Get(a.detail, ServerDelayMs))
    case None => false
    case Some(delay) => Done in a.stages && delay > a.stages[Done] + 1000.0
  }

  // ---- the merge table ----

  predicate Waited(o: Observation) {
    || Contains(o.serverError, "i/o timeout") || HasSuffix(o.serverError, "EOF")
        || Contains(o.serverError, "connection reset")
    || o.close == "timeout" || o.close == "client_eof" || o.close == "client_reset"
  }

  predicate TimedOut(error: string) {
    || Contains(error, "deadline exceeded") || Contains(error, "i/o timeout")
    || Contains(error, "timeout: no recent network activity") || Contains(error, "Handshake did not complete in time")
  }

  const UPLINK_DROP := "uplink_drop_or_route_failure"

  function MergeTimeout(a: Attempt, parse: ParseReal): string {
    match a.server
    case None => UPLINK_DROP
    case Some(s) =>
      if a.outcome == CONNECT_TIMEOUT && a.transport == "tcp" then "connect_diverged_middlebox_or_misattributed"
      else if Get(s.detail, Cookie) == "invalid" then "cookie_mismatch_nat_or_multipath"
      else if Get(s.detail, Mac) == "invalid" then "uplink_modified"
      else if PastDeadline(a, parse) then "uplink_delayed_past_deadline"
      else if s.replied || s.bytesOut > 0 then "downlink_drop"
      else if a.transport == "tcp" && s.bytesIn == 0 && s.parse == "empty" then UPLINK_DROP
      else if s.serverError != "" && Waited(s) then UPLINK_DROP
      else if s.serverError != "" then "server_error"
      else if s.response == "silence" || s.response == "refused" || s.response == "" then "server_silent"
      else "downlink_drop"
  }

  /** What the client sent and the server saw: of the data, or, when there was none, of the control channel. */
  function CutCounts(d: Detail): (int, int) {
    var sent := Int(Get(d, DataSent));
    if sent == 0 && Get(d, CtlSent) != "" then (Int(Get(d, CtlSent)), Int(Get(d, ServerCtlSeen)))
    else (sent, Int(Get(d, ServerDataSeen)))
  }

  function MergeSessionCut(a: Attempt): string {
    if a.server.None? then "uplink_drop_after_handshake"
    else
      var (sent, saw) := CutCounts(a.detail);
      if saw < sent then "uplink_drop_after_handshake" else "downlink_drop_after_handshake"
  }

  function MergePacketsCut(a: Attempt): string {
    match a.server
    case None => UPLINK_DROP
    case Some(s) =>
      if a.transport == "udp" then
        if Int(Get(a.detail, ServerPacketsSeen)) < Int(Get(a.detail, PacketsSent)) then UPLINK_DROP else "downlink_drop"
      else if Get(s.detail, Partial) == "true" then UPLINK_DROP
      else if Contains(s.response, "echo") then "downlink_drop"
      else UPLINK_DROP
  }

  function MergeBurst(a: Attempt): string {
    var n, saw, hello := Int(Get(a.detail, BurstN)), Int(Get(a.detail, AlphaSeen)), Int(Get(a.detail, AlphaHello));
    var known := IsInt(Get(a.detail, AlphaAnswered)) && IsInt(Get(a.detail, AlphaPartial));
    var answered :=
      if known then Int(Get(a.detail, AlphaAnswered))
      else if a.server.Some? && a.server.value.bytesOut > 0 then Max(hello, 1) else hello;
    var partial :=
      if !known && a.server.Some? && a.server.value.bytesOut == 0 && a.server.value.response == "handshake_failed"
          && Waited(a.server.value)
      then saw else Int(Get(a.detail, AlphaPartial));
    if saw < n then UPLINK_DROP
    else if answered > 0 then "downlink_drop"
    else if partial == saw then UPLINK_DROP
    else "server_rejected_handshake"
  }

  function MergeBulk(a: Attempt): string {
    match a.server
    case None => UPLINK_DROP
    case Some(s) =>
      if a.outcome == BULK_RESET then if s.close == "client_reset" then "rst_injected_bidirectional"
          else "rst_injected_or_path_reset"
      else if Get(s.detail, Bulk) == "down" then "downlink_drop"
      else
        var sent, got := Int(Get(a.detail, BulkBytes)), Int(Get(s.detail, BulkUpBytes));
        if sent > 0 && got >= sent then "downlink_drop" else UPLINK_DROP
  }

  function MergeHandshake(a: Attempt): string {
    if a.outcome == QUIC_HANDSHAKE && TimedOut(a.error) then
      if a.server.None? then UPLINK_DROP else "stalled_after_server_saw_it"
    else
      match a.server
      case None => "injected"
      case Some(s) =>
        if s.response != "handshake_failed" then "downlink_modified"
        else if Get(a.detail, Sni) != Get(s.detail, Sni) then "uplink_modified"
        else "server_rejected_handshake"
  }

  function MergeSpoof(a: Attempt): string {
    match a.server
    case None => "injected"
    case Some(s) => if s.response == "handshake_failed" then "server_rejected_handshake" else "downlink_modified"
  }

  function MergeContent(a: Attempt): string {
    match a.server
    case None => "injected"
    case Some(s) =>
      if Get(s.detail, Mac) == "invalid" then "uplink_modified"
      else if s.replied || s.bytesOut > 0 then "downlink_modified"
      else "injected"
  }

  function MergeClosed(a: Attempt): string {
    match a.server
    case None => "path_closed_before_server"
    case Some(s) => if s.close == "client_reset" then "rst_injected_or_path_reset" else "server_closed"
  }

  /** The row of the merge table an outcome falls into. */
  datatype TableRow =
    | Passed | TimesOut | Resets | Closes | Refuses | Spoofs | CutsSession | CutsPackets | Freezes | CutsBulk
    | BreaksHandshake | ChangesContent | WrongCertificate | FaultyServer | NoRow

  function RowOf(o: string): TableRow {
    if o == OK then Passed
    else if o == CONNECT_TIMEOUT || o == PAYLOAD_TIMEOUT || o == DNS_TIMEOUT || o == QUIC_NO_RESPONSE then TimesOut
    else if o == CONNECT_RESET || o == MIDSTREAM_RESET then Resets
    else if o == MIDSTREAM_EOF then Closes
    else if o == CONNECT_REFUSED then Refuses
    else if o == TLS_SPOOF then Spoofs
    else if o == SESSION_CUT then CutsSession
    else if o == PACKETS_CUT then CutsPackets
    else if o == BURST_FREEZE then Freezes
    else if o == BULK_STALL || o == BULK_RESET then CutsBulk
    else if o == TLS_ALERT || o == TLS_PARSE || o == QUIC_HANDSHAKE then BreaksHandshake
    else if o == UNEXPECTED || o == MODIFIED || o == DNS_MISMATCH || o == DNS_RCODE || o == DNS_RACE then ChangesContent
    else if o == CERT_MISMATCH then WrongCertificate
    else if o == SERVER_ERROR then FaultyServer
    else NoRow
  }

  function MergeVerdict(a: Attempt, parse: ParseReal): string {
    if IsDest(a.testID) then a.outcome
    else
      match RowOf(a.outcome)
      case Passed => if a.server.Some? && Get(a.server.value.detail, Mac) == "invalid" then "uplink_modified" else "ok"
      case TimesOut => MergeTimeout(a, parse)
      case Resets =>
        if a.server.Some? && a.server.value.close == "client_reset" then "rst_injected_bidirectional"
            else "rst_injected_or_path_reset"
      case Closes => MergeClosed(a)
      case Refuses => if a.server.Some? then "refused_after_server_saw_it" else "refused_by_path_or_port_closed"
      case Spoofs => MergeSpoof(a)
      case CutsSession => MergeSessionCut(a)
      case CutsPackets => MergePacketsCut(a)
      case Freezes => MergeBurst(a)
      case CutsBulk => MergeBulk(a)
      case BreaksHandshake => MergeHandshake(a)
      case ChangesContent => MergeContent(a)
      case WrongCertificate => "tls_mitm_or_wrong_server"
      case FaultyServer => "server_error"
      case NoRow => "inconclusive"
  }

  // ---- remerging a stored report ----

  function Located(a: Attempt, skew: int): Attempt {
    if a.server.Some? then WithServerDelay(a, a.server.value, skew) else a
  }

  function Judged(a: Attempt, parse: ParseReal): Attempt { a.(merged := MergeVerdict(a, parse)) }

  function Remerged(a: Attempt, skew: int, parse: ParseReal): Attempt {
    Judged(Located(Reinterpreted(a), skew), parse)
  }

  function RemergeAll(scan: seq<Attempt>, skew: int, parse: ParseReal): (r: seq<Attempt>)
    ensures |r| == |scan| && forall i :: 0 <= i < |scan| ==> r[i] == Remerged(scan[i], skew, parse)
  {
    seq(|scan|, i requires 0 <= i < |scan| => Remerged(scan[i], skew, parse))
  }

  /** A detail that reading a report again neither uses nor sets. */
  predicate Aside(k: Key) {
    k !in {LocalError, SystemError, Tamper, VerifySystem, VerifyTrusted, VerifyIP, Note, ResetMs, ResetBeforeRTT}
  }

  function With(a: Attempt, k: Key, v: string): Attempt { a.(detail := a.detail[k := v]) }

  lemma Swap(d: Detail, j: Key, u: string, k: Key, v: string)
    requires j != k
    ensures d[j := u][k := v] == d[k := v][j := u]
  {
  }

  lemma SwapLess(d: Detail, j: Key, k: Key, v: string)
    requires j != k
    ensures (d - {j})[k := v] == d[k := v] - {j}
  {
  }

  lemma GetWith(d: Detail, k: Key, v: string, j: Key)
    requires j != k
    ensures Get(d[k := v], j) == Get(d, j)
  {
  }

  lemma LocalAside(a: Attempt, k: Key, v: string)
    requires Aside(k)
    ensures LocalFailure(With(a, k, v)) == LocalFailure(a)
  {
    hide HostWords, Get;
    GetWith(a.detail, k, v, LocalError);
    GetWith(a.detail, k, v, SystemError);
  }

  lemma HostAside(a: Attempt, k: Key, v: string)
    requires Aside(k)
    ensures HostFailure(With(a, k, v)) == With(HostFailure(a), k, v)
  {
    hide LocalFailure, Get;
    LocalAside(a, k, v);
    GetWith(a.detail, k, v, LocalError);
    Swap(a.detail, LocalError, LocalFailure(a), k, v);
  }

  lemma InstantAside(a: Attempt, k: Key, v: string)
    requires Aside(k)
    ensures InstantTimeout(With(a, k, v)) == With(InstantTimeout(a), k, v)
  {
    hide Get;
    GetWith(a.detail, k, v, LocalError);
    Swap(a.detail, LocalError, NO_ROUTE, k, v);
  }

  lemma DisputeAside(a: Attempt, k: Key, v: string)
    requires Aside(k)
    ensures Disputed(With(a, k, v)) == Disputed(a) && Verdict(With(a, k, v)) == Verdict(a)
    ensures UnverifiedNote(a.detail[k := v] - {Tamper}) == UnverifiedNote(a.detail - {Tamper})
  {
    hide ServeResultFrom, JudgeDisagreement, Get;
    GetWith(a.detail, k, v, Tamper);
    GetWith(a.detail, k, v, VerifySystem);
    GetWith(a.detail, k, v, VerifyTrusted);
    SwapLess(a.detail, Tamper, k, v);
    GetWith(a.detail - {Tamper}, k, v, VerifyIP);
    GetWith(a.detail - {Tamper}, k, v, VerifySystem);
    GetWith(a.detail - {Tamper}, k, v, VerifyTrusted);
  }

  lemma JudgeAside(a: Attempt, k: Key, v: string)
    requires Aside(k)
    ensures Rejudged(With(a, k, v)) == With(Rejudged(a), k, v)
  {
    hide Disputed, Verdict, UnverifiedNote;
    var d := a.detail - {Tamper};
    DisputeAside(a, k, v);
    SwapLess(a.detail, Tamper, k, v);
    Swap(d, Note, UnverifiedNote(d), k, v);
  }

  lemma TimeAside(a: Attempt, k: Key, v: string)
    requires Aside(k)
    ensures Timed(With(a, k, v)) == With(Timed(a), k, v)
  {
    hide Whole, Get, BeforeRTT;
    var b := With(a, k, v);
    GetWith(a.detail, k, v, ResetMs);
    assert ResetTiming(b) == ResetTiming(a);
    hide ResetTiming;
    if ResetTiming(a).Some? {
      var reset := ResetTiming(a).value.0;
      Swap(a.detail, ResetMs, Whole(reset), k, v);
      Swap(a.detail[ResetMs := Whole(reset)], ResetBeforeRTT, "true", k, v);
    }
  }

  lemma ReadAside(a: Attempt, k: Key, v: string)
    requires Aside(k)
    ensures Reinterpreted(With(a, k, v)) == With(Reinterpreted(a), k, v)
  {
    hide HostFailure, InstantTimeout, Rejudged, Timed;
    HostAside(a, k, v);
    InstantAside(HostFailure(a), k, v);
    JudgeAside(InstantTimeout(HostFailure(a)), k, v);
    TimeAside(Rejudged(InstantTimeout(HostFailure(a))), k, v);
  }

  // The merge result is read by none of the steps.

  lemma HostMerged(a: Attempt, m: string)
    ensures HostFailure(a.(merged := m)) == HostFailure(a).(merged := m)
    ensures InstantTimeout(a.(merged := m)) == InstantTimeout(a).(merged := m)
  {
    hide HostWords;
  }

  lemma JudgeMerged(a: Attempt, m: string)
    ensures Rejudged(a.(merged := m)) == Rejudged(a).(merged := m)
    ensures Timed(a.(merged := m)) == Timed(a).(merged := m)
  {
    hide ServeResultFrom, JudgeDisagreement, UnverifiedNote, Whole;
    assert ResetTiming(a.(merged := m)) == ResetTiming(a);
  }

  lemma ReadMerged(a: Attempt, m: string)
    ensures Reinterpreted(a.(merged := m)) == Reinterpreted(a).(merged := m)
  {
    hide HostFailure, InstantTimeout, Rejudged, Timed;
    HostMerged(a, m);
    HostMerged(HostFailure(a), m);
    JudgeMerged(InstantTimeout(HostFailure(a)), m);
    JudgeMerged(Rejudged(InstantTimeout(HostFailure(a))), m);
  }

  lemma MergeMerged(a: Attempt, m: string, parse: ParseReal)
    ensures MergeVerdict(a.(merged := m), parse) == MergeVerdict(a, parse)
  {
    hide RowOf, MergeTimeout, MergeClosed, MergeSpoof, MergeSessionCut, MergePacketsCut, MergeBurst, MergeBulk,
        MergeHandshake, MergeContent;
    RowsAlike(a, a.(merged := m), parse);
  }

  /** The rows of the table read the same facts of both attempts. */
  ghost predicate Alike(a: Attempt, b: Attempt) {
    b == a.(detail := b.detail, merged := b.merged) && forall k ::
        k != Transient
        ==> Get(b.detail, k) == Get(a.detail, k)
  }

  lemma ServerRowsAlike(a: Attempt, b: Attempt)
    requires Alike(a, b)
    ensures MergeClosed(b) == MergeClosed(a) && MergeSpoof(b) == MergeSpoof(a) && MergeContent(b) == MergeContent(a)
    ensures MergeHandshake(b) == MergeHandshake(a)
  {
    hide TimedOut, Get;
  }

  lemma CountRowsAlike(a: Attempt, b: Attempt)
    requires Alike(a, b)
    ensures MergePacketsCut(b) == MergePacketsCut(a) && MergeBulk(b) == MergeBulk(a)
  {
    hide Contains, Int, Get;
  }

  lemma CountsAlike(a: Attempt, b: Attempt)
    requires Alike(a, b)
    ensures CutCounts(b.detail) == CutCounts(a.detail)
  {
    hide Int, Get;
    assert Get(b.detail, DataSent) == Get(a.detail, DataSent);
    assert Get(b.detail, ServerDataSeen) == Get(a.detail, ServerDataSeen);
    assert Get(b.detail, CtlSent) == Get(a.detail, CtlSent);
    assert Get(b.detail, ServerCtlSeen) == Get(a.detail, ServerCtlSeen);
  }

  lemma SessionAlike(a: Attempt, b: Attempt)
    requires Alike(a, b)
    ensures MergeSessionCut(b) == MergeSessionCut(a)
  {
    hide CutCounts, Get;
    CountsAlike(a, b);
  }

  lemma BurstAlike(a: Attempt, b: Attempt)
    requires Alike(a, b)
    ensures MergeBurst(b) == MergeBurst(a)
  {
    hide Int, IsInt, Waited, Get;
  }

  lemma RowsAlike(a: Attempt, b: Attempt, parse: ParseReal)
    requires Alike(a, b)
    ensures MergeTimeout(b, parse) == MergeTimeout(a, parse) && MergeClosed(b) == MergeClosed(a)
    ensures MergeSpoof(b) == MergeSpoof(a) && MergeContent(b) == MergeContent(a)
    ensures MergeSessionCut(b) == MergeSessionCut(a) && MergePacketsCut(b) == MergePacketsCut(a)
    ensures MergeBurst(b) == MergeBurst(a) && MergeBulk(b) == MergeBulk(a) && MergeHandshake(b) == MergeHandshake(a)
  {
    hide Waited, Get, MergeClosed, MergeSpoof, MergeSessionCut, MergePacketsCut, MergeBurst, MergeBulk,
        MergeHandshake, MergeContent;
    ServerRowsAlike(a, b);
    CountRowsAlike(a, b);
    SessionAlike(a, b);
    BurstAlike(a, b);
  }

  /** b is a with another reading of the same flow. */
  predicate SameFlow(a: Attempt, b: Attempt) { b == a.(detail := b.detail, outcome := b.outcome, error := b.error) }

  lemma StepsKeep(a: Attempt)
    ensures SameFlow(a, HostFailure(a)) && SameFlow(a, InstantTimeout(a)) && SameFlow(a, Rejudged(a))
            && SameFlow(a, Timed(a))
  {
    hide HostWords, ServeResultFrom, JudgeDisagreement, UnverifiedNote, Whole;
  }

  lemma ReadKeeps(a: Attempt)
    ensures SameFlow(a, Reinterpreted(a))
  {
    hide HostFailure, InstantTimeout, Rejudged, Timed;
    StepsKeep(a);
    StepsKeep(HostFailure(a));
    StepsKeep(InstantTimeout(HostFailure(a)));
    StepsKeep(Rejudged(InstantTimeout(HostFailure(a))));
  }

  predicate Dated(a: Attempt) { a.server.Some? && a.server.value.firstSeenAt != 0 && a.startedAt != 0 }

  function Delay(a: Attempt, skew: int): string
    requires Dated(a)
  {
    Whole(Millis(a.server.value.firstSeenAt - skew - a.startedAt)
          - if FirstWrite in a.stages then a.stages[FirstWrite] else if Connect in a.stages then a.stages[Connect]
              else 0.0)
  }

  lemma LocatedIs(a: Attempt, skew: int)
    ensures Located(a, skew) == if Dated(a) then With(a, ServerDelayMs, Delay(a, skew)) else a
  {
    hide Whole, Millis;
  }

  /** Remerging a stored report again changes nothing, exactly when the attempt is not fragile. */
  lemma RemergeTwice(a: Attempt, skew: int, parse: ParseReal)
    ensures Remerged(Remerged(a, skew, parse), skew, parse) == Remerged(a, skew, parse) <==> !Fragile(a)
    ensures Fragile(a) ==> Get(Remerged(Remerged(a, skew, parse), skew, parse).detail, LocalError)
                           != Get(Remerged(a, skew, parse).detail, LocalError)
  {
    hide Reinterpreted, Located, MergeVerdict, Fragile, Delay;
    var r := Reinterpreted(a);
    var l := Located(r, skew);
    var m := MergeVerdict(l, parse);
    LocatedIs(r, skew);
    ReinterpretTwice(a);
    ReadMerged(l, m);
    MergeMerged(l, m, parse);
    var r2 := Reinterpreted(r);
    ReadKeeps(r);
    if Dated(r) {
      ReadAside(r, ServerDelayMs, Delay(r, skew));
    }
    var l2 := Reinterpreted(l);
    LocatedIs(l2.(merged := m), skew);
    if Fragile(a) {
      assert Get(Located(l2.(merged := m), skew).detail, LocalError) == Get(r2.detail, LocalError);
      assert Get(l.detail, LocalError) == Get(r.detail, LocalError);
    } else {
      var j := l.(merged := m);
      assert l2 == l;
      DelaySame(r, j, skew);
      if Dated(r) {
        assert j.detail[ServerDelayMs := Delay(r, skew)] == j.detail;
      }
      assert Located(j, skew) == j;
    }
  }

  lemma DelaySame(a: Attempt, b: Attempt, skew: int)
    requires b == a.(detail := b.detail, merged := b.merged)
    ensures Dated(a) == Dated(b) && (Dated(a) ==> Delay(a, skew) == Delay(b, skew))
  {
  }

  // ---- the loops over a report ----

  /** Reads, locates and judges every attempt of a report, in place. */
  method RemergeReport(attempts: array<Attempt>, skew: int, parse: ParseReal)
    modifies attempts
    ensures attempts[..] == RemergeAll(old(attempts[..]), skew, parse)
  {
    hide Reinterpreted, WithServerDelay, MergeVerdict;
    for i := 0 to attempts.Length
      invariant forall k :: 0 <= k < i ==> attempts[k] == Remerged(old(attempts[k]), skew, parse)
      invariant forall k :: i <= k < attempts.Length ==> attempts[k] == old(attempts[k])
    {
      Reinterpret(attempts, i);
      if attempts[i].server.Some? {
        attempts[i] := WithServerDelay(attempts[i], attempts[i].server.value, skew);
      }
      attempts[i] := attempts[i].(merged := MergeVerdict(attempts[i], parse));
    }
  }

  method Reinterpret(attempts: array<Attempt>, i: nat)
    requires i < attempts.Length
    modifies attempts
    ensures attempts[..] == old(attempts[..])[i := Reinterpreted(old(attempts[i]))]
  {
    var a := attempts[i];
    if a.outcome == OK {
      return;
    }
    a := HostFailure(a);
    if a.outcome == CONNECT_TIMEOUT && Get(a.detail, LocalError) == "" && ConnectFailedAt(a) < LOCAL_SYNC_MS {
      a := a.(detail := a.detail[LocalError := NO_ROUTE], outcome := SERVER_ERROR);
    }
    a := Rejudged(a);
    if a.testID == "dest.tls" && Get(a.detail, ResetMs) == "" {
      a := WithResetTiming(a);
    }
    attempts[i] := a;
  }

  /** The whole report: reading and merging it twice is reading and merging it
      once, exactly when no attempt of it is fragile. */
  lemma ReportTwice(report: seq<Attempt>, skew: int, parse: ParseReal)
    ensures RemergeAll(RemergeAll(report, skew, parse), skew, parse) == RemergeAll(report, skew, parse)
       <==> forall i :: 0 <= i < |report| ==> !Fragile(report[i])
  {
    hide Remerged, Fragile;
    forall i | 0 <= i < |report|
      ensures Remerged(Remerged(report[i], skew, parse), skew, parse) == Remerged(report[i], skew, parse)
              <==> !Fragile(report[i])
    {
      RemergeTwice(report[i], skew, parse);
    }
    var once := RemergeAll(report, skew, parse);
    var twice := RemergeAll(once, skew, parse);
    assert twice == once <==> forall i :: 0 <= i < |report| ==> twice[i] == once[i];
  }

  lemma PassedIsOk(o: string)
    ensures RowOf(o) == Passed <==> o == OK
  {
  }

  /** Nothing but an untampered success merges to "ok". */
  lemma MergesToOk(a: Attempt, parse: ParseReal)
    requires !IsDest(a.testID)
    ensures MergeVerdict(a, parse) == "ok"
       <==> a.outcome == OK && !(a.server.Some? && Get(a.server.value.detail, Mac) == "invalid")
  {
    hide RowOf, MergeTimeout, MergeClosed, MergeSpoof, MergeSessionCut, MergePacketsCut, MergeBurst, MergeBulk,
        MergeHandshake, MergeContent;
    PassedIsOk(a.outcome);
    LongRows(a, parse);
  }

  lemma LongRows(a: Attempt, parse: ParseReal)
    ensures |MergeTimeout(a, parse)| > 2 && |MergeClosed(a)| > 2 && |MergeSpoof(a)| > 2 && |MergeContent(a)| > 2
    ensures |MergeSessionCut(a)| > 2 && |MergePacketsCut(a)| > 2 && |MergeBurst(a)| > 2
    ensures |MergeBulk(a)| > 2 && |MergeHandshake(a)| > 2
  {
    hide Contains, Int, IsInt, Waited, TimedOut, PastDeadline, Get, MergeSessionCut, MergePacketsCut, MergeBurst,
        MergeBulk, MergeHandshake;
    LongCounts(a);
  }

  lemma LongCounts(a: Attempt)
    ensures |MergeSessionCut(a)| > 2 && |MergePacketsCut(a)| > 2 && |MergeBurst(a)| > 2
    ensures |MergeBulk(a)| > 2 && |MergeHandshake(a)| > 2
  {
    hide Contains, Int, IsInt, Waited, TimedOut, Get;
  }

  /** The classifier's mark on an attempt is no part of this: it stays as it is. */
  lemma RemergeKeepsMark(a: Attempt, v: string, skew: int, parse: ParseReal)
    ensures Remerged(With(a, Transient, v), skew, parse) == With(Remerged(a, skew, parse), Transient, v)
  {
    hide Reinterpreted, Located, MergeVerdict, Delay;
    var r := Reinterpreted(a);
    ReadAside(a, Transient, v);
    LocatedIs(r, skew);
    LocatedIs(With(r, Transient, v), skew);
    DelaySame(r, With(r, Transient, v), skew);
    if Dated(r) {
      Swap(r.detail, ServerDelayMs, Delay(r, skew), Transient, v);
    }
    MergeMark(Located(r, skew), v, parse);
  }

  lemma MergeMark(a: Attempt, v: string, parse: ParseReal)
    ensures MergeVerdict(With(a, Transient, v), parse) == MergeVerdict(a, parse)
  {
    hide RowOf, Get, MergeTimeout, MergeClosed, MergeSpoof, MergeSessionCut, MergePacketsCut, MergeBurst, MergeBulk,
        MergeHandshake, MergeContent;
    forall k | k != Transient ensures Get(With(a, Transient, v).detail, k) == Get(a.detail, k) {
      GetAside(a.detail, v, k);
    }
    RowsAlike(a, With(a, Transient, v), parse);
  }

  lemma GetAside(d: Detail, v: string, k: Key)
    requires k != Transient
    ensures Get(d[Transient := v], k) == Get(d, k)
  {
  }
}
