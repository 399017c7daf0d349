/** What reading a stored attempt again makes of it (internal/client/merge.go, reinterpret),
    on the facts the attempt carries. */
module ReadingLaws {
  import opened Base
  import opened Text
  import opened Evidence
  import opened Remerge

  // ---- a check of an address, recorded and read back ----

  /** How a check of an address ended: it failed at a stage, it completed, or its
      handshake completed with a chain that does not verify. */
  datatype Check = Failed(stage: string, outcome: string) | Completed(at: string) | Untrusted(reason: string)

  /** The stages and outcomes a check has: no stage is the certificate's, a failure is no "ok". */
  predicate Checked(c: Check) {
    match c
    case Failed(stage, outcome) => ':' !in stage && stage != "cert" && outcome != OK
    case Completed(at) => ':' !in at && at != "cert"
    case Untrusted(reason) => reason != "true"
  }

  /** The check as it was made, with the text it is recorded by. */
  function ResultOf(c: Check): ServeResult {
    match c
    case Failed(stage, outcome) => ServeResult(false, "", stage + [':'] + outcome, outcome)
    case Completed(at) => ServeResult(true, "true", at + [':'] + OK, "")
    case Untrusted(reason) => ServeResult(true, reason, "cert" + [':'] + reason, "")
  }

  /** A recorded check reads back as the check that was made. */
  lemma CheckReadsBack(c: Check)
    requires Checked(c)
    ensures ServeResultFrom(ResultOf(c).why) == ResultOf(c)
  {
    match c {
      case Failed(stage, outcome) => CutJoin(stage, outcome, ':');
      case Completed(at) => CutJoin(at, OK, ':');
      case Untrusted(reason) => CutJoin("cert", reason, ':');
    }
  }

  /** Out of time, or not made at all. */
  predicate Pending(c: Check) {
    c.Failed? && c.outcome in {CONNECT_TIMEOUT, PAYLOAD_TIMEOUT, SERVER_ERROR, SKIPPED, INCONCLUSIVE}
  }

  /** A disagreement is poisoning exactly when the trusted address serves and the
      system one answered and did not: it failed in good time, or showed a chain
      that fails here alone. A check out of time that decides the matter leaves it open. */
  lemma DisagreementIff(sys: Check, tr: Check)
    requires Checked(sys) && Checked(tr)
    ensures var d := JudgeDisagreement(ServeResultFrom(ResultOf(sys).why), ServeResultFrom(ResultOf(tr).why));
            && (d == Poisoned <==> || (sys.Failed? && !Pending(sys) && !tr.Failed?)
                                   || (sys.Untrusted? && tr.Completed?))
            && (d == GeoDns <==> sys.Completed? || (sys.Untrusted? && tr.Untrusted?))
            && (d == Unverified <==> Pending(sys) || (Pending(tr) && !sys.Completed?))
            && (d == NeitherServes <==> && !sys.Completed? && !Pending(sys) && tr.Failed? && !Pending(tr))
  {
    hide ServeResultFrom;
    CheckReadsBack(sys);
    CheckReadsBack(tr);
  }

  // ---- an attempt ----

  /** The error quotes the operating system: the host refused or dropped the connection itself. */
  predicate HostSpeaks(a: Attempt) {
    || (exists w :: w in [ABORT, EPERM] && Contains(a.error, w))
    || Contains(Get(a.detail, SystemError), "resNetworkResult failed: ECONNREFUSED")
  }

  predicate Unmarked(a: Attempt) { Get(a.detail, LocalError) == "" }

  /** A connect that timed out within 5 ms of its first write, or of its start. */
  predicate AtOnce(a: Attempt) {
    && a.outcome == CONNECT_TIMEOUT && Done in a.stages
    && a.stages[Done] < 5.0 + (if FirstWrite in a.stages then a.stages[FirstWrite] else 0.0)
  }

  /** An outcome the host's own failure may replace. */
  predicate Replaceable(o: string) { o !in {OK, INCONCLUSIVE, SKIPPED} }

  lemma SpeaksIff(a: Attempt)
    ensures HostSpeaks(a) <==> HostWords(a.error, Get(a.detail, SystemError)) != ""
  {
    hide Contains, Get;
    var words := [ABORT, EPERM];
    assert words[0] == ABORT && words[1] == EPERM;
  }

  /** What the words are called: an aborted connection before a forbidden one before a blocked resolver. */
  lemma NamedIff(a: Attempt)
    requires a.outcome != OK && Unmarked(a)
    ensures LocalFailure(a) == "econnaborted" <==> Contains(a.error, ABORT)
    ensures LocalFailure(a) == "eperm" <==> Contains(a.error, EPERM) && !Contains(a.error, ABORT)
    ensures LocalFailure(a) == "resolver_blocked"
       <==> && Contains(Get(a.detail, SystemError), "resNetworkResult failed: ECONNREFUSED")
            && !Contains(a.error, ABORT) && !Contains(a.error, EPERM)
    ensures LocalFailure(a) == "" <==> !HostSpeaks(a)
  {
    hide Contains, Get, HostSpeaks;
    SpeaksIff(a);
  }

  lemma HostStep(a: Attempt)
    requires a.outcome != OK
    ensures var b := InstantTimeout(HostFailure(a));
            && b == a.(detail := b.detail, outcome := b.outcome)
            && (forall k :: k != LocalError ==> Get(b.detail, k) == Get(a.detail, k))
            && Get(b.detail, LocalError) ==
               (if !Unmarked(a) then Get(a.detail, LocalError)
                else if HostSpeaks(a) then LocalFailure(a) else if AtOnce(a) then NO_ROUTE else "")
            && b.outcome == if Replaceable(a.outcome) && Unmarked(a) && (HostSpeaks(a) || AtOnce(a)) then SERVER_ERROR
               else a.outcome
  {
    hide HostWords, HostSpeaks;
    SpeaksIff(a);
    OutcomeNames();
  }

  lemma OutcomeNames()
    ensures SERVER_ERROR != CONNECT_TIMEOUT && CONNECT_TIMEOUT !in {INCONCLUSIVE, SKIPPED}
  {
  }

  lemma JudgeStep(b: Attempt)
    requires b.outcome != OK
    ensures var c := Rejudged(b);
            && (Disputed(b) && Verdict(b) == Unverified ==> c.outcome == INCONCLUSIVE)
            && (Disputed(b) && Verdict(b) in {GeoDns, NeitherServes} ==> c.outcome == OK)
            && (!Disputed(b) || Verdict(b) == Poisoned ==> c == b)
            && (forall k :: k in {LocalError, ResetMs, ResetBeforeRTT} ==> Get(c.detail, k) == Get(b.detail, k))
            && (c.testID == b.testID && (b.testID != "dest.dns" ==> c == b))
  {
    hide UnverifiedNote, Verdict;
  }

  lemma DisputeStep(a: Attempt)
    requires a.outcome != OK
    ensures var b := InstantTimeout(HostFailure(a));
            && (Disputed(b) <==> Disputed(a) && !(Unmarked(a) && HostSpeaks(a)))
            && Verdict(b) == Verdict(a)
  {
    hide HostFailure, InstantTimeout, HostSpeaks, ServeResultFrom, JudgeDisagreement, Get;
    HostStep(a);
    DisputeNames();
  }

  lemma DisputeNames()
    ensures DNS_MISMATCH !in {SERVER_ERROR, OK, INCONCLUSIVE, SKIPPED, CONNECT_TIMEOUT}
  {
  }

  lemma TimeStep(c: Attempt)
    ensures var d := Timed(c);
            && d == c.(detail := d.detail)
            && forall k :: k !in {ResetMs, ResetBeforeRTT} ==> Get(d.detail, k) == Get(c.detail, k)
  {
    hide Whole;
  }

  /** The outcome a stored attempt has once it was read again: a failure of the host
      becomes one of this side, an unfinished disagreement stays open, one that is no
      poisoning is no failure, and every other outcome stays as it is. */
  lemma OutcomeIff(a: Attempt)
    ensures var r := Reinterpreted(a);
            && (r.outcome == SERVER_ERROR
                <==> || a.outcome == SERVER_ERROR
                     || (Replaceable(a.outcome) && Unmarked(a) && (HostSpeaks(a) || AtOnce(a))))
            && (r.outcome == INCONCLUSIVE
                <==> || a.outcome == INCONCLUSIVE
                     || (Disputed(a) && !(Unmarked(a) && HostSpeaks(a)) && Verdict(a) == Unverified))
            && (r.outcome == OK
                <==> || a.outcome == OK
                     || (Disputed(a) && !(Unmarked(a) && HostSpeaks(a)) && Verdict(a) in {GeoDns, NeitherServes}))
            && (r.outcome in {SERVER_ERROR, INCONCLUSIVE, OK} || r.outcome == a.outcome)
  {
    hide HostFailure, InstantTimeout, Rejudged, Timed, HostSpeaks, Disputed, Verdict, AtOnce, Unmarked;
    DisputedIs(a);
    ResultNames();
    if a.outcome != OK {
      var b := InstantTimeout(HostFailure(a));
      HostStep(a);
      DisputeStep(a);
      DisputedIs(b);
      JudgeStep(b);
      TimeStep(Rejudged(b));
      AtOnceIs(a);
    }
  }

  lemma DisputedIs(a: Attempt)
    ensures Disputed(a) ==> a.outcome == DNS_MISMATCH && a.testID == "dest.dns"
  {
  }

  lemma AtOnceIs(a: Attempt)
    ensures AtOnce(a) ==> a.outcome == CONNECT_TIMEOUT
  {
  }

  lemma ResultNames()
    ensures SERVER_ERROR != INCONCLUSIVE && SERVER_ERROR != OK && INCONCLUSIVE != OK && CONNECT_TIMEOUT != DNS_MISMATCH
    ensures DNS_MISMATCH !in {SERVER_ERROR, OK, INCONCLUSIVE, SKIPPED, CONNECT_TIMEOUT}
  {
  }

  /** The mark a stored attempt carries once it was read again: its own, or the
      words of the operating system, or that there was no route. */
  lemma MarkIff(a: Attempt)
    requires a.outcome != OK
    ensures Get(Reinterpreted(a).detail, LocalError) ==
            if !Unmarked(a) then Get(a.detail, LocalError)
            else if Contains(a.error, ABORT) then "econnaborted"
            else if Contains(a.error, EPERM) then "eperm"
            else if HostSpeaks(a) then "resolver_blocked"
            else if AtOnce(a) then NO_ROUTE
            else ""
  {
    hide HostFailure, InstantTimeout, Rejudged, Timed, HostSpeaks, AtOnce, LocalFailure, Contains, Get;
    var b := InstantTimeout(HostFailure(a));
    HostStep(a);
    JudgeStep(b);
    TimeStep(Rejudged(b));
    if Unmarked(a) { NamedIff(a); SpokenWords(a); }
  }

  lemma SpokenWords(a: Attempt)
    ensures HostSpeaks(a) <==> || Contains(a.error, ABORT) || Contains(a.error, EPERM)
                               || Contains(Get(a.detail, SystemError), "resNetworkResult failed: ECONNREFUSED")
  {
    hide Contains, Get;
    var words := [ABORT, EPERM];
    assert words[0] == ABORT && words[1] == EPERM;
  }

  /** The path reset a handshake, at a time the stages tell. */
  predicate ResetTimed(a: Attempt) {
    && a.testID == "dest.tls" && a.outcome == MIDSTREAM_RESET && {Connect, FirstWrite, Done} <= a.stages.Keys
    && a.stages[Connect] > 0.0 && a.stages[FirstWrite] <= a.stages[Done]
  }

  /** The reset came within four fifths of the connect time, and that was less than a second. */
  predicate ResetEarly(a: Attempt) {
    && ResetTimed(a) && a.stages[Connect] < 1000.0
    && 5.0 * (a.stages[Done] - a.stages[FirstWrite]) < 4.0 * a.stages[Connect]
  }

  /** The time of the reset as it is written down, or "". */
  function ResetText(a: Attempt): string {
    if ResetTimed(a) then Whole(a.stages[Done] - a.stages[FirstWrite]) else ""
  }

  lemma ResetStep(c: Attempt)
    requires Get(c.detail, ResetMs) == "" && Get(c.detail, ResetBeforeRTT) == ""
    ensures Get(Timed(c).detail, ResetBeforeRTT) == "true" <==> ResetEarly(c)
    ensures Get(Timed(c).detail, ResetMs) == ResetText(c)
  {
    hide Whole;
  }

  lemma ResetAlike(a: Attempt, c: Attempt)
    requires c.testID == a.testID && c.stages == a.stages
    requires c.outcome == a.outcome || (a.outcome != MIDSTREAM_RESET && c.outcome != MIDSTREAM_RESET)
    ensures (ResetEarly(c) <==> ResetEarly(a)) && ResetText(c) == ResetText(a)
  {
    hide Whole;
  }

  lemma ResetNot(c: Attempt)
    requires c.outcome != MIDSTREAM_RESET || c.testID != "dest.tls"
    ensures !ResetEarly(c) && ResetText(c) == ""
  {
  }

  /** A handshake is marked as reset before a round trip exactly when the reset came
      early and the host had no part in it; the time of the reset is written down. */
  lemma EarlyIff(a: Attempt)
    requires Get(a.detail, ResetMs) == "" && Get(a.detail, ResetBeforeRTT) == ""
    ensures Get(Reinterpreted(a).detail, ResetBeforeRTT) == "true" <==> ResetEarly(a) && !(Unmarked(a) && HostSpeaks(a))
    ensures Get(Reinterpreted(a).detail, ResetMs) == if Unmarked(a) && HostSpeaks(a) then "" else ResetText(a)
  {
    hide HostFailure, InstantTimeout, HostSpeaks, AtOnce, Rejudged, Timed, Disputed, Get, Unmarked, ResetEarly,
        ResetText;
    ResetNames();
    if a.outcome == OK {
      ResetNot(a);
    } else {
      var b := InstantTimeout(HostFailure(a));
      HostStep(a);
      AtOnceIs(a);
      JudgeStep(b);
      var c := Rejudged(b);
      ResetStep(c);
      if a.testID != "dest.tls" {
        ResetNot(a);
        ResetNot(c);
      } else {
        assert c == b;
        if Unmarked(a) && HostSpeaks(a) { HostReset(a, c); } else { ResetAlike(a, c); }
      }
    }
  }

  /** The host's own failure is no reset of the path. */
  lemma HostReset(a: Attempt, c: Attempt)
    requires c.outcome == if Replaceable(a.outcome) then SERVER_ERROR else a.outcome
    ensures !ResetEarly(c) && ResetText(c) == ""
  {
    ResetNames();
    ResetNot(c);
  }

  lemma ResetNames()
    ensures MIDSTREAM_RESET !in {OK, SERVER_ERROR, CONNECT_TIMEOUT, INCONCLUSIVE, SKIPPED} && "dest.tls" != "dest.dns"
  {
  }
}
