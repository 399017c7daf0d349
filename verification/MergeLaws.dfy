/** What each result of the merge table says (internal/client/merge.go, mergeVerdict),
    read backwards: for every result, the facts of the two halves that bring it about. */
module MergeLaws {
  import opened Base
  import opened Text
  import opened Evidence
  import opened Remerge

  // ---- numbers the reports carry ----

  /** A count written into a report reads back as it was. */
  lemma CountReadsBack(n: int)
    requires -0x8000_0000_0000_0000 <= n <= 0x7FFF_FFFF_FFFF_FFFF
    ensures Int(Itoa(n)) == n && IsInt(Itoa(n))
    ensures forall s: string :: Atoi(s).None? ==> Int(s) == 0 && !IsInt(s)
  {
    ItoaRoundTrip(n);
  }

  // ---- the facts of an attempt with a server half ----

  predicate LostUp(m: string) { m == UPLINK_DROP || m == "uplink_drop_after_handshake" }

  predicate LostDown(m: string) { m == "downlink_drop" || m == "downlink_drop_after_handshake" }

  predicate Silent(o: string) { o in {CONNECT_TIMEOUT, PAYLOAD_TIMEOUT, DNS_TIMEOUT, QUIC_NO_RESPONSE} }

  /** Outcomes that say something was lost: no answer at all, or an exchange cut short. */
  predicate Loss(o: string) { Silent(o) || o in {SESSION_CUT, PACKETS_CUT, BURST_FREEZE, BULK_STALL} }

  function Count(d: Detail, k: Key): int { Int(Get(d, k)) }

  predicate Answered(s: Observation) { s.replied || s.bytesOut > 0 }

  /** The server was left waiting for the rest of the request. */
  predicate GivenUp(s: Observation) {
    || s.close in {"timeout", "client_eof", "client_reset"}
    || HasSuffix(s.serverError, "EOF")
    || exists w :: w in ["i/o timeout", "connection reset"] && Contains(s.serverError, w)
  }

  /** The error text of a handshake that ran out of time. */
  predicate RanOut(error: string) {
    exists w ::
      && w in ["deadline exceeded", "i/o timeout", "timeout: no recent network activity",
               "Handshake did not complete in time"]
      && Contains(error, w)
  }

  /** The server saw the flow more than a second after the client had given up. */
  predicate TooLate(a: Attempt, parse: ParseReal) {
    var delay := parse(Get(a.detail, ServerDelayMs));
    delay.Some? && Done in a.stages && delay.value - a.stages[Done] > 1000.0
  }

  /** A TCP connection the client never completed, and the server accepted. */
  predicate Diverged(a: Attempt) { a.outcome == CONNECT_TIMEOUT && a.transport == "tcp" }

  /** What is reported of an unanswered attempt before anything is said about a loss. */
  predicate Overruled(a: Attempt, s: Observation, parse: ParseReal) {
    Diverged(a) || Get(s.detail, Cookie) == "invalid" || Get(s.detail, Mac) == "invalid" || TooLate(a, parse)
  }

  /** The channel a session was cut in: its data, or before any was sent its control packets. */
  predicate OnControl(d: Detail) { Count(d, DataSent) == 0 && Get(d, CtlSent) != "" }

  /** Reports without these counts know only the first flow of a burst. */
  predicate Counted(d: Detail) { IsInt(Get(d, AlphaAnswered)) && IsInt(Get(d, AlphaPartial)) }

  /** Some handshake of the burst was answered. */
  predicate HelloAnswered(d: Detail, server: Option<Observation>) {
    if Counted(d) then Count(d, AlphaAnswered) > 0
    else Count(d, AlphaHello) > 0 || (server.Some? && server.value.bytesOut > 0)
  }

  /** Every hello of the burst the server saw arrived cut. */
  predicate HellosCut(d: Detail, server: Option<Observation>) {
    || Count(d, AlphaPartial) == Count(d, AlphaSeen)
    || (!Counted(d) && server.Some? && server.value.bytesOut == 0 && server.value.response == "handshake_failed"
        && GivenUp(server.value))
  }

  /** The server saw less of the request than was sent. */
  predicate SawLess(a: Attempt, s: Observation) {
    if Silent(a.outcome) then
      !Answered(s) && ((a.transport == "tcp" && s.bytesIn == 0 && s.parse == "empty")
                       || (s.serverError != "" && GivenUp(s)))
    else if a.outcome == SESSION_CUT then
      if OnControl(a.detail) then Count(a.detail, ServerCtlSeen) < Count(a.detail, CtlSent)
      else Count(a.detail, ServerDataSeen) < Count(a.detail, DataSent)
    else if a.outcome == PACKETS_CUT then
      if a.transport == "udp" then Count(a.detail, ServerPacketsSeen) < Count(a.detail, PacketsSent)
      else Get(s.detail, Partial) == "true" || !Contains(s.response, "echo")
    else if a.outcome == BURST_FREEZE then
      || Count(a.detail, AlphaSeen) < Count(a.detail, BurstN)
      || (!HelloAnswered(a.detail, Some(s)) && HellosCut(a.detail, Some(s)))
    else if a.outcome == BULK_STALL then
      && Get(s.detail, Bulk) != "down"
      && (Count(a.detail, BulkBytes) <= 0 || Count(s.detail, BulkUpBytes) < Count(a.detail, BulkBytes))
    else false
  }

  /** The server saw all of it, or answered it. */
  predicate SawAll(a: Attempt, s: Observation) {
    if Silent(a.outcome) then
      || Answered(s)
      || (!(a.transport == "tcp" && s.bytesIn == 0 && s.parse == "empty") && s.serverError == ""
          && s.response !in {"silence", "refused", ""})
    else if a.outcome == SESSION_CUT then
      if OnControl(a.detail) then Count(a.detail, CtlSent) <= Count(a.detail, ServerCtlSeen)
      else Count(a.detail, DataSent) <= Count(a.detail, ServerDataSeen)
    else if a.outcome == PACKETS_CUT then
      if a.transport == "udp" then Count(a.detail, PacketsSent) <= Count(a.detail, ServerPacketsSeen)
      else Get(s.detail, Partial) != "true" && Contains(s.response, "echo")
    else if a.outcome == BURST_FREEZE then
      Count(a.detail, BurstN) <= Count(a.detail, AlphaSeen) && HelloAnswered(a.detail, Some(s))
    else if a.outcome == BULK_STALL then
      || Get(s.detail, Bulk) == "down"
      || 0 < Count(a.detail, BulkBytes) <= Count(s.detail, BulkUpBytes)
    else false
  }

  // ---- an outcome and its row ----

  lemma SilentRow(o: string)
    ensures RowOf(o) == TimesOut <==> Silent(o)
  {
  }

  lemma CutRow(o: string)
    ensures RowOf(o) == CutsSession <==> o == SESSION_CUT
    ensures RowOf(o) == CutsPackets <==> o == PACKETS_CUT
    ensures RowOf(o) == Freezes <==> o == BURST_FREEZE
    ensures RowOf(o) == CutsBulk <==> o in {BULK_STALL, BULK_RESET}
  {
  }

  lemma FailRow(o: string)
    ensures RowOf(o) == Resets <==> o in {CONNECT_RESET, MIDSTREAM_RESET}
    ensures RowOf(o) == Closes <==> o == MIDSTREAM_EOF
    ensures RowOf(o) == Refuses <==> o == CONNECT_REFUSED
    ensures RowOf(o) == Spoofs <==> o == TLS_SPOOF
    ensures RowOf(o) == BreaksHandshake <==> o in {TLS_ALERT, TLS_PARSE, QUIC_HANDSHAKE}
  {
  }

  lemma OtherRow(o: string)
    ensures RowOf(o) == Passed <==> o == OK
    ensures RowOf(o) == ChangesContent <==> o in {UNEXPECTED, MODIFIED, DNS_MISMATCH, DNS_RCODE, DNS_RACE}
    ensures RowOf(o) == WrongCertificate <==> o == CERT_MISMATCH
    ensures RowOf(o) == FaultyServer <==> o == SERVER_ERROR
  {
  }

  lemma GivenUpIs(s: Observation)
    ensures GivenUp(s) <==> Waited(s)
  {
    hide Contains, HasSuffix;
    var words := ["i/o timeout", "connection reset"];
    assert words[0] == "i/o timeout" && words[1] == "connection reset";
  }

  lemma RanOutIs(error: string)
    ensures RanOut(error) <==> TimedOut(error)
  {
    hide Contains;
    var words := ["deadline exceeded", "i/o timeout", "timeout: no recent network activity",
                  "Handshake did not complete in time"];
    assert words[0] == "deadline exceeded" && words[1] == "i/o timeout";
    assert words[2] == "timeout: no recent network activity" && words[3] == "Handshake did not complete in time";
  }

  // ---- what an unanswered attempt is reported as ----

  lemma TimeoutLoses(a: Attempt, s: Observation, parse: ParseReal)
    requires a.server == Some(s) && Silent(a.outcome)
    ensures LostUp(MergeTimeout(a, parse)) <==> !Overruled(a, s, parse) && SawLess(a, s)
    ensures LostDown(MergeTimeout(a, parse)) <==> !Overruled(a, s, parse) && SawAll(a, s)
  {
    hide Contains, HasSuffix, Get, Waited, GivenUp;
    GivenUpIs(s);
  }

  lemma SessionLoses(a: Attempt, s: Observation)
    requires a.server == Some(s)
    ensures LostUp(MergeSessionCut(a))
       <==> if OnControl(a.detail) then Count(a.detail, ServerCtlSeen) < Count(a.detail, CtlSent)
            else Count(a.detail, ServerDataSeen) < Count(a.detail, DataSent)
    ensures LostDown(MergeSessionCut(a)) <==> !LostUp(MergeSessionCut(a))
  {
    hide Int, Get;
  }

  lemma PacketsLose(a: Attempt, s: Observation)
    requires a.server == Some(s)
    ensures LostUp(MergePacketsCut(a))
       <==> if a.transport == "udp" then Count(a.detail, ServerPacketsSeen) < Count(a.detail, PacketsSent)
            else Get(s.detail, Partial) == "true" || !Contains(s.response, "echo")
    ensures LostDown(MergePacketsCut(a)) <==> !LostUp(MergePacketsCut(a))
  {
    hide Int, Get, Contains;
  }

  lemma BurstLoses(a: Attempt)
    ensures LostUp(MergeBurst(a))
       <==> || Count(a.detail, AlphaSeen) < Count(a.detail, BurstN)
            || (!HelloAnswered(a.detail, a.server) && HellosCut(a.detail, a.server))
    ensures LostDown(MergeBurst(a))
       <==> Count(a.detail, BurstN) <= Count(a.detail, AlphaSeen) && HelloAnswered(a.detail, a.server)
    ensures LostUp(MergeBurst(a)) || LostDown(MergeBurst(a)) || MergeBurst(a) == "server_rejected_handshake"
  {
    hide Int, IsInt, Get, Waited, GivenUp;
    if a.server.Some? { GivenUpIs(a.server.value); }
  }

  lemma BulkLoses(a: Attempt, s: Observation)
    requires a.server == Some(s) && a.outcome in {BULK_STALL, BULK_RESET}
    ensures LostUp(MergeBulk(a))
       <==> && a.outcome == BULK_STALL && Get(s.detail, Bulk) != "down"
            && (Count(a.detail, BulkBytes) <= 0 || Count(s.detail, BulkUpBytes) < Count(a.detail, BulkBytes))
    ensures LostDown(MergeBulk(a)) <==> a.outcome == BULK_STALL && !LostUp(MergeBulk(a))
  {
    hide Int, Get;
  }

  lemma OthersLoseNothing(a: Attempt, s: Observation, parse: ParseReal)
    requires a.server == Some(s) && !Loss(a.outcome) && !IsDest(a.testID)
    ensures !LostUp(MergeVerdict(a, parse)) && !LostDown(MergeVerdict(a, parse))
  {
    hide RowOf, IsDest, MergeTimeout, MergeSessionCut, MergePacketsCut, MergeBurst, MergeBulk, MergeHandshake,
        MergeSpoof, MergeContent, MergeClosed;
    SilentRow(a.outcome);
    CutRow(a.outcome);
    if a.outcome == BULK_RESET { BulkLoses(a, s); }
    RestLoseNothing(a, s);
  }

  lemma RestLoseNothing(a: Attempt, s: Observation)
    requires a.server == Some(s)
    ensures !LostUp(MergeHandshake(a)) && !LostDown(MergeHandshake(a))
    ensures !LostUp(MergeSpoof(a)) && !LostDown(MergeSpoof(a))
    ensures !LostUp(MergeContent(a)) && !LostDown(MergeContent(a))
    ensures !LostUp(MergeClosed(a)) && !LostDown(MergeClosed(a))
  {
    hide Get, TimedOut;
  }

  /** Across the rows: with a server half, a drop on the way in is reported exactly
      of a loss the server saw less of than was sent, and a drop on the way back
      exactly of one it saw all of or answered. Of an attempt without an answer a
      diverged connect, a foreign cookie, a bad MAC and a late arrival come first. */
  lemma LossIff(a: Attempt, s: Observation, parse: ParseReal)
    requires a.server == Some(s) && !IsDest(a.testID)
    ensures LostUp(MergeVerdict(a, parse))
       <==> Loss(a.outcome) && (Silent(a.outcome) ==> !Overruled(a, s, parse)) && SawLess(a, s)
    ensures LostDown(MergeVerdict(a, parse))
       <==> Loss(a.outcome) && (Silent(a.outcome) ==> !Overruled(a, s, parse)) && SawAll(a, s)
    ensures !(SawLess(a, s) && SawAll(a, s))
  {
    hide RowOf, IsDest, MergeTimeout, MergeSessionCut, MergePacketsCut, MergeBurst, MergeBulk, MergeHandshake,
        MergeSpoof, MergeContent, MergeClosed, Contains, Get, Int, IsInt, GivenUp, Overruled, LostUp, LostDown;
    var o := a.outcome;
    SilentRow(o);
    CutRow(o);
    if Silent(o) {
      TimeoutLoses(a, s, parse);
    } else if o == SESSION_CUT {
      SessionLoses(a, s);
    } else if o == PACKETS_CUT {
      PacketsLose(a, s);
    } else if o == BURST_FREEZE {
      BurstLoses(a);
    } else if o == BULK_STALL {
      BulkLoses(a, s);
    } else {
      OthersLoseNothing(a, s, parse);
    }
  }

  predicate AfterHandshake(m: string) {
    m == "uplink_drop_after_handshake" || m == "downlink_drop_after_handshake"
  }

  /** The longer two of the names stand for a cut session, and for nothing else. */
  lemma DropNames(a: Attempt, parse: ParseReal)
    requires !IsDest(a.testID)
    ensures AfterHandshake(MergeVerdict(a, parse)) <==> a.outcome == SESSION_CUT
  {
    hide RowOf, IsDest, MergeTimeout, MergeSessionCut, MergePacketsCut, MergeBurst, MergeBulk, MergeHandshake,
        MergeSpoof, MergeContent, MergeClosed;
    CutRow(a.outcome);
    SessionNames(a);
    OtherNames(a, parse);
  }

  lemma OtherNames(a: Attempt, parse: ParseReal)
    ensures !AfterHandshake(MergePacketsCut(a)) && !AfterHandshake(MergeBulk(a)) && !AfterHandshake(MergeBurst(a))
    ensures !AfterHandshake(MergeTimeout(a, parse)) && !AfterHandshake(MergeHandshake(a))
    ensures !AfterHandshake(MergeSpoof(a)) && !AfterHandshake(MergeContent(a)) && !AfterHandshake(MergeClosed(a))
  {
    hide AfterHandshake, MergePacketsCut, MergeBulk, MergeBurst, MergeTimeout, MergeHandshake, MergeSpoof, MergeContent,
        MergeClosed;
    CutNames(a);
    TimeoutNames(a, parse);
    RestNames(a);
    ShortNames();
  }

  lemma ShortNames()
    ensures !AfterHandshake(UPLINK_DROP) && !AfterHandshake("downlink_drop")
    ensures !AfterHandshake("connect_diverged_middlebox_or_misattributed")
    ensures !AfterHandshake("cookie_mismatch_nat_or_multipath") && !AfterHandshake("uplink_modified")
    ensures !AfterHandshake("uplink_delayed_past_deadline") && !AfterHandshake("server_error")
    ensures !AfterHandshake("server_silent") && !AfterHandshake("rst_injected_bidirectional")
    ensures !AfterHandshake("rst_injected_or_path_reset") && !AfterHandshake("server_rejected_handshake")
    ensures !AfterHandshake("stalled_after_server_saw_it") && !AfterHandshake("injected")
    ensures !AfterHandshake("downlink_modified") && !AfterHandshake("path_closed_before_server")
    ensures !AfterHandshake("server_closed")
  {
  }

  lemma SessionNames(a: Attempt)
    ensures MergeSessionCut(a) in {"uplink_drop_after_handshake", "downlink_drop_after_handshake"}
  {
    hide Int, Get;
  }

  lemma CutNames(a: Attempt)
    ensures MergePacketsCut(a) in {UPLINK_DROP, "downlink_drop"}
    ensures MergeBulk(a) in {UPLINK_DROP, "downlink_drop", "rst_injected_bidirectional", "rst_injected_or_path_reset"}
    ensures MergeBurst(a) in {UPLINK_DROP, "downlink_drop", "server_rejected_handshake"}
  {
    hide Int, IsInt, Get, Contains, Waited;
  }

  lemma TimeoutNames(a: Attempt, parse: ParseReal)
    ensures MergeTimeout(a, parse) in {UPLINK_DROP, "downlink_drop", "connect_diverged_middlebox_or_misattributed",
                                       "cookie_mismatch_nat_or_multipath", "uplink_modified",
                                       "uplink_delayed_past_deadline", "server_error", "server_silent"}
  {
    hide Contains, Get, Waited, PastDeadline;
  }

  lemma RestNames(a: Attempt)
    ensures MergeHandshake(a) in {UPLINK_DROP, "stalled_after_server_saw_it", "injected", "downlink_modified",
                                  "uplink_modified", "server_rejected_handshake"}
    ensures MergeSpoof(a) in {"injected", "server_rejected_handshake", "downlink_modified"}
    ensures MergeContent(a) in {"injected", "uplink_modified", "downlink_modified"}
    ensures MergeClosed(a) in {"path_closed_before_server", "rst_injected_or_path_reset", "server_closed"}
  {
    hide Get, TimedOut;
  }

  /** The four that come before any loss, each over those after it; and the two that
      blame the server. Nothing but an unanswered attempt is reported as the first
      three of these or as a silent server. */
  lemma PrecedenceIff(a: Attempt, s: Observation, parse: ParseReal)
    requires a.server == Some(s) && Silent(a.outcome) && !IsDest(a.testID)
    ensures MergeVerdict(a, parse) == "connect_diverged_middlebox_or_misattributed" <==> Diverged(a)
    ensures MergeVerdict(a, parse) == "cookie_mismatch_nat_or_multipath"
       <==> !Diverged(a) && Get(s.detail, Cookie) == "invalid"
    ensures MergeVerdict(a, parse) == "uplink_modified"
       <==> !Diverged(a) && Get(s.detail, Cookie) != "invalid" && Get(s.detail, Mac) == "invalid"
    ensures MergeVerdict(a, parse) == "uplink_delayed_past_deadline"
       <==> && !Diverged(a) && Get(s.detail, Cookie) != "invalid" && Get(s.detail, Mac) != "invalid"
            && TooLate(a, parse)
    ensures MergeVerdict(a, parse) == "server_error"
       <==> && !Overruled(a, s, parse) && !Answered(s) && !SawLess(a, s)
            && s.serverError != ""
    ensures MergeVerdict(a, parse) == "server_silent"
       <==> && !Overruled(a, s, parse) && !Answered(s) && !SawLess(a, s)
            && s.serverError == "" && s.response in {"silence", "refused", ""}
  {
    hide RowOf, IsDest, Contains, HasSuffix, Get, Waited, GivenUp;
    SilentRow(a.outcome);
    GivenUpIs(s);
  }

  /** Without a server half a loss is one on the way in, of a burst only by its counts;
      what else came back is the path's own. */
  lemma UnseenIff(a: Attempt, parse: ParseReal)
    requires a.server.None? && !IsDest(a.testID)
    ensures LostUp(MergeVerdict(a, parse))
       <==> || (Loss(a.outcome) && a.outcome != BURST_FREEZE)
            || a.outcome == BULK_RESET
            || (a.outcome == QUIC_HANDSHAKE && RanOut(a.error))
            || (a.outcome == BURST_FREEZE
                && (Count(a.detail, AlphaSeen) < Count(a.detail, BurstN)
                    || (!HelloAnswered(a.detail, None) && HellosCut(a.detail, None))))
    ensures LostDown(MergeVerdict(a, parse))
       <==> && a.outcome == BURST_FREEZE && Count(a.detail, BurstN) <= Count(a.detail, AlphaSeen)
            && HelloAnswered(a.detail, None)
  {
    hide RowOf, IsDest, MergeTimeout, MergeSessionCut, MergePacketsCut, MergeBurst, MergeBulk, MergeHandshake,
        MergeSpoof, MergeContent, MergeClosed, HelloAnswered, HellosCut, Count, TimedOut, RanOut, LostUp, LostDown,
        Loss;
    RanOutIs(a.error);
    SilentRow(a.outcome);
    CutRow(a.outcome);
    FailRow(a.outcome);
    LossRow(a.outcome);
    BurstLoses(a);
    UnseenRows(a, parse);
    LossNames();
  }

  lemma LossRow(o: string)
    ensures Loss(o) <==> RowOf(o) in {TimesOut, CutsSession, CutsPackets, Freezes} || o == BULK_STALL
    ensures BULK_STALL != BURST_FREEZE && BULK_RESET != BURST_FREEZE && QUIC_HANDSHAKE != BURST_FREEZE
  {
    hide RowOf, Silent;
    SilentRow(o);
    CutRow(o);
  }

  /** What an attempt without a server half is reported as, losses aside. */
  predicate Apart(m: string) {
    m in {"injected", "path_closed_before_server", "refused_by_path_or_port_closed", "rst_injected_or_path_reset", "ok",
          "tls_mitm_or_wrong_server", "server_error", "inconclusive"}
  }

  lemma LossNames()
    ensures LostUp(UPLINK_DROP) && !LostDown(UPLINK_DROP)
    ensures forall m :: Apart(m) ==> !LostUp(m) && !LostDown(m)
  {
  }

  lemma UnseenRows(a: Attempt, parse: ParseReal)
    requires a.server.None?
    ensures MergeTimeout(a, parse) == UPLINK_DROP && MergePacketsCut(a) == UPLINK_DROP && MergeBulk(a) == UPLINK_DROP
    ensures LostUp(MergeSessionCut(a)) && !LostDown(MergeSessionCut(a))
    ensures MergeSpoof(a) == MergeContent(a) == "injected" && MergeClosed(a) == "path_closed_before_server"
    ensures MergeHandshake(a) == if a.outcome == QUIC_HANDSHAKE && TimedOut(a.error) then UPLINK_DROP else "injected"
  {
    hide TimedOut, Int, Get;
  }

  // ---- changed, injected, closed ----

  predicate Content(o: string) { o in {UNEXPECTED, MODIFIED, DNS_MISMATCH, DNS_RCODE, DNS_RACE} }

  /** A handshake that broke, other than by running out of time. */
  predicate Broke(a: Attempt) {
    || a.outcome in {TLS_ALERT, TLS_PARSE}
    || (a.outcome == QUIC_HANDSHAKE && !RanOut(a.error))
  }

  /** What was changed and where, over all rows: on the way in when the server saw a
      MAC or a name that is not what was sent, on the way back when the server had
      answered it, and nowhere near the server when it saw or answered nothing. */
  lemma ChangeIff(a: Attempt, parse: ParseReal)
    requires !IsDest(a.testID)
    ensures MergeVerdict(a, parse) == "uplink_modified"
       <==> && a.server.Some?
            && var s := a.server.value;
               || (Get(s.detail, Mac) == "invalid"
                   && (a.outcome == OK || Content(a.outcome)
                       || (Silent(a.outcome) && !Diverged(a) && Get(s.detail, Cookie) != "invalid")))
               || (Broke(a) && s.response == "handshake_failed" && Get(a.detail, Sni) != Get(s.detail, Sni))
    ensures MergeVerdict(a, parse) == "downlink_modified"
       <==> && a.server.Some?
            && var s := a.server.value;
               || ((Broke(a) || a.outcome == TLS_SPOOF) && s.response != "handshake_failed")
               || (Content(a.outcome) && Get(s.detail, Mac) != "invalid" && Answered(s))
    ensures MergeVerdict(a, parse) == "injected"
       <==> || (a.server.None? && (Broke(a) || a.outcome == TLS_SPOOF || Content(a.outcome)))
            || (Content(a.outcome) && a.server.Some? && Get(a.server.value.detail, Mac) != "invalid"
                && !Answered(a.server.value))
  {
    hide RowOf, IsDest, MergeTimeout, MergeSessionCut, MergePacketsCut, MergeBurst, MergeBulk, MergeHandshake,
        MergeSpoof, MergeContent, MergeClosed, Broke, Get, Silent, Diverged;
    SilentRow(a.outcome);
    CutRow(a.outcome);
    FailRow(a.outcome);
    OtherRow(a.outcome);
    PlainRows(a);
    if Silent(a.outcome) { TimeoutChanged(a, parse); }
    if a.outcome in {TLS_ALERT, TLS_PARSE, QUIC_HANDSHAKE} { HandshakeChanged(a); }
    ContentChanged(a);
    BrokeRow(a);
  }

  lemma TimeoutChanged(a: Attempt, parse: ParseReal)
    requires Silent(a.outcome)
    ensures MergeTimeout(a, parse) == "uplink_modified"
       <==> && a.server.Some? && !Diverged(a) && Get(a.server.value.detail, Cookie) != "invalid"
            && Get(a.server.value.detail, Mac) == "invalid"
    ensures MergeTimeout(a, parse) != "downlink_modified" && MergeTimeout(a, parse) != "injected"
  {
    hide Contains, Get, Waited, PastDeadline;
  }

  lemma HandshakeChanged(a: Attempt)
    requires a.outcome in {TLS_ALERT, TLS_PARSE, QUIC_HANDSHAKE}
    ensures MergeHandshake(a) == "uplink_modified"
       <==> && Broke(a) && a.server.Some? && a.server.value.response == "handshake_failed"
            && Get(a.detail, Sni) != Get(a.server.value.detail, Sni)
    ensures MergeHandshake(a) == "downlink_modified"
       <==> Broke(a) && a.server.Some? && a.server.value.response != "handshake_failed"
    ensures MergeHandshake(a) == "injected" <==> Broke(a) && a.server.None?
    ensures MergeHandshake(a) == "server_rejected_handshake"
       <==> && Broke(a) && a.server.Some? && a.server.value.response == "handshake_failed"
            && Get(a.detail, Sni) == Get(a.server.value.detail, Sni)
    ensures MergeHandshake(a) == "stalled_after_server_saw_it" <==> !Broke(a) && a.server.Some?
  {
    hide TimedOut, RanOut, Get;
    RanOutIs(a.error);
  }

  lemma BrokeRow(a: Attempt)
    ensures Broke(a) ==> a.outcome in {TLS_ALERT, TLS_PARSE, QUIC_HANDSHAKE}
  {
  }

  predicate Changing(m: string) { m in {"uplink_modified", "downlink_modified", "injected"} }

  lemma PlainRows(a: Attempt)
    ensures !Changing(MergeSessionCut(a)) && !Changing(MergePacketsCut(a)) && !Changing(MergeBulk(a))
    ensures !Changing(MergeBurst(a)) && !Changing(MergeClosed(a))
  {
    hide Changing, MergeSessionCut, MergePacketsCut, MergeBulk, MergeBurst, MergeClosed;
    SessionNames(a);
    CutNames(a);
    RestNames(a);
    PlainNames();
  }

  lemma PlainNames()
    ensures !Changing(UPLINK_DROP) && !Changing("downlink_drop") && !Changing("uplink_drop_after_handshake")
    ensures !Changing("downlink_drop_after_handshake") && !Changing("rst_injected_bidirectional")
    ensures !Changing("rst_injected_or_path_reset") && !Changing("server_rejected_handshake")
    ensures !Changing("path_closed_before_server") && !Changing("server_closed")
  {
  }

  lemma ContentChanged(a: Attempt)
    ensures MergeContent(a) == "uplink_modified" <==> a.server.Some? && Get(a.server.value.detail, Mac) == "invalid"
    ensures MergeContent(a) == "downlink_modified"
       <==> a.server.Some? && Get(a.server.value.detail, Mac) != "invalid" && Answered(a.server.value)
    ensures MergeContent(a) == "injected"
       <==> a.server.None? || (Get(a.server.value.detail, Mac) != "invalid" && !Answered(a.server.value))
    ensures MergeSpoof(a) == "injected" <==> a.server.None?
    ensures MergeSpoof(a) == "server_rejected_handshake"
       <==> a.server.Some? && a.server.value.response == "handshake_failed"
    ensures MergeSpoof(a) == "downlink_modified"
       <==> a.server.Some? && a.server.value.response != "handshake_failed"
    ensures MergeSpoof(a) != "uplink_modified"
  {
    hide Get;
  }

  /** A handshake the server itself turned down, and one that stalled once it had seen it. */
  lemma RejectIff(a: Attempt, parse: ParseReal)
    requires !IsDest(a.testID)
    ensures MergeVerdict(a, parse) == "server_rejected_handshake"
       <==> || (a.server.Some? && a.server.value.response == "handshake_failed"
                && (a.outcome == TLS_SPOOF
                    || (Broke(a) && Get(a.detail, Sni) == Get(a.server.value.detail, Sni))))
            || (a.outcome == BURST_FREEZE && Count(a.detail, BurstN) <= Count(a.detail, AlphaSeen)
                && !HelloAnswered(a.detail, a.server) && !HellosCut(a.detail, a.server))
    ensures MergeVerdict(a, parse) == "stalled_after_server_saw_it"
       <==> a.outcome == QUIC_HANDSHAKE && RanOut(a.error) && a.server.Some?
  {
    hide RowOf, IsDest, MergeTimeout, MergeSessionCut, MergePacketsCut, MergeBurst, MergeBulk, MergeHandshake,
        MergeSpoof, MergeContent, MergeClosed, RanOut, Get, Count, HelloAnswered, HellosCut, LostUp, LostDown;
    CutRow(a.outcome);
    FailRow(a.outcome);
    ContentChanged(a);
    if a.outcome in {TLS_ALERT, TLS_PARSE, QUIC_HANDSHAKE} { HandshakeChanged(a); }
    BurstLoses(a);
    BurstRejects(a);
    TakenRows(a, parse);
  }

  lemma BurstRejects(a: Attempt)
    ensures MergeBurst(a) == "server_rejected_handshake" <==> !LostUp(MergeBurst(a)) && !LostDown(MergeBurst(a))
  {
    hide Int, IsInt, Get, Waited;
  }

  predicate Refusing(m: string) { m in {"server_rejected_handshake", "stalled_after_server_saw_it"} }

  lemma TakenRows(a: Attempt, parse: ParseReal)
    ensures !Refusing(MergeTimeout(a, parse)) && !Refusing(MergeSessionCut(a)) && !Refusing(MergePacketsCut(a))
    ensures !Refusing(MergeBulk(a)) && !Refusing(MergeContent(a)) && !Refusing(MergeClosed(a))
    ensures MergeBurst(a) != "stalled_after_server_saw_it" && MergeSpoof(a) != "stalled_after_server_saw_it"
  {
    hide Refusing, MergePacketsCut, MergeSessionCut, MergeBurst, MergeTimeout, MergeBulk, MergeSpoof, MergeContent,
        MergeClosed;
    SessionNames(a);
    CutNames(a);
    TimeoutNames(a, parse);
    RestNames(a);
    TakenNames();
  }

  lemma TakenNames()
    ensures !Refusing(UPLINK_DROP) && !Refusing("downlink_drop") && !Refusing("uplink_drop_after_handshake")
    ensures !Refusing("downlink_drop_after_handshake") && !Refusing("connect_diverged_middlebox_or_misattributed")
    ensures !Refusing("cookie_mismatch_nat_or_multipath") && !Refusing("uplink_modified")
    ensures !Refusing("uplink_delayed_past_deadline") && !Refusing("server_error") && !Refusing("server_silent")
    ensures !Refusing("injected") && !Refusing("downlink_modified") && !Refusing("rst_injected_bidirectional")
    ensures !Refusing("rst_injected_or_path_reset") && !Refusing("path_closed_before_server")
    ensures !Refusing("server_closed")
  {
  }

  /** Outcomes that say what became of the attempt; the table has a row for each. */
  predicate Telling(o: string) {
    || Loss(o) || Content(o)
    || o in {OK, CONNECT_RESET, MIDSTREAM_RESET, MIDSTREAM_EOF, CONNECT_REFUSED, TLS_SPOOF, BULK_RESET}
    || o in {TLS_ALERT, TLS_PARSE, QUIC_HANDSHAKE, CERT_MISMATCH, SERVER_ERROR}
  }

  /** Every telling outcome is told: nothing else merges to "inconclusive", a wrong
      certificate keeps its own name, and a fault of the server stays one. */
  lemma ToldIff(a: Attempt, parse: ParseReal)
    requires !IsDest(a.testID)
    ensures MergeVerdict(a, parse) == "inconclusive" <==> !Telling(a.outcome)
    ensures MergeVerdict(a, parse) == "tls_mitm_or_wrong_server" <==> a.outcome == CERT_MISMATCH
    ensures a.outcome == SERVER_ERROR ==> MergeVerdict(a, parse) == "server_error"
  {
    hide RowOf, IsDest, MergeTimeout, MergeSessionCut, MergePacketsCut, MergeBurst, MergeBulk, MergeHandshake,
        MergeSpoof, MergeContent, MergeClosed, Telling;
    TellingRow(a.outcome);
    OtherRow(a.outcome);
    ToldRows(a, parse);
  }

  lemma TellingRow(o: string)
    ensures Telling(o) <==> RowOf(o) != NoRow
  {
    hide RowOf, Silent;
    SilentRow(o);
    CutRow(o);
    FailRow(o);
    OtherRow(o);
  }

  predicate Untold(m: string) { m in {"inconclusive", "tls_mitm_or_wrong_server"} }

  lemma ToldRows(a: Attempt, parse: ParseReal)
    ensures !Untold(MergeTimeout(a, parse)) && !Untold(MergeSessionCut(a)) && !Untold(MergePacketsCut(a))
    ensures !Untold(MergeBulk(a)) && !Untold(MergeContent(a)) && !Untold(MergeClosed(a)) && !Untold(MergeBurst(a))
    ensures !Untold(MergeSpoof(a)) && !Untold(MergeHandshake(a))
  {
    hide Untold, MergePacketsCut, MergeSessionCut, MergeBurst, MergeTimeout, MergeBulk, MergeSpoof, MergeContent,
        MergeClosed, MergeHandshake;
    SessionNames(a);
    CutNames(a);
    TimeoutNames(a, parse);
    RestNames(a);
    ToldNames();
  }

  lemma ToldNames()
    ensures !Untold(UPLINK_DROP) && !Untold("downlink_drop") && !Untold("uplink_drop_after_handshake")
    ensures !Untold("downlink_drop_after_handshake") && !Untold("connect_diverged_middlebox_or_misattributed")
    ensures !Untold("cookie_mismatch_nat_or_multipath") && !Untold("uplink_modified")
    ensures !Untold("uplink_delayed_past_deadline") && !Untold("server_error") && !Untold("server_silent")
    ensures !Untold("injected") && !Untold("downlink_modified") && !Untold("rst_injected_bidirectional")
    ensures !Untold("rst_injected_or_path_reset") && !Untold("path_closed_before_server")
    ensures !Untold("server_closed") && !Untold("server_rejected_handshake") && !Untold("stalled_after_server_saw_it")
  {
  }

  /** Who closed or refused the connection, over all rows. */
  lemma CloseIff(a: Attempt, parse: ParseReal)
    requires !IsDest(a.testID)
    ensures MergeVerdict(a, parse) == "rst_injected_bidirectional"
       <==> && a.outcome in {CONNECT_RESET, MIDSTREAM_RESET, BULK_RESET}
            && a.server.Some? && a.server.value.close == "client_reset"
    ensures MergeVerdict(a, parse) == "rst_injected_or_path_reset"
       <==> || (a.outcome in {CONNECT_RESET, MIDSTREAM_RESET}
                && (a.server.Some? ==> a.server.value.close != "client_reset"))
            || (a.outcome == BULK_RESET && a.server.Some? && a.server.value.close != "client_reset")
            || (a.outcome == MIDSTREAM_EOF && a.server.Some? && a.server.value.close == "client_reset")
    ensures MergeVerdict(a, parse) == "server_closed"
       <==> a.outcome == MIDSTREAM_EOF && a.server.Some? && a.server.value.close != "client_reset"
    ensures MergeVerdict(a, parse) == "path_closed_before_server" <==> a.outcome == MIDSTREAM_EOF && a.server.None?
    ensures MergeVerdict(a, parse) == "refused_after_server_saw_it" <==> a.outcome == CONNECT_REFUSED && a.server.Some?
    ensures MergeVerdict(a, parse) == "refused_by_path_or_port_closed"
       <==> a.outcome == CONNECT_REFUSED && a.server.None?
  {
    hide RowOf, IsDest, MergeTimeout, MergeSessionCut, MergePacketsCut, MergeBurst, MergeBulk, MergeHandshake,
        MergeSpoof, MergeContent, MergeClosed;
    CutRow(a.outcome);
    FailRow(a.outcome);
    OpenRows(a, parse);
    ClosedIff(a);
    if a.outcome in {BULK_STALL, BULK_RESET} { BulkClosed(a); }
  }

  predicate Closing(m: string) {
    m in {"rst_injected_bidirectional", "rst_injected_or_path_reset", "server_closed", "path_closed_before_server",
          "refused_after_server_saw_it", "refused_by_path_or_port_closed"}
  }

  lemma OpenRows(a: Attempt, parse: ParseReal)
    ensures !Closing(MergeTimeout(a, parse)) && !Closing(MergeSessionCut(a)) && !Closing(MergePacketsCut(a))
    ensures !Closing(MergeBurst(a)) && !Closing(MergeHandshake(a)) && !Closing(MergeSpoof(a))
    ensures !Closing(MergeContent(a))
  {
    hide Closing, MergePacketsCut, MergeSessionCut, MergeBurst, MergeTimeout, MergeHandshake, MergeSpoof, MergeContent;
    SessionNames(a);
    CutNames(a);
    TimeoutNames(a, parse);
    RestNames(a);
    OpenNames();
  }

  lemma OpenNames()
    ensures !Closing(UPLINK_DROP) && !Closing("downlink_drop") && !Closing("uplink_drop_after_handshake")
    ensures !Closing("downlink_drop_after_handshake") && !Closing("connect_diverged_middlebox_or_misattributed")
    ensures !Closing("cookie_mismatch_nat_or_multipath") && !Closing("uplink_modified")
    ensures !Closing("uplink_delayed_past_deadline") && !Closing("server_error") && !Closing("server_silent")
    ensures !Closing("server_rejected_handshake") && !Closing("stalled_after_server_saw_it") && !Closing("injected")
    ensures !Closing("downlink_modified")
  {
  }

  lemma ClosedIff(a: Attempt)
    ensures MergeClosed(a) == "server_closed" <==> a.server.Some? && a.server.value.close != "client_reset"
    ensures MergeClosed(a) == "path_closed_before_server" <==> a.server.None?
    ensures MergeClosed(a) == "rst_injected_or_path_reset"
       <==> a.server.Some? && a.server.value.close == "client_reset"
    ensures MergeClosed(a) !in {"rst_injected_bidirectional", "refused_after_server_saw_it",
                                "refused_by_path_or_port_closed"}
  {
  }

  lemma BulkClosed(a: Attempt)
    requires a.outcome in {BULK_STALL, BULK_RESET}
    ensures MergeBulk(a) == "rst_injected_bidirectional"
       <==> a.outcome == BULK_RESET && a.server.Some? && a.server.value.close == "client_reset"
    ensures MergeBulk(a) == "rst_injected_or_path_reset"
       <==> a.outcome == BULK_RESET && a.server.Some? && a.server.value.close != "client_reset"
    ensures MergeBulk(a) !in {"server_closed", "path_closed_before_server", "refused_after_server_saw_it",
                              "refused_by_path_or_port_closed"}
  {
    hide Int, Get;
  }

  /** A session cut with 5 data packets sent and 2 seen was cut on the way in. */
  lemma SomeCutSession(a: Attempt, s: Observation, parse: ParseReal)
    requires a.server == Some(s) && a.testID == "wireguard.session" && a.outcome == SESSION_CUT
    requires a.detail == map[DataSent := "5", ServerDataSeen := "2"]
    ensures MergeVerdict(a, parse) == "uplink_drop_after_handshake"
  {
    hide MergeVerdict, Silent, Overruled;
    assert Get(a.detail, DataSent) == "5" && Get(a.detail, ServerDataSeen) == "2";
    CountReadsBack(5);
    CountReadsBack(2);
    assert Itoa(5) == "5" && Itoa(2) == "2";
    assert "wireguard.session"[0] != 'd';
    SilentRow(SESSION_CUT);
    LossIff(a, s, parse);
    DropNames(a, parse);
  }

  // ---- a late arrival, in the client's clock ----

  /** A parser that reads the whole numbers reports are written with. */
  ghost predicate Faithful(parse: ParseReal) {
    (forall n: int :: parse(Itoa(n)) == Some(n as real)) && parse("-0") == Some(0.0)
  }

  lemma NearestIsNear(x: real)
    ensures x - 0.5 <= Nearest(x) as real <= x + 0.5
    ensures Nearest(x) as real in {x - 0.5, x + 0.5} ==> Nearest(x) % 2 == 0
  {
  }

  lemma WholeReadsBack(x: real, parse: ParseReal)
    requires Faithful(parse)
    ensures parse(Whole(x)) == Some(Nearest(x) as real)
  {
    hide Nearest;
    assert parse(Itoa(Nearest(x))) == Some(Nearest(x) as real);
  }

  lemma MillisIsNear(ns: int)
    ensures ns as real - 1000.0 < 1000000.0 * Millis(ns) < ns as real + 1000.0
  {
    var m := if ns < 0 then -ns else ns;
    var q := m / 1000;
    assert 1000 * q <= m < 1000 * q + 1000;
    assert (1000 * q) as real <= m as real < (1000 * q + 1000) as real;
  }

  /** When the client's first write left, or before that its connection. */
  function LeftAt(a: Attempt): real {
    if FirstWrite in a.stages then a.stages[FirstWrite] else if Connect in a.stages then a.stages[Connect] else 0.0
  }

  /** A dated flow counts as late when the server, its clock set back by the skew,
      first saw it more than a second after the client was done, counted from when
      it was sent; to within a millisecond of the margin. */
  lemma LateIff(a: Attempt, s: Observation, skew: int, parse: ParseReal)
    requires a.server == Some(s) && s.firstSeenAt != 0 && a.startedAt != 0 && Faithful(parse)
    ensures Done !in a.stages ==> !TooLate(Located(a, skew), parse)
    ensures Done in a.stages ==>
              var seen := (s.firstSeenAt - skew - a.startedAt) as real / 1000000.0;
              var over := seen - LeftAt(a) - a.stages[Done] - 1000.0;
              && (over > 1.0 ==> TooLate(Located(a, skew), parse))
              && (over < -1.0 ==> !TooLate(Located(a, skew), parse))
  {
    hide Nearest, Whole, Millis;
    var ns := s.firstSeenAt - skew - a.startedAt;
    var x := Millis(ns) - LeftAt(a);
    MillisIsNear(ns);
    NearestIsNear(x);
    WholeReadsBack(x, parse);
    assert Get(Located(a, skew).detail, ServerDelayMs) == Whole(x);
  }
}
