/** The two halves of the evidence for one flow: the client's attempt and the
    server's observation. Outcome and merge-table names stay strings, as in the
    report; the keys of detail and stage maps are a closed vocabulary. */
module Evidence {
  import opened Base
  import opened Text

  datatype Key =
    | Transient | Cancelled | LocalError | SystemError | Tamper
    | VerifySystem | VerifyTrusted | VerifyIP | Note
    | ResetMs | ResetBeforeRTT | ServerDelayMs
    | Stage | Auth | Parse | Mac | Cookie | Partial | Sni | Qname | Bulk | BulkBytes | BulkUpBytes
    | DataIn | DataSent | CtlIn | CtlSent | ServerDataSeen | ServerCtlSeen
    | PacketsSent | PacketsAcked | ServerPacketsSeen
    | BurstN | AlphaSeen | AlphaHello | AlphaAnswered | AlphaPartial
    | SynAckSuspect | IP | Endpoint
    | OtherKey(name: string)

  type Detail = map<Key, string>

  function Get(d: Detail, k: Key): string { if k in d then d[k] else "" }

  datatype StageName = Reserve | Connect | FirstWrite | Done | OtherStage(name: string)

  /** Milliseconds since the attempt started (for Connect: the duration). */
  type Stages = map<StageName, real>

  datatype Role = Baseline | Variant | Control | OtherRole(name: string)

  datatype Observation = Observation(
    id: string, sessionID: string, attemptID: string, testID: string, nonce: string,
    transport: string, dstPort: int, srcPort: int, firstSeenAt: nat, replied: bool,
    bytesIn: int, bytesOut: int, parse: string, detail: Detail,
    response: string, close: string, serverError: string)

  /** Times are nanoseconds; 0 is Go's zero time. */
  datatype Attempt = Attempt(
    testID: string, group: string, role: Role, variant: string, transport: string, dstPort: int, srcPort: int,
    round: int, startedAt: nat, stages: Stages, outcome: string, error: string,
    nonce: string, attemptID: string, detail: Detail, server: Option<Observation>, merged: string)

  const OK := "ok"
  const CONNECT_TIMEOUT := "connect_timeout"
  const CONNECT_REFUSED := "connect_refused"
  const CONNECT_RESET := "connect_reset"
  const PAYLOAD_TIMEOUT := "payload_timeout"
  const MIDSTREAM_RESET := "midstream_reset"
  const MIDSTREAM_EOF := "midstream_eof"
  const TLS_ALERT := "tls_alert"
  const TLS_PARSE := "tls_parse_failure"
  const TLS_SPOOF := "tls_spoof"
  const BULK_STALL := "bulk_stall"
  const BULK_RESET := "bulk_reset"
  const SESSION_CUT := "session_cut"
  const PACKETS_CUT := "packets_cut"
  const BURST_FREEZE := "burst_freeze"
  const CERT_MISMATCH := "cert_mismatch"
  const HTTP_LEGAL_BLOCK := "http_legal_block"
  const MODIFIED := "modified"
  const UNEXPECTED := "unexpected_response"
  const DNS_TIMEOUT := "dns_timeout"
  const DNS_RCODE := "dns_rcode"
  const DNS_MISMATCH := "dns_answer_mismatch"
  const DNS_RACE := "dns_injected_race"
  const QUIC_NO_RESPONSE := "quic_no_response"
  const QUIC_HANDSHAKE := "quic_handshake_failure"
  const SERVER_ERROR := "server_error"
  const INCONCLUSIVE := "inconclusive"
  const SKIPPED := "skipped"

  predicate IsDest(test: string) { HasPrefix(test, "dest.") }

  /** The name of the failure of the host itself a failed attempt ended on, or "". */
  function LocalFailure(a: Attempt): string {
    if a.outcome == OK then ""
    else if Get(a.detail, LocalError) != "" then Get(a.detail, LocalError)
    else HostWords(a.error, Get(a.detail, SystemError))
  }

  const NO_ROUTE := "no_route"

  /** What the operating system's own words in an error say about the host. */
  function HostWords(error: string, systemError: string): string {
    if Contains(error, "software caused connection abort") then "econnaborted"
    else if Contains(error, "operation not permitted") then "eperm"
    else if Contains(systemError, "resNetworkResult failed: ECONNREFUSED") then "resolver_blocked"
    else ""
  }
}
