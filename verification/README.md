# A verified model of the probe

CensorPulse is a two-ended network probe. The server keeps bounded state and ties
incoming flows to attempts a client has announced. The client schedules attempts in
rounds on parallel workers. A classifier turns the merged evidence into verdicts.
This project models the parts where a mistake would be silent, and proves what the
code and its documentation promise about them, for all inputs and all runs.

`dafny verify dfyconfig.toml` checks everything (Dafny 4.11).

## How it is laid out

| files | what they model |
|---|---|
| `Base`, `Bytes`, `Text`, `Sorting`, `Listing`, `Evidence` | shared vocabulary: options, sums over maps, addresses, wire numbers, strings, stable sorting, walking a set in any order, attempts and observations |
| `RateWindow`, `Quota`, `StoreModel`, `StoreAccounting`, `StoreCollection`, `StoreLaws`, `Store` | the server store: operations on values, theorems over whole runs, what each operation does on the facts, and the object with its loops proved against the operations |
| `Envelope`, `Framing` | the CP1 envelope and the loop that reads envelopes off a TCP stream |
| `Ovpn`, `Keystream` | the OpenVPN control channel and the random-access bulk stream |
| `UdpVpn`, `AnswerSizes` | the VPN sessions of a UDP listener, on top of the store, and how long its answers are |
| `SchedulePlan`, `Scheduler`, `SchedulePools`, `ScheduleForecast`, `ScheduleRuns`, `ScheduleTail`, `ScheduleRetries`, `ScheduleStops` | the client's scheduler as a step system over every interleaving |
| `Correlation`, `PoolProtocol` | pool locks and reservations as one two-party protocol, and the scheduler running it |
| `Merge`, `Remerge`, `ReadingLaws`, `MergeLaws` | finding the server's half of an attempt, reading a stored report again, and the merge table read backwards: for every result the facts that bring it about |
| `Cells`, `Outages`, `LocalOutages`, `Rules`, `RuleFacts`, `Mechanisms`, `SynAck`, `Dest`, `DestControls`, `StrengthOfEvidence`, `RuleContext`, `Classify` | the classifier: cells, outage windows, the rules, and the pipeline as a whole |
| `CellCounts`, `HostRuns`, `PathRuns`, `RuleLaws`, `MechanismLaws`, `PortSpeeds`, `DestLaws`, `ReportLaws` | what the classifier says, told without its functions: what a cell counts, which attempts outages take out, and for every finding the condition on cells and attempts under which it is in the report |

Conventions. Times are integers (nanoseconds); a section under a mutex is one atomic
step. HMAC and SHA are parameters of which only the output length is used. Random
draws (ids, shuffles, nonces) are parameters or arbitrary choices. A Go map that the
source walks is walked here in an arbitrary order chosen by `:|`. An object the source
updates in place is a class, a slice it updates in place is an array; each such method
is proved against a function, and the theorems are about that function. The theorems of
the files named `Laws`, and of `CellCounts`, `HostRuns`, `PathRuns` and `PortSpeeds`, are
if-and-only-if statements whose other side does not use that function. A store field
that holds a slice is a sequence; compacting one works in place on an array of its
elements.

## What turned out not to hold

- The comment at internal/server/udp_vpn.go:16-19 says a VPN follow-up is never answered
  with more bytes than it brought. An answer fits its request if and only if the request
  is roomy: WireGuard data in whole blocks of 16, an IKE_AUTH of at least 64 bytes, an
  L2TP call request with at least 16 bytes of attributes, an OpenVPN control packet of at
  least `HdrLen(1)` + 5 bytes, or any other follow-up (`AnswerSizes.AnswersFitIff`,
  `AnswerSizes.SomeAreOutgrown`, `Ovpn.ShortControlIsOutgrown`).
- The same comment bounds all follow-ups of a VPN session by 64. The control messages of
  an L2TP tunnel are not counted: for every n there is a run of a new listener in which n
  of them are answered (`UdpVpn.L2tpControlUnbounded`). All other follow-ups are bounded,
  and no other protocol has such messages (`UdpVpn.Run`).
- A flow is tied to the attempt that holds its pool if and only if no flow of the pool
  was matched since that attempt reserved. A late flow of an earlier attempt takes the
  reservation of the next (`Correlation.FirstMatchIsOwn`, `Correlation.LateFlowTakesTheNext`).
- Remerging a stored report twice is remerging it once if and only if no attempt gets a
  note that holds words read as a failure of the host (`Remerge.ReportTwice`,
  `Remerge.FragileIff`, `Remerge.SomeFragile`). An attempt whose error quotes both checks,
  as this build writes it, never does, so a report of this build stays as it is
  (`Remerge.WrittenIsNotFragile`, `Classify.RecordedReportStays`).
- The classifier is documented to name, in every verdict, the control that passed
  (internal/classify/classify.go:1-3). Rules 2, 4, 5, 5b, 5c and 6 do so exactly when the
  verdict is not a DNS manipulation and a frozen burst has a passing control; rule 1 never
  does (`StrengthOfEvidence.NoFailureInIsolation`, `StrengthOfEvidence.EndpointStandsAlone`,
  `StrengthOfEvidence.SomeBurstStandsAlone`).
- The same is documented of the verdicts on destinations (internal/classify/dest.go:45-49).
  `DestControls.HasControl` is the condition, place by place: never for an invented
  answer, a failed transport control and an unreliable resolver; for poisoning only with a
  clean lookup elsewhere or after a timeout; for a TLS handshake only with a decoy, TCP or
  anycast control that passes; and so on (`DestControls.DestinationControl`,
  `DestControls.SomeHijackStandsAlone`). A reset keyed on the name has the decoy that was
  never reset instead (`DestControls.ResetHasItsControl`).
- With a resolver that agrees with the trusted ones on no site, no site is meant to be
  called poisoned (internal/classify/dest.go:138-143). A site is, if and only if its own
  lookup timed out, fewer than half of them did and the anycast control passes
  (`DestControls.UnreliableStillPoisons`, `DestControls.SomeSiteIsPoisoned`).
- The DNS port rule skips every dns.udp cell next to a passing dns.tcp as already reported
  (internal/classify/rules_dns.go:64-66). Of those only the last TXT cell is: rule 6 calls
  no other query type blocked (`RuleFacts.DnsBlockedIff`, `RuleFacts.SomeQueryTypeIsLeftOut`).
- The retries of the tail are those foretold in every run if and only if no late plan
  shares its group with a plan that is not late, of a test id that is late elsewhere
  (`ScheduleTail.ForecastIsExactIff`, `ScheduleTail.SomeForecastFallsShort`). The shipped
  catalogue adds tor.handshake, tor.link and tls.burst as late plans only
  (internal/client/plan.go:253-311), so it has no such pair (`ScheduleTail.PureDoesNotMix`).
  The total is right either way.
- The quota store dates a counter by day of the year. When a day recurs, the global
  counter and the sum of the per-address counters part (`Quota.RecurringDayBreaksTheSum`).
  They agree throughout a run exactly when no granted charge opens a day on the global
  counter while a client counter of that day number still stands (`Quota.SumHoldsIff`).
- Collecting garbage shows in the limit on live sessions, and there only: exactly when it
  makes room in a full table while the caller's window has room
  (`StoreCollection.SessionLimitUnaffectedIff`, `StoreCollection.StaleTableShows`).
- Bytes that a read returns together with its error are recorded and not served. Nothing is
  lost by that if and only if they complete no envelope (`Framing.LastReadCounts`).

## Model

| member | source | states |
|---|---|---|
| `RateWindow.WindowNeverOverfull` | internal/server/store.go:174-210 | with questions at nondecreasing times and sweeps anywhere between, every closed window of the rule's length holds at most the limit of admitted events per key |
| `RateWindow.AdmittedIffRoom` | internal/server/store.go:184-210 | after any such run a question is refused exactly when the window that ends with it is full |
| `Quota.QuotaConserved` | internal/server/store.go:117-141 | for valid addresses, nonnegative charges and days that do not recur, the global counter of a day is the sum of that day's per-key counters, and both stay within their limits |
| `Quota.CountersAreGrants` | internal/server/store.go:117-141 | the counters are exactly what was granted that day, in total and per key, so a refused charge changes nothing |
| `Quota.SumKept` | internal/server/store.go:117-141 | from a state where the sum holds, one charge or sweep keeps it if and only if it is not a charge within both limits that opens a day on the global counter while a client counter of that day number stands |
| `Quota.SumHoldsIff` | internal/server/store.go:117-141 | for all runs of valid charges, day numbers recurring or not, the sum holds throughout if and only if no charge reopens a day in that way |
| `Quota.RecurringDayBreaksTheSum` | internal/server/store.go:117-141 | a concrete run in which a day number recurs and the sum no longer holds |
| `StoreModel.NewestSpec` | internal/server/store.go:291-311 | the scan finds the newest of the eligible reservations, of equally new ones the first, and nothing exactly when none is eligible |
| `Addresses.SameClient` | internal/server/store.go:104-112 | two addresses share a rate key if and only if they are the same IPv4 address, mapped or plain, or share their /64 |
| `StoreLaws.FindIff` | internal/server/store.go:291-311 | a flow gets the newest reservation that is unused, not run out, from its client, for its transport and port and of a kind that fits; consuming marks that one and changes nothing else; with none, nothing changes |
| `StoreLaws.PutThenGet` | internal/server/store.go:212-232 | a stored session is looked up until it runs out, with the rows its id had before; no other id is affected |
| `StoreLaws.DropIff` | internal/server/store.go:321-350 | which of the three drop counters a row that is not filed adds to, by whether its session is live and which cap is reached |
| `StoreLaws.GrantIff` | internal/server/store.go:117-141 | in every run of charges on days that do not recur, a charge is granted if and only if the client's granted bytes of the day leave room in its share and all granted bytes leave room in 4 GiB |
| `StoreLaws.GcKeeps` | internal/server/store.go:383-427 | gc keeps a session if and only if it is not more than a minute past its end, of its rows exactly those within retention, in order, of the reservations exactly the unused ones less than a minute past their end, and of the counters exactly the day's |
| `StoreLaws.SweepKeeps` | internal/server/store.go:405-414 | a limit's times, in the order they were noted, are kept, all of them, if and only if one is within the window |
| `StoreAccounting.ObservationAccounting` | internal/server/store.go:321-350 | through every run of put, add and gc the row count is the sum of all sessions' rows and within its bound, no session holds more than 8192 rows, and every row carries the canonical id of its session |
| `StoreAccounting.AddIsIsolated` | internal/server/store.go:321-350 | adding a row appends it to the one session it names, exactly when that session is live and both caps leave room, and changes no other session |
| `StoreAccounting.RowsOnlyGrow` | internal/server/store.go:212-221 | without gc no operation removes or reorders a row, storing a known session again included |
| `StoreCollection.FindUnaffected` | internal/server/store.go:383-427 | a reservation query later than one minute before a gc finds what it would have found without it |
| `StoreCollection.GetUnaffected` | internal/server/store.go:383-427 | likewise for looking a session up |
| `StoreCollection.LimitsUnaffected` | internal/server/store.go:409-419 | attempt limits from the gc on, and quotas on its day, answer as without it |
| `StoreCollection.SessionLimitUnaffectedIff` | internal/server/store.go:184-197 | the session limit answers as without the gc if and only if the gc did not make room in a full table while the window had room |
| `StoreCollection.StaleTableShows` | internal/server/store.go:389-404 | a table full of sessions that ran out refuses until it is swept |
| `StoreCollection.CollectionNeverShows` | internal/server/store.go:383-427 | over whole runs of storing, looking up and asking for sessions, matches, reservations, attempts and charges, with a clock and a day that never go back and gc inserted anywhere, every answer is the one given without any gc, as long as the session table would not fill up without it |
| `Store.Prune` | internal/server/store.go:174-180 | the loop drops exactly the leading times before the window |
| `Store.SweepRates` | internal/server/store.go:405-414 | walking the rate map in any order prunes every key and drops the empty ones |
| `Store.SweepUses` | internal/server/store.go:415-419 | walking the quota map in any order keeps exactly today's counters |
| `Store.CompactRows` | internal/server/store.go:395-403 | the in-place compaction moves exactly the rows within retention to the front, in order |
| `Store.CompactReservations` | internal/server/store.go:420-426 | the in-place compaction moves exactly the pending reservations to the front, in order, none twice |
| `Store.SweepRows` | internal/server/store.go:395-403 | the rows kept are exactly those within retention, in order |
| `Store.Store.AllowSession` | internal/server/store.go:184-197 | refuses at the live-session cap without touching the window, otherwise answers and updates as the sliding window does |
| `Store.Store.AllowAttempt` | internal/server/store.go:200-210 | answers and updates as the sliding window of ten minutes does |
| `Store.Store.ConsumeBulk` | internal/server/store.go:117-141 | answers and updates as the daily quota does |
| `Store.Store.PutSession` | internal/server/store.go:212-221 | a known id keeps the rows filed under it |
| `Store.Store.GetSession` | internal/server/store.go:224-232 | gives a session only until it expires |
| `Store.Store.Reserve` | internal/server/store.go:242-250 | files the reservation last, under the drawn id |
| `Store.Store.NewestFor` | internal/server/store.go:291-307 | the loop over the reservations finds the newest eligible one, by pointer |
| `Store.Store.FindReservation` | internal/server/store.go:291-311 | hands out that reservation and marks it and no other, only when asked to consume |
| `Store.Store.AddObservationAt` | internal/server/store.go:321-350 | the new state and the drop counters are those of the value model |
| `Store.Store.ObservationsFor` | internal/server/store.go:355-369 | serves a stable sort of the session's rows by first sight, or nothing for an id that names none |
| `Store.ServedRows` | internal/server/store.go:355-369 | that order is sorted, loses nothing, and keeps rows of one instant in the order they came |
| `Store.Store.TakeDrops` | internal/server/store.go:373-378 | reports the drop counters since the last call and clears them |
| `Store.Store.CollectSessions` | internal/server/store.go:389-404 | drops stale sessions and old rows and lowers the row count by exactly the rows removed, in any map order |
| `Store.Store.CollectReservations` | internal/server/store.go:420-426 | compacts the reservations to the pending ones, in order |
| `Store.Store.GC` | internal/server/store.go:383-427 | the whole new state is that of the value model |
| `Envelope.RequestLen` | internal/proto/envelope.go:152-171 | either the length is unknown and more bytes are asked for than there are, or it is known and they are there |
| `Envelope.RequestRoundTrip` | internal/proto/envelope.go:118-238 | for every legal request, key and tail: the length is found, and decoding gives the request back, as genuine under the key it was made with and as unproven when the session has none |
| `Envelope.DecodesIff` | internal/proto/envelope.go:205-238 | for all bytes: they decode as a genuine request if and only if they start with its frame and the tag that the key of its session gives that frame, and as an unproven one if and only if they start with its frame and another tag, or no key is known |
| `Envelope.DecodesToNothingIff` | internal/proto/envelope.go:205-216 | for all bytes: they are no envelope if and only if they do not start like one, and a truncated one if and only if they do and its length is not there |
| `Envelope.FlippedIsUnproven` | internal/proto/envelope.go:227-238 | a request whose bytes were changed on the way is read and not believed, under any tag that tells the two apart |
| `Envelope.EncodedLen` | internal/proto/envelope.go:118-147 | the size of an encoded request, at most 8520 bytes |
| `Envelope.PeekAgrees` | internal/proto/envelope.go:178-199 | on every cut of an encoded request, peeking gives exactly the fields that arrived, with the values of the full decode |
| `Envelope.ReplyRoundTrip` | internal/proto/envelope.go:241-304 | decoding undoes encoding of a reply |
| `Envelope.ReplyDecodesIff` | internal/proto/envelope.go:273-304 | for all bytes: a reply is genuine if and only if they start with its frame and the tag of the key, and forged if and only if with another tag |
| `Envelope.EchoCloses` | internal/client/client.go:401-417 | the reply to a request passes the client's check for that request, and the check reports a modified uplink exactly when the payload the server saw differs in length or hash |
| `Envelope.ChecksIff` | internal/client/client.go:401-417 | for all bytes: the client accepts a reply if and only if the key signed it for this nonce, this payload hash and length; it reports a modified reply, a foreign nonce and a modified uplink each if and only if that is what fails first |
| `Framing.Fill` | internal/server/tcp.go:409-435 | reading until an envelope is complete neither loses nor invents bytes, and trips the size guard only when the whole stream would |
| `Framing.ServeFlow` | internal/server/tcp.go:409-483 | for every way the stream is cut into reads of at most 8192 bytes, the loop answers the same requests in order and ends the same way, with the bytes of a failing read kept |
| `Framing.FirstAnswers` | internal/server/tcp.go:436-459 | the next bytes of any stream are answered with a request if and only if they start with a proven envelope of it, within the size guard, that is granted |
| `Framing.FirstStops` | internal/server/tcp.go:436-483 | how the flow ends, for any bytes: each end if and only if its condition holds |
| `Framing.FlowSplits` | internal/server/tcp.go:409-483 | every stream is a run of proven, granted envelopes, whose requests are exactly those answered, and a rest on which the flow ends |
| `Framing.SplitServes` | internal/server/tcp.go:409-483 | and whatever is such a run and such a rest is served that way |
| `Framing.LastReadCounts` | internal/server/tcp.go:425-447 | keeping the bytes of a failing read without serving them is what serving the whole stream gives, if and only if they complete no envelope |
| `Framing.StreamExact` | internal/server/tcp.go:409-459 | a stream of granted envelopes followed by part of another is answered envelope by envelope and leaves exactly that part; the size guard refuses none |
| `Framing.CutFlowIdentified` | internal/server/tcp.go:460-483 | what is recorded for a flow cut inside its first envelope is what that envelope carries, as far as it arrived |
| `Ovpn.Layout.constructor` | internal/ovpn/ovpn.go:150-155 | a tls-auth layout counts from 1, a plain one does not count |
| `Ovpn.Layout.Build` | internal/ovpn/ovpn.go:195-235 | the bytes are the wire form of the packet with the next replay id and the clock, and the 32-bit counter advances |
| `Ovpn.Layout.Parse` | internal/ovpn/ovpn.go:240-295 | the loop reads what the reading function says, error by error |
| `Ovpn.ParseUndoesBuild` | internal/ovpn/ovpn.go:195-295 | for both layouts with matching keys every well-formed packet is read back as it was built |
| `Ovpn.BuildUndoesParse` | internal/ovpn/ovpn.go:195-295 | whatever is accepted is a well-formed packet, and a checked one is built back to the same bytes |
| `Ovpn.RejectedIff` | internal/ovpn/ovpn.go:240-295 | for all bytes: which of the three errors a packet is turned down with, each by an if-and-only-if on its opcode, lengths and HMAC |
| `Ovpn.WireLen` | internal/ovpn/ovpn.go:179-188 | the length is `HdrLen(acks)` plus the payload, less the message id for an ack |
| `Ovpn.KthId` | internal/ovpn/ovpn.go:195-235 | packet k carries id k + 1, starting over at 1 after 2^32 - 1 packets, never 0 |
| `Ovpn.AnswerLen` | internal/server/udp_vpn.go:386-400 | the control answer has max(request, `HdrLen(1)` + 5) bytes, and outgrows the request exactly when the request is shorter than that |
| `Ovpn.ShortControlIsOutgrown` | internal/server/udp_vpn.go:386-400 | the bare control packet is accepted and answered with 17 bytes more |
| `AnswerSizes.AnswersFitIff` | internal/server/udp_vpn.go:16-19 | for every kind of VPN follow-up, the answer has no more bytes than the request if and only if the request is whole blocks or long enough, and never more than 36 bytes more |
| `AnswerSizes.EchoKeepsItsSize` | internal/server/udp_vpn.go:182-204 | echoed ESP, L2TP and OpenVPN data, and WireGuard data in whole blocks, keep their size |
| `AnswerSizes.SomeAreOutgrown` | internal/server/udp_vpn.go:160-165 | the shortest WireGuard, IKE and L2TP requests that are outgrown, and by how much |
| `Keystream.Fill` | internal/httpecho/bulk.go:59-74 | byte i of the window is byte (offset + i) mod 32 of block (offset + i) / 32, and nothing else of the buffer is written |
| `Keystream.WindowsJoin` | internal/httpecho/bulk.go:56-74 | adjacent windows of any sizes join to one |
| `Keystream.SendDown` | internal/server/bulk.go:74-107 | the 4096-byte loop sends the stream: all of it, or the writes that went through and the part of the next that did, of which it records the former |
| `Keystream.CheckDown` | internal/client/tests_bulk.go:138-161 | the client's loop judges a body step by step as the judging function does |
| `Keystream.CheckIsComparison` | internal/client/tests_bulk.go:144-161 | that judgement is the comparison with the whole stream: verified, cut, or modified at the step of the first wrong byte |
| `Keystream.DownloadChecks` | internal/client/tests_bulk.go:138-161 | what the server sends passes the client's check if and only if all of it went out, is otherwise reported cut at exactly the bytes that did, and the server recorded at most one piece less |
| `UdpVpn.Session.Data` | internal/server/udp_vpn.go:84-93 | the new counters are those of a data packet: always counted, answered within the budget, to the peer |
| `UdpVpn.Session.Authenticate` | internal/server/udp_vpn.go:151-164 | an IKE_AUTH shares that budget and opens the way for ESP exactly when answered |
| `UdpVpn.Session.Control` | internal/server/udp_vpn.go:371-400 | an OpenVPN control packet shares the budget of the data channel |
| `UdpVpn.Session.Signal` | internal/server/udp_vpn.go:244-257 | an L2TP control message is answered by its type alone |
| `UdpVpn.DropExpired` | internal/server/udp.go:133-165 | walking a session table in any order keeps exactly the live entries |
| `UdpVpn.Listener.Correlate` | internal/server/udp.go:444-452 | spends exactly the reservation the store holds for this peer, port and kind, or none when there is none; it was unused, no session has it, and no other is touched |
| `UdpVpn.Listener.GcVpn` | internal/server/udp.go:133-165 | every table keeps its live sessions, and ESP entries of expired IKE sessions go |
| `UdpVpn.Listener.Open` | internal/server/udp.go:456-458 | a new session on that reservation, for that peer, for 90 seconds, after the expired ones left every table |
| `UdpVpn.Listener.ServeWgInitiation` | internal/server/udp_vpn.go:23-58 | a session opens exactly when the peer holds a named reservation and the handshake authenticates and can be answered; its reservation was unused and is spent; the new table is stated; the listener's invariant is kept |
| `UdpVpn.Listener.ServeIkeInit` | internal/server/udp_vpn.go:125-140 | likewise, exactly when the peer holds a reservation; filed under the initiator SPI and under the ESP SPI |
| `UdpVpn.Listener.ServeL2tpOpen` | internal/server/udp_vpn.go:210-232 | likewise, exactly when the peer holds a reservation; filed under the drawn tunnel |
| `UdpVpn.Listener.ServeOvpnReset` | internal/server/udp_vpn.go:295-330 | likewise, exactly when the peer holds a reservation and the reset is genuine; filed under session id and address; a bad HMAC spends the reservation and opens nothing |
| `UdpVpn.Listener.ServeWgTransport` | internal/server/udp_vpn.go:65-94 | a data packet reaches the session of its index if and only if that one is live, the sender's, and the packet opens; it is answered if and only if fewer than 64 came before; what is counted; all others are untouched |
| `UdpVpn.Listener.ServeIkeAuth` | internal/server/udp_vpn.go:141-165 | the same for IKE_AUTH, with both SPIs checked; the way for ESP is open if and only if it was or this one is answered |
| `UdpVpn.Listener.ServeEsp` | internal/server/udp_vpn.go:184-204 | ESP reaches its session if and only if the sender is its peer and an IKE_AUTH was answered before, and is answered if and only if fewer than 64 follow-ups came before it; all other sessions are untouched |
| `UdpVpn.Listener.ServeL2tpControl` | internal/server/udp_vpn.go:233-257 | the same for L2TP control; the data budget is not touched |
| `UdpVpn.Listener.ServeL2tpData` | internal/server/udp_vpn.go:269-284 | the same for L2TP data, answered if and only if a call is open and fewer than 64 came before |
| `UdpVpn.Listener.ServeOvpnControl` | internal/server/udp_vpn.go:340-401 | the same for OpenVPN control messages; acks reach no session |
| `UdpVpn.Listener.ServeOvpnData` | internal/server/udp_vpn.go:410-436 | the same for OpenVPN data, found by address, which is therefore the peer's |
| `UdpVpn.Listener.Handle` | internal/server/udp.go:393-416 | the first reading that claims the datagram decides; at most one session is touched: a new one, filed where follow-ups find it, exactly when that reading opens sessions and is accepted on an unused reservation; else the live one of the sender the reading points to, with the counters and answers of that follow-up; when no reading claims it nothing changes |
| `UdpVpn.Run` | internal/server/udp.go:289-304 | over every run, with reservations filed and the store swept at any moment: every session has a spent reservation of its own, every answer went to the address that opened it, the answered follow-ups of the log are those the session counts, at most 64, only L2TP sessions answered any message beside those, and every answer of the log is warranted by what was done before it |
| `UdpVpn.RunNew` | internal/server/udp.go:289-304 | the same from a new listener, for every list of events |
| `UdpVpn.Arrive` | internal/server/udp.go:393-416 | one datagram adds to the log what it did: nothing, an opening, or a follow-up and whether it was answered, which is then warranted |
| `UdpVpn.AuthBeforeEsp` | internal/server/udp_vpn.go:184-204 | in every run an ESP answered at an event has an earlier event that was an answered IKE_AUTH of the session, with both SPIs of the IKE_SA_INIT before it, and is for the SPI that goes with them |
| `UdpVpn.AuthComesFirst` | internal/server/udp_vpn.go:141-204 | in every run the first answered follow-up of an IKE session is an IKE_AUTH |
| `UdpVpn.CallBeforeData` | internal/server/udp_vpn.go:269-284 | in every run an answered L2TP data packet has an earlier answered request for a call on its tunnel |
| `UdpVpn.KeysBeforeData` | internal/server/udp_vpn.go:410-436 | in every run an answered OpenVPN data packet opens, and its session was opened by a genuine reset with keys |
| `UdpVpn.OpenedBefore` | internal/server/udp_vpn.go:65-436 | in every run an answered follow-up has the opening of its session before it, under the identifiers it carries |
| `UdpVpn.OwnProtocolOnly` | internal/server/udp_vpn.go:65-436 | in every run a session answers follow-ups of its own protocol only |
| `UdpVpn.L2tpControlUnbounded` | internal/server/udp_vpn.go:241-250 | for every n there is a run of a new listener (a reservation, the opening, n control messages) in which all n are answered |
| `SchedulePlan.Shuffle` | internal/client/run.go:33-33 | a shuffle with arbitrary draws loses and adds nothing |
| `SchedulePlan.BuildJobs` | internal/client/run.go:23-40 | the jobs are the rounds one after the other, each in some order of its own; the tail is every round of the late plans, stably sorted by rank |
| `SchedulePlan.FailedGroups` | internal/client/run.go:148-161 | the groups with a failed attempt, of the given tests only when given |
| `SchedulePlan.RetryRounds` | internal/client/run.go:162-185 | the retry rounds hold exactly the plans of the failed groups, shuffled, or by rank in the tail |
| `SchedulePlan.TailHolds` | internal/client/run.go:36-40 | the first tail holds every round of every late plan once, with ranks in order |
| `SchedulePlan.TailInOrder` | internal/client/run.go:249-259 | in the tail nothing but bursts follows a burst, and nothing but provoking bursts a provoking one: Tor and all else, then burst controls, then provoking bursts |
| `SchedulePlan.RetryHolds` | internal/client/run.go:162-185 | the number of retries is the retry count times the plans of the failed groups, all in retry rounds |
| `Scheduler.ShapeStep` | internal/client/run.go:123-141 | every step keeps the phases well formed: which lists run, on how many workers, and which jobs they hold |
| `Scheduler.OnceStep` | internal/client/run.go:77-122 | every step keeps each job recorded at most once and in at most one worker's hands |
| `SchedulePools.PoolsStep` | internal/client/run.go:84-97 | every step keeps the held locks those of the attempts in flight, one each |
| `SchedulePools.OrderedStep` | internal/client/run.go:123-141 | every step keeps phases in order, and in the serial ones the jobs |
| `ScheduleForecast.BuiltAsForetold` | internal/client/run.go:162-185 | retries built are at least those foretold, and in the main part exactly those |
| `ScheduleTail.ForecastIsExactIff` | internal/client/run.go:42-49 | with at least one round, retry and worker: over all runs, the retries built are those foretold if and only if no late plan shares its group with a plan that is not late, of a test id that is late elsewhere |
| `ScheduleTail.UnmixedIsExact` | internal/client/run.go:162-185 | without such a pair of plans they are, at every point of every run |
| `ScheduleTail.MixedBreaks` | internal/client/run.go:148-185 | with such a pair there is a legal run from the start that builds more |
| `ScheduleTail.SomeForecastFallsShort` | internal/client/run.go:148-185 | a scan of two plans with such a run |
| `ScheduleTail.PureDoesNotMix` | internal/client/plan.go:111-116 | a catalogue whose test ids are always late or never has no such pair |
| `ScheduleForecast.TotalledStep` | internal/client/run.go:105-115 | every step keeps the total equal to what ran, runs, will run and is foretold (at least that, once stopped), and never lowers it |
| `ScheduleForecast.DoneWithinTotal` | internal/client/run.go:105-117 | progress never passes the total, and meets it when an unstopped scan is over |
| `ScheduleRuns.JobsRunOnce` | internal/client/run.go:67-141 | in every interleaving each job is recorded at most once, and exactly once if the scan was not stopped and is over |
| `ScheduleRetries.RetriedIff` | internal/client/run.go:142-210 | in every interleaving that ends unstopped, an attempt was made if and only if it is a first round of a plan, or a retry of a plan whose group had a failure: in the first rounds for the main part, for the tail in any attempt of a late test before |
| `ScheduleStops.StoppedIsNotFailed` | internal/client/run.go:98-104 | in every run that goes on after a stop, an attempt recorded later is a failure only if it had been found one before |
| `ScheduleRuns.FlightsAreSafe` | internal/client/run.go:77-97 | in every interleaving two attempts of one pool are never in flight together, and nothing is while a late attempt is |
| `ScheduleRuns.TailByRank` | internal/client/run.go:186-210 | in every interleaving the first tail is recorded in that order, and phases do not overlap |
| `ScheduleRuns.ProgressIsHonest` | internal/client/run.go:41-57 | in every run the total never shrinks, done never passes it, and an unstopped run ends with done = total = number of attempts |
| `ScheduleRuns.StepsRunOut` | internal/client/run.go:123-141 | every step but the caller's stop lowers a measure, so every scan ends |
| `ScheduleRuns.NeverStuck` | internal/client/run.go:67-141 | until a scan is over some step of it is possible: pool locks and the queue never deadlock |
| `Correlation.FirstMatchIsOwn` | internal/client/plan.go:24-29 | in every run, for an attempt that holds its pool and reserved, a flow begun within the window is matched to the attempt's own reservation if and only if no such flow was matched since, older leftovers notwithstanding |
| `Correlation.LateFlowTakesTheNext` | internal/server/store.go:291-311 | a late flow of an earlier attempt takes the next attempt's reservation, and that attempt's flow then gets the earlier one |
| `Correlation.Keeps` | internal/client/client.go:371-379 | locking, reserving, matching, releasing and gc keep the reservations ordered and every ticket standing |
| `PoolProtocol.RunsAreProtocol` | internal/client/run.go:84-97 | every run of the scheduler with reservations, matches and gc in between is a run of the protocol, in which exactly the pools of the attempts in flight are held |
| `PoolProtocol.FlightFindsItsOwn` | internal/client/plan.go:24-29 | in every such run an attempt in flight holds its pool alone, and once it reserved, a flow begun within the window is matched to its own reservation if and only if none was matched since |
| `Merge.BuildIndex` | internal/client/merge.go:147-186 | after the one pass every index agrees with a plain scan: by nonce the first that is not a mere forward, else the first; by attempt the first solid handshake, else the one place where the others settle; the counters count the valid follow-ups; the DNS list is complete and in order |
| `Merge.CountedIs` | internal/client/merge.go:165-176 | the counters are the numbers of the attempt's UDP follow-ups of that stage that are neither undecryptable nor malformed nor with a bad MAC |
| `Merge.Attach` | internal/client/merge.go:189-240 | with such indexes the observation attached is the one plain scans give, in the order nonce, reservation, query name, 5-tuple |
| `Merge.SettlesOnce` | internal/client/merge.go:177-181 | among handshakes of which none is solid there is only one such place |
| `Merge.FindQuery` | internal/client/merge.go:217-226 | the first DNS observation whose name starts with the nonce |
| `Merge.FindFlow` | internal/client/merge.go:227-238 | the first partly read TCP flow with the same ports and test |
| `Merge.KeyIdentifies` | internal/client/merge.go:160-160 | nonce keys tell test and nonce apart when test ids hold no slash |
| `Remerge.ReinterpretTwice` | internal/client/merge.go:34-66 | reading an attempt again changes nothing more if and only if it is not fragile |
| `Remerge.SomeFragile` | internal/client/merge.go:52-61 | an attempt on an ordinary address whose trusted check quotes the words in a certificate error is fragile |
| `Remerge.FragileIff` | internal/client/merge.go:51-61 | on an address that spells none of the words, an attempt is fragile if and only if its disagreement did not finish, nothing of it points to the host, and one of its checks quotes the words |
| `Remerge.RecordedIsNotFragile` | internal/client/merge.go:51-61 | an attempt whose error quotes both checks is not fragile |
| `Remerge.WrittenIsNotFragile` | internal/client/tests_dest.go:333-336 | nor is one with the error text this build writes |
| `Remerge.RemergeTwice` | internal/client/merge.go:18-26 | reading, dating and merging an attempt twice is doing it once, if and only if it is not fragile |
| `Remerge.ReportTwice` | internal/client/merge.go:18-26 | the same for a whole report |
| `Remerge.Reinterpret` | internal/client/merge.go:34-66 | the step-by-step rewrite of one attempt in place |
| `ReadingLaws.CheckReadsBack` | internal/client/merge.go:78-90 | a recorded check of an address reads back as the check that was made |
| `ReadingLaws.DisagreementIff` | internal/client/tests_dest.go:372-392 | over all pairs of checks: poisoning if and only if the trusted address serves and the system one answered in time and did not; the other three verdicts likewise |
| `ReadingLaws.OutcomeIff` | internal/client/merge.go:34-66 | the outcome after reading again, each by an if-and-only-if on the words of the error, the stages and the two checks |
| `ReadingLaws.MarkIff` | internal/client/merge.go:34-50 | the host mark after reading again, by the words of the error or a timeout within 5 ms |
| `ReadingLaws.EarlyIff` | internal/client/merge.go:62-66 | an attempt without such a record is marked early if and only if its handshake was reset, the host was not at fault, and the reset came within four fifths of a connect time under a second |
| `Remerge.RemergeReport` | internal/client/merge.go:18-26 | the loop rewrites every attempt of the report in place and no other way; what each is rewritten to is told by the rows of `ReadingLaws` and `MergeLaws` |
| `Remerge.MergesToOk` | internal/client/merge.go:310-335 | for the two-ended tests, an attempt merges to ok if and only if it succeeded untampered |
| `MergeLaws.LossIff` | internal/client/merge.go:311-490 | with a server half, across all rows: a drop on the way in is reported if and only if the outcome is a loss and the server saw less than was sent, one on the way back if and only if it saw all of it or answered; for an unanswered attempt only when no diverged connect, foreign cookie, bad MAC or late arrival comes first; and never both |
| `MergeLaws.PrecedenceIff` | internal/client/merge.go:335-385 | for an unanswered attempt with a server half: diverged connect over cookie over MAC over delay over any loss, and a server error or silence, each by an if-and-only-if |
| `MergeLaws.UnseenIff` | internal/client/merge.go:335-490 | without a server half a loss is reported on the way in, and of a burst by its counts |
| `MergeLaws.DropNames` | internal/client/merge.go:409-432 | the two names of a drop after the handshake stand for a cut session and for nothing else |
| `MergeLaws.ChangeIff` | internal/client/merge.go:328-520 | across all rows: modified on the way in, modified on the way back, and injected, each if and only if the two halves differ there |
| `MergeLaws.RejectIff` | internal/client/merge.go:399-515 | across all rows: a handshake the server turned down, and one that stalled once it had seen it |
| `MergeLaws.CloseIff` | internal/client/merge.go:386-470 | across all rows: who reset, closed or refused the connection |
| `MergeLaws.ToldIff` | internal/client/merge.go:328-525 | nothing but an outcome that tells nothing merges to inconclusive |
| `MergeLaws.LateIff` | internal/client/merge.go:92-126 | a flow counts as late when the server first saw it, in the client's clock, more than a second after the client was done, to within a millisecond |
| `MergeLaws.SomeCutSession` | internal/client/merge.go:409-432 | five data packets sent and two seen is a drop on the way in |
| `Remerge.RemergeKeepsMark` | internal/client/merge.go:18-26 | remerging neither reads nor changes the classifier's mark |
| `Cells.Strength` | internal/classify/classify.go:175-184 | high needs three measured attempts on both sides, none passing and all passing; medium two, and a passing control |
| `Cells.FindDominant` | internal/classify/classify.go:76-96 | walking the histogram in any order finds the commonest result, of equals the first by name |
| `Cells.CommonestUnique` | internal/classify/classify.go:89-95 | there is only one such result |
| `Cells.Tally` | internal/classify/classify.go:123-150 | the pass over the attempts counts every cell as the cell function does, leaving marked and cancelled attempts out |
| `Cells.Aggregate` | internal/classify/classify.go:123-157 | whatever the map order, the result is the cells of the scan in the order of their texts, and one list when different cells have different texts |
| `CellCounts.CellIff` | internal/classify/classify.go:123-150 | a cell is there if and only if an attempt of its key is neither marked nor cancelled |
| `CellCounts.CellTells` | internal/classify/classify.go:123-150 | every number and histogram of a cell is the number of its attempts of which the respective fact holds |
| `CellCounts.RoleIs` | internal/classify/classify.go:126-136 | its role is that of the first of them |
| `CellCounts.AggregatedAre` | internal/classify/classify.go:123-157 | the cells of a scan are exactly those |
| `CellCounts.PassIff` | internal/classify/classify.go:98-121 | a cell passes if and only if more than half of its measured attempts did, and fails if and only if there are some and none did |
| `Cells.PlainNamesAreWellKeyed` | internal/classify/classify.go:52-64 | cell texts tell cells apart when test ids hold no blank and transports neither blank nor slash |
| `Cells.PlainScan` | internal/classify/classify.go:52-64 | so the attempts of a scan whose names are plain belong to cells of different texts |
| `Outages.WindowsExact` | internal/classify/transient.go:48-91 | the windows found are as wide as twenty seconds allow, disjoint and full enough, and every candidate in none of them starts a window that misses a threshold |
| `Outages.MarkedForCause` | internal/classify/transient.go:38-80 | every attempt marked failed in a passing cell, within a window of at least six such failures on at least three ports in twenty seconds |
| `Outages.LeftForCause` | internal/classify/transient.go:51-66 | every candidate left alone starts a window that misses one of the thresholds |
| `Outages.MarkedPasses` | internal/classify/transient.go:30-47 | marking failures of passing cells changes no cell from passing to not passing or back |
| `Outages.SuspectsAgain` | internal/classify/transient.go:30-91 | looking again after marking sees the same candidates |
| `PathRuns.MarkedIff` | internal/classify/transient.go:30-91 | an attempt is marked if and only if it is a dated failure of a cell most of whose measured attempts passed, no outage of the host explains it, and it starts within twenty seconds of the begin of an outage: a failure from which six failures on three ports fall into twenty seconds, and which no earlier outage covers |
| `LocalOutages.FlagTwice` | internal/classify/transient.go:30-197 | flagging a flagged scan, whatever marks it came with, marks the same attempts and says the same |
| `LocalOutages.CollectEvents` | internal/classify/transient.go:133-152 | the dated failures of the host, and the first start |
| `LocalOutages.WindowFrom` | internal/classify/transient.go:157-168 | the window that grows from an event takes in exactly the events within the gap |
| `LocalOutages.MarkHits` | internal/classify/transient.go:172-186 | marks in place exactly what the window hits and counts what no window before it did; what a window hits is `HostRuns.HitIs` |
| `LocalOutages.FlagLocalOutage` | internal/classify/transient.go:127-197 | the marks, the set and the notes are those of the windows; which attempts that are is `HostRuns.MarkedIff` |
| `HostRuns.MarkedIff` | internal/classify/transient.go:127-197 | an attempt is marked if and only if it started, failed, was not cancelled, and its flight meets the stretch of a maximal run of at least two dated host failures |
| `HostRuns.HitIs` | internal/classify/transient.go:173-180 | a window hits a failed, uncancelled attempt if and only if its flight, from start less reserve to start plus done, meets the window |
| `HostRuns.Walked` | internal/classify/transient.go:133-153 | the failures of the host are walked each once, by date, and those of one date in scan order |
| `HostRuns.WindowsFrom` | internal/classify/transient.go:157-170 | the windows are exactly those of the maximal runs of at least two failures, from the first begin to the last end, with the failures counted by name |
| `HostRuns.RunChained` | internal/classify/transient.go:157-166 | in a run each failure begins within twenty seconds of the end of one before it |
| `HostRuns.RunsApart` | internal/classify/transient.go:157-166 | two runs are the same, or the later one begins more than twenty seconds after every end in the earlier |
| `HostRuns.RunAround` | internal/classify/transient.go:157-166 | every failure of the host lies in a run |
| `LocalOutages.CollectCandidates` | internal/classify/transient.go:30-46 | the failures of passing cells that no local outage explains |
| `LocalOutages.FlagTransient` | internal/classify/transient.go:30-91 | the scan marks in place exactly the suspects and notes exactly the windows |
| `LocalOutages.FlagOutages` | internal/classify/classify.go:197-199 | both rules in turn are the flagging function |
| `RuleFacts.FindFirst` | internal/classify/rules.go:33-40 | the cell found is the first that matches, and there is none exactly when none matches |
| `RuleFacts.NominalMeans` | internal/classify/rules_protocol.go:118-138 | the nominal baseline is the last baseline, or for vless, without one, the first control |
| `RuleFacts.BaselineChosen` | internal/classify/rules_protocol.go:118-138 | the baseline of a group is the nominal one if it passes, else the first passing cell that is no control; there is none exactly when neither passes |
| `RuleFacts.FirstOfFirst` | internal/classify/rules_port.go:33-50 | the control picked is the first cell that is what was asked for, and there is none exactly when none is |
| `RuleFacts.EachPicks` | internal/classify/rules_flow.go:33-208 | the verdicts of a rule are those of the cells it applies to, one each, in cell order, and it applies to no other |
| `RuleFacts.DnsBlockedIff` | internal/classify/rules_dns.go:12-80 | rule 6 calls a cell blocked if and only if it is the last failing TXT query next to a passing dns.tcp, or, for every other DNS cell over the network and for dns.udp without a passing dns.tcp, it fails with no echo beside it and one passing elsewhere; and then once |
| `RuleFacts.OtherQueryTypeIsLeftOut` | internal/classify/rules_dns.go:64-66 | next to a passing dns.tcp, rule 6 calls no dns.udp cell of another query type blocked |
| `RuleFacts.SomeQueryTypeIsLeftOut` | internal/classify/rules_dns.go:64-66 | a scan in which that leaves a suspect cell out of rule 6 |
| `RuleLaws.StrengthIff` | internal/classify/classify.go:175-184 | high and medium, each by an if-and-only-if on the counts of the two cells |
| `RuleLaws.HandshakeIs` | internal/classify/rules.go:41-59 | the handshake cell a session is held against is the first of its signature, else of its variant, else of any |
| `RuleLaws.EndpointIff` | internal/classify/rules_port.go:8-22 | rule 1 speaks if and only if there are echoes and all fail |
| `RuleLaws.UdpIff` | internal/classify/rules_port.go:81-97 | rule 3 speaks if and only if a TCP echo passes, there are UDP ones and all of them fail |
| `RuleLaws.PortRuleIff` | internal/classify/rules_port.go:31-61 | the verdicts of rule 2 are exactly those of the failing echoes with a passing one of their transport: a proxy if an application passes on the port, else the port |
| `RuleLaws.ProtocolsAre` | internal/classify/rules_protocol.go:16-76 | a family on a port is called blocked, once, if and only if some native cell of it that is no control fails, no measured cell of it has a success, the port's echo passes, its random payload is absent or passes, and no handshake cell covers it; the doubtful cells likewise |
| `RuleLaws.OneVariantPasses` | internal/classify/rules_protocol.go:66-76 | a family of which one measured variant has a success is never called blocked |
| `RuleLaws.VariantIff` | internal/classify/rules_protocol.go:80-138 | the verdicts of rule 5 are exactly those of the failing cells that are no baseline, with no passing handshake of their own, against the baseline of their family: the last nominal one if it passes, else the first passing cell that is no control |
| `RuleLaws.VariantKindIff` | internal/classify/rules_protocol.go:142-170 | what a failing variant of a name or a vless handshake is called |
| `RuleLaws.BulkIff` | internal/classify/rules_flow.go:33-53 | rule 5b on transfers: exactly the failing ones whose port's echo passes |
| `RuleLaws.PacketIff` | internal/classify/rules_flow.go:60-98 | rule 5b on packet trains: exactly the failing ones whose port's echo passes |
| `RuleLaws.BurstIff` | internal/classify/rules_flow.go:104-133 | rule 5b on bursts: one verdict for every cell with a frozen burst that does not pass, with its confidence and the cells its evidence names, and no other |
| `RuleLaws.SessionIff` | internal/classify/rules_flow.go:159-208 | rule 5c: exactly the measured sessions that do not pass while their handshake does; high if the cut repeats beside plain traffic that passes, else as sure as the session against its handshake |
| `RuleLaws.ManipulatedIff` | internal/classify/rules_dns.go:33-46 | rule 6: exactly the DNS cells with a mismatched or raced answer |
| `RuleLaws.DnsUdpIff` | internal/classify/rules_dns.go:12-30 | rule 6: the last TXT query over UDP fails and the last query over TCP passes |
| `RuleLaws.DnsPortIff` | internal/classify/rules_dns.go:53-80 | rule 6 on ports: exactly the failing DNS cells over the network with no echo on their port, a passing echo of their transport elsewhere, and not left to the UDP rule |
| `RuleContext.RuleCtx.RuleEndpoint` | internal/classify/rules_port.go:8-22 | rule 1 adds its verdict exactly when there are baselines and all fail |
| `RuleContext.RuleCtx.RuleUdp` | internal/classify/rules_port.go:81-97 | rule 3 adds its verdict exactly when a TCP baseline passes, there are UDP ones and all of them fail |
| `RuleContext.RuleCtx.RulePort` | internal/classify/rules_port.go:31-61 | the lists of passing and failing echoes give, for each transport, the verdicts of rule 2 in cell order |
| `RuleContext.RuleCtx.RuleEach` | internal/classify/rules_flow.go:33-208 | rules 5b, 5c and 6 append exactly the verdicts of the cells they apply to, in cell order |
| `RuleContext.RuleCtx.RuleProtocol` | internal/classify/rules_protocol.go:16-64 | among the verdicts rule 4 adds, a family on a port is called blocked, once, exactly under the condition of `RuleLaws.ProtocolsAre`, stated over the cells |
| `RuleContext.RuleCtx.RuleVariant` | internal/classify/rules_protocol.go:80-113 | rule 5, with its groups walked in any order, agrees on every subject with the walk in cell order |
| `RuleContext.RuleCtx.RuleDns` | internal/classify/rules_dns.go:12-80 | among the verdicts rule 6 adds, a cell is called blocked exactly when it is the last failing TXT query next to a passing dns.tcp, or suspect on its port; and by one verdict only |
| `RuleContext.RuleCtx.RuleModification` | internal/classify/rules_path.go:19-52 | rule 7 attaches each mechanism, in name order, to the last verdict that names the cell, and reports the rest |
| `RuleContext.RuleCtx.FastPorts` | internal/classify/rules_path.go:144-175 | whatever the order the medians are walked in, the fast ports are the same, ascending |
| `RuleContext.RuleCtx.RuleSynAck` | internal/classify/rules_path.go:59-98 | rule 8 agrees on every subject with the walk in port order |
| `RuleContext.RuleCtx.Run` | internal/classify/rules.go:80-97 | after all rules the list agrees on every subject with the one the functions give, whatever the map orders were |
| `Mechanisms.SortSameSubjects` | internal/classify/classify.go:214-219 | lists that agree on every subject sort to the same list |
| `Mechanisms.DecoratedAlike` | internal/classify/rules_path.go:19-52 | rule 7 keeps such lists in agreement |
| `MechanismLaws.DecoratedIs` | internal/classify/rules_path.go:10-52 | rule 7 tells a modification of a cell on its own if and only if no verdict is on the cell, and else adds it to the evidence of the last one; it tells exactly the six results, of cells that no rule with counts of its own covers |
| `SynAck.SynAcksAlike` | internal/classify/rules_path.go:66-91 | rule 8 says the same on such lists |
| `SynAck.ReferenceAgrees` | internal/classify/rules_path.go:157-164 | the reference does not depend on the order of the medians |
| `PortSpeeds.MediansAre` | internal/classify/rules_path.go:121-136 | a port has a typical connect time if and only if it has two dials or more, and it is the value with at most half of them below and more than half up to it |
| `PortSpeeds.FastIff` | internal/classify/rules_path.go:144-175 | a port is reported fast if and only if three ports have such a time, the one across them is 20 ms or more, and the port's own is under a quarter of it and more than 20 ms below |
| `PortSpeeds.SynAckIff` | internal/classify/rules_path.go:59-98 | rule 8 speaks of exactly the fast and the suspected ports, at medium if and only if a fast one is also suspected or proxied |
| `Dest.DestinationsNeverHigh` | internal/classify/dest.go:50-286 | no verdict on a destination is ever high |
| `DestLaws.DestinationsIff` | internal/classify/dest.go:50-286 | a verdict on real destinations is there if and only if the cells call for it: an invented answer, a failed transport control, a silent or an unreliable resolver, or a probed site in one of its five layers |
| `DestLaws.DnsIff` | internal/classify/dest.go:156-172 | when a site's lookup is called poisoned, how surely and against what |
| `DestLaws.TcpIff` | internal/classify/dest.go:174-189 | when a site's address is called unreachable, and as what |
| `DestLaws.TlsIff` | internal/classify/dest.go:191-252 | when a handshake is called blocked, whether by its name, by a reset only the name draws, or as such |
| `DestLaws.ProtoIff` | internal/classify/dest.go:254-272 | the same for a service's own handshake |
| `DestLaws.HttpIff` | internal/classify/dest.go:274-286 | when a refusal or an interception is reported |
| `DestLaws.SoonIff` | internal/classify/dest.go:317-400 | a reset came too soon if and only if it was timed, a round trip to the address is known, and it came within four fifths of every known one |
| `DestControls.DestinationsAre` | internal/classify/dest.go:50-286 | the verdicts on destinations are exactly those of the resolver, the controls and the five layers of each site |
| `DestControls.DestinationControl` | internal/classify/dest.go:45-49 | each of them names a control that passed if and only if the place it comes from has one |
| `DestControls.SomeHijackStandsAlone` | internal/classify/dest.go:411-420 | a scan whose verdict names no control that passed |
| `DestControls.ResetHasItsControl` | internal/classify/dest.go:222-242 | a reset keyed on the name is told against the decoy that failed and was never reset |
| `DestControls.UnreliableStillPoisons` | internal/classify/dest.go:138-172 | with an unreliable resolver a site is called poisoned if and only if its lookup timed out, fewer than half did, and the anycast control passes |
| `DestControls.SomeSiteIsPoisoned` | internal/classify/dest.go:138-172 | a scan in which that happens |
| `StrengthOfEvidence.HighIsBacked` | internal/classify/classify.go:175-184 | across all rules every high verdict names a cell with at least three measured attempts that does not pass, and a control that passes |
| `StrengthOfEvidence.NoFailureInIsolation` | internal/classify/classify.go:1-3 | whatever its confidence, a verdict of the rules on single cells (2, 5, 5b, 5c, 6) names the measured cell that does not pass and a control that does, if and only if it is not a DNS manipulation and, for a burst, the outer handshake or the same burst under another fingerprint passes |
| `StrengthOfEvidence.SomeBurstStandsAlone` | internal/classify/rules_flow.go:104-133 | a scan of one burst whose verdict names no passing control |
| `StrengthOfEvidence.EndpointStandsAlone` | internal/classify/rules_port.go:8-22 | the verdict of rule 1 never has a control to name |
| `StrengthOfEvidence.SomeEndpointStandsAlone` | internal/classify/rules_port.go:8-22 | a scan of one echo with such a verdict |
| `StrengthOfEvidence.SomeManipulationStandsAlone` | internal/classify/rules_dns.go:33-46 | a scan of one manipulated answer whose verdict names no control |
| `StrengthOfEvidence.ProtocolCompares` | internal/classify/rules_protocol.go:16-64 | so does every verdict of rule 4 |
| `StrengthOfEvidence.SessionBacked` | internal/classify/rules_flow.go:159-208 | a repeated session cut is high only on three measured attempts and a passing handshake |
| `Classify.Judge` | internal/classify/classify.go:207-220 | rules, destinations and the final sort give one list for one set of cells, whatever the map orders were |
| `Classify.ClassifyScan` | internal/classify/classify.go:197-226 | the whole classifier gives one report for one scan, whatever the map orders, when test ids hold no blanks and transports neither blanks nor slashes (or cell texts differ anyway), and leaves exactly the outage marks on its attempts |
| `Classify.ReclassifyFixpoint` | internal/classify/classify.go:197-226 | classifying the marked attempts again gives the same cells, notes and verdicts, and the same marks |
| `Classify.PipelineFixpoint` | internal/client/merge.go:18-66 | remerging and classifying a stored report again leaves it as it is if and only if no attempt is fragile, and then says the same |
| `Classify.RecordedReportStays` | internal/client/merge.go:18-66 | a report whose disagreements quote both checks stays as it is when remerged and classified again, and says the same |
| `Classify.ReportIsBacked` | internal/classify/classify.go:197-226 | every high verdict of a report but the unreachable probe rests on cells of that report |
| `ReportLaws.ProtocolsExact` | internal/classify/rules_protocol.go:16-64 | a verdict of rule 4 is there if and only if a cell calls for it before which none called its family blocked |
| `ReportLaws.ReportIff` | internal/classify/rules.go:80-97 | a finding (kind, subject, confidence) is in the verdicts if and only if rules 1 to 6, 7, 8 or a destination call for it, by the conditions above |
| `ReportLaws.ReportInOrder` | internal/classify/classify.go:214-219 | findings stand in alphabetical order of kind, and of subject within a kind |
| `ReportLaws.MarksIff` | internal/classify/classify.go:197-199 | the classifier marks exactly the attempts that an outage of the host or of the path takes out, and changes nothing else |
| `ReportLaws.ScanIff` | internal/classify/classify.go:197-226 | for every scan: the report has the cells of the marked attempts, and a finding if and only if they call for it; or the one finding that the probe was out of reach |

## Left out

- Store.Store.PutSession: sessions are held by value in the store object; that Go callers share the session by pointer is not modelled.
- Quota.QuotaConserved: counters are unbounded integers; 64-bit overflow of a day's bytes is not modelled.
- StoreCollection.CollectionNeverShows: one way only for whole runs that fill the session table; after the first answer that differs the two windows differ as well. What one gc changes is exact.
- Store.Store.CollectReservations: the field is a sequence, so that the old slice header shares its array after compaction is not modelled.
- StoreCollection.GetUnaffected: about a session as callers see it; old rows of a live session are what gc is there to remove.
- Framing.ServeFlow: write errors are left out, and granting a test and the attempt limit are one function of the request and the number served so far.
- UdpVpn.Listener.Handle: how bytes read as protocols is an input, and a handler is one step; other listeners act on the store between datagrams only.
- Classify.ClassifyScan: for two cells of one text the order of the report is left open, as the source leaves it to its map.
- RuleContext.RuleCtx.RuleEach: evidence keeps the cells and controls named; lines of medians, offsets and remarks and all wording are dropped.
- StrengthOfEvidence.NoFailureInIsolation: about rules 2 to 6 on single cells; the signals of rules 7 and 8 name no cell in the source, and rule 3 names counts only.
- Remerge.RemergeReport: a missing detail map and an empty one are the same, and parsing a float is a parameter.
- Rendering: notes, evidence wording, the summary line and the per-site summary of destinations.
- The counters that the merge writes into the details of session, tls.burst, udp.packets and tcp.packets attempts: plain filters over the observations; how they are counted for sessions is modelled, writing them is not.
- Parsing WireGuard, IKE, L2TP, DTLS, STUN, SOCKS5, VLESS and Tor packets, and the order the UDP dispatcher tries them in: small fixed codecs; only the lengths of answers are modelled.
- Bulk paths and echo paths, DNS messages, GeoIP, key files, configuration, the plan catalogue: easy members or data.
- TCP handlers other than the envelope loop, and attribution when a TCP flow is finished: I/O around the store calls modelled here.
- Sockets, TLS and QUIC handshakes, HTTP handlers, timers and sleeps: I/O and libraries.
- Strength of the cryptography: only output lengths are used.
- The live-session cap across concurrent requests: asking and storing are separate steps, so only the serial bound holds.
