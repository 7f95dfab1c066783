# Verification of nodecheck and probestore

A Dafny model of the fleet prober `nodecheck` and of the history store `probestore`, with
proofs about the parts in which they depend on each other:

- **Exactly-once push.** Clients, a lossy and duplicating network and overlapping READ
  COMMITTED transactions form one step system (`IngestSystem`). It refines a store that
  handles one request at a time (`Ledger`): every interleaving leaves what handling the
  committed batches one after another would leave (`ExactlyOnce.Serialisable`). Which calls
  are answered as duplicates is decided for every run (`Retries`), a client can succeed from
  every state until it gives up (`Progress`) and is a run of the retry loop (`ClientLoop`),
  and what the clients post decides exactly whether requests can come to wait for each other
  (`Deadlock`, `Entanglement`, `DeadlockRun`).
- **The Noise IK initiation.** The packet that nodecheck builds step by step is read back
  by a responder with a derivation of its own (`Noise`), and its timestamp keeps the order
  of time (`Tai64n`), for any primitives that obey the usual laws.
- **The UDP machine.** The retry loop is driven by an arbitrary trace of socket results,
  cancellations and clock readings (`UdpExchange`), and the two WireGuard modes are compared
  on the same trace (`WgSession`).
- **The worker pool** of `runAll`, as interleaved goroutine steps (`WorkerPool`).
- **The projections.** One probe is written down many times: phases, report, Prometheus
  text, exit code, pushed entry, stored row, `/v1/nodes`, `/metrics`, and the backfill of a
  migration. What is written of one probe agrees everywhere (`EndToEnd`,
  `PromReport.Report`), and both Prometheus texts can be parsed back (`Exposition`,
  `PromReport`, `MetricsPage`). The two views of one node agree exactly when its newest
  results do (`NodePage`, `TiedResults`).

`dafny verify dfyconfig.toml` checks everything. Lemmas carry `{:induction false}`: each
induction is written out.

## What the proofs found

- `cmd/nodecheck/prober.go:38` says that a phase has an error text only when it failed. A
  reply accepted after a timeout leaves the text of that timeout on a passed phase.
  `UdpExchange.StaleErrorHappens` gives a trace, `StaleErrorIff` says exactly when, and
  `Probe.OkIffNoError` is what holds instead, of the whole report.
- The lookup of the run id at `probestore/app/routers/ingest.py:61-63` does not protect
  against overlapping requests: `ExactlyOnce.BothPassTheCheck` gives the run. What protects
  is the unique index together with the rollback; the loser answers 500 and the client
  retries (`ExactlyOnce.LoserIsRetried`). So the promise of `probestore/README.md:48-50`
  that the second call returns `duplicate: true` does not hold of calls that overlap. A call
  that begins once the run is stored has no other answer, unless it crashes
  (`Retries.LaterCallIsDuplicate`), and any created reply says `duplicate` exactly if the
  check found the run (`Retries.DuplicateIffFound`). That nothing is stored twice holds
  always.
- The rows of the upsert come in the order of the batch, so requests can deadlock.
  `DeadlockRun.DeadlockIff` says when: exactly if, once some pushes are stored, first parts of
  some others take different nodes while each comes to a node that another has taken. The
  database aborts one of them, its client retries, and the safety results cover it. If there
  is any one order that all admitted batches follow, there is none
  (`Entanglement.OneOrderHasNoDeadlock`, `Deadlock.OneOrderNeverDeadlocks`), so sorting the
  values of the upsert would rule it out.
- `/v1/nodes` and `/metrics` run the same query, and each may get another answer: of several
  newest results of one time the database may pick any. They are sure to agree on a node
  exactly if those have one verdict (`NodePage.ListAgreesWithPageIff`). A targets file that
  lists a target twice can give a store in which they do not
  (`TiedResults.TiedProbesDisagree`).
- The comment at `cmd/nodecheck/prober_wireguard.go:207-209` says that loading has already
  rejected what fails before the network. `Probers.ValidationCoversProbing` leaves two
  things open: the random source, and a public key without a shared secret. The latter passes
  validation, and then no initiation can be built: `Probers.LowOrderKeyPassesValidation` gives
  a target, and `Probers.WgProbe` states when one can be built. One key agreement with any
  private key would tell at load time.
- TAI64N stamps keep the order of any two times exactly when both lie on one side of the
  64-bit wrap, which is more than 2^62 seconds before 1970 (`Tai64n.OrderPreserved`).
- Downgrading and upgrading again restores `failed_phase` exactly when every row named the
  phase that its booleans give (`Migration.ProbeResultTable.DownAndUp`). Rows that nodecheck
  sent do; the schema lets another client send others, and their label is lost.
- `node_history` picks any node of the given name, and names are not unique.
  `Queries.NamedHistoryAgreesIff` says exactly when its head is sure to be the row that the
  latest view shows: no other node has the name, with results or without, the row is within
  the time asked for, and its time is not tied.
- An accepted datagram of no bytes gives a nil reply, so only the phase tells whether
  something was accepted (`UdpExchange.Run`).
- A fleet without TLS targets pushes an empty batch, which the schema always refuses
  (`PushPayload.NothingPushableIsRefused`).

## Model

| member | source | states |
|---|---|---|
| `Schema.LastNodeIsLast` | probestore/app/routers/ingest.py:20 | a key of the batch takes its name and provider from the last entry for it, said by position |
| `Ledger.ReplayStoresFirstBatchWhole` | probestore/app/routers/ingest.py:61-99 | in the one-at-a-time store a run id holds exactly the results of the first batch that carried it, whole and in order, however often batches are repeated |
| `Ledger.ReplayNamesNodesOnce` | probestore/app/routers/ingest.py:20-44 | there, a node exists exactly if a stored batch mentioned it, and keeps the name and provider of the last entry in the first such batch |
| `Ledger.ReplayIsClosed` | probestore/app/routers/ingest.py:82-96 | there, every stored result names a stored node and a stored run |
| `PushClient.PushResults` | cmd/nodecheck/push.go:132-202 | said of the exchanges themselves: an attempt is reached exactly if no earlier one brought a code in 200 to 299 or 400 to 499 or could not be built, and no wait was cancelled; success exactly if a reached one brings 200 to 299, refusal exactly if one brings 400 to 499 or cannot be built, and then nothing more is posted; exhaustion after three others; waits of 0, 1 and 3 seconds |
| `ClientLoop.ClientsPlay` | cmd/nodecheck/push.go:142-165 | in every run of clients, network and server each client is where the retry loop is after the turns that the run has played for it |
| `ClientLoop.PushInSystem` | cmd/nodecheck/push.go:132-166 | the loop, on the turns of any run in which the client has ended, returns that end; success then means stored, and a refusal never stored |
| `IngestInvariant.SeenIsLastPerKey` | probestore/app/routers/ingest.py:20 | the rows of the upsert name each key of the batch once, with the last entry for it, and no other key |
| `IngestInvariant.AddResultsTx` | probestore/app/routers/ingest.py:80-96 | the lookup of node ids never misses, so building the results cannot crash |
| `IngestInvariant.RollbackKeeps` | probestore/app/db.py:41-48 | rolling back at any step before the commit leaves the store as it was and the invariant intact |
| `IngestInvariant.InsertRunKeeps` | probestore/app/models.py:52-54 | the flush of the run against the unique index, including the insert that fails, keeps the invariant and shows no change |
| `IngestInvariant.UpsertNodeKeeps` | probestore/app/routers/ingest.py:22-37 | each upserted row, inserted or met, keeps the unique index on (addr, sni) and leaves the key visible to the transaction |
| `IngestInvariant.CommitKeeps` | probestore/app/routers/ingest.py:97-99 | a commit is of a run id not stored before, and moves the store exactly as handling that batch alone at that moment would |
| `ExactlyOnce.Serialisable` | probestore/app/routers/ingest.py:53-99 | after any interleaving the committed rows are what handling the committed batches in commit order gives, no run id commits twice, and each committed batch is the one its client posted |
| `ExactlyOnce.AtMostOnceAndWhole` | probestore/app/routers/ingest.py:61-99 | in every reachable state a run id has at most one committed run, which is admitted and holds exactly the posted results, in order, each under the node of its own address and SNI |
| `ExactlyOnce.ClientsMayTrustTheReply` | cmd/nodecheck/push.go:127-166 | success of the push means stored, a refusal means never stored, and every created reply, duplicate or not, reports the size of the whole batch |
| `ExactlyOnce.CommittedIsForEver` | probestore/app/routers/ingest.py:20-99 | no continuation of a run changes or removes a committed node, run or result |
| `ExactlyOnce.NodesAreNamedOnce` | probestore/app/models.py:43 | in every reachable state there is one committed node per (addr, sni), named by the last entry for it in the first batch that committed with it |
| `ExactlyOnce.NodeLookupIsTotal` | probestore/app/routers/ingest.py:39-44 | in every reachable state the read back covers the whole batch of its transaction |
| `ExactlyOnce.BothPassTheCheck` | probestore/app/routers/ingest.py:61-63 | for any admitted push there is a run in which two requests have both passed the check of the run id |
| `ExactlyOnce.LoserIsRetried` | cmd/nodecheck/push.go:192-201 | the one that comes second fails at the insert and answers with a status that the client takes as transient |
| `ExactlyOnce.RetryIsAnswered` | probestore/app/routers/ingest.py:64-70 | once stored, a repeated request is never made to wait: whatever else runs, its four steps to an answer as a duplicate with the full count are enabled |
| `Retries.LaterCallIsDuplicate` | probestore/app/routers/ingest.py:61-70 | if the run is stored when the handling of a repeated push begins, then in every continuation, until it is answered, it stores nothing and its answer is a duplicate with the full count or a crash |
| `Retries.DuplicateIffFound` | probestore/app/routers/ingest.py:61-99 | in every continuation of a check of the run id, until the answer, a created reply has the full count and says `duplicate` exactly if the run was stored when the check was made |
| `Progress.ServerCanStore` | probestore/app/routers/ingest.py:53-99 | from every reachable state, with any number of requests running, waiting or hung, an admitted push on the wire can be carried to a stored run and a reply with the full count |
| `Progress.ClientCanSucceed` | cmd/nodecheck/push.go:142-165 | from every reachable state in which the client of an admitted push still posts or awaits, some continuation ends in its success and its run stored |
| `Deadlock.OneOrderNeverDeadlocks` | probestore/app/routers/ingest.py:22-37 | if all admitted batches name their nodes in the order of one ranking, then in every reachable state with an undecided request some request can take its next step without any abort |
| `Deadlock.DeadlockLasts` | probestore/app/routers/ingest.py:22-37 | transactions that wait for each other go on doing so, whatever anyone else does, until one of them is aborted |
| `Deadlock.StuckIsDeadlock` | probestore/app/routers/ingest.py:22-37 | a state with an undecided request in which no request can take its next step holds such a deadlock |
| `Entanglement.DeadlockIsEntangled` | probestore/app/routers/ingest.py:20-37 | in a deadlock of any reachable state the stored pushes and the parts that the waiting upserts have done are entangled: the parts take different nodes, and each comes to one that another has taken |
| `Entanglement.OneOrderHasNoDeadlock` | probestore/app/routers/ingest.py:22-37 | if all admitted batches name their nodes in the order of one ranking, no reachable state holds a deadlock, not even while others go on |
| `DeadlockRun.EntanglementDeadlocks` | probestore/app/routers/ingest.py:53-99 | from any entanglement, of any number of pushes of any length, a run into a deadlock |
| `DeadlockRun.DeadlockIff` | probestore/app/routers/ingest.py:22-37 | a deadlock can be reached exactly if what the clients post holds an entanglement |
| `DeadlockRun.OppositeOrdersDeadlock` | probestore/app/routers/ingest.py:22-37 | so two pushes whose upserts, after first parts with nothing in common, each come to a node of the other's first part can deadlock over an empty store |
| `Bytes.LittleEndianRoundTrip` | cmd/nodecheck/prober_wireguard.go:336-340 | the four bytes of the sender index give the index back |
| `Bytes.LittleEndianOfBytes` | cmd/nodecheck/prober_wireguard.go:332-340 | the drawn bytes are what is appended to the packet |
| `Bytes.BigEndianOrder` | cmd/nodecheck/prober_wireguard.go:517-518 | big-endian byte strings of one length compare as their numbers do |
| `Tai64n.DecodeEncode` | cmd/nodecheck/prober_wireguard.go:514-520 | twelve bytes always, and they give the time back exactly if the 64-bit sum does not wrap |
| `Tai64n.EpochBytes` | cmd/nodecheck/prober_wireguard.go:516-518 | the twelve bytes of 1970, which fix the epoch and the byte order |
| `Tai64n.OrderPreserved` | cmd/nodecheck/prober_wireguard.go:512-520 | a later time is the greater byte string exactly if both times lie on one side of the wrap, and the smaller one otherwise |
| `Noise.WgHash` | cmd/nodecheck/prober_wireguard.go:465-473 | feeding the parts one by one hashes their concatenation |
| `Noise.TestKdf` | cmd/nodecheck/prober_wireguard_test.go:88-97 | the n-th output is keyed by the first HMAC and fed the output before it and its own number |
| `Noise.KdfsAgree` | cmd/nodecheck/prober_wireguard.go:483-499 | the initiator's two derivations are the first outputs of the responder's |
| `Noise.ReadsBack` | cmd/nodecheck/prober_wireguard_test.go:113-170 | the responder's own chain opens both ciphertexts sealed by the initiator's and yields the initiator's static key and timestamp |
| `Noise.SealFields` | cmd/nodecheck/prober_wireguard.go:316-374 | the chain of hashes, keys and ciphertexts; it fails exactly if one of the two key agreements does, and the fields have 48 and 28 bytes |
| `Noise.AppendMacs` | cmd/nodecheck/prober_wireguard.go:376-397 | mac1 covers all before it under the responder's key, mac2 is zero, and after 116 bytes the length check cannot fail |
| `Noise.BuildInitiation` | cmd/nodecheck/prober_wireguard.go:307-398 | a message is built exactly if there is randomness and both key agreements succeed, with no other failure reachable; it has the documented layout and a valid mac1, and every responder with the matching private key recovers the static key and the timestamp |
| `Noise.AcceptedBytesAreDetermined` | cmd/nodecheck/prober_wireguard_test.go:113-170 | two packets with the same first forty bytes that are accepted with the same result agree up to the end of mac1 |
| `Noise.LawfulSuiteExists` | cmd/nodecheck/prober_wireguard.go:450-454 | the laws assumed of the primitives do not contradict each other |
| `WgSession.AcceptedIffEchoesSender` | cmd/nodecheck/prober_wireguard.go:400-431 | accepted exactly if the reply has 92 bytes, is of type 2 and carries bytes 4 to 8 of our packet |
| `WgSession.EveryEchoIsAccepted` | cmd/nodecheck/prober_wireguard_test.go:638-647 | every response that echoes the sender index is accepted |
| `WgSession.OneSessionPerReply` | cmd/nodecheck/prober_wireguard.go:411-416 | no reply is accepted for two sender indices |
| `WgSession.FaultsAre` | cmd/nodecheck/prober_wireguard.go:401-431 | why a reply is not taken, said of its bytes |
| `WgSession.AnonymousRelaxesStrict` | cmd/nodecheck/prober_wireguard.go:232-252 | on the same trace both modes end at the same attempt; anonymous mode passes whenever strict mode does, and alone exactly if the loop ends in silence or in a cookie reply that was read |
| `UdpExchange.Await` | cmd/nodecheck/prober_udp.go:220-295 | the loop refines the pure verdict: phase, reply, definitiveness, datagrams sent and deadlines set |
| `UdpExchange.EventsOfTrace` | cmd/nodecheck/prober_udp.go:239-295 | the events of the pure machine, said of the raw reads, errors, cancellations and clock readings |
| `UdpExchange.TraceDecides` | cmd/nodecheck/prober_udp.go:239-303 | the one attempt at which the raw trace ends the loop gives the phase, its text, the reply and the number of datagrams |
| `UdpExchange.Run` | cmd/nodecheck/prober_udp.go:183-304 | said of the raw trace: the send phase passes exactly if dial, deadline and write did; the second passes exactly if an attempt that is made reads a datagram that is taken, or silence is enough and one that is made timed out at the end; a failed resend or deadline, a refused port, a rejected datagram and a cancellation fail it with their own text and stop the sending; the reply is the datagram, or nil if that is empty; every datagram is the payload, and at most `attempts` leave |
| `UdpExchange.PassesIff` | cmd/nodecheck/prober_udp.go:239-300 | the second phase passes exactly if a reached read was accepted, or silence passes and the loop ended on timeouts alone |
| `UdpExchange.DefinitiveFails` | cmd/nodecheck/prober_udp.go:234-297 | a refused port, a failed write, a rejected datagram and a cancellation never pass, and the text reported is their own |
| `UdpExchange.StaleErrorIff` | cmd/nodecheck/prober_udp.go:272-276 | the phase passes with an error text exactly if some reached read was accepted right after a timeout that had one |
| `UdpExchange.StaleErrorHappens` | cmd/nodecheck/prober.go:36-46 | a trace with a running clock on which the phase is OK and holds the text of a timeout |
| `UdpExchange.DeadlineWithinPhase` | cmd/nodecheck/prober_udp.go:223-255 | every read deadline is the end of its slice, of the phase or of the context, and lies within all three |
| `UdpExchange.SliceIsQuotient` | cmd/nodecheck/prober_udp.go:227 | a slice is the timeout divided by the attempts, rounded toward zero |
| `UdpExchange.WaitWithinTimeout` | cmd/nodecheck/prober_udp.go:220-262 | the reads together never take longer than the timeout of the phase |
| `UdpExchange.EveryAttemptIsMade` | cmd/nodecheck/prober_udp.go:227-294 | against a silent peer integer division costs no attempt: all datagrams leave |
| `Config.LoadTargets` | cmd/nodecheck/main.go:187-206 | a list is accepted exactly if it is not empty and every target passes its prober's validation, and otherwise the first bad target is named |
| `Config.AcceptedIff` | cmd/nodecheck/prober.go:141-152 | a target passes exactly if it has an address and its protocol, TLS unless named, is known and finds its settings and key in order |
| `Config.UdpParamsAre` | cmd/nodecheck/prober_udp.go:72-109 | UDP settings are read exactly if they decode, name at most one payload and ask for 0 to 10 attempts; the payload is the one named, a zero byte if none, and attempts are those asked for or three |
| `Config.WgParamsAre` | cmd/nodecheck/prober_wireguard.go:150-187 | WireGuard settings are read exactly if they decode, the key has 32 bytes and attempts lie in 0 to 10; key, mode and attempts are those given, or three attempts |
| `Config.IdentityIs` | cmd/nodecheck/prober_wireguard.go:267-298 | the key is that of the environment if set and of 32 bytes, else a drawn one in anonymous mode only |
| `Probers.TlsProbe` | cmd/nodecheck/prober_tls.go:34-130 | the SNI configured, or the host of the address, or none; the two phases with their own times and errors; and the details of the handshake exactly if there was one |
| `Probers.UdpProbe` | cmd/nodecheck/prober_udp.go:121-145 | phases `udp` and `response`, the second passing exactly if an attempt that is made reads some datagram; bad settings are one failed phase; what is sent is the configured payload, at most as often as configured |
| `Probers.ProberByName` | cmd/nodecheck/prober.go:141-168 | which prober each protocol name selects, and the report for an unknown one |
| `Probers.WgProbe` | cmd/nodecheck/prober_wireguard.go:204-254 | there is a packet exactly if settings, randomness and both key agreements are good, and one failed phase otherwise; for a validated target with randomness, exactly if the configured key agrees with any one private key; a responder with the configured key reads the packet; the second phase is `handshake`, passing exactly if an attempt that is made reads 92 bytes of type 2 with bytes 4 to 8 of the packet, or with `allow_anonymous` it is `initiation-sent`, passing on a cookie reply or at the end of a silence as well; on timeouts alone it passes exactly with `allow_anonymous`, which also decides the metric family; every datagram is the packet |
| `Probers.LowOrderKeyPassesValidation` | cmd/nodecheck/prober_wireguard.go:189-230 | a target whose public key has no shared secret with any key, which validation accepts and whose probe fails before the network |
| `Probers.OnlyLastPhaseFails` | cmd/nodecheck/prober.go:63-69 | a prober runs one or two phases and only the last one can have failed |
| `Probers.ValidationCoversProbing` | cmd/nodecheck/main.go:191-206 | after validation no probe takes the branch of an unknown proto, of bad params or of a missing identity, and attempts lie in 1 to 10 |
| `Probers.TlsIdentityIsStable` | cmd/nodecheck/prober_tls.go:37-50 | a TLS target is reported under one address, SNI and name, whatever the network does |
| `Probers.MetricFamilyIsStable` | cmd/nodecheck/prober_wireguard.go:215-219 | an accepted target always reports into one metric family, away from liveness exactly if it is an anonymous WireGuard target |
| `Probe.ToResult` | cmd/nodecheck/prober.go:195-252 | the report of any outcome, field by field; no store goes through a nil pointer |
| `Probe.ProjectTells` | cmd/nodecheck/prober.go:183-252 | said of the phases: each verdict and time of TCP and TLS is that of the last phase of that name, in seconds; other phases are listed one by one; the error names the first phase that failed; target, SNI and handshake details are carried over |
| `Probe.FirstFailedIsFirst` | cmd/nodecheck/prober.go:85-93 | the phase returned is the first that failed, and none is exactly if all passed |
| `Probe.OkIffNoError` | cmd/nodecheck/prober.go:242-249 | a report is OK exactly if there are phases and all passed, and, if there are phases, exactly if it has no error |
| `Probe.LegacyFieldsTogether` | cmd/nodecheck/prober.go:199-217 | the fields of the TCP and TLS phases are all present or all absent, present exactly if such a phase ran, and the raw phases are listed in the other case |
| `WorkerPool.BoundedConcurrency` | cmd/nodecheck/main.go:129-140 | in every reachable state at most max(conc, 1) workers are probing |
| `WorkerPool.ChannelsNeverBlockOrPanic` | cmd/nodecheck/main.go:142-164 | in every reachable state a worker that wants to deliver finds an open channel with room, one that gives its permit back finds one, the wait group never goes below zero and the channel is closed once |
| `WorkerPool.NeverStuck` | cmd/nodecheck/main.go:131-163 | with at least one permit some step is enabled until `runAll` returns |
| `WorkerPool.EveryCompleteRunReturnsAll` | cmd/nodecheck/main.go:130-173 | a run that cannot go on has returned, after exactly 7n + 3 steps, with the outcomes of probing each target once, in some order |
| `WorkerPool.RunsAreBounded` | cmd/nodecheck/main.go:146-172 | no run is longer than 7n + 3 steps |
| `WorkerPool.WithoutClampNothingReturns` | cmd/nodecheck/main.go:131-133 | with a semaphore of no permits and at least one target no run ever returns, and every run of n steps is stuck |
| `Exposition.ThreePassesAreOne` | cmd/nodecheck/main.go:286-291 | the three replacements equal one pass over the characters |
| `Exposition.TakeQuotedReads` | probestore/app/routers/metrics.py:15-16 | escaping has a left inverse, whatever follows the closing quote |
| `Exposition.ParseRender` | cmd/nodecheck/main.go:277-291 | a parser of the text format recovers exactly the lines rendered, in order, for label values of any characters |
| `Exposition.ColumnOneByOne` | cmd/nodecheck/main.go:222-226 | the samples of a metric, by position: one for each item that has a value, in order, with its labels and text |
| `PromReport.LabelsAreRendered` | cmd/nodecheck/main.go:282-284 | the label set of nodecheck is the rendering of the two labels |
| `PromReport.WriteFamily` | cmd/nodecheck/main.go:231-238 | one block of the output is the rendering of its header and of the samples of the results that have one |
| `PromReport.WriteProm` | cmd/nodecheck/main.go:209-275 | the whole output is the rendering of the five families in order; parsed back, each of the five metrics is declared and holds, under node and region, the verdict, TCP time, TLS time or certificate match of each result that has one, in the order of the results |
| `PromReport.ScrapeRecoversEveryFamily` | cmd/nodecheck/main.go:209-275 | the output parses for any names and regions, and a scrape of each metric finds exactly its samples, in the order of the results |
| `PromReport.SamplesOneByOne` | cmd/nodecheck/main.go:222-226 | a family holds, in order, one sample for each result that has a value in it and for no other, with that result's labels and value |
| `PromReport.OneVerdictSampleEach` | cmd/nodecheck/main.go:214-220 | each result has its verdict in exactly one of the two verdict metrics, chosen by whether it claims liveness, and all results are OK exactly if all verdict samples are 1 |
| `PromReport.Report` | cmd/nodecheck/main.go:349-399 | in the Prometheus format without a push the exit code is 0 exactly if all verdicts that a scrape of the printed text finds are 1, and 1 otherwise |
| `PromReport.ExitCode` | cmd/nodecheck/main.go:394-399 | 1 exactly if some result is not OK, and 0 otherwise |
| `PushPayload.BuildPayload` | cmd/nodecheck/push.go:93-125 | one entry for each result with both phases, in order: its node, time, booleans and error, the failed phase that the booleans give, and a latency in milliseconds exactly if TLS passed |
| `PushPayload.OnlyTlsIsPushable` | cmd/nodecheck/push.go:77-91 | what can be pushed is exactly what the TLS prober reports |
| `PushPayload.TlsStory` | cmd/nodecheck/push.go:65-75 | for any TLS probe verdict, error prefix, failed phase and the two booleans agree |
| `PushPayload.PushedIsCoherent` | cmd/nodecheck/push.go:99-116 | an entry has a latency exactly if TLS passed, TLS only after TCP, an error exactly if something failed, and the failed phase that the booleans give |
| `PushPayload.PayloadIsCoherent` | cmd/nodecheck/push.go:93-125 | so has every entry of every batch |
| `PushPayload.NothingPushableIsRefused` | probestore/app/schemas.py:37 | the batch is empty exactly if nothing can be pushed, and is then refused |
| `Migration.ProbeResultTable.Upgrade` | probestore/migrations/versions/0002_failed_phase_and_index.py:23-40 | the column and the index are there; every row says `tcp` exactly if TCP failed and `tls` exactly if only TLS did, and is otherwise unchanged, in place |
| `Migration.ProbeResultTable.Downgrade` | probestore/migrations/versions/0002_failed_phase_and_index.py:43-45 | the column and the index are gone and all else is unchanged |
| `Migration.ProbeResultTable.DownAndUp` | probestore/migrations/versions/0002_failed_phase_and_index.py:23-45 | down and up again restores the table exactly if every row was classified by its booleans |
| `Queries.LatestIsNewestPerNode` | probestore/app/routers/nodes.py:16-23 | for any order the database picks, one row per node with results and no other, each with the greatest time of its node |
| `Queries.LatestAnswerExists` | probestore/app/routers/nodes.py:16-23 | the latest view has an answer for every store |
| `Queries.HistoryAnswerExists` | probestore/app/routers/nodes.py:60-68 | so has the history of any node |
| `Queries.HistoryIsNewestPrefix` | probestore/app/routers/nodes.py:60-70 | newest first, as long as there are rows up to `limit`, each row of the node since the given time at most as often as stored and no other, and what is left out is no newer than anything held |
| `Queries.LatestIsHeadOfHistory` | probestore/app/routers/nodes.py:16-70 | when its time is not tied the latest row of a node is the head of the node's history |
| `Queries.SharedNameMisleads` | probestore/app/routers/nodes.py:54 | if another node has the name, with results or without, there is an answer that does not begin with the latest row |
| `Queries.NamedHistoryAgreesIff` | probestore/app/routers/nodes.py:47-70 | the history asked for by name is sure to begin with the latest row exactly if no other node has the name, the row is within the time asked for and its time is not tied |
| `MetricsPage.AddGauge` | probestore/app/routers/metrics.py:39-45 | one block of lines is the rendering of a header and of the samples of the rows that have one |
| `MetricsPage.Metrics` | probestore/app/routers/metrics.py:30-69 | the page is the rendering of the three gauges in order; parsed back, each is declared and holds, under the four labels of each row's node and in order, whether both booleans hold, the latency in seconds where there is one, and the age |
| `MetricsPage.ScrapeRecoversEveryGauge` | probestore/app/routers/metrics.py:15-69 | the page parses for any names, addresses and providers, and a scrape of each gauge finds exactly its samples |
| `EndToEnd.StoredIsCoherent` | cmd/nodecheck/push.go:93-125 | in every reachable state of a store that only nodecheck feeds, every committed result is coherent |
| `EndToEnd.StoredIsClassified` | probestore/migrations/versions/0002_failed_phase_and_index.py:30-40 | in every reachable state of such a store every row names the phase that its booleans give |
| `EndToEnd.MigrateDownAndUp` | probestore/migrations/versions/0002_failed_phase_and_index.py:23-45 | so migrating it down and up again restores it |
| `NodePage.PageInputExists` | probestore/app/routers/metrics.py:36 | every reachable store has a page |
| `NodePage.HandshakeTimeIffUp` | probestore/app/routers/metrics.py:36-55 | on the page of any such store, parsed back, and for any label set, there is a handshake time exactly if the node is shown as up, and no node is shown as both up and down |
| `NodePage.EachNodeOnce` | probestore/app/routers/metrics.py:43-67 | on the parsed page of any reachable store each node has one verdict, one age and, if it has a latency, one handshake time under its labels, with the values of its row |
| `Queries.ListNodes` | probestore/app/routers/nodes.py:26-44 | one entry for each row, in order, with the columns of the node and of the result, and `up` exactly if both booleans hold |
| `Queries.AnyNewestCanBeLatest` | probestore/app/routers/nodes.py:16-23 | any result that none of its node is newer than is the node's row in some answer of the query |
| `NodePage.ListAgreesWithPageIff` | probestore/app/routers/nodes.py:26-44 | in any reachable store, over all answers that the two endpoints may get, `/v1/nodes` and the parsed `/metrics` agree on a node exactly if its results with the greatest time have one verdict |
| `TiedResults.TiedProbesDisagree` | probestore/app/routers/metrics.py:30-45 | a reachable store fed by nodecheck, from two probes of one accepted target, and two answers for which they disagree |
| `EndToEnd.SnapshotIsClosed` | probestore/app/models.py:74-79 | in every reachable state each committed result refers to a committed node |
| `EndToEnd.OneVerdictEverywhere` | probestore/app/routers/nodes.py:29-44 | of one TLS probe reported in a committed run, whatever the network did, the report, its error and prefix, its sample, the stored row, the gauge and the `/v1/nodes` entry with its `up`, booleans, latency, error and failed phase agree, the latency being the handshake's duration in milliseconds, under the address and SNI probed |
| `EndToEnd.TargetKeepsItsNode` | cmd/nodecheck/prober_tls.go:37-50 | any two results of one TLS target, in whichever committed runs, lie under one node row |

## Left out

- Sockets, TLS, HTTP, DNS and clocks: they are arbitrary inputs, as event traces, dial results and clock readings.
- BLAKE2s, HMAC, ChaCha20-Poly1305 and X25519: any functions with fixed lengths, DH that commutes and open that inverts seal; and, where said, DH that fails for a public key with every private key or with none. Nothing is claimed about secrecy or forgery.
- JSON, base64 and hex decoding, `net.SplitHostPort`, and Pydantic parsing: arbitrary functions of the host, or values already decoded. The 422 of the schema and the 401 of the token are one step that answers with a 4xx.
- Numbers in the texts: `%.4f`, `.6f` and `.1f` yield any text on one line, and durations are exact reals.
- Real time: the clock is an unbounded integer of nanoseconds, and a payload's times are integers.
- Error texts: those of configuration faults are one arbitrary function of the fault, and the text of the last error of a push is not kept.
- `run_id` freshness: two clients never draw the same id, and a client posts one body under it.
- SQLAlchemy, asyncpg, FastAPI, pooling, `created_at` and `received_at`. Results become visible at the commit, in the same step, since no other transaction sees them before. The rows of an upsert are inserted one step at a time.
- `IngestSystem`: the handler is a state machine over its database operations and not a method, because requests overlap; the committed rows, running transactions and messages are one value. The id of a committed transaction is never used again; that of an aborted one may be.
- `WorkerPool`: goroutines are steps and not a method, for the same reason. A panic inside a probe is not part of this model.
- Order of `probe_result` rows inside one batch is that of the batch; the store's serial ids for results are not part of this model.
- The JSON bodies of `/v1/nodes` and of the history: the entries are modelled as records and not as text, and the entries of the history are the rows themselves.
- `Progress.ServerCanStore`: speaks of batches that the database can take. A name with U+0000, or more distinct nodes than one statement has room for, passes the schema, and every attempt to store it ends in an abort.
- `Progress.ClientCanSucceed`: likewise.
- mac2, cookies and decrypting the response, which nodecheck does not implement either.
- `newUUIDv4`, `tlsVersionName`, flags, the sort by name, health, settings, `secrets.compare_digest` and migration 0001: they would add only easy members.
- Column lengths of `failed_phase` and index scans.
