# A verified model of ggrok's relay, tunnel codec and reconnect logic

ggrok forwards TCP ports through a relay. A publisher (`share`) registers a session, subscribers
(`listen`) attach to it, and each forwarded connection is a pair of data connections the relay
splices. The relay is a broker of many goroutines over small locked tables; the peers trust it with
routing and with nothing else. This project models that machinery in Dafny and proves what it is
supposed to guarantee, over every interleaving, every delivery and every failure.

## How it is built

State that the program updates in place is a class (`Session`, `Registry`, `RevocationSet`,
`ConnectionSet`, `Server`, `EncryptedConn`, `Directory`, `Sink`) whose methods are proved to do
exactly what a function on the fields' values says. Concurrency is a state machine over those same
functions: a run is a finite sequence of steps, a step that is not enabled changes nothing, so every
theorem quantifies over all interleavings.

| files | what they model |
|---|---|
| `RelaySession.dfy`, `RelayRegistry.dfy` | the session's and the registry's critical sections, as functions and as classes |
| `RelayCell.dfy`, `RelayCellProofs.dfy` | one session object with the goroutines at work on it, one program counter each, and a ledger of what happened |
| `RelayMachine.dfy`, `RelayTheorems.dfy`, `RelayOwnership.dfy` | all sessions and the registry together, what holds over every run, and that nothing is ever left behind |
| `RelayHandlers.dfy`, `RelayPrograms.dfy`, `RelayRegistrations.dfy` | single handlers carried from step to step in any run, and a session's life from registration to kill: what is brought about, and exactly when |
| `RelayConnections.dfy`, `ReloadMachine.dfy` | tracked transports, the live revocation set, and a reload racing admissions |
| `FrameCodec.dfy`, `FrameReader.dfy`, `FrameTheorems.dfy`, `FrameDelivery.dfy`, `FrameFaults.dfy`, `EncryptedConn.dfy` | the encrypted frame stream: writer, reader, what a hostile or an intact wire can do, what each error says, and the in-place object |
| `TunnelHandshake.dfy` | the tunnel handshake: one end, two ends on an unbuffered pipe, any number of ends through a hostile relay |
| `TunnelStreams.dfy` | handshake and codec together: every end's frames under the keys its handshake gave it |
| `Reconnect.dfy`, `ReconnectTheorems.dfy`, `KillComposition.dfy` | a peer's reconnect loop, and a kill seen from relay and publisher together |
| `Splice.dfy` | the two-way copy and its counters |
| `Credentials.dfy` | exclusive, all-or-nothing credential files |
| `RevokedSerials.dfy`, `HostPortRange.dfy` (with `Numerals.dfy`, `Strings.dfy`) | two parser and printer pairs |

## Assumptions

- The AEAD is ideal: `Open` succeeds only on a nonce and ciphertext that `Seal` produced under that
  key; sealing adds 16 bytes. Sealing twice under one nonce (section 2.1 of RFC 5116) is excluded by
  a precondition that the codec has to discharge. That each key has one writer is proved, not assumed.
- MACs are symbolic: equal only when secret, purpose and transcript are. Challenges drawn by
  different peers differ. A peer's stream secret is the whole MAC.
- `netip` addresses: what parses also prints, without brackets, to text that parses to the same.
- Removals during a credential rollback succeed, and nothing else changes the directory.
- Certificates and transports are identities; a TLS handshake is a step that yields one.

## What the proofs found

- `AttachSubscriberData` documents that on an error the connection is still the caller's
  (internal/relay/registry.go:365-369), and `handleDataConn` closes it
  (internal/relay/relay.go:308-311). If the ack or the request frame fails, this is true exactly
  when the request is still pending as `removePending` runs. If it is not, some other goroutine has
  taken the connection, and the caller's close hits it under that owner.
  `FailedAttachClosesOthersIff` proves both halves over all runs, and `FailedAttachCanCloseClaimed`
  gives a run. The session's own tables are not affected, so the ownership theorem is stated for them.
- A stream of exactly 2^64 - 1 frames does not end in `io.EOF` at its reader: the reader's counter
  check comes before it looks at the wire, so it reports an exhausted counter.
  `FullStreamEndsInCounterError` is that stream, and the one a frame shorter, which ends cleanly.
- Swapping the revocation set without the scan that follows would not be enough:
  `SwapAloneIsNotEnough` is a run in which a revoked transport is admitted in between.
- A splice counter equals the returned total unless a `Write` reports more bytes than it was given;
  then `countingWriter` adds the false count and `io.CopyBuffer` does not, as in
  `OverReportingPartsCounterFromTotal`.
- A revoked certificate whose serial is zero makes the whole exported list unreadable, and so does
  one of 65536 hexadecimal digits or more; `ExportIsReadBackIff` is the exact condition,
  `OneBadSerialSpoilsTheList` the two inputs, and `DrawnSerialIsAcceptable` shows that no serial the CA draws is affected.

## Model

| member | source | states |
|---|---|---|
| RelaySession.LookupIsTableSearch | internal/relay/session.go:200-204 | the certificate index answers exactly what a search of the subscriber table would: the count is the number of holders, and is zero iff none is attached |
| RelaySession.AdmissionIffAttached | internal/relay/session.go:185-213 | a data connection is admitted iff the session is open, has room, and its exact certificate is attached; an admitted request is filed under its identifier and nothing else changes |
| RelaySession.ReleaseUndoesAttach | internal/relay/session.go:138-178 | releasing right after attaching restores table and index entirely but for the identifier used up, and releasing again changes nothing |
| RelaySession.AddSubscriberKeepsValid | internal/relay/session.go:138-162 | attaching keeps the session's invariant: index equal to table with no zero entries, capacity, fresh identifiers, nothing pending once closed |
| RelaySession.RemoveSubscriberKeepsValid | internal/relay/session.go:165-178 | releasing keeps that invariant |
| RelaySession.AddPendingKeepsValid | internal/relay/session.go:185-213 | admitting a request keeps that invariant |
| RelaySession.ClaimPendingKeepsValid | internal/relay/session.go:338-349 | claiming a request keeps that invariant |
| RelaySession.ShutdownKeepsValid | internal/relay/session.go:290-315 | closing keeps that invariant |
| RelaySession.AddSubscriberEffect | internal/relay/session.go:138-162 | a control connection is attached iff it has a certificate, the session is open and there is room; it becomes a new entry and disturbs no other |
| RelaySession.Session.AddSubscriber | internal/relay/session.go:138-162 | the in-place method does to all fields what the critical section's function says |
| RelaySession.Session.RemoveSubscriber | internal/relay/session.go:165-178 | the same for the release, including the index entry that is dropped at zero |
| RelaySession.Session.AddPending | internal/relay/session.go:185-213 | the same for parking a request |
| RelaySession.Session.ClaimPending | internal/relay/session.go:338-349 | the same for taking a request out |
| RelaySession.Session.AddStream | internal/relay/session.go:229-239 | the same for recording a stream, which ClaimedRequestIsSplicedIff pins: recorded on an open session, refused after closure |
| RelaySession.Session.RemoveStream | internal/relay/session.go:244-249 | the same for forgetting one |
| RelaySession.Session.BeginShutdown | internal/relay/session.go:290-315 | closes, empties the pending table, and hands out each attached control connection exactly once, in some order |
| RelaySession.Session.Shutdown | internal/relay/session.go:278-285 | closes the connection of every pending request, notifies each attached control connection once, and counts exactly those |
| RelayRegistry.Registry.Claim | internal/relay/registry.go:176-192 | the locked half of Register: ban before occupancy, a new session object only on success |
| RelayRegistry.Registry.Unregister | internal/relay/registry.go:209-212 | the unconditional delete by identifier |
| RelayRegistry.Registry.SessionFor | internal/relay/registry.go:348-353 | the lookup |
| RelayRegistry.Registry.Condemn | internal/relay/registry.go:304-332 | the counting scan and what follows it under the lock: whatever order the map is visited in, the result is one the tag allows |
| RelayRegistry.Registry.Kill | internal/relay/registry.go:304-345 | with that result, the one session found is shut down, its publisher's and its pending connections closed and its subscribers notified and counted, and every other session is as it was |
| RelayRegistry.KillIsDeterministic | internal/relay/registry.go:304-328 | any two results a kill can have from one state are the same: map order never shows |
| RelayRegistry.KillActsIffTagIsUnique | internal/relay/registry.go:311-332 | a kill bans and unmaps iff exactly one live session carries the tag, and otherwise changes nothing |
| RelayCellProofs.StepIsGood | internal/relay/relay.go:227-322 | every step of every goroutine of a session keeps the session invariant and only ever extends its history |
| RelayCellProofs.StepLeavesOthersAlone | internal/relay/registry.go:370-481 | a goroutine's step moves no other goroutine, and takes from the pending table only the request it came for, which goes down as its own |
| RelayCellProofs.StepIsLocal | internal/relay/registry.go:370-481 | a goroutine's step never closes the session, never rewrites a presented certificate, starts no goroutine, and keeps the session's own invariant |
| RelayCellProofs.ShutdownIsGood | internal/relay/session.go:278-315 | a shutdown keeps the invariant and extends the history |
| RelayMachine.UnslotTakesOnlyItsOwn | internal/relay/registry.go:198-212 | with each slot holder mapped to its own session or banned, the delete by identifier removes that holder's object or nothing |
| RelayMachine.KillIsGood | internal/relay/registry.go:304-345 | a kill keeps the relay's invariant although a publisher still holds the slot |
| RelayMachine.ApplyIsGood | internal/relay/registry.go:159-481 | every action of the relay keeps its invariant and never loses a session's history; what each action brings about is in the rows below |
| RelayMachine.RunIsGood | internal/relay/registry.go:159-481 | the invariant holds after every run, and every continuation extends what was there |
| RelayTheorems.UnregisterRemovesOnlyOwnSession | internal/relay/registry.go:209-212 | in every run, whatever a publisher's unregister or failed ack deletes from the map is its own session object |
| RelayTheorems.LookupFindsOpenSession | internal/relay/registry.go:348-353 | a lookup only ever finds a session that is open, registered under that identifier and not banned |
| RelayRegistrations.SessionsAreProven | internal/relay/registry.go:159-192 | in every run every session object was made by a registration with a proven claim, under the identifier, mode, port count and certificate it has had ever since, when that identifier was neither mapped nor killed |
| RelayRegistrations.RegisteringMapsIff | internal/relay/registry.go:162-192 | in every run a registration maps its identifier to a new, open, empty session iff its claim is proven, a certificate was presented, and the identifier is neither mapped nor killed; otherwise nothing at all changes |
| RelayRegistrations.HeldSessionIsFound | internal/relay/registry.go:194-212 | until its publisher leaves or it is killed, a session stays mapped under its identifier, and open |
| RelayRegistrations.AckDecides | internal/relay/registry.go:198-204 | a written ack makes the publisher live; a failed ack, and the end of its loop, send it on its way out |
| RelayRegistrations.LeavingEndsTheSession | internal/relay/registry.go:209-222 | in every run a publisher's way out leaves its identifier unmapped, its session closed, every subscriber told, and every pending connection handed over to be closed |
| RelayRegistrations.KillingEndsIff | internal/relay/registry.go:304-345 | in every run a kill bans, unmaps and shuts down the one live session under its tag, and with none or several changes nothing |
| RelayTheorems.KillIsFinal | internal/relay/registry.go:183-187 | after a kill the identifier is never mapped again, gets no new session object, and every registration for it is answered AckDenied |
| RelayTheorems.RequestLeavesOnce | internal/relay/session.go:185-223 | an admitted request that has left the pending table has exactly one fate, never returns and never changes it |
| RelayTheorems.PendingIsUntouched | internal/relay/session.go:338-349 | a request still pending has no winner, and no goroutine of its session has closed its connection |
| RelayTheorems.OnlyTheWinnerCloses | internal/relay/session.go:218-223 | a claimed connection is never closed by timer, removal or shutdown, and likewise for the other two winners, now and for ever |
| RelayTheorems.AdmittedWhileAttached | internal/relay/session.go:196-213 | for every request there was a moment of admission, at which the session was open and the connection's exact certificate attached |
| RelayTheorems.StreamsJoinAttachedPeers | internal/relay/registry.go:425-458 | every stream ever recorded has a port below the session's count, a publisher leg with exactly the registered certificate, and the subscriber connection admitted for that request and port while its certificate was attached |
| RelayTheorems.ClosureIsAbsorbing | internal/relay/session.go:290-315 | once closed, always closed: pending empty, no admission, no stream added, nobody notified again |
| RelayTheorems.OpenHasToldNobody | internal/relay/session.go:278-285 | nobody is notified by a session that is open |
| RelayTheorems.ClosingIsShutdown | internal/relay/session.go:290-299 | only a shutdown closes a session |
| RelayTheorems.NotifiedExactlyOnce | internal/relay/session.go:290-315 | over all shutdown calls together, each subscriber attached at closure is handed out for notification exactly once and nobody else ever is |
| RelayHandlers.AttachedSubscribersMatched | internal/relay/registry.go:241-281 | in every run each attached subscriber once asked for this very session: by its identifier, with its mode and port count, while it was registered, and with the certificate it is attached under |
| RelayHandlers.SubscribingAttachesIff | internal/relay/registry.go:241-266 | in every run a subscriber that gets from its hello to its slot undisturbed is attached, under its certificate and with its ack to come, iff a publisher holds the identifier with its mode and port count, it has a certificate, and there is room; otherwise nothing changes |
| RelayPrograms.SubscriberIsServed | internal/relay/registry.go:268-281 | in every run a subscriber whose ack is written stays attached; one whose ack fails or whose loop ends is released, and nobody else is |
| RelayPrograms.DataIsAdmittedIff | internal/relay/registry.go:370-394 | in every run a data connection that gets from its attach to the table undisturbed is admitted, under its own connection and port, iff the session is found in TCP mode with that port, has room, and its exact certificate is attached |
| RelayPrograms.DataHandlerHandsOver | internal/relay/registry.go:396-410 | in every run a data handler whose ack and request are written leaves its request untouched to whoever comes for it; if either write fails it goes on to take the request back |
| RelayPrograms.FailedAttachTakesBack | internal/relay/session.go:218-223 | in every run a failed attach whose request is still pending takes it out, and its connection is closed by it and by its caller |
| RelayPrograms.TimerClosesIffPending | internal/relay/session.go:206-223 | in every run a timer takes out and closes a request that is still pending, and one that fires too late does nothing |
| RelayPrograms.PublisherClaimsIff | internal/relay/registry.go:425-443 | in every run a publisher's data connection takes a request, as it was pending, iff the identifier is mapped, the certificate is the registered one, and the request is pending |
| RelayPrograms.ClaimedRequestIsSplicedIff | internal/relay/registry.go:445-458 | in every run a claimed request on an open session is recorded, with its port and both legs, and spliced; on a closed session nothing is recorded and the connection is closed |
| RelayPrograms.SpliceEndsClosed | internal/relay/registry.go:459-481 | in every run a splice that ends has closed its connections, and then its stream and no other is forgotten |
| RelayPrograms.SweepClosesAll | internal/relay/session.go:278-285 | in every run a shutdown closes each connection it was handed, in whatever order, and is then done |
| RelayPrograms.SplicedRun | internal/relay/registry.go:425-458 | a run that ends with a recorded stream between the two certificates it names |
| RelayOwnership.StepKeepsOwned | internal/relay/relay.go:227-322 | every step of every goroutine keeps each table entry answered for by exactly the goroutine that made it |
| RelayOwnership.NothingLeaks | internal/relay/registry.go:262-281 | in every run each attached subscriber has a handler yet to release it, each listed stream one yet to forget it, and each request taken was closed by its taker or will be |
| RelayOwnership.DeadSessionHoldsNothing | internal/relay/session.go:278-315 | once the publisher's handler is gone and no goroutine is left, the session is closed and empty, and the connection of every request ever admitted has been closed |
| RelayHandlers.FailedAttachClosesOthersIff | internal/relay/relay.go:307-311 | in every run, a failed attach takes its own connection back iff the request is still pending at removePending; otherwise another goroutine is its owner, and whatever happens in between, the caller's next step closes it under that owner |
| RelayHandlers.FailedAttachCanCloseClaimed | internal/relay/relay.go:307-311 | a run in which it closes a connection the publisher has claimed |
| RelayConnections.EvictLeavesOnlyDeferred | internal/relay/connections.go:61-96 | after the eviction scan the only covered socket left is the one whose reply is due |
| RelayConnections.EvictKeepsTheRest | internal/relay/connections.go:61-96 | a socket stays tracked, as it was, iff it has no revoked serial or is the one whose reply is due |
| RelayConnections.RevocationSet.Replace | internal/mtls/mtls.go:53-57 | the set read from now on is the new one |
| RelayConnections.RevocationSet.Contains | internal/mtls/mtls.go:60-68 | membership, false for a set never stored |
| RelayConnections.RevocationSet.Len | internal/mtls/mtls.go:71-78 | the number of serials |
| RelayConnections.ConnectionSet.Track | internal/relay/connections.go:20-31 | tracks a transport iff fewer than 1024 are tracked |
| RelayConnections.ConnectionSet.Authenticate | internal/relay/connections.go:35-47 | succeeds iff the transport is still tracked, a serial is present, and that serial is not in the set at that moment, whatever else is; then it is recorded |
| RelayConnections.ConnectionSet.CloseMatchingAfterReply | internal/relay/connections.go:61-96 | evicts exactly the covered sockets but the requester's, defers that one, and counts both |
| RelayConnections.ConnectionSet.CloseAll | internal/relay/connections.go:99-106 | closes and forgets everything tracked |
| RelayConnections.ConnectionSet.Forget | internal/relay/connections.go:114-120 | a closed transport is no longer tracked |
| RelayConnections.Server.CountAdded | internal/relay/admin.go:278-320 | the number of serials that were not in the previous set |
| RelayConnections.Server.ServeReloadCRL | internal/relay/admin.go:278-320 | refused without file or on a bad one, changing nothing; otherwise the new set is live, the covered sockets but the requester's are closed, then the reply goes out with its three numbers right, and only then is the requester's closed if it is covered |
| ReloadMachine.ScanEnforces | internal/relay/connections.go:61-96 | the scan, under the lock admissions need, leaves no covered socket but the deferred one |
| ReloadMachine.ReloadIsEnforced | internal/relay/admin.go:278-320 | from the scan until the next swap no tracked socket has a revoked serial except the deferred requester; with the reload lock free there is none at all; never more than 1024 sockets |
| ReloadMachine.NoRevokedSocketIsOpen | internal/relay/admin.go:300-320 | with the reload lock free, every authenticated transport that is still open is tracked and not revoked |
| ReloadMachine.StaleHandshakeIsRefused | internal/relay/connections.go:35-47 | once the scan has run, nobody is on the way in with a serial that is now revoked, and until the next swap nobody is admitted with one, however old the handshake |
| ReloadMachine.AcceptedIffRoom | internal/relay/connections.go:20-31 | a new transport is open and tracked iff fewer than 1024 are; nobody else is affected |
| ReloadMachine.AdmittedIff | internal/relay/connections.go:35-47 | with the lock free, a transport is admitted under its serial iff it is tracked and that serial is not revoked, whichever others are; otherwise nothing changes |
| ReloadMachine.ReloadClosesExactly | internal/relay/admin.go:278-320 | a reload that nothing races installs its set, untracks and closes exactly the sockets whose serial is in it, the requester's included, in any order, and touches nobody else |
| ReloadMachine.RefusedReloadChangesNothing | internal/relay/admin.go:278-320 | a reload that is refused leaves everything as it was |
| ReloadMachine.ForgottenIff | internal/relay/connections.go:99-120 | a closed transport is forgotten and an open one is not; a shutdown closes and forgets everything tracked |
| ReloadMachine.SwapAloneIsNotEnough | internal/relay/admin.go:278-320 | a run that shows why the scan has to follow the swap |
| FrameCodec.NonceInjective | internal/proto/frame_conn.go:128-133 | two nonces agree only if prefix and counter do |
| FrameCodec.HeaderIsExact | internal/proto/frame_conn.go:171-178 | the two length bytes read back as the sealed length for every frame size there is |
| FrameCodec.WriteFramesIsGood | internal/proto/frame_conn.go:151-190 | the frame loop: the count returned covers exactly the completed frames, their plaintext is that much of the argument, and a failure is for good |
| FrameCodec.WriteIsGood | internal/proto/frame_conn.go:140-191 | the same for Write itself, with its sticky error and its empty argument; WriteSucceedsIff says when it succeeds |
| FrameCodec.WriteSucceedsIff | internal/proto/frame_conn.go:140-191 | a Write succeeds iff the counter has room for its frames and the transport takes them all; if not, it returns exactly the frames before the fault or before the counter ran out |
| FrameReader.Reader.ReadFrameConsumes | internal/proto/frame_conn.go:224-277 | every frame opened takes at least 18 bytes off the wire |
| FrameReader.FillIsDone | internal/proto/frame_conn.go:205-214 | so the skip-empty-frames loop ends, with plaintext or an error |
| FrameReader.ReadMakesProgress | internal/proto/frame_conn.go:195-220 | a Read with room returns at least a byte, and as many as are opened or fit, or an error, and an error for ever after |
| FrameReader.EmptyReadChangesNothing | internal/proto/frame_conn.go:196-198 | a Read without room returns nothing, no error even after one, and changes nothing |
| FrameReader.FillJudgesTheEnd | internal/proto/frame_conn.go:224-277 | the bare end-of-file value is kept for a wire cut before the prefix, after it, or after a whole frame |
| FrameTheorems.PlaintextIsPrefix | internal/proto/frame_conn.go:140-277 | over any bytes delivered, all plaintext read is a prefix of all plaintext written |
| FrameTheorems.WireIsWellFormed | internal/proto/frame_conn.go:157-180 | the wire carries the prefix once, then frame after frame under counters 0, 1, 2, possibly cut once at the end |
| FrameTheorems.NoncesNeverRepeat | internal/proto/frame_conn.go:173-178 | no two frames a writer ever seals share a nonce, failed writes included |
| FrameTheorems.ErrorsAreFinal | internal/proto/frame_conn.go:144-146 | after an error nothing is sealed, written or read again |
| FrameTheorems.LengthFieldsAreExact | internal/proto/frame_conn.go:171-178 | every frame's length field is exact and fits 16 bits |
| FrameTheorems.BareEofIffWholeStream | internal/proto/frame_conn.go:224-251 | among the errors about where the wire ended, it is the bare io.EOF iff the wire was closed cleanly at one of those three places |
| FrameFaults.ErrorsAreExplained | internal/proto/frame_conn.go:224-277 | over any run and any bytes, a reader's error accounts for all of them: the prefix and exactly the frames it opened, each the writer's own, then what the error names; a clean end has nothing behind them |
| FrameDelivery.IntactWireDeliversEverything | internal/proto/frame_conn.go:195-277 | an intact wire, drained through buffers of any sizes, yields everything the writes reported, exactly what was written if none failed, and enough reads do drain it |
| FrameDelivery.EverythingWrittenIsRead | internal/proto/frame_conn.go:140-277 | the same over whole runs: with no fault, what is read is the concatenation of all Write arguments |
| FrameDelivery.FullStreamEndsInCounterError | internal/proto/frame_conn.go:224-227 | after 2^64 - 1 frames, all delivered, the reader ends with an exhausted counter; after one fewer, with a clean end |
| FrameDelivery.ReadAllProgresses | internal/proto/frame_conn.go:195-220 | each read with room hands out a byte until there is an error |
| EncryptedConn.Aead.Seal | internal/proto/frame_conn.go:173-175 | sealing demands a nonce that key has never seen |
| EncryptedConn.EncryptedConn.SendFrame | internal/proto/frame_conn.go:161-184 | one frame from the in-place fields, under a nonce proved new |
| EncryptedConn.EncryptedConn.Write | internal/proto/frame_conn.go:140-191 | the loop over counters, buffer and sticky error does what the writer's function says, with a fault exactly when the transport has just failed |
| EncryptedConn.EncryptedConn.ReadFrame | internal/proto/frame_conn.go:224-277 | the same for one frame read |
| EncryptedConn.EncryptedConn.Read | internal/proto/frame_conn.go:195-220 | the same for Read with its carry-over buffer |
| TunnelHandshake.ExchangeChallenges | internal/proto/auth.go:67-83 | the I/O order of each role, and the publisher's challenge first in the result on both sides |
| TunnelHandshake.NewAuthenticatedConn | internal/proto/auth.go:25-64 | yields the crossed keys of the peer machine iff that machine accepts, having performed its I/O in its order |
| TunnelHandshake.PartnersCrossKeys | internal/proto/frame_conn.go:92-101 | each end writes with the key the other reads with iff secret, port and both challenges agree; the two directions never share a key |
| TunnelHandshake.StepStaysInStep | internal/proto/auth.go:44-54 | the two ends are always at matching points and every step uses up I/O |
| TunnelHandshake.HandshakeTerminates | internal/proto/auth.go:66-83 | on an unbuffered pipe, with any failures, the handshake always ends; an end accepts only if secret and port agree, and two accepting ends hold one stream secret |
| TunnelHandshake.HonestHandshakeSucceedsIff | internal/proto/auth.go:25-64 | without transport failures both ends accept iff secret and port agree, and otherwise both refuse |
| TunnelHandshake.AcceptedHasPartner | internal/proto/auth.go:40-63 | whatever a relay delivers, a peer accepting under a secret that has not leaked has exactly one partner, which agrees on secret, port and both challenges and holds the crossed keys |
| TunnelHandshake.ForwardedHandshakeAccepts | internal/proto/auth.go:25-64 | through a relay that only forwards, both ends accept and are partners |
| TunnelHandshake.LeakedSecretAcceptsAlone | internal/proto/auth.go:12-19 | a run that shows why the secret has to be safe: under a leaked one a peer accepts that has no partner |
| TunnelHandshake.StreamSecretsAreDistinct | internal/proto/auth.go:60-63 | two tunnels share a stream secret only if they are the two ends of one |
| TunnelHandshake.WriteKeysAreDistinct | internal/proto/frame_conn.go:92-101 | no two ends anywhere write under one key |
| TunnelStreams.AcceptedReadsOnlyItsPartner | internal/proto/auth.go:12-19 | over all handshakes, leaks, writes and deliveries: an end that accepted under a secret nobody leaked reads only a prefix of what its one partner wrote |
| Reconnect.AnswerEndsRetriesIff | internal/proto/hello.go:216-233 | an answer is no error iff AckOK, and ends the retries iff it is a mode or port mismatch or a denial |
| Reconnect.AckErrIff | internal/proto/hello.go:216-233 | only byte 0 is success, each rejection has its own sentinel and no other, and an unknown byte is an error |
| Reconnect.RetryableIff | internal/peer/reconnect.go:209-230 | an error is retried iff it is made of none of the terminal causes: a mode, port or protocol mismatch, a denial, a certificate that does not verify, a fatal TLS alert |
| Reconnect.BaseDelayIsCappedDoubling | internal/peer/reconnect.go:234-240 | in 64-bit arithmetic the delay is min(250ms * 2^attempt, 10s) for every attempt number |
| Reconnect.RetryDelayBounds | internal/peer/reconnect.go:234-244 | each wait lies in the last quarter before that delay |
| Reconnect.EveryDelayIsDrawn | internal/peer/reconnect.go:242-244 | and every delay of that quarter is drawn for some draw |
| Reconnect.DialAndShake | internal/peer/reconnect.go:158-178 | connect: a failed dial leaves nothing, a failed connection kind or handshake closes what was dialled, a success leaves it open |
| Reconnect.RunControl | internal/peer/reconnect.go:183-191 | runSession: the control loop's error, and the deferred close |
| Reconnect.NotifyConnected | internal/peer/reconnect.go:142-153 | which callback a new session gets, and whose error counts |
| Reconnect.Retry | internal/peer/reconnect.go:118-136 | the order of cancellation, giving up, counting, reporting and waiting |
| Reconnect.Once | internal/peer/reconnect.go:102-136 | one pass through the loop over its two variables |
| Reconnect.Serve | internal/peer/reconnect.go:95-138 | the loop equals the recursion the theorems are about |
| ReconnectTheorems.ServeStopsAtFirstVerdict | internal/peer/reconnect.go:118-123 | Serve returns at the first round with a verdict, for that verdict: a failed ready callback, cancellation, an error with a terminal cause, or a failure before any session without Wait; with no verdict it never returns |
| ReconnectTheorems.TraceIsOrderly | internal/peer/reconnect.go:95-138 | an onlooker's automaton accepts the trace at every moment, and ends with nothing open and no reported wait that was not begun |
| ReconnectTheorems.ReportsAreOrdered | internal/peer/reconnect.go:125-132 | waiting reports come first, at most one ready, and a disconnect between any two reports of a session |
| ReconnectTheorems.ReadyComesFirst | internal/peer/reconnect.go:142-153 | no disconnect or reconnect is reported before ready |
| ReconnectTheorems.ConnectionsAreClosed | internal/peer/reconnect.go:158-191 | over the exits of connect, of the ready callback and of runSession: a connection is dialled, and a wait reported or begun, only when the previous connection is closed; a reported wait is the next one begun, for as long; at the end nothing is open |
| ReconnectTheorems.ReportsAreTrue | internal/peer/reconnect.go:125-132 | every event after k waits is borne out by round k: a report names the error that very round ended in, a retryable one, and is a waiting report iff no session has come up |
| ReconnectTheorems.EveryRoundIsReported | internal/peer/reconnect.go:101-137 | every round a run reaches has its own stretch of the trace, with each dial, close, session, callback and wait that it calls for and none that it does not; in particular no wait for a terminal error |
| ReconnectTheorems.ErrorIsFirstFailure | internal/peer/reconnect.go:102-116 | the error a round goes on with is the first thing that went wrong in it |
| ReconnectTheorems.WaitsBackOff | internal/peer/reconnect.go:113-134 | the k-th wait is drawn from the delay for the number of retries since the last session that lasted a minute |
| ReconnectTheorems.BackoffGrowsUntilStable | internal/peer/reconnect.go:113-126 | between stable sessions the count grows by one a round and the delay never shrinks |
| KillComposition.KilledAnswerIsDenied | internal/relay/registry.go:183-187 | every answered handshake of a killed publisher fails with ErrDenied, which is not retryable |
| KillComposition.KilledPublisherStops | internal/peer/reconnect.go:95-138 | a publisher of a killed identifier serves and reports no session again and any answer ends Serve; in whichever later round a loop that keeps knocking gets its first answer, it stops there with ErrDenied, unless cancelled just then |
| KillComposition.RegistrationIsAnswered | internal/relay/registry.go:162-198 | the byte a registration is answered with, in every run: 0 iff it is proven, certified, and the identifier free and not killed; 3 for a proven claim on a mapped one; 5 otherwise |
| KillComposition.OccupiedIsRetried | internal/peer/reconnect.go:205-208 | a publisher whose identifier is still mapped is answered ErrPublisherExists and keeps knocking |
| Splice.Sink.Write | internal/streamio/splice.go:116-122 | the wrapper passes the write through and counts what it reports |
| Splice.CopyStream | internal/streamio/splice.go:87-99 | the copy loop and its Close do to the destination and the counter what the direction's functions say |
| Splice.SpliceIsExact | internal/streamio/splice.go:75-104 | in any interleaving each side has been given a prefix of what the other was read for and the live counter is exact; on return both sides are closed, totals are exact, and a counter equals its total iff no Write over-reported |
| Splice.CopyMovesUntilItEnds | internal/streamio/splice.go:125-135 | a copy moves exactly what is read, turn after turn, and closes on the first turn that brings the source's last bytes, a failed write or a short one, and on no other |
| Splice.StepClosesIff | internal/streamio/splice.go:87-99 | in the interleaved machine a direction begins to close for those causes and for no others, and finishes by closing its side |
| Splice.OverReportingPartsCounterFromTotal | internal/streamio/splice.go:116-122 | a run in which one Write claims too much and the counter ends at 2 where the total is 0 |
| Splice.CountingMovesTheSameBytes | internal/streamio/splice.go:73-80 | wrapping the writers changes nothing but the counters |
| Credentials.Directory.CreateExclusive | cmd/ggrok/credentials.go:28-34 | refuses an existing name, creates an empty file otherwise |
| Credentials.Directory.RollBack | cmd/ggrok/credentials.go:19-26 | removes exactly the files created |
| Credentials.Directory.WriteCredentials | cmd/ggrok/credentials.go:13-45 | all the files with exactly their contents, none of which existed, or the directory as it was, wherever it fails and in any map order; and all of them iff no call fails and no name is taken |
| Credentials.ApplyKeeps | cmd/ggrok/credentials.go:19-42 | every system call of every run keeps what each run relies on |
| Credentials.SharedNameHasOneWinner | cmd/ggrok/credentials.go:9-12 | runs that share a file name never both succeed, and none succeeds over a prior file |
| Credentials.DirectoryHoldsOnly | cmd/ggrok/credentials.go:13-45 | at any time prior files are as they were, a successful run's files hold its contents, a failed run has left nothing, and nothing else is there |
| Credentials.OnlyOwnFilesAreRemoved | cmd/ggrok/credentials.go:19-26 | a call removes a name only if the calling run made that file |
| Credentials.DoneIsFinal | cmd/ggrok/credentials.go:43-44 | a finished run's result never changes |
| Credentials.FailsOnlyForCause | cmd/ggrok/credentials.go:28-42 | a run turns to failure only on a call that failed or a name that was taken |
| Credentials.EveryCallAdvances | cmd/ggrok/credentials.go:19-42 | every call, failed or not, brings its run nearer its end |
| Credentials.UndisturbedRunSucceeds | cmd/ggrok/credentials.go:28-44 | a run whose names are free and whose calls all work ends in success, in whatever order it visits its names |
| Credentials.FreshRunSucceeds | cmd/ggrok/credentials.go:13-45 | in any state a directory can be in, a new run over free names whose calls all work ends in success with all its contents in place |
| HostPortRange.SplitOfJoin | internal/hostport.go:140-140 | splitting what was joined gives host and port back, bracketed or not |
| HostPortRange.SplitIff | internal/hostport.go:140-140 | which texts split, and into which host and port, over their characters |
| HostPortRange.SpanIff | internal/hostport.go:161-190 | a span is accepted iff both ends are ports, the first is not 0, they do not run backwards and cover at most 1024; each refusal is of the right kind |
| HostPortRange.ParseRangeIff | internal/hostport.go:139-156 | a text parses to a range iff it splits into that range's host and a span from its first port to its last |
| HostPortRange.ParsedRangeIsProper | internal/hostport.go:161-190 | a parsed range has 1 to 1024 ports, all of which exist, and starts at port 0 only alone |
| HostPortRange.AtIsExact | internal/hostport.go:199-208 | At succeeds exactly on 0..count-1, with first+i and no 16-bit wrap |
| HostPortRange.EqualRangesCorrespond | internal/hostport.go:124-127 | ranges of one length correspond port for port, one to one |
| HostPortRange.RangeRoundTrip | internal/hostport.go:211-219 | printing a parsed range and parsing that gives the same range |
| HostPortRange.TextIs | internal/hostport.go:211-219 | how a range is printed, character for character |
| HostPortRange.ParsesToIff | internal/hostport.go:139-156 | the ranges that some text parses to are exactly the proper ones on a host that parses |
| RevokedSerials.ParseRevokedSerials | internal/ca/ca.go:407-434 | the scanning loop, line by line, with its first error |
| RevokedSerials.ParsedIff | internal/ca/ca.go:410-433 | the list is accepted iff every line is, and holds exactly the canonical texts of what its lines say |
| RevokedSerials.FirstBadLineDecides | internal/ca/ca.go:411-431 | the first line that is too long, or bad, decides the error |
| RevokedSerials.LineMeansIff | internal/ca/ca.go:412-426 | a line is blank iff it is all white space, a serial iff it is hexadecimal digits of a positive value in white space, and refused in every other case |
| RevokedSerials.LinesIff | internal/ca/ca.go:410-412 | the lines are what stands between newlines, and a last one needs none |
| RevokedSerials.OnlyWhatIsSaidMatters | internal/ca/ca.go:404-406 | order, duplicates and blank lines do not matter |
| RevokedSerials.MeaningIgnoresPadding | internal/ca/ca.go:412-415 | two lines that trim to the same text say the same, whatever white space and carriage returns they have |
| RevokedSerials.MeaningIgnoresStyle | internal/ca/ca.go:412-426 | letter case, any number of leading zeros and any white space around a serial change nothing of what its line says; a zero is refused |
| RevokedSerials.SerialTexts | internal/ca/ca.go:390-402 | the set of the revoked certificates' serials as text |
| RevokedSerials.WriteRevokedSerials | cmd/ggrok/ca.go:465-470 | the builder's loop over the sorted keys |
| RevokedSerials.SortedOrderIsUnique | cmd/ggrok/ca.go:467-467 | the sorted keys do not depend on the map's order |
| RevokedSerials.LessIff | cmd/ggrok/ca.go:467-467 | that order, by the first difference |
| RevokedSerials.ExportIsReadBackIff | internal/ca/ca.go:384-434 | the exported list is read back, as exactly the set exported, iff every serial is positive and under 65536 digits |
| RevokedSerials.RevokedIffListed | internal/ca/ca.go:384-389 | after the trip a serial is in the set iff its certificate was revoked |
| RevokedSerials.OneBadSerialSpoilsTheList | internal/ca/ca.go:422-431 | a revoked certificate with serial zero, or with one of 65536 digits, makes the exported list unreadable |
| RevokedSerials.DrawnSerialIsAcceptable | internal/ca/ca.go:579-588 | every serial newSerial can draw lies in 1..2^128-1 and is accepted |

## Left out

- Identifier width: request, subscriber and object numbers are unbounded, where the program's are 64 bits wide.
- Timer identity: `Stop` on a claimed request's timer is not modelled, so a timer may fire for any admitted request; the theorems hold with more behaviours than the program has.
- Frames on control connections: the contents and order of acks, request frames and session-closed frames are not modelled, only whether writing one failed; nothing is claimed about an ack coming first.
- Modes other than TCP: `ReadHello` lets no other through, and the model's mode is an arbitrary number.
- Heartbeats, deadlines and contexts: they appear as steps at which a handler leaves, a read fails or a run is cancelled.
- Publish claims and TLS: proving a claim is a Boolean of the registration step, a certificate is an identity, and a peer without one is the absent certificate.
- Reconnect.DialAndShake: the hello, the publisher's proof and the reading of the ack are one answer or one I/O error.
- RelayRegistry.Registry.Kill: what is written to the notified control connections, and their close after it, are not modelled.
- RelayRegistry.Registry.Claim: models the locked half of Register; the challenge before it and the ack after it are the machine's steps.
- RelayTheorems.PendingIsUntouched: speaks of the session's own goroutines; a certificate-list reload can close the raw transport under a pending request, which is a step of the other machine.
- RelayConnections.ConnectionSet.CloseAll: the model does not capture that the program holds the lock while closing.
- Admin snapshots: summaries are taken across several locks without consistency, so no agreement is claimed of them.
- FrameTheorems.NoncesNeverRepeat: speaks of one stream's writer; that two streams draw different 16-byte prefixes is a matter of probability, and two streams do not share a key.
- TunnelHandshake.AcceptedHasPartner: assumes challenges do not collide; random 256-bit draws make that likely, not certain. A stream secret is the whole MAC where the program copies its leading bytes.
- TunnelHandshake.NewAuthenticatedConn: a role that is neither publisher nor subscriber is refused by the program and cannot be expressed here.
- Concurrent calls on one EncryptedConn: the write and the read mutex make each half sequential, which is how the object is modelled.
- Reconnect.Serve: takes a finite script of rounds, so it states what holds of every finite part of a session's life; the context's own close, which may come a second time and at any point of connect or of a session, is not an event.
- Splice.CopyStream: covers the buffered copy; when an uncounted stream brings its own ReaderFrom or WriterTo the bytes are moved by the standard library, which is not part of this model.
- Credentials.Directory.WriteCredentials: file modes, the creation of the directory itself and failing removals are left out.
- RevokedSerials.WriteRevokedSerials: takes the sorted keys from the library, and leaves out the temporary file and the rename.
- RevokedSerials.ParseRevokedSerials: text is a sequence of Unicode characters, so files that are not valid UTF-8 are left out.
- Fixed-width messages, admin frames and tokens: their encodings are simple copies.
- The `listen` and `share` packages, command-line parsing, configuration, colours and tables: socket plumbing and user interface.
