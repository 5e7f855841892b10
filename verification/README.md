# The SALTO KS protocol core in Dafny

This project models the protocol core of the mkey repository and proves what it keeps. The modelled code does no
I/O of its own: it is a stack of state machines over byte strings, from two checksum kernels at the bottom to the
radio loop at the top.

| module | source | what it models |
|---|---|---|
| `Bytes` | | bytes, 16-bit words, blocks, errors, exclusive or on binary digits |
| `Crc` | `crypto/crc.rs` | the nibble-multiply checksum and the table checksum, against one bit-by-bit recurrence |
| `Base62` | `data/base62.rs` | in-place long division of a big-endian byte string by 62 |
| `Cbc` | `crypto/aes.rs`, `padding.rs`, `rotation.rs`, `session.rs` | CBC over an abstract block permutation, padding, rotation, key derivation |
| `Ssp`, `SspRuns` | `security/ssp.rs` | the secure channel manager, and what every run of it keeps |
| `Channel` | `security/ssp.rs` | the manager against an honest lock: handshake and synchrony |
| `Tlv`, `MobileKey` | `data/mobile_key.rs` | the key codec, against a reference BER-TLV reader |
| `Justin`, `JustinRuns` | `command/justin.rs` | the tag commands, and the tag store they amount to |
| `Stack` | `stack.rs` | both layers together; transparency |
| `Session` | `mkey-session/src/session.rs` | one opening attempt as a state machine |
| `SessionRuns`, `SessionLedger`, `SessionNoise` | the same | run shape; verdict, timers, trace and wire; noise |
| `SessionHistory` | the same | what every run asks for and how it ends, from its events alone |
| `Opening` | the same, with everything below | an honest lock carried through a whole opening |
| `Pump`, `PumpRuns` | `mkey-ble/src/pump.rs` | the radio loop, and the closed system over any radio |
| `HonestRadio` | the same, with everything below | an honest lock behind a working radio |

## How it is built

Every stateful object of the source is a class whose methods change fields the way the source does. Beside it
stands its value (`Manager`, `Stack`, `Flow`, `Session`, `World`) and a function on values that says what each step
does; each method's postcondition equates its new state and its answer with that function, and the theorems are
proved about runs of those functions. Loops of the source are loops here, over arrays where the source works in
place.

Three things enter as parameters. The block cipher is a pair of function values with the two inverse laws as a
precondition (`Cbc.Cipher`); CBC itself is written out (section 6.2 of NIST SP 800-38A). The random source is a
sequence of 16-byte values (`Ssp.Env`). The radio is a script: which write, subscription or reading fails, and a
finite sequence of receptions, after which the lock stays silent (`Pump.Radio`).

Histories are explicit. The channel manager carries a ghost log of every well-sized ciphertext. Justin's, the
session's and the pump's theorems quantify over sequences of commands, events and radio scripts, and compare the
state with a function of the history alone: the last accepted write, the first final verdict, the packets fed.

The main theorems, hardest first:

* `Opening.HonestOpening`, `HonestRadio.HonestAttempt`: handshake, channel, stack, session and pump composed. For any
  key, any challenge values and any valid moves of an honest lock, before and after the handshake, the lock reads
  exactly what Justin answers when run directly, and the attempt ends with the first final verdict the lock wrote.
* `Stack.Transparency`, `Channel.EndpointSynchrony`, `SspRuns.SingleStream`: the channel never loses a byte, across
  key changes and in both directions, because everything under one key is a single CBC stream.
  `SspRuns.HistoryIsTheWire` ties the history these speak of to what callers hand in and get back.
* `PumpRuns.ClosedSystem`, `PumpRuns.Teardown`: over every radio the session never meets an event it does not
  expect, the loop never stalls, teardown happens once and last, and the finished phase is missing exactly when the
  answer to an accepted CLOSE cannot be written. `PumpRuns.EventsHandedIn`, `ObserverSeesAll` and `FailuresEnd` say
  which event every reception becomes, that all requests reach the radio and the observer, and what failed calls do.
* `SessionHistory.RunExactly`: over every sequence of events, all the shell is asked for and the result are a function
  of the events alone, written down without the session's state. `SessionRuns.RunShape` and
  `SessionLedger.VerdictLatch`, `TimerEnds`, `TimerAgreement`, `WireIsStack` say what that means for order, verdict,
  timers and wire.
* `JustinRuns.StoreRefinement`, `ReadsLastWrite`, `ClosedForGood`: the tag commands are a permission-checked store.
* `MobileKey.RoundTripExactly`: the key codec round-trips exactly when every written tag number is at most 0x1E.
* `Crc.OneRecurrence`, `ChecksumResidue`, `WindowDetected` and `Base62.DecodeEncode`: the arithmetic kernels.

## Where the code and its documentation disagree

The model follows the code.

* `crates/mkey-core/src/crypto/crc.rs:1-4` calls 0x1081 the polynomial. The code multiplies nibbles by it;
  `Crc.NibbleProduct` shows that it is the nibble multiplier of the reflected polynomial 0x8408, the one the second
  checksum uses (FCS-16, Appendix C.2 of RFC 1662).
* `crates/mkey-ble/src/pump.rs:51-53` says that the finished phase is reported on every path. It is not when the
  reply to an accepted CLOSE cannot be written: the session is finished by then, so the fallback does not fire.
  `PumpRuns.FarewellCanBeLost` is a radio on which this happens, for every key. `PumpRuns.Teardown` gives the exact
  condition on the script and the rounds: the stack answers an accepted CLOSE in a round whose next write the radio
  refuses.
* `MobileKey` accepts tag number 0x1F, which encodes as the multi-byte tag marker 0xDF (section 8.1.2 of ITU-T
  X.690) and does not come back. `MobileKey.MarkerCounterexample` is a concrete key.

## Model

| member | source | states |
|---|---|---|
| Opening.HonestOpening | crates/mkey-session/src/session.rs:305-380 | for every key, any plaintext moves of an honest lock before the handshake, every random value and any valid non-closing moves after it, the lock reads Justin's own direct answers throughout, and both a dropped link and a CLOSE end the attempt with the first final verdict among its accepted audit writes |
| HonestRadio.HonestAttempt | crates/mkey-ble/src/pump.rs:54-167 | a radio whose calls succeed plays the packets of any honest conversation and then loses the lock: `run_session` returns the first final verdict or, if the lock fell silent without one, the timeout of the packet wait; it has sent exactly the announcement (when called for) and the stack's replies, in order, and ends with the finished phase and the teardown |
| HonestRadio.WireIsWritten | crates/mkey-session/src/session.rs:181-212 | over every run the bytes asked for on the wire are the announcement, once started with detection by app protocol, followed by what the session has written |
| Opening.Conversation | crates/mkey-core/src/stack.rs:45-89 | however an honest conversation goes, plaintext prelude included, both ends stay in step, the packets alone determine the stack, and the commands they bring to Justin are the lock's own |
| Opening.Enters | crates/mkey-session/src/session.rs:181-263 | how a fresh session comes to wait in the v0200 exchange: at once when it may not look, else on any protocol info that does not name another version |
| Opening.ModeIsReadable | crates/mkey-session/src/session.rs:267-290 | in office mode tag 0x10 holds the single byte 1 with permissions 0x14, and the lock reads it, secured or not; in either mode every other tag is the user's own |
| Stack.Transparency | crates/mkey-core/src/stack.rs:45-89 | over any sequence of valid encrypted and plaintext commands, version queries and key changes, the peer unwraps exactly Justin's direct answers (secure for encrypted packets, insecure for plaintext), and the secure flag is back afterwards |
| Stack.WholeRunTransparent | crates/mkey-core/src/stack.rs:45-89 | the same from power-up: plaintext commands and version queries first, then the handshake, then any moves |
| Stack.ExchangeTransparent | crates/mkey-core/src/stack.rs:45-89 | one exchange shows the peer Justin's direct answer and keeps the channel established |
| Stack.HandlePacket | crates/mkey-core/src/stack.rs:74-89 | the secure flag after any packet, errors included, is the one before it |
| Stack.PacketExactly | crates/mkey-core/src/stack.rs:45-89 | every packet by the two low bits of its first byte: the channel alone, Justin insecure with the byte echoed, or opened, Justin secure and sealed from the packet's own last block; every error as it passes through |
| Stack.JustinStack0100.HandlePacketBytes | crates/mkey-core/src/stack.rs:45-72 | new state and answer of both layers for every packet, error paths included |
| Stack.JustinStack0100.ProcessJustinBytes | crates/mkey-core/src/stack.rs:74-89 | sets the flag for one command and puts the old one back, errors included |
| Channel.EndpointSynchrony | crates/mkey-core/src/security/ssp.rs:353-485 | after any sequence of messages in either direction, key changes included, each receiver recovered exactly what was sent, keys and IVs agree, and the key is the last one set |
| Channel.HandshakeAgreement | crates/mkey-core/src/security/ssp.rs:256-351 | for all keys and random values the run succeeds with a lock that expects and returns proofs written out byte by byte, leaves the phone in session and both sides with equal IVs and the key made of the first and last four bytes of each value |
| Channel.HonestRun | crates/mkey-core/src/security/ssp.rs:195-485 | handshake then any moves: every message arrives intact, and the key in force is the derived one until the first key change |
| SspRuns.HistoryIsTheWire | crates/mkey-core/src/security/ssp.rs:195-485 | in every run the history kept beside the manager is, in order, exactly the well-sized encrypted bodies handed in, the encrypted bodies handed out, and the resets, as read off the calls and their answers |
| SspRuns.SingleStream | crates/mkey-core/src/security/ssp.rs:391-447 | in every run, any stretch of encrypted bodies under one key, handed in or out, is one CBC encryption of the concatenated padded plaintexts, from the IV that the traffic before it left |
| SspRuns.RunIsChained | crates/mkey-core/src/security/ssp.rs:442-447 | in every run the stored IV is the last block of the last well-sized encrypted body handed in or out since the last reset, or zero, and every frame is chained to its predecessor |
| SspRuns.RunKeepsState | crates/mkey-core/src/security/ssp.rs:291-351 | in every reachable state the session key exists exactly in session and RandomB while its answer is awaited; the missing-RandomB error never happens |
| SspRuns.SessionNeedsProof | crates/mkey-core/src/security/ssp.rs:291-351 | outside a session, a call begins one if and only if, in AuthStep1, it is an encrypted control packet with opcode 2 whose bytes 17 to 32 are the last byte of RandomB and then the other fifteen |
| SspRuns.SecondMessageExactly | crates/mkey-core/src/security/ssp.rs:291-351 | a step 2 of sufficient length in AuthStep1 opens the session if its proof is the rotated challenge, byte by byte; any other proof is answered with AuthenticationFailed and returns to Ready |
| SspRuns.PlainControlExactly | crates/mkey-core/src/security/ssp.rs:218-380 | what every plaintext control packet is answered with, opcode by opcode and state by state: the challenge, the version, or which error |
| SspRuns.EncryptedExactly | crates/mkey-core/src/security/ssp.rs:195-254 | what every encrypted packet is answered with by its first byte and opened contents: data in session only, and which error for each unacceptable opcode, state and length |
| SspRuns.PlainDataExactly | crates/mkey-core/src/security/ssp.rs:195-254 | data in the clear is passed on in session only, packets under two bytes are refused, and neither touches the channel |
| SspRuns.KeyChangeExactly | crates/mkey-core/src/security/ssp.rs:353-380 | in session, SET_KEY takes bytes 2 to 17 of the control payload as the new key, answers under it from the IV of the packet read, and refuses a shorter payload |
| SspRuns.DataCallsExactly | crates/mkey-core/src/security/ssp.rs:457-485 | sealing works in session only and answers flag byte 0x02 and the sealed data; unwrapping refuses empty and unencrypted packets and otherwise opens the rest |
| SspRuns.SealedBytes | crates/mkey-core/src/security/ssp.rs:391-405 | sealed data is the CBC encryption of data, checksum, 0x80 and zeros, between 3 and 18 bytes longer than the data |
| Ssp.FlagBits | crates/mkey-core/src/security/ssp.rs:195-215 | the control flag is the lowest bit of the first byte and the encryption flag the one above |
| SspRuns.RunOnlyKn | crates/mkey-core/src/security/ssp.rs:438-440 | in every run, until a session begins all traffic since the last reset is under kN; the traffic is that of the calls and their answers |
| SspRuns.UnframedExactly | crates/mkey-core/src/security/ssp.rs:407-436 | a decrypted plaintext is accepted if and only if it is the padding of some body whose checksum residue is zero, and then all but the last two bytes of that body are returned |
| SspRuns.OpenSeal | crates/mkey-core/src/security/ssp.rs:391-436 | whoever holds the key and the IV recovers exactly the sealed bytes, for every message length |
| Ssp.SecureProtocolManager.ProcessPacketBytes | crates/mkey-core/src/security/ssp.rs:195-215 | whole new state and answer for every packet, decryption failures included |
| Ssp.SecureProtocolManager.ProcessControlPacket | crates/mkey-core/src/security/ssp.rs:218-242 | dispatch on the opcode, with the error for each unacceptable one |
| Ssp.SecureProtocolManager.ProcessDataPacket | crates/mkey-core/src/security/ssp.rs:245-254 | data only in session |
| Ssp.SecureProtocolManager.HandleOpenSessionStep1 | crates/mkey-core/src/security/ssp.rs:256-289 | plaintext and Ready only; a fresh RandomB is drawn, sealed and awaited |
| Ssp.SecureProtocolManager.HandleOpenSessionStep2 | crates/mkey-core/src/security/ssp.rs:291-351 | the proof is checked, a wrong one returns to Ready, a right one is answered under kN before the session key is installed |
| Ssp.SecureProtocolManager.HandleSetKeyValue | crates/mkey-core/src/security/ssp.rs:353-380 | the new key is installed first, so the answer is already under it |
| Ssp.SecureProtocolManager.EncryptPayloadBytes | crates/mkey-core/src/security/ssp.rs:391-405 | checksum, padding, CBC under the current key, IV moved to the last block |
| Ssp.SecureProtocolManager.DecryptPayloadBytes | crates/mkey-core/src/security/ssp.rs:407-436 | every error path, and that the IV moves whenever the length is acceptable, even if the contents are not |
| Ssp.SecureProtocolManager.Reset | crates/mkey-core/src/security/ssp.rs:187-193 | everything but kN is cleared and the IV is zero |
| Ssp.SecureProtocolManager.WrapDataBytes | crates/mkey-core/src/security/ssp.rs:457-472 | sealing only in session |
| Ssp.SecureProtocolManager.UnwrapDataBytes | crates/mkey-core/src/security/ssp.rs:474-485 | opening only encrypted packets |
| PumpRuns.ClosedSystem | crates/mkey-ble/src/pump.rs:85-166 | from a fresh session, over every radio, no round hands the session an event it complains about, none ends with nothing to wait for, and a timer event names the timer set last |
| PumpRuns.EventsHandedIn | crates/mkey-ble/src/pump.rs:144-166 | over every radio, round i hands in: the start, then the reading as protocol info if the options look for the version, and from then on the receptions in order, none skipped, a packet as itself, a closed or broken link as a lost link, and an expired wait as the timer armed last |
| PumpRuns.ObserverSeesAll | crates/mkey-ble/src/pump.rs:94-142 | writes, the reading with its timeout, the subscription, pauses, phases and traces reach the radio and the observer exactly as the session asks for them, in order, and all of them unless a call failed |
| PumpRuns.FailuresEnd | crates/mkey-ble/src/pump.rs:96-123 | each write and subscription gets the radio's answer to that call; a refused one is the last effect and its error is returned, except that a refused announcement is remarked on and tolerated |
| PumpRuns.Teardown | crates/mkey-ble/src/pump.rs:54-74 | on every radio for which it returns, the link is dropped exactly once and last, phases were reported in strictly increasing order, and the finished phase came just before the teardown if and only if there is no round in which the answer to an accepted CLOSE meets a write that the radio refuses |
| PumpRuns.FarewellLostExactly | crates/mkey-session/src/session.rs:332-353 | the loop is left by a failed call with the session finished if and only if, in some round, the stack answers an accepted CLOSE and the radio refuses that write; the refused write of that answer is then the last effect, and its error is returned |
| PumpRuns.FarewellCanBeLost | crates/mkey-ble/src/pump.rs:51-69 | it happens: for every key, with detection off, a plaintext CLOSE first and a radio that refuses writes, the session finishes and the finished phase is never reported |
| PumpRuns.ReadyByClose | crates/mkey-core/src/command/justin.rs:187-195 | an answered packet takes a connected Justin to Ready if and only if it brings a CLOSE |
| PumpRuns.RadioSeesTheWire | crates/mkey-ble/src/pump.rs:94-142 | the radio is asked to write what the session asked to have written, in order, and all of it unless a call failed |
| PumpRuns.ReturnsTheResult | crates/mkey-ble/src/pump.rs:140 | unless a call failed, what is returned is the session's own result |
| PumpRuns.RoundKeeps | crates/mkey-ble/src/pump.rs:90-166 | one round from a loop in agreement with the session's history ends in such a loop again or is left properly |
| Pump.RunOnce | crates/mkey-ble/src/pump.rs:54-74 | effects, final session and exit of a whole attempt, over any script |
| Pump.PumpEvents | crates/mkey-ble/src/pump.rs:76-167 | the outer loop, which ends for every script because receptions and the one reading are used up |
| Pump.GoRound | crates/mkey-ble/src/pump.rs:90-166 | one turn of the loop on the real objects: poll, carry out, choose the next event; which event that is over whole attempts is `PumpRuns.EventsHandedIn` |
| Pump.CarryOut | crates/mkey-ble/src/pump.rs:94-142 | a batch carried out in order, left at the first failed write or subscription or at the result, with a failed announcement not fatal |
| Pump.BudgetFalls | crates/mkey-ble/src/pump.rs:85-166 | every round that goes on uses up a reception, or the one reading that precedes them |
| SessionRuns.RunShape | crates/mkey-session/src/session.rs:157-263 | over every event sequence: phases, announcement, read, subscription and end in strictly increasing order, each at most once; nothing written or timed before the subscription; Done once, last, directly after the finished phase, exactly when finished |
| SessionRuns.WatchPoll | crates/mkey-session/src/session.rs:157-508 | every poll takes an order monitor from the milestone of the state it starts in to that of the state it leaves |
| SessionHistory.RunExactly | crates/mkey-session/src/session.rs:157-508 | over every sequence of events the result and every requested action but traces are those of a function of the events alone, with all prefixes, lengths, durations and errors written out: announcement, reading, subscription, version dispatch, identification, signed nonce, replies, phases, each next wait, and every way an attempt ends |
| SessionHistory.V0100Ends | crates/mkey-session/src/session.rs:407-488 | in every unfinished v0100 run, a result packet of two or more bytes after the nonce ends it Ok with its second byte, a timer as the armed timeout, a lost link as Disconnected; short packets end it as errors and unawaited ones do not |
| SessionHistory.ExchangingReported | crates/mkey-session/src/session.rs:319-347 | in every run the exchanging phase has been reported if and only if the channel is in session, or in v0100 the first nonce was long enough |
| SessionHistory.RefusalsNoted | crates/mkey-session/src/session.rs:319-330 | a v0200 run notes a refused kN request once for each kN read delivered outside a secure session before CLOSE |
| Session.OutcomeGroups | crates/mkey-core/src/op_result.rs:20-48 | the low bits of the result byte: 2 is accepted, 3 rejected, 1 a failure; only 2 and 3 are final; no result is not accepted |
| SessionLedger.VerdictLatch | crates/mkey-session/src/session.rs:339-353 | a v0200 run that ends Ok carries exactly the first audit write Justin accepted whose low bits accept or reject, or none |
| SessionLedger.TimerEnds | crates/mkey-session/src/session.rs:355-369 | a timer ends an unfinished v0200 run as an error exactly when there is no such write, naming the armed duration |
| SessionLedger.StillConnected | crates/mkey-session/src/session.rs:349-353 | while a v0200 run is unfinished Justin is Connected and no CLOSE has been accepted |
| SessionLedger.TimerAgreement | crates/mkey-session/src/session.rs:512-522 | in every unfinished state the armed timer is the wait the history calls for: after the result, first packet, or packet; in v0100, by whether a nonce has come |
| SessionLedger.TimeoutsAreArmed | crates/mkey-session/src/session.rs:355-369 | the duration in any timeout error is the one most recently armed |
| SessionLedger.TraceIsFaithful | crates/mkey-session/src/types.rs:79-90 | in every run the trace shows exactly the packets written and the packets fed, in order |
| SessionLedger.WireIsStack | crates/mkey-session/src/session.rs:305-337 | what a v0200 run writes is exactly what the stack answers to the packets fed, and nothing else |
| SessionLedger.JustinOfStack | crates/mkey-core/src/stack.rs:45-89 | Justin inside the stack is Justin run on the commands the packets deliver |
| SessionLedger.V0100Handshake | crates/mkey-session/src/session.rs:384-459 | a v0100 run writes who the phone is and, if and only if the first packet that starts like a nonce is long enough, that nonce encrypted so that a holder of kN recovers it, and nothing else |
| SessionLedger.V0100Verdict | crates/mkey-session/src/session.rs:461-474 | a v0100 run that ends Ok reports the second byte of the result packet that ended it (that such a packet does end it: `SessionHistory.V0100Ends`) |
| SessionNoise.NoiseInvisible | crates/mkey-session/src/session.rs:407-425 | dropping every notification that is empty or starts with neither 0x03 nor 0x05 from a v0100 exchange changes neither the session nor any action but traces, timers included |
| SessionNoise.IgnoredInvisible | crates/mkey-session/src/session.rs:407-425 | the same for every packet that is not the one the current step awaits |
| SessionNoise.OnlyNoiseDiffers | crates/mkey-session/src/session.rs:407-425 | two v0100 exchanges that differ only in noise ask for the same things in the same order |
| Session.OpeningSession.PollEvent | crates/mkey-session/src/session.rs:157-177 | new state and actions for every event in every state |
| Session.OpeningSession.PollIdleState | crates/mkey-session/src/session.rs:181-212 | the start, with detection asked for, skipped or impossible |
| Session.OpeningSession.PollDetectingState | crates/mkey-session/src/session.rs:214-239 | the protocol info, well shaped, odd or missing |
| Session.OpeningSession.BeginFlow | crates/mkey-session/src/session.rs:242-263 | subscription and the flow of the detected version; only a known wrong version is fatal |
| Session.OpeningSession.BeginV0200State | crates/mkey-session/src/session.rs:267-303 | a fresh stack over a copy of the key, with the opening-mode tag in office mode |
| Session.OpeningSession.PollV0200State | crates/mkey-session/src/session.rs:305-380 | packet, timer, lost link and unexpected event in the v0200 flow |
| Session.OpeningSession.AnswerPacket | crates/mkey-session/src/session.rs:319-347 | trace, refusal note, write, phase and verdict for an answered packet |
| Session.OpeningSession.BeginV0100State | crates/mkey-session/src/session.rs:384-405 | identification, settling pause and first timer |
| Session.OpeningSession.PollV0100State | crates/mkey-session/src/session.rs:407-488 | nonce, result, noise, timer, lost link and unexpected event in the v0100 flow |
| JustinRuns.StoreRefinement | crates/mkey-core/src/command/justin.rs:149-301 | after every command sequence: tag 0, tag 1, kN, tag ids and permissions unchanged; every tag holds the last accepted write or its initial value; Connected exactly until an accepted CLOSE |
| JustinRuns.ReadsLastWrite | crates/mkey-core/src/command/justin.rs:197-240 | every successful READ_TAG returns the last accepted WRITE_TAG to that tag, or the initial value |
| JustinRuns.AuditLatch | crates/mkey-core/src/command/justin.rs:242-301 | the remembered audit result is the first byte of the last accepted write to tag 0x0B |
| JustinRuns.ClosedForGood | crates/mkey-core/src/command/justin.rs:165-195 | after an accepted CLOSE no command ever succeeds or changes anything |
| JustinRuns.RefusalsCounted | crates/mkey-core/src/command/justin.rs:197-240 | the count of refused kN reads is the number of READ_TAG commands for kN outside a secure session before an accepted CLOSE |
| Justin.ReadSucceedsExactly | crates/mkey-core/src/command/justin.rs:197-333 | READ_TAG succeeds if and only if the state, the tag and binary digits 2 and 4 of its permission byte allow it, returns that tag's bytes, and answers not-found if and only if a connected request names no readable tag, otherwise the generic error |
| Justin.ReadCountsRefusals | crates/mkey-core/src/command/justin.rs:197-240 | a read changes nothing but the count of refused kN reads, and that exactly for kN outside a secure session |
| Justin.WriteSucceedsExactly | crates/mkey-core/src/command/justin.rs:242-354 | WRITE_TAG succeeds if and only if the tag exists, is not a legacy one, and is the audit tag or digits 3 and 5 of its permission byte allow it; it answers not-found if and only if a connected request names no writable tag, otherwise the generic error |
| Justin.WriteChangesExactly | crates/mkey-core/src/command/justin.rs:242-301 | a successful WRITE_TAG sets that tag's data and, for tag 0x0B only, the remembered audit result to its first byte; any other answer changes nothing |
| Justin.OpenExactly | crates/mkey-core/src/command/justin.rs:165-185 | OPEN looks up the string whose base-62 value is the eight-byte id and its checksum, connects with the key found there, answers not-found when there is none, and the generic error when connected or too short |
| Justin.CommandsExactly | crates/mkey-core/src/command/justin.rs:149-195 | the opcode bytes of CLOSE, READ_TAG and WRITE_TAG, CLOSE only when connected, and the errors for no opcode and any other |
| Justin.KeyIdentifierInjective | crates/mkey-core/src/command/justin.rs:370-379 | different 8-byte key ids have different identifiers |
| Justin.ComputeKeyIdentifier | crates/mkey-core/src/command/justin.rs:370-379 | the identifier is the base-62 form of the id followed by its checksum |
| Justin.JustinProtocolManager.ProcessCommand | crates/mkey-core/src/command/justin.rs:149-163 | new state and answer for every byte string |
| Justin.JustinProtocolManager.HandleOpen | crates/mkey-core/src/command/justin.rs:165-185 | OPEN, with a status byte for a wrong state, a short payload or an unknown key |
| Justin.JustinProtocolManager.HandleClose | crates/mkey-core/src/command/justin.rs:187-195 | CLOSE, only when connected |
| Justin.JustinProtocolManager.HandleReadTag | crates/mkey-core/src/command/justin.rs:197-240 | READ_TAG with its refusals and the count of refused kN reads |
| Justin.JustinProtocolManager.HandleWriteTag | crates/mkey-core/src/command/justin.rs:242-301 | WRITE_TAG with its refusals and the audit latch |
| MobileKey.RoundTripExactly | crates/mkey-core/src/data/mobile_key.rs:87-202 | for well-formed keys and every iteration order of the tag map, parsing the byte form gives the key back, ids 0x0A and 0x0B re-created writable without security and empty, and id 0x10 dropped, if and only if every other tag number is at most 0x1E |
| MobileKey.RoundTrip | crates/mkey-core/src/data/mobile_key.rs:87-202 | the positive half, independent of the iteration order |
| MobileKey.MarkerCounterexample | crates/mkey-core/src/data/mobile_key.rs:265-293 | a concrete key with tag 0x1F that does not come back |
| MobileKey.ParsedKey | crates/mkey-core/src/data/mobile_key.rs:87-168 | whatever bytes are parsed, map ids and tag ids agree, fit five bits, and both audit tags exist |
| MobileKey.ParsedTagsExactly | crates/mkey-core/src/data/mobile_key.rs:87-168 | whatever bytes are parsed, a tag is the last one a container carries under that id; 0x0A and 0x0B carried by none have permissions 0x28 and no data; no other id exists |
| MobileKey.FlagDigits | crates/mkey-core/src/data/mobile_key.rs:9-42 | readable, writable, read and write without security are binary digits 2, 3, 4 and 5 of the permission byte |
| MobileKey.GetTagExactly | crates/mkey-core/src/data/mobile_key.rs:217-241 | ids 0 to 2 read the fixed fields with permission 0x04, any other id its tag, if there is one |
| MobileKey.SetTagDataExactly | crates/mkey-core/src/data/mobile_key.rs:243-258 | setting a tag's data keeps its permissions, gives a new tag 0x0C, and changes no other tag or field |
| MobileKey.ParsesExactly | crates/mkey-core/src/data/mobile_key.rs:87-168 | exactly which bytes parse: no kN element of a wrong length, and all three fixed tags present, the last of each kind winning; otherwise which error |
| MobileKey.ToBytes | crates/mkey-core/src/data/mobile_key.rs:171-202 | the serialization loop, for one iteration order |
| MobileKey.FromBytes | crates/mkey-core/src/data/mobile_key.rs:87-168 | the parsing loop with its missing-tag and key-length errors |
| Tlv.EncodeTlv | crates/mkey-core/src/data/mobile_key.rs:265-293 | tag octet, definite length in the shortest of four forms, value |
| Tlv.EncodingShape | crates/mkey-core/src/data/mobile_key.rs:265-293 | the octets written: private-class primitive tag with the low five bits of the number, one, two, three or four length octets by size, and the value |
| Tlv.ReadBack | crates/mkey-core/src/data/mobile_key.rs:265-293 | a BER-TLV reader recovers any sequence of encoded items with tag numbers at most 0x1E, in order |
| Tlv.LengthRoundTrip | crates/mkey-core/src/data/mobile_key.rs:270-289 | every length below 2^24 is read back from its encoding, whatever follows |
| Tlv.MarkerTagLosesValue | crates/mkey-core/src/data/mobile_key.rs:265-272 | no element read from an encoding with tag number 0x1F has the original value's length |
| Crc.OneRecurrence | crates/mkey-core/src/crypto/crc.rs:11-75 | the nibble form and the table form, folded over any input from any seed, are the bit-by-bit reflected 0x8408 register |
| Crc.Crc16SspNibbles | crates/mkey-core/src/crypto/crc.rs:11-23 | the nibble loop computes the bit-by-bit checksum without leaving 16 bits |
| Crc.Crc16HasherTable | crates/mkey-core/src/crypto/crc.rs:46-75 | the table loop computes the bit-by-bit checksum from its seed |
| Crc.BuildTable | crates/mkey-core/src/crypto/crc.rs:49-63 | entry i of the table is eight bit steps of i |
| Crc.NibbleProduct | crates/mkey-core/src/crypto/crc.rs:14-20 | multiplying a nibble by 4225 is four bit steps and stays at most 63375 |
| Crc.ChecksumsDifferByLength | crates/mkey-core/src/crypto/crc.rs:11-75 | the exclusive or of the two checksums depends only on the length of the data: it is the same for any two messages of one length |
| Crc.ChecksumResidue | crates/mkey-core/src/security/ssp.rs:427-433 | two trailing bytes are the checksum of the data if and only if the checksum over both is zero |
| Crc.WindowDetected | crates/mkey-core/src/crypto/crc.rs:11-75 | equal-length inputs that differ, and only inside two adjacent bytes, have different checksums of both kinds |
| Crc.EmptyChecksums | crates/mkey-core/src/crypto/crc.rs:11-75 | the checksums of the empty message, 0x6363 and 0x0000, which fix both seeds |
| Base62.EncodeBase62 | crates/mkey-core/src/data/base62.rs:13-45 | the in-place division loop ends and returns the base-62 numeral, the all-zero quirk included |
| Base62.DivideBy62 | crates/mkey-core/src/data/base62.rs:28-34 | one pass divides the whole buffer by 62 in place and returns the remainder, leaving the skipped zeros alone |
| Base62.DivideNext | crates/mkey-core/src/data/base62.rs:30-34 | each step of the pass: no accumulator exceeds 15871, the quotient fits a byte, and the prefix divided so far stays 62 times the quotients plus the remainder |
| Base62.DecodeEncode | crates/mkey-core/src/data/base62.rs:13-45 | the output decodes to the input's big-endian value, with no leading zero digit for non-zero input; n zero bytes give n + 1 zero digits, and nothing gives nothing |
| Base62.EncodeInjective | crates/mkey-core/src/data/base62.rs:13-45 | equally long inputs with the same output are equal |
| Cbc.EncryptAesCbc | crates/mkey-core/src/crypto/aes.rs:21-30 | block-by-block encryption in place is CBC |
| Cbc.DecryptAesCbc | crates/mkey-core/src/crypto/aes.rs:46-59 | block-by-block decryption in place is CBC decryption, failing exactly on partial blocks |
| Cbc.EncryptBlocks | crates/mkey-core/src/crypto/aes.rs:21-30 | ciphertext block k is the cipher applied to plaintext block k exclusive-or the ciphertext block before it, the IV for k = 0 (section 6.2 of NIST SP 800-38A) |
| Cbc.DecryptBlocks | crates/mkey-core/src/crypto/aes.rs:46-59 | plaintext block k is the inverse cipher of ciphertext block k exclusive-or the ciphertext block before it |
| Cbc.DecryptEncrypt | crates/mkey-core/src/crypto/aes.rs:21-59 | decryption undoes encryption for every length, key and IV |
| Cbc.EncryptDecrypt | crates/mkey-core/src/crypto/aes.rs:21-59 | and encryption undoes decryption |
| Cbc.EncryptConcat | crates/mkey-core/src/crypto/aes.rs:21-30 | two messages with a chained IV are one encryption of their concatenation |
| Cbc.UnpadExactly | crates/mkey-core/src/crypto/padding.rs:18-29 | padding is removed if and only if the data is a body, a marker and zeros, and the body is unique |
| Cbc.UnpadPad | crates/mkey-core/src/crypto/padding.rs:5-29 | removing padding undoes applying it |
| Cbc.PadShape | crates/mkey-core/src/crypto/padding.rs:5-12 | padding keeps the data, appends 0x80 and zeros, one to sixteen bytes in all, to a whole number of blocks |
| Cbc.ApplyPadding | crates/mkey-core/src/crypto/padding.rs:5-12 | marker and zeros up to the next block boundary, a whole block when aligned |
| Cbc.RemovePadding | crates/mkey-core/src/crypto/padding.rs:18-29 | the backwards loop and its error |
| Cbc.RotateRightInjective | crates/mkey-core/src/crypto/rotation.rs:2-11 | the proof determines the challenge |
| Cbc.RotateRightPositions | crates/mkey-core/src/crypto/rotation.rs:2-11 | the last byte comes first and every other byte moves one place back |
| Cbc.DeriveSessionKeyExactly | crates/mkey-core/src/crypto/session.rs:12-19 | the session key is fixed by exactly eight bytes of each random value |
| Cbc.KeyWords | crates/mkey-core/src/crypto/session.rs:12-19 | the four words of the session key: first words of both values, then last words of both |
| Cbc.FillSessionKey | crates/mkey-core/src/crypto/session.rs:12-19 | a zeroed key filled slice by slice is the derived key |

## Left out

- AES itself, key schedules and hardware backends: the block cipher is any keyed permutation.
- The operating system's random source: the values drawn are a parameter.
- The library TLV parser: `Tlv.Read` is a reference reader after sections 8.1.2 and 8.1.3 of ITU-T X.690, with
  constructed contents left opaque.
- MobileKey.ToBytes: sizes of 2^24 bytes and more are excluded from the round trip; the encoder's length forms stop
  there.
- MobileKey.FromBytes: keys are values, so `set_tag_data` returns an updated key instead of changing one; nothing in
  the modelled code shares a key between owners.
- Justin.JustinProtocolManager.HandleReadTag: the count of refused kN reads is unbounded, without 32-bit wrap-around.
- Crc.Crc16HasherTable: the table is built again for every call; the source builds it once, lazily, and shares it.
- Session.OpeningSession.PollV0200State: wording of traces and errors; each message is a constructor instead.
- SessionHistory.RunExactly: traces; packets traced are `TraceIsFaithful`, refusals `RefusalsNoted`, and the other
  informational ones are fixed by the methods' contracts alone.
- Pump.CarryOut: real time, the executor and dropped futures; a timer expires when the script says so, and no
  wall-clock bound is claimed.
- Pump.PumpEvents: an infinite sequence of receptions; scripts are finite and of any length.
- Bluetooth adapters, scanning, advertisement matching, lock records, hex conversion, the WebAssembly and SDK glue.
- Request builders and accessors: constants and field reads without branches or state changes.
