# tailfeather in Dafny

A verification model of the hard core of *tailfeather*, an allocation-free Tailscale node.
`dafny verify dfyconfig.toml` checks everything. Each component has a specification as
pure functions on values, classes and methods with the source's own loops and in-place
updates proved equal to those functions, and theorems about every input or every run.

| component | modules |
|---|---|
| WireGuard device | `Symbolic`, `Noise`, `Replay`, `Timers`, `Transport`, `Device`, `DeviceObject`, `DeviceKeys`, `DeviceRuns`, `DeviceLiveness`, `DeviceScenarios`, `DeviceSessions`, `DevicePolls` |
| HPACK | `HpackInteger`, `HpackTable`, `HpackCodec`, `HpackExact` |
| HTTP/2 receive flow control | `FlowControl` |
| JSON writer and scanner | `Json`, `JsonSpelling`, `JsonWriter`, `Scanner`, `ScannerBalance`, `JsonReading`, `JsonRoundTrip`, `Utf8` |
| Netmap | `Netmap`, `NetmapNames`, `NetmapTree`, `NetmapReading`, `NetmapRecords`, `NetmapFaults`, `NetmapRelays`, `NetmapDeltas`, `NetmapFold`, `NetmapStream`, `NetmapObject`, `NetmapDriver`, `Frames` |
| NAT | `Checksum`, `NatRewrite`, `NatClamp`, `NatExamples`, `NatTable` |

Modelling choices:

- Cryptography is symbolic: Diffie-Hellman is an unordered pair of secrets, hashes and key
  derivation are injective constructors, an AEAD opens only the matching seal. There are no axioms.
- Time, random draws, buffer sizes, the text forms of keys and addresses, and the Huffman
  decoder are parameters. Runs of the device assume that ephemeral draws are fresh.
- A 64-bit word of the replay bitmap is a sequence of 64 booleans.
- `usize` is 64 bits wide; casts, shifts and wrap-around of the source are written out.
- A scanner callback never fails, as the netmap parser's never does. The parser object
  therefore collects the tokens of a chunk and then handles them in order.

Where the code and its documentation part, the model follows the code:

- `DynamicTable::insert` indexes a field whose name or value is over 128 bytes without
  remembering it. The comment says a later lookup fails; over a non-empty table it can instead
  name a different field (`HpackTable.InsertInStepIff`, `HpackTable.LongFieldMisleads`).
- `decode_integer` accepts a tenth group whose upper bits are shifted out
  (`HpackInteger.DecodedIntegerIff`, `HpackInteger.IntegerWraps`).
- `allocate_index` avoids sessions but not handshakes in flight
  (`DeviceRuns.CompletionKeepsUniqueIff`, `DeviceScenarios.PendingIndexCollides`).
- The writer prints any `u64`, the scanner reads 2^63 and above as 0 (`JsonRoundTrip.RoundTripIff`).
- `clamp_mss` adjusts as if the MSS value were 16-bit aligned, and `rewrite_ip_checksum` sums
  twenty bytes whatever the header length (`NatClamp.ClampKeepsTcpChecksumIff`,
  `NatRewrite.RewriteIpChecksumIff`, with packets in `NatExamples`).
- The removal of records under the own key collects their ids into a vector of four, which
  panics on a fifth. The model ends such a response in the error `Panicked`, which stands for
  the end of the program (`NetmapDeltas.OwnKeyTakenIff`).
- The decoder takes dynamic table size updates of any size anywhere in a block, which
  sections 4.2 and 6.3 of RFC 7541 forbid (`HpackCodec.StandardLife`).
- A comment in `open_data` takes a packet under the previous session to mean that the peer never
  saw the newer handshake. A packet that was merely late also discards the newer session, confirmed
  or not (`DeviceSessions.LatePacketUndoesRekey`).
- This node's addresses are added to on every response and never cleared
  (`NetmapFold.AddressesAccumulate`, `NetmapFold.StaleAddressStays`).
- `Peers` upserts and clears nothing, and an empty `Endpoints` list in a patch counts as not
  mentioned.

## Model

| member | source | states |
|---|---|---|
| `Symbolic.DhAgrees` | crates/wg-core/src/crypto.rs:105-111 | Both ends of an exchange compute the same secret, and two exchanges agree only if they are between the same pair of secrets |
| `Symbolic.KdfInjective` | crates/wg-core/src/crypto.rs:69-98 | A derived key determines the chaining key, the input and the position it came from |
| `Noise.InitiationReaches` | crates/wg-core/src/noise.rs:99-160 | An initiation made for one device is accepted by another exactly when it is the one addressed; it then reveals identity, index, ephemeral and timestamp and both sides hold the same chaining key and hash |
| `Noise.AcceptedInitiationIsGenuine` | crates/wg-core/src/noise.rs:266-333 | Converse: whatever is accepted is, field for field, the initiation its revealed sender makes |
| `Noise.ResponseAcceptedIff` | crates/wg-core/src/noise.rs:358-406 | The initiator accepts a response exactly when both sides walked the same transcript and hold the same pre-shared key, and then the transport keys are mirrored |
| `Noise.AcceptedResponseIsGenuine` | crates/wg-core/src/noise.rs:178-238 | Converse: a response that passes mac1 and is accepted is the one made from the matching transcript |
| `Noise.HandshakeAgrees` | crates/wg-core/src/noise.rs:99-406 | For all identities, ephemerals, pre-shared keys, indices and timestamps the four functions run in order recover who called and when, and the initiator accepts exactly when the pre-shared keys agree, ending with the mirror of the responder's keys |
| `Noise.ResponderKeyNamesEphemeral` | crates/wg-core/src/noise.rs:178-238 | The responder's sending key determines the ephemeral it drew, so a fresh draw gives a fresh key |
| `Noise.InitiatorKeyNamesEphemeral` | crates/wg-core/src/noise.rs:358-406 | The same for the initiator, whose ephemeral was drawn when the handshake was started |
| `Noise.KeysFollowThePaper` | crates/wg-core/src/noise.rs:99-406 | Both transport keys are the two outputs of the chain of section 5.4 of the WireGuard paper over its seven inputs, in order |
| `Noise.KeyNamesTheHandshake` | crates/wg-core/src/noise.rs:99-406 | A transport key determines all seven inputs, so handshakes that differ in any of them never share a key |
| `Noise.NewerIsLater` | crates/wg-core/src/noise.rs:413-415 | Comparing timestamps byte by byte compares the times they denote |
| `Replay.DeliveredOnce` | crates/wg-core/src/replay.rs:36-69 | Whatever the order and repetition of arrivals, each counter is let through at most once |
| `Replay.IncreasingAllDelivered` | crates/wg-core/src/replay.rs:36-69 | A strictly increasing run below the limit is let through whole |
| `Replay.ReplayWindow.Accept` | crates/wg-core/src/replay.rs:36-69 | The ring bitmap decides as the set of all accepted counters does (below the limit, unaccepted, and above or within 1023 of the highest), and records exactly that |
| `Replay.ReplayWindow.ClearRange` | crates/wg-core/src/replay.rs:81-84 | Clearing forgets the bits of a range of counters and no other counter in the window |
| `Replay.ReplayWindow.Advance` | crates/wg-core/src/replay.rs:47-62 | Moving the high-water mark leaves a window that still stands for the history |
| `Replay.ReplayWindow.MarkOld` | crates/wg-core/src/replay.rs:64-68 | Filling in an older counter adds that counter and no other |
| `Timers.HandshakeBudget.TakeOne` | crates/wg-core/src/timers.rs:96-119 | The bucket's fields change as the specification of one request says |
| `Timers.RemainderIsKept` | crates/wg-core/src/timers.rs:96-119 | Whatever the polling pattern the refill mark stays a whole number of intervals after the first request and less than one behind the clock |
| `Timers.RefusedTakeIsInvisible` | crates/wg-core/src/timers.rs:96-119 | A refused request has no effect on any later outcome |
| `Timers.Accounting` | crates/wg-core/src/timers.rs:87-119 | Tokens in hand plus tokens granted never exceed the start plus what time earned |
| `Timers.RateLimit` | crates/wg-core/src/timers.rs:87-119 | Over any stretch of d ms from any reachable bucket, grants number at most 8 + ceil(d/50) |
| `Timers.SustainedRateIsServed` | crates/wg-core/src/timers.rs:87-119 | A request made one interval after another is never refused |
| `Timers.InstantServesTokens` | crates/wg-core/src/timers.rs:96-119 | Asked again and again at one instant, the bucket grants exactly the tokens it holds and then refuses |
| `Timers.IdleRestoresBurst` | crates/wg-core/src/timers.rs:87-119 | 400 ms after its last refill mark, and when new, the bucket grants a burst of exactly eight |
| `Transport.SealThenOpen` | crates/wg-core/src/transport.rs:74-128 | What one end seals the other opens once: the first copy gives the padded packet, later copies are replays, keys stay |
| `Transport.SessionObject.SealPacket` | crates/wg-core/src/transport.rs:74-98 | Refuses a short buffer or a spent counter, in that order and without effect; otherwise emits the padded packet under the next counter and moves past it |
| `Transport.SessionObject.OpenPacket` | crates/wg-core/src/transport.rs:106-128 | A failed tag changes no field; only a verified packet reaches the window |
| `Transport.PacketLenIff` | crates/wg-core/src/ip.rs:14-30 | Over header bytes: the length of a packet is the IPv4 total length, or forty more than the IPv6 payload length, whenever the buffer holds that much |
| `Transport.PaddingUndone` | crates/wg-core/src/ip.rs:14-30 | The padding is undone exactly when the length field of the packet's own header, of either version, is its length |
| `DeviceObject.WireGuardDevice.AddPeerCall` | crates/wg-core/src/lib.rs:253-274 | The table grows by the new peer or refuses when full, as the specification says |
| `DeviceObject.WireGuardDevice.SetInitiatingCall` | crates/wg-core/src/lib.rs:294-301 | Only that peer's flag and, when switched off, its handshake in flight change |
| `DeviceObject.WireGuardDevice.AllocateIndex` | crates/wg-core/src/lib.rs:662-677 | The first candidate that is in no current or previous session |
| `DeviceObject.WireGuardDevice.StartHandshakeCall` | crates/wg-core/src/lib.rs:385-423 | Expiry, budget, timestamp and draw checks in order, and the whole new device state |
| `DeviceObject.WireGuardDevice.PollHandshakesCall` | crates/wg-core/src/lib.rs:431-458 | The loop over peers sends for the first one that wants a handshake and leaves the rest as the specification says |
| `DeviceObject.WireGuardDevice.CompleteHandshakeCall` | crates/wg-core/src/lib.rs:462-499 | The response is matched by index, opened, and installs its session, demoting the current one |
| `DeviceObject.WireGuardDevice.RespondToInitiationCall` | crates/wg-core/src/lib.rs:501-559 | The initiation is checked against peer, timestamp and budget in the source's order, and answered with a new session |
| `DeviceObject.WireGuardDevice.OpenDataCall` | crates/wg-core/src/lib.rs:561-603 | The search over current and previous sessions of all peers, the promotion it causes and the keepalive it arms |
| `DeviceObject.WireGuardDevice.SealFor` | crates/wg-core/src/lib.rs:612-628 | Sealing under a peer's current session moves its counter and disarms its keepalive |
| `DeviceObject.WireGuardDevice.HandleUdpCall` | crates/wg-core/src/lib.rs:325-378 | Dispatch on the kind of datagram, with the confirming keepalive after a completed handshake |
| `DeviceObject.WireGuardDevice.EncapsulateCall` | crates/wg-core/src/lib.rs:606-628 | Refusals in order, or one more data message |
| `DeviceObject.WireGuardDevice.PollTimersCall` | crates/wg-core/src/lib.rs:632-656 | The loop over peers sends at most one keepalive and leaves the rest as the specification says |
| `DeviceKeys.StepKeeps` | crates/wg-core/src/lib.rs:325-656 | Every call keeps the invariant that ties logs, counters, windows and drawn ephemerals together |
| `DeviceKeys.RunKeeps` | crates/wg-core/src/lib.rs:325-656 | So does every run |
| `DeviceKeys.NonceNeverReused` | crates/wg-core/src/lib.rs:325-656 | In every run with fresh ephemerals no two emitted data messages share key and counter, across rekey, demotion and promotion |
| `DeviceKeys.EmissionsJustified` | crates/wg-core/src/lib.rs:606-656 | Every data message leaves under the peer's current session, under 180 s old, below the message limit, and by then a packet has opened under that session or a response has verified for it, in an earlier call or in the one that sends |
| `DeviceKeys.DeliveredAtMostOnce` | crates/wg-core/src/lib.rs:561-603 | In every run each (session, counter) is delivered at most once |
| `DeviceKeys.OpenedIsEvidence` | crates/wg-core/src/lib.rs:561-603 | A packet that opens shows its sender holds the mirror of our sending key |
| `DeviceRuns.IndicesStayUnique` | crates/wg-core/src/lib.rs:662-677 | If draws avoid sessions and handshakes in flight, all session indices stay pairwise distinct in every run |
| `DeviceRuns.ResponderIndicesUnique` | crates/wg-core/src/lib.rs:501-559 | For a device that never starts a handshake what allocate_index checks is enough |
| `DeviceRuns.CompletionKeepsUniqueIff` | crates/wg-core/src/lib.rs:462-499 | Completing a handshake keeps session indices distinct if and only if no surviving session already uses the index drawn at its start |
| `DeviceRuns.OtherCallsKeepUnique` | crates/wg-core/src/lib.rs:325-656 | Every call other than a completion keeps session indices distinct, given only what allocate_index checks |
| `DeviceRuns.UniqueThroughoutIff` | crates/wg-core/src/lib.rs:325-677 | For whole runs whose answers draw untaken indices: session indices are distinct at every moment if and only if every handshake completed under an index no surviving session used |
| `DeviceRuns.DeliveredPeerOwnsIndex` | crates/wg-core/src/lib.rs:561-603 | With distinct indices a delivered packet belongs to exactly one session of one peer |
| `DeviceScenarios.PendingIndexCollides` | crates/wg-core/src/lib.rs:662-677 | Counterexample for every device, pair of peers and index: allocate_index does not look at handshakes in flight, and two sessions end up sharing an index |
| `DeviceScenarios.LinkCarries` | crates/wg-core/src/lib.rs:561-628 | A packet sealed at one end of a link is delivered byte for byte at the other, which may then answer |
| `DeviceScenarios.TunnelComesUp` | crates/wg-core/src/lib.rs:325-628 | From two fresh devices to packets in both directions, for all identities, keys and draws; no data leaves the responder before it is confirmed |
| `DeviceSessions.LiveIsUsable` | crates/wg-core/src/transport.rs:66-69 | A session is usable exactly when it is under 180 000 ms old and its counter is below 2^64 - 2^13 - 1 |
| `DeviceSessions.RetiredIsExpired` | crates/wg-core/src/lib.rs:185-192 | Expiry drops exactly the sessions that are too old or spent, and nothing else of the peer |
| `DeviceSessions.DataIsTaken` | crates/wg-core/src/lib.rs:561-603 | For every device and every datagram sealed under the key of the live current or previous session it names, with an unseen counter: the whole outcome, namely the bytes its header declares delivered, that session confirmed and current, no previous one if it was promoted, the keepalive armed by delivered data alone, every other peer as it was but for expiry |
| `DeviceSessions.PreviousSessionCarriesOn` | crates/wg-core/src/lib.rs:561-628 | After a packet under the previous session the next packet to that peer leaves under it: its peer index, its sending key, its counter |
| `DeviceSessions.UnknownDataRefused` | crates/wg-core/src/lib.rs:561-603 | A datagram whose index names no live session is refused and changes nothing but expiry |
| `DeviceSessions.ForgedDataRefused` | crates/wg-core/src/lib.rs:561-603 | A datagram that no sender with the key of the session it names could have sealed, or a repeated one, is refused and changes nothing but expiry |
| `DeviceSessions.CallIsAnsweredIff` | crates/wg-core/src/lib.rs:501-559 | A configured peer's initiation is answered if and only if a token is left, its timestamp is later than the last and the buffer holds a response; then the new session, unconfirmed, is current and the former current one previous, and otherwise no peer changes |
| `DeviceSessions.AnswerCompletesIff` | crates/wg-core/src/lib.rs:462-499 | The response made for a call in flight completes it if and only if a token is left and the pre-shared keys agree; then its session is current and confirmed, the former current one previous, and the confirming keepalive leaves under counter zero |
| `DeviceSessions.OldSessionOutlivesRekey` | crates/wg-core/src/lib.rs:462-499 | A packet sealed before a rekey that the peer asked for opens after it, and makes the old session current |
| `DeviceSessions.LatePacketUndoesRekey` | crates/wg-core/src/lib.rs:582-590 | Counterexample family: once a packet has opened under the previous session, packets under the newer one are refused as unknown, whoever asked for the rekey |
| `DeviceSessions.SwitchedOffIsSilent` | crates/wg-core/src/lib.rs:294-301 | A peer switched off no longer wants a handshake, the answer to its call in flight is refused, and no other peer changes |
| `DevicePolls.OwedIsDue` | crates/wg-core/src/timers.rs:130-162 | A keepalive is owed from 10 000 ms after the packet that armed it, under a live confirmed session |
| `DevicePolls.PollServesFirst` | crates/wg-core/src/lib.rs:632-656 | A poll seals one keepalive for the first peer owed one, which is then owed none, and sends nothing if there is none |
| `DevicePolls.EveryoneIsKeptAlive` | crates/wg-core/src/lib.rs:632-656 | Polling until nothing comes sends exactly one keepalive to each peer owed one and none to any other |
| `DevicePolls.CallsIsWants` | crates/wg-core/src/timers.rs:130-162 | A peer that is switched on wants a call exactly when it has no live session or one of 120 000 ms, and was not called in the last 5 000 ms |
| `DevicePolls.PollCallsFirst` | crates/wg-core/src/lib.rs:431-458 | A poll with a token calls the first peer that wants it, which then wants none; without a token, or with nobody to call, it sends nothing |
| `DevicePolls.EveryoneIsCalled` | crates/wg-core/src/lib.rs:431-458 | Polling until nothing comes, with tokens enough, sends exactly one initiation to each peer that wants one and none to any other |
| `DeviceLiveness.TimestampsStrictlyIncrease` | crates/wg-core/src/lib.rs:501-559 | Per peer, the timestamps of answered initiations strictly increase |
| `DeviceLiveness.KeepalivesArePaidFor` | crates/wg-core/src/lib.rs:632-656 | Over any run keepalives from poll_timers to a peer never outnumber the data packets delivered from it |
| `DeviceLiveness.TimerPollsEnd` | crates/wg-core/src/lib.rs:632-656 | Polling poll_timers at one instant sends at most one keepalive per peer |
| `DeviceLiveness.HandshakePollsEnd` | crates/wg-core/src/lib.rs:431-458 | Polling poll_handshakes at one instant sends at most one initiation per peer |
| `DeviceLiveness.HandshakeWorkIsBounded` | crates/wg-core/src/lib.rs:385-559 | Initiations sent and answered and handshakes completed over any stretch are bounded by the token bucket |
| `HpackTable.DynamicTable.EvictToFit` | crates/micro-h2/src/hpack/dynamic.rs:140-144 | The eviction loop leaves the newest entries that fit |
| `HpackTable.DynamicTable.SetCapacity` | crates/micro-h2/src/hpack/dynamic.rs:96-99 | The new capacity and the newest entries that fit it |
| `HpackTable.DynamicTable.InsertField` | crates/micro-h2/src/hpack/dynamic.rs:114-138 | Insertion with the size, slot and string limits of the code |
| `HpackTable.ResizeInStep` | crates/micro-h2/src/hpack/dynamic.rs:96-99 | A resize keeps the code's table a newest-first prefix of the standard's |
| `HpackTable.InsertInStepIff` | crates/micro-h2/src/hpack/dynamic.rs:114-138 | Exactly when an insertion keeps that prefix relation: a field short enough to be remembered, or too large for the table, or whose insertion empties it |
| `HpackTable.HistoryInStep` | crates/micro-h2/src/hpack/dynamic.rs:96-159 | Any history of resizes and insertions of short fields keeps it |
| `HpackTable.LookupInStep` | crates/micro-h2/src/hpack/dynamic.rs:154-159 | In step, an index the code resolves is the field the standard means |
| `HpackTable.InsertMirrorsIff` | crates/micro-h2/src/hpack/dynamic.rs:114-138 | An insertion leaves the code's table the newest sixty-four of the standard's if and only if the field is short enough to be remembered or too large for the table |
| `HpackTable.ResizeMirrors` | crates/micro-h2/src/hpack/dynamic.rs:96-99 | So does every resize |
| `HpackTable.HistoryMirrors` | crates/micro-h2/src/hpack/dynamic.rs:96-159 | Over any history of resizes and insertions of short fields the table is exactly the newest sixty-four of the standard's |
| `HpackTable.LongFieldMisleads` | crates/micro-h2/src/hpack/dynamic.rs:114-124 | Counterexample family: after a long field the newest index names another field than the standard's |
| `HpackTable.FindIn` | crates/micro-h2/src/hpack/static_table.rs:85-90 | The first exact match in the static table, or that there is none |
| `HpackTable.FindNameIn` | crates/micro-h2/src/hpack/static_table.rs:93-98 | The first match by name, or that there is none |
| `HpackInteger.DecodeInteger` | crates/micro-h2/src/hpack/decode.rs:124-151 | The loop computes the specified value and rest, or the specified error |
| `HpackInteger.GroupsMeaning` | crates/micro-h2/src/hpack/decode.rs:134-150 | The continuation loop stops at the standard's byte and its value is the standard's exactly when that fits 64 bits |
| `HpackInteger.DecodedIntegerIff` | crates/micro-h2/src/hpack/decode.rs:124-151 | A decoded integer is the standard's if and only if that one fits 64 bits |
| `HpackInteger.IntegerDecodesIff` | crates/micro-h2/src/hpack/decode.rs:124-151 | An integer of at most 64 bits is decoded if and only if it takes at most ten continuation bytes, and then to its value |
| `HpackInteger.IntegerWraps` | crates/micro-h2/src/hpack/decode.rs:134-150 | Counterexample: ten continuation bytes can denote 2^64 more than is returned |
| `HpackInteger.IntegerRoundTrip` | crates/micro-h2/src/hpack/encode.rs:42-66 | Every u64 survives encoding and decoding at every prefix width 1 to 8, whatever follows |
| `HpackInteger.EncodeInteger` | crates/micro-h2/src/hpack/encode.rs:42-66 | Writes exactly that encoding at the offset, or fails exactly when it does not fit |
| `HpackCodec.Decoder.DecodeTurn` | crates/micro-h2/src/hpack/decode.rs:66-114 | One turn of the loop is the specified turn on the same table |
| `HpackCodec.Decoder.Decode` | crates/micro-h2/src/hpack/decode.rs:60-117 | The loop reports the specified headers, table and fault |
| `HpackCodec.TurnAgrees` | crates/micro-h2/src/hpack/decode.rs:66-114 | One representation read by the code is read as section 6 of RFC 7541 reads it |
| `HpackCodec.BlockAgrees` | crates/micro-h2/src/hpack/decode.rs:60-117 | Per block, without the bounds: the standard's headers, or a fault after a prefix of them |
| `HpackCodec.LifeAgrees` | crates/micro-h2/src/hpack/decode.rs:60-117 | The same over a decoder's whole life, from any capacity |
| `HpackExact.StringReadIff` | crates/micro-h2/src/hpack/decode.rs:154-174 | A string is read if and only if its length is in bounds and it is Huffman-decodable where coded, UTF-8 and at most 512 bytes, and then as the standard reads it |
| `HpackExact.LookupMirrors` | crates/micro-h2/src/hpack/dynamic.rs:154-159 | An index resolves exactly when the standard resolves it and it is among the sixty-four newest, and to the same field |
| `HpackExact.TurnReads` | crates/micro-h2/src/hpack/decode.rs:66-114 | A representation is read if and only if it is in bounds, and then as section 6 reads it |
| `HpackExact.BlockReads` | crates/micro-h2/src/hpack/decode.rs:60-117 | A block: the standard's headers up to the first representation out of bounds, a fault exactly when there is one, and the table still the newest sixty-four |
| `HpackExact.LifeReads` | crates/micro-h2/src/hpack/decode.rs:60-117 | A life: no fault exactly when every representation is in bounds, and then the standard's headers |
| `HpackExact.StandardLifeReads` | crates/micro-h2/src/hpack/decode.rs:60-117 | The same from an empty table of any capacity with the static table of Appendix A |
| `HpackExact.StrictLifeReads` | crates/micro-h2/src/hpack/decode.rs:60-117 | And against the standard with its rules on size updates |
| `HpackCodec.StrictBlockIsRfc` | crates/micro-h2/src/hpack/decode.rs:76-84 | The rules of sections 4.2 and 6.3 on size updates change nothing in a block that keeps them, and cut one that breaks them short |
| `HpackCodec.StandardLife` | crates/micro-h2/src/hpack/decode.rs:60-117 | With the static table of Appendix A and those rules: of a life the standard accepts, its headers or a fault after a prefix of them; of one it refuses, never a different header at any place |
| `HpackCodec.StringRoundTrip` | crates/micro-h2/src/hpack/encode.rs:70-78 | A string written is the string read |
| `HpackCodec.FieldRoundTrip` | crates/micro-h2/src/hpack/encode.rs:22-39 | One header written, indexed or literal, is decoded as that header and leaves the table alone |
| `HpackCodec.HeadersRoundTrip` | crates/micro-h2/src/hpack/encode.rs:22-78 | Any list of headers of up to 512-byte strings decodes to itself, in order, and leaves the dynamic table unchanged |
| `HpackCodec.StandardRoundTrip` | crates/micro-h2/src/hpack/encode.rs:22-78 | The same with the static table of Appendix A |
| `HpackCodec.KnownHeaderIsOneByte` | crates/micro-h2/src/hpack/encode.rs:22-26 | A header of the static table goes out as its index alone, in one byte |
| `HpackCodec.NamedHeaderIsLiteral` | crates/micro-h2/src/hpack/encode.rs:28-38 | Any other with a known name is a literal without indexing under the first entry of that name |
| `HpackCodec.NewHeaderIsLiteral` | crates/micro-h2/src/hpack/encode.rs:28-38 | One with a new name spells it out |
| `HpackCodec.StringIsPlain` | crates/micro-h2/src/hpack/encode.rs:68-78 | No string is Huffman-coded |
| `HpackCodec.EncodeHeader` | crates/micro-h2/src/hpack/encode.rs:22-39 | Appends exactly the encoding, or fails exactly when it does not fit |
| `FlowControl.Connection.CreditFor` | crates/micro-h2/src/conn.rs:333-365 | The updates owed and the new counts, or failure exactly when they do not fit the reply buffer, and then the counts with the update still owed |
| `FlowControl.Connection.CloseStream` | crates/micro-h2/src/conn.rs:390-395 | The stream's entry goes, the others keep their order |
| `FlowControl.CloseRemoves` | crates/micro-h2/src/conn.rs:390-395 | Closing removes that stream's entry alone, the others keep their counts and order, and the table is one shorter if the stream was known |
| `FlowControl.Connection.OpenStream` | crates/micro-h2/src/conn.rs:147-164 | A request takes the next odd id and a fifth entry is refused |
| `FlowControl.Connection.ReceiveFrame` | crates/micro-h2/src/conn.rs:280-313 | A DATA frame is counted, credited, and closes its stream if it says so |
| `FlowControl.TableIsOpenStreams` | crates/micro-h2/src/conn.rs:147-164 | Over every run the table holds exactly the streams requested and not yet ended, so a request is possible whenever fewer than four are |
| `FlowControl.ReceiveBooks` | crates/micro-h2/src/conn.rs:280-297 | On delivery a stream's bytes move from the wire to held back or returned, none lost |
| `FlowControl.AlwaysBalanced` | crates/micro-h2/src/conn.rs:117-141 | In every run with a compliant peer, window plus in flight plus held back plus returning is the advertised window, for the connection and every open stream |
| `FlowControl.NeverStalls` | crates/micro-h2/src/conn.rs:333-365 | With nothing in transit the peer may always send more than 2^19 bytes, so no transfer stalls |
| `FlowControl.WindowsBounded` | crates/micro-h2/src/conn.rs:333-365 | No window exceeds what was advertised |
| `FlowControl.ReceivedIsCreditedPlusHeld` | crates/micro-h2/src/conn.rs:333-365 | On the connection, bytes received equal bytes credited plus bytes held back, and less than 2^19 is held |
| `FlowControl.StreamReceivedIsCreditedPlusHeld` | crates/micro-h2/src/conn.rs:333-365 | The same on each stream that stays open |
| `JsonWriter.Writer.constructor` | crates/ts-control/src/json.rs:56-64 | An empty document |
| `JsonWriter.Writer.Finish` | crates/ts-control/src/json.rs:67-72 | The text written, or that something failed |
| `JsonWriter.Writer.RawBytes` | crates/ts-control/src/json.rs:74-85 | Appends all the bytes or, for want of room, fails for good |
| `JsonWriter.Writer.SeparateItem` | crates/ts-control/src/json.rs:88-97 | Writes the comma that is due, if one is |
| `JsonWriter.Writer.PushDepth` | crates/ts-control/src/json.rs:99-106 | One more level, or failure at the ninth |
| `JsonWriter.Writer.PopDepth` | crates/ts-control/src/json.rs:108-110 | One level fewer, stopping at none |
| `JsonWriter.Writer.BeginContainer` | crates/ts-control/src/json.rs:112-130 | Separator, bracket, level |
| `JsonWriter.Writer.EndContainer` | crates/ts-control/src/json.rs:119-136 | Level, bracket |
| `JsonWriter.Writer.NameMember` | crates/ts-control/src/json.rs:139-149 | Separator, quoted name, colon, and no comma before the value |
| `JsonWriter.Writer.Leaf` | crates/ts-control/src/json.rs:157-182 | Separator and text |
| `JsonWriter.Writer.StringLiteral` | crates/ts-control/src/json.rs:202-229 | The loop over runs and escapes writes exactly the escaped string, all or nothing |
| `JsonWriter.RawTwice` | crates/ts-control/src/json.rs:74-85 | Writing in pieces fits, and reads, exactly as writing at once |
| `JsonWriter.WriteValue` | crates/ts-control/src/json.rs:88-229 | Any tree by the writer's calls: its text where the document stands if depth and text fit, failure otherwise |
| `JsonWriter.WriteDocument` | crates/ts-control/src/json.rs:56-72 | Ok if and only if the tree nests at most eight deep and its text fits, and then exactly the text |
| `Scanner.StreamScanner.PushByte` | crates/ts-netmap/src/scanner.rs:412-414 | One more byte, or an error when the buffer is full |
| `Scanner.StreamScanner.OpenContainer` | crates/ts-netmap/src/scanner.rs:376-380 | One more open container and its token, or an error at the seventeenth |
| `Scanner.StreamScanner.CloseContainer` | crates/ts-netmap/src/scanner.rs:382-400 | Closes only a container of the bracket's own kind |
| `Scanner.StreamScanner.EndEscape` | crates/ts-netmap/src/scanner.rs:320-345 | A surrogate half waits, a pair joins, anything else becomes UTF-8 |
| `Scanner.StreamScanner.Emit` | crates/ts-netmap/src/scanner.rs:347-374 | The number or literal collected, or an error for an unknown word |
| `Scanner.StreamScanner.StepByte` | crates/ts-netmap/src/scanner.rs:156-317 | One step of the machine in all eight modes, and whether the byte was consumed |
| `Scanner.StreamScanner.Push` | crates/ts-netmap/src/scanner.rs:115-132 | A chunk gives the run of its bytes, in at most two steps per byte |
| `Scanner.StreamScanner.Finish` | crates/ts-netmap/src/scanner.rs:138-153 | The flush at the end, refused inside a token or an open container |
| `Scanner.RunAppend` | crates/ts-netmap/src/scanner.rs:115-132 | Reading two pieces is reading them joined, errors included |
| `Scanner.ChunksDoNotMatter` | crates/ts-netmap/src/scanner.rs:115-132 | Where the input is cut makes no difference |
| `ScannerBalance.StepNests` | crates/ts-netmap/src/scanner.rs:156-317 | Each step changes the stack exactly as its token opens or closes |
| `ScannerBalance.RunNests` | crates/ts-netmap/src/scanner.rs:376-400 | For every input the stack is what the emitted tokens leave open, never past sixteen |
| `ScannerBalance.DocumentBalanced` | crates/ts-netmap/src/scanner.rs:138-153 | For every input in any chunks, a document that finishes Ok has balanced tokens |
| `JsonRoundTrip.WrittenIsRead` | crates/ts-netmap/src/scanner.rs:115-153 | Every printable tree nested at most sixteen deep with strings of at most 256 bytes, cut anywhere, is read without error as its tokens, numbers from 2^63 on as zero |
| `JsonReading.ReadsBlank` | crates/ts-netmap/src/scanner.rs:156-160 | White space between tokens changes nothing |
| `JsonReading.ReadsPiece` | crates/ts-netmap/src/scanner.rs:197-345 | Every plain byte, short escape, four-digit escape in either case and surrogate pair is read as the bytes it stands for |
| `JsonReading.ReadsLiteral` | crates/ts-netmap/src/scanner.rs:197-228 | A string literal gives a key or a text token by its position alone |
| `JsonReading.IntegerOfNumber` | crates/ts-netmap/src/scanner.rs:347-359 | An integer of 64 bits, of either sign, is read as itself; fractions, exponents and larger ones as zero |
| `JsonReading.ReadsSpelling` | crates/ts-netmap/src/scanner.rs:156-400 | Any spelling of any tree, in any surrounding state, gives the tree's tokens and leaves the stack as it was |
| `JsonReading.SpelledIsRead` | crates/ts-netmap/src/scanner.rs:115-153 | Every JSON text that spells a tree nested at most sixteen deep with strings of at most 256 bytes, whatever its white space and escapes and wherever it is cut, is read without error as exactly the tree's tokens |
| `JsonRoundTrip.PlainSpells` | crates/ts-control/src/json.rs:88-229 | What the writer writes is one spelling of its tree |
| `JsonRoundTrip.RoundTripIff` | crates/ts-netmap/src/scanner.rs:347-359 | The tokens are exactly the tree's if and only if every number is below 2^63 |
| `JsonRoundTrip.LargeNumberIsLost` | crates/ts-netmap/src/scanner.rs:347-359 | Counterexample: 2^63 comes back as 0 |
| `Utf8.EncodeIsChar` | crates/ts-netmap/src/scanner.rs:335-343 | Every scalar value encodes to one well-formed character |
| `NetmapObject.PeerTable.Position` | crates/ts-netmap/src/peer.rs:121-127 | The first entry with the id |
| `NetmapObject.PeerTable.UpsertPeer` | crates/ts-netmap/src/peer.rs:138-144 | Replaces, appends, or refuses when full and leaves the table alone |
| `NetmapObject.PeerTable.RemovePeer` | crates/ts-netmap/src/peer.rs:146-154 | The entry goes, the last one takes its place, and the answer says whether there was one |
| `NetmapObject.PeerTable.CarriersOf` | crates/ts-netmap/src/parser.rs:333-338 | The ids of the records that carry a key, in table order |
| `NetmapObject.PeerTable.RemoveThese` | crates/ts-netmap/src/parser.rs:339-341 | The records with these ids go, one by one |
| `NetmapObject.Parser.SelfString` | crates/ts-netmap/src/parser.rs:326-345 | The own key is noted and its carriers go, or a fifth carrier ends the program; the disco key is noted |
| `NetmapObject.NetmapState.PutRegion` | crates/ts-netmap/src/derp.rs:59-65 | Replaces, appends, or refuses when full |
| `NetmapObject.Parser.StartContainer` | crates/ts-netmap/src/parser.rs:221-242 | The new context, what it resets, and the error when the stack is full |
| `NetmapObject.Parser.EndContainer` | crates/ts-netmap/src/parser.rs:244-271 | What leaving each context commits |
| `NetmapObject.Parser.Commit` | crates/ts-netmap/src/parser.rs:273-295 | A record with a key that is not our own is upserted; a full table is noted as the error |
| `NetmapObject.Parser.Patch` | crates/ts-netmap/src/parser.rs:302-321 | Only mentioned fields of an existing peer change |
| `NetmapObject.Parser.HandleString` | crates/ts-netmap/src/parser.rs:323-394 | What a string means in each context |
| `NetmapObject.Parser.HandleNumber` | crates/ts-netmap/src/parser.rs:396-416 | What a number means in each context, with the truncating casts |
| `NetmapObject.Parser.HandleBool` | crates/ts-netmap/src/parser.rs:418-425 | Only Online of a record or a patch |
| `NetmapObject.Parser.HandleToken` | crates/ts-netmap/src/parser.rs:429-446 | One token changes parser and netmap as the pure machine says |
| `NetmapObject.Parser.Push` | crates/ts-netmap/src/parser.rs:482-485 | A chunk applies the tokens of its bytes in order, up to an error |
| `NetmapObject.Parser.Finish` | crates/ts-netmap/src/parser.rs:493-500 | The last tokens, then the scanner's error or the first one noted |
| `NetmapTree.VisitStreams` | crates/ts-netmap/src/parser.rs:221-446 | Any value's tokens, in any context, do to the parser what a recursion over the tree does |
| `NetmapTree.DocumentStreams` | crates/ts-netmap/src/parser.rs:429-446 | A whole response, token by token, is that recursion |
| `NetmapNames.NamesAreSpelled` | crates/ts-netmap/src/parser.rs:176-219 | The parser tells each member name apart by exactly its spellings: Node, Peers, PeersChanged, ID or NodeID, HomeDERP or DERPRegion and so on |
| `NetmapNames.NamesAreKept` | crates/ts-netmap/src/parser.rs:436-438 | The same of names as the document has them, the 64-byte buffer notwithstanding |
| `NetmapTree.IgnoredIsSilent` | crates/ts-netmap/src/parser.rs:176-219 | Inside an ignored container nothing has any effect at any depth |
| `NetmapTree.UnknownIsSilent` | crates/ts-netmap/src/parser.rs:176-219 | A member with an unrecognised name and any value leaves netmap, pending record and error unchanged |
| `NetmapTree.StripIsInvisible` | crates/ts-netmap/src/parser.rs:176-271 | Dropping every unrecognised member at every depth changes nothing |
| `NetmapTree.UnknownMembersDoNotMatter` | crates/ts-netmap/src/parser.rs:176-446 | Responses that differ only in unrecognised members leave the same parser and netmap |
| `NetmapTree.InsertedIsStripped` | crates/ts-netmap/src/parser.rs:176-219 | One such member inserted anywhere is among what is dropped |
| `NetmapRecords.ListReads` | crates/ts-netmap/src/parser.rs:367-383 | A list adds the strings that parse, up to its bound, and touches nothing else |
| `NetmapRecords.RecordReads` | crates/ts-netmap/src/parser.rs:323-425 | The pending record is what the members say under their literal names: the last id, key, flag and region, and the bounded lists |
| `NetmapRecords.BuiltIsPeer` | crates/ts-netmap/src/parser.rs:273-295 | What is committed is the peer the record describes, with its defaults |
| `NetmapRecords.CollectedIsPatch` | crates/ts-netmap/src/parser.rs:302-321 | What is merged is the patch the record describes |
| `NetmapFaults.VisitSticks` | crates/ts-netmap/src/parser.rs:170-172 | An error, once noted, stays noted |
| `NetmapFaults.RecordFaults` | crates/ts-netmap/src/parser.rs:352-374 | A record is read without error if and only if its keys and, in a whole record, its addresses parse |
| `NetmapRelays.NodeReads` | crates/ts-netmap/src/parser.rs:391-415 | A relay node is its last host name and ports, 443 and 0 by default |
| `NetmapRelays.RegionReads` | crates/ts-netmap/src/parser.rs:225-262 | A region is its last number, or else its member name, its last code and the first four of its nodes |
| `NetmapRelays.RegionIsInserted` | crates/ts-netmap/src/parser.rs:253-262 | A region, from its first member to its end, is inserted as it is described, or finds the table full |
| `NetmapReading.RegionNameIsItsNumber` | crates/ts-netmap/src/parser.rs:225-230 | A member name in decimal is the region's number |
| `NetmapDeltas.UpsertRepresents` | crates/ts-netmap/src/peer.rs:138-144 | An upsert is a map update |
| `NetmapDeltas.SwapRepresents` | crates/ts-netmap/src/peer.rs:146-154 | A swap_remove is a map removal and ids stay unique |
| `NetmapDeltas.InsertIs` | crates/ts-netmap/src/derp.rs:59-65 | A region replaces the one of its number, is added, or is refused exactly when eight others are there |
| `NetmapDeltas.OwnRepresents` | crates/ts-netmap/src/parser.rs:332-341 | Taking the own key removes exactly its carriers |
| `NetmapDeltas.OwnKeyTakenIff` | crates/ts-netmap/src/parser.rs:332-341 | The own key ends the program if and only if more than four records carry it; otherwise none does afterwards |
| `NetmapFold.CommitTracks` | crates/ts-netmap/src/parser.rs:273-295 | A committed record is a map update, refused exactly when the id is new and the table full |
| `NetmapFold.PatchTracks` | crates/ts-netmap/src/parser.rs:302-321 | An applied patch changes the entry of its id as the patch says, or nothing |
| `NetmapFold.RelayTracks` | crates/ts-netmap/src/parser.rs:253-262 | A region is a map update, refused exactly when it is the ninth |
| `NetmapFold.OwnTracks` | crates/ts-netmap/src/parser.rs:332-341 | The own key is noted and its carriers go, refused exactly when they are more than four |
| `NetmapFold.ResponseTracks` | crates/ts-netmap/src/parser.rs:221-446 | A response ends without an error if and only if everything it says, in order, goes through, and then the whole netmap is what that makes of it |
| `NetmapFold.StreamFolds` | crates/ts-netmap/src/parser.rs:221-446 | So does any stream of responses: the peers and relay regions by id, this node's keys and addresses and the count of responses are the fold of what the documents say under their literal member names, and there is an error exactly when something malformed is said or something new finds no room |
| `NetmapFold.AddressesAccumulate` | crates/ts-netmap/src/parser.rs:347-352 | This node's addresses only accumulate, up to four |
| `NetmapFold.StaleAddressStays` | crates/ts-netmap/src/parser.rs:347-352 | Counterexample: a second response with another address leaves the first one first |
| `NetmapFold.TokensSelfFree` | crates/ts-netmap/src/parser.rs:221-446 | Any tokens at all keep ids unique and the own key out of the table |
| `NetmapFold.NeverOwnPeer` | crates/ts-netmap/src/parser.rs:273-341 | After any responses and at every token of the next, errors or not: ids are unique and no peer carries the own key while it is known |
| `NetmapFold.PatchChangesOnlyMentioned` | crates/ts-netmap/src/parser.rs:302-321 | A patch changes only what it mentions, never key, id or addresses; an empty endpoint list is no mention |
| `NetmapStream.StacksMirror` | crates/ts-netmap/src/parser.rs:221-271 | The context stack is as deep as the unmatched starts |
| `NetmapStream.SlotsSuffice` | crates/ts-netmap/src/parser.rs:238-240 | With at most sixteen open containers more slots would change nothing |
| `NetmapStream.AnyInputFits` | crates/ts-netmap/src/parser.rs:221-271 | For every input in any chunks both stacks are equally deep and the sixteen-slot push never fails |
| `NetmapStream.TextResponds` | crates/ts-netmap/src/parser.rs:482-500 | A text that spells a tree does what the tree's tokens do |
| `NetmapStream.ServedStream` | crates/ts-netmap/src/parser.rs:482-500 | From bytes: a stream of texts, however spelled and with keepalives anywhere, is served without error if and only if every delta of their trees goes through, and the netmap is then the fold of those deltas |
| `Frames.FrameReader.Next` | crates/ts-netmap/src/frame.rs:58-86 | Completes the prefix, hands out a piece, ends an empty response, or asks for more; never across a boundary |
| `Frames.FrameReader.TakePrefix` | crates/ts-netmap/src/frame.rs:59-71 | Part of a prefix is kept; four bytes are a little-endian length |
| `Frames.FrameReader.FinishResponse` | crates/ts-netmap/src/frame.rs:94-97 | Ready for the next prefix |
| `Frames.Feed` | harness/src/control.rs:644-677 | One chunk: delivered bodies and bytes in hand account for every byte fed |
| `Frames.ReadStream` | harness/src/control.rs:635-683 | For every list of bodies, empty ones included, and every cut of the stream, exactly those bodies in order |
| `Frames.StreamDetermines` | crates/ts-netmap/src/frame.rs:58-97 | A whole stream has one reading, with nothing left over |
| `Frames.PrefixDetermines` | crates/ts-netmap/src/frame.rs:58-97 | Midway, what was delivered and what is in hand are what was sent so far |
| `NetmapDriver.TakePiece` | harness/src/control.rs:648-669 | A piece goes to the parser; a complete body ends its response and a fresh parser begins |
| `NetmapDriver.Turn` | harness/src/control.rs:645-677 | One turn of the driver keeps the books of reader and parser, and errs only if the stream does |
| `NetmapDriver.ReadMap` | harness/src/control.rs:635-683 | End to end: however the wire is cut, the netmap is what serving the responses one by one leaves, and an error is reported if and only if one of them is in error |
| `Checksum.FoldsToOnes` | firmware/src/inner.rs:10-23 | A sum folds to all ones exactly when it is a positive multiple of 65535 |
| `Checksum.FoldKeepsResidue` | firmware/src/inner.rs:18-21 | Folding keeps the residue modulo 65535 |
| `Checksum.ComputeChecksum` | firmware/src/inner.rs:10-23 | The loops compute the complement of the folded word sum, the sum wrapping at 2^32, which no slice of up to 131072 bytes reaches |
| `Checksum.AdjustChecksum` | firmware/src/nat.rs:268-280 | For slices of any lengths the loops compute the complement of the folded accumulator over their whole words, wrapping at 2^32, which no slices of up to 65536 bytes reach |
| `Checksum.AdjustBalances` | firmware/src/nat.rs:268-280 | The update makes up modulo 65535 for exactly the words that changed |
| `NatRewrite.TcpOffset` | firmware/src/nat.rs:373-382 | Where the TCP header starts, in bounds, or that the packet is none |
| `NatRewrite.RewriteIpChecksum` | firmware/src/nat.rs:282-286 | The checksum of the first twenty bytes replaces the field in place |
| `NatRewrite.RewriteTcp` | firmware/src/nat.rs:290-323 | Both rewrites change the packet in place as specified and say whether they applied |
| `NatRewrite.RewriteKeepsTcpChecksum` | firmware/src/nat.rs:290-323 | A TCP checksum is valid after a rewrite if and only if it was before |
| `NatRewrite.RewriteIpChecksumIff` | firmware/src/nat.rs:282-286 | The IP checksum comes out valid if and only if the options sum to nothing, as with IHL 5 |
| `NatRewrite.RewriteSetsFields` | firmware/src/nat.rs:290-323 | The address and port are the new ones and nothing but them and the checksums changes |
| `NatRewrite.RecomputedIsValid` | firmware/src/nat.rs:268-280 | Writing the recomputed checksum into any TCP packet makes it valid |
| `NatRewrite.UpdateIsRecomputation` | firmware/src/nat.rs:290-323 | For a valid packet the updated checksum is the recomputed one if and only if not all of these hold: the field was all ones, the address 255.255.255.255 became 0.0.0.0 and the port 65535 became 0; then it is the other zero |
| `NatExamples.WrongZero` | firmware/src/nat.rs:290-306 | Such a packet: valid, and rewritten to a checksum of all ones where a recomputation gives zero |
| `NatExamples.OptionsSpoilIpChecksum` | firmware/src/nat.rs:282-286 | Counterexample: a packet with a right IP checksum and four bytes of options comes out of every rewrite with a wrong one |
| `NatClamp.WalkOptions` | firmware/src/nat.rs:338-371 | The loop finds the specified MSS option or none |
| `NatClamp.ClampMss` | firmware/src/nat.rs:329-371 | Clamps in place as specified |
| `NatClamp.MssIsLowered` | firmware/src/nat.rs:329-371 | Over bytes: every IPv4 TCP packet with the SYN bit, SYN-ACK included, and a four-byte MSS option behind well-formed options leaves with the lesser of that MSS and 1240 and otherwise differs in its checksum alone |
| `NatClamp.OnlySynsAreTouched` | firmware/src/nat.rs:329-371 | Converse: a packet that changes is such a packet with a greater MSS |
| `NatClamp.ClampKeepsTcpChecksumIff` | firmware/src/nat.rs:355-364 | Clamping keeps a valid TCP checksum valid if and only if the value is not lowered at an odd offset with a non-vanishing skew |
| `NatExamples.OddOffsetSpoils` | firmware/src/nat.rs:355-364 | Counterexample: a SYN with a valid TCP checksum and a no-operation before its MSS option is clamped to one with a wrong checksum |
| `NatClamp.GatewayKeepsChecksums` | firmware/src/nat.rs:282-371 | Clamped, then rewritten at either end: both checksums valid with IHL 5 and an even offset, and exactly when not |
| `NatTable.FlowTable.SlotFor` | firmware/src/nat.rs:170-215 | The flow's own slot, else a free one, else the least recently used idle one; refused exactly when the flow is absent and every slot is busy |
| `NatTable.FlowTable.FindVictim` | firmware/src/nat.rs:190-214 | The first free slot, or the idle flow used longest ago |
| `NatTable.FlowTable.Touch` | firmware/src/nat.rs:221-225 | Only that slot's time changes |
| `NatTable.FlowTable.Release` | firmware/src/nat.rs:229-233 | Only that slot is freed |
| `NatTable.AssignedIsUnique` | firmware/src/nat.rs:67-114 | The slot given is fixed by the table |
| `NatTable.AlwaysDistinct` | firmware/src/nat.rs:67-125 | In every reachable table no two slots hold the same flow |
| `NatTable.FlowKeepsSlot` | firmware/src/nat.rs:67-125 | A flow keeps its slot, and so its external port, until released or idle past the timeout |
| `NatTable.SameFlowSameSlot` | firmware/src/nat.rs:170-215 | A flow that stays is given the same slot every time |

## Left out

- Huffman decoding of HPACK strings: the decoder is a parameter of `HpackCodec`; the encoder never emits it.
- Replacing a decoder on a peer's SETTINGS_HEADER_TABLE_SIZE: HPACK claims are per decoder lifetime.
- HTTP/2 framing, SETTINGS, PING, GOAWAY and reassembly of HEADERS and CONTINUATION: only DATA, closing and crediting are modelled.
- Wire layout of WireGuard messages and the length checks on it: messages are records of terms.
- Real cryptography, key text forms, address parsing, DERP, disco and the Noise IK control channel.
- 32-bit `usize`: HPACK indices and lengths are compared at 64 bits.
- WireGuardDevice: its peers and sessions are values in a sequence, since the source moves them and never aliases them, and a session's window there is the set of accepted counters; `SessionObject` and `ReplayWindow` prove the in-place session and its bitmap equal to that, but the device object does not hold them.
- Scanner.StreamScanner.PushByte: says nothing of the fields after an error, because the parser is then abandoned.
- Scanner.StreamScanner.OpenContainer: says nothing of the fields after an error, because the parser is then abandoned.
- Scanner.StreamScanner.CloseContainer: says nothing of the fields after an error, because the parser is then abandoned.
- Scanner.StreamScanner.EndEscape: says nothing of the fields after an error, because the parser is then abandoned.
- Scanner.StreamScanner.Emit: says nothing of the fields after an error, because the parser is then abandoned.
- Scanner.StreamScanner.StepByte: says nothing of the fields after an error, because the parser is then abandoned.
- Scanner.StreamScanner.Push: says nothing of the fields after an error, because the parser is then abandoned.
- Scanner.StreamScanner.Finish: says nothing of the fields after an error, because the parser is then abandoned.
- JsonWriter.Writer.Finish: which of the two errors is reported is not stated, because a later `TooDeep` overwrites an earlier `Overflow`.
- What the scanner accepts beyond JSON (form feeds, trailing commas, several top-level values, unpaired halves of escapes that a later one completes): modelled, but not claimed about.
- HpackCodec.BlockAgrees: leaves open when there is a fault; `HpackExact.BlockReads` settles it.
- HpackCodec.LifeAgrees: leaves open when there is a fault; `HpackExact.LifeReads` settles it.
- HpackCodec.StandardLife: leaves open when there is a fault; `HpackExact.StrictLifeReads` settles it.
- `handshake_is_stalled` and `is_connected`, which only read timers for display, and the entry a request leaves behind when encoding its headers fails.
- NatTable: one class stands for both slot tables, which differ in size and timeout; the UDP table has no release.
- NatRewrite.RewriteTcp: requires a header length of at least twenty bytes, because the source panics below that, after it has accepted the packet.
- UDP packet building and parsing, ICMP echo replies, and `parse_tcp4`: fixed layouts that would add only easy members.
- The driver's count of responses wanted and its reporting; harness and firmware tasks, sockets and hardware.
