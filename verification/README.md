# ArnosVPN tunnel server: a verified model

This project models the ArnosVPN tunnel in Dafny and proves what its parts promise
together: who owns a tunnel address at any moment, what a client receives and what
the server forwards for it, that a hello opens one session only and when a salt does,
that no (key, nonce) pair repeats, and that the Android client speaks the same bytes
as the Go code. Three smaller parts of the client stand beside it: the `arnos://` connect
string, the saved-server list and the update check's version order.

Concurrency is modelled as a state machine over atomic steps. A machine's `Apply`
performs one step (a disabled step changes nothing) and `Run` performs a list of
them, so a statement about `Run(..., steps)` for arbitrary `steps` is a statement
about every interleaving. Code that updates fields in place is a class whose methods
are proved against the functions the machines use.

| file | what it holds |
|---|---|
| `Octets.dfy`, `Decimal.dfy`, `Base64.dfy`, `Query.dfy`, `Text.dfy` | bytes, shifts and bitwise or, decimal text, base64, query strings, trimming |
| `Framing.dfy`, `Session.dfy`, `Channel.dfy` | the data frame, the Go session, one direction under an adversarial network |
| `KeySchedule.dfy`, `Auth.dfy` | HKDF and the session keys, the handshake token |
| `Kotlin.dfy` | the Android session over signed bytes and Longs |
| `Pool.dfy`, `PoolRuns.dfy` | the address pool and its whole runs |
| `Replay.dfy` | the checks on a hello and the replay guard, threads interleaved |
| `Ownership.dfy` | the connection lifecycle: pool, client map, phases |
| `Flow.dfy`, `Tunnel.dfy` | one session's queues and counters; the whole server composed, its clients included |
| `Downlink.dfy`, `Uplink.dfy`, `Writers.dfy`, `Admission.dfy` | what holds of every run of the whole: packets down, packets up, in what order the client's packets go up, who gets a session |
| `Service.dfy` | what every reachable state leads to: packets get through, pings are answered, connections can end |
| `ClientTunnel.dfy` | the desktop client's reader and writer |
| `Provision.dfy`, `ServerList.dfy`, `Version.dfy` | connect string, saved servers, version order |

## Assumptions

- ChaCha20-Poly1305 (section 2.8 of RFC 8439) is a pair of functions. `Correct` says
  that opening a sealed text gives it back; `Channel.Unforged` and `Tunnel.Unforged` say
  that what opens was sealed under that key and nonce. HMAC-SHA256 is a function with
  32-byte results. A result takes only those of these premises it uses: the downlink
  needs `Correct`, the attribution of uplink packets needs none.
- Keys differ by direction exactly when HMAC separates two given messages
  (`KeySchedule.KeysCross`); results that need distinct keys take that as a premise.
- Fewer than 2^64 seals per session and direction. `GoSession.NonceRepeats` says exactly
  when two seals share a nonce without that bound.
- For the replay guard: the wall clock does not run backwards, reads a time after 1970,
  and is early enough for an expiry to fit an int64.
- `fold` stands for the case folding behind strings.EqualFold, `hierOk` for url.Parse's
  check of the authority and path.

## Properties that hold only under a condition

- A payload survives seal and open exactly when it is shorter than 65536 bytes: the
  length header is 16 bits and longer payloads come back cut (`Framing.OpenSealed`). The
  TUN buffer is MTU + 64 bytes and the MTU is not bounded by the configuration: the
  downlink result holds for every MTU of packets as the header carries them
  (`CarriedAll`), which is the packets themselves when MTU + 64 < 65536.
- The replay guard agrees with a log that never forgets exactly when at most 4 seconds
  pass between the skew check and the guarded sweep (`Replay.MarginExact`); with 5
  seconds every hello can be accepted twice (`Replay.SlowReplayAccepted`).
- "A (salt, ts) pair opens one session" holds of salt texts and fails of salt bytes. The
  token is checked on the decoded bytes and the guard keyed on the text, while the
  decoder ignores line breaks and the four spare bits of a 16-byte salt's last symbol, so
  each salt has other texts (`Base64.TextsOf`, `Replay.EverySaltRespelled`) with which the
  same hello is accepted again (`Replay.OneSaltTwice`). It holds exactly when no
  two texts of one salt are let through (`Replay.SaltOnceExact`,
  `Admission.OneSessionPerSalt`); `salt == EncodeStd(DecodeStd(salt))`, checked first, is
  enough (`Replay.CanonicalSaltOnce`), and every text that fails this check breaks it
  (`Replay.CanonicalNeeded`).
- After SetActive(n) the default profile is that of n exactly when n is not the empty
  name: the empty name resolves, as the active server, and is then stored
  (`ServerList.SetActiveThenProfile`).
- Over an ordered transport the server refuses none of a client's frames exactly when
  they were written in the order they were sealed (`Writers.UplinkExact`). WritePacket
  seals before it takes the write lock, so this holds on all runs exactly when the client
  has at most one caller of it (`Writers.OneWriterNeeded`), as the pump does; two callers
  can cross, and the session then ends on a replay error.
- The address pool serves its own network exactly for prefix lengths 1 to 30. With /0 it
  serves nothing, with /31 the scan divides by zero, and with /32 it hands out the
  address after its only one, outside its network (`AddressPool.FreshPoolByPrefix`).

Where the documentation and the code differ, the model follows the code: docs/PROTOCOL.md
shows version 1 in the hello where the code uses 2, and says that a (salt, ts) pair is
remembered for the timestamp window, so that a captured hello cannot be replayed, where
the code remembers the salt text for 185 seconds.

## Model

| member | source | states |
|---|---|---|
| `Octets.ReadWrite64` | internal/protocol/crypto.go:174-203 | the counter Open reads back is the one sealRaw wrote, for every 64-bit value, through the shifts and the or-chain |
| `Octets.Uint32IsBigEndian` | internal/server/server.go:282-320 | the address read from a packet is the big-endian value of its four bytes |
| `Framing.NonceInjective` | internal/protocol/crypto.go:117-131 | nonceFor is injective on 64-bit counters |
| `GoSession.NonceRepeats` | internal/protocol/crypto.go:164-166 | the n-th and m-th seal of a session share a nonce exactly when n and m agree modulo 2^64 |
| `Framing.AuthenticateSealed` | internal/protocol/crypto.go:197-207 | Open sees the counter and the plaintext that sealRaw used |
| `Framing.OpenSealed` | internal/protocol/crypto.go:162-227 | a sealed frame is accepted exactly when its counter advances; the payload comes back whole exactly when it is shorter than 65536 bytes |
| `Framing.ForgeriesLeaveNoTrace` | internal/protocol/crypto.go:193-218 | over any sequence of frames, those that are short or fail their tag might as well not have come: same packets, same receive state |
| `Framing.CounterOnWire` | internal/protocol/crypto.go:120-184 | the nonce is the counter as a 12-byte big-endian number, the frame starts with it in 8 bytes and goes on with the sealed text |
| `Framing.PlaintextOnWire` | internal/protocol/crypto.go:168-172 | the sealed text is the 16-bit big-endian length, the payload and the pad |
| `Framing.OpensExactly` | internal/protocol/crypto.go:193-227 | Open returns a packet exactly when the frame has a counter above the highest accepted one and its body opens, under that counter, to the packet with its length in front and any pad behind |
| `GoSession.FillPlaintext` | internal/protocol/crypto.go:168-172 | the indexed stores and copies build length, payload and pad, in that order |
| `GoSession.Session.SealRaw` | internal/protocol/crypto.go:162-184 | emits the frame for the counter before the call, which after n seals is n stepped through the wrap at 2^64 |
| `GoSession.Session.Open` | internal/protocol/crypto.go:193-227 | result and receive state are those of the frame specification, error cases included |
| `Channel.DeliverGenuine` | internal/protocol/crypto.go:197-207 | with an ideal AEAD, any delivered frame that verifies carries the packet its counter was fetched for |
| `Channel.StepKeepsInv` | internal/protocol/crypto.go:164-218 | every step of racing Seal and Open callers and of the network keeps counters fresh, openings genuine and acceptances ordered |
| `Channel.AcceptedInOrder` | internal/protocol/crypto.go:193-227 | against any reordering, duplication, loss or forgery and concurrent Open calls, what is accepted is an in-order, duplicate-free subsequence of what was sealed |
| `Channel.BadTagsLeaveNoTrace` | internal/protocol/crypto.go:193-207 | leaving every delivery with a bad tag out of a run, wherever it stood among the racing callers, ends in the same state |
| `Channel.CheckedExactly` | internal/protocol/crypto.go:209-227 | on every run, a caller at the lock gets its packet exactly when its counter is above all accepted ones |
| `Channel.SealedGetsThrough` | internal/protocol/crypto.go:201-207 | on every run, a frame sealed under any counter and delivered whole gets past the tag check |
| `Channel.RunWithholdsNothing` | internal/protocol/crypto.go:164-184 | every counter fetched was sealed under or is about to be; the receive state is the last accepted counter |
| `Channel.NonceNeverReused` | internal/protocol/crypto.go:117-131 | no (key, nonce) pair is used twice over both directions and all interleavings of Seal callers |
| `KeySchedule.OneBlockIsExpand` | apps/android/app/src/main/kotlin/com/arnosvpn/android/protocol/Crypto.kt:58-62 | Kotlin's single block is HKDF-Expand of section 2.3 of RFC 5869 at L = 32 |
| `KeySchedule.KotlinKeysAgree` | apps/android/app/src/main/kotlin/com/arnosvpn/android/protocol/Crypto.kt:64-75 | the Android client derives the keys the Go client would |
| `KeySchedule.KeysCross` | internal/protocol/crypto.go:72-115 | what one end sends with the other receives with; the directions differ exactly when HMAC separates the two info messages, which are different |
| `KeySchedule.DerivedKeys` | internal/protocol/crypto.go:76-115 | both roles' keys outright: HMAC under HMAC(clientSalt, serverSalt; psk) of the direction's label and the byte 1 |
| `KeySchedule.ConnectionNoncesDistinct` | internal/protocol/crypto.go:76-131 | with derived keys no (key, nonce) pair repeats on a connection |
| `Auth.ContextInjective` | internal/protocol/crypto.go:31-40 | with 16-byte salts, distinct (salt, ts) pairs have distinct authenticated messages |
| `Auth.TokenBinds` | internal/protocol/crypto.go:42-53 | a token verifies for another handshake exactly when HMAC gives the two messages one tag |
| `Decimal.AtoiFormat` | internal/provision/provision.go:74-78 | reading back a printed integer gives it for every int64, and nothing for any other |
| `Decimal.AtoiRejects` | internal/provision/provision.go:74-78 | text without a digit, or with anything but digits after an optional sign, is not read |
| `Decimal.FormatInjective` | internal/server/replay.go:34 | signed decimal printing is injective on all integers |
| `Base64.DecodeEncode` | internal/provision/provision.go:42-83 | decoding inverts unpadded encoding on every byte string |
| `Base64.DecodeStdSpelling` | internal/server/server.go:186 | the padded decoder gives the bytes back whatever the spare bits hold |
| `Base64.EncoderSpelling` | internal/client/tunnel.go:92 | only zero spare bits are the text the encoder writes |
| `Base64.TextsOf` | internal/server/server.go:186 | exactly which texts decode to given bytes: one for each value of the spare bits, with line breaks anywhere |
| `Base64.GroupDigits` | internal/provision/provision.go:42 | three bytes are a 24-bit big-endian number written as four six-bit digits |
| `Base64.TestVectors` | internal/protocol/crypto.go:46 | test vectors of section 10 of RFC 4648 |
| `Base64.LastSymbols` | internal/provision/provision.go:42 | the two last symbols of the standard and of the URL alphabet |
| `Kotlin.CounterBytesAgree` | apps/android/app/src/main/kotlin/com/arnosvpn/android/protocol/Crypto.kt:148-171 | signed shifts write the Go bytes over the whole 64-bit range |
| `Kotlin.ReadCounterAgrees` | apps/android/app/src/main/kotlin/com/arnosvpn/android/protocol/Crypto.kt:173-181 | the signed or-chain reads the Go counter |
| `Kotlin.UnsignedOrder` | apps/android/app/src/main/kotlin/com/arnosvpn/android/protocol/Crypto.kt:137 | compareUnsigned orders Longs as unsigned counters |
| `Kotlin.SealAgrees` | apps/android/app/src/main/kotlin/com/arnosvpn/android/protocol/Crypto.kt:104-119 | a frame built from signed parts is the Go frame |
| `Kotlin.AuthenticateAgrees` | apps/android/app/src/main/kotlin/com/arnosvpn/android/protocol/Crypto.kt:128-134 | the tag check on signed bytes sees the Go counter and plaintext |
| `Kotlin.Session.SealRaw` | apps/android/app/src/main/kotlin/com/arnosvpn/android/protocol/Crypto.kt:103-119 | emits the Go session's bytes for the same key, counter, packet and pad |
| `Kotlin.Session.Open` | apps/android/app/src/main/kotlin/com/arnosvpn/android/protocol/Crypto.kt:121-146 | accepts, rejects and advances as the Go session does |
| `Kotlin.Lockstep` | apps/android/app/src/main/kotlin/com/arnosvpn/android/protocol/Crypto.kt:82-182 | from matching states, every sequence of seals and opens gives the same frames, packets and errors on both |
| `ClientTunnel.Tunnel.ReadPacket` | internal/client/tunnel.go:145-163 | skips control messages, opens the next data frame once, and counts the bytes of an accepted packet |
| `ClientTunnel.Tunnel.WritePacket` | internal/client/tunnel.go:165-175 | seals, then writes; a failed write spends the counter and counts no bytes |
| `ClientTunnel.Converse` | internal/client/tunnel.go:145-163 | everything a peer seals, among control messages, is read back unchanged and in order |
| `AddressPool.IpPool.constructor` | internal/server/pool.go:22-45 | the cursor starts one past the network address and nothing is assigned |
| `AddressPool.IpPool.Allocate` | internal/server/pool.go:53-69 | the loop's outcome and new state are those of the scan, for every pool state |
| `AddressPool.IpPool.Release` | internal/server/pool.go:71-80 | exactly the given address becomes free |
| `AddressPool.NewPoolValid` | internal/server/pool.go:36-45 | prefix lengths 1 to 30 give a pool inside the address space with its cursor in range |
| `AddressPool.NewPoolIs` | internal/server/pool.go:22-45 | the pool's range is exactly the addresses with the given prefix, its gateway the given one, and nothing is held |
| `AddressPool.ModIsRemainder` | internal/server/pool.go:60 | the remainder the scan is reasoned about with is the operator's |
| `AddressPool.CandidateExact` | internal/server/pool.go:60 | no uint32 step of the candidate overflows and every candidate lies between network and broadcast |
| `AddressPool.IndexHits` | internal/server/pool.go:58-60 | the modular scan visits every address of the range |
| `AddressPool.FirstFree` | internal/server/pool.go:53-69 | Allocate grants the first free address in cyclic order from the cursor and fails exactly when every usable non-gateway address is held |
| `AddressPool.AllocateKeepsValid` | internal/server/pool.go:64-66 | the cursor stays in range and only usable addresses are assigned |
| `AddressPool.Capacity` | internal/server/pool.go:10-11 | the number of usable addresses |
| `AddressPool.GrantsBelowCapacity` | internal/server/pool.go:53-69 | the pool grants exactly while fewer addresses are held than its capacity |
| `AddressPool.FreshPoolByPrefix` | internal/server/pool.go:36-69 | what a new pool answers for every prefix length 0 to 32 |
| `PoolRuns.ReuseDistance` | internal/server/pool.go:54-80 | between two grants of an address, every other usable address was granted or found held, for every sequence of Allocate and Release |
| `Replay.ReplayGuard.Observe` | internal/server/replay.go:31-54 | the sweep loop and the lookup together act as one step on the unexpired entries |
| `Replay.KeyInjective` | internal/server/replay.go:34 | distinct (salt text, ts) pairs have distinct keys, whatever the salt text holds |
| `Replay.WindowWidth` | internal/server/server.go:190-192 | two clocks that pass the skew check for one timestamp are at most 180 s apart, also where the int64 subtraction wraps |
| `Replay.GuardAgrees` | internal/server/replay.go:40-53 | in every invariant state the guard accepts exactly what is not in the log of all accepted handshakes |
| `Replay.AcceptedOnce` | internal/server/server.go:190-201 | no two accepted handshakes share (salt text, ts), on every interleaving |
| `Replay.RefinesUnboundedLog` | internal/server/replay.go:10-29 | after any run the next decision is that of a log that never forgets |
| `Replay.SlowReplayAccepted` | internal/server/replay.go:24-29 | with 5 s or more from check to sweep every admissible hello can be accepted twice, at any time |
| `Replay.MarginExact` | internal/server/replay.go:24-29 | safe on all runs exactly when the delay is at most 4 s |
| `Replay.ClientHelloAdmissible` | internal/client/tunnel.go:83-97 | the hello a client makes passes the server's salt and token checks |
| `Replay.AdmissibleExactly` | internal/server/server.go:186-195 | the salt and token checks pass exactly on 16 decoded bytes and the base64 HMAC of label, salt and timestamp |
| `Replay.AcceptedAuthentic` | internal/server/server.go:186-201 | on every run, every accepted hello has a salt of 16 bytes, the base64 HMAC of label, salt and timestamp as its token, and was at most 90 s off when checked |
| `Replay.LetThroughExactly` | internal/server/server.go:186-195 | a hello gets as far as the guard exactly when it carries that token and is at most 90 s off |
| `Replay.FreshHelloAccepted` | internal/server/server.go:186-201 | on every run within the margin, such a hello is accepted exactly when it is new |
| `Replay.DiedBeforeGuard` | internal/server/server.go:190-201 | a connection that dies before the guard leaves no trace |
| `Replay.OneSaltTwice` | internal/server/server.go:186-201 | two texts of one salt share a token and are both accepted at one instant |
| `Replay.SaltOnceExact` | internal/server/server.go:186-201 | no (salt bytes, ts) is accepted twice on any run exactly when no two texts let through decode to one salt |
| `Replay.CanonicalSaltOnce` | internal/server/server.go:186-201 | letting only canonical texts through is safe on all runs |
| `Replay.CanonicalNeeded` | internal/server/server.go:186-201 | a text let through beside the encoder's text of its salt is safe exactly when it is that text |
| `Replay.EverySaltRespelled` | internal/server/server.go:186-189 | every 16-byte salt has fifteen other texts without line breaks |
| `Ownership.Server.Register` | internal/server/server.go:245-252 | the entry is replaced and a client already there is closed |
| `Ownership.Server.Deregister` | internal/server/server.go:254-263 | the entry goes only if it is this client, then the address is released, then the client closed |
| `Ownership.StepKeepsInv` | internal/server/server.go:144-263 | every lifecycle step of every thread keeps pool, client map and phases consistent |
| `Ownership.OwnershipExact` | internal/server/server.go:212-263 | the assigned set is exactly the live sessions' addresses, pairwise distinct, never gateway, network or broadcast; clients[k] is such a session with address k |
| `Ownership.LookupExact` | internal/server/server.go:284-289 | the lookup finds c exactly when c is registered at that address, and then c is its only live holder |
| `Ownership.RegisterFindsNone` | internal/server/server.go:245-252 | a registering session finds no other client at its address |
| `Ownership.BranchesDecided` | internal/server/server.go:245-263 | the displacement branch is never taken and deregister's identity check always succeeds |
| `Ownership.NoAddressLeaks` | internal/server/server.go:212-263 | each thread releases once what it was granted once; when all have ended the pool is empty; a grant succeeds exactly below capacity; that every thread can end is Service.ConnectionEnds |
| `Flow.NextFrameAccepted` | internal/client/tunnel.go:147-163 | the next frame on the transport opens to the TUN packet it was sealed from, as its header carries it |
| `Flow.EnqueueKeeps` | internal/server/server.go:291-296 | enqueueing or dropping at a full queue keeps the session's order and accounts |
| `Flow.ReadKeeps` | internal/client/tunnel.go:147-163 | a client read keeps them |
| `Flow.DeliveredInOrder` | internal/server/server.go:265-298 | what a client received is an in-order, duplicate-free choice of the TUN packets to its address, one for each frame it read |
| `Flow.NothingSkipped` | internal/server/server.go:291-296 | while no frame is dropped or fails to be written, the client has exactly a prefix of what was sealed for it, and all of it once nothing is on its way |
| `Flow.OpenKeepsGenuine` | internal/protocol/crypto.go:193-227 | opening a frame the client sealed keeps the opened packets an in-order choice of the sealed ones |
| `Tunnel.KeysAgree` | internal/client/tunnel.go:83-121 | through both salts' base64 texts and both derivations, each end receives with the key the other sends with, and these are the labelled HMACs |
| `Tunnel.ProvisionedAgree` | internal/client/tunnel.go:83-121 | on every run, the two ends' keys agree in both directions for a client that made its own hello with the server's key |
| `Downlink.TunSealKeeps` | internal/server/server.go:284-292 | sealing for a looked-up client keeps every session in order, even if the client has left and its address has a new holder |
| `Downlink.StepKeepsDown` | internal/server/server.go:144-371 | every step of connection threads, TUN thread, writers and clients keeps the downlink invariant |
| `Downlink.DownlinkInOrder` | internal/server/server.go:265-354 | end to end over all interleavings, for every client that made its own hello with the server's key: no frame is refused, packets arrive in TUN order without duplicates and only at their destination's session, every frame read was delivered, every sealed frame is accounted for, and with none lost the client has a prefix of what was sealed for it |
| `Downlink.QueueBounded` | internal/server/server.go:240 | no queue ever holds more than 256 messages |
| `Downlink.LostExactly` | internal/server/server.go:291-296 | on every run, a session's lost frames are exactly those that met a queue of 256 or a failed write |
| `Downlink.SealedExactly` | internal/server/server.go:282-292 | what is sealed for a session is exactly, in order, the TUN packets whose destination bytes were its registered address when looked up |
| `Uplink.ServerReadKeeps` | internal/server/server.go:302-322 | reading any bytes from a client keeps the session's forwarding exact |
| `Uplink.StepKeepsUp` | internal/server/server.go:144-371 | every step keeps the uplink invariant |
| `Uplink.UplinkAttributed` | internal/server/server.go:300-325 | every TUN write is IPv4 with its session's address in bytes 12 to 15; its writes are exactly, in order, its decrypted packets that are; a session about to write is the registered client at its address and the only live holder |
| `Uplink.UplinkGenuine` | internal/server/server.go:300-325 | under a network that hands over any bytes, with nothing forged and separate keys, a session's TUN writes are an in-order, duplicate-free choice of the packets its own client sealed |
| `Writers.UplinkExact` | internal/client/tunnel.go:165-175 | over an ordered transport, for any number of WritePacket callers: a frame is refused exactly when those read were not written in sealing order; the TUN writes are exactly, in order, the passing packets that arrived |
| `Writers.OneWriterExact` | internal/client/pump.go:17-40 | with one caller no frame is refused and the TUN writes are exactly the passing packets of a prefix of what was sent |
| `Writers.OneWriterNeeded` | internal/client/tunnel.go:165-172 | no run refuses a frame exactly when no two callers of WritePacket send |
| `Admission.GateRuns` | internal/server/server.go:190-201 | inside every run of the whole machine the replay gate makes a run of its own |
| `Admission.RunAdmitted` | internal/server/server.go:199-215 | every connection ever granted an address was admitted by the replay guard |
| `Admission.GrantedOnToken` | internal/server/server.go:186-215 | every connection ever granted an address presented a valid token within the window |
| `Admission.HelloServed` | internal/server/server.go:144-252 | from every reachable state, a new connection whose hello carries its token, is at most 90 s off and new is served at the pool's next free address, as long as one is free; the other sessions are as they were |
| `Admission.OneSessionPerHello` | internal/server/server.go:186-215 | no two connections ever granted an address were admitted on one (salt text, ts) |
| `Admission.OneSessionPerSalt` | internal/server/server.go:186-215 | no two were on one (salt bytes, ts), over all runs, exactly when no two texts of one salt are let through; canonical texts are such a set |
| `Service.ConnectionEnds` | internal/server/server.go:152-165 | from every reachable state, every connection's own steps lead to its end; the address it held is then neither held nor mapped, its client is closed, and the other sessions are as they were |
| `Service.PacketDelivered` | internal/server/server.go:267-354 | from every reachable state, an IPv4 packet to a ready session's address reaches its client |
| `Service.PacketForwarded` | internal/server/server.go:302-325 | from every reachable state, a packet a listening session's client sends is written to the TUN next, whole, exactly when it is IPv4 from the session's address; otherwise it is skipped and the session goes on |
| `Service.PingAnswered` | internal/server/server.go:326-347 | a ping to a session with an empty queue puts a pong on its transport |
| `Service.ClosedIsSilent` | internal/server/server.go:364-371 | nothing is sent on a closed connection, whatever happens next |
| `Service.WriterEnds` | internal/server/server.go:339-371 | a failed frame or keepalive, or a close, ends the writer: the connection is closed and nothing more is ever sent on it |
| `Service.PongFailureGoesOn` | internal/server/server.go:345-349 | a failed pong does not |
| `Query.UnescapeEscape` | internal/provision/provision.go:37-46 | query unescaping inverts escaping on every byte string |
| `Query.GetEncode` | internal/provision/provision.go:37-63 | getting a key from an encoded query finds exactly what was put under it |
| `Query.EscapeForms` | internal/provision/provision.go:37-46 | how each byte is escaped: letters, digits and four marks as themselves, a blank as a plus sign, the rest as percent and two capital hex digits |
| `Query.MalformedSkipped` | internal/provision/provision.go:58-62 | a query segment that is empty, holds a semicolon or has a bad escape is skipped |
| `Provision.ParseUriInverts` | internal/provision/provision.go:30-85 | ParseURI inverts URI with empty path and SNI filled in, for arbitrary byte strings, any int port and any key; without a host it is refused |
| `Provision.ParseReadsPairs` | internal/provision/provision.go:50-85 | any encoded pairs, blanks around the string or not, parse to what they say with the defaults 443, "/" and the host; another scheme is refused |
| `Provision.ParseMinimal` | internal/provision/provision.go:50-85 | a host and a key alone parse with every default |
| `Provision.UriText` | internal/provision/provision.go:32-47 | the text of a connect string written out, keys in alphabetical order |
| `Provision.Refused` | internal/provision/provision.go:52-58 | a control character, or an authority the URL parser does not take, is refused |
| `Provision.FragmentIgnored` | internal/provision/provision.go:52 | a fragment is ignored |
| `Text.TrimBlanks` | internal/provision/provision.go:52 | blanks on both sides go, nothing else does |
| `Text.SpaceIs` | internal/provision/provision.go:52 | which characters are blanks |
| `ServerList.Config.Add` | internal/client/config.go:95-119 | replaces the URI of a server of that name, or appends and perhaps activates; a bad URI changes nothing |
| `ServerList.Config.Remove` | internal/client/config.go:121-136 | compaction over the shared backing array equals the order-preserving filter, and the active name follows |
| `ServerList.Config.Profile` | internal/client/config.go:138-152 | the profile of the first server of that name, the active one by default |
| `ServerList.Config.SetActive` | internal/client/controller.go:127-136 | the name is stored exactly if it resolves |
| `ServerList.OthersFilter` | internal/client/config.go:121-129 | the filter keeps exactly the servers of other names, each once and in order |
| `ServerList.EveryRunGood` | internal/client/config.go:95-152 | after every sequence of changes names differ under folding, every URI parses and the active name is empty or resolves to exactly one server |
| `ServerList.ActiveResolves` | internal/client/config.go:138-152 | the default profile resolves exactly when a server is active |
| `ServerList.AddThenProfile` | internal/client/config.go:97-119 | after an accepted Add, the name given (else the label, else the host) resolves to the URI's profile, every other name as before, and stored names stay |
| `ServerList.AddThenActive` | internal/client/config.go:97-119 | the first server becomes active, a later one changes nothing about which is, a bad URI changes nothing at all |
| `ServerList.RemoveThenProfile` | internal/client/config.go:121-152 | after Remove, the name resolves to nothing and every other name as before |
| `ServerList.RemoveThenActive` | internal/client/config.go:121-136 | removing the active server makes the first remaining one active |
| `ServerList.SetActiveThenProfile` | internal/client/controller.go:127-136 | after SetActive of a name that resolves, that is the default profile; the empty name resolves too, and switches the default off |
| `Version.ParseVersion` | internal/client/update.go:239-258 | the numbers of all parts, or none if one is not a number |
| `Version.Compare` | internal/client/update.go:224-236 | true exactly when the first differing number is greater, missing numbers counting as zero |
| `Version.IsNewer` | internal/client/update.go:215-237 | that order on parsable versions, plain inequality otherwise |
| `Version.GreaterAsymmetric` | internal/client/update.go:224-236 | the order is asymmetric |
| `Version.GreaterTransitive` | internal/client/update.go:224-236 | the order is transitive |
| `Version.UnorderedExactly` | internal/client/update.go:224-236 | two versions are unordered exactly when they agree up to trailing zeros |
| `Version.ChainNeverCycles` | internal/client/update.go:215-237 | a chain of offered updates never returns to a version or to an older one |
| `Version.ParseInvertsPrint` | internal/client/update.go:239-258 | parsing inverts printing of every non-empty list of non-negative ints, with blanks around, a "v" in front and pre-release or build suffixes on the parts |
| `Version.NotAVersion` | internal/client/update.go:239-258 | the empty text, and one whose first part does not start with a number, are not versions |
| `Version.FirstDifferenceDecides` | internal/client/update.go:224-236 | of two releases the newer is the one with the greater number at the first difference, whatever follows |
| `Version.OfferedUnlessSame` | internal/client/update.go:218-223 | without two versions to compare, any other non-empty text is offered |

## Left out

- TLS, the HTTP upgrade, websocket framing, deadlines and TUN device reads and writes: a transport is an ordered list of messages that may stop.
- The insides of ChaCha20-Poly1305, HMAC-SHA256 and the random source: functions and inputs.
- JSON of the hello and the welcome, and the checks of type and version: a refused hello is one step.
- Replay.AcceptedOnce: speaks of salt texts as received; for salt bytes see Replay.SaltOnceExact.
- Downlink.DownlinkInOrder: the machine makes fewer than 2^64 seals per session and direction; the transport is ordered.
- Uplink.UplinkGenuine: that no other session's keys equal this one's is a premise on the derived keys, since HMAC is an arbitrary function.
- Provision.ParseUriInverts: TrimSpace is modelled on ASCII white space, and url.Parse's authority and path check is a parameter that must accept `//connect`.
- Version.ParseVersion: TrimSpace is modelled on ASCII white space.
- ServerList.EveryRunGood: EqualFold is equality after an arbitrary folding function; loading and saving the file are not modelled.
- The order of unparsable versions: it is plain inequality, not an order.
- internal/server/nat.go and internal/client/tun_*.go: their effect depends on tools outside the repository.
- The connect and supervise lifecycle of internal/client/controller.go and the Android service: flags shared between overlapping callbacks.
- internal/cert, internal/config, the proxies, the subscription fetcher, self-update downloads, QR rendering, logs, user interfaces, shell and Docker files: plumbing.
