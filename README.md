# pingo NAT traversal, modelled in Dafny

This project models the protocol core of `pingo`, a UDP hole-punching tool.
The core has three parts:

- **STUN resolver** (`Stun::resolve_public_address`). It sends a fixed
  20-byte Binding Request to every address of the STUN server and scans each
  Binding Response from offset 20, one type/length/value attribute at a time.
  It decodes XOR-MAPPED-ADDRESS (type `0x0020`) attributes into IPv4 or IPv6
  address and port lists.
- **Initiator** (`Client::init`, `measure_latency`). It builds probe packets
  in place: a little-endian sequence number, a little-endian timestamp, then
  `i % 256` filler. A reply counts only when it echoes the sequence number.
  Over `count` attempts the Initiator counts successes, collects latencies
  and logs sent, received, lost, min and max with `debug!`. `Client::init`
  itself returns `Ok(())`; the model returns these statistics as `Stats`.
- **Responder** (`Server::init`). It runs an endless receive loop: echo each
  datagram to its sender, forward it to the peer when the sender is someone
  else, and send `PUNCH` to the peer on a timeout.

Files and modules:

- `wire.dfy`, module `Wire`: results, socket addresses, little- and
  big-endian integers, and what `recv_from` leaves in a buffer.
- `stun.dfy`, module `Stun`.
- `client.dfy`, module `Client`.
- `server.dfy`, module `Server`.

Each imperative routine of the source is a method with loops: the attribute
scan, the IPv6 unmasking loop, the candidate loop, in-place probe
construction, the probe loop and the responder loop. Each method is proved
equal to a specification function. The lemmas state what those functions
promise: round trips, the skip-or-abort rules, splitting by family, and what
the responder may send.

Socket and clock effects are parameters:

- a STUN candidate carries the outcome of its exchange (`Stun.Exchange`);
- a probe attempt carries its timestamp, whether the send succeeded, the
  reply and the elapsed time (`Client.Attempt`);
- a responder iteration is one receive outcome (`Server.RecvEvent`).

Rust panics are error values:

- a STUN read past the 512-byte buffer gives `ReadPastBuffer`;
- `parse().unwrap()` of the client's local address gives `InvalidLocalPort`.

Behaviour kept as written, where RFC 5389 says otherwise:

- The attribute cursor advances by `4 + length` and ignores the 4-byte
  padding of section 15 of RFC 5389. `Stun.PaddedAttributeMisread` shows a conforming
  response that the scan misreads.
- The IPv6 address is unmasked with the magic cookie repeated four times.
  Section 15.2 of RFC 5389 uses the cookie followed by the transaction ID.
- The IPv4 branch never checks the family field.
- Reads are not bounded by the received size. They may see the zero-filled
  rest of the 512-byte buffer. Past index 511 the scan fails.

Further behaviour of the source that the model keeps:

- The Responder sends no start-up `PUNCH` datagrams (src/server.rs:12-24);
  only the Initiator does (src/client.rs:30-34).
- Besides host-name resolution, a failed `bind`, `set_read_timeout` or, for
  IPv4 candidates, `local_addr` aborts the STUN call (src/stun.rs:26-30,
  src/stun.rs:93-94). This is `SocketSetupFailed`.
- A datagram larger than the receive buffer is truncated to the buffer size.
  This is how `recv_from` behaves on Unix.

## Model

| member | source | states |
|---|---|---|
| `Stun.BindingRequestLayout` | src/stun.rs:6-12 | The request is 20 bytes: type 0x0001, length 0, cookie 21 12 A4 42, transaction ID 00..0B |
| `Stun.XorAddress` | src/stun.rs:62-67 | Unmasking keeps the address length |
| `Stun.XorAddressIPv4` | src/stun.rs:62-67 | For 4 bytes, the mask is the cookie byte for byte: 0x21, 0x12, 0xA4, 0x42 |
| `Stun.XorInvolution` | src/stun.rs:59-67 | Port and address masks are their own inverses, so masking twice returns the original |
| `Stun.CookieInRequest` | src/stun.rs:126-131 | Request bytes 4..8 are the cookie, so both IPv6 index forms pick cookie byte j mod 4 |
| `Stun.DecodeIPv6Address` | src/stun.rs:124-133 | The `for j in 0..16` loop, reading the cookie out of the request, gives exactly the 16 bytes at i+8 unmasked with cookie[j mod 4] |
| `Stun.ReadIPv4` | src/stun.rs:57-75 | The IPv4 branch decodes a value of length >= 8 with the literal cookie bytes, exactly as `IPv4Entry` says, or fails reading past the buffer |
| `Stun.ReadIPv6` | src/stun.rs:116-141 | The IPv6 branch decodes only length >= 20 and family 0x0002, exactly as `IPv6Entry` says, or fails reading past the buffer |
| `Stun.ReadAttribute` | src/stun.rs:51-77 | One loop iteration yields exactly `AttributeEntry` for the socket's family, and the next cursor i + 4 + length |
| `Stun.ScanAttributes` | src/stun.rs:49-78 | The `while i < size` loop from offset 20 returns exactly the specification scan `ScanFrom`, including its read-past-buffer failure |
| `Stun.ScanStep` | src/stun.rs:50-77 | Each attribute moves the cursor by exactly 4 + length, whatever its type; non-0x0020 attributes add nothing |
| `Stun.IPv4Decode` | src/stun.rs:56-67 | IPv4: port = BE16(buf[i+6..i+8]) XOR 0x2112, address byte k = buf[i+8+k] XOR cookie[k]; changing the family field changes nothing |
| `Stun.IPv6Decode` | src/stun.rs:115-133 | IPv6 with length >= 20: an entry iff family == 0x0002; byte j = buf[i+8+j] XOR cookie[j mod 4]; same port rule |
| `Stun.DecodeEncodedAttribute` | src/stun.rs:56-74 | A server-encoded XOR-MAPPED-ADDRESS decodes back to its address and port (round trip) |
| `Stun.ScanEncoded` | src/stun.rs:49-78 | A run of encoded attributes scans to exactly those addresses: one entry each, in order, several per response |
| `Stun.ResponseRoundTrip` | src/stun.rs:37-78 | A response of a 20-byte header plus encoded attributes yields exactly the encoded addresses for that candidate |
| `Stun.PaddedAttributeMisread` | src/stun.rs:77 | With RFC padding after a 5-byte attribute, the unpadded cursor decodes nothing, yet offset 32 holds a decodable attribute |
| `Stun.FailedCandidateSkipped` | src/stun.rs:43-46 | A candidate whose send or receive failed, or whose response is under 20 bytes, leaves the result as if it were absent |
| `Stun.AbortingCandidate` | src/stun.rs:26-28 | A setup failure, or a read past the buffer, ends the whole call with that error, whatever follows |
| `Stun.ResolveByFamily` | src/stun.rs:23-155 | The call succeeds iff no candidate fails hard; then the IPv4 list is exactly the IPv4 candidates' entries and the IPv6 list the IPv6 candidates', in order |
| `Stun.ResolvePublicAddress` | src/stun.rs:17-158 | The candidate loop returns exactly `PublicAddressesOf(lookup)`: lookup failure, first hard error, or both lists |
| `Wire.LittleEndian` | src/client.rs:92 | `to_le_bytes` after a cast gives exactly k bytes |
| `Wire.FromLittleEndian` | src/client.rs:121 | A decoded k-byte field is below 256^k |
| `Wire.DecodeEncode` | src/client.rs:121 | Decoding the k-byte little-endian encoding of n gives n mod 256^k |
| `Wire.EncodeDecode` | src/client.rs:92-97 | Encoding a decoded byte string gives back the same bytes |
| `Wire.Be16RoundTrip` | src/stun.rs:51-53 | The big-endian 16-bit read inverts the high/low byte split |
| `Wire.Received` | src/server.rs:25-26 | `recv_from` reports min(datagram length, buffer size) bytes |
| `Wire.ReceiveBuffer` | src/stun.rs:37-39 | A fresh zeroed buffer after a receive holds the datagram's bytes, then zeros |
| `Wire.RecvInto` | src/server.rs:25-26 | Receiving overwrites the first `size` bytes with the datagram and leaves the rest of the buffer unchanged |
| `Wire.ReceivedIntoZeros` | src/stun.rs:37-39 | On a zero-filled buffer, `RecvInto` leaves exactly `ReceiveBuffer` |
| `Client.ProbePacket` | src/client.rs:89-102 | A probe is exactly PACKET_SIZE bytes |
| `Client.ProbeLayout` | src/client.rs:91-102 | Bytes 0..4 decode to seq mod 2^32, bytes 4..12 to the timestamp mod 2^64, and byte i = i mod 256 for 12 <= i < PACKET_SIZE |
| `Client.BuildProbe` | src/client.rs:89-102 | Filling the zeroed array with the slice copies and the filler loop gives exactly `ProbePacket` |
| `Client.MeasureLatency` | src/client.rs:87-133 | Sends `ProbePacket(seq, timestamp)` and returns exactly `ProbeOutcome`: a send, receive, empty-reply or sequence-mismatch error, or the latency |
| `Client.AcceptedIff` | src/client.rs:111-127 | A reply is accepted iff it is non-empty and its first 4 bytes, zero-filled if short, decode to seq mod 2^32, whatever its source; an empty reply is `EmptyResponse` |
| `Client.EchoedProbe` | src/client.rs:120-127 | An unchanged echo of probe `s` is accepted iff s and seq agree mod 2^32, otherwise it is a sequence mismatch |
| `Client.SamplesAndFailures` | src/client.rs:43-57 | Every attempt adds a sample or counts as lost; every sample is the latency of an accepted attempt |
| `Client.RunProbes` | src/client.rs:40-57 | Attempt k sends the probe numbered k+1; the latencies are the accepted attempts' in order; received == \|latencies\| <= count and count - received is the number of failed attempts |
| `Client.MinOf` | src/client.rs:65 | The minimum is a sample and no sample is smaller |
| `Client.MaxOf` | src/client.rs:66 | The maximum is a sample and no sample is larger |
| `Client.Statistics` | src/client.rs:60-80 | Statistics exist iff some sample exists; min and max are samples bounding every sample |
| `Client.Init` | src/client.rs:16-83 | Returns exactly `ClientRun`: port-parse panic, socket setup error, failed PUNCH send, or the statistics over all attempts that the source logs |
| `Client.RunReport` | src/client.rs:60-75 | A completed run reports sent = count, lost = failed attempts, received + lost = count and min <= every sample <= max; no report iff every attempt failed |
| `Client.FaithfulEchoNoLoss` | src/client.rs:43-57 | Against a peer that echoes every probe, nothing is lost and the samples are the measured latencies in order |
| `Client.AllAccepted` | src/client.rs:43-49 | When every outcome is a success, there are no failures and every latency is sampled in order |
| `Server.PunchIsAscii` | src/server.rs:47 | The keepalive payload is the 5 ASCII bytes `PUNCH` |
| `Server.Step` | src/server.rs:25-55 | One iteration sends exactly `Reaction(event)`; after a datagram the reused buffer starts with the received bytes and keeps its stale tail, after an error it is unchanged |
| `Server.DatagramReaction` | src/server.rs:26-42 | For a datagram of `size` bytes from src: the first send is buf[0..size] to src; a second send of the same bytes goes to the peer iff src != peer; nothing else |
| `Server.ErrorReaction` | src/server.rs:44-54 | A TimedOut or WouldBlock receive sends exactly one `PUNCH` to the peer; any other error sends nothing |
| `Server.Serve` | src/server.rs:22-57 | The loop over any finite run of receive outcomes sends exactly `Trace(events)`; no receive or send failure ends it |
| `Server.TraceAppend` | src/server.rs:24-57 | The sends of consecutive runs of the loop concatenate |
| `Server.TraceSends` | src/server.rs:22-42 | Every send is `PUNCH` to the peer, or at most PACKET_SIZE bytes that prefix a received datagram, going to its sender or to the peer |
| `Server.KeepaliveCount` | src/server.rs:44-54 | With no datagrams, the loop sends one `PUNCH` to the peer per timeout and nothing else |
| `Server.Init` | src/server.rs:12-58 | Returns only with a setup error (unparsable port, bind, local_addr, set_read_timeout); otherwise it is still looping, having sent `Trace(events)` |

## Left out

- DNS resolution, socket creation, `send_to`, `recv_from` and read timeouts
  are operating-system I/O. They enter the model as outcome values
  (`Stun.Exchange`, `Client.Attempt`, `Server.RecvEvent`, `Wire.SocketSetup`).
- `Instant::now`, `elapsed` and `thread::sleep` are wall-clock operations.
  Timestamps and latencies are opaque natural numbers supplied per attempt,
  with latencies taken in milliseconds. The 5 s, 2 s and 1 s timeouts and the
  sleep cadence are not modelled.
- The floating-point average latency and loss percentage (src/client.rs:61-62,
  src/client.rs:74) are left out. Only the integer `count - received` is kept.
- Rendering addresses as text is left out. This covers the dotted-decimal
  `a.b.c.d:port` string and the RFC 5952 text form that `Ipv6Addr`'s
  `Display` produces. The result lists hold the decoded address bytes and
  port instead of strings.
- Logging (`debug!`, `warn!`, `error!`, `println!`) is left out. Apart
  from the `local_addr` call noted below it has no behavioural effect. This
  includes the only consequence of a reply from an unexpected
  source in `measure_latency`, so its target address is not a parameter.
- The command-line parsing and dispatch in src/main.rs are not part of this
  model.
- `PACKET_SIZE` and `DEFAULT_COUNT` come from a constant module that is not
  part of this model. They are parameters: the packet size (at least 12, or
  the slice copies would panic) and the number of attempts.
- Server.Serve: the responder loop never terminates. It is modelled over
  every finite prefix of receive outcomes, not as a non-terminating run.
- Server.Step: whether each `send_to` succeeds is not modelled, since a
  failure is only logged. The model records every send attempted.
- Wire.SocketSetup: `LocalAddrFailed` assumes debug logging is on, which is
  src/main.rs's default when `RUST_LOG` is unset. Every `local_addr()?` sits
  inside a `debug!` argument (src/stun.rs:30, src/client.rs:22,
  src/server.rs:16). With debug logging off, `local_addr` is never called
  and cannot abort.
- Client.Init: the returned `Stats` stand for the statistics the source logs
  with `debug!` (src/client.rs:68-79); the Rust function returns `Ok(())`
  (src/client.rs:82).
- Client.Init: the five start-up `PUNCH` sends are modelled only through
  their outcomes. A failed one aborts the run. The sent datagrams are not
  listed.
