# A verified model of frp-sh

frp-sh connects machines that sit behind NATs: it punches holes or falls back to relays, runs its
own reliable and encrypted stream over UDP, serves STUN, TURN, rooms and TCP relaying from one
process, and routes the IP packets of a small virtual network. This project models the state
machines at its centre in Dafny and proves what they guarantee over every run.

`dafny verify dfyconfig.toml` checks everything.

## How the model is built

A source file that updates state in place becomes a class with that state. Each of its methods is
proved equal to a function on the state as a value (`View()` before and after), and what the source
promises is proved about those functions: as invariants of every step and as theorems about every
run. A block that the source runs under a lock, or a handler of one event, is one step; time is a
parameter.

| part | files |
|---|---|
| the FRS2 stream | `Frames`, `StreamSpec`, `Endpoint` (class), `StreamSystem`, `StreamTheorems`, `StreamProgress` |
| sealed datagrams | `Bits128`, `Security` (class), `ReplayWindow`, `Channel` |
| packets of a space | `SpaceMeshSpec`, `SpaceMesh` (class), `SpaceMeshTheorems`, `SpaceTraffic` |
| the host's mesh loop and its data plane | `Cidr`, `Plane` (class), `MeshSpec`, `MeshHost` (class), `MeshTheorems`, `MeshEvents` |
| STUN and TURN | `Stun`, `StunAddress`, `StunIntegrity`, `Turn` (class), `TurnTheorems`, `TurnRequests` |
| access leases | `Leases` (class), `LeaseTheorems`, `LeaseLife` |
| rooms and relay rendezvous | `RoomSpec`, `RelaySpec`, `RoomServer` (class), `RoomSystem`, `RoomTheorems`, `RoomAnswers`, `RelayTheorems`, `RelayAdmission` |
| session lifecycle and supervisor | `Runtime` (class), `SupervisorSpec`, `Supervision` (class), `SupervisorTheorems`, `SupervisorRounds` |
| tunnel framing | `Tunnel` (class) |
| shared | `Bytes`, `Sets` |

## What is assumed

- Cryptography is symbolic: a tag, ciphertext or derived key is the term that made it, so it
  verifies or opens only under the same key, nonce and associated data. The digest of
  MESSAGE-INTEGRITY is any function to 20 bytes, and nothing more is assumed of it.
- Whoever lacks a key can drop, repeat, reorder, redirect, reflect and invent datagrams. An
  unencrypted stream has no defence against frames invented under its peer's address, so there the
  network may only drop, repeat and reorder what the two ends sent; from other addresses it delivers
  anything.
- What is drawn at random is fresh: the two challenges of a session differ and are not all zero; a
  lease's secret and session id, a connection's id and a room token are never drawn twice. A TURN
  relay address is not bound again while a live allocation or a datagram under way uses it, and
  nobody outside sends from an address in use.
- Times never run backwards where a theorem needs it (the supervisor and TURN); the lease and room
  theorems hold at arbitrary times.

## Where code and documentation differ

The model follows the code.

- A sealed stream cuts its frames at 1136 bytes; the comment in `poll_write` says 1184
  (`src/p2p/stream.rs:873`).
- The mesh loop polls every 100 ms and retries a failed relay after 1 s; its comments say 250 ms and
  10 s (`src/commands.rs:2801`, `src/commands.rs:2577`).
- A second TURN attempt for a guest takes the host's TURN client away even when the guest advertises
  no relay by then, because the pair in the condition is built first (`src/commands.rs:3144`).
- `flush_out` fails the stream once the next number is 2^32 - 1 even with nothing queued, so the
  progress theorem asks for one spare number.

## What turned out false, and when it does hold

- *An acknowledged FIN means the peer has everything.* Not on the 5-second timeout path
  (`StreamTheorems.GivingUpProvesNothing`); on the acknowledgement path it does
  (`StreamTheorems.CloseTheorem`, `StreamTheorems.ShutdownTheorem`).
- *An Allocate answer promises 600 seconds.* Exactly when the client held no live allocation, or one
  that had as long to go anyway (`TurnTheorems.AllocateAgain`): a repeated Allocate repeats the
  promise and leaves the expiry where it was, so the relay ends with the lifetime promised first
  (`TurnTheorems.PromiseTheorem`, with a run in `TurnTheorems.PromiseBroken`).
- *An address survives its encoding.* Exactly up to an IPv6 flow label and scope
  (`StunAddress.DecodeEncode`).
- *A signed message is accepted.* If an attribute of the digest's type comes earlier, exactly when
  the 20 bytes behind that attribute's header are the right digest of what precedes it
  (`StunIntegrity.EarlierDigestDecides`). Its stated length is not looked at, so a longer value that
  begins with the digest passes too (`StunIntegrity.LongerPasses`), and a shorter one is compared
  together with what follows it (`StunIntegrity.ComparedIs`).
- *A failed `issue` changes nothing.* Beyond the sweep, exactly when the device had no session: a
  clock overflow is noticed after its session was revoked (`LeaseTheorems.FailedIssue`).
- *A relay connection ends in the registration of the room that admitted it.* Expired rooms are
  forgotten without cancelling their token, so a connection that is being told to wait can end in
  the slot of a later room with the same id (`RelayTheorems.ReusedId`); this happens exactly when
  its registration lapsed that way (`RelayTheorems.ForeignRegistration`).
- *No guest has the host's virtual address.* Never unless the host put its own address into the pool
  (`RoomTheorems.AdmissionTheorem`). In a room with a pool a join is given it exactly when the
  device has it already, or is new and asks for no other free address when all the pool lists before
  it is assigned (`RoomTheorems.HostAddressGiven`). So newcomers do reach it
  (`RoomTheorems.PoolReachesHost`, with a run in `RoomTheorems.HostAddressRun`).
- *A supervisor that returns normally leaves phase Stopped.* Except when the session had failed and
  someone else had already asked the manager to stop (`SupervisorTheorems.ReturnTheorem`,
  `SupervisorTheorems.StopWhileFailed`).
- *A refused peer list leaves the links alone.* It drops the links of all entries before the bad one
  (`SpaceMeshTheorems.RefusedTheorem`). A link dropped and listed again under the same key is heard
  by the other end only if that knows no peer (`SpaceMeshTheorems.RestartedLinkIgnored`), so until
  that end drops its link too, nothing given to the new one arrives and it never gets ready
  (`SpaceMeshTheorems.RestartTheorem`).
- *Routes always fit `route_for`.* Nothing rejects an advertised private subnet with a prefix over
  32 (`MeshTheorems.RoutableGuests` gives the exact condition).
- *A guest barred from TURN gets another chance when its connection changes.* Only if the guest is in
  the snapshots before and after the change (`MeshTheorems.PollLiftsBar`).

## Model

| member | source | states |
|---|---|---|
| Frames.ParseEncode | src/p2p/stream.rs:58-96 | a frame parses back to itself exactly when its numbers fit 32 bits and its payload 16 |
| Frames.EncodeParse | src/p2p/stream.rs:74-96 | whatever parses re-encodes to the very bytes read, so parsing accepts nothing but encodings |
| Frames.FrameLayout | src/p2p/stream.rs:58-72 | every byte of a frame |
| Endpoint.Shared.constructor | src/p2p/stream.rs:165-198 | a new stream's whole state: both numbers start at 1 and nothing is queued, sent or received |
| Endpoint.Shared.PollWrite | src/p2p/stream.rs:853-889 | accepts the bytes there is room for, cut into chunks that fit one frame, or refuses after an error, a shutdown or at the cap |
| Endpoint.Shared.PollRead | src/p2p/stream.rs:829-849 | hands over the oldest buffered bytes; an empty read only at the end of the stream |
| Endpoint.Shared.PollShutdown | src/p2p/stream.rs:895-919 | closes writing and is done exactly when the FIN counts as acknowledged |
| Endpoint.Shared.SendFrame | src/p2p/stream.rs:922-938 | each transmission is sealed under a number of its own; what cannot be sealed is not sent |
| Endpoint.Shared.Flush | src/p2p/stream.rs:661-722 | numbers queued chunks and then the FIN while the window has room, and stops on error, before the handshake and at the last number |
| Endpoint.Shared.HandleAck | src/p2p/stream.rs:564-606 | a cumulative acknowledgement drops exactly the front below it and may acknowledge the FIN |
| Endpoint.Shared.HandleInOrder | src/p2p/stream.rs:608-624 | the expected frame extends the buffer or ends the stream, and is left unanswered when the buffer is full |
| Endpoint.Shared.HandleFrame | src/p2p/stream.rs:553-657 | everything a frame from the peer does, and the one acknowledgement it may call for |
| Endpoint.Shared.HandleIncoming | src/p2p/stream.rs:518-658 | foreign sources are ignored, hellos answered, and only what deciphers and parses reaches the state |
| Endpoint.Shared.Retransmit | src/p2p/stream.rs:783-806 | every unacknowledged frame is sent again, in order, each freshly sealed |
| Endpoint.Shared.Timer | src/p2p/stream.rs:725-826 | greets until ready, then gives up closing, loses the peer, retransmits or probes, in that order |
| StreamSystem.FlushKeeps | src/p2p/stream.rs:661-722 | flushing keeps the invariant of both ends and the network |
| StreamSystem.TakeKeeps | src/p2p/stream.rs:518-658 | taking any datagram the network may deliver keeps the invariant |
| StreamSystem.TimerKeeps | src/p2p/stream.rs:725-826 | a timer tick keeps the invariant |
| StreamSystem.WriteKeeps | src/p2p/stream.rs:853-889 | accepting bytes keeps the invariant |
| StreamSystem.StepKeeps | src/p2p/stream.rs:518-938 | every operation of either end keeps it |
| StreamTheorems.DeliveryTheorem | src/p2p/stream.rs:518-722 | in every run, plain or sealed, both ways: what was read with what is buffered is the concatenation of the payloads below the receiver's position, a prefix of what was accepted; the window is a contiguous run of at most 32 around that position; queue and buffer stay within their caps |
| StreamTheorems.OpenedOnceTheorem | src/p2p/stream.rs:525-547 | on a sealed stream the opened frames are a sub-collection of those the other end sealed |
| StreamTheorems.CloseTheorem | src/p2p/stream.rs:596-624 | the FIN has the highest number; a closed receiver has every accepted byte; a FIN acknowledged by a frame means the peer is closed |
| StreamTheorems.FinIsLast | src/p2p/stream.rs:702-712 | after the FIN no operation numbers or accepts anything more |
| StreamTheorems.GivingUpProvesNothing | src/p2p/stream.rs:741-756 | a run in which shutdown succeeds after the timeout although the peer received nothing |
| StreamTheorems.ReadTheorem | src/p2p/stream.rs:829-849 | over every run, what a read with room yields: nothing at all exactly when the FIN has come and every byte the other end accepted was read; else the next bytes, as many as fit or are there |
| StreamTheorems.WriteMeans | src/p2p/stream.rs:853-889 | when a write is refused, and how much of it is accepted otherwise |
| StreamTheorems.WriteQueues | src/p2p/stream.rs:870-886 | what is accepted is queued whole, in pieces that fit a frame |
| StreamTheorems.FlushMeans | src/p2p/stream.rs:661-722 | exactly when a flush sends what, under which number |
| StreamTheorems.FlushOutMeans | src/p2p/stream.rs:661-722 | a whole flush sends until it may not, on a plain stream exactly the frames unacknowledged since |
| StreamTheorems.FrameMeans | src/p2p/stream.rs:553-657 | everything a frame from the peer does, and exactly when it is answered |
| StreamTheorems.DropsBelow | src/p2p/stream.rs:566-578 | an acknowledgement leaves exactly the frames not below it |
| StreamTheorems.ShutdownTheorem | src/p2p/stream.rs:895-919 | over every run, shutdown reports success only if the FIN was given up on or the other end has it and every byte |
| StreamTheorems.TickMeans | src/p2p/stream.rs:741-826 | after how much silence a tick gives up closing, loses the peer, resends or probes, and what it changes |
| StreamTheorems.TickSays | src/p2p/stream.rs:725-826 | what a tick sends before a peer is known, and on a plain stream |
| StreamSystem.ForeignIgnored | src/p2p/stream.rs:525-529 | a datagram from another address than the one in use changes nothing, the replay state included, and draws no answer |
| StreamTheorems.PeerMoves | src/p2p/stream.rs:525-557 | exactly when the address in use moves: with something vouched for that deciphers to a frame |
| StreamTheorems.PeerTheorem | src/p2p/stream.rs:525-557 | over every run a stream for which nobody vouches for another address stays with the one it was made for |
| StreamProgress.DeliverData | src/p2p/stream.rs:608-634 | the next frame, when it arrives and there is room, is taken and acknowledged |
| StreamProgress.DeliverAck | src/p2p/stream.rs:564-606 | the acknowledgement, when it arrives, empties the window below it |
| StreamProgress.ReadAll | src/p2p/stream.rs:829-849 | reads of any positive sizes end with an empty buffer |
| StreamProgress.HopsSettle | src/p2p/stream.rs:553-657 | frames on one line and answers on the other, each in order and in whatever interleaving: after two arrivals a frame nothing is under way, the receiver stands where the frames led and the sender holds nothing below it |
| StreamProgress.TickTheorem | src/p2p/stream.rs:783-806 | after a tick, for every schedule by which exactly its own frames and their answers arrive in order, the window is empty, the receiver stands at the sender's next number, and what is undelivered has fallen by all that was unacknowledged |
| StreamProgress.CycleTheorem | src/p2p/stream.rs:661-806 | a read, flushes until the window is full or the queue empty, and one such tick deliver 32 items, or all there are |
| StreamProgress.ProgressTheorem | src/p2p/stream.rs:661-806 | after any n such cycles exactly 32 n items fewer are left, and once that is all of them every accepted byte has been read and the FIN completed; all of it is a run of the two streams |
| StreamProgress.PacesExist | src/p2p/stream.rs:725-783 | from every healthy state there are such cycles, as many as one likes: a tick is due without a timeout |
| Security.DatagramSecurity.SayHello | src/p2p/security.rs:34-40 | a hello carries the sender's challenge, an echo and a tag over both |
| Security.DatagramSecurity.SealNext | src/p2p/security.rs:41-62 | sealing needs a known peer, uses each number once and binds the message to both challenges |
| Security.DatagramSecurity.Take | src/p2p/security.rs:63-127 | the state and the outcome for every datagram, hello, envelope or neither |
| ReplayWindow.RefusedMeans | src/p2p/security.rs:94-103 | the bitmap test refuses a number exactly when it was accepted before or lies 128 or more behind |
| ReplayWindow.MarkTracks | src/p2p/security.rs:111-124 | marking a number keeps bit i set exactly when number high - i was accepted |
| ReplayWindow.ReceiveRefinesSet | src/p2p/security.rs:87-125 | an envelope is accepted exactly when it is authentic, new and less than 128 behind; otherwise nothing changes |
| ReplayWindow.NeverTwice | src/p2p/security.rs:63-127 | over any sequence of datagrams the bitmap is the set of accepted numbers, and none is accepted twice |
| Channel.HelloKeeps | src/p2p/security.rs:63-84 | no hello, replayed, reflected or forged, breaks the agreement of the two ends |
| Channel.ReceiveKeeps | src/p2p/security.rs:63-127 | whatever opens was sealed by the other end under that number and not opened before |
| Channel.Agreement | src/p2p/security.rs:63-84 | over every run a peer, once fixed, is the other end and stays |
| Channel.ChannelTheorem | src/p2p/security.rs:41-127 | an end is ready only after the other echoed its challenge, and what was opened is a sub-collection of what the other sealed |
| Channel.Recover | src/p2p/security.rs:63-84 | however many hellos were lost, one more zero-echo hello and its answers fix both peers |
| Channel.NeverReady | src/p2p/security.rs:68-80 | without distinct nonzero challenges an end never becomes ready |
| SpaceMesh.SpaceLinks.RefreshPeers | src/spaces/mesh.rs:29-62 | the new table of links and whether the list was accepted, or what a refusal left |
| SpaceMesh.SpaceLinks.SendHeartbeat | src/spaces/mesh.rs:63-81 | one frame per link: a ping once the peer is known, a hello before |
| SpaceMesh.SpaceLinks.ForwardPacket | src/spaces/mesh.rs:82-105 | own packets only, sealed once on every link that leads to the destination |
| SpaceMesh.SpaceLinks.ReceiveFrame | src/spaces/mesh.rs:106-156 | the reply and the packet a frame gives, and the link's new state |
| SpaceMeshTheorems.TakeKeeps | src/spaces/mesh.rs:106-156 | taking any frame keeps two devices' links paired and their packet counts honest |
| SpaceMeshTheorems.PacketTheorem | src/spaces/mesh.rs:82-156 | over every run, a device hands up at most as many copies of a packet as the peer was given to send, and only with that peer's source address |
| SpaceMeshTheorems.PacketArrives | src/spaces/mesh.rs:82-156 | between two ready ends a packet for the other device that arrives next is handed up |
| SpaceMeshTheorems.PingAnswered | src/spaces/mesh.rs:63-142 | a ping that arrives is answered, and its answer settles it |
| SpaceMeshTheorems.RefreshTheorem | src/spaces/mesh.rs:29-62 | which lists are accepted, and that a link keeps its replay state exactly when device, session and key are unchanged |
| SpaceMeshTheorems.RefusedTheorem | src/spaces/mesh.rs:29-62 | a refused list takes the links of all entries before the first bad one with it |
| SpaceMeshTheorems.RestartedLinkIgnored | src/p2p/security.rs:63-103 | exactly which hellos and sealed messages made under its key an end does not ignore: none of a challenge other than its known peer's |
| SpaceMeshTheorems.RestartStep | src/spaces/mesh.rs:29-156 | every step of either device, refreshes of the first included, keeps the two ends estranged |
| SpaceMeshTheorems.RestartTheorem | src/spaces/mesh.rs:29-62 | over every run after one device dropped or restarted its link, the other hands up nothing beyond what the old link was given, and the new link stays without a peer, seals nothing and hands up nothing |
| SpaceTraffic.AddressesMean | src/spaces/mesh.rs:188-203 | exactly the whole IPv4 packets of up to 1400 bytes have addresses, those of their header |
| SpaceTraffic.ToManyMeans | src/spaces/mesh.rs:89-91 | which destinations are for many |
| SpaceTraffic.ForwardMeans | src/spaces/mesh.rs:82-105 | on exactly which links a packet goes out, and sealed how |
| SpaceTraffic.HeartbeatMeans | src/spaces/mesh.rs:63-81 | what a heartbeat sends on each link |
| SpaceTraffic.FramesMean | src/spaces/mesh.rs:63-105 | one frame a link, each to its own |
| SpaceTraffic.HandedUpMeans | src/spaces/mesh.rs:106-156 | exactly which packets are handed up: from the link's own address and for this device or for many |
| SpaceTraffic.AnsweredMeans | src/spaces/mesh.rs:106-156 | exactly what is answered, and what it does to the link |
| Cidr.MasksAgree | src/p2p/tun.rs:577-613 | the three mask computations agree on prefixes up to 32 |
| Cidr.ContainsMeans | src/utils.rs:210-226 | an address is in a subnet exactly when it begins with the same bits |
| Cidr.OverlapTheorem | src/utils.rs:255-264 | two subnets overlap exactly when an address is in both, and then one contains the other |
| Plane.MeshPlane.RegisterLink | src/p2p/tun.rs:441-461 | the old link is closed and removed, the new one has a token of its own |
| Plane.MeshPlane.UnregisterLink | src/p2p/tun.rs:569-575 | all three tables forget the peer and its link is closed |
| Plane.MeshPlane.SourceAllowed | src/p2p/tun.rs:577-589 | exactly the IPv4 packets whose source lies in a subnet of the link |
| Plane.MeshPlane.RouteFor | src/p2p/tun.rs:591-618 | none exactly when no route contains the IPv4 destination, else the writer of a longest matching prefix |
| Plane.PacketLayout | src/p2p/tun.rs:577-600 | which packets are IPv4, and the bytes of their addresses |
| Plane.LongestMeans | src/p2p/tun.rs:591-618 | routes that match are no longer than the one taken |
| Plane.DeathTheorem | src/p2p/tun.rs:560-575 | after any registrations a replaced or removed link is never taken for current again |
| MeshHost.MeshLoop.OnPoll | src/commands.rs:2813-2882 | a snapshot forgets changed guests, replaces the list and queues whoever has no link |
| MeshHost.MeshLoop.OnRoomGone | src/commands.rs:2817-2826 | every established link is closed when the room is gone |
| MeshHost.MeshLoop.FindRoutes | src/commands.rs:2550-2570 | the guest's virtual address and its private subnets of 16 bits or more |
| MeshHost.MeshLoop.Establish | src/commands.rs:3322-3384 | a link of any kind takes the place of whatever the guest had |
| MeshHost.MeshLoop.OnPunch | src/commands.rs:2893-2970 | whom a punch comes from, and the direct link it makes unless there is one |
| MeshHost.MeshLoop.FallBack | src/commands.rs:2971-3022 | at most one guest is chosen for TURN, each due guest not open to TURN is dialled exactly once |
| MeshHost.MeshLoop.TryTurn | src/commands.rs:3023-3076 | a TURN attempt uses up the allocation; failing bars the guest and hands it back to TCP |
| MeshHost.MeshLoop.RetryTurn | src/commands.rs:3118-3183 | a waiting guest is offered TURN again, if it is not barred |
| MeshHost.MeshLoop.OnRelayResult | src/commands.rs:3184-3235 | a stale relay answer is ignored, a good one makes the link, a bad one frees the guest for another try |
| MeshHost.MeshLoop.OnDeath | src/commands.rs:3236-3269 | only the current link's death counts; the guest is queued again and barred from TURN if TURN died |
| MeshTheorems.StepKeeps | src/commands.rs:2808-3311 | every event keeps the tables consistent |
| MeshTheorems.ConsistencyTheorem | src/commands.rs:2772-3311 | after every event: no guest is both pending and established, every listed guest is one of the two, the plane has exactly the established links, exactly the direct ones have a peer address |
| MeshTheorems.BarredTheorem | src/commands.rs:2790-3134 | a barred guest gets no TURN attempt through any events until a poll shows its connection changed |
| MeshTheorems.LinksTheorem | src/commands.rs:2808-3311 | in every run the established links are those its events made and did not end, each of the kind of the attempt that made it |
| MeshTheorems.BarStep | src/commands.rs:3060-3260 | over every step, exactly who is barred from TURN afterwards |
| MeshTheorems.BarHistory | src/commands.rs:2808-3311 | in every run a guest is barred exactly when a TURN attempt of a pass failed for it, or a link that TURN had made died while in use, and no poll since showed it as changed |
| MeshTheorems.NoTurnAfterwards | src/commands.rs:2790-3260 | from that failure or death on it gets no TURN attempt until it is shown as changed |
| MeshTheorems.PollLiftsBar | src/commands.rs:2832-2851 | a poll lifts the bar exactly when it shows a guest of the poll before it as changed |
| MeshTheorems.FailedTurnDials | src/commands.rs:3070-3076 | after a failed TURN attempt the guest is dialled over TCP on the next pass |
| MeshTheorems.DialledMayRetry | src/commands.rs:2995-3001 | a guest dialled while TURN was open to it may be retried over TURN five seconds later |
| MeshTheorems.FailedRelayDialsAgain | src/commands.rs:3228-3233 | a failed relay is dialled again a second after the last time |
| MeshTheorems.SubnetRoutesMean | src/commands.rs:2562-2568 | exactly the advertised private subnets of at least 16 bits become routes |
| MeshTheorems.RoutableGuests | src/commands.rs:2550-2570 | the routes fit `route_for` exactly when no private subnet advertised is longer than 32 bits |
| MeshEvents.PollTheorem | src/commands.rs:2813-2882 | what a poll leaves of a guest: nothing if it changed, and otherwise how it waits, with what description |
| MeshEvents.PunchTheorem | src/commands.rs:2893-2970 | whom a punch comes from, and that exactly a waiting guest gets a direct link by it |
| MeshEvents.PassTheorem | src/commands.rs:2972-3022 | for every waiting guest, when something is tried for it, TURN or TCP, and what is noted |
| MeshEvents.AttemptTheorem | src/commands.rs:3023-3077 | a TURN attempt's link, or the bar and the way back to TCP |
| MeshEvents.RetryTheorem | src/commands.rs:3118-3183 | for whom and when TURN is tried again |
| MeshEvents.AnswerTheorem | src/commands.rs:3184-3236 | what a dialled relay's answer comes to |
| MeshEvents.DeathTheorem | src/commands.rs:3237-3311 | what the death of a link leaves |
| MeshEvents.BrokeTheorem | src/p2p/tun.rs:462-568 | what a link's failure does before its death is dealt with |
| MeshEvents.SeenMeans | src/commands.rs:2827-2831 | without `--expose-lan` a link leads to the guest's virtual address alone |
| MeshEvents.GoneTheorem | src/commands.rs:2817-2826 | no link is left open when the room is gone |
| Stun.TypeKeepsLowBits | src/p2p/stun.rs:51-64 | packing and unpacking keeps exactly 7 bits of the method and 2 of the class |
| Stun.KnownTypes | src/p2p/stun.rs:51-60 | the types of known methods and classes |
| Stun.MessageLayout | src/p2p/stun.rs:104-128 | every byte of a message's header |
| Stun.AttrLayout | src/p2p/stun.rs:111-120 | every byte of an attribute |
| Stun.Build | src/p2p/stun.rs:104-120 | the header, and every attribute padded to four bytes |
| Stun.Parse | src/p2p/stun.rs:156-185 | the attribute loop, with every overrun and short buffer |
| Stun.ParseMeans | src/p2p/stun.rs:61-103 | exactly which bytes parse, and as what message |
| Stun.TypeBits | src/p2p/stun.rs:51-62 | the bits of a type that are its method and its class |
| Stun.ParseEncodedAttrs | src/p2p/stun.rs:168-178 | encoded attributes are read back wherever they stand in a buffer |
| Stun.BuildParse | src/p2p/stun.rs:104-185 | a built message parses back, trailing bytes or not, exactly when method, class and padded body fit their fields |
| StunAddress.XorBit | src/p2p/stun.rs:188-217 | the exclusive or, bit by bit |
| StunAddress.AddressLayout | src/p2p/stun.rs:188-218 | every byte of an encoded address |
| StunAddress.Encode | src/p2p/stun.rs:188-217 | the encoding of both address families |
| StunAddress.Decode | src/p2p/stun.rs:220-252 | the decoding, with short values and unknown families |
| StunAddress.DecodeEncode | src/p2p/stun.rs:188-252 | an encoded address decodes under the same transaction id to itself, but for an IPv6 flow label and scope |
| StunAddress.EncodeDecode | src/p2p/stun.rs:220-252 | whatever decodes re-encodes to the bytes read, but for the reserved one |
| StunIntegrity.BuildWithIntegrity | src/p2p/stun.rs:130-153 | the message is the one built with the digest as its last attribute |
| StunIntegrity.IntegrityLayout | src/p2p/stun.rs:130-153 | the bytes a signed message ends with |
| StunIntegrity.MiOffset | src/p2p/turn_server.rs:449-464 | the search for the first digest attribute |
| StunIntegrity.MiMeans | src/p2p/turn_server.rs:449-464 | in any packet the search finds the first header of the digest's type that the walk comes to |
| StunIntegrity.VerifyIntegrity | src/p2p/turn_server.rs:428-446 | the check over the rewritten length |
| StunIntegrity.VerifyMeans | src/p2p/turn_server.rs:428-464 | whatever its length and whatever follows it, the first attribute of the digest's type decides: accepted exactly when the 20 bytes behind its header are there and are the digest of all that precedes it |
| StunIntegrity.ComparedIs | src/p2p/turn_server.rs:432-445 | those 20 bytes are the beginning of a value of 20 or more, or a shorter value with its padding and the attributes behind it |
| StunIntegrity.BuiltVerifies | src/p2p/stun.rs:130-153 | every message built with integrity is accepted under its key unless a given attribute has the digest's type |
| StunIntegrity.EarlierDigestDecides | src/p2p/turn_server.rs:428-464 | with an earlier attribute of that type, of any length, acceptance depends on the 20 bytes found there alone |
| StunIntegrity.LongerPasses | src/p2p/turn_server.rs:432-445 | a value that begins with the right digest and goes on is accepted, though it is not the digest |
| Turn.TurnServer.TakePacket | src/p2p/turn_server.rs:112-148 | the new allocations and the reply for every packet, authenticated when credentials are set |
| Turn.TurnServer.HandleAllocate | src/p2p/turn_server.rs:161-208 | expired allocations go, the limits are checked, an existing relay is repeated, a new one lives 600 seconds |
| Turn.TurnServer.HandlePermission | src/p2p/turn_server.rs:284-323 | only for another live client's relay, by a live client, up to 64 |
| Turn.TurnServer.HandleSend | src/p2p/turn_server.rs:325-354 | relayed only to a permitted relay of another live client |
| Turn.TurnServer.HandleRefresh | src/p2p/turn_server.rs:356-378 | a live allocation is extended, any other is removed and refused |
| Turn.TurnServer.RelayArrival | src/p2p/turn_server.rs:237-263 | handed to the client only while its allocation is live and the source permitted |
| TurnTheorems.StepKeeps | src/p2p/turn_server.rs:161-378 | every request, arrival, sweep and loss keeps limits, ownership and consent |
| TurnTheorems.LimitsTheorem | src/p2p/turn_server.rs:54-57 | in every run at most 256 allocations, 32 per address and 64 permissions each, each client with one relay of its own that expires within a lifetime |
| TurnTheorems.MutualConsentTheorem | src/p2p/turn_server.rs:237-354 | a payload passes between two clients only if both were live and the sender had permitted the receiver's relay when it was sent, and the receiver was live and had permitted the sender's when it arrived |
| TurnTheorems.ConsentSuffices | src/p2p/turn_server.rs:237-354 | among the allocated a payload goes through exactly under that condition |
| TurnTheorems.AllocateAgain | src/p2p/turn_server.rs:161-208 | an Allocated answer promises 600 seconds, and the expiry bears it out exactly when the client had no live allocation or one with as long to go; a repeated Allocate moves nothing |
| TurnTheorems.PromiseTheorem | src/p2p/turn_server.rs:161-378 | over every run after an Allocated answer in which the client asks for no more time, its relay lives exactly until the end of the lifetime promised first |
| TurnTheorems.PromiseBroken | src/p2p/turn_server.rs:173-179 | a run in which a client allocated twice is refused with 250 seconds of the second answer to go |
| TurnTheorems.RefreshTheorem | src/p2p/turn_server.rs:356-378 | a refresh in time keeps relay and permissions for exactly another lifetime, a late one loses them, and nobody else is touched |
| TurnRequests.AllocateRequest | src/p2p/turn_server.rs:141-208 | the bytes of an Allocate leave the sender live with the relay it is told, whenever it had one or there is room |
| TurnRequests.RefreshRequest | src/p2p/turn_server.rs:144-378 | the bytes of a Refresh move the expiry to 600 seconds from now, or are refused |
| TurnRequests.PermitRequest | src/p2p/turn_server.rs:142-323 | the bytes of a CreatePermission permit exactly the address they encode, or are refused, with which code |
| TurnRequests.SendRequest | src/p2p/turn_server.rs:143-354 | the bytes of a Send, request or indication, relay exactly their DATA to exactly the address they encode, when both consented |
| TurnRequests.Incomplete | src/p2p/turn_server.rs:284-335 | without an address or data nothing happens |
| TurnRequests.BindingRequest | src/p2p/turn_server.rs:127-147 | the bytes of a Binding are answered with the sender's address, authenticated or not |
| TurnRequests.NotServed | src/p2p/turn_server.rs:135-147 | other methods and classes are dropped |
| TurnRequests.Unreadable | src/p2p/turn_server.rs:123-125 | what does not parse is dropped |
| TurnRequests.SameHost | src/p2p/turn_server.rs:166-168 | which clients share the limit of a host |
| TurnRequests.Unauthenticated | src/p2p/turn_server.rs:127-134 | a challenge, and nothing else, for exactly the packets with a wrong digest or credentials |
| Leases.AccessLeases.IssueLease | src/spaces/leases.rs:84-122 | the registry and the admission, with capacity, replacement and clock overflow |
| Leases.AccessLeases.LookupToken | src/spaces/leases.rs:123-147 | the lease of a token, with every way it is refused |
| Leases.AccessLeases.RefreshLease | src/spaces/leases.rs:148-168 | the current session's expiry moves, no other's |
| Leases.AccessLeases.CloseLease | src/spaces/leases.rs:169-183 | only the current session closes |
| Leases.AccessLeases.RevokeSpace | src/spaces/leases.rs:187-197 | every member of the space goes, in whatever order |
| Leases.AccessLeases.Sweep | src/spaces/leases.rs:204-214 | everything expired goes, in whatever order |
| Leases.AccessLeases.DropAll | src/spaces/leases.rs:216-222 | every lease still held is cancelled |
| LeaseTheorems.StepKeeps | src/spaces/leases.rs:84-214 | every operation keeps the two tables inverse and every lease current or cancelled |
| LeaseTheorems.RegistryTheorem | src/spaces/leases.rs:84-214 | in every run the tables are mutually inverse and within capacity, a lease is cancelled exactly when it is not its member's entry, and a member has at most one that is not |
| LeaseTheorems.LookupTheorem | src/spaces/leases.rs:123-147 | a token opens exactly the uncancelled, unexpired lease of that space it was issued with |
| LeaseTheorems.RefreshTheorem | src/spaces/leases.rs:148-168 | a session refreshed in time can be looked up under its token for exactly another 600 seconds |
| LeaseTheorems.StrangersRejected | src/spaces/leases.rs:123-147 | no other text opens anything |
| LeaseTheorems.CancelledStays | src/spaces/leases.rs:198-203 | what is cancelled stays cancelled |
| LeaseTheorems.RevocationTheorem | src/spaces/leases.rs:184-197 | revoking a member or a space cancels all it was ever given |
| LeaseTheorems.SweepTheorem | src/spaces/leases.rs:204-214 | a sweep cancels exactly what has expired |
| LeaseTheorems.FailedIssue | src/spaces/leases.rs:84-112 | a failed issue leaves what the sweep left exactly when the device had no session then |
| LeaseTheorems.PeersTheorem | src/spaces/leases.rs:42-83 | two live sessions of a space see each other under the same key, which no other peer of theirs has |
| LeaseTheorems.PeersAreLive | src/spaces/leases.rs:58-66 | only live sessions of the space are listed, never the caller's own |
| LeaseLife.LifeTheorem | src/spaces/leases.rs:84-214 | over every step a live lease ends exactly when it is found expired, its device is admitted again, its own session closes it, or its member or space is revoked; and lives longer exactly when its own session refreshes it in time |
| LeaseLife.SessionAnswers | src/spaces/leases.rs:42-183 | what refreshing, closing and listing peers answer under the right and any other session |
| LeaseLife.NobodyAnswers | src/spaces/leases.rs:42-183 | and without a lease |
| LeaseLife.TokenAnswers | src/spaces/leases.rs:123-147 | what a live lease's token opens |
| LeaseLife.IssueAnswers | src/spaces/leases.rs:84-122 | exactly when admission is refused, and what it hands out |
| LeaseTheorems.HexMeans | src/spaces/leases.rs:96-98 | the text of a secret |
| RoomSpec.PickName | src/signaling/server.rs:417-428 | the suffix loop ends and gives the first free name |
| RoomSpec.TriedFew | src/signaling/server.rs:423-428 | by pigeonhole the loop cannot go through more names than are taken |
| RoomServer.SharedState.CountMembers | src/signaling/server.rs:242-244 | the sum over all rooms, in whatever order |
| RoomServer.SharedState.DrawId | src/signaling/server.rs:254-266 | the first of at most 51 drawn ids that is free, or the last |
| RoomServer.SharedState.CreateRoom | src/signaling/server.rs:228-315 | the new room, or the first limit or check that refuses it |
| RoomServer.SharedState.JoinRoom | src/signaling/server.rs:317-458 | the guest's entry, address and name, or the first check that refuses it |
| RoomServer.SharedState.GetRoom | src/signaling/server.rs:460-495 | the room, or none; one found expired is dropped, its token left uncancelled |
| RoomServer.SharedState.RefreshRoom | src/signaling/server.rs:497-518 | the same for the owner alone |
| RoomServer.SharedState.SecureRoom | src/signaling/server.rs:543-563 | the owner's room starts over: old token cancelled, guests and slots emptied |
| RoomServer.SharedState.DeleteRoom | src/signaling/server.rs:526-541 | the owner's room goes and its token is cancelled |
| RoomServer.SharedState.RelayArrive | src/signaling/server.rs:734-775 | the first locked section of a relay connection |
| RoomServer.SharedState.RelayPark | src/signaling/server.rs:786-828 | the second: pair after all, or take the slot |
| RoomServer.SharedState.RelayTimeout | src/signaling/server.rs:831-852 | the third: give up the slot if it is still one's own |
| RoomTheorems.AssignMeans | src/signaling/server.rs:375-409 | an address from the pool belongs to one device for good; without a pool it is the one requested |
| RoomTheorems.StepKeeps | src/signaling/server.rs:228-563 | every handler keeps the limits and each room's names and addresses apart |
| RoomTheorems.AdmissionTheorem | src/signaling/server.rs:228-458 | in every run the room, member and total limits hold; no two guests of a room share a name or a virtual address, nor does one have the host's unless it is in the pool |
| RoomTheorems.HostAddressGiven | src/signaling/server.rs:335-409 | for every room with a pool, exactly when a join is given the host's own address |
| RoomTheorems.PoolReachesHost | src/signaling/server.rs:375-409 | as soon as newcomers outnumber the free addresses a pool lists before the host's own, one of them has it |
| RoomTheorems.HostAddressRun | src/signaling/server.rs:228-458 | a run of the server in which a guest has the host's address |
| RoomAnswers.TotalCounts | src/signaling/server.rs:242-244 | the total is the number of people on the server, hosts and guests |
| RoomAnswers.CreateAnswers | src/signaling/server.rs:228-315 | exactly when a room is refused and why, and what stands otherwise |
| RoomAnswers.JoinAnswers | src/signaling/server.rs:317-458 | exactly when a guest is turned away and why, and what is noted otherwise |
| RoomAnswers.AssignAnswers | src/signaling/server.rs:375-409 | exactly which address a guest is given |
| RoomAnswers.OwnerAnswers | src/signaling/server.rs:460-563 | what looking up, renewing, securing and deleting answer and leave, to the owner and to anybody else |
| RoomTheorems.ReconnectAdmitted | src/signaling/server.rs:343-359 | limits never turn away a guest already in the room, and nobody else is touched |
| RoomTheorems.ReturnsToItsAddress | src/signaling/server.rs:386-388 | a device that returns to a room with a pool is given the address it had |
| RoomTheorems.NameMeans | src/signaling/server.rs:412-428 | the name asked for, or the one with the least free suffix, found within one try more than names are taken |
| RelayTheorems.StepKeeps | src/signaling/server.rs:228-853 | every handler, HTTP or relay, keeps slots, signals and pairings in order |
| RelayTheorems.RendezvousTheorem | src/signaling/server.rs:734-853 | in every interleaving a HOST and a GUEST never both wait under one room and key, a connection waits only in its own slot and joins at most one pairing, and a pairing is one HOST and one GUEST of a room and key, of one registration unless one lapsed |
| RelayTheorems.SignalTheorem | src/signaling/server.rs:617-622 | a waiting connection is in its slot exactly while it has not been signalled |
| RelayTheorems.BothToldMeet | src/signaling/server.rs:794-817 | two counterparts both told to wait meet all the same |
| RelayTheorems.TimeoutTheorem | src/signaling/server.rs:831-852 | after its timeout a handler empties its own slot and no other |
| RelayTheorems.SecureTheorem | src/signaling/server.rs:543-563 | securing empties the room, and a connection that had cloned its token before fails its second section whenever it comes |
| RelayTheorems.ForeignRegistration | src/signaling/server.rs:786-793 | a connection gets past the token check into another registration exactly when its own lapsed |
| RelayTheorems.ReusedId | src/signaling/server.rs:232-236 | a run in which that happens |
| RelayAdmission.AdmittedTheorem | src/signaling/server.rs:734-828 | in every run whoever was told to wait, waits or is served arrived before the room expired, as a HOST with the owner's token of the registration whose token it cloned, and to a secured room by selecting it |
| RelayAdmission.HostIsOwner | src/signaling/server.rs:734-828 | so the HOST of every pairing is the owner's |
| RelayAdmission.ArrivalOutcome | src/signaling/server.rs:734-775 | in every run, exactly who gets in, and what becomes of it |
| RelayAdmission.ParkOutcome | src/signaling/server.rs:786-828 | exactly when a handler told to wait is paired or takes its slot |
| RelayAdmission.RoomEnds | src/signaling/server.rs:228-563 | a registration ends exactly when the room is found expired, or its owner deletes or secures it |
| Runtime.SessionManager.BeginSession | src/runtime/mod.rs:94-116 | refused while a lease is out or generations are exhausted; else a new generation and token |
| Runtime.SessionManager.Publish | src/runtime/mod.rs:127-137 | a cancelled or replaced lease publishes nothing |
| Runtime.SessionManager.Stop | src/runtime/mod.rs:118-124 | the current token is cancelled, the lease stays out |
| Runtime.SessionManager.Release | src/runtime/mod.rs:139-152 | the lease is in; the phase becomes Stopped unless it is terminal |
| SupervisorTheorems.BeginTheorem | src/runtime/mod.rs:94-152 | at most one lease can publish: a new one is granted only when none is out, and from then on an older one changes nothing |
| Supervision.Loop.OneRound | src/agent/mod.rs:85-174 | one round of the loop, in all its branches |
| Supervision.Supervise | src/agent/mod.rs:65-182 | the whole supervisor, from its first lease to its return |
| SupervisorTheorems.IterateKeeps | src/agent/mod.rs:85-174 | every round keeps one worker, one lease and the pace of restarts |
| SupervisorTheorems.SupervisorTheorem | src/agent/mod.rs:77-182 | in every run at most one worker, and only while an enabled job is current and the one lease held; generations strictly increase; begin is refused only when they are exhausted; restarts are 2 to 30 seconds away |
| SupervisorTheorems.LostKeeps | src/agent/mod.rs:139-148 | a lost worker's retry is 2 to 30 seconds away |
| SupervisorTheorems.RestartsApart | src/agent/mod.rs:139-154 | a worker that replaces one of the same job starts at least two seconds after it |
| SupervisorTheorems.ReturnTheorem | src/agent/mod.rs:175-181 | a normal return leaves no worker and no lease, and phase Stopped except in exactly one case |
| SupervisorTheorems.StoppedTheorem | src/agent/mod.rs:77-182 | unless someone else asked the manager to stop, a normal return leaves phase Stopped |
| SupervisorTheorems.StopWhileFailed | src/agent/mod.rs:97-107 | a run that returns with phase Error left behind |
| SupervisorRounds.Beginning | src/agent/mod.rs:65-88 | where a supervisor begins |
| SupervisorRounds.RoundTheorem | src/agent/mod.rs:89-174 | for every round: which worker runs afterwards, when the next may start, the generations used and what the manager shows |
| SupervisorRounds.EveryRound | src/agent/mod.rs:85-174 | so in every round of every run |
| SupervisorRounds.WorkerReturns | src/agent/mod.rs:139-170 | an enabled job that can be spawned has a worker again within half a minute |
| SupervisorRounds.RefusalEnds | src/agent/mod.rs:85-170 | when the generations are exhausted the supervisor ends there and then |
| SupervisorRounds.EndTheorem | src/agent/mod.rs:175-181 | a normal end leaves nothing to start at boot and the token cancelled |
| SupervisorRounds.DelayMeans | src/agent/mod.rs:145-147 | the pause doubles with every failure, up to 30 seconds |
| SupervisorRounds.ManagerTheorem | src/runtime/mod.rs:94-152 | over every sequence of calls the manager is what its history says: leases granted, which may speak, the phase last said |
| Tunnel.WriteFrame | src/tunnel.rs:26-33 | the length and the payload |
| Tunnel.FrameLayout | src/tunnel.rs:26-33 | every byte of a frame |
| Tunnel.Accumulator.TakeFrame | src/tunnel.rs:37-58 | one frame, too little, or too large a length |
| Tunnel.Accumulator.OnRead | src/p2p/tun.rs:490-511 | every frame a read completes, in order, and what is left over |
| Tunnel.Accumulator.WaitEnd | src/tunnel.rs:232-249 | data frames are discarded up to the end frame, an error or the end of the transport |
| Tunnel.ChunkIndependence | src/tunnel.rs:37-58 | whatever the bytes and however split, the same frames come out and reading breaks off or not |
| Tunnel.FramingTheorem | src/tunnel.rs:26-58 | exactly the payloads complete by then have been taken, in order, and what is left over is a proper beginning of the next |
| Tunnel.OversizedBreaks | src/tunnel.rs:42-47 | a payload over the limit ends the session |
| Tunnel.WaitEndTheorem | src/tunnel.rs:232-249 | waiting for the end frame discards the data frames before it and stops right behind it |
| Tunnel.EmptyReadEnds | src/tunnel.rs:232-249 | a transport that ends before the end frame ends the session |

## Left out

- Wakers, statistics and round-trip times, `sent_at` and `ping_sent`, logging: they do not feed back into the protocol.
- Sockets, tasks and timers: a locked block or a handler is one step, and time is an input. Races inside one handler of the mesh loop or of `Allocate` (which awaits between two locks, in a loop that serves one request at a time) are not modelled.
- The byte layout of hellos and envelopes: a datagram is a term. That the three kinds cannot be confused is used where an unencrypted stream sees one.
- `UdpMesh` with its peer and alias tables, hole punching itself, public-address probing and the guest's side of a mesh session.
- Capacity of relay slots over runs: the bound of 128 is checked in one section and the insertion happens in another, so it is modelled but no bound is claimed.
- The tunnel's `CNEW` marker and its alignment when the host closes first: leftover bytes stay with the pump.
- Text parsing of addresses and CIDRs: subnets and virtual addresses enter parsed; `requested_ip` comes with whether it parses as a private IPv4 address.
- Non-ASCII text: lengths, control characters and white space of names and ids are those of ASCII.
- Room metadata that no decision depends on and what `refresh_room` and `set_services` write into it, HTTP authentication and the encrypted relay preface before the hello.
- TURN permission lifetimes, channels and FINGERPRINT generation, which the server does not implement; building the responses and MD5 key derivation.
- The publication of status snapshots, spawning and killing processes as such, reading the job file and service installation.
- Terminal UI, dashboard, i18n, command line, profiles, invitations, helper IPC, OS routes, HTTP clients, SQLite workers, the domain proxy.
- Plane.MeshPlane.RouteFor: requires prefixes of at most 32, which the source's shift needs and nothing checks; ties between equally long prefixes are left to the order of the table.
- Plane.MeshPlane.SourceAllowed: nothing is claimed about two links that advertise the same subnet.
- TurnTheorems.MutualConsentTheorem: a source address that no allocation holds any more can be used by anyone outside, so the theorem about both clients is for datagrams a relay socket sent.
- SpaceMeshTheorems.PacketTheorem: spans one session of the link on each side; SpaceMeshTheorems.RestartTheorem is about what follows when one side replaces it.
- SupervisorTheorems.SupervisorTheorem: nobody else begins sessions on the same manager; others may ask it to stop.
