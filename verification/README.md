# es, verified

A Dafny model of the protocols in the Go module `github.com/ooclab/es`, with proofs of what they keep
over whole runs:

- the reliable-message protocol over UDP (`proto/udp`): fragmentation, reassembly, the status summary,
  windowed retransmission, ten concurrent transfer slots, acknowledgement;
- messages framed on a byte stream, plain and through a stream cipher (`conn.go`);
- tunnel identifiers and the two-sided opening of a tunnel (`tunnel`, `link`);
- request and response correlation over one link (`session`).

`dafny verify dfyconfig.toml` checks everything.

## How the model is laid out

| file | what it holds |
|---|---|
| `Bytes.dfy`, `Segment.dfy` | machine integers, big-endian bytes, the 14-byte segment header |
| `Sending.dfy` | `msgSending`: the length prefix, the numbered bodies |
| `Recving.dfy`, `Reassembly.dfy` | `msgRecving` as a class, the function it implements, and what that function keeps |
| `Status.dfy`, `Rounds.dfy`, `Progress.dfy` | the answer to a receive query, the pass it leads to, and the progress a round makes |
| `Conn.dfy`, `SendPath.dfy`, `Script.dfy` | the handlers and `SendMsg` as methods of a class, proved to take the steps of `Endpoint.dfy`; what happens to a call from outside, and what it must make of that |
| `Endpoint.dfy`, `SenderInvariant.dfy` | both halves of a connection as steps over values |
| `LossyNetwork.dfy` | those steps over a network that loses, duplicates and reorders |
| `FifoNetwork.dfy` | the same steps over a network that only delays, and the reduction of every run to slots on their own |
| `FifoOrder.dfy`, `FifoRounds.dfy`, `FifoAck.dfy` | what a slot keeps that is used again and again: order, rounds, acknowledgements |
| `FifoStuck.dfy`, `LateReply.dfy` | the reply to a request that was given up: when the sender's handler gets stuck on it, and what never happens after that |
| `Leftover.dfy`, `Corruption.dfy`, `StaleAck.dfy` | when a failed call spoils the next one on its slot, exactly |
| `FifoRuns.dfy`, `Success.dfy` | runs built step by step, for what can happen; runs in which a message comes through |
| `Framing.dfy` | `BaseConn`, `SafeConn`, stream ciphers |
| `IdPool.dfy`, `Tunnels.dfy` | identifiers, tunnels |
| `Sessions.dfy`, `SessionRuns.dfy`, `SessionJam.dfy` | sessions, what their callers are told, and when the ends jam |

Code that updates fields or buffers is a class or a method (`MsgRecving`, `Conn`, `BaseConn`, `SafeConn`,
`Stream`, `Pool`, `Manager`, `Session`), proved equal to a function of its old state; the theorems are
about those functions. Concurrency is a step system: one step for each access to shared state and each
datagram, in any interleaving, with timeouts that may fire at any moment. One direction of a UDP
connection is modelled, and the other is idle: it draws no request IDs and its handlers never block.

Assumptions that the code itself relies on and that the contracts spell out: messages have 1 to
16 MiB bytes, fewer than 2^32 queries are made on a connection, both ends use the window of 64.

## Where the code does less than one would expect

- `Send` in `conn.go` converts the length to 16 bits before it compares it with the limit, so
  `ErrMaxLengthLimit` is never returned and a longer message is framed wrongly. `Framing.FramesAreRecovered`
  and `Framing.SafeConnIsAQueue` are equivalences: messages are recovered if and only if none that is
  received exceeds 65535 bytes.
- A call that gives up in the middle of a query leaves its request ID pending. When the reply comes after
  all, `handleRep` sends on a channel that nothing will receive from: it never returns, keeps
  `requestMutex`, and the receive loop that called it handles no further datagram. `LateReply.SticksIff` and
  `LateReply.QueriesAreAnsweredIff` say exactly when that happens and when a query can still be answered;
  `LateReply.StuckForGood` and `LateReply.LongMessagesFail` say what is lost, and `LateReply.LateReplySticks`
  is a run that gets there.
- The receiver keeps the partial `msgRecving` of a transfer that the sender gives up in the middle, and
  appends the next message on that slot to it, even on a network that neither loses nor reorders.
  `Corruption.AbandonedTransferIff` says, over everything that can happen next, exactly when the slot's
  deliveries stay in order, each message once: the next message is shorter, or compatible, or the mixture
  would take an answer and none gets through any more. `Corruption.AbandonedTransferCorrupts` is a run in
  which the first thing delivered is neither message. The order and rounds of a slot are therefore proved
  while no call on that slot failed part-way (`FifoOrder.Clean`); what calls on other slots do does not
  matter.
- The acknowledgement names a slot and not a message. `StaleAck.AcknowledgementIsSoundIff` says, for every
  state in which a slot is free and no call on it has failed part-way, that nil will mean delivered for
  all calls to come if and only if nothing written whole on the slot still gets through to the sender, as
  a segment to be acknowledged or as its acknowledgement. `StaleAck.AcknowledgementOfFailedCall` is a run
  in which it does and a call is misled.
- Two ends of a link can jam each other: both outbound paths full, both receive loops with a request in hand
  whose response has no room. `Sessions.StuckIffJammed` says that nothing else blocks a waiting caller,
  `Sessions.WaitingCallersAdvance` that it takes as many callers as fit both ways, and
  `SessionJam.CallersCanJam` that as many do, whatever the room.
- Two ends of a link with the same `IsServerSide` flag (as `NewLink(nil)` gives on both ends) can meet
  "tunnel ID existed"; with opposite flags they cannot: `Tunnels.ClashesIffSameSides`.
- `newID` never returns when no ID of its parity is free; that is the precondition of `IdPool.Pool.NewID`.
- `Save` of a message without payload sets `completed` but returns nil, since `bytes.Buffer.Bytes` of an
  unused buffer is nil; `SendMsg` refuses such a message.

## Model

| member | source | states |
|---|---|---|
| Segments.Encode | proto/udp/segment.go:75-83 | the six fields are laid out in place in the 14-byte header |
| Segments.NewSegment | proto/udp/segment.go:99-110 | a body over 1386 bytes is refused; otherwise the header describes the body |
| Segments.LoadSegment | proto/udp/segment.go:153-164 | header and body are copied out of the receive buffer, and together are the datagram |
| Segments.WireRoundTrip | proto/udp/segment.go:50-110 | a loaded datagram has all the header fields and the body it was written with, and fits the 1400-byte receive buffer |
| Bytes.BigEndian | proto/udp/segment.go:75-83 | the most significant byte of a number comes first on the wire |
| Sending.Wire | proto/udp/udp.go:179-192 | the prefix read back is the length of prefix and message together, the message follows |
| Sending.CountIsExact | proto/udp/udp.go:194-201 | up to 16 MiB the 16-bit segment count does not wrap and is the number of bodies needed |
| Sending.MsgSending.IterBuffered | proto/udp/udp.go:203-220 | yields segmentCount segments, the i-th numbered i and carrying the i-th 1386 bytes |
| Sending.MsgSending.GetSegmentByOrderID | proto/udp/udp.go:222-231 | is the segment that the iteration yields at that position |
| Sending.FragmentationIsLossless | proto/udp/udp.go:179-231 | the bodies concatenate to prefix and message; each is nonempty and at most 1386 bytes; the first holds the prefix |
| Recving.MsgRecving.Save | proto/udp/udp.go:103-162 | the in-place save does what the value-level save does, field by field, and returns the same message |
| Recving.MsgRecving.DrainSaved | proto/udp/udp.go:130-138 | the loop moves buffer, nextID and saved past every contiguous saved segment |
| Recving.MsgRecving.AppendSaved | proto/udp/udp.go:146-156 | what is still saved is appended in ascending order of ID |
| Recving.MsgRecving.GetMissing | proto/udp/udp.go:85-100 | the largest ID and the unsaved IDs from nextID up to it; nothing once completed |
| Recving.MsgRecving.IsCompleted | proto/udp/udp.go:164-169 | reads the flag |
| Reassembly.SaveInserts | proto/udp/udp.go:103-162 | save refines insertion into a set of accepted IDs (`Tracks`) and returns the message exactly at the last missing one |
| Reassembly.BytesDecideCompleteness | proto/udp/udp.go:143-145 | the bytes counted reach the needed length exactly when every ID is accepted |
| Reassembly.DrainTracks | proto/udp/udp.go:130-138 | draining stops at the first ID not saved, and the buffer is the payload up to there |
| Reassembly.FullIsContiguous | proto/udp/udp.go:143-158 | when complete, nextID is the segment count, nothing is saved, the sorted branch appends nothing, the buffer is the message |
| Reassembly.AnyOrderReassembles | proto/udp/udp.go:103-162 | any order with any duplicates: the message comes out once, at the save that completes the set |
| Reassembly.SummaryIsExact | proto/udp/udp.go:85-100 | largest ID and missing list describe exactly the unaccepted IDs, ascending and without repeats, all below the count |
| Status.ReplyBody | proto/udp/udp.go:408-451 | the reply body is the request's ID and the receiver's status, truncated to the window |
| Status.ReadStatus | proto/udp/udp.go:685-700 | the reply is decoded into status, largest ID and missing IDs, or refused as too short |
| Status.StatusRoundTrip | proto/udp/udp.go:422-442 | what is decoded is the receiver's status, and the reply always fits one segment |
| Rounds.SendFull | proto/udp/udp.go:605-613 | writes the first 64 segments and says whether the pass was cut short |
| Rounds.ResendMissing | proto/udp/udp.go:579-590 | writes missing segments until the window is used up or an ID is too large |
| Rounds.ResendRest | proto/udp/udp.go:592-599 | writes segments past the largest ID until the window is used up |
| Rounds.Resend | proto/udp/udp.go:576-601 | both loops together are the resend pass for the status |
| Progress.TruncationIsHarmless | proto/udp/udp.go:425-442 | the pass after a truncated list is the first 64 of all outstanding IDs |
| Progress.RoundSendsWhatIsMissing | proto/udp/udp.go:563-613 | an answered round, also after a not-exist status, sends exactly min(64, unaccepted) distinct unaccepted segments, and never meets an ID that is too large |
| Progress.LosslessRoundsFinish | proto/udp/udp.go:563-613 | n segments are complete after exactly ceil(n/64) lossless rounds, and `Save` returns the message at the very last segment only |
| Endpoint.FreeSlot | proto/udp/udp.go:541-548 | the search yields the first free slot |
| Conns.Conn.constructor | proto/udp/udp.go:271-289 | ten empty slots each way, nothing pending |
| Conns.Conn.Receiving | proto/udp/udp.go:305-323 | a missing or completed receiver is replaced, the others stay |
| Conns.Conn.HandleTrans | proto/udp/udp.go:486-510 | takes the receiving step of its slot, hands the completed message to `inbound`, acknowledges it; a slot past the last is an error |
| Conns.Conn.HandleQuery | proto/udp/udp.go:409-451 | answers with the status of the slot in one segment and changes nothing |
| Conns.Conn.HandleReq | proto/udp/udp.go:392-406 | a request too short or of unknown type is an error, the latter answered; a query is answered with the slot's status |
| Conns.Conn.HandleRep | proto/udp/udp.go:453-466 | the body goes to the pending request's channel, once, and other requests stay; if nothing will receive from the channel it never returns, and neither the lock nor the receive loop is free again |
| Conns.Conn.LateReply | proto/udp/udp.go:453-466 | the reply to a query that was given up takes the endpoint's step: everything is as it was, but the handler is stuck |
| Conns.Conn.HandleReceived | proto/udp/udp.go:468-479 | wakes the call registered for the slot, once |
| Conns.Conn.TakeSlot | proto/udp/udp.go:537-549 | takes the first free slot or none |
| Conns.Conn.GenRequestID | proto/udp/udp.go:758-773 | the next ID that is not pending, wrapping at 2^32, becomes pending |
| Conns.Conn.TakeReply | proto/udp/udp.go:684-700 | returns the status that the reply's body decodes to, or an error for a body too short, and the call takes exactly that answer in the step system |
| Scripts.OnlyTwoIsCompleted | proto/udp/udp.go:685-688 | a reply tells the call that it is done if and only if its first byte is 2 |
| Conns.Conn.SendPass | proto/udp/udp.go:573-613 | the segments written after a status are those of its pass, none when completed |
| Conns.Conn.AwaitReply | proto/udp/udp.go:676-718 | the query ends with the first happening that is neither an acknowledgement nor a second passing, and with what that happening means, or after 999 seconds; it is written once at first and once after each second; an acknowledgement closes the call's channel and the query goes on |
| Conns.Conn.QueryMsgReceive | proto/udp/udp.go:669-719 | draws an ID, queries in that way, and leaves the call at the pass its decoded reply asks for, or returned |
| Conns.Conn.AwaitReceived | proto/udp/udp.go:615-623 | an acknowledgement that came before ends the wait at once; otherwise the next happening does: acknowledged, timed out, or down, each for its own happening |
| Conns.Conn.WritePass | proto/udp/udp.go:579-623 | a pass writes its segments and then goes on to query, waits, or returns the error, as its status asks; it reports a failing write if and only if it is over the whole message and the write is one of its own |
| Conns.Conn.SendRounds | proto/udp/udp.go:563-632 | the round loop, with its jumps and its limit of 999, is a path of endpoint steps that ends with the call returned; the path was told what the script says, and an error is the one that the last happening calls for |
| Conns.Conn.SendMsg | proto/udp/udp.go:530-632 | all a call does is a run of the endpoint's steps: same datagrams, same registrations, returned nil exactly when the step system says so, and only its own call moves; the replies, acknowledgements and ended waits of that run are those of the script it has used up, in order; nil only after an acknowledgement or a reply with code 2; each error with its reason, a timeout only after 998 queries, and a wait that ends before that never the last |
| Scripts.NewsHasCause | proto/udp/udp.go:468-479 | a run of the steps is told nothing, no answer, acknowledgement or end of a wait, that did not happen |
| SendPath.NilHasReason | proto/udp/udp.go:573-619 | over every run of the endpoint's steps: a call returns nil only after its acknowledgement or the answer "completed" |
| Conns.Conn.Write | proto/udp/udp.go:642-667 | the pieces handed to `SendMsg` are the input in order up to the first that fails, each of an accepted size, and the count reported for several pieces is 0 |
| SendPath.StartPath | proto/udp/udp.go:538-560 | taking a slot and registering are two steps of a new call |
| SendPath.PassPath | proto/udp/udp.go:604-613 | writing a pass is one step per segment, carrying exactly the written datagrams |
| SenderInvariant.SendStepKeeps | proto/udp/udp.go:530-632 | every step keeps: active calls and occupied slots correspond one to one, each request ID belongs to the call that drew it |
| SenderInvariant.AnswerKeeps | proto/udp/udp.go:453-479 | so does every reply and acknowledgement, stale ones included |
| LossyNetwork.InvIsKept | proto/udp/udp.go:486-632 | each step of either end or of the network keeps the invariant |
| LossyNetwork.FirstTransferIsIntact | proto/udp/udp.go:486-510 | whatever is lost, duplicated or reordered, all that comes out of a slot that one call has used is the message sent; the sender never meets an ID that is too large |
| LossyNetwork.AcknowledgementIsSound | proto/udp/udp.go:557-620 | `SendMsg` returns nil only if that message has been delivered, for a call with none before it on its slot and any others interleaved |
| Success.ArrivalsAreAnswered | proto/udp/udp.go:442-451 | an arrival that delivers puts the slot's acknowledgement on its way, and a query the reply with its ID and the slot's status |
| Success.SucceedsByAcknowledgement | proto/udp/udp.go:502-507 | for every message there is a run from the start in which it is delivered and its call, woken by the acknowledgement, returns nil |
| Success.SucceedsByReply | proto/udp/udp.go:569-575 | and one in which it is delivered, the acknowledgement never comes, and the call returns nil for the reply to its query |
| Success.SucceedsInOrder | proto/udp/udp.go:530-632 | the first of these over the network that only delays: one message goes in, the same one comes out, once |
| Success.RunIsCovered | proto/udp/udp.go:486-632 | every run over the network that only delays is one over the network that loses, duplicates and reorders |
| LossyNetwork.SlotsAreExclusive | proto/udp/udp.go:537-555 | active calls hold distinct slots below 10 |
| LossyNetwork.SlotsAreIsolated | proto/udp/udp.go:305-323 | an event on one slot leaves receiving state, sending state and deliveries of all others unchanged |
| FifoNetwork.InvIsKept | proto/udp/udp.go:486-632 | each step keeps, whatever calls fail: each slot holds and has delivered what its arrived segments make of it, and a reply under way tells what the slot holds when all that was written has arrived |
| FifoNetwork.StepIsSlotStep | proto/udp/udp.go:486-719 | the reduction: for every slot, each step of the whole system is a step of that slot alone, in which segments, queries and replies take no time |
| FifoOrder.SlotStaysInOrder | proto/udp/udp.go:530-632 | each such step keeps: the history of the slot is gap-free and in order, whole messages one after another |
| FifoOrder.DeliversOnceInOrder | proto/udp/udp.go:530-632 | a slot used any number of times delivers the written messages once each, in order, byte for byte; all of them once nothing is under way; calls on other slots may fail in any way |
| FifoOrder.NoDuplicateSend | proto/udp/udp.go:563-613 | no segment is written twice on the slot, whatever timeouts fire and however late replies come |
| FifoRounds.RoundsAreFull | proto/udp/udp.go:563-613 | over the steps of `SendMsg`, receiver and queues: n segments take at most ceil(n/64) rounds in every run, each the next 64 or all that are left, and exactly that many once everything is written |
| FifoAck.AcknowledgementIsSoundOnReuse | proto/udp/udp.go:468-479 | on reused slots, nil means that the messages of all calls on the slot up to this one have been delivered, while no call on it has failed after writing everything |
| FifoAck.LastSegmentSettles | proto/udp/udp.go:502-507 | the call whose last segment arrives still holds the slot, so the acknowledgement is for it |
| FifoAck.NoneGaveUpSettles | proto/udp/udp.go:543-545 | a slot is free of anything under way when it is freed, if no call on it has failed after writing everything |
| FifoStuck.HeldIsKept | proto/udp/udp.go:453-466 | every step keeps: a query or reply of a given-up request, with no news ahead of it, stays ahead of all news until the handler is stuck on it |
| LateReply.SticksIff | proto/udp/udp.go:453-466 | for every reachable state: when all that is under way arrives, the handler gets stuck if and only if it is, or a query or reply of a given-up request is under way |
| LateReply.QueriesAreAnsweredIff | proto/udp/udp.go:669-719 | for every reachable state with a call at QUERY: some continuation answers it if and only if the handler is not stuck and nothing under way will make it stick |
| LateReply.LongMessagesFail | proto/udp/udp.go:563-613 | otherwise no message of more than 64 segments that is begun later ever returns nil, and at most 64 of its segments are written |
| LateReply.StuckForGood | proto/udp/udp.go:456-465 | in every continuation of a stuck state: it stays stuck, nothing leaves the sender's queue, no call is acknowledged, no query answered, and no call begun since returns nil |
| LateReply.StuckHasCause | proto/udp/udp.go:677-717 | in every run that is stuck there is the step at which a reply met a pending request whose call had returned an error |
| LateReply.LateReplySticks | proto/udp/udp.go:677-717 | a run from the start that gets stuck: a call times out, queries, fails, and the reply comes |
| StaleAck.AcknowledgementIsSoundIff | proto/udp/udp.go:468-479 | for every reachable state with the slot free and no call on it failed part-way: nil means delivered for all calls to come if and only if nothing written whole on it still gets through, that is, is under way ahead of every query and reply of a given-up request |
| StaleAck.ThroughMisleads | proto/udp/udp.go:557-619 | otherwise the next call on the slot can return nil undelivered: the continuation is built |
| StaleAck.AcknowledgementOfFailedCall | proto/udp/udp.go:468-479 | a run from the start in which a call times out, cannot write its query and fails, and the next one is misled |
| Leftover.TakesNext | proto/udp/udp.go:103-162 | the receiver of an abandoned message appends the next message's segments, and hands out the mixture when the first message's length is reached |
| Leftover.RefillsWrite | proto/udp/udp.go:563-613 | after the mixture, each further segment is one the receiver lacks, and the message itself comes out when none is lacking |
| Leftover.AfterAbandoned | proto/udp/udp.go:486-632 | in every run, after any history in which no call on the slot failed part-way before: what the slot hands out is a prefix of mixture and message, nothing if the message is the shorter, and the message, once, if and only if the two are compatible |
| Corruption.AbandonedTransferIff | proto/udp/udp.go:486-632 | over all continuations: the slot's deliveries stay in order, each message once, if and only if the next message is shorter than the abandoned one, or compatible with it, or the abandoned one takes more than one pass and no answer gets through any more |
| Corruption.SilenceKeepsOrder | proto/udp/udp.go:453-466 | an instance of the last case: 65 segments, equal lengths, different first bytes, and nothing ever comes out |
| Corruption.AbandonedTransferCorrupts | proto/udp/udp.go:486-632 | a run in which the first delivery is neither of the two messages sent |
| Framing.Transport.Read | conn.go:80-84 | a read yields any nonempty piece, or the end of the stream |
| Framing.BaseConn.MustRecv | conn.go:77-87 | exactly dlen bytes are taken off the stream under every schedule of reads |
| Framing.BaseConn.Recv | conn.go:42-48 | returns the message of the frame at the front and leaves the rest |
| Framing.BaseConn.Send | conn.go:51-70 | appends one frame and never reports the length limit |
| Framing.ParseFrame | conn.go:42-70 | a frame is read back with nothing more consumed, or, past 65535 bytes, as a shorter message |
| Framing.FramesAreRecovered | conn.go:42-87 | any sequence of messages is recovered in order, consuming exactly the bytes written, if and only if none exceeds 65535 bytes |
| Framing.Stream.XORKeyStream | ecrypt/cipher.go:74-80 | in place, each byte is what the cipher makes of it in the state that the byte before it left, from the old state to the new one |
| Framing.RunCiphers | ecrypt/cipher.go:74-80 | bytes and states on the way, one cipher step each: `Run` is the one such trace |
| Framing.CiphersGoOn | ecrypt/cipher.go:74-80 | two parts ciphered one after the other are one stream: the second goes on from the state that the first left |
| Framing.XorIsBitwise | ecrypt/cipher.go:38-58 | a bit of the result is set where the bits of text and key differ |
| Framing.KeyStreamsFlipBits | ecrypt/cipher.go:38-58 | both ends flip each bit where the key byte has one, and absorb the byte on the wire |
| Framing.DecryptUndoesEncrypt | ecrypt/cipher.go:74-80 | a decryptor in lockstep recovers any bytes and stays in lockstep |
| Framing.KeyStreamsAreLockstep | ecrypt/cipher.go:38-58 | ciphers that add a key byte and may absorb ciphertext are in lockstep from equal states |
| Framing.SafeConn.Recv | conn.go:105-116 | header and body are read and decrypted one after the other: together they are one stretch of the cipher's stream, deciphered to length and message |
| Framing.SafeConn.Send | conn.go:119-140 | length and message go through the cipher as one stretch of its stream and are appended |
| Framing.ChannelIsOneStream | conn.go:119-140 | over any interleaving of sends and receives: all that was ever put on the wire is all frames ever sent, ciphered as one stream |
| Framing.SafeConnIsAQueue | conn.go:105-140 | over any interleaving of sends and receives and for every lockstep cipher: the k-th receive returns the k-th message and what is under way is exactly the rest, if and only if no message received exceeds 65535 bytes |
| IdPool.Pool.constructor | tunnel/tunnel_pool.go:17-29 | the server side starts odd, the client side even |
| IdPool.Pool.NewID | tunnel/tunnel_pool.go:31-44 | terminates when an ID of the parity is free, and returns the first free nonzero one of that parity, also across wraparound |
| IdPool.Pool.Delete | tunnel/tunnel_pool.go:64-74 | removes the entry or reports that there is none |
| IdPool.NextIDExists | session/pool.go:29-42 | there is an ID to return if and only if one of the parity is free |
| IdPool.ReservationsCollideIffFullCycle | session/pool.go:51-61 | two reservations get the same ID exactly when full cycles lie between them |
| Tunnels.Manager.New | tunnel/tunnel_pool.go:76-92 | a fresh ID for a config without one, otherwise the given ID unless it exists |
| Tunnels.Manager.Listen | tunnel/tunnel.go:206-212 | only a forward tunnel listens, and only that can fail |
| Tunnels.Manager.TunnelCreate | tunnel/manager.go:64-80 | the pool gains exactly the tunnel, or is as it was: a failed listen is rolled back |
| Tunnels.Manager.HandleCreate | link/handler.go:59-90 | the answer carries the new tunnel's ID, chosen here or named by the request, or a refusal that leaves the pool alone |
| Tunnels.Manager.Opened | link/request.go:41-65 | the opener creates its tunnel under the answered ID, or fails and leaves its pool alone |
| Tunnels.HandleCreateIsTwoSteps | link/handler.go:73-88 | the responder's half is its two steps in the step system |
| Tunnels.OpenedIsThreeSteps | link/request.go:55-61 | the opener's half is its three steps, or stops at the existing ID |
| Tunnels.RemoteConfigMirrors | tunnel/tunnel.go:26-35 | local and remote host and port change places, the protocol stays and the direction is reversed, nothing else; twice is the first again without its ID |
| Tunnels.OpenedAsAsked | link/request.go:13-66 | a call that was asked to open a config and has succeeded: this end has that config, the peer the mirrored one, field by field, and the right one of the two listens |
| Tunnels.TunnelsAgree | link/request.go:13-66 | with opposite flags, over every interleaving: a tunnel that one end opened is at the peer under the same ID, what is local here remote there and the reverse, exactly one of the two listens, no opener meets an existing ID |
| Tunnels.ClashesIffSameSides | link/request.go:55-61 | "tunnel ID existed" is reachable if and only if both ends have the same flag |
| Sessions.Session.HandleResponse | session/session.go:27-31 | the payload is buffered unless the one place is taken |
| Sessions.Session.Wait | session/session.go:44-45 | takes the buffered answer |
| Sessions.Manager.New | session/pool.go:51-61 | a session with a fresh ID and nothing buffered |
| Sessions.Manager.HandleIn | session/manager.go:28-55 | a request is answered with its own ID, a response reaches its session's buffer, anything else is an error; a full outbound or inbound channel blocks it |
| Sessions.Manager.Open | session/pool.go:51-61 | a new session is the step `NewSession` |
| Sessions.Manager.Begin | session/session.go:36-43 | the send of `sendAndWait` is the step `Send` with that payload, unless the outbound channel is full |
| Sessions.Manager.Turn | session/manager.go:28-55 | one turn of the receive loop is the step `Receive` with the same outcome, unless it blocks |
| Sessions.Manager.Finish | session/session.go:44-45 | the receive of `sendAndWait` is the step `Return`, and what it returns is what that step records |
| Sessions.TokensAreConserved | session/session.go:33-46 | queued requests, queued responses and buffered values of a session sum to 1 while it waits and to 0 otherwise, so `HandleResponse` never blocks, only a request meets a full link, and every caller gets the answer to its own request |
| SessionRuns.CallersAreAnswered | session/session.go:33-46 | in every run, from its steps alone: what callers have been told is one answer for each return, in order, namely the other end's answer to the payload last passed in for that session |
| SessionRuns.EachReturnIsOne | session/session.go:33-46 | each return adds exactly one such exchange, and its session was sent on before |
| SessionRuns.ExchangeCompletes | session/manager.go:28-55 | for every payload and any room there is a run in which its caller is answered and nothing is left over |
| Sessions.StuckIffJammed | session/manager.go:36-38 | in every run, a waiting caller without its answer is stuck exactly when both links are full and both ends have a request in hand |
| Sessions.WaitingCallersAdvance | session/session.go:33-46 | while fewer callers wait than fit on the link both ways, a waiting caller can return or a receive loop can turn |
| SessionJam.CallersCanJam | session/manager.go:36-38 | that bound is met for every room that the session IDs can fill: as many callers as fit both ways jam the link |
| SessionJam.JamIsReachableIff | session/pool.go:29-42 | the ends can jam if and only if there is room for a message each way and not more than either end has session IDs |

## Left out

- DeliversOnceInOrder: assumes that no call on this slot failed after writing part of its message; `Corruption.AbandonedTransferIff` gives the exact condition for the message after the first such call.
- AcknowledgementIsSoundOnReuse: assumes that no call on this slot failed part-way or after writing everything; `StaleAck.AcknowledgementIsSoundIff` gives the exact condition for the second.
- AbandonedTransferIff: is about the first call on the slot that failed part-way, and the next one that writes anything; what follows a second such call, or a shorter message that the leftover has swallowed, is not stated. It leaves room for 131072 further queries before the request IDs run out, which the run that shows the condition necessary uses.
- AcknowledgementIsSoundIff: speaks of slots on which no call failed part-way, and of continuations in which none does and no further call fails after writing everything.
- FirstTransferIsIntact, AcknowledgementIsSound: first transfer of a slot only; on a network that duplicates and reorders, `handleTrans` replaces a completed receiver and late datagrams of an earlier transfer may reach a later one.
- SendMsg: runs alone on the sending half here, with what happens to it as a parameter, in which a write fails at a given segment or not at all; something that cannot happen where the call stands, such as a reply while it waits for the acknowledgement, ends it like a shutdown, and so does the end of the script. Other calls and the handlers interleave with it in the step systems. A call that finds no free slot is told so, and waiting for one is left to the caller. It starts with handlers that are not stuck: a query made while they are never returns.
- HandleRep: whether something will receive from the channel is a parameter; the step systems know it. A stuck handler also stops the other direction and, at a server, all its peers, since one loop reads for all of them.
- ExpireQuery: the 12-second timer and the removal of the ID are one step; a reply that takes the lock in between, after a second in which the call was not scheduled, is not modelled.
- LosslessRoundsFinish: its rounds are lists of IDs handed to `Save`; `FifoRounds.RoundsAreFull` has the bound over the steps of `SendMsg`.
- HandleCreate: that a request's ID was chosen by the peer is used by the step system only, which is about openers that follow `defaultOpenTunnel`.
- MsgRecving: of a saved segment only the body is kept, since only that is read; `AppendSaved` scans the IDs in ascending order where the code sorts the keys.
- Transport: an exhausted stream is at its end; errors of the underlying connection, partial writes and closing are not modelled.
- NewID: concurrent callers that reserve an ID before they insert it are covered by `ReservationsCollideIffFullCycle`; in the step systems for tunnels and sessions the reservation and the insertion are one step. All reservations of a link's tunnel pool are made by its one receive loop; for sessions it assumes that no 2^31 other reservations fall in between.
- Manager: whether an address can be bound is a parameter; the process-wide listen pool, protocols other than tcp and udp (for which the code would dereference nil), and accepting connections are not modelled.
- TokensAreConserved: the handler is a function of the request payload, each session is used by one caller at a time, and closing the manager is not modelled. The outbound channel, the connection and what the two loops hold are one queue of any given room.
- The round counter is not part of the step systems: giving up is possible at any wait. In `SendRounds` it is.
- After a truncated missing list that ends the window exactly at the largest ID the sender waits out its timeout before it queries again; a round is counted as answered there, durations are not modelled.
- The number that `Read` reports for a short buffer.
- Datagrams shorter than a header or a reply without a status byte, on which the code panics.
- Real sockets, clocks, keepalive and ping, the UDP handshake, garbage collection of idle peers, logging.
- AES, RC4, MD5 and key derivation: a cipher is any pair of transducers in lockstep.
- JSON, regular-expression routing, the EMSG and TMSG codecs, tunnel channels.
