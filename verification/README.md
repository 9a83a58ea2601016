# Verified model of the remote-serialport client

The client side of a remote serial port stack, as far as its protocol goes: how envelopes become
frames and come back out of a byte stream, how writes and transactions share one window of credits
per port, what a socket wants open across reconnects, and how RPC answers find their calls. Each
class of the source that changes state is a Dafny class here; the properties of whole runs are
lemmas about the functions those classes are proved against.

| file | what it holds |
|---|---|
| Common.dfy | bytes, big-endian words, Option and Result |
| Json.dfy | JSON values with Buffers, `JSON.stringify`'s lowering and the reviver |
| Framing.dfy | `FrameDecoder` and the function of the byte stream it computes |
| Codec.dfy | `encode`, the JSON stage of the decoder, round trips |
| Gate.dfy | `BackpressureGate`, refining a plain queue, and its listener loop |
| Txn.dfy | single-shot writes, transaction handles, `with_txn` amid other traffic |
| Atomicity.dfy | any interleaving of writes and handles against the server's reassembly |
| Link.dfy | client, channel, server, channel back: which drain settles what |
| Streams.dfy | several streams and transaction ends on one window, with re-entrant drain handlers |
| PoolRounds.dfy | the listener loop of those streams as a round of the gate |
| Session.dfy | open and close intent across reconnects |
| MuxSocket.dfy | the mux socket: session, instance index, windows |
| NamespaceSocket.dfy | the namespace socket: one open per connection epoch |
| Rpc.dfy | what becomes of a remote call |
| RawTcp.dfy | RPC tables, start-up queue, routing |
| Correlation.dfy | RPCs of many labels on one connection, reopening and forgotten transports included |
| ClientRuns.dfy | what each operation of the client is as an event of `Correlation` |
| LabelWalk.dfy | the walk over a connection's table while listeners open labels |
| TcpClient.dfy | the client above the connection: its own table, readiness, reopening, closing, traffic, `Correlation`'s results |
| SocketIoRpc.dfy | RPCs that survive reconnects |

## Findings

- The window is soft, and softer than one write per stream: with `n` streams on a window of `w`,
  stream writes can hold `w + n - 1` slots if no stream writes while its own drain notification is
  still pending, and `w + 2n - 2` if drain handlers may write to other streams. Transaction ends
  take slots beyond that at any moment and change neither bound (`Streams.SoftWindow`; both are
  reached, `Streams.SoftWindowExact`). No wake-up is lost to any of this (`Streams.NoLostWakeUp`).
- A label closed while one of its requests is unanswered and opened again on the same connection
  can have its new call settled by the old answer (`Correlation.ReopeningMisroutes`). An answer
  finds its own call exactly when it belongs to the current opening (`Correlation.AnswerFindsItsOwn`).
- Transactions are atomic for every interleaving exactly when the id allocator never repeats: a
  caller's own allocator that does lets one transaction commit another's bytes
  (`Atomicity.AtomicityExact`).
- Disconnect listeners can leave the client with a connected transport that its connection has
  forgotten, in two ways. While one label is being closed: exactly when a listener opens that very
  label among others (`TcpClient.RawTcpClient.CloseLabel`). While the socket's end is being announced
  to every transport: exactly when a listener opens a label already closed in that walk; one not yet
  reached is handed back, and a new one is closed later in the same walk
  (`TcpClient.RawTcpClient.SocketClosed`, `LabelWalk.WalkCloses`).
- Such a transport cannot be closed: every `close` on it says bye, if the connection lives, and leaves
  it connected (`TcpClient.RawTcpClient.CloseForgotten`). What is sent on it after that is still
  accepted, although the label's last word was a bye (`TcpClient.ForgottenThenUsed`), and no answer to
  its calls ever arrives (`Correlation.ForgottenHearsNothing`). Every message has its hello exactly
  when nothing is sent, on a live connection, on a forgotten transport after a `close` on it
  (`Correlation.HelloBeforeMessages`, `TcpClient.RawTcpClient.HelloFirst`).
- After its socket has closed a client still opens labels, on the same dead connection, and nothing
  sent on them is ever accepted (`TcpClient.RawTcpClient.Open`, `Correlation.DeadStaysSilent`).
- An envelope comes back unchanged exactly when no plain object in it imitates a Buffer and, if it
  carries a Buffer payload, that payload is not empty and the envelope has no `_binloc` of its own
  (`Codec.RoundTripExact`).
- What is reported does not depend on how the network cuts the stream exactly when the stream never
  stops the decoder, or stops it at an oversized header that nothing follows, or makes `push` throw
  (JSON `null` with a tail) at a frame that nothing but an incomplete frame follows
  (`Framing.CutFreeExactly`; a stream that does depend on it is in `Framing.OverflowDependsOnTheCut`).

## Assumptions

- JSON text and UTF-8 are the parameters `ser` and `parse` of `Json.Platform`; the round trips ask
  that `parse` undoes `ser` on the one value they print, and nothing of other values. `byteOf` is the
  element coercion of `Buffer.from`, which keeps a number 0..255. `Codec.HypothesesMet` gives such a
  platform for every list of envelopes.
- The server answers each packet and each end frame with one drain, in arrival order, and
  reassembles transactions as the repository's README describes; it is not part of this repository.
- A handshake arrives only over a connected transport, and frames emitted while the transport is
  down open the next session's traffic, as socket.io's send buffer does.
- Listeners run to completion: acknowledgements and drains arrive between handlers, not inside them.
- A socket answers only requests it was sent: an RPC answer belongs to a request still in flight.

## Model

| member | source | states |
|---|---|---|
| Common.ReadIsBigEndian | src/module/shared/envelope-codec.ts:74 | the number read from a header is its four bytes in base 256, folded from the front |
| Common.WrittenBigEndian | src/module/shared/envelope-codec.ts:52-53 | a length is written as four bytes that denote it in base 256 |
| Common.MostSignificantFirst | src/module/shared/envelope-codec.ts:52-53 | in that fold the first byte weighs most |
| Json.Printed | src/module/shared/envelope-codec.ts:45 | node by node: a Buffer prints as its type and its bytes in order, everything else as itself |
| Json.Revived | src/module/shared/envelope-codec.ts:18-25 | node by node: after its children, an object of that shape becomes the Buffer of its elements in order, and any other keeps its keys |
| Json.LowerIsPlain | src/module/shared/envelope-codec.ts:45 | what is printed as JSON holds no Buffer |
| Json.ReviveLeavesNoShape | src/module/shared/envelope-codec.ts:18-25 | whatever text arrives, no Buffer-shaped object survives the reviver |
| Json.ReviveIdempotent | src/module/shared/envelope-codec.ts:18-25 | reviving twice is reviving once, for every value |
| Json.ReviveUndoesLower | src/module/shared/envelope-codec.ts:18-25 | Buffers anywhere in a value come back from their printed form |
| Json.RevivalExact | src/module/shared/envelope-codec.ts:18-25 | they do so exactly when no ordinary object imitates a printed Buffer |
| Codec.Encode | src/module/shared/envelope-codec.ts:27-59 | refuses exactly the frames over the limit; otherwise a fresh buffer holds, range by range, the big-endian total, the big-endian JSON length, the JSON text and the tail |
| Codec.Assemble | src/module/shared/envelope-codec.ts:51-58 | the piecewise writes into the allocated buffer make up that layout and no byte more |
| Codec.TakenOut | src/module/shared/envelope-codec.ts:31-43 | field by field, what a `msg` loses to its tail and what its head says of it; any other envelope is printed whole |
| Codec.PutBack | src/module/shared/envelope-codec.ts:107-117 | field by field, where a tail is put back, and when it is dropped or makes `push` throw |
| Codec.BodyGrammar | src/module/shared/envelope-codec.ts:86-117 | a body is damaged exactly when it is not a big-endian length, that much parseable JSON and any tail; otherwise those parts alone decide the event |
| Codec.DamageReported | src/module/shared/envelope-codec.ts:83-105 | which of the three errors a damaged body gives, with the lengths it reports |
| Codec.RoundTripExact | src/module/shared/envelope-codec.ts:27-117 | an encoded envelope whose printed part survives JSON comes back unchanged if and only if it is intact |
| Codec.IntactArrives | src/module/shared/envelope-codec.ts:31-117 | likewise, on all three paths (no tail, `p`, `p.data`), an intact envelope is restored |
| Codec.EmptyTail | src/module/shared/envelope-codec.ts:96-117 | an empty Buffer payload is lost and its `_binloc` marker stays |
| Codec.EncodedNeverThrows | src/module/shared/envelope-codec.ts:107 | no encoded envelope makes `push` throw |
| Codec.StreamRoundTrip | src/module/shared/envelope-codec.ts:27-119 | any list of intact envelopes, in any chunking, is reported exactly, with no error and nothing left buffered |
| Codec.HypothesesMet | src/module/shared/envelope-codec.ts:45-88 | for every list of envelopes some platform prints and parses each of them, so the round trips are not about nothing |
| Codec.BuffersCanBeSent | src/module/shared/envelope-codec.ts:31-43 | every non-empty Buffer payload up to the limit can be sent on some platform |
| Framing.FrameDecoder.Push | src/module/shared/envelope-codec.ts:71-119 | a push reports what the stream function says of buffer plus chunk, and leaves at most one incomplete frame unless it throws |
| Framing.FrameDecoder.Drain | src/module/shared/envelope-codec.ts:73-118 | the loop computes the stream function of the buffer |
| Framing.FrameDecoder.Turn | src/module/shared/envelope-codec.ts:74-117 | one turn reads the big-endian length, takes a complete frame off and reports its body, empties the buffer on an oversized one, or waits; it takes at least four bytes off or stops |
| Framing.FrameDecoder.Reset | src/module/shared/envelope-codec.ts:121-123 | the buffer is dropped and nothing is reported |
| Framing.ScanSplit | src/module/shared/envelope-codec.ts:72-118 | bytes appended to a buffer never change what its own frames mean |
| Framing.ChunkingInvariance | src/module/shared/envelope-codec.ts:71-119 | every split into chunks gives the events and residue of one push, up to the first overflow or throw |
| Framing.CutFreeExactly | src/module/shared/envelope-codec.ts:71-119 | every split of a stream reports what one push does if and only if the stream never stops the decoder, or overflows with nothing behind the header, or throws with at most an incomplete frame behind |
| Framing.OverflowDependsOnTheCut | src/module/shared/envelope-codec.ts:75-79 | a stream with bytes behind an oversized header whose cut decides whether they are decoded |
| Framing.DamageIsolation | src/module/shared/envelope-codec.ts:83-105 | in a run of frames each body's event depends on that body alone |
| Gate.BackpressureGate.constructor | src/module/remote-serialport-client.ts:132-134 | a fresh gate is writable and empty |
| Gate.BackpressureGate.Consume | src/module/remote-serialport-client.ts:148-154 | a slot joins the queue and never is refused, and its promise, if it has one, is queued last |
| Gate.BackpressureGate.Ack | src/module/remote-serialport-client.ts:156-170 | the oldest slot leaves, its promise is resolved and no other is; listeners are called exactly when the window was exactly full, and then everyone still registered, whatever each takes, attaches, detaches or resets; between resets slots leave in the order of taking |
| Gate.BackpressureGate.Wake | src/module/remote-serialport-client.ts:164-169 | the loop over the listener set computes the round in which additions are reached and removals are not |
| Gate.WhatAnOpDoes | src/module/remote-serialport-client.ts:140-183 | what each operation of a listener changes in a running loop, and that it changes nothing else |
| Gate.DetachedIsNotCalled | src/module/remote-serialport-client.ts:144-169 | a listener taken off and not attached again is not called in the rest of the loop |
| Gate.LoopOnlyRejects | src/module/remote-serialport-client.ts:164-183 | the loop settles nothing except by a reset, which rejects |
| Gate.EveryoneHears | src/module/remote-serialport-client.ts:164-169 | when a loop ends, every listener still registered has been called in it, whatever the listeners did to the set and the gate |
| Gate.SteadyRound | src/module/remote-serialport-client.ts:164-169 | if none is taken off and nobody resets, the calls are the registered listeners and those that join, in order, each once, and the queue only grows |
| Gate.BackpressureGate.Reset | src/module/remote-serialport-client.ts:172-183 | every promise still queued is rejected in order, nothing is resolved, and the window reopens |
| Gate.BackpressureGate.OnDrain | src/module/remote-serialport-client.ts:140-142 | a listener is registered at most once, in order of arrival |
| Gate.BackpressureGate.OffDrain | src/module/remote-serialport-client.ts:144-146 | exactly that listener is removed and the others keep their order |
| Gate.BackpressureGate.SettledOnce | src/module/remote-serialport-client.ts:125-130 | over the gate's whole life, resets included, promises queued once are settled at most once and none still queued has been settled |
| Txn.RemotePort.Write | src/module/remote-serialport-client.ts:242-249 | one packet frame, one slot, and `false` exactly when the window is full |
| Txn.RemotePort.OpenTxn | src/module/remote-serialport-client.ts:658-668 | each transaction gets the allocator's next id and is announced at once; ids that never repeat are not among the promises queued so far |
| Txn.RemotePort.WhoSettles | src/module/remote-serialport-client.ts:156-183 | over the port's whole life an end promise is resolved exactly when an ack found its slot at the head of the queue, and rejected exactly when a reset dropped its slot |
| Txn.RemotePort.Disconnect | src/module/remote-serialport-client.ts:172-183 | everything new among the settlements is a rejection, of the queued promises in order |
| Txn.RemotePort.Drain | src/module/remote-serialport-client.ts:591-593 | one drain frees the oldest slot and settles its promise alone |
| Txn.RemotePort.SettledOnce | src/module/remote-serialport-client.ts:455-468 | with ids that never repeat, every port, after any writes, ends, drains and disconnects, has settled no promise twice and none still queued |
| Txn.DecimalInjective | src/module/remote-serialport-client.ts:406-407 | the counter allocator never repeats an id |
| Txn.DecimalIsNumeral | src/module/remote-serialport-client.ts:406-407 | the ids are the decimal numerals of the counter, without leading zeros |
| Txn.TxnHandle.Write | src/module/remote-serialport-client.ts:448-453 | a chunk goes out while the handle is open; afterwards the call fails and sends nothing |
| Txn.TxnHandle.End | src/module/remote-serialport-client.ts:455-468 | the first end sends the end frame and queues its promise, for the first and only time; later ones return it; after an abort it fails |
| Txn.TxnHandle.Abort | src/module/remote-serialport-client.ts:470-476 | aborts an open handle and does nothing to a closed one |
| Txn.WithTxn | src/module/remote-serialport-client.ts:373-383 | for every callback script, and any other writes, transactions, drains and disconnects while it or its end is awaited, the transaction's own frames are begin, the chunks written while open and exactly one closing frame; a value returns exactly when that frame is the end, the callback got through and a drain resolved the promise; the call stays pending exactly when the end is awaited and neither resolved nor rejected; otherwise it throws |
| Txn.RunCallback | src/module/remote-serialport-client.ts:376 | likewise, what the callback emitted and what remains always make up the transaction's whole word |
| Txn.Finish | src/module/remote-serialport-client.ts:377-382 | the implicit end or abort emits exactly the remaining closing frame, and what the callback did, how it left and what became of the end promise decide between value, exception and waiting |
| Txn.SurvivesExactly | src/module/remote-serialport-client.ts:448-468 | a callback gets through, as far as its own calls go, exactly when it catches what a write after closing and an awaited end after an abort throw |
| Txn.AwaitsExactly | src/module/remote-serialport-client.ts:373-383 | a callback comes to await the end exactly when a step awaits that of a transaction not aborted and every step before goes through |
| Txn.CommitsExactly | src/module/remote-serialport-client.ts:373-383 | the closing frame is an end exactly when the first closing step is one, or there is none and the callback returns |
| Txn.ChunksExactly | src/module/remote-serialport-client.ts:448-453 | the chunks of a callback are its writes before the closing step, one by one |
| Atomicity.TransactionAtomicity | src/module/remote-serialport-client.ts:397-477 | for every interleaving of writes and handles the reassembled trace is exactly the single writes and the whole ended transactions, in order |
| Atomicity.AtomicityExact | src/module/remote-serialport-client.ts:386-408 | it holds for every list of calls if and only if the allocator, which may be the caller's own, never repeats an id |
| Atomicity.SharedIdLeaks | src/module/remote-serialport-client.ts:398-400 | two handles under one id: bytes written on one are committed by the other |
| Atomicity.WireGrammar | src/module/remote-serialport-client.ts:415-477 | each id's frames are begin chunk* (end or abort)? |
| Atomicity.CounterIsInjective | src/module/remote-serialport-client.ts:406-407 | the counter qualifies as an allocator for both results |
| Link.CreditConservation | src/module/remote-serialport-client.ts:591-599 | outstanding writes are always the slot-taking frames in flight plus the drains in flight |
| Link.DrainMatches | src/module/remote-serialport-client.ts:125-161 | an arriving drain frees the slot of the very frame it answers |
| Link.EndResolvedByItsOwnDrain | src/module/remote-serialport-client.ts:455-468 | `end()` has resolved exactly when the drain of its own end frame has arrived |
| Streams.SoftWindow | src/module/remote-serialport-client.ts:148-170 | whatever slots transaction ends take, and whichever streams join, the slots held by writes of n streams are bounded by window + n - 1, or window + 2n - 2 when handlers write to other streams |
| Streams.SoftWindowWithoutEnds | src/module/remote-serialport-client.ts:148-170 | where nothing but streams writes, these are bounds on everything outstanding |
| Streams.SoftWindowExact | src/module/remote-serialport-client.ts:148-170 | both bounds are reached, and the smaller one holds without the discipline exactly for a single stream |
| Streams.NoLostWakeUp | src/module/remote-serialport-client.ts:156-170 | between listener loops a waiting stream waits on a closed window with a whole window of acks owed, transaction ends and late streams included |
| Streams.WakeUpComes | src/module/remote-serialport-client.ts:164-169 | however the run goes on, a waiting stream waits as long as no ack finds the window exactly full, and the first one that does notifies it or puts it among those to be notified |
| Streams.TurnComes | src/module/remote-serialport-client.ts:164-169 | a stream that is to be notified has its turn before the listener loop ends, whatever handlers do |
| Streams.AcksSuffice | src/module/remote-serialport-client.ts:156-170 | with nothing but acks to come, the owed ones suffice and the number it takes is exact |
| PoolRounds.LoopIsRound | src/module/remote-serialport-client.ts:156-170 | the streams' loop, from the ack that reopens the window until every stream has been called, is the gate's own round with what the handlers did as script |
| Session.ReplayPreservesIntent | src/module/remote-serialport-client.ts:798-805 | over every run nothing unwanted is open at the server, and after a handshake everything wanted is |
| Session.ServerHasWhatWasAsked | src/module/remote-serialport-client.ts:848-861 | after a handshake the server's open ports are the application's latest opens not closed since, options included |
| Session.OpenedReplay | src/module/remote-serialport-client.ts:802-804 | a replay sets every active path to its options and touches no other |
| Session.PacketsInOrder | src/module/remote-serialport-client.ts:895-898 | over every run, a path's packets on the session's wire and then those buffered are the data written for it since the session's traffic began, in order |
| MuxSocket.RemoteSerialClientMuxSocket.OnConnect | src/module/remote-serialport-client.ts:766-768 | a connect starts a session that has seen no handshake |
| MuxSocket.RemoteSerialClientMuxSocket.OnLost | src/module/remote-serialport-client.ts:773-792 | when the transport goes down nothing is emitted or forgotten; what follows waits for the next session |
| MuxSocket.RemoteSerialClientMuxSocket.OnHandshake | src/module/remote-serialport-client.ts:794-805 | every active open is emitted once, with its options, behind what is on the wire |
| MuxSocket.RemoteSerialClientMuxSocket.Open | src/module/remote-serialport-client.ts:848-855 | the intent is kept, and one open frame emitted exactly if a handshake has been seen |
| MuxSocket.RemoteSerialClientMuxSocket.Close | src/module/remote-serialport-client.ts:857-861 | the intent is forgotten and the close emitted in any case |
| MuxSocket.RemoteSerialClientMuxSocket.GateFor | src/module/remote-serialport-client.ts:835-842 | one window per remote path, different paths never sharing one |
| MuxSocket.RemoteSerialClientMuxSocket.CreatePort | src/module/remote-serialport-client.ts:885-924 | index, instance table and windows agree after every creation; a new instance starts in its remote port's known state with nothing read or raised; an existing local path is returned as it is |
| MuxSocket.RemoteSerialClientMuxSocket.OnPacket | src/module/remote-serialport-client.ts:820-828 | fan-out by index reaches exactly the instances a full scan would find, each once |
| MuxSocket.RemoteSerialClientMuxSocket.OnState | src/module/remote-serialport-client.ts:303-319 | a state change reaches exactly the instances of its path, whose streams raise the error, if somebody listens, or the close it calls for, and is remembered |
| MuxSocket.RaisedExactly | src/module/remote-serialport-client.ts:303-319 | an open stream raises an error on ERROR if somebody listens and a close on CLOSED, only on a change, and nothing else |
| MuxSocket.RemoteSerialClientMuxSocket.OnMuxDrain | src/module/remote-serialport-client.ts:830-832 | a drain acknowledges its own path's window and touches no other; what its listeners write goes out as packets of that path, in order; packets and single-shot slots stay matched |
| MuxSocket.RemoteSerialClientMuxSocket.WriteCommand | src/module/remote-serialport-client.ts:895-898 | a local write sends one packet of its remote path, on the wire or into the buffer, and takes one slot of that path's window only; over the socket's life each path has as many packets as single-shot slots |
| MuxSocket.RemoteSerialClientMuxSocket.Disconnect | src/module/remote-serialport-client.ts:956-970 | every queued promise of every window is rejected in order and nothing is resolved, every instance is closed without its stream, nothing is remembered and the transport is closed |
| NamespaceSocket.DueExactly | src/module/remote-serialport-client.ts:564-572 | an open is due exactly when a handshake since the last connect and options have both occurred, in any order |
| NamespaceSocket.OneOpenPerEpoch | src/module/remote-serialport-client.ts:602-620 | between two connects exactly one open frame is emitted in that case, with the options then in force and their path or else the namespace, and otherwise none |
| NamespaceSocket.RemoteSerialClientSocket.OnConnect | src/module/remote-serialport-client.ts:520-523 | a new epoch has emitted nothing |
| NamespaceSocket.RemoteSerialClientSocket.OnHandshake | src/module/remote-serialport-client.ts:568-571 | emits the options in force, if there are any and nothing was emitted yet; keeps the epoch's emissions what the history makes due |
| NamespaceSocket.RemoteSerialClientSocket.Open | src/module/remote-serialport-client.ts:615-620 | the options are kept, and emitted exactly if a handshake has been seen and nothing was emitted yet |
| NamespaceSocket.RemoteSerialClientSocket.SendOpen | src/module/remote-serialport-client.ts:602-609 | a second open in an epoch is swallowed; the options' path wins over the namespace |
| RawTcp.ClientMux.SendEnvelope | src/module/raw-tcp-transport.ts:96-103 | an envelope is written at once if the socket is ready and `encode` takes it, or waits last in the queue; frames written and waiting are always the accepted envelopes in call order, minus those `encode` rejects |
| RawTcp.CarriedExactly | src/module/raw-tcp-transport.ts:105-112 | the frames of a list of envelopes are those of its envelopes that `encode` takes, one by one |
| RawTcp.ClientMux.FireReady | src/module/raw-tcp-transport.ts:71-77 | becoming ready flushes the queue in order, then each transport hears it, once |
| RawTcp.ClientMux.RegisterTransport | src/module/raw-tcp-transport.ts:87-94 | a label is announced by a hello when it is registered |
| RawTcp.ClientMux.OnMsg | src/module/raw-tcp-transport.ts:117-125 | a message reaches the transport it names, or the only one there is, and no other |
| RawTcp.ClientMux.OnAck | src/module/raw-tcp-transport.ts:126-137 | an acknowledgement with a namespace reaches that transport alone, without one all: where its number waits, the promise is settled with that response and waits no more, elsewhere nothing changes |
| RawTcp.ClientMux.CloseNamespace | src/module/raw-tcp-transport.ts:138-168 | a bye shuts and removes that label's transport only; without multiplexing the socket is told to end |
| RawTcp.ClientMux.OnClose | src/module/raw-tcp-transport.ts:170-175 | the socket's end shuts every table, once |
| RawTcp.RawTcpClientTransport.Send | src/module/raw-tcp-transport.ts:210-216 | a closed transport sends nothing |
| RawTcp.RawTcpClientTransport.SendRpc | src/module/raw-tcp-transport.ts:218-232 | a call takes the next number and waits under it, or is dropped at once |
| RawTcp.RawTcpClientTransport.Conclude | src/module/raw-tcp-transport.ts:300-306 | an answer or deadline takes a pending call out and settles its promise with that outcome, and ignores any other number |
| RawTcp.RawTcpClientTransport.OnRemoteClose | src/module/raw-tcp-transport.ts:309-319 | every pending promise is rejected, the others keep their outcome, nothing stays pending, and the disconnect event fires once |
| RawTcp.IssuedExactly | src/module/raw-tcp-transport.ts:218-232 | a call on a connected transport waits under the next number, on a closed one its promise is dropped |
| RawTcp.ConcludedExactly | src/module/raw-tcp-transport.ts:300-306 | a waiting call leaves the table with its promise settled; any other number changes nothing |
| RawTcp.ShutMeans | src/module/raw-tcp-transport.ts:309-319 | the end of a transport drops every pending promise and keeps the outcome of the others |
| Correlation.NeverLost | src/module/raw-tcp-transport.ts:218-232 | over every run, each promise given out on a connected transport is pending under exactly one number or settled, never neither and never both |
| Correlation.AnswerSettles | src/module/raw-tcp-transport.ts:300-306 | an arriving answer that finds a pending call leaves its promise answered with that response |
| Correlation.DeadlineSettles | src/module/raw-tcp-transport.ts:222-225 | the deadline of a pending call leaves its promise expired |
| Correlation.SettledForGood | src/module/raw-tcp-transport.ts:300-306 | a settled promise keeps its outcome as long as its transport lasts |
| Correlation.AnswerFindsItsOwn | src/module/raw-tcp-transport.ts:300-306 | with labels reopened at will, an answer settles its own call exactly when it belongs to the current opening |
| Correlation.RpcCorrelation | src/module/raw-tcp-transport.ts:126-136 | if no label is reopened while its requests are in flight, every promise settled by an answer gets the answer to its own request |
| Correlation.ReopeningMisroutes | src/module/raw-tcp-transport.ts:196 | without that condition, on any label, a late answer settles the wrong promise |
| Correlation.HelloBeforeMessages | src/module/raw-tcp-transport.ts:210-232 | over every run, each accepted message of a label has an earlier hello with no bye of this side in between if and only if nothing was sent, on a live connection, on a forgotten transport after `close` on it |
| Correlation.StrayIsAstray | src/module/raw-tcp-transport.ts:159-168 | on any label, reopened by its own listener, closed again and used, a message is accepted after the last bye |
| Correlation.ForgottenHearsNothing | src/module/raw-tcp-transport.ts:126-134 | from the moment a transport is forgotten no promise of it is settled by an answer, whatever happens |
| Correlation.SettledByItsOwn | src/module/raw-tcp-transport.ts:300-306 | after such a run every promise that an answer settled was settled by the answer to its own request alone |
| Correlation.DeadStaysSilent | src/module/raw-tcp-transport.ts:96-103 | a connection whose socket has closed accepts nothing more, over every continuation |
| LabelWalk.WalkCloses | src/module/raw-tcp-transport.ts:170-175 | with any list of labels per listener, the walk closes no label twice, and every label opened during it, unless the client held it |
| LabelWalk.NeverBackExactly | src/module/raw-tcp-transport.ts:170-175 | no label comes back from the walk exactly when none is opened after it was closed there |
| LabelWalk.BackToItself | src/module/raw-tcp-transport.ts:370-372 | a listener that opens its own label again is such a case |
| TcpClient.RawTcpClient.constructor | src/module/raw-tcp-transport.ts:337-351 | a new client has no labels, nor has its connection |
| TcpClient.RawTcpClient.Ready | src/module/raw-tcp-transport.ts:71-77 | when the socket becomes ready every transport hears it once, those that connect listeners open on the way included; these are opened in order and nothing else changes |
| TcpClient.RawTcpClient.ListenersOpen | src/module/raw-tcp-transport.ts:353-355 | listeners open every label they ask for, in their order, unless the client is closed |
| TcpClient.RawTcpClient.Open | src/module/raw-tcp-transport.ts:353-375 | a closed client refuses, a held label keeps its transport, a new one enters both tables; the run gains that event |
| TcpClient.RawTcpClient.CloseLabel | src/module/raw-tcp-transport.ts:138-168 | for any label: one the connection knows has its table shut and is forgotten by both sides, except that exactly if its listeners open it again the client keeps a new, connected transport for it; one forgotten already says bye and stays as it is; any other close does nothing |
| TcpClient.RawTcpClient.CloseForgotten | src/module/raw-tcp-transport.ts:159-168 | `close` on a forgotten transport is accepted as a bye and leaves it connected, with its table |
| TcpClient.ForgottenThenUsed | src/module/raw-tcp-transport.ts:267-270 | open, close with reopening, close, send: the connection accepts hello, bye, hello, bye and then the message |
| TcpClient.RawTcpClient.SocketClosed | src/module/raw-tcp-transport.ts:170-175 | the walk closes every transport; the client is left with what was forgotten before, as it was, and a new transport for exactly the labels opened again behind the walk, so that nothing is left exactly when there is none |
| TcpClient.RawTcpClient.CloseNext | src/module/raw-tcp-transport.ts:173 | one step of that walk keeps the relation of the two tables, with labels that join visited last |
| TcpClient.RawTcpClient.Close | src/module/raw-tcp-transport.ts:401-410 | a closed client holds no labels and tells its socket to end, once |
| TcpClient.RawTcpClient.Send | src/module/raw-tcp-transport.ts:210-216 | a message on the connected transport of a label, known or forgotten, is the run's next event and accepted while the connection lives; without such a transport nothing happens |
| TcpClient.RawTcpClient.Request | src/module/raw-tcp-transport.ts:218-232 | a call on the connected transport of a label, known or forgotten, is the run's next event and waits under its table's next number |
| TcpClient.RawTcpClient.OnAnswer | src/module/raw-tcp-transport.ts:126-134 | an answer to a request in flight is the run's next event, settles the call that waits under its number at the label's known transport with that response, and touches nothing else |
| TcpClient.RawTcpClient.OnDeadline | src/module/raw-tcp-transport.ts:222-225 | a deadline on any connected transport is the run's next event, settles that call as expired and touches nothing else |
| TcpClient.RawTcpClient.HelloFirst | src/module/raw-tcp-transport.ts:87-103 | in whatever order the client is used, every message its connection has accepted has an earlier hello of the label with no bye of this side in between if and only if nothing was sent, while the connection lived, on a forgotten transport after `close` on it |
| TcpClient.RawTcpClient.AnsweredByItsOwn | src/module/raw-tcp-transport.ts:300-306 | if no label is reopened while its requests are in flight, every promise answered on an open transport was answered for its own request |
| TcpClient.RawTcpClient.Agreement | src/module/raw-tcp-transport.ts:353-375 | an open client and its connection agree on their labels exactly when the connection has forgotten none |
| SocketIoRpc.SocketIoClientTransport.SendRpc | src/module/socketio-transport.ts:133-155 | a call is numbered, armed, noted and emitted; a destroyed transport refuses and nothing becomes pending |
| SocketIoRpc.SocketIoClientTransport.OnAck | src/module/socketio-transport.ts:144-150 | an acknowledgement settles a waiting call with its response; late and duplicate ones change nothing |
| SocketIoRpc.SocketIoClientTransport.OnTimer | src/module/socketio-transport.ts:139-143 | a deadline settles a call that still waits as expired |
| SocketIoRpc.SocketIoClientTransport.OnConnect | src/module/socketio-transport.ts:87-94 | every waiting call, and no other, is emitted once more |
| SocketIoRpc.SocketIoClientTransport.OnDisconnect | src/module/socketio-transport.ts:96-100 | without replay every pending call, and no other, is settled as dropped; with it none is |
| SocketIoRpc.SocketIoClientTransport.Close | src/module/socketio-transport.ts:197-205 | nothing is pending after a close |
| SocketIoRpc.SocketIoClientTransport.RejectAll | src/module/socketio-transport.ts:207-213 | exactly the pending calls are rejected and their timers cleared |
| SocketIoRpc.SocketIoClientTransport.ExactlyOnce | src/module/socketio-transport.ts:133-155 | issued numbers are the disjoint union of pending and settled ones, and the live timers are those of the pending ones |
| SocketIoRpc.SettlesExactly | src/module/socketio-transport.ts:139-150 | which event gives a waiting call which outcome |
| SocketIoRpc.EmissionsCounted | src/module/socketio-transport.ts:87-94 | a call is emitted once when made plus, with replay, once per connect that found it waiting |
| SocketIoRpc.OnlyIssued | src/module/socketio-transport.ts:137 | only calls that were made are settled or emitted |
| SocketIoRpc.FateIsFinal | src/module/socketio-transport.ts:144-150 | once settled, no later event changes a call's outcome or emits it again |

## Left out

- Sockets, TLS, socket.io's Manager, the mock binding, stream internals, loggers and UUIDs: events and FIFO channels stand for them.
- The other transports (web socket, HTTP/2, gRPC, WebRTC, IPC): they repeat the RPC table or the multiplexer modelled here.
- The MQTT transport: it sets its ready flag before flushing its queue, so start-up order does not hold there.
- The 500 ms grace timer and the stream events it raises: no transport modelled here fires the reconnect event that would cancel it.
- The single-namespace mode's own table of connections: each of its connections carries one label, so there is nothing to agree on.
- Channel listeners and their reply callbacks: a message is followed up to the transport it is dispatched to; late replies are not part of the start-up order.
- JSON numbers are reals: NaN, infinities and negative zero are not represented, and neither are keys with special meaning such as `__proto__`.
- The order of an object's keys: objects are maps.
- Envelopes are values: the decoder's buffers and tails alias the received chunks in the source.
- Gate.BackpressureGate.Ack: follows every listener loop that ends; a listener that takes itself off and registers again at every call makes it run forever.
- Txn.WithTxn: does not model a callback that keeps the handle and uses it after it has returned.
- Txn.RemotePort.OpenTxn: the ids of one port are taken in order from the allocator; those that other ports of the socket take in between are skipped there.
- Link.CreditConservation: covers one connected session, because the gate is not reset on a reconnect.
- Streams.SoftWindow: streams may join at any moment but do not leave; a stream that is closed detaches from the window and stops writing.
- MuxSocket.RemoteSerialClientMuxSocket.OnMuxDrain: the frames of transactions that a listener opens or ends are not among the session's frames, and a listener that disconnects the socket is not followed.
- MuxSocket.RemoteSerialClientMuxSocket.Disconnect: what is sent on the transport after it has been closed is not followed.
- RawTcp.ClientMux.FireReady: connect listeners that open labels from inside are followed by `TcpClient.RawTcpClient.Ready`.
- RawTcp.ClientMux.CloseNamespace: listeners that open labels from inside are followed by `TcpClient.RawTcpClient.CloseLabel`.
- RawTcp.ClientMux.OnClose: listeners that open labels from inside are followed by `TcpClient.RawTcpClient.SocketClosed`.
- TcpClient.RawTcpClient.CloseLabel: disconnect listeners open any list of labels but do nothing else that changes the tables.
- TcpClient.RawTcpClient.SocketClosed: likewise; what listeners open is fixed per label, because one that always opens yet another new label would never end.
- TcpClient.RawTcpClient.Ready: likewise for connect listeners.
