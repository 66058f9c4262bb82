# lnproxy in Dafny

lnproxy carries a user's TCP connections from a client C through a server S, and optionally on
through an exit node E. All connections between two nodes share one authenticated session that
multiplexes byte streams over a framed connection. This project models that session and the
bookkeeping around it, and proves what holds in every run.

| file | what it models |
|---|---|
| `Common.dfy` | bytes, optional values and results |
| `Streams.dfy`, `Sessions.dfy` | one stream and one session endpoint as values: every step of `internal/session/session.go` |
| `Pairing.dfy` | the invariant between the two ends of one stream and its frames in flight |
| `Protocol.dfy`, `SessionRuns.dfy` | two endpoints, two wires, any number of streams, any interleaving; the theorems about whole runs |
| `Openings.dfy` | from the argument of `Open` to the request the other end serves, and what becomes of the others |
| `Shutdown.dfy` | what the table and `shutdown` guarantee in every run of the code, whatever the IDs |
| `StreamIDs.dfy`, `Misuse.dfy` | where the session theorems' assumptions come from, and what happens without them |
| `Scenarios.dfy` | building blocks for the concrete runs |
| `Frames.dfy`, `ByteWire.dfy` | the frame codec, and the session over bytes with connections cut anywhere |
| `RelayChain.dfy` | a proxied connection over two session hops, in both directions |
| `CloseRace.dfy` | the channels of one stream at lock granularity |
| `SessionObjects.dfy` | `Session` and `Stream` as mutable objects, proved against the value-level functions |
| `Registry.dfy`, `Server.dfy` | exit registry and selection; interleaved `handleExit` and `forwardOpen` calls |
| `RateLimiter.dfy`, `Journal.dfy`, `LogRotation.dfy`, `KnownHosts.dfy` | authentication rate limiter, system-proxy journal, rotating log, trust on first use |

## How the session is modelled

An endpoint holds every stream ever registered, addressed by handle, and the table from ID to
handle. A move is one frame handled by `readLoop`, or one piece of a method between two locks. In
particular `forceClose` is three moves (its locked block, `removeStream`, `close(done)`), an `Open`
that gives up runs `removeStream` in one move and has its `forceClose` still before it, `CloseWrite`
sets its flag in one move and writes its frame in another, and `shutdown` takes its list of streams in
one move and then waits for each of them.

An opening is one call of `Open`. Openings are numbered, and the frames of an opening form a
channel of their own on each wire; its invariant relates the two ends and their two channels, and a
move touches the channels of one opening only. That is what rules out cross-talk, and it keeps the
proofs free of case analysis over other streams.

Conventions, each visible as a guard of the step relation:

- An ID is opened again only when it is reusable: each stream that has had it is force-closed to the
  end, or finished in both directions with everything read, and none of its frames is in flight
  (`Protocol.Reusable`); and a call on one of them that is late to write its frame does not do so any
  more (`Protocol.Quits`). A finished stream stays in the table, as the code never closes it, and is
  displaced there by the new one (`Shutdown.FinishedIDIsReused`).
  `StreamIDs.NumberedSessionsAreCovered` shows that this needs no assumption where one end opens and
  the session numbers its streams. `forwardOpen` passes a client's ID on unchanged
  (internal/node/server.go:330), so on a session from S to E it is an assumption.
  `Misuse.SharedIDsCross`, `Misuse.StaleDataCrosses` and `Misuse.LateRejectCrosses` are runs that
  break it at a stream in use, at a frame in flight and at a late Reject. `Shutdown.TableIsExact`
  and `Shutdown.ShutdownIsTotalIff` do not depend on it.
- Nobody writes to a stream after `CloseWrite`, nor across a forced close of it (`Streams.CanAct`).
  `Write` itself does not test for the first; see `Misuse.WriteAfterCloseWritePanics`.
- Handling one received frame is one step and waits while the stream's buffer is full, and no data
  is delivered to a stream between the locked block of its `forceClose` and its `removeStream`
  (`Protocol.Raw`). `SessionRuns.NextFramePanicsIff` and `CloseRace` say what the second is for.

Where the code does less than one might expect, the lemma says when:

- `shutdown` returns with a stream not closed, or its `done` still open, if and only if a call on
  that stream is between its `removeStream` and its last close, or another stream has been registered
  under its ID while it was in the table (`Shutdown.ShutdownIsTotalIff`, over every run whatever the
  IDs, with runs `ShutdownMissesOpen`, `ShutdownMissesDone` and `ShutdownMissesDisplaced`). In the last
  case a `Read` on it can be left waiting; where only reusable IDs are opened again, the stream was
  finished (`Shutdown.ShutdownLeavesFinished`).
- Two live requests with one ID on one session mix up their data (`Misuse.SharedIDsCross`,
  `StreamIDs.LostStreamStarves`), and so does an ID that is opened again with a frame of it in
  flight, although it is in neither table (`Misuse.StaleDataCrosses`).
- A delivery panics if and only if a forced close runs its locked block during it, or it starts
  between that block and the `removeStream` (`CloseRace.SendCanPanicIff`, with runs); a
  `remoteClose` in flight can leave `reads` open after `forceClose` has returned
  (`CloseRace.ReadsMayLag`).
- A connection cut right behind a frame header reads as an orderly close (`Frames.CutFrameFails`).
- `Relay` half-closes its destination after a read error as after an end of file, so that a
  truncated stream ends in a clean end of file (`RelayChain.BrokenRelayLooksComplete`); how the loop
  ended, and what was outstanding then, decides it (`RelayChain.EndDecides`).
- An exit that registers as "direct" displaces the server's own entry for good
  (`Server.DirectStaysIff`).
- An exit whose handler is up is missing from the registry if and only if it has expired or another
  handler of its ID has removed it (`Server.UpButMissingIff`, with run `ReconnectIsDropped`).
- Scores and health of exits with very large capacity overflow (`Registry.ScoreIsExactIff`,
  `Registry.HugeExitLoses`, `Registry.HealthOverflows`).
- The length comparison in `catalogLoop` misses a change if and only if as many exits came as went
  (`Registry.LengthMissesIff`).
- The bound on failed authentication attempts grows with the number of them under way at a time
  (`RateLimiter.FailuresAreBounded`), which the server does not limit (`RateLimiter.OverlapIsUnbounded`).
- A failure that is recorded behind the end of its window lifts a block that has not run out
  (`RateLimiter.BlockLiftedIff`, with run `LateFailureLiftsBlock`).
- `ExitID` of a stream is always empty: no acknowledgement ever names an exit
  (`Openings.ExitIsNeverNamed`).
- Pinning can fail if and only if the process is restarted while the file has no pin for a host that a
  certificate was accepted for (`KnownHosts.PinningFailsIff`, with run `LostPinIsForgotten`).
- The user's proxy settings are lost if and only if a failed Apply left other settings and its
  journal was removed (`Journal.LostIff`, with run `HalfAppliedIsLost`).

## Model

| member | source | states |
|---|---|---|
| `Streams.DeliverExtends` | internal/session/session.go:573-584 | a delivered chunk is appended to what the stream has received, with nothing lost or reordered |
| `Streams.PullConserves` | internal/session/session.go:453-482 | taking a chunk off the channel changes nothing in the order of bytes received |
| `Streams.CopyConserves` | internal/session/session.go:483-486 | copying out any number of bytes keeps the order and only adds to what was read |
| `Sessions.DecodeOpened` | internal/protocol/frame.go:162-180 | a request filled in by Open is decoded unchanged exactly when it is TCP with destination and port |
| `Sessions.DecodeKeeps` | internal/protocol/frame.go:162-180 | DecodeOpen accepts exactly TCP requests with destination and port, keeps every field that is set, and takes a missing ID from the frame |
| `Sessions.OpenAsks` | internal/session/session.go:118-134 | for every request and endpoint, the stream Open registers has the call's own exit, destination, port and choice, its protocol or TCP, and its ID or the session's next number |
| `Sessions.CloseStreamInSteps` | internal/session/session.go:597-615 | the locked block, removeStream and close(done), one after the other, are a whole forceClose |
| `Sessions.ReceiveInSteps` | internal/session/session.go:268-273 | an Error frame followed by the rest of its forceClose closes the stream in full and takes it out of the table |
| `Pairing.FlowEOF` | internal/session/session.go:461-471 | when Read can return EOF, everything the peer framed has been read and the peer is finished |
| `Pairing.CopyAfterEOF` | internal/session/session.go:483-486 | after an EOF nothing is left to copy |
| `Pairing.ActKeepsPair` | internal/session/session.go:434-532 | every step of one end keeps the invariant between the two ends of its stream |
| `Pairing.TakeKeepsPair` | internal/session/session.go:254-273 | a stream in the table takes its next frame, keeps the invariant, and never finds its channel closed |
| `Pairing.DropKeepsPair` | internal/session/session.go:255-259 | a frame for a stream that is force-closed or given up, and the Close sent in answer, keep the invariant |
| `Pairing.RegisterKeepsPair` | internal/session/session.go:224-240 | a stream registered for a received Open starts out related to its opener |
| `Pairing.RefuseKeepsPair` | internal/session/session.go:225-237 | an Open that is refused or dropped keeps the invariant |
| `Pairing.OpenKeepsPair` | internal/session/session.go:122-134 | a new opening starts out related to nothing |
| `Protocol.LookupMeansHeld` | internal/session/session.go:355-359 | lookup finds the stream of the latest opening of an ID exactly until a removeStream has run for it; before this end has one, it may find an earlier one |
| `Protocol.ActKeepsEp` | internal/session/session.go:361-370 | every step of a stream keeps its endpoint consistent, and the table entry goes exactly with removeStream |
| `Protocol.NextKeepsInv` | internal/session/session.go:208-285 | every move of an endpoint keeps the invariant of every ID and of both tables |
| `SessionRuns.RunKeepsInv` | internal/session/session.go:118-615 | the invariant holds after every interleaved run |
| `SessionRuns.Conservation` | internal/session/session.go:453-516 | in every reachable world, IDs reused included, written equals read, buffered, queued and in flight for the opening until the receiver is force-closed or its Open gives up, and read is always a prefix of written, for both directions of every stream |
| `SessionRuns.EOFMeansComplete` | internal/session/session.go:461-471 | a clean EOF means the peer has written exactly what was read and can write no more |
| `SessionRuns.NoDataAfterClose` | internal/session/session.go:523-532 | no Data frame follows the Close frame of its stream on the wire |
| `SessionRuns.NeverPanics` | internal/session/session.go:573-584 | no delivered frame is sent into a closed channel |
| `SessionRuns.NextFramePanicsIff` | internal/session/session.go:254-262 | in a reachable world, buffer full or not, the next frame makes readLoop panic if and only if it carries data for a stream between the locked block of its forceClose and its removeStream |
| `SessionRuns.AckNamesAnOpener` | internal/session/session.go:241-253 | every acknowledgement in flight names the stream of the latest opening of its ID, which its receiver had registered and announced |
| `SessionRuns.RunGrows` | internal/session/session.go:372-387 | over any continuation nothing written, read or closed is undone, a closed session registers nothing and keeps its first error |
| `SessionRuns.FirstErrorStays` | internal/session/session.go:372-376 | after the first shutdown its error stays and no stream is registered, in any continuation |
| `SessionRuns.FlipReachable` | internal/session/session.go:30-47 | both ends run the same code: every theorem about one end holds for the other |
| `Openings.RequestIsTheCallers` | internal/session/session.go:118-134 | after every run, whatever the IDs, every stream registered by Open asks for what the call of its opening asked for, field by field |
| `Openings.OpenIsAnswered` | internal/session/session.go:118-172 | a stream returned by Open has a peer with its ID, on which Accept wrote a positive acknowledgement, and whose request is the caller's, field by field; only acceptable calls return a stream |
| `Openings.QueuesAreBounded` | internal/session/session.go:573-584 | after every run no stream has more chunks queued than its channel holds |
| `Openings.ExitIsNeverNamed` | internal/session/session.go:434-445 | after every run ExitID of every stream is empty, since Accept answers with a field that only an opener sets |
| `Openings.RefusedOpenFails` | internal/session/session.go:225-229 | for every request that cannot be served, a run in which the peer registers nothing and Open fails with the peer's reason |
| `Openings.FrameClosesIff` | internal/session/session.go:274-283 | a received frame closes an open session if and only if it is a control frame and no handler is set; then every stream in the table is due a forced close |
| `Openings.StrayDataIsAnswered` | internal/session/session.go:255-259 | data for a stream that is gone is dropped and answered by a Close frame, which ends the writer's own reading |
| `Shutdown.TableIsExact` | internal/session/session.go:361-370 | after every run, whatever the IDs, the table leads to a stream if and only if no removeStream has run for it and no later stream has its ID; it then tells whether the stream is closed if and only if no call is between closing and removing it |
| `Shutdown.ShutdownIsTotalIff` | internal/session/session.go:372-387 | after every run, whatever the IDs: when shutdown has run the table is empty, and a stream is closed in full, errors set, if and only if no call on it is between its removeStream and its last close and no other stream has displaced it |
| `Shutdown.ShutdownLeavesFinished` | internal/session/session.go:372-387 | where only reusable IDs are opened again, what shutdown leaves behind without a call on it was finished and read to its end |
| `Shutdown.DisplacedIsDrained` | internal/session/session.go:132-132 | there, a stream that has lost its table entry to another was finished and read to its end |
| `Shutdown.ShutdownMissesOpen` | internal/session/session.go:136-140 | a run in which shutdown returns and the stream of an Open that gave up is not closed at all |
| `Shutdown.ShutdownMissesDone` | internal/session/session.go:611-613 | a run in which shutdown returns and the done channel of a stream is still open |
| `Shutdown.ShutdownMissesDisplaced` | internal/session/session.go:378-385 | for any two valid requests with one ID, a run in which shutdown returns with the first stream open and a Read on it has nothing to return |
| `Shutdown.CallFinishes` | internal/session/session.go:597-615 | a call that shutdown missed closes its stream in full by its own steps and touches no other |
| `Shutdown.FinishedIDIsReused` | internal/session/session.go:518-532 | a run within the conventions in which the ID of a finished stream, still in the table, is opened again |
| `StreamIDs.NumberedSessionsAreCovered` | internal/session/session.go:122-125 | where one end opens and leaves the IDs to the session, every run opens reusable IDs only, so all session theorems apply |
| `StreamIDs.RegisterKeepsTableIff` | internal/session/session.go:132-132 | after registering a stream the table still leads to every stream not removed if and only if its ID was not in the table |
| `StreamIDs.LostStreamStarves` | internal/session/session.go:238-238 | a stream whose ID was registered again receives not one byte more in any continuation |
| `Misuse.SharedIDsCross` | internal/node/server.go:330-339 | for any two valid requests with one ID there is a run in which the first one's data is read by the second one's stream |
| `Misuse.StaleDataCrosses` | internal/session/session.go:254-260 | with every stream of an ID retired and the ID in neither table, but a Data frame in flight, a new stream under that ID is handed the old data |
| `Misuse.LateRejectCrosses` | internal/session/session.go:447-451 | a Reject of an old stream after its ID was opened again is taken for the answer to the new Open |
| `Misuse.WriteAfterCloseWritePanics` | internal/session/session.go:488-501 | a run from the start in which Write does not refuse after CloseWrite and the receiver sends into a closed channel |
| `Misuse.DeliveryInWindowPanics` | internal/session/session.go:597-612 | a run from the start in which data arrives between the locked block of a forceClose and its removeStream |
| `Frames.UintPut` | internal/protocol/frame.go:119-120 | big-endian integers read back as written |
| `Frames.ByteWeighs` | internal/protocol/frame.go:119-120 | the order is big-endian: the byte with k bytes behind it weighs 256 to the k |
| `Frames.OversizedIff` | internal/protocol/frame.go:98-101 | a header is refused for its size if and only if it announces more than the limit |
| `Frames.WritesWhatCanBeRead` | internal/protocol/frame.go:113-129 | WriteFrame writes a frame if and only if some bytes read back as it |
| `Frames.ReadWritten` | internal/protocol/frame.go:93-129 | a written frame reads back as itself and leaves the bytes behind it untouched |
| `Frames.ReadIsCanonical` | internal/protocol/frame.go:93-111 | whatever ReadFrame accepts is exactly the encoding of the frame it returns |
| `Frames.CutFrameFails` | internal/protocol/frame.go:93-105 | a frame cut short is never accepted; the error is EOF exactly at its start and right behind its header |
| `Frames.ReadAllWritten` | internal/protocol/frame.go:93-129 | a sequence of frames reads back exactly, in order, whatever follows |
| `Frames.CutStreamIsPrefix` | internal/protocol/frame.go:93-129 | a stream of frames cut anywhere reads back as some first frames of it |
| `Frames.DrainFrames` | internal/session/session.go:213-222 | reading until failure splits the bytes into encodings of the frames returned and an unreadable rest |
| `ByteWire.MsgRoundTrip` | internal/protocol/frame.go:146-160 | every session message survives its frame encoding |
| `ByteWire.ChunksFit` | internal/session/session.go:502-515 | every chunk Write frames is within the limit ReadFrame enforces |
| `ByteWire.ParseCarries` | internal/protocol/frame.go:93-111 | a complete frame at the front of a possibly cut pipe is the first message on the wire |
| `ByteWire.ByteMoveMatches` | internal/session/session.go:208-222 | each byte-level move is a move of the frame-level session, or changes nothing in it |
| `ByteWire.ByteRunRefines` | internal/session/session.go:208-285 | every byte-level run is matched by a frame-level run |
| `ByteWire.BytesAreDelivered` | internal/session/session.go:208-285 | over bytes, with connections cut anywhere: prefix order, complete data at EOF, no panic |
| `RelayChain.LinkKeepsInv` | internal/session/relay.go:11-18 | each copy loop holds exactly what it has read and not yet written, and a hop is half-closed only behind its loop |
| `RelayChain.RelayKeepsOrder` | internal/session/relay.go:8-25 | what reaches the end of a two-hop chain is a prefix of what entered it, in every run |
| `RelayChain.EOFComesBehindLoop` | internal/session/relay.go:13-18 | the second hop is half-closed only once the copy loop has ended, so an EOF at the far end of an unbroken hop comes behind it |
| `RelayChain.CleanRelayIsComplete` | internal/session/relay.go:13-18 | after an EOF at the far end, behind a loop that ended at an EOF, everything has arrived |
| `RelayChain.BrokenRelayLooksComplete` | internal/session/relay.go:13-18 | a run in which the loop ends on an error and the far end reads a clean EOF with the data missing |
| `RelayChain.CompleteIff` | internal/session/relay.go:13-18 | after an EOF at the far end, everything arrived if and only if each hop and each loop passed on all it was given |
| `RelayChain.EndDecides` | internal/session/relay.go:13-18 | in every run, once the copy loop has ended: at an EOF, every later EOF at the far end is complete; on an error, truncated if something was outstanding, complete if nothing was and the writer had finished |
| `RelayChain.LateWriteIsLost` | internal/session/relay.go:13-18 | in the remaining case one more write to the first hop is never passed on |
| `RelayChain.DuplexKeepsOrder` | internal/session/relay.go:20-22 | with both directions running over the same hops, each delivers a prefix of what it was given, in every run |
| `CloseRace.ClosedAtMostOnce` | internal/session/session.go:586-615 | under any interleaving of remoteClose and forceClose calls, reads and done are each closed at most once |
| `CloseRace.ClosedExactlyOnce` | internal/session/session.go:597-615 | when all calls have returned, one forceClose among them, both are closed exactly once |
| `CloseRace.CallsReturn` | internal/session/session.go:586-615 | from every state of every run the calls under way can all return by their own steps |
| `CloseRace.SenderEscapes` | internal/session/session.go:578-583 | once a forceClose has returned, a delivery that waits for room can escape without a panic |
| `CloseRace.ReadsMayLag` | internal/session/session.go:586-595 | forceClose can return while reads is still open |
| `CloseRace.SendCanPanicIff` | internal/session/session.go:573-615 | over every run, a send can come to panic if and only if a forceClose runs its locked block during a delivery or a delivery starts between that block and the removeStream |
| `CloseRace.UndisturbedSendsAreSafe` | internal/session/session.go:573-584 | no send panics in a run in which no forceClose overtakes a delivery |
| `CloseRace.OvertakenSendPanics` | internal/session/session.go:578-583 | a run from a fresh stream in which a forceClose overtakes a delivery and the send panics |
| `CloseRace.LateSendPanics` | internal/session/session.go:607-612 | a run in which the delivery starts between the locked block and the removeStream |
| `SessionObjects.ChunksCarry` | internal/session/session.go:502-514 | the frames Write cuts carry exactly its argument, each of legal size |
| `SessionObjects.WriteActsSend` | internal/session/session.go:502-514 | the turns of the loop in Write together send what the frames carry and change nothing else |
| `SessionObjects.StreamObject.Read` | internal/session/session.go:453-486 | Read returns the next bytes in order, or EOF, an error or a wait, and loses nothing; it returns bytes if and only if some are buffered, or queued with no read error, and an error if and only if nothing is buffered and one is set |
| `SessionObjects.StreamObject.Write` | internal/session/session.go:488-516 | the frames on the wire and those of the rest are the whole argument, wherever the write fails; the stream has made one WriteChunk act for each and is force-closed on failure; on an open stream and session it succeeds if and only if the connection takes all the frames, and otherwise has written every frame it takes |
| `SessionObjects.StreamObject.CloseWrite` | internal/session/session.go:523-532 | the first call half-closes and sends a Close frame, later ones change nothing; it fails exactly when the frame cannot be sent |
| `SessionObjects.StreamObject.Accept` | internal/session/session.go:434-445 | Accept acknowledges on a live session and otherwise force-closes |
| `SessionObjects.StreamObject.Reject` | internal/session/session.go:447-451 | Reject sends a negative acknowledgement if it can and force-closes |
| `SessionObjects.StreamObject.TakeAck` | internal/session/session.go:142-153 | Open hands the stream out, or takes it out of the table, force-closes it and fails, in that order |
| `SessionObjects.StreamObject.Deliver` | internal/session/session.go:573-584 | the object's fields after deliver are those of the value-level function |
| `SessionObjects.StreamObject.RemoteClose` | internal/session/session.go:586-595 | the object's fields after remoteClose are those of the value-level function |
| `SessionObjects.StreamObject.ForceClose` | internal/session/session.go:597-615 | stream, table and session after forceClose are those of the value-level function |
| `SessionObjects.SessionObject.OpenCall` | internal/session/session.go:118-134 | Open registers, under its own ID or the next number, a stream with the call's request field by field, or refuses on a closed session |
| `SessionObjects.SessionObject.RemoveStream` | internal/session/session.go:361-366 | only the stream the table still points at is taken out |
| `SessionObjects.SessionObject.HandleFrame` | internal/session/session.go:223-283 | one turn of the read loop does to the objects what the value-level step says, with the forceClose of an Error frame run to its end |
| `SessionObjects.SessionObject.Shutdown` | internal/session/session.go:372-387 | each stream in the table that no forceClose has begun on is force-closed and leaves the table, the others stay pending, no other is touched, and a second call changes nothing |
| `Registry.HealthMeaning` | internal/node/registry.go:155-163 | healthy means room and at most nine tenths used, degraded room and more, for counts whose products fit in 64 bits |
| `Registry.HealthOverflows` | internal/node/registry.go:159-161 | an idle exit of very large capacity passes for degraded |
| `Registry.ScoreIsExactIff` | internal/node/registry.go:122-123 | the int64 score is the intended one if and only if that fits |
| `Registry.HugeExitLoses` | internal/node/registry.go:122-124 | with overflow, an idle exit of huge capacity loses to one with a single slot |
| `Registry.LessIff` | internal/node/registry.go:96-98 | IDs are ordered like a dictionary: the first difference decides, and a proper prefix comes first |
| `Registry.BestExists` | internal/node/registry.go:114-134 | there is a best exit if any is eligible |
| `Registry.ReportIsKept` | internal/node/registry.go:50-63 | after a report the entry has the reported counts, is fresh exactly until staleFor later, and nothing else has changed |
| `Registry.AddIsKept` | internal/node/registry.go:41-48 | a registration replaces the entry of its ID, is fresh exactly until staleFor later, and changes no other entry |
| `Registry.EntryLastsIff` | internal/node/registry.go:71-84 | over any updates that do not name it, an entry stays as it is if and only if it is fresh at every expiry |
| `Registry.BestIsUnique` | internal/node/registry.go:117-129 | there is one best exit, so map order does not matter |
| `Registry.BestIsExact` | internal/node/registry.go:117-129 | without overflow the best exit has the greatest intended score |
| `Registry.KeepBetter` | internal/node/registry.go:124-128 | one turn of the selection loop keeps the best exit seen so far |
| `Registry.OpsKeepRegistry` | internal/node/registry.go:41-84 | any sequence of updates keeps keys, capacities and health consistent |
| `Registry.EligibleHasHeadroom` | internal/node/registry.go:111-153 | whatever can be selected was at nine tenths of capacity or less at its last report |
| `Registry.LengthTellsChange` | internal/node/server.go:368-373 | with no registration in between, the lengths differ if and only if the set of exits changed |
| `Registry.LengthMissesIff` | internal/node/server.go:369-371 | the lengths agree although the set of exits changed if and only if as many came as went, and at least one did |
| `Registry.LengthCanMissChange` | internal/node/server.go:369-371 | with one in between, a change can go unnoticed |
| `Registry.ListIsUnique` | internal/node/registry.go:86-99 | the sorted list of the entries is unique |
| `Registry.Registry.AddExit` | internal/node/registry.go:41-48 | the entry is stored under its own ID with the given health and time |
| `Registry.Registry.Heartbeat` | internal/node/registry.go:50-63 | a known exit takes over the reported counts and its health is recomputed; an unknown one is ignored |
| `Registry.Registry.RemoveExit` | internal/node/registry.go:65-69 | exactly the named entry is removed |
| `Registry.Registry.ExpireStale` | internal/node/registry.go:71-84 | exactly the persistent and fresh entries remain |
| `Registry.Registry.Snapshot` | internal/node/registry.go:86-99 | one element per key, strictly sorted by ID |
| `Registry.Registry.Select` | internal/node/registry.go:111-143 | the best exit, the named exit, or a fallback; an error exactly when there is none |
| `Registry.Registry.SelectAuto` | internal/node/registry.go:114-134 | the unique maximum of score and then smallest ID among eligible exits, or none is eligible |
| `Registry.Registry.SelectAny` | internal/node/registry.go:146-153 | some eligible exit, or none is eligible |
| `Server.StepKeepsTable` | internal/node/server.go:262-283 | every interleaved step keeps exitConns on the latest handler of each exit |
| `Server.NoOrphanExits` | internal/node/server.go:268-284 | every remote registry entry belongs to a handler that added it and has not yet removed it |
| `Server.UpButMissingIff` | internal/node/server.go:268-284 | an exit whose handler is up and has added it is missing if and only if, since the last registration of its ID, it expired or another handler of its ID removed it |
| `Server.ReconnectIsDropped` | internal/node/server.go:279-284 | a run in which the unguarded removal by a superseded handler takes out its successor's entry |
| `Server.NothingIsLeftBehind` | internal/node/server.go:278-287 | when all handlers have returned only the direct exit can remain, and no connection |
| `Server.DirectStaysIff` | internal/node/server.go:56-65 | the direct exit stays registered if and only if no exit has registered under its ID |
| `Server.SuccessorIsNeverEvicted` | internal/node/server.go:262-283 | exitConns names exactly the latest handler while it is up; a superseded one has had its session closed |
| `Server.RequestsReachTheirExit` | internal/node/server.go:303-340 | a request is served directly, dialled to the selected exit, or rejected; an explicit one never goes elsewhere |
| `Server.DialsTheLatest` | internal/node/server.go:323-330 | the handler dialled is the latest one and has not torn down |
| `Server.SettlesExactly` | internal/node/server.go:310-329 | in every reachable state a request with its exit is served directly if and only if that is the direct one, dialled to a handler if and only if that is up, the latest and of that exit, and rejected if and only if there is none |
| `Server.RefusedIff` | internal/node/server.go:305-309 | a request is refused without an exit if and only if none can be had for it |
| `Server.ChoiceIsFixed` | internal/node/server.go:305-309 | otherwise there is exactly one exit it can be given, whatever the map order |
| `Server.RequestKeepsItsWish` | internal/node/server.go:303-340 | over any run from its arrival, a request that names an exit is dialled to that exit only, and served directly only if it named the direct one |
| `Server.RegisteredAsAnnounced` | internal/node/server.go:236-275 | whatever happens in between, an exit is registered as it announced itself, with the server's defaults for what it left empty |
| `Server.HeartbeatLastsIff` | internal/node/server.go:250-261 | over any run behind a heartbeat without another step of that exit, it stays registered with the reported counts if and only if no expiry came more than 45 seconds later or it is persistent |
| `Server.SessionEndTearsDown` | internal/node/server.go:278-285 | when its session ends a handler can leave at once, taking out its registry entry, and its connection if and only if it is the latest |
| `Server.SelectedExitsHaveHeadroom` | internal/node/server.go:244-275 | over every run with a positive limit, any exit a request can be given has headroom |
| `RateLimiter.Limiter.Allowed` | internal/auth/auth.go:222-234 | refuses exactly until the recorded end of the block and forgets an expired window |
| `RateLimiter.Limiter.Fail` | internal/auth/auth.go:236-249 | counts within the window and blocks from the limit on |
| `RateLimiter.Limiter.Success` | internal/auth/auth.go:251-255 | forgets the key and no other |
| `RateLimiter.NeverBlockedEarly` | internal/auth/auth.go:222-249 | a refused key has had at least `limit` failures within one window and no success since, in any run |
| `RateLimiter.RefusedIff` | internal/auth/auth.go:222-255 | after every run a key is refused if and only if the window of its last failure reached the limit and that failure is less than blockFor ago, whatever was checked in between |
| `RateLimiter.BlocksEnd` | internal/auth/auth.go:222-230 | a refused key has failed less than blockFor ago, and neither failed nor succeeded since |
| `RateLimiter.QuietKeyIsLetThrough` | internal/auth/auth.go:222-230 | a key without a failure in the last blockFor is let through |
| `RateLimiter.BlockLiftedIff` | internal/auth/auth.go:236-255 | an event lifts a block before its time if and only if it is a success of the key, or a failure of it behind the end of the window with a limit above one |
| `RateLimiter.LateFailureLiftsBlock` | internal/node/server.go:53-53 | with the server's limits, a run in which a late failure lets a blocked key through |
| `RateLimiter.RunKeepsHistory` | internal/auth/auth.go:222-249 | windows of a key are disjoint, and failures past the limit come in rounds of at most c, a block apart |
| `RateLimiter.FailuresAreBounded` | internal/auth/auth.go:222-255 | a key with at most c attempts under way at a time, none successful, records at most (T/(window+1)+1)*(limit-1+c*(window/blockFor+1)) failures in time T |
| `RateLimiter.OverlapIsUnbounded` | internal/node/server.go:157-173 | with n attempts under way, n failures can be recorded in one instant |
| `Journal.LostIff` | internal/client/runtime.go:63-150 | over any starts, shutdowns, failures and crashes, the user's settings are lost at some point if and only if a failed Apply left other settings and its journal was then removed |
| `Journal.NothingIsLost` | internal/client/runtime.go:63-150 | otherwise the settings are the user's or a complete journal holds them |
| `Journal.AtomicIsSafe` | internal/client/runtime.go:134-141 | where a failed Apply changes nothing, the settings are safe at every point of every run |
| `Journal.CrashIsRecovered` | internal/client/runtime.go:282-295 | from any state of a run that forgot nothing, a failed Apply included, a start whose recovery succeeds brings the user's settings back |
| `Journal.ShutdownRestores` | internal/client/runtime.go:249-280 | a shutdown that restores and removes its journal leaves the user's settings |
| `Journal.ShutdownActs` | internal/client/runtime.go:249-280 | a shutdown of a running process restores the user's settings and removes the journal where its own are still in place, and leaves both alone where they are not |
| `Journal.UnsupportedIsHarmless` | internal/client/runtime.go:114-125 | where no snapshot can be taken, no run touches the settings, and a start still succeeds without a journal |
| `Journal.RecoveryIff` | internal/client/runtime.go:282-295 | a start gets past its recovery if and only if there is no journal or a complete one is restored and removed; otherwise the journal stays |
| `Journal.TakesOverIff` | internal/client/runtime.go:114-149 | a start runs with a journal of the settings it found, without one, or fails, each if and only if; settings are touched only behind the journal |
| `Journal.HalfAppliedIsLost` | internal/client/runtime.go:135-142 | a run in which a half-applied setting stays and the user's is nowhere |
| `Journal.Runtime.WriteJournal` | internal/systemproxy/systemproxy.go:48-66 | the journal is replaced whole or not at all, and every state on the way is safe |
| `Journal.Runtime.RecoverJournal` | internal/client/runtime.go:282-295 | recovery restores the user's settings and keeps the journal where it fails, and every state on the way is safe |
| `Journal.Runtime.TakeOver` | internal/client/runtime.go:114-149 | the proxy is applied under a journal of the old settings, and every state on the way is safe unless a failed Apply left other settings and its journal was removed |
| `Journal.Runtime.RestoreProxy` | internal/client/runtime.go:249-280 | a successful restore returns the user's settings; a failed one keeps the journal; settings that are not its own are left alone |
| `LogRotation.RenameMoves` | internal/logging/logging.go:65-74 | one rename of the descending loop settles one place and frees the next |
| `LogRotation.RotationConserves` | internal/logging/logging.go:61-76 | a rotation loses the oldest backup, if it pushes it out, and nothing else |
| `LogRotation.RotatingWriter.Rotate` | internal/logging/logging.go:61-76 | every file is in its new place and the current one is fresh |
| `LogRotation.RotatingWriter.Write` | internal/logging/logging.go:48-59 | everything written is dropped, then backups, then current file, in order; no file exceeds the limit or the longest record; while the record fits nothing is moved or dropped, and otherwise exactly the last place is dropped |
| `LogRotation.RotatingWriter.Open` | internal/logging/logging.go:30-46 | the size is the length of the file found or created |
| `LogRotation.RotatingWriter.Reopen` | internal/logging/logging.go:30-46 | a writer that reopens the log finds its history and size unchanged |
| `KnownHosts.NormalizeIdempotent` | internal/transport/conn.go:70-75 | normalisation is idempotent |
| `KnownHosts.EqualIsEquivalence` | internal/transport/conn.go:77-79 | equality of fingerprints is an equivalence |
| `KnownHosts.NormalizeIff` | internal/transport/conn.go:70-75 | a text normalises to a fingerprint if and only if it spells it, in either case, with blanks and with dashes for colons, whatever white space surrounds it |
| `KnownHosts.FingerprintReads` | internal/transport/conn.go:61-68 | each byte of the digest is two hexadecimal digits, high one first, with a colon in between |
| `KnownHosts.FingerprintIsNormal` | internal/transport/conn.go:61-68 | a computed fingerprint is in normal form |
| `KnownHosts.FingerprintInjective` | internal/transport/conn.go:61-68 | different digests have different fingerprints |
| `KnownHosts.Store.Save` | internal/transport/knownhosts.go:69-105 | a pin is never replaced by another fingerprint; without a pin and without confirmation nothing changes; the file follows the memory if it can be written; no other host changes |
| `KnownHosts.NothingIsTrustedUnasked` | internal/transport/knownhosts.go:75-85 | over every run, with restarts anywhere, a certificate accepted for a host has the fingerprint the file held at the start, or the user confirmed that very certificate for that host in the run |
| `KnownHosts.ConnectionAcceptedIff` | internal/transport/conn.go:122-140 | a connection that no other overlaps is accepted if and only if its certificate has the pinned fingerprint, or there is none, the user confirms and the pin is written |
| `KnownHosts.TrustPins` | internal/transport/conn.go:122-140 | all certificates accepted for one host, over any interleaving and any restarts with the pins of accepted hosts in the file, are one and the same |
| `KnownHosts.PinningFailsIff` | internal/transport/knownhosts.go:69-105 | over every run, one more connection can at some point leave two certificates accepted for one host if and only if a restart found no pin in the file for a host with an accepted certificate |
| `KnownHosts.LostPinIsForgotten` | internal/transport/knownhosts.go:87-104 | a pin that reached the memory but not the file is forgotten by a restart |

## Left out

- QUIC, TLS, TCP, deadlines and contexts: a connection is a reliable FIFO of bytes that may end at any byte.
- JSON: an encoding that its decoder undoes; the three record encodings are parameters of the byte-level theorems.
- The handshake, Argon2id and HMAC: with opaque cryptography nothing but uninterpreted functions would remain.
- HTTP CONNECT and SOCKS5 front ends, the reconnect logic of the client manager, configuration, shell and command line: parsing, field assignments and I/O with no state shared between runs.
- Platform proxy adapters: a successful restore is taken to be the inverse of a snapshot; a failed Apply or Restore may leave anything behind.
- The connection limit as a hard bound: it is checked and acted on in separate steps, so no bound holds over concurrent handlers.
- `dispatch` and `dispatchLoop`: handing a stream to its handler moves no data; a handler may act from the moment its stream is registered.
- Client connections and catalogue pushes of the server: they read the registry and change nothing the model speaks of.
- `Check` and `SaveUnconfirmed` of the trust store, a fingerprint fixed by configuration, and the version check of the journal: not on the paths modelled, or a single comparison.
- `Request` and `RemoteAddr` of a stream that `Open` returned: the source leaves its request field empty; the model keeps there what the call sent.
- Error texts that the Go runtime or a frame type adds to: one fixed text stands for each.
- Memory layout of buffers: slices are values, so the copies the source makes to avoid aliasing are not visible.
- Relay as a pair of goroutines: each copy loop is a buffer between two reads and writes, and its end and half-close are steps of the chain; the final Close calls of `Relay` add nothing after CloseWrite.
- ByteWire.BytesAreDelivered: over bytes an ID is opened again only on connections that have not been cut, since the frames lost behind a cut cannot be counted.
- The server's handlers, the read loop's interleavings and the connections of the trust store are step relations over values, since their subject is interleaving under locks; only the sequential effect of session methods is modelled on objects.
- KnownHosts.NormalizeIdempotent: upper-casing and white space are ASCII; the source uses the Unicode tables.
- Registry.HealthMeaning: states what the comparison means only where both products fit in 64 bits; beyond that `Registry.HealthOverflows` gives an input that fails.
- RateLimiter.FailuresAreBounded: time is a whole number of clock ticks, and the saturation of very long durations is not modelled.
- StreamIDs.NumberedSessionsAreCovered: the ID counter is unbounded; wrap-around after 2^64 streams of one session is not modelled.
- LogRotation.RotatingWriter.Rotate: renames fail only because the source is missing; other I/O errors end the write in the source and are not modelled.
