# A verified model of a TFTP server session

The server handles one transfer per session: a listening machine takes a read or write request,
serves it in lock-step over UDP (RFC 1350, with the options of RFC 2347, 2348 and 2349), and listens
again. The machine is a Boost.MSM transition table of 27 rows whose guards compare 16-bit block
numbers with wider counters and whose actions update buffers, counters and a file stream in place.
This project models that machine and the request and option codec around it, and proves what the
protocol promises, from single events up to whole transfers over an unreliable network.

`dafny verify dfyconfig.toml` checks everything.

## How it is built

- **Codec.** `Octets` (big-endian headers), `Options` (names, modes, decimal numerals), `Tokenizer`
  (the NUL-token iterator, a class with a cursor), `RequestParser` (the parsing loop) and `Oack` (the
  option acknowledgment, printed in place).
  `WireFormat` says in literals what every packet is octet for octet, and `Answers` what a client sees in
  answer to a request, a failure or an illegal packet.
- **Machine on values.** `SessionData` holds the fields, guards and actions, `TransitionTable` the rows
  in their order (each named after its line in the source), `Machine` dispatch, completion and the
  handlers that turn a datagram, a finished send or a timeout into an event. Of all enabled rows the
  last of the table fires, as Boost.MSM has it.
- **Machine in place.** `SessionMachine` is the same machine as a class with arrays and mutable fields.
  Each method ends in the value that the function of the same name computes from the old value, and the
  traces of packets sent and blocks written grow as the function says. The theorems are about the
  functions, so they hold of the class.
- **One session.** `ReadSession` refines `StopAndWait`, an abstract sender with a block number and a
  budget of resends; `ReadRuns` and `ReadProgress` follow it over whole runs. `WriteSession` and
  `WriteRuns` do the same for the receiver, including what is left of it after row 93.
- **Many sessions.** `Reachability` (an invariant of every reachable state and what follows from it),
  `Independence` (what a session leaves behind, and where the next one shows it), `RowOverlap`.
- **End to end.** `ReadTransfer` and `WriteTransfer` put the server beside an RFC 1350 client and a
  network in which every packet ever sent may arrive late, again, in any order, or never, and where
  anyone else may send anything to the server. `ReadCompletion` and `WriteCompletion` say from which
  states and for which files such a transfer can come to its end, in terms of `Paths`.

A trace holds the octets of the packets sent. They all go to `agreed_remote_endpoint_`, which the request
sets and the session keeps (`RequestSetsPeer`, `SessionKeepsPeer`).

The file system is an oracle: a request comes with what the path lookup found, the file's contents, and
how `open` ended, and each event with how a read or a write ends, so every failure is covered.

## What the proofs brought to light

The model does what the code does. These points of the code differ from what one might expect, and the
theorems are stated accordingly.

- A file can be read to a final acknowledgment if and only if it is shorter than 65535 blocks: block
  65536 goes out under number 0, its acknowledgment counts as old, and the block is resent until the
  session gives up (`RequestIsServedIffFileFits`, `ReadCompletesIffFileFits`, `Block65536IsGivenUp`).
- Row 93 sends a write session to `WaitingForAck`, so a repeated DATA packet, or any packet of another
  endpoint, ends the receiving. What is on the file stays right (`ReceivesOnIffSaved`,
  `RepeatedBlockEndsTheTransfer`, `WriteIsSafe`).
- A write session does not end with the last block. It ends by its fourth timeout, and has three resends
  for all of its blocks together (`ReceivingEndsByTimeout`, `AtMostThreeResends`).
- `HasErrReceived` does not look at the endpoint, so an ERROR of anyone ends a waiting sender
  (`ForeignErrorEndsTheSession`).
- `std::fstream::open` reports failure in the fail bit, while the actions test the bad bit. A file that
  is found but cannot be opened is therefore served as an empty file (`FileIsServedIffOpened`,
  `ReadableIsTheFile`, `UnopenedFileIsServedAsEmpty`).
- `TransferState::Reset` clears a local variable in place of the file size, and the timeout is not reset
  either. A later session still sends the same packets and makes the same writes for the same events
  (`SessionsAreIndependent`), but the timeout shows in how long it waits: after one read request with a
  timeout option, even a refused one, sessions that settle no timeout of their own wait that long for
  every packet (`WaitsAreIndependentIff`, `RefusedRequestLeavesTimeOut`).
- A malformed request raises `AcceptingFailed`, which no row takes, and is then parsed all the same. A
  datagram that is neither a read nor a write request leaves the machine with no receive outstanding
  (`MalformedMakesNoDifference`, `OnOtherDatagram`).

## Model

| member | source | states |
|---|---|---|
| `ReadTransfer.ReadIsSafe` | src/machine/include/zwiibac/tftp/machine/transition_table.h:115-127 | For every request at a listening server and every run of server, RFC 1350 client and a network that loses, duplicates, delays, reorders and forges from other endpoints: the client's bytes are a prefix of what the file stream delivers, and all of it once the client has seen a short block |
| `ReadTransfer.FinalAckMeansDelivered` | src/machine/include/zwiibac/tftp/machine/transition_table.h:127 | When the server ends a session on a final acknowledgment, the client already holds the whole file |
| `ReadTransfer.ReadableIsTheFile` | src/action/include/zwiibac/tftp/action/init_serve_read_request.h:49-54 | A client that is done holds the file that was asked for if and only if the open succeeded or the file is empty (a failed `open` sets only the fail bit, which line 50 does not test) |
| `ReadSession.FileIsServedIffOpened` | src/action/include/zwiibac/tftp/action/init_serve_read_request.h:49-54 | After an accepted read request the stream of the machine holds the file if and only if the open succeeded or the file is empty |
| `ReadCompletion.ReadCompletesIffFileFits` | src/machine/include/zwiibac/tftp/machine/transition_table.h:115-127 | A run of the whole system in which the client receives its file to the end exists if and only if the request is not refused, the block read at once (when no option is acknowledged first) does not fail, and the stream delivers less than 65535 blocks of the agreed size |
| `ReadCompletion.ReadCompletesFromEveryState` | src/machine/include/zwiibac/tftp/machine/transition_table.h:115-127 | From every state that the system reaches, the client can still receive its file to the end if and only if the file is shorter than 65535 blocks and the server is still sending or has sent the last block already |
| `ReadCompletion.CompletesWhileActive` | src/machine/include/zwiibac/tftp/machine/transition_table.h:121-127 | From every state in which the server is still sending and the file fits, a run brings the client to the end |
| `ReadCompletion.CompletesWithLastPacket` | src/machine/include/zwiibac/tftp/machine/transition_table.h:126-127 | Once the last block has been sent the client can complete whatever became of the server |
| `ReadSession.UnopenedFileIsServedAsEmpty` | src/action/include/zwiibac/tftp/action/init_serve_read_request.h:49-54 | Any request for a file that is found but fails to open, with or without options, starts a session whose only block is empty instead of an error |
| `ReadSession.FinalAckIsOfLastBlock` | src/machine/include/zwiibac/tftp/machine/transition_table.h:127 | An exact acknowledgment ends a session only at the last block |
| `ReadSession.ForeignErrorEndsTheSession` | src/guard/include/zwiibac/tftp/guard/has_err_received.h:15-16 | A datagram of another endpoint ends the session of a waiting sender if and only if it is an ERROR packet, and any other leaves it waiting as it was |
| `ReadTransfer.StepKeepsInv` | src/machine/include/zwiibac/tftp/machine/transition_table.h:115-127 | One step of server, client or network keeps the system invariant: packets in flight were sent by this session, acknowledgments name received blocks, the server is at most one block ahead |
| `WriteTransfer.WriteIsSafe` | src/machine/include/zwiibac/tftp/machine/transition_table.h:86-96 | Under the same network, for every client file: the server's file is always a prefix of it; if no write fails it is exactly the blocks 1 to k for some k, which is `last_saved_block_` until the session is reset, also while an error is pending and after the session; while the session receives or is diverted by row 93 that holds whatever fails; and it is the whole file once the client is told of its last block, although the duplicate filter only compares with `<=` |
| `WriteCompletion.WriteCompletesIffFileFits` | src/machine/include/zwiibac/tftp/machine/transition_table.h:86-96 | A run of the whole system in which the last block of the client is acknowledged exists if and only if the request is not refused, the file opened, and the client's file is shorter than 65535 blocks of 512 octets |
| `WriteCompletion.WriteCompletesFromEveryState` | src/machine/include/zwiibac/tftp/machine/transition_table.h:86-96 | From every state that the system reaches, the client can still have its last block acknowledged if and only if its file is shorter than 65535 blocks and the server still receives into a good stream or has acknowledged the last block already |
| `WriteCompletion.CompletesWhileSaving` | src/machine/include/zwiibac/tftp/machine/transition_table.h:89-95 | From every state in which the server receives into a good stream and the file fits, a run brings the client to its last acknowledgment |
| `WriteTransfer.RunKeepsInv` | src/machine/include/zwiibac/tftp/machine/transition_table.h:86-96 | Every run of the system keeps its invariant, and keeps the file at a block boundary as long as no write fails |
| `WriteTransfer.NextBlockOnly` | src/guard/include/zwiibac/tftp/guard/is_old_data.h:15 | A block that passes the filter carries the number one above the last saved one, so no block is skipped |
| `ReadSession.ReadRefinesStopAndWait` | src/machine/include/zwiibac/tftp/machine/transition_table.h:115-127 | Every event of a read session is a step of the abstract stop-and-wait sender with the same packet sent; old acknowledgments and foreign packets other than ERROR are stutter steps that send nothing |
| `StopAndWait.EverySignalCounts` | src/machine/include/zwiibac/tftp/machine/transition_table.h:115-127 | Every signal either is ignored, changing and sending nothing, or lowers the measure of blocks left, resends left and phase |
| `ReadSession.ReadSessionStarts` | src/machine/include/zwiibac/tftp/machine/transition_table.h:115-120 | For every request datagram: refused with the right code, or block 1, or the option acknowledgment first, with the transfer the request asked for |
| `ReadSession.NextBlockKeepsInvariant` | src/action/include/zwiibac/tftp/action/form_data_packet.h:14-31 | From the end of block k the action leaves block k+1 under its number in the send packet with a fresh budget, or the session turns to ERROR 3 |
| `ReadSession.ReadNextBlock` | src/action/include/zwiibac/tftp/action/form_data_packet.h:16-24 | Reading on from the end of block k yields exactly block k+1 and leaves the stream good if and only if more follows |
| `ReadSession.LastBlockIsRemainder` | src/guard/include/zwiibac/tftp/guard/has_more_data_to_send.h:14 | The last block is the remainder of the file size by the block size, so it is empty when the size divides it |
| `ReadSession.BlockLength` | src/guard/include/zwiibac/tftp/guard/has_more_data_to_send.h:14 | A block has full length if and only if it is not the last one |
| `ReadSession.HasMoreIsNotLast` | src/guard/include/zwiibac/tftp/guard/has_more_data_to_send.h:11-15 | The guard holds exactly before the last block, with the option acknowledgment as block 0 |
| `ReadSession.BlocksAreTheFile` | src/action/include/zwiibac/tftp/action/form_data_packet.h:14-31 | The blocks joined in order are the file |
| `ReadSession.InitIsAtBlock` | src/action/include/zwiibac/tftp/action/init_serve_read_request.h:36-78 | Mode and path decide between ERROR 4, ERROR 1 and a session at block 0 with exactly the options, block size and peer the request settles |
| `ReadRuns.EveryReadRun` | src/machine/include/zwiibac/tftp/machine/transition_table.h:115-127 | For every run after a read request, the packets sent are one error packet alone, or the packets of the transfer in order without a gap, each one to four times, with an error packet at most at the end |
| `ReadRuns.NoPacketMoreThanFourTimes` | src/machine/include/zwiibac/tftp/machine/transition_table.h:119-123 | In every run no packet goes out more than four times, and a resend is byte for byte the first send |
| `ReadRuns.StepKeepsHistory` | src/machine/include/zwiibac/tftp/machine/transition_table.h:119-123 | Each event extends that history as the abstract sender says: one more copy of the current packet, the next packet, or nothing |
| `ReadRuns.RunKeepsHistory` | src/machine/include/zwiibac/tftp/machine/transition_table.h:115-127 | The history is kept over every run within the session |
| `ReadRuns.AtMostFourTimes` | src/guard/include/zwiibac/tftp/guard/can_retry.h:11 | A session with such a history has sent any given packet at most four times |
| `ReadRuns.WireNumbersDiffer` | src/action/include/zwiibac/tftp/action/form_data_packet.h:25-29 | No two DATA packets of a session share a block number on the wire, though the counter is cut to 16 bits |
| `ReadRuns.PacketsDiffer` | src/action/include/zwiibac/tftp/action/form_data_packet.h:25-29 | All packets of a session up to block 65536, option acknowledgment included, are different |
| `ReadProgress.RequestIsServedIffFileFits` | src/guard/include/zwiibac/tftp/guard/has_ack_received.h:15-17 | From an accepted read request a final acknowledgment can be reached if and only if the file is shorter than 65535 blocks of the agreed size |
| `ReadProgress.FinishesIffFileFits` | src/guard/include/zwiibac/tftp/guard/has_ack_received.h:15-17 | The same from every state within the session |
| `ReadProgress.Progress` | src/machine/include/zwiibac/tftp/machine/transition_table.h:115-127 | If every packet is acknowledged before its fourth timeout and nothing fails, after e exact acknowledgments the session is e blocks on, and one beyond the last block it is listening again, having sent each packet of the transfer and no other |
| `ReadProgress.RequestProgress` | src/machine/include/zwiibac/tftp/machine/transition_table.h:115-127 | The same from the request on: after e exact acknowledgments the session is at packet first + e, and one more than there are packets ends it with exactly those packets sent |
| `ReadProgress.Block65536IsGivenUp` | src/guard/include/zwiibac/tftp/guard/has_ack_received.h:15-17 | A session that has sent block 65536 never moves on or finishes: it only resends, and is over within nine events besides the ignored ones |
| `ReadProgress.StepLowersMeasure` | src/machine/include/zwiibac/tftp/machine/transition_table.h:115-127 | Every event of a session but an ignored packet strictly lowers the termination measure |
| `ReadProgress.RunIsBounded` | src/guard/include/zwiibac/tftp/guard/can_retry.h:11 | A run has no more events, besides the ignored ones, than the measure at its start |
| `ReadProgress.EveryReadRunIsBounded` | src/guard/include/zwiibac/tftp/guard/can_retry.h:11 | From the request on that is at most eight events a block, and nine |
| `ReadProgress.FinishesInLockStep` | src/machine/include/zwiibac/tftp/machine/transition_table.h:121-127 | A run that ends on the final acknowledgment exists whenever the last block has a 16-bit number |
| `WriteRuns.EveryWriteRun` | src/machine/include/zwiibac/tftp/machine/transition_table.h:86-96 | For every run after a write request: written block numbers grow strictly, at most 65535 writes, and while blocks are received the file is the log and at most three packets are resends |
| `WriteRuns.WriteStep` | src/action/include/zwiibac/tftp/action/write_data.h:14-30 | Each event keeps the write history: log, file, acknowledgments sent and resends counted |
| `WriteRuns.WriteRun` | src/machine/include/zwiibac/tftp/machine/transition_table.h:86-96 | The history is kept over every run within the session |
| `WriteRuns.AtMostThreeResends` | src/machine/include/zwiibac/tftp/machine/transition_table.h:90-91 | Resends of the whole session together are at most three, for no row of the write half resets the count |
| `WriteRuns.NothingWrittenOnceDiverted` | src/machine/include/zwiibac/tftp/machine/transition_table.h:93 | Once row 93 (or an error) is taken nothing more is written until the session is reset |
| `WriteRuns.WriteStepLowersMeasure` | src/machine/include/zwiibac/tftp/machine/transition_table.h:86-96 | Every event of a session that receives blocks lowers blocks left and resends left, or ends the receiving |
| `WriteRuns.ReceivingIsBounded` | src/machine/include/zwiibac/tftp/machine/transition_table.h:86-96 | Receiving lasts at most 131077 events |
| `WriteRuns.WriteSessionIsBounded` | src/machine/include/zwiibac/tftp/machine/transition_table.h:86-127 | A run of a write session, diverted or not, has no more events, besides the packets passed over after row 93, than the measure at its start |
| `WriteRuns.EveryWriteRunIsBounded` | src/machine/include/zwiibac/tftp/machine/transition_table.h:86-127 | From the request on that is at most 131095 events |
| `WriteRuns.DivertedStepCounts` | src/machine/include/zwiibac/tftp/machine/transition_table.h:121-127 | After row 93 every event but a passed-over packet lowers what is left of one empty block and its resends |
| `WriteRuns.ReceivingEndsByTimeout` | src/machine/include/zwiibac/tftp/machine/transition_table.h:91 | From receiving, the session goes back to listening if and only if the fourth timeout fires: the last block does not end it |
| `WriteRuns.LogIsShort` | src/action/include/zwiibac/tftp/action/write_data.h:26-28 | A log with strictly growing 16-bit numbers has at most 65535 entries |
| `WriteSession.WaitForData` | src/machine/include/zwiibac/tftp/machine/transition_table.h:92-96 | Every datagram in WaitingForData leads to exactly one of: diverted, ERROR 4, the block appended and acknowledged under its number, or a failed write with ERROR 3 |
| `WriteSession.ReceivesOnIffSaved` | src/machine/include/zwiibac/tftp/machine/transition_table.h:92-94 | A session goes on receiving after a datagram if and only if it is a DATA packet of the peer with a number above the last saved one and the write succeeds |
| `WriteSession.DivertedStays` | src/machine/include/zwiibac/tftp/machine/transition_table.h:121-127 | After row 93 no event touches the file or the saved counter, and the session ends listening and clean or with an error |
| `WriteSession.EveryEventAfterRow93` | src/machine/include/zwiibac/tftp/machine/transition_table.h:121-127 | What each event does after row 93: any ERROR resets in silence, foreign packets and old acknowledgments change nothing, acknowledgment 0 brings out an empty DATA 1, acknowledgment 1 of that resets, any other packet of the peer gets ERROR 4, a timeout resends the same packet or, the fourth time, resets |
| `WriteSession.RepeatedBlockEndsTheTransfer` | src/machine/include/zwiibac/tftp/machine/transition_table.h:93 | A retransmitted block leads to WaitingForAck, where the next DATA packet is answered with ERROR 4 |
| `WriteSession.ResendAck` | src/machine/include/zwiibac/tftp/machine/transition_table.h:90-91 | A timeout resends the acknowledgment of the last saved block unless the budget is used up |
| `WriteSession.WriteSessionStarts` | src/action/include/zwiibac/tftp/action/init_serve_write_request.h:36-57 | Every write request is answered with acknowledgment 0 or the right error; its options are passed over |
| `RowOverlap.OverlapIsRare` | src/machine/include/zwiibac/tftp/machine/transition_table.h:68-128 | Two rows are enabled together only on a peer ERROR in WaitingForAck, and on an error with options in ReadRequestReceived |
| `RowOverlap.EnabledRowIs` | src/machine/include/zwiibac/tftp/machine/transition_table.h:68-128 | Whatever row is enabled, it is the selected one outside those two overlaps |
| `RowOverlap.RefusalIsTheSame` | src/machine/include/zwiibac/tftp/machine/transition_table.h:117-120 | In the second overlap either row leads to the same ERROR packet next and, after it, to the same session |
| `Reachability.ReachableInv` | src/machine/include/zwiibac/tftp/machine/transition_table.h:68-128 | The machine invariant holds in every state reachable from the start over any number of sessions |
| `Reachability.StepKeepsInv` | src/machine/include/zwiibac/tftp/machine/transition_table.h:68-128 | Every event in every state keeps the invariant |
| `Reachability.ReachableBounds` | src/data/include/zwiibac/tftp/data/buffer.h:10 | In every reachable state the block size is 8 to 65464, header and block fit the send buffer, resends are at most 3, and the counters stay within 65536 and 65535 |
| `Reachability.InitialValues` | src/data/include/zwiibac/tftp/data/transfer_state.h:17-29 | The values a machine starts with |
| `Reachability.RequestSetsPeer` | src/state/include/zwiibac/tftp/state/entry_action/enter_accepting.h:33-35 | A request makes its sender the endpoint that packets go to |
| `Reachability.SessionKeepsPeer` | src/state/include/zwiibac/tftp/state/entry_action/enter_sending.h:19 | That endpoint changes only with the reset, which sends nothing |
| `Reachability.ReachableBlock` | src/action/include/zwiibac/tftp/action/form_data_packet.h:16-29 | In every reachable read state the stream stands at min(k*size, length) and the packet is block k under word k |
| `Reachability.ErrorEndsTheSession` | src/action/include/zwiibac/tftp/action/form_error_packet.h:15-19 | Once an error is recorded or an illegal packet answered, the packet on its way is the ERROR with that code, and sending it leads to a reset that sends nothing |
| `Reachability.DispatchIsTotal` | src/machine/include/zwiibac/tftp/machine/transition_table.h:68-128 | In a session every event finds a row and starts the next operation; while listening only read and write requests do, no error is ever recorded, and the row for a failed accept never fires |
| `Independence.SessionsAreIndependent` | src/data/include/zwiibac/tftp/data/transfer_state.h:31-42 | After any earlier sessions, a machine that listens again sends the same packets and makes the same writes as a fresh one for the same events, although the file size and the timeout survive the reset; the length of the waits is not compared here |
| `Independence.WaitsAreIndependentIff` | src/state/include/zwiibac/tftp/state/entry_action/enter_receive.h:51 | In a session of a machine that listens again, the waits are as long as those of a fresh machine if and only if there are none, the timeout is the default, or the request is a read request whose timeout option decodes |
| `Independence.RefusedRequestLeavesTimeOut` | src/action/include/zwiibac/tftp/action/init_serve_read_request.h:68-72 | A concrete request that a fresh machine refuses leaves it listening with a timeout of 255 seconds |
| `Independence.RequestSettlesTimeOut` | src/action/include/zwiibac/tftp/action/init_serve_read_request.h:68-72 | A request sets the timeout if and only if it is a read request whose timeout option decodes, even when it is refused |
| `Independence.SessionKeepsTimeOut` | src/data/include/zwiibac/tftp/data/timer.h:17-20 | No event after the request changes the timeout, nor does the reset |
| `Independence.WaitsOfSession` | src/state/include/zwiibac/tftp/state/entry_action/enter_receive.h:51-59 | Two sessions that are alike wait at the same points of a run, each as long as its own timeout |
| `Independence.RunsAlike` | src/machine/include/zwiibac/tftp/machine/session_data.h:33-37 | Two machines that differ only in those two leftovers stay so over every run, with the same packets and writes |
| `Independence.HandleAlike` | src/action/include/zwiibac/tftp/action/init_serve_read_request.h:40-78 | One event keeps two such machines alike, with the same packets and writes |
| `Independence.OackAlike` | src/action/include/zwiibac/tftp/action/form_oack_packet.h:30-50 | The option acknowledgment prints neither leftover |
| `RequestParser.RequestRoundTrip` | src/state/include/zwiibac/tftp/state/entry_action/enter_accepting.h:63-122 | Parsing the encoding of a name, mode and options, with anything but a NUL behind it, returns them: for "blksize", "timeout" and "tsize" the value of the last key that equals the name in any mixture of cases; unknown pairs and a trailing lone key are ignored |
| `RequestParser.EveryOtherDatagramIsEncoded` | src/state/include/zwiibac/tftp/state/entry_action/enter_accepting.h:63-122 | Every datagram with two NULs or more behind its opcode is such an encoding, so the round trip says what is read from it |
| `RequestParser.ModelessRequest` | src/state/include/zwiibac/tftp/state/entry_action/enter_accepting.h:67-79 | A datagram with at most one NUL behind its opcode gives a request with an empty mode and no option values, whose name is what stands before the NUL |
| `Answers.EncodedReadIsServed` | src/action/include/zwiibac/tftp/action/init_serve_read_request.h:36-78 | A read request as a client writes it, for a file that is found and opens, is answered with the packet its options call for, octet for octet: the option acknowledgment, or block 1; block size and timeout are the ones agreed |
| `Answers.EncodedWriteIsServed` | src/action/include/zwiibac/tftp/action/init_serve_write_request.h:36-57 | Likewise a write request with acknowledgment 0, whatever its options |
| `Answers.ReadRequestIsAnswered` | src/action/include/zwiibac/tftp/action/init_serve_read_request.h:36-66 | Every read request: no known mode brings ERROR 4, no usable file ERROR 1, a failing first read ERROR 3, and otherwise the first packet, in octets |
| `Answers.WriteRequestIsAnswered` | src/action/include/zwiibac/tftp/action/init_serve_write_request.h:36-57 | Every write request: ERROR 4, ERROR 1 or acknowledgment 0, in octets |
| `Answers.ModelessRequestIsRefused` | src/state/include/zwiibac/tftp/state/entry_action/enter_accepting.h:75-79 | A read or write request with at most one NUL behind its opcode is answered with ERROR 4 and nothing else |
| `Answers.FailedReadIsAnswered` | src/action/include/zwiibac/tftp/action/form_data_packet.h:18-21 | A read that fails when the next block is asked for is answered with ERROR 3 |
| `Answers.FailedWriteIsAnswered` | src/action/include/zwiibac/tftp/action/write_data.h:20-23 | A write that fails is answered with ERROR 3 |
| `Answers.IllegalPacketIsAnswered` | src/action/include/zwiibac/tftp/action/form_protocol_error_packet.h:13-20 | A packet of the peer that does not fit the waiting state is answered with ERROR 4 |
| `RequestParser.ProcessEventFromBuffer` | src/state/include/zwiibac/tftp/state/entry_action/enter_accepting.h:63-122 | The cursor-driven parser over the receive buffer computes the request that the tokens of the datagram spell |
| `RequestParser.ReadOptions` | src/state/include/zwiibac/tftp/state/entry_action/enter_accepting.h:89-116 | The do-while loop folds the remaining tokens pair by pair |
| `RequestParser.CollectFlattened` | src/state/include/zwiibac/tftp/state/entry_action/enter_accepting.h:97-113 | Folding flattened pairs leaves the last value of each known key |
| `Oack.OackRoundTrip` | src/action/include/zwiibac/tftp/action/form_oack_packet.h:21-55 | Tokenizing and decoding the acknowledgment returns exactly the agreed block size, timeout and file size |
| `Oack.OackIsShort` | src/action/include/zwiibac/tftp/action/form_oack_packet.h:66-79 | The packet is at most 55 octets for every 64-bit file size |
| `Oack.OackLayout` | src/action/include/zwiibac/tftp/action/form_oack_packet.h:25-50 | The packet is the opcode and the agreed entries in the order block size, timeout, size |
| `Oack.PrintOack` | src/action/include/zwiibac/tftp/action/form_oack_packet.h:25-54 | Printing in place into the send buffer leaves that packet at its front and returns its length |
| `Oack.CopyName` | src/action/include/zwiibac/tftp/action/form_oack_packet.h:58-64 | Copies a name and its NUL at the cursor and touches nothing else |
| `Oack.CopyNumber` | src/action/include/zwiibac/tftp/action/form_oack_packet.h:66-79 | Writes the decimal numeral and its NUL if it fits, and otherwise writes nothing and reports it |
| `Oack.CopyEntry` | src/action/include/zwiibac/tftp/action/form_oack_packet.h:30-50 | Writes one whole entry; the report of a number that does not fit, the `std::exit` branch, cannot come up |
| `Tokenizer.OneTokenPerNul` | src/protocol/include/zwiibac/tftp/protocol/request.h:35-73 | There is one token for each NUL |
| `Tokenizer.RejoinedTokens` | src/protocol/include/zwiibac/tftp/protocol/request.h:35-73 | Joining the tokens gives the longest prefix that ends in NUL |
| `Tokenizer.TokensOfJoin` | src/protocol/include/zwiibac/tftp/protocol/request.h:35-73 | Tokenizing a join of NUL-free strings gives them back, followed by the tokens of the rest |
| `Tokenizer.JoinIsInjective` | src/protocol/include/zwiibac/tftp/protocol/request.h:35-73 | Different lists of tokens have different encodings |
| `Tokenizer.Find` | src/protocol/include/zwiibac/tftp/protocol/request.h:38 | The scan stops at the first NUL or the end |
| `Tokenizer.Iterator.constructor` | src/protocol/include/zwiibac/tftp/protocol/request.h:35-44 | A new iterator has all tokens before it and equals the end iterator exactly when there are none |
| `Tokenizer.Iterator.Deref` | src/protocol/include/zwiibac/tftp/protocol/request.h:49 | The current token; past the last one the empty string |
| `Tokenizer.Iterator.Increment` | src/protocol/include/zwiibac/tftp/protocol/request.h:61-74 | Drops one token; at the end it stays there |
| `Options.WholeNumeral` | src/protocol/include/zwiibac/tftp/protocol/options.h:25-35 | `from_chars` consumes the whole value with result v if and only if it is a numeral of v within range |
| `Options.GetBlockSize` | src/protocol/include/zwiibac/tftp/protocol/options.h:25-40 | Accepts exactly the numerals of 8 to 65464 |
| `Options.GetTimeOut` | src/protocol/include/zwiibac/tftp/protocol/options.h:59-68 | Accepts exactly the numerals of 1 to 255, in milliseconds |
| `Options.GetTransferSize` | src/protocol/include/zwiibac/tftp/protocol/options.h:85-95 | Accepts exactly the numerals below 2^64 |
| `Options.DecimalDenotes` | src/action/include/zwiibac/tftp/action/form_oack_packet.h:69 | What `to_chars` prints is a numeral of the number |
| `Options.DecimalLength` | src/action/include/zwiibac/tftp/action/form_oack_packet.h:69 | A number below 10^k prints in at most k digits |
| `Options.OptionNamesAreDisjoint` | src/state/include/zwiibac/tftp/state/entry_action/enter_accepting.h:97-113 | No key matches two option names, so the order of the three tests does not matter |
| `Options.OptionsMatchUpToCase` | src/protocol/include/zwiibac/tftp/protocol/case_invariant_equal.h:11-16 | A key names an option if and only if it equals "blksize", "timeout" or "tsize" in any mixture of cases |
| `Options.ModesMatchUpToCase` | src/protocol/include/zwiibac/tftp/protocol/mode.h:23-37 | A mode is known if and only if it equals "octet", "netascii" or "mail" in any mixture of cases |
| `Options.CaseMakesNoDifference` | src/protocol/include/zwiibac/tftp/protocol/case_invariant_equal.h:11-16 | Strings that differ only in the case of letters name the same option and the same mode |
| `Options.OnlyDigitsAreDecoded` | src/protocol/include/zwiibac/tftp/protocol/options.h:25-95 | An empty value, or one with an octet outside "0123456789", is decoded by none of the three decoders |
| `Options.DigitsOfNumeral` | src/protocol/include/zwiibac/tftp/protocol/options.h:28 | What a numeral stands for, digit by digit |
| `Octets.HeaderRoundTrip` | src/protocol/include/zwiibac/tftp/protocol/header.h:42-84 | Opcode and word read back from a written header, modulo 2^16 |
| `WireFormat.OpCodesOnTheWire` | src/protocol/include/zwiibac/tftp/protocol/opcode.h:10-18 | The six opcodes are the octets 0 1 to 0 6 |
| `WireFormat.WordsAreBigEndian` | src/protocol/include/zwiibac/tftp/protocol/header.h:42-84 | Opcode and word are read and written high octet first |
| `WireFormat.ErrorPacketOctets` | src/action/include/zwiibac/tftp/action/form_error_packet.h:13-20 | An ERROR packet is 0 5, its code, and a NUL |
| `WireFormat.ErrorsOnTheWire` | src/action/include/zwiibac/tftp/action/form_error_packet.h:13-20 | For each recorded error, and for a packet that does not fit, the octets of the ERROR packet built |
| `WireFormat.ErrorCodes` | src/protocol/include/zwiibac/tftp/protocol/error_code.h:11-20 | File not found is 1, disk full 3, illegal operation 4 |
| `WireFormat.AckPacketOctets` | src/action/include/zwiibac/tftp/action/form_ack_packet.h:17-20 | An acknowledgment is 0 4 and the block number modulo 2^16 |
| `WireFormat.DataPacketOctets` | src/action/include/zwiibac/tftp/action/form_data_packet.h:26-29 | A DATA packet is 0 3, the block number modulo 2^16, and the block |
| `WireFormat.OackPacketOctets` | src/action/include/zwiibac/tftp/action/form_oack_packet.h:25-54 | An option acknowledgment is 0 6 and for each agreed option its name and its decimal value, each with a NUL |
| `Octets.SetOpCd` | src/protocol/include/zwiibac/tftp/protocol/header.h:59 | Writes the opcode big-endian and nothing else |
| `Octets.SetWord` | src/protocol/include/zwiibac/tftp/protocol/header.h:81 | Writes the word big-endian and nothing else |
| `Octets.HeaderInTwoWrites` | src/protocol/include/zwiibac/tftp/protocol/header.h:53-84 | Setting opcode and word is writing the header |
| `TransitionTable.SelectIsDispatch` | src/machine/include/zwiibac/tftp/machine/transition_table.h:68-128 | Select returns the last enabled row of the table, the only row that the dispatch rule allows to fire, or none when no row is enabled |
| `TransitionTable.LastEnabledIsSelected` | src/machine/include/zwiibac/tftp/machine/transition_table.h:68-128 | The last enabled row of the table is the one selected |
| `TransitionTable.FindRow` | src/machine/include/zwiibac/tftp/machine/transition_table.h:68-128 | The search of the table from its end finds the selected row |
| `TransitionTable.RowsOnPackets` | src/machine/include/zwiibac/tftp/machine/transition_table.h:86-127 | The rows that take a received packet, told by its octets and the counters: which packets are illegal, old, next, exact, or end the session |
| `TransitionTable.GuardsOnPackets` | src/guard/include/zwiibac/tftp/guard/has_data_received.h:14-17 | The guards on a received packet hold for the packets of their shape: DATA of the peer, ACK up to the block sent, ERROR |
| `TransitionTable.HoldsAnd3` | src/guard/include/zwiibac/tftp/guard/logical_operators.h:22-54 | The nested conjunction holds when all three parts do |
| `Machine.OnAckWait` | src/machine/include/zwiibac/tftp/machine/transition_table.h:124-127 | Dispatch and completion together: what a datagram in WaitingForAck leads to, case by case |
| `Machine.OnDataWait` | src/machine/include/zwiibac/tftp/machine/transition_table.h:92-96 | The same in WaitingForData |
| `Machine.OnExpired` | src/machine/include/zwiibac/tftp/machine/transition_table.h:90-91 | The same for a timeout: one more resend of the packet at hand, or a reset |
| `Machine.OnSendDone` | src/machine/include/zwiibac/tftp/machine/transition_table.h:69-121 | The same for a packet sent |
| `Machine.OnReadRequest` | src/machine/include/zwiibac/tftp/machine/transition_table.h:115-120 | The same for a read request |
| `Machine.OnWriteRequest` | src/machine/include/zwiibac/tftp/machine/transition_table.h:86-88 | The same for a write request |
| `Machine.OnOtherDatagram` | src/machine/include/zwiibac/tftp/machine/transition_table.h:86-115 | Any other opcode is dropped and the machine no longer listens |
| `Machine.OnAcceptError` | src/machine/include/zwiibac/tftp/machine/transition_table.h:71 | A failed accept resets a machine that has an error on record and is dropped by any other |
| `Machine.MalformedMakesNoDifference` | src/state/include/zwiibac/tftp/state/entry_action/enter_accepting.h:57-122 | A malformed request is parsed all the same, because no row takes the failure and the handler goes on |
| `Machine.CompleteFromResetted` | src/action/include/zwiibac/tftp/action/reset.h:11-20 | A reset completes in Accepting with nothing left but the file size and the timeout |
| `SessionMachine.TftpSession.constructor` | src/machine/include/zwiibac/tftp/machine/session_data.h:28-31 | A new session listens with the initial values of its parts |
| `SessionMachine.TftpSession.FormDataPacket` | src/action/include/zwiibac/tftp/action/form_data_packet.h:14-31 | The update in place of buffer, stream and counters is FormDataPacket on values |
| `SessionMachine.TftpSession.FormOackPacket` | src/action/include/zwiibac/tftp/action/form_oack_packet.h:21-55 | Likewise for the option acknowledgment, printed in the send buffer |
| `SessionMachine.TftpSession.FormAckPacket` | src/action/include/zwiibac/tftp/action/form_ack_packet.h:13-21 | Likewise; the word is the last saved block, which fits 16 bits |
| `SessionMachine.TftpSession.FormErrorPacket` | src/action/include/zwiibac/tftp/action/form_error_packet.h:13-20 | Likewise; the ERROR carries the recorded code, in the octets of `WireFormat.ErrorPacketOctets` |
| `SessionMachine.TftpSession.FormProtocolErrorPacket` | src/action/include/zwiibac/tftp/action/form_protocol_error_packet.h:13-20 | Likewise with code 4, in the same octets |
| `SessionMachine.TftpSession.WriteData` | src/action/include/zwiibac/tftp/action/write_data.h:14-30 | Likewise for appending a payload; the size less the header is never negative |
| `SessionMachine.TftpSession.InitServeReadRequest` | src/action/include/zwiibac/tftp/action/init_serve_read_request.h:21-79 | Likewise for the options and errors of a read request |
| `SessionMachine.TftpSession.InitServeWriteRequest` | src/action/include/zwiibac/tftp/action/init_serve_write_request.h:21-59 | Likewise for a write request |
| `SessionMachine.TftpSession.Reset` | src/action/include/zwiibac/tftp/action/reset.h:11-20 | Every part is reset but the file size and the timeout |
| `SessionMachine.TftpSession.ResetTransferState` | src/data/include/zwiibac/tftp/data/transfer_state.h:31-42 | The counters go to their initial values; the file size is not among the fields changed |
| `SessionMachine.TftpSession.ClearBuffer` | src/data/include/zwiibac/tftp/data/buffer.h:15-19 | The buffer is all NUL |
| `SessionMachine.TftpSession.Perform` | src/machine/include/zwiibac/tftp/machine/transition_table.h:68-128 | Each action method does what the action of the row does on values |
| `SessionMachine.TftpSession.FireRow` | src/machine/include/zwiibac/tftp/machine/transition_table.h:68-128 | Action, then entry, add the packets and writes of the row to the traces |
| `SessionMachine.TftpSession.Complete` | src/machine/include/zwiibac/tftp/machine/transition_table.h:70-120 | Taking completion rows until none is enabled ends in a stable state and does what the completion chain does on values |
| `SessionMachine.TftpSession.ProcessEvent` | src/machine/include/zwiibac/tftp/machine/transition_table.h:68-128 | The first row, then completion; an event without a row changes nothing |
| `SessionMachine.TftpSession.OnAccepted` | src/state/include/zwiibac/tftp/state/entry_action/enter_accepting.h:36-61 | The handler of a request datagram: endpoint, packet, check, parse, event |
| `SessionMachine.TftpSession.OnAcceptFailed` | src/state/include/zwiibac/tftp/state/entry_action/enter_accepting.h:43-47 | The handler of a failed accept |
| `SessionMachine.TftpSession.OnSent` | src/state/include/zwiibac/tftp/state/entry_action/enter_sending.h:20-26 | The handler of a finished send |
| `SessionMachine.TftpSession.OnTimeOut` | src/state/include/zwiibac/tftp/state/entry_action/enter_receive.h:45-49 | The handler of an expired timer: no packet, TimedOut |
| `SessionMachine.TftpSession.OnReceived` | src/state/include/zwiibac/tftp/state/entry_action/enter_receive.h:37-44 | The handler of a received packet: endpoint, packet, PacketReceived |

## Left out

- Sockets, timers and the order in which the io service runs handlers: an armed state raises one of its events, without races between an expired timer and a finished receive.
- The local endpoint and `CreateTid`, which is random: no guard and no packet depends on it.
- `FilePath`, which rests on `std::filesystem::canonical`: the lookup is an oracle that may find nothing.
- The inside of `std::fstream`: contents, position, the fail and bad bits and `gcount` are modelled. A file does not change under a reader, written data reaches the file at once, and a failing close, which the source only logs, does nothing.
- Time: `Independence.Waits` says how long each wait is armed for; when a timer fires is left to the run.
- Datagrams of fewer than two octets on the listening socket, for which the source starts its tokenizer behind its end.
- Netascii conversion, which the source does not do either: all three modes transfer octets as they are.
- The pool of parallel sessions, which share only the listening socket and the file system.
- Clients that let block numbers wrap around: the client of `ReadTransfer` compares numbers as integers and the one of `WriteTransfer` stops at block 65535.
- Wrap-around of `size_t`: the counters are unbounded integers, and `Reachability.ReachableBounds` keeps them within 65536.
- The octets of the receive buffer behind a packet shorter than its header: `Octets.OpCode` and `Octets.Word` read zeros there, and a guard that reads them counts only together with one that tests the size.
- The debug assertion of Boost.MSM for an event without a row: the event is dropped, as in a release build.
- Logging, tracing, `ToString`, the Python driver and the command line.
- Independence.SessionsAreIndependent: compares packets and writes, not the length of the waits, which differs (`Independence.WaitsAreIndependentIff`).
- Oack.CopyNumber: a numeral that ends exactly at the end of the buffer is shut out, because the source then writes its NUL behind the buffer; `Oack.PrintOack` shows that it stays far from there.
