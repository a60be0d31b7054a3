# Defended cell channel: a verified model

The main part of this project models `BufloMuxChannelImplSpdy`, the channel between the client-side
proxy and the server-side proxy. SPDY produces a byte stream; the channel packs it into cells of one
fixed size and sends them. Outside a defense session it writes whenever the socket is ready. Inside a
session it writes on a timer and offers exactly one cell's worth of bytes per tick, with dummy cells as
filler, until the number of attempts is a multiple of L. Client and server agree on sessions through
the flags START, STOP, AUTO_STOPPED and DONE in the cells.

Three smaller parts model `GenericMessageChannel` (length-prefixed messages on a byte stream), the
block accounting of the torrent client, and the bucketed branch of `genCDF`.

## How it is built

| file | content |
|---|---|
| `Cells.dfy` | the byte format of a cell: flags, header, payload, padding, encoding and decoding |
| `SendQueue.dfy` | the sending half over whole cells, and the invariant that ties it to bytes, counters and history |
| `Endpoint.dfy`, `EndpointInv.dfy` | one end as a value, what every event does to it, and the invariant each event keeps |
| `Signals.dfy`, `Protocol.dfy`, `Events.dfy` | control flags as a stream, the legal situations of the session protocol, every `CHECK` as an obligation |
| `Link.dfy`, `TwoParty.dfy`, `Theorems.dfy` | two ends joined by two FIFO byte streams; the main results about every run |
| `Runs.dfy` | two runs for every pair of configurations: a session that nobody reports, and one that starts behind a long queue |
| `Packing.dfy` | how full the cells are, which flags they carry, when a dummy may be dropped |
| `Sessions.dfy` | one session seen from outside: data independence, length, bounded queue |
| `Representation.dfy`, `Channel.dfy` | the channel as a class over byte buffers and a deque, updated in place, each method proved to do what `Endpoint.dfy` says |
| `Streams.dfy` | the inward half of one SPDY stream: deferral, resuming, EOF |
| `MessageFraming.dfy`, `MessageChannels.dfy` | the message format and the incremental reader with its watermark |
| `Torrent.dfy`, `TorrentClient.dfy` | the block accounting as a value, and the client updated in place |
| `BucketedCdf.dfy` | the bucketed distribution, over exact numbers |

An event buffer is a byte sequence. The socket accepts any number of the offered bytes, including none,
and a link delivers what was written in order and in any pieces. SPDY appends any bytes to its output
whenever it is asked. The model starts after the two ends have exchanged their cell sizes.

The results about two ends hold for every run in which the environment keeps the contract that the
source states in comments and checks, or leaves to the caller (`Events.May`): the client arms only while
no defense is in progress and nothing is left to send; while a session is pending SPDY is pumped once
and then has data; there is at most one stop request per session and none while it is pending; ticks
come only during a session, and the client never reaches its time limit, which is fatal there. The
server may reach its own limit at any tick. `Events.ContractIsTight` shows that this contract asks for
no more than the checks themselves do, but for what no check guards: arming while a session is in
progress, stopping a pending session, and a stop by the user of the server, which does not happen there.
`Events.StopWhilePendingForgets` shows what goes wrong with the second.

Some points where the source's comments and its code differ; the model follows the code:

- The comments promise that the queue never holds two full cells during a defense
  (newweb/utility/buflo_mux_channel_impl_spdy.cpp:80-85). A server session that starts with a long
  queue does hold more. `Sessions.NeverTwoFullCells` gives the exact condition and
  `Runs.StartsBehindTwoCells` a run.
- The comments on `GenericMessageChannel` speak of a two-byte type and of a null pointer for an empty
  message; the code has a one-byte type and a four-byte id, and passes a pointer behind the header.
- The torrent client has two tests for completion, one by blocks (torrent/torrent.c:344) and one by bytes
  (torrent/torrent-service.c:209). They are not the same: `Torrent.CompletionTestsAgree` says exactly when
  they agree, and `Torrent.ByteTestIsEarly` gives a run in which they do not.
- Not every session is reported as done. `Theorems.ReportedExactly` says when one that is over has been,
  `Runs.NobodyReports` gives a run in which it has not, and `Theorems.AbandonedForever` shows that it
  never will be.
- Nothing stops a user from writing to a stream after its EOF. Whether such bytes arrive depends on when
  SPDY reads; `Streams.SafeIffOrderly` says for which users no timing loses anything.

## Model

| member | source | states |
|---|---|---|
| `Theorems.NoCheckFails` | newweb/utility/buflo_mux_channel_impl_spdy.cpp:673-1797 | in every run of two ends whose environment keeps its contract no check of either end fails |
| `Theorems.StreamSafety` | newweb/utility/buflo_mux_channel_impl_spdy.cpp:1001-1640 | in both directions the payload bytes given to SPDY are a prefix of what the other SPDY emitted, and all of it once the sender holds nothing and the link is drained, for every interleaving of events and every chunking |
| `Theorems.Statistics` | newweb/utility/buflo_mux_channel_impl_spdy.hpp:556-578 | emitted bytes are sent, queued or waiting; the total sent is the cell size times the complete cells plus the progress; when the peer has read everything written, all three receive counters equal the send counters |
| `Theorems.NoLostWakeup` | newweb/utility/buflo_mux_channel_impl_spdy.cpp:1221-1264 | in every reachable state a session has its timer on and write monitoring off, and otherwise the timer is off and write monitoring is on exactly when bytes wait |
| `Theorems.FlagsDeliveredOnce` | newweb/utility/buflo_mux_channel_impl_spdy.cpp:928-995 | the control flags of the cells that a receiver has decoded are, in order and each as often, a prefix of those its peer put into cells, and all of them once drained; with those on their way they are all that the peer has to tell; no cell has both START and STOP |
| `Theorems.FillersAreDroppable` | newweb/utility/buflo_mux_channel_impl_spdy.hpp:489-503 | in every reachable state the last cell of a queue may be dropped exactly if it is a whole dummy without control flags, and no other whole one is in the queue |
| `Theorems.DefensiveCellsCounted` | newweb/utility/buflo_mux_channel_impl_spdy.cpp:1581-1583 | the count of received defensive cells is the number among the peer's cells that have been read, less those read when a session was last reported |
| `Theorems.ReportClears` | newweb/utility/buflo_mux_channel_impl_spdy.cpp:1672-1674 | a report starts that count again and forgets the saved attempts; without a report nothing changes |
| `Theorems.AutoStopSaves` | newweb/utility/buflo_mux_channel_impl_spdy.cpp:743-747 | an automatic stop saves the number of attempts, keeps the count of received cells and reports nothing |
| `Theorems.PlacedFlagsStay` | newweb/utility/buflo_mux_channel_impl_spdy.cpp:1315-1319 | no step of a run removes a control flag that is in a cell, although dummy cells are dropped |
| `Theorems.ReportsAreCounted` | newweb/utility/buflo_mux_channel_impl_spdy.cpp:1657-1678 | A_DEFENSE_SESSION_DONE is reported at most once per armed session and for every session but the last; when all are reported both ends are inactive and no flag is on its way |
| `Theorems.ReportedExactly` | newweb/utility/buflo_mux_channel_impl_spdy.cpp:1622-1631 | when both ends are inactive and no flag is on its way, the last session has been reported if and only if the last control flag the client received was not AUTO_STOPPED |
| `Theorems.AbandonedForever` | newweb/utility/buflo_mux_channel_impl_spdy.cpp:2486-2494 | a session left unreported in that way is never reported and never followed by another: in no run that goes on from there |
| `Runs.NobodyReports` | newweb/utility/buflo_mux_channel_impl_spdy.cpp:733-766 | for every pair of configurations a run of arming, pumping, writing, delivering, the server's time limit, a stop and draining that ends so, with the session unreported |
| `Theorems.ReportMeansDone` | newweb/utility/buflo_mux_channel_impl_spdy.cpp:1622-1631 | a step in which the client reports leaves both ends inactive with nothing of the session on the links, and counts exactly one more report |
| `Theorems.ServerNeverReports` | newweb/utility/buflo_mux_channel_impl_spdy.cpp:729-731 | the server never reports a session as done, with or without automatic stops |
| `Theorems.DoneAnswersStop` | newweb/utility/buflo_mux_channel_impl_spdy.cpp:700-704 | when a tick of the server is about to say DONE, the last two flags it was told are the START of this session and a STOP, and the client has asked to stop and has had no report |
| `Theorems.StartFindsServerInactive` | newweb/utility/buflo_mux_channel_impl_spdy.cpp:1569-1573 | while a START is on its way the server is inactive |
| `TwoParty.StepKeeps` | newweb/utility/buflo_mux_channel_impl_spdy.cpp:1681-1797 | every step of either end and every delivery passes its checks and keeps the invariant of the pair |
| `TwoParty.RunsAreSafe` | newweb/utility/buflo_mux_channel_impl_spdy.cpp:673-1797 | a run from a state with the invariant ends in one |
| `TwoParty.OpenedHolds` | newweb/utility/buflo_mux_channel_impl_spdy.cpp:262-330 | two fresh ends with matching cell sizes satisfy the invariant of the pair |
| `TwoParty.ServerTakesCell` | newweb/utility/buflo_mux_channel_impl_spdy.cpp:1515-1640 | a whole cell buffered at the server is the client's next cell, passes the server's checks, and handling it keeps the pair legal |
| `TwoParty.ClientTakesCell` | newweb/utility/buflo_mux_channel_impl_spdy.cpp:1550-1565 | the same for a cell that arrives at the client, including a restart after AUTO_STOPPED and the report after DONE |
| `TwoParty.PendingHoldsStart` | newweb/utility/buflo_mux_channel_impl_spdy.cpp:1752-1764 | while a session is only pending its START has not left the client |
| `TwoParty.ServerCellPrompted` | newweb/utility/buflo_mux_channel_impl_spdy.cpp:1566-1579 | a server session goes back to the START it was told last, a stopping one to the STOP right after it |
| `TwoParty.ClientStops` | newweb/utility/buflo_mux_channel_impl_spdy.hpp:407-413 | a stop request takes back a START that has no cell yet, and otherwise announces a STOP after it; the pair stays legal |
| `TwoParty.ClientCellAnswers` | newweb/utility/buflo_mux_channel_impl_spdy.cpp:1550-1565 | what the client was told last stays right: a finished session was not stopped automatically, one the server has left for good, or that the client restarts, was |
| `Protocol.ServerAccepts` | newweb/utility/buflo_mux_channel_impl_spdy.cpp:1566-1579 | in every legal situation the server can take the client's next cell |
| `Protocol.ClientAccepts` | newweb/utility/buflo_mux_channel_impl_spdy.cpp:1550-1565 | in every legal situation the client can take the server's next cell |
| `Protocol.ServerHandles` | newweb/utility/buflo_mux_channel_impl_spdy.cpp:1538-1584 | a START or STOP handled by the server leads from a legal situation to a legal one |
| `Protocol.ClientHandles` | newweb/utility/buflo_mux_channel_impl_spdy.cpp:1538-1631 | an AUTO_STOPPED or DONE handled by the client leads from a legal situation to a legal one and keeps the count of reports |
| `Protocol.HandleCellAnnounces` | newweb/utility/buflo_mux_channel_impl_spdy.cpp:1557-1563 | handling a cell announces nothing, but a client in an unstopped session answers AUTO_STOPPED with one START |
| `Protocol.FlightGrows` | newweb/utility/buflo_mux_channel_impl_spdy.cpp:944-995 | an event that announces a flag puts exactly that flag at the end of what is in flight |
| `Protocol.FlightHead` | newweb/utility/buflo_mux_channel_impl_spdy.cpp:1540-1548 | handling the next cell takes exactly its flags off the front of what is in flight |
| `Events.ContractIsTight` | newweb/utility/buflo_mux_channel_impl_spdy.cpp:484-526 | in a state with the invariant an event passes the checks if and only if the contract allows it, but for what nothing checks: arming while a session is in progress, stopping a pending one, and a stop by the server's user |
| `Events.StopWhilePendingForgets` | newweb/utility/buflo_mux_channel_impl_spdy.cpp:510-514 | a stop while pending forgets the session though its START is already in a cell |
| `Events.ChecksHold` | newweb/utility/buflo_mux_channel_impl_spdy.cpp:726-798 | in a state with the invariant no allowed event fails a check: flags, cell counts, nothing owed after the terminal tick |
| `Events.ApplyKeeps` | newweb/utility/buflo_mux_channel_impl_spdy.cpp:673-1219 | every allowed event keeps the invariant of its end |
| `Events.ApplyPlaces` | newweb/utility/buflo_mux_channel_impl_spdy.cpp:1352-1430 | every allowed event keeps all control flags that are in cells, in order |
| `Events.TickOutcome` | newweb/utility/buflo_mux_channel_impl_spdy.cpp:683-768 | a tick either goes on with the session unchanged or ends it, reporting it exactly if the peer is done |
| `EndpointInv.PumpKeeps` | newweb/utility/buflo_mux_channel_impl_spdy.cpp:812-865 | pumping keeps the invariant in every state of the session |
| `EndpointInv.TickKeeps` | newweb/utility/buflo_mux_channel_impl_spdy.cpp:672-804 | ticks keep it: terminal, automatic stop, and ongoing |
| `EndpointInv.WritableKeeps` | newweb/utility/buflo_mux_channel_impl_spdy.cpp:1730-1797 | a write event keeps it; it never finds a session, and finds exactly one cell when it starts one |
| `EndpointInv.SendActiveEffect` | newweb/utility/buflo_mux_channel_impl_spdy.cpp:1142-1174 | a send in a session removes exactly the accepted bytes, counts one attempt, and changes nothing else |
| `EndpointInv.SendInactiveEffect` | newweb/utility/buflo_mux_channel_impl_spdy.cpp:1175-1207 | a send outside removes the accepted bytes and a droppable dummy, and leaves monitoring on exactly if bytes remain |
| `EndpointInv.FlushControlEffect` | newweb/utility/buflo_mux_channel_impl_spdy.cpp:708-727 | the flush that ends a session leaves no SPDY output, no owed flag, and monitoring on exactly if bytes wait |
| `EndpointInv.RefillEffect` | newweb/utility/buflo_mux_channel_impl_spdy.cpp:772-798 | a tick adds one cell exactly if less than one is waiting |
| `EndpointInv.ArmKeeps` | newweb/utility/buflo_mux_channel_impl_spdy.cpp:483-501 | arming keeps the invariant |
| `EndpointInv.RequestStopKeeps` | newweb/utility/buflo_mux_channel_impl_spdy.cpp:503-526 | a stop request keeps it, and does nothing at all to an inactive end |
| `EndpointInv.HandleCellKeeps` | newweb/utility/buflo_mux_channel_impl_spdy.cpp:1515-1640 | handling an acceptable cell keeps it |
| `EndpointInv.ReadCellsKeeps` | newweb/utility/buflo_mux_channel_impl_spdy.cpp:1432-1513 | handling all whole cells in the input keeps it |
| `Signals.TickSignalsOnly` | newweb/utility/buflo_mux_channel_impl_spdy.cpp:683-768 | a tick announces DONE if it ends a server session that was stopped, AUTO_STOPPED if the limit ends it, and nothing else |
| `Signals.PumpKeepsSignals` | newweb/utility/buflo_mux_channel_impl_spdy.cpp:837-862 | pumping moves owed flags into cells and loses, repeats or reorders none |
| `Signals.SendKeepsSignals` | newweb/utility/buflo_mux_channel_impl_spdy.cpp:1132-1219 | neither does sending, with the drop that goes with it |
| `Signals.FlushControlKeepsSignals` | newweb/utility/buflo_mux_channel_impl_spdy.cpp:710-727 | after the flush that ends a session every owed flag is in a cell |
| `Signals.DropKeepsSignals` | newweb/utility/buflo_mux_channel_impl_spdy.cpp:1368-1418 | dropping a dummy loses no control flag |
| `Packing.NewDataCell` | newweb/utility/buflo_mux_channel_impl_spdy.cpp:1007-1072 | a data cell takes the first bytes of the output, as many as there are and as fit, goes behind the others in place of a droppable dummy, and carries the owed flags and DEFENSIVE exactly while a session is pending or active |
| `Packing.NewDummyCell` | newweb/utility/buflo_mux_channel_impl_spdy.cpp:1290-1320 | a dummy cell is empty, carries the same flags, and may be dropped again exactly if none of the control flags is among them |
| `Packing.FlushPacks` | newweb/utility/buflo_mux_channel_impl_spdy.cpp:893-926 | a flush puts exactly the output into data cells, all of them full but the last, with one setting of DEFENSIVE |
| `Packing.PumpPacks` | newweb/utility/buflo_mux_channel_impl_spdy.cpp:839-852 | outside a session a pump packs everything that way, in cells that are not defensive |
| `Packing.PendingCell` | newweb/utility/buflo_mux_channel_impl_spdy.cpp:853-858 | the one cell of a pending session is a data cell with START and DEFENSIVE that takes as much as fits |
| `Packing.ActivePumpWaits` | newweb/utility/buflo_mux_channel_impl_spdy.cpp:859-862 | during a session a pump makes no cell |
| `Packing.ClosingCells` | newweb/utility/buflo_mux_channel_impl_spdy.cpp:691-763 | the flush that ends a session makes cells that are not defensive; a flag that finds no data goes alone into a dummy that will not be dropped |
| `Packing.ApplyFillers` | newweb/utility/buflo_mux_channel_impl_spdy.cpp:1157-1174 | every allowed event keeps a dummy without flags either at the end and droppable, or at the front and partly sent |
| `Packing.AvoidedExactly` | newweb/utility/buflo_mux_channel_impl_spdy.hpp:505-510 | every event adds to the statistic of avoided dummies exactly those that gave way to data, that were not sent outside a session, or that a tick did not need |
| `Sessions.WatchIsSchedule` | newweb/utility/buflo_mux_channel_impl_spdy.cpp:772-800 | what a session shows tick by tick equals a schedule computed from sizes, counts and socket acceptance alone |
| `Sessions.DataIndependence` | newweb/utility/buflo_mux_channel_impl_spdy.cpp:1142-1155 | two sessions with equal queue length and attempts, the same acceptance per tick and the same stop tick offer and write the same bytes per tick and end together, whatever data and cells they carry |
| `Sessions.ConstantOffer` | newweb/utility/buflo_mux_channel_impl_spdy.cpp:1142-1147 | in every session every tick but the last finds a whole cell waiting, offers exactly one cell's worth and writes no more |
| `Sessions.TickVisible` | newweb/utility/buflo_mux_channel_impl_spdy.hpp:401-405 | a tick that does not end the session counts exactly one attempt, whatever the socket takes |
| `Sessions.StoppedSessionEnds` | newweb/utility/buflo_mux_channel_impl_spdy.hpp:395-413 | a stopped session is over after (L - attempts mod L) mod L further attempts and one terminal tick, unless its time limit comes first |
| `Sessions.SessionEnds` | newweb/utility/buflo_mux_channel_impl_spdy.cpp:683-687 | the schedule of a stopping session has exactly that many ticks, at most L, and only the last ends it |
| `Sessions.GracefulEnd` | newweb/utility/buflo_mux_channel_impl_spdy.cpp:683-731 | a graceful end comes at a multiple of L and saves that count, unless it has just been reported; it sends nothing itself |
| `Sessions.BoundedQueue` | newweb/utility/buflo_mux_channel_impl_spdy.cpp:772-800 | during a session the queue never exceeds its initial length or two cells, and once below two cells it stays below |
| `Sessions.NeverTwoFullCells` | newweb/utility/buflo_mux_channel_impl_spdy.cpp:80-85 | a session never holds two full cells in its queue if and only if it starts below two cells |
| `Runs.StartsBehindTwoCells` | newweb/utility/buflo_mux_channel_impl_spdy.cpp:58-85 | for every pair of configurations a run in which START reaches a server with two full cells in its queue, whose session then holds two full cells |
| `Sessions.FullQueueNeverGrows` | newweb/utility/buflo_mux_channel_impl_spdy.cpp:772-788 | a tick that finds a full cell adds nothing |
| `Sessions.AutoStartBelow` | newweb/utility/buflo_mux_channel_impl_spdy.cpp:1752-1765 | a session that starts on the first write has less than two cells from its first attempt on |
| `Sessions.DataGoesFirst` | newweb/utility/buflo_mux_channel_impl_spdy.cpp:790-800 | an ongoing tick with less than a cell waiting adds exactly one cell, a defensive one: with as much of the output as there is and as fits, or a dummy if there is none |
| `Sessions.NothingReplaced` | newweb/utility/buflo_mux_channel_impl_spdy.cpp:1322-1350 | during a session no cell is withdrawn: cells are only added behind those there are |
| `Sessions.WritesDrain` | newweb/utility/buflo_mux_channel_impl_spdy.cpp:1175-1207 | outside a session every write makes progress, and one that takes everything leaves nothing and no wakeup |
| `SendQueue.AdvanceKeeps` | newweb/utility/buflo_mux_channel_impl_spdy.cpp:1078-1123 | booking n written bytes keeps the invariant of the sending half: wire bytes, stream, counters and droppable flag |
| `SendQueue.DropKeeps` | newweb/utility/buflo_mux_channel_impl_spdy.cpp:1352-1430 | dropping removes one whole unsent dummy without flags and keeps the invariant |
| `SendQueue.PushDataKeeps` | newweb/utility/buflo_mux_channel_impl_spdy.cpp:1007-1072 | a data cell takes the first bytes of the output, keeps the invariant and adds one cell's bytes |
| `SendQueue.PushDummyKeeps` | newweb/utility/buflo_mux_channel_impl_spdy.cpp:1290-1320 | a dummy cell keeps the invariant and may be dropped only if it carries no control flag |
| `SendQueue.AdvanceMoves` | newweb/utility/buflo_mux_channel_impl_spdy.cpp:1085-1120 | sending moves cells from the queue to the sent ones and neither adds nor removes any |
| `SendQueue.WholeIsDivision` | newweb/utility/buflo_mux_channel_impl_spdy.cpp:1085-1120 | the count and progress the loop arrives at are quotient and remainder of integer division |
| `Cells.CellRoundTrip` | newweb/utility/buflo_mux_channel_impl_spdy.cpp:1027-1062 | decoding an encoded cell gives back its type, flags and payload |
| `Cells.FlagsRoundTrip` | newweb/utility/buflo_mux_channel_impl_spdy.cpp:163-190 | type and flags come back out of the first byte |
| `Cells.FlagsAreBits` | newweb/utility/buflo_mux_channel_impl_spdy.cpp:138-150 | every flag is the bit of the byte that the source gives it |
| `Cells.TypeIsHighBits` | newweb/utility/buflo_mux_channel_impl_spdy.cpp:129-165 | the type is the three high bits of the byte |
| `Cells.CellLayout` | newweb/utility/buflo_mux_channel_impl_spdy.cpp:1027-1062 | the bytes of a cell on the wire: type and flags, the length in network byte order, the payload, and padding up to the cell size |
| `Cells.DecodeExact` | newweb/utility/buflo_mux_channel_impl_spdy.cpp:1468-1480 | which bytes are a cell and what cell they are |
| `Cells.SetFlagSetsOne` | newweb/utility/buflo_mux_channel_impl_spdy.cpp:240-256 | setting a flag sets that flag and no other bit |
| `Cells.EncodeAllAt` | newweb/utility/buflo_mux_channel_impl_spdy.cpp:1494-1501 | the i-th cell's worth of bytes on the wire is the i-th cell |
| `Link.NextCell` | newweb/utility/buflo_mux_channel_impl_spdy.cpp:1454-1510 | a whole cell in the input buffer is the sender's next cell, byte for byte, however it was chunked |
| `Link.CellHandled` | newweb/utility/buflo_mux_channel_impl_spdy.cpp:1592-1635 | handling it moves stream, counters and buffer on by exactly this cell |
| `Channel.BufloMuxChannel.constructor` | newweb/utility/buflo_mux_channel_impl_spdy.cpp:262-330 | a new channel is valid and has the initial value |
| `Channel.BufloMuxChannel.BufloTimerFired` | newweb/utility/buflo_mux_channel_impl_spdy.cpp:672-804 | keeps the channel valid, passes every check, and does to its value what `Endpoint.Tick` says |
| `Channel.BufloMuxChannel.OnSocketWritecb` | newweb/utility/buflo_mux_channel_impl_spdy.cpp:1730-1797 | the same for `Endpoint.Writable` |
| `Channel.BufloMuxChannel.OnSocketReadcb` | newweb/utility/buflo_mux_channel_impl_spdy.cpp:1680-1728 | the same for buffering bytes and `Endpoint.ReadCells` |
| `Channel.BufloMuxChannel.OnSpdyOutput` | newweb/utility/buflo_mux_channel_impl_spdy.cpp:601-645 | the same for `Endpoint.Pump`, when a user's action makes SPDY write |
| `Channel.BufloMuxChannel.SetAutoStartDefenseSessionOnNextSend` | newweb/utility/buflo_mux_channel_impl_spdy.cpp:483-501 | the same for `Endpoint.Arm` |
| `Channel.BufloMuxChannel.UserStops` | newweb/transport_proxy/csp/csp.cpp:179-194 | the same for `Endpoint.RequestStop` on the client |
| `Channel.BufloMuxChannel.StopDefenseSession` | newweb/utility/buflo_mux_channel_impl_spdy.cpp:503-526 | stops as `Endpoint.RequestStop` says; a second request does not happen |
| `Channel.BufloMuxChannel.StartDefenseSession` | newweb/utility/buflo_mux_channel_impl_spdy.cpp:442-481 | starts the timer, becomes active, and stops write monitoring |
| `Channel.BufloMuxChannel.PumpSpdySend` | newweb/utility/buflo_mux_channel_impl_spdy.cpp:812-865 | turns new SPDY output into cells as the state demands |
| `Channel.BufloMuxChannel.MaybeFlushDataToCellOutbuf` | newweb/utility/buflo_mux_channel_impl_spdy.cpp:893-926 | the loop packs all output into cells and returns how many: the deque grows by that number, less the dummy that the first one replaces |
| `Channel.BufloMuxChannel.MaybeSetCellFlags` | newweb/utility/buflo_mux_channel_impl_spdy.cpp:944-995 | the byte gets exactly the pending flags, which are then no longer pending, and the result says whether one of them must not be lost |
| `Channel.BufloMuxChannel.MaybeAddOneDataCellToOutbuf` | newweb/utility/buflo_mux_channel_impl_spdy.cpp:1000-1075 | writes the bytes of one data cell behind the buffer, in place of a droppable dummy, or reports that there is no output |
| `Channel.BufloMuxChannel.UpdateOutputCellProgress` | newweb/utility/buflo_mux_channel_impl_spdy.cpp:1078-1123 | the loop ends, never looks into an empty deque, and arrives at quotient and remainder with the right data and dummy tallies |
| `Channel.BufloMuxChannel.RetireFrontCell` | newweb/utility/buflo_mux_channel_impl_spdy.cpp:1101-1115 | a completed front cell leaves the deque and is counted as its payload or as a dummy |
| `Channel.BufloMuxChannel.SendCellOutbuf` | newweb/utility/buflo_mux_channel_impl_spdy.cpp:1131-1219 | offers, drops and books as `Endpoint.Send` says, for every number of bytes the socket takes |
| `Channel.BufloMuxChannel.OfferOneCell` | newweb/utility/buflo_mux_channel_impl_spdy.cpp:1142-1174 | in a session offers one cell's worth, counts the attempt, and forgets a dummy that has been touched |
| `Channel.BufloMuxChannel.OfferWaiting` | newweb/utility/buflo_mux_channel_impl_spdy.cpp:1175-1203 | outside offers all but a droppable dummy and sets write monitoring |
| `Channel.BufloMuxChannel.OfferAndDrop` | newweb/utility/buflo_mux_channel_impl_spdy.cpp:1187-1206 | the drop between the write and the booking of its bytes keeps buffer and deque in step |
| `Channel.BufloMuxChannel.MaybeToggleWriteMonitoring` | newweb/utility/buflo_mux_channel_impl_spdy.cpp:1226-1264 | monitoring is as forced, or on exactly if the buffer is not empty; in a session it can only be switched off |
| `Channel.BufloMuxChannel.AddOneDummyCellToOutbuf` | newweb/utility/buflo_mux_channel_impl_spdy.cpp:1290-1320 | writes the bytes of one dummy cell with the pending flags, droppable only without control flags |
| `Channel.BufloMuxChannel.EnsureAWholeDummyCellAtEndOutbuf` | newweb/utility/buflo_mux_channel_impl_spdy.cpp:1322-1350 | adds a dummy exactly if there is none that may be dropped |
| `Channel.BufloMuxChannel.MaybeDropWholeDummyCellAtEndOutbuf` | newweb/utility/buflo_mux_channel_impl_spdy.cpp:1355-1430 | cuts the last cell off buffer and deque exactly if it is droppable, also with written bytes that are not booked yet |
| `Channel.BufloMuxChannel.FlushWithControlFlags` | newweb/utility/buflo_mux_channel_impl_spdy.cpp:706-727 | flushes and sends flags that found no data cell in a dummy; no flag is left pending |
| `Channel.BufloMuxChannel.FinishSession` | newweb/utility/buflo_mux_channel_impl_spdy.cpp:683-731 | the terminal tick, with its saved STOP flag, the server's DONE and the report |
| `Channel.BufloMuxChannel.AutoStopSession` | newweb/utility/buflo_mux_channel_impl_spdy.cpp:738-766 | the server's automatic stop |
| `Channel.BufloMuxChannel.RefillCellOutbuf` | newweb/utility/buflo_mux_channel_impl_spdy.cpp:772-798 | leaves at least one cell's worth of bytes |
| `Channel.BufloMuxChannel.CheckNotifyADefenseSessionDone` | newweb/utility/buflo_mux_channel_impl_spdy.cpp:1656-1678 | reports exactly if this end is inactive and the peer is done |
| `Channel.BufloMuxChannel.ReadInputCells` | newweb/utility/buflo_mux_channel_impl_spdy.cpp:1432-1513 | the loop ends and handles exactly the whole cells in the input, looking at each header before its body is there |
| `Channel.BufloMuxChannel.HandleInputCell` | newweb/utility/buflo_mux_channel_impl_spdy.cpp:1515-1640 | handles flags, content and DONE of one cell and removes exactly this cell |
| `Channel.BufloMuxChannel.HandleCellFlags` | newweb/utility/buflo_mux_channel_impl_spdy.cpp:1538-1584 | acts on the flags in the order AUTO_STOPPED, START, STOP, DEFENSIVE |
| `Streams.DeferralIsSound` | newweb/utility/buflo_mux_channel_impl_spdy.cpp:601-645 | in every run no check fails, SPDY never waits with data or an EOF to read, and it is handed a prefix of what was written |
| `Streams.ReadHandsOver` | newweb/utility/buflo_mux_channel_impl_spdy.cpp:2443-2447 | a read hands over the next bytes that were written, as many as were asked for or all there are, and no more |
| `Streams.EofComesLast` | newweb/utility/buflo_mux_channel_impl_spdy.cpp:2443-2461 | a read answers EOF, or defers, exactly when everything written so far is handed over and the EOF is, or is not, set |
| `Streams.SafeIffOrderly` | newweb/utility/buflo_mux_channel_impl_spdy.cpp:601-645 | no timing of the reads loses a user's bytes if and only if the user writes none after the EOF |
| `Streams.OrderlyLosesNothing` | newweb/utility/buflo_mux_channel_impl_spdy.cpp:623-645 | with such a user, everything is handed over when the EOF is signalled, and remains so |
| `Streams.LateByteIsLost` | newweb/utility/buflo_mux_channel_impl_spdy.cpp:2443-2461 | a byte written after the EOF was signalled is lost |
| `Streams.StreamState.WriteBuffer` | newweb/utility/buflo_mux_channel_impl_spdy.cpp:601-621 | appends and resumes a deferred stream |
| `Streams.StreamState.SetWriteEof` | newweb/utility/buflo_mux_channel_impl_spdy.cpp:623-645 | sets the EOF once and resumes a deferred stream |
| `Streams.StreamState.OnSpdylayDataRead` | newweb/utility/buflo_mux_channel_impl_spdy.cpp:2429-2465 | hands over the next bytes, at most as many as wanted and fewer only if there are no more, or defers, or signals the EOF |
| `MessageFraming.ReadBack` | newweb/utility/generic_message_channel.cpp:32-152 | reading an encoded sequence of messages gives it back, whatever follows |
| `MessageFraming.WriteBack` | newweb/utility/generic_message_channel.cpp:32-108 | any bytes are the encoding of the messages read from them followed by an incomplete rest |
| `MessageFraming.ReadOn` | newweb/utility/generic_message_channel.cpp:41-108 | reading may stop anywhere: going on with the rest and more bytes gives the same messages |
| `MessageFraming.PrefixHolds` | newweb/utility/generic_message_channel.cpp:84-103 | the first n bytes of an encoding hold exactly the messages that fit into them |
| `MessageFraming.ArrivedIsGreatest` | newweb/utility/generic_message_channel.cpp:84-103 | the number of messages that have arrived is the greatest whose encoding fits |
| `MessageFraming.HeaderLayout` | newweb/utility/generic_message_channel.cpp:133-152 | the seven bytes of a header: type, id and length, these two in network byte order |
| `MessageFraming.HeaderRoundTrip` | newweb/utility/generic_message_channel.cpp:133-152 | type, id and length come back out of the seven header bytes |
| `MessageFraming.HeaderExact` | newweb/utility/generic_message_channel.cpp:50-66 | and every seven bytes are the header of what is read from them |
| `MessageChannels.FramingRoundTrip` | newweb/utility/generic_message_channel.cpp:32-152 | for every sequence of messages and every split of a prefix of its encoding, the observer gets exactly the messages that have arrived, in order and with all fields |
| `MessageChannels.ChunksDoNotMatter` | newweb/utility/generic_message_channel.cpp:32-112 | for arbitrary bytes what is received and what is kept depend on the bytes alone, not on their chunks |
| `MessageChannels.WatermarkExact` | newweb/utility/generic_message_channel.cpp:154-164 | the watermark is above what is buffered, and a call achieves something if and only if it is reached |
| `MessageChannels.GatingIsInvisible` | newweb/utility/generic_message_channel.cpp:110-112 | being called only at the watermark never delays a message |
| `MessageChannels.ConsumeRests` | newweb/utility/generic_message_channel.cpp:154-164 | a call never stops in the middle of a message of length zero |
| `MessageChannels.GenericMessageChannel.ConsumeInput` | newweb/utility/generic_message_channel.cpp:32-112 | the loop ends, gives the observer every complete message, keeps the rest, and sets the watermark |
| `MessageChannels.GenericMessageChannel.SendMsg` | newweb/utility/generic_message_channel.cpp:114-152 | what has been written is the encoding of the messages sent |
| `MessageChannels.GenericMessageChannel.OnNewReadDataAvailable` | newweb/utility/generic_message_channel.cpp:25-30 | new bytes are consumed as far as possible |
| `Torrent.Conservation` | torrent/torrent-client.c:391-485 | in every run, over any number of connections and restarts, every block is waiting, downloaded or at one connection, and all bytes down and up belong to downloaded blocks or blocks under way |
| `Torrent.ActivateKeeps` | torrent/torrent-client.c:133-492 | every activation keeps the sums, also when it returns early |
| `Torrent.TransferEffect` | torrent/torrent-client.c:419-468 | a transfer adds exactly the bytes its calls moved, is finished exactly when both directions are complete and no call failed, and touches nothing else |
| `Torrent.RequestEffect` | torrent/torrent-client.c:391-417 | a request takes a block exactly if one is left and it was sent, and makes the connection idle exactly if none is left |
| `Torrent.FinishedEffect` | torrent/torrent-client.c:470-485 | a block is counted exactly when the server says that it is finished |
| `Torrent.ConnectingEffect` | torrent/torrent-client.c:255-270 | a connection through the proxy goes on with its first request; a reply of the authority adds its nodes |
| `Torrent.AuthEffect` | torrent/torrent-client.c:326-389 | the authority is asked once; a call that fails, and an idle connection, change nothing |
| `Torrent.CodeExact` | torrent/torrent-client.c:24-41 | the result of an activation is that of its first call that moved nothing |
| `Torrent.RestartsExactly` | torrent/torrent.c:313-325 | the client starts again exactly after a broken connection or a refusal by the proxy |
| `Torrent.DivisionTruncates` | torrent/torrent-client.c:110-110 | the number of blocks uses C's division, which truncates towards zero |
| `Torrent.StartsEmpty` | torrent/torrent-client.c:102-126 | a client starts with every block waiting and one connection, on which it will ask for nodes |
| `Torrent.CompletionIsExact` | torrent/torrent.c:330-348 | completion by blocks means that nothing is under way and that at least the file and less than a block more has come in |
| `Torrent.CompletionTestsAgree` | torrent/torrent-service.c:206-211 | the tests by blocks and by bytes agree exactly if no connection has a block |
| `Torrent.ByteTestIsEarly` | torrent/torrent-service.c:206-211 | a run in which the test by bytes holds before the last block is finished |
| `Torrent.NoOverflow` | torrent/torrent-client.c:102-112 | no counter of blocks or downloaded bytes leaves the range of a gint if the rounded-up file size fits |
| `Torrent.BlocksRoundUp` | torrent/torrent-client.c:108-112 | the number of blocks is the file size divided by the block size, rounded up |
| `Torrent.NodesAreKnown` | torrent/torrent-client.c:334-389 | after a reply every node in it is a server and none is listed twice; each new server has exactly one new socket, in the right first state and with its address and port, each new socket is for a new server, and the other connections are untouched |
| `Torrent.StartedHolds` | torrent/torrent-client.c:89-131 | a started client satisfies the sums |
| `TorrentClients.TorrentClient.Activate` | torrent/torrent-client.c:133-492 | updates counters and connections as `Torrent.Activate` says and keeps the client valid |
| `TorrentClients.TorrentClient.ActivateTransfer` | torrent/torrent-client.c:419-468 | the transfer state, with its two early returns |
| `TorrentClients.TorrentClient.ActivateRequest` | torrent/torrent-client.c:391-417 | the request state: a block is taken exactly if one is left and the request was sent |
| `TorrentClients.TorrentClient.ActivateFinished` | torrent/torrent-client.c:470-485 | the finished state: a block is counted exactly once |
| `TorrentClients.TorrentClient.AddServers` | torrent/torrent-client.c:339-383 | the loop connects to every node that is not known yet |
| `TorrentClients.TorrentClient.Handle` | torrent/torrent.c:313-325 | a fatal error starts the client again with fresh counters |
| `BucketedCdf.GenCdf` | newweb/experiments/common.py:56-107 | fails exactly for no values; otherwise the first bound is the minimum, the others are multiples of the bucket size, every other value lies less than a bucket below one of them and none of these is empty, every fraction times the number of values is the number of values not above its bound, bounds and fractions strictly increase, and the last fraction is 1 |
| `BucketedCdf.UpperBoundIsBucket` | newweb/experiments/common.py:80-80 | the bound of a value's bucket is the multiple of the bucket size less than a bucket above it |
| `BucketedCdf.CountValues` | newweb/experiments/common.py:65-89 | the dictionary holds, for every bucket with a value and no other, the number of values in it |
| `BucketedCdf.Accumulate` | newweb/experiments/common.py:93-106 | adding the counts up in the order of the bounds gives the distribution |
| `BucketedCdf.BucketOrder` | newweb/experiments/common.py:57-63 | a value is below a bound exactly if its bucket is, including the bucket of the minimum |
| `BucketedCdf.NextBound` | newweb/experiments/common.py:96-99 | between one bound and the next lie exactly the values of the next bucket |

## Left out

- SPDY itself: it is a producer and a consumer of bytes. Stream ids, the table of streams and the pump that follows every user action are not part of the model of a stream.
- The user's callbacks are separate events: a callback that calls back into the channel from within a read or a report is modelled as happening right after it.
- The handshake that exchanges cell sizes, closing the socket, socket errors and end of file, and the mode without cells.
- Cells that no peer of this program sends: a cell whose length field does not fit, or of the CONTROL type, is fatal in the model, and the proof shows that none arrives. The code's own check of the length (newweb/utility/buflo_mux_channel_impl_spdy.cpp:1528) would let a payload through that reaches into the next cell.
- The client's direct call of `start_defense_session`: the client-side proxy only arms. The immediate stop (`right_now`) is unimplemented in the source.
- The widths of the counters of the channel: they are unbounded here, while `num_write_attempts` and the cell counts wrap at 32 bits in the source.
- Time: a tick and the time limit are inputs, so nothing is said about the interval between ticks.
- `GenericMessageChannel` after end of file or an error, and the variant without message ids, which is never switched on.
- The SOCKS states of the torrent client are one state before the first request; a failing negotiation always restarts the client here, while the source restarts only after a failed connection reply. Timing reports, fillers and the search for the word FINISHED are inputs or left out.
- Failed connects of the torrent client: its connect function returns positive error codes that its callers take for sockets. The model has connects that succeed, with a socket below the process's limit.
- The torrent client's list and table hold the same server objects; here the table holds values and the list only addresses.
- `genCDF` without buckets, its file output, and the rounding of floating-point numbers. Python's `min` and `sorted` are written out as loops.
