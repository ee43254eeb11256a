# HiveConnect: a verified model

HiveConnect joins robots into a swarm. Each robot carries a module that talks to its own host
over SPI and to the other modules over the network. This project models, in Dafny, the two
parts of the module whose correctness no single branch of the code shows, and proves what they
guarantee over whole runs:

1. **The SPI slave driver** (`SpiStm.cpp`): a full-duplex link on which two coupled state
   machines agree on payload sizes by echoing them in headers, while one task sends, one
   reads, and the bus master may cut any transfer short.
2. **The routing of messages in a swarm** (`MessageDispatcher.cpp`, its handlers,
   `MessageSender.cpp`, the broker), composed into N modules with their hosts.

Three smaller parts follow the same lines: the agent table, the datagram ring and the partial
read and write loops of the unicast link.

## How it is built

The objects that the program updates in place are Dafny classes over fields and arrays
(`SpiStm`, `Dispatcher`, `MessageSender`, `CircularQueue`, `NetworkManager`,
`CommunicationBroker`, `NetworkBroadcast`, `TCPClient`, `TCPServer`). Each method is proved to
compute a function of the object's abstract state; the theorems are about those functions and
about runs built from them.

| file | content |
|---|---|
| `Bytes.dfy`, `StmHeader.dfy`, `Framing.dfy` | words, the 8-byte header, padded frames with CRC32 |
| `SpiModel.dfy`, `SpiStm.dfy` | the driver's state and routines, and the class that implements them |
| `SpiRoutines.dfy`, `ModuleRoutines.dfy` | what each routine does, spelled out in bytes, sizes and entries |
| `SpiRuns.dfy`, `SpiLog.dfy` | runs of the driver with a log of events; the reader of that log |
| `SpiTransfers.dfy` | how long the transfers are, and what makes one too long for the buffer |
| `SpiHandshake.dfy`, `SpiPermission.dfy`, `SpiLedger.dfy`, `SpiOrigin.dfy`, `SpiRoundTrip.dfy` | the theorems about the link |
| `SpiScenarios.dfy` | runs of the driver that show where its promises fail |
| `Messages.dfy`, `AgentTable.dfy`, `Routing.dfy`, `MessageDispatcher.dfy`, `Broker.dfy` | one module and the broker |
| `Swarm.dfy`, `SwarmInvariant.dfy`, `SwarmPipeline.dfy`, `SwarmDelivery.dfy` | N modules, the joint invariant, the pipeline between two stations |
| `SwarmOrder.dfy`, `SwarmOnce.dfy`, `SwarmLosses.dfy` | order and uniqueness of every kind of message; which action loses what |
| `SwarmTheorems.dfy`, `SwarmAccounting.dfy`, `SwarmBroker.dfy` | the theorems about the swarm |
| `SwarmEarly.dfy`, `SwarmResponses.dfy`, `SwarmExchange.dfy` | answers given before the greeting; how many responses a request brings, and exactly when it brings one |
| `SwarmStorm.dfy` | a run in which every other station answers one request, and all the answers arrive |
| `Sequences.dfy` | filtered sequences, subsequences and sums |
| `DatagramRing.dfy`, `TcpStream.dfy` | the datagram ring and the unicast loops |

A run is any sequence of actions; an action that is not enabled changes nothing, so every
theorem about all sequences is about all interleavings.

**The driver.** One action is a pass of `execute` up to the blocking transfer; another is the
transfer itself, with any bytes and any length up to the agreed one, followed by the interrupt;
the others are a task entering `send`, that task returning after its notification, and
`receive` finding enough bytes. The pointer to the received header is modelled as what it is, a
view of the receive buffer: a short payload transfer that overwrites it changes the length
re-read for the next attempt.

**The swarm.** The actions are: the host's greeting, a host injection, an address announcement,
sending the head of a broadcast queue (the send may fail, and any subset of the receivers may
have no room), dispatching an arrived message, writing to the host (which may fail), and
dropping a table entry at any time. The time before the greeting, when a module's id reads as
0, is part of every run. `tag`, the serial number of the injection a message stems from, is a
history variable no branch looks at, and so are `issued`, what a station queued as its own, and
`answered`, what it handled. `lost` records, per message and receiver, that it will never arrive.

## Assumptions

- CRC8 and CRC32 are arbitrary functions; their code is not in the repository.
- `CircularBuff` is a bounded FIFO of its array's size whose put is all-or-nothing;
  `CircularQueueStack` refuses a push when full; the hash map holds 32 agents, and its
  iteration order, which the library does not fix here, is the order of an association list.
  These libraries are not part of this model.
- A completely received header whose CRC8 holds is well formed: it announces either no payload
  or 4 to 2044 bytes, with a payload size that leaves room for the CRC32. The driver does not
  check this.
- Runs of the driver are contained: no transfer writes more than the 2044 bytes of the receive
  buffer. The driver itself can ask for more, and `OverrunsIffCareless` says exactly when: after
  a message of more than 2040 bytes, or after a payload transfer cut short that leaves an
  impossible size to be read again. In runs without these two, every transfer the driver asks
  for fits (`NeverStuck`), so that containment excludes nothing. What happens once bytes land
  behind the buffer, on the size the CRC check reads, is not modelled.
- One task calls `send`, and what `send` does before it waits is one step; so are the length
  check and the read in `receive`. The code takes no lock. Queue operations are atomic as well;
  the hivemind notification queue is in fact built on the unguarded queue
  (`MessageHandlerContainer.cpp:40`).
- The driver object has static storage (`bsp/src/esp/src/Container.cpp`), so the fields its
  constructor leaves out, such as `m_hasSentPayload`, start as zero.
- Host ids are non-zero and distinct, and a module keeps its id once greeted. Hosts inject
  under their own id and forge neither greetings nor address announcements. All modules are in
  the broker's list.

## Where the code and its promises differ

- `send` accepts up to 2043 bytes, but a frame fits the transfer buffer exactly for up to 2040
  (`AnnouncementUsable`; `GuardTooWide` names an input). For 2041 to 2043 bytes the CRC32 lands
  behind the array, on the size field that is written next; the announced size is one the
  receiver cannot take; and once it is echoed the driver starts a transfer longer than its own
  receive buffer (`CarelessOverruns`, `OverrunsIffCareless`).
- The length re-read for another attempt comes from the receive buffer, so a payload transfer
  cut short can make it anything: too long (`CarelessInputs`), or too short, and then a stored
  frame can be made of two transfers (`MixedFrame`; `StoredFromTransfer` says exactly when).
- "At most two sends per injection" fails, and can fail exactly in swarms of three or more
  (`StormsIff`). Before its greeting a module takes a request to everyone for its own, because
  its id reads as the broadcast address, and answers it (`QuestionToAll`), so one such request
  can be answered by all modules but its own. `NoStorm` bounds the sends in every run: the
  excess is at most, for each request to everyone that left its module, the number of stations
  without an id at that time, less one; `StormAttains` is a run that attains the bound.
- "One request, one response" fails for the same reason, and can fail exactly in swarms of three
  or more (`TwinsIff`). In every run a host has one message of an injection at most, unless that
  is its own request to everyone, and then as many as stations had no id when it left
  (`ResponsesBounded`; attained in `ResponsesAttain`). For a request to one module `OneResponse`
  says exactly when its host has the one response.
- `ISpiStm.h` documents that `send` returns true once the transfer started. It does not:
  `StartedYetFalse` gives, for every message that fits, a run in which its frame goes out
  completely and `send` returns false. The result is whether the first valid header after the
  transfer reported no CRC failure (`SendConservation`).

## Model

| member | source | states |
|---|---|---|
| `SpiDriver.SpiStm.Execute` | src/bsp/src/esp/src/SpiStm.cpp:94-221 | one loop pass turns the whole driver state into exactly the modelled one |
| `SpiDriver.SpiStm.ReceiveSide` | src/bsp/src/esp/src/SpiStm.cpp:98-184 | the receive switch: state and length to receive |
| `SpiDriver.SpiStm.TransmitSide` | src/bsp/src/esp/src/SpiStm.cpp:186-220 | the transmit switch, the transfer length and whether a transfer starts |
| `SpiDriver.SpiStm.ParseInboundHeader` | src/bsp/src/esp/src/SpiStm.cpp:102-147 | a corrupted header goes to the error state; a valid one decides both phases and acknowledges |
| `SpiDriver.SpiStm.DecidePhases` | src/bsp/src/esp/src/SpiStm.cpp:115-138 | what a valid header decides for sending and for receiving |
| `SpiDriver.SpiStm.NotifySender` | src/bsp/src/esp/src/SpiStm.cpp:139-146 | a pending acknowledgement is taken from the header and the sender notified |
| `SpiDriver.SpiStm.CheckPayload` | src/bsp/src/esp/src/SpiStm.cpp:151-174 | CRC failure sets the flag, a stored payload clears it, a full FIFO leaves it; sizes are reset |
| `SpiDriver.SpiStm.UpdateOutboundHeader` | src/bsp/src/esp/src/SpiStm.cpp:223-229 | the outbound header announces, echoes and is sealed; nothing else changes |
| `SpiDriver.SpiStm.TransactionCallback` | src/bsp/src/esp/src/SpiStm.cpp:237-265 | a short transfer changes nothing, a complete one advances both machines |
| `SpiDriver.SpiStm.Exchange` | src/bsp/src/esp/src/SpiStm.cpp:207-219 | the bytes of a contained transfer land at the start of the buffer before the interrupt fires |
| `SpiDriver.SpiStm.BuildFrame` | src/bsp/src/esp/src/SpiStm.cpp:60-72 | copying, padding in place and appending the CRC32 leaves the frame in the buffer, cut at its end |
| `SpiDriver.SpiStm.BeginSend` | src/bsp/src/esp/src/SpiStm.cpp:51-75 | a message is refused without effect exactly from 2044 bytes on; else its frame is pending |
| `SpiDriver.SpiStm.EndSend` | src/bsp/src/esp/src/SpiStm.cpp:76-85 | the result is the recorded acknowledgement, or false in the error state |
| `SpiDriver.SpiStm.Receive` | src/bsp/src/esp/src/SpiStm.cpp:36-49 | refuses lengths over 2044, waits while bytes are missing, else returns exactly the oldest bytes, as many as asked for, and removes them |
| `SpiRoutines.HeaderJudged` | src/bsp/src/esp/src/SpiStm.cpp:102-115 | a header is valid if and only if its last byte is the CRC8 of the others; otherwise the link and the receive side are in error and nothing is sent |
| `SpiRoutines.EchoDecides` | src/bsp/src/esp/src/SpiStm.cpp:116-125 | after a valid header the payload goes out if and only if one is pending and the header's bytes echo its size |
| `SpiRoutines.AnnouncementDecides` | src/bsp/src/esp/src/SpiStm.cpp:127-138 | after a valid header a payload is received if and only if it announces the non-zero size our header echoed |
| `SpiRoutines.AcknowledgementTaken` | src/bsp/src/esp/src/SpiStm.cpp:139-146 | a pending acknowledgement is bit 1 of the header's status byte, and the sender is notified once |
| `SpiRoutines.PayloadJudged` | src/bsp/src/esp/src/SpiStm.cpp:151-174 | a payload is stored if and only if the last four bytes are the CRC32 of the others and 2044 bytes of FIFO have room; a wrong CRC32 stores nothing and sets the flag, a full FIFO leaves both |
| `SpiRoutines.ErrorClears` | src/bsp/src/esp/src/SpiStm.cpp:175-183 | after a corrupted header the FIFO is emptied and the driver waits for a header |
| `SpiRoutines.TransferLength` | src/bsp/src/esp/src/SpiStm.cpp:207-208 | the transfer is exactly the longer of what is received and what is sent |
| `SpiRoutines.HeaderToSend` | src/bsp/src/esp/src/SpiStm.cpp:223-229 | a header on its way announces our frame and payload, echoes their size, and ends with its CRC8 |
| `SpiRoutines.TransferEnds` | src/bsp/src/esp/src/SpiStm.cpp:237-265 | a complete transfer advances both machines and clears both sizes of a payload sent; a short one leaves its bytes only |
| `SpiRoutines.MessagePending` | src/bsp/src/esp/src/SpiStm.cpp:60-75 | an accepted message is pending unchanged, padded with zeros to a word, followed by the CRC32 of both |
| `SpiRoutines.FetchDelivers` | src/bsp/src/esp/src/SpiStm.cpp:36-49 | in a run, `receive` returns exactly as many bytes as asked for, the oldest |
| `SpiRoutines.SendReturns` | src/bsp/src/esp/src/SpiStm.cpp:76-85 | a notified `send` returns the recorded verdict and lets the next message in |
| `StmHeader.Layout` | src/bsp/src/esp/include/SpiHeader.h:15-34 | the offsets and the byte order of the fields, and the bit of the failed-CRC flag |
| `Framing.FrameShape` | src/bsp/src/esp/src/SpiStm.cpp:60-72 | a frame is the payload, zeros up to a word, and the CRC32 of both |
| `SpiPermission.PayloadsWithLeave` | src/bsp/src/esp/src/SpiStm.cpp:116-121 | in every run each payload that went out is the frame of the message accepted last, and the last valid header before it echoed exactly its size |
| `StmHeader.DecodeEncode` | src/bsp/src/esp/include/SpiHeader.h:26-34 | reading a header back from its packed layout is the identity |
| `StmHeader.EncodeDecode` | src/bsp/src/esp/include/SpiHeader.h:26-34 | every eight bytes are the layout of the header they are read as |
| `StmHeader.WithFailedCrc` | src/bsp/src/esp/include/SpiHeader.h:15-24 | writing the failed-CRC flag through the STM view changes raw bit 1 and no other |
| `Framing.PaddedLengthLeast` | src/bsp/src/esp/src/SpiStm.cpp:64-68 | the padded length is the least multiple of four not below the length |
| `Framing.FrameFits` | src/bsp/include/bsp/ISpiStm.h:7-8 | a frame fits the buffer if and only if the payload has at most 2040 bytes |
| `Framing.FramePasses` | src/bsp/src/esp/src/SpiStm.cpp:151-161 | a received frame passes the CRC32 test and starts with the payload |
| `SpiRuns.Reachable` | src/bsp/src/esp/src/SpiStm.cpp:94-265 | the joint invariant of both machines, the pending acknowledgement, the echoed size and the sender, in every state of every contained run |
| `SpiTransfers.NeverStuck` | src/bsp/src/esp/src/SpiStm.cpp:243-257 | no contained run reaches the interrupt's default branch or the transmit error state; in a careful one every transfer the driver waits for fits its buffer |
| `SpiTransfers.TransferFits` | src/bsp/src/esp/src/SpiStm.cpp:186-210 | a pass asks for more than the buffer holds if and only if it starts an oversized payload or re-reads an impossible size |
| `SpiTransfers.OverrunsIffCareless` | src/bsp/src/esp/src/SpiStm.cpp:148-150 | after a careful run, an action can lead to a transfer that is too long if and only if it sends more than 2040 bytes or cuts a payload short over the size to be re-read |
| `SpiTransfers.CarelessInputs` | src/bsp/src/esp/src/SpiStm.cpp:52-57 | the two inputs: 2041 bytes to send, and three bytes of a payload that make the re-read length 65535 |
| `SpiHandshake.TwoHeaderHandshake` | src/bsp/src/esp/src/SpiStm.cpp:127-138 | every payload phase for n follows a header announcing n, our complete echo of n, and a second header announcing n, with no validation or corruption in between |
| `SpiHandshake.HeaderBudget` | src/bsp/src/esp/src/SpiStm.cpp:102-138 | twice the payload phases never exceed the valid headers; connected means the last header was valid |
| `SpiHandshake.BoundedProgress` | src/bsp/src/esp/src/SpiStm.cpp:102-147 | from any reachable waiting state, three valid headers announcing n start the payload phase for n, whatever sender, transmit side and short transfers do |
| `SpiHandshake.NeedShrinks` | src/bsp/src/esp/src/SpiStm.cpp:186-197 | each such header lowers the number still needed, and nothing else raises it |
| `SpiLedger.SendConservation` | src/bsp/src/esp/src/SpiStm.cpp:61-84 | accepted frames go out in order and once, one notification per acknowledged payload, results are the flags of the first valid header after each payload |
| `SpiLedger.OneDebt` | src/bsp/src/esp/src/SpiStm.cpp:192-197 | the sender waits un-notified exactly while its frame or the acknowledgement is due, never both; where a pass clears the pending flag to send a payload, it is not set |
| `SpiLedger.ByteStream` | src/bsp/src/esp/src/SpiStm.cpp:151-183 | bytes read plus FIFO are the stored payloads in order; each comes from a frame that ends with the CRC32 of what precedes it; headers on the wire are sealed and carry the last verdict |
| `SpiOrigin.StoredFromTransfer` | src/bsp/src/esp/src/SpiStm.cpp:148-161 | a stored frame agrees with the last complete transfer as far as both go, and is its beginning if and only if it is not longer |
| `SpiOrigin.SteadyBegins` | src/bsp/src/esp/src/SpiStm.cpp:148-161 | it is its beginning in runs in which no cut transfer shrinks the size to be re-read |
| `SpiScenarios.MixedFrame` | src/bsp/src/esp/src/SpiStm.cpp:148-161 | for every eight bytes, a run that stores them with a checksum left over from an earlier transfer |
| `SpiScenarios.StartedYetFalse` | src/bsp/include/bsp/ISpiStm.h:12-18 | for every message that fits, a run in which it goes out completely and `send` returns false |
| `SpiRoundTrip.AnnouncementUsable` | src/bsp/src/esp/src/SpiStm.cpp:51-57 | the header of an accepted message is usable if and only if the message has at most 2040 bytes |
| `SpiRoundTrip.GuardTooWide` | src/bsp/src/esp/src/SpiStm.cpp:52-57 | a message of 2041 bytes is accepted and announced with a size no buffer holds |
| `SpiRoundTrip.AnnouncementParsed` | src/bsp/src/esp/src/SpiStm.cpp:102-134 | the announcement opens the payload phase with the frame's and the message's sizes |
| `SpiRoundTrip.RoundTrip` | src/bsp/src/esp/src/SpiStm.cpp:51-72 | header and frame of a message, contained, pass both checksums and append exactly the message, or change nothing when the FIFO is full |
| `AgentTable.NetworkManager.GetIPFromAgentID` | src/network/src/common/src/AbstractNetworkManager.cpp:15-21 | the address of the agent, or nothing |
| `AgentTable.NetworkManager.RegisterAgent` | src/network/src/common/src/AbstractNetworkManager.cpp:23-35 | succeeds if and only if the agent is known or fewer than 32 are; then it has the address, and every other agent its own |
| `AgentTable.NetworkManager.UnregisterAgent` | src/network/src/common/src/AbstractNetworkManager.cpp:37 | removes the agent and no other, and reports whether it was there |
| `AgentTable.NetworkManager.GetAgentList` | src/network/src/common/src/AbstractNetworkManager.cpp:39-48 | fills exactly the listed prefix, leaves the rest, warns if and only if agents are left over |
| `AgentTable.NetworkManager.Callback` | src/network/src/common/src/AbstractNetworkManager.cpp:3-13 | stores one id and goes on, or stops without effect at the limit |
| `AgentTable.UpsertLooksUp` | src/network/src/common/src/AbstractNetworkManager.cpp:23-35 | registration changes the address of one agent and of no other |
| `AgentTable.ListingSound` | src/network/src/common/src/AbstractNetworkManager.cpp:39-48 | a listing has the smaller of table size and limit, distinct known ids, and all of them when they fit |
| `MessageDispatcher.Dispatcher.DeserializeAndDispatch` | src/message-handler/src/MessageDispatcher.cpp:24-45 | one message turns the module state into exactly the modelled one; a failed read changes nothing |
| `MessageDispatcher.Dispatcher.ForwardMessage` | src/message-handler/src/MessageDispatcher.cpp:88-115 | which queue, if any, gets the message, and the result |
| `MessageDispatcher.Dispatcher.DispatchNetworkAPI` | src/message-handler/src/MessageDispatcher.cpp:47-69 | registration, its failure, or a forwarded reply |
| `MessageDispatcher.Dispatcher.DispatchHiveAPI` | src/message-handler/src/MessageDispatcher.cpp:71-86 | forwarding for others, handling and always-forwarded answer for itself |
| `MessageDispatcher.Dispatcher.HandleApiCall` | src/message-handler/src/NetworkAPIHandler.cpp:6-16 | an announcement registers its sender; anything else is an error |
| `MessageDispatcher.Dispatcher.HandleMessage` | src/message-handler/src/HiveConnectHiveMindMessageHandler.cpp:7-73 | a request's answer with swapped addresses, for the agents the module's own agents; a response as it is |
| `MessageDispatcher.Bsp.SetConfig` | src/message-handler/src/HiveConnectHiveMindMessageHandler.cpp:34-49 | the writes of a configuration request, in order, until one fails |
| `ModuleRoutines.AgentsAnswer` | src/message-handler/src/HiveConnectHiveMindMessageHandler.cpp:10-18 | the answer to a request for the agents lists each of them once, up to the limit, and all when they fit |
| `ModuleRoutines.AgentsAnswerQueued` | src/message-handler/src/MessageDispatcher.cpp:71-86 | that answer is queued for the own host, or for the network when the asker is known |
| `ModuleRoutines.ConfigureSucceeds` | src/message-handler/src/HiveConnectHiveMindMessageHandler.cpp:34-49 | a configuration request succeeds if and only if every wanted entry can be written, and then exactly those have changed |
| `ModuleRoutines.ConfigureFails` | src/message-handler/src/HiveConnectHiveMindMessageHandler.cpp:34-49 | when it fails, which entries have changed and which have not |
| `ModuleRoutines.ConfigAnswer` | src/message-handler/src/HiveConnectHiveMindMessageHandler.cpp:20-61 | the asker gets the stored configuration, or whether the wanted one was stored |
| `ModuleRoutines.AnnouncementRegisters` | src/message-handler/src/NetworkAPIHandler.cpp:6-16 | an announcement is accepted if and only if its sender is known or fewer than 32 agents are; then it is known at that address, and nothing is queued |
| `ModuleRoutines.DispatchResult` | src/message-handler/src/MessageDispatcher.cpp:71-115 | a dispatch fails if and only if there was a message to pass on and it is in no queue afterwards |
| `ModuleRoutines.OtherCallFails` | src/message-handler/src/NetworkAPIHandler.cpp:6-16 | any other network call fails and changes nothing |
| `ModuleRoutines.GreetingGivesId` | src/message-handler/src/MessageDispatcher.cpp:24-32 | a greeting gives the module its id and changes nothing else |
| `MessageDispatcher.MessageSender.ProcessAndSerialize` | src/message-handler/src/MessageSender.cpp:16-28 | the head of the queue leaves it and is written if and only if the stream takes it |
| `MessageDispatcher.MessageSender.Greet` | src/message-handler/src/MessageSender.cpp:9-14 | a greeting bypasses the queue |
| `Routing.DispatchPlaces` | src/message-handler/src/MessageDispatcher.cpp:88-115 | a dispatch queues the message it passes on for the host exactly when it is its own or a foreign broadcast, for the network exactly when it is the host's broadcast or for a known agent and allowed, unless that queue is full |
| `Routing.NoRelay` | src/message-handler/src/MessageDispatcher.cpp:71-115 | from the network only a request for this module leads back to the network, as its matching answer to a known agent |
| `Routing.QuestionToAll` | src/message-handler/src/MessageDispatcher.cpp:71-86 | a request to everyone is answered if and only if the module has no id yet |
| `Broker.CommunicationBroker.constructor` | src/network/src/ros/src/broker/CommunicationBroker.cpp:4-17 | one topic per configured robot |
| `Broker.CommunicationBroker.CommunicationCallback` | src/network/src/ros/src/broker/CommunicationBroker.cpp:44-51 | every topic but the source's gains the message, once |
| `SwarmBroker.DrainIsFanOut` | src/network/src/ros/src/broker/CommunicationBroker.cpp:44-51 | in every run, sending one broadcast does to all inboxes what the broker does to its topics |
| `SwarmInvariant.Reachable` | src/main.cpp:71-246 | in every run every message, table entry and answer in the swarm has its rightful origin |
| `SwarmTheorems.PipelineEquation` | src/message-handler/src/MessageDispatcher.cpp:88-115 | between any two stations, plain messages delivered (or requests handled), queued, arrived and unsent are together what was injected minus what is lost, in order |
| `SwarmTheorems.PointToPoint` | src/message-handler/src/MessageDispatcher.cpp:88-115 | a plain message for host k is at host k at most once and never at another host; no host has two messages of a plain injection |
| `SwarmTheorems.OrderedDelivery` | src/message-handler/src/MessageSender.cpp:16-28 | the plain messages a host received are a prefix of what it is owed, all of it when drained, and nothing is missing without a recorded loss |
| `SwarmTheorems.OnceInOrder` | src/message-handler/src/MessageSender.cpp:16-28 | for every kind of message that carries its station's id: what a host got from a station is a subsequence of what that station queued as its own, each once, and what a host wrote comes in the order of injection |
| `SwarmTheorems.AllArrive` | src/message-handler/src/MessageDispatcher.cpp:88-112 | for the same messages: a drained host has received exactly what the other station queued for it if and only if no action kept one of them from it |
| `SwarmLosses.LossIff` | src/message-handler/src/MessageDispatcher.cpp:88-115 | an action loses a message for a station if and only if it handles that message, addressed there, under one of the listed conditions |
| `SwarmLosses.CompleteDelivery` | src/message-handler/src/MessageDispatcher.cpp:88-112 | a drained pair of stations has delivered exactly what was injected, in order, if and only if no action of the run lost a message of this pair |
| `SwarmTheorems.BroadcastScope` | src/message-handler/src/MessageDispatcher.cpp:95-106 | a message for everyone, of any kind, reaches other hosts only if injected after the greeting and its own host only if before; broadcast queues hold only what their station issued; no greeting is ever queued |
| `SwarmTheorems.ResponsesAreAnswers` | src/message-handler/src/HiveConnectHiveMindMessageHandler.cpp:10-18 | a delivered response answers an earlier request of that host: same id, swapped addresses, only announced agents listed |
| `SwarmTheorems.ResponsesDistinct` | src/message-handler/src/HiveConnectHiveMindMessageHandler.cpp:64-69 | two messages at a host never stem from one injection, unless both answer its own request to everyone from before all were greeted |
| `SwarmResponses.ResponsesBounded` | src/message-handler/src/HiveConnectHiveMindMessageHandler.cpp:10-18 | a host has one message of an injection at most, or, of its own request to everyone, as many as stations had no id when it left |
| `SwarmResponses.TwinsIff` | src/message-handler/src/MessageDispatcher.cpp:71-86 | a host can get two messages of one injection if and only if there are three stations |
| `SwarmResponses.ResponsesAttain` | src/message-handler/src/MessageDispatcher.cpp:71-86 | with n stations, a run in which one early request brings its host n - 1 responses |
| `SwarmEarly.AlwaysCovered` | src/message-handler/src/HiveConnectHiveMindMessageHandler.cpp:10-18 | in every run the answers without a source to one request, at one host or on their way to it, are at most the other stations that answered it |
| `SwarmExchange.OneResponse` | src/message-handler/src/MessageDispatcher.cpp:71-115 | once drained, the host that asked another module has exactly one matching response if no action lost the request, left it unanswered or lost the answer, and none if some action did |
| `SwarmExchange.AnswerQueuedIff` | src/message-handler/src/MessageDispatcher.cpp:75-85 | a handled request is answered on the network if and only if the asker is known and there is room |
| `SwarmTheorems.AnsweredOnce` | src/message-handler/src/MessageDispatcher.cpp:71-86 | no module answers a request twice, and one to a single module only that module answers; one to everyone is answered only by modules without an id when it was injected |
| `SwarmTheorems.TablesSound` | src/message-handler/src/NetworkAPIHandler.cpp:9-13 | every table entry was announced with that address by the other station it names |
| `SwarmTheorems.AnnouncementKnown` | src/message-handler/src/NetworkAPIHandler.cpp:9-13 | a station with room, or that knows it, knows the announcer at its address after dispatching the announcement |
| `SwarmTheorems.KnownStays` | src/network/src/common/src/AbstractNetworkManager.cpp:23-37 | a known agent stays known at the same address until it is unregistered |
| `SwarmTheorems.AgentsListed` | src/message-handler/src/HiveConnectHiveMindMessageHandler.cpp:10-18 | a station that handles a request for the agents, from an asker it knows and with room, queues the list of its own agents |
| `SwarmTheorems.QueuedForKnown` | src/message-handler/src/MessageDispatcher.cpp:108-112 | a step leaves a broadcast queue alone, takes its head, or adds one message for everyone or for an agent then in the table |
| `SwarmAccounting.NoStorm` | src/message-handler/src/MessageDispatcher.cpp:47-115 | sends never exceed announcements plus twice the injections plus, for each request to everyone that left its module, the stations without an id at that time less one |
| `SwarmAccounting.StormAttains` | src/message-handler/src/MessageDispatcher.cpp:71-86 | in every swarm of two or more a run attains that bound, with an excess of n - 2 |
| `SwarmAccounting.StormsIff` | src/message-handler/src/MessageDispatcher.cpp:71-86 | two sends per injection can be exceeded if and only if there are three stations, and only by such a request with two others waiting |
| `SwarmAccounting.AnswersPaid` | src/message-handler/src/HiveConnectHiveMindMessageHandler.cpp:10-18 | the requests answered are at most the injections, plus that excess |
| `SwarmAccounting.Quiescence` | src/main.cpp:171-206 | without new injections and announcements the swarm makes at most a computable number of sends, dispatches and deliveries |
| `SwarmAccounting.AtRest` | src/main.cpp:171-206 | where that number is zero all queues are empty |
| `DatagramRing.NetworkBroadcast.ReceiveDatagram` | src/network/src/esp/src/NetworkBroadcast.cpp:73-99 | a datagram enters the ring whole or not at all |
| `DatagramRing.NetworkBroadcast.Receive` | src/network/src/esp/src/NetworkBroadcast.cpp:50-62 | takes exactly the oldest bytes once there are enough |
| `DatagramRing.WholeDatagrams` | src/network/src/esp/src/NetworkBroadcast.cpp:50-99 | in every run bytes read plus ring are whole datagrams, a subsequence of the arrivals |
| `TcpStream.TCPClient.Send` | src/network/src/esp/src/TCPClient.cpp:23-41 | the bytes accepted by the socket are a prefix of the data, all of it exactly on success; failure closes the socket |
| `TcpStream.TCPServer.Receive` | src/network/src/esp/src/TCPServer.cpp:31-66 | the buffer's prefix and the rest of the stream split the stream; failure closes the socket |
| `TcpStream.FragmentationIndependent` | src/network/src/esp/src/TCPServer.cpp:49-65 | any cutting of writes and reads that succeeds delivers the data unchanged; each side succeeds exactly when its calls reach the length before one fails |
| `TcpStream.SucceedsIff` | src/network/src/esp/src/TCPClient.cpp:29-40 | a loop succeeds if and only if there is enough to move and its calls offer it before one of them fails |
| `TcpStream.MovedExactly` | src/network/src/esp/src/TCPServer.cpp:49-65 | however a loop ends, it has moved what its calls offered, as far as there was something to move |

## Left out

- SpiRuns.Enabled: a header that passes its CRC8 but announces an impossible size is assumed away; the driver does not check for it.
- SpiDriver.SpiStm.Exchange: transfers of more than the 2044 bytes of the receive buffer, which overwrite the fields behind it, are not modelled; `SpiTransfers` says exactly when the driver asks for one.
- SpiLedger.SendConservation: `send` reporting success does not mean that the peer stored the payload: the header it judges by may have been prepared before the payload arrived, and a full FIFO drops a payload without setting the flag.
- SwarmTheorems.PipelineEquation: losses are recorded for plain messages and for requests up to the module that handles them; for responses, and for requests passed to hosts, order, uniqueness and complete delivery are stated instead (`OnceInOrder`, `AllArrive`, `OneResponse`).
- SwarmTheorems.OnceInOrder: answers given before the greeting carry 0 as their source and cannot be told apart by it; they are counted (`AlwaysCovered`, `ResponsesBounded`), without order. The same holds for AllArrive.
- MessageDispatcher.Dispatcher.HandleMessage: names and passwords are numbers, a wanted name comes with a password, the restart that follows a change is not modelled, and neither is the text of a reply, which only its status decides.
- DatagramRing.NetworkBroadcast.ReceiveDatagram: datagrams larger than the datagram buffer are assumed away, as the code reads them at their full size.
- TcpStream.TCPServer.Receive: the wait for a client precedes the modelled part; calls that move nothing for ever are cut off by the end of the script, which counts as an error.
- A module losing its host and its id again (src/main.cpp:48-52), which would void the assumption of fixed ids.
- The notification counts of the reading tasks, their timeouts, task priorities and delays: tasks are interleaved atomic steps.
- The GPIO line towards the master, logging, the user interface, Wi-Fi and socket set-up.
- The unicast queue and its serializer: nothing is pushed to that queue today.
- Pinging neighbours: any table entry may vanish at any time instead.
- Message encoding: messages are values; a failed read is one that dispatches nothing.
