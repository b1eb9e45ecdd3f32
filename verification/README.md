# Verification of the network stack's protocol code

This project models, in Dafny, the parts of the repository that compute: the PPP device of the
embedded stack, its timer heap, its frame queue, the DHCP option code with server and client
messages, the buffered file object of the Python socket layer, and two text readers. It proves
what these parts keep on every run, what one end understands of what the other wrote, and where
the code does something else than one would expect.

## Layout

| file | contents |
|---|---|
| PppFcs.dfy | the frame check sequence and the errors it detects |
| PppFraming.dfy | octet stuffing and the receiver that survives from poll to poll |
| PppPackets.dfy | building, checking and dispatching packets |
| PppAutomata.dfy | the four tables, and the device as a value with its dispatchers as functions |
| PppDevice.dfy | the device as an object whose handlers dispatch again, proved against those functions |
| PppLayers.dfy | flat functions for whole cascades of dispatches |
| PppRuns.dfy | what every run of the device keeps |
| PppStandard.dfy, PppTables.dfy | the table of LCP against RFC 1661, on every run; the other tables, and the timer |
| PppRestart.dfy, PppNesting.dfy, PppLeak.dfy | the silent peer, how deep dispatches nest, and how layers come apart |
| PppIpcp.dfy | the acknowledgements of IPCP |
| PppConfReject.dfy, PppExchange.dfy | Configure-Request and Configure-Reject, and two devices that exchange them |
| Heap.dfy, FrameQueue.dfy | the array heap and the linked queue |
| FileObject.dfy | buffered reading and writing over a stream socket |
| DhcpOptions.dfy, DhcpMessages.dfy, DhcpServer.dfy | options, messages of both ends, and the server |
| TextResponses.dfy, Ipv6Text.dfy | the response reader and the address reader |
| Octets.dfy, Sequences.dfy | shared types and lemmas on sequences |

Code that changes things in place is modelled in place: as classes with the fields of the
source, as methods over arrays, and as loops. Each such method is proved against a function of
its inputs or of the state before it, and the theorems are about those functions. What the
environment decides (how `recv` cuts a stream, whether sending or allocating succeeds, in which
order a table is searched) is a parameter or is left open, so that the theorems hold for all of
it.

## Where the code is not what one would expect

- Data frames carry the octets ff 03 outside their check sequence when the peer did not ask for
  address and control compression. The receiver then drops every such packet
  (`PppPackets.DataDelivered`). With the frame ff 03 00 57 2a the length of the payload passes
  below zero (`PppPackets.DeliveredLength`).
- The authentication timeout in STARTING leads back to INITIAL without taking IPCP down. A second
  challenge and a peer that is silent from then on therefore leave a link that is reported up
  without authentication, over LCP and a modem that stay up (`PppLeak.LinkUpWithoutAuth`). When the
  user then disconnects, LCP gives up and the modem is hung up, and the link is still reported up
  (`PppLeak.LinkUpWithoutModem`). Such a timeout is the only way (`PppRuns.RunIpAboveAuth`,
  `PppRuns.LinkUpMeansStacked`). The inputs of these runs are those that the code in front of the
  automata can deliver; the invariants hold for more.
- A Configure-Request option of type 16 or more has no flag and is accepted although it is not
  supported (`PppConfReject.UnflaggedIsAccepted`).
- The loop that copies the options to be rejected does not end on an option of length zero, nor on
  one of length one that is to be copied (`PppConfReject.CopyEndsIff`).
- The server takes the table of the link for the record of its addresses. A host that has an
  address of the pool on its own shares it with a client (`DhcpServer.SharedAddress`), and a client
  whose entry is lost for want of memory gets another address (`DhcpServer.TwoAddresses`,
  `DhcpServer.OneAddressEachIff`).
- An offer that is lost for want of memory counts as made, and its request is acknowledged
  (`DhcpServer.AckWithoutOffer`, `DhcpServer.AckFollowsOfferIff`).
- LCP departs from section 4.1 of RFC 1661 in four cells of its table: on an acceptable request, an
  acknowledgement, a refusal or a Terminate-Ack in OPENED it sends a Terminate-Request where the
  standard has a Configure-Request (`PppStandard.RunFollowsStandard`). The restart counter is set
  when a request finds it at zero, and not where the standard sets it (`PppTables.LcpTimers`).
- IPCP does not repeat the requests that it sends on its way out of OPENED, and leaves OPENED on an
  acknowledgement or a refusal without its handler for going down (`PppTables.IpcpWaits`,
  `PppTables.IpcpDiffers`).
- A link on which LCP gives up is dialled again whether or not it is to be connected, unless it
  was being closed (`PppTables.GivesUp`).
- IPCP takes the acknowledgement of an earlier request for that of its last one when its timer runs
  out in ACK_RCVD (`PppIpcp.OpensUnacked`, `PppIpcp.RunIpAgreement`).
- Of two name servers in one option the client keeps the first one twice
  (`DhcpMessages.SecondServerIff`).
- A frame taken out of the queue leaves twice the overhead accounted (`FrameQueue.RunAccounted`),
  until a frame is put into an empty queue. An empty queue can therefore refuse frames that fit,
  and then does so for good, because only an accepted frame resets the size
  (`FrameQueue.LockedOutIff`, `FrameQueue.DrainedRefuses`).
- The check of DHCP options grants one octet of slack for every option
  (`DhcpOptions.AcceptedIff`).
- The client's default for T2 overflows for leases above 4908534 seconds
  (`DhcpMessages.TimersOrderedIff`); of a lease without end, 0xffffffff, it is less than 50 days
  (`DhcpMessages.DefaultTimers`).
- A write of nothing after a failed write reports success over a buffer that is more than full
  (`FileObject.WriteNothing`).
- A blank line behind the end mark of a response is an index error
  (`TextResponses.MarkedResponse`).

## Model

| member | source | states |
|---|---|---|
| PppFcs.FcsContinue | pycotcp/pycoclib/picotcp/modules/pico_dev_ppp.c:447-455 | the loop computes the register after the octets of a buffer range, from any register |
| PppFcs.FcsStart | pycotcp/pycoclib/picotcp/modules/pico_dev_ppp.c:462-466 | the register of the reference run from 0xFFFF over a range |
| PppFcs.FcsVerify | pycotcp/pycoclib/picotcp/modules/pico_dev_ppp.c:468-477 | a range of at least two octets verifies exactly when the register run over all of it, check octets included, is 0xF0B8 |
| PppFcs.FcsCharIsSerial | pycotcp/pycoclib/picotcp/modules/pico_dev_ppp.c:439-445 | the branch-free octet step equals eight steps of the bit-serial register with polynomial 0x8408, for every register and octet |
| PppFcs.CrcIsSerial | pycotcp/pycoclib/picotcp/modules/pico_dev_ppp.c:447-455 | the octet-wise register over any sequence is the bit-serial register over its bits |
| PppFcs.AcceptedTail | pycotcp/pycoclib/picotcp/modules/pico_dev_ppp.c:468-477 | for any body exactly one pair of check octets is accepted behind it: the one the sender computes |
| PppFcs.CheckValue | pycotcp/pycoclib/picotcp/modules/pico_dev_ppp.c:439-466 | the check octets of the text 123456789 are 6e 90, the check value of this code |
| PppFcs.SealedIsAccepted | pycotcp/pycoclib/picotcp/modules/pico_dev_ppp.c:462-477 | what the sender appends is accepted, for every body |
| PppFcs.CrcInjective | pycotcp/pycoclib/picotcp/modules/pico_dev_ppp.c:439-455 | different registers stay different over any octets |
| PppFcs.BurstDetected | pycotcp/pycoclib/picotcp/modules/pico_dev_ppp.c:439-455 | bit strings that end in the same register and differ only within 16 bits are equal, at any offset |
| PppFcs.BurstRejected | pycotcp/pycoclib/picotcp/modules/pico_dev_ppp.c:468-477 | a frame that differs from an accepted one only within a window of 16 bits, check octets included, is rejected |
| PppFcs.OctetsRejected | pycotcp/pycoclib/picotcp/modules/pico_dev_ppp.c:468-477 | changing one octet or two adjacent octets of an accepted frame, anywhere in it, makes it rejected |
| PppFcs.AcceptedIsEven | pycotcp/pycoclib/picotcp/modules/pico_dev_ppp.c:468-477 | every accepted frame has an even number of one bits, so an odd number of flipped bits is always detected |
| PppFraming.CountEscapes | pycotcp/pycoclib/picotcp/modules/pico_dev_ppp.c:325-329 | counts the octets between the two ends that must be escaped: the stuffed length less the plain one |
| PppFraming.FillEscaped | pycotcp/pycoclib/picotcp/modules/pico_dev_ppp.c:339-351 | fills the larger buffer with the first octet, the stuffed interior and the last octet |
| PppFraming.SerialSendEscape | pycotcp/pycoclib/picotcp/modules/pico_dev_ppp.c:306-363 | what is given to the serial driver is the stuffed frame, or nothing when it needs more room and memory cannot be had; the result tells whether all of it was taken |
| PppFraming.Receiver.TakeOctet | pycotcp/pycoclib/picotcp/modules/pico_dev_ppp.c:2017-2078 | one octet of the receive loop, in place, is one step of the receiver function |
| PppFraming.Receiver.Poll | pycotcp/pycoclib/picotcp/modules/pico_dev_ppp.c:2017-2078 | a poll of the serial line, in place, consumes what the receiver function says and leaves its state for the next poll; it writes behind the buffer exactly when it is entered with a full buffer and an octet waits |
| PppFraming.RunStuffed | pycotcp/pycoclib/picotcp/modules/pico_dev_ppp.c:306-363 | unstuffing inverts stuffing of every octet sequence |
| PppFraming.RunWire | pycotcp/pycoclib/picotcp/modules/pico_dev_ppp.c:306-363 | stuffed frames come out of the receiver unchanged, in order and once each |
| PppFraming.EscapedAs | pycotcp/pycoclib/picotcp/modules/pico_dev_ppp.c:322-349 | only the octets 7d and 7e are escaped, as 7d 5d and 7d 5e |
| PppFraming.RunToFlag | pycotcp/pycoclib/picotcp/modules/pico_dev_ppp.c:2027-2053 | what the receiver makes of any octets up to a flag, whoever sent them: with a 7d left over all that is collected is discarded, two octets or more are handed over as a frame, a single one is kept |
| PppFraming.RunGivenUp | pycotcp/pycoclib/picotcp/modules/pico_dev_ppp.c:2031-2037 | a frame that is given up by 7d 7e, whatever its octets, leaves the receiver as it was and hands nothing over |
| PppFraming.RunLine | pycotcp/pycoclib/picotcp/modules/pico_dev_ppp.c:2017-2078 | of any mixture of frames sent in full and frames given up the former come out unchanged, in order and once each |
| PppFraming.MixedDelivers | pycotcp/pycoclib/picotcp/modules/pico_dev_ppp.c:2017-2078 | however the octets of such a mixture are divided over polls, and whatever loop score each poll has: the buffer never fills, the frames handed over are the first ones sent in full, and all of these once no octet waits |
| PppFraming.PolledStops | pycotcp/pycoclib/picotcp/modules/pico_dev_ppp.c:2022-2073 | a poll goes on only while there is room in the buffer and score left |
| PppFraming.AnyDivisionDelivers | pycotcp/pycoclib/picotcp/modules/pico_dev_ppp.c:2017-2078 | however the octets of any frames of 2 to 2047 interior octets are divided over polls, and whatever loop score each poll has: the buffer never fills, the frames handed over are the first ones sent in order, and all of them once no octet waits |
| PppPackets.CtlSend | pycotcp/pycoclib/picotcp/modules/pico_dev_ppp.c:480-507 | the packet on the line is flag, stuffed header, payload and check octets, flag, built in place |
| PppPackets.DataSend | pycotcp/pycoclib/picotcp/modules/pico_dev_ppp.c:509-549 | the data frame on the line, with the check octets over what the code covers and no more; it is written behind the buffer exactly when it is longer than that |
| PppPackets.ProcessPacket | pycotcp/pycoclib/picotcp/modules/pico_dev_ppp.c:1345-1415 | check, stripping of address and control, and dispatch with 32-bit lengths, for every frame |
| PppPackets.ControlDelivered | pycotcp/pycoclib/picotcp/modules/pico_dev_ppp.c:480-507 | what was sent as a control packet is handed to the protocol it names, and nothing else of the frame |
| PppPackets.ControlRoundTrip | pycotcp/pycoclib/picotcp/modules/pico_dev_ppp.c:480-507 | control packets sent one after the other arrive as sent, in order and once each, however their octets are divided over polls |
| PppPackets.UncoveredHeader | pycotcp/pycoclib/picotcp/modules/pico_dev_ppp.c:525-531 | the octets ff 03 in front of the covered ones change the register for every body, so that no such frame verifies |
| PppPackets.DataDelivered | pycotcp/pycoclib/picotcp/modules/pico_dev_ppp.c:509-549 | a data packet is handed up as the identical IP packet exactly when the peer asked for address and control compression; otherwise the receiver drops it |
| PppPackets.DeliveredLength | pycotcp/pycoclib/picotcp/modules/pico_dev_ppp.c:1345-1415 | what is handed up ends where the check octets begin, for every frame but ff 03 00 57 2a, whose length passes below zero |
| PppPackets.DeliversIff | pycotcp/pycoclib/picotcp/modules/pico_dev_ppp.c:1345-1415 | a protocol is handed a payload exactly of those frames that verify and are made of the octets ff 03 or nothing, the octets of the protocol, the payload, and two check octets |
| PppPackets.NotAcceptedDropped | pycotcp/pycoclib/picotcp/modules/pico_dev_ppp.c:1398-1411 | a frame is dropped exactly when it does not verify |
| PppPackets.ControlOctets | pycotcp/pycoclib/picotcp/modules/pico_dev_ppp.c:480-507 | a control packet as octets, for each protocol |
| PppPackets.DataOctets | pycotcp/pycoclib/picotcp/modules/pico_dev_ppp.c:509-549 | a data packet as octets, for each choice of compressions |
| PppDevice.Device.StartLcpTimer | pycotcp/pycoclib/picotcp/modules/pico_dev_ppp.c:365-389 | in place: the restart timer with its bit, value and counter as the function says |
| PppDevice.Device.EvaluateModemState | pycotcp/pycoclib/picotcp/modules/pico_dev_ppp.c:748-765 | the dispatch in place, with all dispatches nested in its handlers, gives the state of the dispatch function; it ends because event ranks decrease |
| PppDevice.Device.EvaluateLcpState | pycotcp/pycoclib/picotcp/modules/pico_dev_ppp.c:1690-1721 | likewise for LCP, which stops its timer on entry to states without a timeout cell |
| PppDevice.Device.EvaluateAuthState | pycotcp/pycoclib/picotcp/modules/pico_dev_ppp.c:1901-1917 | likewise for authentication |
| PppDevice.Device.EvaluateIpcpState | pycotcp/pycoclib/picotcp/modules/pico_dev_ppp.c:1999-2015 | likewise for IPCP |
| PppDevice.Device.DoLcp | pycotcp/pycoclib/picotcp/modules/pico_dev_ppp.c:1435-1485 | an LCP handler in place, with what it dispatches to the other machines |
| PppDevice.Device.CheckToLcp | pycotcp/pycoclib/picotcp/modules/pico_dev_ppp.c:2113-2125 | the LCP timeout in place: the event by the counter, which is decremented after the dispatch |
| PppDevice.Device.Ticked | pycotcp/pycoclib/picotcp/modules/pico_dev_ppp.c:2147-2161 | the tick in place: countdown, the four timeouts, and the reopening of a closed link |
| PppDevice.Device.Disconnect | pycotcp/pycoclib/picotcp/modules/pico_dev_ppp.c:2213-2219 | the user closes the link |
| PppAutomata.LcpHandlersBelow | pycotcp/pycoclib/picotcp/modules/pico_dev_ppp.c:1501-1688 | every handler in a cell of the LCP table ranks below the event of the cell: why nested dispatches end |
| PppLayers.LcpEffect | pycotcp/pycoclib/picotcp/modules/pico_dev_ppp.c:1501-1742 | from every state, the whole cascade of an LCP event over the four machines ends in the state of a flat table function, and nests at most four deep |
| PppLayers.StopEffect | pycotcp/pycoclib/picotcp/modules/pico_dev_ppp.c:674-681 | a lost modem takes LCP, authentication and IPCP down with it, whatever their states |
| PppLayers.AuthEffect | pycotcp/pycoclib/picotcp/modules/pico_dev_ppp.c:1848-1917 | an authentication event other than a rejection moves authentication and IPCP only, and leaves the restart timer alone |
| PppLayers.AbortEffect | pycotcp/pycoclib/picotcp/modules/pico_dev_ppp.c:1736-1742 | a rejection closes LCP through all layers |
| PppNesting.DispatchNesting | pycotcp/pycoclib/picotcp/modules/pico_dev_ppp.c:748-765 | from every combination of the four states every event given to any machine ends, with dispatches nested at most four deep |
| PppNesting.FourDeep | pycotcp/pycoclib/picotcp/modules/pico_dev_ppp.c:1690-1742 | four is reached: while it negotiates, LCP gives up, hangs the modem up, is told so, and asks for it again |
| PppStandard.RunFollowsStandard | pycotcp/pycoclib/picotcp/modules/pico_dev_ppp.c:1501-1721 | on every run, whatever the inputs, every dispatch of LCP ends in the state and runs the handlers that section 4.1 of RFC 1661 prescribes exactly when it is not one of four in OPENED, and there likewise but for a Terminate-Request in place of a Configure-Request; no handler runs outside of a dispatch, and every dispatch ends |
| PppStandard.RunAnswers | pycotcp/pycoclib/picotcp/modules/pico_dev_ppp.c:1572-1687 | on every run an acceptable request is acknowledged once and any other one refused once, in the five states that look at requests and on no other event; while it negotiates LCP answers a refusal by a new request; and it answers an echo request exactly when it is open |
| PppStandard.LcpAnswers | pycotcp/pycoclib/picotcp/modules/pico_dev_ppp.c:1690-1721 | an event given to LCP in any state is dispatched in that state, and so answered |
| PppTables.ModemFollowsScript | pycotcp/pycoclib/picotcp/modules/pico_dev_ppp.c:683-746 | the seven commands in order: OK leads to the next, CONNECT ends the last, silence starts anew, and the modem can be stopped in between |
| PppTables.ModemEnds | pycotcp/pycoclib/picotcp/modules/pico_dev_ppp.c:683-746 | before the first command only the start does something, and when connected only the loss of the line |
| PppTables.ModemCommands | pycotcp/pycoclib/picotcp/modules/pico_dev_ppp.c:554-672 | a command winds the timer up for the modem, by 20 ticks while it dials and else by 3, and does nothing else |
| PppTables.ScriptRuns | pycotcp/pycoclib/picotcp/modules/pico_dev_ppp.c:683-765 | so after n good answers the modem awaits the answer to the n-th command behind the first |
| PppTables.AuthSignals | pycotcp/pycoclib/picotcp/modules/pico_dev_ppp.c:1848-1899 | which cells tell IPCP of success and loss, close LCP, answer a challenge, send a request, or wind the timer up, each exactly |
| PppTables.AuthMoves | pycotcp/pycoclib/picotcp/modules/pico_dev_ppp.c:1848-1899 | where authentication goes, event by event |
| PppTables.IpcpFollowsStandard | pycotcp/pycoclib/picotcp/modules/pico_dev_ppp.c:1951-1997 | IPCP moves and acts as section 4.1 of RFC 1661 says exactly but for staying in ACK_RCVD on a timeout, and for leaving OPENED without saying so on an acknowledgement or a refusal |
| PppTables.IpcpBegins | pycotcp/pycoclib/picotcp/modules/pico_dev_ppp.c:1951-1997 | IPCP begins when authentication succeeds, and ends when that is lost, whatever its state |
| PppTables.IpcpWaits | pycotcp/pycoclib/picotcp/modules/pico_dev_ppp.c:1951-1997 | it waits for the answer exactly to those requests that it does not send from OPENED |
| PppTables.UpBy | pycotcp/pycoclib/picotcp/modules/pico_dev_ppp.c:1435-1453 | what the peer asked for decides how a device authenticates when LCP comes up |
| PppTables.LcpTimers | pycotcp/pycoclib/picotcp/modules/pico_dev_ppp.c:365-389 | what the handlers of LCP do to the timer and its counter, in ticks and counts, and that they do nothing else |
| PppTables.SilentFromStart | pycotcp/pycoclib/picotcp/modules/pico_dev_ppp.c:2113-2125 | from the connection of the modem on LCP asks a silent peer ten times more, every three ticks, and gives up after 33 ticks |
| PppTables.ModemServed | pycotcp/pycoclib/picotcp/modules/pico_dev_ppp.c:2103-2161 | the machines share one timer: a modem that waits in vain starts anew, and nobody else is served on that tick |
| PppTables.AuthServed | pycotcp/pycoclib/picotcp/modules/pico_dev_ppp.c:2127-2161 | likewise authentication, before IPCP |
| PppTables.IpcpServed | pycotcp/pycoclib/picotcp/modules/pico_dev_ppp.c:2137-2161 | IPCP comes last, and sends its request again every 15 ticks |
| PppTables.IdleUntilConnect | pycotcp/pycoclib/picotcp/modules/pico_dev_ppp.c:2167-2204 | a new device, as it is created, is not moved by any number of ticks until it is told to connect |
| PppTables.TickOpens | pycotcp/pycoclib/picotcp/modules/pico_dev_ppp.c:2147-2165 | a closed link is opened by the tick exactly when it is to be connected |
| PppTables.GivesUp | pycotcp/pycoclib/picotcp/modules/pico_dev_ppp.c:2113-2165 | when LCP gives up, a link that was being closed is closed, and reopened on the same tick if it is to be connected; any other one is started anew in any case |
| PppRuns.StepPreserves | pycotcp/pycoclib/picotcp/modules/pico_dev_ppp.c:2147-2219 | any one event or tick keeps all the invariants of the runs |
| PppRuns.RunStacked | pycotcp/pycoclib/picotcp/modules/pico_dev_ppp.c:1435-1471 | on every run LCP is outside INITIAL and STARTING exactly when the modem is CONNECTED, and authentication is under way only while LCP is OPENED |
| PppRuns.RunNesting | pycotcp/pycoclib/picotcp/modules/pico_dev_ppp.c:1690-1742 | on every run no dispatch nests more than four deep, and none is left unfinished |
| PppRuns.RunAgreement | pycotcp/pycoclib/picotcp/modules/pico_dev_ppp.c:1501-1688 | on every run LCP opens only after a Configure-Ack was both sent and received since it last entered the negotiating states, the last request of the peer was acknowledged, and an acknowledgement came after its own last request; every exit from OPENED runs the down handler at once |
| PppRuns.RunTimer | pycotcp/pycoclib/picotcp/modules/pico_dev_ppp.c:365-399 | on every run a restart timer bit is set only in the five waiting states, the counter is at most 10, and with memory for requests the bit is set exactly there |
| PppIpcp.RunIpAgreement | pycotcp/pycoclib/picotcp/modules/pico_dev_ppp.c:1952-1997 | on every run IPCP is brought up only after a Configure-Ack was both sent and received since it last began to negotiate and the last request of the peer was acknowledged; its own last request was acknowledged exactly when the timer has not run out in ACK_RCVD since the acknowledgement came |
| PppIpcp.OpensUnacked | pycotcp/pycoclib/picotcp/modules/pico_dev_ppp.c:1970-1978 | IPCP opens after a request of its own that is not acknowledged |
| PppRuns.RunIpAboveAuth | pycotcp/pycoclib/picotcp/modules/pico_dev_ppp.c:1848-1899 | IPCP is never active without authentication throughout a run exactly when the run takes no leaking tick: a timeout of authentication in STARTING while IPCP is up |
| PppRuns.LinkUpMeansStacked | pycotcp/pycoclib/picotcp/modules/pico_dev_ppp.c:2082-2089 | throughout a run the link is reported up only with authentication under way, LCP open and the modem connected, exactly when no tick of the run leaks while IPCP is open and no packet opens IPCP with authentication at INITIAL |
| PppLeak.LinkUpWithoutAuth | pycotcp/pycoclib/picotcp/modules/pico_dev_ppp.c:1867-1867 | a run of inputs that the code in front of the automata can deliver, on which the link is reported up with authentication back at INITIAL |
| PppLeak.LinkUpWithoutModem | pycotcp/pycoclib/picotcp/modules/pico_dev_ppp.c:2213-2219 | a run of such inputs after which LCP is down and the modem hung up, and the link is reported up after any number of further ticks |
| PppRestart.SilentPeer | pycotcp/pycoclib/picotcp/modules/pico_dev_ppp.c:2113-2157 | with a silent peer, ticks alone cause exactly as many timeouts with restarts left as the counter says, then one without, after a number of ticks that is given exactly |
| PppConfReject.Lcp.OptFlags | pycotcp/pycoclib/picotcp/modules/pico_dev_ppp.c:874-910 | the walk in place, for every packet, well formed or not: the flags of the options it passes, and with adjustment MRU and authentication protocol as the options set them |
| PppConfReject.FlagsOfOptions | pycotcp/pycoclib/picotcp/modules/pico_dev_ppp.c:874-910 | over well-formed options the walk collects the types of all of them |
| PppConfReject.SettingsOfOptions | pycotcp/pycoclib/picotcp/modules/pico_dev_ppp.c:874-910 | over any well-formed options the walk leaves MRU and authentication protocol as read at the last option of each type, or as they were |
| PppConfReject.SettingIsCarried | pycotcp/pycoclib/picotcp/modules/pico_dev_ppp.c:885-893 | what is read at an option is the value it carries, if it carries two octets |
| PppConfReject.WalkCollects | pycotcp/pycoclib/picotcp/modules/pico_dev_ppp.c:874-910 | over any packet, well formed or not, the walk collects the types below 16 at the places that it comes to, and adopts the last values of MRU and authentication there |
| PppConfReject.PlacesOf | pycotcp/pycoclib/picotcp/modules/pico_dev_ppp.c:874-910 | and there are such places for every packet |
| PppConfReject.CopyRejected | pycotcp/pycoclib/picotcp/modules/pico_dev_ppp.c:966-993 | on any packet on which it ends, well formed or not, the copying loop writes the options to be rejected that it comes to, in order |
| PppConfReject.CopyEndsIff | pycotcp/pycoclib/picotcp/modules/pico_dev_ppp.c:975-993 | the loop over the options, with the loop over the data of each, ends on a packet, well formed or not, exactly when it comes to no option of length zero and to none of length one that is to be copied |
| PppConfReject.DataEndsIff | pycotcp/pycoclib/picotcp/modules/pico_dev_ppp.c:985-985 | the loop over the data of an option, with its counter of one octet and its bound in 32 bits, ends exactly when the option is not shorter than its head |
| PppConfReject.CopiedOfOptions | pycotcp/pycoclib/picotcp/modules/pico_dev_ppp.c:966-993 | on well-formed options copying ends, and what it writes is the encoding of the options to be rejected, in order |
| PppConfReject.FilterMeans | pycotcp/pycoclib/picotcp/modules/pico_dev_ppp.c:972-993 | copied are the options with a type to be rejected, and those with a type above 8 whether it is or not |
| PppConfReject.RejectOctets | pycotcp/pycoclib/picotcp/modules/pico_dev_ppp.c:994-1008 | a reject as octets |
| PppConfReject.SendConfigureNack | pycotcp/pycoclib/picotcp/modules/pico_dev_ppp.c:966-1010 | for any packet: a Configure-Reject with the identifier of the request, its length in network order, and what was copied; or copying does not end; or it writes behind the buffer |
| PppConfReject.Lcp.ProcessIn | pycotcp/pycoclib/picotcp/modules/pico_dev_ppp.c:1012-1064 | every LCP packet, in place: the event raised, if any, and the options of both sides, the flags to reject, MRU and authentication protocol after it |
| PppConfReject.EventOfCode | pycotcp/pycoclib/picotcp/modules/pico_dev_ppp.c:1012-1064 | for every packet, well formed or not: RCA exactly for code 2, RCN exactly for codes 3 and 4, RXR exactly for code 9, RCR+ or RCR- exactly for code 1, and no event for any other |
| PppConfReject.ChangeOfCode | pycotcp/pycoclib/picotcp/modules/pico_dev_ppp.c:1012-1064 | and what changes: the settings by a Configure-Nak, what the device supports by a Configure-Reject, what is known of the peer by a request that is accepted, nothing by any other packet |
| PppConfReject.RequestIsTaken | pycotcp/pycoclib/picotcp/modules/pico_dev_ppp.c:1017-1033 | every well-formed Configure-Request: rejected, with the flags to reject, exactly when some flag is not supported, else accepted with the flags of the peer |
| PppConfReject.SettingsAreTaken | pycotcp/pycoclib/picotcp/modules/pico_dev_ppp.c:1012-1047 | in both cases, and on a Configure-Nak, the settings that are read at its options are taken over |
| PppConfReject.RequestAnswered | pycotcp/pycoclib/picotcp/modules/pico_dev_ppp.c:966-1033 | from the receipt of a well-formed Configure-Request to the answer: it raises a rejection exactly when some unsupported option has a flag, and what is copied into the answer are precisely the unsupported options |
| PppConfReject.RejectedIff | pycotcp/pycoclib/picotcp/modules/pico_dev_ppp.c:1020-1031 | a request is rejected exactly when it holds an unsupported option whose type is below 16 |
| PppConfReject.RejectFilter | pycotcp/pycoclib/picotcp/modules/pico_dev_ppp.c:966-1033 | rejected exactly when some unsupported option has a flag, and then the reject carries precisely the unsupported options, octet for octet and in order; with types below 16, rejected exactly when some option is not supported |
| PppConfReject.LocalShrinks | pycotcp/pycoclib/picotcp/modules/pico_dev_ppp.c:1049-1057 | no packet adds to what the device supports, so every reject it builds is exact |
| PppConfReject.UnflaggedIsAccepted | pycotcp/pycoclib/picotcp/modules/pico_dev_ppp.c:874-910 | an unsupported option of type 16 is accepted: the flags have 16 bits |
| PppConfReject.Lcp.ConfigureRequest | pycotcp/pycoclib/picotcp/modules/pico_dev_ppp.c:786-827 | in place: a Configure-Request with precisely the options that the device supports of those it asks for, and the MRU set back without that option |
| PppExchange.SendConfigureRequest | pycotcp/pycoclib/picotcp/modules/pico_dev_ppp.c:786-845 | the request is built and sent: with memory the wire carries just the frame of it |
| PppExchange.PacketIsHeard | pycotcp/pycoclib/picotcp/modules/pico_dev_ppp.c:2017-2078 | a packet of LCP that was put into a frame and sent is what LCP reads at the other end, once, however its octets are divided over polls |
| PppExchange.RequestHeard | pycotcp/pycoclib/picotcp/modules/pico_dev_ppp.c:1012-1033 | what one device asks for is accepted by the other exactly when the other supports all of it, with its flags; else the answer repeats what the other does not support |
| PppExchange.MruHeard | pycotcp/pycoclib/picotcp/modules/pico_dev_ppp.c:883-893 | the size of packets that it asks for is adopted |
| PppExchange.RejectionHeard | pycotcp/pycoclib/picotcp/modules/pico_dev_ppp.c:1049-1057 | the device that hears the rejection gives up precisely what the other does not support |
| PppExchange.OneRejectionIsEnough | pycotcp/pycoclib/picotcp/modules/pico_dev_ppp.c:1012-1064 | after one rejection a device asks for what the other supports of what it asked for before, and that is accepted |
| PppExchange.RequestOctets | pycotcp/pycoclib/picotcp/modules/pico_dev_ppp.c:786-839 | a request as octets |
| PppExchange.FirstRequest | pycotcp/pycoclib/picotcp/modules/pico_dev_ppp.c:2194-2199 | the first request of a new device, octet for octet |
| PppExchange.NakAsksAgain | pycotcp/pycoclib/picotcp/modules/pico_dev_ppp.c:1041-1047 | a device that hears a Configure-Nak while it negotiates takes over the size of packets and nothing else, enters neither ACK_RCVD nor OPENED on it, and asks again at once for that size |
| PppExchange.Opens | pycotcp/pycoclib/picotcp/modules/pico_dev_ppp.c:1012-1033 | a device that has sent its request opens when it hears an acceptable request of the other and the acknowledgement of its own, whichever comes first |
| Heap.Heap.Insert | pycotcp/pycoclib/picotcp/include/heap.h:14-40 | adds one entry to the multiset held and keeps the order, the bounds and n <= size <= slots; fails exactly when the slots are used up and no memory is had, and then changes nothing |
| Heap.Heap.Grow | pycotcp/pycoclib/picotcp/include/heap.h:18-31 | moving to new memory keeps every entry and the order |
| Heap.Heap.SiftUp | pycotcp/pycoclib/picotcp/include/heap.h:36-39 | the sift-up in place restores the order with the new entry added |
| Heap.Heap.SiftDown | pycotcp/pycoclib/picotcp/include/heap.h:49-63 | the sift-down in place restores the order with the root gone and the last entry moved |
| Heap.Heap.Peek | pycotcp/pycoclib/picotcp/include/heap.h:41-65 | takes out an entry of least key, and exactly that one; fails exactly on an empty heap |
| Heap.Heap.First | pycotcp/pycoclib/picotcp/include/heap.h:66-71 | finds an entry of least key, or none exactly when the heap is empty |
| Heap.RootIsLeast | pycotcp/pycoclib/picotcp/include/heap.h:66-71 | in an ordered heap the root is least of all |
| Heap.PopsInOrder | pycotcp/pycoclib/picotcp/include/heap.h:14-65 | on every run, pops come out in the order of keys as long as nothing less is inserted in between |
| Heap.Conserved | pycotcp/pycoclib/picotcp/include/heap.h:14-65 | on every run, failures included, what was inserted is what was popped and what is held |
| Heap.Drive | pycotcp/pycoclib/picotcp/include/heap.h:14-65 | any list of insertions and pops on one heap object, failures included: what was inserted is what was popped and what is held, and pops are ordered as long as nothing less is inserted in between |
| FileObject.FileObject.Read | pycotcp/pycotcp/socket.py:546-614 | the first min(size, available) bytes, or all, of buffer and stream together, however recv cuts the stream; nothing is lost, and the socket is left alone when the buffer has enough |
| FileObject.FileObject.ReadLine | pycotcp/pycotcp/socket.py:616-719 | the shortest prefix of buffer and stream that ends in a newline, capped by size or the end, in every branch and shortcut; nothing is lost, and less than a bufferful is read ahead |
| FileObject.FileObject.ReadLineUnsized | pycotcp/pycotcp/socket.py:630-668 | the unbuffered and the buffered branch without a size |
| FileObject.FileObject.ReadLineSized | pycotcp/pycotcp/socket.py:669-719 | the branch with a size, with its shortcuts |
| FileObject.FileObject.ReadLines | pycotcp/pycotcp/socket.py:721-732 | the lines that make up the hint, or all, and nothing of the rest |
| FileObject.FileObject.Next | pycotcp/pycotcp/socket.py:739-743 | iteration yields the lines one by one and stops exactly at the end of the stream |
| FileObject.LineIff | pycotcp/pycotcp/socket.py:616-719 | a line is a prefix without inner newline that ends in a newline, at the size, or at the end; there is exactly one |
| FileObject.TakeIff | pycotcp/pycotcp/socket.py:546-600 | reading gives a prefix of that size, or all there is |
| FileObject.LinesJoin | pycotcp/pycotcp/socket.py:736-743 | the lines joined are the stream |
| FileObject.LinesAreLines | pycotcp/pycotcp/socket.py:736-743 | no line is empty, each but the last ends in a newline, and there are no other newlines |
| FileObject.HintedLines | pycotcp/pycotcp/socket.py:721-732 | with a hint the lines are the fewest first ones that make it up |
| FileObject.UnhintedLines | pycotcp/pycotcp/socket.py:721-732 | without a hint they are all |
| FileObject.MixedReads | pycotcp/pycotcp/socket.py:546-743 | any mixture of reads, lines, lists of lines and iteration on one object, through buffer and shortcuts: each returns what it returns of the stream that the calls before it left, and joined with what is left they give the stream; none reads ahead by a bufferful, so an unbuffered object never does |
| FileObject.FileObject.SendPieces | pycotcp/pycotcp/socket.py:506-514 | sends piece by piece, of at least 8192 bytes each but the last, up to the piece that fails |
| FileObject.FileObject.Flush | pycotcp/pycotcp/socket.py:502-520 | what was sent and what stays buffered make up what was written, also when sending fails; success leaves nothing buffered, and failure has sent whole pieces and leaves something |
| FileObject.FileObject.Write | pycotcp/pycotcp/socket.py:525-534 | keeps the bytes and their count, failing or not; sends everything once a bufferful is reached and nothing before; after success less than a bufferful is unsent exactly when the write was of something or less was unsent before |
| FileObject.FileObject.WriteLines | pycotcp/pycotcp/socket.py:536-544 | likewise for a list, with everything sent on an object with a buffer of at most one byte; after success less than a bufferful is always unsent |
| FileObject.WriteNothing | pycotcp/pycotcp/socket.py:525-534 | a failed write and then a write of nothing: success over a buffer that is more than full |
| FileObject.MixedWrites | pycotcp/pycotcp/socket.py:502-544 | any mixture of writes, lists and flushes on one object, any of which may fail: what was sent is a prefix of what was written, the rest is still buffered and counted, and after a successful flush nothing is |
| DhcpOptions.NextOption | pycotcp/pycoclib/picotcp/modules/pico_dhcp_common.c:17-32 | the walk steps behind pads and options and stops at the end mark |
| DhcpOptions.AreOptionsValid | pycotcp/pycoclib/picotcp/modules/pico_dhcp_common.c:34-62 | for every memory and length: accepts exactly when the walk finds an end mark less than the length plus the options passed |
| DhcpOptions.AcceptedIff | pycotcp/pycoclib/picotcp/modules/pico_dhcp_common.c:34-62 | accepted exactly when the memory begins with a list of options whose end mark lies below the length plus the number of options that are not pads |
| DhcpOptions.WellFormedAccepted | pycotcp/pycoclib/picotcp/modules/pico_dhcp_common.c:34-62 | every list of options within the length is accepted |
| DhcpOptions.SlackAccepted | pycotcp/pycoclib/picotcp/modules/pico_dhcp_common.c:52-58 | an end mark behind the length is accepted |
| DhcpOptions.EndOfLayout | pycotcp/pycoclib/picotcp/modules/pico_dhcp_common.c:17-32 | a walk over any list of options passes all of them and ends at its end mark |
| DhcpOptions.LayoutOfItems | pycotcp/pycoclib/picotcp/modules/pico_dhcp_common.c:17-32 | wherever a walk ends it has passed a list of options |
| DhcpMessages.Cookie.RecvParams | pycotcp/pycoclib/picotcp/modules/pico_dhcp_client.c:420-512 | the loop takes in, in place, what every option says, names included, and sets the timers the server did not set |
| DhcpMessages.CopyText | pycotcp/pycoclib/picotcp/modules/pico_dhcp_client.c:480-496 | a name is copied into its buffer as far as there is room, with zeros behind its first zero, and what lies behind it stays |
| DhcpMessages.NamesLearned | pycotcp/pycoclib/picotcp/modules/pico_dhcp_client.c:480-496 | a name of up to 255 octets in its buffer of 64, octet by octet: option 12 for the host, 15 for the domain |
| DhcpMessages.SecondServerIff | pycotcp/pycoclib/picotcp/modules/pico_dhcp_client.c:456-464 | of two name servers in one option the client takes the first one for both, so it learns both exactly if they are the same |
| DhcpMessages.SeenOfLayout | pycotcp/pycoclib/picotcp/modules/pico_dhcp_client.c:420-502 | a walk over a list of options sees exactly those options, whatever lies behind them |
| DhcpMessages.LearnedLast | pycotcp/pycoclib/picotcp/modules/pico_dhcp_client.c:420-502 | from any list of options the client takes each parameter from the last option of its number, and keeps what it had without one |
| DhcpMessages.NotedLast | pycotcp/pycoclib/picotcp/modules/pico_dhcp_server.c:284-341 | and the server the type, the requested address and the server |
| DhcpMessages.FirstType | pycotcp/pycoclib/picotcp/modules/pico_dhcp_client.c:789-807 | the type of a message is that of its first option 53, and there is none exactly without one |
| DhcpMessages.MessageType | pycotcp/pycoclib/picotcp/modules/pico_dhcp_client.c:789-807 | the first message type of an acceptable message, or -1 |
| DhcpMessages.ParseRequest | pycotcp/pycoclib/picotcp/modules/pico_dhcp_server.c:325-341 | the loop takes in message type, requested address and server of a message |
| DhcpMessages.PutOption | pycotcp/pycoclib/picotcp/modules/pico_dhcp_common.c:64-179 | an option is written as code, length and value, and nothing else of the buffer changes |
| DhcpMessages.ReplyOptions | pycotcp/pycoclib/picotcp/modules/pico_dhcp_server.c:235-266 | the reply fills exactly its 40 octets with seven options and the end mark |
| DhcpMessages.ClientOptions | pycotcp/pycoclib/picotcp/modules/pico_dhcp_client.c:809-864 | a message fills 17 or 29 octets of its buffer, or leaves the rest zero; other types are refused |
| DhcpMessages.ReplyUnderstood | pycotcp/pycoclib/picotcp/modules/pico_dhcp_client.c:420-512 | a client accepts the options of every reply and learns type, server, lease, netmask, router and name server exactly as the server wrote them |
| DhcpMessages.RequestUnderstood | pycotcp/pycoclib/picotcp/modules/pico_dhcp_server.c:325-341 | a server accepts the options of every client message and reads type, requested address and server exactly as the client wrote them |
| DhcpMessages.ReplyOctets | pycotcp/pycoclib/picotcp/modules/pico_dhcp_server.c:235-266 | the options of a reply, octet for octet |
| DhcpMessages.ClientOctets | pycotcp/pycoclib/picotcp/modules/pico_dhcp_client.c:809-864 | the options of the messages of a client, octet for octet |
| DhcpMessages.DefaultTimers | pycotcp/pycoclib/picotcp/modules/pico_dhcp_client.c:504-509 | timers of the server are kept; the defaults are half of the lease and, below the overflow, seven eighths of it; for a lease without end the second one is 4294966 seconds |
| DhcpMessages.TimersOrderedIff | pycotcp/pycoclib/picotcp/modules/pico_dhcp_client.c:505-509 | the timers that the client sets satisfy T1 <= T2 <= lease exactly when the lease is at most 4908534, above which the product overflows |
| DhcpServer.Server.ReverseLookup | pycotcp/pycoclib/picotcp/modules/pico_dhcp_server.c:180-191 | finds an address of the hardware address, or none exactly when there is none |
| DhcpServer.Server.AddNegotiation | pycotcp/pycoclib/picotcp/modules/pico_dhcp_server.c:180-225 | a new transaction gets the known address of the client, or the next of the pool, which moves on modulo 2^32; there is none for a known transaction, without memory, or on a link that is not configured |
| DhcpServer.Server.MakeReply | pycotcp/pycoclib/picotcp/modules/pico_dhcp_server.c:227-282 | the reply, header, destination and options, for a transaction; nothing is sent without memory for it |
| DhcpServer.Server.ReplyToDiscoverOrRequest | pycotcp/pycoclib/picotcp/modules/pico_dhcp_server.c:304-323 | offers and acknowledgements by the state of the transaction, and its next state |
| DhcpServer.Server.Recv | pycotcp/pycoclib/picotcp/modules/pico_dhcp_server.c:343-363 | one message, from the check of its options to the reply, moves the server as the function says; the transaction is missing exactly when a new one cannot be had |
| DhcpServer.RunKept | pycotcp/pycoclib/picotcp/modules/pico_dhcp_server.c:180-225 | the allocation on every undisturbed run, whatever the memory: addresses of the pool in transactions and in the table are below the next one, those of the table were given to the clients that it names, and each was given to one client only |
| DhcpServer.OneClientEach | pycotcp/pycoclib/picotcp/modules/pico_dhcp_server.c:180-225 | so replies that give the same address go to the same client |
| DhcpServer.RepliesInPool | pycotcp/pycoclib/picotcp/modules/pico_dhcp_server.c:48-58 | on every run, whatever the table of the link holds and learns, every reply gives an address of the pool, the one of its transaction |
| DhcpServer.RepliesAddressed | pycotcp/pycoclib/picotcp/modules/pico_dhcp_server.c:227-282 | on every run every reply goes to the client, and carries the broadcast flag, of the message that opened its transaction; with the flag it goes to the address that agrees with the server under the netmask and has all ones elsewhere, without it to the address that it gives; header, port and server are as they should be, and its options are octet for octet what the server is configured with |
| DhcpServer.TakenInOrder | pycotcp/pycoclib/picotcp/modules/pico_dhcp_server.c:180-191 | on every run the n-th address taken out of the pool is its start plus n modulo 2^32, taken for a client that has neither a transaction nor an entry in the table |
| DhcpServer.AnswersIff | pycotcp/pycoclib/picotcp/modules/pico_dhcp_server.c:304-363 | an acceptable message is answered by an offer exactly if it is a discovery, and by an acknowledgement exactly if it is a request after an offer, or one of a bound client that names its address and neither a requested one nor a server, each for an address of the pool only and given memory; and the phase of the transaction follows |
| DhcpServer.OneAddressEachIff | pycotcp/pycoclib/picotcp/modules/pico_dhcp_server.c:180-225 | on every undisturbed run, whatever the memory, addresses of the pool and clients are paired throughout exactly when the server never takes an address out of the pool for a client for which it did so before |
| DhcpServer.EntryLost | pycotcp/pycoclib/picotcp/modules/pico_dhcp_server.c:180-191 | it does so a second time only for a client whose entry in the table was lost for want of memory |
| DhcpServer.ServedIff | pycotcp/pycoclib/picotcp/modules/pico_dhcp_server.c:180-225 | a client has an address of the pool exactly when one was taken out of the pool for it |
| DhcpServer.PairedReplies | pycotcp/pycoclib/picotcp/modules/pico_dhcp_server.c:227-282 | where they are paired two replies give the same address exactly when they go to the same hardware address |
| DhcpServer.OneAddressEach | pycotcp/pycoclib/picotcp/modules/pico_dhcp_server.c:180-191 | so it is on every undisturbed run on which the table gets the entries of new clients; a run is undisturbed if the table starts without addresses of the pool and learns them only of those to whom they were given, and the next address does not pass 2^32 |
| DhcpServer.SharedAddress | pycotcp/pycoclib/picotcp/modules/pico_dhcp_server.c:180-191 | a host that has the first address of the pool without having got it from the server: the address is offered to the first client and to that host |
| DhcpServer.TwoAddresses | pycotcp/pycoclib/picotcp/modules/pico_dhcp_server.c:180-191 | a client whose entry is lost for want of memory gets another address the next time |
| DhcpServer.AckFollowsOffer | pycotcp/pycoclib/picotcp/modules/pico_dhcp_server.c:304-323 | on every run, whatever the table holds and learns, every acknowledgement follows an offer of the same address in the same transaction, if no offer was lost for want of memory |
| DhcpServer.AckFollowsOfferIff | pycotcp/pycoclib/picotcp/modules/pico_dhcp_server.c:304-323 | in general it does throughout a run exactly when every request that is acknowledged comes after a discovery of the same transaction for whose offer there was memory |
| DhcpServer.OfferSentIff | pycotcp/pycoclib/picotcp/modules/pico_dhcp_server.c:315-323 | an offer was sent in a transaction of the pool exactly when there was such a discovery of it |
| DhcpServer.AckWithoutOffer | pycotcp/pycoclib/picotcp/modules/pico_dhcp_server.c:243-246 | an offer lost for want of memory, and the acknowledgement that comes all the same |
| DhcpServer.Exchange | pycotcp/pycoclib/picotcp/modules/pico_dhcp_server.c:304-363 | from any state, a discovery and the request that answers it are answered by one offer and one acknowledgement of the same address, as far as there is memory for them, if it is one of the pool |
| DhcpServer.Renewal | pycotcp/pycoclib/picotcp/modules/pico_dhcp_server.c:304-341 | a bound client that asks to go on is acknowledged exactly when it names its address |
| DhcpServer.ReplyTeaches | pycotcp/pycoclib/picotcp/modules/pico_dhcp_server.c:227-266 | what a client learns from a reply is what the server is configured with |
| FrameQueue.Queue.Enqueue | pycotcp/pycoclib/picotcp/include/pico_queue.h:70-106 | a frame goes behind the others in the linked list, or is refused by a limit and nothing changes; links, count and 32-bit size follow |
| FrameQueue.Queue.Dequeue | pycotcp/pycoclib/picotcp/include/pico_queue.h:108-133 | the first frame is unlinked, or there is none |
| FrameQueue.Queue.Peek | pycotcp/pycoclib/picotcp/include/pico_queue.h:135-143 | the first frame, and nothing changes |
| FrameQueue.Queue.Empty | pycotcp/pycoclib/picotcp/include/pico_queue.h:152-159 | ends, and takes every frame out in order |
| FrameQueue.FirstInFirstOut | pycotcp/pycoclib/picotcp/include/pico_queue.h:70-133 | on every run the frames come out in the order in which they were let in |
| FrameQueue.LetInIff | pycotcp/pycoclib/picotcp/include/pico_queue.h:70-106 | on every run a frame is let in exactly when fewer frames than their limit were let in and not taken out, and it, the frames and the excess do not exceed the limit on the size, as far as there are limits |
| FrameQueue.RunWithinFrames | pycotcp/pycoclib/picotcp/include/pico_queue.h:72-79 | on every run a queue with a limit on the number of frames holds no more |
| FrameQueue.FilledUp | pycotcp/pycoclib/picotcp/include/pico_queue.h:72-79 | and without a limit on the size it fills up to that number, with the first frames |
| FrameQueue.SignedIs | pycotcp/pycoclib/picotcp/include/pico_queue.h:101-105 | the size is returned as the signed number of 32 bits |
| FrameQueue.RunAccounted | pycotcp/pycoclib/picotcp/include/pico_queue.h:89-123 | on every run, with frames in the queue or without, the size is what the frames take and twice the overhead for every frame taken out since one was put into an empty queue, modulo 2^32 |
| FrameQueue.SizeIsExactIff | pycotcp/pycoclib/picotcp/include/pico_queue.h:89-123 | on every run the size is exact exactly when that excess vanishes modulo 2^32, so always without overhead |
| FrameQueue.TooLargeIff | pycotcp/pycoclib/picotcp/include/pico_queue.h:81-82 | on every run a frame is refused for its size exactly when it, the frames and the excess exceed the limit modulo 2^32 |
| FrameQueue.JudgedRightIff | pycotcp/pycoclib/picotcp/include/pico_queue.h:81-82 | on every run a size limit judges a frame by what the frames take exactly when the excess does not cross the limit; short of 32 bits it crosses exactly when the frame fits by less than the excess |
| FrameQueue.LockedOutIff | pycotcp/pycoclib/picotcp/include/pico_queue.h:70-123 | an empty queue lets none of any further frames in, for good, exactly when each of them and the excess together exceed the limit |
| FrameQueue.DrainedRefuses | pycotcp/pycoclib/picotcp/include/pico_queue.h:81-123 | after one frame in and out, an empty queue with room for 100 octets refuses a frame of 70 for good |
| FrameQueue.RefusedThoughItFits | pycotcp/pycoclib/picotcp/include/pico_queue.h:81-82 | a queue that holds a frame refuses another that would fit |
| TextResponses.GetResponse | pyvdetelweb/utils.py:2-43 | for every cutting of the stream by recv the same response: that of the stream read line by line, index errors included |
| TextResponses.PlainResponse | pyvdetelweb/utils.py:2-43 | lines of text and a status line are read as exactly that text, status and message, whatever follows |
| TextResponses.MarkedResponse | pyvdetelweb/utils.py:21-40 | with an announced end mark, the text ends at the mark and the lines behind it are dropped; an index error exactly when a blank line is among them |
| TextResponses.StatusTestIs | pyvdetelweb/utils.py:25-29 | which lines begin with a status, and which are too short to tell |
| TextResponses.ContainsIff | pyvdetelweb/utils.py:21-21 | the announcement of an end mark is one text somewhere in the line |
| TextResponses.QuotedBetween | pyvdetelweb/utils.py:21-22 | an end mark reaches from the first quote to the second one |
| TextResponses.QuotedRest | pyvdetelweb/utils.py:21-22 | or to the end of the line when there is but one, and there is none without |
| TextResponses.BrokenLines | pyvdetelweb/utils.py:21-29 | the two other index errors: an announcement without a quote, and a line that ends like the beginning of a status |
| Ipv6Text.AddressToArray | pycotcp/pycotcp/lwipv6adapter.py:109-129 | the three loops compute the conversion of the split text, failures included |
| Ipv6Text.FullAddress | pycotcp/pycotcp/lwipv6adapter.py:109-129 | eight groups written in full are read back |
| Ipv6Text.CompressedAddress | pycotcp/pycotcp/lwipv6adapter.py:109-129 | eight groups with any one run of zeros written as a double colon, at either end, inside, or alone, are read back |
| Ipv6Text.EightGroupsIff | pycotcp/pycotcp/lwipv6adapter.py:109-129 | numbers that are read are eight exactly when no more than eight parts are written besides the empty one |
| Ipv6Text.SplitJoin | pycotcp/pycotcp/lwipv6adapter.py:110-110 | splitting undoes joining |

## Left out

- PPP: the AT commands of the modem, the bodies of PAP and CHAP packets, MD5, the IPCP option
  parser and the echo reply; an answer or packet enters the automata as the event it causes.
- PPP: the substitute hooks for tests, debug output, several devices over the one receive buffer,
  frames of more than 2047 interior octets, and a lone octet between two flags, which the
  receiver keeps.
- PPP: a serial driver that takes only a part of a frame; the wire theorems are about frames that
  it takes in full.
- PppConfReject.SendConfigureNack: types of 32 and more, for which C does not define the shift, are
  taken to have no flag; and reading behind the memory of the packet counts as copying that does
  not end.
- PppConfReject.Lcp.ProcessIn: a packet is followed by the three octets that the walk may read
  behind its length.
- PppRuns.RunTimer: whether memory can be had is one choice for each event, not for each
  allocation.
- The heap: wrapping of the 32-bit entry count.
- FileObject.FileObject.Read: does not model interrupted calls, closing, or a `recv` that raises;
  likewise for the other reading methods.
- FileObject.FileObject.Flush: a `sendall` that fails is taken to have sent nothing of its piece.
- DHCP: the client's state machine and lease timers, sockets and broadcast routes, the server's
  defaults for its pool, more than one link, and the removal of a server.
- DhcpServer.Server.Recv: says no more of a message for which there is no transaction than that; the
  code goes on with a null pointer.
- The tree behind that table, and the mutexes around the queue, are not part of this model.
- Ipv6Text.AddressToArray: takes Python's reading of numbers in base 16 as a parameter.
- The adapters, the foreign function interface, the device drivers, the web and telnet front
  ends, AODV and DNS: input and output, or calls into libraries that are not shown.
