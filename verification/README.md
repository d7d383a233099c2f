# Verified models of neubau's discovery machinery

neubau finds SunSpec inverters, Modbus devices and Shelly devices from one libhv event loop. Its
protocol logic is a set of callback-driven state machines: a request queue over a Modbus TCP byte
stream, a SunSpec scan that reads a device's register map chunk by chunk, bounded-concurrency pumps,
a discovery that orchestrates scans, an epoch-aligned timer, an mDNS cache and a merge of announced
services. This project models each of them in Dafny and proves what they keep over every run.

## How the models are built

Each machine is modelled twice. A small transition system, a datatype with a total `Step`, says
what every event does (`ScanSpec`, `SessionSpec`, `PortScan`, `ModbusPump`, `Identification`,
`DiscoveryRun`, `TimerSpec`, `MdnsCache`, `ShellyMerge`). A class with the program's own fields
updates them in place, callback by callback, and each of its methods ensures that the abstract
state moves along that system (`SunspecScanner.dfy`, `ModbusSession.dfy`,
`PortScannerSession.dfy`, `ModbusDiscoverySession.dfy`, `Identifier.dfy`,
`SunspecDiscoveryRun.dfy`, `Timer.dfy`, `MdnsDiscovery.dfy`, `ShellyThingFactory.dfy`). The
theorems about runs are lemmas about the transition systems.

The environment is adversarial: replies, failures, connection events, timeouts, cancellations and
stops come in any order, and what the transport or a callback does to a request is an oracle. Tasks
posted to the loop are events of their own.

These results tie several machines together:

- `ScanDevice` proves that the asynchronous scan of a fault-free device finds what a direct,
  recursive reading of its registers finds, and from it the round trip between laying out a device
  in registers and scanning it.
- `ScanOverSession` puts the scan on top of the session and a function 03 server at the other end of
  the byte stream, and proves the same end to end for every way of cutting the answers into chunks.
- `ScanOverAnyWire` puts the scan on top of sessions to which anything may happen, and proves that
  what it emits rests on exact function 03 replies to its own requests. `SessionEvidence` says where
  a session's successes come from.
- `DiscoveryStack` puts the SunSpec discovery on top of the Modbus discovery it listens to and the
  scans it starts, each with its own state and in any interleaving. It says exactly when the whole
  ends, errs and ends after a stop, and that what is passed on is what the scans emit.
  `DiscoverySteps` says what one event changes.
  `StackDevices` says which devices it scans.
- `DeviceStrings` and `MdnsEmissions` tell what is emitted from the outside: by the labels a device
  was given, and by the records that were announced.
- `Framing`, `Identification` and `SunspecIdentity` hold encoders as inverses of the program's
  decoders, and prove both directions.

Formats follow section 3.1.3 of the MODBUS Messaging on TCP/IP Implementation Guide V1.0b, sections
4.1, 6.3 and 6.21 of the MODBUS Application Protocol Specification V1.1b3, the SunSpec Device
Information Model Specification, and sections 4.1, 5 and 6 of RFC 6763.

## Properties that hold only under a condition

Each of these comes with an input that shows it failing and with the exact condition.

- A request can be left without a timer of the session's. Two frames that arrive together are handled
  in one pass; if the link breaks between them, the second one disarms the timer of the connection
  attempt the first one started (`SessionProperties.SecondFrameStrandsRequest`).
  `NoRequestStranded` and `TimerLostExactly` give the exact condition, told by the outstanding
  requests, the frames in the data and the transport; a data event that completes one frame never
  meets it (`OneItemTakesNoTimer`). The run assumes a transport that can go from connected to not
  connected within one data callback. The client's own connect timeout may still report the failed
  attempt, and that resolves the request.
- A bad length field discards everything received behind it, so the cut into chunks matters then;
  `Framing.CutIndependence` says that it matters in no other case, and
  `DroppedBytesDependOnTheCut` gives a cut for each such stream.
- Stopping a Modbus discovery does not always complete it (`ModbusPump.StopStrandsDiscovery`,
  `StopCompletesExactly`), and then a SunSpec discovery stopped with it does not end either
  (`DiscoveryStack.StrandedPumpStrandsDiscovery`, `StopEndsBothExactly`).
- The design document lets a scan stop at the first unit with a complete chain. The code, and the
  repository's own README, stop at the first unit with an accepted header, and a later whole chain is
  missed (`ScanDevice.WholeChainMissed`, `FindsFirstWholeExactly`).
- The design document lets every unsuccessful probe move on to the next unit; the code repeats a unit
  once when its probe finds the session closed after a bad header
  (`ScanTheorems.SecondUnitProbedTwice`, `RepeatsExactly`).
- A timeout that fires before its tick, as one whose delay was cut to milliseconds may, gives the same
  tick again (`TimerSpec.TickGivenTwice`, `EarlyTimeoutRepeatsTick`). For a clock that may have been
  set back, `NextTickIsTheSameExactly` says when that happens.
- Before the epoch the next tick is one interval late unless the time is on a multiple
  (`TimerSpec.LateBeforeEpoch`, `NextTickIsNextMultiple`).
- A SunSpec id identifies its device exactly when manufacturer, product and serial number consist of
  letters and digits (`SunspecIdentity.TwoDevicesOneId`, `IdIdentifiesExactly`).

The design document keeps the failure of one host from ending the discovery of others, and it does:
the scans of a discovery err only at their start (`ScanTheorems.FixedUnitErrsOnlyAtStart`), for want
of a session, which is refused only once the discovery is over. So the discovery errs exactly when
the Modbus discovery does or an endpoint cannot be opened
(`DiscoveryStack.FailedScanFailsNoDiscovery`).

## Model

| member | source | states |
|---|---|---|
| `ScanDevice.ScanOfPrintedDevice` | src/sunspec/SunspecScanner.cpp:409-535 | for every common model of 65 or 66 registers and every list of models that can be laid out from register 40000 on, scanning a unit that holds the layout emits exactly one thing, with the layout's unit, strings and locations, when the layout keeps the limits on models and span, and no thing otherwise |
| `DeviceStrings.ScanReadsLabels` | src/sunspec/SunspecScanner.cpp:428-450 | for all labels without NULs that fit 16, 16, 8, 8 and 16 registers, scanning a device that holds them in that order behind its header emits a thing whose manufacturer, model, options, version and serial number are exactly those, with the device's endpoint and unit and base address 40000 |
| `ScanDevice.ScanReadsTheDevice` | src/sunspec/SunspecScanner.cpp:278-535 | the asynchronous scan of any fault-free device, whatever its registers hold, ends with exactly what a direct recursive reading of the registers finds at the first unit with a header, or with nothing |
| `ScanDevice.FirstHeaderDecides` | src/sunspec/SunspecScanner.cpp:308-341 | the first unit in probing order with an accepted header decides the outcome, even when its chain is broken and a later unit has a whole one |
| `ScanDevice.FindsFirstWholeExactly` | src/sunspec/SunspecScanner.cpp:308-341 | a sweep finds the first unit with a whole chain exactly when the first unit with a header has one, or no unit has |
| `ScanDevice.WholeChainMissed` | src/sunspec/SunspecScanner.cpp:308-341 | a device at which it does not: the first unit with a header has a broken chain, a later one a whole chain, and the scan completes without a thing |
| `ScanDevice.ReadPrintedChain` | src/sunspec/SunspecScanner.cpp:468-535 | reading back a printed chain of models gives those models, exactly when it fits the limits |
| `ScanDevice.LocationsFindModels` | src/sunspec/SunspecScanner.cpp:508-514 | each location of a layout has its model's id and length and points at its payload |
| `ScanOverSession.ScanOverTheWire` | src/sunspec/SunspecScanner.cpp:149-169 | scan, session and byte stream together: over a link that holds, with the answers of a function 03 server cut into arbitrary chunks, the scan emits what the device's registers say, and the requests on the wire are the scan's reads in order, numbered from transaction 1 |
| `ScanOverSession.ExchangeAnswers` | src/modbus/ModbusSession.cpp:185-252 | one read over an idle session puts one request on the wire and resolves it, from whatever chunks, with the device's registers or as failed |
| `ScanOverSession.StepAsksOnce` | src/sunspec/SunspecScanner.cpp:278-306 | from one step to the next a scan issues exactly the one read it then waits for, or none when it ends |
| `ScanOverSession.ChunksAreFull` | src/sunspec/SunspecScanner.cpp:122-154 | in every reachable walk the chunk under way starts right behind all that has been received and asks for 125 registers, or for all its logical read still misses when that is fewer |
| `ScanOverAnyWire.EmissionRestsOnReplies` | src/sunspec/SunspecScanner.cpp:149-169 | over sessions to which anything happens, bytes, breaks, timeouts, closings and replacement, an emitted thing rests on registers each of which came in the exact function 03 reply to the scan's own request for it, received by the session in use |
| `ScanTheorems.EmissionIsSound` | src/sunspec/SunspecScanner.cpp:428-535 | whatever is replied, a thing is emitted only if the registers received from 40004 on are a common model, well-formed models and the end model {0xffff, 0} in a row; locations start with {1, 0, 40004, length}, follow each other at address + length + 2, number their instances, and are at most maxModels |
| `ScanTheorems.ThingOverSessionGiven` | src/sunspec/SunspecScanner.cpp:261-362 | a thing carries the endpoint of the session given last before its header was accepted, be it the first or the latest replacement of a closed one, and the unit being probed then |
| `ScanTheorems.HeaderIsMarker` | src/sunspec/SunspecScanner.cpp:77-83 | four registers are accepted as a header exactly when they are the bytes "SunS", model id 1 and a length of 65 or 66 |
| `ScanTheorems.EndsOnce` | src/sunspec/SunspecScanner.cpp:590-644 | a scan says nothing until it ends, and then thing and completion, or completion, or error |
| `ScanTheorems.EndIsFinal` | src/sunspec/SunspecScanner.cpp:579-644 | once a scan has ended no event makes it emit, read or change again |
| `ScanTheorems.CancelCompletes` | src/sunspec/SunspecScanner.cpp:25-52 | a cancelled scan completes: at once when it runs, as it starts when it has not been started |
| `ScanTheorems.ChunksTile` | src/sunspec/SunspecScanner.cpp:122-170 | the reads of a chain walk tile the registers from 40004 on in order, 1 to 125 at a time, all to the selected unit and inside the address space and span |
| `ScanTheorems.GuardsNeverStop` | src/sunspec/SunspecScanner.cpp:136-147 | in every reachable state of a chain walk the rest of the logical read fits the address space, so that a chunk of the right size with more missing is always followed by the next one; the 32-bit guard and the instance guard hold, and at most 12733 models fit |
| `ScanTheorems.CheckedReadStarts` | src/sunspec/SunspecScanner.cpp:364-391 | a logical read behind a passed span check is never refused at its start |
| `ScanTheorems.CastsLoseNothing` | src/sunspec/SunspecScanner.cpp:149-154 | the narrowing casts of a chunk's address and count lose nothing |
| `ScanTheorems.ProbingOrderIsPermutation` | src/sunspec/SunspecScanner.cpp:56-76 | the probing order holds each unit id from 1 to 247 exactly once |
| `ScanTheorems.ProbesAreBounded` | src/sunspec/SunspecScanner.cpp:278-362 | probes follow the order from its start, skip no unit, try none a third time and are at most 493, or one for a fixed unit |
| `ScanTheorems.RepeatsExactly` | src/sunspec/SunspecScanner.cpp:308-362 | in every run of a sweep a probe is repeated exactly when it was issued by a reply, without a header, over an open session, and the next event is its failure, with the session closed and another to be had |
| `ScanTheorems.RetryOpensExactly` | src/sunspec/SunspecScanner.cpp:308-362 | a probe is issued with its retry open exactly by a reply over an open session |
| `ScanTheorems.SecondUnitProbedTwice` | src/sunspec/SunspecScanner.cpp:308-362 | a run that probes its second unit twice, behind four registers that are no header |
| `ScanTheorems.SweepIsComplete` | src/sunspec/SunspecScanner.cpp:278-306 | an uncancelled sweep that completes without an accepted header has probed every unit id |
| `ScanTheorems.ScanTerminates` | src/sunspec/SunspecScanner.cpp:261-573 | no sequence of replies keeps a started scan going beyond 26027 of them |
| `ScanTheorems.FixedUnitErrsOnlyAtStart` | src/sunspec/SunspecScanner.cpp:261-362 | a scan of one unit errs in exactly one step, its start, when no open session is to be had |
| `ScanTheorems.FixedUnitNeverErrs` | src/sunspec/SunspecScanner.cpp:261-644 | a scan of one unit that finds an open session at its start errs in no run |
| `ScanProperties.StepKeepsInvariant` | src/sunspec/SunspecScanner.cpp:261-644 | every event keeps the invariant that ties probes, reads, received registers, parsed chain and emissions together |
| `SunspecScannerModel.LogicalRegisterReader.Next` | src/sunspec/SunspecScanner.cpp:122-170 | hands over all registers, refuses an address out of range, or asks for the next chunk of at most 125; nothing once finished; the new state is that of the transition system |
| `SunspecScannerModel.LogicalRegisterReader.OnChunk` | src/sunspec/SunspecScanner.cpp:156-169 | a chunk of the wrong size fails the read; the right one is appended and moves address and remainder on; the new state is that of the transition system |
| `SunspecScannerModel.ScanState.Cancel` | src/sunspec/SunspecScanner.cpp:25-39 | sets the control's flag once and completes a bound scan; the new state is that of the transition system |
| `SunspecScannerModel.ScanState.StartInLoop` | src/sunspec/SunspecScanner.cpp:261-276 | binds the control, acquires or replaces the session and starts the sweep; the new state is that of the transition system |
| `SunspecScannerModel.ScanState.OnProbeResponse` | src/sunspec/SunspecScanner.cpp:308-341 | a reply to a probe selects its unit or moves the sweep on, with the retry flag; the new state is that of the transition system |
| `SunspecScannerModel.ScanState.OnProbeFailure` | src/sunspec/SunspecScanner.cpp:343-362 | a failed probe repeats its unit or moves the sweep on; the new state is that of the transition system |
| `SunspecScannerModel.ScanState.ModelAddresses` | src/sunspec/SunspecScanner.cpp:377-391 | accepts a header exactly when header and payload lie in the span, and gives both addresses |
| `SunspecScannerModel.ScanState.OnReadReply` | src/sunspec/SunspecScanner.cpp:155-169 | a chunk for the active reader moves the walk on, a late one for a cancelled reader is ignored; the new state is that of the transition system |
| `SunspecScannerModel.ScanState.OnReadFailure` | src/sunspec/SunspecScanner.cpp:168-183 | a failed chunk completes the scan; the new state is that of the transition system |
| `SunspecScannerModel.ScanState.OnCommonModel` | src/sunspec/SunspecScanner.cpp:428-450 | decodes the strings, enters the common model and goes on with the first header; the new state is that of the transition system |
| `SunspecScannerModel.ScanState.OnModelHeader` | src/sunspec/SunspecScanner.cpp:468-535 | the end model emits, a header out of limits completes, any other enters a location and goes on; the new state is that of the transition system |
| `SunspecScannerModel.ScanState.EmitThing` | src/sunspec/SunspecScanner.cpp:590-616 | emits the gathered thing, with the endpoint of the session in use, and completes, once; the new state is that of the transition system |
| `SunspecScannerModel.ScanState.CompleteScan` | src/sunspec/SunspecScanner.cpp:618-630 | completes once and lets go of reader and control; the new state is that of the transition system |
| `SunspecScannerModel.ScanState.FailScan` | src/sunspec/SunspecScanner.cpp:632-644 | fails once and lets go of reader and control; the new state is that of the transition system |
| `SunspecIdentity.DecodeSunSpecString` | src/sunspec/SunspecIdentity.cpp:9-29 | the result is the longest prefix without a NUL of the registers' bytes, high byte first |
| `SunspecIdentity.BeforeNulIsLongest` | src/sunspec/SunspecIdentity.cpp:14-26 | that prefix is unique |
| `SunspecIdentity.PaddedTextIsReadBack` | src/sunspec/SunspecIdentity.cpp:9-29 | every string without NULs that fits a field is read back from it |
| `SunspecIdentity.NormalizeSunSpecIdPart` | src/sunspec/SunspecIdentity.cpp:31-49 | the loop normalizes byte by byte |
| `SunspecIdentity.NormalByteIgnores` | src/sunspec/SunspecIdentity.cpp:31-49 | two bytes are normalized alike exactly when they are equal, one letter in two cases, or both neither letter nor digit |
| `SunspecIdentity.PlainExactly` | src/sunspec/SunspecIdentity.cpp:31-49 | no byte becomes an underscore exactly when all are letters and digits |
| `SunspecIdentity.IdIdentifiesExactly` | src/sunspec/SunspecIdentity.cpp:51-70 | an id determines the normalized manufacturer, product and serial number, against those of every other device, exactly when all three consist of letters and digits |
| `SunspecIdentity.TwoDevicesOneId` | src/sunspec/SunspecIdentity.cpp:51-70 | two devices whose parts differ and whose ids are the same |
| `SessionProperties.ExactlyOnceInOrder` | src/modbus/ModbusSession.cpp:94-121 | over every interleaving of requests, connection events, data, timeouts and close, with re-entrant close, each request is resolved or outstanding exactly once, in arrival order, and a closed session has resolved all |
| `SessionProperties.ResolutionsAreFinal` | src/modbus/ModbusSession.cpp:309-370 | a resolution is never changed or taken back |
| `SessionWire.SentOnceInOrder` | src/modbus/ModbusSession.cpp:185-212 | over every run requests go on the wire in arrival order, each at most once and as its own 12 bytes; while the link is up the active request is the one sent last |
| `SessionEvidence.StepIsEvident` | src/modbus/ModbusSession.cpp:220-307 | whatever happens, a request that succeeds is one handed in before, and the exact function 03 reply to it, with as many registers as asked for, is among the frames received |
| `SessionProperties.TimeoutResolvesAll` | src/modbus/ModbusSession.cpp:179-218 | the timer that is pending, when it fires, resolves every outstanding request |
| `SessionProperties.EndingFailsAll` | src/modbus/ModbusSession.cpp:159-218 | in every run the loss of a link that is up or being attempted, the pending timer, and a close of a session not closed fail every outstanding request in order, send nothing and leave the session closed; over any other session they change nothing |
| `SessionProperties.ArrivalIsSentWaitsOrFails` | src/modbus/ModbusSession.cpp:94-157 | in every run an arrival is sent at once exactly when nothing is outstanding over a link that stays up, fails at once exactly when the session is closed, it cannot be sent, or no socket can be had for it, and waits in every other case |
| `SessionProperties.ConnectionIsUsed` | src/modbus/ModbusSession.cpp:159-212 | in every run an attempt that succeeds leaves the link up and sends what waits first, or fails everything when that cannot be sent |
| `SessionProperties.NoRequestStranded` | src/modbus/ModbusSession.cpp:103-218 | in every run each moment with outstanding requests has a timer pending and no other has one, exactly when no data event takes an attempt's timer, which is told by the link, the outstanding requests and the frames before it |
| `SessionProperties.TimerLostExactly` | src/modbus/ModbusSession.cpp:103-252 | received frames leave an attempt without its timer exactly when one comes during the attempt, that under way or that of the first request begun behind an earlier frame that finds the link down and opens its socket, and no request handled closes the session |
| `SessionProperties.OneItemTakesNoTimer` | src/modbus/ModbusSession.cpp:220-252 | data that completes at most one frame outside an attempt never does |
| `SessionProperties.SecondFrameStrandsRequest` | src/modbus/ModbusSession.cpp:326-338 | a run in which that fails: two frames arrive together, the link breaks between them, and the session has no timer for the request that is left |
| `SessionProperties.ChunksDoNotMatter` | src/modbus/ModbusSession.cpp:220-252 | a byte stream that loses nothing to a bad length leaves the same session behind, buffer included, in whatever chunks it arrives |
| `SessionProperties.FrameResolvesOnlyActive` | src/modbus/ModbusSession.cpp:254-307 | a frame resolves the active request with exactly its answer and nothing else |
| `SessionProperties.StepKeepsInvariant` | src/modbus/ModbusSession.cpp:94-370 | every event keeps the requests accounted for and the buffer a proper frame prefix, and only adds resolutions |
| `Framing.AnswerIsExact` | src/modbus/ModbusSession.cpp:254-307 | a frame answers a request with registers R exactly when it is byte for byte the function 03 reply with R |
| `Framing.AnswerByFields` | src/modbus/ModbusSession.cpp:259-306 | on delimited frames that is the field-by-field comparison |
| `Framing.ExceptionAnswersNothing` | src/modbus/ModbusSession.cpp:276-285 | an exception frame is delimited and answers nothing |
| `Framing.CutIndependence` | src/modbus/ModbusSession.cpp:220-252 | no two-way cut of a stream changes what is received, exactly when no bad length stands in front of further bytes |
| `Framing.DroppedBytesDependOnTheCut` | src/modbus/ModbusSession.cpp:230-237 | a cut that changes what is received, for every stream with a bad length in front of further bytes |
| `Framing.ChunkIndependence` | src/modbus/ModbusSession.cpp:220-252 | nor does any cut into any number of chunks |
| `Framing.RestIsProperPrefix` | src/modbus/ModbusSession.cpp:227-237 | the leftover is a proper prefix of one frame, shorter than 260 bytes |
| `Framing.FramesAreDelimited` | src/modbus/ModbusSession.cpp:228-247 | every frame handed on has an allowed length field that counts its bytes |
| `Framing.DeframeConserves` | src/modbus/ModbusSession.cpp:239-246 | while lengths are allowed no byte is lost, added or reordered |
| `ModbusSessionModel.ModbusSession.EnqueueInLoop` | src/modbus/ModbusSession.cpp:94-101 | a request joins the queue or fails at once; the new state is that of the transition system |
| `ModbusSessionModel.ModbusSession.StartNext` | src/modbus/ModbusSession.cpp:103-121 | the first queued request becomes active under the next transaction id and is sent or connected for; the new state is that of the transition system |
| `ModbusSessionModel.ModbusSession.StartConnection` | src/modbus/ModbusSession.cpp:123-157 | an attempt and its timeout start, unless one is under way; the new state is that of the transition system |
| `ModbusSessionModel.ModbusSession.OnConnection` | src/modbus/ModbusSession.cpp:159-177 | a connection sends the active request, its loss fails everything; the new state is that of the transition system |
| `ModbusSessionModel.ModbusSession.OnConnectTimeout` | src/modbus/ModbusSession.cpp:179-183 | the connect timeout fails everything; the new state is that of the transition system |
| `ModbusSessionModel.ModbusSession.OnResponseTimeout` | src/modbus/ModbusSession.cpp:214-218 | the response timeout fails everything; the new state is that of the transition system |
| `ModbusSessionModel.ModbusSession.SendActive` | src/modbus/ModbusSession.cpp:185-212 | the request's 12 bytes are sent and its timeout armed, or everything fails; the new state is that of the transition system |
| `ModbusSessionModel.ModbusSession.OnData` | src/modbus/ModbusSession.cpp:220-252 | the receive loop takes every complete frame and stops at a bad length or a close; the new state is that of the transition system |
| `ModbusSessionModel.ModbusSession.HandleFrame` | src/modbus/ModbusSession.cpp:254-307 | a frame resolves the active request; the new state is that of the transition system |
| `ModbusSessionModel.ModbusSession.FinishActiveSuccess` | src/modbus/ModbusSession.cpp:309-324 | the active request leaves with its registers and the next starts; the new state is that of the transition system |
| `ModbusSessionModel.ModbusSession.FinishActiveError` | src/modbus/ModbusSession.cpp:326-338 | the active request leaves as failed; its callback may close the session, else the next starts; the new state is that of the transition system |
| `ModbusSessionModel.ModbusSession.CloseInLoop` | src/modbus/ModbusSession.cpp:340-345 | closing resolves everything, once; the new state is that of the transition system |
| `ModbusSessionModel.ModbusSession.FailEverything` | src/modbus/ModbusSession.cpp:347-370 | active and queued requests fail in order and the session is closed; the new state is that of the transition system |
| `ModbusSessionModel.ModbusSession.Decode` | src/modbus/ModbusSession.cpp:259-306 | the checks in their order give exactly the answer of the frame |
| `ModbusSessionModel.NextTransaction` | src/modbus/ModbusSession.cpp:110-114 | the k-th request started carries transaction 1 + k mod 65535, never 0 |
| `PortScan.JobsArePairs` | src/common/PortScannerSession.cpp:131-136 | job numbers and pairs of an address and a port correspond one to one |
| `PortScan.JobsAreConserved` | src/common/PortScannerSession.cpp:126-179 | in every run each job started is active, cut off or reported, once; no more than maxConcurrency are out, and jobs wait only while that many are |
| `PortScan.CompletesWithLastReport` | src/common/PortScannerSession.cpp:162-165 | an unstopped scan is complete exactly when every pair has reported |
| `PortScan.EveryPairOnce` | src/common/PortScannerSession.cpp:131-161 | a completed unstopped scan has dialled each pair exactly once |
| `PortScan.TellsExactlyTheOpen` | src/common/PortScannerSession.cpp:152-155 | an unstopped scan tells of exactly the open targets, in reporting order, and completes once |
| `PortScan.TellsEachOpenReport` | src/common/PortScannerSession.cpp:143-157 | in a run without a stop what is told is, one by one and in the order of the reports, the address and port of each job reported open, and then the completion |
| `PortScan.TargetIsToldExactly` | src/common/PortScannerSession.cpp:143-157 | an address and port are told exactly when a job in their row and column was reported open |
| `PortScan.QuietAfterStop` | src/common/PortScannerSession.cpp:167-191 | after a stop or completion at most the one completion follows |
| `PortScan.StopCompletes` | src/common/PortScannerSession.cpp:167-179 | the first stop completes the scan exactly when nothing is under way, and otherwise the next report does; another stop changes nothing |
| `PortScannerSessionModel.Connector.StartInLoop` | src/common/PortScannerSession.cpp:42-56 | an attempt that was cancelled does not dial; a refused socket reports |
| `PortScannerSessionModel.Connector.Finish` | src/common/PortScannerSession.cpp:58-79 | a connector reports once, whatever happens to it |
| `PortScannerSessionModel.PortScannerSession.Fill` | src/common/PortScannerSession.cpp:126-165 | jobs are started in order up to the limit, each with its address and port, and the last report completes |
| `PortScannerSessionModel.PortScannerSession.OnResult` | src/common/PortScannerSession.cpp:143-157 | a report frees its place, tells of an open port unless stopped, and refills |
| `PortScannerSessionModel.PortScannerSession.Stop` | src/common/PortScannerSession.cpp:167-179 | a stop cuts off what is active |
| `PortScannerSessionModel.PortScannerSession.Finish` | src/common/PortScannerSession.cpp:181-191 | completion comes once |
| `ModbusPump.JobsAreConserved` | src/modbus/ModbusDiscovery.cpp:637-691 | in every run each job made is pending, active, cut off or finished, once; active never exceeds maxConcurrency and jobs are pending only when it is reached |
| `ModbusPump.JobsOfAllTargets` | src/modbus/ModbusDiscovery.cpp:637-696 | in every run that is neither stopped nor failed, before and behind the end of the port scan, the jobs are each open port on each unit id, in order |
| `ModbusPump.JobsByPortAndUnit` | src/modbus/ModbusDiscovery.cpp:637-649 | the job in row i and column j is of the i-th open port and the j-th unit id |
| `ModbusPump.CompletesExactly` | src/modbus/ModbusDiscovery.cpp:714-720 | an unstopped discovery is complete exactly when the port scan is and every job has finished |
| `ModbusPump.CompletedFinishesAllTargets` | src/modbus/ModbusDiscovery.cpp:637-720 | a discovery that completes without a stop has finished exactly the jobs of all open ports on all unit ids, each once |
| `ModbusPump.TellsExactlyTheKnown` | src/modbus/ModbusDiscovery.cpp:679-691 | it tells of exactly the jobs with a device, in finishing order, and then that it is over |
| `ModbusPump.TellsEachKnownReport` | src/modbus/ModbusDiscovery.cpp:679-691 | in a run without a stop or failure the jobs finished are those under way that have reported, in the order of their reports, and what is told is each that reported a device, and then the completion |
| `ModbusPump.QuietAfterEnd` | src/modbus/ModbusDiscovery.cpp:698-760 | after a stop or an ending at most one ending follows, after an ending nothing |
| `ModbusPump.StopCompletesExactly` | src/modbus/ModbusDiscovery.cpp:698-720 | a stop leads to completion exactly when the port scan had not completed before and ends after it, or when the discovery had not begun and begins |
| `ModbusPump.StopStrandsDiscovery` | src/modbus/ModbusDiscovery.cpp:698-712 | a run where it does not: with the port scan complete and an identifier active, a stopped discovery stays running for ever |
| `ModbusDiscoverySessionModel.ModbusDiscoverySession.StartInLoop` | src/modbus/ModbusDiscovery.cpp:609-634 | a start subscribes, or completes when already stopped; the new state is that of the transition system |
| `ModbusDiscoverySessionModel.ModbusDiscoverySession.Enqueue` | src/modbus/ModbusDiscovery.cpp:637-649 | a found port adds a job for each unit id; the new state is that of the transition system |
| `ModbusDiscoverySessionModel.ModbusDiscoverySession.Fill` | src/modbus/ModbusDiscovery.cpp:651-677 | pending jobs start first come first served up to the limit; the new state is that of the transition system |
| `ModbusDiscoverySessionModel.ModbusDiscoverySession.OneFinished` | src/modbus/ModbusDiscovery.cpp:679-691 | a result frees its place, is told unless stopped, and refills; the new state is that of the transition system |
| `ModbusDiscoverySessionModel.ModbusDiscoverySession.OnUpstreamCompleted` | src/modbus/ModbusDiscovery.cpp:693-696 | the end of the port scan completes an idle discovery; the new state is that of the transition system |
| `ModbusDiscoverySessionModel.ModbusDiscoverySession.Stop` | src/modbus/ModbusDiscovery.cpp:698-712 | a stop drops what is pending and cuts off what is active; the new state is that of the transition system |
| `ModbusDiscoverySessionModel.ModbusDiscoverySession.Finish` | src/modbus/ModbusDiscovery.cpp:722-739 | completion comes once and frees the discovery for another run; the new state is that of the transition system |
| `ModbusDiscoverySessionModel.ModbusDiscoverySession.Fail` | src/modbus/ModbusDiscovery.cpp:741-760 | an upstream error ends the discovery, once; the new state is that of the transition system |
| `Identification.ParsingIsExact` | src/modbus/ModbusDiscovery.cpp:318-338 | a list of objects is accepted exactly when it starts with the encoding of that many objects, and the parsed map is theirs, the last of an id winning |
| `Identification.EncodedIsParsed` | src/modbus/ModbusDiscovery.cpp:322-338 | encoded objects are parsed back, whatever stands around them |
| `Identification.LastDecides` | src/modbus/ModbusDiscovery.cpp:334-336 | of the objects with one id the last decides |
| `Identification.IdentificationReadsPages` | src/modbus/ModbusDiscovery.cpp:291-359 | an identifier reports once, exactly the objects of the pages it asked for, and names the device by its objects 0, 1 and 2 |
| `Identification.FallbackReportsExactly` | src/modbus/ModbusDiscovery.cpp:376-402 | an identifier that waits for the register reports a thing exactly when its unit replies under transaction 1 with function 3, or with its exception and a code, which is then the thing's; on anything else it reports none |
| `Identification.FallbackGivesWhatWasFound` | src/modbus/ModbusDiscovery.cpp:291-402 | behind any pages, an answer that is no page leaves the report to the register request, and what the pages held is in it |
| `Identification.CutListGivesWhatWasFound` | src/modbus/ModbusDiscovery.cpp:318-338 | an object list that is cut does the same, with the objects in front of the cut as well |
| `Identification.ExceptionGivesWhatWasFound` | src/modbus/ModbusDiscovery.cpp:300-316 | an exception of the interface transport behind any pages is reported with what they held and its code, without the register request |
| `Identification.CancelIsFinal` | src/modbus/ModbusDiscovery.cpp:268-274 | behind a cancellation nothing is asked or reported, whatever else comes |
| `Identification.AllPagesHeard` | src/modbus/ModbusDiscovery.cpp:339-345 | these are all pages exactly when there are at most 8 and none is continued by its own id |
| `Identification.ExchangesAreBounded` | src/modbus/ModbusDiscovery.cpp:277-374 | in every run at most 8 page requests, under transactions 1 to 8 and changing ids from 0 on, then at most one register request, and at most one report |
| `Identification.ReportsExactlyOnce` | src/modbus/ModbusDiscovery.cpp:291-414 | if it is not cancelled and its exchanges end, it reports exactly once, after at most 9 of them |
| `Identification.CancelSilences` | src/modbus/ModbusDiscovery.cpp:268-274 | a cancelled identifier neither asks nor reports |
| `Identification.ExchangeIsExact` | src/modbus/ModbusDiscovery.cpp:167-196 | an exchange gets a response exactly when the chunks so far were at some point one whole frame |
| `Identification.ReplyIsHeard` | src/modbus/ModbusDiscovery.cpp:167-196 | a reply with a PDU of up to 253 bytes is heard whole, in whatever chunks it arrives |
| `IdentifierModel.TcpExchange.OnData` | src/modbus/ModbusDiscovery.cpp:167-196 | collects bytes until the frame is whole, too long or of a bad length |
| `IdentifierModel.TcpExchange.Finish` | src/modbus/ModbusDiscovery.cpp:198-225 | an exchange ends once |
| `IdentifierModel.Identifier.OnMei` | src/modbus/ModbusDiscovery.cpp:291-359 | a page is read, continued, named and reported, or the fallback is asked for |
| `IdentifierModel.Identifier.ReadObjects` | src/modbus/ModbusDiscovery.cpp:318-338 | the object loop never leaves the reply and keeps what precedes a cut |
| `IdentifierModel.Identifier.OnFallback` | src/modbus/ModbusDiscovery.cpp:376-402 | the register reply decides whether there is a device |
| `IdentifierModel.Identifier.Complete` | src/modbus/ModbusDiscovery.cpp:404-413 | the callback is called once |
| `DiscoveryRun.OneThingEachAndOneEnd` | src/sunspec/SunspecDiscovery.cpp:225-257 | in every run at most one thing for each endpoint and one ending behind them |
| `DiscoveryRun.CompletionMeansDone` | src/sunspec/SunspecDiscovery.cpp:293-317 | a completed discovery has seen the end of the Modbus discovery, if it listened to it, and of every scan, and has no session open |
| `DiscoveryRun.EverythingEndedEnds` | src/sunspec/SunspecDiscovery.cpp:248-304 | when the Modbus discovery and every scan have ended, so has the discovery |
| `DiscoveryRun.StoppedKeepsNoSession` | src/sunspec/SunspecDiscovery.cpp:264-291 | a stopped or ended discovery, and a completed endpoint, keep no session open |
| `DiscoveryRun.SessionsAreCounted` | src/sunspec/SunspecDiscovery.cpp:133-150 | while discovery and scan are at work an endpoint's open sessions start at one, grow by each that is made and fall by each that closes, and nothing else changes them |
| `DiscoveryRun.QuietAfterStop` | src/sunspec/SunspecDiscovery.cpp:225-331 | after a stop or an ending no thing follows, and at most one ending |
| `DiscoveryRun.StopEndsExactly` | src/sunspec/SunspecDiscovery.cpp:248-331 | a stop ends a running discovery, at once or later, exactly when the Modbus discovery fails afterwards, or it has completed or does afterwards and every scan not complete by then completes as it is cancelled or ends afterwards |
| `DiscoveryRun.ErrsExactly` | src/sunspec/SunspecDiscovery.cpp:152-331 | a run errs exactly when the Modbus discovery fails while it is listened to, or, while the run is not over, an endpoint cannot be opened or a scan errs |
| `DiscoveryRun.TellsExactlyTheFirstThings` | src/sunspec/SunspecDiscovery.cpp:152-317 | a run that is not stopped and does not err has told exactly the first thing of each endpoint that has found one, in order, and then its completion |
| `DiscoveryRun.ThingsAreFirstFindings` | src/sunspec/SunspecDiscovery.cpp:152-235 | these are the endpoints opened while the discovery listens for which something is found behind that |
| `DiscoveryStack.EndsExactly` | src/sunspec/SunspecDiscovery.cpp:237-317 | over both discoveries and the scans, in every run: a listening discovery that has not erred is over exactly when the Modbus discovery has completed and every scan has ended |
| `DiscoveryStack.StopEndsExactly` | src/sunspec/SunspecDiscovery.cpp:272-317 | a stop of a listening discovery ends it, at once or later, exactly when the Modbus discovery fails, or it completes and every scan still to start has its turn |
| `DiscoveryStack.StopEndsBothExactly` | src/sunspec/SunspecDiscovery.cpp:283-291 | passed on to a Modbus discovery at work, a stop ends the discovery exactly when the port scan had not completed before it arrives there and ends afterwards and, unless that fails, every scan still to start has its turn |
| `DiscoveryStack.StrandedPumpStrandsDiscovery` | src/modbus/ModbusDiscovery.cpp:698-720 | a run in which it does not: behind the end of the port scan, with an identifier at work, a stop ends neither discovery |
| `DiscoveryStack.FailedScanFailsNoDiscovery` | src/sunspec/SunspecDiscovery.cpp:133-246 | in no run does a failed scan fail the discovery: it errs exactly when the Modbus discovery it listens to does, or an endpoint cannot be opened for a device |
| `DiscoveryStack.PassedOnIsSound` | src/sunspec/SunspecDiscovery.cpp:152-235 | in every run a thing passed on is one its scan has emitted, has the endpoint and unit of its Modbus device, and rests on registers that are a common model, well-formed models and the end model |
| `DiscoveryStack.NothingIsLost` | src/sunspec/SunspecDiscovery.cpp:225-235 | until it is stopped or errs, the discovery has passed on the thing of exactly the scans that have emitted one |
| `StackDevices.ScansAreOfThoseIdentified` | src/sunspec/SunspecDiscovery.cpp:152-223 | in every run the scans are those of the devices the Modbus discovery has identified, in that order, each with its job's address, port and unit id; until a stop or an error they are all of them |
| `StackDevices.SessionsOfScanAreCounted` | src/sunspec/SunspecDiscovery.cpp:133-223 | a scan that starts over a closed session has one more made for it, one over an open session none; a lost session is no longer counted |
| `StackDevices.ScansStayWithinLimits` | src/sunspec/SunspecDiscovery.cpp:152-223 | in every run each read of a walk goes to its device's unit and stays in the allowed span, and what is passed on has at most maxModels locations |
| `SunspecDiscoveryRunModel.SunspecDiscoveryRun.StartInLoop` | src/sunspec/SunspecDiscovery.cpp:91-131 | a start subscribes, or completes when already stopped; the new state is that of the transition system |
| `SunspecDiscoveryRunModel.SunspecDiscoveryRun.OpenEndpoint` | src/sunspec/SunspecDiscovery.cpp:152-223 | a device found opens an endpoint with a session, unless stopped, or fails the discovery when it cannot; the new state is that of the transition system |
| `SunspecDiscoveryRunModel.SunspecDiscoveryRun.CreateSession` | src/sunspec/SunspecDiscovery.cpp:133-150 | a replacement session is made unless stopped; the new state is that of the transition system |
| `SunspecDiscoveryRunModel.SunspecDiscoveryRun.OnCandidate` | src/sunspec/SunspecDiscovery.cpp:225-235 | the first thing of an endpoint is passed on; the new state is that of the transition system |
| `SunspecDiscoveryRunModel.SunspecDiscoveryRun.OnScannerFailed` | src/sunspec/SunspecDiscovery.cpp:237-246 | a failed scan fails the discovery, or counts as complete when it is over; the new state is that of the transition system |
| `SunspecDiscoveryRunModel.SunspecDiscoveryRun.ScannerCompleted` | src/sunspec/SunspecDiscovery.cpp:248-257 | a completed scan closes its sessions and may complete the discovery; the new state is that of the transition system |
| `SunspecDiscoveryRunModel.SunspecDiscoveryRun.OnUpstreamCompleted` | src/sunspec/SunspecDiscovery.cpp:259-262 | the end of the Modbus discovery may complete the discovery; the new state is that of the transition system |
| `SunspecDiscoveryRunModel.SunspecDiscoveryRun.CancelAndCloseEndpoints` | src/sunspec/SunspecDiscovery.cpp:272-281 | scans are cancelled in order, some completing meanwhile, and all sessions closed; the new state is that of the transition system |
| `SunspecDiscoveryRunModel.SunspecDiscoveryRun.StopInLoop` | src/sunspec/SunspecDiscovery.cpp:283-291 | a stop cancels and closes everything; the new state is that of the transition system |
| `SunspecDiscoveryRunModel.SunspecDiscoveryRun.MaybeComplete` | src/sunspec/SunspecDiscovery.cpp:293-304 | completes exactly when the Modbus discovery and all scans have; the new state is that of the transition system |
| `SunspecDiscoveryRunModel.SunspecDiscoveryRun.Complete` | src/sunspec/SunspecDiscovery.cpp:306-317 | completion comes once, with all sessions closed; the new state is that of the transition system |
| `SunspecDiscoveryRunModel.SunspecDiscoveryRun.Fail` | src/sunspec/SunspecDiscovery.cpp:319-331 | an error ends the discovery once, with all scans cancelled; the new state is that of the transition system |
| `TimerSpec.NextTickIsNextMultiple` | src/common/Timer.cpp:224-236 | the computed tick is the least multiple of the interval strictly after the time exactly when the time is not before the epoch, or its second is a multiple |
| `TimerSpec.LateBeforeEpoch` | src/common/Timer.cpp:224-236 | an instant before the epoch whose computed tick is one interval late |
| `TimerSpec.TimesOfTick` | src/common/Timer.cpp:224-236 | a multiple of the interval is the tick of exactly the times in the interval in front of it, or, before the epoch, in the one in front of that |
| `TimerSpec.LaterTimeLaterTick` | src/common/Timer.cpp:224-236 | later times have no earlier ticks, and another tick exactly when they are none the earlier tick is set for; from the epoch on, exactly when the earlier tick has been reached |
| `TimerSpec.SchedulesAreShared` | src/common/Timer.cpp:113-143 | in every run, whatever the clock reads, the intervals with a scheduler are those configured, and each has exactly one timeout pending |
| `TimerSpec.ReplacedIsSilent` | src/common/Timer.cpp:59-66 | a replaced scheduler never ticks again, not even when its interval comes back |
| `TimerSpec.TickReachesItsChannels` | src/common/Timer.cpp:59-66 | whatever the clock reads, when a timeout fires, exactly the channels configured for its interval get its tick: at least one if its scheduler is current, none if it is not |
| `TimerSpec.TicksAlignedExactly` | src/common/Timer.cpp:39-66 | in every run, whatever the clock reads, each tick is the least multiple of its interval strictly after the instant its timeout was set, exactly if that instant is not before the epoch, or on a multiple |
| `TimerSpec.TicksDoNotGoBack` | src/common/Timer.cpp:39-66 | if no timeout of a current scheduler fires at an earlier reading of the clock than it was set at, no scheduler's ticks go back |
| `TimerSpec.NextTickIsTheSameExactly` | src/common/Timer.cpp:39-66 | whatever the clock reads, when a timeout of a current scheduler fires, the scheduler's next tick is the one just given exactly when the time is one that tick is set for |
| `TimerSpec.EarlyTimeoutRepeatsTick` | src/common/Timer.cpp:39-66 | if the timeout was set at the epoch or behind it and the clock has not been set back since, that is when the timeout is early |
| `TimerSpec.TickGivenTwice` | src/common/Timer.cpp:39-66 | a run with a timeout less than a millisecond early in which a tick is given twice |
| `TimerSpec.EndIsFinal` | src/common/Timer.cpp:168-189 | a stopped or failed timer neither ticks nor ends again |
| `TimerSpec.FirstEndingDecides` | src/common/Timer.cpp:113-189 | a timer ends with the first of an interval that is not positive, a failure and a stop: with an error for the first two, by stopping for the third, and not without them |
| `TimerModel.Timer.SetIntervalInLoop` | src/common/Timer.cpp:113-139 | an interval is validated, configured, its predecessor's scheduler dropped if unused and a missing one made |
| `TimerModel.Timer.OnTimeout` | src/common/Timer.cpp:59-66 | a timeout ticks and sets the next one if its scheduler is still current |
| `TimerModel.Timer.EmitTicks` | src/common/Timer.cpp:153-160 | each channel configured for the interval gets the tick |
| `TimerModel.Timer.FailInLoop` | src/common/Timer.cpp:168-176 | an error ends the timer once |
| `TimerModel.Timer.Stop` | src/common/Timer.cpp:178-189 | a stop ends the timer once |
| `MdnsCache.ReplayIsSilent` | src/mdns/MdnsDiscovery.cpp:259-363 | processing a datagram again emits nothing and changes nothing |
| `MdnsCache.DatagramAgrees` | src/mdns/MdnsDiscovery.cpp:349-363 | after each datagram that emits, every service with PTR and SRV has been emitted as it is now, addresses included |
| `MdnsCache.ConsecutiveEmissionsDiffer` | src/mdns/MdnsDiscovery.cpp:356-361 | in every run consecutive emissions of a service differ |
| `MdnsCache.LastRecordsDecide` | src/mdns/MdnsDiscovery.cpp:276-322 | after any records each field of a service is what the last record that sets it says |
| `MdnsEmissions.EmittedExactly` | src/mdns/MdnsDiscovery.cpp:276-363 | after any datagrams, the last of which emits, a service has been emitted exactly when a PTR record names it and an SRV record is owned by it, up to case |
| `MdnsEmissions.EmittedIsTold` | src/mdns/MdnsDiscovery.cpp:259-363 | its type is the last such PTR record's, host, port, priority and weight the last SRV record's, text the last TXT record's, name and time to live the last of all three, and its addresses are ascending and exactly those announced for the host |
| `MdnsEmissions.PacketIsHandled` | src/mdns/MdnsDiscovery.cpp:177-257 | a datagram's records are handled up to where it is cut, and it emits exactly when it can be read up to its additional records |
| `MdnsCache.AddressesAreThoseAnnounced` | src/mdns/MdnsDiscovery.cpp:60-73 | a host's addresses are ascending, without duplicates, and exactly those announced |
| `MdnsCache.AddressesStayAscending` | src/mdns/MdnsDiscovery.cpp:60-73 | in every run every host's addresses stay sorted and free of duplicates |
| `MdnsDiscoveryModel.MdnsDiscovery.HandleRecord` | src/mdns/MdnsDiscovery.cpp:276-346 | each kind of record fills in its fields |
| `MdnsDiscoveryModel.MdnsDiscovery.AddAddress` | src/mdns/MdnsDiscovery.cpp:60-73 | a new address is added and the list sorted |
| `MdnsDiscoveryModel.MdnsDiscovery.EmitChanges` | src/mdns/MdnsDiscovery.cpp:349-363 | every complete service is refreshed, and emitted if it has changed |
| `MdnsDiscoveryModel.MdnsDiscovery.OnDatagram` | src/mdns/MdnsDiscovery.cpp:177-257 | the records are handled in order as far as they parse; a datagram cut in its questions, answers or authorities emits nothing, one cut in its additional records emits all the same |
| `ShellyMerge.OrderDoesNotMatter` | src/shelly/ShellyThingFactory.cpp:85-100 | the same candidates, in any order and number, give the same devices created, addresses and times to live |
| `ShellyMerge.AfterDescribes` | src/shelly/ShellyThingFactory.cpp:38-73 | a merged service has the ascending union of the addresses, the longest time to live, and a host and port exactly if some candidate has; a device is created exactly if it can be connected to |
| `ShellyMerge.CreatedExactly` | src/shelly/ShellyThingFactory.cpp:78-100 | a device is created exactly when some candidate of it has a port, and some a host name or an address |
| `ShellyMerge.AboutExactly` | src/shelly/ShellyThingFactory.cpp:85-119 | a candidate is of a device exactly when its nonempty id entry, or without one its name up to the first dot, is the device's up to case, and its type is the Shelly type, or the web type with an id or host name that starts with "shelly" |
| `ShellyMerge.LastCandidateDecides` | src/shelly/ShellyThingFactory.cpp:49-73 | host, port with priority and weight, and each text entry are those of the last candidate that has them; type and name those of the first candidate of the Shelly type, or else of the first |
| `ShellyMerge.EachCreatedOnce` | src/shelly/ShellyThingFactory.cpp:94-99 | each device is created at most once, and only when it can be connected to |
| `ShellyMerge.ConnectableStays` | src/shelly/ShellyThingFactory.cpp:78-81 | a service that can be connected to can still be after any merge |
| `Names.AscendingIsDetermined` | src/shelly/ShellyThingFactory.cpp:38-47 | a sorted list without duplicates is determined by what it contains |
| `Names.LowerIgnoresCase` | src/shelly/ShellyThingFactory.cpp:15-25 | lowering leaves no capitals, and makes two names equal exactly when they differ in case only |
| `Names.MergeAddresses` | src/shelly/ShellyThingFactory.cpp:38-47 | the loop appends what is new and sorts |
| `ShellyThingFactoryModel.ShellyThingFactory.TryCreate` | src/shelly/ShellyThingFactory.cpp:85-100 | a candidate is merged under its key, and the device created the first time it can be connected to |
| `ShellyThingFactoryModel.ShellyThingFactory.MergeService` | src/shelly/ShellyThingFactory.cpp:49-73 | the merge, field by field |

## Left out

- OnData: requires a channel that has been connected, because the transport delivers bytes only over one; bytes in front of the first connection are not modelled.
- OnConnection: requires an attempt that is under way for a connection that is reported as up, because the transport reports one only then; a second report of the same connection is not modelled.
- Success callbacks of a session are posted to the loop and failure callbacks run at once; the models order resolutions, when a request leaves the session, not callbacks.
- Failure callbacks of a session may close it; other calls they may make arrive as later events.
- Reads outside 1 to 125 registers are refused by the session before they become requests and are not modelled.
- Exceptions are modelled as failures without their texts, timeouts without durations, and clocks as parameters.
- Sockets, channels, the event loop, `shared_ptr` lifetimes and reactive subjects are foreign code; connectors, sessions of an endpoint and schedulers are known by number.
- The order of services emitted after one datagram is that of their keys; the model keeps each datagram's emissions as a map.
- OrderDoesNotMatter: covers the devices created, addresses and times to live; host, port and text do depend on the order, as `ShellyMerge.LastCandidateDecides` says.
- Products of address and port counts are unbounded here; the code computes them in `size_t`.
- Parsing of mDNS packets, `mdns_records_parse` and its helpers, is a library that is not part of this model; records arrive parsed.
- Building mDNS queries and normalizing service types.
- SunSpec model values (`src/sunspec/SunspecModelParser.cpp`), whose results rest on floating-point rounding.
- Reading single registers outside a session (`readHoldingRegisters` in `src/modbus/ModbusDiscovery.cpp`), which repeats the session's checks of one reply.
- The fixed bytes of an identification's two requests; the model keeps what varies in them, transaction, object id and which request it is.
- Configuration, persistence, subnets, the thing model, the web application and the command line.
