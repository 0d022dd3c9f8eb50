# Eleven Rack audio and rig tools: verified model

A Dafny model of the parts of the Eleven Rack driver and tools that carry state from one event to the next,
with proofs about every run of them. `dafny verify dfyconfig.toml` checks the whole project.

What is modelled, from the wire inwards:

- **The audio ring** (`RingPlan`, `RingProtocol`, `AudioRing`). Two wrapping 64-bit counters, 32-bit truncated
  differences, copies split at the end of the buffer, a reader that skips stale frames. `RingProtocol` is the
  interleaving of one producer and one consumer, one counter load, frame copy or counter store at a time;
  `AudioRing` is the code over real arrays.
- **The streaming engine** (`StreamEngine`, `CaptureParser`, `EngineCapture`, `CaptureSink`, `CapturePath`,
  `Playback`). The rate-change drain, the parser that joins packets into frames, what of a run reaches it, the ring
  writes it makes, and the accordion that sizes playback packets. `CapturePath` runs from USB bytes to what a reader
  of the ring receives.
- **USB-MIDI** (`UsbMidi`, `SysexTransfer`). The encoder into four-byte events, its decoder, the SysEx packer and
  the reader that collects one message from bounded reads. The event layout is that of section 4 of the USB
  Device Class Definition for MIDI Devices, Release 1.0.
- **The rig dump and its export** (`SeptetPacking`, `RigDump`, `Csv`, `RigExport`). Seven-bit unpacking, the walk
  over length-prefixed sections, and the settings table, read back under section 2 of RFC 4180 with a line feed as
  record end. The packer and the dump writer, which the tools do not have, are written from the documented formats
  (`Docs/EditorProtocolNotes.md:95-106`, `Docs/RigDataModel.md:28-36`).
- **The driver transport** (`DeviceTransport`). Start, stop, completions, watchdog, clock selection and following
  an external rate, as events on one work queue.
- **The inventory** (`Inventory`, `InventoryTool`). The paced capture of all 208 rigs, across interrupted and
  resumed runs.

Code that changes state is a class or a method over arrays, proved equal to a function of the old state; the
lemmas are about those functions. Kernel, device, clock and file-system results are parameters.

## Where the code and its promises part

- **A ring read** returns the documented amount, the smaller of request and backlog, exactly when the 32-bit sum of
  request and target backlog does not wrap or the backlog is within the wrapped sum (`ReadFillsRequest`; it fails at
  `HugeRequestComesUpShort`).
- **The meter window** is the documented one exactly while the raw counter has not just wrapped
  (`PeekWindowIsDocumented`; it fails at `WrappedCounterShrinksWindow`).
- **The MIDI encoder** is undone by the decoder exactly for streams made of whole messages (`RoundTripIffFramed`).
- **A stopped engine** schedules nothing more and runs down (`StoppedRunsDown`), unless a drain was going on or is
  begun: the completion that ends it arms both pools again, stopped or not (`DrainEndIsFresh`).
- **The section walk** needs twelve bytes to go on, so it misses a trailing empty section and only that
  (`WalkRecoversIff`).
- **`StartIO` while already streaming** can release the buffers under a running transport; it keeps the driver's
  invariant for all kernel answers exactly when nothing is streaming (`StartIOIsSafeIff`; it fails at
  `StartIOWhileStreamingFails`). A successful transport start may leave nothing streaming (`StartedStreamsIff`).
- **The inventory's pace**: the repository's `README.md:117-118` promises a hard minimum of fifteen seconds between
  program changes. It holds within a run. Across runs a run started at a given time keeps it, whatever happens, exactly
  when no earlier run changed the program, fifteen seconds have passed since the last change, or nothing is left to
  capture (`StaysPacedIff`; it fails at `RestartBreaksPacing`).
- **Restoring the original program** (the repository's `README.md:119-120`): a run restores exactly when a program is
  known, something was selected, everything selected was captured and the last wait was granted (`Tool.Run`), which
  without a failed sleep means that the inventory is complete (`RestoreEndsTheRun`). From an empty directory the next
  run's restore goes to program p, whatever is selected by then, exactly when some run got as far as recording p and p
  is one of the 208, or nothing is left to capture (`NextRestoresIff`; it fails at `CutOffRunLosesTheOriginal`).

## Model

| member | source | states |
|---|---|---|
| `RingPlan.PlanIsExact` | Tools/ERAudioRing.h:187-189 | room and backlog computed from wrapped counters with a 32-bit cast are those of the unbounded counts |
| `RingPlan.SplitSlotIsConsecutive` | Tools/ERAudioRing.h:199-220 | a copy split where the buffer ends touches the slots of consecutive unbounded positions |
| `RingPlan.ReadBoundsBacklog` | Tools/ERAudioRing.h:259-270 | every read leaves at most 2048 frames and never takes more than asked or than there is |
| `RingPlan.ReadFillsRequest` | Tools/ERAudioRing.h:259-270 | a read delivers the smaller of request and backlog if and only if the 32-bit threshold does not cut it short |
| `RingPlan.HugeRequestComesUpShort` | Tools/ERAudioRing.h:259-270 | the failing input: a request of 0xFFFFFFFF frames with 3000 queued skips 953 and delivers 2047 |
| `RingProtocol.StepKeepsInv` | Tools/ERAudioRing.h:227-270 | every single load, frame copy and store of either side keeps the ring invariant |
| `RingProtocol.FifoWithSkips` | Tools/ERAudioRing.h:227-309 | in every interleaving, accepted frames are in order those delivered or skipped and then those still in memory; writes take the longest prefix that fits, skips leave exactly the target |
| `RingProtocol.CopiesNeverOverlap` | Tools/ERAudioRing.h:187-270 | in every interleaving a slot being copied in is never one being copied out |
| `AudioRing.StoreKeepsRecent` | Tools/ERAudioRing.h:199-206 | a store keeps one whole capacity of history behind the write index |
| `AudioRing.FetchDelivers` | Tools/ERAudioRing.h:213-220 | fetching frames less than a capacity old returns them as they were accepted, across the wrap |
| `AudioRing.Ring.Write` | Tools/ERAudioRing.h:227-236 | accepts exactly the frames that fit, appended in order, whatever the counters wrapped to |
| `AudioRing.Ring.Read` | Tools/ERAudioRing.h:259-270 | skips only the oldest frames, copies the next ones to the caller and leaves at most 2048; the rest of the caller's buffer is untouched |
| `AudioRing.PeakIsMaximum` | Tools/ERAudioRing.h:345-356 | the peak bounds every magnitude in the window and is attained |
| `AudioRing.PeekWindowIsDocumented` | Tools/ERAudioRing.h:340-345 | the scanned window is min(lookback, written, capacity) if and only if the raw counter shows enough frames |
| `AudioRing.WrappedCounterShrinksWindow` | Tools/ERAudioRing.h:340-345 | the failing input: ten frames after the wrap a lookback of 2048 scans ten |
| `AudioRing.Ring.PeekLevels` | Tools/ERAudioRing.h:339-356 | each channel's level is its peak over the last frames accepted, whatever was read or skipped |
| `StreamEngine.NextKeepsInv` | Tools/erengine.c:399-449 | after every callback the in-flight count is the number of requests held, none armed twice, playback requests sized for the current rate, schedules gap-free |
| `StreamEngine.EveryRunKeepsInv` | Tools/erengine.c:399-621 | all of this holds in every state of every run of the program |
| `StreamEngine.DrainStep` | Tools/erengine.c:399-433 | a completion while draining counts down by one; only the one that reaches zero restarts, at the pending rate |
| `StreamEngine.DrainLastsItsCount` | Tools/erengine.c:399-433 | a drain goes on while fewer completions have come than were in flight, whatever else happens |
| `StreamEngine.DrainEndsAtItsCount` | Tools/erengine.c:595-606 | with exactly that many completions it has restarted once at the pending rate |
| `StreamEngine.DrainStartsPositive` | Tools/erengine.c:615-621 | an engine that has not stopped never begins a drain with nothing in flight |
| `StreamEngine.RestartsAreDue` | Tools/erengine.c:595-621 | with a steady requested rate, restarts made plus restarts due stay constant: at most two, none repeated |
| `StreamEngine.DrainFinishes` | Tools/erengine.c:399-433 | enough completions end any drain |
| `StreamEngine.SteadyRateIsReached` | Tools/erengine.c:595-621 | a steady supported rate is reached and kept, in at most two restarts |
| `StreamEngine.StoppedRunsDown` | Tools/erengine.c:399-433 | a stopped engine whose rate is left alone schedules nothing more, arms nothing and has one request fewer in flight with every completion |
| `StreamEngine.StartedIsFresh` | Tools/erengine.c:399-519 | the program starts with exactly the requests of both pools that the pipes take, in two-frame windows from 25 frames ahead, and live unless a capture was refused |
| `StreamEngine.DrainEndIsFresh` | Tools/erengine.c:595-606 | so does every restart, even of an engine that was stopped meanwhile |
| `StreamEngine.StreamingEngine.InDone` | Tools/erengine.c:399-413 | the capture callback makes exactly the modelled transition and keeps the invariant |
| `StreamEngine.StreamingEngine.OutDone` | Tools/erengine.c:428-433 | the playback callback does the same |
| `StreamEngine.StreamingEngine.Reconfigure` | Tools/erengine.c:595-606 | with nothing in flight, applies the pending rate and arms both pools |
| `StreamEngine.StreamingEngine.RateFollow` | Tools/erengine.c:615-621 | a poll starts a drain exactly for a different supported rate while none is draining |
| `CaptureParser.NoFrameSpansARestart` | Tools/erengine.c:595-605 | every frame ever emitted lies in one session between restarts |
| `CaptureParser.PayloadAt` | Tools/erengine.c:399-411 | byte i of packet f is byte i of its fixed slot, and comes behind the bytes of all non-empty packets before it |
| `CaptureParser.Parser.FeedBytes` | Tools/erengine.c:366-380 | after any packets the frames emitted are the 32-byte units of the joined bytes, however they were cut; the ring takes exactly the first of the new frames, up to its room |
| `CaptureParser.Parser.ParseRequest` | Tools/erengine.c:399-411 | a completion feeds every non-empty slot from its fixed stride, in order, and the ring takes exactly the first of the new frames, up to its room |
| `CaptureParser.Parser.Restart` | Tools/erengine.c:600 | clearing carry and phase begins a new session; unfinished words are dropped |
| `CaptureSink.Sink.EmitSuperframe` | Tools/erengine.c:327-333 | a frame becomes eight samples in one ring write and is dropped whole exactly when the ring is full |
| `CaptureSink.PublishedAt` | Tools/erengine.c:327-333 | frame i of the ring is the i-th frame kept, channel by channel |
| `CaptureSink.NothingDroppedIff` | Tools/erengine.c:327-333 | over any run of feeding and reading, nothing is lost if and only if every stretch of new frames fitted the room it found |
| `CapturePath.KeptFrameIsUnit` | Tools/erengine.c:366-380 | every frame in the ring is one whole unit of one session, whatever was dropped |
| `CapturePath.NothingLost` | Tools/erengine.c:327-380 | of a parser whose feed dropped nothing, channel c of ring frame i is the little-endian word at byte 32i + 4c, for all frames fed |
| `CapturePath.PlayedAgain` | Tools/erengine.c:327-333 | a captured word is its sample times 2^31, and played again it comes out one step nearer to zero |
| `CapturePath.ReadCapture` | Tools/ERAudioRing.h:259-270 | a read of the ring delivers as many frames as the backlog allows, and frame i is the unit of the USB stream whose number was kept at that place |
| `EngineCapture.NothingFedWhileDraining` | Tools/erengine.c:399-411 | completions during a drain feed nothing, whatever they hold |
| `EngineCapture.OneSessionPerRestart` | Tools/erengine.c:595-605 | over every stretch the parser begins one new session per restart of the streams, and keeps those before |
| `EngineCapture.PayloadsAreConserved` | Tools/erengine.c:399-411 | over every stretch the sessions joined grow by exactly the payloads of the good completions outside drains, in order, and a restart leaves the new session empty |
| `EngineCapture.CaptureEngine.InDone` | Tools/erengine.c:399-413 | a capture completion feeds its payload, restarts the parser, or leaves it alone, as the engine's state says |
| `Playback.TotalIsWholePart` | Tools/erengine.c:462-467 | after any microframes at any rates the frames sent are the floor of the summed rate / 8000 |
| `Playback.WindowNearIdeal` | Tools/erengine.c:462-467 | any window at one rate is within one frame of ideal, whatever came before |
| `Playback.ClampNeverFires` | Tools/erengine.c:465-467 | the 12-frame clamp never changes a size if and only if the rate is at most 96 kHz |
| `Playback.SizesFit` | Tools/erengine.c:462-467 | at rates up to 96 kHz, changing from packet to packet, no packet exceeds 12 frames |
| `Playback.DriverOffsetsFit` | ElevenRackDriverExtension/ElevenRackDevice.cpp:478-504 | every packet offset of a driver request, sixteen packets of 24-byte frames laid end to end, stays inside its 16 * 416 bytes |
| `Playback.RequestPlaysNext` | Tools/erengine.c:462-519 | only the first packet of a request can skip; from there the request plays the accepted frames without a gap, each packet full until the stream runs out |
| `Playback.RequestSounds` | Tools/erengine.c:462-519 | the word of channel c of frame i of packet f, at the sum of the earlier sizes, is 2^31 - 1 times the accepted sample due there, limited to [-1, 1] and cut toward zero; 0 once the stream has run out |
| `Playback.Player.ArmOut` | Tools/erengine.c:462-519 | sixteen packets sized by the accordion, byte counts, ring position and every word of the buffer: the accepted samples in order, at full scale, then silence |
| `UsbMidi.RoundTripIffFramed` | Tools/ermidi_bridge.c:58-73 | decoding the encoder's events returns the bytes if and only if they are whole messages |
| `UsbMidi.MessagesRoundTrip` | Tools/ermidi_bridge.c:58-73 | every list of complete messages, by the lengths MIDI defines, is decoded back as it was sent: channel messages, system messages and SysEx of any length |
| `UsbMidi.ShortIsOneEvent` | Tools/ermidi_bridge.c:58-73 | a complete short message is four bytes on the wire: cable and code index, the message, zeros |
| `UsbMidi.SysexRoundTrip` | Tools/ermidi_bridge.c:64-69 | SysEx of any length, ended or cut off, is carried exactly |
| `UsbMidi.AllRoundTrip` | Tools/ermidi_bridge.c:74-76 | a packet list of whole messages round trips packet by packet |
| `UsbMidi.TransferIsPrefix` | Tools/ermidi_bridge.c:59-76 | a full 512-byte buffer yields a prefix of the input, and all of it if and only if it fits |
| `UsbMidi.CablesSeparate` | Tools/ermidi_bridge.c:74-84 | from writes of both cables in any order each cable's stream is recovered |
| `UsbMidi.ParseBytes` | Tools/ermidi_bridge.c:84 | reading a transfer's bytes four at a time gives back its events |
| `UsbMidi.TransferBuffer.EncodeMidi` | Tools/ermidi_bridge.c:64-73 | the two nested loops append exactly the events of the encoding, as far as the buffer goes |
| `UsbMidi.Reader.Receive` | Tools/ermidi_bridge.c:80-84 | each source's stream grows by what its cable's events carry |
| `SysexTransfer.GroupsRoundTripIff` | Tools/ermidi_test.c:20-33 | packing loses nothing if and only if the last group is full or ends the message |
| `SysexTransfer.EncodersAgree` | Tools/ermidi_bridge.c:64-69 | the stream encoder and the packer cut every SysEx message into the same events |
| `SysexTransfer.EncodeSysex` | Tools/ermidi_test.c:20-33 | the buffer holds the packed events, or the result is 0 exactly when they do not fit |
| `SysexTransfer.ListenFindsMessage` | Tools/errig_read.c:255-271 | a message is picked out of whatever precedes and follows it |
| `SysexTransfer.ListenReturnsSysex` | Tools/errig_read.c:255-271 | nothing but one message within capacity is ever returned |
| `SysexTransfer.ListenFindsNoMessage` | Tools/errig_read.c:255-271 | while no end byte fits, listening goes on, and the first byte beyond the capacity ends it without a message |
| `SysexTransfer.AllHeard` | Tools/errig_read.c:235-254 | reads with bytes, whatever their status, and successful empty reads are heard whole and in order |
| `SysexTransfer.EmptyFailureEnds` | Tools/errig_read.c:240-249 | the first unsuccessful empty read ends listening |
| `SysexTransfer.ReadSysex` | Tools/errig_read.c:226-281 | the nested loops over at most 4096 reads, their events and bytes return what listening to the rig cable's stream finds |
| `SysexTransfer.PackedMessageIsRead` | Tools/errig_read.c:226-281 | a packed message is returned whole however its events are cut into reads and whatever other cables or earlier bytes surround it |
| `SysexTransfer.ReadBackIffSysex` | Tools/errig_read.c:226-281 | bytes packed and read back are themselves if and only if they are one message that fits |
| `SeptetPacking.UnpackRegroups` | Tools/errig_read.c:325-342 | unpacking regroups the septets' bit stream into bytes, floor(7n/8) of them |
| `SeptetPacking.UnpackUndoesPack` | Docs/EditorProtocolNotes.md:95-106 | unpacking undoes most-significant-first packing for every byte string |
| `SeptetPacking.PackUndoesUnpackIff` | Tools/errig_read.c:325-342 | packing what was unpacked returns the septets if and only if none is left over and the spare bits are zero |
| `SeptetPacking.Unpack7Bit` | Tools/errig_read.c:325-342 | the loops over groups and phases write exactly that, cut at the buffer's capacity |
| `RigDump.SettingStored` | Tools/errig_read.c:403-442 | a setting reads as s if and only if the reversed key and little-endian signed value of s are stored there |
| `RigDump.SectionStoredIff` | Tools/errig_read.c:420-433 | a section parses as s if and only if the layout of s is stored there, in bounds |
| `RigDump.WalkReadsStored` | Tools/errig_read.c:1240-1246 | for all bytes, the walk returns sections stored end to end in bounds, and stops only where none can be read |
| `RigDump.WalkRecoversIff` | Tools/errig_read.c:1240-1246 | the walk returns the stored sections if and only if there are none or the last has a setting |
| `RigDump.NameRoundTripIff` | Tools/er_inventory_export.c:56-72 | a stored name reads back if and only if it is printable |
| `RigDump.NameIsLongest` | Tools/er_inventory_export.c:56-72 | of any dump the name is the longest printable start of its 28 name bytes, each word read backwards |
| `RigDump.ExtractName` | Tools/er_inventory_export.c:56-72 | the nested loops return the name up to its first unprintable byte |
| `RigDump.FirstValue` | Tools/errig_read.c:444-455 | a key's value is that of the first setting with it, and there is none if and only if no setting has it |
| `RigDump.FindSetting` | Tools/errig_read.c:444-455 | the search returns that value, else leaves the caller's value alone |
| `RigExport.RowCount` | Tools/er_inventory_export.c:123-170 | one row per table-of-contents setting, with every column of it, and one per setting of sections C to L |
| `RigExport.RowOfSetting` | Tools/er_inventory_export.c:142-170 | each slot setting has its own row, in order, and each of its columns is what the dump says |
| `RigExport.SettingInTable` | Tools/er_inventory_export.c:74-216 | every slot setting of every saved rig is found on its own line when the exported table is read back, each text under its column's name |
| `RigExport.LastValueIsLast` | Tools/er_inventory_export.c:123-131 | a slot's effect and category are those of its last entry in the table of contents |
| `RigExport.DecodeUndoesEncodeIff` | Tools/er_inventory_export.c:108-172 | a rig's dump message decodes to that rig if and only if its name is printable, its table has the right letter and no empty section ends it |
| `RigExport.OnlyRigMessagesDecode` | Tools/er_inventory_export.c:108-122 | whatever decodes has the family's header, the edit-buffer function bytes, the end byte and table letter A |
| `RigExport.RigArrives` | Tools/errig_read.c:226-281 | a rig sent as events over USB decodes to itself, however the reads cut them |
| `RigExport.ExportRig` | Tools/er_inventory_export.c:108-172 | appends the rig's rows, its buffer never too small, or returns 0 and appends nothing when the message is not a rig dump |
| `RigExport.ExportInventory` | Tools/er_inventory_export.c:174-222 | the file is the header and every rig's rows in order; exported and missing add up to 208; status 1 if and only if the file cannot be opened or closed, else 0 if and only if all were exported |
| `RigExport.LabelsAreDistinct` | Tools/er_inventory_export.c:20-24 | no two rigs of a bank share a program label |
| `RigExport.PlaceIs` | Tools/er_inventory_export.c:194-199 | the first 104 rigs are the factory's, the other 104 the user's, by label |
| `RigExport.InventoryReadsBack` | Tools/er_inventory_export.c:190-216 | the whole table reads back as the column names and then every row's fields |
| `Csv.TableReadsBack` | Tools/er_inventory_export.c:9-18 | any records, with quotes, commas and line breaks in them, read back as written |
| `Csv.TableSplitsUniquely` | Tools/er_inventory_export.c:74-106 | a text splits into records in one way only |
| `Csv.RowsReadBack` | Tools/er_inventory_export.c:74-106 | every sequence of rows reads back as its seventeen fields each |
| `Csv.ValueColumnsReadBack` | Tools/er_inventory_export.c:94-95 | the decimal and the hexadecimal column each determine the signed value |
| `Csv.ValueColumnsLookLikeNumbers` | Tools/er_inventory_export.c:94-95 | the hexadecimal column is 0x and eight upper-case digits, the decimal one has a minus sign exactly for negatives and no superfluous zero |
| `Csv.TextDeterminesRows` | Tools/er_inventory_export.c:74-106 | two tables with the same text hold the same rows: every text, number, absent number and on/off state |
| `Csv.CsvFile.Text` | Tools/er_inventory_export.c:9-18 | the character loop appends the quoted field, up to the NUL, quotes doubled |
| `Csv.CsvFile.WriteRow` | Tools/er_inventory_export.c:74-106 | appends exactly the seventeen fields, separators and record end |
| `DeviceTransport.NextKeepsInv` | ElevenRackDriverExtension/ElevenRackDevice.cpp:163-1058 | every event, with any kernel answers, keeps the driver invariant, save starting I/O while streaming |
| `DeviceTransport.StartIOIsSafeIff` | ElevenRackDriverExtension/ElevenRackDevice.cpp:749-807 | starting I/O keeps the invariant for all answers if and only if nothing is streaming |
| `DeviceTransport.StartIOWhileStreamingFails` | ElevenRackDriverExtension/ElevenRackDevice.cpp:749-807 | the failing run: after one granted start the device streams, and a refused second start leaves it streaming without I/O and buffers |
| `DeviceTransport.EveryRun` | ElevenRackDriverExtension/ElevenRackDevice.cpp:270-1058 | over every run: streaming has active I/O, pipes and buffers; windows are consecutive and disjoint; restarts are two intervals apart; at most one external change is outstanding and every rate applied for one is supported |
| `DeviceTransport.NothingAfterStop` | ElevenRackDriverExtension/ElevenRackDevice.cpp:810-832 | whatever was streaming, after a stop the pipes are let go, nothing is submitted and nothing restarts until I/O is started |
| `DeviceTransport.StartedStreamsIff` | ElevenRackDriverExtension/ElevenRackDevice.cpp:373-379 | a successful start streams if and only if all sixteen priming submissions were taken |
| `DeviceTransport.StartIOActivatesIff` | ElevenRackDriverExtension/ElevenRackDevice.cpp:749-807 | with nothing streaming, I/O becomes active if and only if host, buffers, clock and transport are granted, and then streams eight windows each way from 25 frames ahead if and only if all are taken |
| `DeviceTransport.RestartsAreDueTicks` | ElevenRackDriverExtension/ElevenRackDevice.cpp:1008-1058 | over every run the transport is restarted at exactly the ticks where I/O is active, the clock is not known unlocked, nothing streams or a direction stalled, and two intervals have passed |
| `DeviceTransport.WatchdogFiresIff` | ElevenRackDriverExtension/ElevenRackDevice.cpp:1041-1058 | after a completion in each direction a tick restarts the transport if and only if it comes over two seconds after either and not within two seconds of the last restart |
| `DeviceTransport.DownRestartsIff` | ElevenRackDriverExtension/ElevenRackDevice.cpp:1041-1058 | a transport that is down is restarted by every tick that leaves no external clock known unlocked and is not within two seconds of the last restart |
| `DeviceTransport.DueTickRecoversIff` | ElevenRackDriverExtension/ElevenRackDevice.cpp:1041-1058 | after a due tick the transport streams its first windows if and only if the kernel grants the start and takes all sixteen |
| `DeviceTransport.NothingUntilLock` | ElevenRackDriverExtension/ElevenRackDevice.cpp:1018-1050 | from a tick that finds the external clock unlocked until one finds lock, or I/O is started, nothing is submitted and nothing restarts |
| `DeviceTransport.FollowedRateKeeps` | ElevenRackDriverExtension/ElevenRackDevice.cpp:864-870 | the external rate applied is supported and is the one measured |
| `DeviceTransport.TickAsksIff` | ElevenRackDriverExtension/ElevenRackDevice.cpp:1008-1039 | a tick asks for the measured rate if and only if I/O is active, the clock external and not unlocked, its rate one of the four and new, nothing pending and the host agrees; otherwise no rate changes |
| `DeviceTransport.ExternalRateIsFollowed` | ElevenRackDriverExtension/ElevenRackDevice.cpp:864-1039 | whatever happens between such a tick and the host's go-ahead, the device then runs at the rate measured and nothing is left to answer |
| `DeviceTransport.FourCyclesReturn` | ElevenRackDriverExtension/ElevenRackDevice.cpp:849-860 | four cycle requests in a row take the device through all four rates and back, each to the next one up and from the highest to the lowest |
| `DeviceTransport.ElevenRackDevice.StartUSBTransport` | ElevenRackDriverExtension/ElevenRackDevice.cpp:270-384 | makes the modelled transition: early refusals change nothing, later ones stop, success primes both pools |
| `DeviceTransport.ElevenRackDevice.StartIO` | ElevenRackDriverExtension/ElevenRackDevice.cpp:749-807 | makes the modelled transition for every kernel answer; it succeeds exactly when I/O is active afterwards |
| `DeviceTransport.ElevenRackDevice.InputIsochComplete` | ElevenRackDriverExtension/ElevenRackDevice.cpp:406-459 | resubmits the next window, or stops streaming on an error or a refused submission |
| `DeviceTransport.ElevenRackDevice.OutputIsochComplete` | ElevenRackDriverExtension/ElevenRackDevice.cpp:461-512 | the same for playback |
| `DeviceTransport.ElevenRackDevice.MonitorAndRecoverTransport` | ElevenRackDriverExtension/ElevenRackDevice.cpp:1008-1058 | makes the modelled tick: follows an external rate, stops on lost lock, restarts what is down or stalled |
| `DeviceTransport.ElevenRackDevice.HandleChangeSampleRate` | ElevenRackDriverExtension/ElevenRackDevice.cpp:891-932 | commands the hardware on the internal clock, only follows it on an external one; it succeeds exactly for a supported rate that nothing refuses, on an external clock only the one it is locked to |
| `DeviceTransport.ElevenRackDevice.SetClockSource` | ElevenRackDriverExtension/ElevenRackDevice.cpp:163-259 | a source is accepted only in range and while nothing streams; it succeeds exactly then, and for the internal clock only if its rate was set |
| `Inventory.EveryCaptureIsFromDevice` | Tools/er_inventory.c:156-176 | over all interrupted and resumed runs, every capture file was there at first or holds, whole, what the device sent after naming that slot, with no program change in between |
| `Inventory.CapturesAreKept` | Tools/er_inventory.c:320-326 | no run ever replaces a capture |
| `Inventory.CutOff` | Tools/er_inventory.c:308-376 | a run cut off after any action has obeyed every rule |
| `Inventory.SendsAreSpaced` | Tools/er_inventory.c:30-52 | within a run program changes, the restoring one included, are at least 15 s apart |
| `Inventory.StaysPacedIff` | Tools/er_inventory.c:30-34 | after any paced runs, every run started at a given time keeps the pace if and only if no program was changed yet, 15 s have passed since the last change, or all slots are captured |
| `Inventory.EveryRunPaced` | Tools/er_inventory.c:30-52 | when every run starts at such a time all changes of all runs are 15 s apart |
| `Inventory.RestartBreaksPacing` | Tools/er_inventory.c:30-34 | the failing input: in an empty directory a run, and another at the same moment |
| `Inventory.NothingSentAfterInterrupt` | Tools/er_inventory.c:30-52 | once a signal is seen no program is selected or restored |
| `Inventory.NothingSentAfterFailure` | Tools/er_inventory.c:330-367 | nor after a slot that was selected but not captured, for whatever reason |
| `Inventory.RestoreEndsTheRun` | Tools/er_inventory.c:378-387 | a restore is a run's last action; everything selected was captured before it, and unless a sleep failed all 208 are |
| `Inventory.RestoreSelects` | Tools/er_inventory.c:271-294 | for every sequence of runs from an absent record, every restore selects the one of the 208 that an earlier run recorded, and when none did the program selected as its own run began |
| `Inventory.NextRestoresIff` | Tools/er_inventory.c:278-294 | after any runs from an absent record, every restore of the next run goes to p if and only if some run got as far as recording p and p is one of the 208, or all slots are captured |
| `Inventory.CutOffRunLosesTheOriginal` | Tools/er_inventory.c:288-293 | the failing input: a first run leaves the record opened but empty, and the next run restores what the first had selected |
| `Inventory.RecordAfterRuns` | Tools/er_inventory.c:278-294 | the record names exactly the program that some run got as far as recording |
| `Inventory.EveryRestoreIsTheRecord` | Tools/er_inventory.c:278-287 | a record of one of the 208 programs is kept and is what every restore of every run selects |
| `Inventory.FirstRunRestoresWhatItRecords` | Tools/er_inventory.c:271-294 | the first run goes back to the program it found selected, and that is the one it records |
| `Inventory.ChangeRequestIsPacked` | Tools/er_inventory.c:58-64 | the program-change bytes are the packed SysEx message |
| `Inventory.GetRequestIsPacked` | Tools/errig_read.c:295-310 | so are the get-request bytes |
| `Inventory.AllVisited` | Tools/er_inventory.c:304-326 | the visiting order covers all 208 slots |
| `InventoryTool.DumpIsRigMessage` | Tools/errig_read.c:1335-1345 | what is captured passes the exporter's header check |
| `InventoryTool.AwaitedIsFirst` | Tools/er_inventory.c:69-83 | waiting gives the first answer within the reads allowed, unless a read before it gives nothing |
| `InventoryTool.NamesWhatIsSent` | Tools/er_inventory.c:58-64 | the bytes that select a program and the bytes that name it mean the same slot |
| `InventoryTool.NamedIsAsked` | Tools/er_inventory.c:85-99 | the program the device names within 64 messages of an accepted question, on request or on its own account, is the one taken to be selected |
| `InventoryTool.NamedIsVerified` | Tools/er_inventory.c:338-350 | a slot named in answer to one of five questions is verified, whatever became of those before |
| `InventoryTool.DumpIsAsked` | Tools/er_inventory.c:101-114 | a dump of over 100 bytes in answer to one of three questions is taken as it was sent |
| `InventoryTool.AnsweredIsCapturable` | Tools/er_inventory.c:338-367 | so a slot that is named and dumped in time is captured when its file can be stored |
| `InventoryTool.NamedIsRecorded` | Tools/er_inventory.c:269-294 | on the first run the program named in bytes is the one recorded; an existing record is left alone |
| `InventoryTool.Tool.WaitForSwitchWindow` | Tools/er_inventory.c:30-52 | granted exactly when no signal has come in and no sleep failed, and then 15 s have passed since the last change; always returns |
| `InventoryTool.Tool.SaveCapture` | Tools/er_inventory.c:156-176 | succeeds exactly when the path fits and every step of the write does; the final name gets all the bytes or is left alone, and no partial file stays |
| `InventoryTool.Tool.CaptureSelected` | Tools/er_inventory.c:338-367 | captures the slot exactly when the device names it within five questions, sends a dump within three, and the dump is stored |
| `InventoryTool.Tool.FindOriginal` | Tools/er_inventory.c:269-294 | the original is the recorded program if it is one of the 208, else the one selected; a first run records it as far as the file system lets it |
| `InventoryTool.Tool.VisitSlot` | Tools/er_inventory.c:320-367 | a slot is counted exactly when it is captured, missed only if the change or the capture fails, given up only for a signal or a failed sleep |
| `InventoryTool.Tool.Run` | Tools/er_inventory.c:178-407 | its trace ends with going back to the original exactly when that is known, something was selected, everything selected was captured and the wait was granted; status 0 exactly with all 208 slots captured and no signal, 130 exactly when a signal ended it with nothing missed |

## Left out

- Kernel, USB, Core Audio, CoreMIDI and shared-memory calls: their results are parameters; device discovery, pipe
  lookup and control-request contents are not modelled.
- Memory ordering below acquire and release, a second consumer of a ring (`--monitor`), and resets of the counters
  while either side runs.
- `xrunCount`, which both rings increment without atomics, and the engine's RMS meters.
- Floating-point rounding: the accordion and the samples are exact reals; NaN samples are not modelled.
- The engine's diagnostic modes (`--raw`, `--frames`, `--wav`, `--sweep`, `--play`) and environment overrides; the
  unit is eight words.
- The driver's sample conversion, its zero timestamps and stale frame lists after a restart, latency properties,
  stream formats, and the USB interfaces themselves; a request that the host answers from inside the call that
  makes it. Times do not wrap at 64 bits.
- `DeviceTransport.Whole`: negative sample rates, for which the C++ conversion is undefined, are cut downwards.
- Names, units, ranges, curves and display formatting of settings: arbitrary functions here.
- The analysis script, the printed rig summary beyond its section walk, and the user interfaces.
- The inventory's external file changes during a run, a crash inside the file system's rename, and a record file
  cut off in the middle of its digits; standard output; more than one device identifier.
- Interruptions of the inventory's sleeps other than by the two signals that end the run: no other handler is
  installed.
- Calls of another thread on the ring in the middle of a playback request or of a capture read; what interleaved calls
  see is the subject of `RingProtocol`.
- Loading of capture files: what reading one gives is a parameter.
