# Vehicle, link and ground: a Dafny model

This project models how a small reaction-wheel test vehicle and its ground station talk, decide and move, and proves
what they keep over every run. It has four parts.

**Selective-repeat image downlink.** `Camera` is the FIFO driver's state machine, `Downlink` the vehicle task that
sends an image once in 56-byte chunks and resends the ones asked for, `Assembler` and `Session` the ground half,
`Payload` and `ChunkFrames` the wire forms. `SelectiveRepeat` puts both ends and a lossy, duplicating, reordering
channel into one transition system; `Passes` shows that the task's calls are runs of it, and `Convergence` counts
request rounds. `Latecomers` is what the ground makes of repeats. `Overruns` and `RequestTable` show what goes wrong,
and exactly when, without each premise.

**Flight executive.** `FaultManager`, `ModeManager`, `CommandHandler`, `SensorMonitor` and `Executive` follow the
flight software class by class. `Safing`, `ModeTable`, `FaultTrace`, `WheelTorque`, `WheelLoss`, `DetumbleEntry`,
`DetumbleExit` and `Heading` prove what holds over every run of it, `Detectors` what makes a fault latch. `CommandLink`
and `Acknowledged` put the ground and a lossy link around the command handler; `CommandTiming` proves that the timing
they need is exact.

**Frames and radios.** `Crc`, `Frame` and `PyFrames` are the checksum and the two decoders, `FrameTheorems` what they
promise. The checksum is proved over bits; `CrcNumber` and `CheckValue` tie those bits to the integer register and its
published check value. `Radio` is the padded 32-byte packets and `GroundStation` the two-radio pipe.

**Dynamics and rings.** `Attitude` is the control law and heading filter, `Plant` the simulated rig, `ClosedLoop` both
together with the executive, over the reals; `Pointing` and `DetumbleLaw` say which way each law drives and what the rig
makes of it. `Uart` and `Beacon` are the interrupt rings and the beacon queue, `UartService` what the interrupt gets
done.

Code that changes state in place is a class whose methods are proved equal to a step function on values; the theorems
are lemmas about those functions and about runs of them. `Catalog` and `Wire` hold what the modules share.

## Premises

- Image integrity has three, each a predicate on one action of a run. `Fresh`: a FIFO read that returns data finds the
  capture count the image was opened with; `send_chunk` checks it only when it opens an image and a sweep never does.
  `Steady`: no capture begins between reading the frame's size and latching the capture count. `Fits`: the image being
  opened has at most 229376 bytes, which is what the request table can address; nothing in the code bounds it below the
  FIFO's 1 MiB. The first two are each shown needed by a run, the third is shown exact.
- A payload frame that fails its checksum counts as lost.
- At-most-once commanding over the link needs one command outstanding at a time (fire-and-forget commands included) and
  links that lose but do not reorder. Its timing is a pair of bounds: the session's ticks come at most so far apart, and
  the uplink's delay varies by at most so much. `session.py` says only that four tries end well inside the 5 s.
- One boot, fewer than 65536 images and commands.
- Torque discipline needs cycles less than 2^31 - 500 ms apart; the wheel-silence bound needs less than one wrap of the
  counter since the last frame.

The header comment over the beacon queue says a new frame replaces a waiting one; the code queues three and drops the
newest, and the model follows the code. A comment in the executive says a fresh DETUMBLE earns its exit from zero; the
count is cleared only by a control step outside DETUMBLE, so one re-entered on the cycle after an exit does not.

## Model

| member | source | states |
|---|---|---|
| `SelectiveRepeat.EndToEnd` | obc/Src/freertos/downlink_task.cpp:189-268 | for every loss, repetition and reordering of payload frames and requests, and every interleaving with captures, polls, discards and mode changes between any two driver calls that meets the three premises (fresh reads, steady latch, image in table): every image the ground completes is byte for byte the frame whose size was read when that id was given out |
| `SelectiveRepeat.StepKeepsInv` | obc/Src/freertos/downlink_task.cpp:173-268 | each step of either task keeps the whole invariant: the read position is at byte 56 k when chunk k is next, in first passes and sweeps alike |
| `SelectiveRepeat.LatchStep` | obc/Src/freertos/downlink_task.cpp:195-214 | latching the capture count gives a new id to exactly the frame whose size was read, if no capture began in between, and leaves every earlier id as it was |
| `SelectiveRepeat.RunKeepsInv` | obc/Src/freertos/downlink_task.cpp:270-307 | so does every run, and what an image id stands for never changes once given out |
| `SelectiveRepeat.ReadStep` | obc/Src/freertos/downlink_task.cpp:216-229 | chunk k of a first pass is bytes 56 k on of the frame, and ends it when the frame ends |
| `SelectiveRepeat.SweepOnStep` | obc/Src/freertos/downlink_task.cpp:239-247 | a sweep that has passed i chunks is about to read chunk i, whatever was skipped; which of those bits the request table really has is RequestTable.InTableIff |
| `SelectiveRepeat.Bookkeeping` | obc/Src/freertos/downlink_task.cpp:83-92 | through drains, sweeps, aborted sweeps and new images within the premises the counter equals the number of set bits, every set bit is inside the image and was asked for under its id, and no image has more than the table's 4096 chunks |
| `SelectiveRepeat.NobodyAsksAhead` | obc/Src/freertos/downlink_task.cpp:173-186 | no request ever names an id before that image exists, so a set bit was asked for since its image began |
| `SelectiveRepeat.SweepClearsWhatItSends` | obc/Src/freertos/downlink_task.cpp:234-268 | over any stretch without a new pass or drain, on an image the table holds, a bit is cleared if and only if that chunk was sent, and each is sent once, even when the sweep is cut short |
| `Overruns.TornPass` | obc/Src/freertos/downlink_task.cpp:195-217 | the first premise is needed: a run from power-up, meeting the other two, in which a capture completed in the middle of a pass puts the second frame's bytes out under the first one's id and the ground saves an image the camera never held |
| `Overruns.LateLatch` | obc/Src/freertos/downlink_task.cpp:203-207 | the second is needed: a run in which a capture completed between reading the size and latching the count makes every read look fresh, and the ground saves the new frame cut to the old one's size, which is neither |
| `RequestTable.InTableIff` | obc/Src/freertos/downlink_task.cpp:72-83 | the third is exact: over every run that meets the other two, each bit a sweep of a frame tests lies inside the request table if and only if the frame has at most 229376 bytes |
| `RequestTable.LargeFrameOverruns` | obc/Src/freertos/downlink_task.cpp:239-247 | for every longer frame there is a run from power-up whose sweep tests bit 4096 |
| `RequestTable.OneByteTooMany` | obc/Src/freertos/downlink_task.cpp:239-247 | a frame of 229377 bytes is accepted by the camera, opens as 4097 chunks and is swept past the end of the table |
| `Downlink.Task.SendOne` | obc/Src/freertos/downlink_task.cpp:189-229 | the whole new state of one call, and it says so exactly when a chunk went out: refused without a ready frame or a new capture, opens a new image at its exact size with requests forgotten, or sends the next chunk of the pass in flight |
| `Downlink.Task.FixShape` | obc/Src/freertos/downlink_task.cpp:195-214 | opens an image only for a capture not yet seen, with the chunk count its size needs (no 16-bit truncation can occur) and an empty bitmap |
| `Downlink.Task.ReadOne` | obc/Src/freertos/downlink_task.cpp:216-229 | one read: the chunk it sends and how the pass counters move, or the pass dropped when the frame is drained |
| `Downlink.Task.DrainRequests` | obc/Src/freertos/downlink_task.cpp:173-186 | the bitmap and counter after everything waiting in the queue has been taken in |
| `Downlink.DrainMarks` | obc/Src/freertos/downlink_task.cpp:173-186 | after a drain a chunk is marked exactly if it was, or an entry with the current id names it inside the image and the table; the counter moved by as many bits as were newly set |
| `Downlink.Task.ServeRequests` | obc/Src/freertos/downlink_task.cpp:234-268 | the result of a whole sweep for every way the mode flag may read while it runs: nothing to do, aborted before or after a read, or complete |
| `Downlink.Task.ServeOne` | obc/Src/freertos/downlink_task.cpp:239-267 | one pass of the sweep's loop, including the abort that leaves the bit set |
| `Downlink.Task.SendAgain` | obc/Src/freertos/downlink_task.cpp:259-262 | a resend puts that chunk on the links, clears its bit and takes one off the counter, nothing else |
| `Downlink.Task.FillLinks` | obc/Src/freertos/downlink_task.cpp:275-293 | the task's loop with room for so many chunks: call after call until one sends nothing |
| `Passes.CallIsARun` | obc/Src/freertos/downlink_task.cpp:189-229 | one call is a run of the link's own actions, a look at the driver, the count, the size, the latch and one read, each taken if it is possible and nothing between them |
| `Passes.PassSendsAll` | obc/Src/freertos/downlink_task.cpp:275-293 | from a captured frame not yet opened, as many undisturbed calls as it has chunks put every piece on the links once and in order under the next image id, leave no pass in flight, and the next call sends nothing |
| `Passes.NextGoesOut` | obc/Src/freertos/downlink_task.cpp:216-229 | in the middle of a pass a call sends exactly the next piece of the frame |
| `Passes.FirstGoesOut` | obc/Src/freertos/downlink_task.cpp:195-217 | the first call on a new frame opens it under the next id and sends its first piece |
| `Passes.SweepIsARun` | obc/Src/freertos/downlink_task.cpp:239-267 | a whole sweep, however the mode flag reads on the way, is a run of the separate steps other tasks can come between |
| `Downlink.Task.Request` | obc/Src/freertos/downlink_task.cpp:313-322 | a request enqueues its named entries in order, clamped to 28, and a full queue drops the rest |
| `Convergence.Converges` | tools/ground/session.py:648-664 | n loss-free rounds leave exactly max(0, missing - 28 n) chunks missing: ceil(missing / 28) rounds finish the image and fewer do not |
| `Convergence.RoundTakesBatch` | tools/ground/payload.py:90-102 | one loss-free round takes exactly min(28, missing) chunks off and returns both ends to where the next round can start |
| `Convergence.RoundShrinks` | obc/Src/freertos/downlink_task.cpp:173-186 | in general a round removes exactly the chunks already marked and the chunks the request names, and leaves no mark behind |
| `Convergence.EnqueueTakes` | obc/Src/freertos/downlink_task.cpp:313-322 | of a request's entries in order as many are queued as there is room for, of 96 places, and the rest are dropped |
| `Convergence.SweepSends` | obc/Src/freertos/downlink_task.cpp:234-268 | an undisturbed sweep sends every marked chunk once, in order, with the frame's own bytes, and clears every mark |
| `Convergence.ArrivalsShrink` | tools/ground/payload.py:69-88 | whatever true chunks arrive in whatever order and number, the missing set never grows: it loses exactly their indices |
| `Convergence.LastChunkYields` | tools/ground/payload.py:82-88 | when the last missing chunk arrives the store hands over the image, and it is the frame |
| `Convergence.Finishes` | tools/ground/session.py:648-664 | from every parked state with the image incomplete, including one left by a sweep cut short, the ground is handed the image byte for byte within ceil(missing / 28) loss-free rounds |
| `Convergence.RunsFinish` | obc/Src/freertos/downlink_task.cpp:270-307 | every run that meets the premises and parks in DOWNLINK on an image the ground has part of is such a state: ceil(missing / 28) rounds later at most, the ground has been handed that frame |
| `Assembler.Store.Push` | tools/ground/payload.py:69-88 | the new image table and done list after one chunk, and whether it completed an image: repeats of finished images ignored, a changed chunk count starts over |
| `Assembler.Store.Wanted` | tools/ground/payload.py:90-102 | the newest image on file and its missing indices, or nothing when it lacks none |
| `Assembler.MissingFrom` | tools/ground/payload.py:43-46 | the missing indices: exactly those below the chunk count with no part, in rising order |
| `Assembler.Pigeonhole` | tools/ground/payload.py:39-41 | n distinct indices below n are all of them, which is why comparing counts is enough for completeness |
| `Assembler.CompleteIsWhole` | tools/ground/payload.py:48-49 | a complete image of true chunks, joined in sorted order, is the frame byte for byte |
| `Assembler.PushKeepsTrue` | tools/ground/payload.py:69-88 | a true chunk keeps every image on file true and finished images off it, and anything completed is the whole frame |
| `Latecomers.RepeatsAreIgnored` | tools/ground/payload.py:59-72 | a chunk of a finished image changes nothing and yields nothing while fewer than four images have finished since; at the fourth it is forgotten |
| `Latecomers.FileOfARun` | tools/ground/payload.py:69-88 | for chunks that may contradict each other: until something is finished, what is on file of an id is what came since the last chunk that gave another total, each index with the data that came last |
| `Latecomers.WantsNewest` | tools/ground/payload.py:90-102 | what is chased is the largest id on file and exactly what that lacks; an older image is never asked for |
| `Camera.Driver.ScanJpegLength` | obc/Src/devices/ov2640.c:158-177 | the scan returns the length up to the first FF D9 and rewinds |
| `Camera.JpegLength` | obc/Src/devices/ov2640.c:161-171 | zero exactly when there is no FF D9 anywhere; otherwise the end of the first one |
| `Camera.Driver.StartCapture` | obc/Src/devices/ov2640.c:293-312 | refused while unconfigured or capturing; otherwise a new capture number, no frame and the timer started |
| `Camera.Driver.PollCapture` | obc/Src/devices/ov2640.c:314-337 | ready, failed or still capturing after a poll: empty, oversized and marker-less frames fail, and so does a capture past one second |
| `Camera.TimesOutIff` | obc/Src/devices/ov2640.c:333-336 | a capture without a frame fails at the first poll more than 1000 ms after its start, and not before, read off the wrapping counter |
| `Camera.CaptureEndsIn` | obc/Src/devices/ov2640.c:293-337 | a finished capture is a frame ready from its first byte and ending with its first FF D9 if it is at most 1 MiB and has one, and otherwise a failure with nothing to read |
| `Camera.StartsIff` | obc/Src/devices/ov2640.c:293-312 | a start is refused, and changes nothing, exactly without a working camera or with a capture under way; one that is taken forgets the frame before |
| `Camera.DiscardForgets` | obc/Src/devices/ov2640.c:411-417 | a discarded frame can be neither read nor rewound, and the capture count stands |
| `Camera.Driver.RewindFrame` | obc/Src/devices/ov2640.c:276-291 | rewinds exactly when a frame is held and no capture is in flight or failed, keeping the frame |
| `Camera.Driver.Read` | obc/Src/devices/ov2640.c:359-404 | the bytes handed out are the frame's next ones in order, the last read is short and leaves the driver idle with the frame intact |
| `Camera.Driver.DiscardFrame` | obc/Src/devices/ov2640.c:411-417 | forgets the frame in every state |
| `Camera.RewoundReadsWhole` | obc/Src/devices/ov2640.c:276-291 | however often it was read before and in chunks of any size, a rewound frame comes out whole and can be rewound again |
| `Payload.ChunkRoundTrip` | tools/ground/frames.py:375-384 | unpacking a packed chunk gives back every field and exactly its valid bytes |
| `Payload.RequestRoundTrip` | tools/ground/frames.py:353-363 | the vehicle reads from a packed request the same id and exactly the first 28 of the indices asked for |
| `Payload.ChunkBytes` | common/protocol/msg.hpp:180-187 | the 64 bytes: image, index and total low byte first, the valid count, a zero, the data and zeros after it |
| `Payload.RequestBytes` | common/protocol/msg.hpp:282-286 | the 59 bytes: the image low byte first, how many are named, each index low byte first, and zeros after them |
| `ChunkFrames.ChunksCrossTheAir` | obc/Src/freertos/downlink_task.cpp:148-169 | chunks packed, framed, cut into padded packets and all received come out of the ground decoder and unpacker as they went in |
| `Session.RequestsAreSpaced` | tools/ground/session.py:648-657 | over any run of ticks and status frames no two requests are closer than 1.3 s |
| `Session.AsksIff` | tools/ground/session.py:648-664 | exactly when a tick asks, after any ticks and status frames: something is missing from the newest image, the vehicle said within 3 s that it was listening, and the last request is 1.3 s old |
| `Session.Ground.RequestChunks` | tools/ground/session.py:648-664 | a request goes out exactly when transmitting is allowed, an idle DOWNLINK status is at most 3 s old, 1.3 s have passed and something is missing; it names the first 28 missing chunks of the newest image |
| `Session.Ground.HearDownlinkStatus` | tools/ground/session.py:262-266 | only a status with nothing in flight makes the vehicle count as listening |
| `CommandLink.CommandingOfARun` | tools/ground/session.py:154-194 | over every run of lossy first-in first-out links with one command outstanding, if 3 (0.7 s + tick spacing) + delay spread is at most 5 s: a number is executed at most once, every copy gets the first copy's verdict though the mode has changed, and every acknowledgement the ground gets reports that verdict |
| `CommandLink.SendsOfARun` | tools/ground/session.py:57-58 | over every run a number is sent at most four times, and its transmissions leave within 3 (0.7 s + tick spacing) of each other |
| `CommandLink.CopiesInTime` | fsw/src/comms/command_handler.cpp:52-66 | whatever was lost between them, two copies of one number that arrive do so within the vehicle's 5000 ms window, read off its own millisecond counter, when that bound holds |
| `Acknowledged.NeverSentAgain` | tools/ground/session.py:256-257 | after any run, once the ground has heard an acknowledgement that number is never sent again, whatever is still in flight |
| `Session.UnansweredIsGivenUp` | tools/ground/session.py:180-194 | a command alone on the list and never answered goes out at three more ticks 0.7 s apart and is given up at the fourth |
| `Session.Numbers` | tools/ground/session.py:154-158 | commands are numbered upwards from the last one through all sixteen bits |
| `CommandTiming.TimingIff` | tools/ground/session.py:57-58 | and the bound is exact: for every positive tick spacing, delay floor and spread, every run answers every later copy as a duplicate of the first if and only if 3 (0.7 s + tick spacing) + spread is at most 5 s |
| `CommandTiming.SlowRunActsTwice` | fsw/src/comms/command_handler.cpp:52-73 | any slower timing has a run, with its ticks and delays inside the stated bounds, in which one number is acted on twice |
| `CommandLink.StepKeepsInv` | tools/ground/session.py:168-194 | each step keeps it: transmissions, arrivals and the next retry are in number order, one number is one command, a retry is due 0.7 s after the try before it, and every arrival took what the link takes |
| `CommandLink.VehicleActsAtMostOnce` | fsw/src/executive.cpp:130-173 | from any state of the executive, a run of cycles whose commands share one number at most 5000 ms apart acts at most once |
| `CommandHandler.BlockAnswers` | fsw/src/comms/command_handler.cpp:52-73 | however many copies arrive in whatever modes, every later one gets the first one's verdict as a duplicate |
| `CommandHandler.AtMostOnce` | fsw/src/comms/command_handler.cpp:52-105 | a block of same-number commands at most 5000 ms apart executes at most once |
| `CommandHandler.RunsIff` | fsw/src/comms/command_handler.cpp:52-105 | exactly when a command runs: after any arrivals ending in a, and less than a counter wrap later, b executes if and only if its number differs from a's or it comes more than 5000 ms after a, and it is legal where it lands |
| `CommandHandler.WhichRun` | fsw/src/comms/command_handler.cpp:52-105 | the same for every position of every list of arrivals |
| `CommandHandler.TakenIff` | fsw/src/comms/command_handler.cpp:17-48 | which command is taken in which mode with which argument, all seven of them, number by number |
| `CommandHandler.RefusedFor` | fsw/src/comms/command_handler.cpp:72-96 | and why each other one is refused |
| `CommandHandler.LostIff` | fsw/src/comms/command_handler.cpp:107-109 | after any arrivals the link is lost exactly once more than 5000 ms have passed since the last of them |
| `CommandHandler.LogOfARun` | fsw/src/comms/command_handler.cpp:64-104 | the log is every answer in order, each with its time, and a first answer gives its own command's verdict |
| `CommandHandler.InterleavedCopiesRun` | fsw/src/comms/command_handler.cpp:97-105 | so with another command between them two copies both run: only one number is remembered |
| `CommandHandler.ExecutedIsValid` | fsw/src/comms/command_handler.cpp:77-99 | an executed command passed validation, and an executed SET_MODE names a mode legal from the one it was judged in |
| `CommandHandler.Handling.Handle` | fsw/src/comms/command_handler.cpp:52-105 | the answer and the handler's whole new state: a repeat moves only the loss timer and the log, and the log ring is the last 32 answers |
| `CommandHandler.Handling.Silent` | fsw/src/comms/command_handler.cpp:107-109 | link lost exactly when more than 5000 ms passed since any command |
| `Session.Ground.Command` | tools/ground/session.py:154-166 | the next number, and the command remembered for retry only when asked to be |
| `Session.Ground.Tick` | tools/ground/session.py:180-194 | what a tick resends and what it keeps: overdue commands go out again up to four tries, then are given up |
| `Session.Ground.HearAck` | tools/ground/session.py:256-257 | an acknowledgement removes its own command and no other |
| `Safing.SafingOfARun` | fsw/src/executive.cpp:83-100 | after any run, a cycle ends in SAFE exactly when it began there and did not act on SET_MODE STANDBY, or an uninhibited Critical fault was latched when it sampled its faults, or it acted on SET_MODE SAFE |
| `Safing.EndsSafeIff` | fsw/src/executive.cpp:83-143 | the same for one cycle from any state the invariant allows |
| `Safing.LeavesSafeForStandby` | fsw/src/executive.cpp:130-143 | out of SAFE there is one way, an accepted fresh SET_MODE STANDBY, and it ends the cycle in STANDBY even with a Critical fault latched |
| `Safing.HistoryOfARun` | fsw/src/mode_manager.cpp:24-57 | over every run the transition history chains from BOOT through legal transitions, never re-enters BOOT and leaves SAFE only for STANDBY on a command |
| `Safing.ResumeOfARun` | fsw/src/executive.cpp:239-296 | over every run, in DETUMBLE a resume is due exactly if the latest transition was the autonomous entry, it leads back to that transition's source, which is STANDBY or DOWNLINK, and the request is legal |
| `Safing.ResumeNeverRefused` | fsw/src/executive.cpp:242-244 | the mode manager never refuses the resume request |
| `Safing.ExecutedSetModeHolds` | fsw/src/executive.cpp:135-143 | an executed SET_MODE is never quietly ignored: the control step runs in the mode asked for unless the same cycle safes, though the boot check or a fallback may have moved first |
| `Safing.ModeAtControl` | fsw/src/executive.cpp:83-143 | which mode the control step runs in, for every combination of starting mode, latched faults and command |
| `Safing.ModeAfterControl` | fsw/src/executive.cpp:228-297 | what the control step can still change: SAFE, BOOT and POINTING stay put, only DETUMBLE is left or entered |
| `ModeTable.ModeAtStep` | fsw/src/executive.cpp:83-143 | the mode of the control step as a table over the mode the cycle began in, the faults it sampled and the command it acted on |
| `ModeTable.FallsBackIff` | fsw/src/executive.cpp:102-126 | without a SET_MODE and with nothing forcing SAFE: the control step is in STANDBY if and only if the cycle began there, began in POINTING or DETUMBLE with the rate sensor, power monitor or wheel lost or the wheel full and not inhibited, or began in DOWNLINK with the power monitor lost; otherwise the mode has not moved |
| `ModeTable.FallbacksOfARun` | fsw/src/executive.cpp:102-126 | over every run no control step steers or streams under such a fault unless it acted on a SET_MODE |
| `ModeTable.CriticalIff` | fsw/src/fault_manager.cpp:14-48 | the faults that force SAFE, by name |
| `ModeTable.BootOfARun` | fsw/src/executive.cpp:91-100 | from power-on with nothing forcing SAFE and no SET_MODE: three control steps in BOOT, then STANDBY |
| `ModeTable.LogAtStep` | fsw/src/executive.cpp:83-143 | which transitions are logged before the control step, and with which trigger: what the faults or the boot count force, then what a command asked for from there |
| `Safing.EdgesOfACycle` | fsw/src/executive.cpp:66-83 | one cycle logs at most fourteen fault edges, so the 32-entry ring still holds every one of them when it is read after the cycle |
| `Safing.StepKeepsInv` | fsw/src/executive.cpp:65-297 | every cycle and every inhibit keep the history, resume, SAFE and exit-count invariants |
| `Executive.Flight.Run` | fsw/src/executive.cpp:65-297 | one cycle's whole new state, its torque, its acknowledgement and whether the payload streams, for all inputs |
| `Executive.Flight.Decide` | fsw/src/executive.cpp:66-173 | everything before the control step: detection, safing, boot check, fallbacks and dispatch in the code's order |
| `Executive.Flight.Steer` | fsw/src/executive.cpp:216-270 | torque, pulse timer and detumble exit |
| `Executive.Flight.Catch` | fsw/src/executive.cpp:284-297 | autonomous entry into DETUMBLE: counting, the request, and what is remembered only if it was granted |
| `DetumbleEntry.EntryOfARun` | fsw/src/executive.cpp:284-296 | after any run, a control step outside DETUMBLE enters it if and only if it is the fourth in a row, or a later fourth, in STANDBY or DOWNLINK with a rate beyond the threshold; it then notes that mode to resume, and otherwise touches neither |
| `DetumbleEntry.ExitGoesBack` | fsw/src/executive.cpp:239-247 | after any run, a control step that settles DETUMBLE returns to where the entry came from if that was autonomous, to STANDBY if it was commanded, and spends the resume |
| `DetumbleEntry.PeakOfARun` | fsw/src/executive.cpp:205-213 | the reported peak is the largest magnitude of rate since the last test pulse acted on, or zero |
| `WheelTorque.TorqueOfARun` | fsw/src/executive.cpp:163-297 | over every run paced under half a counter wrap: zero torque in BOOT, DOWNLINK and SAFE, within the ceiling in DETUMBLE and POINTING, and in STANDBY exactly the live test pulse, else the 3 mN m dump against the reported spin, else zero |
| `WheelTorque.PulsesIffLive` | fsw/src/executive.cpp:221-226 | a STANDBY control step pulses exactly when the last accepted fresh PULSE_WHEEL is under 500 ms old and every control step since was in STANDBY (except one due to end at counter value zero) |
| `WheelTorque.PulseIsSigned` | fsw/src/executive.cpp:163-168 | a pulse's argument is a signed byte of thousandths of a newton metre |
| `WheelTorque.TimerReads` | fsw/src/executive.cpp:221-222 | the signed 32-bit difference tells a running pulse from a finished one up to half a wrap |
| `WheelLoss.SilenceAnswered` | fsw/src/executive.cpp:107-126 | with cycles at most P ms apart and no injected verdicts, every cycle more than 1000 + 2 P ms after the last frame finds the dropout latched and steers only if it acted on SET_MODE |
| `WheelLoss.DeadlineIsMet` | fsw/src/sensor_monitor.cpp:136-148 | such cycles include one no later than 1000 + 3 P ms after the last frame |
| `WheelLoss.FrameStartsClock` | fsw/src/sensor_monitor.cpp:141-148 | a heard frame starts that clock from any state in which the dropout is not inhibited |
| `WheelLoss.LatchHolds` | fsw/src/executive.cpp:107-126 | until it is cleared, whatever the wheel does next, no control step runs in POINTING or DETUMBLE without a SET_MODE in that cycle |
| `WheelLoss.TalkingNeverLatches` | fsw/src/sensor_monitor.cpp:136-148 | after acquisition, frames never more than 1000 ms behind a cycle never latch the dropout |
| `FaultManager.ActiveIff` | fsw/src/fault_manager.cpp:52-96 | over every trace a fault is active if and only if some sample after its last clear saw at least its debounce count of bad samples in a row |
| `FaultTrace.LatchedOfARun` | fsw/src/executive.cpp:66-81 | after any run of the executive a fault is latched if and only if some sample of it, reported, sensed or the 5 s command timer's, was the last of enough bad ones in a row and no acted CLEAR_FAULT has named it since |
| `FaultManager.StreakIsTrailingBad` | fsw/src/fault_manager.cpp:84-96 | the streak is the run of bad samples up to now, capped at the debounce count, straight across clears |
| `FaultManager.InhibitOnlyMutes` | fsw/src/fault_manager.cpp:76-82 | inhibiting changes no latch, no streak and no log entry, for every trace |
| `FaultManager.ReplayGivesActive` | fsw/sil/sil_shim.cpp:144-160 | replaying the edge history from nothing gives exactly the active set |
| `FaultManager.SamplesAddEdges` | fsw/src/fault_manager.cpp:52-58 | while nothing is cleared each fault logs at most one edge |
| `FaultManager.LogsChanges` | fsw/src/fault_manager.cpp:52-66 | the log gains a line exactly when a fault latches or is unlatched, with its time and direction |
| `FaultManager.Manager.UpdateFault` | fsw/src/fault_manager.cpp:84-96 | streak, latch and log after one sample; the log ring is the last 32 edges of the whole history |
| `FaultManager.Manager.ClearFault` | fsw/src/fault_manager.cpp:60-66 | unlatches and logs only a latched fault, and leaves the streak |
| `FaultManager.Manager.InhibitFault` | fsw/src/fault_manager.cpp:76-82 | changes the inhibit mask only |
| `FaultManager.Manager.WantsSafe` | fsw/src/fault_manager.cpp:70-74 | true exactly when some latched Critical fault is not inhibited |
| `ModeManager.Manager.RequestMode` | fsw/src/mode_manager.cpp:50-57 | taken and logged exactly when legal; the log ring is the last 32 transitions of the whole history |
| `ModeManager.LegalIff` | fsw/src/mode_manager.cpp:24-48 | a transition is legal exactly if it is to another mode, not to BOOT, from BOOT only to STANDBY, DETUMBLE or SAFE, and from SAFE only to STANDBY on a command |
| `ModeManager.ChainsNeverReboot` | fsw/src/mode_manager.cpp:24-48 | in any chained history BOOT is only ever the first mode and SAFE is left only for STANDBY on a command |
| `SensorMonitor.Watch.Evaluate` | fsw/src/sensor_monitor.cpp:56-62 | the exact samples a cycle feeds the fault manager, in order, and what the monitor remembers |
| `SensorMonitor.Watch.EvaluateWheel` | fsw/src/sensor_monitor.cpp:136-160 | silence is judged every cycle, saturation only on a frame |
| `SensorMonitor.Watch.EvaluateImu` | fsw/src/sensor_monitor.cpp:64-97 | a missing sample is no opinion; an invalid or frozen half is bad, and only valid halves move the change tracker |
| `Detectors.SamplesSay` | fsw/src/sensor_monitor.cpp:64-171 | what a cycle feeds each fault: exactly the one sample its readings warrant, from the millivolt, milliamp, millidegree, silence, speed and frozen-reading limits, or none |
| `Detectors.DebounceOfARun` | fsw/src/fault_manager.cpp:84-96 | over every run of readings from power-on a fault is latched if and only if what its readings said was bad ten times in a row for a full wheel, three times for every other detector; readings that say nothing of it break no row |
| `Detectors.PolicyTable` | fsw/src/fault_manager.cpp:14-32 | how many bad samples each fault takes, and how severe it is |
| `Detectors.MonitorOfARun` | fsw/src/sensor_monitor.cpp:44-52 | freezing is measured, for each source, from its last valid reading that differed from the one before it |
| `Detectors.WheelOfARun` | fsw/src/sensor_monitor.cpp:136-148 | silence is measured from the last wheel frame, with the shorter limit once there has been one |
| `DetumbleExit.ExitOfARun` | fsw/src/executive.cpp:230-270 | after any run, a stay that begins by entering DETUMBLE ends with eleven samples in a row inside the deadband since that entry if and only if the control step before it was not in DETUMBLE or some sample of the stay was outside; otherwise a single sample ends it |
| `DetumbleExit.LeavesIff` | fsw/src/executive.cpp:239-250 | a control step in DETUMBLE leaves exactly when its sample would be the eleventh of a row inside the deadband, counting from the stored count |
| `DetumbleExit.ReentryLeavesAtOnce` | fsw/src/executive.cpp:267-270 | the exception happens: a run from power-up that leaves DETUMBLE, is commanded back on the next cycle and leaves again in that same cycle, on one sample |
| `ClosedLoop.DetumbleFinishes` | fsw/src/executive.cpp:230-250 | if n held torques of friction would stop the platform, the vehicle stays in DETUMBLE for at most n + 10 rate samples with the default gains and rig constants, whatever else its inputs bring |
| `ClosedLoop.CycleSlows` | fsw/sil/plant.cpp:46-100 | a 100 ms held detumble torque never reverses the rate and takes off at least friction_kinetic 0.1 / j_platform until rest |
| `ClosedLoop.LossIsTheRigs` | fsw/sil/plant.cpp:46-86 | the amount taken off is the rig's own kinetic friction times 0.1 s over its platform inertia |
| `ClosedLoop.CoastSlows` | fsw/sil/plant.cpp:46-100 | so does a cycle without a rate sample |
| `ClosedLoop.DetumbleCycle` | fsw/src/executive.cpp:230-250 | a cycle that stays in DETUMBLE commands the detumble law's torque, counts a sample in the deadband, resets on one outside it, and neither counts nor resets without one |
| `ClosedLoop.RunMirrors` | fsw/sil/plant.cpp:31-100 | turning the rig and the torque round turns the whole motion round |
| `Attitude.FilterBound` | fsw/src/attitude_control.cpp:66-84 | against a true heading that turns as it likes, a compass that names it up to whole turns, and a gyro within b of the true rate: for every sequence of positive intervals the heading error never exceeds the larger of where it started and b times the time constant |
| `Attitude.UpdateBound` | fsw/src/attitude_control.cpp:66-84 | one update, snapping or blending, keeps any such bound while the truth moves on |
| `Attitude.BlindIsDeadReckoning` | fsw/src/attitude_control.cpp:66-67 | with no compass the heading after any run is its start plus the sum of rate times time |
| `Attitude.SnapTakesAll` | fsw/src/attitude_control.cpp:69-78 | the first fix, and any more than a radian off, takes out the whole error |
| `Attitude.BlendLeavesShare` | fsw/src/attitude_control.cpp:79-82 | any other leaves the share tau over tau plus dt of it |
| `Heading.DeadReckoningOfARun` | fsw/src/executive.cpp:193-203 | the same through the whole executive, in every mode, the time read off the wrapping counter |
| `Heading.ErrorOfARun` | fsw/src/executive.cpp:193-203 | and the error bound likewise |
| `Heading.CycleAims` | fsw/src/executive.cpp:185-191 | a cycle's target: the heading it was commanded, else the one held, and never commanded, the heading at the entry into POINTING |
| `Heading.TargetOfARun` | fsw/src/executive.cpp:153-157 | a heading once commanded, a 256th of a turn per count, is the target through every mode change until the next |
| `Attitude.Wrap` | fsw/src/attitude_control.cpp:53-62 | wrapping ends within half a turn of zero |
| `Attitude.WrapCongruent` | fsw/src/attitude_control.cpp:53-62 | the wrapped angle differs by whole turns |
| `Attitude.WrapShortest` | fsw/src/attitude_control.cpp:53-62 | and is the shortest of all angles naming that bearing |
| `Attitude.WrapPi` | fsw/src/attitude_control.cpp:53-62 | the loops compute that angle and terminate |
| `Attitude.Control.Update` | fsw/src/attitude_control.cpp:66-84 | the estimate after one update: gyro only, first or far compass snaps, near compass blends |
| `Attitude.Control.Detumble` | fsw/src/attitude_control.cpp:25-45 | the detumble torque and the saturation flag |
| `Attitude.Control.Point` | fsw/src/attitude_control.cpp:106-140 | the pointing torque, never over the ceiling, and the saturation flag |
| `Pointing.DrivesTowardTarget` | fsw/src/attitude_control.cpp:114-139 | outside the band and moving, with positive error the torque is positive if and only if the rate is above minus the wanted slew, mirrored for negative error: the platform is driven toward the target and held to that slew |
| `Pointing.ShovesTowardTarget` | fsw/src/attitude_control.cpp:130-137 | when it is hardly moving the extra push has the error's sign |
| `Pointing.BrakesInBand` | fsw/src/attitude_control.cpp:107-112 | in the band the torque opposes the rate |
| `Pointing.PointSlows` | fsw/include/fsw/attitude_control.hpp:64-86 | on the modelled rig a POINTING cycle never turns the platform round and slows it, whatever the target: it can hold and not slew, and the angle moves with the rate |
| `Pointing.PointApproaches` | fsw/src/attitude_control.cpp:106-140 | while the platform turns toward the target, and would not shoot past by more than it is off, the error does not grow |
| `Pointing.FreeSlew` | fsw/src/attitude_control.cpp:114-139 | without friction, with the default gains, rates up to 1.5 rad/s and the wheel within 20, each held torque brings the rate a fixed share closer to the wanted slew |
| `DetumbleLaw.DetumbleIs` | fsw/src/attitude_control.cpp:25-45 | outside the deadband the torque has the rate's sign and is the gain times its size up to the ceiling; inside it is zero |
| `DetumbleLaw.FreeDetumble` | fsw/src/attitude_control.cpp:35-44 | without friction, with the default gains, rates up to 2 rad/s and the wheel within 20, each held torque takes a fixed share off the rate, so it is the law that stops the platform and not the bearing alone |
| `DetumbleLaw.SaturatedIff` | fsw/src/attitude_control.cpp:12-23 | the saturation flag is set exactly when the limit cut the demand, and nothing else changes |
| `Attitude.DetumbleTorque` | fsw/src/attitude_control.cpp:25-45 | never over the torque ceiling |
| `Plant.CoastNeverSpeedsUp` | fsw/sil/plant.cpp:46-100 | with no torque, for any interval, friction never speeds the platform up or turns it round |
| `Plant.WheelBounded` | fsw/sil/plant.cpp:31-55 | for any torque and interval the wheel stays within its limit plus what one substep of full torque adds |
| `Plant.MomentumKeptIff` | fsw/sil/plant.cpp:46-86 | without friction a substep conserves momentum if and only if it delivers torque, finds the platform moving above the rest rate, or finds it still |
| `Plant.FrictionImpulse` | fsw/sil/plant.cpp:46-86 | while the platform slides a substep takes exactly friction's impulse, kinetic and viscous, out of the total momentum |
| `Plant.RunSplits` | fsw/sil/plant.cpp:88-100 | stepping whole milliseconds and then the rest is stepping the sum |
| `Plant.SubstepTurns` | fsw/sil/plant.cpp:57-86 | the angle always moves by the new rate times the substep |
| `Plant.StaysPut` | fsw/sil/plant.cpp:57-64 | a platform at rest keeps its angle exactly under any torque up to breakaway, however long it is held |
| `Plant.BreaksAway` | fsw/sil/plant.cpp:57-69 | and gives way in one substep past it, against the torque on the wheel |
| `Plant.Rig.DoSubstep` | fsw/sil/plant.cpp:46-86 | one substep's whole new state, stuck, sliding and stopping |
| `Plant.Rig.Step` | fsw/sil/plant.cpp:88-100 | the loop computes the run of substeps and terminates for every interval |
| `FrameTheorems.RoundTrip` | common/protocol/frame.cpp:10-87 | an encoded message decodes to itself and leaves the parser hunting, for both decoders' length limits |
| `FrameTheorems.BurstRejected` | common/protocol/frame.cpp:62-99 | any error within 16 consecutive bits of a frame's id, payload and checksum makes the decoder reject it, for every payload length |
| `FrameTheorems.OddErrorRejected` | common/protocol/frame.cpp:62-99 | so does any odd number of flipped bits anywhere in them |
| `FrameTheorems.LegalForever` | common/protocol/frame.cpp:29-87 | on every byte stream the payload index stays below a length of at most 64, and only frames of at most 64 bytes come out |
| `FrameTheorems.ZeroRun` | common/protocol/frame.cpp:29-87 | n zero bytes bring the parser back to hunting exactly if n is at least the state's distance, emitting at most one stray frame |
| `FrameTheorems.Resynchronises` | common/protocol/frame.cpp:29-87 | after 66 zero bytes from any reachable state the next frame decodes |
| `FrameTheorems.SixtySixIsTight` | common/protocol/frame.cpp:42-61 | 65 are not enough |
| `FrameTheorems.StraySyncLosesFrame` | common/protocol/frame.cpp:31-38 | one stray AA ahead of a frame spoils it for both decoders: its sync bytes are used up and the rest is hunted through, so with no AA in there the frame is lost |
| `Frame.Encode` | common/protocol/frame.cpp:10-27 | refuses an overlong payload untouched, otherwise lays out exactly the frame |
| `Frame.FrameParser.Decode` | common/protocol/frame.cpp:29-87 | one byte moves the parser's meaning and emits a frame exactly as the abstract parser does, whatever stale bytes the buffer holds |
| `Crc.Crc16` | common/protocol/frame.cpp:89-99 | the nested loops compute the checksum function, which CrcNumber.ChecksumIsNumber ties to the integer register |
| `CrcNumber.NatBitsAt` | common/protocol/frame.cpp:89-99 | bit i of a number's k bits is its value at place k - 1 - i: the most significant comes first |
| `CrcNumber.ChecksumIsNumber` | common/protocol/frame.cpp:89-99 | for all data the checksum's bits, read as a number, are what the integer register holds: exclusive-or with the byte times 256, then eight times doubled, reduced by 1021 hex when the top bit was set |
| `CrcNumber.FrameBytes` | common/protocol/frame.cpp:10-27 | an encoded frame is AA 55, the id, the length, the payload, and that number high byte first |
| `CheckValue.CheckValue` | fsw/test/test_comms.cpp:355-358 | the checksum of the nine characters 123456789 is 29B1 hex |
| `Crc.FieldCorrectIffDivides` | common/protocol/frame.cpp:62-81 | the received checksum matches if and only if the body with it is a multiple of the generator polynomial of section 2 of ITU-T V.41, from the all-ones preset |
| `Crc.BurstCaught` | common/protocol/frame.cpp:89-99 | a change confined to 16 consecutive bits always breaks the checksum |
| `Crc.OddErrorCaught` | common/protocol/frame.cpp:89-99 | an odd number of changed bits always breaks the checksum |
| `PyFrames.FrameDecoder.Push` | tools/ground/frames.py:68-100 | one byte moves the ground decoder and emits as the abstract parser does without a length limit, counting checksum failures |
| `PyFrames.Crc16Bytes` | tools/ground/frames.py:37-44 | the second implementation computes the same checksum function |
| `PyFrames.DecodersAgree` | tools/ground/frames.py:54-100 | on every stream with no length byte above 64 both decoders emit the same frames and end in the same state |
| `PyFrames.LockstepIff` | tools/ground/frames.py:79-85 | they walk through the same states if and only if the stream has no such byte |
| `PyFrames.OverlongFrameSeenByGroundOnly` | tools/ground/frames.py:79-85 | a valid 65-byte frame is a message to one and noise to the other |
| `Radio.Nrf24.WritePacket` | obc/Src/devices/nrf24.c:109-131 | a full FIFO drops and counts, otherwise exactly one zero-padded packet is loaded |
| `Radio.Nrf24.Send` | obc/Src/devices/nrf24.c:213-242 | the packets before the first refusal go out in order, and the call succeeds exactly if all did |
| `Radio.RadioRoundTrip` | obc/Src/devices/nrf24.c:213-242 | any sequence of messages encoded, cut into zero-padded packets and delivered decodes to exactly that sequence and ends hunting |
| `GroundStation.Pipe.Rx` | gsw/src/main.cpp:105-114 | a byte that completes a frame yields that frame's own bytes again, and counts it |
| `GroundStation.Station.OnLinkRx` | gsw/src/main.cpp:105-140 | a packet moves only its own radio's parser and adds only its own whole frames to the port, which always holds exactly the frames heard since boot |
| `GroundStation.PortStep` | gsw/src/main.cpp:105-140 | forwarding one more packet adds exactly that packet's frames behind everything forwarded so far |
| `GroundStation.RadiosDoNotMix` | gsw/src/main.cpp:105-147 | no interleaving of the other radio's packets changes what one radio's bytes decode to |
| `GroundStation.TwoRadiosOnePort` | gsw/src/main.cpp:105-147 | for any interleaving of packets a station has heard, its serial port holds both radios' messages whole, each radio's in order, and the ground decoder reads the port back exactly |
| `Uart.EveryInterleaving` | obc/Src/drivers/uart.c:167-260 | every interleaving of writer, reader and interrupt keeps bytes once and in order and the interrupt armed for waiting bytes |
| `Uart.BytesOnceInOrder` | obc/Src/drivers/uart.c:167-260 | from power-up the wire carries a prefix of what was written, the rest is queued, and arrivals equal read plus waiting plus dropped |
| `UartService.DrainsOut` | obc/Src/drivers/uart.c:250-259 | while the writer is quiet n transmit interrupts put the next n waiting bytes on the wire, whatever arrives meanwhile, and leave the interrupt enabled exactly while bytes still wait |
| `UartService.ReceivesOfARun` | obc/Src/drivers/uart.c:231-248 | from power-up a byte is kept if and only if fewer than 255 were waiting, reads return the kept ones in order, and exactly the others are counted as dropped |
| `Uart.StepSound` | obc/Src/drivers/uart.c:167-260 | each atomic step keeps the queue within 255 bytes and a non-empty transmit ring armed unless the writer is mid-byte |
| `Uart.RingPush` | obc/Src/drivers/uart.c:171-177 | storing at the head and advancing it appends to the queue, and the full test is exactly 255 waiting |
| `Uart.RingPop` | obc/Src/drivers/uart.c:192-199 | advancing the tail removes the oldest byte, and head equals tail exactly when empty |
| `Uart.Port.Interrupt` | obc/Src/drivers/uart.c:217-260 | the shared handler is the queue machine's step for every combination of status bits |
| `Uart.Port.ReadByte` | obc/Src/drivers/uart.c:192-199 | the oldest waiting byte, or none |
| `Uart.Port.RxAvailable` | obc/Src/drivers/uart.c:203-205 | exactly the queue length |
| `Uart.Port.Write` | obc/Src/drivers/uart.c:167-183 | every byte of the buffer is queued once, in order, whatever mixture of receive and transmit interrupts wakes the writer while it sleeps on a full ring, and everything that arrived meanwhile is kept or counted |
| `Beacon.Queue.Offer` | obc/Src/freertos/telemetry_task.cpp:192-212 | appended when there is room, otherwise dropped and counted; offered equals handed to the radio plus waiting plus dropped |
| `Beacon.Queue.Service` | obc/Src/freertos/telemetry_task.cpp:134-155 | the oldest waiting frame goes to the radio and frees its slot |

## Left out

- Downlink.Task.ServeRequests: for images of at most 4096 chunks, because past that the sweep indexes beyond the request table, which has no defined meaning; RequestTable.InTableIff says exactly which images those are.
- Downlink.Task.ServeOne: for chunks the request table has, for the same reason.
- Uart.Port.Write: no interrupt between its three stores of one byte; every such interleaving is covered by Uart.EveryInterleaving.
- Beacon.Queue.Offer: a slot holds one frame as a byte sequence, so the byte copies into and out of the slot buffers are not modelled.
- WheelTorque.TorqueOfARun: a pulse whose end falls exactly on counter value zero never runs, because zero means no pulse; the statement says so.
- Fault and inhibit masks are sets and the request bitmap is a table of booleans, so packing into 32-bit words is not modelled.
- Floating-point rounding: angles, rates and torques are reals.
- The counter's 32-bit wrap is modelled where times are compared; event logs carry the counter value as it is.
- An image's parts and an unacknowledged command are values inside their tables, so sharing of those objects is not modelled.
- An absent buffer handed to the packet radio is an empty sequence.
- When the downlink's own progress frame is due; the pace of everything here is free.
- Telemetry frames other than the command acknowledgement and the payload: single-branch packing.
- The compass and gyro-bias learning of the control task, which feeds the executive its rate and heading.
- Sensor and radio drivers, clocks, DMA and bus transfers: the FIFO and the radios are byte sources and channels.
- The operating system's kernel, mutexes and queues: bounded first-in first-out queues and atomic steps.
- The mission, survey, sweep and recover macros, displays, the console and file output of the ground tools.
- Camera resolution changes, which wait for an idle camera and touch neither the FIFO nor its counters.
