# Verified model of the eMMC/SD driver's request engine

The driver serves block requests: a start sector and a linked list of memory blocks. An
interrupt-driven state machine turns each request into MMC commands (CMD17/24, CMD23 with
CMD18/25, CMD18/25 with CMD12, or CMD18/25 with automatic CMD23), and requests wait in a
ring of 32 command slots of which only the head is ever submitted. In ADMA2 mode the whole
block list becomes one transfer through a descriptor table, with unreachable blocks
redirected through a bounce buffer. This project models that machinery and proves what it
does, down to the bytes on the card.

| file | content |
|---|---|
| `Mmc.dfy` | words, status values, opcodes, blocks, requests |
| `CmdQueue.dfy` | the command context and the ring with three cursors (classes) |
| `IrqMachine.dfy` | interrupt-status words driving one command |
| `Memory.dfy` | flat memory, gathering and scattering along region lists |
| `Adma2.dfy`, `Bounce.dfy`, `Sdhci.dfy` | descriptor table, bounce buffer, and the methods that fill them in place (class) |
| `Capacity.dfy` | advertised sizes against reserved sizes |
| `Protocol.dfy`, `Runs.dfy` | the plan of a request, the job that follows it, and what holds for all outcomes |
| `Wires.dfy` | commands cut to what the controller gets |
| `Engine.dfy`, `Safety.dfy`, `History.dfy`, `Refusal.dfy` | the state machine over requests and interrupts, its invariant, its logs, and refused requests |
| `Device.dfy` | `inout_data`, `handle_irq` and their helpers over ring slots (class), proved against `Engine` |
| `Card.dfy` | an abstract card and its controller; ADMA2 refines SDMA |
| `Failures.dfy` | what commands that fail leave on card and in memory |
| `EndToEnd.dfy` | whole runs serve the requests in order, and what they report is true |
| `DmaCache.dfy` | reference-counted DMA mappings (class) |
| `Clocks.dfy` | three searches for clock divisors |
| `Modes.dfy` | speed-mode fallback of eMMC devices and SD cards |

The main results are `EndToEnd.RunsServeRequests`, `EndToEnd.ReportsTrue`, `History.EngineRuns`,
`History.OutcomesHeard`, `IrqMachine.CmdStream`, `Wires.WireBrackets`, `Adma2.ReachExact`, `Capacity.AdmittedExact`,
`Card.Adma2RefinesSdma`, `Sdhci.WriteTransfer`, `Sdhci.ReadTransfer`, `Runs.RunMeaning`,
`Runs.RunBrackets`, `Capacity.AdmissionSafe`, `Card.SdmaExact`, `Card.Adma2Exact`,
`Refusal.AheadServed`, `Refusal.StallsExactly`, `Refusal.StallExact`,
`IrqMachine.ResumesExactly`, `DmaCache.CacheRuns`, `DmaCache.HandleExact`, `Clocks.SetClockUsdhc`,
`Modes.SensibleExact` and `Modes.WidthExact`.

The class `Device.Device` carries the state of the state machine in module `Engine` as a
ghost field. `Valid()` ties every field of every slot, the ring, the interrupt mask and
both logs to it, and the contracts of `InoutData` and `HandleIrq` say that it takes exactly
the step the state machine takes, refusals and exceptions included. `Device.Serve` feeds
any sequence of events to an object: it ends in the state `History.FromStart` names, with
the wire log and the callbacks that follow from it, so what `Safety`, `History`, `Refusal`
and `EndToEnd` prove about runs of the state machine is proved of the class. Arithmetic that the code does in 32 bits is modelled in 32 bits; the
plans of module `Protocol` count sectors without wrap-around, and `Wires.OnWire` is the
place where they are cut to what the controller gets.

## Where the code does not do what one might expect

Each of these is proved, with the exact condition.

- A refused request is rolled back if and only if no other request is in the queue.
  Otherwise `cmd_work_done` throws inside the handler, the exception leaves `inout_data`,
  and the slot stays in the ring (`Refusal.RefusalExact`). Those behind the lost slot are
  never answered (`Refusal.LostSlotBlocks`). Those ahead of it go on as if it were not
  there, whatever arrives (`Refusal.AheadGoesOn`), and unless a handler throws they are
  all answered after as many completions as they have commands left at the latest
  (`Refusal.AheadServed`).
- Apart from a lost slot that reaches the head and from callbacks that are missing or
  throw (see "Left out"), the engine stops for good, with nothing put on the bus or
  answered any more, exactly when an exception leaves the interrupt handler
  (`Refusal.StuckExact`, `Refusal.StuckForever`): at a DMA boundary in ADMA2 mode; when
  the software reset that follows an error of a command or a transfer does not end within
  10 ms, which leaves the failed request at the head without an answer
  (`Refusal.ResetTimeoutStops`); or when the next command of an accepted request, or the
  first command of the request behind it, is refused. Requests within the advertised
  limits cause the last of these if and only if the configuration lets one command exceed
  65535 sectors (`Refusal.StallExact`); otherwise the engine stops if and only if the
  controller driver throws in one of the other two ways (`Refusal.StallsExactly`, and
  `Refusal.GlitchStalls` for all configurations).
- `max_size()` uses the size of the bounce buffer without limiting it to
  `max_inout_req_size()`. Admitted requests are always accepted by the controller driver if
  and only if `max_segments` segments of `max_size()` bytes make no more than one request
  (`Capacity.AdmissionSafe`); a larger bounce buffer admits a request of 65536 sectors
  (`Capacity.OversizedRequest`).
- For one segment the descriptor count falls one short; only the rounding to pages provides
  the 1024th descriptor (`Capacity.TightForOneSegment`).
- Without a bounce buffer no block is checked against the DMA limit, only against the
  addresses a descriptor can hold: the controller is pointed at nothing beyond the limit if
  and only if there is a bounce buffer or the client's blocks are within it
  (`Adma2.ReachExact`).
- An empty last block leaves the table without an `end` descriptor, and the controller runs
  into stale entries (`Adma2.FetchTable`); an ADMA2 request has its effect if and only if
  its last block is not empty (`Card.Adma2Exact`).
- SDMA skips empty blocks but for the first. A CMD23 with count 0 announces nothing, so the
  transfer stays open: an SDMA request has its effect if and only if its first block is not
  empty or CMD23 is not used (`Card.SdmaExact`).
- When the controller driver throws, the interrupt stays masked with the request at the head
  of the queue: in progress after a DMA boundary in ADMA2 mode, failed after a reset that
  timed out (`Safety.InterruptHealthy`, `Device.StatusCases`).
- A transfer by SDMA starts at the bus address of the memory, offset included, but at a
  buffer boundary the address register is written without the offset. Over every stream of
  words the engine is where it should be if and only if the offset is a multiple of 2^32 or
  no boundary was reported (`IrqMachine.ResumesExactly`, `IrqMachine.OffsetExact`); with the
  offset of old Bcm2711 boards the first boundary sends it 1 GB too far
  (`IrqMachine.OldBcm2711Derails`). The SDHCI driver is built with ADMA2, so this is latent.
- An error of an automatic command is the only status change that is not acknowledged
  (`IrqMachine.AckSound`).
- Destructing a command that is not the oldest one breaks the `enqueued` flags
  (`CmdQueue.Queue.Destruct`). The engine only ever destructs the oldest one.
- Sharing a known DMA mapping does not look at its size: a mapping that succeeds covers the
  sectors asked for if and only if the region was unknown or known with that size or more
  (`DmaCache.MapCovers`).
- A mapping whose physical address is already in the reverse map breaks the inverse
  relation (`DmaCache.MapInverse`). A mapping that comes back too short is never undone
  (`DmaCache.CacheRuns` counts it as lost).
- Divisor 1 reads back as 0 on iproc and Bcm2711 (`Clocks.IprocRoundTrip`). Below 390625 Hz
  the SDHI clock exceeds the request (`Clocks.SetClockSdhi`).
- The eMMC fallback loop makes sense for all outcomes if and only if HS400 is not permitted
  without HS200 (`Modes.SensibleExact`); disabling HS200 alone on the command line breaks
  that. When HS200 is selected, HS400 stays in the device type that is kept
  (`Modes.KeptExact`).
- A bus width that the card refuses with SWITCH_ERROR is only reported, not acted on: the
  mode is selected with the bus as it was (`Modes.RefusedUnnoticed`). A selected mode has
  the bus it needs if and only if its last width step was done, or all were refused and
  the bus was so before (`Modes.WidthExact`).
- In ADMA2 mode the byte count reported to clients is always 0 (`Runs.RunMeaning`), also
  with a positive report. In SDMA mode it is exact, also with a negative one, if and only if
  the sectors done fit the 32 bits of their counter (`Device.ToldBytes`): these bytes have
  been transferred, and only the block behind them may be spoiled
  (`EndToEnd.ReportsTrue`).

## Model

| member | source | states |
|---|---|---|
| CmdQueue.Queue.IsFull | server/src/cmd.h:281-282 | the ring is full exactly when 31 commands are live |
| CmdQueue.Queue.Create | server/src/cmd.h:284-295 | a bounded FIFO of 31: null exactly when full, otherwise the new slot is appended to the live and the work list; the exception for an entry that was not destroyed is unreachable while the flags mark the live window, which it keeps |
| CmdQueue.Queue.Working | server/src/cmd.h:297-298 | the first command of the work list, if any |
| CmdQueue.Queue.NumWork | server/src/cmd.h:300-306 | the loop ends with the length of the work list |
| CmdQueue.Queue.WorkDone | server/src/cmd.h:308-313 | takes the head off the work list, or throws exactly when the command is not the head |
| CmdQueue.Queue.Destruct | server/src/cmd.cc:17-28 | frees the oldest slot; throws exactly when the command is not enqueued or nothing is worked off; the flags keep marking the live window if and only if the command was the oldest |
| CmdQueue.Cmd.InitInout | server/src/cmd.h:161-173 | the slot holds the request from its first block on, with all flags but `enqueued` reset |
| CmdQueue.Cmd.ReinitInoutData | server/src/cmd.h:184-196 | the slot is ready with a transfer of 512-byte blocks |
| IrqMachine.HandleIrqCmd | server/src/drv_sdhci-impl.h:243-310 | the priority of timeout, command error, automatic-command error and completion, what is acknowledged in each case, and the exception, thrown exactly when the reset after an error does not end |
| IrqMachine.HandleIrqData | server/src/drv_sdhci-impl.h:316-408 | the data phase with the re-programming at a DMA boundary in 32-bit arithmetic and the address written there, acknowledgements, and the exceptions, thrown exactly at an ADMA2 boundary and when the reset after an error does not end |
| IrqMachine.HandleIrq | server/src/drv_sdhci-impl.h:216-239 | one word drives the command phase and, if that starts it, the data phase too; an exception of either leaves at once |
| IrqMachine.AckSound | server/src/drv_sdhci-impl.h:243-405 | only bits that were seen are acknowledged, and the bits that decide the branch are among them, except for an automatic-command error and for the DMA interrupt at which the ADMA2 handler throws |
| IrqMachine.CmdPhaseExact | server/src/drv_sdhci-impl.h:243-310 | which status the command phase ends in, for every combination of bits: timeout before errors before completion, and completion means success exactly for a command without data |
| IrqMachine.DataPhaseExact | server/src/drv_sdhci-impl.h:316-348 | the same for the data phase: any of five errors before completion |
| IrqMachine.ThrowsExact | server/src/drv_sdhci-impl.h:304-408 | the handlers throw exactly at a DMA interrupt with blocks left in the data phase of an ADMA2 transfer, and after an error whose reset does not end |
| IrqMachine.DataStream | server/src/drv_sdhci-impl.h:316-348 | over every stream a transfer succeeds if and only if the first word that reports completion or an error reports no error; without such a word it stays in progress |
| IrqMachine.CmdStream | server/src/drv_sdhci-impl.h:216-348 | over every stream the first word that says anything about the command phase decides a command without data; a transfer that it lets through is decided by that word or the first later one that says anything about the data phase, whether both phases complete with one word or with two |
| IrqMachine.Forward | server/src/drv_sdhci-impl.h:216-405 | over every stream of words the status only moves forward, stays once final, and ends in success or one of the three errors |
| IrqMachine.SuccessMeansBothPhases | server/src/drv_sdhci-impl.h:243-347 | over every stream a data command succeeds only after a word that completes the command phase and that or a later word that completes the transfer, both without error bits |
| IrqMachine.EndKept | server/src/drv_sdhci-impl.h:349-375 | over every stream and for all block counts the controller reports, address and block count of the command denote the same end, modulo 2^32 |
| IrqMachine.ResumesExactly | server/src/drv_sdhci-impl.h:349-375 | over every stream the address last written to the SDMA engine is the bus address of the start plus the bytes done if and only if the offset is a multiple of 2^32 or no boundary was handled |
| IrqMachine.OffsetExact | server/src/drv_sdhci-impl.h:747-752 | that is so for all streams if and only if the offset is a multiple of 2^32 |
| IrqMachine.OldBcm2711Derails | server/src/drv_sdhci-bcm2711.cc:52-57 | with the offset of an old board the register is 1 GB off after the first boundary, for every start, length and boundary |
| Adma2.ChopShape | server/src/drv_sdhci-impl.h:1404-1425 | a region is cut into consecutive pieces of 1 to 32768 bytes, as many as counted |
| Adma2.TableShape | server/src/drv_sdhci-impl.h:1399-1428 | all descriptors are valid transfer lines of 1 to 32768 bytes; `end` is on the last one and on no other, exactly when the last region is not empty |
| Adma2.TableAddresses | server/src/drv_sdhci-impl.h:1399-1428 | descriptor k holds the length of piece k and its bus address, the offset added within the address width |
| Adma2.AddrOkMeans | server/src/drv_sdhci-impl.h:1404-1425 | the address check lets a region through exactly if no piece starts at or above the highest value of an address field |
| Adma2.SlotExact | server/src/drv.h:66-67 | a block that is not empty stays where it is if its last byte is within the DMA limit, and otherwise goes to the bounce buffer if there is one |
| Adma2.ReachExact | server/src/drv_sdhci-impl.h:1450-1465 | the controller is pointed at nothing beyond the DMA limit if and only if there is a bounce buffer or all client blocks are within the limit |
| Adma2.FetchBelow | server/src/drv_sdhci-impl.h:1399-1470 | with a bounce buffer every piece the controller finds in the table is within the limit, over any stale entries |
| Adma2.BusRoundTrip | server/src/drv_sdhci.h:1164-1196 | adding the DMA offset within the address width loses nothing |
| Adma2.FetchTable | server/src/drv_sdhci-impl.h:1399-1470 | over any stale contents the controller performs exactly the pieces of the placed regions if the last one is not empty, and otherwise runs on into the stale entries |
| Adma2.GatherChopAll | server/src/drv_sdhci-impl.h:1404-1425 | gathering along the pieces reads what gathering along the regions reads |
| Adma2.ScatterChopAll | server/src/drv_sdhci-impl.h:1404-1425 | scattering along the pieces writes what scattering along the regions writes |
| Bounce.CopyInFrame | server/src/drv_sdhci-impl.h:1447-1461 | copying blocks in for a write touches nothing but the bounce buffer |
| Bounce.WriteMeaning | server/src/drv_sdhci-impl.h:1444-1465 | with blocks copied in, the placed regions hold the concatenation of the client blocks |
| Bounce.ReadMeaning | server/src/drv_sdhci-impl.h:865-880 | delivery to the placed regions and copy-back leave memory outside the bounce buffer as a direct delivery to the client blocks: both traversals compute the same offsets |
| Sdhci.Sdhci.SetDescsMemRegion | server/src/drv_sdhci-impl.h:1399-1428 | appends the descriptors of one region in place; throws exactly when the table is full or an address is out of range |
| Sdhci.Sdhci.SetBlock | server/src/drv_sdhci-impl.h:1446-1465 | redirects an unreachable block, throws exactly when bounce buffer or table do not suffice |
| Sdhci.Sdhci.SetDescs | server/src/drv_sdhci-impl.h:1437-1470 | table prefix, memory and copy-back flag after the loop over all blocks |
| Sdhci.EnterMeans | server/src/drv_sdhci-impl.h:1437-1470 | the loop throws exactly when the request does not fit; otherwise the table is that of the placed regions, memory is unchanged for a read and copied in for a write |
| Sdhci.Sdhci.CopyBackBounce | server/src/drv_sdhci-impl.h:865-880 | the second traversal copies each bounced block back from the offset it was given |
| Sdhci.WriteTransfer | server/src/drv_sdhci-impl.h:1399-1470 | end to end for writes: whatever the table held, the controller reads exactly the concatenation of the client blocks |
| Sdhci.ReadTransfer | server/src/drv_sdhci-impl.h:843-882 | end to end for reads: every byte outside the bounce buffer is as if the data had been delivered to the client blocks one after the other |
| Sdhci.ReadDelivers | server/src/drv_sdhci-impl.h:843-882 | blocks that do not overlap each hold their slice of the data |
| Capacity.MaxSize | server/src/device.h:160-170 | a multiple of the sector size, and `max_segments` of it fit the bounce buffer or one request |
| Capacity.MaxSizeExact | server/src/device.h:160-170 | it is the largest such size: a multiple of the sector size is within it if and only if `max_segments` of it fit |
| Capacity.AdmittedExact | server/src/device-impl.h:300-309 | admitted are exactly the requests of at most `max_segments` blocks each of which would fit that many times |
| Safety.TooLargeExact | server/src/device-impl.h:300-313 | the size check fails exactly for a block that would not fit that many times |
| Capacity.EntriesSuffice | server/src/drv_sdhci-impl.h:96-105 | the descriptor memory suffices for `max_seg` segments that fit one request, for 1 to 128 segments and both descriptor widths |
| Capacity.AdmittedIsSubmittable | server/src/drv_sdhci-impl.h:1405-1454 | table, bounce buffer, addresses and block count suffice for every admitted request |
| Capacity.OversizedRequest | server/src/device.h:160-170 | where the condition fails there is an admitted request that cannot be submitted, and that takes a bounce buffer larger than one request |
| Capacity.AdmissionSafe | server/src/device.h:160-170 | no admitted request throws if and only if `max_segments * max_size()` is at most one request |
| Capacity.TightForOneSegment | server/src/drv_sdhci-impl.h:96-105 | the largest request in one segment takes all 1024 entries, one more than the formula counts |
| Capacity.NoTruncation | server/src/drv_sdhci-impl.h:1443-1461 | block sizes and bounce offsets of admitted requests fit the 32-bit variables of the code |
| Protocol.ArgMeaning | server/src/device-impl.h:682-696 | the truncation of the sector number cannot be seen in the 32-bit argument |
| Protocol.SkipEmpty | server/src/device-impl.h:654-659 | the next block that is not empty, without passing over any sector |
| Protocol.TraceIsPlanned | server/src/device-impl.h:593-764 | for all outcomes the commands on the bus are the plan up to the first failure and the CMD12 that closes it |
| Runs.RunMeaning | server/src/device-impl.h:595-704 | for all outcomes the bus log is a prefix of the plan, the report comes with its last command, is positive exactly when all commands but CMD12 succeeded, and (SDMA) counts the sectors of the transfers that succeeded |
| Runs.SuccessReport | server/src/device-impl.h:595-764 | when all commands succeed the whole plan is carried out and success reported, in SDMA mode with all sectors |
| Runs.PlanTiles | server/src/device-impl.h:644-704 | the transfers cover consecutive sectors from the start sector on, in sum those of the request |
| Runs.RunBrackets | server/src/device-impl.h:601-615 | in every run CMD12 follows exactly the transfers of several sectors without CMD23, once, in the same direction, whether they failed or not; a CMD23 is followed by the transfer it announces |
| Runs.RunKinds | server/src/device-impl.h:668-764 | in every run all transfers have the direction of the request; a transfer of one sector uses the command for single sectors exactly in SDMA mode; the controller sends CMD23 itself exactly in ADMA2 mode where both know it, and CMD12 is used only where CMD23 is not known |
| Wires.WireBrackets | server/src/device-impl.h:601-615 | the same brackets as the controller gets them: the CMD12 of the direction of its transfer and of no other, and CMD23 with the 16 low bits of the count of the transfer behind it |
| Runs.PlanSettled | server/src/device-impl.h:668-764 | a plan leaves nothing open and has at most two commands per block, two in all in ADMA2 mode |
| Runs.RunEnds | server/src/device-impl.h:595-764 | every request finishes within that many completions, whatever the outcomes |
| Runs.PlanFits | server/src/drv_sdhci-impl.h:684-709 | no command of an admitted request is refused by the controller driver |
| Card.SubmitExact | server/src/drv_sdhci-impl.h:684-709 | a transfer is refused exactly when its block count as the register holds it exceeds 16 bits, or when entering it into the descriptor table throws |
| Protocol.NextAhead | server/src/device-impl.h:595-764 | each completion takes one command off what lies ahead or ends the request, success only at the end |
| Safety.ArriveHealthy | server/src/device-impl.h:285-346 | a request within the advertised limits is accepted unless 31 are waiting, and leaves the head in progress and unmasked and the others ready |
| Safety.InterruptHealthy | server/src/device-impl.h:560-592 | an interrupt keeps that invariant unless the controller driver throws; then, and only then, the interrupt stays masked with the request at the head, in progress after a DMA boundary, failed after a reset that timed out |
| History.EngineRuns | server/src/device-impl.h:283-764 | after any sequence of requests and interrupts whatever, refusals and exceptions included, the bus has carried the runs of the requests that entered the queue, in order, nothing else, and that of the head as far as it has come; each request before the head was accepted and has had exactly one report, the right one, in order of entry |
| History.InterruptRecords | server/src/device-impl.h:560-592 | an interrupt records the outcome its bits say, and without one leaves bus and reports as they are |
| History.OutcomesHeard | server/src/device-impl.h:560-640 | over any run the outcomes by which bus and reports are explained are what the controller's words have said, one for each command, in order |
| History.RunsStayHealthy | server/src/device-impl.h:283-764 | where no command can be too large: after any sequence of requests within the limits and of interrupts for which the controller driver does not throw, the head is in progress and unmasked, the others wait, and all requests that entered were accepted |
| History.CompleteRecorded | server/src/device-impl.h:595-640 | a completed command brings the next one of the same request onto the bus or ends the request with its answer and starts the next |
| History.Drained | server/src/device-impl.h:595-640 | over interrupts that each complete a command, without an exception and whatever the outcomes, there is less to do each time, requests leave the queue only with their report, and when nothing is left all have been reported |
| Refusal.RefusalExact | server/src/device-impl.h:297-343 | which requests are turned away, refused or accepted, in terms of queue length, block sizes and the first command, and that the roll-back restores the state if and only if the queue was empty |
| Refusal.LostSlotBlocks | server/src/device-impl.h:332-343 | after a failed roll-back, in any further run, only requests ahead of the lost slot are answered |
| Refusal.AheadGoesOn | server/src/device-impl.h:332-343 | in any further run the state is that of a run without the lost slot and without the requests that arrive, with those slots behind it |
| Refusal.AheadServed | server/src/device-impl.h:332-343 | the requests ahead of the lost slot get the reports they get without it, all of them after as many completions as they have commands left |
| Refusal.StuckForever | server/src/device-impl.h:560-592 | once the interrupt stays masked with a request at the head, no event puts anything on the bus or answers anything |
| Refusal.StuckExact | server/src/device-impl.h:560-592 | an interrupt leads there if and only if its handler throws, resets that time out included |
| Refusal.ArriveNotStuck | server/src/device-impl.h:285-346 | a request neither stops the engine nor gets it going again |
| Refusal.GlitchStalls | server/src/device-impl.h:586-590 | in any run in which the controller driver throws in handling an interrupt the engine stops |
| Refusal.ResetTimeoutStops | server/src/drv_sdhci-impl.h:304-311 | in any state, a command timeout whose reset does not end leaves the failed request at the head, and nothing is ever answered again |
| Refusal.StallsExactly | server/src/device-impl.h:560-592 | where no command can be too large, requests within the limits and any interrupts stop the engine if and only if the controller driver throws for one of them |
| Refusal.StallExact | server/src/device.h:160-170 | requests within the limits and interrupts for which the controller driver does not throw never stop the engine if and only if no command they lead to can exceed one request |
| Device.Device.TransferBlockSdma | server/src/device-impl.h:668-704 | the slot is ready for the command the plan has for its block, or the positive report has been sent |
| Device.Device.SetBlockCountAdma2 | server/src/device-impl.h:708-736 | the slot is ready for the first command of the ADMA2 plan, with the wrapped sum of sectors |
| Device.Device.HandleIrqInoutSdma | server/src/device-impl.h:644-664 | sector, count and block list advance over the finished block and empty ones, and the next command is ready |
| Device.Device.HandleIrqInoutAdma2 | server/src/device-impl.h:740-764 | after CMD23 the transfer is ready, otherwise success is reported |
| Device.Device.Proceed | server/src/device-impl.h:595-631 | CMD12 with the saved outcome, the report of a failure, or the next step, as the state machine says |
| Device.Device.CmdSubmit | server/src/drv_sdhci-impl.h:716-788 | the command goes over the bus with the fields of its slot, or an exception, exactly when the plan's command is refused, leaves bus and status as they were; an SDMA transfer has set address register and `data_phys` to its first block in both cases |
| Device.Device.CmdQueueKick | server/src/device.h:242-246 | submits the head exactly when it is ready, and unmasks the interrupt then |
| Device.Device.FreeSlot | server/src/device-impl.h:633-637 | work_done throws exactly for a slot that is not the head's; otherwise work_done and destruct cannot throw and keep the ring in order |
| Device.Device.SlotIrq | server/src/drv_sdhci-impl.h:216-405 | command and address register of the slot follow the state machine for one word |
| Device.Device.HandleIrqInout | server/src/device-impl.h:595-640 | slots, ring, logs and interrupt mask follow the state machine for a completed command |
| Device.Device.HandleIrq | server/src/device-impl.h:560-592 | slots, ring, logs and interrupt mask follow the state machine for any interrupt word |
| Device.Device.SizesExceeded | server/src/device-impl.h:300-313 | some segment would not fit `max_segments` times into the bounce buffer or one request |
| Device.Device.RollBack | server/src/device-impl.h:332-343 | restores the state for the head of an otherwise empty queue, throws otherwise |
| Device.Device.InoutData | server/src/device-impl.h:285-346 | state and return code follow the state machine for every request, refused ones included |
| Device.Serve | server/src/device-impl.h:283-592 | an object that has been through any sequence of requests and interrupts is in the state, and has put on the wire and reported, what the theorems about runs say |
| Device.StatusCases | server/src/cmd.h:67-77 | after an interrupt a command in progress is in progress, successful or failed; the handler has thrown exactly at an ADMA2 boundary in the first case and after a reset that timed out in the last |
| Device.ToldBytes | server/src/device.h:248-249 | the bytes a client is told are those of the blocks done if and only if their sectors fit 32 bits |
| Card.SdmaExec | server/src/device-impl.h:644-704 | the SDMA plan moves the blocks of the request between the consecutive sectors and memory, for all settings of CMD23 |
| Card.SdmaExact | server/src/device-impl.h:644-704 | it does so, for requests with empty blocks anywhere, if and only if the first block is not empty or CMD23 is not used |
| Card.Adma2Exec | server/src/device-impl.h:708-764 | the ADMA2 plan has the same effect outside the bounce buffer, for all settings of CMD23 and automatic CMD23 |
| Card.Adma2Exact | server/src/drv_sdhci-impl.h:1399-1470 | it has it, over any stale table, if and only if the last block is not empty |
| Card.WiresMean | server/src/drv_sdhci-impl.h:716-788 | card and controller, given arguments and counts as the registers hold them, do what the commands stand for |
| Card.Adma2RefinesSdma | server/src/drv_sdhci.h:96-101 | the fast form refines the simple form: same card, same memory outside the bounce buffer |
| EndToEnd.RunsServeRequests | server/src/device-impl.h:283-764 | after any run without failed commands what went over the wire has done to card and memory what the accepted requests ask for, in order of acceptance |
| EndToEnd.Serve | server/src/device-impl.h:283-764 | the same of the wire log of an object of class `Device` |
| EndToEnd.ReportsTrue | server/src/device-impl.h:593-764 | over the commands of all finished requests of any run, whatever commands fail, whatever these leave behind and whatever the card waits for after them, each client, in order of entry, is told what has happened while its request was processed: in SDMA mode the bytes of exactly the blocks that have been transferred, with at most the block behind them spoiled; in ADMA2 mode a positive answer means that the request has been carried out and a negative one that nothing else was touched |
| EndToEnd.ServeTold | server/src/device-impl.h:283-764 | the same of the callbacks an object of class `Device` has made |
| EndToEnd.RunWorldsExist | server/src/device-impl.h:593-764 | for all requests and all outcomes of their commands there are such contents of card and memory, so the statement is not empty |
| Failures.AnyStart | server/src/device-impl.h:593-764 | the run of a request on a card that still waits for anything has the start and end of one on an idle card, with the same outcomes |
| Failures.SdmaReport | server/src/device-impl.h:644-704 | what `EndToEnd.ReportsTrue` says, for one SDMA request from an idle card, with the number of blocks done |
| Failures.WorldsExist | server/src/device-impl.h:593-764 | for every request and all outcomes there are contents of card and memory from an idle card to an idle card |
| Failures.Adma2Report | server/src/device-impl.h:740-764 | what `EndToEnd.ReportsTrue` says, for one ADMA2 request from an idle card |
| EndToEnd.PastOnCard | server/src/device-impl.h:593-764 | the same for the log of the finished requests, by induction over them |
| DmaCache.DmaMaps.MapSingle | server/src/device-impl.h:158-204 | the nested maps implement the flat cache, without empty inner maps, and the hardware is asked exactly for unknown regions |
| DmaCache.DmaMaps.UnmapSingle | server/src/device-impl.h:228-269 | the same for unmapping |
| DmaCache.MapAddress | server/src/device-impl.h:158-204 | a mapping hands out the address the region is known by, or that of the hardware exactly if it agrees to all the sectors; the address stands for the region in both maps, and the other regions stay as they are |
| DmaCache.UnmapSame | server/src/device-impl.h:228-269 | what is left in the maps keeps its addresses and sizes |
| DmaCache.HandleExact | server/src/device-impl.h:158-269 | whenever the maps are as runs keep them, an address can be unmapped if and only if some client holds it, and that takes away one mapping of the very region it was handed out for |
| DmaCache.MapInverse | server/src/device-impl.h:188-201 | the two maps stay inverse if and only if the new physical address is not in use |
| DmaCache.MapCovers | server/src/device-impl.h:166-177 | a mapping that succeeds covers the sectors asked for if and only if the region was unknown or known with at least that size |
| DmaCache.MapCounts | server/src/device-impl.h:162-204 | the reference counts stay the multiplicities of the mappings in use |
| DmaCache.UnmapKeeps | server/src/device-impl.h:228-269 | unmapping takes away exactly one mapping, fails exactly for unknown addresses, and removes the entry exactly with the last one |
| DmaCache.DoGood | server/src/device-impl.h:158-269 | the hardware is asked exactly for the first mapping of a region and told exactly after the last |
| DmaCache.CacheRuns | server/src/device-impl.h:158-269 | any run keeps all of this, every address a client holds stands for its region, once for each mapping in use, hardware mappings are conserved, and with nothing in use both maps are empty |
| Clocks.SetClockUsdhc | server/src/drv_sdhci-impl.h:1088-1104 | the clock as it is read back from the fields is within the request unless they hold the largest factor, and no contents of the fields that meet the request divide by less |
| Clocks.RoundTrip | server/src/drv_sdhci.h:551-556 | both decoders return prescaler times divisor |
| Clocks.Optimal | server/src/drv_sdhci-impl.h:1090-1093 | no other pair of prescaler and divisor that meets the request has a smaller factor |
| Clocks.SetClockIproc | server/src/drv_sdhci-impl.h:1041-1056 | the smallest even divisor that meets the request, 2046 if none, 1 if no division is needed |
| Clocks.IprocRoundTrip | server/src/drv_sdhci.h:559-565 | the split field holds every even divisor and reads back as it, and divisor 1 as 0 |
| Clocks.SetClockSdhi | server/src/drv_sdhi.cc:442-459 | the fastest clock up to the request that a legal divisor gives, exactly from 390625 Hz on |
| Clocks.SdhiRoundTrip | server/src/drv_sdhi.h:484-509 | setting and reading the divisor are inverse, including the encodings 0 and 0xff |
| Modes.TrySensible | server/src/device-impl.h:1510-1609 | an attempt selects the fastest permitted mode or masks permitted modes a step of which reported an error, and HS400 stays permitted only with HS200 |
| Modes.SensibleExact | server/src/device-impl.h:1510-1609 | that is so for all outcomes if and only if HS400 is not permitted without HS200 |
| Modes.KeptExact | server/src/device-impl.h:1517-1525 | the device type kept names the programmed timing alone, except after HS200 |
| Modes.WidthExact | server/src/device-impl.h:778-793 | both sides use the bus as the selected mode needs it if and only if its last width step was done, or the card refused all of them and the bus was so before |
| Modes.WidthFailed | server/src/device-impl.h:778-793 | an attempt whose width step fails leaves the controller as it is, and the card too unless it has switched on its own, then to the width of the mode tried |
| Modes.RefusedUnnoticed | server/src/device-impl.h:1558-1560 | whatever is permitted, a card that refuses every width gets the fastest mode selected on the bus as it was |
| Modes.SelectMmc | server/src/device-impl.h:1508-1613 | the loop ends, with the best mode whose steps report no error; every faster permitted mode has failed in steps of its own; and the bus suits the mode exactly when its width step took effect |
| Modes.SelectSd | server/src/device-impl.h:1150-1284 | each retry follows an attempt that failed in tuning and masks its mode, which is SDR104, DDR50, or SDR50 where the controller asks for tuning; the mode used is the first in order of preference that controller, card and voltage allow and that was not masked, and tuned if it is one of these |
| Modes.ChoiceIsFirst | server/src/device-impl.h:1150-1189 | the mode tried is the first of SDR104, DDR50, SDR50, SDR25, SDR12 that is allowed, or high speed |
| Modes.Retries | server/src/device-impl.h:1150-1284 | there are at most three retries, and each masks one more usable mode that needs tuning |

## Left out

- Memory-mapped registers, interrupt delivery, DMA spaces, capabilities and caches are parameters or absent. Client memory has one address for CPU and DMA, and in whole runs nobody but the driver and the controller writes to it.
- Waiting for the controller before a command (`cmd_wait_available`): a loop without a limit; that it ends is taken for granted. Whether a software reset ends in time is part of an interrupt (`IrqMachine.Word`).
- Response registers. The copy-back that goes with fetching a response is `Sdhci.Sdhci.CopyBackBounce`; it takes place in the transfers of module `Card`, not in `Device`.
- Synchronous commands and `flush` mixed with queued requests: they assume an idle queue. The initial state of the engine is an empty queue after power-up with the interrupt masked.
- Callbacks that call back into the driver: a callback is an entry of a log. Every request has one, and it returns; the handler throws for a request without a callback and catches what a callback throws, and the engine stops then, too.
- Device.Device.HandleIrqInout: does not throw for a missing callback, because every request of the model has one.
- An interrupt that arrives while it is masked is not delivered; an interrupt is taken to be masked by its delivery.
- `discard`, automatic CMD12, set-up without DMA, and SDMA with a bounce buffer: not implemented or compiled off.
- Tuning commands in the interrupt handlers, and transfers through the data port: used during power-up only.
- The interrupt handlers of the SDHI controller; its clock search is modelled.
- Most of the power-up of cards: OCR, CID, CSD, SCR, voltage, power limits. The two mode loops are modelled with the outcomes of their steps as parameters.
- `max_segments()` is at least 1: with 0, which the command line accepts, `max_size()` divides by zero.
- IrqMachine.HandleIrqCmd: does not model the branch for tuning commands, because inout commands are never tuning commands.
- IrqMachine.HandleIrqData: does not model the data port, because inout commands do not enable its interrupts.
- IrqMachine.HandleIrq: does not fetch the response, because its only effect on an inout request is the copy-back, which is `Sdhci.Sdhci.CopyBackBounce`.
- Sdhci.Sdhci.SetDescs: does not truncate block sizes to 32 bits, because the size check of `inout_data` comes first (`Capacity.NoTruncation`).
- Device.Device.CmdSubmit: decides by `Adma2.BuildOk` whether the table can be built and does not build it, because building is proved in `Sdhci`, which throws exactly then (`Sdhci.EnterMeans`).
- Device.Device.InoutData: does not count segments, because the limit is enforced by the block client library, which is not part of this model.
- Device.Device.HandleIrq: requires the interrupt to be unmasked, because a masked one is not delivered.
- Card.SdmaExec: requires a first block that is not empty (`Card.SdmaExact` does not) and blocks of at most 65535 sectors with 32-bit addresses, because SDMA has 32-bit addresses. Each block is moved in one piece; what happens to the address at boundaries is `IrqMachine.ResumesExactly`.
- Failures.Played: assumes that CMD12 ends a transfer whether its response arrives or not, and that a failed transfer changes nothing but the memory or the sectors it was to write (in ADMA2 mode also the bounce buffer); what the card waits for after any other failure is left open.
- Card.Adma2Exec: requires a last block that is not empty (`Card.Adma2Exact` does not) and client blocks clear of the bounce buffer and, for a read, bounced blocks clear of direct ones, because otherwise the order of delivery shows.
- Runs.RunMeaning: states 0 sectors in ADMA2 mode, because `sectors_done` is not advanced there.
- DmaCache.MapCounts: requires fewer than 2^32 - 1 mappings of a region, because the counter has 32 bits.
- Modes.Try: takes a `SWITCH` that is still busy after 50 polls as done, as the code does.
- Modes.SelectMmc: states the mode for masks in which HS400 comes with HS200 only, because the loop misses it otherwise.
