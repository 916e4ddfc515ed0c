# Verified model of the RP2040 Jacdac firmware glue

The firmware in `src/` drives a one-wire serial bus at one megabaud from an RP2040.  Its bytes
are produced and read by two programs for the chip's PIO state machines; interrupts, DMA and an
edge detector move the link between idle, sending and receiving.  Beside the link it has a
one-page cache over NOR flash, a microsecond timer, an SPI driver, a log stream and a table of
Wi-Fi scan results.  This project models these parts and proves what they are for.

`dafny verify dfyconfig.toml` checks everything.

## How it is organised

**The wire.**
`Pio` is a cycle-level interpreter of the PIO instructions that the two programs use, as a
function `Step` and as a class whose registers change in place.  `Sws` holds the two programs of
`src/sws.pio` and proves that they follow two small automata cycle for cycle.  `Wave` describes a
line as frames in real time.  `Reception` and `Timing` say what the receiver makes of a line;
`Tolerance` finds the exact range of symbol times it can follow; `Enabling` says what becomes of a
receiver that is stopped and enabled again; `Transmit` says what the transmitter puts on the line
and joins the two; `Packet` and `PacketTrip` add the closing break, `TxHandler` times it;
`Transmissions` sends any number of packets through the same two machines; `RxFifo` adds the
receive FIFO and its DMA; `Loopback` clocks both machines together.  `Common` holds shared types.

**The link.**
`DmaChannel` has the operations on one DMA channel and its handler slot.  `Dma` is the interrupt
dispatcher for twelve channels.  `Link` is the driver of `src/uart.c` as a transition system whose
steps are single statements, interrupt entries and hardware events, in any order that the
hardware allows.  `LinkSafety` proves its invariant and what follows; `LinkProgress` proves that
every end of a transfer is reported; `LinkRuns` puts runs together from those of the routines;
`LinkLiveness` proves that nothing gets stuck; `LinkAssumptions` proves that the three assumptions
about the surroundings are exactly what safety needs; `LinkDriver` has the driver's functions as code that
updates fields, proved to do what the statements of the transition system do.
`Pins` has the loops that set pins.

**The rest.**
`Spi`, `LogStream`, `Flash` with `FlashCache`, `Timer` and `Scan`.

Interrupts and hardware that run between the statements of a method are oracles: functions that
say what happens at each point, about which nothing is assumed.  What is proved holds for all of
them.  What callbacks and handlers do is such a function too; the one method that runs them is
also the only one that logs that they ran.

## What the code does, where it may surprise

- `src/sws.pio:29` says that data is not pushed without good framing.  Because the input shift
  register pushes by itself at eight bits (`src/uart.c:197`), it is: the push comes before the stop
  check.  A break after a whole stop symbol pushes one zero byte and then raises the interrupt.
- `target_wait_us(1)` before the break (`src/uart.c:133`) ends at the next tick of the
  microsecond counter, so it does not guarantee a whole stop symbol.  The zero byte is missing
  exactly if the break has begun by the stop check of the last byte, 75 cycles after the cycle
  that saw its start (`Packet.PacketReceived`; `Transmissions.CutStopSymbol` is such a packet).  The
  interrupt still comes exactly once and no data byte is lost.
- A receiver is not initialised when it is enabled (`src/uart.c:341`): it goes on where it was
  stopped, in ordinary use at `wait 1` inside a break or after the last push of a full buffer.
  From any phase in which it is not sampling a byte and not about to raise the interrupt it does
  what a new one does, once the line has been high for at most nine cycles, packet after packet
  (`Packet.PacketAfterPacket`).  From any other phase, and only from those, it first pushes a byte
  that nobody sent, or raises the interrupt (`Enabling.ResumesExactly`, `Enabling.ResumedInByte`).
- The receive FIFO is never cleared (`src/uart.c:94` runs once).  `uart_disable` aborts the DMA at
  `src/uart.c:278` and stops the receiver at `src/uart.c:282`; a byte pushed after the last one that
  the DMA has read is stored as the first byte of the next reception.  Every reception stores
  exactly its own bytes if and only if there is no such byte (`RxFifo.OwnBytesIffNoneLate`,
  `RxFifo.LateByteComesFirst`); a reception ended by its break leaves none.
- `uart_start_tx` tests the status at `src/uart.c:306` after it has disabled the edge interrupt at
  `src/uart.c:302`.  If a reception ends in between, `uart_disable` enables the edge interrupt again
  and the transmission goes on with it enabled; an edge then enables the receiver beside the
  transmitter (`LinkAssumptions.BothOn` is such a run).  That no reception ends there is one of the
  three assumptions below, and the driver does nothing to ensure it.
- `flash_program` cannot program a range that covers a whole aligned page: that page trips the
  length assertion (`src/flash.c:19`).  `Flash.ProgramExact` has the exact condition,
  `Flash.WholePageRefused` an instance.
- `flash_erase` does not know about the buffered page.  Erasing the sector that holds it leaves
  the buffered bytes to be written back by the next sync; `Flash.EraseIsExact` says when that
  matters, and `Flash.ErasedByteReturns` shows it happen.
- The table of scan results counts in 16 bits.  It is correct up to 40955 access points; one more
  and the code would write past its array (`Scan.Table.ScanResult`, `Scan.OneTooMany`).
- `tim_handler` tells a deadline ahead from one that has passed only within 2^29 us
  (`Timer.HorizonIsExact`, `Timer.TooFarAhead`).

## What is assumed

- `jd_line_falling` ends in `uart_start_rx` or `uart_disable`, and may choose either each time.
  `jd_rx_completed` and `jd_tx_completed` do nothing to the link, and `uart_start_tx` is not called
  again before `jd_tx_completed` has reported the last accepted transmission.
- Three assumptions are parameters of the link model (`Link.Assumptions`): aborting an active
  DMA channel raises its completion; of several pending interrupts the one with the lowest number
  is taken first; no reception ends between `src/uart.c:302` and `src/uart.c:306`.
- The PIO, DMA and edge interrupts of the link have one priority (`src/jdpico.h:36-37`), run to
  completion, and are taken before the next statement of the main loop when pending and enabled.
- In an SPI transfer that both sends and receives, receiving ends after sending.
- The break leaves the last data symbol whole.  The transmit handler ensures this by waiting for
  the transmitter to stall.
- A transmitter symbol lasts one tick of the microsecond counter, both being derived from the
  same clock.
- A byte written by DMA to the TX FIFO appears on all four byte lanes of the FIFO word.
- The receive DMA keeps up while it is active: it reads a word in the cycle in which it is pushed, and the
  receive FIFO does not fill.  The input synchronisers of the pin
  only shift time and are ignored.
- A disabled state machine is frozen and goes on from there when it is enabled, with its shift
  registers, counters and FIFOs; this holds for both programs (`src/uart.c:326`, `src/uart.c:342`).
  The line is high
  when the receiver is enabled, long enough for it to settle; the results about receptions state
  how long that is for each phase, nine cycles at most.
- `tim_handler` and `tim_set_timer` do not interrupt each other, and the 64-bit microsecond count
  does not overflow.
- `JD_MIN_MAX_SLEEP` and `jd_max_sleep` are parameters.

## Model

| member | source | states |
|---|---|---|
| Pio.StateMachine.Execute | src/sws.pio:9-32 | each instruction used stalls or changes the registers in place exactly as the instruction-set function says, and the pc to go on at is the jump target or the next instruction |
| Pio.StateMachine.Tick | src/sws.pio:6-32 | one clock of the machine in place is one `Step`: delay cycles, side-set even while stalled, stalls, wrap after the last instruction |
| Sws.TxRefines | src/sws.pio:6-13 | in every cycle, for every FIFO content, `jd_tx` follows the automaton: stop level while pulling, eight cycles of start, eight cycles of each bit |
| Sws.RxRefines | src/sws.pio:16-32 | in every cycle, for every line level, `jd_rx` follows the automaton, pushes a word exactly in the cycle of the eighth sample, and raises the interrupt only at `irq` |
| Sws.ReplicateBits | src/uart.c:162 | the transmitter shifts out the byte's bits, lowest first, whatever the DMA put in the other lanes |
| Sws.TopLaneOfByte | src/uart.c:237 | after eight shifts to the right the byte stands in the top lane, where the receive DMA reads it |
| Reception.RunRefines | src/sws.pio:16-32 | over runs of any length on any line, from any phase, the interpreted program and the automaton agree, and words already pushed are not touched |
| Reception.TrackRun | src/sws.pio:18-32 | invariant of every cycle: all earlier frames are received, and the current frame's start is looked for, or was seen, less than `d` cycles late |
| Enabling.ResumesExactly | src/uart.c:340-342 | what a receiver enabled in any phase does on a high line: it comes to `wait 0`, without a push or an interrupt if and only if it was not sampling a byte and not about to raise the interrupt |
| Enabling.ResumedInByte | src/uart.c:340-342 | the failing case at an input: stopped after the first sample of a byte, it pushes a byte nobody sent |
| Enabling.LikeNew | src/uart.c:340-342 | from every other phase it does, once settled, what a new receiver does |
| Enabling.StreamReceived | src/sws.pio:18-32 | symbol times from 7.7 to 75/9 cycles, enabled in any quiet phase: any stream with any gaps is received exactly, every byte by the end of its frame, no break is flagged, and when all bytes are pushed the machine may be stopped and enabled again |
| Timing.ByteTiming | src/sws.pio:19-32 | from `wait 0` in cycle c, on any line: bit k is the level at c+11+8k, one word is pushed, the stop check is at c+75, and the program is back at `wait 0` at c+77 or held with the interrupt raised once |
| Timing.FlaggedIffLow | src/sws.pio:26-27 | a byte raises the interrupt if and only if the line is low in its stop cycle |
| Timing.IdleWhileHigh | src/sws.pio:19 | while the line is high the receiver changes nothing, for any time |
| Timing.HeldWhileLow | src/sws.pio:28 | after a flagged byte the receiver changes nothing while the line is low, for any time |
| Timing.LagShrinks | src/sws.pio:18-32 | equal clocks: a frame seen `lag` cycles late (0 to 4) is received, and the next start is seen max(0, lag - 3) late |
| Timing.BackToBack | src/sws.pio:18-32 | equal clocks: any number of back-to-back frames is received from any initial lag of 0 to 4 |
| Timing.StartsApart | src/sws.pio:18-32 | on any line at all the starts of two bytes are at least 77 cycles apart |
| Tolerance.PushesArePaced | src/sws.pio:18-32 | on any line at all the k-th received byte was not started before cycle 77 (k - 1) |
| Tolerance.SlowFails | src/sws.pio:26 | above 75/9 cycles a symbol a single zero byte is flagged |
| Tolerance.FastFails | src/sws.pio:18-32 | below 7.7 cycles a symbol some finite back-to-back stream is not received |
| Tolerance.ToleranceIsExact | src/sws.pio:18-32 | all streams are received exactly if and only if a symbol lasts 7.7 to 75/9 cycles |
| Packet.PacketReceived | src/sws.pio:18-32 | stream and break, from any quiet phase: the interrupt comes exactly once, and from then on exactly the bytes sent have been pushed, and the zero byte if and only if the break had not begun by 75 cycles after the cycle that saw the last start; `wait 1` while the line is low, `wait 0` four cycles after it rises, and at every moment ready to be stopped and enabled again |
| Packet.PacketAfterPacket | src/uart.c:337-348 | any number of packets, the machine stopped in between at any moment after the break has raised its interrupt and enabled again where it stands: exactly the bytes of all packets, in order, with one interrupt each |
| Packet.LagStaysBelow | src/sws.pio:31-32 | in a stream of any length the lag between a start edge and the cycle that sees it stays below its initial bound, one cycle for a receiver enabled in time |
| Transmit.TxInvariant | src/sws.pio:6-13 | bytes started, pulled and still in the FIFO are the bytes fed, in order; starts are at least 80 cycles apart |
| Transmit.TraceRefines | src/uart.c:325-326 | a transmitter enabled with leftovers in x and the OSR does what a new one does: it follows the trace of what it is fed, cycle for cycle |
| Transmit.DrainedIsReady | src/uart.c:122-126 | one cycle after it has drained it is ready for another transmission, and remains so |
| Transmit.PinShowsFrames | src/sws.pio:6-13 | for a transmitter used before or not, in every cycle the pin shows the frames started so far, eight cycles a symbol |
| Transmit.RoundTrip | src/sws.pio:6-32 | two clocks of any phase and any tolerated ratio, a transmitter used before or not, a receiver enabled in any quiet phase: the receiver has pushed a prefix of the bytes fed, with every byte whose frame is over, and flagged nothing |
| Transmit.Delivered | src/sws.pio:6-32 | one symbol after the transmitter has drained, that receiver has got exactly the bytes fed |
| PacketTrip.PacketDelivered | src/uart.c:121-137 | bytes fed to `jd_tx`, then the break: `jd_rx` has got exactly these bytes with one interrupt, and the zero byte if and only if the break had not begun by the stop check of the last byte |
| PacketTrip.FullStopIsEnough | src/uart.c:128-134 | a break one symbol after the drain, or later, always gives the zero byte |
| TxHandler.SendBreak | src/uart.c:128-136 | whatever time passes between the statements: the pin is high, then low for more than 11 us, then high; with a counter that advances by at most d us between accesses the stop level lasts less than 2 + 3d us and the break less than 13 + 3d us |
| TxHandler.PacketSent | src/uart.c:121-137 | a packet whose break is low for more than 11 us after the drain, at every tolerated clock, arrives as above |
| TxHandler.CompleteTransmission | src/uart.c:121-137 | the handler's statements from the stall on, whatever time passes between them, make such a break, and the packet arrives |
| Transmissions.TransmissionAfterTransmission | src/uart.c:296-348 | any number of transmissions through the same two machines, neither initialised in between: the receiver gets exactly the bytes fed to the transmitter, in order, with one interrupt each, and both are ready for another |
| Transmissions.CutStopSymbol | src/uart.c:133-134 | the missing zero byte at an input, with a break a quarter of a microsecond after the stop level began |
| RxFifo.OwnBytesIffNoneLate | src/uart.c:278-282 | over any receptions with any buffers: every buffer holds exactly the bytes received on its own line if and only if no word is ever pushed after the last one read |
| RxFifo.StoresAvailable | src/uart.c:346 | the buffer takes what is in the FIFO, oldest first, until it is full: no more than its length, and all of it if there is room |
| RxFifo.BreakLeavesNothing | src/uart.c:278-282 | a reception ended by its break, with a buffer long enough, stores the bytes of its packet and leaves the FIFO empty |
| RxFifo.LateByteComesFirst | src/uart.c:278-282 | the failing case at an input: the second of two bytes becomes the first one stored by the next reception |
| Loopback.PreloadTiming | src/sws.pio:9-13 | a transmitter that never waits starts byte i in cycle 80i + 8 and is done after 80 cycles a byte |
| Loopback.Clock | src/sws.pio:6-32 | both machines clocked in place on one line, any feed: what arrives is a prefix of what was fed, complete once drained, without a break |
| Loopback.Transfer | src/sws.pio:6-32 | every byte sequence sent through the two machines comes out unchanged |
| Pins.ClearsLowest | src/uart.c:63 | the update of the mask clears exactly the bit found by counting trailing zeroes |
| Pins.MaskedBit | src/uart.c:54-80 | pin by pin, masking takes the pins in the mask from the values and leaves the others |
| Pins.Machine.SetWithMask | src/uart.c:54-80 | pins (or directions) become (old and not mask) or (values and mask), with one instruction for each set bit; the other register and the pin control register are unchanged |
| Pins.FillRangeBit | src/uart.c:35-52 | a range from `pin` on covers exactly the pins (pin + i) mod 32 with i < count |
| Pins.Machine.SetConsecutivePindirs | src/uart.c:35-52 | five pins at a time sets exactly that range, for any count; pins and the pin control register are unchanged |
| Dma.Controller.SetChCb | src/dma.c:60-69 | fills a free slot, drops a stale completion, enables the interrupt, leaves other channels alone; a transfer in flight on the channel becomes the one waited for; its assertion fails exactly when the slot is taken; channels from 12 on are ignored |
| Dma.Controller.StartUnwatched | src/spi.c:110-118 | a transfer on a channel without a handler disturbs no registration; its completion stays raised until someone registers |
| Dma.Controller.Snapshot | src/dma.c:38-40 | the pending interrupts are read and acknowledged; they are those of all completed registrations not yet called |
| Dma.Controller.RunHandler | src/dma.c:47 | the handler runs: the call is logged with it, and what its code asks for has been done when it returns, counting from the slots that were free |
| Dma.Controller.Serve | src/dma.c:42-49 | the slot is emptied, then the handler found in it is run, once, as the call of its own registration; every registration that its code asks for on a free slot is made and started, on any channel, and the others do nothing |
| Dma.Controller.IsrDma0 | src/dma.c:37-51 | keeps that interrupts are enabled exactly for registered channels and that no registration is called twice or before its transfer completed; afterwards the registrations called are exactly those completed at entry, and the handlers run are those registered, in order |
| LinkSafety.StepKeeps | src/uart.c:271-348 | every statement, interrupt entry and hardware event keeps the invariant of the link |
| LinkSafety.RunKeeps | src/uart.c:107-149 | the invariant holds in every state of every run |
| LinkSafety.LinkExclusion | src/uart.c:302-348 | in every interleaving: never both machines enabled, no edge interrupt while one is or when TX is entered, and no assertion fails, neither the idle check nor the slot check |
| LinkSafety.OneCompletionEach | src/uart.c:107-118 | break and DMA race, yet each `uart_start_rx` is in progress, being completed, or has had one `jd_rx_completed`; likewise each accepted transmission |
| LinkSafety.NeverDeaf | src/uart.c:271-319 | every quiescent state has all off and the edge interrupt enabled, or a transfer in flight whose end is enabled to interrupt; so after both -1 exits |
| LinkProgress.EveryEndIsReported | src/uart.c:107-149 | from a quiescent state with a transfer in flight, through its end, to the next quiescent state: that transfer was reported, with exactly one completion more if nothing else was started, and the link listens or a later transfer is in flight |
| LinkProgress.RoutineIsShort | src/uart.c:107-149 | while an interrupt routine runs no statement of the main program is executed, and fewer than 24 of its own are, however the hardware interferes |
| LinkLiveness.Settles | src/uart.c:107-348 | no deadlock: from every reachable state, with no hardware event and no new transmission, a state is reached in which nothing is executing or about to |
| LinkLiveness.ReceptionCanEnd | src/uart.c:107-149 | from every reachable quiescent state with a reception in flight, a full buffer and a break are both possible, and after either some run reports that reception alone and listens again |
| LinkLiveness.TransmissionCanEnd | src/uart.c:120-139 | the same for a transmission whose data are all sent |
| LinkLiveness.TransfersCanBegin | src/uart.c:296-348 | from every reachable state in which the link listens some run leads to a reception in flight, another to a transmission in flight |
| LinkLiveness.AllCanBeReported | src/uart.c:107-348 | from every reachable state some run leads to one in which the link listens and every transfer ever started has been reported |
| LinkSafety.EndReopens | src/uart.c:107-139 | when the routine that ended a transfer reports it, all is off and the edge interrupt is enabled again |
| LinkSafety.RoutinesEnd | src/uart.c:107-149 | an interrupt routine ends within 24 of its statements, whatever happens |
| LinkAssumptions.SlotTaken | src/dma.c:63 | without completion on abort, or without the order of interrupts, some run finds its slot taken |
| LinkAssumptions.BothOn | src/uart.c:302-306 | if a reception may end in the window, some run enables both machines |
| LinkAssumptions.AssumptionsAreExact | src/uart.c:302-348 | all runs are safe if and only if all three assumptions hold |
| LinkDriver.NestingCounts | src/platform.c:157-170 | bracketed calls never reach the clamp: the count is what it was plus the depth, so balanced calls restore any count and interrupts stay disabled in between |
| LinkProgress.StaleEdgesAreDropped | src/pins.c:196-202 | in every run, between an enable of the edge interrupt and the next entry of `jd_line_falling` from it, an edge has arrived |
| LinkDriver.Driver.UartDisable | src/uart.c:272-286 | has the effect of running the transition system's statements from line 276 to their end |
| LinkDriver.Driver.UartStartRx | src/uart.c:337-348 | has the effect of running the transition system's statements from line 339 to their end, including the failing slot check |
| LinkDriver.Driver.RxDone | src/uart.c:107-113 | completes if and only if a reception is in progress, and then runs `uart_disable` |
| LinkDriver.Driver.UartStartTx | src/uart.c:296-334 | state and result are those of running the transition system's statements of the thread from line 302 to their end or to a failing assertion; 0 is returned exactly if a transmission was begun |
| LinkDriver.DisableEffect | src/uart.c:272-286 | running `uart_disable` to its end leaves all off, the edge interrupt on, and the nesting of disabled interrupts as it was |
| LinkDriver.StartEffect | src/uart.c:337-348 | running `uart_start_rx` to its end leaves the receiver on with its handler registered and its transfer begun, or fails at a taken slot |
| Spi.Driver.IsReady | src/spi.c:80-82 | ready if and only if configured and every accepted transfer has had its callback |
| Spi.Driver.DmaInterrupt | src/spi.c:27-30 | leaves idle channels and registrations not started alone; with a transfer in flight whose completion is pending its own callback is left for the main loop, otherwise it stays in flight; nothing stays pending, and the assertion does not fail |
| Spi.Driver.Xfer | src/spi.c:88-121 | with completions and the DMA interrupt between any statements: the four results in the source's order of checks, accepted exactly at 0, at most one transfer outstanding; an accepted request begins a transfer of its length on exactly the channels it has buffers for |
| Spi.Driver.LeftWhenEnded | src/spi.c:104-118 | a callback is left, or nothing is outstanding, exactly when every transfer begun on either channel has ended and no completion is pending |
| Spi.Driver.Process | src/spi.c:18-25 | runs the callback of the one outstanding transfer, once and in order; of the transfers it asks for the first that fits is accepted and no other; without a callback nothing is accepted; no assertion fails |
| Spi.Driver.Init | src/spi.c:32-47 | refused during a transfer and without a pin; otherwise the driver is configured, and nothing in progress is disturbed |
| LogStream.Log.DmesgRead | src/main.c:27-32 | fills the static buffer while the DMA is idle, so nothing in flight is overwritten |
| LogStream.Log.UartLogWrite | src/uart_log.c:77-86 | hands the buffer to the DMA; its assertion fails exactly when logging is enabled and a transfer is in progress |
| LogStream.Log.DmesgToStdout | src/main.c:25-38 | reads exactly one chunk, cut to 128 bytes, unless a transfer is in progress, and says to wait exactly if it was not empty or nothing was read; keeps that bytes sent, followed by the rest of the buffer in flight, are the bytes read; when there is nothing to wait for, all are sent |
| LogStream.Log.SentIsPrefix | src/uart_log.c:69-86 | the wire shows a prefix of the chunks read, and the rest is in the part of the buffer the DMA still owns |
| Flash.SyncWritesBuffer | src/flash.c:9-16 | programming the buffered page can only clear bits, yet leaves exactly the buffer, because of the kept invariant |
| Flash.PageProgrammed | src/flash.c:18-36 | a chunk is accepted if and only if it is shorter than a page, inside one page and erased; the view changes in the chunk only, the page becomes the buffered one, and the one before is written back |
| Flash.CoverAfterChunk | src/flash.c:45-48 | a chunk is never across pages, the rest begins on a page boundary, and a chunk is a whole page exactly if the range covers one there |
| Flash.ChunksProgrammed | src/flash.c:44-52 | the loop's chunks are gap-free: accepted if and only if the range covers no whole page and is erased, and then the view is the old one with the range replaced |
| Flash.ProgramExact | src/flash.c:38-53 | accepted if and only if the range lies in the storage area, begins on a multiple of 8, covers no whole page and is erased; then the view is the old one with the range replaced |
| Flash.WholePageRefused | src/flash.c:19 | 256 bytes of new flash cannot be programmed at once, 255 can |
| Flash.EraseIsExact | src/flash.c:55-63 | accepted for exactly the sectors of the storage area; keeps the invariant, and erases the view if and only if the sector does not hold the unsynced page or that page is blank |
| Flash.ErasedByteReturns | src/flash.c:55-63 | the failing case at an input: a byte programmed, its sector erased, the cache synced, and the byte is still there |
| Flash.ApplyRefines | src/flash.c:9-63 | an accepted operation does to the view what it does to a plain byte array if and only if it is no erase of an unsynced page that is not blank |
| Flash.CacheRefinesArray | src/flash.c:9-63 | over every run of program, sync and erase in which no assertion fails and no erase hits an unsynced page that is not blank, the view evolves as a plain byte array, and a sync leaves that array in flash |
| FlashCache.Cache.FlashSync | src/flash.c:9-16 | in place: flash becomes the view, nothing is buffered |
| FlashCache.Cache.FlashProgramPage | src/flash.c:18-36 | in place: fails and succeeds as the page function does, with its whole new state |
| FlashCache.Cache.FlashProgram | src/flash.c:38-53 | in place: the loop over chunks ends, fails and succeeds under the condition of `Flash.ProgramExact`, and replaces the range in the view, with its whole new state that of the range function |
| FlashCache.Cache.FlashErase | src/flash.c:55-63 | in place: succeeds exactly for the sectors of the storage area, and sets the bytes of that sector in flash and nothing else |
| Timer.Alarm.GetMicros | src/tim.c:77-94 | for any monotone 64-bit count that advances between the reads: the result is the count at one access within the call; the loop ends; less than a quarter turn between reads gives at most one retry |
| Timer.NeverEarly | src/tim.c:97-101 | the wrapped 32-bit difference never exceeds the true elapsed time |
| Timer.Alarm.TargetWaitUs | src/tim.c:97-101 | the wait ends, not before n us and at most one read interval after, across wrap-around |
| Timer.RearmsIff | src/tim.c:22-24 | the handler's test on 32-bit words, on true times: for -(7*2^29) <= deadline - now - 5 < 2^29 it re-arms if and only if the deadline is 5 us ahead or more |
| Timer.HorizonIsExact | src/tim.c:24 | for a deadline ahead the test errs if and only if it is 2^29 + 5 us ahead or more |
| Timer.TooFarAhead | src/tim.c:24 | the failing case at an input |
| Timer.Alarm.SetTimer | src/tim.c:60-74 | the deadline is an instant within the call plus the delay: the larger of `delta` and 10, unless that is `JD_MIN_MAX_SLEEP`, for which `jd_max_sleep` stands; the alarm holds it modulo 2^32 |
| Timer.Alarm.TimHandler | src/tim.c:16-41 | re-arms and keeps the callback, or runs it having removed it, and then what it asks for is armed, in order; armings run in order, each with its own callback, once at most and none 5 us early |
| Scan.OrderIsFirstHeard | src/wifi_impl.c:29-46 | each access point is listed once, in the order in which they were first heard |
| Scan.LatestIsLast | src/wifi_impl.c:31 | the entry of an access point is the last one heard |
| Scan.Heard | src/wifi_impl.c:29-46 | replacing at the place found, or appending, keeps the list as described by the two lemmas above |
| Scan.CapacityIs | src/wifi_impl.c:39 | the capacity after k growths is 5 * (2^k - 1) |
| Scan.SizeFits | src/wifi_impl.c:13 | 13 growths fit 16 bits, the 14th would shrink the table to 16379 |
| Scan.Table.Grow | src/wifi_impl.c:38-44 | a larger array with the same entries, except at 40955 |
| Scan.Table.ScanResult | src/wifi_impl.c:16-53 | hears exactly the results with a name, with the address, name, strength and channel reported and a password if any of the low three bits of the mode is set; the array holds the summary of all heard; goes wrong exactly when it holds 40955 access points and hears a new one |
| Scan.OneTooMany | src/wifi_impl.c:38-46 | the failing case at an input: 40956 different access points in a row |
| Scan.CopiesAreLinear | src/wifi_impl.c:41 | growth has copied at most twice as many entries as the table holds |
| Scan.Table.HandOver | src/wifi_impl.c:136-143 | when the scan is over the summary is handed over once, and the table begins anew with another array |
| Scan.Station.Poll | src/wifi_impl.c:145-157 | reports of an address obtained and lost alternate, beginning with obtained, follow the link status, and with each loss goes a disconnect |

## Left out

- SDK plumbing: clock dividers, pad and function select, PWM, I2C, ADC, USB descriptors, `uart_init_` beyond the state it leaves, and `jd_spi_init` beyond its results and the configured flag.
- `src/lwip_sock.c`: rests on lwIP's ownership rules; its pending flag is set again at line 191 instead of being cleared.
- `src/hid.c`, `src/usb.c`: report forwarding, easy.
- The upper Jacdac layer; it has the behaviour listed under "What is assumed".
- Arbitration between two nodes: `gpio_probe_and_set` is only local evidence, so the probed level is an input.
- Boards without a Jacdac pin: the early exits at `src/uart.c:274` and `src/uart.c:298`.
- The depth of the PIO FIFOs: a full FIFO only delays the DMA on the sending side; on the receiving side it is assumed away above, also for words left over between receptions.
- When in a byte a receiver may be stopped: `Enabling.ResumesExactly` says what follows, but it is not claimed that the driver never stops it there.
- The debug pin driven by the receiver's side-set, and the `DEBUG_PIN` branch.
- The wait for the transmitter's stall flag in the transmit handler (`src/uart.c:123-126`) is represented by its outcome, a drained transmitter; it is not a loop in the model.
- Timing inside `uart_start_tx` and the transmit handler is not part of the link model, which orders statements but does not clock them.
- What follows a failed assertion: runs of the link end there, and methods promise no further state.
- LinkDriver.Driver.UartStartTx: states its effect without interrupts in between; with interrupts it is covered by the transition system.
- FlashCache.Cache.FlashProgram: a range so long that `diff + len` wraps at 2^32 passes the source's range check; it covers a whole page, so it fails all the same, as in the model.
- Reads of flash by other code, which see the physical contents and not the buffered page.
- A page program or erase that is interrupted by a loss of power.
- Whether the hardware alarm fires: `tim_handler` may be called at any time, and the debug variables of `src/tim.c` are not kept.
- `tim_set_timer` interrupting `tim_handler` between lines 19 and 38 of `src/tim.c`, so it is not claimed that an arming is never lost.
- Timer.Alarm.TargetWaitUs: its end is stated for a counter that advances by at most `d` between reads with n + d up to 2^32, because a longer gap between reads can hide the wrap and prolong the wait.
- Changing the log pin at run time (`uart_log_sync_pin`), the late initialisation at `src/uart_log.c:80-81`, which start-up has done already, and what the log UART does with the bytes.
- LogStream.Log.SentIsPrefix: applies while logging is enabled; without a log pin chunks are read and dropped.
- Text of SSIDs longer than the entry's field, and running out of memory, in the scan table; connecting.
