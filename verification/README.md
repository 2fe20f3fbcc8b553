# Verified models of the emulator's data paths and timers

This project models the parts of the emulator that carry the hard invariants: the GIF unit that feeds the
graphics thread, the two hand-written ring buffers between threads, the lazily counted timers, the data
cache, and some smaller state machines. Each is proved against an independent description: a byte stream, a
machine that reads one quadword at a time, a FIFO, a timer stepped cycle by cycle, flat memory, an interpreter
with an unbounded stack.

`dafny verify dfyconfig.toml` checks the whole project.

## What is modelled

- **GIF path and parser** (`GifTag`, `GifParser`, `GifPath`, `GifChunking`, `GifEnds`, `GifPrescan`). `Exec` is the
  specification of `ExecuteGSPacket`: a call of the incremental parser as a function of the bytes not parsed
  yet. The class `GifPath` is the packet buffer in place, with realignment and the bytes owed to the GS thread;
  its `ExecuteGSPacket` is proved equal to `Exec` on the path's view of the buffer.
- **GIF arbiter** (`GifUnit`). `Execute` and everything that calls it, over the three paths as their parsers see them
  (`GifPath.View`). The class invariant keeps, for each path, the account "given = handed over + pending", and
  that the packets handed over as complete end exactly where the quadword machine finds an EOP.
- **Path-3 DMA** (`GifDma`): chunks, the 16-quadword FIFO, rewinds. `GifRuns` holds runs in which bytes go astray.
- **MTVU ring** (`MtvuPackets`, `MtvuRing`, `MtvuThread`): packets word by word, all interleavings of single word stores
  and reads, and the ring in place. Ring size and slack are parameters.
- **LABEL coalescing** (`MtvuLabel`), **MTGS ring** (`MtgsRing`), **MTGS sleep and wake-up** (`MtgsWaits`). Interleavings are
  sequentially consistent.
- **EE timers** (`EeCounters`, `EeRuns`), by cycles and by horizontal blanks, with their gates, **hsync and vsync** (`VideoSync`), **IOP timers' interrupts** (`IopCounters`).
- **Data cache** (`DataCache`), **DMA source chains** (`DmaChain`), **TLB and page table** (`Tlb`), **GTE transforms** (`Gte`).
- `Arith` holds facts about multiplication and division.

## What turned out not to hold as one would expect

- *MTVU ring.* Going back to the start of the ring while the committed read position is 0 makes a ring with pending
  packets look empty (`MtvuRing.WrapNeedsReader`: the ring stays sound if and only if the position is not 0), and this is
  reachable with every ring size (`MtvuRing.LossIsReachable`). The slack of 4096 words covers packets of up to 4098 words:
  the writer can come to lap the reader with a packet if and only if it is longer (`MtvuRing.SlackIsShort`,
  `MtvuRing.LapIsReachable`, `MtvuRing.LappedLoses`). A full upload of VU1 micro memory, and the upload of its data
  memory when a state is loaded, have 4099 words (`MtvuRing.UploadLaps`).
- *MTGS frame limit.* The queued frame count can exceed `VsyncQueueSize` by 1 while the EE runs on, and by 2 while it waits:
  a frame over the limit may be counted just while the GS thread is between lowering the count (or finding the ring empty)
  and looking at the listener flag. That is exactly when it happens (`MtgsWaits.LateCountOvershoots`); without it the
  bounds are 0 and 1.
- *Path-3 rewind.* A masked path 3 gives back the whole chunk or more if and only if a complete packet was buffered before the
  chunk came, and more than the chunk if and only if there were bytes behind that packet (`GifUnit.RewindReachesBack`). A
  transfer of which path 3 takes back more than it brought makes the unsigned subtraction in `TransferGSPacketData` wrap. That
  happens if and only if the transfer is accepted, path 3 is masked and gets its turn, and already held bytes behind the packet
  that it completes (`GifUnit.GifUnit.TransferGSPacketData`); `GifRuns.SubtractionWraps` is such a run from the reset state.
- *Path-3 bytes lost.* What path 3 gives back in a call of `Execute` that is not a DMA transfer is returned to nobody. In every
  call it is what lies behind the packet that path 3 completes when it first gets its turn, and only if it gets one and is
  masked (`GifUnit.Path3GivesBack`). So when a SIGNAL is acknowledged, whichever path is active, bytes are lost if and only if
  that is not empty (`GifDma.GifDma.AcknowledgeSignal`). `GifRuns.AcknowledgementLoses` is such a run from the reset state,
  with or without a GIF interrupt before the acknowledgement.
- *EE timers.* A running timer whose count is set to its target fires at the next update instead of a round later; with the
  target interrupt enabled, the interrupts are the hardware's if and only if the value written is not the target
  (`EeCounters.EeTimers.RecountedFires`, `EeCounters.EeTimers.RecountedFiresAtBlank`). A mode write changes the count that a
  program reads if it selects a rate no larger than the cycles not counted yet: what is left of a count at a slower rate,
  or, for a timer that counted horizontal blanks, all cycles since the last update (`EeCounters.EeTimers.ModeKeepsCount`
  is the exact condition). After a target write of 0, the interrupts are those of a timer that counts up to its target until
  the overflow, and no longer after it (`EeCounters.ZeroTarget`).
- *EE timer gates.* The comments in `rcntStartGate` and `rcntEndGate` say that the schedule is brought up to date afterwards,
  because `rcntUpdate` is the caller. At horizontal blanks `rcntUpdate_hScanline` is called behind it
  (pcsx2/R5900.cpp:392-398), and a counter that its gate starts there is not scheduled: its event is in time if and only if it
  comes no earlier than what was scheduled before (`EeCounters.EeTimers.EndHblank`). `EeRuns.OpenedTooLate` is a run from the
  reset state with an interrupt 980 cycles late. A gate that restarts its counter takes for the cycle of the edge where the
  period began that has just ended, so the counter begins with the counts of that period (`EeCounters.RestartCounts`), and its
  target fires at once if and only if it is no more than that (`EeCounters.RestartFires`).
- *IOP timers.* A target write to a 32-bit timer in pulse mode arms a one-shot timer again (`IopCounters.ArmingExactly`).

## Model

| member | source | states |
|---|---|---|
| GifTag.AnalyzeTag | pcsx2/Gif_Unit.h:115-136 | the two shifting loops fill in exactly the first NREG register descriptors, leave the others as earlier tags left them, and report A+D if and only if one of them names it |
| GifParser.ExecConserves | pcsx2/Gif_Unit.h:304-399 | a call of the parser loses and reorders nothing: what was pending is in the packet, kept, or given back, and only an EOP under a path-3 mask gives anything back |
| GifParser.ExecKeepsValid | pcsx2/Gif_Unit.h:304-399 | between calls a tag stays loaded only with A+D data to come; a completed packet ate data and leaves the path at rest; a call that stops short is out of data or stalled by a newly queued SIGNAL |
| GifParser.ExecMore | pcsx2/Gif_Unit.h:304-399 | a completed or stalled call does not depend on what follows, and a call that ran dry can be taken up later as if it had never stopped |
| GifParser.ExecStarves | pcsx2/Gif_Unit.h:315-336 | a call that was neither completed nor stalled leaves too little data for any further step |
| GifChunking.ChunkingIndependence | pcsx2/Gif_Unit.h:304-399 | however a stream is cut, the path ends in the same state with the same A+D writes, the same packet ends and the same delivered bytes followed by pending bytes, SIGNAL stalls included |
| GifChunking.AnySplit | pcsx2/Gif_Unit.h:670-681 | two ways of cutting one stream cannot be told apart |
| GifChunking.ExecReads | pcsx2/Gif_Unit.h:304-399 | a call of the parser is the quadword machine reading what the call consumed: same A+D writes, same packet ends, same position inside the tag |
| GifChunking.ParserMeetsReader | pcsx2/Gif_Unit.h:304-399 | for every stream and cutting: no byte is lost, and A+D writes and packet ends are those the quadword machine finds in the parsed bytes, and in the whole stream if no SIGNAL is queued |
| GifEnds.ExecMasked | pcsx2/Gif_Unit.h:375-391 | the path-3 mask changes only what happens to the bytes behind a completed packet |
| GifEnds.ExecReadsTo | pcsx2/Gif_Unit.h:304-399 | masked or not, the parser reports a packet end exactly where the quadword machine finds an EOP |
| GifPrescan.GetGSPacketSize | pcsx2/Gif_Unit.h:543-561 | the scan loop returns the length up to the first EOP tag, and 0 if it does not stay below VU memory |
| GifPrescan.PackedEats | pcsx2/Gif_Unit.h:339-353 | the A+D loop consumes exactly the quadwords that the tag still announces, unless a SIGNAL stalls it |
| GifPrescan.ScanExec | pcsx2/Gif_Unit.h:543-561 | from a tag boundary the parser consumes exactly what the scan counted, wrapping at the end of VU memory |
| GifPrescan.PreScanAgrees | pcsx2/Gif_Unit.h:543-561 | parsing the scanned quadwords completes one packet made of exactly them or is stalled by SIGNAL, whatever follows, and no shorter part of them completes a packet |
| GifPath.PopKeeps | pcsx2/MTGS.cpp:311-317 | the GS thread reads, where it is stored, exactly the next packet's bytes of the stream |
| GifPath.PutKeeps | pcsx2/Gif_Unit.h:283-302 | a copy that passed the test of `CopyGSPacketData`, even with a stale `readAmount`, appends to the stream and overwrites no unread byte |
| GifPath.RealignKeeps | pcsx2/Gif_Unit.h:248-281 | moving the packet to the front overwrites no unread byte, at most two laps are unread, and the ranges overlap only if nothing is unread |
| GifPath.NoUnreadByteIsOverwritten | pcsx2/Gif_Unit.h:248-302 | over every interleaving of copies, realignments, hand-overs, rewinds and GS-thread reads, the bytes read, queued and waiting, taken from where they stand, are the stream that was copied in |
| GifPath.WaitsEnd | pcsx2/Gif_Unit.h:256-262 | once everything is read, both waiting loops end |
| GifPath.GifPath.MtgsStep | pcsx2/MTGS.cpp:311-317 | the GS thread takes one packet: its bytes go from the queue to what was read, then `readAmount` falls by its size |
| GifPath.GifPath.RealignPacket | pcsx2/Gif_Unit.h:248-281 | in place: waits, closes the lap with a blank packet, moves; the stream and the parser's view are unchanged |
| GifPath.GifPath.CopyGSPacketData | pcsx2/Gif_Unit.h:283-302 | in place: the data is appended to the stream and to the parser's unparsed bytes |
| GifPath.GifPath.ExecuteGSPacket | pcsx2/Gif_Unit.h:304-399 | in place: the result and the new view are those of `Exec`; a completed packet's bytes stand where it says; a rewind cuts exactly its bytes off the stream |
| GifPath.GifPath.AddCompletedGSPacket | pcsx2/Gif_Unit.cpp:211-216 | the packet is owed before it is queued; nothing else changes |
| GifPath.GifPath.FlushToMTGS | pcsx2/Gif_Unit.h:670-681 | a packet without EOP is handed over if no tag is loaded, and the stream stays the same |
| GifUnit.Parsed | pcsx2/Gif_Unit.h:304-399 | a completed packet is never empty and leaves the path at rest, so the state test before the hand-over drops none; no tag is valid when an image packet stops short, so `subOffset` is 0 |
| GifUnit.ExecLacks | pcsx2/Gif_Unit.h:304-399 | without a complete packet in the older bytes, the parser completes none before it uses the newer ones, and gives back fewer than came |
| GifUnit.GifUnit.RunParser | pcsx2/Gif_Unit.h:699-738 | one call on the active path: every completed packet is handed over, the accounts of all paths hold, data shrinks |
| GifUnit.GifUnit.SlicePath3 | pcsx2/Gif_Unit.h:706-728 | the image slice hands over the packet so far with an empty `subOffset`, gives up APATH and keeps the accounts |
| GifUnit.GifUnit.Arbitrate | pcsx2/Gif_Unit.h:740-769 | the lowest path with work is chosen, none while a SIGNAL is queued; otherwise the unit is released on resume or after path 1 |
| GifUnit.GifUnit.Execute | pcsx2/Gif_Unit.h:685-785 | terminates; completed packets are handed over exactly once, and the bytes of each path, handed over and pending, are what it was given, with packet ends where the quadword machine finds an EOP; a path is left only at an EOP or by the slice; it stops only for a SIGNAL, for lack of data, or with nothing left to do; the new state is that of a loop over rounds, of which `Path3GivesBack` says what path 3 gives back |
| GifUnit.Path3GivesBack | pcsx2/Gif_Unit.h:381-391 | in every call, path 3 gives back what lies behind the packet that it completes when it first gets its turn, if it gets one and is masked, and nothing otherwise; no other round changes what it holds or gives back |
| GifUnit.GivenBackFirst | pcsx2/Gif_Unit.h:381-391 | if path 3 is active already or the first to become so, that is its next packet |
| GifUnit.RewindReachesBack | pcsx2/Gif_Unit.h:381-391 | a masked path 3 gives back the whole chunk or more if and only if a complete packet was buffered before, and more than the chunk if and only if bytes lay behind that packet |
| GifUnit.WrapsExactly | pcsx2/Gif_Unit.h:636-642 | a call of `Execute` after a chunk came takes back more than the chunk if and only if path 3 is masked, gets its turn, and held bytes behind the packet that it completes |
| GifUnit.GifUnit.TransferGSPacketData | pcsx2/Gif_Unit.h:566-643 | refused transfers change only their Q flag; an accepted one appends its data, runs the arbiter if it may, and returns what was kept: less than none, so that the subtraction wraps, if and only if `WrapsExactly`'s condition holds, and at least one quadword if path 3 held no complete packet; other paths then take nothing from path 3 |
| GifUnit.GifUnit.TransferMtvu | pcsx2/Gif_Unit.h:571-585 | with MTVU, one more packet is announced, and announced packets are never lost |
| GifUnit.GifUnit.AcknowledgeSignal | pcsx2/GS.cpp:77-93 | the queued SIGNAL is delivered and the paths go on; whichever path is active, path 3 loses exactly what lies behind the packet that it completes when it first gets its turn, if it gets one and is masked, and nothing otherwise |
| GifUnit.GifUnit.CheckPathStatus | pcsx2/Gif.cpp:179-194 | path 3 lets go at an interrupt, and if it is between packets the others may run; the new state is given, a complete packet ends its wait, and nothing is ever given back |
| GifUnit.GifUnit.ReleasePath2 | pcsx2/Vif1_Dma.cpp:289-296 | path 2 lets go only when it is done, and the others then go on; path 3 loses exactly what it gives back in that call, which is nothing if it held no complete packet |
| GifUnit.GifUnit.WriteControls | pcsx2/Gif_Unit.h:803-806 | writes to the mode, pause, direction and mask bits keep every account; afterwards `Ready` holds if and only if the unit may not run, or another path is active, or path 3 holds no complete packet, or is between packets and not active; they keep `Tight` unless they mask path 3 |
| GifUnit.GifUnit.ReadyTight | pcsx2/Gif_Unit.h:803-806 | under `Ready`, which every call but a control write keeps, path 3 can give nothing back before its data comes whenever a DMA transfer can be accepted |
| GifDma.GifDma.WriteFifo | pcsx2/Gif.cpp:90-112 | as much as fits goes behind what the FIFO holds |
| GifDma.GifDma.ShiftFifo | pcsx2/Gif.cpp:135-147 | the loop moves what was not read to the front |
| GifDma.GifDma.ReadFifo | pcsx2/Gif.cpp:114-165 | what path 3 took and what the FIFO still holds are together what they were |
| GifDma.GifDma.Offer | pcsx2/Gif_Unit.h:607-643 | an accepted DMA chunk keeps between one quadword and all, and what is kept goes behind what path 3 had |
| GifDma.GifDma.WriteRingDma | pcsx2/Gif.cpp:285-316 | exactly once: path 3 and the FIFO hold the block from its start to MADR without gap or repeat; MADR moves on if and only if the FIFO was not full |
| GifDma.GifDma.GifInterrupt | pcsx2/Gif.cpp:196-283 | the FIFO is emptied before the block goes on, so the stream stays exact over any number of interrupts, with anything in between that `Meanwhile` finds lossless; MADR and QWC move together |
| GifDma.GifDma.Meanwhile | pcsx2/Gif_Unit.h:566-643 | for transfers on the other paths, MTVU kicks, VIF1 interrupts, path checks, acknowledgements and control writes: path 3 loses exactly what it gives back, the stream stays exact if and only if that is nothing, and it is nothing if path 3 is `Tight`; `Ready` is kept but for a control write that ends a pause while path 3 holds a complete packet and no other path is active |
| GifDma.GifDma.AcknowledgeSignal | pcsx2/GS.cpp:77-93 | whichever path is active, the stream stays exact if and only if path 3 is not masked, or does not get its turn, or completes no packet with bytes behind it |
| GifDma.GifDma.StartBlock | pcsx2/Gif.cpp:348-359 | a new block begins where the stream of the one before ends |
| GifRuns.ChunkExecuted | pcsx2/Gif_Unit.h:685-785 | for this chunk the arbiter makes path 3 active and the second SIGNAL stalls it one quadword before the EOP |
| GifRuns.SubtractionWraps | pcsx2/Gif_Unit.h:636-642 | a run from the reset state in which a transfer of one quadword gives back two |
| GifRuns.AcknowledgementLoses | pcsx2/GS.cpp:77-93 | runs from the reset state, with and without a GIF interrupt that takes APATH from path 3 first: four of five quadwords are left on path 3, though the transfer was told that all were kept |
| MtvuPackets.RoundTrip | pcsx2/MTVU.cpp:139-193 | the VU thread reads on exactly to the last word of a packet, and then has the packet that was sent |
| MtvuRing.StoreKeeps | pcsx2/MTVU.cpp:306-316 | a word stored by the writer changes no pending packet |
| MtvuRing.CheckNullOnSameLap | pcsx2/MTVU.cpp:202-245 | with a packet of at most slack + 2 words, the wait before the null packet ends only when reader and writer are on the same lap |
| MtvuRing.FifoRefinement | pcsx2/MTVU.cpp:130-245 | over every interleaving in which no null packet is written a lap ahead and no wrap comes at committed read position 0, the packets read are those written, in order, and the committed positions are equal exactly when none is pending |
| MtvuRing.ShortPacketsSound | pcsx2/MTVU.cpp:202-245 | while no packet is longer than slack + 2 words, a run meets these conditions if and only if it never wraps at read position 0 |
| MtvuRing.WrapNeedsReader | pcsx2/MTVU.cpp:235-242 | wrapping keeps the ring sound if and only if the committed read position is not 0; otherwise it looks empty with packets pending |
| MtvuRing.LossIsReachable | pcsx2/MTVU.cpp:229-245 | with every ring size and packet there is a run that comes to wrap with the committed read position at 0 |
| MtvuRing.SlackIsShort | pcsx2/MTVU.cpp:202-226 | for every packet: some run from the start comes to wrap a lap ahead of the reader if and only if the packet is longer than slack + 2 words |
| MtvuRing.LapIsReachable | pcsx2/MTVU.cpp:202-245 | the run: the first lap is filled to the end and read, the second up to as far behind the reader as the slack allows |
| MtvuRing.LapsIntoLapped | pcsx2/MTVU.cpp:229-245 | from there the writer goes on to lap the reader, with packets pending |
| MtvuRing.LappedLoses | pcsx2/MTVU.cpp:135-198 | then the reader goes on until the ring looks empty, with everything committed in between unread |
| MtvuRing.UploadLaps | pcsx2/MTVU.cpp:69-70 | with the ring and slack of the source, a full upload of micro or data memory has slack + 3 words and laps the reader in some run |
| MtvuThread.VuThread.TakePacket | pcsx2/MTVU.cpp:137-196 | in place: the switch reads the front packet's fields and commits behind it |
| MtvuThread.VuThread.ExecuteRingBuffer | pcsx2/MTVU.cpp:130-198 | the loop takes every packet that was sent and stops with equal positions |
| MtvuThread.VuThread.WaitOnSize | pcsx2/MTVU.cpp:202-226 | waits until the test holds, and terminates because the reader runs out of packets |
| MtvuThread.VuThread.ReserveSpace | pcsx2/MTVU.cpp:229-245 | for every packet that fits the ring: there is room for it, or the writer went to the start too early and the ring looks empty with packets pending or is lapped; for packets of at most slack + 2 words only at read position 0 |
| MtvuThread.VuThread.ExecuteVU | pcsx2/MTVU.cpp:431-449 | the words written are the packet, committed behind all others |
| MtvuThread.VuThread.WriteMicroMem | pcsx2/MTVU.cpp:467-479 | the same for a program upload of any size |
| MtvuThread.VuThread.WriteDataMem | pcsx2/MTVU.cpp:481-493 | the same for a data upload of any size |
| MtvuThread.VuThread.WriteMask | pcsx2/MTVU.cpp:495-515 | the same for the column and row registers |
| MtvuThread.VuThread.VifUnpack | pcsx2/MTVU.cpp:451-465 | the same for an unpack |
| MtvuLabel.MergeIsBoth | pcsx2/Gif_Unit.cpp:143-150 | a merged label has the effect of both writes, one after the other |
| MtvuLabel.LabelsLinearize | pcsx2/Gif_Unit.cpp:135-152 | over every interleaving each LABEL write is applied exactly once and in order; a pending one has the flag set or a step in flight; when all is quiet LBLID is what all writes in order give |
| MtvuLabel.LabelChannel.HandleLabel | pcsx2/Gif_Unit.cpp:135-152 | the compare-exchange loop terminates under any number of spurious failures and any work of the EE thread, and records the write |
| MtvuLabel.LabelChannel.GetGSChanges | pcsx2/MTVU.cpp:387-398 | if the flag is set, everything pending is applied |
| MtgsRing.MemCopyWrappedDest | pcsx2/GS.h:498-510 | the words lie at consecutive positions modulo the size, and the new position is behind them |
| MtgsRing.MemCopyWrappedSrc | pcsx2/GS.h:512-524 | the words at consecutive positions modulo the size are read |
| MtgsRing.PutThere | pcsx2/GS.h:498-524 | what one copy writes, also across the end, the other reads back |
| MtgsRing.TakeKeeps | pcsx2/MTGS.cpp:282-439 | the reader takes exactly the packet in front, wherever it lies |
| MtgsRing.RingIsFifo | pcsx2/MTGS.cpp:594-778 | over every interleaving of single word stores with the reader: packets come out in order, positions are equal exactly when none is pending, unread words stand unharmed |
| MtgsRing.CommandRing.TakePacket | pcsx2/MTGS.cpp:282-439 | in place: tag and, for a VSYNC, the 16 words behind it |
| MtgsRing.CommandRing.GenericStall | pcsx2/MTGS.cpp:619-701 | more than the asked number of words is free afterwards, and nothing pending changed |
| MtgsRing.CommandRing.SendSimplePacket | pcsx2/MTGS.cpp:732-754 | the one-word packet is the last in the queue |
| MtgsRing.CommandRing.PostVsyncStart | pcsx2/MTGS.cpp:123-140 | the 17-word packet, straddling or not, is the last in the queue with its registers unchanged |
| MtgsRing.CommandRing.SendDataPacket | pcsx2/MTGS.cpp:594-617 | the size written back into the tag is the packet's, and it is committed |
| MtgsWaits.MatchesKept | pcsx2/MTGS.cpp:387-389 | the frame count is the number of VSYNC packets in the ring, but for one sent and not counted and one counted off and not released |
| MtgsWaits.TokensKept | pcsx2/MTGS.cpp:437-485 | exactly one wake-up is out for an EE that waits, and none otherwise |
| MtgsWaits.WakesKept | pcsx2/MTGS.cpp:142-169 | an EE that sleeps with its flag set has a GS thread that is awake or will be woken and will look at it |
| MtgsWaits.WaitsAreSound | pcsx2/MTGS.cpp:619-701 | over every interleaving: no lost wake-up on either semaphore, no dangling flag while the EE runs, and the exact bounds on the frame count |
| MtgsWaits.TimelyFramesStayInLimit | pcsx2/MTGS.cpp:155-168 | if no frame over the limit is counted in the window before the listener flag is looked at, the count stays within the limit while the EE runs, and one above it while it waits |
| MtgsWaits.LateCountOvershoots | pcsx2/MTGS.cpp:155-168 | when a frame over the limit is counted, the EE can come to run on with the limit exceeded if and only if it is counted in that window |
| MtgsWaits.OvershootIsReachable | pcsx2/MTGS.cpp:155-168 | with every limit the count can come to exceed it by two |
| EeCounters.QuietRun | pcsx2/Counters.cpp:813-819 | before the next event, any number of cycles of the hardware timers is what the stored counts and start cycles say |
| EeCounters.EventUpdate | pcsx2/Counters.cpp:530-564 | at the event the two tests do what the tick of the hardware timer does, interrupt included |
| EeCounters.UpdateIsRun | pcsx2/Counters.cpp:570-602 | an update not later than the next event gives the counters, and the interrupts with their cycles, of that many single cycles |
| EeCounters.BlanksAreTicks | pcsx2/Counters.cpp:629-642 | at a horizontal blank the timers that count them do what the hardware's tick does, interrupts included, and the others nothing |
| EeCounters.ManyUpdates | pcsx2/Counters.cpp:570-602 | however the time is cut into updates that come in time, the counters and all interrupts are those of single cycles over all of it: nothing drifts |
| EeCounters.EdgeStands | pcsx2/Counters.cpp:644-715 | at the edge of a blank, a gated counter stands for the hardware's timer, closed, opened or restarted, with its event ahead, if and only if it is timely: it was not closed at its target, or the target is more than what was counted since the cycle taken for the edge |
| EeCounters.RestartCounts | pcsx2/Counters.cpp:464-528 | with what the callers pass for the edge, the start of the period that has just ended, a restarted counter begins with at least the counts of that period |
| EeCounters.RestartFires | pcsx2/Counters.cpp:644-715 | the update that comes with the edge raises a restarted counter's target interrupt if and only if it is not timely |
| EeCounters.EdgeThenUpdates | pcsx2/Counters.cpp:570-602 | for timely gates, the edge of a vertical blank and then the update give the counters and interrupts of all cycles since the last update and then the edge in the hardware |
| EeCounters.ZeroTarget | pcsx2/Counters.cpp:781-806 | with a target of 0, update and cycle raise the same interrupts if and only if the counter has not overflowed since the write, and then agree |
| EeCounters.CyclesFit | pcsx2/Counters.cpp:75-120 | the 32-bit cycle counter may wrap: elapsed cycles and cycles to the event of a running counter come out of 32-bit arithmetic exactly, at the rates of the source |
| EeCounters.EeTimers.constructor | pcsx2/Counters.cpp:137-164 | `rcntInit` gives four stopped counters that agree with the hardware, and a schedule |
| EeCounters.EeTimers.CpuTestTarget | pcsx2/Counters.cpp:530-547 | in place: interrupt once, then reset or mark the target as future |
| EeCounters.EeTimers.CpuTestOverflow | pcsx2/Counters.cpp:549-564 | in place: interrupt once, wrap, and make the target current again |
| EeCounters.EeTimers.RcntSet | pcsx2/Counters.cpp:75-120 | the schedule never goes past the counter's next event; an event that was missed is looked at after 4 cycles |
| EeCounters.EeTimers.CpuRcntSet | pcsx2/Counters.cpp:123-135 | after an update no event of any counter, and no vsync event, comes before the scheduled cycle |
| EeCounters.EeTimers.RcntUpdate | pcsx2/Counters.cpp:570-602 | in place: if it runs in time, the four counters and all interrupts equal the cycle-by-cycle bank |
| EeCounters.EeTimers.StartHblank | pcsx2/Counters.cpp:624-642 | in place: a horizontal blank is that of the hardware bank, with its gates; the schedule, which is not touched, is right afterwards if and only if every restarted counter is timely and not due before it |
| EeCounters.EeTimers.EndHblank | pcsx2/Counters.cpp:682-715 | in place: the counters are the hardware's, and the schedule right, if and only if every opened or restarted counter is timely and not due before what was scheduled |
| EeCounters.EeTimers.RcntStartGate | pcsx2/Counters.cpp:624-672 | in place: blanks are counted first, then the gates driven by this blank close or restart their counters |
| EeCounters.EeTimers.RcntEndGate | pcsx2/Counters.cpp:682-715 | in place: the gates driven by this blank open or restart their counters, and no others |
| EeCounters.EeTimers.RcntUpdateAtVblank | pcsx2/Counters.cpp:496-602 | in place: with timely gates, the counters and interrupts are those of the hardware's cycles and then the edge, and everything is scheduled |
| EeRuns.OpenedTooLate | pcsx2/Counters.cpp:682-715 | a run from the reset state: the timer's gate opens at the end of a horizontal blank, the hardware raises its interrupt at cycle 20, and the next update, at cycle 1000, raises it then |
| EeCounters.EeTimers.RcntRcount | pcsx2/Counters.cpp:813-819 | a read before the scheduled cycle gives the hardware count |
| EeCounters.EeTimers.RecountedStands | pcsx2/Counters.cpp:757-779 | a count write restarts the comparison and keeps the partial count; the next event is still to come if and only if the value is not the target |
| EeCounters.EeTimers.RecountedFires | pcsx2/Counters.cpp:757-779 | with the target interrupt enabled, the interrupts one cycle after the write are the hardware's if and only if the value is not the target |
| EeCounters.EeTimers.RecountedFiresAtBlank | pcsx2/Counters.cpp:757-779 | the same for a timer that counts blanks, at the next blank |
| EeCounters.EeTimers.RcntWcount | pcsx2/Counters.cpp:757-779 | in place: the hardware timer's count is written and the schedule follows; a running counter set to its target has its event due at once |
| EeCounters.EeTimers.RetargetedStands | pcsx2/Counters.cpp:781-806 | a target write is compared from now on, or after the next overflow if the count has reached it |
| EeCounters.EeTimers.RcntWtarget | pcsx2/Counters.cpp:781-806 | in place: the hardware timer's target is written and the schedule follows; a target of 0 waits for the overflow (`ZeroTarget` says what it does) |
| EeCounters.EeTimers.ModeKeepsCount | pcsx2/Counters.cpp:724-755 | a mode write leaves the count as it was if and only if less than one count of the new rate is uncounted |
| EeCounters.EeTimers.RemodedStands | pcsx2/Counters.cpp:724-755 | after a mode write the counter stands for the hardware timer with the new mode, the uncounted cycles counted at the new rate and a gated one stopped at 0; its next event is still to come if and only if the count so reached is below it |
| EeCounters.EeTimers.RcntWmode | pcsx2/Counters.cpp:724-755 | in place, for every mode and counter: the hardware timer gets the new mode, the uncounted cycles and the gate; the counters agree with the bank and the schedule is right if and only if the count so reached is below the event that the counter waits for |
| EeCounters.EeTimers.RcntSetGate | pcsx2/Counters.cpp:604-621 | in place: an enabled gate stops its counter at 0, except a gate on horizontal blanks for a timer that counts them |
| EeCounters.EeTimers.Pass | pcsx2/Counters.cpp:813-819 | cycles that pass before the scheduled one need no update |
| VideoSync.ErrorIsSmall | pcsx2/Counters.cpp:183-244 | the correction is at most half the scanlines plus 2 cycles in size |
| VideoSync.SyncTimers.UpdateHScanline | pcsx2/Counters.cpp:464-494 | the start cycle moves by fixed steps, however late the update |
| VideoSync.SyncTimers.UpdateVSync | pcsx2/Counters.cpp:496-528 | the same for the half frame, with the correction once in each |
| VideoSync.SyncTimers.NoDrift | pcsx2/Counters.cpp:464-528 | after k frames and their scanlines the two start cycles are apart by k times the parity of scanlines times line length |
| DataCache.GetFreeKeeps | pcsx2/Cache.cpp:187-219 | bringing a page in changes no byte a program sees, and replaces the way that was filled longest ago |
| DataCache.ClearKeeps | pcsx2/Cache.cpp:136-140 | throwing a line away shows what memory holds there, and changes nothing else |
| DataCache.StepIsFlat | pcsx2/Cache.cpp:222-283 | one operation is the same operation on flat memory, with the same result; no two ways of a set hold one page |
| DataCache.CacheRefinesFlat | pcsx2/Cache.cpp:337-456 | every run of reads, writes and write-backs, through any virtual aliases, gives the results of flat memory |
| DataCache.Dcache.GetFreeCache | pcsx2/Cache.cpp:187-219 | in place: the way found holds the page, and flat memory is unchanged |
| DataCache.Dcache.ReadCache | pcsx2/Cache.cpp:271-283 | in place: the aligned bytes of flat memory |
| DataCache.Dcache.WriteCache | pcsx2/Cache.cpp:222-234 | in place: flat memory changes at the aligned bytes and nowhere else |
| DataCache.Dcache.HitWriteBack | pcsx2/Cache.cpp:351-364 | DHWBIN and DHWOIN change nothing that a program sees |
| DataCache.Dcache.IndexWriteBack | pcsx2/Cache.cpp:394-456 | DXWBIN and DXLTG change nothing that a program sees |
| DataCache.Dcache.HitInvalidate | pcsx2/Cache.cpp:344-349 | DHIN discards the line: memory shows through at its place, and only there |
| DmaChain.ReadTagAgrees | pcsx2/Hw.cpp:230-332 | reading a tag sets up the interpreter's transfer, and at most two return addresses are kept |
| DmaChain.ChainIsInterpreted | pcsx2/Hw.cpp:230-332 | for every memory and every cutting of the data, the transfers are the interpreter's if and only if no third nested CALL comes before the last of them |
| DmaChain.StepsAgree | pcsx2/Hw.cpp:230-363 | as long as no third nested CALL comes, the registers of the channel between tags are the interpreter's state, TADR and return addresses included |
| DmaChain.RetMatchesCall | pcsx2/Hw.cpp:258-322 | after the RET that matches a CALL, TADR is right behind the data of that CALL and the return addresses are those from before it |
| DmaChain.DmaChannel.SrcChainWithStack | pcsx2/Hw.cpp:230-332 | in place: the registers change as the specification says, for each tag |
| DmaChain.DmaChannel.ReadNextTag | pcsx2/Gif.cpp:348-359 | in place: the next transfer is the interpreter's; a third nested CALL ends the chain after its data |
| DmaChain.DmaChannel.IncAddr | pcsx2/Hw.cpp:352-363 | nothing moves while STR is off; in chain mode the channel stays in step, TADR following MADR for CNT; in other modes TADR stays |
| Tlb.DecodedIsAligned | pcsx2/COP0.cpp:321-337 | with a contiguous page mask, clearing its bits rounds down: an entry and its physical halves start at multiples of their sizes, and the entry stays in the address space |
| Tlb.MaskTest | pcsx2/COP0.cpp:256-262 | for contiguous masks, the bit test of the loops holds exactly for the pages of the same block of two halves |
| Tlb.WriteAgrees | pcsx2/COP0.cpp:239-373 | unmapping the old entry and mapping the new one keeps the table in agreement, if no page is covered twice |
| Tlb.OverlapLosesPage | pcsx2/COP0.cpp:281-319 | with overlapping entries, clearing one takes the shared page from the other |
| Tlb.TlbUnit.MapTLB | pcsx2/COP0.cpp:239-279 | in place: exactly the pages of the valid halves are mapped, each to its physical page |
| Tlb.TlbUnit.UnmapTLB | pcsx2/COP0.cpp:281-319 | in place: exactly the pages of the valid halves are unmapped |
| Tlb.TlbUnit.TLBWI | pcsx2/COP0.cpp:358-373 | from the registers: after any sequence of writes each page goes where the one valid half covering it says, and nowhere if there is none |
| IopCounters.OneShotFiresOnce | pcsx2/IopCounters.cpp:168-265 | without the repeat bit at most one interrupt is raised between arming writes, under any updates, hblanks, gates and count writes |
| IopCounters.ArmingExactly | pcsx2/IopCounters.cpp:603-812 | a spent one-shot timer is armed by mode writes and by target writes to 32-bit timers in pulse mode, and by nothing else |
| IopCounters.IopTimers.RcntFireInterrupt | pcsx2/IopCounters.cpp:168-200 | in place: fires if it may; toggles or clears the permission |
| IopCounters.IopTimers.RcntTestTarget | pcsx2/IopCounters.cpp:201-224 | in place: the target's interrupt, then reset or future target |
| IopCounters.IopTimers.RcntTestOverflow | pcsx2/IopCounters.cpp:227-265 | in place: without the repeat bit only if the target did not come first |
| IopCounters.IopTimers.PsxRcntUpdate | pcsx2/IopCounters.cpp:441-501 | the two loops update each timer by itself |
| Gte.RtptIsThreeRtps | pcsx2/IopGte.cpp:872-906 | RTPT is three RTPS: same queues, MAC and IR, and FLAG is the union of the three but for bits 22 and 12, which come from the last |
| Gte.ScreenRange | pcsx2/IopGte.cpp:493-512 | screen coordinates stay in -1024..1023, and the projection factor is at most 2 |
| Gte.GteUnit.Flim | pcsx2/IopGte.cpp:427-490 | the value is clamped, and its bit set exactly if it had to be |
| Gte.GteUnit.FlimG | pcsx2/IopGte.cpp:493-512 | the same for screen coordinates, with the overflow bits |
| Gte.GteUnit.GteRTPS | pcsx2/IopGte.cpp:678-698 | in place: registers and FLAG are those of the transform of one vertex |
| Gte.GteUnit.GteRTPT | pcsx2/IopGte.cpp:872-906 | in place: registers and FLAG are those of the transform of three |

## Left out

- GIF sizes are counted in quadwords; partial quadwords do not occur in the source's transfers.
- GIF registers 0x50 to 0x53, LABEL and the interrupt side of SIGNAL and FINISH on the EE thread: the handler keeps the order of all A+D writes, of which they are functions.
- MTVU's own parsing of path 1 (`ExecuteGSPacketMTVU`, `gsPack.readAmount`): the queue it waits on is not part of this model; on the EE side path 1 then only announces packets.
- MFIFO transfers, VIF1's FLUSH flags, GIF interrupt scheduling and cycle counts: they decide when a step runs, not what it does.
- The unconditional release of APATH 1 when VU1 finishes, and the release of APATH in the FIFO write handler: like `CheckPathStatus`, with no new account to keep.
- GifPath.GifPath.CopyGSPacketData: requires that the packet fits the buffer, which the source asserts.
- GifUnit.GifUnit.TransferGSPacketData: works on the paths as their parsers see them, not on their buffers, and does not say in which order A+D writes of different paths interleave.
- MtvuThread.VuThread.ReserveSpace: claims nothing about what is sent after a wrap that loses packets; the semaphore that starts the VU thread is left out.
- MtvuThread.VuThread.VifUnpack: sizes in bytes are rounded up to words, and the unused bytes of a last word are not modelled.
- MtvuLabel.LabelChannel.HandleLabel: without a bound on the spurious failures of the weak exchange the loop need not end.
- MtgsRing.CommandRing.GenericStall: the GS thread is assumed to run while the EE waits; how it is woken is the subject of `MtgsWaits`.
- MTGS: `ResetGS`, `FinishTaskInThread`, cancellation, the busy mutexes of builds other than libretro, and the contents of the commands.
- Memory orders weaker than sequential consistency.
- EeCounters.EeTimers.RcntUpdateAtVblank: for a gate that is not timely, or whose counter has its event at that very cycle, gives the counters but does not compare them with the hardware.
- EeCounters.EeTimers.RcntWcount: after a running counter is set to its target, agreement with the hardware is not claimed; `RecountedFires` shows that it fails.
- EeCounters.EeTimers.RcntWtarget: for a target of 0 the bank of timers is not carried on; `ZeroTarget` compares such a counter with its timer.
- VideoSync: the fixed-point conversion from the frame rate, the non-analog modes and what happens at each event are left out.
- DataCache.Dcache.HitInvalidate: DXIN is the same discard by index; DXSTG, DXSDT and DXLDT, which touch raw tags or data, are left out; translation is taken to keep the low 12 bits, and pages behind handlers are excluded as in the source.
- DmaChain: transfers that stall, DMA stall control and the chain mode without a stack (`hwDmacSrcChain`).
- Tlb.TlbUnit.TLBWI: is stated for entries that are not the scratchpad's, have contiguous page masks and overlap no other entry; `TLBP`, `TLBR` and address-space identifiers are left out.
- IopCounters.OneShotFiresOnce: register reads in other files that touch the mode, and counting across the 16- and 32-bit edge, are left out.
- Gte.GteUnit.GteRTPS: register widths matter only where the source converts to 32 bits; the sum of products is taken to wrap.
- Save states, logging, the FPU, VU and GS execution, the frontend.
