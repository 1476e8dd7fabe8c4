# Verified models of Microwatt's state machines

Microwatt is a Power ISA soft core written in VHDL, with a JTAG debug host and boot firmware in C.
This project models its most intricate state machines and algorithms in Dafny and proves what they are
for, over every run, every input or every interleaving of clocks.

| files | what they model |
|---|---|
| `CacheTypes`, `CacheRam`, `Dcache` | the data cache: byte-write RAM, request decode, two-deep forwarding, snooping, reservations and the refill/store state machine, with ways, lines and rows per line left open |
| `DcacheBus`, `DcacheTags`, `DcacheData` | the cache on its pipelined Wishbone bus: invariants of every step |
| `DcacheSystem`, `DcacheReach`, `DcacheProgress`, `DcacheRun`, `DcacheRefill` | its runs, and theorems over them |
| `DcacheEffects` | what flush, touch, sync and writes by other masters do to the cache |
| `DcacheReservation`, `DcacheLarx` | load-and-reserve and store-conditional, alone and with other bus masters writing |
| `DcacheStaleRearm`, `DcacheRefillRaces` | concrete runs in which the source does not keep a promise |
| `Dtlb` | the data TLB |
| `Scoreboard` | instruction tags, hazards, bypass selection and operand capture |
| `DmiTransport`, `DmiMoves`, `DmiHost`, `CoreDebug`, `DebugRegisters` | the JTAG to DMI transport across two clocks, the polling host, the core debug unit behind it, and what its registers hold |
| `Divider`, `BitSorter` | the iterative divider, and cfuged/pextd/pdepd |
| `PageTable`, `Uart`, `Numerals` | the radix page table builder, the simulated serial port, integer printing and parsing |
| `Arith`, `Wrappers` | shared arithmetic and optional values |

A clocked process is a `Step` function on its registers, or a class with one method per clock edge;
what lies outside (the bus, the pipeline, the clocks, the console) appears as inputs constrained by an
environment predicate. Runs are sequences of inputs from reset.

## Main results

* **Loads see the last stores.** With one bus master, the n-th completion answers the n-th accepted
  request and every load returns, byte for byte, the last earlier store or initial memory
  (`DcacheRun.LoadsSeeLastStores`).
* **Operands are right.** Every issued instruction carries its constants and, for each register operand,
  the result of the youngest earlier writer (`Scoreboard.OperandsAreYoungestWrites`); and it issues exactly
  when its operands are at hand and nothing else holds it back (`Scoreboard.ReadyIssues`).
* **One command, one transaction.** For any interleaving of the two clocks and the slave, the polling
  host causes exactly one transaction and reads the slave's data (`DmiHost.Link.DmiRead`), behind it the
  debug unit acts exactly once (`CoreDebug.EachCommandActsOnce`), and its registers hold what the last
  commands put there (`DebugRegisters.StopAndEnd`, `DebugRegisters.RegistersFollowCommands`).
* **Every request completes.** From every reachable state, on a bus that accepts and acknowledges, the
  current request completes within a stated bound (`DcacheProgress.EveryRequestCompletes`).
* **Store-conditional.** The source does not keep its promise. When a touch has started a refill that
  the bus has not granted, and then a load of a row of that refill completes straight from stage 0, line
  1741 tests the reserve flag of the previous request, and a reservation lost to another master's write
  comes back. `DcacheStaleRearm` gives a run from reset in which a store-conditional is then driven
  although its line was written. The condition `StaleRearm` is the guard of that one branch with a lost
  reservation. `DcacheReservation.DrivenStcxAtomicIff` proves that in every run a driven store-conditional
  is atomic if and only if no such step came after its reserving load, and `RunsSoundIff` that a run is
  sound throughout if and only if it has no such step at all.
* **Load-and-reserve.** With one bus master a store-conditional is performed if and only if the program
  holds a reservation of its line (`DcacheLarx.StcxSucceedsIff`), and a reservation stays until a
  store-conditional or another load-and-reserve (`ReservationStays`). But a load-and-reserve does not
  always make one: if its row arrives from a refill in progress while it is still in stage 0, line 1741
  again tests the previous request's flag. `LarxMakesReservation` gives the exact condition, and
  `DcacheRefillRaces.LarxRace` a run in which a load-and-reserve completes without a reservation.
* **Flush.** A flush that finds its line in the refill in progress and its row not yet arrived counts as a
  miss, since the load/store unit marks a flush as a load (loadstore1.vhdl:705) and dcache.vhdl:988 then
  hides the hit; it completes and the line stays. `DcacheEffects.FlushedLineIsGone` proves that in every
  run this is the only exception, and `DcacheRefillRaces.FlushRace` shows it.
* **Arithmetic.** The divider answers every request once, with the exact quotient or remainder of its
  dividend or with overflow (`Divider.PulseMeans`, `Divider.SignedDivision`); the bit sorter computes the three instructions
  (`BitSorter.Sorter.Sort`), which obey their inversion laws.
* **Round trips and refinement.** The TLB hits exactly the pages loaded and not since removed and
  returns the last loaded entry, the page walk finds the last
  mapping, the looped-back serial port repeats its input, and `strtoul` reads back what was printed.

Where code and comments differ, the model follows the code: the log address advances after any access
to the log data register, a write included, although core_debug.vhdl:247 speaks of reads; operation
code 3 of the bit sorter sorts like cfuged; `print_itoa` refuses base 2.

## Model

| member | source | states |
|---|---|---|
| CacheRam.Ram.Clock | cache_ram.vhdl:38-88 | selected byte lanes of the row are written, all else is kept; a read returns the row before the edge; the output follows at once or one clock later |
| CacheRam.WritesFollow | dcache.vhdl:1246-1326 | clocked with the cache's selects, row and data, the RAM of each way goes on holding that way's rows |
| CacheRam.ReadsFollow | dcache.vhdl:1262-1293 | its read register goes on being the one the cache model reads |
| DcacheBus.CurrentOk | dcache.vhdl:1499-1550 | the request seen by the state machine is exactly one of load miss, store, flush or sync |
| DcacheBus.HitReloadLine | dcache.vhdl:982-1063 | a load that waits for the refill in progress asks for a row of that very line that has not arrived |
| DcacheBus.WindowStep | dcache.vhdl:1692-1769 | rows arrived, outstanding and still to be requested stay consecutive stretches of the line, in wrap-around order, under any stall and acknowledge timing |
| DcacheBus.LinkStore | dcache.vhdl:1771-1820 | every step of a store cycle keeps the bus invariant |
| DcacheBus.AcksStore | dcache.vhdl:1573-1584 | the delayed three-bit counter stays equal to the beats presented and not acknowledged |
| DcacheBus.LinkTags | dcache.vhdl:876-897 | the registered tag set is current whenever a request may use it |
| DcacheBus.StepLinked | dcache.vhdl:1410-1882 | the whole control, bus and counter invariant is kept by every step |
| DcacheTags.HitsHold | dcache.vhdl:1041-1052 | the hitting ways are exactly the ways that hold the requested line |
| DcacheTags.SingleHit | dcache.vhdl:1041-1063 | at most one way hits, and a miss means that no way holds the line |
| DcacheTags.UniqueStep | dcache.vhdl:1470-1497 | snoop invalidation, flush and allocation never put one line into two ways |
| DcacheTags.MissIsNotHeld | dcache.vhdl:1041-1063 | a missing line that no refill in progress brings is in no way |
| DcacheTags.AllocStep | dcache.vhdl:1615-1638 | the line about to be allocated is in no way |
| DcacheTags.StepDir | dcache.vhdl:1873-1878 | the directory invariant is kept by every step |
| DcacheTags.HitDataIsOneWay | dcache.vhdl:1343-1349 | the OR of all hitting ways is the data of the one way that hits |
| DcacheData.StorePresented | dcache.vhdl:1640-1820 | a performed store appears on the bus with its own address, data and byte selects |
| DcacheData.ViewStep | dcache.vhdl:1771-1820 | memory and the store on the bus together are all performed stores |
| DcacheData.RefillDataStep | dcache.vhdl:1692-1769 | data on its way for a refill is memory as the program sees it |
| DcacheData.HeldStoreStep | dcache.vhdl:1499-1550 | the hit way recorded for a waiting store is still right when it is written |
| DcacheData.RamStep | dcache.vhdl:1246-1284 | every arrived row of every valid line equals memory as the program sees it |
| DcacheData.ForwardStep | dcache.vhdl:1286-1306 | the RAM output with both forwarding stages equals the current RAM contents |
| DcacheData.LoadHitData | dcache.vhdl:1333-1360 | a load hit returns the program's memory |
| DcacheData.LoadReloadData | dcache.vhdl:1716-1739 | a load answered by a refill row returns the program's memory |
| DcacheRun.CompletionFrees | dcache.vhdl:1588-1878 | a completion leaves stage 1 empty, otherwise the request is held there unchanged |
| DcacheRun.CompletionStores | dcache.vhdl:1640-1871 | a store completes exactly when it is performed, and only a store-conditional may fail |
| DcacheRun.OrderStep | dcache.vhdl:599-638 | the n-th completion answers the n-th accepted request |
| DcacheRun.ReplayBytes | dcache.vhdl:1286-1306 | replaying the stores byte by byte is the last store to each byte |
| DcacheRun.LoadsSeeLastStores | dcache.vhdl:972-1820 | in every run with one master: completions in order, at most two in flight, each load returns the last earlier stores, and memory holds all stores when idle |
| DcacheRefill.RowsOnce | dcache.vhdl:524-549 | the wrap-around order visits each row of a line exactly once |
| DcacheRefill.LogStep | dcache.vhdl:1692-1769 | rows are requested and filled in that order |
| DcacheRefill.RefillStarts | dcache.vhdl:1588-1613 | a refill starts at the row that missed |
| DcacheRefill.RefillVisitsRowsOnce | dcache.vhdl:1692-1769 | in every run, foreign writes included, a refill that ends has requested and filled each row exactly once in wrap-around order |
| DcacheRefill.RefillsWholeLine | dcache.vhdl:1692-1769 | with one master, every row of the chosen way then equals memory |
| DcacheReach.HitsAreSingle | dcache.vhdl:1020-1063 | in every reachable state, foreign writes included, no two ways hold one line and hit data is one way's data |
| DcacheReach.StoreCycleIsExact | dcache.vhdl:1573-1820 | in every reachable state the counter is exact and below eight, a merged store is presented at its own address, and idle means nothing outstanding |
| DcacheReach.StoresFollow | dcache.vhdl:1783-1806 | in every reachable store cycle with fewer than seven beats outstanding, a plain store to the same page completes at once and is the next beat |
| DcacheProgress.WorkShrinks | dcache.vhdl:1586-1879 | on a bus that accepts and acknowledges, each cycle completes the held request or lowers the cycles it may still take |
| DcacheProgress.EveryRequestCompletes | dcache.vhdl:1586-1879 | in every run, once the bus is prompt, a held request completes within a bound given by the rows left and the beats outstanding, and any request within four cycles a row and twelve more |
| DcacheEffects.FlushStep | dcache.vhdl:1499-1550 | the flush of a waiting request stays aimed at the only way that may hold its line |
| DcacheEffects.FlushedLineIsGone | dcache.vhdl:1873-1878 | in every run, foreign writes included, no way holds a line whose flush has just completed, if and only if the flush did not find its row still to come in a refill of the line |
| DcacheEffects.ForeignWriteInvalidates | dcache.vhdl:900-932 | in every run, two clocks after another master's write no way holds the written line, unless a refill is bringing it |
| DcacheEffects.TouchedLineIsHeld | dcache.vhdl:1706-1713 | with one master, a completed touch has its line in the cache |
| DcacheEffects.SyncWaits | dcache.vhdl:1684-1690 | a sync completes only with the machine idle and nothing outstanding |
| DcacheRefillRaces.FlushRace | dcache.vhdl:1140-1145 | a run from reset in which a flush completes and its line is still held |
| DcacheRefillRaces.LarxRace | dcache.vhdl:1731-1744 | a run from reset in which a load-and-reserve completes without a reservation |
| DcacheLarx.LarxMakesReservation | dcache.vhdl:1455-1463 | in every run, foreign writes included, a completed load-and-reserve leaves its line reserved exactly if it was held in stage 1, or hit a line not written the cycle before, or followed another reserving request |
| DcacheLarx.ReservationStays | dcache.vhdl:1455-1463 | with one master, the reservation is what the program's own requests make of it, until a store-conditional or another load-and-reserve |
| DcacheLarx.StcxSucceedsIff | dcache.vhdl:1842-1871 | with one master, a store-conditional is performed, with its own address and bytes, if and only if the program holds a reservation of that line, and otherwise fails |
| DcacheLarx.StcxFailsOffBus | dcache.vhdl:1640-1656 | in every run a store-conditional without a reservation fails at once without a bus cycle |
| DcacheReservation.SnoopHitLine | dcache.vhdl:901-932 | the snoop test in stage 0 is exact for the requested line |
| DcacheReservation.SoundKept | dcache.vhdl:1455-1463 | outside a reserving refill completion every step keeps reservations sound, the one-cycle snoop delay included |
| DcacheReservation.SoundReload | dcache.vhdl:1731-1744 | a reserving refill completion other than a stale re-arm leaves reservations sound; that it makes one is LarxMakesReservation |
| DcacheReservation.StaleRearmUnsound | dcache.vhdl:1731-1744 | a stale re-arm leaves an unsound reservation |
| DcacheReservation.SoundIff | dcache.vhdl:1731-1744 | a step from a sound state, or one that reserves anew, leaves reservations sound if and only if it is no stale re-arm |
| DcacheReservation.RunsSoundIff | dcache.vhdl:1640-1871 | a run is sound throughout if and only if it has no stale re-arm |
| DcacheReservation.TaintStep | dcache.vhdl:1455-1871 | after a stale re-arm the reserved line has been written, until the next reserving load makes reservations sound again |
| DcacheReservation.DrivenStcxAtomicIff | dcache.vhdl:1842-1871 | in every run a store-conditional is driven only to the reserved line, and that line is unwritten by others since the reserving load read it if and only if no stale re-arm came after that load |
| DcacheStaleRearm.RearmReached | dcache.vhdl:1731-1744 | a run from reset reaches a stale re-arm |
| DcacheStaleRearm.StcxDrivenAfterForeignWrite | dcache.vhdl:1842-1871 | and then drives a store-conditional although another master wrote its line |
| Dtlb.SearchOk | dcache.vhdl:735-762 | the search hits exactly when the page is resident, in its way |
| Dtlb.HitReturnsLoadedPte | dcache.vhdl:735-762 | a hit returns the entry loaded for that page |
| Dtlb.ContentStep | dcache.vhdl:786-822 | loads and invalidations put exactly the pages in and take exactly the pages out that they name, so no page is in two ways |
| Dtlb.LoadIsResident | dcache.vhdl:803-822 | right after a load its page is in the chosen way with its entry, and every other way is as before |
| Dtlb.StepInv | dcache.vhdl:653-822 | the TLB invariant is kept by every step |
| Dtlb.TlbIsCoherent | dcache.vhdl:653-822 | in every run a search hits exactly if its page was loaded and since neither invalidated nor displaced, and returns the last entry loaded |
| Scoreboard.ScanTags | control.vhdl:168-250 | the loop over the tags computes the stall decision |
| Scoreboard.YoungestAvailable | control.vhdl:168-250 | an operand that does not stall has its youngest writer on a bus or completing |
| Scoreboard.SelectsYoungest | control.vhdl:168-250 | the bus selected carries the youngest writer's value |
| Scoreboard.SelectsNothing | control.vhdl:168-250 | no bus is selected for a register nobody outstanding writes |
| Scoreboard.StallsExactly | control.vhdl:168-250 | an operand stalls exactly if its youngest outstanding writer is on no bus and not completing |
| Scoreboard.IssuedOperand | decode2.vhdl:677-724 | the operand captured at issue is its constant or the youngest earlier write |
| Scoreboard.BoardStep | control.vhdl:94-131 | the tags show exactly the outstanding instructions, and recent bits mark the youngest writers |
| Scoreboard.WaitStep | decode2.vhdl:305-328 | a waiting instruction has captured every operand that is committed |
| Scoreboard.OperandsAreYoungestWrites | control.vhdl:293-321 | in every run each issued operand is its constant or the result of the youngest earlier writer |
| Scoreboard.ReadyIssues | control.vhdl:293-321 | in every run an instruction issues exactly if no register operand has to wait and nothing else holds it back |
| Scoreboard.TagsAreFree | control.vhdl:94-131 | in every run tags are given out in turn, and an issuing instruction gets one that no outstanding instruction has |
| Scoreboard.NoneLostOrRepeated | decode2.vhdl:305-328 | in every run each instruction taken is issued once and handed to execution once, in order and with the operands it was issued with, but for the one in the output register and those flushed |
| DmiTransport.HostLayout | scripts/mw_debug/mw_debug.c:405-437 | the host's operation and status numbers, and its 74-bit register |
| DmiTransport.NotBusyIsQuiet | dmi_dtm_xilinx.vhdl:198-211 | not busy exactly when all six handshake flags are down |
| DmiTransport.WaveTck | dmi_dtm_xilinx.vhdl:225-278 | a JTAG edge keeps the single wavefront; a command is latched only on a quiet ring |
| DmiTransport.WaveSys | dmi_dtm_xilinx.vhdl:169-182 | a system clock edge keeps it |
| DmiTransport.WaveSlave | dmi_dtm_xilinx.vhdl:12-15 | so does a slave that follows the handshake |
| DmiTransport.NeverBack | dmi_dtm_xilinx.vhdl:169-278 | no move sets a handshake back |
| DmiTransport.AlwaysForward | dmi_dtm_xilinx.vhdl:169-278 | while the ring is not quiet, one of the three moves brings the end closer |
| DmiMoves.LeftTellsFlags | dmi_dtm_xilinx.vhdl:169-278 | the moves left in a handshake determine all six flags |
| DmiMoves.FairForward | dmi_dtm_xilinx.vhdl:169-278 | any interleaving with a system clock, an answer and a selected JTAG clock in it strictly shortens the handshake |
| DmiMoves.HandshakeEnds | dmi_dtm_xilinx.vhdl:169-278 | from any state eleven such rounds, each in any interleaving, end the handshake |
| DmiTransport.TckRing | dmi_dtm_xilinx.vhdl:242-269 | operation and address stay those of the newest command until the next is latched |
| DmiTransport.SysRing | dmi_dtm_xilinx.vhdl:169-182 | transactions are the accepted commands in order |
| DmiTransport.SlaveInv | dmi_dtm_xilinx.vhdl:12-15 | answers are recorded once per command at its address |
| DmiHost.Link.constructor | dmi_dtm_xilinx.vhdl:169-240 | joint reset gives an idle link |
| DmiHost.Link.TckEdge | dmi_dtm_xilinx.vhdl:225-278 | the shifter's effect on all registers and the history |
| DmiHost.Link.SysEdge | dmi_dtm_xilinx.vhdl:169-182 | the synchroniser's effect |
| DmiHost.Link.ShiftWord | dmi_dtm_tb.vhdl:117-156 | shifting a word in returns the old contents and latches nothing |
| DmiHost.Link.Wait | dmi_dtm_xilinx.vhdl:169-278 | any moves between scans latch nothing and leave an idle link alone; fair ones shorten a handshake |
| DmiHost.Link.Capture | dmi_dtm_xilinx.vhdl:271-274 | capture shows the status and the request register |
| DmiHost.Link.Update | dmi_dtm_xilinx.vhdl:242-254 | update latches a valid command on an idle link and nothing otherwise |
| DmiHost.Link.Scan | scripts/mw_debug/mw_debug.c:405-437 | a scan answers OK or busy, OK if the link was idle; a command scanned while OK is accepted; an OK poll shows the finished command; a busy one after fair moves is closer to the end |
| DmiHost.Link.PollUntilOk | scripts/mw_debug/mw_debug.c:458-466 | polling latches nothing and ends idle with the data register, at the latest with the twelfth poll after fair moves |
| DmiHost.Link.DmiRead | scripts/mw_debug/mw_debug.c:451-467 | exactly one command is accepted, one transaction started, and the value is the slave's answer for that address; twelve fair polls are enough |
| DmiHost.Link.DmiWrite | scripts/mw_debug/mw_debug.c:469-485 | exactly one command is accepted and one transaction started with the address and data; twelve fair polls are enough |
| CoreDebug.DebugUnit.Control | core_debug.vhdl:212-231 | the control register's effects, with start over stop |
| CoreDebug.DebugUnit.WriteReg | core_debug.vhdl:208-241 | a register write has exactly the effect of its event, which the rows of DebugRegisters state |
| CoreDebug.DebugUnit.CountDelay | core_debug.vhdl:188-205 | the trigger delay counts, and at its end sets the trigger bits |
| CoreDebug.DebugUnit.Access | core_debug.vhdl:206-251 | at most one register access, once per rise of the request |
| CoreDebug.DebugUnit.Tick | core_debug.vhdl:170-268 | one clock edge: trigger delay, access, termination, in that order |
| CoreDebug.DelayIsExact | core_debug.vhdl:188-205 | however triggers come, the delay ends a fixed number of clocks after the first and reports just those that came |
| CoreDebug.SysDue | core_debug.vhdl:206-257 | at each system clock the unit does exactly what the newest transaction still owes |
| CoreDebug.EachCommandActsOnce | core_debug.vhdl:206-257 | in every run at any clock ratio the accesses performed are those of the accepted commands, in order, each once |
| CoreDebug.SettlesInTwo | core_debug.vhdl:246-257 | two system clocks after the link is idle nothing is owed |
| CoreDebug.LogFollowsCommands | core_debug.vhdl:206-257 | in every settled run the log address is what the accepted commands make of it; termination and triggers leave it alone |
| CoreDebug.LogWalk | core_debug.vhdl:246-250 | n accesses to the log data register advance the position by n modulo four times the log length |
| CoreDebug.LogPosition | core_debug.vhdl:206-257 | in every settled run the position is the last address written plus the data accesses accepted since, modulo four times the log length |
| DebugRegisters.RegisterMap | core_debug.vhdl:70-109 | the register numbers |
| DebugRegisters.StopAndEnd | core_debug.vhdl:212-268 | in every run the core is stopping, or counts as terminated, as the last event that decides it says; otherwise as it started |
| DebugRegisters.RegistersFollowCommands | core_debug.vhdl:232-241 | in every settled run the register index and the trigger registers hold the data last written to them by an accepted command, and bit 1 may have been set by a trigger |
| DebugRegisters.TriggerBit | core_debug.vhdl:188-205 | in every run bit 1 of a trigger register is as its last write or the last end of the delay left it |
| DebugRegisters.PulsesMean | core_debug.vhdl:170-231 | the one-clock pulses are exactly the control bits of a write at that clock, and the log read pulse a write of the log address or the end of an access to the log data |
| Divider.FitsMeans | divider.vhdl:69 | the comparison of the iteration is a comparison with the shifted divisor |
| Divider.ReducedMeans | divider.vhdl:71-72 | the modular subtraction is the exact difference, doubled |
| Divider.DendStep | divider.vhdl:64-86 | one-bit and eight-bit steps both keep what is left of the numerator |
| Divider.IterateStep | divider.vhdl:64-86 | each iteration consumes one or eight positions and never more than 65 in all |
| Divider.Finished | divider.vhdl:38-91 | after 65 positions: floor quotient and remainder, overflow exactly when the quotient needs 65 bits or the divisor is zero, and the 32-bit flag likewise |
| Divider.SignBits64 | divider.vhdl:99-107 | the top two bits of the 65-bit result agree exactly when it fits 64 signed bits |
| Divider.SignBits32 | divider.vhdl:108-114 | bits 32 and 31 agree exactly when the low 33 bits, read with their sign, fit 32 |
| Divider.PlainRange | divider.vhdl:108-114 | for every quotient, and for remainders of 32-bit divisors, that is the plain signed 32-bit range |
| Divider.ResultOk | divider.vhdl:93-123 | for every request the output is the exact answer in its width, or zero with overflow when it is not representable or the divisor is zero |
| Divider.EveryRequestIsAnswered | divider.vhdl:36-135 | from any state every request is answered by exactly one valid pulse, after at most 65 running steps, with the answer of ResultOk |
| Divider.PulseMeans | divider.vhdl:36-135 | from any state the one pulse carries the quotient or remainder of the request's dividend, above 64 zeros if extended, with the sign and width asked for, or zero with the exact overflow |
| Divider.ZeroDivisor | divider.vhdl:93-123 | division by zero is answered by zero with overflow |
| Divider.FlushedRequest | divider.vhdl:36-135 | a request flushed or replaced is still answered at that edge exactly if it has just finished, and a flush is followed by silence |
| Divider.SignedDivision | divider_tb.vhdl:107-138 | signed 64-bit division, extended or not, truncates toward zero, and overflow says exactly that the quotient does not fit |
| BitSorter.PointersApart | bitsort.vhdl:79-97 | the two write pointers never meet |
| BitSorter.PickAt | bitsort.vhdl:7-8 | pextd puts each bit under the mask at the place given by the mask bits below it |
| BitSorter.CfugedIsBoth | bitsort.vhdl:5-6 | cfuged is the two picks side by side |
| BitSorter.ExtractOfDeposit | bitsort.vhdl:7-10 | pextd(pdepd(x, m), m) keeps the low popcount(m) bits of x |
| BitSorter.DepositOfExtract | bitsort.vhdl:7-10 | pdepd(pextd(x, m), m) is x and m |
| BitSorter.CfugedSortsMask | bitsort.vhdl:5-6 | cfuged of the mask itself is sorted |
| BitSorter.Sorter.Go | bitsort.vhdl:68-78 | `go` starts from the operands |
| BitSorter.Sorter.Tick | bitsort.vhdl:79-106 | each clock extends the partial result by one mask bit from each end |
| BitSorter.Sorter.Sort | bitsort.vhdl:60-108 | after 64 clocks `done` comes with the instruction's result |
| PageTable.DirEntryFields | tests/modes/modes.c:149-176 | a directory entry is valid, no leaf, and leads back to its table |
| PageTable.LeafEntryFields | tests/modes/modes.c:184-185 | a leaf entry is a valid leaf with its address and permissions |
| PageTable.IndexBits | tests/modes/modes.c:160-167 | the indices are bits 38 to 30, 29 to 21 and 20 to 12 of the address |
| PageTable.IndexIsPage | tests/modes/modes.c:160-167 | below 2^39 the three indices tell pages apart |
| PageTable.RoomEnough | tests/modes/modes.c:168-178 | the allocation pointer never outgrows the address field |
| PageTable.WalkIsLookup | tests/modes/modes.c:158-186 | a three-level walk finds exactly the leaf entries of the tree |
| PageTable.PageTables.constructor | tests/modes/modes.c:135-147 | a cleared page directory is an empty tree |
| PageTable.PageTables.Pmd | tests/modes/modes.c:168-173 | the second-level table is found or allocated |
| PageTable.PageTables.Pte | tests/modes/modes.c:174-179 | the leaf table is found or allocated |
| PageTable.PageTables.Map | tests/modes/modes.c:158-186 | the page gets its mapping, every other page keeps its own, and a translation is invalidated exactly when there was one |
| PageTable.PageTables.Unmap | tests/modes/modes.c:188-205 | the page loses its mapping, every other page keeps its own, and a translation is invalidated exactly when there is a leaf table |
| PageTable.PageTables.Perform | tests/modes/modes.c:135-205 | after any calls the walk finds the last mapping of each page, and tables are apart and below the allocation pointer |
| Uart.SampleBit | verilator/uart-verilator.c:79-82 | or-ing the sampled bit in extends the byte by one bit |
| Uart.ErrorZone | verilator/uart-verilator.c:38-46 | the error zone is exactly the middle of a bit, from 1/20 to 19/20 |
| Uart.EdgeIsFine | verilator/uart-verilator.c:38-46 | a transition at the end of a bit is no error |
| Uart.LoopStep | verilator/uart-verilator.c:48-132 | receiver and transmitter stay in step, and a byte is written exactly when it has left the line |
| Uart.Port.UartRx | verilator/uart-verilator.c:201-253 | the transmitter's next state and the byte taken |
| Uart.Port.UartTx | verilator/uart-verilator.c:48-132 | the receiver's next state and the bytes written |
| Uart.Port.Run | verilator/uart-verilator.c:48-253 | for any input the bytes written are the bytes taken, up to the one on the line, without error |
| Uart.Port.Drain | verilator/uart-verilator.c:201-253 | the byte on the line arrives with the last clock of its stop bit |
| Uart.Port.Offer | verilator/uart-verilator.c:201-223 | an idle port takes a byte at its next poll, after at most 10001 clocks |
| Uart.Port.Send | verilator/uart-verilator.c:48-253 | a byte offered comes out as it went in, ten bit times later |
| Numerals.NumeralReads | litedram/gen-src/sdram_init/libc/src/vsnprintf.c:93-100 | the digits of a numeral evaluate to its value |
| Numerals.NumeralLength | litedram/gen-src/sdram_init/libc/src/vsnprintf.c:59-74 | the digit count is the numeral's length |
| Numerals.PrintIntlen | litedram/gen-src/sdram_init/libc/src/vsnprintf.c:59-74 | the loop counts the digits |
| Numerals.PrintItoa | litedram/gen-src/sdram_init/libc/src/vsnprintf.c:76-105 | exactly the numeral's cells are written, or nothing when base or room does not suit |
| Numerals.PrintFill | litedram/gen-src/sdram_init/libc/src/vsnprintf.c:109-128 | exactly the padding is written |
| Numerals.PrintField | litedram/gen-src/sdram_init/libc/src/vsnprintf.c:164-188 | padding then numeral, with the exact condition for both to fit |
| Numerals.Strtoul | litedram/gen-src/sdram_init/libc/src/strtoul.c:15-102 | blanks, optional prefix and the longest digit run, modulo 2^64, for every base |
| Numerals.Letters | litedram/gen-src/sdram_init/libc/src/vsnprintf.c:88-100 | digits above nine are letters of the chosen case, and both cases are read |
| Numerals.FieldWidth | litedram/gen-src/sdram_init/libc/src/vsnprintf.c:109-128 | a width pads a shorter numeral to that width, or to the room there is |
| Numerals.ReadsBack | litedram/gen-src/sdram_init/libc/src/strtoul.c:33-99 | every printed field, after any blanks and zeros and before any other text, reads back as its value, to its last character; base 0 reads decimal |
| Numerals.ReadsPrefixed | litedram/gen-src/sdram_init/libc/src/strtoul.c:33-60 | with 0x before it a hexadecimal number is read in bases 16 and 0 |
| Numerals.ReadsNothing | litedram/gen-src/sdram_init/libc/src/strtoul.c:24-99 | text that starts with no digit is zero, up to the blanks |

## Left out

- dcbz, quadword atomics, non-cacheable accesses, virtual-mode requests and access errors of the data cache: they depend on ordering in the load/store unit, which is not part of this model.
- Visibility of other masters' writes to plain loads: hits may lag a snoop, so foreign writes appear only in the directory, counter and reservation results.
- Replacement policy: the victim way is any way, in the cache and in the TLB.
- Registers that reset does not touch: the cache starts with its write strobes for tag and data RAM down.
- Condition register, overflow and serialisation hazards of the scoreboard: one input that may hold an instruction back at any time; execution, writeback and register file are an abstract in-order pipeline that holds at most four instructions.
- DmiRead: the endless polling loop is any finite number of polls, of which twelve after fair moves are enough, and errors of the JTAG driver are left out.
- DmiWrite: as DmiRead.
- EachCommandActsOnce: does not speak of the data returned, since the unit's read data may change while it is acknowledged; the log ring, its read path and the trigger comparators are not modelled, and trigger matches are inputs.
- Resets of one clock domain alone, and the ECP5 variant of the transport.
- The bit permute instruction of the bit sorter: eight independent selections.
- PageTable: doublewords are modelled as the MMU reads them, so the byte reversal of the stores and loads does not appear; physical memory is unbounded.
- Uart: bit widths below two clocks.
- Signed, character, string and pointer formats of vsnprintf, and its own buffer bounds, which its comment calls incomplete.
- Log size decoding in the debug host, simulation packing of debug packets, boot, console and build code.
