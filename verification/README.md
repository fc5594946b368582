# NextEmu in Dafny

A model of the RISC-V full-system emulator NextEmu, and proofs of what its parts promise each
other: that its caches, its short encodings, its protocols and its codecs mean what the simple
description of them says, over all inputs and all runs.

Each component is described twice. Functions on immutable values give its meaning, and the theorems
are about them. Where the source updates fields and arrays in place, a class does the same, and
each of its methods is proved to have exactly the effect of the function.

| component | modules | what the main theorems say |
|---|---|---|
| Sv39 memory-management unit | `Sv39`, `Sv39Pages`, `Sv39Coherence`, `Sv39Runs`, `Sv39Tables`, `Sv39Mmu`, `HartTransparency`, `Departures` | the 32-entry translation cache cannot be observed by software that fences what it changes |
| hart | `Privilege`, `StatusWord`, `Decode`, `Alu`, `Exec`, `CoreInvariant`, `CsrReadBack`, `StepEndings`, `PreciseTraps`, `CoreRuns`, `InterruptChoice`, `TrapNesting`, `CompressedRefinement`, `Rv64Core` | every step ends precisely; what stays true over runs from reset; traps nest; compressed instructions mean their expansions |
| bus and atomics | `Bus`, `LrSc` | no increment of a shared counter is lost |
| serial line | `Uart`, `UartLink`, `UartRoundTrip` | the exact bit time from which every message gets through |
| interrupt controller | `Plic`, `PlicRuns` | a claimed source is nobody else's until it is completed |
| event queue and thread pool | `Pool` | every event is in exactly one place and runs at most once |
| small core with contexts | `MiniCpu` | a context that yields resumes where it was |
| debugger stub | `Gdb` | which packets survive, and that registers survive the trip |

Numbers are mathematical integers; registers and addresses are the subset below 2^64 with every
wrap-around written out, and words whose bits matter are bit vectors. The emulator's assertions are
part of the model: a failed one stops the hart, and theorems say which ones cannot fail.

## Where the code departs from what one might expect

The model follows the code. Each of these is stated as the condition of a theorem, or as a theorem:

- a 32-bit JALR keeps the lowest bit of its target and then traps, while C.JR and C.JALR clear it
  (`CompressedRefinement.RefinesExactly`);
- in supervisor mode with SIE clear, a delegated interrupt that is pending hides the machine-level
  ones (`InterruptChoice.TakesPrescribedExactly`);
- mxr never admits a load (`Sv39Runs.MxrNeverAdmits`), and a superpage whose physical address is
  not aligned to its size is accepted (`Departures.WalkStrictExactly`);
- a store ends a reservation only when it covers all of it (`LrSc.ReservationBrokenExactly`);
- MPP can be written as 2, a mode from which a delegated trap lowers privilege and to which sret
  cannot return (`CoreRuns.TrapLowers`, `Departures.ReservedModeReached`,
  `TrapNesting.NestedReturn`);
- the interrupt controller compares priority with threshold by >=, and refreshes a claim only in
  its tick (`Plic.ThresholdExactly`, `PlicRuns.SecondReadIsStale`);
- word-sized AMO minimum and maximum compare the whole of rs2 (`LrSc.WordMinMaxOperand`);
- a load-reserved that faults reports a store fault, and a failed store through translation reports
  a page fault where an untranslated one reports an access fault (`Departures.ReservedLoadFaults`,
  `Departures.StoreNowhereFaults`);
- a mode above 1 written to mtvec stops the emulator, while in stvec it is taken as direct
  (`Departures.VectorModes`);
- an access to an interrupt-controller register of a source or context that does not exist is
  reported as successful and does nothing, but for the context just after the last, where the code
  reads and writes beyond its arrays (`Plic.MissingIsIgnored`).

## Model

| member | source | states |
|---|---|---|
| `Sv39Runs.Transparency` | modules/platform/rvcore_simple/src/rv64_sv39.cpp:3-120 | for every run of accesses, context switches to any tables, fences and accesses of other bus masters in which no access uses an address for which a translation used before and not fenced since is out of date, the machine with the 32-entry cache gives the same replies, memory and reservation as the machine that walks the tables at every access |
| `Sv39Runs.TransparencyFromReset` | modules/platform/rvcore_simple/src/rv64_sv39.cpp:3-120 | the same from an empty cache |
| `Sv39Runs.RunKeepsInv` | modules/platform/rvcore_simple/src/rv64_sv39.cpp:163-321 | after every such run the live entries are translations used and not fenced since, and two that answer for one address differ |
| `Sv39Runs.NoDuplicateHits` | modules/platform/rvcore_simple/src/rv64_sv39.cpp:241-253 | in every state such a run reaches, at most one entry matches an address of which only one translation has been used and not fenced since, across 4K, 2M and 1G entries, eviction and satp switches |
| `Sv39Runs.UsableIsOne` | modules/platform/rvcore_simple/src/rv64_sv39.cpp:241-253 | that is so of every address that an access may use, so that the assertion in the scan holds there |
| `Sv39Tables.KeptTablesTransparent` | modules/platform/rvcore_simple/src/rv64_sv39.cpp:3-321 | with tables that are kept and global leaves that are shared, no fence is needed: every run from an empty cache, across accesses and switches of address space, is that of the machine that walks |
| `Sv39Tables.KeptTablesNoDuplicates` | modules/platform/rvcore_simple/src/rv64_sv39.cpp:241-253 | and in every state of such a run at most one entry matches any address of any of the address spaces: the assertion in the scan holds |
| `Sv39Tables.LookupKeepsUpToDate` | modules/platform/rvcore_simple/src/rv64_sv39.cpp:258-321 | a leaf just found agrees with the tables in its whole page, and if it is global in every address space |
| `Sv39Tables.UnchangedIsUsable` | modules/platform/rvcore_simple/src/rv64_sv39.cpp:212-321 | where the tables are as they were when no fence was owed, an address may be used, whatever has changed elsewhere |
| `Sv39Tables.FencingChangedPages` | modules/platform/rvcore_simple/src/rv64_sv39.cpp:122-142 | whatever becomes of memory, of the tables of address spaces, or of the spaces themselves, one fence for each leaf no longer found, by any address in it, with the address space of a private leaf or with none, leaves no fence owed |
| `Sv39Tables.OneFencePerLeaf` | modules/platform/rvcore_simple/src/rv64_sv39.cpp:122-142 | one fence by address and address space and no translation of any address in a private leaf is left, of whatever size the leaf; a global leaf takes a fence for all address spaces |
| `Sv39Tables.ForgottenIsUsable` | modules/platform/rvcore_simple/src/rv64_sv39.cpp:212-257 | then the address may be used with any memory and any tables |
| `Sv39Tables.OtherFencesDoNot` | modules/platform/rvcore_simple/src/rv64_sv39.cpp:124-128 | after any other fence there is a cache that holds the translation and answers otherwise than the tables that have come in its place |
| `Sv39Tables.FencesLeave` | modules/platform/rvcore_simple/src/rv64_sv39.cpp:122-142 | after any sequence of fences exactly the translations that none of them is for are left |
| `Sv39Tables.AddressSpaceFence` | modules/platform/rvcore_simple/src/rv64_sv39.cpp:122-142 | after a fence of one address space no fence is owed if it is given other tables that map the global leaves alike |
| `Sv39Tables.FullFence` | modules/platform/rvcore_simple/src/rv64_sv39.cpp:122-142 | a fence with both operands zero leaves no entry that answers for any address, and nothing to fence, whatever memory and tables are or become |
| `Sv39Tables.SwitchThenFence` | modules/platform/rvcore_simple/src/rv64_sv39.cpp:122-142 | a kernel that gives all processes one address-space number may, between the write of satp and the fence, run code that both tables map alike, whatever else they map |
| `Sv39Runs.MxrNeverAdmits` | modules/platform/rvcore_simple/src/rv64_sv39.cpp:21 | for every leaf the walk accepts, mxr makes no difference to a load, and an unreadable page always faults |
| `Departures.MisplacedLeaf` | modules/platform/rvcore_simple/src/rv64_sv39.cpp:279-282 | one such leaf, of 1 GB at the address 0x1000 |
| `Departures.WalkStrictExactly` | modules/platform/rvcore_simple/src/rv64_sv39.cpp:262-315 | the walk is the one that rejects misaligned superpages, as section 4.3.2 of the Privileged ISA asks, unless it ends at a leaf whose physical address is not a multiple of its size |
| `HartTransparency.RunsAgree` | modules/platform/rvcore_simple/src/rv64_sv39.cpp:3-321 | the same for the whole hart: over every run of steps, with traps, CSR writes, satp among them, fences of its own, and loads, stores, reservations and store-conditionals of other harts, registers, CSRs, memory, reservation and failed assertions are those of a hart without a cache |
| `HartTransparency.RunsAgreeFromReset` | modules/platform/rvcore_simple/src/rv64_sv39.cpp:3-321 | the same from reset with an empty cache |
| `HartTransparency.StepAgrees` | modules/platform/rvcore_simple/src/rv64_exec.cpp:4-934 | one step, cached and uncached, and the invariant of the cache after it |
| `HartTransparency.ActionAgrees` | modules/platform/rvcore_simple/src/rv64_exec.cpp:29-650 | one instruction, likewise |
| `Sv39Pages.WalkSamePage` | modules/platform/rvcore_simple/src/rv64_sv39.cpp:262-315 | the walks of two addresses in the page of a leaf end at that leaf, for each of the three page sizes |
| `Sv39Coherence.UsableExactly` | modules/platform/rvcore_simple/src/rv64_sv39.cpp:212-321 | every cache made of the translations used and not fenced since answers a lookup as a fresh walk does if and only if none of them is out of date for the address |
| `Sv39Coherence.LookupIsFresh` | modules/platform/rvcore_simple/src/rv64_sv39.cpp:212-321 | then a lookup, hit or miss, answers as a fresh walk does, and the duplicate-hit assertion holds |
| `Sv39Coherence.LookupKeepsInv` | modules/platform/rvcore_simple/src/rv64_sv39.cpp:169-210 | filling an entry and evicting another keeps the invariant, whatever the tables are |
| `Sv39Coherence.FlushRemoves` | modules/platform/rvcore_simple/src/rv64_sv39.cpp:122-142 | after a fence an entry answers for an address exactly if it did before and was not filled for the fenced address space and the page, of its own size, around the fenced address |
| `Sv39Coherence.FenceKeepsInv` | modules/platform/rvcore_simple/src/rv64_sv39.cpp:122-142 | a fence keeps the invariant with the translations it is for forgotten |
| `Sv39Mmu.Mmu.GetTlbEntry` | modules/platform/rvcore_simple/src/rv64_sv39.cpp:212-257 | the scan loop and the walk compute the lookup's specification, in place, including its two assertions |
| `Sv39Mmu.Mmu.WalkAndFill` | modules/platform/rvcore_simple/src/rv64_sv39.cpp:261-321 | the three-level walk finds the leaf that the recursive walk finds, and fills it |
| `Sv39Mmu.Mmu.WriteTlb` | modules/platform/rvcore_simple/src/rv64_sv39.cpp:163-210 | the entry goes to the round-robin slot and the others stay |
| `Sv39Mmu.Mmu.SfenceVma` | modules/platform/rvcore_simple/src/rv64_sv39.cpp:122-142 | the fence loop is the flush of the specification, entry by entry |
| `Sv39Mmu.Mmu.DoAccess` | modules/platform/rvcore_simple/src/rv64_sv39.cpp:3-120 | each of the six kinds of access has the effect and the fault of the specification |
| `UartLink.EncoderDrivesLine` | modules/rtl_adapter/uart_encoder/include/UartEncoder.h:37-125 | after every tick the line shows the bit of the frame sequence that belongs to that moment |
| `UartLink.FrameDecodes` | modules/device/uartlite_rtl/rtl/UartRx.v:57-161 | on any line at all, a noticed start bit leads to exactly one byte, made of the eight levels sampled, each one clock later than the one before |
| `UartRoundTrip.SystemQueues` | modules/device/uartlite_rtl/src/uart_rtl.cpp:109-119 | two device ticks to a clock queue each decoded byte exactly once |
| `UartRoundTrip.RoundTrip` | modules/device/uartlite_rtl/rtl/UartRx.v:47-161 | for every byte sequence, when half a bit time is at least ten clocks, the queue is at all times a prefix of the message and from a known tick on the whole message |
| `UartRoundTrip.ZeroIsLost` | modules/device/uartlite_rtl/rtl/UartRx.v:63-67 | with any shorter bit time a zero byte is never received as such |
| `UartRoundTrip.FaithfulIff` | modules/device/uartlite_rtl/rtl/UartRx.v:57-105 | the link carries every message if and only if ceil(n/2) >= payload bits + 2 |
| `UartRoundTrip.Transmit` | modules/device/uartlite_rtl/src/uart_rtl.cpp:92-121 | the two objects, ticked together, deliver the message |
| `Uart.UartEncoder.Tick` | modules/rtl_adapter/uart_encoder/include/UartEncoder.h:111-125 | the tick of the object is the encoder step of the specification |
| `Uart.UartRtl.PosEdge` | modules/device/uartlite_rtl/rtl/UartRx.v:46-161 | the clocked blocks together are one edge of the specification, all reading the registers as they were |
| `Uart.UartRtl.Tick` | modules/device/uartlite_rtl/src/uart_rtl.cpp:109-119 | the device toggles its clock and queues a byte while done is seen on the high phase |
| `CompressedRefinement.CompressedRefines` | modules/platform/rvcore_simple/src/rv64_exec.cpp:651-911 | every compressed word that is not reserved has the effect on registers, memory, traps and program counter of the 32-bit instruction it abbreviates, with the link two bytes on, when a register-jump target is even |
| `CompressedRefinement.RefinesExactly` | modules/platform/rvcore_simple/src/rv64_exec.cpp:56-71 | for every word and state the refinement holds if and only if a jump through a register has an even target: with an odd one the 32-bit JALR traps and C.JR and C.JALR do not |
| `CompressedRefinement.CompressedStep` | modules/platform/rvcore_simple/src/rv64_exec.cpp:651-934 | a whole step on a fetched compressed word ends as its expansion with the next instruction at pc + 2 |
| `CompressedRefinement.OddJumpReg` | modules/platform/rvcore_simple/src/rv64_exec.cpp:842-885 | an odd target traps as a 32-bit jump and does not as a compressed one |
| `StepEndings.ActionEffect` | modules/platform/rvcore_simple/src/rv64_exec.cpp:29-650 | every instruction either traps, is invalid, returns, stops on an assertion, or completes; one that does not complete changes nothing of the core before the trap is recorded |
| `StepEndings.StepEnds` | modules/platform/rvcore_simple/src/rv64_exec.cpp:4-934 | from every state between instructions a step ends as the chosen interrupt, the failed fetch or the word fetched calls for: with one precise trap, one return from a handler by mret or sret, or the retirement of the decoded instruction with the registers and CSRs it leaves and the program counter at its jump target or past its 2 or 4 bytes; the assertions against a second trap and against a trap without a cause never fail |
| `PreciseTraps.TrapKeepsMemory` | modules/platform/rvcore_simple/src/rv64_exec.cpp:913-934 | a step that takes a trap or returns from one leaves main memory and the general registers as they were |
| `CoreRuns.FromReset` | modules/platform/rvcore_simple/src/rv64_common.cpp:74-107 | over all runs from reset x0 is zero, no trap is left pending, no second trap is raised, the reserved, endianness, FS, VS, XS and SD bits stay 0 and UXL and SXL stay 2 |
| `CoreRuns.RunKeeps` | modules/platform/rvcore_simple/src/rv64_exec.cpp:4-934 | the same from every state in which the invariant holds |
| `CoreRuns.CountsRetirement` | modules/platform/rvcore_simple/src/rv64_exec.cpp:923-924 | minstret grows exactly when the step executes a valid instruction that leaves neither a trap nor a return pending |
| `CoreRuns.RunCounts` | modules/platform/rvcore_simple/src/rv64_exec.cpp:923-924 | after every run minstret is its first value plus the number of such steps, modulo 2^64 |
| `CoreRuns.UserStepFrame` | modules/platform/rvcore_simple/src/rv64_privilege.cpp:368-476 | a user-mode step that does not trap retires, and leaves every CSR but minstret and both privilege fields as they were |
| `CoreRuns.UserRunFrame` | modules/platform/rvcore_simple/src/rv64_privilege.cpp:99-348 | over runs: a user program that takes no trap leaves all CSRs but the counters and the lines the platform drives |
| `CoreRuns.TrapLowers` | modules/platform/rvcore_simple/src/rv64_privilege.cpp:381-430 | a trap lowers the privilege mode if and only if it is delegated from the reserved mode 2 |
| `Departures.ReservedModeReached` | modules/platform/rvcore_simple/src/rv64_privilege.cpp:242 | a write of mstatus can save mode 2, and mret then enters it |
| `CoreRuns.DropsByReturn` | modules/platform/rvcore_simple/src/rv64_privilege.cpp:374-469 | outside mode 2 only mret and sret lower the privilege mode |
| `CoreRuns.RunDropsByReturn` | modules/platform/rvcore_simple/src/rv64_privilege.cpp:242 | over runs in which MPP never holds 2, every step that lowers the mode executes mret or sret |
| `CoreInvariant.WriteKeeps` | modules/platform/rvcore_simple/src/rv64_privilege.cpp:230-348 | no CSR write breaks the invariant on status, interrupt, delegation, vector and satp registers |
| `CoreInvariant.WriteFrame` | modules/platform/rvcore_simple/src/rv64_privilege.cpp:230-348 | no CSR write touches minstret, mhartid or misa |
| `CoreInvariant.RaiseKeeps` | modules/platform/rvcore_simple/src/rv64_privilege.cpp:374-431 | nor does a trap break it |
| `StatusWord.SStatusIsMasked` | modules/platform/rvcore_simple/src/rv64_privilege.cpp:158-176 | sstatus put together field by field is mstatus masked to the supervisor fields |
| `StatusWord.WriteSStatusIsMasked` | modules/platform/rvcore_simple/src/rv64_privilege.cpp:291-301 | a write of sstatus replaces SIE, SPIE, SPP, SUM and MXR and nothing else |
| `StatusWord.WriteMStatusIsMasked` | modules/platform/rvcore_simple/src/rv64_privilege.cpp:232-250 | a write of mstatus replaces the twelve implemented fields and nothing else |
| `StatusWord.SStatusWindow` | modules/platform/rvcore_simple/src/rv64_privilege.cpp:158-301 | what is written through sstatus is read back through it, the rest of mstatus is untouched, and writing back what was read changes nothing |
| `CsrReadBack.ReadAfterWrite` | modules/platform/rvcore_simple/src/rv64_privilege.cpp:99-348 | in every reachable state, reading mstatus, sstatus, an interrupt or a delegation register after writing it gives what was read before with the writable bits replaced by those written |
| `CsrReadBack.WriteBack` | modules/platform/rvcore_simple/src/rv64_privilege.cpp:99-348 | writing back what was read from one of them changes no CSR |
| `CsrReadBack.ZeroOperand` | modules/platform/rvcore_simple/src/rv64_exec.cpp:576-640 | a CSRRS or CSRRC of one of them with an operand of zero leaves every CSR as it was, even if it writes |
| `Departures.VectorModes` | modules/platform/rvcore_simple/src/rv64_privilege.cpp:263-315 | the emulator stops exactly for a write to mtvec of a mode above 1; the same written to stvec is taken as direct |
| `Departures.ReservedLoadFaults` | modules/platform/rvcore_simple/src/rv64_amo.cpp:51-88 | a load-reserved that faults records cause 6, 7 or 15, two more than a load with that fault |
| `Departures.StoreNowhereFaults` | modules/platform/rvcore_simple/src/rv64_sv39.cpp:86-120 | a store, or a store-conditional that holds its reservation, to where there is no memory reports 15 if and only if it was translated, and 7 if and only if not |
| `StatusWord.MretPrivilege` | modules/platform/rvcore_simple/src/rv64_privilege.cpp:443-454 | mret clears MPP, and MPRV unless MPP was machine mode |
| `StatusWord.SretPrivilege` | modules/platform/rvcore_simple/src/rv64_privilege.cpp:456-469 | sret clears SPP and MPRV |
| `TrapNesting.ExcursionResumes` | modules/platform/rvcore_simple/src/rv64_privilege.cpp:402-454 | over any run of steps that traps to machine mode, whose handler ends with the saved fields as it found them, and that executes mret: program counter, mode and MIE are restored and the trap state of supervisor mode is intact |
| `TrapNesting.HandlerKeeps` | modules/platform/rvcore_simple/src/rv64_privilege.cpp:386-454 | over any run of steps a supervisor handler keeps what it needs to return, however many machine traps interrupt it |
| `TrapNesting.NestedReturn` | modules/platform/rvcore_simple/src/rv64_privilege.cpp:386-469 | over any run of steps with a trap to supervisor mode, a handler with any number of nested machine traps, and sret: back at the trapped instruction with the interrupt enable it had, and in the mode it had if and only if that is user or supervisor mode |
| `InterruptChoice.IntCodeIsFirst` | modules/platform/rvcore_simple/include/misc/rv64_structs.h:41-58 | the chain of tests finds the first set bit in the order MEI, MSI, MTI, SEI, SSI, STI, and none exactly when none of the six is set |
| `InterruptChoice.ChosenIsFirst` | modules/platform/rvcore_simple/src/rv64_privilege.cpp:16-92 | whatever the enables, delegations and mode, the nest of tests chooses the first in the order of those considered, and one routed to a level only as that level's enable allows |
| `InterruptChoice.TakenInterrupt` | modules/platform/rvcore_simple/src/rv64_privilege.cpp:3-97 | in every reachable state an interrupt taken is pending, enabled and first among those considered; in M-mode only undelegated and with MIE set; one routed to S-mode never in M-mode and in S-mode only with SIE set |
| `InterruptChoice.TakesPrescribedExactly` | modules/platform/rvcore_simple/src/rv64_privilege.cpp:36-92 | the interrupt taken is the one the Privileged ISA prescribes if and only if interrupts of both levels are not pending together below machine mode, or the first of them is undelegated and SIE does not hide it |
| `InterruptChoice.TimerHidden` | modules/platform/rvcore_simple/src/rv64_privilege.cpp:42-67 | one case where it is not: SIE clear and a delegated interrupt pending hide the machine timer from S-mode |
| `Rv64Core.RV64Core.constructor` | modules/platform/rvcore_simple/src/rv64_common.cpp:74-107 | the object starts in the reset state |
| `Rv64Core.RV64Core.DoRaiseTrap` | modules/platform/rvcore_simple/src/rv64_privilege.cpp:374-431 | the object's trap entry is that of the specification, with its assertions |
| `Rv64Core.RV64Core.DoPreExec` | modules/platform/rvcore_simple/src/rv64_privilege.cpp:3-97 | sampling, mode entry and interrupt choice on the object |
| `Rv64Core.RV64Core.DoMret` | modules/platform/rvcore_simple/src/rv64_privilege.cpp:443-454 | mret, field by field |
| `Rv64Core.RV64Core.DoSret` | modules/platform/rvcore_simple/src/rv64_privilege.cpp:456-469 | sret, field by field |
| `Rv64Core.RV64Core.DoCsrWrite` | modules/platform/rvcore_simple/src/rv64_privilege.cpp:230-348 | the CSR write switch, including the writes that are illegal and the one that stops the emulator |
| `Rv64Core.RV64Core.CsrInstruction` | modules/platform/rvcore_simple/src/rv64_exec.cpp:576-640 | a CSR instruction checks, reads, writes and only then sets its register |
| `Rv64Core.RV64Core.LoadRegister` | modules/platform/rvcore_simple/src/rv64_common.cpp:8-28 | a load: alignment trap, fault trap, or register write |
| `Rv64Core.RV64Core.StoreMemory` | modules/platform/rvcore_simple/src/rv64_common.cpp:30-47 | a store, likewise |
| `Rv64Core.RV64Core.AtomicMemory` | modules/platform/rvcore_simple/src/rv64_exec.cpp:440-512 | LR, SC and AMO through the memory-management unit |
| `Rv64Core.RV64Core.DoCommit` | modules/platform/rvcore_simple/src/rv64_exec.cpp:913-933 | the end of the step |
| `Rv64Core.RV64Core.DoStep` | modules/platform/rvcore_simple/src/rv64_exec.cpp:4-934 | the whole step of the object, registers, cache, memory and reservation together, is the step about which the theorems above speak |
| `Alu.SignedProduct` | modules/platform/rvcore_simple/src/rv64_alu.cpp:13-87 | MULH with MUL is the exact 128-bit signed product |
| `Alu.UnsignedProduct` | modules/platform/rvcore_simple/src/rv64_alu.cpp:13-87 | MULHU with MUL is the exact unsigned product |
| `Alu.MixedProduct` | modules/platform/rvcore_simple/src/rv64_alu.cpp:13-87 | MULHSU with MUL is the exact mixed product |
| `Alu.SignedDivision` | modules/platform/rvcore_simple/src/rv64_alu.cpp:13-87 | DIV and REM satisfy a = q*b + r with the bound and the sign of the remainder, and the mandated results for a zero divisor and for overflow |
| `Alu.UnsignedDivision` | modules/platform/rvcore_simple/src/rv64_alu.cpp:13-87 | DIVU and REMU likewise |
| `Alu.WordForms` | modules/platform/rvcore_simple/src/rv64_alu.cpp:13-85 | the 32-bit sum, difference, shifts and product are the sign-extended operations on the low words |
| `Alu.WordDivisions` | modules/platform/rvcore_simple/src/rv64_alu.cpp:13-85 | and so are the 32-bit divisions |
| `LrSc.SuccessMeansUnchanged` | modules/platform/rvcore_simple/src/rv64_amo.cpp:51-131 | over every interleaving of accesses whose stores are disjoint from the reserved range or contain it, a store-conditional that succeeds finds the bytes of its load-reserved |
| `LrSc.HeldIsUnchanged` | include/sdk/base/AddrBus.hpp:90-101 | as long as a hart holds the reservation of a range the bytes of the range are unchanged |
| `LrSc.ReservationBrokenExactly` | include/sdk/base/AddrBus.hpp:91-95 | a store changes bytes under a reservation that stays valid if and only if it overlaps the range without containing it and writes a different value to a shared byte |
| `LrSc.PartialStoreUnnoticed` | include/sdk/base/AddrBus.hpp:92 | a store to half of a reserved double word goes unnoticed by the store-conditional |
| `LrSc.RunCounts` | modules/platform/rvcore_simple/src/rv64_amo.cpp:51-180 | the counting invariant holds over every interleaving of LR/SC increments, atomic additions and stores elsewhere |
| `LrSc.NothingLost` | include/sdk/interface/dev_if.h:52-76 | a counter that all harts increment by LR/SC or AMOADD ends at its first value plus all successful additions, modulo 2^64 |
| `LrSc.WordMinMaxExactly` | modules/platform/rvcore_simple/src/rv64_amo.cpp:133-180 | a word-sized AMO minimum or maximum stores what the operation on words stores if and only if the comparison of the whole rs2 comes out as that of its low word, or both words are equal |
| `LrSc.WordMinMaxOperand` | modules/platform/rvcore_simple/src/rv64_amo.cpp:133-180 | rs2 is right for every word in memory if and only if it is a sign-extended word, or lies beyond all words with the last of them as its low word; for any other rs2 a word is named for which the result is wrong |
| `LrSc.WordMinWrong` | modules/platform/rvcore_simple/src/rv64_amo.cpp:133-180 | one such operand and word |
| `Bus.AddrBus.DoReserve` | include/sdk/interface/dev_if.h:59-64 | the reservation replaces any other |
| `Bus.AddrBus.DoCheck` | include/sdk/interface/dev_if.h:66-71 | a check consumes the reservation, and succeeds only for its hart, address and length |
| `Bus.AddrBus.DoStore` | include/sdk/base/AddrBus.hpp:90-101 | a store gives up a reservation it contains, then writes main memory in place |
| `Plic.BestIsFirstOfHighest` | modules/platform/rvcore_simple/include/PLIC.h:31-46 | the source offered is the lowest-numbered of highest non-zero priority among those pending, enabled, unclaimed and at or above the threshold, and 0 exactly when there is none |
| `Plic.ThresholdExactly` | modules/platform/rvcore_simple/include/PLIC.h:36-37 | the offer is the one the architecture makes, which asks for a priority above the threshold, if and only if it is none or itself above the threshold |
| `Plic.MissingIsIgnored` | modules/platform/rvcore_simple/include/PLIC.h:48-118 | an access to a register of a source or context that does not exist is reported as successful and does nothing, unless it is the context after the last, where the code leaves its arrays |
| `Plic.DecodesAddress` | modules/platform/rvcore_simple/include/PLIC.h:48-118 | an aligned address accesses a register if and only if it is the address of that register in some image of the register space |
| `Plic.Controller.GetInt` | modules/platform/rvcore_simple/include/PLIC.h:31-46 | the scan loop computes that offer and writes the context's claim register only |
| `Plic.Controller.DoTick` | modules/platform/rvcore_simple/include/PLIC.h:120-125 | a tick refreshes every context's claim and interrupt line, and nothing else |
| `Plic.Controller.SetInt` | modules/platform/rvcore_simple/include/PLIC.h:27-29 | a source that fires becomes pending, and a line that falls changes nothing |
| `Plic.Controller.Load` | modules/platform/rvcore_simple/include/PLIC.h:48-84 | a read at an address: from a register its value, and of a claim also the mark of its source; nothing but success where there is no source or context; out of range in the gaps |
| `Plic.Controller.Store` | modules/platform/rvcore_simple/include/PLIC.h:86-118 | a write at an address, likewise; a completion clears claimed and pending of the source it names |
| `PlicRuns.TickOffers` | modules/platform/rvcore_simple/include/PLIC.h:31-46 | after a tick each context's claim register holds its best candidate, whatever it held before |
| `PlicRuns.GrantsAreExclusive` | modules/platform/rvcore_simple/include/PLIC.h:77-114 | over every run of main-loop rounds no source is handed out twice, to any contexts, without a completion of it in between |
| `PlicRuns.SecondReadIsStale` | modules/platform/rvcore_simple/include/PLIC.h:77-80 | without a tick in between, two reads hand out the same source twice |
| `Pool.EventsConserved` | include/sdk/base/ThreadPool.h:26-86 | over every interleaving of emitters, event loop and workers each emitted event is in exactly one of queue, event loop, one worker's slot, or done; the queue is in emission order; no event begins twice; the assertion on the start flag never fails |
| `Pool.SetTaskKeeps` | include/sdk/base/ThreadPool.h:46-48 | a task is put only into a slot whose task has finished |
| `Pool.SetStartKeeps` | include/sdk/base/ThreadPool.h:46-52 | the start flag is clear whenever it is about to be set |
| `Pool.WakeKeeps` | include/sdk/base/ThreadPool.h:26-43 | a task that begins has not begun before |
| `Pool.FinishKeeps` | include/sdk/base/ThreadPool.h:26-43 | a task that ends was not done before |
| `Pool.PopKeeps` | modules/device/minicpu_controller/src/common.cpp:183-191 | an event leaves the queue for the event loop only |
| `Gdb.FrameRoundTrip` | src/gdb_stub/GDBStub_utils.cpp:14-96 | a payload without delimiters, framed and sent after any prefix without an end mark, is received with its checksum accepted if it fits in the buffer, and is reported too long otherwise |
| `Gdb.SurvivesExactly` | src/gdb_stub/GDBStub_utils.cpp:14-52 | a payload survives framing if and only if it holds neither delimiter and fits |
| `Gdb.ParseDump` | src/gdb_stub/gdb_rsp.cpp:70-80 | parsing a hexadecimal text undoes dumping bytes |
| `Gdb.DumpParse` | src/gdb_stub/gdb_rsp.cpp:70-80 | dumping undoes parsing, but for the case of the letters |
| `Gdb.OneRun` | src/gdb_stub/gdb_rsp.cpp:50-61 | the parameter of a command letter followed by digits is those digits, as one token |
| `Gdb.ReadThenWriteRestores` | src/gdb_stub/GDBStub_cmds.cpp:7-64 | from end to end: the reply to a read of all registers, framed and received as a write of all registers, restores every register |
| `Gdb.Stub.CalCheckSum` | src/gdb_stub/gdb_rsp.cpp:27-31 | the accumulator loop computes the checksum of signed chars |
| `Gdb.Stub.RecvAndCheck` | src/gdb_stub/GDBStub_utils.cpp:14-52 | unframing through the buffer is the specified reception, and what is accepted is kept |
| `Gdb.Stub.Pack` | src/gdb_stub/GDBStub_utils.cpp:85-96 | the bytes sent are the frame |
| `Gdb.Stub.ParseByteStream` | src/gdb_stub/gdb_rsp.cpp:70-80 | the buffer is filled with the parsed bytes |
| `MiniCpu.StepIsolates` | modules/platform/rvcore_minicpu/src/rv64_exec.cpp:9-1039 | a step changes the registers and the counter of the current context only |
| `MiniCpu.OnlyYieldsSwitch` | modules/platform/rvcore_minicpu/src/rv64_exec.cpp:1029-1033 | the context changes only by a store to the context register in that very step, and to the context stored |
| `MiniCpu.YieldSaves` | modules/platform/rvcore_minicpu/src/rv64_common.cpp:45-56 | the store leaves the yielding context with its registers and with its counter after the store |
| `MiniCpu.YieldThenResume` | modules/platform/rvcore_minicpu/src/rv64_exec.cpp:1009-1039 | a context that yields resumes at the instruction after the store with the registers it had, whatever the others did until its next turn |
| `MiniCpu.MiniCore.MemWrite` | modules/platform/rvcore_minicpu/src/rv64_common.cpp:45-85 | a store to the context register or the character register stays inside the core, any other goes to memory |
| `MiniCpu.MiniCore.DoStep` | modules/platform/rvcore_minicpu/src/rv64_exec.cpp:9-1039 | the step of the object, on its array of contexts, is the step of the specification |
| `Words.WordOfBits` | modules/platform/rvcore_simple/src/rv64_privilege.cpp:230-348 | a register value read as bits and back is unchanged |
| `Words.BitsOfWord` | modules/platform/rvcore_simple/src/rv64_privilege.cpp:99-229 | and so are bits stored as a register value |

## Left out

- Bus.AddrBus.DoStore: has no devices, so that the routing of addresses to devices, the core-local timer and the memories behind adapters are not modelled and an access outside main memory finds no device; a store that begins in memory and runs past its end fails, where the emulator would touch memory it does not own.
- Page tables outside main memory stop the model.
- Decoding and execution in one switch: the model decodes a word into an action on the registers and then performs the action; what the order of the two inside one case does not change is not modelled.
- Rv64Core: the registers of one hart and its shared bus; harts running in threads at the same time are modelled only as interleavings of whole bus accesses, in `LrSc`.
- Sv39Runs.Transparency: the translations that count as used are those a machine without a cache would look up; a global translation that an entry filled for another address space has served counts as used in this space as well, so that a fence of the other space alone does not forget it.
- CoreRuns.FromReset: a fetch page fault at the trap vector's own address, an address the lookup's assertions reject, and a reserved mode written to mtvec still stop the emulator; the theorem excludes only the two assertions about traps.
- Compressed instructions at the very end of a page: four bytes are fetched as in the code, so a fault on the next page is reported; the refinement speaks of words that were fetched.
- Uart.UartEncoder.Tick: has no start delay, which in the code leaves the mutex locked at the first tick, and no new data set in the middle of a byte.
- Uart.UartRtl.Tick: leaves out the transmit queue, which it empties to the console, and the interrupt line; the device's register interface is not modelled.
- Plic.Controller.Load: excludes the addresses at which the code indexes beyond its arrays: words of pending or enable bits after the first, and the context after the last; there are at most 31 sources.
- Plic.Controller.Store: excludes the same, and completions of sources above 31.
- Liveness of the thread pool, memory-ordering fences, shutdown, and the pending-bit registers of the memory controller.
- The debugger's sockets, acknowledgements and retries, breakpoints and memory commands; the text of a received checksum that is not two hexadecimal digits is a parameter.
- The regular expressions that classify a packet: only the search for runs of hexadecimal digits is modelled.
- Small core: its copies of the memory-management unit, ALU and CSR code are taken to be those of the main core; a context number of 4 or more stops the model.
- AXI adapters, the Spike platform, wave files, logging and the user interface.
