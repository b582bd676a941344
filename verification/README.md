# Proofs about the pipelined RV32I core and its SoC

This project models the core of this repository and proves that it is correct: that the pipeline
commits what a machine executing one instruction at a time would commit, and that it gets somewhere.
Three smaller pieces around the core are modelled too: the byte-lane path to memory, the address map
with the ELF loader's segment copy, and the UART receive path from device tick to task.

`dafny verify dfyconfig.toml` checks everything.

## How the project is laid out

* `Words`, `Uarch`, `Decoder`, `Datapath`, `Core`: the hardware. A clock cycle is a function
  `Core.Step` from registers and inputs to registers; combinational modules are functions.
  `Machine` (with `Fifo`) is the same core as clocked objects that update their registers in place,
  proved against `Core`; `Testbench` is the loop that clocks them.
* `Isa`: the sequential machine. RV32I after sections 2.2 to 2.6 and Zicsr after section 9.1 of the
  Unprivileged ISA 20191213, machine-mode traps after sections 3.1.6, 3.1.9, 3.1.14 and 3.3.2 of the
  Privileged ISA 20211203, with the repository's CSR masks and its halts in place of most exceptions. It
  knows of no pipeline. A step sees a `Sample`: what the instruction saw of the interrupt wires.
* `DecodeCorrect`, `ExecCorrect`: decoder and stages against `Isa`, one instruction at a time.
* `Chains`, `FrontendInv`, `CoreInv`: the invariant of the pipeline. It is stated on an idealised core
  whose epochs and sequence identifiers never repeat; `Wrap` and `HardwareRuns` prove that the
  hardware, with two and eight bits, behaves identically.
* `Refine`, `Handler`, `Runs`, `QuietRuns`, `Traps`, `Reachable`, `Ledger`: the simulation relation
  and what it gives in a state or a cycle. `Progress`, `Liveness`, `Bench`: bounded progress, and the
  testbench as an environment that meets every hypothesis.
* `Theorems`: the main results, each about every trace of the hardware.
* `FlagTheorems`: exactly when the refinement holds, for a run and for a configuration. Its failing run is
  followed cycle by cycle in `Depth`, and `Imprecise` follows another run, with `Timing` (the timing of
  the core apart from its values), `Scripts` (programs on it) and `Stale` (what a stale flag does).
* `Numbers`, `Arithmetic`: what the operations on words that the core and the sequential machine share
  compute, in numbers, two's complement and bits. `Decisions`: when the hardware issues, interrupts,
  fetches and with what it exits, in terms of its tokens and wires.
* `Dram`, `Lanes`, `MemMap`, `Loader`; `Devices`, `Handshake`: the smaller pieces.

## What the theorems assume

* Fetched code does not change while the program runs, and a memory response answers the present
  request (`Refine.Honest`). Latencies are arbitrary. `Bench` proves that the testbench's memories are
  like that.
* Commit streams are compared up to and including the first halt, because a halt does not flush the
  pipeline. The CSR snapshots of the commit packet run ahead and are not compared.
* `Theorems.FlagServed`: whenever MEM consults the double-trap flag, no commit is about to clear it. For a
  given run this is exactly what is needed (`FlagTheorems.RefinedExactly`). It holds in every run with at
  most five queue entries (`Theorems.ShortQueuesServe`; the default is four), and with any queue for
  programs without the handlers of the first finding below (`Theorems.PlainHandlersServe`).

## Findings

* The double-trap flag is brought up to date when an instruction commits (src/backend.sv:242-244) but is
  read one stage earlier (src/mem_stage.sv:97-101). With a queue of six or more entries it can be out of
  date then, when the first word of a trap handler moves `mtvec` to the second word and that word traps:
  the core stops with a double trap where the sequential machine goes on. So a configuration refines the
  sequential machine in all runs if and only if its queue has at most five entries
  (`FlagTheorems.DepthDecides`). `Depth` has the program and the 41 cycles from reset that show it for
  every deeper queue, every reset pc and every forwarding setting.
* An interrupt on a CSR instruction or MRET leaves its CSR effect in place, and an interrupted access
  may already be on the bus. `Traps.PreciseExactly` says exactly when a trap is precise;
  `Imprecise.ImpreciseTrap` is a run of the core from reset, two instructions long, with one that is not.
* A taken transfer to a misaligned address is reported as such even if the word could not be fetched
  or is illegal; branches with an unused funct3 and JALR with a non-zero funct3 still transfer
  (src/exe_stage.sv:60-73). An MRET encoding with non-zero register fields is reported as illegal but
  still redirects and changes mstatus (`ExecCorrect.StrayMret`). OP words with funct7 0x20 and a funct3
  other than 0 and 5, which the standard reserves, execute as the plain operation
  (`DecodeCorrect.DecoderAccepts`).
* Sums of addresses wrap. A unit of the address map that reaches the top of the address space is never
  found and does not even conflict with itself (`MemMap.OverlapExactly`, `MemMap.MatchesExactly`); an access
  that reaches the top is handed to the first unit that it wraps around (`MemMap.FindExactly`), in the
  SoC the Boot ROM, whose device refuses it.
* The ELF loader's one-byte writes carry the strobe of their lane, but the memory takes strobe bit 0
  for a one-byte access. Of the bytes outside whole words only those at multiples of four arrive, and
  the loader reports success (`Loader.LoadSegment`, `Loader.AlignedSegments`,
  `Loader.UnalignedStartIsLost`).
* A byte that is latched before the boot code clears the pending bit is never received, nor is any
  byte after it; if none is, no wakeup is ever lost (`Handshake.BootDecides`).

## Model

| member | source | states |
|---|---|---|
| Theorems.PipelineRefinesIsa | src/backend.sv:189-246 | Every run of the hardware, with any program, interrupt wires, memory latencies, forwarding setting and queue depth, commits up to the first halt exactly what the sequential machine reports, and shows a halt exactly when that machine has halted, provided that the double-trap flag is up to date when MEM consults it |
| FlagTheorems.RefinedExactly | src/mem_stage.sv:97-101 | In any honest run of any configuration, everything committed all along is what the sequential machine reports if and only if the double-trap flag is up to date whenever it is consulted |
| FlagTheorems.DepthDecides | src/backend.sv:242-244 | A configuration commits what the sequential machine reports in all its honest runs if and only if its queue has at most five entries |
| FlagTheorems.DeepQueueFails | src/mem_stage.sv:97-101 | For every queue of six or more entries, every reset pc and forwarding setting: a program and an honest run from reset with the interrupt wires low, whose commits are not what the sequential machine reports nor what the plain interpreter prints |
| Theorems.ShortQueuesServe | src/frontend.sv:73-90 | With at most five queue entries the flag is up to date when consulted, in every run |
| Theorems.PlainHandlersServe | src/backend.sv:242-244 | With any queue it is so in the runs of a program in which no second word of a handler traps to itself |
| Theorems.BusIsSequential | src/mem_stage.sv:105-119 | Every data request of the pipeline is one the sequential machine makes, in its order and once; the bus is at most the two in-flight steps ahead of the commits |
| Theorems.QuietRefinement | src/wb_stage.sv:22-44 | With the wires low the commits are what the plain interpreter prints, and the memory traffic is its traffic, at most two steps ahead |
| Theorems.TimingIsInvisible | docs/scoreboard-forwarding.md:46-47 | Two runs of a program with any forwarding settings, queue depths and latencies commit the same: one stream is a prefix of the other |
| Theorems.PreciseTraps | src/mem_stage.sv:80-103 | Each committed trap keeps the registers, saves the pc and is followed by the vector; the state behind it is that of a precise trap if and only if the instruction had sent no request and changed no CSR state that survives the entry |
| Theorems.TrapCommits | src/backend.sv:60-63 | While a trap commits, nothing live is behind it, and registers, CSRs and bus traffic are the sequential machine's after the trap |
| Theorems.OperandsAreArchitectural | src/scoreboard.sv:53-86 | The token in EXE is the instruction the sequential machine comes to after all older ones and carries its register values, under every forwarding setting |
| Theorems.ResultBusesAreFinal | src/scoreboard.sv:76-85 | A live row marked ready in MEM or WB stands for a final value: the stage's result bus holds what the sequential machine leaves in the row's register; every live WB row that writes and neither traps nor halts is ready |
| Theorems.Throughput | src/frontend.sv:85-90 | If no memory request waits n cycles, the hardware commits at least once in so many cycles until it halts, whatever the program, wires and memory contents |
| Theorems.CommitsSoon | src/frontend.sv:73-90 | From every state of a run the next commit comes within a bound in n and the queue depth |
| Theorems.RunsToCompletion | src/backend.sv:227-246 | A program that halts after h steps of the interpreter runs to its end in a bounded number of cycles and has then committed exactly those h steps |
| Theorems.HardwareIsIdeal | include/uarch.svh:221-254 | Whatever its inputs, the hardware with wrapping identities goes through the states of the core with unbounded ones |
| Theorems.OneStream | src/if_stage.sv:40-80 | In every state of the hardware live tokens, queue, fetched and requested instruction and the next request are one chain stepping by four and by one; nothing lags by more than two epochs |
| Theorems.FlagIsSettled | src/backend.sv:242-244 | In every state of the hardware with at most five queue entries no commit is about to change the double-trap flag while MEM holds a live instruction |
| Theorems.ExactlyOnce | src/backend.sv:189-208 | In every run of the hardware no instruction is issued twice; each issued one has committed once, been killed once or is in flight once, never two of these; commits are in order of issue |
| Theorems.YoungerNeverAct | src/backend.sv:189-208 | Once a trap or a transfer has redirected the hardware, nothing younger that had been requested by then is live in EXE, MEM or WB in any later cycle, so none of it is issued, writes, sends a request or commits |
| Theorems.CommitsFollowOn | src/exe_stage.sv:70-73 | Each commit's pc is the state of the sequential machine that the commits before it lead to |
| Theorems.OneHalt | tb/tb_top.sv:108-110 | The observed log ends at its first halt |
| Theorems.KillsAreExact | include/uarch.svh:221-254 | A kill compared on wrapped identifiers strikes EXE's token exactly when MEM traps, never MEM's, and no instruction being issued |
| Decisions.IssueDecision | src/scoreboard.sv:53-86 | In every state of the hardware a valid head is held back, unless MEM stalls, if and only if the youngest value of a register it reads is not to be had; with both forwarding paths exactly behind EXE's instruction or a load in MEM, without them exactly behind an instruction in EXE, MEM or WB |
| Decisions.TrapByWires | src/mem_stage.sv:65-79 | Which interrupt MEM takes for each setting of the three wires and their enables, and when it wants a trap at all |
| Decisions.TrapsComeFromWires | src/CSRFile.sv:37-39 | In every run each committed trap was taken by MEM on that instruction in some cycle; an interrupt only if its wire was high and enabled in that cycle |
| Decisions.HaltsExit | include/uarch.svh:268-284 | A committed voluntary halt exits with the sequential machine's a0 modulo 256, every other halt with the fixed code of its kind |
| Decisions.FetchedWordHasRoom | src/if_stage.sv:40-66 | A fetch is requested in every cycle without a redirect in which none is out, none is held and the queue has room; then its word never waits for room |
| Theorems.BenchRefinesIsa | tb/tb_top.sv:124-178 | In the testbench, with any interrupts and a queue of at most five entries, the refinement holds with no hypothesis left |
| Theorems.BenchRunsPrograms | tb/tb_top.sv:90-117 | In the testbench the default core runs a halting program to its end within 56 cycles a step, with exactly the interpreter's commits |
| Progress.DistanceFalls | src/scoreboard.sv:116-135 | From every state of the invariant a cycle without a commit lowers a measure over stalls, stages, stale queue entries and fetch phases |
| Progress.CommitsSoon | src/frontend.sv:73-90 | From every state of the invariant, reachable or not, a commit comes within the measure |
| Bench.FeedIsHonest | tb/tb_top.sv:124-178 | The testbench's registered one-cycle responses are always those of the requested address and of the present request |
| Bench.FeedIsPrompt | tb/tb_top.sv:53-56 | In the testbench no request ever waits |
| Bench.WiresPass | tb/tb_top.sv:124-178 | The testbench hands each interrupt wire to the core in its own cycle, with both ports ready |
| Testbench.RunCore | tb/tb_top.sv:90-111 | The clocking loop over the clocked objects returns the commit log of the modelled run, up to the first halt or the cycle limit |
| Traps.PreciseExactly | src/mem_stage.sv:80-103 | A trap keeps the registers, saves the pc and goes to the vector; the state is that of a precise trap if and only if the instruction had sent no request and changed no CSR state that survives the entry |
| Traps.OrdinaryTrapsArePrecise | src/CSRFile.sv:113-117 | ECALL and interrupts on instructions other than CSR writes, MRET and sent accesses are precise |
| Imprecise.ImpreciseTrap | src/exe_stage.sv:65-67 | A run of the hardware from reset, for every reset pc: an interrupt is taken on a CSR write, whose trap commits with its own pc to return to, while the CSR that it was to change was clear when it entered EXE and is set already |
| Runs.FlagDecides | src/mem_stage.sv:97-101 | MEM's double-trap decision agrees with the sequential machine's if and only if the flag is not stale |
| Runs.StaleIsSelfVectored | src/backend.sv:242-244 | The flag can only be stale in front of a second handler word that the vector points at |
| Runs.CsrsIgnoreWires | src/CSRFile.sv:62-79 | No CSR write depends on the interrupt wires |
| Runs.IdealFollows | src/backend.sv:189-246 | Along every honest run in which the flag serves, the commit log is the sequential machine's and every stage stays related to it |
| Handler.HandlerTimingNext | src/frontend.sv:73-90 | With at most five queue entries, the further a handler's first word has come the fewer stale entries are ahead of it, in every cycle |
| Handler.FlagNeverStale | src/backend.sv:242-244 | With at most five queue entries MEM never reads the double-trap flag while a commit is about to change it |
| Reachable.EpochsNeverAlias | src/frontend.sv:31-43 | Two-bit epochs of queue entries and requests equal the present epoch's bits exactly when the unbounded epochs are equal; the lag is at most two |
| Reachable.FetchFiltersAgree | src/if_stage.sv:50-79 | The drop mark and the epoch comparison reject the same requests, a held packet is current and excludes a request, and the queue keeps within its depth |
| Reachable.ScoreboardMirrors | src/scoreboard.sv:116-135 | In every reachable state each row agrees with its stage's token on valid, identity, killed and destination, and on readiness in EXE and MEM; in WB every live row is ready unless its instruction traps or halts |
| Reachable.TrapSuppressesExe | src/exe_stage.sv:64-73 | In the cycle of a trap any token in EXE leaves registers, CSRs, request and redirect the same, and both tokens behind the trap are dead afterwards |
| Reachable.DeadTokensAreInert | src/mem_stage.sv:59-62 | A dead token neither stalls, traps, requests, redirects, writes nor stores |
| Ledger.AccountNext | src/backend.sv:227-238 | The account of issued, committed, killed and in-flight instructions balances over every cycle, through stalls, redirects and traps |
| Runs.InvRun | src/backend.sv:227-246 | Every state the idealised core reaches satisfies the invariant |
| Wrap.StepNarrow | src/frontend.sv:31-43 | One cycle of the hardware is one cycle of the idealised core, seen through its registers' bits |
| Wrap.KillsComparable | include/uarch.svh:227-234 | Whatever a kill compares is less than four epochs and, within an epoch, less than 128 identifiers apart |
| Uarch.SeqAfterExact | include/uarch.svh:221-225 | The 8-bit comparison is the true age order on identifiers less than 128 apart |
| CoreInv.InvStep | src/backend.sv:189-246 | One chain of live tokens, queue entries, fetch and next request, stepping by four and by one; the scoreboard mirror, the fetch filters and the epoch lags survive every cycle |
| CoreInv.StreamNext | src/if_stage.sv:50-79 | The instruction stream in flight stays one contiguous chain through stalls, drains, drops, redirects and traps |
| CoreInv.KillsExactly | src/backend.sv:189-208 | On true age order, a kill strikes exactly the token behind a trapping one |
| CoreInv.EpochsOkNext | src/frontend.sv:31-43 | How far epochs may lag: two for stale entries, one for a transfer that has just left EXE |
| FrontendInv.FetchOkNext | src/if_stage.sv:50-79 | The agreement of the fetch filters survives every cycle |
| FrontendInv.StreamFlows | src/frontend.sv:73-90 | Without a redirect the fetch stream only loses its popped head and grows or drops at its end |
| Refine.RelNext | src/backend.sv:227-246 | The simulation relation between all stages and the sequential machine survives every cycle |
| Refine.OperandIsCurrent | src/scoreboard.sv:76-85 | An operand read without a hazard is the register's value after every older instruction in flight |
| Refine.PcAhead | src/exe_stage.sv:70-73 | The architectural successor is EXE's redirect target or the head of the fetch stream |
| Refine.FlightTrapped | src/backend.sv:60-63 | After a trap every stage in front of WB is at the handler |
| ExecCorrect.MemFinishes | src/mem_stage.sv:64-103 | Whatever leaves MEM has had and reports the effect of the sequential machine's step, for every mix of halt, interrupt, ECALL, access and bus error |
| ExecCorrect.MemOutcome | src/mem_stage.sv:64-103 | MEM's priority of halts, interrupts, ECALL and double traps is the sequential machine's |
| ExecCorrect.ExeExecutes | src/exe_stage.sv:75-102 | EXE computes result, address, misaligned-target halt and CSR legality of every instruction |
| ExecCorrect.ExeCsrs | src/CSRFile.sv:118-136 | EXE's CSR writes and MRET have their architectural effect |
| ExecCorrect.ExeNextPc | src/branch_unit.sv:16-31 | EXE redirects to the architectural successor, or the successor is the next word |
| ExecCorrect.AluOps | src/alu.sv:11-25 | The ALU and the sequential machine compute every operation alike |
| Arithmetic.AluNumbers | src/alu.sv:12-24 | Sums and differences modulo 2^32, signed and unsigned comparisons, and shifts by the second operand modulo 32 as multiplication or as division rounded down, the arithmetic one in two's complement |
| Arithmetic.AluBits | src/alu.sv:17-20 | The logical operations bit by bit |
| Arithmetic.BranchNumbers | src/branch_unit.sv:16-26 | Branches compare the numbers that the operands denote |
| Arithmetic.TargetNumbers | src/exe_stage.sv:60-62 | A JALR goes to the even address at or below the sum of its operands modulo 2^32, other transfers to pc plus offset; a taken one halts exactly off a multiple of four, and traps and MRET go to multiples of four |
| Words.SignedLessMeaning | src/branch_unit.sv:21-23 | The signed comparison, modelled by flipping sign bits, is two's complement order |
| ExecCorrect.InterruptAgrees | src/mem_stage.sv:65-70 | The pending and enabled interrupt of highest priority |
| ExecCorrect.CsrWriteAgrees | src/CSRFile.sv:118-130 | A masked CSR write is the architectural write |
| ExecCorrect.TrapEntryAgrees | src/CSRFile.sv:113-117 | Trap entry saves pc, cause and the enable bit and disables interrupts |
| ExecCorrect.TrapReturnAgrees | src/CSRFile.sv:132-135 | MRET restores the enable bit |
| ExecCorrect.StrayMret | src/exe_stage.sv:66-73 | EXE redirects to mepc and restores mstatus on exactly the words with MRET's function fields; with register fields that are not both zero such a word is illegal, halts, and changes no CSR of the sequential machine |
| ExecCorrect.CsrLegality | src/CSRFile.sv:49-60 | An access is illegal exactly for unknown CSRs and writes to read-only ones |
| ExecCorrect.StoreLanesAgree | src/lsu.sv:13-34 | The enabled lanes of a store carry its value |
| ExecCorrect.LoadAgrees | src/load_data_filter.sv:15-30 | The filter extracts and extends the loaded value |
| ExecCorrect.MemPreHalt | src/mem_stage.sv:81-84 | MEM halts an instruction before any access exactly when the sequential machine does, with the same kind |
| DecodeCorrect.DecodeEncode | src/decoder.sv:32-219 | Decoding the encoding of any legal instruction gives that instruction back |
| DecodeCorrect.EncodeDecode | src/decoder.sv:32-219 | Encoding a decoded legal word gives the word back, reserved words aside |
| DecodeCorrect.DecoderImplements | src/decoder.sv:32-219 | For every word, legal or not, the control signals say what the instruction is |
| DecodeCorrect.DecoderAccepts | src/decoder.sv:47-218 | The illegal flag is clear exactly for encodings of legal instructions and one family of reserved words |
| DecodeCorrect.KnownWords | src/decoder.sv:47-218 | A listed word of each opcode and each privileged instruction decodes to that instruction |
| Fifo.FirstInFirstOut | src/fifo.sv:31-67 | For every depth what went in is what came out followed by what is inside, and the depth is kept |
| Fifo.Buffer.Clock | src/fifo.sv:48-67 | The circular buffer, through wraparound and simultaneous push and pop, is a bounded sequence |
| Machine.IfStage.Clock | src/if_stage.sv:40-80 | The ordered register updates of the fetch stage have the effect of the modelled fetch step |
| Machine.FrontendUnit.Clock | src/frontend.sv:31-90 | Counters, fetch stage, decoder and circular buffer together take the modelled frontend step |
| Machine.RegisterFile.Clock | src/regfile.sv:15-28 | A write changes its register alone, and x0 never |
| CoreInv.MirroredNext | src/scoreboard.sv:116-135 | Through stalls, kills and issue the rows keep agreeing with the tokens, and what leaves MEM alive, without a trap or a halt, is ready |
| Machine.CsrUnit.Clock | src/CSRFile.sv:104-137 | Trap entry wins over a CSR write, and MRET overrides a write of mstatus |
| CoreInv.TokensOkNext | src/mem_stage.sv:163-169 | A request is only ever remembered for a live memory access in MEM that does not halt; only MEM and WB ever hold killed tokens |
| Machine.BackendUnit.Issue | src/scoreboard.sv:53-86 | The issue packet and its operands are the modelled ones |
| Machine.BackendUnit.Clock | src/backend.sv:227-246 | The clocked backend takes the modelled backend step |
| Machine.Top.Clock | src/Top.sv:30-72 | The whole clocked core, with its redirect wired to flush and redirect, takes the modelled step |
| Lanes.StoreIsPlain | tb/tb_top.sv:155-170 | A store through lanes, width conversion and device is a store into a plain byte array, and refused exactly when misaligned or out of range |
| Lanes.LoadIsPlain | src/load_data_filter.sv:15-30 | For a memory of any size, a load through the whole-word read and the filter is a load from its whole words; it differs from one of the plain byte array exactly if that would serve it from an incomplete last word |
| Lanes.LoadAfterStores | src/lsu.sv:13-34 | After any aligned stores in range an aligned load in range returns what the plain array holds, if and only if it ends within the whole words |
| Lanes.LoadOfStore | src/load_data_filter.sv:15-30 | A load from within the bytes of the last store returns the stored data shifted down to there and extended, if and only if it does not touch an incomplete last word |
| Lanes.LittleBytes | devices/dram/src/dram.c:31-36 | The value read from up to four bytes has exactly these bytes, and zeros above them |
| Lanes.ByteMeans | devices/dram/src/dram.c:53-59 | The bytes written are the digits of the value to the base 256, the last one first |
| Lanes.StrobeMeans | devices/dram/src/dram.c:57-61 | A strobe selects byte i by its i-th bit |
| Lanes.ByteReplicated | src/lsu.sv:13-34 | The data of an SB holds its byte in its own lane and every lane above, and zeros below |
| Lanes.HalfAlone | src/lsu.sv:13-34 | The data of an SH holds its half-word in its own lanes and zeros in the others |
| Dram.Dram.Read | devices/dram/src/dram.c:10-37 | Width, alignment and range are checked, and the bytes are read little-endian |
| Dram.Dram.Write | devices/dram/src/dram.c:39-62 | Exactly the strobed bytes of an accepted access change |
| MemMap.OverlapExactly | devices/common/src/mem_map.c:35-42 | For any two ranges exactly when the overlap test is right; a range conflicts with itself if and only if it ends below the top of the address space |
| MemMap.MatchesExactly | devices/common/src/mem_map.c:69-78 | An access below the top matches exactly the ranges that hold it and end below the top themselves |
| MemMap.FindExactly | devices/common/src/mem_map.c:69-78 | Among separate ranges, for any access: one that reaches the top goes to the first range that it wraps around, though none holds it; so the search finds the range that holds the access if and only if it ends below the top or wraps around none |
| MemMap.OrderIsIrrelevant | devices/common/src/mem_map.c:69-78 | What is found does not depend on the order of registration |
| MemMap.SocIsSeparate | snake_soc/src/snake_soc.c:105-111 | The SoC's five ranges are separate and below the top; accesses over the top go to the Boot ROM |
| MemMap.MemoryMap.AddDevice | devices/common/src/mem_map.c:44-67 | A unit is added if and only if the comparison finds no conflict; below the top of the address space that is if and only if it meets no other, and the map stays separate |
| MemMap.MemoryMap.FindUnit | devices/common/src/mem_map.c:69-78 | The loop finds the first matching unit |
| MemMap.MemoryMap.Write | devices/common/src/mem_map.c:93-104 | A write succeeds exactly if a unit takes it, and changes its strobed bytes and no other address |
| Loader.WriteSegment | elf_loader/src/elf_loader.c:22-60 | For any start and length, succeeds exactly if units take all its accesses, and then ends below the top; the bytes that arrive hold the data and no other address changes, also after a fault |
| Loader.LoadSegment | elf_loader/src/elf_loader.c:152-171 | Loads exactly if the file is long enough and units take all accesses of all chunks; reports a short file exactly if it is too short and units take all accesses of the chunks it holds; byte for byte what arrives in each case |
| Loader.LoadWords | elf_loader/src/elf_loader.c:152-171 | A word-aligned segment of whole words is one plain copy, and succeeds inside one aligned unit |
| Loader.AlignedSegments | elf_loader/src/elf_loader.c:29-57 | A word-aligned segment arrives whole exactly if its size is 0 or 1 modulo four |
| Loader.UnalignedStartIsLost | elf_loader/src/elf_loader.c:29-37 | The first byte of a segment that starts off a word boundary never arrives |
| Devices.UartWriteMeans | devices/uart/src/uart.c:63-99 | What is accepted and what is sent; the pop alone changes the state, leaves nothing to read and lets the next tick take a byte; a refused write changes nothing |
| Devices.UartReadMeans | devices/uart/src/uart.c:29-61 | What is accepted; STATUS shows exactly whether a byte is buffered, RX_DATA the byte, or zero |
| Devices.Uart.Tick | devices/uart/src/uart.c:103-121 | A byte is taken only into an empty buffer, and raises the edge wire |
| Devices.AggWriteMeans | devices/irq_agg/src/irq_agg.c:41-62 | What is accepted; a write to PENDING clears the valid bit exactly if it is one there and no other bit, a write to ENABLE reads back masked, and neither touches the rest; a refused write changes nothing |
| Devices.AggReadMeans | devices/irq_agg/src/irq_agg.c:21-39 | What is accepted; both registers show their valid bit and no other |
| Devices.AggTickMeans | devices/irq_agg/src/irq_agg.c:65-75 | An edge becomes pending once; clearing before the tick does not lose it, and clearing after it silences the wire |
| Devices.ClearSampled | freertos_demo/port_glue/app_irq_handler.c:54-63 | Writing back what was sampled clears the pending bit exactly if it was sampled |
| Devices.MeipBits | devices/irq_agg/src/irq_agg.c:110-113 | The wire is up exactly if the source is pending and enabled |
| Devices.TickDevices | devices/common/src/ticker.c:49-54 | One pass ticks the UART before the aggregator: a byte is taken exactly into an empty buffer, and is pending at once |
| Devices.TryGetc | runtime/src/hal/uart.c:32-39 | Returns the buffered byte and empties the buffer, or reports that there is none |
| Handshake.NoLostByteNoLostWakeup | freertos_demo/app/main.c:66-80 | Under every interleaving the drained bytes are in order a prefix of the terminal's, and a byte never sits in front of a waiting task without a pending interrupt or a given semaphore |
| Handshake.InvNext | freertos_demo/port_glue/app_irq_handler.c:53-63 | The protocol invariant survives every tick, interrupt, handler access and task access |
| Handshake.Delivered | freertos_demo/app/main.c:66-80 | A buffered byte is drained after at most nine processor events, whatever ticks fall between them |
| Handshake.WakesPerByte | freertos_demo/app/main.c:66-80 | In every run the task wakes at most once per give, the handler gives exactly once per interrupt, and there is at most one interrupt per byte latched |
| Handshake.WorkPerByte | freertos_demo/app/main.c:66-80 | The processor comes to rest: in every run it makes at most nine events per byte latched |
| Handshake.SomeCpuStep | freertos_demo/app/main.c:66-80 | The processor always has a step to make in front of a buffered byte |
| Handshake.BootDecides | freertos_demo/app/main.c:50-53 | After reset, ticks, and the two boot writes the receive path never loses a wakeup if and only if no tick before the clearing write found a byte; if one did, nothing is ever received |
| Handshake.StuckForEver | freertos_demo/app/main.c:66-80 | A byte in the buffer with nothing pending and no semaphore given blocks the path in every run |
| Handshake.StartsRight | freertos_demo/app/main.c:50-53 | From a start at rest the invariant holds exactly if that has not happened |

## Left out

- Imprecise.ImpreciseTrap: needs a queue of at least two entries; with a single one the same program runs a few cycles later.
- Loader.LoadSegment: reading and checking the ELF file is not part of the model; the file is the bytes from the segment's offset on.
- MemMap.MemoryMap.AddDevice: the growth of the unit array and allocation failure are left out, and the units of this model are memories.
- Devices.TickDevices: the ticker's growing array of callbacks is fixed to the two devices of the receive path, in their order of registration.
- Handshake.Delivered: the FreeRTOS kernel is one binary semaphore; scheduling is any interleaving in which the processor makes steps.
- Behaviour after the first halt, self-modifying code and FENCE.I (which decodes as illegal).
- The CSR snapshots of the commit packet, token fields that nothing reads back, the scoreboard rows' source fields, and the fields of an issue packet that is not valid.
- Reset as an input: a run starts in the reset state.
- Terminal, standard output, boot ROM, CLINT, the logging decorator, vtables, constructors' error paths and the DPI layer's initialisation.
- The testbench's built-in memory for HEX images; its devices are the environment's reply function.
