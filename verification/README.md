# Computer systems simulators, verified

A Dafny model of four simulators and proofs that each does what it is for:

- **Demand-paged virtual memory** (`vm_*.dfy`). Page tables and a frame table inside physical memory,
  page faults, random eviction across processes, dirty write-back, a linked swap list, process start and
  stop. Main result: on every well-formed trace and for every outcome of the replacement coins, each read
  returns the byte last written to that (pid, address) since the process started, or 0
  (`VmRefine.PagingRefinesFlatMemory`, `VmRefine.ReadsReturnLastWrite`). The only panic left is exhausted
  memory, and it comes exactly when a frame is needed and all are protected. The victim is pinned down coin by coin
  (`VmOps.VictimByCoin`), and every statistic and swap token line by line (`VmStats.StatsExact`, `VmStats.TokensExact`).
- **Five-stage MIPS pipeline** (`pipe_*.dfy`). Forwarding, a load-use stall, write-through registers,
  branches resolved in MEM. Main result: for every program, what the pipeline shows - registers, data memory,
  decode register and PC - is in every cycle that of a one-instruction-at-a-time machine with three delay slots if
  and only if in every cycle what EX computes comes out right and the fetch is right, conditions on the sequential
  run alone (`PipeVisible.PipelineShowsIff`). Programs without the four hazards H1 to H4 always are
  (`PipeRuns.PipelineRefines`). `PipeRuns.PipelineTracksIff` is the same equivalence with the pipeline registers
  included: there a load from a wrong address counts as a failure even where it reads the right word. As both machines
  share their arithmetic, `MachineWords` says what it computes: sums and differences as integers, logic, fields and
  addresses bit by bit, and one instruction's effect on each register and memory cell.
- **Two-level cache** (`cache_*.dfy`). The counter array of an L2 set stands for a recency list; from that
  follow the exact contents after any trace, Mattson's stack inclusion, and that adding ways never adds an
  L2 miss (`CacheModel.MoreWaysNeverMissMore`, `CacheSim.AddressTraceMonotone`). On every trace L2 finds an address iff
  its block is among the most recent of its set (`CacheBlocks.FindsBlockIff`), a block is dirty iff a write for it was
  sent since it came in, and exactly the eviction of such a block is written back (`CacheDirty.DirtyIff`, `WritebackIff`);
  each counter is the number of requests it counts (`CacheCounts.CountersExact`).
- **Multiprocessor scheduler simulation** (`sched_*.dfy`). Every process is in exactly one place after any
  steps in any order (`SchedSteps.RunKeepsPlaces`); every process is charged exactly its bursts, one by one
  (`SchedBursts.ExactBursts`); the simulation ends within ten ticks per process plus the total work
  (`SchedMachine.Simulate`); round robin serves a ready process within a slice per place
  (`SchedFair.RoundRobinBound`), and a process keeps its CPU for its whole slice (`SchedSlice.LeavesAfterSlice`).

For each simulator a step function on values carries the theorems, and a class that updates arrays, fields
and linked lists in place, loop by loop as the source does, is proved equal to it step by step: `CacheSim.Cache`,
`PipeMachine.SpimPipe`, `VmMachine.PageSim` with `VmSwap.SwapQueue`, and `SchedMachine.OsSim` with
`SchedIo.IoQueue`. So the theorems hold of what the loops leave behind.

## Where the code does not keep a promise

The model follows the code. Each case below has inputs on which the promise fails, and the condition under
which it holds, exact unless said otherwise.

- Restarting the process that is still current leaves PTBR on the old page table, because the trace loop
  (Virtual_Memory/simulator-src/pagesim.c:134) skips the context switch: a read then prints a byte from before the
  stop, in every memory of four frames or more and for all coins (`VmRestart.RestartReadsOldByte`). The harm is done
  by the next access to that process, not by the start: any access to another process in between repairs PTBR. So
  a trace is well formed when an access to the current process finds PTBR on its page table, and that guard is
  sufficient for every later read (`VmRefine.ReadsReturnLastWrite`); `VmRefine.AllowedTraceRefines` gives it as a
  condition on the trace alone. For the first write of a byte other than 0 after such a restart the guard is exact:
  memory and flat memory stay in step iff it holds (`VmRestart.RestartedWriteIff`). For a single read it is not
  necessary, as a wrong page can hold the right byte. PTBR itself stays right through a start for all coins iff the
  process is not current, or PTBR's frame is sure to be allocated (`VmRefine.StartCoherentIff`).
- The L1 hit test ignores the valid bit and tags start at 0, so a hit need not be on a block that was ever fetched.
  On every trace a hit is honest iff not both its address and those of all earlier accesses to its line are below
  2^14 (`CacheSim.HitIsHonestIff`); as long as a line is used below 2^14 only, every access to it hits and nothing is
  fetched (`CacheSim.LowLineNeverMisses`). `CacheSim.ColdHitIff` is the case of an empty cache, and
  `CacheModel.L1HitIff` says when the test hits at all.
- The pipeline departs from in-order execution on four instruction patterns: a load feeding the address of the next
  load or store, or the next branch (`PipeHazards.WithoutH1`, `WithoutH1Store`, `WithoutH1Branch`); a store of a register
  written by one of the two instructions before it (`WithoutH2`, `WithoutH2Apart`); a non-zero write to $0
  (`WithoutH3`); and a load-use pair in the first two delay slots of a taken branch (`WithoutH4`). Each lemma
  gives a program and the first difference; the exact condition is `PipeVisible.PipelineShowsIff`.
- The LRTF wake-up starts its scan at 10 (OS_Threaded_Scheduling/src/student.c:253), so it never preempts a process
  with ten or more ticks left, whatever its comment says; `SchedLrtf.LongWakeUpNotPreempting` gives runs from the
  start on which that happens, and `SchedLrtf.WakeUpPreemptsIff` the exact condition. Both are about the intended
  number of CPUs. As written `main` declares a `cpu_count` of its own (student.c:287), the scan's bound stays 0,
  and no wake-up preempts at all; `SchedLrtf.WakeUpByCount` states the handler for both counts.

## Reading order

`basics`; `cache_address`, `cache_set`, `cache_model`, `cache_sim`, `cache_blocks`, `cache_dirty`, `cache_counts`; `pipe_isa`,
`pipe_words`, `pipe_core`, `pipe_refines`, `pipe_runs`, `pipe_visible`, `pipe_hazards`, `pipe_machine`; `vm_state`, `vm_ops`,
`vm_inv`, `vm_steps`, `vm_refine`, `vm_counts`, `vm_stats`, `vm_restart`, `vm_swap`, `vm_machine`, `vm_check`; `sched_model`,
`sched_place`, `sched_steps`, `sched_work`, `sched_bursts`, `sched_finish`, `sched_exit`, `sched_lrtf`, `sched_fair`,
`sched_slice`, `sched_io`, `sched_machine`. `dafny verify dfyconfig.toml` checks them all.

## Model

| member | source | states |
|---|---|---|
| `CacheAddress.ShiftPairIsMod` | Multi_Level_Cache/cachesim.c:79-80 | Shifting a 64-bit address left and then right by k keeps exactly its low 64 - k bits. |
| `CacheAddress.ArgumentsGiveShifts` | Multi_Level_Cache/cachesim.c:25-28 | Every admissible argument triple gives at least one set and shift widths inside 1..63. |
| `CacheAddress.MakeGeometry` | Multi_Level_Cache/cachesim.c:22-34 | Admissible arguments give a geometry whose index bits cover no more than its sets, so the split below applies to it. |
| `CacheAddress.GeometryMeaning` | Multi_Level_Cache/cachesim.c:22-34 | The sets fill the cache but for less than one more of them; offset and index bits are the floors of the logarithms of block size and sets. |
| `CacheAddress.SplitIsDivMod` | Multi_Level_Cache/cachesim.c:79-82 | Tag, index and offset computed by shifting are quotient, middle digits and remainder; the index is always in range and no tag equals the sentinel. |
| `CacheAddress.SplitRebuilds` | Multi_Level_Cache/cachesim.c:169-174 | A triple in range rebuilds the address if and only if it is the one the split produces. |
| `LruSet.FindTag` | Multi_Level_Cache/cachesim.c:239-246 | Returns the first slot that holds the tag validly, -1 exactly when none does. |
| `LruSet.FindLru` | Multi_Level_Cache/cachesim.c:229-236 | Returns the first slot whose counter is 0, -1 exactly when none is. |
| `LruSet.RecencyByLastUse` | Multi_Level_Cache/cachesim.c:217-225 | The reference list: distinct tags in strictly descending order of their last use. |
| `LruSet.RecencyDistinct` | Multi_Level_Cache/cachesim.c:217-225 | The reference list has each used tag once and nothing else. |
| `LruSet.InitRefines` | Multi_Level_Cache/cachesim.c:44-60 | A freshly initialised set stands for the empty recency list. |
| `LruSet.AccessRefines` | Multi_Level_Cache/cachesim.c:181-225 | One access moves its tag to the front of the recency list the counters stand for, and hits iff the tag was among the first `ways`. |
| `LruSet.HitIff` | Multi_Level_Cache/cachesim.c:181-192 | A lookup succeeds iff the tag is among the `ways` most recent, and the slot's counter encodes the tag's exact position. |
| `LruSet.VictimIsOldest` | Multi_Level_Cache/cachesim.c:194-202 | The slot with counter 0 is one of the ways: in a full set it holds the oldest block of the list, otherwise it is the first slot never used. |
| `LruSet.ContentsAreRecent` | Multi_Level_Cache/cachesim.c:217-225 | Read by descending counter, the valid tags are exactly the first `ways` of the recency list, position by position. |
| `LruSet.ResidentIff` | Multi_Level_Cache/cachesim.c:205-208 | A tag is resident iff it is among the `ways` most recent. |
| `LruSet.StackInclusion` | Multi_Level_Cache/cachesim.c:217-225 | Mattson's inclusion for one set: whatever fewer ways hold, more ways hold. |
| `LruSet.AccessDirty` | Multi_Level_Cache/cachesim.c:189-214 | On whole sets: dirty slots plus write-backs grow by at most one per access, and only for a write. The exact bits are DirtyAfterAccess, WritesBackIff and CacheDirty.DirtyIff. |
| `LruSet.DirtyAfterAccess` | Multi_Level_Cache/cachesim.c:184-214 | After an access a resident slot is dirty iff it holds the accessed tag and the access writes or hit a dirty slot, or it held the same block, dirty, before. |
| `LruSet.WritesBackIff` | Multi_Level_Cache/cachesim.c:194-202 | An access writes back iff its tag is not among the most recent, the set is full, and the oldest block, which it evicts, is dirty. |
| `CacheModel.StepL2Agrees` | Multi_Level_Cache/cachesim.c:166-226 | One L2 access leaves every set standing for the recency list of the tags sent to it, and hits iff that list says so. |
| `CacheModel.Run` | Multi_Level_Cache/cachesim.c:75-226 | After any trace every L2 set refines its recency list, and the L1 contents are a function of the trace alone. |
| `CacheModel.SetContentsAfterTrace` | Multi_Level_Cache/cachesim.c:166-226 | After any trace, the valid tags of an L2 set by counter are exactly the most recent `ways` distinct tags sent to it. |
| `CacheModel.NextAccessAfterTrace` | Multi_Level_Cache/cachesim.c:181-202 | After any trace the next access hits iff its tag is among them; a miss takes the oldest block of a full set, else the first slot never used. |
| `CacheModel.SetShapeAfterTrace` | Multi_Level_Cache/cachesim.c:44-60 | In every reachable state the counters permute 0..ways-1, valid tags are distinct, never-filled ways have the lowest counters and the sentinel slots hold nothing. |
| `CacheModel.MoreWaysHoldMore` | Multi_Level_Cache/cachesim.c:166-226 | On every trace the contents of each w-way set are contained in those of the set with more ways. |
| `CacheModel.MoreWaysNeverMissMore` | Multi_Level_Cache/cachesim.c:75-226 | On every trace l2_miss never rises when ways are added, because what reaches L2 does not depend on L2. |
| `CacheModel.CountersBalance` | Multi_Level_Cache/cachesim.c:85-163 | On every trace l2_hit + l2_miss = d_miss + i_miss = requests sent to L2, accesses = trace length + those, and writebacks + dirty L2 lines <= write_count. |
| `CacheModel.Latest` | Multi_Level_Cache/cachesim.c:88-129 | The latest earlier request to the same L1 cache and line: it is one, and none comes after it. |
| `CacheModel.L1HoldsLatest` | Multi_Level_Cache/cachesim.c:114-125 | An L1 line's tag is that of the latest request to it, or 0 if there was none. |
| `CacheModel.L1HitIff` | Multi_Level_Cache/cachesim.c:90 | The exact hit condition of the L1 test, which ignores the valid bit: same tag as the latest request, or a never-used line and tag 0. |
| `CacheModel.HonestHitIff` | Multi_Level_Cache/cachesim.c:88-131 | On every trace of requests: a hit is on a block that some request sent to L2 brought into that line iff not both its tag and the tags of all earlier requests to the line are 0. |
| `CacheDirty.DirtyIff` | Multi_Level_Cache/cachesim.c:181-225 | On every trace, of every resident block: dirty iff a write for it was sent to L2 since it was last brought in, in terms of the request stream alone. |
| `CacheDirty.WritebackIff` | Multi_Level_Cache/cachesim.c:197-202 | After every trace: the next L2 access writes back iff it misses a full set whose oldest block has such an unsaved write. |
| `CacheCounts.CountersExact` | Multi_Level_Cache/cachesim.c:84-135 | On every trace each of the ten counters is the number of requests it counts: hits and misses by cache, L2 hits, misses, writes, write misses, write-backs, accesses of both levels. |
| `CacheCounts.HitsAndMisses` | Multi_Level_Cache/cachesim.c:84-135 | Per cache, hits plus misses are its requests in the trace; at L2 they are the L1 misses. |
| `CacheCounts.LineBitsIff` | Multi_Level_Cache/cachesim.c:86-157 | On every trace an L1 line is valid iff a request missed and filled it, and dirty iff a write reached it since its last fill. |
| `CacheSim.Cache.constructor` | Multi_Level_Cache/cachesim.c:22-72 | Initialises the arrays in place to the state of the empty trace. |
| `CacheSim.Cache.GetLruIndex` | Multi_Level_Cache/cachesim.c:229-236 | The loop computes FindLru. |
| `CacheSim.Cache.CheckTagAndValidBit` | Multi_Level_Cache/cachesim.c:239-246 | The loop computes FindTag. |
| `CacheSim.Cache.TouchCounters` | Multi_Level_Cache/cachesim.c:217-225 | The in-place counter loop equals the simultaneous update of all counters, and changes nothing else. |
| `CacheSim.Cache.Replace` | Multi_Level_Cache/cachesim.c:198-214 | Write-back and refill of the victim slot in place, with its two counters. |
| `CacheSim.Cache.L2AccessAt` | Multi_Level_Cache/cachesim.c:181-225 | The imperative access equals LruSet.Access on the one set and moves the four counters accordingly. |
| `CacheSim.Cache.L2Access` | Multi_Level_Cache/cachesim.c:166-226 | The whole new state is the model's L2 step of the old one. |
| `CacheSim.Cache.FillLine` | Multi_Level_Cache/cachesim.c:107-125 | An L1 refill in place, dirty bit included. |
| `CacheSim.Cache.L1Access` | Multi_Level_Cache/cachesim.c:75-163 | One reference, address split included: the whole new state is the model's step of the old one. |
| `CacheSim.Cache.L1Data` | Multi_Level_Cache/cachesim.c:88-127 | The data-cache half of that step. |
| `CacheSim.Cache.L1Instruction` | Multi_Level_Cache/cachesim.c:129-162 | The instruction-cache half. |
| `CacheSim.Cache.Simulate` | Multi_Level_Cache/cachesim.c:75-226 | A trace of addresses leaves the state all the trace theorems speak about. |
| `CacheBlocks.SplitMeaning` | Multi_Level_Cache/cachesim.c:75-84 | The request of an address carries its operation, and at each level tag and index that rebuild its block number, the index below the number of index values. |
| `CacheBlocks.MissesL1Iff` | Multi_Level_Cache/cachesim.c:84-160 | After every address trace an access misses L1 iff the latest earlier access to its line was to another block, or there is none and its address is 2^14 or more. |
| `CacheBlocks.FindsBlockIff` | Multi_Level_Cache/cachesim.c:164-194 | After every address trace L2 finds an address iff its block is among the `ways` most recent distinct blocks of its set that missed L1. |
| `CacheSim.AddressTraceMonotone` | Multi_Level_Cache/cachesim.c:22-226 | The monotonicity of l2_miss in the number of ways, for raw address traces and equal set count and block size. |
| `CacheSim.HitIsHonestIff` | Multi_Level_Cache/cachesim.c:88-131 | "A hit means the block was brought in", on every trace of addresses in every geometry: a hit is on a block some earlier access fetched through L2 iff not both the address and those of all earlier accesses to its L1 line are below 2^14. |
| `CacheSim.LowLineNeverMisses` | Multi_Level_Cache/cachesim.c:88-131 | And as long as a line is used below 2^14 only, such an access does hit, on every trace. |
| `CacheSim.ColdHitIff` | Multi_Level_Cache/cachesim.c:131 | On an empty cache, in every geometry: a first access, read, write or fetch, hits L1 and sends nothing to L2 iff its address is below 2^14. |
| `MipsIsa.FieldsRoundTrip` | Pipelined_MIPS_Processor/ps_decode.vhd:73-75 | Instruction fields and the 32-bit word determine each other. |
| `MachineWords.SumMeaning` | Pipelined_MIPS_Processor/ps_execute.vhd:105 | Add is the sum modulo 2^32, and no other word is. |
| `MachineWords.DifferenceMeaning` | Pipelined_MIPS_Processor/ps_execute.vhd:113-115 | Sub is first operand minus second modulo 2^32; adding the second back gives the first; no other word does. |
| `MachineWords.SignExtendMeaning` | Pipelined_MIPS_Processor/ps_decode.vhd:82-85 | The extended word has the two's complement value of the 16-bit immediate. |
| `MachineWords.BranchMeaning` | Pipelined_MIPS_Processor/ps_execute.vhd:73 | The branch target is PC+4 plus four times the signed offset. |
| `MachineWords.AndOrBits` | Pipelined_MIPS_Processor/ps_execute.vhd:101-103 | Bit i of And and Or, for every i, from bit i of the operands. |
| `MachineWords.FieldBits` | Pipelined_MIPS_Processor/ps_decode.vhd:73-75 | The fields are bits 31..26, 25..21, 20..16, 15..0, with rd in bits 15..11 and the function code in bits 5..0. |
| `MachineWords.CellBits` | Pipelined_MIPS_Processor/ps_memory.vhd:67-72 | A data address selects the cell in its bits 6..2. |
| `MachineWords.FetchBits` | Pipelined_MIPS_Processor/ps_fetch.vhd:48 | A fetch address selects the word in its bits 4..2. |
| `MachineWords.OperationMeaning` | Pipelined_MIPS_Processor/ps_execute.vhd:78-117 | add, sub, slt, and, or by their function codes: sum, difference, difference, and the logic bit by bit. |
| `MachineWords.OperationByCode` | Pipelined_MIPS_Processor/ps_execute.vhd:78-117 | Every one of the 64 function codes, by its four lowest bits. |
| `MachineWords.ExecMeaning` | Pipelined_MIPS_Processor/ps_execute.vhd:78-117 | One sequential instruction by register and memory cell: what lw, sw, beq and R-type change, by opcode and field, and that nothing else changes. |
| `PipeRefines.AluMeaning` | Pipelined_MIPS_Processor/ps_execute.vhd:82-117 | The ALU control equations select, for each decoded instruction, the operation the instruction set gives it; what the operations compute is MachineWords. |
| `PipeRefines.ForwardingDelivers` | Pipelined_MIPS_Processor/ps_execute.vhd:48-62 | In every related state, for every register, forwarding delivers exactly the value described by Seen: newest write in flight, the ALU result of a load, never anything for $0. |
| `PipeRefines.ExecuteStep` | Pipelined_MIPS_Processor/ps_execute.vhd:48-118 | The execute stage hands on what the sequential machine computes iff its operands are safe. |
| `PipeRefines.MemoryStep` | Pipelined_MIPS_Processor/pipe_reg4.vhd:34-38 | What MEM hands to WB is the sequential result of the instruction there, or no write for a bubble. |
| `PipeRefines.StallIff` | Pipelined_MIPS_Processor/ps_control.vhd:42-47 | The stall signal is raised iff EX holds a load and decode an R-type reader of its target. |
| `PipeRefines.FetchStep` | Pipelined_MIPS_Processor/ps_fetch.vhd:51-68 | The next fetch addresses are the sequential ones iff the stall does not drop a taken branch. |
| `PipeRefines.CycleRelatedIff` | Pipelined_MIPS_Processor/spim_pipe.vhd:278-482 | One clock edge keeps the pipeline related to the sequential run - every stage moves on, or decode holds and a bubble enters - iff execute and stall are safe. |
| `PipeRefines.OperandsAreRight` | Pipelined_MIPS_Processor/ps_execute.vhd:59-70 | In a hazard-free state Ainput, and Binput when ALUSrc is 0, are the register values after all older instructions. |
| `PipeRefines.HazardFreeIsSafe` | Pipelined_MIPS_Processor/ps_control.vhd:42-47 | H1 to H4 together make execute and stall safe. |
| `PipeRuns.StageBounds` | Pipelined_MIPS_Processor/spim_pipe.vhd:278-482 | For every stall history the stage counters are ordered, at most three instructions in flight. |
| `PipeRuns.PipelineTracksIff` | Pipelined_MIPS_Processor/spim_pipe.vhd:278-482 | For every program, every start and every number of cycles: the pipeline, its pipeline registers included, tracks the sequential machine throughout iff every execute and every stall of the sequential run is safe; stages and stalls are read off that run alone. |
| `PipeRuns.HazardFreeTracks` | Pipelined_MIPS_Processor/spim_pipe.vhd:278-482 | Programs without H1 to H4 are tracked after every number of cycles. |
| `PipeRuns.PipelineRefines` | Pipelined_MIPS_Processor/spim_pipe.vhd:278-482 | For such programs registers, data memory, decode register and PC equal those of the one-instruction-at-a-time machine with three delay slots, stalls as stuttering. |
| `PipeRuns.StallsPredicted` | Pipelined_MIPS_Processor/ps_control.vhd:42-47 | Such programs stall exactly when the sequential run has a load in EX and an R-type reader of its target in decode, and fill the stages it predicts. |
| `PipeVisible.CarryingIff` | Pipelined_MIPS_Processor/spim_pipe.vhd:278-482 | One clock edge, whatever wrong values are in flight: the visible state stays the sequential one iff what EX computes comes out right and the fetch is right. |
| `PipeVisible.PipelineShowsIff` | Pipelined_MIPS_Processor/spim_pipe.vhd:278-482 | For every program and start: registers, data memory, decode register and PC are the sequential machine's in every cycle iff in every cycle of the sequential run what EX computes comes out right and the fetch is right. |
| `PipeVisible.ShowsWhileRight` | Pipelined_MIPS_Processor/spim_pipe.vhd:278-482 | Cycle by cycle: the state is shown right as long as all cycles before it were right. |
| `PipeVisible.HazardFreeIsRight` | Pipelined_MIPS_Processor/ps_control.vhd:42-47 | Programs without H1 to H4 are right in every cycle. |
| `PipeRuns.StallIsOneCycle` | Pipelined_MIPS_Processor/pipe_reg2.vhd:36-54 | From any state at all a stall lasts one cycle; decode and PC hold, EX gets a bubble. |
| `PipeRuns.PipelineProgress` | Pipelined_MIPS_Processor/ps_control.vhd:46-47 | In n cycles at least (n - 1) / 2 instructions issue, and all but the last three have retired. |
| `PipeRuns.OperandsThroughoutRun` | Pipelined_MIPS_Processor/ps_execute.vhd:59-70 | In every cycle of a hazard-free run the ALU operands are the register values after all older instructions. |
| `PipeRuns.ThreeDelaySlots` | Pipelined_MIPS_Processor/spim_pipe.vhd:455 | On the sequential machine, a branch takes effect behind three delay slots. |
| `PipeRuns.ProgramOrder` | Pipelined_MIPS_Processor/ps_fetch.vhd:48-70 | From reset the addresses fetched are 0, 4, 8 and 12, then each is the word after the one before, except the fourth after a taken branch: its signed offset away from the word behind it. |
| `PipeRuns.PipelineDelaySlots` | Pipelined_MIPS_Processor/ps_fetch.vhd:56-69 | On the pipeline, for a hazard-free program: once the three instructions behind a branch have left decode, decode holds the word at the branch target if it is taken and the next one in line if not. |
| `PipeHazards.HandedOn` | Pipelined_MIPS_Processor/spim_pipe.vhd:424-451 | What EX hands to MEM for any operands, the unforwarded store value included. |
| `PipeHazards.WithoutH1` | Pipelined_MIPS_Processor/ps_control.vhd:46 | lw into the base of the next lw: the pipeline leaves 4 where the sequential machine leaves 9. |
| `PipeHazards.WithoutH1Store` | Pipelined_MIPS_Processor/ps_control.vhd:46 | lw into the base of the next sw: the store goes to the load's address, and cell 0 holds 5 instead of 4. |
| `PipeHazards.WithoutH1Branch` | Pipelined_MIPS_Processor/ps_control.vhd:46 | lw, then beq on the register loaded: the branch compares the load's address and fetch goes to 28 instead of 20. |
| `PipeHazards.WithoutH2` | Pipelined_MIPS_Processor/spim_pipe.vhd:434 | A store right after the instruction that computes its value writes the old one. |
| `PipeHazards.WithoutH2Apart` | Pipelined_MIPS_Processor/spim_pipe.vhd:434 | The same with one instruction in between. |
| `PipeHazards.WithoutH3` | Pipelined_MIPS_Processor/ps_decode.vhd:96-98 | A write to $0 sticks in the register file but is never forwarded. |
| `PipeHazards.WithoutH4` | Pipelined_MIPS_Processor/ps_fetch.vhd:56-58 | A load-use stall in the delay slots swallows the redirect of a taken branch. |
| `PipeHazards.StallDropsRedirect` | Pipelined_MIPS_Processor/ps_fetch.vhd:56-58 | In every related state: after a stall, two edges leave the PC one word further, whatever branch was in MEM. |
| `PipeMachine.SpimPipe.constructor` | Pipelined_MIPS_Processor/pipe_reg1.vhd:23-25 | Power-up: PC and pipeline registers cleared, memories as given. |
| `PipeMachine.SpimPipe.Settle` | Pipelined_MIPS_Processor/ps_memory.vhd:67-72 | Register file and data memory take the writes of WB and MEM within the cycle. |
| `PipeMachine.SpimPipe.RisingEdge` | Pipelined_MIPS_Processor/spim_pipe.vhd:278-482 | The register-by-register update in place equals the simultaneous cycle function. |
| `PipeMachine.SpimPipe.RunClock` | Pipelined_MIPS_Processor/spim_pipe.vhd:278-482 | n edges give the n-cycle state, and for a hazard-free program the sequential machine's registers, memory and next fetch. |
| `VmOps.VictimMeaning` | Virtual_Memory/student-src/page_replacement.c:73-104 | For all coins: never a protected frame, a free one first (the lowest), and failure exactly when every frame is protected; which frame of a full memory is VictimByCoin. |
| `VmOps.VictimByCoin` | Virtual_Memory/student-src/page_replacement.c:82-98 | With no frame free the victim is the first unprotected frame whose coin comes up, and if none comes up the last unprotected frame. |
| `VmOps.AnyFrameCanBeVictim` | Virtual_Memory/student-src/page_replacement.c:82-97 | With no free frame every unprotected frame is the victim for some coins, so cross-process eviction is always possible. |
| `VmInv.InitInv` | Virtual_Memory/student-src/paging.c:31-56 | A fresh system satisfies the invariant and a coherent PTBR: no frame mapped or referenced, frame 0 alone protected, nothing running, nothing in swap, first token 1. |
| `VmInv.EvictEffect` | Virtual_Memory/student-src/page_replacement.c:43-64 | Eviction finds its page-table entry from the frame table, writes back iff dirty, and invalidates that entry only. |
| `VmInv.EvictedPages` | Virtual_Memory/student-src/page_replacement.c:43-64 | Eviction changes the contents of no page of any process. |
| `VmInv.FreeFrameKeeps` | Virtual_Memory/student-src/page_replacement.c:23-71 | A frame allocation keeps the invariant and every page's contents, returns a free frame that is no page table, and fails exactly when all frames are protected. |
| `VmInv.AgreeInv` | Virtual_Memory/student-src/page_replacement.c:66 | Referenced bits and counters play no part in the invariant or in page contents. |
| `VmSteps.PageInKeeps` | Virtual_Memory/student-src/page_fault.c:36-84 | Mapping and filling a page keeps the invariant and the contents of every page, and makes the entry valid. |
| `VmSteps.TouchKeeps` | Virtual_Memory/student-src/paging.c:155-187 | A read returns the page's byte and changes no contents; a write changes that one byte only, and the invariant holds after both. |
| `VmSteps.InstallPages` | Virtual_Memory/student-src/paging.c:78-90 | A new process reads zeros everywhere and other processes keep their pages. |
| `VmSteps.ReleasePagesEffect` | Virtual_Memory/student-src/paging.c:208-222 | The cleanup loop unmaps exactly the frames of valid entries and frees exactly the swap entries held, without a panic. |
| `VmSteps.CleanupEffect` | Virtual_Memory/student-src/paging.c:202-228 | The exact effect of stopping a process on frame table, swap and PCB. |
| `VmRefine.StartKeeps` | Virtual_Memory/simulator-src/pagesim.c:104-108 | Starting keeps the invariant and all pages, zeroes the new process, and fails exactly when every frame is protected. |
| `VmRefine.StartCoherentIff` | Virtual_Memory/simulator-src/pagesim.c:134-137 | With a frame to be had: PTBR stays right through a start for all coins iff the process was not the current one, or PTBR's frame is unprotected and either the lowest free frame or the only unprotected one. |
| `VmRefine.SureVictimIff` | Virtual_Memory/student-src/page_replacement.c:73-104 | A frame is the one allocated for all coins iff it is unprotected and the lowest free frame, or the only unprotected one. |
| `VmRefine.StopKeeps` | Virtual_Memory/simulator-src/pagesim.c:120-122 | Stopping never panics, keeps the invariant and leaves all other processes' pages alone. |
| `VmRefine.MemAccessKeeps` | Virtual_Memory/student-src/paging.c:139-188 | A memory access returns the flat byte, changes at most that byte, keeps the invariant, and fails exactly when it faults with every frame protected. |
| `VmRefine.StepRefines` | Virtual_Memory/simulator-src/pagesim.c:98-153 | One trace line, any coins: invariant, agreement with the flat memory and printed byte carry over; the only panic is exhausted memory, under its exact condition. |
| `VmRefine.RunRefines` | Virtual_Memory/simulator-src/pagesim.c:98-153 | From any good state the output of a well-formed trace is the flat memory's, up to the end or to exhausted memory. |
| `VmRefine.PagingRefinesFlatMemory` | Virtual_Memory/student-src/paging.c:139-188 | From a fresh system, every well-formed trace and all coins: paging with cross-process eviction and swap refines a flat (pid, address) memory. Restarts are free; only an access to the current process asks that PTBR be its page table. |
| `VmRefine.AllowedTraceRefines` | Virtual_Memory/simulator-src/pagesim.c:98-153 | The same with a condition read off the trace alone: no process restarted since it was last accessed is accessed before another one has been. |
| `VmRefine.AllowedIsWellFormed` | Virtual_Memory/simulator-src/pagesim.c:134-137 | Such traces are well formed whatever the coins. |
| `VmRefine.FlatIsLastWrite` | Virtual_Memory/student-src/page_fault.c:53-81 | The flat memory is the last byte written there since the process started, or 0. |
| `VmRefine.ReadsReturnLastWrite` | Virtual_Memory/student-src/paging.c:178-187 | Every printed read is the last byte written to that (pid, address) since the process started, or 0. |
| `VmRefine.AddressUnique` | Virtual_Memory/student-src/page_splitting.h:20-29 | Page number and offset determine the address. |
| `VmRefine.AddressInside` | Virtual_Memory/student-src/page_splitting.h:20-29 | An address in range has its page number and offset in range. |
| `VmCounts.WritebacksBounded` | Virtual_Memory/student-src/page_replacement.c:49-58 | On every run writebacks + dirty resident pages <= writes, and writebacks <= page faults + process starts. |
| `VmCounts.RunCounts` | Virtual_Memory/student-src/page_replacement.c:49-58 | The same from any state in which it holds. |
| `VmCounts.FullIffTablesFill` | Virtual_Memory/student-src/page_replacement.c:100-103 | Memory has run out exactly when every frame but frame 0 is a running process's page table. |
| `VmCounts.SwapTokensExact` | Virtual_Memory/simulator-src/swapops.c:15-33 | The tokens in swap are exactly the non-zero swap fields of running processes, each held once. |
| `VmCounts.SwapHeldByRunning` | Virtual_Memory/simulator-src/pagesim.c:169-171 | Swap is empty once every process has stopped. |
| `VmStats.StepStats` | Virtual_Memory/student-src/paging.c:139-188 | Every line, any coins: one read or write counted as an access, a fault if the page was unmapped, a write-back if a dirty page had to leave the frame taken; no other statistic moves. |
| `VmStats.StatsExact` | Virtual_Memory/student-src/paging.c:139-188 | On every well-formed run from a fresh system each statistic is the number of lines it counts; accesses are reads plus writes. |
| `VmStats.TokensExact` | Virtual_Memory/simulator-src/swap.c:7-18 | On every such run the tokens drawn are 1, 2, 3 and so on, one for each write-back of a page not in swap yet. |
| `VmStats.FreeFrameMarks` | Virtual_Memory/student-src/page_replacement.c:66 | Taking a frame clears its referenced bit and touches no other frame. |
| `VmStats.TouchMarks` | Virtual_Memory/student-src/paging.c:155-158 | An access sets the referenced bit of the frame of its page and touches no other frame. |
| `VmStats.MarksOnRuns` | Virtual_Memory/student-src/paging.c:155-158 | On every such run a mapped frame is marked referenced and a page table's frame is not. |
| `VmRestart.RestartReadsOldByte` | Virtual_Memory/simulator-src/pagesim.c:134-137 | In every memory of four frames or more, every page count and page size, and whatever the coins: a trace that restarts the current process prints 42, the byte from before the stop. |
| `VmRestart.RestartedWriteIff` | Virtual_Memory/simulator-src/pagesim.c:134-137 | The first write of a byte other than 0 after a restart of the current process, when it goes through, keeps processes and flat memory in step iff PTBR is the process's own page table. |
| `VmRestart.StartIsFresh` | Virtual_Memory/student-src/paging.c:72-91 | A process just started has nothing mapped and nothing in swap. |
| `VmRestart.RestartShouldReadZero` | Virtual_Memory/simulator-src/pagesim.c:134-137 | The same read should print 0 by the last-write memory. |
| `VmCheck.InvChecks` | Virtual_Memory/simulator-src/pagesim.c:174-285 | In every state of the invariant the consistency check passes. |
| `VmCheck.ChecksMean` | Virtual_Memory/simulator-src/pagesim.c:174-285 | What a passed check means: protected frames are exactly frame 0 and the page tables; valid entries and mapped frames are mutual inverses across all processes. |
| `VmCheck.CheckTables` | Virtual_Memory/simulator-src/pagesim.c:195-213 | The loop over processes passes, or panics, only as the PTBR conditions say, and marks exactly frame 0 and the page tables; it reads past the frame table only where a running process's PTBR is the number of frames. |
| `VmCheck.CheckProtected` | Virtual_Memory/simulator-src/pagesim.c:215-220 | Decides whether every protected frame is accounted for. |
| `VmCheck.CheckEntry` | Virtual_Memory/simulator-src/pagesim.c:231-274 | Decides one entry's conditions, with the marks of the entries before it, unless the PTBR names no page table. |
| `VmCheck.CheckEntries` | Virtual_Memory/simulator-src/pagesim.c:222-277 | The nested scan decides them for all entries of all running processes, unless some PTBR names no page table. |
| `VmCheck.CheckMapped` | Virtual_Memory/simulator-src/pagesim.c:279-284 | Decides whether every mapped unprotected frame was claimed. |
| `VmCheck.CheckValidity` | Virtual_Memory/simulator-src/pagesim.c:174-285 | In every state: passes only if its declarative meaning holds, panics only if it does not, reads what is no page table only where some running process's PTBR names none; and it passes in every state of the invariant. |
| `VmCheck.SwapListExact` | Virtual_Memory/simulator-src/swap.c:19-58 | Along the linked list tokens rise strictly and are exactly the running processes' swap fields; size and tail are right; with nobody running the list is empty. |
| `VmSwap.SwapQueue.constructor` | Virtual_Memory/simulator-src/swap.c:7 | An empty list, tokens from 1. |
| `VmSwap.SwapQueue.Find` | Virtual_Memory/simulator-src/swap.c:60-71 | Finds the node of a token, null exactly when there is none. |
| `VmSwap.SwapQueue.CreateEntry` | Virtual_Memory/simulator-src/swap.c:9-17 | A fresh node of zeroed bytes under the next token. |
| `VmSwap.SwapQueue.Enqueue` | Virtual_Memory/simulator-src/swap.c:19-32 | Appends at the tail: the nodes, the token-to-page map, size and high-water mark. |
| `VmSwap.SwapQueue.Dequeue` | Virtual_Memory/simulator-src/swap.c:35-58 | Unlinks exactly the node of the token, order kept, head and tail right. |
| `VmSwap.SwapQueue.Unlink` | Virtual_Memory/simulator-src/swap.c:42-49 | The pointer surgery at any position of the list. |
| `VmSwap.SwapQueue.Write` | Virtual_Memory/simulator-src/swapops.c:15-24 | Stores a page under its token if listed, else under a fresh one, changing no other page. |
| `VmMachine.PageSim.constructor` | Virtual_Memory/student-src/paging.c:31-56 | The fresh system. |
| `VmMachine.PageSim.SelectVictimFrame` | Virtual_Memory/student-src/page_replacement.c:73-104 | Both loops together compute SelectVictim, whose choice VictimMeaning and VictimByCoin pin down for all coins. |
| `VmMachine.PageSim.EvictFrame` | Virtual_Memory/student-src/page_replacement.c:43-64 | The eviction in place: the whole new state is Evict of the old one. |
| `VmMachine.PageSim.FreeFrame` | Virtual_Memory/student-src/page_replacement.c:23-71 | The whole new state and the frame returned; on failure nothing has changed. |
| `VmMachine.PageSim.PageFault` | Virtual_Memory/student-src/page_fault.c:27-85 | The handler in place equals the model's page fault; on failure nothing has changed. |
| `VmMachine.PageSim.Install` | Virtual_Memory/student-src/page_fault.c:39-84 | Entry, frame table, bytes from swap or zeros, and the statistic. |
| `VmMachine.PageSim.MemAccess` | Virtual_Memory/student-src/paging.c:139-188 | The whole access in place: state and byte returned. |
| `VmMachine.PageSim.TouchByte` | Virtual_Memory/student-src/paging.c:155-187 | The access behind a valid entry. |
| `VmMachine.PageSim.ProcInit` | Virtual_Memory/student-src/paging.c:72-91 | Process start in place. |
| `VmMachine.PageSim.ContextSwitch` | Virtual_Memory/student-src/paging.c:104-108 | PTBR and current process, nothing else. |
| `VmMachine.PageSim.ProcCleanup` | Virtual_Memory/student-src/paging.c:202-228 | Process stop in place, PCB reset of the trace loop included. |
| `VmMachine.PageSim.CleanupPages` | Virtual_Memory/student-src/paging.c:208-222 | The loop over the page table. |
| `VmMachine.PageSim.SwapFree` | Virtual_Memory/simulator-src/swapops.c:26-33 | Frees one swap entry and clears the field. |
| `VmMachine.PageSim.TraceStep` | Virtual_Memory/simulator-src/pagesim.c:98-153 | One trace line in place equals the model's step. |
| `VmMachine.PageSim.Simulate` | Virtual_Memory/simulator-src/pagesim.c:86-153 | The simulator on a well-formed trace prints what the flat memory prints, up to the end or to exhausted memory. |
| `SchedModel.HighestMeaning` | OS_Threaded_Scheduling/src/student.c:113-119 | The greatest time remaining in the queue: bounds all, attained by one. |
| `SchedModel.FirstWithMeaning` | OS_Threaded_Scheduling/src/student.c:120-135 | The first position with a given time remaining. |
| `SchedPlace.ScheduleKeeps` | OS_Threaded_Scheduling/src/student.c:64-76 | Dispatching on a CPU with no process restores the invariant. |
| `SchedSteps.PreemptKeeps` | OS_Threaded_Scheduling/src/student.c:180-189 | A preemption keeps every process in exactly one place. |
| `SchedSteps.AdmittedKeeps` | OS_Threaded_Scheduling/src/student.c:242-269 | So does a wake-up, LRTF preemption included. |
| `SchedSteps.CpuTurnKeeps` | OS_Threaded_Scheduling/src/os-sim.c:457-538 | So does one tick of a CPU: countdown, expiry, block or end. |
| `SchedSteps.BurstEndTurn` | OS_Threaded_Scheduling/src/os-sim.c:489-525 | A finished burst moves the process to the I/O queue or to terminated, and then the CPU is given away. |
| `SchedSteps.IoTurnKeeps` | OS_Threaded_Scheduling/src/os-sim.c:564-596 | So does one tick of the I/O queue. |
| `SchedSteps.CreatTurnKeeps` | OS_Threaded_Scheduling/src/os-sim.c:598-613 | So does a creation step. |
| `SchedSteps.IdleKeeps` | OS_Threaded_Scheduling/src/student.c:161-171 | So does an idle CPU's step. |
| `SchedSteps.StepKeeps` | OS_Threaded_Scheduling/src/os-sim.c:446-613 | So does every step, whatever the policy. |
| `SchedSteps.StartInv` | OS_Threaded_Scheduling/src/os-sim.c:124-163 | The initial state satisfies the invariant. |
| `SchedSteps.RunKeepsPlaces` | OS_Threaded_Scheduling/src/os-sim.c:177-196 | The invariant holds after any steps in any order. |
| `SchedSteps.ExactlyOnePlace` | OS_Threaded_Scheduling/src/os-sim.c:386-427 | Each process is in exactly one of the five places, iff its state field says so, and on at most one CPU. |
| `SchedSteps.RunningIsAtCpuOp` | OS_Threaded_Scheduling/src/os-sim.c:528-536 | A process on a CPU is always at a CPU operation: the two complaints are never printed. |
| `SchedWork.RequestTime` | OS_Threaded_Scheduling/src/os-sim.c:540-562 | The ticks left in a process's request, -1 exactly when it has none. |
| `SchedWork.StepCharges` | OS_Threaded_Scheduling/src/os-sim.c:467-525 | Each step takes exactly its charge off the remaining CPU and I/O work of each process. |
| `SchedWork.RunCharges` | OS_Threaded_Scheduling/src/os-sim.c:467-525 | On every run, ticks charged plus work left equals the initial work, for CPU and for I/O. |
| `SchedWork.TerminatedIffNoWork` | OS_Threaded_Scheduling/src/os-sim.c:511-520 | A process has terminated iff no CPU work is left. |
| `SchedWork.ExactCharge` | OS_Threaded_Scheduling/src/os-sim.c:467-596 | In total: a terminated process was charged the sum of n+1 CPU ticks over its CPU bursts and of n+1 head-of-queue ticks over its I/O bursts, however often preempted. |
| `SchedBursts.StepMoves` | OS_Threaded_Scheduling/src/os-sim.c:446-613 | Every step charges a process one tick of the operation it is at, or leaves its program, its position and its request alone. |
| `SchedBursts.ExactBursts` | OS_Threaded_Scheduling/src/os-sim.c:467-596 | Burst by burst, on every run of any policy: a burst of n has been charged exactly n+1 ticks of its kind once the process is past it; during it, charged plus left is its length; before it, nothing. |
| `SchedBursts.RemainingIsReal` | OS_Threaded_Scheduling/src/os-sim.c:467-493 | On every run time_remaining is the estimate until a process first ticks, then one more than what is left of its current operation. |
| `SchedFinish.StepWork` | OS_Threaded_Scheduling/src/os-sim.c:446-613 | Total work falls by exactly one for a charged step and by nothing otherwise. |
| `SchedFinish.TickKeeps` | OS_Threaded_Scheduling/src/os-sim.c:177-196 | A tick keeps the invariant and the creation schedule, leaves no CPU idle beside a ready process, and never adds work. |
| `SchedFinish.TickWorks` | OS_Threaded_Scheduling/src/os-sim.c:177-196 | Once all are created every tick of an unfinished system lowers the total work. |
| `SchedFinish.AllTerminate` | OS_Threaded_Scheduling/src/os-sim.c:177-196 | From the start all processes have terminated within total work plus ten ticks per process, less nine. |
| `SchedExit.RunCountsDead` | OS_Threaded_Scheduling/src/os-sim.c:275-282 | The exit counter equals the number of terminated processes on every run. |
| `SchedExit.ExitTestExact` | OS_Threaded_Scheduling/src/os-sim.c:181-186 | The supervisor's exit test holds iff every process has terminated, on every run. |
| `SchedExit.ReachedNext` | OS_Threaded_Scheduling/src/os-sim.c:177-196 | While the exit test fails, a run is still within its bound and the next tick keeps everything the loop needs. |
| `SchedLrtf.PopTakesGreatest` | OS_Threaded_Scheduling/src/student.c:107-138 | LRTF pop takes the earliest node of greatest time remaining and keeps the rest in order. |
| `SchedLrtf.LowestFrom` | OS_Threaded_Scheduling/src/student.c:252-263 | The scan's meaning: -1 with an idle CPU or nobody below 10, else the first CPU with the least time. |
| `SchedLrtf.WakeUpPreemptsIff` | OS_Threaded_Scheduling/src/student.c:226-241 | A wake-up preempts iff the documented condition holds and some running process has less than 10 ticks left; it then picks the first CPU with the least time. |
| `SchedLrtf.WakeUpByCount` | OS_Threaded_Scheduling/src/student.c:254-287 | The handler by the bound of its scan: with the number of CPUs it is the model's wake-up, with the 0 that the shadowed variable leaves there no wake-up ever preempts. |
| `SchedLrtf.LongWakeUpNotPreempting` | OS_Threaded_Scheduling/src/student.c:253 | For every first burst of at least 19 ticks and every estimate above what is then left of it: a run from the start on one CPU in which the documented preemption does not happen, because of the constant 10. |
| `SchedLrtf.WakeUpMeaning` | OS_Threaded_Scheduling/src/student.c:242-269 | A wake-up is an admission plus at most that one preemption. |
| `SchedLrtf.PreemptGivesGreatest` | OS_Threaded_Scheduling/src/student.c:180-189 | The preempted CPU then gets a process with the greatest time of those ready, displaced and woken. |
| `SchedLrtf.ScheduleGivesGreatest` | OS_Threaded_Scheduling/src/student.c:107-138 | Every LRTF dispatch takes a ready process of greatest time remaining. |
| `SchedFair.ScheduleFifo` | OS_Threaded_Scheduling/src/student.c:141-151 | FIFO and round robin dispatch the head of the queue. |
| `SchedFair.StepFifo` | OS_Threaded_Scheduling/src/student.c:78-95 | In each step, queue plus arrivals equals departures plus new queue, in order. |
| `SchedFair.DispatchInEntryOrder` | OS_Threaded_Scheduling/src/student.c:78-151 | Under FIFO and round robin, on every run, dispatch order is queue-entry order. |
| `SchedFair.IoInSubmissionOrder` | OS_Threaded_Scheduling/src/os-sim.c:540-596 | Under every policy I/O requests complete in submission order. |
| `SchedFair.RoundRobinBound` | OS_Threaded_Scheduling/src/os-sim.c:471-488 | With slice k > 0 a ready process with p others ahead is on a CPU within (p + 1) * k ticks, for any number of CPUs. |
| `SchedFair.NobodyStarves` | OS_Threaded_Scheduling/src/os-sim.c:177-196 | The same at every tick of a simulation from the start. |
| `SchedSlice.StepTimer` | OS_Threaded_Scheduling/src/os-sim.c:386-401 | Every step, every CPU: a dispatch sets its timer to the slice; otherwise it keeps its process and its timer drops by the tick it runs, if it runs one. |
| `SchedSlice.TimerIsSliceLessTicks` | OS_Threaded_Scheduling/src/os-sim.c:470-488 | On every run under any policy the timer of a busy CPU is the slice less the ticks the CPU has run since its last dispatch. |
| `SchedSlice.LeavesAfterSlice` | OS_Threaded_Scheduling/src/os-sim.c:470-488 | On every run a process with its burst unfinished loses its CPU in its own tick iff that tick completes the slice, so never without one; under FIFO and round robin no other step takes it. |
| `SchedSlice.ExpiryRequeues` | OS_Threaded_Scheduling/src/student.c:64-76 | When the slice runs out the process goes to the back of the queue, and the CPU takes the head with a fresh slice. |
| `SchedSlice.TickIsSteps` | OS_Threaded_Scheduling/src/os-sim.c:177-196 | One iteration is the CPUs' ticks in order, the I/O tick, creation, the clock, then the idle steps: every theorem on runs of steps holds of simulated time. |
| `SchedIo.IoQueue.Submit` | OS_Threaded_Scheduling/src/os-sim.c:540-562 | Appends a request at the tail of the linked list. |
| `SchedIo.IoQueue.TickHead` | OS_Threaded_Scheduling/src/os-sim.c:569-587 | One tick off the head; a request found at 0 leaves the list, head and tail right, and its process is returned. |
| `SchedMachine.OsSim.constructor` | OS_Threaded_Scheduling/src/os-sim.c:124-163 | The initial state, queue empty, every CPU idle. |
| `SchedMachine.OsSim.PushToQueue` | OS_Threaded_Scheduling/src/student.c:78-95 | Walks to the tail of the linked list and appends, nothing else changing. |
| `SchedMachine.OsSim.FindHighest` | OS_Threaded_Scheduling/src/student.c:113-119 | The first LRTF pass computes the maximum over the list. |
| `SchedMachine.OsSim.FindFirst` | OS_Threaded_Scheduling/src/student.c:120-135 | The second pass finds the first node with it, and its predecessor. |
| `SchedMachine.OsSim.Unlink` | OS_Threaded_Scheduling/src/student.c:125-130 | The pointer surgery at any position. |
| `SchedMachine.OsSim.PopFromQueue` | OS_Threaded_Scheduling/src/student.c:97-152 | Takes the policy's process off the list; none iff the list is empty. |
| `SchedMachine.OsSim.Schedule` | OS_Threaded_Scheduling/src/student.c:64-76 | Pop, state, current table and context switch with the full slice in place; what the slice means is SchedSlice. |
| `SchedMachine.OsSim.Idle` | OS_Threaded_Scheduling/src/student.c:161-171 | The idle loop once the queue is not empty. |
| `SchedMachine.OsSim.Preempt` | OS_Threaded_Scheduling/src/student.c:180-189 | The handler in place: the whole new state is the model's Preempt of the old one. |
| `SchedMachine.OsSim.Yield` | OS_Threaded_Scheduling/src/student.c:199-207 | The handler in place: the whole new state is the model's Yield of the old one. |
| `SchedMachine.OsSim.Terminate` | OS_Threaded_Scheduling/src/student.c:215-223 | The handler in place, with the simulator's count: the whole new state is the model's Terminate of the old one. |
| `SchedMachine.OsSim.ForcePreempt` | OS_Threaded_Scheduling/src/os-sim.c:403-427 | Preempts a CPU with a process and leaves an idle one alone: the whole new state is the model's. |
| `SchedMachine.OsSim.FindLowest` | OS_Threaded_Scheduling/src/student.c:252-263 | The scan loop computes Lowest. |
| `SchedMachine.OsSim.WakeUp` | OS_Threaded_Scheduling/src/student.c:242-269 | The handler in place, LRTF preemption included. |
| `SchedMachine.OsSim.SimulateProcess` | OS_Threaded_Scheduling/src/os-sim.c:457-538 | One tick of a CPU in place; the two impossible cases need no code. |
| `SchedMachine.OsSim.RunBurst` | OS_Threaded_Scheduling/src/os-sim.c:470-488 | A tick of a running burst: time, time remaining, timer, and the preemption when the timer expires. |
| `SchedMachine.OsSim.NextOperation` | OS_Threaded_Scheduling/src/os-sim.c:489-525 | The end of a burst: next operation, I/O request and yield, or termination. |
| `SchedMachine.OsSim.SimulateCpus` | OS_Threaded_Scheduling/src/os-sim.c:446-455 | The loop over the CPUs. |
| `SchedMachine.OsSim.SimulateIo` | OS_Threaded_Scheduling/src/os-sim.c:564-596 | The head of the linked I/O queue: the whole new state is the model's I/O step of the old one. |
| `SchedMachine.OsSim.SimulateCreat` | OS_Threaded_Scheduling/src/os-sim.c:598-613 | The creation step. |
| `SchedMachine.OsSim.Iterate` | OS_Threaded_Scheduling/src/os-sim.c:188-192 | One supervisor iteration, then the idle CPUs, in place: the whole new state is Tick of the old one. |
| `SchedMachine.OsSim.Supervise` | OS_Threaded_Scheduling/src/os-sim.c:177-196 | The loop ends at its exit test within ten ticks per process plus the total work, every process terminated. |
| `SchedMachine.Simulate` | OS_Threaded_Scheduling/src/student.c:305-313 | The whole program for any processes of the required shape, any policy and slice: it ends with every process terminated. |

## Left out

- Trace and argument parsing, printing, Gantt output and the floating-point statistics: input/output or single formulas.
- The counters `context_switches`, `read_count` and `fetch_count` and the per-state process totals of the Gantt output: printed or unused, read by no handler.
- Mutexes, condition variables, sleeping and the readers-writer lock: every handler is one atomic step, as the supervisor waits for it; exclusion by the lock is not claimed.
- The random number generator: its coins are an arbitrary function, so every result holds for all of them.
- CLOCKSWEEP replacement: it has no implementation and falls through to the panic.
- Byte layout of page tables and the frame table inside `mem`, `malloc` and `free`: a frame is unused, a page table or page data, and reading it as another kind is an explicit `Undefined` outcome, proved never to occur on well-formed traces.
- Integer widths of counters, tokens and simulated time: unbounded here. Addresses of the cache are 64 bits and words of the pipeline 32 bits, with wrap-around.
- Trace lines that are not well formed: starting a running process, stopping or accessing a stopped one, addresses out of range, and accesses to the current process with PTBR on another table, beyond what `VmRestart` says of them.
- VHDL delta cycles, 'U' and 'X' values, the clock generator, the reset cycle, and the initial contents of instruction, register and data arrays: memories are arbitrary at power-up, with $0 equal to 0 where hazard freedom asks for it.
- Opcodes other than R-type, lw, sw and beq, and the function codes without an ALU operation of their own: they run through the same control equations on both machines; slt subtracts, as the code does.
- `log2` in floating point: the exact floor of the logarithm is used. Geometries whose shift width would be 64 (one set of one-byte blocks) and products that overflow a C int are excluded by `CacheAddress.ValidArguments`.
- The fixed burst tables of OS_Threaded_Scheduling/src/process.c: every result is for all operation arrays of the shape that file requires.
- The variable `cpu_count` that `main` shadows (OS_Threaded_Scheduling/src/student.c:287): the handlers use the number of CPUs, as intended; `SchedLrtf.WakeUpByCount` says what the shadowing does to the wake-up. The table `current` starts as all idle, where `malloc` leaves it uninitialised.
- Idle CPUs: between two ticks each takes a step, in index order; `SchedSteps.Do` allows them to step at any point.
- The ready queue is linked through process-table indices instead of pointers; a completed I/O request is unlinked but not freed.
- VmCheck.CheckValidity: the valid and dirty flags are Booleans, so the range tests on them have no counterpart; what the source does after reading past the frame table, or a frame that is no page table, is the verdict `Unreadable` and no more.
- CacheSim.Cache.L1Access: the address is split once and handed to both levels, where each level splits it anew.
- VmMachine.PageSim.Simulate: `check_validity` is proved of every reachable state instead of being called after every line.
