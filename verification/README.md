# Verified models of the memory, scan, storage and scheduling core

The project models the parts of the repository whose correctness rests on state that several
operations share, and proves what those operations promise together.

* **Sleep-mode allocator** (`csrc/cumem_allocator.cpp`, ROCm path, with
  `vllm/device_allocator/cumem.py`). `Driver` is the virtual memory interface: reservations, physical
  handles with their bytes, and the page table that maps addresses to handles and offsets. Every call
  may fail; which calls do, what they report and which addresses they offer are parameters. A call that
  names something that is not there is counted in `faults`. `Cumem` is the
  allocator over it, `Allocations` and `Transitions` the invariant and what each operation does to
  it, `SleepMode` the Python loops over the whole table and arbitrary runs of commands.
* **Selective scan with prefix caching** (`vllm/_xpu_ops.py`, chunk metadata from
  `vllm/v1/attention/backends/mamba_attn.py`). `ScanSpec` is the recurrence as a fold, `ScanClosed` what it adds
  up to without stepping, `ScanKernel` and
  `ScanProgram` are the loops of one program in place over its buffers, `ScanChunks` the chunk layout,
  `ScanPrefix` the calls of one request from the metadata to the kernel, `ScanGrid` all programs of a
  launch at once on the same buffers and the same state cache, `ScanLaunch` the launch of a batch,
  `ScanRuns` whole runs: any launches, requests that take over the blocks of others, and new requests, and
  `ScanDirect` the launch without prefix caching.
* **Block files** (`csrc/fs_io.cpp`). `BlockStore` interleaves the system calls of stores, loads and
  crashes; `BatchLoad` is the batch call and its buffers.
* **Build report** (`tools/report_build_time_ninja.py`). `BuildLog` reads the log, `BuildSweep` divides
  the time between the parallel steps.
* **Smaller loops and protocols.** `Quantize` (int8 quantizer), `BadWords` (logits processor),
  `SpinWait` (monitor/wait loop), `PromptQueue` (queue with one sentinel per client), `Staggered`
  (staggered admission), `PagedGather` (gather from a paged cache).

`Sums` holds running sums and facts about division, `Basics` other definitions that several modules use.

## What was found

* The chunk sizes are right exactly when two 64-bit additions do not wrap, the rounding of the
  configured chunk size and the division of the aligned size by it (`PlanChunks`, both directions).
  The largest setting that is accepted makes the first one wrap with 2 MB granularity, and the code
  then divides by zero; with 64 KB granularity the second one wraps and a request gets no chunk.
* A failed `my_malloc` leaves the entry that the Python callback registered, and its error stays
  pending: later requests fail at once, and a wake that finds it pending loses the one handle it had
  created (`Leaked`). A failure after mapping (setting access or clearing) leaves the mapping behind
  (`Stranded`). Which stage is reached is stated exactly, and both occur (`LeakedHappens`,
  `StrandedHappens`).
* `my_free` gives the address back exactly when the caller's size is the recorded, aligned size.
* A failed sleep loses the address of that allocation and of no other one, but the entry stays. Entries
  with nothing behind them are not told from the others: freeing one, putting one to sleep or waking one
  makes driver calls. As long as nobody has reserved its addresses again and none of its handle cells holds
  a live handle, these are refused (`Refused` counts them) and nothing else changes. Otherwise:
  * freeing a lost address that another allocator holds gives that allocator's reservation back
    (`FreeAfterFailedSleep`, `Free`);
  * waking an entry there maps our chunks into the other allocator's range (`ForeignRangeBreaks`);
  * putting a leftover to sleep unmaps a chunk that is mapped there now (`ReusedRangeBreaks`), and releases
    the handles that its freed cells happen to hold (`LiveCellBreaks`).
* The wait of the spin loop misses a store exactly when it is used and a store outside the one monitored
  line can make the callback true (`NeverMissesIff`). Only the length of the buffer is tested, not where it
  starts: with eight readers the metadata of chunk 7 lies at bytes 63 to 71 of a line of 64, and the writer
  sits out the wait although every reader has read (`ChunkSeven`). The deadline is kept all the same.
* A store keeps the block that is there exactly when its check comes after the block and does not fail
  (`FirstBlockStays`); a store that is past its check, or whose check fails, replaces it
  (`LateStoreReplaces`, `BlindStoreReplaces`).
* A load unlinks a complete block if its read returns early (`EarlyReadUnlinks`), and without that only
  if a destination was short to begin with (`ShortFileRace`).
* A batch load into a list that names one buffer twice leaves only the last of its blocks there.
* The asymmetric zero point leaves the 32-bit range for constant rows far from zero
  (`ZeroPointTooLarge`), and for one more value its negation does (`ZeroPointOverflows`);
  `ZeroPointFits` is the exact condition.
* The sweep over build steps raises `KeyError` exactly when some step ends before it starts.
* An empty bad word makes every call of the logits processor raise `IndexError`.
* In the paged gather a request of one row that does not fit the destination is dropped without an error.
* In the paged gather the rows start where `cu_seq_lens` says exactly when it does not decrease.

## Assumptions about the outside

* Driver: a call that succeeds does what its documentation says; unmap, release and free succeed on
  valid arguments where a contract requires `steadyTeardown`, and setting access and clearing do where
  it requires `steadyAccess`. Reservations have no owner: a range is freed by anyone who names its base and
  size, and mapped by anyone where it is reserved and unmapped. Releasing takes any live handle, mapped or
  not. Other allocators of the process may reserve and free ranges of their own while an address is
  given up and reserved again; their handles and mappings are not part of the device.
* `cudaMemcpy` on valid arguments does not fail.
* File system: `open` with `O_EXCL` and `rename` are atomic (IEEE Std 1003.1-2017, System Interfaces
  volume, section 3).
* Monitor: a store to the aligned line that holds the first byte of the buffer triggers it; stores outside
  that line do not, and it may trigger or the wait may time out at any moment.
* Scan and quantizer: exact reals; `exp` is any positive function, `log` any function, rounding any
  rule that is off by at most one half.
* Engines of `PromptQueue` and `Staggered`: they finish every request; `Staggered.Faithful` spells
  this out, and `Staggered.FaithfulEngine` shows an engine that meets it.
* Times of the build log are whole milliseconds, weighted times exact reals. The order in which the
  sort leaves events with equal keys is arbitrary.

## Model

| member | source | states |
|---|---|---|
| `ChunkPlan.ConfiguredChunk` | csrc/cumem_allocator.cpp:25-43 | the configured size in bytes is a positive multiple of 1 MB below 2^64: the setting if it is a number, not zero and its bytes fit, else 256 MB |
| `ChunkPlan.AlignUpExact` | csrc/cumem_allocator.cpp:366-366 | rounding up to the granularity gives the least multiple that is not smaller, when the addition does not wrap |
| `ChunkPlan.AlignUpWraps` | csrc/cumem_allocator.cpp:393-393 | when the addition wraps the rounded value is zero |
| `ChunkPlan.PlanChunks` | csrc/cumem_allocator.cpp:391-416 | the chunk sizes are positive multiples of the granularity that sum to the aligned size if and only if neither addition wraps; division by zero if and only if the first one wraps; all chunks but the last are full |
| `ChunkPlan.FillSizes` | csrc/cumem_allocator.cpp:401-416 | the loop fills one entry per chunk, the full size or what is left |
| `ChunkPlan.DefaultChunkNeverWraps` | csrc/cumem_allocator.cpp:22-23 | with the default chunk size every request below half the address space is covered |
| `ChunkPlan.HugeChunkDividesByZero` | csrc/cumem_allocator.cpp:391-395 | the largest accepted setting, with 2 MB granularity, gives a chunk size of zero |
| `ChunkPlan.HugeChunkMapsNothing` | csrc/cumem_allocator.cpp:391-395 | the same setting with 64 KB granularity gives a 2 MB request no chunk |
| `ChunkPlan.ChunkOf` | csrc/cumem_allocator.cpp:184-203 | every byte of the range lies in a chunk, between its running offset and the next |
| `ChunkPlan.ChunksTile` | csrc/cumem_allocator.cpp:184-203 | ... and in only one: the running offsets leave no gap and no overlap |
| `ChunkMapping.UnmapChunks` | csrc/cumem_allocator.cpp:263-273 | each mapped chunk is unmapped by one valid call, and the error of the first one that fails is reported; where no chunk can be unmapped every call is refused and nothing changes |
| `ChunkMapping.ReleaseHandles` | csrc/cumem_allocator.cpp:275-280 | each handle is released by one valid call, and the error of the first one that fails is reported; where none can be released every call is refused and nothing changes |
| `Cumem.Allocator.CreateHandles` | csrc/cumem_allocator.cpp:174-183 | one fresh handle per chunk or none, exactly when the driver is willing to do every creation; a failure at any index releases every earlier handle; with an error already pending one handle is created and lost exactly when the driver is willing |
| `Cumem.Allocator.MapHandles` | csrc/cumem_allocator.cpp:184-203 | the chunks are mapped back to back over the whole range exactly when the driver is willing to do every mapping; a failure at any index restores the device; outside our reservations one refused call and the device as before |
| `Cumem.Allocator.UndoMapping` | csrc/cumem_allocator.cpp:188-200 | rolling back after chunk `i` leaves the device as before the first handle was created |
| `Cumem.Allocator.CreateAndMap` | csrc/cumem_allocator.cpp:119-237 | how far it comes is a function of the pending error and of which calls the driver is willing to do; on success the range is mapped by its own new handles and reads as zeros; each other outcome with the device state it leaves |
| `Cumem.Allocator.Attach` | csrc/cumem_allocator.cpp:205-237 | the mapping is complete and cleared, or it is left behind, exactly as the driver is willing to set access and to clear |
| `Cumem.StrandedHappens` | csrc/cumem_allocator.cpp:211-236 | a mapping does get left behind |
| `Cumem.LeakedHappens` | csrc/cumem_allocator.cpp:174-183 | with an error pending a handle does get lost |
| `Cumem.Allocator.ReserveAddress` | csrc/cumem_allocator.cpp:50-71 | an aligned range that was unreserved, or an error with nothing reserved; it succeeds exactly when the aligned request is granted, or else the unaligned one is and happens to be aligned |
| `Cumem.Allocator.UnmapAndRelease` | csrc/cumem_allocator.cpp:242-286 | everything of an allocation is unmapped and released, nothing else changes, and the address stays held; the error is that of the first call that fails, unmaps before releases, and no failure stops the others; for an entry with nothing behind it every call is refused and the device is as before |
| `Cumem.Allocator.Malloc` | csrc/cumem_allocator.cpp:346-474 | how far it comes is a function of the pending error, the offered addresses and the willing calls; a driver that does everything gives what is asked for; a returned address is a new, aligned, zeroed allocation and all others keep their bytes; a failure in creating or mapping leaves no reservation and the device unchanged; a pending error fails at once |
| `Cumem.ObligingMalloc` | csrc/cumem_allocator.cpp:346-474 | a request succeeds whenever the driver does every call and the first address it offers is free |
| `Cumem.Allocator.MallocAt` | csrc/cumem_allocator.cpp:418-474 | the same from the point where the address is reserved, the callback registering the entry before it is mapped |
| `Cumem.Allocator.GiveBack` | csrc/cumem_allocator.cpp:459-470 | after a roll-back the address is freed; after a stranded mapping the free is refused and handles stay live |
| `Cumem.Allocator.Free` | csrc/cumem_allocator.cpp:477-594 | an allocation: bytes and address are given back and all others keep theirs if the size is the recorded one, else the reservation stays and an error is set; a lost address: one refused call and an error, or, if another allocator holds exactly that range, that reservation given back without any error; a leftover that reaches nothing in use: the number of refused calls and an error; our allocations keep their bytes in all of these |
| `Cumem.Allocator.Rereserve` | csrc/cumem_allocator.cpp:707-728 | with other allocators running between free and reserve: the same address is held again exactly when the driver does the call, offers that address and nobody has taken it; otherwise an error is set and nothing of the allocation is left |
| `Cumem.RegainsWhen` | csrc/cumem_allocator.cpp:717-728 | what that condition is: the call, the offer, and no overlapping reservation of anybody |
| `Cumem.Allocator.Sleep` | csrc/cumem_allocator.cpp:622-741 | an allocation keeps its address with nothing mapped exactly when no error is pending and its address is regained, else an error is reported; with a backup the bytes are unchanged, without one they become zeros; a leftover that reaches nothing in use: the number of refused calls, an error, and nothing else changed |
| `Cumem.Allocator.Wake` | csrc/cumem_allocator.cpp:743-809 | it succeeds exactly as the willing calls decide, always with a driver that does everything; no byte that an owner knows changes; a failure in creating or mapping leaves the allocation asleep with its address and the device unchanged; at a lost address that nobody has reserved since nothing is mapped |
| `Allocations.NoSharing` | csrc/cumem_allocator.cpp:184-203 | under the invariant no physical byte is reachable through two addresses, and every page leads to live memory |
| `Allocations.Replace` | csrc/cumem_allocator.cpp:119-286 | replacing, adding or removing one allocation keeps ranges disjoint, awake ranges mapped by exactly their own handles, sleeping ranges empty, and live handles equal to the awake chunks |
| `Allocations.ViewElsewhere` | csrc/cumem_allocator.cpp:119-286 | what happens to one allocation leaves the bytes of every other one alone |
| `Transitions.MallocKeeps` | csrc/cumem_allocator.cpp:346-474 | a newly mapped range joins the table and the invariant holds |
| `Transitions.FreeKeeps` | csrc/cumem_allocator.cpp:477-594 | an allocation given back leaves the table and the invariant holds |
| `Transitions.SleepKeeps` | csrc/cumem_allocator.cpp:622-741 | emptying an awake allocation whose address stays held keeps the invariant |
| `Transitions.WakeKeeps` | csrc/cumem_allocator.cpp:743-809 | mapping a sleeping allocation again keeps the invariant |
| `Transitions.VacantIsBarren` | csrc/cumem_allocator.cpp:263-280 | an entry whose range nobody has reserved has nothing to unmap, map or copy, whatever its handle cells hold |
| `Transitions.ReusedRangeBreaks` | csrc/cumem_allocator.cpp:263-273 | unmapping a chunk of an entry where a chunk is mapped again breaks the invariant |
| `Transitions.LiveCellBreaks` | csrc/cumem_allocator.cpp:275-280 | so does releasing a live handle that a cell of such an entry holds, mapped or not |
| `Transitions.ForeignRangeBreaks` | csrc/cumem_allocator.cpp:184-203 | where another allocator has reserved the range the driver accepts our chunk there, and that breaks the invariant |
| `Transitions.WriteOutcome` | csrc/cumem_allocator.cpp:184-203 | a store into an awake allocation is seen there and nowhere else |
| `Transitions.OthersOutcome` | csrc/cumem_allocator.cpp:707-728 | reservations of other allocators change nothing for the owners |
| `SleepMode.SleepAll` | vllm/device_allocator/cumem.py:229-294 | every allocation ends asleep with size and tag kept; offloaded tags keep their bytes, the others become zeros; sleeping ones are skipped; a failure has its cause: a pending error, an address that the last reservation did not give back, or the leftover of a failed request; invalid driver calls are made exactly when the loop meets such a leftover; the invariant survives; any table is allowed, and a leftover that reaches something in use again is reported where the model ends |
| `SleepMode.WakeUp` | vllm/device_allocator/cumem.py:327-356 | exactly the selected sleeping allocations are awake again at their addresses; no byte changes even if one of them fails; a failure has its cause: a pending error, a call that the driver was not willing to do, or an entry whose address is lost; a pending error ends the loop at the first entry that is woken, and only then can a handle be lost |
| `SleepMode.SleepThenWake` | vllm/device_allocator/cumem.py:229-356 | the round trip: all awake at their old addresses, offloaded bytes as before, the others zero; on a table without leftovers it succeeds whenever the driver does every call, honours hints and nobody takes a range; it never succeeds on another table |
| `SleepMode.FreeAfterFailedSleep` | vllm/device_allocator/cumem.py:200-214 | the address is lost exactly when it is not regained; freeing it then makes one refused driver call and leaves an error pending, unless another allocator holds exactly that range: then no call is refused, and without an error that reservation is gone |
| `SleepMode.Execute` | csrc/cumem_allocator.cpp:346-809 | each command does to the owners' memory exactly what its outcome says, the outcome is exactly what the driver, the pending error and the other allocators decide, and its refused driver calls are counted; on any entry that reaches nothing in use again |
| `SleepMode.Run` | csrc/cumem_allocator.cpp:346-809 | in every run of malloc, free, sleep, wake, stores, foreign reservations and reuse of freed handle cells the invariant holds, the owners' memory goes through the steps that the commands and outcomes describe, every outcome is the one that its circumstances decide, and the refused driver calls are those of commands that name an entry with nothing behind it; it ends before a command that would reach something in use again |
| `SleepMode.ObligingSucceeds` | csrc/cumem_allocator.cpp:346-809 | with a driver that does every call and honours hints, requests, sleeps of untaken ranges and wakes succeed |
| `SleepMode.RefusalsNeedLeftovers` | csrc/cumem_allocator.cpp:477-809 | a run makes an invalid driver call if it frees an entry with nothing behind it, other than one whose range another allocator holds, or puts one to sleep, and only if it names one |
| `ScanSpec.OutputAt` | vllm/_xpu_ops.py:824-876 | the output of a position comes from the state after it, one step from the state before it |
| `ScanSpec.FoldSplit` | vllm/_xpu_ops.py:824-876 | splitting a sequence anywhere and carrying the state over gives the final state of one scan |
| `ScanSpec.OutputsSplit` | vllm/_xpu_ops.py:824-876 | ... and the outputs of one scan |
| `ScanSpec.AnySchedule` | vllm/_xpu_ops.py:814-878 | however a sequence is cut into parts, outputs and final state are those of one scan |
| `ScanClosed.FoldIsClosed` | vllm/_xpu_ops.py:842-860 | each state element after a sequence is the initial one times all decays, plus every input `g * u * B` times the decays since |
| `ScanClosed.OutputIsClosed` | vllm/_xpu_ops.py:860-866 | the output of a position is the sum of its `C` times that, plus `D * u` |
| `ScanClosed.OutputFromRest` | vllm/_xpu_ops.py:743-744 | from the zero state only the inputs are left |
| `ScanClosed.GainIs` | vllm/_xpu_ops.py:832-838 | the step size is the biased input, or below the threshold of softplus the number whose exponential is one more than the input's |
| `ScanClosed.GateIs` | vllm/_xpu_ops.py:871-873 | the gate takes the share `e^z / (e^z + 1)` of `y * z`, and the gates of `z` and `-z` differ by `y * z` |
| `ScanClosed.GatedFromRest` | vllm/_xpu_ops.py:868-876 | the gated outputs in the same terms |
| `ScanKernel.GateUnused` | vllm/_xpu_ops.py:868-876 | the gate takes no part in the recurrence, so reading it after the output is stored changes nothing |
| `ScanKernel.ScanToken` | vllm/_xpu_ops.py:824-876 | one position stores its output and gated output in their cells and nothing else, also over the inputs |
| `ScanKernel.ScanTokens` | vllm/_xpu_ops.py:824-876 | the loop stores exactly the outputs of its positions, in place or into separate buffers, and later inputs are still intact |
| `ScanProgram.ScanPlain` | vllm/_xpu_ops.py:708-758 | without prefix caching: outputs of one scan from the loaded or zero state, final state back in its slot, nothing at all for the null block |
| `ScanProgram.ScanCached` | vllm/_xpu_ops.py:790-904 | with prefix caching: the outputs of one unchunked scan, and after every chunk the fold through its last token stored in its slot |
| `ScanProgram.ScanChunk` | vllm/_xpu_ops.py:814-904 | one round of the chunk loop extends outputs, registers and stored states by one chunk |
| `ScanProgram.CheckpointHolds` | vllm/_xpu_ops.py:880-904 | a stored state that no later chunk overwrites is the fold through its chunk's last token |
| `ScanProgram.OtherSlots` | vllm/_xpu_ops.py:880-904 | slots outside the call's own keep their state |
| `ScanProgram.ResumeFromCheckpoint` | vllm/_xpu_ops.py:746-758 | resuming from a stored state gives the outputs and final state of the uninterrupted scan |
| `ScanProgram.MetadataFits` | vllm/_xpu_ops.py:790-807 | the metadata of a batch gives every program a fitting plan, and chunk `c` goes to the slot of block `block_idx_first + c` |
| `ScanChunks.ComputeChunks` | vllm/v1/attention/backends/mamba_attn.py:290-350 | every chunk belongs to one request; a request's chunks sum to its tokens, end at block boundaries, and are found through `last_chunk_indices`; also for empty requests |
| `ScanChunks.RequestChunks` | vllm/v1/attention/backends/mamba_attn.py:316-345 | the chunks of one request: the first finishes a begun block, the others are full but the last |
| `ScanChunks.BlockFirstIs` | vllm/v1/attention/backends/mamba_attn.py:430-437 | the first scheduled token's block index is the number of computed tokens over the block size |
| `ScanChunks.StartIsTrue` | vllm/_xpu_ops.py:799-807 | the position from which the kernel starts counting is the true one whenever it matters |
| `ScanChunks.ChunkEnds` | vllm/v1/attention/backends/mamba_attn.py:323-345 | every chunk but the last completes exactly one block |
| `ScanChunks.StoredBlock` | vllm/_xpu_ops.py:888-894 | the state after non-last chunk `c` goes to block `block_idx_first + c`, the one that chunk completes |
| `ScanChunks.LastBlock` | vllm/v1/attention/backends/mamba_attn.py:438-446 | the last chunk lies in the block of the last scheduled token |
| `ScanPrefix.StartState` | vllm/model_executor/layers/mamba/mamba_mixer.py:375-394 | the state that a call loads, from the last computed token's block, is the state after all computed tokens |
| `ScanPrefix.CallKeepsCache` | vllm/_xpu_ops.py:790-904 | one call extends what the cache holds by its tokens: every completed block and the current one |
| `ScanPrefix.EveryRun` | vllm/_xpu_ops.py:790-904 | after every call of every run of prefill calls, each starting from what it loads, each completed block's slot holds the state after that block and the last block's slot the current state |
| `ScanPrefix.CallOutputs` | vllm/_xpu_ops.py:790-904 | the outputs of a call are its stretch of one uninterrupted scan |
| `ScanPrefix.ServeCall` | vllm/_xpu_ops.py:699-904 | one call, from the batch's chunk metadata through the kernel: the cache then holds what it promises for the longer prefix, and the buffers that stretch of one uninterrupted scan |
| `ScanPrefix.Prefill` | vllm/model_executor/layers/mamba/mamba_mixer.py:375-394 | however a prompt is cut into calls, the outputs together are those of one scan of it, and the cache holds the state after every block |
| `ScanPrefix.PrefixHit` | vllm/v1/attention/backends/mamba_attn.py:414-456 | a request with the same first blocks may take over their slots: the cache holds for it what it promises |
| `ScanGrid.EveryInterleaving` | vllm/_xpu_ops.py:760-788 | in every interleaving of the loads and stores of all programs, states included, each one is where it would be alone, and what belongs to none is as it was |
| `ScanGrid.InPlaceIsSafe` | vllm/_xpu_ops.py:1105-1107 | writing outputs over `delta` and `z` and states into the shared cache, a finished program has left exactly the outputs and gated outputs of its own inputs and the state after each of its chunks |
| `ScanGrid.EveryProgramFinishes` | vllm/_xpu_ops.py:812-915 | a program that gets enough turns finishes, whatever the others do |
| `ScanLaunch.PackedRowsDisjoint` | vllm/_xpu_ops.py:760-768 | packed sequences: from non-decreasing `query_start_loc`, programs of different sequences or dimensions share no cell |
| `ScanLaunch.BatchRowsDisjoint` | vllm/_xpu_ops.py:769-776 | batched sequences: programs of different sequences or dimensions share no cell |
| `ScanLaunch.LaunchDisjoint` | vllm/_xpu_ops.py:760-788 | all programs of a launch are disjoint, in the buffers and in the state cache |
| `ScanLaunch.FairCompletes` | vllm/_xpu_ops.py:812-915 | a launch in which every program gets enough turns, in any order, completes |
| `ScanLaunch.PlanIsStores` | vllm/_xpu_ops.py:790-807 | the slots that the kernel computes from the metadata are the blocks from the first scheduled token's on |
| `ScanLaunch.LaunchServes` | vllm/_xpu_ops.py:790-904 | whatever the interleaving, after a launch the cache holds for every request of the batch and every dimension what it promises for the longer prefix |
| `ScanLaunch.LaunchOutputs` | vllm/_xpu_ops.py:824-876 | ... and the buffers hold that stretch of one uninterrupted scan |
| `ScanLaunch.LaunchSpares` | vllm/_xpu_ops.py:880-904 | for a request outside the batch the cache holds what it held |
| `ScanRuns.KernelKeeps` | vllm/_xpu_ops.py:790-904 | a launch of any batch, in any interleaving, keeps what the cache holds for all requests; that no request stores to another's slots follows from what they share |
| `ScanRuns.HitKeeps` | vllm/v1/attention/backends/mamba_attn.py:414-456 | so does a request that takes over the completed blocks of another |
| `ScanRuns.EveryRun` | vllm/_xpu_ops.py:708-915 | in every run of launches, prefix hits and new requests the cache holds, for every request and dimension, the state after each completed block and the current state |
| `ScanRuns.EveryLaunch` | vllm/_xpu_ops.py:824-904 | in every run every launch puts out, for every request of its batch, that stretch of one scan of all its tokens from the zero state |
| `ScanRuns.EveryOutput` | vllm/_xpu_ops.py:824-904 | in every run the cell of every new token holds its `C` applied to the inputs of all tokens of its request so far, each decayed since, plus the skip term; and its gate |
| `ScanRuns.LaunchIsStep` | vllm/_xpu_ops.py:708-915 | no launch gets stuck: whatever requests it is given, with turns enough for every program it is a step of the run |
| `ScanRuns.RunExists` | vllm/_xpu_ops.py:708-915 | there is a run with a launch that serves a request |
| `ScanDirect.DirectDisjointIff` | vllm/_xpu_ops.py:716-722 | without prefix caching: the programs of a launch keep out of each other's way if and only if the sequences that are not on the null block have different slots |
| `ScanDirect.DirectLaunch` | vllm/_xpu_ops.py:708-915 | whatever the interleaving, every such sequence gets, in every dimension, the outputs of one scan from the state of its slot or from zeros, and its slot its last state; the other slots are as they were |
| `ScanDirect.DirectContinues` | vllm/_xpu_ops.py:746-758 | a sequence that goes on where its slot stands gets that stretch of one scan of all its tokens, and its slot then holds the state after them |
| `ScanDirect.DirectFinishes` | vllm/_xpu_ops.py:812-915 | such a launch completes when every program gets enough turns |
| `Quantize.SymmetricNeverClamps` | vllm/_xpu_ops.py:937-950 | in symmetric mode the clamp changes nothing |
| `Quantize.ClampedIsNear` | vllm/_xpu_ops.py:943-950 | in asymmetric mode the clamped value is within one half of the exact one |
| `Quantize.ErrorBound` | vllm/_xpu_ops.py:933-950 | dequantizing any element of any row errs by at most half of the row's extent over `2^bits - 1` (symmetric: its greatest magnitude over `2^(bits-1) - 1`), or half of 1e-5; in both modes, from 2 bits on |
| `Quantize.EightBits` | vllm/_xpu_ops.py:933-943 | for 8 bits those are 255 and 127 steps |
| `Quantize.RangeIsUsed` | vllm/_xpu_ops.py:937-950 | in symmetric mode, above the floor, an element of greatest magnitude gets `2^(bits-1) - 1` with its sign |
| `Quantize.SymmetricRange` | vllm/_xpu_ops.py:933-950 | in symmetric mode every value lies between `1 - 2^(bits-1)` and `2^(bits-1) - 1` |
| `Quantize.AsymmetricRangeIsUsed` | vllm/_xpu_ops.py:943-950 | in asymmetric mode the extremes get the ends of the range, up to one step |
| `Quantize.ZeroPointInRange` | vllm/_xpu_ops.py:943-944 | a row with values on both sides of zero has its zero point in the quantized range |
| `Quantize.ZeroPointFits` | vllm/_xpu_ops.py:943-944 | the cast and the negation fit 32 bits if and only if the row's minimum in steps of the scale is below 2^31 - 1/2 in magnitude, or on that bound and rounded towards zero |
| `Quantize.ZeroPointFitsToEven` | vllm/_xpu_ops.py:943-944 | with ties to even: if and only if it is below 2^31 - 1/2 in magnitude |
| `Quantize.HalfEvenRounds` | vllm/_xpu_ops.py:946-947 | ties to even is a rounding of the assumed kind |
| `Quantize.ZeroPointOverflows` | vllm/_xpu_ops.py:943-944 | a row for which the cast fits and its negation does not |
| `Quantize.ZeroPointTooLarge` | vllm/_xpu_ops.py:943-944 | a constant row for which it does not |
| `BlockStore.EventKeeps` | csrc/fs_io.cpp:40-113 | every step of a store or a load, every failure, every early read or write, and a crash keep the invariant |
| `BlockStore.RunKeeps` | csrc/fs_io.cpp:40-113 | so does every run |
| `BlockStore.EveryRunIsSafe` | csrc/fs_io.cpp:40-113 | starting with full-length destinations, early reads included: a destination that exists holds one store's complete buffer, and a successful load got one store's complete buffer |
| `BlockStore.BlocksStay` | csrc/fs_io.cpp:102-107 | as long as no read returns early a block that exists is never removed, no load is about to unlink, and a successful store left its destination there |
| `BlockStore.FirstBlockStays` | csrc/fs_io.cpp:42-44 | the first block stays: once a destination exists, no store for it is past its check and no later check fails, its file and its bytes stay the same, and every later store reports success and changes nothing |
| `BlockStore.LateStoreReplaces` | csrc/fs_io.cpp:73-77 | a store that is past its check replaces the block with its own buffer |
| `BlockStore.BlindStoreReplaces` | csrc/fs_io.cpp:42-79 | so does one whose check fails |
| `BlockStore.StoreReports` | csrc/fs_io.cpp:46-77 | a call that fails in a store decides what the store reports, whatever the clean-up does, and no destination changes |
| `BlockStore.LoadReports` | csrc/fs_io.cpp:91-101 | a call that fails in a load is reported and leaves every file alone |
| `BlockStore.EveryRunIsTidy` | csrc/fs_io.cpp:58-77 | without crashes and failing clean-ups no temporary file is left behind |
| `BlockStore.OneStore` | csrc/fs_io.cpp:40-80 | a store that nobody disturbs succeeds: its buffer appears under the destination and nothing else changes |
| `BlockStore.OneLoad` | csrc/fs_io.cpp:89-113 | a load that nobody disturbs gets the block that is there |
| `BlockStore.StoreThenLoad` | csrc/fs_io.cpp:40-113 | the round trip: a load gets what a store has put there |
| `BlockStore.EarlyReadUnlinks` | csrc/fs_io.cpp:95-107 | after the first read that returns early, the load's next step removes a complete block |
| `BlockStore.ShortFileRace` | csrc/fs_io.cpp:102-107 | from any state with a short destination there is a run in which a load unlinks a complete block |
| `BatchLoad.Buffers.Acquire` | csrc/fs_io.cpp:139-150 | all buffers are acquired once, or none stays acquired; the latter exactly when one of them is refused |
| `BatchLoad.Buffers.ReleaseAll` | csrc/fs_io.cpp:152-156 | each acquired buffer is released once |
| `BatchLoad.LoadBlock` | csrc/fs_io.cpp:87-113 | the error number of each outcome and what it leaves in the buffer |
| `BatchLoad.LoadAll` | csrc/fs_io.cpp:297-313 | the loop stops at the first block that is not read in full |
| `BatchLoad.DistinctHold` | csrc/fs_io.cpp:297-335 | with a buffer for every block, each buffer of the prefix holds its own block |
| `BatchLoad.SharedHold` | csrc/fs_io.cpp:297-335 | in general it does if and only if the last block loaded into it is the same |
| `BatchLoad.Load` | csrc/fs_io.cpp:272-338 | `num_succeeded` is the length of the prefix of blocks read in full, each buffer holds the last block that went to it, buffers that no attempted block goes to are untouched, and on every path each buffer is released as often as acquired; nothing is loaded exactly when the lengths differ or a buffer is refused |
| `BuildLog.ReadTargets` | tools/report_build_time_ninja.py:104-148 | one target per command, in the order of their first lines, each with the times of its first line and the names of all its well-formed lines in order: of the whole log with `show_all`, else of the last build; the error cases exactly |
| `BuildLog.RecordsAreLines` | tools/report_build_time_ninja.py:111-122 | every well-formed line gives one record, in order, and no other line gives any |
| `BuildLog.TargetsAreLines` | tools/report_build_time_ninja.py:123-148 | the lines behind the targets: all from some line on, which agree with each other, and that line contradicts one of the build before it |
| `BuildLog.LineIsReported` | tools/report_build_time_ninja.py:112-148 | with `show_all` every well-formed line's name is in a target with the times of a line of its command that is not after it |
| `BuildLog.ReadRecord` | tools/report_build_time_ninja.py:123-147 | one line: the two tests decide whether it belongs to the same build, and the dictionary follows |
| `BuildLog.SameBuild` | tools/report_build_time_ninja.py:123-143 | comparing with the last end and with the first record of the hash is the same as comparing with every record of the build |
| `BuildLog.LastBuildAgrees` | tools/report_build_time_ninja.py:123-143 | in the suffix kept end times never decrease and records of one hash share their times |
| `BuildLog.WholeLog` | tools/report_build_time_ninja.py:123-143 | the whole log is kept if and only if all its records agree |
| `BuildLog.CutIsNeeded` | tools/report_build_time_ninja.py:123-143 | the first record kept disagrees with one of the build right before it |
| `BuildLog.GroupShares` | tools/report_build_time_ninja.py:132-147 | all records of a group share hash, start and end with their target |
| `BuildLog.NothingLost` | tools/report_build_time_ninja.py:144-148 | the groups hold as many outputs as there are records |
| `BuildLog.Hashes` | tools/report_build_time_ninja.py:144-148 | the groups are one per command hash that occurs, without repetition |
| `BuildSweep.Sweep` | tools/report_build_time_ninja.py:226-256 | each weighted time is the sum, over the ticks in which the step runs, of one over the number of running steps; `KeyError` if and only if some step ends before it starts; otherwise the running table ends empty and the total is the sum |
| `BuildSweep.Collect` | tools/report_build_time_ninja.py:207-219 | the list of events, the least start and the greatest end |
| `BuildSweep.Summarize` | tools/report_build_time_ninja.py:207-256 | for every order the sort may leave: the total is the measure of the union of the intervals, at most the length, and equal to it if and only if there is no idle tick; each weighted time lies between zero and the duration |
| `BuildSweep.Advance` | tools/report_build_time_ninja.py:239-243 | between two events weighted time grows by the elapsed time over the number of tasks in the table |
| `BuildSweep.GapIsSteady` | tools/report_build_time_ninja.py:236-254 | between two events the tasks in the table are exactly the running ones |
| `BuildSweep.StopFindsStart` | tools/report_build_time_ninja.py:248-254 | a stop finds its task in the table exactly when the step is ordered |
| `BuildSweep.SortedIsSchedule` | tools/report_build_time_ninja.py:223-224 | any sorted permutation of the listed events has each start and stop once |
| `BuildSweep.WeightsSumToBusy` | tools/report_build_time_ninja.py:235-256 | the weighted times sum to the measure of the union of the intervals |
| `BuildSweep.TotalIsBusyTime` | tools/report_build_time_ninja.py:220-256 | ... which is the length if and only if there is no idle gap |
| `BuildSweep.WeightedAtMostDuration` | tools/report_build_time_ninja.py:84-89 | a weighted time is at least zero and at most the duration |
| `BadWords.NoBadWords.Call` | vllm/logits_process.py:56-87 | a logit becomes minus infinity if its token would complete a bad word and is unchanged otherwise, with a fresh or a cached bias; with logits of another length the error cases and the broadcast exactly |
| `BadWords.NoBadWords.InitWordBias` | vllm/logits_process.py:89-104 | the cached bias bans exactly the words of one token; none is cached if a token id is out of range |
| `BadWords.NoBadWords.SingleBias` | vllm/logits_process.py:97-104 | minus infinity exactly at the words of one token |
| `BadWords.NoBadWords.LastTokenBias` | vllm/logits_process.py:64-83 | the second bias bans exactly the tokens that complete a longer word |
| `BadWords.NoBadWords.CheckTokenIds` | vllm/logits_process.py:106-121 | lists the token ids out of range, in order |
| `BadWords.InvalidIsOutside` | vllm/logits_process.py:106-121 | the list is empty if and only if all token ids are in the vocabulary |
| `BadWords.InvalidCounts` | vllm/logits_process.py:106-121 | each id out of range is listed as often as it occurs, and no other id |
| `BadWords.CleanGeneration` | vllm/logits_process.py:56-87 | a generation contains no bad word if and only if no token was forbidden when it was generated |
| `BadWords.Generate` | vllm/logits_process.py:56-104 | in every generation that appends only tokens above minus infinity no non-empty bad word ever appears; it stops only at an error, at a logit that was minus infinity already, or at a token that would complete a bad word |
| `SpinWait.StepKeeps` | csrc/spinloop.cpp:93-152 | every store inside or outside the monitored line, trigger, tick and step of the waiter keeps the invariant |
| `SpinWait.EveryRun` | csrc/spinloop.cpp:93-152 | in every interleaving and wherever the buffer starts: at most 16 iterations begin after the deadline, across wrap-around of the counter; true is returned only after a true callback, a timeout only after the deadline of a timeout above a nanosecond and in every sixteenth iteration, a failure only if the callback or the clock fails; a wait can always end |
| `SpinWait.NeverMissesIff` | csrc/spinloop.cpp:91-152 | no run sits in the wait with a true callback and an untouched monitor if and only if the wait is not used or no store outside the monitored line can make the callback true |
| `SpinWait.UnheardIsMissed` | csrc/spinloop.cpp:128-152 | otherwise such a run is given |
| `SpinWait.InLineIff` | csrc/spinloop.cpp:91-91 | the condition holds for every callback if and only if all cells that it reads lie in one line |
| `SpinWait.WriterIff` | vllm/distributed/device_communicators/shm_broadcast.py:655-662 | for the callback of a writer it holds if and only if the written flag and all read flags lie in one line |
| `SpinWait.ChunkSeven` | vllm/distributed/device_communicators/shm_broadcast.py:308-385 | eight readers, chunk 7: the buffer is short enough for the wait, no read flag lies in the monitored line, and a run misses the last reader |
| `SpinWait.ReaderNeverMisses` | vllm/distributed/device_communicators/shm_broadcast.py:773-784 | a reader never misses its block wherever the metadata starts, because its read flag is cleared only while the block is not marked as written |
| `SpinWait.DeadlineBound` | csrc/spinloop.cpp:108-126 | once a timeout above a nanosecond has passed the waiter returns within 17 laps whatever the writer does |
| `SpinWait.NoWait` | csrc/spinloop.cpp:91-91 | a buffer longer than a line, or a processor without the instruction, never waits |
| `SpinWait.ReadyBound` | csrc/spinloop.cpp:128-152 | once the callback is true of the cells and stays so, the waiter returns within two callbacks, and without sitting out a wait if no store outside the line can make it true |
| `PromptQueue.Fill` | benchmarks/benchmark_hidden_state_extraction.py:239-244 | the prompts in order, then one sentinel per client |
| `PromptQueue.StepKeeps` | benchmarks/benchmark_hidden_state_extraction.py:142-176 | every step of a client keeps each taken prompt in exactly one place and as many clients gone as sentinels taken |
| `PromptQueue.NobodyLeavesEarly` | benchmarks/benchmark_hidden_state_extraction.py:144-148 | when a client has left, no prompt is in the queue |
| `PromptQueue.EveryPromptAnswered` | benchmarks/benchmark_hidden_state_extraction.py:142-176 | when all have left, every prompt has exactly one row, its own, the queue is empty and every `task_done` is in |
| `PromptQueue.NoDeadlock` | benchmarks/benchmark_hidden_state_extraction.py:142-176 | until all have left some client can go on |
| `PromptQueue.StepsDecrease` | benchmarks/benchmark_hidden_state_extraction.py:142-176 | every step decreases a measure |
| `PromptQueue.EveryRunAnswers` | benchmarks/benchmark_hidden_state_extraction.py:239-256 | every run ends within three steps per item and a run that cannot go on has answered every prompt exactly once, each with its own row |
| `PromptQueue.SomeRunAnswers` | benchmarks/benchmark_hidden_state_extraction.py:239-256 | there is a run that ends with all clients gone |
| `Staggered.GenerateStaggered` | benchmarks/benchmark_exl3.py:145-180 | every request is admitted exactly once, never before request 0 has reached its threshold, and all their tokens arrive; the engine is never stepped idle, and the loop ends; the error cases exactly |
| `Staggered.Admit` | benchmarks/benchmark_exl3.py:160-165 | admits exactly the requests whose thresholds are reached and that have not arrived |
| `Staggered.Absorb` | benchmarks/benchmark_exl3.py:166-174 | the outputs of a step keep the four dictionaries consistent with the engine |
| `Staggered.NeverIdle` | benchmarks/benchmark_exl3.py:159-167 | with requests left to complete the engine has something to do after admission |
| `PagedGather.Gather` | vllm/_custom_ops.py:162-184 | all requests' rows are in place and the rest of `dst` is as before, if and only if every page can be read and every copy fits or is broadcast from one row; with non-decreasing offsets `cu[n] - cu[0]` rows are copied; otherwise the requests before the failing one are, and why it failed; a request without a block table row fails if it has tokens |
| `PagedGather.PassesWhen` | vllm/_custom_ops.py:175-184 | a request passes when each of its tokens has a block in the cache and there are rows for all so far |
| `PagedGather.RoomForAll` | vllm/_custom_ops.py:175-184 | a destination with a row for everything accepts every request |
| `PagedGather.CopyPages` | vllm/_custom_ops.py:177-183 | exactly the request's rows are overwritten, with its tokens |
| `PagedGather.SlotIsRow` | vllm/_custom_ops.py:178-183 | the slot computed for a token holds the row found through its block table |
| `PagedGather.GatheredAt` | vllm/_custom_ops.py:162-184 | for non-decreasing offsets token `starts[i] + j` of request `i` is at row `cu[i] - cu[0] + j` |
| `PagedGather.RowStartIsOffset` | vllm/_custom_ops.py:172-184 | the rows of request `i` start at `cu[i] - cu[0]` if and only if the offsets before it do not decrease |
| `PagedGather.RowHasOwner` | vllm/_custom_ops.py:172-184 | every row belongs to exactly one request, wherever the empty ones are |

## Left out

- Cumem.Allocator.Malloc: requires that the two chunk additions do not wrap (what happens when they do is in `ChunkPlan.PlanChunks`) and that rollback calls succeed; the granularity that the driver reports is fixed; failing Python callbacks and failing host `malloc` are not modelled.
- Cumem.Allocator.Wake: at a lost address that is reserved again, by us or by another allocator, it is not followed further (`Transitions.ForeignRangeBreaks`). A failing `ensure_context` inside `create_and_map` is not modelled apart; it acts like a pending error.
- Cumem.Allocator.Free: the leftover of a failed request is required to reach nothing in use again (nobody has reserved its range, and no cell holds a live handle), here and in Sleep; what happens otherwise to the allocation that it reaches is in `Transitions.ReusedRangeBreaks` and `Transitions.LiveCellBreaks`.
- Cumem.Allocator.Sleep: the same for a leftover.
- Transitions.VacantIsBarren: a range that another allocator has reserved is not barren (`Transitions.ForeignRangeBreaks`).
- SleepMode.Execute: the same two cases as for SleepMode.Run are left out.
- SleepMode.Run: stops before a wake that would find an earlier error pending, because that wake loses a handle (`Cumem.Allocator.Wake`, stage `Leaked`), and before a command on an entry with nothing behind it that would reach something in use again, because that command breaks the invariant, or a store to one.
- SleepMode.WakeUp: ends, like SleepMode.SleepAll and SleepMode.SleepThenWake, before an entry that would reach something in use again; setting access and clearing are taken to succeed.
- SleepMode.SleepAll: the offload-policy warning, logging and garbage collection are not modelled; `discard`, `use_memory_pool` and usage statistics are left out.
- ScanProgram.ScanPlain: floating-point rounding, dtype casts and the padded lanes of `BLOCK_DSTATE` are not modelled; the inner stride is one.
- ScanGrid.EveryInterleaving: the load or store of one state vector is a single step.
- ScanDirect.DirectLaunch: the layout of the state cache is the same as in ScanLaunch.LaunchServes.
- ScanLaunch.LaunchServes: the state cache has one vector per slot and dimension, row after row; a request of the batch has at least one new token or the null block.
- ScanChunks.ComputeChunks: the chunk size of the metadata is taken to be the block size of the cache.
- Quantize.ErrorBound: the cast of the scale to the input dtype and the 32-bit cast of the zero point are not modelled (see `Quantize.ZeroPointFits`).
- BlockStore.EveryRunIsSafe: crashes of the process, not of the machine; without `fsync` the source promises nothing for the latter. `ensure_parent_dirs` is one step that may fail.
- BatchLoad.Load: extracting the path strings is not modelled; a failing read leaves the buffer alone; `batch_store_block` and `batch_lookup` have the same shape with fewer cases.
- BuildLog.ReadTargets: splitting a line at tabs and parsing the numbers are part of the input.
- BuildSweep.Summarize: the sum of CPU times, grouping by extension and printing would only add easy members; floating-point error of the sums is not modelled.
- BadWords.NoBadWords.Call: positive infinity and NaN are not modelled.
- BadWords.Generate: one vocabulary size for the whole generation.
- `get_bad_words_logits_processors`: the tokenizer is not part of this model.
- SpinWait.ReaderNeverMisses: the processes of a queue are not modelled together; that a reader's flag is cleared only before its block is marked is a condition on the run.
- SpinWait.EveryRun: `clock_gettime` is monotonic; argument parsing and reference counts are left out.
- Staggered.GenerateStaggered: the wall-clock offsets stored with arrivals are not modelled.
- PagedGather.Gather: negative starts and block ids are not modelled.
- The CUDA single-handle path of the allocator, the Python C-API, reference counts and the GIL.
- Kernels behind `vllm/_custom_ops.py` and `vllm/_aiter_ops.py`, build scripts, other benchmarks and HTTP clients.
