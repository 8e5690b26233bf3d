# A model of the Ecsact–WebAssembly host bridge

The repository lets guests compiled to WebAssembly implement Ecsact systems. Its host side is small but stateful, and
this project models that state: the per-call arena behind the integer handles a guest holds, scatter/gather reads and
writes over linear memory with the table of virtual files, the two log channels and the splitter that turns them into
log lines, and the pool of module instances that threads take their guests from. Each part is stated twice where the
source changes state step by step: as a class whose methods follow the code, and as the function its methods are proved
to compute. The results about whole runs are proved about those functions.

| file | what it holds |
|---|---|
| `Wrappers.dfy`, `Bytes.dfy` | missing values; bytes, machine integers and little-endian words |
| `CallMemory.dfy` | the call arena: allocation, reading, debug type tags, the layout the callbacks rely on |
| `SystemExecution.dfy` | the execution-context callbacks, and the same guest run directly on host contexts |
| `ArenaLifetime.dfy` | when the arena is installed and taken down |
| `LineSplitter.dfy`, `LogChannels.dfy` | the splitting loop; the two channels and their drain |
| `VirtualFiles.dfy`, `Wasi.dfy` | the file table; `fd_write`, `fd_read`, `fd_close`, `fd_fdstat_get` |
| `ReadStream.dfy`, `ReadSessions.dfy` | what one `fd_read` delivers; what a run of reads and closes delivers |
| `ChannelRuns.dfy`, `ConcurrentLogs.dfy` | single-threaded runs of writes and drains; threads and drains interleaved |
| `InstancePool.dfy`, `PoolExclusivity.dfy`, `PoolBalance.dfy` | the pool as an interleaved system; exclusivity and balance |
| `PoolDispatch.dfy`, `SharedInstances.dfy` | when a call finds its system; the runs in which it does not |
| `ModuleInstance.dfy`, `Releases.dfy` | creating, moving and destroying instances; runs of them |
| `Loader.dfy`, `HostGlobals.dfy` | which export serves which system; the load loop and the globals it fills |

## What the proofs found

- **The line splitter does not split lines.** The loop starts at index 1 even on the first line, and hands the position of
  the next newline to `substr` as a length. `LinesClosedForm` gives what it yields for every text. It equals the intended
  non-empty, newline-free pieces exactly when the text is empty or its only newline is its first character
  (`SplitMeetsIntentIff`); `"a\nb"` yields `"\n"` and `"b"` (`SplitMissesIntent`).
- **A system call holds at most 256 contexts.** The arena's capacity is never looked at. Handles are transparent for every
  guest that makes at most 255 `parent` and `other` calls, and the 256th writes past the 4096 bytes
  (`HandleTransparency`, both directions). A guest here is any function of what it has caused and been told, and every
  sequence of import calls is one guest's (`ScriptMakesCalls`); a chain of `parent` calls reaches depth 255 and no further
  (`ArenaBoundIsExact`).
- **Instances are exclusive exactly while no more threads take tickets than the pool has instances**
  (`ExclusiveIffFewTakers`): a thread never takes two tickets from one filling of the pool, and the first surplus ticket
  already doubles an instance.
- **Naming all registered systems in every load does not make dispatch total.** Once two threads share an instance, the
  one still running keeps it alive across a reload, and the other then calls a newly registered system on it
  (`SharedInstanceMissesSystem`, on the pool of 100: 2 threads after a load that failed at its second instance, or 101
  threads with no failed load). Every lookup of every run succeeds exactly when the threads do not outnumber the smallest
  filling of the pool (`DispatchTotalIff`): at most 100 if no load fails half-way, one if any may (`DispatchAtPoolSize`).
  For a single run, the lookup fails exactly when a thread returns to an instance of an earlier filling, kept alive by
  another thread's call, for a system that the filling's load did not name and a later one did (`DispatchServesIff`).
- **Registering an open path again loses its file.** `OpenFilesConserved` counts these: opens equal closes plus files
  still in the table plus files orphaned this way.
- **`fd_read` rereads its iovec array.** It delivers the file's next bytes whenever the buffers are disjoint from each
  other, from the 8-byte result slot and from the iovec entries after their own (`ReadDelivers`); a buffer may lie on its
  own entry or on earlier ones. Without that it need not: a first buffer on the second entry makes a read of 12 bytes
  deliver 8 (`OverlappingReadFallsShort`).

## What is assumed

- The host is 64-bit and little-endian. The code stores totals as a host `size_t`, so a result slot takes 8 bytes where
  WASI `wasi_snapshot_preview1` has a 4-byte `size`; the model follows the code. The source's assertions are checked ones.
- `ecsact_si_wasm_reset` and `ecsact_si_wasm_load` do not overlap a thread inside `ensure_minst`, which reads the pool
  without a lock. They may overlap threads that run guest calls. A load is one step of the interleaved pool.
- The runtime calls only systems that have been registered. That every load names all systems registered so far is a
  hypothesis of the dispatch results alone (`Cumulative`).
- The Ecsact runtime is any function of the calls made so far, and so is what it writes to guest memory. `generate` may
  find any contents in linear memory.
- Host files open and do not change. `fread` delivers what is asked for or what remains.
- While a thread is in `fd_write`, no other thread writes that instance's linear memory.
- A drain visits the info channel before the error channel; the enumeration that fixes this order is in `wasm.h`, which
  is not part of this model.
- What WebAssembly answers (whether a module compiles, instantiates or traps, what it imports and exports) is arbitrary.

## Model

| member | source | states |
|---|---|---|
| CallMemory.CallMemInfo.Set | ecsact/si/wasmer/detail/mem_stack.cc:46-59 | installing needs the thread to have no arena, and leaves an empty one over the given buffer |
| CallMemory.CallMemInfo.Clear | ecsact/si/wasmer/detail/mem_stack.cc:50-53 | the null call takes the arena down whatever was there |
| CallMemory.CallMemInfo.ReadPointer | ecsact/si/wasmer/detail/mem_stack.cc:74-82 | a read that passes the offset and type assertions yields the word at that offset |
| CallMemory.CallMemInfo.AllocPointer | ecsact/si/wasmer/detail/mem_stack.hh:34-40 | a slot is reserved, tagged, and written through the read path; the arena is the one the specification gives |
| CallMemory.AllocPushes | ecsact/si/wasmer/detail/mem_stack.cc:61-72 | allocation followed by the write through the read path succeeds exactly when 8 bytes are left, and then pushes one word |
| CallMemory.ReadIff | ecsact/si/wasmer/detail/mem_stack.cc:74-82 | a read succeeds exactly for an allocated offset of the right type inside the buffer, and yields the 8 bytes there; which assertion fails otherwise |
| CallMemory.AllocRawIff | ecsact/si/wasmer/detail/mem_stack.cc:61-72 | an allocation fails exactly where the offset has a type already or is no positive `int32_t`, and else reserves its bytes at the present offset without asking for room |
| CallMemory.AllocPairExtendsLayout | ecsact/si/wasmer/detail/wasm_ecsact_system_execution.cc:32-41 | allocating a memory and a context keeps every earlier slot and extends the alternating layout by one pair, or runs out of the 4096 bytes exactly when 256 pairs are there |
| CallMemory.LayoutDecodes | ecsact/si/wasmer/detail/wasm_ecsact_system_execution.cc:15-41 | handles are 8 mod 16; the handle reads as its context, the slot 8 below and the slot at 0 as this instance's memory, with the type assertions holding |
| SystemExecution.HandleTransparency | ecsact/si/wasmer/detail/wasm_ecsact_system_execution.cc:73-292 | for every guest that passes only handles it was issued and every runtime: same host calls, same numbers, same contexts as the direct run if at most 255 handles were issued, and an access outside the arena otherwise |
| SystemExecution.ScriptMakesCalls | ecsact/si/wasmer/detail/wasm_ecsact_system_execution.cc:73-292 | every sequence of import calls, through any handles issued on the way, is what some guest makes |
| SystemExecution.ChainDescends | ecsact/si/wasmer/detail/wasm_ecsact_system_execution.cc:219-238 | in a chain of `parent` calls each one is about the context the one before was answered with |
| SystemExecution.ArenaBoundIsExact | ecsact/si/wasmer/detail/mem_stack.cc:67-69 | such a chain stays inside the arena if and only if it is at most 255 deep |
| SystemExecution.HandlesKeepMeaning | ecsact/si/wasmer/detail/wasm_ecsact_system_execution.cc:32-41 | a handle issued at any point stands for the same context over the same memory for the rest of the call |
| SystemExecution.CallbackEmits | ecsact/si/wasmer/detail/wasm_ecsact_system_execution.cc:73-292 | callback by callback, what the runtime is handed: the context behind each handle, every id, and every pointer in its own place, null exactly for 0 and else at the guest's offset into this instance's memory; and the number returned |
| SystemExecution.RunEmits | ecsact/si/wasmer/detail/wasm_ecsact_system_execution.cc:49-69 | the same of every import of a whole run |
| SystemExecution.IssuedHandleReadsAnswer | ecsact/si/wasmer/detail/wasm_ecsact_system_execution.cc:229-235 | the handle `parent` or `other` returns reads as the context the runtime answered with, and 8 below it as the instance's memory |
| SystemExecution.StartSimulates | ecsact/si/wasmer/detail/wasm.cc:96-102 | the two allocations of a system call establish the layout with the system's own context as handle 8 |
| SystemExecution.ParentSimulates | ecsact/si/wasmer/detail/wasm_ecsact_system_execution.cc:219-238 | `parent` stays in step with the direct run, or faults exactly when 256 contexts are held |
| SystemExecution.OtherSimulates | ecsact/si/wasmer/detail/wasm_ecsact_system_execution.cc:257-277 | the same for `other`, which asks the runtime before it allocates |
| SystemExecution.OtherCallSimulates | ecsact/si/wasmer/detail/wasm_ecsact_system_execution.cc:73-217 | every callback that issues no handle succeeds and makes the direct run's host call |
| SystemExecution.ContextsGrow | ecsact/si/wasmer/detail/wasm_ecsact_system_execution.cc:219-277 | contexts and handle counts only grow during a call |
| SystemExecution.Bridge.Host | ecsact/si/wasmer/detail/wasm_ecsact_system_execution.cc:82-85 | every call into the runtime is recorded in order and answered by it |
| SystemExecution.Bridge.Decode | ecsact/si/wasmer/detail/wasm_ecsact_system_execution.cc:15-41 | a callback's handle gives the context behind it and the memory 8 below it |
| SystemExecution.Bridge.ParentOf | ecsact/si/wasmer/detail/wasm_ecsact_system_execution.cc:219-238 | the callback over the thread's arena leaves the arena, trace and handle of its specification |
| SystemExecution.Bridge.OtherOf | ecsact/si/wasmer/detail/wasm_ecsact_system_execution.cc:257-277 | the same for `other` |
| SystemExecution.Bridge.GenerateFrom | ecsact/si/wasmer/detail/wasm_ecsact_system_execution.cc:184-217 | the gather loop passes on one host pointer per guest pointer of the list, null for 0 |
| SystemExecution.Bridge.PassOn | ecsact/si/wasmer/detail/wasm_ecsact_system_execution.cc:73-292 | action, add, remove, get, update, same and entity decode their arguments and make one host call |
| SystemExecution.Bridge.Import | ecsact/si/wasmer/detail/wasm_ecsact_system_execution.cc:73-292 | every modelled import does what its specification says |
| SystemExecution.Bridge.SystemImpl | ecsact/si/wasmer/detail/wasm.cc:96-102 | a whole system call on an empty thread makes exactly the direct run's host calls and leaves no arena behind |
| ArenaLifetime.ArenaOnlyDuringCalls | ecsact/si/wasmer/detail/wasm.cc:251-260 | over any sequence of system calls and loads, traps and early returns included, the "not already set" assertion holds and no arena is left behind if and only if no guest makes its thread run another guest |
| ArenaLifetime.PresentThroughout | ecsact/si/wasmer/detail/wasm.cc:96-102 | from the start of a guest's part of a call to its end the arena is present |
| ArenaLifetime.Perform | ecsact/si/wasmer/detail/mem_stack.cc:46-59 | the same actions on the thread's arena leave it present exactly as specified, and an arena that is present is the same one afterwards |
| LineSplitter.SplitLines | ecsact/si/wasmer/detail/logger.cc:69-84 | the loop terminates and every `substr` starts inside the text; it yields `Lines` if and only if no newline at or after index 1 lies at or past the largest `int` |
| LineSplitter.LinesClosedForm | ecsact/si/wasmer/detail/logger.cc:69-84 | line k is the text from just after cut point k, as long as the next newline's position says but cut off at the end of the text, and never empty; the last line runs to the end and only if empty is dropped |
| LineSplitter.Turn | ecsact/si/wasmer/detail/logger.cc:71-76 | one turn moves to the next newline or to the end, leaves one message less, and finds the first newline the index cannot hold |
| LineSplitter.SplittableMeans | ecsact/si/wasmer/detail/logger.cc:69-73 | the index can hold a text's newlines exactly when every one at or after index 1 lies before 2147483647 |
| LineSplitter.NewlinesAreStops | ecsact/si/wasmer/detail/logger.cc:71 | every newline at or after an index is among the cut points from there |
| LineSplitter.PiecesHoldNoNewline | ecsact/si/wasmer/detail/logger.hh:36-37 | the evident intent: the pieces between newlines are non-empty and hold no newline |
| LineSplitter.SplitMeetsIntentIff | ecsact/si/wasmer/detail/logger.cc:64-85 | the loop yields those pieces if and only if the text is empty or its only newline is its first character |
| LineSplitter.SplitMissesIntent | ecsact/si/wasmer/detail/logger.cc:72 | a text of three characters on which a byte is lost and a newline kept |
| LogChannels.Logger.PushLogLine | ecsact/si/wasmer/detail/logger.cc:33-38 | an entry is appended and nothing else changes |
| LogChannels.Logger.PushStdio | ecsact/si/wasmer/detail/logger.cc:49-55 | the text goes to the end of its own channel and the other one is unchanged |
| LogChannels.Logger.ConsumeStdio | ecsact/si/wasmer/detail/logger.cc:57-90 | a drain yields the lines of the info text as info entries in order, then those of the error text as error entries, and no others, and empties both channels, if and only if the splitter's index can hold their newlines |
| LogChannels.Logger.ConsumeLogs | ecsact/si/wasmer/detail/wasm.cc:325-349 | on the same condition, the consumer receives the entries and then the drained lines, and nothing stays behind |
| Wasi.FdWrite | ecsact/si/wasmer/detail/wasi.cc:38-84 | a write to 1 extends the info channel by the positive-length buffers in order and leaves the error channel alone, a write to 2 the reverse; both store the total as 8 bytes and change no other memory; any other descriptor returns 1 and changes nothing |
| Wasi.PushEntry | ecsact/si/wasmer/detail/wasi.cc:64-71 | one iovec entry pushes its buffer, or nothing if its length is not positive |
| Wasi.WrittenSlices | ecsact/si/wasmer/detail/wasi.cc:63-72 | in what a call writes, each entry's bytes lie at the sum of the positive lengths before it, and there is nothing else |
| Wasi.SegmentMeans | ecsact/si/wasmer/detail/wasi.hh:10-20 | an entry's bytes are those of the buffer its first word points to, as many as its second word says if that is positive |
| Wasi.FdRead | ecsact/si/wasmer/detail/wasi.cc:86-123 | memory and file table after the call are those of the loop that rereads every entry; an unregistered descriptor throws and changes nothing |
| Wasi.FillBuffers | ecsact/si/wasmer/detail/wasi.cc:106-117 | the loop and the store of its total, in place |
| Wasi.FdClose | ecsact/si/wasmer/detail/wasi.cc:125-143 | the standard descriptors are refused with 1, a registered one is closed in the table, and an unregistered one throws and changes nothing |
| Wasi.RightsAgreeWithBehaviour | ecsact/si/wasmer/detail/wasi.cc:183-245 | in every reachable table `fd_fdstat_get` succeeds exactly for 1, 2 and registered descriptors; it reports the write right exactly where `fd_write` accepts and the read right exactly where `fd_read` finds a file |
| Wasi.RightsBits | ecsact/si/wasmer/detail/wasi.hh:121-168 | the rights words as bits: which of them hold the read and the write right |
| Wasi.StatusOf | ecsact/si/wasmer/detail/wasi.cc:188-234 | the whole status of every descriptor in every reachable table, in literal bits |
| Bytes.Int32Bytes | ecsact/si/wasmer/detail/wasi.hh:10-20 | a guest `int32_t` by its four bytes, lowest first, and its sign |
| Bytes.Int32RoundTrip | ecsact/si/wasmer/detail/wasi.hh:10-20 | every `int32_t` reads back from the bytes it is stored as |
| Bytes.WordBytes | ecsact/si/wasmer/detail/wasi.cc:55 | a host `size_t` or pointer by its eight bytes, lowest first |
| Bytes.LoadStoreWord | ecsact/si/wasmer/detail/mem_stack.hh:34-40 | a stored word reads back, and words beside it keep their value |
| ReadStream.LoopFills | ecsact/si/wasmer/detail/wasi.cc:108-115 | with buffers apart from the iovec entries after theirs, rereading finds the request as it was first made, and every entry stays defined |
| ReadStream.FillFrame | ecsact/si/wasmer/detail/wasi.cc:111-114 | memory in no buffer keeps its value throughout the loop |
| ReadStream.FillShares | ecsact/si/wasmer/detail/wasi.cc:111-114 | every buffer ends up with its own stretch of the file, whatever later entries do |
| ReadStream.ReadFrame | ecsact/si/wasmer/detail/wasi.cc:86-123 | memory outside the buffers and the result slot is unchanged by the call |
| ReadStream.ReadDelivers | ecsact/si/wasmer/detail/wasi.cc:86-123 | one call delivers the file's next bytes in iovec order, stores their number, advances the file by it, and changes nothing else |
| ReadStream.OverlappingReadFallsShort | ecsact/si/wasmer/detail/wasi.cc:108-115 | an input whose first buffer lies on the second iovec entry: 12 bytes asked for and available, 8 delivered |
| ReadSessions.ReadStaysInStep | ecsact/si/wasmer/detail/wasi.cc:86-123 | a read keeps the guest's copy a prefix of the file with the host's position at its end |
| ReadSessions.ReceivedIsPrefix | ecsact/si/wasmer/detail/wasi.cc:86-143 | over any run of reads and closes, among calls on other descriptors, what was received since the last close is the file's prefix of length min(size, sum of positive lengths) |
| ChannelRuns.OutputsFromSections | ecsact/si/wasmer/detail/logger.cc:57-90 | what a run's drains deliver is determined by the bytes per channel between drains |
| ChannelRuns.ChunkingInvariance | ecsact/si/wasmer/detail/wasi.cc:63-72 | two runs with the same bytes per channel between drains produce the same entries in the same order, however the bytes were cut into buffers and calls |
| ChannelRuns.WrittenMeans | ecsact/si/wasmer/detail/wasi.cc:57-61 | a write to 1 adds its joined buffers to the info channel, one to 2 to the error channel, any other nothing |
| ChannelRuns.PerformWrite | ecsact/si/wasmer/detail/wasi.cc:38-84 | `fd_write` itself adds exactly that to the logger |
| ChannelRuns.PerformRun | ecsact/si/wasmer/detail/logger.cc:49-90 | a run performed on the logger delivers and leaves what the two results above speak of |
| ConcurrentLogs.ChannelsHoldPushes | ecsact/si/wasmer/detail/logger.cc:49-90 | in every interleaving, drained text followed by pending text is what was pushed, in order, per channel |
| ConcurrentLogs.EachChannelHoldsPushes | ecsact/si/wasmer/detail/logger.cc:49-90 | the same channel by channel: drained then pending text is the texts pushed to that channel, one after the other |
| ConcurrentLogs.CallPiecesText | ecsact/si/wasmer/detail/wasi.cc:57-72 | the pieces of a call are what `fd_write` adds to the logger, on info for 1 and on error for 2 |
| ConcurrentLogs.ThreadsKeepOrder | ecsact/si/wasmer/detail/wasi.cc:57-77 | a thread's pushes followed by what its call has still to push are the segments of its calls in order, so the channels are an order-preserving merge |
| ConcurrentLogs.TotalsAddUp | ecsact/si/wasmer/detail/wasi.cc:57-77 | bytes pushed equal the totals of returned calls plus what calls in flight have counted |
| ConcurrentLogs.ReturnReportsTotal | ecsact/si/wasmer/detail/wasi.cc:74 | a returning call reports the length of the joined segments of the call its thread last began, the total that call by itself stores |
| VirtualFiles.TableInvariant | ecsact/si/wasmer/detail/wasi_fs.cc:18-54 | in every reachable state the two maps are mutual inverses, descriptors lie above 10 and at most at the counter, open files are distinct and none of them has been closed |
| VirtualFiles.LastRegistrationWins | ecsact/si/wasmer/detail/wasi_fs.cc:56-97 | a path looks up to its last registration, and is found exactly if it was ever registered |
| VirtualFiles.LookupsAgree | ecsact/si/wasmer/detail/wasi_fs.cc:56-97 | a registered descriptor's real path and status are found by its path as by itself, and a path without an entry finds nothing |
| VirtualFiles.CounterIsAllowCount | ecsact/si/wasmer/detail/wasi_fs.cc:38 | the counter is 10 plus the number of registrations, which fixes when an `int32_t` overflows |
| VirtualFiles.RetiredForGood | ecsact/si/wasmer/detail/wasi_fs.cc:22-38 | a descriptor that was passed by and is not in the table is never issued again |
| VirtualFiles.ApplyConservesOpenFiles | ecsact/si/wasmer/detail/wasi_fs.cc:99-117 | each operation changes opens minus closes minus open entries by one exactly if it orphans an open file |
| VirtualFiles.OpenFilesConserved | ecsact/si/wasmer/detail/wasi_fs.cc:22-117 | over any run, opens equal closes plus files open in the table plus files orphaned |
| VirtualFiles.FileTable.AllowFileReadAccess | ecsact/si/wasmer/detail/wasi_fs.cc:32-54 | registering replaces the path's old entry and returns a new descriptor that looks up to the real path |
| VirtualFiles.FileTable.Open | ecsact/si/wasmer/detail/wasi_fs.cc:99-109 | the file is opened only if none is recorded, and the recorded one is returned; there is none for an unregistered descriptor |
| VirtualFiles.FileTable.Shut | ecsact/si/wasmer/detail/wasi_fs.cc:111-117 | a recorded file is closed and forgotten, otherwise nothing happens; says whether the descriptor is registered |
| InstancePool.ReachableCounted | ecsact/si/wasmer/detail/wasm.cc:74-92 | in every reachable state each strong count is one for the pool plus one per running call, and a thread on the slow path has a cached instance that is gone |
| InstancePool.InstanceLifetime | ecsact/si/wasmer/detail/wasm.cc:79-92 | an instance is alive if and only if it is in the pool or in a running call |
| InstancePool.KeepsInstanceWhileAlive | ecsact/si/wasmer/detail/wasm.cc:80-85 | a thread's cached instance changes only once it is no longer alive |
| InstancePool.DeadStaysDead | ecsact/si/wasmer/detail/wasm.cc:80-81 | no step revives a destroyed instance |
| InstancePool.TicketsAreConsecutive | ecsact/si/wasmer/detail/wasm.cc:82 | short of wraparound the counter is the value it had when the pool was filled plus the tickets taken since |
| InstancePool.TicketIsNext | ecsact/si/wasmer/detail/wasm.cc:82 | a ticket is the counter's next value, and the index its remainder by the pool's size |
| InstancePool.FirstTicketAfterReset | ecsact/si/wasmer/detail/wasm.cc:320-323 | the first ticket after a reset is 1, whatever was drawn before |
| InstancePool.IndicesInRange | ecsact/si/wasmer/detail/wasm.cc:82-83 | the index a thread computed is still inside the vector when the thread reads it |
| InstancePool.ReleaseAllCounts | ecsact/si/wasmer/detail/wasm.cc:196 | clearing the vector takes exactly one reference from each of its instances |
| PoolExclusivity.InstancesAreExclusive | ecsact/si/wasmer/detail/wasm.cc:74-88 | in every interleaving, across resets and loads and from any counter value, no two threads are assigned or run the same instance as long as no more tickets are taken than the pool has instances |
| PoolExclusivity.ExclusiveIffFewTakers | ecsact/si/wasmer/detail/wasm.cc:74-88 | in every interleaving, across resets and reloads and from any counter value short of wraparound: no two threads are ever assigned or running the same instance if and only if no more threads ever take tickets from a filling of the pool than it has instances |
| PoolExclusivity.OneTicketEach | ecsact/si/wasmer/detail/wasm.cc:80-82 | a run within the bound has handed out one ticket to each thread that took any |
| PoolExclusivity.ExclusiveIffFits | ecsact/si/wasmer/detail/wasm.cc:79-88 | short of counter wraparound, a run is exclusive in all its states if and only if it never takes more tickets from a filling of the pool than the pool has instances |
| PoolExclusivity.TicketKeepsExclusiveIff | ecsact/si/wasmer/detail/wasm.cc:82-84 | one step: taking a ticket keeps instances exclusive if and only if fewer tickets have been taken than there are instances |
| PoolExclusivity.FewThreadsFit | ecsact/si/wasmer/detail/wasm.cc:79-88 | with no more threads than instances, and short of counter wraparound, every run stays within that bound |
| PoolDispatch.CachedIsPooled | ecsact/si/wasmer/detail/wasm.cc:80-81 | a live instance cached by a thread outside a call is one of the present pool, not of an older one |
| PoolDispatch.DispatchFindsSystem | ecsact/si/wasmer/detail/wasm.cc:90-94 | under cumulative loads, as long as no more tickets are taken than there are instances, the lookup of every running call succeeds |
| PoolDispatch.DispatchServesIff | ecsact/si/wasmer/detail/wasm.cc:79-94 | under cumulative loads, the lookup never fails over a run if and only if no thread ever came back to an instance of an earlier filling, kept alive by another thread's call, for a system that the filling's load did not name and a later successful one did |
| PoolDispatch.SystemsFromLabels | ecsact/si/wasmer/detail/wasm.cc:228-266 | an instance exports what the load that made it named |
| PoolDispatch.PoolFromLabels | ecsact/si/wasmer/detail/wasm.cc:196-266 | an instance is in the pool from the load that made it until the pool is next cleared |
| SharedInstances.DispatchTotalIff | ecsact/si/wasmer/detail/wasm.cc:79-94 | for pools filled with at least `room` instances or none: every lookup of every run with cumulative loads succeeds, and likewise every run is exclusive, if and only if there are at most `room` threads |
| SharedInstances.DispatchAtPoolSize | ecsact/si/wasmer/detail/wasm.cc:196-277 | for the pool of 100: at most 100 threads if no load fails half-way, one thread if any may |
| SharedInstances.LookupFails | ecsact/si/wasmer/detail/wasm.cc:79-94 | for any pool and one thread more than instances, a run with cumulative loads that ends in a failing lookup |
| SharedInstances.SharedInstanceMissesSystem | ecsact/si/wasmer/detail/wasm.cc:79-94 | two such runs on the pool of 100: 2 threads after a load that failed at its second instance, and 101 threads with no failed load |
| PoolBalance.HandedIsQuotient | ecsact/si/wasmer/detail/wasm.cc:82 | how many of the tickets after a counter value stand for a pool position, in closed form |
| PoolBalance.PoolBalance | ecsact/si/wasmer/detail/wasm.cc:82-83 | among any n consecutive tickets every position gets n/N rounded down or up |
| PoolBalance.TicketsAreBalanced | ecsact/si/wasmer/detail/wasm.cc:82-84 | in every run short of wraparound, the tickets drawn since the pool was filled are spread that way |
| ModuleInstance.FindExport | ecsact/si/wasmer/detail/minst/minst.cc:288-298 | the search returns `Named` |
| ModuleInstance.NamedIsFirst | ecsact/si/wasmer/detail/minst/minst.cc:291-295 | an export preceded by none of its name is the one found |
| ModuleInstance.NamedNone | ecsact/si/wasmer/detail/minst/minst.cc:297 | nothing is found if and only if no export has the name |
| ModuleInstance.Minst.ResolveImports | ecsact/si/wasmer/detail/minst/minst.cc:156-177 | the loop fails if and only if some import is unknown, and else yields the host functions in import order |
| ModuleInstance.Minst.Create | ecsact/si/wasmer/detail/minst/minst.cc:117-220 | each of the four outcomes, what it makes and, on failure, deletes; success hands everything to the returned object and links the imports in order |
| ModuleInstance.CreatingEvents | ecsact/si/wasmer/detail/minst/minst.cc:130-196 | the events of each outcome, one by one |
| ModuleInstance.Minst.Move | ecsact/si/wasmer/detail/minst/minst.cc:224-238 | the new object owns what the old one did, and the old one nothing |
| ModuleInstance.Minst.Destroy | ecsact/si/wasmer/detail/minst/minst.cc:240-255 | non-null members are deleted, instance before module before store |
| Releases.ReleasedExactlyOnce | ecsact/si/wasmer/detail/minst/minst.cc:117-255 | over any run of creations, moves and destructions, an object is deleted exactly once when no owner holds it any more, never while one does, and never held by two |
| Releases.InsideDeletedFirst | ecsact/si/wasmer/detail/minst/minst.cc:240-255 | when a module or store is deleted, what was made inside it has been deleted before |
| Releases.InstanceModuleStore | ecsact/si/wasmer/detail/minst/minst.cc:240-255 | over any run, a module is deleted after the instance made in it, and a store after both |
| Releases.FailingCreateIsLegal | ecsact/si/wasmer/detail/minst/minst.cc:134-196 | a failing creation leaves nothing of its own alive |
| Releases.MoveOwner | ecsact/si/wasmer/detail/minst/minst.cc:224-238 | a move keeps every object held by exactly one owner |
| Loader.GetSystemImplExports | ecsact/si/wasmer/detail/wasm.cc:105-136 | on success the map sends each id to the first export named by the id's last occurrence, holds no other id and nothing but functions |
| Loader.FirstError | ecsact/si/wasmer/detail/wasm.cc:115-133 | the error is that of the first name that is missing or no function |
| Loader.NoErrorIff | ecsact/si/wasmer/detail/wasm.cc:115-135 | there is no error if and only if every name is a function export |
| Loader.ExportErrorIff | ecsact/si/wasmer/detail/wasm.cc:122-130 | a name is missing, the first export of the name is a function, or it is something else, and that decides its error |
| Loader.SystemsErrorIff | ecsact/si/wasmer/detail/wasm.cc:115-135 | the error of all names, by the exports alone |
| Loader.OutcomeIff | ecsact/si/wasmer/detail/minst/minst.cc:134-196 | each outcome of a creation, by whether the module compiles, the host has a function for every import in `env` or `wasi_snapshot_preview1`, and it instantiates |
| Loader.AnswerErrorIff | ecsact/si/wasmer/detail/wasm.cc:199-260 | for every error code exactly when a turn of the load loop ends in it; it ends well exactly if the module compiles, all imports are known, it instantiates, every name's first export is a function, and not both `_initialize` is exported and it traps |
| Loader.MemoryIsFirst | ecsact/si/wasmer/detail/wasm.cc:242-247 | a memory export preceded by none is the one taken |
| Loader.MemoryNone | ecsact/si/wasmer/detail/wasm.cc:240-249 | none is taken if and only if no export is a memory |
| HostGlobals.FindMemory | ecsact/si/wasmer/detail/wasm.cc:240-247 | the first memory export, if there is one |
| HostGlobals.LoadInstance | ecsact/si/wasmer/detail/wasm.cc:200-260 | one turn of the load loop: its error code, the instance's map and memory, and no arena left behind on any path |
| HostGlobals.Host.Load | ecsact/si/wasmer/detail/wasm.cc:157-277 | a load is the pool's load step; it succeeds if and only if the pool has 100 instances, each mapping every given id to the first function export named by its last occurrence; on failure the pool holds the instances before the first failing one, whose error is returned, and no system is registered |
| HostGlobals.Host.EnsureMinst | ecsact/si/wasmer/detail/wasm.cc:79-88 | without interruption: the cached instance if it is alive, with the counter untouched, else the one at the next counter value modulo the pool's size, which is then cached; one more strong reference |
| HostGlobals.Host.Reset | ecsact/si/wasmer/detail/wasm.cc:320-323 | the pool's reset step |

## Left out

- Wasmer and the WebAssembly C API: only making and deleting stores, modules and instances, import and export lists, and success or failure are kept. Import functions made for a guest, which the code never deletes, are not tracked.
- The Ecsact runtime: only the calls it receives and its answers.
- `ecsact_si_wasm_load_file`, `unload`, `set_trap_handler`, the error message text, `fd_seek`, `proc_exit`, `environ_get` and `environ_sizes_get`: stubs, I/O or one-branch code.
- The `has` and `stream_toggle` callbacks, `call_mem_replace` and `get_const_execution_context`, and the static import tables.
- Files that do not open: the code records and passes a null file.
- Storing the status of `fd_fdstat_get` into guest memory: the status is a value, its 24 bytes are not laid out.
- Pointers into guest memory that leave it: the code's behaviour is undefined there, so the guest is asked for defined ones.
- A call on an empty pool, which divides by zero, and a load that overlaps `ensure_minst`.
- What destroying an instance of the pool deletes: the pool says when an instance is destroyed, `Minst.Destroy` what that deletes; the two are not composed.
- The guest's own use of the arena during `_initialize`: only whether it traps.
- The consumer's 32-bit message length in `ecsact_si_wasm_consume_logs`.
- LineSplitter.SplitLines: has no result where the `int` index cannot hold a newline's position or the one after it; what the narrowed index then does is not modelled.
- LogChannels.Logger.ConsumeStdio: no result, and nothing promised of the channels, for such texts.
- LogChannels.Logger.ConsumeLogs: no result, and nothing promised of the channels, for such texts.
- VirtualFiles.FileTable.AllowFileReadAccess: requires the `int32_t` counter not to overflow.
- PoolBalance.TicketsAreBalanced: stated short of counter wraparound.
- PoolExclusivity.FewThreadsFit: stated short of counter wraparound.
- PoolExclusivity.ExclusiveIffFits: stated short of counter wraparound.
- PoolExclusivity.ExclusiveIffFewTakers: stated short of counter wraparound.
- SharedInstances.DispatchTotalIff: stated for runs short of counter wraparound, and for pools of fewer than 2^32 - 1 instances.
- InstancePool.TicketsAreConsecutive: stated short of counter wraparound.
