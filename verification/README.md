# SplitInfer, verified

SplitInfer runs one quantised neural network in three ways: with all weights on the host, through near-memory engines behind a byte protocol, or with weights pulled through a coherent page window. A placer decides where each layer goes, a lowering step turns the graph into a flat DDR2 image and a list of layer records, and RTL modules do the integer work. This project models these parts in Dafny and proves the claims the system rests on:

* **The graph's meaning survives lowering, and every executor computes it.** `Deploy` lowers a graph and runs any sequence of inputs on the host, near-memory and pool executors; whatever lowering accepts, under the conditions below, all of them answer each complete input with the graph's own integer output, short of a Relu that ends the output chain, which the code drops. The pieces are `FusionIsFaithful` (fused chains compute what the nodes compute one by one), `LoweringIsFaithful` (the lowered program means what the graph means, and exactly when the dropped Relu matters), `Lower` and `AcceptedIff` (which graphs are accepted, exactly, in how much memory, and that the program is well formed and aligned), `WellFormedIff` and `ReferenceRunsIff` (when a tensor that is a part of a Concat may be read elsewhere too) and `RunAll` (three executors, one reference).
* **The placer is exact.** The table, its argmin and its backtrack find a plan no admissible plan undercuts, or show that none exists; with dividing buckets that is the byte-exact optimum. What it minimises is pinned by placements alone: the time of the units and the link's time for exactly the bytes and messages the plan sends (`PriceIsTraffic`), which, but for outputs read back, are the ones the runtime's link sends. The bandwidth at which the cost model says the pool overtakes the FPGA is exact for the present link and has its exact condition for others (`DividesIff`).
* **The DDR2 arbiter is a byte array** to its DMA client, issues every engine write once and in order, and answers every engine read once, in order and with the right burst, whatever the memory controller does. Left alone it settles within a stated number of cycles: staged bytes reach memory, and nothing is left over (`Settles`, `BytesReachMemory`). Where the byte array breaks, the condition is exact, cycle by cycle, and every read is answered within a stated number of controller operations. Who is served first, and what that costs the DMA, is proved too.
* **The asynchronous FIFO and the toggle handshake** lose, repeat and reorder nothing in any interleaving of two clocks.
* **The page window refines one flat memory**; where the code gives that up, the exact condition is proved. Range operations are specified byte by byte.
* **The protocol controller** returns from every stall, leaves no per-message counter behind in idle, and gives each well-formed message exactly its effects: memory bytes, response bytes, the engine request, the barrier pulse and the eight acknowledge bytes. Every message is completed, within a stated number of cycles, if its surroundings answer in time (`MessageCompletes`), and the emulated device answers it with the same bytes (`EmulatorIsController`).
* **The arithmetic units** compute the same integers as the C++ kernels and the emulated device.

## Files

| files | part of the system |
|---|---|
| Bytes, Kernels | words and memories; the three integer kernels |
| Program | lowered programs, well-formedness, `run_reference` |
| Agreement, Steps, HostMode, NmcMode, PoolMode, ThreeModes | the three executors against the reference |
| VirtualFpga, DeviceEngines, Link | the emulated device, what its engines leave in memory, and the host side of the byte protocol |
| OneDevice | that the emulated device and the RTL controller are one protocol |
| PageWindow, CxlWindow | the page window: pages as values, then the window object |
| CostModel, Placer, Capacity, Solver | costs, the optimum, capacities, the solver |
| Price, Pricing, Crossover | what a cost consists of, the messages it is the price of, and the bandwidth at which the pool overtakes the FPGA |
| Graph, Layout, Walk, WalkSteps, WalkLayers, Pins, Sharing, Emission, NodeSteps, Lowering | lowering: fusion, layout invariant, Concat pinning, one file per stage of the proof, the object |
| Acceptance, Slots | which graphs are accepted and in how much memory; streamed constants |
| Meaning, Fusion | what a graph means: by fused chains, and node by node |
| Constants, Faithful, Preservation, EndToEnd | that lowering keeps the meaning, and the way from graph to answer |
| PartReads, TakenParts | exactly when a part may be read outside its Concat; what becomes of one taken too early |
| Example | four small graphs: two meet every condition, one cannot be run by `run_reference`, one is lowered wrongly |
| Rectified | a graph whose last Relu is lost |
| Mig, Ddr2Arbiter, ArbiterRuns | the memory controller's queues, the arbiter, its runs |
| ArbiterDma, DmaHazard, DmaAnswers | the DMA client: a byte array, exactly when it is not one, how soon it is answered |
| ArbiterSettles, ArbiterService | that the arbiter finishes what it is given; whom it serves first, and DMA bursts |
| EngineReads, EngineWrites | the engines' reads: answered once, in order, and when; their writes beside the DMA client |
| Gray, AsyncFifo, Handshake | the two clock crossings |
| Elementwise, MacArray, Requant | the epilogue pipeline, the MAC lanes, the requantisation parameters |
| Controller, ControllerMessages, ControllerCompletes, ControllerRuns | the protocol controller, the effects of its messages, their completion, its watchdog, its collector and what a read leaves behind |

Objects that the source updates in place are classes whose methods are tied to pure functions of their old state (`View`, `Step`, `Is`); the theorems are about those functions and about runs of them. Clocked modules are step functions with a `Clock` method per module; two clocks are any sequence of edges.

## Conditions

The theorems hold under these conditions; where a lemma is named, it shows that the code needs them:

* **Graphs** (`Graph.GraphOk`): names and outputs unique and shapes consistent (`Graph.Named`); no tensor a part at two places of Concats, the graph output read by nobody, and the last MatMul chain yielding it. `Lower` itself takes every named graph and says exactly which it accepts; the rest is needed for the program to be right. `Sharing.TiledIffUnshared` shows that one address per tensor cannot lay out Concats that share a part.
* **Node by node** (`Fusion.Onnx`): nodes in topological order, an Add with two operands, and constants read by Adds only, as ONNX has it (a MatMul's weights are its own). Only `FusionIsFaithful` and the clause of `Deploy` that cites it need this.
* **Parts read elsewhere** (`Graph.PartsSafe`): `lower` takes any graph in which a part has other readers and does not look at their order. For graphs that meet `GraphOk`, what it returns is well formed if and only if no Concat takes a graph input that an earlier MatMul has taken (`PartReads.WellFormedIff`). In a graph that breaks this, no run that writes inputs, constants and each layer's own regions, as every mode's does, ever writes that part's place in the Concat's buffer: the Concat's readers find the part's value only if it lay there by chance (`TakenParts.TakenPartUnwritten`), and for whatever lies there some value of the input is missed by every such run (`TakenPartMissed`).
* **Stale reads** (`Graph.ReadsTimely`): a MatMul may also read the first part of a longer Concat, if a Gather makes it, or an Identity's copy of it, once the Concat is done. The bytes are still the part's: all three modes answer such graphs with the graph's own output, and `Deploy` includes them. Only `run_reference` raises, because its map holds the longer vector at that address; it runs to the end for exactly the graphs in which no MatMul comes late (`PartReads.ReferenceRunsIff`). `RefOutput` reads the first K values there, which is what `run_reference` returns whenever it does not raise. `Example.NetWellFormedIff` has one graph of each kind.
* **Relu at the output** (`Meaning.RectifiedOutput`): `GraphOutput` applies a Relu fused into the output chain, the program does not. They agree on a feed exactly if there is no such Relu or no sum is negative (`LoweringIsFaithful`); `Deploy` promises the exact output for every graph without one. `Rectified.ReluIsDropped` is a graph that fails.
* **Inputs**: any input may be missing; one that is there has its size, and an index names a row of its table.
* **Pages**: one application thread, faults serviced atomically, `mprotect` succeeds, engines write only DEVICE pages. A failed backend read may leave any prefix behind; a failed backend write leaves the device page as it was. A strict window's abort is a returned flag.
* **DMA**: the engines are idle, as they are while the controller serves the link, and no accepted write overtakes a read: one accepted in a cycle that leaves a read of the same 16-byte word outstanding must not change that word (`Overtakes`). Writes to other words, writes beside a hit and writes in the very cycle of the return are free, and so is a change of another byte of the word when the stage is already being flushed ahead of the read. `DmaHazard.SafeIff` shows that this is exact: from every lawful state a cycle that breaks the condition has a continuation, without a further write, that answers a read wrongly, and one that keeps it has none. `DmaHazard.OvertakenReadIsStale` is the shortest such run from reset.
* **DMA answers** (`DmaAnswers.AnsweredWithin`): the client accepts no write of its own while its read waits to be issued; a flush goes first, so a client that keeps writing holds its own read back.
* **Settling** (`ArbiterSettles.Settles`): no engine pulses, nothing the client offers is accepted, and the controller takes and carries out what is presented in the cycles that count; cycles in which it stalls only do not count. Engines come first in any cycle, so one that never pauses keeps a staged word from memory (`ArbiterService.DmaStarves`).
* **Engines beside the DMA** (`EngineWrites`): no write issued changes the word of a DMA read that stays in flight; `CacheNextIff` shows that each cycle keeps the read cache right exactly then.
* **Engine writes**: no third write without a pop in the same cycle; `QueueNextIff` shows that this is exactly what the two-deep queue needs.
* **Engine reads**: nothing further. A port has one latch for a read that waits, and a pulse that lands on a waiting read replaces it; `EngineReads.AnsweredInOrder` counts those. It holds for every such run; an engine that waits for its data, as the arbiter's comment asks, loses none.
* **Clock crossings**: a pointer caught while it changes resolves each changing bit either way; FIFO depth at least 2.
* **Messages** (`ControllerMessages.EnvOk`): received bytes at least two cycles apart and none while a response is owed, lengths consistent with their type, and one DMA return per request. An acknowledge byte counts as sent when the transmitter drops ready while it is presented, which is how the controller sees it.
* **Completion** (`ControllerCompletes`): every handshake of the link, the transmitter and the DMA port within d cycles, where 24 (d + 1) is at most 10,000,000, and the engine before its own watchdog. The transmitter drops ready for a byte presented and raises it again. `EveryMessageServed` shows that there are such surroundings for every message.

INT32 accumulators wrap explicitly, so agreement needs no bound on the row length; `DotNoWrap` adds that rows of up to 131071 products never wrap. Costs, scales and ratios are reals.

## Where code and documentation differ

* A Relu behind a MatMul is documented as fused (lowering.py:20). In the output chain it is fused and then lost: `run_reference` returns the sums as they are (lowering.py:421-423), and so do the executors, which skip the epilogue of a final layer. `LoweringIsFaithful` has the exact condition, `ReluIsDropped` the graph MatMul, Relu, output with one weight of -1: at input 1 the graph yields 0 and the program -1.
* `lower` raises an error for graphs it cannot lower. It raises none for a graph in which a MatMul takes a Concat's graph input before the Concat does; that program has a Concat whose part lies elsewhere (`WellFormedIff`, `TakenPartUnwritten`). Nor for one in which a MatMul reads an embedding late, which only `run_reference` cannot run (`ReferenceRunsIff`). `NetWellFormedIff` has both.
* `partition_model` says that a plan the solver accepts always fits. The capacity is rounded up too, so this holds exactly when the bucket divides the budget (`HostAlwaysFitsIff`) and, for resident weights, when it divides the DDR2 capacity or exceeds it (`DdrAlwaysFitsIff`). The overshoot is less than one bucket.
* `_choose_buckets` promises `H*F <= max_states`. It counts buckets, and the table has one level more in each dimension that counts. `TableWithinIff` gives the exact condition on the two capacities and `max_states`, for streamed weights, for resident weights with either capacity zero, and for both active, where the table can reach `(isqrt(max_states) + 1)^2` entries. Failing inputs for every `max_states`: `HostTableTooLarge`, `DdrTableTooLarge`, `BothTableTooLarge`; with 8192 bytes each and four states the table has nine entries (`NineOfFour`).
* The controller is documented to collect min(payload_len, 32) bytes. It compares five bits of the length: that is what it collects up to 31 bytes only, and a 32-byte payload ends after its first byte (`CollectorExactIff`; from reset, `MessageCollected` and `CutAfterOne`).
* The controller's comment lists `dma_rd_*` among the registers cleared in idle. `dma_rd_base` changes only when a read is dispatched and the data latch only on a return (`LeftBehind`): for any address and any byte there is a run that ends idle with both still in place (`IdleKeepsRead`).
* The crossover bandwidth is described as the one above which `pool` beats `fpga`. It is computed with the dispatch message's time at the present bandwidth, so it divides the links exactly if the layer has more weight bytes than that message and the message is empty or the link is at the crossover already (`DividesIff`); it errs towards the present link (`SideIsRight`). "fpga always" is true of every link exactly if the weights are no fewer bytes than that message (`AlwaysIff`). For streamed weights the comparison is called independent of the bandwidth; it is so exactly if the message is empty or the FPGA takes no less time apart from it (`IndependentIff`). Without weights "pool always wins" is said whatever the units take; `UnweightedIff` has the condition under which some link makes the FPGA cheaper.
* The cost model charges one message per chunk for an activation fetched back from the device. `Link::read` sends one for the whole range, whatever its length (`FetchActivation`).
* The arbiter's comment says that read-after-write ordering holds because reads flush the stage first. A write accepted while a read of its word is outstanding is flushed before the old burst fills the cache, and the next read returns the old byte (`OvertakenReadIsStale`, `SafeIff`).
* The page window's release hands pages to the device even when their write-back failed (`ReleaseKeepsIff`).

## Model

| member | source | states |
|---|---|---|
| ThreeModes.RunAll | splitinfer/runtime/v2/executors.cpp:17-252 | for every well-formed program and every sequence of inputs run on the same three objects, the host, near-memory and pool executors return the same results, each the reference output or the refusal of an incomplete input; the pool alone refuses a streaming program |
| ThreeModes.HostAll | splitinfer/runtime/v2/executors.cpp:28-54 | one host executor fed any sequence of inputs answers each like `run_reference`; leftovers of earlier runs never show |
| ThreeModes.NmcAll | splitinfer/runtime/v2/executors.cpp:159-197 | the same for the near-memory executor over the byte protocol and the engines |
| ThreeModes.PoolAll | splitinfer/runtime/v2/executors.cpp:209-251 | the same for the pool executor over the page window, warm or reset between iterations |
| HostMode.HostExecutor.Prepare | splitinfer/runtime/v2/executors.cpp:23-27 | an arena large enough, holding every resident constant |
| HostMode.HostExecutor.PutInputs | splitinfer/runtime/v2/executors.cpp:31-32 | inputs in place and every constant kept, or false exactly at a missing input |
| HostMode.HostExecutor.RunLayer | splitinfer/runtime/v2/executors.cpp:34-45 | one layer, its weights downloaded first when streaming, carries the agreement with the reference from n to n + 1 layers |
| HostMode.HostExecutor.Run | splitinfer/runtime/v2/executors.cpp:28-54 | true exactly when every input is there, and then the reference output; stays ready for the next run |
| NmcMode.LoadImage | splitinfer/runtime/v2/executors.cpp:111-117 | every segment that is not streamed ends up whole on the device, none overwritten by a later one |
| NmcMode.GatherRequest | splitinfer/protocol/src/transport_emul.c:65-77 | the lookup request copies the whole padded row the reference selects |
| NmcMode.FcRequest | splitinfer/protocol/src/transport_emul.c:79-91 | the matrix request leaves what `fc_acc` would |
| NmcMode.EpilogueRequest | splitinfer/protocol/src/transport_emul.c:93-112 | the packed epilogue request clears the output words and leaves what `epilogue` would, sign extension of the multiplier included |
| NmcMode.HiddenRequests | splitinfer/runtime/v2/executors.cpp:176-183 | both requests of a hidden layer together are its effect on activation memory |
| NmcMode.NmcExecutor.Prepare | splitinfer/runtime/v2/executors.cpp:151-158 | device holds the resident constants, biases of the output layer copied from the image |
| NmcMode.NmcExecutor.RunLayer | splitinfer/runtime/v2/executors.cpp:169-186 | one layer through engine requests carries the agreement with the reference |
| NmcMode.NmcExecutor.Run | splitinfer/runtime/v2/executors.cpp:159-197 | true exactly when every input is there, and then the reference output |
| PoolMode.Peek | splitinfer/cxlwin/src/cxlwin.c:106-142 | a byte loaded through the window is the device byte, and the window stays clean |
| PoolMode.WindowFcAcc | splitinfer/runtime/v2/executors.cpp:234-236 | `fc_acc` with weights faulted in through the window leaves the accumulators the device's weights give, every other byte kept, and no page dirty |
| PoolMode.WindowEpilogue | splitinfer/runtime/v2/executors.cpp:236 | `epilogue` with biases behind the window |
| PoolMode.PoolExecutor.Prepare | splitinfer/runtime/v2/executors.cpp:209-219 | refuses exactly the streaming programs; else image loaded and a clean window over it |
| PoolMode.PoolExecutor.Reset | splitinfer/runtime/v2/executors.cpp:220 | a warm window is left alone; else every page is INVALID and, the window being clean, nothing a run can see has changed |
| PoolMode.PoolExecutor.Run | splitinfer/runtime/v2/executors.cpp:221-251 | true exactly when every input is there, and then the reference output |
| Steps.FindOutput | splitinfer/runtime/v2/executors.cpp:47 | the search for the output record finds the layer the reference returns |
| Agreement.LayerStep | splitinfer/partitioner/lowering.py:400-430 | any executor whose layer has the right effect on memory keeps every reference vector, input and accumulator at its address |
| Agreement.ShapeOwned | splitinfer/partitioner/lowering.py:400-430 | every byte of every vector the reference knows was written by an input or an earlier layer |
| Agreement.OwnedNotWritten | splitinfer/partitioner/lowering.py:263-351 | no later layer writes such a byte |
| Agreement.StreamStep | splitinfer/runtime/v2/executors.cpp:36 | downloading one layer's weights disturbs no byte a later layer reads |
| Agreement.ConcatVec | splitinfer/partitioner/lowering.py:407-412 | parts that lie end to end already form the concatenated vector |
| Agreement.FcDotRef | splitinfer/partitioner/lowering.py:413-420 | padding columns never reach an accumulator, whatever bytes lie behind the activations |
| Kernels.DotAgree | splitinfer/runtime/v2/kernels.cpp:11-18 | the accumulator depends on the weights and on the unpadded activations only |
| Kernels.DotNoWrap | splitinfer/runtime/v2/kernels.cpp:11-18 | no accumulator wraps for up to 131071 products |
| Kernels.DotIsWrapped | splitinfer/runtime/v2/kernels.cpp:14-16 | wrapping at every addition equals wrapping the exact sum once |
| Kernels.FcAccValue | splitinfer/runtime/v2/kernels.cpp:11-18 | when the accumulators overlap neither operand, each one is the dot product over the initial memory |
| Kernels.EpiValue | splitinfer/runtime/v2/kernels.cpp:20-28 | when the output overlaps neither operand, each byte is the requantised sum over the initial memory |
| Kernels.FcAcc | splitinfer/runtime/v2/kernels.cpp:11-18 | the loop leaves the specified memory, in place, for any operand addresses |
| Kernels.Epilogue | splitinfer/runtime/v2/kernels.cpp:20-28 | the loop leaves the specified memory, in place |
| Kernels.Gather | splitinfer/runtime/v2/kernels.cpp:7-9 | one row copied, every other byte kept |
| Bytes.SatNearest | splitinfer/runtime/v2/kernels.cpp:25-26 | saturation gives the INT8 value nearest to its argument, and no other is as near |
| VirtualFpga.ChunkingIrrelevant | splitinfer/protocol/src/transport_emul.c:178-194 | a stream of well-formed messages leaves the same memory, counters and responses however it is cut into sends |
| VirtualFpga.DrainSplit | splitinfer/protocol/src/transport_emul.c:183-192 | handling a, then b behind what a left over, is handling a followed by b |
| VirtualFpga.Fpga.Send | splitinfer/protocol/src/transport_emul.c:178-194 | appends and consumes every complete message; an overrun drops the buffer and reports failure |
| VirtualFpga.Fpga.Recv | splitinfer/protocol/src/transport_emul.c:196-204 | hands over pending bytes in order, none lost, none repeated |
| VirtualFpga.Fpga.ProcessMsg | splitinfer/protocol/src/transport_emul.c:131-176 | one message handled as specified, out-of-range requests included, and its answer put behind what the host still has to receive |
| VirtualFpga.ProcessAnswers | splitinfer/protocol/src/transport_emul.c:131-176 | every message is answered once: a read with type 0x12, its tensor id, its length and its bytes or zeros, every other of whatever type with the eight acknowledge bytes and its tensor id |
| VirtualFpga.ProcessEffects | splitinfer/protocol/src/transport_emul.c:131-176 | memory changes only by a write that fits, byte by byte, or an engine request; each counter counts its own kind |
| VirtualFpga.StreamAnswered | splitinfer/protocol/src/transport_emul.c:178-204 | however a stream is cut into sends, the host finds one answer per message, in order, each naming its message's tensor and its own length |
| OneDevice.EmulatorIsController | splitinfer/protocol/src/transport_emul.c:131-176 | the emulated device and the RTL controller are one protocol: for every message the controller finishes, both give the host the same bytes and memory the same writes, and the engine is started with the fields the emulator works by |
| VirtualFpga.Fpga.EngEmbedding | splitinfer/protocol/src/transport_emul.c:65-77 | stops at the first lookup out of range; whole 16-byte words only |
| VirtualFpga.Fpga.EngInt8Fc | splitinfer/protocol/src/transport_emul.c:79-91 | accumulates in place, or ignores a request out of range |
| VirtualFpga.Fpga.EngElementwise | splitinfer/protocol/src/transport_emul.c:93-127 | all six operations, the epilogue over possibly overlapping regions included |
| DeviceEngines.EmbedStops | splitinfer/protocol/src/transport_emul.c:68-73 | the lookup engine stops at the first row out of range: those before it stay, those behind it are not done |
| DeviceEngines.EmbedCopies | splitinfer/protocol/src/transport_emul.c:65-77 | lookups in range that do not overlap what they read: every output row is the row its index names, in whole 16-byte words, and nothing else changes |
| DeviceEngines.ElementValue | splitinfer/protocol/src/transport_emul.c:113-126 | each of 16 bytes per announced word is its operation on the bytes before the request, in place or apart, and nothing else changes |
| DeviceEngines.MatrixValue | splitinfer/protocol/src/transport_emul.c:79-91 | a matrix request whose sums overlap neither operand leaves the dot product of every row and changes nothing else |
| DeviceEngines.MatrixRefused | splitinfer/protocol/src/transport_emul.c:81 | one that reaches beyond memory changes nothing |
| DeviceEngines.EpilogueValue | splitinfer/protocol/src/transport_emul.c:98-111 | the epilogue of any number of words, its output apart from its operands: one requantised byte for each sum, zeros to the end of the last output word, nothing else changed |
| DeviceEngines.ElementRefused | splitinfer/protocol/src/transport_emul.c:98-114 | an elementwise request that reaches beyond memory changes nothing |
| Link.Link.Write | splitinfer/runtime/v2/executors.cpp:71-85 | the bytes land, nothing else changes, every acknowledgement is consumed, and ceil(len/4096) messages are sent |
| Link.Link.Read | splitinfer/runtime/v2/executors.cpp:86-100 | the device bytes of the range, memory unchanged, the response consumed whole |
| Link.Link.Nmc | splitinfer/runtime/v2/executors.cpp:101-110 | exactly the requested engine operation, its fields surviving the encoding |
| Link.Link.WriteThenRead | splitinfer/runtime/v2/executors.cpp:71-100 | what is written is read back, other bytes stay, message count included |
| Pricing.StreamWeights | splitinfer/partitioner/cost_model.py:140-145 | streaming a layer's weights sends exactly the messages and bytes the cost model charges |
| Pricing.FaultWeights | splitinfer/partitioner/cost_model.py:132-138 | faulting a layer's weights in first to last costs exactly the backend reads the cost model charges |
| Pricing.SendActivation | splitinfer/partitioner/cost_model.py:150-154 | sending a layer's output to the device costs exactly the messages and bytes charged at a boundary |
| Pricing.FetchActivation | splitinfer/partitioner/cost_model.py:150-154 | fetching it back costs one message, which is what is charged exactly for outputs of 1 byte to one chunk |
| Pricing.Dispatch | splitinfer/partitioner/cost_model.py:147-148 | starting an engine is the one message of 33 bytes that is charged |
| PageWindow.RunRefines | splitinfer/cxlwin/src/cxlwin.c:241-300 | after any allowed run of loads, stores, range operations and engine writes, the window is coherent and every byte loads as last stored |
| PageWindow.StepRefines | splitinfer/cxlwin/src/cxlwin.c:58-142 | one operation of the window is one operation of a flat memory, and coherence is kept |
| PageWindow.FetchKeepsIff | splitinfer/cxlwin/src/cxlwin.c:58-88 | a demand batch keeps the memory, whatever the pages hold, exactly when no MODIFIED page lies strictly inside it |
| PageWindow.DirtyInsideLoses | splitinfer/cxlwin/src/cxlwin.c:60-67 | otherwise some store on that page is lost |
| PageWindow.ShortBatch | splitinfer/cxlwin/src/cxlwin.c:118-123 | batches of one or two pages have no inside |
| PageWindow.ReleaseKeepsIff | splitinfer/cxlwin/src/cxlwin.c:241-252 | a release keeps the memory exactly when no write-back fails, since DEVICE is set regardless |
| PageWindow.PrefetchKeeps | splitinfer/cxlwin/src/cxlwin.c:272-288 | prefetch never loses a store, whatever the backend answers |
| PageWindow.RangeKeeps | splitinfer/cxlwin/src/cxlwin.c:241-300 | release, acquire, flush and invalidate change the memory only where they discard a dirty page, for any backend outcome |
| PageWindow.PrefetchFills | splitinfer/cxlwin/src/cxlwin.c:272-288 | when every run is served, prefetch fills the INVALID pages of the range and leaves the others alone |
| PageWindow.ReadableKeeps | splitinfer/cxlwin/src/cxlwin.c:117-124 | a fault with a working backend makes the page readable with its current content |
| CxlWindow.Window.FetchPages | splitinfer/cxlwin/src/cxlwin.c:58-88 | both trimming loops, the transient state, the failed read and the counters |
| CxlWindow.Window.FlushPage | splitinfer/cxlwin/src/cxlwin.c:90-104 | write-back of a dirty page, kept dirty when the backend fails, and both counters |
| CxlWindow.Window.ServiceFault | splitinfer/cxlwin/src/cxlwin.c:106-142 | every page state, the strict abort, the batch clipped at the window's end and the counters |
| CxlWindow.Window.PagesAreHit | splitinfer/cxlwin/src/cxlwin.c:233-239 | the page range of a request is exactly the pages that hold a byte asked for, to the window's end when the length is 0 |
| CxlWindow.Window.ReleaseRange | splitinfer/cxlwin/src/cxlwin.c:241-252 | every byte asked for is on a DEVICE page, no other page changes; fails exactly when a write-back fails, else every such byte on the device is the one the host last saw; write-backs counted |
| CxlWindow.Window.AcquireRange | splitinfer/cxlwin/src/cxlwin.c:254-261 | every byte asked for on a DEVICE page becomes INVALID and keeps its value, no other page changes |
| CxlWindow.Window.FlushRange | splitinfer/cxlwin/src/cxlwin.c:263-270 | every dirty byte asked for is written back and SHARED unless the backend fails, none loses its value, no other page changes; zero is returned exactly when every write-back succeeds, and then the device holds every byte asked for |
| CxlWindow.Window.PrefetchRange | splitinfer/cxlwin/src/cxlwin.c:272-288 | each maximal run of INVALID pages is one backend read, counted; no byte changes its value; zero is returned exactly when every run is served, and then every INVALID byte asked for is SHARED |
| CxlWindow.Window.InvalidateRange | splitinfer/cxlwin/src/cxlwin.c:290-300 | every byte asked for falls back to the device's, DEVICE pages left alone, all others INVALID |
| CxlWindow.Window.LoadByte | splitinfer/cxlwin/src/cxlwin.c:106-130 | a load sees the page's current host copy |
| CxlWindow.Window.StoreByte | splitinfer/cxlwin/src/cxlwin.c:125-130 | a store fetches, upgrades and lands |
| CxlWindow.Window.EngineWrite | splitinfer/cxlwin/include/cxlwin/cxlwin.h:23-30 | an engine rewrites a page handed over to it, and no other page changes |
| CxlWindow.Window.Sweep | splitinfer/cxlwin/src/cxlwin.c:118-123 | a first-to-last sweep of an absent window fetches every page once in ceil(n/prefetch) backend reads |
| Solver.Solve | splitinfer/partitioner/solver.py:105-183 | returns a plan no admissible plan undercuts, of several such the one of the first least entry, with a faithful report; reports infeasibility only when no plan is admissible |
| Price.PriceIsTraffic | splitinfer/partitioner/cost_model.py:130-172 | what the solver minimises, by placements alone: the time of the units, and the link's time for exactly the bytes and messages the plan sends: pooled pages, streamed chunks, dispatches, and the output of a layer before a change between the FPGA and the rest |
| Price.BoundaryPrice | splitinfer/partitioner/cost_model.py:168-172 | an output crosses exactly when one side is the FPGA and the other is not, in whole chunks |
| Price.OneSideNoTransfer | splitinfer/partitioner/cost_model.py:168-172 | a plan with no layer on the FPGA, or every layer, has no transfer and pays none |
| Price.LegalIff | splitinfer/partitioner/cost_model.py:176-182 | which placements are feasible |
| Price.FpgaTime | splitinfer/partitioner/cost_model.py:115-128 | the slower of multipliers and DDR2, DDR2 alone for a lookup, a floor for a layer without operations |
| Price.GpuTime | splitinfer/partitioner/cost_model.py:109-113 | the operations at the GPU's rate, the launch of a kernel for a layer without any |
| Price.LinkTime | splitinfer/partitioner/cost_model.py:104-105 | the bytes at the bandwidth and a round trip for each message |
| Price.FlopsPerOutput | splitinfer/partitioner/cost_model.py:85-96 | two operations for each weight row of each output value of a matrix layer |
| Price.FlopsElsewhere | splitinfer/partitioner/cost_model.py:85-96 | the same for a single vector, without shapes, for elementwise layers and for all others |
| Crossover.ExactHere | splitinfer/partitioner/cost_model.py:186-211 | behind the link it is computed for, the crossover verdict is exact, with resident and with streamed weights |
| Crossover.DividesIff | splitinfer/partitioner/cost_model.py:186-209 | a finite crossover divides the links on which the pool is cheaper from the others exactly when the layer has more weight bytes than a dispatch message and that message is empty or the link is at the crossover already |
| Crossover.SideIsRight | splitinfer/partitioner/cost_model.py:186-209 | it errs only towards the present link: above it, no link up to the crossover makes the pool cheaper; below it, every faster one does |
| Crossover.AlwaysIff | splitinfer/partitioner/cost_model.py:206-208 | resident weights: "fpga always" is true of every link exactly when the weights are no fewer bytes than a dispatch message |
| Crossover.StreamedIff | splitinfer/partitioner/cost_model.py:210-211 | streamed weights: which links either verdict is true of, and exactly when of all |
| Crossover.IndependentIff | splitinfer/partitioner/cost_model.py:191-192 | streamed weights: the comparison is independent of the bandwidth exactly when the dispatch message is empty or the FPGA is no faster apart from it |
| Crossover.UnweightedIff | splitinfer/partitioner/cost_model.py:197-198 | without weights the pool is said always to win; some link makes the FPGA cheaper exactly when its time and a round trip are below the GPU's |
| Solver.Partitioner.PartitionModel | splitinfer/partitioner/solver.py:63-87 | the same under the requested residency, the hardware parameters restored |
| Solver.SolverIsExact | splitinfer/partitioner/tests/test_solver.py:39-61 | with buckets dividing every weight and both capacities the result is the byte-exact brute-force optimum, and failure means that no plan fits |
| Solver.BestFrom | splitinfer/partitioner/solver.py:153-161 | the best predecessor at every usage, the first placement winning ties |
| Solver.FillRow | splitinfer/partitioner/solver.py:147-163 | one placement of one layer: skipped when infeasible or too large, else shifted by its usage |
| Solver.NextLayer | splitinfer/partitioner/solver.py:144-164 | one layer of both tables |
| Solver.ArgMin | splitinfer/partitioner/solver.py:167 | an entry no other undercuts, and the first such |
| Solver.Backtrack | splitinfer/partitioner/solver.py:173-181 | never leaves the tables and yields the plan its entry stands for |
| Solver.Summarise | splitinfer/partitioner/solver.py:186-231 | the report is the plan's, share by share and decision by decision: which unit computes each layer, what its weights and its boundary cost; the shares add up to the total, and host, pool and FPGA bytes to the model's weight bytes |
| Solver.BytesConserved | splitinfer/partitioner/solver.py:201-219 | every weight byte of a plan is on the host, behind the pool or with the FPGA, and the last two are what DDR2 holds |
| Placer.OptLower | splitinfer/partitioner/solver.py:144-164 | no legal plan undercuts the table entry of its usage |
| Placer.BestIs | splitinfer/partitioner/solver.py:153-161 | no predecessor undercuts the chosen one, and those before it are dearer |
| Placer.PathAttains | splitinfer/partitioner/solver.py:173-181 | every finite entry is attained by a legal plan with exactly that usage and cost |
| Placer.LeastEntry | splitinfer/partitioner/solver.py:166-171 | the least entry of the last table is an optimal plan; if none is finite there is no admissible plan |
| Capacity.Overshoot | splitinfer/partitioner/solver.py:109-112 | an admissible plan exceeds a capacity by less than one bucket |
| Capacity.ByteExact | splitinfer/partitioner/solver.py:111-112 | with dividing buckets, admissible means that the bytes fit |
| Capacity.OptimalIsByteOptimal | splitinfer/partitioner/tests/test_solver.py:39-61 | and the bucketed optimum is the brute-force optimum |
| Capacity.HostAlwaysFitsIff | splitinfer/partitioner/solver.py:76-78 | accepted plans always respect the host budget exactly when the bucket divides it |
| Capacity.DdrAlwaysFitsIff | splitinfer/partitioner/solver.py:76-78 | accepted plans always respect a resident DDR2 capacity exactly when the bucket divides it or is larger than it |
| Capacity.HostCounterexample | splitinfer/partitioner/solver.py:109-112 | a concrete layer list that overshoots otherwise |
| Capacity.DdrCounterexample | splitinfer/partitioner/solver.py:109-112 | the same for the DDR2 capacity |
| Capacity.MoreMemoryNotDearer | splitinfer/partitioner/solver.py:105-171 | at fixed bucket sizes more memory never raises the optimum nor loses a solution |
| Capacity.ChosenBuckets | splitinfer/partitioner/solver.py:90-102 | the chosen buckets number at most max_states |
| Capacity.FinestBuckets | splitinfer/partitioner/solver.py:90-102 | no bucket of at least a page is finer and still within max_states, or within its root when both capacities count |
| Capacity.TableWithinIff | splitinfer/partitioner/solver.py:90-112 | the table stays within max_states exactly when the capacities leave room for the extra level, in every regime: streamed, either capacity zero, both active; it never exceeds max_states + 1, or the square of one more than the root when both count |
| Capacity.HostTableTooLarge | splitinfer/partitioner/solver.py:96-99 | for every max_states, a host budget of that many pages gives one entry too many, streamed or without DDR2 |
| Capacity.DdrTableTooLarge | splitinfer/partitioner/solver.py:100-101 | the same for a resident DDR2 without a host budget |
| Capacity.BothTableTooLarge | splitinfer/partitioner/solver.py:102 | with both active the bound of one more than the root, squared, is reached for every max_states |
| Capacity.NineOfFour | splitinfer/partitioner/solver.py:90-112 | two pages of each memory and four states give nine table entries |
| CostModel.WeightsOverLink | splitinfer/partitioner/cost_model.py:132-166 | pooled weights cost more than host weights, and streamed ones more than resident ones, by exactly their way over the link, so each pair ties if and only if the layer has no weights |
| CostModel.MoreMemory | splitinfer/partitioner/cost_model.py:176-182 | more memory makes more placements feasible and none dearer |
| ArbiterDma.DmaIsByteMemory | splitinfer/fpga/src/ddr2_arbiter.v:108-131 | as long as no accepted write overtakes a read of its word, every accepted DMA read is answered in order by one pulse with the byte last accepted there, and once drained, memory is the client's byte array |
| ArbiterDma.AgreeNext | splitinfer/fpga/src/ddr2_arbiter.v:195-261 | stage, read cache and outstanding read agree with the byte array after every cycle |
| ArbiterDma.PulseNext | splitinfer/fpga/src/ddr2_arbiter.v:214-231 | exactly one pulse per accepted read, a hit at once and a fill for the outstanding one |
| DmaHazard.SafeIff | splitinfer/fpga/src/ddr2_arbiter.v:114-131 | that condition is exact in every lawful state: a cycle keeps it if and only if no run without further writes goes wrong after it |
| DmaHazard.OvertakingGoesWrong | splitinfer/fpga/src/ddr2_arbiter.v:207-231 | every overtaking write has a continuation in which as many answers as owed are given and one is wrong |
| DmaHazard.OvertakenReadIsStale | splitinfer/fpga/src/ddr2_arbiter.v:224-231 | the shortest run from reset: a write during an outstanding read makes the next read return the old byte |
| DmaHazard.Drain | splitinfer/fpga/src/ddr2_arbiter.v:224-231 | left to the controller, an issued read is answered with the burst memory held when it was issued, and the cache filled with it |
| DmaAnswers.AnsweredWithin | splitinfer/fpga/src/ddr2_arbiter.v:214-260 | an outstanding read is answered once the controller has carried out the operations in front of it, a word staged before it and the read itself; one already issued at exactly that operation |
| DmaAnswers.OwingNext | splitinfer/fpga/src/ddr2_arbiter.v:233-260 | each operation carried out brings the answer one nearer, and no cycle takes it further away |
| ArbiterSettles.Settles | splitinfer/fpga/src/ddr2_arbiter.v:195-261 | from every state of every run: once client and engines are quiet, a stated number of cycles that the controller serves (57 and one for each pending operation) leaves nothing staged, latched, presented or pending, and both DMA directions ready |
| ArbiterSettles.BytesReachMemory | splitinfer/fpga/src/ddr2_arbiter.v:195-261 | and then memory is the DMA client's byte array and every read it made has been answered |
| ArbiterSettles.FlushedAfterIdle | splitinfer/fpga/src/ddr2_arbiter.v:206-212 | a silent client's staged word asks to be flushed after exactly the cycles left to the idle limit and one more, not before, whatever the engines do |
| ArbiterSettles.WaitingFlushes | splitinfer/fpga/src/ddr2_arbiter.v:209-212 | a read that waits or a write that is not accepted has the staged word flushed at once |
| ArbiterService.FirstServed | splitinfer/fpga/src/ddr2_arbiter.v:233-261 | a free slot goes to the first in rank of all that wait: the near-memory port, the MAC port, the flush, the DMA read, each port's writes before its read |
| ArbiterService.EngineBeforeDma | splitinfer/fpga/src/ddr2_arbiter.v:233-261 | from the cycle in which an engine's operation waits, the next operation presented is an engine's, however long the slot stays busy |
| ArbiterService.DmaStarves | splitinfer/fpga/src/ddr2_arbiter.v:233-261 | an engine that writes in every other cycle keeps a staged word from memory for any number of cycles |
| ArbiterService.WritesCoalesce | splitinfer/fpga/src/ddr2_arbiter.v:195-212 | bytes of one word, one a cycle, are all taken and cost no operation: the stage holds exactly the last byte of each lane |
| ArbiterService.ReadsAtOnce | splitinfer/fpga/src/ddr2_arbiter.v:214-223 | reads of the cached word, one a cycle, are each answered in the next and cost no operation |
| EngineWrites.CacheNextIff | splitinfer/fpga/src/ddr2_arbiter.v:224-261 | engine writes beside DMA reads: a cycle keeps the read cache right exactly if no write issued in it changes the word of a DMA read that stays in flight |
| EngineWrites.EnginesThenDma | splitinfer/fpga/src/ddr2_arbiter.v:195-261 | after any traffic of engines and client without such a write, once settled, the client stands before memory as it is, the engines' writes included |
| EngineWrites.EngineAnswered | splitinfer/fpga/src/ddr2_arbiter.v:162-171 | and by then each engine has every burst it asked for, but for reads it replaced itself |
| ArbiterRuns.IssuedOnceInOrder | splitinfer/fpga/src/ddr2_arbiter.v:162-167 | under any back-pressure, memory is the issued operations carried out in order, and each port's issued writes are a prefix of its pushes, at most two behind |
| ArbiterRuns.QueueNextIff | splitinfer/fpga/src/ddr2_arbiter.v:174-193 | a queue loses its head when popped and gains the push, exactly unless a third write arrives without a pop |
| ArbiterRuns.ReadBehindWrites | splitinfer/fpga/src/ddr2_arbiter.v:233-250 | an engine read is issued only behind all its port's earlier writes |
| ArbiterRuns.ReturnRouted | splitinfer/fpga/src/ddr2_arbiter.v:82-89 | a returning burst goes to the port that asked, and is the memory behind everything issued before |
| ArbiterRuns.AskedWhenIssued | splitinfer/fpga/src/ddr2_arbiter.v:240-260 | which port, which burst and which data a read is owed, fixed as it is issued |
| EngineReads.AnsweredInOrder | splitinfer/fpga/src/ddr2_arbiter.v:91-107 | in every run each engine's reads come back at most once, in order and with memory behind everything issued before; what has not come back waits in the latch, is in flight or was replaced in the latch, and an engine that replaces none has its words issued in the order asked, at most two behind |
| EngineReads.AnsweredExactly | splitinfer/fpga/src/ddr2_arbiter.v:167-171 | a read in flight comes back with exactly the operation it is, behind those in front of it and not earlier, carrying what it was promised |
| EngineReads.EngineNext | splitinfer/fpga/src/ddr2_arbiter.v:145-263 | every cycle keeps both, whatever the controller does |
| ArbiterRuns.NextInv | splitinfer/fpga/src/ddr2_arbiter.v:145-263 | the invariant of every run, for every ready and latency behaviour of the controller |
| Ddr2Arbiter.PopsAgree | splitinfer/fpga/src/ddr2_arbiter.v:133-135 | the pop signals agree with the issue chain in every state |
| Ddr2Arbiter.Arbiter.Clock | splitinfer/fpga/src/ddr2_arbiter.v:145-263 | one clock edge of all registers, to the step that the results above are about |
| AsyncFifo.FifoSafe | splitinfer/fpga/src/cdc_async_fifo.v:30-109 | in every interleaving of the clocks, pointers caught in transition included: reads are a prefix of writes, at most the depth is held, full and empty err on the safe side, the front is the next byte |
| AsyncFifo.EmptyExact | splitinfer/fpga/src/cdc_async_fifo.v:70-109 | three read edges after writes stop, `rd_empty` is exact |
| AsyncFifo.FullExact | splitinfer/fpga/src/cdc_async_fifo.v:81-102 | three write edges after reads stop, `wr_full` is exact |
| AsyncFifo.StepInv | splitinfer/fpga/src/cdc_async_fifo.v:36-109 | every edge of either clock, alone or together, keeps the invariant |
| AsyncFifo.Fifo.Clock | splitinfer/fpga/src/cdc_async_fifo.v:28-109 | any instant at which a clock rises, register by register |
| Gray.CodeInjective | splitinfer/fpga/src/cdc_async_fifo.v:34 | equal codes mean equal pointers |
| Gray.MixIsEither | splitinfer/fpga/src/cdc_async_fifo.v:70-79 | a pointer caught while it counts up reads as the old or the new one |
| Gray.FullIsHalf | splitinfer/fpga/src/cdc_async_fifo.v:94-98 | the gray-coded full test is a binary difference of the depth |
| Handshake.DeliversInOrder | splitinfer/fpga/src/cdc_handshake.v:25-67 | in every interleaving, payloads are delivered in order and once, at most one in flight |
| Handshake.HoldStable | splitinfer/fpga/src/cdc_handshake.v:35-42 | while a payload is in flight the held data cannot move |
| Handshake.OneTransition | splitinfer/fpga/src/cdc_handshake.v:27-53 | the toggle ring holds at most one transition, and none exactly when the source is ready |
| Handshake.DeliveredSoon | splitinfer/fpga/src/cdc_handshake.v:46-66 | three destination edges deliver what was accepted |
| Handshake.ReadySoon | splitinfer/fpga/src/cdc_handshake.v:27-33 | two source edges after delivery the source is ready again |
| Handshake.Crossing.Clock | splitinfer/fpga/src/cdc_handshake.v:25-67 | one instant at which either clock or both rise; on both, each side samples the other's toggle before or after |
| Handshake.StepInv | splitinfer/fpga/src/cdc_handshake.v:25-67 | every edge keeps the invariant |
| Elementwise.SplitProduct | splitinfer/fpga/src/elementwise.v:86-95 | neither half product nor their 49-bit sum wraps, and they recombine to the exact 33x16 product |
| Elementwise.LaneIsEpilogue | splitinfer/fpga/src/elementwise.v:83-107 | stages 1 to 5 compute the requantisation of the kernels and the emulator |
| Elementwise.LaneIsByteOp | splitinfer/fpga/src/elementwise.v:71-82 | the byte lanes agree with the emulator; 16-bit intermediates never wrap |
| Elementwise.DoneFiveLater | splitinfer/fpga/src/elementwise.v:62-110 | for every schedule of starts, `done` rises exactly five edges after each start, with its result, which stays until the next |
| Elementwise.Unit.Clock | splitinfer/fpga/src/elementwise.v:62-110 | one edge of the five stages |
| MacArray.LaneIsDot | splitinfer/fpga/src/mac_array_8x8.v:40-67 | for every schedule, a start over a step in flight included: two cycles after the last step every lane is its row's dot product since the last start, as `fc_acc` computes it, exact up to 16383 steps, and `done` pulses in between |
| MacArray.StepInv | splitinfer/fpga/src/mac_array_8x8.v:40-67 | every lane holds the sum of all steps since the last start but the one in flight |
| MacArray.Mac.Clock | splitinfer/fpga/src/mac_array_8x8.v:40-67 | one edge of both stages |
| Requant.ParamsAccurate | splitinfer/partitioner/lowering.py:49-57 | for ratios in range: half a unit absolute and one part in 32767 relative error |
| Requant.ShiftedProduct | splitinfer/partitioner/lowering.py:49-57 | for every integer sum, the bounds on the shifted product against the exact scaled sum |
| Requant.Unclamped | splitinfer/partitioner/lowering.py:53-56 | in range nothing is clamped and the multiplier lies in the upper half of its range |
| Requant.Saturates | splitinfer/partitioner/lowering.py:53-56 | above the range multiplier and shift are stuck at 32767 and 0 |
| Requant.Underflows | splitinfer/partitioner/lowering.py:53-56 | below the range the shift stays at 31, with half a unit of absolute error; the multiplier is zero exactly for ratios of at most one part in 2^32 |
| Requant.RoundIff | splitinfer/partitioner/lowering.py:55 | to nearest, ties to even |
| Controller.IdleIsBlank | splitinfer/fpga/src/edgecoh_controller.v:145-164 | in every reachable idle state, watchdog exits included, every per-message register is zero, the read latch flag too |
| ControllerRuns.WatchdogFrees | splitinfer/fpga/src/edgecoh_controller.v:107-164 | from every reachable waiting state, as many cycles without progress as are left to the limit, and one more, pass through an idle state with nothing of the message left |
| ControllerRuns.WatchdogPatient | splitinfer/fpga/src/edgecoh_controller.v:107-130 | no message is given up in the 10,000,000 cycles after any progress, nor one that waits for an engine in 800,000,000 |
| ControllerRuns.GivenUp | splitinfer/fpga/src/edgecoh_controller.v:145-164 | a message given up ends in a blank idle state and presents, asks, starts and signals nothing more |
| Controller.StepReachable | splitinfer/fpga/src/edgecoh_controller.v:121-438 | the reachable-state invariant, whatever arrives |
| Controller.Fsm.Clock | splitinfer/fpga/src/edgecoh_controller.v:121-438 | one clock edge of the controller, to the step that the results around it are about |
| ControllerCompletes.MessageCompletes | splitinfer/fpga/src/edgecoh_controller.v:121-438 | every message is completed: from any idle state of a run, a whole message of any type whose bytes arrive and whose handshakes happen in time is done within a stated number of cycles, without a watchdog exit, with exactly its effects |
| ControllerCompletes.Completes | splitinfer/fpga/src/edgecoh_controller.v:121-438 | the same from any point of a message, within the cycles its remaining handshakes may take |
| ControllerCompletes.LeftNext | splitinfer/fpga/src/edgecoh_controller.v:166-434 | each handshake of each state brings the message one handshake nearer its end, and no cycle takes it further away |
| ControllerCompletes.EveryMessageServed | splitinfer/fpga/src/edgecoh_controller.v:121-438 | for every whole message there are surroundings that complete it, from reset |
| ControllerCompletes.TxNext | splitinfer/fpga/src/edgecoh_controller.v:121-438 | the receiver is told to go on exactly while bytes of a message may come, and a byte is presented to the transmitter only by the states that send |
| ControllerMessages.MessageEffects | splitinfer/fpga/src/edgecoh_controller.v:166-434 | back in idle without a watchdog exit, a well-formed message had exactly its effects: DATA_WRITE its bytes at consecutive addresses, DATA_READ its requests and every returned byte once behind the response header, NMC_EXEC one engine request with its fields, SYNC_BARRIER one pulse, and all but reads their eight acknowledge bytes |
| ControllerMessages.MsgStep | splitinfer/fpga/src/edgecoh_controller.v:166-434 | the message bookkeeping is kept by every cycle of a well-behaved link |
| ControllerRuns.CollectorExactIff | splitinfer/fpga/src/edgecoh_controller.v:200-214 | other payloads are taken whole exactly up to 31 bytes; a 32-byte payload is cut after one |
| ControllerRuns.DispatchesAfterTaken | splitinfer/fpga/src/edgecoh_controller.v:200-214 | and the collector dispatches in the very cycle of its last counted byte, however far apart the bytes |
| ControllerRuns.MessageCollected | splitinfer/fpga/src/edgecoh_controller.v:169-214 | from reset, any header and as many payload bytes as the collector takes: all kept, and dispatched after exactly that many |
| ControllerRuns.CutAfterOne | splitinfer/fpga/src/edgecoh_controller.v:200-214 | from reset, every message but a write that announces 32 bytes waits for its payload and is dispatched after the first byte |
| ControllerRuns.LeftBehind | splitinfer/fpga/src/edgecoh_controller.v:254-260 | the read base changes only at the dispatch of a read, the data latch only on a return |
| ControllerRuns.IdleKeepsRead | splitinfer/fpga/src/edgecoh_controller.v:25-28 | for every address and byte a run from reset ends idle with both still held, against the comment |
| ControllerMessages.LenIs | splitinfer/fpga/src/edgecoh_controller.v:181-187 | the length assembled on the last header byte is the header's length field |
| EndToEnd.Deploy | splitinfer/partitioner/lowering.py:177-380 | lowering followed by any mode: whatever is accepted, every mode answers every complete input with the graph's own integer output, exactly if no Relu ends the output chain and short of that Relu otherwise; and for graphs as ONNX has them that output is what the nodes compute one by one |
| Preservation.LoweringIsFaithful | splitinfer/partitioner/lowering.py:177-432 | compiler correctness: the reference result of the lowered program is the sums of the quantised graph's output chain, the graph's meaning once the chain's Relu is applied; the two are equal exactly if there is no such Relu or no sum is negative |
| Lowering.Lowering.Lower | splitinfer/partitioner/lowering.py:177-380 | takes every graph with unique names and consistent shapes, accepts exactly the acceptable ones (`AcceptedIff`) and returns the specified program within both limits; it is well formed and 16-byte aligned if the graph meets the graph conditions and no Concat takes an input a MatMul has taken |
| Acceptance.AcceptedIff | splitinfer/partitioner/lowering.py:85-380 | which graphs are accepted and how much memory their programs take, read off the graph: every Concat can be laid out, every node is known and finds what it reads, there is a MatMul, and the footprint, given exactly, fits |
| Acceptance.StreamingFootprint | splitinfer/partitioner/lowering.py:250-257 | streaming trades the constants of all fc layers for twice those of the largest, and nothing else |
| Slots.NextLayerApart | splitinfer/partitioner/lowering.py:322-329 | streamed: the constants of an fc layer and of the next one never overlap |
| EndToEnd.AcceptedFused | splitinfer/partitioner/lowering.py:186-199 | a graph is accepted only if every Add and Relu in it is fused into some chain and it has a MatMul |
| Fusion.FusionIsFaithful | splitinfer/partitioner/lowering.py:186-199 | fusing is sound: read node by node, with INT32 sums narrowed only where a node reads them, an accepted graph yields exactly the output of its fused chains |
| Fusion.ChainNarrow | splitinfer/partitioner/lowering.py:343-350 | a chain's INT8 tensor, MatMul, Add and Relu one after the other, is what the single fused layer computes |
| Fusion.ChainWide | splitinfer/partitioner/lowering.py:421-423 | its INT32 tensor is the layer's sums, rectified if a Relu is fused |
| Fusion.RunDone | splitinfer/partitioner/lowering.py:263-358 | after every prefix, each node's own tensor and each chain's fused one agree wherever an unfused node can read them |
| Rectified.PositiveIsOk | splitinfer/partitioner/lowering.py:177-199 | the graph MatMul, Relu, output meets every graph condition |
| Rectified.PositiveIsAccepted | splitinfer/partitioner/lowering.py:177-380 | and is accepted, resident and streaming |
| Rectified.ReluIsDropped | splitinfer/partitioner/lowering.py:421-423 | at input 1 and weight -1 it yields 0, node by node and by chains, while the lowered program yields -1 |
| EndToEnd.ImageHolds | splitinfer/partitioner/lowering.py:164-173 | image offsets recover every table, weight matrix and bias block |
| EndToEnd.ShapedIsOffered | splitinfer/partitioner/lowering.py:276-295 | a feed with the graph's shapes is acceptable to the program |
| PartReads.WellFormedIff | splitinfer/partitioner/lowering.py:223-358 | for every graph that meets the graph conditions and is accepted: the program is well formed if and only if no Concat takes a graph input an earlier MatMul has taken |
| PartReads.ReferenceRunsIff | splitinfer/partitioner/lowering.py:400-432 | such a program runs to the end in `run_reference` if and only if no MatMul reads a part, or a copy of it, that a longer Concat has overwritten in its map |
| PartReads.RunFits | splitinfer/partitioner/lowering.py:400-420 | the same for every prefix of the walk |
| PartReads.StaleReadFails | splitinfer/partitioner/lowering.py:410-415 | a MatMul behind a longer Concat that reads the Concat's first part, or a copy of it, finds a vector too long for `run_reference` to copy |
| PartReads.TakenPartFails | splitinfer/partitioner/lowering.py:283-301 | a graph input that an earlier MatMul has taken lies in that MatMul's region, not where the Concat needs it, so no extension of the program is well formed |
| TakenParts.TakenPartUnwritten | splitinfer/runtime/v2/executors.cpp:28-54 | in every run that writes inputs, constants and each layer's own regions, as every mode's does, that part's place in the Concat's buffer holds the part's value at any point exactly if it did before |
| TakenParts.TakenPartMissed | splitinfer/runtime/v2/executors.cpp:28-54 | for whatever lies there the input has a value that no run presents to the Concat's readers |
| TakenParts.RunFree | splitinfer/partitioner/lowering.py:263-351 | in every prefix of the walk, no layer, input or constant is placed in that slice |
| TakenParts.UnsafeIffTaken | splitinfer/partitioner/lowering.py:283-301 | a graph breaks the condition on Concats exactly if some MatMul takes a graph input before the Concat it is a part of |
| PartReads.RunTraced | splitinfer/partitioner/lowering.py:263-358 | in every prefix of the walk, copies of a part lie at its pin, overwritten ones at their Concat's buffer, buffers stay readable, and inputs a MatMul reads are known |
| Example.NetIsAccepted | splitinfer/partitioner/lowering.py:177-380 | a small recommender with an embedding, a dense input, a Concat, an fc layer and a second one that reads a part before or after the Concat is accepted, resident and streaming |
| Example.NetIsOk | splitinfer/partitioner/lowering.py:177-380 | its four variants meet every graph condition |
| Example.NetSafeIff | splitinfer/partitioner/lowering.py:263-358 | three of them are laid out right, all but the dense input read early, and in all but the embedding read late every MatMul comes in time |
| Example.NetWellFormedIff | splitinfer/partitioner/lowering.py:263-358 | what `lower` returns is well formed for exactly those three, and `run_reference` can run exactly two of them: the embedding read before the Concat, the dense input read after it |
| Sharing.TiledIffUnshared | splitinfer/partitioner/lowering.py:223-248 | one address per tensor lays out every Concat exactly when no tensor is a part at two places |
| Lowering.Lowering.Alloc | splitinfer/partitioner/lowering.py:85-90 | the next 16-byte boundary behind at least one byte, failing beyond the DDR2 |
| Lowering.Lowering.PlaceAt | splitinfer/partitioner/lowering.py:164-173 | the constant appended to the image and padded, its segment recorded |
| Lowering.Lowering.PartLength | splitinfer/partitioner/lowering.py:230-238 | which Concat parts have a length, and which error the others raise |
| Lowering.Lowering.PinParts | splitinfer/partitioner/lowering.py:241-248 | parts pinned behind each other; fails exactly at an unaligned offset |
| Lowering.Lowering.PinConcats | splitinfer/partitioner/lowering.py:226-248 | succeeds exactly when every Concat can be laid out within the DDR2; buffers disjoint, parts in order |
| Lowering.Lowering.ReserveSlots | splitinfer/partitioner/lowering.py:250-257 | succeeds exactly when both slots end within the DDR2, and leaves the specified slots and start of the walk |
| Lowering.SlotsReserved | splitinfer/partitioner/lowering.py:250-257 | the two slots are disjoint, aligned, and each large enough for the weights and biases of every fc layer |
| Lowering.Lowering.EmitGather | splitinfer/partitioner/lowering.py:265-282 | one gather as specified, or failure exactly when it does not fit |
| Lowering.Lowering.EmitConcat | splitinfer/partitioner/lowering.py:283-301 | one Concat as specified; fails exactly at a part nobody provides |
| Lowering.Lowering.EmitMatMul | splitinfer/partitioner/lowering.py:302-351 | one fc layer as specified, or failure exactly when it does not fit |
| Lowering.Lowering.EmitNode | splitinfer/partitioner/lowering.py:263-358 | one node: its result or its error |
| Lowering.RunOk | splitinfer/partitioner/lowering.py:263-358 | every prefix of the walk keeps the layout invariant |
| Pins.PinsDone | splitinfer/partitioner/lowering.py:223-248 | pinned parts tile their buffer in order; different parts and buffers never overlap |
| Pins.PinStep | splitinfer/partitioner/lowering.py:240-248 | one more Concat leaves the earlier buffers alone |
| NodeSteps.GatherAfterOk | splitinfer/partitioner/lowering.py:265-282 | a gather keeps the layout invariant, pinned or not |
| NodeSteps.ConcatAfterOk | splitinfer/partitioner/lowering.py:283-301 | a Concat with its dense parts keeps it |
| NodeSteps.MatMulAfterOk | splitinfer/partitioner/lowering.py:302-351 | an fc layer keeps it, streamed or resident, final or hidden |
| WalkLayers.IdentityStep | splitinfer/partitioner/lowering.py:354-356 | an Identity keeps it |
| WalkLayers.SkipStep | splitinfer/partitioner/lowering.py:352-353 | a fused Add or Relu keeps it |
| WalkSteps.SlotSegmentFits | splitinfer/partitioner/lowering.py:322-325 | weights in a slot overlap no part, no table and no other segment of their layer |
| WalkSteps.PinnedInputStep | splitinfer/partitioner/lowering.py:290-296 | a dense part written straight into its Concat's buffer |
| Emission.FcOk | splitinfer/partitioner/lowering.py:315-350 | the emitted record is a layer the executors accept: constants found, padding zero, input of the right length |
| Emission.Finished | splitinfer/partitioner/lowering.py:360-376 | a finished walk with an fc layer is a well-formed program |
| Graph.FusedAddIff | splitinfer/partitioner/lowering.py:190-194 | an Add is fused exactly if it is the only node reading the MatMul's output, reads it once, and adds an initialiser |
| Graph.FusedReluIff | splitinfer/partitioner/lowering.py:195-196 | a Relu is fused exactly if it is the only reader of the MatMul's output or, behind a fused Add, of the sum |
| Graph.FinalUnread | splitinfer/partitioner/lowering.py:332-334 | a final chain's output is read by nothing but an Identity to the graph output |
| Graph.PadRowsAt | splitinfer/partitioner/lowering.py:316-317 | byte i of row m of a padded matrix |
| Constants.GatherValue | splitinfer/partitioner/lowering.py:401-406 | the row read back from the image is the table's row |
| Constants.FcValues | splitinfer/partitioner/lowering.py:413-422 | accumulators and biases read back from the image are the node's |
| Meaning.VecsGrown | splitinfer/partitioner/lowering.py:396-430 | adding layers, constants or unread inputs leaves every computed vector as it was |
| Preservation.EmitMeans | splitinfer/partitioner/lowering.py:263-358 | through every node, the vector at a tensor's address is the tensor's value |

## Left out

* Loading ONNX models, shape inference, calibration and FP32 reference runs: graphs, INT8 constants, scales and requantisation ratios are given.
* Quantisation of floats to INT8 and of biases to INT32: constants are given as bytes and integers. Accuracy against FP32 is not decided by the code.
* JSON reading and writing, vectors.bin, command lines, evaluation scripts, profiling, statistics in nanoseconds, sleeps and real-time delays.
* USB and tty transports, signal delivery, the fault pipe and its service thread, mmap: a fault is one atomic call. More than one application thread is not modelled.
* `verify_layers`, the `max_layers` debug limit, metrics other than message, page and byte counters.
* The legacy pipeline, the runtime's GPU and FPGA executors, ownership and epoch bookkeeping, telemetry.
* mac_controller.v, eltwise_controller.v, embedding_lookup.v, nmc_dispatch.v, usb_interface.v and top.v are not part of this model. The UART transmitter and the memory controller are environments; byte-level timing of acknowledgements on the wire is not proved.
* `app_wdf_end` follows `app_wdf_wren` and is left out; the registers `nmc_wq_pop` and `mac_wq_pop` are never read.
* Floating point is idealised: costs are reals, and `math.sqrt` and `math.log2` are exact. A bucket of 0 divides by zero in the code and is excluded.
* The solver's report leaves out `candidates_ms` and `arithmetic_intensity`, and the crossover, which `Crossover` has on its own; an empty layer list or no allowed placement is an error outcome.
* Addresses and lengths are naturals with 32-bit bounds where messages carry them; one index per lookup (`n_idx` is 1 in every lowered program). Signed overflow in C++ is taken to wrap.
* The pool executor reads weights through the window, whose backend returns device bytes; that a backend read is a `Link::read` of the same bytes is the contract of `Link.Read`.
* Destroying executors, several windows at once, and the registry that finds the window of a fault.
- VirtualFpga.Fpga.Send: the stream is one whose complete messages carry the fields their type needs; the code reads past shorter payloads.
- Lowering.Lowering.Lower: the kind of error is not part of the contract, only that an error is raised exactly for graphs that are not acceptable.
- Requant.Params: states the ranges of multiplier and shift; the accuracy is stated by ParamsAccurate and ShiftedProduct.
- Link.Link.Write: addresses in range and an idle link; what the device does with a range it does not have is part of the device model, not of this contract.
- Link.Link.Read: the same.
