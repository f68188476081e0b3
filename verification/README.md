# AttAcc verification model

A Dafny model of two components of the AttAcc simulator, and proofs about them.

**The PIM command pipeline.** A trace generator lays out keys and values in HBM and interleaves
WR_GB, MAC, MV_SB, SFM, MV_GB and BARRIER commands for pairs of heads; the trace is printed, parsed
and replayed in order; an address mapper decodes each address; per channel a controller queues the
requests and issues up to two commands a cycle, chosen out of order by a barrier-aware scheduler.
The main result, `EndToEnd.NoHazard`, says that the generated barriers and the scheduler's barrier
rule together exclude every hazard on every run.

**The analytical cost model.** Tile search with memoisation, sampled prefill, pipelining overlap, a
result cache in front of the simulator, and layer routing.

## How it is organised

| file | content |
|---|---|
| PimTypes, Arith | requests, commands, the device; small arithmetic facts |
| PimScheduler | the selection rule, as a fold and as a simple specification |
| ControllerState | one controller as a value: the effect of every operation |
| BarrierLedger, ControllerSafety, ControllerRuns, PimOnlyRuns | invariants of a controller and its runs |
| ArrivalOrder, RefreshPriority | order of arrival; what goes before a queued refresh |
| IssueRules, ServiceHistory, ActivationOrder | what a slot may serve; what was issued and done on every run, and for whom |
| PimController | the controller and the refresh manager as classes, proved equal to ControllerState |
| AddrMapper | the linear address mappers, both directions |
| TraceText | printing and parsing a trace |
| SystemState, SystemSafety, PimSystem | frontend, mapper and all controllers: steps, theorems about every run, classes |
| RefreshOnRuns, LostLoads, OneChannel | refreshes on every run; runs on which a refresh is overtaken or a load is lost |
| TraceLayout, CommandLists, TraceScript | the command lists of an iteration, and their interleaving as a script |
| TraceTiming, TraceHazards | when each command is emitted, counted in barriers, and what that separates |
| TraceEmission | how often each command is emitted |
| TraceGen | the generator as it runs, proved to build the trace of TraceScript |
| MemoryLayout | where the addresses lie |
| EndToEnd | generator to last DRAM command |
| TileSearch, Prefill, Pipelining, ResultCache, Routing | the cost model |

Code that changes state is a class whose methods are proved equal to a function of the old state;
the theorems are about those functions, so they hold of the methods.

## Assumptions and conventions

- The DRAM device answers `get_preq_command`, `check_ready` and `check_rowbuffer_hit` by arbitrary
  functions of the commands issued to its channel so far and of the clock. Theorems hold for every
  such device. Only the theorems named Lean assume that a refresh never needs an opening command.
- `ReqBuffer` is a bounded list, `slice_lower_bits` takes the low bits and shifts them off,
  `tokenize` splits at single spaces.
- A request carries its trace position, and a command of the generator its iteration and role. No
  decision reads either; they name the requests that theorems speak about. A command that is emitted
  a second time (a dummy MAC, a replayed context list) is labelled as such.
- A request is done when its final command was issued or, for a read, when its data came back. `done`,
  `dropped` (a leading barrier) and `lost` (moved to a full active buffer) record what became of each request.
- The second issue slot compares with the command of the request at which the first slot's iterator
  is left, whether that was found or not (`ControllerState.Pointed`); when the request was removed,
  with the command it had. The parameter `stale` stands for what the source reads when the iterator
  is left at the end of a buffer, which needs an empty priority buffer and no request to choose in
  the last buffer asked.
- The memory of the generators is sixteen channels of the preset HBM3_8Gb_2R with the mapper HBM3-PIM.
- Floating point is real arithmetic; `math.ceil(L / 16 / 16)` and the like are exact.

## Where the code and its intention differ

- The second head of a pair repeats the context commands of the first (`SecondContextNeverEmitted`).
- No barrier separates the softmax from the MV_SB of the last group before it, nor, without a partner or in a loop of one pass, from the MV_GB
  after it (`SoftmaxAfterOuts`, `MvgbAfterSoftmax`).
- Floored strides drop the tails of WR_GB and MV_GB lists; `NothingLost` says exactly when not.
- The keys of different iterations overlap unless a head's share of the first bank fits its partition (`ApartIffFit`): with two bytes per element
  2 L has to be at most max_L (`FitsMaxL`, `TwoBytesOverlap`), and in the bank-group and buffer placements columns that do not fill all banks
  evenly need room for padding as well (`UnevenOverlap`).
- The generator needs one dummy MAC per channel, and fails for L = 0 or a zero head dimension from two iterations on (`RunAttention`).
- The tile memo ignores the kind of layer, so the first call under a key decides (`FirstCallDecides`, `MemoForgetsKind`).
- The result cache disagrees with a fresh run for BUFFER and for more than one group in fast mode (`CacheAgreesExactly`).
- Level pipelining can produce a negative qkv or proj time (`TimesMayTurnNegative`).
- A request that moves to a full active buffer is lost (`LostExactlyWhenActiveFull`), which happens for all buffer sizes unless a refresh comes first (`LoadsGetLost`).
- When the first slot finds the oldest refresh not ready, the second compares the refresh with its own command and so passes over it: a cycle
  issues another command before a queued refresh exactly when its first slot found nothing and `Pointed` does not complement the refresh
  (`RefreshGoesFirst`, `EveryRunRefreshesFirst`, `RefreshOvertaken`).

## Model

| member | source | states |
|---|---|---|
| EndToEnd.NoHazard | pim_ramulator_src/trace_gen/gen_trace_attacc_bank.py:212-357 | For every placement, L, head dimension and head count, on every run of the simulator, in every channel and for every device: a score MAC is done only after all WR_GB of its head, an MV_SB only after the MACs of its group and of earlier ones, the softmax only after all score MACs, a context MAC only after all score MV_SB, the softmax and all MV_GB. |
| EndToEnd.FinishedInOrder | pim_ramulator_src/trace_gen/gen_trace_attacc_bank.py:212-357 | When the simulation has finished, both commands of such a pair are in the log of completed requests exactly once, in that order. |
| EndToEnd.HazardsArise | pim_ramulator_src/trace_gen/gen_trace_attacc_bank.py:212-357 | Every trace with L, head dimension and head count above zero contains two commands, one of which must follow the other, that decode to the same channel. |
| EndToEnd.SomeSimulator | pim_ramulator_src/pim_loadstore_trace.cpp:76-138 | Every trace whose addresses are below 2^63 is replayed by some simulator, with any sixteen controllers; with `HazardsArise`, the hypotheses of `NoHazard` can be met together. |
| EndToEnd.SameCommands | pim_ramulator_src/pim_loadstore_trace.cpp:87-133 | The records the frontend reads are exactly the generated commands, type and address. |
| EndToEnd.FileAccepted | pim_ramulator_src/pim_loadstore_trace.cpp:87-133 | A generated file is accepted if and only if all addresses are below 2^63. |
| EndToEnd.BarrierChannel | pim_ramulator_src/trace_gen/gen_trace_attacc_bank.py:205-209 | The barrier printed for channel c is decoded to channel c. |
| EndToEnd.GeneratedRunsAreLean | pim_ramulator_src/hbm3_pim_controller.cpp:138-143 | On every run of a generated trace the active buffer stays empty and no request is lost, if refreshes never need an opening command. |
| PimScheduler.BestIsFirstPickable | pim_ramulator_src/pim_scheduler.cpp:58-95 | On any arrival-ordered buffer, after dropping at most one leading barrier, the selection is: the head if it is ready, else the first eligible ready request that is a row hit or whose bank has no pending row hit, else the head. |
| ArrivalOrder.EveryRunInOrder | pim_ramulator_src/hbm3_pim_controller.cpp:71-86 | On every run the read, write and PIM buffers are in the order of arrival, with no arrival in the future. |
| ArrivalOrder.EverySelectionIsFirstPickable | pim_ramulator_src/pim_scheduler.cpp:58-95 | So on every run, inside every cycle of every controller, both slots select from these buffers by the simple rule, each in the state in which it asks. The active buffer is in the order of activation; its selections are the fold alone. |
| ArrivalOrder.ChooseInTurn | pim_ramulator_src/hbm3_pim_controller.cpp:233-382 | Either slot serves the active buffer if what is selected there is ready and of the right type, else the PIM buffer, else the read or write buffer. Without a refresh it serves nothing only if none of them can be served or the first that can would close a row. |
| ArrivalOrder.PointedAtSelected | pim_ramulator_src/hbm3_pim_controller.cpp:233-281 | Without a refresh, the iterator of the first slot is left at what was selected in the first buffer that can be served, else in the read or write buffer; at its end only when that is empty. |
| ActivationOrder.EveryActiveWasOpened | pim_ramulator_src/hbm3_pim_controller.cpp:138-143 | On every run, every request in an active buffer had an opening command issued to its address, and the buffer is in the order in which that happened. |
| PimScheduler.BarrierHoldsBack | pim_ramulator_src/pim_scheduler.cpp:85-93 | On any buffer, a request separated from the head by a barrier is selected only to open or close a row, never for its final command. |
| PimScheduler.PIM.Compare | pim_ramulator_src/pim_scheduler.cpp:32-56 | The pairwise comparison: readiness first, then row-hit protection, then arrival, the earlier of two equals. |
| PimScheduler.PIM.SetCommands | pim_ramulator_src/pim_scheduler.cpp:63-65 | Every request gets the command the device asks for next, and nothing else of it changes. |
| PimScheduler.PIM.StoreRowHits | pim_ramulator_src/pim_scheduler.cpp:67-73 | The list holds exactly the banks of the requests that are row hits. |
| PimScheduler.PIM.FoldCandidates | pim_ramulator_src/pim_scheduler.cpp:85-94 | The loop computes the fold that `BestIsFirstPickable` characterises. |
| PimScheduler.PIM.GetBestRequest | pim_ramulator_src/pim_scheduler.cpp:58-95 | The buffer left behind and the position selected are those of `Best`, for every buffer, also the empty one and the one that holds a single barrier. |
| BarrierLedger.NothingBarredWaits | pim_ramulator_src/pim_scheduler.cpp:77-93 | In a safe state, no request that a barrier separates from an unbarred position still waits in the buffer. |
| BarrierLedger.DropLeadingBarrier | pim_ramulator_src/pim_scheduler.cpp:77-83 | Dropping a leading barrier keeps the ledger safe. |
| BarrierLedger.FinishUnbarred | pim_ramulator_src/hbm3_pim_controller.cpp:129-136 | Completing a request that no barrier separates from the head of the buffer keeps the ledger safe. |
| BarrierLedger.AcceptPim | pim_ramulator_src/hbm3_pim_controller.cpp:75-84 | Accepting a new PIM request keeps the ledger safe. |
| ControllerSafety.TickKeeps | pim_ramulator_src/hbm3_pim_controller.cpp:105-174 | Every cycle, for every device and whatever command the second slot compares with, keeps barrier safety and conservation. |
| ControllerSafety.SendSafe | pim_ramulator_src/hbm3_pim_controller.cpp:53-95 | Sending a request newer than all accepted ones keeps barrier safety. |
| ControllerSafety.SendConserves | pim_ramulator_src/hbm3_pim_controller.cpp:53-95 | Sending keeps the balance of accepted requests against those held, done, dropped or lost. |
| ControllerSafety.PrioritySendKeeps | pim_ramulator_src/hbm3_pim_controller.cpp:97-103 | Queuing a refresh keeps both invariants. |
| ControllerSafety.ExecuteKeeps | pim_ramulator_src/hbm3_pim_controller.cpp:124-145 | Issuing a command and completing or moving its request keeps both invariants. |
| ControllerSafety.ChooseKeeps | pim_ramulator_src/hbm3_pim_controller.cpp:233-300 | Selecting a request for either slot, which may drop leading barriers of several buffers, keeps both invariants, and no barrier bars a PIM request that is selected for its final command. |
| ControllerSafety.ServeKeeps | pim_ramulator_src/hbm3_pim_controller.cpp:190-209 | Serving a completed read keeps both invariants: what leaves the pending queue is done. |
| SystemSafety.EveryRecordInOnePlace | pim_ramulator_src/hbm3_pim_controller.cpp:53-174 | On every run, for records of any type: a delivered record is in exactly one of a buffer, pending, done, dropped or lost of its own channel, and nowhere else; a record not delivered yet is nowhere. |
| ControllerRuns.IdleMeansDone | pim_ramulator_src/hbm3_pim_controller.cpp:177-180 | When nothing is pending, every accepted PIM request but a barrier is done, exactly once. |
| ControllerRuns.TickIssues | pim_ramulator_src/hbm3_pim_controller.cpp:147-173 | A cycle issues at most two commands and, if two, one that opens, closes or refreshes rows and one that serves data. |
| ControllerRuns.TypesMean | pim_ramulator_src/hbm3_pim_controller.cpp:385-406 | Column commands are exactly the final commands of all requests but refreshes and barriers; row commands are those that open, close or refresh rows, but for PRESB and PREPB. |
| IssueRules.ChooseFit | pim_ramulator_src/hbm3_pim_controller.cpp:233-382 | Either slot serves only a request from a buffer with the command the device asks for next, when the device reports that as ready, and never closes the bank of a request in the active buffer. |
| IssueRules.ClosesMeans | pim_ramulator_src/hbm3_pim_controller.cpp:283-297 | Kept back are exactly the closing commands for an address that agrees with a request of the active buffer on all levels above the row. |
| IssueRules.TickServes | pim_ramulator_src/hbm3_pim_controller.cpp:105-174 | Every command that a cycle issues is reported as ready by the device, after the commands before it, and is what the device then asks for to serve a request in one of the five buffers. |
| ServiceHistory.EveryCommandIsDue | pim_ramulator_src/hbm3_pim_controller.cpp:105-174 | On every run, in every channel: every command ever issued was ready at that moment and was what the device asked for to serve a delivered record of that channel or a refresh of its own; no cycle issues more than two. |
| ServiceHistory.EveryDoneWasIssued | pim_ramulator_src/hbm3_pim_controller.cpp:124-145 | On every run the final commands of all that is done were issued to the addresses of their records, as often as such records are done. A read has returned only when readLatency cycles have passed since a read command to its address, or when an earlier write to the same address was forwarded to it. |
| ServiceHistory.FinishedMeansIssued | pim_ramulator_src/pim_loadstore_trace.cpp:141-143 | When the simulation ends, the command of every PIM record but the barriers has been issued to the address it decodes to, on its channel. |
| ServiceHistory.EveryRequestIsKnown | pim_ramulator_src/hbm3_pim_controller.cpp:53-103 | On every run, what waits in a read, write or PIM buffer is a delivered record of its own channel with the final command of its type; what waits in a priority buffer is an all-bank refresh of the own channel, of the pseudochannel that its id names; active buffers hold only such. |
| ServiceHistory.EveryQueuedReadIsAhead | pim_ramulator_src/hbm3_pim_controller.cpp:56-67 | On every run, no read waits in a read buffer behind an older write to its address in the write buffer: it was forwarded the data. |
| RefreshPriority.ChooseSource | pim_ramulator_src/hbm3_pim_controller.cpp:245-255 | While a refresh is queued, the first slot selects only a request of the active buffer or the oldest refresh; the second slot too, unless the refresh does not complement the first command. |
| RefreshPriority.FirstSlotFindsNothing | pim_ramulator_src/hbm3_pim_controller.cpp:233-301 | While a refresh is queued, the first slot finds nothing exactly when the ready request of the active buffer would close its own row, or there is none and the oldest refresh is not ready or would close an active row. |
| RefreshPriority.PointedAtFront | pim_ramulator_src/hbm3_pim_controller.cpp:233-255 | Its iterator is then left at that request, or at the refresh with the command it needs next. |
| RefreshPriority.FirstServedIssues | pim_ramulator_src/hbm3_pim_controller.cpp:124-174 | The first command that a cycle issues is that of the request served first. |
| RefreshPriority.RefreshGoesFirst | pim_ramulator_src/hbm3_pim_controller.cpp:233-345 | While a refresh is queued and the active buffer holds no barrier, the first command of a cycle serves a request of the active buffer or the oldest refresh exactly when the first slot found one, or the command its iterator is left at complements the refresh. The latter takes a refresh that waits for a column command behind a ready request of the active buffer. |
| RefreshOnRuns.EveryRunRefreshesFirst | pim_ramulator_src/hbm3_pim_controller.cpp:105-174 | This rule holds on every run in every cycle of every controller. |
| RefreshOnRuns.RefreshOvertaken | pim_ramulator_src/hbm3_pim_controller.cpp:147-151 | The exception occurs: for every controller with room for its refreshes and a PIM request, a device and a run on which the cycle that queues the first refreshes finds their precharge not ready, and issues an MV_SB. |
| ControllerRuns.WriteModeSettles | pim_ramulator_src/hbm3_pim_controller.cpp:216-226 | Read mode never serves an empty read buffer; the mode changes exactly past a watermark or when the reads run out; with ordered watermarks, deciding twice is deciding once. |
| ControllerRuns.QueueRefreshesQueues | pim_ramulator_src/all_bank_refresh_hbm3.cpp:45-55 | Behind what is queued already come one all-bank refresh for each pseudochannel, in order: the p-th for the own channel, pseudochannel p and all of it (-1 at the other levels), with final command REFab. |
| ControllerRuns.BeginTickQueues | pim_ramulator_src/hbm3_pim_controller.cpp:105-111 | The first part of a cycle queues these refreshes exactly when they are due, returns the oldest pending read exactly when its time has come, and leaves the other buffers and the device alone. |
| ControllerRuns.QueueRefreshesCounts | pim_ramulator_src/all_bank_refresh_hbm3.cpp:45-55 | One refresh per pseudochannel is accepted, exactly when the priority buffer has room for all of them. |
| ControllerRuns.TickOnSchedule | pim_ramulator_src/all_bank_refresh_hbm3.cpp:40-57 | After t cycles each pseudochannel has had floor(t / nREFI) refreshes; a cycle throws if and only if refreshes are due and the priority buffer cannot take them all. |
| ControllerRuns.SendOnSchedule | pim_ramulator_src/hbm3_pim_controller.cpp:53-95 | Sending never changes the refresh count. |
| ControllerRuns.RefreshCadence | pim_ramulator_src/all_bank_refresh_hbm3.cpp:40-57 | On every run of sends and cycles in which nothing was thrown, the refresh count is exact. |
| RefreshOnRuns.EveryRunOnSchedule | pim_ramulator_src/all_bank_refresh_hbm3.cpp:40-57 | On every run of the simulator that has not thrown, every controller has queued floor(clk / nREFI) refreshes per pseudochannel. |
| PimOnlyRuns.TickLean | pim_ramulator_src/hbm3_pim_controller.cpp:138-143 | A cycle of a PIM-only controller leaves the active, read and write buffers empty and loses nothing. |
| PimOnlyRuns.SendLean | pim_ramulator_src/hbm3_pim_controller.cpp:69-86 | Sending a PIM request keeps that. |
| PimOnlyRuns.LostExactlyWhenActiveFull | pim_ramulator_src/hbm3_pim_controller.cpp:139-142 | In general a request is lost exactly when it is moved while the active buffer is full. |
| LostLoads.LoadsGetLost | pim_ramulator_src/hbm3_pim_controller.cpp:139-142 | It happens: for every controller with room for requests and no refresh before the active buffer can be full, a device, a trace of loads and a run on which exactly the first load that does not fit is lost. |
| PimController.HBM3PIMController.constructor | pim_ramulator_src/hbm3_pim_controller.cpp:9-51 | A new controller is in the initial state. |
| PimController.HBM3PIMController.Send | pim_ramulator_src/hbm3_pim_controller.cpp:53-95 | The new state and the outcome (accepted, refused, exception) are those of the step `Send`, forwarding from the write buffer included. |
| PimController.HBM3PIMController.PrioritySend | pim_ramulator_src/hbm3_pim_controller.cpp:97-103 | The request is appended to the priority buffer if there is room. |
| PimController.HBM3PIMController.IsPending | pim_ramulator_src/hbm3_pim_controller.cpp:177-180 | Exactly whether any of the five buffers or the pending queue holds a request. |
| PimController.HBM3PIMController.ServeCompletedReads | pim_ramulator_src/hbm3_pim_controller.cpp:190-209 | The state is that of the step `ServeCompletedReads`. |
| PimController.HBM3PIMController.CompareCommandType | pim_ramulator_src/hbm3_pim_controller.cpp:385-422 | One row and one column command; a command of neither kind matches nothing. |
| PimController.HBM3PIMController.TryBuffer | pim_ramulator_src/hbm3_pim_controller.cpp:235-241 | One buffer in the first slot: what is found is ready. |
| PimController.HBM3PIMController.TryBufferSec | pim_ramulator_src/hbm3_pim_controller.cpp:309-317 | The same for the second slot, which also demands the other command type. |
| PimController.HBM3PIMController.CheckClosing | pim_ramulator_src/hbm3_pim_controller.cpp:283-297 | A closing command is dropped exactly when the active buffer holds a request of that bank. |
| PimController.HBM3PIMController.ScheduleRequest | pim_ramulator_src/hbm3_pim_controller.cpp:233-300 | The state and selection of the first slot are those of `Choose`. |
| PimController.HBM3PIMController.ScheduleSecRequest | pim_ramulator_src/hbm3_pim_controller.cpp:307-382 | The same for the second slot, with its own early exit. |
| PimController.HBM3PIMController.CompleteRequest | pim_ramulator_src/hbm3_pim_controller.cpp:128-136 | The request leaves its buffer; a read becomes pending. |
| PimController.HBM3PIMController.ActivateRequest | pim_ramulator_src/hbm3_pim_controller.cpp:138-143 | The request leaves its buffer, into the active buffer only if that has room. |
| PimController.HBM3PIMController.IssueCommand | pim_ramulator_src/hbm3_pim_controller.cpp:124-145 | Issue, then complete, activate or leave the request. |
| PimController.HBM3PIMController.IssueCommands | pim_ramulator_src/hbm3_pim_controller.cpp:113-173 | Both issue slots; the second reads the command the first had saved. |
| PimController.HBM3PIMController.Tick | pim_ramulator_src/hbm3_pim_controller.cpp:105-174 | One cycle is the step `Tick`, about which the theorems above speak. |
| PimController.AllBankRefreshHBM3.constructor | pim_ramulator_src/all_bank_refresh_hbm3.cpp:28-38 | The first refresh is due at nREFI. |
| PimController.AllBankRefreshHBM3.Tick | pim_ramulator_src/all_bank_refresh_hbm3.cpp:40-57 | The refresh manager and its controller make the step `RefreshTick`; false where the original throws. |
| AddrMapper.UnmapMap | pim_ramulator_src/hbm3_pim_linear_mappers.cpp:64-75 | Decoding an aligned address below the capacity and composing the coordinates gives the address back, in any order that slices each level once. |
| AddrMapper.MapUnmap | pim_ramulator_src/hbm3_pim_linear_mappers.cpp:64-75 | Composing coordinates in range gives an aligned address below the capacity that decodes to them: with `UnmapMap`, a bijection. |
| AddrMapper.SliceInRange | pim_ramulator_src/hbm3_pim_linear_mappers.cpp:64-75 | Every coordinate fits the bits of its level. |
| AddrMapper.MapperOrders | pim_ramulator_src/hbm3_pim_linear_mappers.cpp:88-95 | The orders of the four mappers slice each level exactly once. |
| AddrMapper.CalcLog2 | pim_ramulator_src/hbm3_pim_linear_mappers.cpp:30-38 | The largest n with 2^n at most the argument, and 0 for 0. |
| AddrMapper.LinearMapper.Setup | pim_ramulator_src/hbm3_pim_linear_mappers.cpp:23-49 | Each level gets floor(log2) of its count, so exactly its bits when the count is a power of two. |
| AddrMapper.LinearMapper.ApplyPim | pim_ramulator_src/hbm3_pim_linear_mappers.cpp:64-75 | The shifts and slices compute `MapAddr` in the order column, row, bank, bank group, rank, pseudochannel, channel; also the loop of HBM3-Base. |
| AddrMapper.LinearMapper.ApplyPimCustom | pim_ramulator_src/hbm3_pim_linear_mappers.cpp:88-95 | The channel is sliced first, then the column and upwards. |
| AddrMapper.LinearMapper.ApplyCustom | pim_ramulator_src/hbm3_linear_mappers.cpp:83-93 | Channel, pseudochannel, bank group, column, rank, bank, row. |
| TraceText.PrintParse | pim_ramulator_src/pim_loadstore_trace.cpp:87-133 | Parsing a printed line gives back its type and address exactly when the address is below 2^63, and is an error otherwise. |
| TraceText.ParseFileLines | pim_ramulator_src/pim_loadstore_trace.cpp:87-133 | A file is read if and only if every line is, and then record i is line i. |
| TraceText.InitTrace | pim_ramulator_src/pim_loadstore_trace.cpp:76-138 | The loop over the lines computes `ParseFile`. |
| TraceText.HexDigits | pim_ramulator_src/trace_gen/gen_trace_attacc_bank.py:91-92 | The digits that hex() writes denote the number. |
| TraceText.PadKeepsNumber | pim_ramulator_src/trace_gen/gen_trace_attacc_bank.py:91-92 | Zero padding changes neither the digits nor the number, also beyond eight digits. |
| SystemSafety.EveryRun | pim_ramulator_src/PIM_DRAM_system.cpp:68-138 | On every run, for every device: what has been delivered is exactly a prefix of the trace, each channel has accepted exactly its records of that prefix, every counter equals the number of delivered records of its type, and every controller is safe and balanced. |
| SystemSafety.BarrierSafety | pim_ramulator_src/pim_scheduler.cpp:77-93 | On every run of any trace: a PIM request after a barrier of its channel is done only after every PIM request of that channel before the barrier. |
| SystemSafety.FinishedMeansAllDone | pim_ramulator_src/pim_loadstore_trace.cpp:141-143 | When the simulation ends, every PIM request but the barriers is done, exactly once, on its channel. |
| SystemSafety.FinishedMeansNoneHeld | pim_ramulator_src/pim_loadstore_trace.cpp:141-143 | Every record of any type is then done, dropped or lost, exactly once, on its channel. |
| SystemSafety.EveryPimRunIsLean | pim_ramulator_src/hbm3_pim_controller.cpp:138-143 | On every run of a PIM-only trace nothing is lost, if refreshes never need an opening command. |
| SystemSafety.CountOneMore | pim_ramulator_src/PIM_DRAM_system.cpp:73-127 | Counting an accepted request keeps all counters exact; barriers are not counted. |
| SystemSafety.OfferKeeps | pim_ramulator_src/PIM_DRAM_system.cpp:68-130 | Offering one record keeps all system invariants, whether it is accepted or refused. |
| SystemSafety.DeliverKeeps | pim_ramulator_src/pim_loadstore_trace.cpp:41-72 | A frontend tick, which sends until a record is refused, keeps them. |
| SystemSafety.DeliverGoesOn | pim_ramulator_src/pim_loadstore_trace.cpp:41-72 | The frontend goes on until the trace ends, a type comes that is never sent, or the next record is refused: its buffer is full, and no write forwards to it. Trying again at once changes nothing. |
| SystemSafety.TickFromKeeps | pim_ramulator_src/PIM_DRAM_system.cpp:132-138 | A memory tick keeps them, up to the first controller that throws. |
| SystemSafety.TickFromTicksAll | pim_ramulator_src/PIM_DRAM_system.cpp:132-138 | Every controller has exactly one cycle, but none behind the first that throws. |
| PimSystem.PIMDRAMSystem.Send | pim_ramulator_src/PIM_DRAM_system.cpp:68-130 | Map, dispatch by channel, count what was accepted: the step `SystemSend`. |
| PimSystem.PIMDRAMSystem.Tick | pim_ramulator_src/PIM_DRAM_system.cpp:132-138 | Every controller ticks once, in order. |
| PimSystem.PIMDRAMSystem.IsPending | pim_ramulator_src/PIM_DRAM_system.cpp:148-154 | Exactly whether some controller is pending. |
| SystemSafety.FinishedFrontendHasSentAll | pim_ramulator_src/pim_loadstore_trace.cpp:141-143 | When the frontend is finished, every record of the trace has arrived, exactly once, at the channel it decodes to. |
| PimSystem.PIMLoadStoreTrace.SendNext | pim_ramulator_src/pim_loadstore_trace.cpp:47-70 | One record is sent; index and count advance exactly when it was accepted. |
| PimSystem.PIMLoadStoreTrace.Tick | pim_ramulator_src/pim_loadstore_trace.cpp:41-72 | The loop is the step `Deliver`: in order, stopping at the first refusal. |
| TraceHazards.HazardFree | pim_ramulator_src/trace_gen/gen_trace_attacc_bank.py:212-357 | In every trace, between a command and one that must follow it stands a barrier of every channel. |
| TraceHazards.SoftmaxAfterOuts | pim_ramulator_src/trace_gen/gen_trace_attacc_bank.py:224-270 | Between the MV_SB of a group of scores and the softmax of its head stands a barrier of every channel if and only if the group is not the last. |
| TraceHazards.MvgbAfterSoftmax | pim_ramulator_src/trace_gen/gen_trace_attacc_bank.py:248-340 | Between the softmax and an MV_GB of its head stands one if and only if the iteration has a partner and the loop that emits MV_GB has two passes or more. |
| TraceHazards.ScriptTimed | pim_ramulator_src/trace_gen/gen_trace_attacc_bank.py:212-357 | Every command of the trace is emitted in the window, counted in barriers, that its iteration and role have. |
| TraceHazards.PairTimed | pim_ramulator_src/trace_gen/gen_trace_attacc_bank.py:212-310 | A pair of iterations keeps to the windows and takes 1 + 2 length + 2 columns barrier rounds. |
| TraceHazards.SoloTimed | pim_ramulator_src/trace_gen/gen_trace_attacc_bank.py:313-357 | An unpaired iteration keeps to the windows and takes 2 + length + columns barrier rounds. |
| TraceHazards.SecondContextNeverEmitted | pim_ramulator_src/trace_gen/gen_trace_attacc_bank.py:299-310 | The context commands of the second iteration of a pair are never emitted; its turn repeats those of the first. |
| TraceHazards.OnlyPimCommands | pim_ramulator_src/trace_gen/gen_trace_attacc_bank.py:359-363 | A trace holds nothing but PIM requests, each of the type its role calls for. |
| TraceEmission.TraceEmits | pim_ramulator_src/trace_gen/gen_trace_attacc_bank.py:211-357 | Every command is in the trace exactly as often as in the lists of the iterations, cut where the floored strides cut them, in the dummy MACs, the replays and the barrier rounds together. |
| TraceEmission.EachCommandOnce | pim_ramulator_src/trace_gen/gen_trace_attacc_bank.py:211-357 | A generated command is in the trace as often as in its iteration; score MACs, score MV_SB and SFM are never cut. |
| TraceEmission.SoloEmits | pim_ramulator_src/trace_gen/gen_trace_attacc_bank.py:313-357 | The unpaired path emits every command of its iteration once, and nothing else but barriers. |
| TraceEmission.PairEmits | pim_ramulator_src/trace_gen/gen_trace_attacc_bank.py:212-310 | The paired path emits both iterations, the second WR_GB and both MV_GB lists cut to whole strides, without the second context lists. |
| TraceEmission.LoopEmits | pim_ramulator_src/trace_gen/gen_trace_attacc_bank.py:225-245 | An interleaving loop emits each of its lists once, and a barrier round in every pass but the last. |
| TraceEmission.KeptIsPrefix | pim_ramulator_src/trace_gen/gen_trace_attacc_bank.py:238-242 | A spread list loses exactly the remainder of its size by the number of chunks, at its end. |
| TraceEmission.NothingLost | pim_ramulator_src/trace_gen/gen_trace_attacc_bank.py:265-270 | WR_GB and MV_GB of a pair are complete if and only if the number of chunks divides the number of commands. |
| TraceEmission.TailIsLost | pim_ramulator_src/trace_gen/gen_trace_attacc_bank.py:238-242 | With head dimension 128 and L 768, two of the 128 WR_GB commands of a second head are never emitted. |
| TraceLayout.NestedCeil | pim_ramulator_src/trace_gen/gen_trace_attacc_bank.py:224-234 | The interleaving loop has exactly as many passes as there are groups of sixteen score rows. |
| TraceEmission.AllHeadsPlaced | pim_ramulator_src/trace_gen/gen_trace_attacc_bank.py:191-201 | The valid channels of all iterations sum to the number of heads. |
| TraceGen.TraceGenerator.RunAttention | pim_ramulator_src/trace_gen/gen_trace_attacc_bank.py:183-357 | The loops build the trace `Commands`, of which all the above is proved; they fail with an index error exactly when there are two iterations or more and a dimension is zero. |
| TraceGen.TraceGenerator.Generate | pim_ramulator_src/trace_gen/gen_trace_attacc_bank.py:191-201 | Iterations, valid channels and start addresses. |
| TraceGen.TraceGenerator.Attention | pim_ramulator_src/trace_gen/gen_trace_attacc_bank.py:71-179 | The command lists of one iteration. |
| TraceGen.TraceGenerator.AppendPairs | pim_ramulator_src/trace_gen/gen_trace_attacc_bank.py:212-310 | All pairs of iterations, in order. |
| TraceGen.TraceGenerator.AppendPair | pim_ramulator_src/trace_gen/gen_trace_attacc_bank.py:212-310 | One pair of iterations, overlapped. |
| TraceGen.TraceGenerator.AppendSolo | pim_ramulator_src/trace_gen/gen_trace_attacc_bank.py:313-357 | The last iteration of an odd number. |
| TraceGen.TraceGenerator.AppendDummy | pim_ramulator_src/trace_gen/gen_trace_attacc_bank.py:217-220 | The dummy MACs; an index error exactly when L or the head dimension is zero. |
| TraceGen.TraceGenerator.ScoreLoop | pim_ramulator_src/trace_gen/gen_trace_attacc_bank.py:224-245 | The score loop flattens to the script `Loop` over groups of sixteen rows. |
| TraceGen.TraceGenerator.ContextLoop | pim_ramulator_src/trace_gen/gen_trace_attacc_bank.py:276-297 | The context loop flattens to the script `Loop` over single rows. |
| TraceGen.TraceGenerator.AppendGroup | pim_ramulator_src/trace_gen/gen_trace_attacc_bank.py:227-232 | Sixteen rows or as many as are left, concatenated. |
| TraceGen.TraceGenerator.AppendStride | pim_ramulator_src/trace_gen/gen_trace_attacc_bank.py:237-242 | The j-th run of `stride` commands, cut off at the end of the list. |
| TraceGen.TraceGenerator.AppendLate | pim_ramulator_src/trace_gen/gen_trace_attacc_bank.py:263-270 | The second half of the passes shares out a list with a floored stride. |
| TraceGen.EmitScore | pim_ramulator_src/trace_gen/gen_trace_attacc_bank.py:96-123 | Score MACs, and an MV_SB group after every sixteenth row and after the last; as many groups as the interleaving expects. |
| TraceGen.EmitContext | pim_ramulator_src/trace_gen/gen_trace_attacc_bank.py:142-163 | Context MACs and their MV_SB, row by row. |
| TraceGen.SplitIndex | pim_ramulator_src/trace_gen/gen_trace_attacc_buffer.py:102-111 | The split of the linear index into bank group, bank, row and column gives the offset `MacOffset`, which `MacDecodes` decodes. |
| TraceGen.Counts | pim_ramulator_src/trace_gen/gen_trace_attacc_bank.py:238-266 | The source computes the size of the WR_GB and MV_GB lists from its parameters; it is their length. |
| TraceLayout.SizesCover | pim_ramulator_src/trace_gen/gen_trace_attacc_bank.py:87-163 | For every length, head dimension and head count: score rows, columns, groups of rows, columns of the softmax result, iterations and partitions are just enough, and one less would not do. |
| TraceLayout.UnitsAreParts | pim_ramulator_src/trace_gen/gen_trace_attacc_bank.py:82-140 | WR_GB goes once to each column unit, MV_GB to the row units of both pseudochannels together. |
| TraceLayout.HeadOfChannel | pim_ramulator_src/trace_gen/gen_trace_attacc_bank.py:191-201 | A channel takes part in an iteration exactly when there is a head left for it. |
| CommandLists.HeadHolds | pim_ramulator_src/trace_gen/gen_trace_attacc_bank.py:82-171 | WR_GB, MV_SB, MV_GB and SFM: each list holds exactly one command per part, column and lane, in that order, each at its key or value address plus part, column and channel, and nothing else. |
| CommandLists.DummiesHold | pim_ramulator_src/trace_gen/gen_trace_attacc_bank.py:217-220 | The dummy MACs are one for every channel of the first iteration, at its first address; `NoOtherDummies`: no other iteration has any. |
| MemoryLayout.StridesDecode | pim_ramulator_src/trace_gen/gen_trace_attacc_bank.py:25-42 | An address built from the strides and an offset inside a bank decodes to the channel, rank, bank group and bank it was built from, and to the row and column of the offset. |
| MemoryLayout.PartsReach | pim_ramulator_src/trace_gen/gen_trace_attacc_bank.py:82-163 | WR_GB, MV_SB and MV_GB addresses decode to exactly the bank, or rank and bank group, or rank and bank, of their loop indices. |
| MemoryLayout.MacDecodes | pim_ramulator_src/trace_gen/gen_trace_attacc_buffer.py:99-118 | The address of a MAC decodes to the bank and column its linear index stands for, in all three placements. |
| MemoryLayout.SplitJoins | pim_ramulator_src/trace_gen/gen_trace_attacc_buffer.py:102-111 | The index can be put together again from its bank and its column. |
| MemoryLayout.JoinSplits | pim_ramulator_src/trace_gen/gen_trace_attacc_bg.py:103-107 | Every bank and column belongs to an index. |
| MemoryLayout.MacOffsetInjective | pim_ramulator_src/trace_gen/gen_trace_attacc_bg.py:103-112 | Within the row range, different indices have different addresses. |
| MemoryLayout.EightGroups | pim_ramulator_src/trace_gen/gen_trace_attacc_buffer.py:104-108 | Any eight consecutive indices of the buffer placement hit eight different pairs of rank and bank group. |
| MemoryLayout.SweepUsesEveryBank | pim_ramulator_src/HBM3-PIM.cpp:71-136 | The kind of MAC fits the placement: the banks of one linear index, times the banks that one such command works on, are all 64 banks of a channel. |
| MemoryLayout.RowsNeverReturn | pim_ramulator_src/trace_gen/gen_trace_attacc_buffer.py:99-118 | As the index grows, the row used in a bank never decreases. |
| MemoryLayout.ScoreMacAt | pim_ramulator_src/trace_gen/gen_trace_attacc_bank.py:101-110 | Column k of score row r has the linear index k + r * columns below the number of columns of the head, and that address from the key address on; its commands are one per column and lane, in that order. |
| MemoryLayout.ContextMacAt | pim_ramulator_src/trace_gen/gen_trace_attacc_bank.py:146-153 | Column k of context row r likewise, with rows and columns exchanged, from the value address on. |
| MemoryLayout.ContiguousSpan | pim_ramulator_src/trace_gen/gen_trace_attacc_bg.py:101-114 | In every bank the bytes of a head are one contiguous span from its start address, of that bank's share of its columns, for all placements, lengths and dimensions. |
| MemoryLayout.ApartIffFit | pim_ramulator_src/trace_gen/gen_trace_attacc_bank.py:184-201 | The keys of different iterations lie apart, and likewise the values, if and only if there are fewer than two iterations or the share of the first bank fits the partition size. |
| MemoryLayout.KeyAndValueApart | pim_ramulator_src/trace_gen/gen_trace_attacc_bank.py:186-197 | Keys and values of one iteration lie apart if and only if a head's share of the first bank is at most 2^23 bytes. |
| MemoryLayout.KeysMeetValues | pim_ramulator_src/trace_gen/gen_trace_attacc_bank.py:186-197 | Keys of one iteration meet values of another in a bank if and only if their spans overlap; not while the keys end by 2^23. |
| MemoryLayout.BytesPerBank | pim_ramulator_src/trace_gen/gen_trace_attacc_bank.py:184-184 | When rows and columns divide evenly among the units, 64 times the first bank's share is the bytes of the head and the padding, in all three placements. |
| MemoryLayout.PaddingWhenUneven | pim_ramulator_src/trace_gen/gen_trace_attacc_bg.py:103-107 | The padding is never negative, and zero exactly when the columns fill all banks evenly, as they always do per bank. |
| MemoryLayout.FitsMaxL | pim_ramulator_src/trace_gen/gen_trace_attacc_bank.py:184-197 | The keys lie apart if and only if there are fewer than two iterations or bytes and padding fit 64 partitions; without padding it is enough that L times the element size is at most max_L, and for head dimensions of 64 or more with two iterations that is necessary. |
| MemoryLayout.TwoBytesOverlap | pim_ramulator_src/trace_gen/gen_trace_attacc_bank.py:373-385 | With two bytes per element and L = max_L = 4096 the keys of the first two iterations overlap. |
| MemoryLayout.UnevenOverlap | pim_ramulator_src/trace_gen/gen_trace_attacc_bg.py:383-400 | With one byte per element and L = max_L = 4000 they overlap per bank group, where 1000 columns leave padding, and lie apart per bank. |
| TileSearch.OptimalIsGood | src/devices.py:38-104 | The search answers if and only if all sizes are positive and the smallest tile fits; then the level-one tile fits and has the least cost of all fitting candidates, the level-two tile fits or is the level-one tile, and it has the least access of all accepted candidates. |
| TileSearch.CapacityIsOperands | src/devices.py:55-92 | What has to fit is a tile's own operands as `get_size` counts them: at level one for depth 32, at level two for depth k / 64, output included, also when 64 does not divide k. |
| TileSearch.CostCountsIdleCores | src/devices.py:62-71 | The cost of a level-one tile is its traffic times the square of slots per thread block, where the slots are the cores of just enough rounds; it is never below the traffic, and equal to it when no core is idle. |
| TileSearch.SearchBest | src/devices.py:52-73 | The running minimum of two nested loops is a cheapest acceptable candidate, and nothing exactly when none is acceptable. |
| TileSearch.FoundIffSmallestFits | src/devices.py:52-59 | A level-one tile is found if and only if the smallest candidate fits. |
| TileSearch.OffChipAtMostL2 | src/devices.py:106-126 | Total off-chip traffic is at least the operands' own size and at most the total level-two traffic. |
| TileSearch.TrafficAtLeastSize | src/devices.py:32-36 | Any tile moves each input at least once and the output exactly once. |
| TileSearch.TrafficInPasses | src/devices.py:32-36 | Each input moves exactly as often as there are tiles along the other side of the output, where one tile less would not cover it, and the output once. |
| TileSearch.WholeTileIsSize | src/devices.py:32-36 | A tile that covers the whole output moves every operand exactly once. |
| TileSearch.EveryAnswerOrdered | src/devices.py:38-126 | The same for every answer of the memoised search, after any calls, also when the memo mixes kinds of layers. |
| TileSearch.FirstCallDecides | src/devices.py:38-42 | The first call under a key decides: the memoised answer is that for the first such layer, and is right if and only if there was none, it was of the same kind, or the kind does not matter for the tiles. |
| TileSearch.MemoIsExact | src/devices.py:38-42 | In particular, while equal keys come with equal kinds, the memoised answer is the recomputed one. |
| TileSearch.MemoForgetsKind | src/devices.py:40-66 | Otherwise it need not be: a 16 x 1 by 1 x 8 product after a fully connected layer of that size gets the wrong tile. |
| TileSearch.XPU.FindL1 | src/devices.py:52-75 | The loops over the level-one candidates compute `Search`. |
| TileSearch.XPU.FindL2 | src/devices.py:81-101 | The loops over the multiples of the level-one tile compute `Search`. |
| TileSearch.XPU.GetOptimalTile | src/devices.py:38-104 | Answer and table are those of `Call`; None where the source divides by zero. |
| TileSearch.EveryTrafficOrdered | src/devices.py:106-129 | For layers of every kind and after any calls: no level's traffic from off-chip to level one is below the layer's own size, and off-chip traffic is at most level-two traffic; it fails exactly when the search does. |
| TileSearch.InnerTraffic | src/devices.py:117-126 | Level-one traffic is that of just enough tiles of 16 x 16, and register traffic one access per operand and multiplication. |
| TileSearch.OtherKindsMoveOutputs | src/model.py:72-93 | An elementwise layer moves two operands of the size of a matrix output, a gated one or a norm three. |
| TileSearch.XPU.GetTraffic | src/devices.py:106-129 | The four levels of traffic of a layer of any kind are those of `TrafficStep`; only matrix layers consult the table. |
| Prefill.SamplesAreGood | src/system.py:300-308 | The sampled chunks are sorted, distinct, in range, and contain the first and the last chunk. |
| Prefill.SamplesSpread | src/system.py:303-308 | With den = max(1, 2^(count-1) - 1): for every pos below count, the number nearest to (n - 1) (2^pos - 1) / den, of two the even one, is a sample, and there are no others but the two ends. |
| Prefill.ExactWhen | src/system.py:301-308 | All chunks are sampled if and only if there are at most as many as samples, or at most two. |
| Prefill.EstimateBounds | src/system.py:355-374 | The estimate is the true sum when all chunks were sampled; it is at least the true sum for convex and at most for concave costs, and lies between n times the least and n times the greatest sample. |
| Prefill.AffineIsExact | src/system.py:310-322 | For affine costs the estimate is the true total. |
| Prefill.ChunkBounds | src/system.py:355-366 | The same, chunk by chunk. |
| Prefill.FullIsAll | src/system.py:357-360 | As many samples as chunks means chunk i is sample i. |
| Prefill.TokensUpTo | src/system.py:340-341 | The chunks together hold all tokens, the last one what is left. |
| Prefill.ChunksCover | src/system.py:330-341 | Chunks have the configured size as far as that is between 1 and the length, there are just enough of them, and all but the last are full. |
| Prefill.AccumulatedIsSum | src/system.py:340-342 | The accumulated length of a chunk is the number of tokens up to its end. |
| Prefill.SampleIndices | src/system.py:300-308 | The loop fills the set `SampleSet`; the result is that set in ascending order. |
| Prefill.InterpScalar | src/system.py:310-322 | The loop finds the segment that `Interp` names. |
| Prefill.SimulateComponent | src/system.py:330-374 | One component: sampled, then summed over all chunks. |
| Prefill.SimulatePrefillScore | src/system.py:330-380 | Time and the six energies are the estimates of their own chunk costs. |
| Pipelining.PlainPipelining | src/system.py:178-184 | For a block with one qkv, one proj and at least one comm_x2g, whatever its times: the transfer total shrinks by exactly (1 - r) times the shorter of attention and transfers; nothing else but the softmax changes. |
| Pipelining.PlainSavesAllButOneHead | src/system.py:174-184 | With h heads per device, h times what is saved is (h - 1) times the shorter of attention and transfers; with one head nothing is. |
| Pipelining.LevelSaves | src/system.py:186-206 | In the level form, exactly: where the matrix layers take longest, all but one share of attention is saved from them and of the transfers from these; otherwise all but one share of themselves, and of the shorter of attention and transfers. |
| Pipelining.LevelPipelining | src/system.py:186-206 | In the level form the totals of the matrix layers and of the transfers stay between r times and once their old values; score, context and other layers keep theirs. |
| Pipelining.WriteBackTotals | src/system.py:207-218 | Writing back keeps the transfer total across its layers, and everything but the four kinds it writes. |
| Pipelining.TimesMayTurnNegative | src/system.py:199-202 | The qkv time turns negative if and only if attention is at most the matrix time, that exceeds the transfers, and qkv is below three quarters of what is saved; proj likewise with one quarter; the transfers never. |
| Pipelining.NegativeTimesExamples | src/system.py:199-202 | A block where qkv does, and one where proj does. |
| Pipelining.SumUp | src/system.py:159-172 | The six accumulators are the totals by kind. |
| Pipelining.ComputeTimes | src/system.py:174-206 | The branches compute `Overlap`. |
| Pipelining.Store | src/system.py:209-218 | The second loop writes back to every layer, also one that is listed twice. |
| Pipelining.Pipeline | src/system.py:158-218 | All layers afterwards are those of `Pipelined`. |
| ResultCache.CacheIsInvisible | src/ramulator_wrapper.py:255-300 | From any table whose rows are right, also the empty one, after any calls: the answer is exactly that of a fresh run, on hit and miss (BA or BG, fast mode off, layer.k equal to the wrapper's dhead). |
| ResultCache.CacheAgreesExactly | src/ramulator_wrapper.py:229-300 | In general it is so if and only if `run` itself is returned, or one group is simulated and, for BUFFER, there are no MACs: the factors 1 and 2 and the scaled time differ. |
| ResultCache.TrafficPerCommand | src/ramulator_wrapper.py:218-245 | Traffic adds up command by command: a WR_GB is a column of 32 bytes on all four wires, an MV_SB or MV_GB on all but the first, a MAC a column from each of its banks. |
| ResultCache.TrafficPerGroup | src/ramulator_wrapper.py:240-242 | All stacks and groups together move that, so many times. |
| ResultCache.FactorIsBanks | src/ramulator_wrapper.py:223-230 | These are all banks of a channel, or one per bank group. |
| ResultCache.HeadsCovered | src/ramulator_wrapper.py:193-200 | Heads per stack, and in fast mode groups of 64 heads, are just enough for all heads. |
| ResultCache.KeysSeparate | src/ramulator_wrapper.py:232-241 | Two calls share a key exactly when they ask for the same simulation. |
| ResultCache.EveryTableRight | src/ramulator_wrapper.py:82-102 | Every sequence of calls keeps all rows right. |
| ResultCache.OutputKeeps | src/ramulator_wrapper.py:255-300 | Every call does, whatever its placement and mode. |
| ResultCache.LookupIsRight | src/ramulator_wrapper.py:266-270 | In a right table, the first matching row is the simulator's answer. |
| ResultCache.AddRowKeepsTable | src/ramulator_wrapper.py:82-102 | An added row is in the table and no old row is gone; what was found before is found still, and the new row only under its own key. |
| ResultCache.Ramulator.Run | src/ramulator_wrapper.py:188-253 | Table and result are those of `RunStep`; None where the simulator fails. |
| ResultCache.Ramulator.Output | src/ramulator_wrapper.py:255-300 | Table and result are those of `OutputStep`. |
| Routing.GroupsCoverAllLayers | src/model.py:116-135 | In every mode the counts sum to ndec and the names are distinct. |
| Routing.OptimisticEqualsList | src/model.py:122-133 | Without DeepStack the weighted totals of both modes are equal for the same layer list, with repeated and out-of-range layers and with the default list. |
| Routing.BuiltGroupsCoverAllLayers | src/model.py:604-627 | What `build` keeps of a routing weighs as many layers and costs as much as the routing. |
| Routing.NothingOverwritten | src/model.py:623-626 | Groups under different names do not overwrite each other in the dictionaries. |
| Routing.LastGroupsAreBuilt | src/model.py:608-628 | Under any names, what is built is exactly the last group of each name among those with layers. |
| Routing.ListChargesEveryLayer | src/model.py:110-133 | Routing by list, which DeepStack forces whatever the mode, costs what the layers cost one by one, each on its device and with the DeepStack addition exactly where the model has it. |
| Routing.ConservativeChargesAccelerator | src/model.py:118-119 | The conservative mode costs what all layers cost on the accelerator. |
| Routing.DefaultChargesEveryLayer | src/model.py:599-606 | So does the default routing, on one device. |
| Routing.DecimalInjective | src/model.py:131-131 | Different layers have different names. |
| Routing.Transformer.Build | src/model.py:595-627 | The loop builds `AddGroups`: groups without layers are skipped. |
| Routing.Transformer.Simulate | src/system.py:573-597 | The accumulation over the groups is their weighted total. |

## Left out

- DRAM timing, node state and the timing presets; the device is an arbitrary function instead.
- hbm3_controller.cpp, a near copy of the PIM controller without the PIM buffer.
- Controller plugins, statistics, callbacks, logging, and the translation layer, which is the identity here.
- That an open row is never closed under an active read or write: refresh addresses contain -1, and the check compares exact prefixes.
- Order within a barrier window: in particular of the last MV_SB, the softmax and an MV_GB that no barrier separates.
- The dummy MACs precede the first barrier and are under no ordering claim.
- Contents of the second head's context phase.
- Starvation and latency bounds. Coherence is proved for the read and write buffers only; a write that has moved to the active buffer forwards nothing to later reads.
- Buffers rewritten in place: the scheduler returns the rewritten buffer, so identity of a request object across buffers is not modelled.
- PimController.AllBankRefreshHBM3.Tick: an exception is a result `false`; what a program would do after catching it is not modelled.
- TraceGen.TraceGenerator.RunAttention: the three generator scripts are one class with a placement parameter, and their repeated loops are one method each; negative sequence lengths, head dimensions and head counts are excluded.
- MemoryLayout.ContiguousSpan: offsets are counted from the start of a bank; that an offset of 2^24 or more runs on into the next bank is not modelled.
- EndToEnd.GeneratedRunsAreLean: assumes that a refresh never needs an opening command, which holds for the original device but not for every function.
- TileSearch.XPU.GetTraffic: whether an activation is gated is a parameter instead of a search for "glu" in its name.
- Prefill.SimulatePrefillScore: the device is a function of the accumulated length; sorting of points that are sorted already is left out.
- ResultCache.Ramulator.Run: files, subprocesses and the insertion of a max_L column are not modelled; the simulator is a function of the key, and the log file always equals the table.
- Routing.Transformer.Simulate: the cost of a decoder is an arbitrary function of the device and of the DeepStack addition; the layers of a decoder are not built.
- Energy tables, capacity checks, batch splitting, feed-forward parallelism, calibration factors, vision layers.
- Rounding of floating point numbers.
