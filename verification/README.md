# Verification of the ovni runtime and emulator

ovni writes the events of each thread of a program to a stream file, and later replays all the
streams in an emulator that follows threads, CPUs and tasks and writes a Paraver trace. This
project models the state machines of that path and proves what they keep:

- **Writer and reader.** `Event`, `Writer`, `EventBuffer` and `WriterLaws` model the encoding of
  events, the event buffer of a thread and its flushes; `Streams` models the reader. No event is
  lost or reordered for any sizes, the marks of the flushes are exactly described, and the reader
  decodes exactly what was written.
- **Sorter.** `SortSpec`, `SortLimits`, `Rings`, `SortBuf` and `WinSort` model `ovnisort`: the ring of
  the last events, the search back, the sort of a region in the file, and the whole pass, with the
  exact streams that a ring is too small for and those that abort it.
- **Merge.** `Heap` is the pointer heap addressed by the bits of a node number, `PlayerSpec` and
  `Player` the merge of the streams by corrected clock, `Replay` the advance of the trace with it.
- **Patch bay.** `Chans`, `BaySpec`, `BayFlow`, `Bays` and `BayRuns` model channels, multiplexers
  and the propagation in three phases; `Prvs` models the trace writer it feeds.
- **Threads and CPUs.** `Sched`, `SchedGuards` and `ThreadEvents` model the thread and affinity
  events on top of the patch bay, up to what a CPU's tracking channel shows after each propagation;
  `Connect` builds a system from its fresh channels and multiplexers. `EmuSteps` runs events of all
  models through the bay into the trace: replaying the trace gives the channels' current values.
- **Tasks.** `TaskSpec` and `Tasks` model bodies, tasks and the stacks of bodies; `TaskEvents` the
  task events of nOS-V and Nanos6 with their channels; `OpenMp` those of OpenMP.
- **Breakdown sort.** `SortInputs` models the array that is kept sorted as single inputs change.
- **JSON.** `JsonString`, `Json`, `JsonParser`, `JsonWriter` and `JsonComments` model the strings, the
  parser, the printer and the removal of comments of the metadata library. `JsonEscapes` says what
  every escape stands for and `JsonGrammar` which texts the parser accepts; `JsonNumbers` is one way
  to write its numbers.
- **Containers.** `ListSortSpec` and `Utlist` model the linked lists and their merge sort, `Uthash`
  the hash table with its bucket expansion.

`Wrappers`, `Sequences` and `Division` hold what several of these share.

State that the source updates in place is held by classes: buffers and tables are arrays, and the
nodes of the heap, of the lists and of the hash table are objects with links. Each method is proved
against a function or a relation on values, and the theorems are about these. The records of
channels, threads, CPUs and bodies are values in the sequences and maps of the class that owns them.

How the code is read:

- `die()` is an outcome. Where the source returns -1 the method returns -1.
- Bytes read past the end of a mapped stream are zero, as on the last mapped page.
- In the sorter the file and its private mapping are one buffer. `qsort` is used only by its
  contract, so events with equal clocks may come out in any order.
- The clock of the machine is a parameter, read once per tick.
- The final common part of `ovni_ev_add` and `ovni_ev_add_jumbo` is one method, `AddBytes`.
- The nOS-V and Nanos6 event files have the same shape and are one class with branches on the kind
  of runtime; the comments say where the two differ.

Where the code differs from what one would expect:

- A jumbo event that leaves no room for one event header in an empty buffer makes its own flush
  events flush again: the marks nest (`WriterLaws.HugeEventNests` gives such an event). The marks
  of a flush are in pairs exactly when the event is smaller than that
  (`WriterLaws.AddPairedExactly`), and in clock order exactly then or if the clock stood still
  (`WriterLaws.TrailOrderedExactly`).
- The search for a destination gives up when the whole ring is at or after the least clock of the
  region. A stream in which only regions come late is refused if and only if, for some region, the
  number of earlier events below its least clock plus the slots of the ring is at most one more than
  the number of events before its end (`WinSort.StreamWinsort`, `SortLimits.RefusedAt`).
  `SortLimits.LateRefused` gives such a stream for every ring.
- The comparison of the sort takes clocks as signed numbers, the rest of the sorter as unsigned. When
  a region and the event it is put after have clocks on both sides of 2^63, the sort leaves them out
  of order and the check of the ring aborts (`SortLimits.DiesAt` says when, on the original stream);
  `SortLimits.OrderedAborts` gives a stream that needs no sorting and aborts.
- Ending, pausing, cooling and warming a thread never fails because a CPU is oversubscribed, nor does
  a removal from a CPU; executing, resuming and moving a running thread does exactly if the CPU is
  physical and another thread is running on it (`SchedGuards`).
- In `heap_pop_max` the branch for a heap of two nodes whose right child is set is never taken.
- Moving a thread by a remote affinity event to the CPU it is on always fails, while the same move
  by the thread itself succeeds without effect.
- `body_execute` may fail after it has revived a dead body; the invariant on tasks also holds after
  such failures.

## Model

| member | source | states |
|---|---|---|
| Event.UintRoundTrip | src/rt/ovni.c:696-732 | The little-endian bytes of a number read back as that number. |
| Event.EventAt | src/rt/ovni.c:716-761 | An event laid at any offset has there the size and clock that its own bytes say. |
| Event.EventLayout | src/rt/ovni.c:690-761 | The bytes of an event, one by one: what the flags say of its size, where model, category, value and clock are, and that numbers have their least significant byte first. |
| Writer.RecordIsEvent | src/rt/ovni.c:716-761 | The bytes written for a normal event are an event with its model, category, value, clock and payload, of at most 28 bytes. |
| Writer.PayloadAddAppends | src/rt/ovni.c:734-754 | Adding payload is accepted exactly for 2 bytes or more up to 16 in all on a normal event; the pieces accumulate in order and nothing else of the event changes. |
| Writer.JumboIsEvent | src/rt/ovni.c:805-838 | A jumbo record is one event whose model, category, value, size, clock and payload are those given. |
| EventBuffer.RThread.ClockNow | src/rt/ovni.c:679-687 | Each reading of the clock is the next one, modulo 2^64. |
| EventBuffer.RThread.FlushEvbuf | src/rt/ovni.c:402-408 | The buffer goes to the end of the file and becomes empty. |
| EventBuffer.RThread.AddBytes | src/rt/ovni.c:821-845 | One event goes in, flushing first if it does not fit, with flush events after it; the mutual recursion ends and the buffer is never overrun. |
| EventBuffer.RThread.EvAdd | src/rt/ovni.c:848-875 | Emitting a normal event has the effect of the specification on file and buffer, or aborts exactly when the thread is not ready. |
| EventBuffer.RThread.EvAddJumbo | src/rt/ovni.c:804-846 | The same for a jumbo event; it aborts exactly when the thread is not ready or the event has payload or is too large. |
| EventBuffer.RThread.AddFlush | src/rt/ovni.c:788-802 | The two flush events go through the same path as any event. |
| EventBuffer.RThread.OvniFlush | src/rt/ovni.c:764-786 | A requested flush empties the buffer and leaves one pair of marks. |
| WriterLaws.AddExact | src/rt/ovni.c:788-875 | For every size and buffer level: all that was recorded stays, then the event, then nothing if the buffer had room, or the marks of the flushes it forced; and how often the clock is read. |
| WriterLaws.FlushExact | src/rt/ovni.c:764-786 | A requested flush adds exactly its marks to what was recorded. |
| WriterLaws.NothingLost | src/rt/ovni.c:764-875 | Over any sequence of emits, jumbo emits and flushes, the user's events in file and buffer are exactly those emitted, in order. |
| WriterLaws.RunMarks | src/rt/ovni.c:764-802 | In any run, all other records are the events OF[ and OF] of the flushes, without payload. |
| WriterLaws.AddPairedExactly | src/rt/ovni.c:821-845 | The marks stay in pairs if and only if the event fits or leaves room for one event header in an empty buffer. |
| WriterLaws.TrailOrderedExactly | src/rt/ovni.c:821-845 | The marks of one flush are in clock order if and only if they are in pairs or the clock stood still during the nested flush. |
| WriterLaws.RunOrdered | src/rt/ovni.c:764-875 | In any run of events that leave that room, the marks are pairs in clock order over the whole stream. |
| WriterLaws.HugeEventNests | src/rt/ovni.c:821-845 | An event that fills the buffer breaks both pairing and clock order of the marks. |
| WriterLaws.HugeJumbo | src/rt/ovni.c:804-846 | Such an event can be emitted. |
| WriterLaws.ReaderDecodesWriter | src/emu/stream.c:267-321 | Over the file of any run the reader returns the emitted events and the marks one by one, then ends on the last byte. |
| Streams.Stream.StepStream | src/emu/stream.c:267-321 | One step does to offset, current event, clocks and activity what the step function says. |
| Streams.Stream.SetClockOffset | src/emu/stream.c:229-247 | The offset is set once, before the first event. |
| Streams.Stream.Progress | src/emu/stream.c:323-328 | On a stream that has reached event k, the first result is the number of bytes of the events before k and the second that of all events; the two are the same if and only if the stream has ended. |
| Streams.StepWellFormed | src/emu/stream.c:267-321 | On a well-formed stream a step loads exactly the next event with its corrected clock and the time since the last one, fails exactly when that clock goes back in sorted mode, and ends exactly on the last byte. |
| Streams.ReadsAll | src/emu/stream.c:267-321 | Stepping a loaded stream with accepted clocks gives event k at step k with its corrected clock. |
| Streams.ReadsToTheEnd | src/emu/stream.c:267-321 | After the last event the stream ends, on the last byte. |
| Streams.ReaderExact | src/emu/stream.c:256-321 | Every event is accepted if and only if the corrected clocks never go back (or the stream may be unsorted). |
| Streams.CutEvent | src/emu/stream.c:267-321 | In a file that ends inside an event, wherever it is cut, the step that should load that event fails. |
| Rings.Ring.Reset | src/emu/ovnisort.c:55-59 | After a reset the ring holds the last zero events of anything. |
| Rings.Ring.Add | src/emu/ovnisort.c:61-75 | If the slots from head to tail are exactly the last min(k, size-1) events, they are again after adding event k. |
| Rings.Ring.FindDestination | src/emu/ovnisort.c:91-127 | -1 if and only if the ring is full and all kept events are at or above the clock; otherwise the newest event below it, or the first event while none was dropped; it never aborts. |
| Rings.Ring.Rebuild | src/emu/ovnisort.c:283-307 | The slots again point to the events of the rewritten file; it never aborts. |
| Rings.Ring.Check | src/emu/ovnisort.c:77-89 | It aborts if and only if two neighbouring events from the start on go back in clock. |
| SortBuf.FindMinClock | src/emu/ovnisort.c:141-160 | The least clock of the events in the region. |
| SortBuf.CountEvents | src/emu/ovnisort.c:162-178 | The number of records of variable size in the bytes. |
| SortBuf.IndexEvents | src/emu/ovnisort.c:180-189 | Where each record starts. |
| SortBuf.WriteEvents | src/emu/ovnisort.c:191-206 | The bytes of the records in the order of the table. |
| SortBuf.SortEvents | src/emu/ovnisort.c:228-265 | The buffer is a permutation of the same records in the same total bytes; it is sorted by clock if and only if the clocks are not on both sides of 2^63, where the signed comparison turns the order around. |
| SortLimits.CountDecides | src/emu/ovnisort.c:91-127 | If what comes before a region is sorted, then the region is out of reach of the ring if and only if the events below its least clock plus size - 1 are no more than the events before its end. |
| SortLimits.LargeRing | src/emu/ovnisort.c:91-127 | A ring with more slots than the stream has events reaches every region. |
| SortLimits.LateRefused | src/emu/ovnisort.c:91-127 | For every ring size, a well-behaved stream that is refused, while a ring of four more slots does all of it. |
| SortLimits.HalvesDecide | src/emu/ovnisort.c:309-357 | If what comes before a region is sorted, then what the plan sorts has clocks on both sides of 2^63 if and only if, in the original stream, one from there on was seen before the region ends, and the least clock of the region, or the greatest one below it before the region, is lower. |
| SortLimits.AbortsMixed | src/emu/ovnisort.c:208-226 | A stream with all its clocks below 2^63, or all from there on, never aborts the sorter. |
| SortLimits.OrderedAborts | src/emu/ovnisort.c:77-89 | A stream that is already in order and on which the sorter aborts, with any ring of more than two slots. |
| WinSort.WriteStream | src/emu/ovnisort.c:267-281 | Exactly the given range of the file changes. |
| WinSort.FileSplice | src/emu/ovnisort.c:228-281 | Writing permuted records over a run of records keeps the file well formed, with that run replaced. |
| SortSpec.SpliceBytes | src/emu/ovnisort.c:228-281 | Records outside the run keep their bytes and offsets. |
| SortSpec.PlanSorts | src/emu/ovnisort.c:309-357 | Sorting from a destination that suits sorts everything before the end of the region. |
| SortSpec.FoundSuits | src/emu/ovnisort.c:91-127 | The destination the backward search finds suits. |
| SortSpec.StatesAre | src/emu/ovnisort.c:383-417 | The three states of the sorter say whether an OU[ was seen with no OU] after it, and which event is the first after it. |
| SortSpec.OutsideIs | src/emu/ovnisort.c:383-417 | An event is outside regions if and only if no region is open before it, or it closes one. |
| WinSort.ExecuteSortPlan | src/emu/ovnisort.c:309-357 | One plan permutes the records before the region's end, keeps the rest, sorts what was sorted before the region, keeps the ring exact; it fails if and only if the region is out of reach of the ring, and then leaves the file as it was; it aborts if and only if the region is in reach and the records from the destination on have clocks on both sides of 2^63. |
| WinSort.OneEvent | src/emu/ovnisort.c:383-417 | One round of the loop keeps the region state, the ring and the progress made so far; in a well-behaved stream it fails if and only if its event closes a region out of reach, and aborts if and only if it closes one in reach that the sort does not leave in order. |
| WinSort.StreamWinsort | src/emu/ovnisort.c:361-436 | The file always holds a permutation of the records, and no check aborts if all clocks are on one side of 2^63. If nothing outside regions comes late, conditions on the original stream alone say whether it fails, aborts or succeeds: the first region that is out of reach or not left in order decides. If all regions are closed too, success means sorted. |
| WinSort.StreamCheck | src/emu/ovnisort.c:439-478 | It succeeds if and only if the stream has events and their clocks never go back. |
| Heap.PathReaches | src/include/heap.h:128-166 | Following the bits of n below the leading one from the root reaches node n. |
| Heap.MoveIsFirstBit | src/include/heap.h:130-151 | The arithmetic of a move takes off exactly the first of these bits, for any n above 1. |
| Heap.TradeKeepsTree | src/include/heap.h:54-107 | Rewiring a node and its child gives the complete tree with the two exchanged. |
| Heap.Exchange | src/include/heap.h:54-107 | The pointer writes of one exchange, with all neighbours, do exactly that. |
| Heap.BubbleKeepsOrder | src/include/heap.h:286-301 | One step up moves the only place where the order may fail to the parent. |
| Heap.SinkKeepsOrder | src/include/heap.h:54-107 | One step down, to the greater child, moves it to that child. |
| Heap.RootIsMax | src/include/heap.h:109-113 | In an ordered tree no node is above the root. |
| Heap.Heap.Get | src/include/heap.h:153-166 | heap_get(n) is the n-th node, level by level. |
| Heap.Heap.Insert | src/include/heap.h:231-305 | The heap stays a complete ordered tree with matching links and gains exactly the node. |
| Heap.Heap.PopMax | src/include/heap.h:168-228 | The heap stays such a tree and loses exactly one node, a greatest one; null exactly if it was empty. |
| Heap.Heapify | src/include/heap.h:54-107 | From any node whose subtree alone may be out of order, the tail recursion restores the order with the same nodes. |
| Heap.BubbleUp | src/include/heap.h:286-301 | The loop of the insertion restores the order with the same nodes. |
| Heap.MoveLastToRoot | src/include/heap.h:175-221 | The last node takes the place of the root, for every size including two. |
| PlayerSpec.ExactlyOnce | src/emu/player.c:184-218 | An output that counts the events of each stream in order holds each of them exactly once. |
| PlayerSpec.StepReady | src/emu/player.c:43-63 | What a step does to a stream that is ready, and when it is refused. |
| PlayerSpec.LeaveMerges | src/emu/player.c:184-218 | Taking the earliest waiting event keeps the output sorted; its clock is not before the last one. |
| PlayerSpec.StepCurrentKeeps | src/emu/player.c:184-206 | Stepping the stream of the last event keeps the merge, and fails if and only if that stream goes back in time. |
| PlayerSpec.PopKeeps | src/emu/player.c:145-218 | Taking the earliest event keeps the merge; in sorted mode the backwards-jump error never fires. |
| PlayerSpec.WholeMerge | src/emu/player.c:107-218 | A whole run outputs every event of every stream, each stream in its order and, in sorted mode, by corrected clock. |
| PlayerSpec.StartedMerge | src/emu/player.c:107-143 | Once every stream is loaded, each nonempty one waits with its first event. |
| PlayerSpec.GateClock | src/emu/player.c:65-104 | The clock the gate reads is the corrected clock of the first event. |
| Replay.StepAndAdvance | src/emu/emu.c:138-167 | Taking the next event and advancing the trace to it: the trace refuses the time if and only if the player let an earlier event through, which never happens in sorted mode; over a run the trace stays at the time of the last event. |
| Player.Player.constructor | src/emu/player.c:107-118 | A player over distinct loaded streams starts ready to load them. |
| Player.StreamCmpPreorder | src/emu/player.c:23-41 | The comparison of streams is a total preorder, so the heap's theorems apply. |
| Player.Player.StepStreamAt | src/emu/player.c:43-63 | The stream is stepped and, if it has an event, inserted in the heap. |
| Player.Player.PopEarliest | src/emu/player.c:198-206 | The node that comes out belongs to a waiting stream with the least clock. |
| Player.Player.UpdateClocks | src/emu/player.c:145-181 | It fails if and only if the clock jumps back in sorted mode; otherwise first, last and delta clock are updated. |
| Player.Player.PlayerStep | src/emu/player.c:184-218 | It fails if and only if the current stream goes back in time; otherwise it takes the next event of the merge, or ends with every event out. The clocks of the player are those of the first and of the last event out. |
| Player.Player.CheckClockGate | src/emu/player.c:65-104 | It fails if and only if a nonempty stream starts more than an hour away from the first nonempty one. |
| Player.GateDecides | src/emu/player.c:65-104 | Comparing with the first nonempty stream decides that condition. |
| Player.Player.PlayerInit | src/emu/player.c:107-143 | It fails if and only if, in sorted mode, a stream starts before time zero or the gate refuses; otherwise the merge can begin. |
| Bays.PatchBay.constructor | src/emu/mux.c:139-199 | Connected multiplexers start with selected input 0, that input not enabled, outputs that take several writes and duplicates, all other channels as they were, and the network settled. |
| Bays.PatchBay.EnableCb | src/emu/bay.c:118-131 | The callback is appended to its channel's list unless enabled. |
| Bays.PatchBay.DisableCb | src/emu/bay.c:133-146 | The callback leaves its channel's list if it was there. |
| Bays.PatchBay.MakeDirty | src/emu/chan.c:42-65 | A channel goes on the dirty list only if it is not on it, and not while the bay emits or flushes; a second write needs the property for it. |
| Bays.PatchBay.ChanSet | src/emu/chan.c:67-110 | Setting a channel, with the duplicate check against the last flushed value. |
| Bays.PatchBay.ChanPush | src/emu/chan.c:112-162 | Pushing on a stack channel. |
| Bays.PatchBay.ChanPop | src/emu/chan.c:164-202 | Popping the expected value from a stack channel. |
| Bays.PatchBay.CbSelect | src/emu/mux.c:58-112 | The select callback: the old input is disabled, the new one enabled, the output written. |
| Bays.PatchBay.CbInput | src/emu/mux.c:114-137 | The input callback: the output takes the input's value. |
| BaySpec.ApplyKeeps | src/emu/chan.c:42-202 | Whatever is written to a channel, dirty list, callback lists and enablement stay exact. |
| BaySpec.SelectKeeps | src/emu/mux.c:58-112 | cb_select fails if and only if the select function does; otherwise the mux is right and only its output has changed. |
| BaySpec.InputKeeps | src/emu/mux.c:114-137 | cb_input never fails, changes only the output, and leaves a mux that chose that input right. |
| BaySpec.OrderAppend | src/emu/bay.c:155-193 | Appending an output one level up keeps the dirty list in level order; one already on it has not been passed. |
| BayFlow.WalkSelect | src/emu/bay.c:155-178 | While a callback list is walked, a select callback may take entries from it and add at its end, and the walk stays within the list and gets closer to its end. |
| BayFlow.FlowSelect | src/emu/bay.c:155-193 | After the select callback every mux is right, or waits for a channel or callback still to come. |
| BayFlow.FlowInput | src/emu/bay.c:155-193 | The same after the input callback. |
| BayFlow.FlowStarts | src/emu/bay.c:181-193 | Whatever waited for the next channel of the list waits for one of its callbacks. |
| BayFlow.AllRight | src/emu/bay.c:181-193 | When the list is used up, every mux whose select was propagated is right. |
| Bays.PatchBay.PropagateChan | src/emu/bay.c:155-178 | Running the callbacks of one channel keeps the structure and, in a layered network, the flow. |
| Bays.Pigeons | src/emu/bay.c:181-193 | A list of channels without repeats is no longer than their number. |
| Bays.PatchBay.DirtyPhase | src/emu/bay.c:181-193 | The dirty phase ends for any wiring, even cyclic, and fails only if a select function does. |
| Bays.PatchBay.EmitPhase | src/emu/bay.c:195-209 | Each dirty channel is offered to the trace once; it fails if and only if the trace refuses one. The new lines follow the others, at the present time. |
| Bays.PatchBay.FlushPhase | src/emu/bay.c:211-222 | The flush never fails and flushes exactly the dirty channels. |
| Bays.PatchBay.Propagate | src/emu/bay.c:181-225 | It fails only if a select function or the trace refuses, and then no source channel has changed; on success the dirty list is empty, in a layered network it was in level order, and every mux whose select has ever been propagated shows its selected input or the default. |
| Bays.SettledAgain | src/emu/bay.c:211-225 | Flushing changes no value, so the network is settled for the next round. |
| Bays.SourceWrite | src/emu/chan.c:67-202 | Writing source channels between propagations keeps a layered network ready to propagate. |
| Bays.TraceSynced | src/emu/bay.c:195-225 | After a propagation the trace is still in step with the channels, and each channel offered in it was seen with its current value. |
| Bays.SyncedShows | src/emu/pv/prv.c:78-151 | While the trace is in step, replaying its lines gives, for every channel that was offered and is not dirty, zero if it is null, and otherwise its number, or one more with the flag for the next; never zero for a number unless the flag for it is set, and never a real number. |
| BayRuns.WriteKeeps | src/emu/chan.c:67-202 | Any set, push or pop of a source channel, single or stack, keeps the network ready to propagate; it succeeds if and only if kind, dirtiness, contents and the last flushed value allow it, and then the channel holds what the write says and no other channel changes. |
| BayRuns.WriteChan | src/emu/chan.c:67-202 | The three operations of the bay have exactly these effects. |
| BayRuns.WroteSynced | src/emu/chan.c:67-202 | Writing channels keeps the trace in step, for every channel not dirty is as it was. |
| BayRuns.PopUndoesPush | src/emu/chan.c:112-202 | Popping a pushed value after its propagation gives back the stack. |
| BayRuns.AllReflect | src/emu/bay.c:181-225 | After a propagation every mux that maps null to no input shows what the wiring says, propagated before or not. |
| Prvs.Prv.constructor | src/emu/pv/prv.c:19-31 | A new trace has no channels and no lines. |
| Prvs.Prv.Register | src/emu/pv/prv.c:154-215 | It fails if and only if two of the three flags for duplicates are set or row and type are taken; otherwise one channel is added. |
| Prvs.Prv.Advance | src/emu/pv/prv.c:218-228 | Time moves unless it would go back, which fails. |
| Prvs.Prv.EmitChan | src/emu/pv/prv.c:78-151 | It fails if and only if some registration refuses the value: a duplicate that its flags neither pass over nor let through, a real number, or a zero without the flag for it. Otherwise exactly the lines of the registrations of that channel are added, at the present time, and what every channel's lines show and log is kept. |
| Prvs.Prv.EmitValue | src/emu/pv/prv.c:88-142 | One emission, by flags and value: nothing for a duplicate passed over, and otherwise one line with zero for null, and the number or one more. |
| Prvs.LineShows | src/emu/pv/prv.c:71-142 | A line for one channel makes replaying its lines give the new encoded value, and leaves the other channels. |
| Prvs.LineLogged | src/emu/pv/prv.c:78-142 | The lines of a channel are those of the values logged for it; without duplicate flags each differs from the one before. |
| Prvs.NewShows | src/emu/pv/prv.c:175-215 | A channel just registered has no line of its own. |
| Sched.CountIs | src/emu/cpu.c:197-231 | The loop counts the threads in a state and remembers one of them. |
| Sched.OnlyIs | src/emu/cpu.c:232-256 | The unique thread is the only member of that set, and -1 stands for none or several. |
| Sched.TrueCounts | src/emu/cpu.c:197-278 | In every reachable state the counters and unique threads of a CPU are the true ones, and a physical CPU has at most one running thread. |
| Sched.ExecuteKeeps | src/emu/ovni/event.c:21-66 | Starting a thread keeps the invariant of threads and CPUs. |
| Sched.EndKeeps | src/emu/ovni/event.c:68-94 | Ending it does. |
| Sched.ChangeKeeps | src/emu/ovni/event.c:96-180 | Pausing, resuming, cooling and warming it do. |
| Sched.MigrateKeeps | src/emu/cpu.c:324-340 | Migrating it to another CPU of its loom does. |
| ThreadEvents.Emu.constructor | src/emu/thread.c:109-134 | Before the first event no thread has a CPU and the channels show that. |
| ThreadEvents.Emu.ThreadSetState | src/emu/thread.c:238-272 | The state and its channels change together; it fails if and only if the thread has no CPU or is in that state. |
| ThreadEvents.Emu.ThreadSetCpu | src/emu/thread.c:344-368 | The CPU and its channel are set; it fails if and only if the thread has one. |
| ThreadEvents.Emu.ThreadUnsetCpu | src/emu/thread.c:370-388 | They are unset; it fails if and only if the thread has none. |
| ThreadEvents.Emu.ThreadMigrateCpu | src/emu/thread.c:390-408 | They move; it fails if and only if the thread has no CPU or is on that one. |
| ThreadEvents.Emu.CountThreads | src/emu/cpu.c:203-231 | The loop computes the counts of running and active threads. |
| ThreadEvents.Emu.CpuUpdate | src/emu/cpu.c:197-278 | Counters and channels are recomputed; it fails if and only if a physical CPU is oversubscribed. |
| ThreadEvents.Emu.CpuAddThread | src/emu/cpu.c:281-299 | The thread joins the list; it fails if and only if it is there or the CPU becomes oversubscribed. |
| ThreadEvents.Emu.CpuRemoveThread | src/emu/cpu.c:301-322 | The thread leaves the list; it fails if and only if it is not there or the CPU stays oversubscribed. |
| ThreadEvents.Emu.CpuMigrateThread | src/emu/cpu.c:324-340 | Both lists, counters and channels change together. |
| ThreadEvents.Emu.ThreadExecute | src/emu/ovni/event.c:21-66 | It succeeds if and only if the event is well formed, its index names a CPU of the loom, the thread has none, and that CPU is virtual or no thread runs on it. The thread is then running on that very CPU, -1 being the virtual one and other indices places in the list of the loom; other threads stay, and no channel but those of the thread and the CPU is written. A dead thread may execute again. |
| ThreadEvents.Emu.ThreadEnd | src/emu/ovni/event.c:68-94 | It succeeds if and only if the thread is running or cooling, and then it is dead without a CPU; no channel but those of the thread and its CPU is written. |
| ThreadEvents.Emu.ThreadChange | src/emu/ovni/event.c:96-180 | It succeeds if and only if the state is another one and, to run, the CPU is virtual or no thread runs on it; no channel but those of the thread and its CPU is written. |
| ThreadEvents.Emu.ThreadEvent | src/emu/ovni/event.c:182-213 | Exactly which thread events are accepted in which state, in terms of states and of who runs on the CPU; for each letter the state, flags and CPU of the thread after it, with the other threads as they were; and that the channels of other models, threads and CPUs stay. |
| ThreadEvents.Emu.AffinitySet | src/emu/ovni/event.c:216-262 | Exactly when a thread may move itself, that it is then on the CPU its index names, with all else of it and the other threads as before, and that only the channels of the thread and of the two CPUs are written. |
| ThreadEvents.Emu.AffinityRemote | src/emu/ovni/event.c:264-324 | Exactly when a thread may move another one, which is the one of its process with that id or else the one of its loom; never to the CPU that one is on. That thread is then on the CPU the index names; the others stay, and only the channels of that thread and of the two CPUs are written. |
| ThreadEvents.Emu.MoveThread | src/emu/cpu.c:324-340 | A thread with a CPU moves to another one of its loom if and only if, when it is running, that CPU is virtual or no thread runs on it; other channels stay. |
| ThreadEvents.MeansOne | src/emu/loom.c:181-194 | The look-up of a CPU in a loom gives the virtual one for -1, the one at that place for an index in range, and none for any other. |
| ThreadEvents.WantedIs | src/emu/ovni/event.c:273-287 | The search for a thread by its id prefers the process of the caller, and otherwise takes the first of the loom. |
| ThreadEvents.Emu.ModelWrite | src/emu/chan.c:67-202 | Another model's write of one of its own channels says nothing about threads and CPUs, and succeeds exactly when the channel is writable. |
| ThreadEvents.Emu.RegisterChan | src/emu/pv/prv.c:175-215 | Registering a channel keeps the trace in step; the new channel has not been offered. |
| ThreadEvents.Emu.PropagateEvent | src/emu/bay.c:181-225 | If the trace is in step before a propagation that succeeds, it is after it, and replaying its lines gives the current value of every registered channel that has been dirty, as SyncedShows says; new lines have the present time; registrations stay; threads, CPUs and channels agree, and every mux that maps null to no input shows what it should. It fails only if a select function refuses its key or the trace refuses a value. |
| ThreadEvents.SameShown | src/emu/bay.c:181-225 | A propagation leaves the channels of threads and CPUs as the event wrote them. |
| ThreadEvents.TrackShows | src/emu/model_cpu.c:91-128 | A CPU's tracking channel equals the channel of the unique running thread on it, and is null if there is none or several. |
| ThreadEvents.ThreadTrackShows | src/emu/thread.c:274-342 | A thread's tracking channel equals its input exactly while it is running (or running, cooling or warming), and is null otherwise. |
| SchedGuards.RunsExactly | src/emu/ovni/event.c:21-66 | In a consistent state the steps of an execution succeed if and only if the thread has no CPU, and the CPU is virtual or no thread runs on it. |
| SchedGuards.StopsExactly | src/emu/cpu.c:301-322 | A thread with a CPU can always leave it: the check after the removal never fails. |
| SchedGuards.ChangesExactly | src/emu/ovni/event.c:96-180 | Changing a thread with a CPU to another state fails if and only if it is to run and its CPU is physical with a thread running; pausing, cooling and warming never oversubscribe. |
| SchedGuards.MovesExactly | src/emu/cpu.c:324-340 | Moving to another CPU fails if and only if the thread is running and that CPU is physical with a thread running. |
| EmuSteps.WriteAll | src/emu/chan.c:67-202 | A model event's writes take effect one after the other up to the first that fails; no other channel changes. |
| EmuSteps.ModelEvent | src/emu/emu.c:169-183 | One event of any model succeeds if and only if it is accepted in the present state of threads, CPUs and channels; it does to threads and CPUs what its letter and index say, and writes only its own channels. |
| EmuSteps.EmuStep | src/emu/emu.c:138-183 | An event and its propagation do to threads and CPUs what the event says, and leave the system ready for the next one, every mux as wired, and the lines of the trace showing the current value of every registered channel ever dirty; whatever changed was offered to the trace. Success means the event was accepted and no value refused; failure names the one that stopped it. |
| EmuSteps.OpenTrace | src/emu/pv/prv.c:19-31 | A new trace is in step with any system. |
| EmuSteps.RunEvents | src/emu/emu.c:138-183 | Over any run of events of all kinds that succeeds, the system stays consistent and replaying the trace gives the current number of every registered channel that is not as it was at the start, one more with the flag for the next, and zero for null. |
| Connect.Connected | src/emu/model_cpu.c:91-128 | The network of a connected system is wired as mux_init asks; each track is the output of one mux, one level above the thread or CPU channel that selects and the inputs. |
| Connect.ConnectSystem | src/emu/model_thread.c:19-131 | From threads that have not run, idle CPUs and fresh channels, a system whose channels are all null and that is ready for its first event. |
| Connect.ModelChan | src/emu/model_thread.c:19-131 | Every channel of a model starts empty, stack or not and taking duplicates or not as the model says. |
| Connect.Places | src/emu/model_thread.c:19-131 | No two channels or tracks of the system share a place. |
| Connect.CpuColumn | src/emu/model_cpu.c:91-128 | In a connected system, each track of a CPU shows that channel of the unique running thread there, or null. |
| Connect.ThreadColumn | src/emu/track.c:83-134 | Each track of a thread shows its channel exactly while the thread runs (or is active). |
| Connect.NeverRefuses | src/emu/mux.c:10-37 | In a connected system no select function refuses its key, so a propagation fails only if the trace refuses a value. |
| TaskSpec.ExecuteKeeps | src/emu/body.c:84-143 | Executing a body keeps the task invariant, also when it fails after reviving the body. |
| TaskSpec.EndKeeps | src/emu/body.c:224-265 | Ending a body keeps it. |
| TaskSpec.CreateKeeps | src/emu/task.c:70-100 | Creating a body keeps it, and a task that is not parallel has one body. |
| TaskSpec.TaskCreateKeeps | src/emu/task.c:36-67 | Creating a task keeps it. |
| TaskSpec.ApplyKeeps | src/emu/task.c:102-208 | Every task operation, successful or not, keeps it: a body is on a stack if and only if it is running or paused, on one stack only and once; a running body below a top may be nested over; only bodies that can pause are paused. |
| TaskSpec.ApplyExactly | src/emu/body.c:84-265 | For all four operations, by state, stack and flags: exactly when each succeeds, what it then does to body, stack and task, and that a failed one leaves the stacks and all other bodies. |
| Tasks.TaskInfo.TaskTypeCreate | src/emu/task.c:236-282 | It fails if and only if the id is zero or taken. |
| Tasks.TaskInfo.Create | src/emu/task.c:36-67 | Creating a task as specified. |
| Tasks.TaskInfo.GetRunning | src/emu/body.c:290-299 | The top body if it is running. |
| Tasks.TaskInfo.ReviveBody | src/emu/body.c:90-101 | A dead body that can be resurrected becomes a created one with a new iteration. |
| Tasks.TaskInfo.PushBody | src/emu/body.c:103-143 | It fails if and only if a running top does not allow nesting; otherwise the body is on top and running. |
| Tasks.TaskInfo.ExecuteBody | src/emu/body.c:84-143 | The two together, as specified. |
| Tasks.TaskInfo.PauseBody | src/emu/body.c:145-185 | Pausing as specified. |
| Tasks.TaskInfo.ResumeBody | src/emu/body.c:187-222 | Resuming as specified. |
| Tasks.TaskInfo.EndBody | src/emu/body.c:224-265 | Ending as specified. |
| Tasks.TaskInfo.NewBody | src/emu/task.c:70-100 | Creating a body as specified. |
| Tasks.TaskInfo.Do | src/emu/task.c:102-208 | The four task operations succeed exactly when state, stack and flags allow it, and do what they should; the history of each stack unwinds to the stack. |
| Tasks.OpenedAt | src/emu/body.c:84-265 | What is on top of a stack was executed at a point since when everything is balanced. |
| Tasks.CloseMatches | src/emu/body.c:84-265 | Executions and ends on one stack form a well-bracketed word: each end matches an execution of the same body. |
| TaskEvents.Tops | src/emu/nosv/event.c:261-329 | How each successful operation changes the running top of its stack, and that it always does. |
| TaskEvents.NoNesting | src/emu/nosv/event.c:332-351 | In nOS-V nothing runs under the top, so X and E cannot arise. |
| TaskEvents.TasksDiffer | src/emu/nanos6/event.c:200-244 | In Nanos6 two bodies belong to two tasks, so switching between them changes the task id. |
| TaskEvents.Transition | src/emu/nanos6/event.c:299-318 | Each successful event has a transition that fits the running body before and after; never X or E in nOS-V. |
| TaskEvents.PaintShows | src/emu/nosv/event.c:122-259 | The channel writes make the channels describe the body, or nothing. |
| TaskEvents.TaskEmu.ChanStopped | src/emu/nosv/event.c:122-155 | It never fails when a task was shown, and clears the task channels. |
| TaskEvents.TaskEmu.ChanShow | src/emu/nosv/event.c:157-259 | The writes never fail if the task shown is another one. |
| TaskEvents.TaskEmu.ChanRunning | src/emu/nosv/event.c:157-203 | It fails if and only if the task cannot be shown, and then writes nothing. |
| TaskEvents.TaskEmu.ChanSwitch | src/emu/nanos6/event.c:200-244 | The same for a switch between two bodies. |
| TaskEvents.TaskEmu.UpdateTaskState | src/emu/nosv/event.c:261-329 | It succeeds if and only if the event is well formed and the task operation succeeds; the operation is on the body that the payload names: the given one of a parallel nOS-V task, or else the only one. |
| TaskEvents.TaskEmu.UpdateSsChannel | src/emu/nosv/event.c:413-433 | The subsystem channel enters the task body, or leaves it if it is on top; the task channels stay. |
| TaskEvents.TaskEmu.UpdateTaskChannels | src/emu/nosv/event.c:353-382 | It fails if and only if the next task cannot be shown; otherwise the channels show the next running body. |
| TaskEvents.TaskEmu.EnforceTaskRules | src/emu/nosv/event.c:384-411 | Its checks never fail. |
| TaskEvents.TaskEmu.ChannelsFollow | src/emu/nosv/event.c:450-477 | Once the task has changed, the channels follow, or it fails exactly when the subsystem or the next task cannot be shown. |
| TaskEvents.TaskEmu.UpdateTask | src/emu/nosv/event.c:435-477 | Exactly when a task event succeeds, by payload, state, stack, flags and ids; which body then starts, resumes, pauses or ends; and that the channels then describe the running top body or are null; no duplicate check of a task channel ever fires. |
| TaskEvents.TaskEmu.TaskEvent | src/emu/nosv/event.c:513-539 | The same with the flush that follows: all threads show their running body again, and after an execution or a resumption the channels hold the task and body ids of the payload. |
| TaskEvents.CanUpdateIs | src/emu/nosv/event.c:261-329 | The plain condition for a task event, with size, task and body id checks, is what its three parts ask together. |
| TaskEvents.TaskEmu.CreateTask | src/emu/nosv/event.c:479-511 | Exactly when a task event creates a task, with the flags of its kind; the other tasks stay. |
| OpenMp.OpenMpEmu.PushBoth | src/emu/openmp/event.c:169-233 | Both stack channels grow, or it fails exactly when one is full. |
| OpenMp.OpenMpEmu.PopBoth | src/emu/openmp/event.c:169-233 | Both lose the expected top and nothing else, or it fails exactly when a top is not that value. |
| OpenMp.Executed | src/emu/openmp/event.c:169-233 | An execution puts its id on its stack and touches no other. |
| OpenMp.Ended | src/emu/openmp/event.c:169-233 | An end takes its own id from the top. |
| OpenMp.OpenMpEmu.ExecuteTask | src/emu/openmp/event.c:200-212 | Exactly when an execution succeeds; the task id channel still holds the ids of the stack. |
| OpenMp.OpenMpEmu.EndTask | src/emu/openmp/event.c:213-225 | Exactly when an end succeeds; the pop of the task id never fails. |
| OpenMp.OpenMpEmu.UpdateTask | src/emu/openmp/event.c:169-233 | Exactly when a task event succeeds, by state, stack and flags, and what it does to the body; the task id channel then equals the ids on the body stack, and the label channel has gained or lost the task's label. |
| OpenMp.OpenMpEmu.UpdateWsState | src/emu/openmp/event.c:294-335 | Worksharings push and pop exactly their label; exactly when they succeed. |
| OpenMp.OpenMpEmu.CreateTask | src/emu/openmp/event.c:128-167 | Exactly when a task is created, that it resurrects and relaxes nesting but does not pause, and that the other tasks stay. |
| SortInputs.SortIs | src/emu/sort.c:79-135 | The reference sort sorts and permutes. |
| SortInputs.SortedUnique | src/emu/sort.c:33-76 | A multiset has one sorted sequence. |
| SortInputs.MoveHole | src/emu/sort.c:33-76 | Shifting a neighbour moves the hole by one and keeps both sides sorted. |
| SortInputs.FillHole | src/emu/sort.c:33-76 | Filling it where the new value fits gives a sorted array with old taken out and new put in. |
| SortInputs.SortReplace | src/emu/sort.c:33-76 | In place: from a sorted array to the sorted array of its values less old plus new. |
| SortInputs.ReplacedIsSort | src/emu/sort.c:33-76 | That is the full sort of the inputs after the change. |
| SortInputs.Inputs.FullSort | src/emu/sort.c:101-107 | The first change copies and sorts. |
| SortInputs.Inputs.Follow | src/emu/sort.c:99-117 | After any change the sorted array is the sort of the values. |
| SortInputs.Inputs.WriteOutputs | src/emu/sort.c:119-134 | Exactly the outputs that differ from their slot are written, and none fails. |
| SortInputs.Inputs.CbInput | src/emu/sort.c:78-135 | One input is updated, null counting as zero, and once any value has changed every output equals its slot. |
| JsonString.RawOfUtf8 | src/parson.c:229-269 | The payload bits of encoded UTF-8 give back the code point, and the first byte tells the length. |
| JsonString.Utf8Verified | src/parson.c:229-269 | What is written for a code point that is no surrogate is accepted and decoded to it (section 3 of RFC 3629). |
| JsonString.EscapeIsUtf8 | src/parson.c:626-675 | Any accepted escape or surrogate pair gives the UTF-8 of one code point that is no surrogate, which the verifier accepts. |
| JsonEscapes.Utf8Bits | src/parson.c:626-675 | The bytes written for a code point carry its bits, six in each byte after the first (section 3 of RFC 3629). |
| JsonEscapes.Hex4Exactly | src/parson.c:181-210 | Four digits are read as a number if and only if they are its hexadecimal digits, in either case. |
| JsonEscapes.EscapeExactly | src/parson.c:626-675 | An escape gives the UTF-8 of the code point its four digits denote; two give that of the code point whose halves they denote, high half first (section 7 of RFC 8259). |
| JsonEscapes.EscapeOnly | src/parson.c:626-675 | Every accepted escape is one of these: single halves, halves in the wrong order and other digits are refused. |
| JsonEscapes.PieceExactly | src/parson.c:677-750 | Which byte each letter after a backslash stands for; other letters and control characters are refused. |
| JsonString.EscapedByte | src/parson.c:1143-1278 | What is printed for a byte is unescaped to it and does not close the string. |
| JsonString.StringRoundTrip | src/parson.c:604-763 | Reading a printed string gives it back and ends after its closing quote, for any bytes and either slash setting (section 7 of RFC 8259). |
| JsonString.SkipQuotes | src/parson.c:604-624 | The loop finds the closing quote that the specification finds, or none. |
| JsonString.StaysInside | src/parson.c:677-750 | No escape runs past the closing quote, but for a backslash right before it. |
| JsonString.ProcessString | src/parson.c:677-750 | The loop unescapes as specified, piece by piece, and never writes past the input length plus one. |
| JsonEscapes.ProcessExactly | src/parson.c:677-750 | A string is the concatenation of its pieces up to its end; it is refused exactly at the first part that is no piece. |
| JsonEscapes.ClosingQuote | src/parson.c:604-624 | The closing quote is the first one not taken along by a backslash; there is none exactly if no such quote comes before the end. |
| JsonEscapes.QuotedExactly | src/parson.c:752-763 | A quoted string is read exactly from a quote to its closing one. |
| Json.ItemsParsed | src/parson.c:870-916 | Reading back the printed items of an array at any depth. |
| Json.FieldsParsed | src/parson.c:801-868 | Reading back the printed fields of an object, refusing repeated keys. |
| Json.ValueParsed | src/parson.c:765-799 | Reading back any printed value within any text. |
| Json.RoundTrip | src/parson.c:765-1141 | Parsing printed text, compact or pretty, with either slash setting, gives the same value (depth at most 2048, distinct keys without zero bytes). |
| JsonGrammar.ParseExactly | src/parson.c:765-916 | For any text, position and value: the parser gives that value and ends there if and only if the grammar says so, with any white space between tokens, commas between members, closing signs, at most 2048 levels, and no key repeated or with a zero byte. Anything else is refused. |
| JsonGrammar.ArrayText | src/parson.c:1018-1048 | The printed text of arrays: no white space when compact; when pretty, a line for each item, four spaces in for each level. |
| JsonGrammar.ObjectText | src/parson.c:1050-1093 | The same for objects, with a space after each colon. |
| JsonNumbers.WholeNumbersOk | src/parson.c:950-966 | Decimal whole numbers are written and read as the round trip asks of numbers. |
| JsonParser.ReadQuoted | src/parson.c:752-763 | The string at a position, and the position after its closing quote. |
| JsonParser.ReadItems | src/parson.c:889-914 | The loop over an array appends exactly the values that the specification reads, or fails with it. |
| JsonParser.ReadField | src/parson.c:821-854 | One field; it fails for a key with a zero byte or one that the object has. |
| JsonParser.ReadFields | src/parson.c:820-866 | The loop over an object adds exactly the fields that the specification reads, or fails with it. |
| JsonParser.ReadValue | src/parson.c:765-799 | The mutual recursion ends for any text and returns the value and the position that the specification gives. |
| JsonParser.ParseString | src/parson.c:1330-1340 | The bytes EF BB BF at the start are skipped, and what follows the value is ignored. |
| JsonParser.PrintedHasNoMark | src/parson.c:1330-1340 | Printed text does not begin with a byte order mark, so the round trip holds for it as a whole. |
| JsonComments.RemoveComments | src/parson.c:337-372 | The in-place loop blanks what the specification calls comments; CommentRemoved and UnclosedComment say what these are. |
| JsonComments.CommentRemoved | src/parson.c:337-372 | After any text that leaves strings closed, a comment goes up to the first end token and becomes as many spaces; what follows is done as if it stood alone. |
| JsonComments.UnclosedComment | src/parson.c:337-372 | A comment that is not closed loses only its start token, and nothing after it is changed. |
| JsonComments.CommentInFront | src/parson.c:1342-1359 | A document with a block comment in front parses to its value. |
| JsonComments.PrintedUntouched | src/parson.c:337-372 | Removing comments of either kind is the identity on printed text, even when its strings look like comments. |
| JsonComments.RoundTripWithComments | src/parson.c:1342-1359 | Parsing printed text after removing both kinds of comments gives the same value. |
| JsonWriter.Put | src/parson.c:1291-1297 | A piece of text goes after what was written, or is only counted without a buffer. |
| JsonWriter.PutIndent | src/parson.c:1280-1289 | Four spaces a level. |
| JsonWriter.PutString | src/parson.c:1143-1278 | The loop writes the printed string, byte by byte. |
| JsonWriter.PutItems | src/parson.c:1018-1048 | The loop over an array writes its printed text. |
| JsonWriter.PutFields | src/parson.c:1050-1093 | The loop over an object writes its printed text. |
| JsonWriter.Serialize | src/parson.c:1003-1141 | With or without a buffer the result is the length of the printed text; with one, exactly these bytes are written and the others stay. |
| JsonWriter.SerializeToString | src/parson.c:1879-1966 | The size found without a buffer is exactly the size written: the result is the printed text and a zero. |
| ListSortSpec.MergeInOrder | src/include/utlist.h:254-300 | Merging two neighbouring runs in stable order gives a run in stable order. |
| ListSortSpec.PassRuns | src/include/utlist.h:237-303 | A pass makes runs of k into runs of 2k. |
| ListSortSpec.StableSort | src/include/utlist.h:221-308 | For any total preorder and length, the result is a sorted permutation in which ties keep their order. |
| ListSortSpec.StableByPosition | src/include/utlist.h:221-308 | For the distinct nodes of any list, ties keep the order of their positions in it. |
| ListSortSpec.OneStableOrder | src/include/utlist.h:221-308 | Only one list is that. |
| Utlist.MergeRuns | src/include/utlist.h:254-300 | The inner loop relinks the nodes of two runs in merged order at the end of the new list. |
| Utlist.FindRight | src/include/utlist.h:243-252 | The counting loop finds the size of the left run and where the right one starts. |
| Utlist.PassOver | src/include/utlist.h:232-307 | One pass gives a well-linked list of the same nodes, and counts at most one merge exactly for the last pass. |
| Utlist.Sort | src/include/utlist.h:221-308 | DL_SORT ends and gives a list with correct next and prev links and the tail behind the head, in the order of the specification. |
| Utlist.Append | src/include/utlist.h:760-772 | The list with one node more at the end. |
| Utlist.Prepend | src/include/utlist.h:745-755 | The list with one node more in front. |
| Utlist.Delete | src/include/utlist.h:829-844 | The list without the node, wherever it was. |
| Uthash.MaskIsModulo | src/include/uthash.h:442-445 | Masking with one less than a power of two takes the remainder. |
| Uthash.IdealIsCeiling | src/include/uthash.h:982-983 | The shift and the mask give the number of items over the new number of buckets, rounded up. |
| Uthash.PushBucketed | src/include/uthash.h:904-914 | Pushing an item on its chain keeps every bucket's chain, count and contents exact. |
| Uthash.UnlinkBucketed | src/include/uthash.h:925-938 | Unlinking one does. |
| Uthash.MoveOne | src/include/uthash.h:987-1003 | Moving one item to its new bucket keeps the new table exact and the rest of the old one intact. |
| Uthash.ExpandBuckets | src/include/uthash.h:969-1009 | Doubling the buckets rehashes all items: each is in the chain of its hash and nowhere else; the items beyond the ideal length are counted exactly, and each bucket gets the expansion multiple that its length asks for. |
| Uthash.MultStep | src/include/uthash.h:991-996 | Counting items one by one gives a bucket the least of its excess and the number of ideal lengths it takes. |
| Uthash.Table.constructor | src/include/uthash.h:408-420 | An empty table. |
| Uthash.Table.Find | src/include/uthash.h:882-901 | The item with the key, or null if and only if there is none. |
| Uthash.Table.Expand | src/include/uthash.h:969-1017 | Twice the buckets, still a power of two with its logarithm, and no more expansions after two that did not help. |
| Uthash.Table.AddToBkt | src/include/uthash.h:904-922 | The item is in its bucket; the table expands if and only if the bucket then holds ten times its multiple plus ten items and expansion is not inhibited. |
| Uthash.Table.Add | src/include/uthash.h:408-430 | A new key goes to the end of the order; the table stays exact. |
| Uthash.Table.Delete | src/include/uthash.h:462-490 | The item leaves order and bucket; the others keep their order. |
| Uthash.FoundIsMapped | src/include/uthash.h:169-186 | Finding agrees with the map the table stands for. |
| Uthash.AddedToMap | src/include/uthash.h:408-430 | Adding updates that map at the key. |
| Uthash.DeletedFromMap | src/include/uthash.h:461-490 | Deleting removes that key from it and nothing else. |

## Left out

- Files, memory mapping, directories, environment and MPI: a stream is a sequence of bytes, and reading or writing it does not fail.
- Player.UpdateClocks: corrected clocks are unbounded integers; the wrap-around of the sum of a 64-bit clock and the offset is not modelled.
- Prvs.Prv.EmitChan: the wrap-around of a 64-bit value when the flag for the next value adds one is not modelled.
- Utlist.Sort: run sizes are unbounded; in the source they are int, which would overflow for lists of more than 2^30 nodes.
- Uthash.Table.Expand: the numbers of buckets and items are unbounded; in the source they are 32-bit.
- Uthash.Table.Add: the hash of the key is stored when the item is made, not when it is added; keys are compared whole, with no key length apart. Sorting the table, selecting from it and the Bloom filter are left out.
- Rings.Ring.constructor: a ring has at least one slot; the program allocates as many as its option says, without a check.
- Bays.PatchBay.constructor: every input of a mux is set and there is at least one, all channels are registered, and select functions depend on the key alone, so the breakdown's function that reads another input is not covered. A propagation writes to one trace; the source may have several.
- Bays.PatchBay.Propagate: the field is_dirty of a bay channel, tested but never set, is left out, and so are the dirty callbacks other than the bay's.
- Connect.ConnectSystem: at least one thread; the channels of all models are one list, the same for every thread and CPU; the channels that the tracks of untracked modes register are there but have no mux.
- ThreadEvents.Emu.ThreadEvent: an event that fails leaves the emulation stopped; nothing is said of threads and CPUs after it.
- ThreadEvents.Emu.AffinityRemote: threads are searched by the lowest index first within the loom; the lookup tables by process are not modelled.
- ThreadEvents.TrackShows: only tracking channels whose default is null; the columns with another default are covered by Bays.PatchBay.Propagate.
- TaskEvents.TaskEmu.TaskEvent: of the subsystem channel only what task events do to it; the propagation is the flush of the thread's channels. Other events, rank and application tables are parameters.
- TaskEvents.TaskEmu.CreateTask: the labels and colours of task types are left out; the type's identifier in the trace is a parameter.
- Json.RoundTrip: numbers are abstract, with a text that can be read back; NaN and infinities are left out, and so are capacities and failing allocations.
- JsonWriter.Put: the zero that sprintf writes after each piece is not modelled; the next piece overwrites it, and the last one is in the buffer of SerializeToString.
- JsonString.ProcessString: the final shrinking copy of the buffer is left out.
- JsonParser.ReadItems: the items of an array are a linked value, not a growing array.
- Heap.Heap.Insert: the key a node compares by is a field of the node and does not change while the node is in the heap.
- The drawing of the trace (PCF and ROW files, labels), the clock offsets file, marks, bursts, versions and the printing of events: data and text with no deep property.
- The programs ovnisync, ovnidump, ovnitop and the statistics: plumbing and floating point.
