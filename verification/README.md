# Verified core of the AngelScript 2.26.0 engine

A Dafny model of the four parts of the bundled script engine whose correctness is hardest to see from the code, with proofs
of what they promise. The bytecode and stack models take a pointer as one dword (`AS_PTR_SIZE` 1). Integers are unbounded
unless a wrap is written out.

**Garbage collector** (`as_gc.cpp`). The heap is a multigraph with a counter and a flag for every object, references held
outside it, and the collector's lists and map (`ObjectHeap`). Every pass through the switches of the collector is a function on
the whole state (`CollectorSteps`), and the class in `Collector` that updates its fields in place is proved to compute those
functions. `CollectorSafety` and `CollectorRuns` prove what holds in every run in which application steps come between
any two passes; `CollectorComplete` and `CollectorMarking` what a collection finds when the application stands still,
`CollectorHalves` what each half of one finds alone, `CollectorAges` how long new objects stay new, `CollectorProgress` what
registering objects achieves, and `CollectorBehind` what it does not.

**Bytecode** (`as_bytecode.cpp` against `as_context.cpp`). `Bytecode` gives the instruction list its meaning on the
machine. `Rewriting` says for every rewrite of the local optimizer at which positions of which lists it is to be made, and what
list it makes; `Optimizer`, which works in place, makes exactly these (with `Liveness`), and is proved to refine the list for every
entry, start state and length of run (with `Windows` and `Peepholes`). `OptimizerTermination` shows that it ends on every list of every operation. The register
keeps a number over jumps, labels and switches, as a function's result must be kept, and is lost with an address in it, at a
conditional jump and at a suspend; temporaries after a suspend are filled by an oracle. `Conventions` carries the result over to
the machine that loses nothing, for code that reads nothing lost. `UnreachableCode` is the pass that computes stack depths and
deletes dead code, `GlobalOptimizer` (with `Machine` and `Deletions`) the pass over what is left, `Linker` the way from the list
to the dwords, `Execution` the machine on these dwords, and `Finalize` the stages one after another. `Encoding` has the
operation numbers, sizes and stack effects they share.

**Context** (`as_context.cpp`). `ContextState` has the call stack, stack blocks and registers; the class in `Context` is
proved to compute its functions. `CallRuns` says where calls, returns and prepared functions go on, and with what frame;
`NestedRuns` proves that a nested run restores what it interrupts, `StackFrames` and
`StackSafety` where frames lie, when a `Prepare` finds space, what a failed one spoils, and that a nested run leaves the memory
of the interrupted calls alone. `LiveObjects` is the scan that decides which variables hold objects when a call is unwound.

**Classes** (`as_builder.cpp`). `Inheritance` is the chain walk before a base is set and the ordering loop, `VTables` the
layout of method lists and virtual function tables and the call through them, `Containment` the rounds that find classes
containing themselves, `GcFlags` the pass that exempts classes from garbage collection.

Runs, paths and events are quantified over without bound. Fuel in `Run`, `RealRun`, `MachineRun`, `Search` and `After` only counts steps of
a run that is then quantified over all lengths.

Where the code does not do what its surroundings rely on:

- Folding a constant into an operation or a comparison that has the variable for both operands reads the old value of the
  variable (`AngelScript/source/as_bytecode.cpp:430-492`). `Peepholes.FoldRightExact` and `Peepholes.FoldCompareExact` say exactly
  when the folds are right, and `Optimizer.FoldDoubled` has the optimizer make such a fold, after which the list no longer does
  what it did. The optimizer is proved on every list to make only right rewrites and folds of that kind, and to refine the
  list when it makes none of them. `Optimizer.Safe` is a condition to look at beforehand under which it makes none: the variable of
  such an operation is never set by `SetV4` or `CpyVtoV4`, or is no temporary and does not get the result back.
- After an initialization was postponed the optimizer goes on before its use (`AngelScript/source/as_bytecode.cpp:375-381`), so that
  two pushes and a swap that this brings together stay. `Optimizer.LeaveSwap` is a list it leaves so; where it postpones nothing, no
  such swap is left, and never any pair that is rewritten whatever follows.
- `Optimize` takes a jump to the label right behind it out of a switch table as well
  (`AngelScript/source/as_bytecode.cpp:1163-1165`), while the machine still jumps by position. `GlobalOptimizer.TablesDecided` says
  exactly when every index still finds its way: in no table may the last two entries both go to the label behind the table.
  `GlobalOptimizer.SpoilTable` has the optimizer spoil one.
- `Prepare` that fails for lack of stack space has already replaced the initial function, but not the stack pointer to go
  back to (`AngelScript/source/as_context.cpp:365-397`). `StackFrames.PrepareSucceeds` says before the call whether there is
  space, and `StackFrames.AfterFailure` exactly when the next `Prepare` after a failure keeps the layout: it must be for another
  function, on a level that has been prepared before, whose first block already crosses the limit. Of the other cases,
  `StackSafety.FailedPrepareOverlaps` shows, as a run from a new context, a nested run's frame put over that of the caller, and
  `StackSafety.FailedPrepareRepeats` the same function prepared again with success but without a stack. A failure that is
  popped is harmless, and the memory bound holds in any run.
- Registering objects destroys what the sweep of the old objects still comes to, but the sweep may never come back: when the
  application goes on registering objects that it keeps, the list grows as fast as the sweep moves on
  (`AngelScript/source/as_gc.cpp:111-124`). `CollectorProgress.GarbageGoes` has the number of registrations after which garbage before
  the sweep is gone, `CollectorBehind.NeverComesBack` garbage behind it that no number of them destroys.
- Detection alone (`AngelScript/source/as_gc.cpp:172-176`) does not break every circle that nothing outside leads to: not one that an
  object leads to which the list alone refers to, as `CollectorHalves.CircleStays` shows. What is
  `CollectorComplete.Anchored`, led to from outside or by such an object, keeps its references; and at the end everything listed is.
- A stub is final when the first declaration of the method is (`AngelScript/source/as_builder.cpp:2408`, `2429`, `2988`), so that a
  method declared final may be overridden without an error when it overrides one that is not final: `VTables.LaterFinal`.
  `VTables.VTableBuilder.CompileAll` has an error exactly when a method is overridden whose first declaration is final.
- After `Unprepare` there is no current function, the call stack counts as empty, and `PopState` refuses
  (`AngelScript/source/as_context.cpp:195-220`, `1258-1261`); and a suspended nested run is not unwound by `PopState`.
  `NestedRuns.PopRestores` is an if-and-only-if that names both; `NestedRuns.UnpreparedNotRestored` and
  `StackSafety.SuspendedNotRestored` are runs that fail.

## Model

| member | source | states |
|---|---|---|
| `ObjectHeap.ReleaseLaws` | AngelScript/source/as_gc.cpp:569-577 | Releasing references, with the cascade of destructions it may start, keeps every counter equal to the number of references and destroys only objects nothing else refers to |
| `ObjectHeap.DestroysSpares` | AngelScript/source/as_gc.cpp:480-505 | Destroying unreferenced objects takes away nothing the application can reach, nor a reference held by it |
| `CollectorSteps.AtOrAfter` | AngelScript/source/as_gc.cpp:636-668 | The map cursor yields the least key at or after a position, and nothing only if there is none |
| `CollectorSafety.MutateLaws` | AngelScript/source/as_gc.cpp:593-621 | Every application step - create, copy, drop, link, unlink a reference it can reach - keeps counters exact, disturbs no untouched mapped object and nothing isolated |
| `CollectorSafety.IsolatedUnreachable` | AngelScript/source/as_gc.cpp:683-689 | Objects referenced only by one another and not from outside cannot be reached by the application |
| `CollectorSafety.BuildMapKeeps` | AngelScript/source/as_gc.cpp:588-632 | Mapping an object snapshots its counter, adds the map's reference and sets its flag, keeping the cycle's invariant; swapped list entries are never mapped twice |
| `CollectorSafety.CountReferencesKeeps` | AngelScript/source/as_gc.cpp:641-669 | Subtracting the references of a flagged mapped object keeps, for every untouched object, remaining counter plus subtracted references equal to the references to it |
| `CollectorSafety.FindLiveKeeps` | AngelScript/source/as_gc.cpp:681-711 | Queueing live objects keeps the invariant |
| `CollectorSafety.RemoveLiveKeeps` | AngelScript/source/as_gc.cpp:713-744 | Removing a live object queues what it refers to and keeps the invariant; the release never destroys it |
| `CollectorSafety.NothingQueued` | AngelScript/source/as_gc.cpp:713-749 | With an empty queue and all flags still set, the mapped objects are referenced by one another only |
| `CollectorSafety.VerifyUnmarkedPhase` | AngelScript/source/as_gc.cpp:751-780 | Verification either sends the cycle back to the search or ends with an isolated map, although flags are cleared while it runs |
| `CollectorSafety.BreakCirclesKeeps` | AngelScript/source/as_gc.cpp:789-820 | Breaking an object of an isolated map keeps counters exact, the map isolated and everything reachable untouched |
| `CollectorSafety.DetectPassKeeps` | AngelScript/source/as_gc.cpp:552-828 | Every pass through the detection switch keeps the invariant, everything reachable, and reachable objects listed |
| `CollectorSafety.IdentifyKeeps` | AngelScript/source/as_gc.cpp:552-828 | So does a whole call, however many passes it makes |
| `CollectorRuns.DestroyNewKeeps` | AngelScript/source/as_gc.cpp:317-420 | Destroying or promoting new objects, with swap-removal from the list, keeps the invariant and everything reachable in any state of detection |
| `CollectorRuns.DestroyOldKeeps` | AngelScript/source/as_gc.cpp:443-550 | The same for old objects, even while detection walks the list that is reordered |
| `CollectorRuns.AddObjectKeeps` | AngelScript/source/as_gc.cpp:83-136 | Registering an object, with the collector steps it may trigger, keeps the invariant and lists the object once |
| `CollectorRuns.StartFullyKeeps` | AngelScript/source/as_gc.cpp:155-169 | Starting a full collection in the middle of a cycle - all new objects moved to the old list, detection and destruction reset - keeps the invariant, what is listed, and the heap |
| `CollectorRuns.BrokenObjectsAreGarbage` | AngelScript/source/as_gc.cpp:782-820 | In every run of interleaved application and collector steps, starts of full collections among them, when circles are broken every reference to a mapped object is held by a mapped object, and no mapped object is reachable |
| `CollectorRuns.CollectorNeverDisturbsLive` | AngelScript/source/as_gc.cpp:83-225 | In every run nothing but the application's own steps changes what it can reach or a reference held by it; registering an object, with the collector steps that brings, does not either |
| `CollectorRuns.CountersAreExact` | AngelScript/source/as_gc.cpp:83-136 | In every reachable state a counter is the references in the heap, plus those outside, plus one if listed, plus one if mapped; objects are listed at most once, and mapped objects are listed and alive |
| `CollectorMarking.GarbageIsNotAlive` | AngelScript/source/as_gc.cpp:673-744 | With the application standing still the search ends, and leaves in the map exactly the objects not reachable inside it from one with a cleared flag or positive remaining counter |
| `CollectorMarking.SearchStep` | AngelScript/source/as_gc.cpp:681-744 | Every pass of the search goes down in (phase, objects to look at or mapped, length of the queue), though objects may be queued repeatedly |
| `CollectorComplete.PositiveIsAnchored` | AngelScript/source/as_gc.cpp:700-703 | When only listed objects hold references, a positive remaining counter means that the object is led to from outside, or from a listed object that the collector alone refers to |
| `CollectorComplete.NoCircleLeft` | AngelScript/source/as_gc.cpp:782-820 | When everything listed is anchored, objects that only refer to one another, with a listed one among them, have a new one among them or one that the list alone refers to: no circle is left |
| `CollectorComplete.IdentifyQuiet` | AngelScript/source/as_gc.cpp:155-205 | Without application steps every call of detection goes down in a measure whose first part is the number of heap references, or ends a cycle that found nothing, and then everything listed is anchored |
| `CollectorComplete.DestroyOldQuiet` | AngelScript/source/as_gc.cpp:443-550 | Repeated destruction steps get on, and end only when no listed old object is referenced by the list alone |
| `CollectorComplete.DestroyNewQuiet` | AngelScript/source/as_gc.cpp:317-420 | The same for new objects |
| `CollectorComplete.NothingLeft` | AngelScript/source/as_gc.cpp:187-198 | After a cycle that found no garbage and a sweep that destroyed nothing, everything listed is reachable |
| `CollectorHalves.IdentifyKeepsAnchored` | AngelScript/source/as_gc.cpp:552-828 | Detection takes no reference from an object that is led to from outside or from one that the list alone refers to |
| `CollectorHalves.CircleStays` | AngelScript/source/as_gc.cpp:782-820 | A concrete circle of garbage that detection alone leaves, since an object that only the list refers to leads to it |
| `CollectorHalves.DestroyNewScans` | AngelScript/source/as_gc.cpp:317-420 | A sweep of the new list that destroyed nothing has left no new object that the list alone refers to |
| `CollectorAges.NewLooks` | AngelScript/source/as_gc.cpp:317-420 | A step of the destruction of new objects looks at one: it goes when the list alone refers to it, to the old list at the fourth look, and else stays, looked at once more |
| `CollectorAges.OldLooks` | AngelScript/source/as_gc.cpp:443-550 | A step of the other destruction destroys one old object that the list alone refers to, or passes one over that is referenced |
| `CollectorAges.NewAreYoung` | AngelScript/source/as_gc.cpp:317-420 | In every state of every run no new object has been looked at more than three times |
| `CollectorProgress.RegistrationAdvances` | AngelScript/source/as_gc.cpp:98-125 | With new and old objects listed, registering one takes detection one returning call further - its measure goes down, or a cycle ends - and the sweep of old objects one further or to its end; then each of up to ten steps does the same for the new ones |
| `CollectorProgress.GarbageGoes` | AngelScript/source/as_gc.cpp:98-125 | While the application drops nothing, an old object that the list alone refers to, and that the sweep still comes to, is destroyed within a number of registrations told by the garbage listed and the entries before it |
| `CollectorBehind.RegisteredBehind` | AngelScript/source/as_gc.cpp:83-136 | With the new list in one of four states, a registration takes it to the next, and promotes what keeps the sweep from its end |
| `CollectorBehind.NeverComesBack` | AngelScript/source/as_gc.cpp:83-136 | From a concrete state, garbage behind the sweep is there after any number of registrations |
| `Collector.GarbageCollector.GCEnumCallback` | AngelScript/source/as_gc.cpp:852-874 | While references are counted decrements the counter of a mapped object, while live objects are removed queues a mapped object, and changes nothing otherwise |
| `Collector.GarbageCollector.EnumReferences` | AngelScript/source/as_gc.cpp:652-656 | Enumerating an object subtracts or queues each of its references once |
| `Collector.GarbageCollector.RemoveOldObjectAtIdx` | AngelScript/source/as_gc.cpp:283-293 | The last entry takes the place of the removed one |
| `Collector.GarbageCollector.MoveObjectToOldList` | AngelScript/source/as_gc.cpp:295-306 | The entry goes to the end of the old list and leaves the new one by swap-removal |
| `Collector.GarbageCollector.DetectOnce` | AngelScript/source/as_gc.cpp:556-827 | One pass through the switch, in place, is the pass function |
| `Collector.GarbageCollector.IdentifyGarbageWithCyclicRefs` | AngelScript/source/as_gc.cpp:552-828 | A call is passes until one returns, keeps the invariant and everything reachable |
| `Collector.GarbageCollector.DestroyNewGarbage` | AngelScript/source/as_gc.cpp:317-420 | In place, the same as the function of that step; with 1 it has destroyed, promoted or looked at one new object, with 0 changed no list; every object that leaves the lists is counted |
| `Collector.GarbageCollector.DestroyOldGarbage` | AngelScript/source/as_gc.cpp:443-550 | In place, the same as the function of that step; it has destroyed one old object that the list alone refers to, or changed nothing but where it is |
| `Collector.GarbageCollector.AddScriptObjectToGC` | AngelScript/source/as_gc.cpp:83-136 | The object is listed at the end with one more reference, after one detection step, one destruction step for old objects and at most ten for new ones, none of which reenters the collector; `RegistrationAdvances` says what these achieve |
| `Collector.GarbageCollector.RegisterObject` | AngelScript/source/as_gc.cpp:83-136 | Registering a reachable object that is not listed keeps the invariant |
| `Collector.GarbageCollector.StartFully` | AngelScript/source/as_gc.cpp:155-169 | In place, the start of a full collection is the function of that step; nothing is lost from the lists |
| `Collector.GarbageCollector.CollectFully` | AngelScript/source/as_gc.cpp:155-205 | A full collection terminates; with all references held by listed objects, what stays listed is exactly what is reachable; asked to destroy it leaves no object that the list alone refers to, asked only to detect no listed object that is not anchored |
| `Collector.GarbageCollector.GarbageCollect` | AngelScript/source/as_gc.cpp:138-225 | The return value for every combination of flags and the exact state after a single step; after a full cycle with both halves exactly the reachable objects are listed; with destruction no listed object is referenced by the list alone, and without detection no cycle is touched; with detection alone all are listed that were, in the old list, the cycle is over, every listed object is anchored, and those that were have their references; listed plus destroyed objects are conserved |
| `Liveness.DoSim` | AngelScript/source/as_bytecode.cpp:1169-1230 | The optimizer's tables of what instructions read and overwrite are right for the machine: states agreeing on what is read lead to states that still agree |
| `Liveness.ReadsMatter` | AngelScript/source/as_bytecode.cpp:1169-1230 | And the table of reads lists nothing else: every variable in it makes a difference to its instruction, unless that takes its address or is a switch |
| `Liveness.RegReadsMatter` | AngelScript/source/as_bytecode.cpp:1322-1411 | The register makes a difference to every instruction that is taken to read it |
| `Liveness.ChangesTarget` | AngelScript/source/as_bytecode.cpp:1169-1230 | Nothing is missing among what is overwritten: an instruction that changes a variable has it for its target, unless it counts it up or down or goes through an address |
| `Liveness.ChangesReg` | AngelScript/source/as_bytecode.cpp:1322-1411 | Nor among what drops the register |
| `Liveness.SuccHappens` | AngelScript/source/as_bytecode.cpp:1232-1320 | Every way on that the search takes from an instruction is taken by the machine in some state |
| `Liveness.NothingLive` | AngelScript/source/as_bytecode.cpp:1232-1411 | Nothing is read beyond the end, a return or a suspend, and the register not beyond a jump or a label |
| `Liveness.StepSim` | AngelScript/source/as_context.cpp:1585-1968 | States that differ only in temporaries that are never read again, and in a register that holds an address never followed or is lost, take the same step to such states |
| `Windows.EditRefines` | AngelScript/source/as_bytecode.cpp:248-340 | Replacing a stretch that is right on its own is right in any list: jumps into, over and to the end of it, and switch tables, still reach what they reached |
| `Windows.LabelMap` | AngelScript/source/as_bytecode.cpp:1744-1794 | A jump from outside the stretch, or at its end, finds the corresponding label after the change |
| `Windows.TableMap` | AngelScript/source/as_context.cpp:2252-2254 | A switch outside the stretch takes the same entry of the same table before and after the change |
| `Windows.RefinesTrans` | AngelScript/source/as_bytecode.cpp:595-1016 | Refinement composes |
| `Peepholes.LiveTransfer` | AngelScript/source/as_bytecode.cpp:406-426 | A temporary that dies behind the replaced stretch in the old list dies there in the new one |
| `Peepholes.DeadWrite` | AngelScript/source/as_bytecode.cpp:406-426 | Deleting the write of a temporary that is never read refines |
| `Peepholes.DeadGlobalRead` | AngelScript/source/as_bytecode.cpp:417-422 | Reading a global into a dead temporary still leaves its address in the register |
| `Peepholes.FoldRight` | AngelScript/source/as_bytecode.cpp:447-469 | A constant second operand can be folded when the other operand is another variable; otherwise `FoldRightExact` decides |
| `Peepholes.FoldRightExact` | AngelScript/source/as_bytecode.cpp:447-469 | The fold computes the same in every state if and only if the other operand is another variable, or the operation multiplies by zero |
| `Peepholes.DoubledFoldBreaks` | AngelScript/source/as_bytecode.cpp:447-469 | A concrete list whose doubled operand makes the fold change its result |
| `Peepholes.FoldLeft` | AngelScript/source/as_bytecode.cpp:471-492 | A constant first operand can be folded when the operation commutes |
| `Peepholes.FoldCompare` | AngelScript/source/as_bytecode.cpp:430-445 | A constant can be folded into a comparison with another variable; otherwise `FoldCompareExact` decides |
| `Peepholes.FoldCompareExact` | AngelScript/source/as_bytecode.cpp:430-445 | That fold computes the same in every state if and only if the other operand is another variable |
| `Peepholes.FoldCopy` | AngelScript/source/as_bytecode.cpp:494-503 | A constant copied on is set directly |
| `Peepholes.FoldPush` | AngelScript/source/as_bytecode.cpp:505-515 | A constant that is pushed is pushed directly |
| `Peepholes.FoldGlobal` | AngelScript/source/as_bytecode.cpp:517-529 | A constant copied to a global is set there directly |
| `Peepholes.MoveResult` | AngelScript/source/as_bytecode.cpp:532-543 | A result moved on at once can be written where it is moved |
| `Peepholes.RegisterRoundTrip` | AngelScript/source/as_bytecode.cpp:545-555 | Saving the register in a temporary and loading it back can go |
| `Peepholes.GlobalPush` | AngelScript/source/as_bytecode.cpp:557-568 | A global copied to a temporary to be pushed is pushed directly |
| `Peepholes.Postpone` | AngelScript/source/as_bytecode.cpp:342-389 | An initialization can move past instructions that neither read nor write its temporary |
| `Peepholes.SwapPushes` | AngelScript/source/as_bytecode.cpp:644-661 | Two pushes and a swap are the pushes in the other order |
| `Peepholes.PushPop` | AngelScript/source/as_bytecode.cpp:784-805 | A push that is popped at once can go |
| `Peepholes.LoadPop` | AngelScript/source/as_bytecode.cpp:770-774 | A dereference that is popped at once can go, on runs in which it does not fault |
| `Peepholes.PushLoad` | AngelScript/source/as_bytecode.cpp:883-888 | Pushing an address and dereferencing it is pushing the variable |
| `Peepholes.PushLoadDoes` | AngelScript/source/as_bytecode.cpp:883-888 | The pair pushes the value of any variable, a temporary too: its address may be followed at once |
| `Peepholes.IncrementVar` | AngelScript/source/as_bytecode.cpp:699-712 | Loading an address and incrementing through it is incrementing the variable, when the register is not used again |
| `Peepholes.IncrementDoes` | AngelScript/source/as_bytecode.cpp:699-712 | The pair adds or subtracts one, with a wrap at 32 bits, in any variable that holds a number, a temporary too, and faults otherwise |
| `Peepholes.WriteGlobal` | AngelScript/source/as_bytecode.cpp:716-724 | Loading the address of a global and writing through it is a copy, when the register is not used again |
| `Peepholes.ReadGlobal` | AngelScript/source/as_bytecode.cpp:725-737 | The same for reading, with and without the register used again |
| `Peepholes.TestClears` | AngelScript/source/as_bytecode.cpp:664-677 | A test leaves nothing to clear |
| `Peepholes.ClearJump` | AngelScript/source/as_bytecode.cpp:679-696 | Clearing the upper bytes and jumping on zero is jumping on the low byte |
| `Peepholes.TestJumps` | AngelScript/source/as_bytecode.cpp:952-973 | A test and a jump on its result is the jump on the tested value, for all twelve pairs and both widths |
| `Optimizer.ByteCode.FindLabelFrom` | AngelScript/source/as_bytecode.cpp:1744-1794 | The next label of the name, else the previous one |
| `Optimizer.ByteCode.IsTempVarRead` | AngelScript/source/as_bytecode.cpp:1232-1320 | Terminates, and returns true if and only if some path - through jumps backward and forward and switch tables - reads the variable before it is overwritten or discarded |
| `Optimizer.ByteCode.IsTempRegUsed` | AngelScript/source/as_bytecode.cpp:1322-1411 | True if and only if the register is read before it is overwritten or loses its value |
| `Optimizer.ByteCode.RemoveUnusedValue` | AngelScript/source/as_bytecode.cpp:391-584 | Changes the list if and only if a dead write, a constant to fold or to pass on, a result to move, a register saved to be loaded or a global copied to be pushed begins there, and then to the list with that rewritten; this refines the list or is a fold into doubled operands, goes down in the termination order and keeps sizes and stack effects those of the operations |
| `Optimizer.ByteCode.PostponeInitOfTemp` | AngelScript/source/as_bytecode.cpp:342-389 | Changes the list if and only if the first use of the temporary is further on and a fold or pass could be made there, and then to the list with it made; this refines the list or is such a fold after a right move; a postponement that leads to nothing restores the list exactly |
| `Optimizer.ThereAndBack` | AngelScript/source/as_bytecode.cpp:375-388 | Moving an instruction forward and back gives the list there was |
| `Optimizer.ByteCode.OptimizeStackOps` | AngelScript/source/as_bytecode.cpp:644-888 | Changes the list if and only if it has a swap of two pushes, a push or dereference that is popped, or an address pushed to be followed, and then to exactly the shorter list, which refines it, with doubled operands too |
| `Optimizer.ByteCode.OptimizeRegisterLoads` | AngelScript/source/as_bytecode.cpp:697-737 | The same for increments, writes and reads through the register: but for reads, if and only if the register is not used again |
| `Optimizer.ByteCode.OptimizeJumps` | AngelScript/source/as_bytecode.cpp:662-973 | The same for tests that are cleared or jumped on and for clearing before a jump |
| `Optimizer.ByteCode.OptimizeLocally` | AngelScript/source/as_bytecode.cpp:595-1016 | Without the option nothing changes. With it: terminates on every list with closed tables although it moves forward again after changes; every step from list to list is a rewrite that was to be made where it was made, and none was to be made on the way there; when nothing changes, there was nothing to rewrite anywhere; no pair is left whose rewriting depends on nothing else, and no swap unless something was postponed. Every step refines or is a fold into doubled operands; without one of these, and always on safe lists, the result ends every run that ends, from every entry, with the same exit, jumps taken, variables that are not temporaries, globals, stack and number in the register; sizes and stack effects are those of the operations |
| `Optimizer.ByteCode.Rewrite` | AngelScript/source/as_bytecode.cpp:625-1016 | At each instruction a rewrite is made if and only if there is one to be made, and it is that one; the search goes on at most two instructions behind, and there or further on leaves no pair it had not left before |
| `Optimizer.OneRewrite` | AngelScript/source/as_bytecode.cpp:631-640 | Of an initialization that can be postponed neither is the write dead nor can it be combined with the next instruction |
| `Optimizer.LeaveSwap` | AngelScript/source/as_bytecode.cpp:375-381 | A concrete list in which the optimizer leaves two pushes and a swap that a postponement brought together |
| `Rewriting.PairsStay` | AngelScript/source/as_bytecode.cpp:295-340 | Replacing a stretch and going on behind it leaves no pair behind that was not there |
| `Optimizer.RewritesRefine` | AngelScript/source/as_bytecode.cpp:595-1016 | Rewrites one after another refine the first list when none is a fold into doubled operands |
| `Optimizer.SafeRewrites` | AngelScript/source/as_bytecode.cpp:430-492 | In a safe list none is, and the list stays safe |
| `Optimizer.FoldDoubled` | AngelScript/source/as_bytecode.cpp:447-469 | The optimizer folds 3 + 3 into what the variable held before plus 3, which does not refine the list |
| `OptimizerTermination.InversionsSwapped` | AngelScript/source/as_bytecode.cpp:976-997 | Pushing an address after a `FREE` instead of before it takes away exactly one such pair |
| `OptimizerTermination.KindList.AtDereference` | AngelScript/source/as_bytecode.cpp:864-896 | A rewrite at `RDSPtr` shortens the list, or leaves one `ChkRefS` less; without one the list is untouched |
| `OptimizerTermination.KindList.AtOrder` | AngelScript/source/as_bytecode.cpp:974-1015 | A rewrite of swaps and pushed addresses shortens the list, or leaves one inversion less |
| `OptimizerTermination.KindList.OptimizeLocally` | AngelScript/source/as_bytecode.cpp:595-1016 | Ends on every list of operations, with every outcome of the conditions on operands and liveness, going down in (length, `LdGRdR4`, `ChkRefS`, addresses pushed before a `FREE`, position) |
| `Conventions.RunIsReal` | AngelScript/source/as_context.cpp:1585-1968 | A run of the machine, which loses nothing, is a run under some oracle, where that does not read what is lost |
| `Conventions.RefinedOnMachine` | AngelScript/source/as_bytecode.cpp:595-1016 | Code that refines code keeping the conventions ends every machine run as that code does, whatever the two leave in temporaries and lost registers, and returns the same number |
| `Conventions.DroppedReturnBreaks` | AngelScript/source/as_compiler.cpp:3637-3640 | Code without the load of the returned number does not refine code with it, though a jump to the end of the function lies between |
| `UnreachableCode.ByteCode.PostProcess` | AngelScript/source/as_bytecode.cpp:1910-2016 | Marks exactly what a path from the start reaches, gives each its depth, computes the largest depth, attained, and keeps exactly the marked instructions in order |
| `UnreachableCode.ByteCode.AddPath` | AngelScript/source/as_bytecode.cpp:232-246 | Queues an unmarked successor with its depth; a marked one already has that depth |
| `UnreachableCode.ByteCode.QueueTable` | AngelScript/source/as_bytecode.cpp:1976-1990 | Queues every entry of a switch table |
| `UnreachableCode.ByteCode.DeleteUnmarked` | AngelScript/source/as_bytecode.cpp:1999-2015 | Deleting in place leaves the marked instructions in order |
| `UnreachableCode.SearchEnds` | AngelScript/source/as_bytecode.cpp:1931-1997 | When no path is left to follow, marked is the same as reachable |
| `UnreachableCode.FollowsHappens` | AngelScript/source/as_bytecode.cpp:1947-1996 | Every successor that the pass follows is one in some state of the machine, but for what comes after a return |
| `UnreachableCode.SearchedClosed` | AngelScript/source/as_bytecode.cpp:1910-1997 | What the pass marks contains the labels, switch tables and successors of everything marked, so the rest can be deleted |
| `UnreachableCode.LabelKept` | AngelScript/source/as_bytecode.cpp:1744-1794 | A kept jump finds the same label after the deletion, forward or backward |
| `UnreachableCode.RunKept` | AngelScript/source/as_bytecode.cpp:1999-2015 | Deleting unreachable code changes no run that does not fault: same end, same state, same number of steps |
| `UnreachableCode.StackWithinLargest` | AngelScript/source/as_bytecode.cpp:1927-1945 | In every run, at every point, the machine's stack has grown by exactly the computed depth and by no more than the largest |
| `Machine.RunIsRealRun` | AngelScript/source/as_context.cpp:2252-2254 | Where every table is full, the machine that jumps by position into what follows a switch is the machine of the labels |
| `Deletions.LabelShift` | AngelScript/source/as_bytecode.cpp:1077-1167 | Taking out an instruction that is no label leaves every jump with the label it had |
| `Deletions.RunWithout` | AngelScript/source/as_bytecode.cpp:1103-1165 | Without a superfluous instruction every run that ends does so with the same exit, variables, register and globals, and with the same stack but for what a return leaves behind, unless a switch jumps past it |
| `Deletions.StaysCapped` | AngelScript/source/as_bytecode.cpp:1103-1165 | Bounds on the depth before every instruction give bounds for the shorter list with the same largest one, the pop before a return included |
| `GlobalOptimizer.CarriesWithout` | AngelScript/source/as_bytecode.cpp:1077-1167 | One deletion more keeps what all those before it keep |
| `GlobalOptimizer.Spoiled` | AngelScript/source/as_bytecode.cpp:1163-1165 | When the last two entries of a table both go to the label behind it, some index up to the maximum leads astray |
| `GlobalOptimizer.TablesDecided` | AngelScript/source/as_bytecode.cpp:1163-1165 | Every index of every table still finds its way if and only if in no table the last two entries both go to the label behind it |
| `GlobalOptimizer.SpoilTable` | AngelScript/source/as_bytecode.cpp:1163-1165 | The optimizer spoils a concrete table of two entries that go to the label behind it |
| `GlobalOptimizer.ByteCode.IsSuperfluous` | AngelScript/source/as_bytecode.cpp:1103-1165 | True if and only if the next instruction makes this one superfluous |
| `GlobalOptimizer.ByteCode.Optimize` | AngelScript/source/as_bytecode.cpp:1077-1167 | Terminates although it goes back after deletions, in exactly what one pass from the end keeps, and nothing superfluous is left; only pops, suspends, line cues and jumps go; every run that ends from the start ends alike; every bound on the stack stays one; every jump keeps a label; and switches still land exactly under the condition of `TablesDecided` |
| `GlobalOptimizer.SparedWithout` | AngelScript/source/as_bytecode.cpp:1077-1167 | Deleting any superfluous instruction, in whatever order, does not change what is kept in the end |
| `Finalize.KeptBounded` | AngelScript/source/as_bytecode.cpp:1910-2016 | The depths computed for the kept instructions bound the stack on the machine that jumps by position |
| `Finalize.KeptFull` | AngelScript/source/as_bytecode.cpp:1976-1990 | Tables of kept switches are kept whole, with a label or nothing behind them |
| `Finalize.MachineRunKept` | AngelScript/source/as_bytecode.cpp:1999-2015 | Deleting unreachable code changes no run of that machine that does not fault |
| `Finalize.StackWithinCap` | AngelScript/source/as_bytecode.cpp:1927-1945 | On the list that is linked no run ever has more on the stack than it began with and the largest depth |
| `Finalize.FinalizeCode` | AngelScript/source/as_bytecode.cpp:68-83 | The stages in place, one after another: where switches still land, every run of the delivered list that ends has the finished one end alike; the largest depth bounds every run of the finished one, every jump is resolved, sizes are those of the operations throughout, so that the result can be written when operands and length fit their words |
| `Execution.StepLaid` | AngelScript/source/as_context.cpp:1585-1968 | On the dwords the machine takes the same step as on the list, to the position of the same node: jumps by the distance written, switches by two dwords an entry, cues as suspends |
| `Execution.RunLaid` | AngelScript/source/as_context.cpp:1585-1968 | Every run of the linked list that ends is followed on the dwords to the same end |
| `Finalize.EmitCode` | AngelScript/source/as_bytecode.cpp:68-83 | All stages and the output in place: where switches still land, every run of the delivered list that ends, the machine ends alike on the dwords written |
| `Linker.FetchWords` | AngelScript/source/as_bytecode.cpp:1850-1902 | What the machine fetches from the dwords of an instruction are its operation and operands |
| `Linker.RawRoundTrip` | AngelScript/include/angelscript.h:1228-1428 | Operation numbers and operands determine the instruction |
| `Linker.WriteInstr` | AngelScript/source/as_bytecode.cpp:1854-1902 | Written to the array in place, an instruction is found there by the machine; nothing else in the array changes |
| `Linker.ByteCode.Output` | AngelScript/source/as_bytecode.cpp:1838-1908 | Every instruction that takes space is found by the machine at its position |
| `Linker.ByteCode.GetSize` | AngelScript/source/as_bytecode.cpp:1517-1529 | The number of dwords of the list |
| `Linker.ByteCode.FindLabel` | AngelScript/source/as_bytecode.cpp:1744-1794 | Finds the label a jump goes to and the signed distance to it from the end of the jump |
| `Linker.ByteCode.ResolveJumpAddresses` | AngelScript/source/as_bytecode.cpp:1796-1823 | Succeeds if and only if every jump has its label; then every jump holds its distance and nothing else has changed |
| `Linker.ByteCode.ExtractLineNumbers` | AngelScript/source/as_bytecode.cpp:1437-1482 | Turns line cues into suspends or deletes them, in place, and records position, line and section of each |
| `Linker.LinesOrdered` | AngelScript/source/as_bytecode.cpp:1455-1466 | Recorded positions are strictly increasing |
| `Linker.LineRecorded` | AngelScript/source/as_bytecode.cpp:1455-1466 | The last line that begins at a position is the one recorded for it |
| `Linker.ExtractedAt` | AngelScript/source/as_bytecode.cpp:1688-1706 | Because a line cue had the size it ends with, every other instruction keeps its position |
| `Linker.InstrLands` | AngelScript/source/as_bytecode.cpp:1838-1908 | After resolving, extracting and output, the machine decodes every instruction of the list at its position in the list |
| `Linker.JumpLands` | AngelScript/source/as_context.cpp:1751-1764 | After resolving, extracting and output, every jump takes the machine to the position of its label |
| `Linker.LabelPosition` | AngelScript/source/as_bytecode.cpp:1677-1686 | The position of a label is that of the next instruction that takes space |
| `Linker.SwitchLands` | AngelScript/source/as_context.cpp:2252-2254 | A switch, decoded from the array, takes the machine to the position of its entry when only jumps lie between |
| `Linker.DistanceFits` | AngelScript/source/as_bytecode.cpp:1744-1794 | In a list that fits the machine every distance fits its operand |
| `Linker.LinkedWritable` | AngelScript/source/as_bytecode.cpp:1796-1908 | What resolving and extracting leave can be written: sizes are those of the operations and distances fit |
| `NestedRuns.UnwindStops` | AngelScript/source/as_context.cpp:3944-3956 | Unwinding pops calls only and stops at the nearest marker |
| `NestedRuns.StepKeeps` | AngelScript/source/as_context.cpp:1725-1747 | No step of a nested run, further nested runs included, changes the call stack below its marker |
| `NestedRuns.PopRestores` | AngelScript/source/as_context.cpp:1209-1291 | After pushing the state, any run, and popping, the call stack, all registers, the block index and the current, initial and calling function are as before if and only if the context was not unprepared and no suspended call is left on the stack |
| `NestedRuns.UnpreparedNotRestored` | AngelScript/source/as_context.cpp:1258-1261 | From any active state, pushing, unpreparing and popping restores nothing |
| `StackFrames.FindBlockLayout` | AngelScript/source/as_context.cpp:1428-1474 | Ends with the request and the reserve in one block, a later one or the same, unless the limit is crossed; the blocks never take more than twice the limit and one first block |
| `StackFrames.AllocateWithinLimit` | AngelScript/source/as_context.cpp:1431-1446 | The limit test before a block is allocated bounds the total after it |
| `StackFrames.CallLayout` | AngelScript/source/as_context.cpp:1478-1502 | A call keeps the layout, in the same block or a new one, and when there is no space |
| `StackFrames.ReturnLayout` | AngelScript/source/as_context.cpp:1725-1747 | So does a return, which also removes the arguments |
| `StackFrames.PrepareSucceeds` | AngelScript/source/as_context.cpp:365-397 | `Prepare` finds space if and only if the function was prepared before, or the request fits the current block or a later one before one that crosses the limit |
| `StackFrames.PrepareGood` | AngelScript/source/as_context.cpp:322-433 | From a start where its level may begin, preparing keeps the layout, or fails and leaves the interrupted runs and the memory bound intact |
| `StackFrames.PrepareExact` | AngelScript/source/as_context.cpp:322-433 | A successful `Prepare`, after a failure or not, keeps the layout if and only if it began at a good start |
| `StackFrames.AfterFailure` | AngelScript/source/as_context.cpp:347-397 | The next successful `Prepare` after a failed one keeps the layout if and only if it is for another function, the level had been prepared before, and the block the level begins in crosses the limit |
| `StackFrames.StepOk` | AngelScript/source/as_context.cpp:1406-1475 | Every step of a context, of one whose preparation has failed too, keeps what holds in every run, when no `Prepare` begins at a bad start |
| `StackFrames.UnprepareLayout` | AngelScript/source/as_context.cpp:436-470 | So does unpreparing, unwinding included |
| `StackFrames.PushLayout` | AngelScript/source/as_context.cpp:1209-1256 | So does pushing the state |
| `StackFrames.PopLayout` | AngelScript/source/as_context.cpp:1258-1291 | Popping the state restores it, after a failed preparation too |
| `StackSafety.EveryRunKeepsLayout` | AngelScript/source/as_context.cpp:1406-1475 | Every state of every run from a new context in which preparations begin at good starts, failed ones included, has the layout, or is that of a failure not yet left behind |
| `StackSafety.FittingRunIsCareful` | AngelScript/source/as_context.cpp:322-433 | A run in which every preparation finds space is one of these, and has the layout throughout |
| `StackSafety.EveryRunWithinLimit` | AngelScript/source/as_context.cpp:1428-1474 | In any run at all, whatever is prepared after a failure, the stack blocks take no more than twice the limit and one first block |
| `StackSafety.FramesDisjoint` | AngelScript/source/as_context.cpp:1293-1342 | Saved block indices never decrease up the call stack, saved stack pointers never increase within a block, and no address is in the frames of two calls, nested runs included, whether or not a run has been prepared on the newest level |
| `StackSafety.RunningFrameDisjoint` | AngelScript/source/as_context.cpp:1504-1515 | The running function's frame is below all of them |
| `StackSafety.ArgumentsArrive` | AngelScript/source/as_context.cpp:1490-1499 | A callee finds at its frame pointer the arguments its caller pushed, whether or not its frame went to a new block |
| `StackSafety.NestedRunLeavesFrames` | AngelScript/source/as_context.cpp:1237-1238 | A nested run, with preparations that fail too, changes no word at or above the stack pointer of the call it interrupts |
| `StackSafety.FailedPrepareOverlaps` | AngelScript/source/as_context.cpp:365-397 | A concrete run from a new context in which preparing again after a failure puts the frame over that of the interrupted call |
| `StackSafety.FailedPrepareRepeats` | AngelScript/source/as_context.cpp:347-397 | A concrete failure after which the same function is prepared again with success, without a stack |
| `StackSafety.SuspendedNotRestored` | AngelScript/source/as_context.cpp:1258-1291 | A concrete nested run that is popped with a suspended call on the stack, and restores nothing |
| `Context.ScriptContext.ReserveStackSpace` | AngelScript/source/as_context.cpp:1406-1475 | The loop over the blocks, in place, terminates and computes the search, whose test compares addresses as the source does, whatever block the pointer lies in; the result says whether space was found |
| `Context.ScriptContext.CallScriptFunction` | AngelScript/source/as_context.cpp:1478-1502 | In place, the call of the model, whose effect `CallEnters` and `CallFrame` state |
| `CallRuns.CallEnters` | AngelScript/source/as_context.cpp:1478-1502 | A call goes on at the first instruction of the function called, with the caller saved, whether or not there is space |
| `CallRuns.CallFrame` | AngelScript/source/as_context.cpp:1406-1515 | In its block the callee has its frame where the arguments were pushed, in a later one at its end, with the arguments there |
| `CallRuns.CallReturns` | AngelScript/source/as_context.cpp:1725-1747 | Whatever happens inside a call - calls, suspension, nested runs - when it returns the caller goes on with its function, program pointer, frame and block, and its stack without the arguments |
| `CallRuns.PreparedFrame` | AngelScript/source/as_context.cpp:322-433 | A prepared function has its frame below where the run began, its arguments cleared but for the place to return a value to |
| `CallRuns.PreparedStarts` | AngelScript/source/as_context.cpp:1055-1128 | And runs from its first instruction, with room for its variables |
| `CallRuns.SuspendedGoesOn` | AngelScript/source/as_context.cpp:1055-1128 | A suspended run goes on with everything as it was |
| `CallRuns.PushedState` | AngelScript/source/as_context.cpp:1209-1256 | Pushing the state saves what is needed to go on and leaves nothing running |
| `CallRuns.UnpreparedState` | AngelScript/source/as_context.cpp:436-470 | Unpreparing leaves the call stack down to the nearest marker, and the stack where the run began |
| `CallRuns.FirstReturns` | AngelScript/source/as_context.cpp:1725-1747 | When the function a run began with returns, only the status changes |
| `Context.ScriptContext.Ret` | AngelScript/source/as_context.cpp:1725-1747 | In place, the return of the model: it ends the run at a marker or an empty call stack |
| `Context.ScriptContext.PushCallState` | AngelScript/source/as_context.cpp:1293-1322 | Saves frame pointer, function, program pointer, stack pointer and block index in five slots |
| `Context.ScriptContext.PopCallState` | AngelScript/source/as_context.cpp:1324-1342 | Restores them |
| `Context.ScriptContext.CleanStack` | AngelScript/source/as_context.cpp:3931-3956 | The loop over the call stack, in place, is the unwinding of the model |
| `Context.ScriptContext.IsNested` | AngelScript/source/as_context.cpp:195-220 | True if and only if there is a current function and a marker on the call stack |
| `Context.ScriptContext.Prepare` | AngelScript/source/as_context.cpp:322-433 | In place, preparing as in the model, with the code it returns in each case |
| `Context.ScriptContext.Unprepare` | AngelScript/source/as_context.cpp:436-470 | The same for unpreparing |
| `Context.ScriptContext.Resume` | AngelScript/source/as_context.cpp:1055-1067 | Starts a prepared run of a script function or goes on with a suspended one, and refuses otherwise |
| `Context.ScriptContext.PushState` | AngelScript/source/as_context.cpp:1209-1256 | The same for pushing the state; only an active context can |
| `Context.ScriptContext.PopState` | AngelScript/source/as_context.cpp:1258-1291 | The same for popping it; only a nested context can |
| `LiveObjects.BackwardIsForward` | AngelScript/source/as_context.cpp:4048-4116 | Scanning back and skipping closed blocks counts what a forward interpreter counts that opens a scope at each block and discards it at its end |
| `LiveObjects.BackwardIsOpen` | AngelScript/source/as_context.cpp:4048-4116 | And the initializations less the destructions of the variable, of those in blocks that have not been left |
| `LiveObjects.SkipFindsBegin` | AngelScript/source/as_context.cpp:4095-4108 | Skipping a block ends at the event that began it, nested blocks included |
| `LiveObjects.VarAt` | AngelScript/source/as_context.cpp:4066-4075 | The first variable at an offset, else variable 0 |
| `LiveObjects.DetermineLiveObjects` | AngelScript/source/as_context.cpp:4016-4116 | For every variable, the count of the forward reading up to the first event beyond the position, which is what was initialized and not destroyed in the blocks still open; all zero when there is none |
| `LiveObjects.SkipLeftBlock` | AngelScript/source/as_context.cpp:4098-4107 | The inner loop finds the beginning of the block without running past the start of the list |
| `LiveObjects.IsVarInScope` | AngelScript/source/as_context.cpp:3959-4013 | A variable is visible if and only if it is declared at or before the position and the block it was declared in has not been left |
| `Inheritance.SetBaseAcyclic` | AngelScript/source/as_builder.cpp:2259-2302 | Setting a base whose chain does not lead back keeps inheritance acyclic |
| `Inheritance.SetBaseCyclic` | AngelScript/source/as_builder.cpp:2259-2272 | A base whose chain leads back would make it cyclic, so the chain walk refuses no base without need |
| `Inheritance.RotateNearer` | AngelScript/source/as_builder.cpp:2317-2341 | Moving a class with its base in the unsettled rest to the end brings the first class without one nearer |
| `Inheritance.Hierarchy.LeadsBack` | AngelScript/source/as_builder.cpp:2259-2272 | The chain walk terminates and says whether the class is met |
| `Inheritance.Hierarchy.InheritFrom` | AngelScript/source/as_builder.cpp:2207-2312 | Exactly when a name in the inheritance list becomes the base, an interface, an error or - for a mixin class - neither; inheritance stays acyclic |
| `Inheritance.Hierarchy.OrderClasses` | AngelScript/source/as_builder.cpp:2317-2341 | The in-place ordering terminates in a permutation in which no class precedes its base, and leaves a list that is already so alone |
| `VTables.NearestUnique` | AngelScript/source/as_builder.cpp:2396-2453 | With distinct signatures a class has at most one nearest declaration of a signature |
| `VTables.TopmostUnique` | AngelScript/source/as_builder.cpp:2396-2453 | And at most one first declaration |
| `VTables.RefusedOver` | AngelScript/source/as_builder.cpp:2408-2413 | Over a well-built base the methods refused are those that override one first declared final |
| `VTables.LaterFinal` | AngelScript/source/as_builder.cpp:2408-2429 | A method declared final is overridden without an error, since it overrides one that is not |
| `VTables.LayoutWellBuilt` | AngelScript/source/as_builder.cpp:2396-2453 | The layout over a well-built base has its stubs as a prefix, slot k for stub k, in each slot the nearest declaration, and each stub final as the first declaration is |
| `VTables.PrefixAbove` | AngelScript/source/as_builder.cpp:2396-2432 | The stubs of every class above another are a prefix of its stubs |
| `VTables.VTableBuilder.CopyBaseMethod` | AngelScript/source/as_builder.cpp:2397-2432 | An own function of the signature replaces the base's in the slot and leaves the list of own functions, with an error if the stub is final; otherwise the base's real function fills the slot |
| `VTables.VTableBuilder.MoveOwnMethod` | AngelScript/source/as_builder.cpp:2438-2451 | A function that overrides nothing goes to the end of the table, its stub to the end of the method list |
| `VTables.VTableBuilder.MoveOwnMethods` | AngelScript/source/as_builder.cpp:2436-2453 | The loop that rewinds its index after each move ends with all own functions in the table, in their order, and a stub for each |
| `VTables.VTableBuilder.CompileClass` | AngelScript/source/as_builder.cpp:2343-2456 | Building a class over a built base leaves it and every other class well built, with one error for each method that overrides one first declared final |
| `VTables.VTableBuilder.CompileAll` | AngelScript/source/as_builder.cpp:2343-2456 | In any order with bases first, or built before, all classes end well built; there is an error if and only if one of them overrides a method first declared final; existing shared classes and all others keep their lists |
| `VTables.VTableBuilder.CallInterfaceMethod` | AngelScript/source/as_context.cpp:1532-1582 | A virtual call takes the slot of the stub; an interface call the method of that signature, or raises an exception when there is none |
| `VTables.VirtualCall` | AngelScript/source/as_context.cpp:1576-1582 | Calling an ancestor's stub on an object of a class runs the declaration of the nearest class at or above it |
| `Containment.OrderedNoCycle` | AngelScript/source/as_builder.cpp:2641-2648 | Classes validated one after another, each after those it contains, do not contain themselves |
| `Containment.OrderedOffCycle` | AngelScript/source/as_builder.cpp:2641-2648 | Nor do they lead to a class that does |
| `Containment.WaitingCycle` | AngelScript/source/as_builder.cpp:2666-2673 | Classes that all wait for one another contain themselves, or lead to one that does |
| `Containment.Validator.Check` | AngelScript/source/as_builder.cpp:2608-2645 | A class is valid if and only if everything it holds is; it waits only for a class still undecided, and is rejected only with an error reported |
| `Containment.Validator.ValidateLast` | AngelScript/source/as_builder.cpp:2604-2664 | A class is validated, rejected, or left for the next round because it holds one still undecided |
| `Containment.Validator.ValidateRound` | AngelScript/source/as_builder.cpp:2604-2664 | A round empties the list; if it resolved nothing, every class left waits for another one left |
| `Containment.Validator.ValidateAll` | AngelScript/source/as_builder.cpp:2598-2676 | The rounds terminate and report an error if and only if containment by value has a cycle; a class ends valid if and only if it leads to none |
| `GcFlags.FlagPass.CanFormCircle` | AngelScript/source/as_builder.cpp:2697-2769 | True if and only if some property may lead to a circular reference by the pass's criteria |
| `GcFlags.FlagPass.FinalClassLeadsOn` | AngelScript/source/as_builder.cpp:2721-2752 | True if and only if some property of the final class is a handle to a script class or of a type with the flag |
| `GcFlags.FlagPass.MarkClasses` | AngelScript/source/as_builder.cpp:2691-2778 | The pass over the declarations clears exactly the flags that it can: a class keeps its flag if and only if it has a property of a type with the flag, as that stood when the class was come to, a handle to a script class that can be inherited from, or a handle to a final class that leads on so; others keep theirs |
| `GcFlags.DecideAll` | AngelScript/source/as_builder.cpp:2691-2778 | Every class that has lost its flag holds only what was decided before it and cannot lead back |
| `GcFlags.MarkedElsewhere` | AngelScript/source/as_builder.cpp:2771-2775 | Types that are not in the list keep their flag |
| `GcFlags.ClearedOnNoCycle` | AngelScript/source/as_builder.cpp:2691-2778 | Whatever the order, a class that has lost its flag is on no cycle of by-value members and handles, derived classes and interfaces behind handles included |

## Left out

- Objects that destructors bring back, script destructors run by a release, and types without the garbage collection behaviours.
- Threads and critical sections of the collector; `ReportAndReleaseUndestroyedObjects`, the statistics, the pool of map nodes. The map is a finite map with an ordered cursor.
- The doubly linked instruction list is a sequence whose positions stand for the nodes; `GoBack` and `GoForward` are folded into the position at which the optimizer goes on.
- The meaning of rewrites of references and objects (`CHKREF`, `ADDSi`, `PGA`, `REFCPY`, `FREE`, `STOREOBJ`, `PopRPtr`), of 64-bit and floating point operations, and of calls; for termination they are all there.
- The last part of `OptimizeLocally` (`as_bytecode.cpp:1018-1074`), which loads a returned handle without a copy, when the loop is done.
- In `Optimize`, `JitEntry` and `Block` between two suspends or line cues, which the modelled lists do not contain.
- `Optimizer.ByteCode.OptimizeLocally`: requires that a switch table is closed by a label, as the compiler emits it; says nothing of what a list does after a fold into doubled operands, where the claim is false.
- `Optimizer.ByteCode.OptimizeLocally`: compares only runs of the original that raise no exception, follow the address of a temporary only right after it is taken, and do not read a register that is lost, since dead instructions that could fault may be deleted and loads of dead addresses are.
- `Peepholes.FoldRight`, `Peepholes.FoldCompare`: for another variable as the other operand; `FoldRightExact` and `FoldCompareExact` settle the rest.
- `UnreachableCode.ByteCode.PostProcess`: takes from the compiler that every label exists, that depths are consistent and that the list ends with `RET`; the source asserts the first two.
- `Linker.WriteInstr`: operands are required to fit their 16 or 32 bits.
- `Finalize.FinalizeCode`: takes full switch tables and consistent depths from the compiler, and the size of a line cue from `InstrLINE`; the return at the end and the object variables of the function are not part of this model.
- Sizes of stack blocks do not wrap at 32 bits, and allocation does not fail.
- `StackSafety.EveryRunKeepsLayout`: for runs in which every `Prepare` has a good start (`StackFrames.GoodStart`); otherwise the claim is false.
- Pointer comparisons between stack blocks are comparisons of integer addresses that do not wrap.
- `Context.ScriptContext.CleanStack`: the objects of a frame are not destroyed in the model, only the stack and the call stack change.
- `Execute` for virtual and application functions, line and exception callbacks, the return object, and clearing object variables when a function is entered.
- What mixin classes add, interface ordering, checks of `override`, constructors and destructors in the method tables, name conflicts and access.
- `GcFlags.ClearedOnNoCycle`: application types without the flag are taken at their word that they hold no references.
- The parser, the tokenizer, the expression compiler, native calls, and the engine, asset and model code around the script engine.
