/** The garbage collector object, updated in place one step per call. */
module Collector {
  import opened Options
  import opened ObjectHeap
  import opened CollectorSteps
  import opened CollectorSafety
  import opened CollectorRuns
  import opened CollectorComplete
  import opened CollectorHalves
  import opened CollectorAges

  class GarbageCollector {
    // The application's memory, which the object callbacks act on
    var heap: Heap

    var gcNewObjects: seq<Entry>
    var gcOldObjects: seq<Entry>
    var liveObjects: seq<Obj>
    var gcMap: map<Obj, int>
    var gcMapCursor: Option<Obj>
    var detectState: DetectState
    var detectIdx: nat
    var destroyNewState: DestroyState
    var destroyOldState: DestroyState
    var destroyNewIdx: int
    var destroyOldIdx: int
    var numDestroyed: nat
    var numNewDestroyed: nat
    var numDetected: nat
    var isProcessing: bool

    // Types the engine holds; ClearUnusedTypes discards some of them
    var types: nat

    ghost var counted: set<Obj>

    ghost function V(): GC
      reads this
    {
      GC(heap, gcNewObjects, gcOldObjects, gcMap, gcMapCursor, liveObjects, detectState, detectIdx,
         destroyNewState, destroyNewIdx, destroyOldState, destroyOldIdx, counted)
    }

    function Size(): nat
      reads this
    {
      |gcNewObjects| + |gcOldObjects|
    }

    constructor (heap: Heap, types: nat)
      requires Accounts(heap, multiset{})
      ensures Start(V()) && Inv(V()) && this.heap == heap && this.types == types
      ensures !isProcessing && numDestroyed == 0 && numNewDestroyed == 0 && numDetected == 0
    {
      this.heap, this.types := heap, types;
      gcNewObjects, gcOldObjects, liveObjects, gcMap, gcMapCursor := [], [], [], map[], None;
      detectState, destroyNewState, destroyOldState := ClearCountersInit, DestroyInit, DestroyInit;
      detectIdx, destroyNewIdx, destroyOldIdx := 0, -1, -1;
      numDestroyed, numNewDestroyed, numDetected, isProcessing, counted := 0, 0, 0, false, {};
      new;
      StartInv(V());
    }

    // ---- List maintenance ----

    method RemoveNewObjectAtIdx(idx: int)
      requires 0 <= idx < |gcNewObjects|
      modifies this`gcNewObjects
      ensures gcNewObjects == SwapRemove(old(gcNewObjects), idx)
    {
      var last := gcNewObjects[|gcNewObjects| - 1];
      if idx != |gcNewObjects| - 1 { gcNewObjects := gcNewObjects[idx := last]; }
      gcNewObjects := gcNewObjects[..|gcNewObjects| - 1];
    }

    method RemoveOldObjectAtIdx(idx: int)
      requires 0 <= idx < |gcOldObjects|
      modifies this`gcOldObjects
      ensures gcOldObjects == SwapRemove(old(gcOldObjects), idx)
    {
      var last := gcOldObjects[|gcOldObjects| - 1];
      if idx != |gcOldObjects| - 1 { gcOldObjects := gcOldObjects[idx := last]; }
      gcOldObjects := gcOldObjects[..|gcOldObjects| - 1];
    }

    method MoveObjectToOldList(idx: int)
      requires 0 <= idx < |gcNewObjects|
      modifies this`gcNewObjects, this`gcOldObjects
      ensures V() == MoveToOld(old(V()), idx)
    {
      gcOldObjects := gcOldObjects + [gcNewObjects[idx]];
      RemoveNewObjectAtIdx(idx);
    }

    // ---- Enumeration ----

    method GCEnumCallback(reference: Obj)
      modifies this`gcMap, this`liveObjects
      ensures detectState.CountReferencesLoop? ==>
        gcMap == (if reference in old(gcMap) then old(gcMap)[reference := old(gcMap)[reference] - 1] else old(gcMap)) && liveObjects == old(liveObjects)
      ensures detectState.DetectGarbageLoop2? ==>
        gcMap == old(gcMap) && liveObjects == (if reference in gcMap then old(liveObjects) + [reference] else old(liveObjects))
      ensures !detectState.CountReferencesLoop? && !detectState.DetectGarbageLoop2? ==> gcMap == old(gcMap) && liveObjects == old(liveObjects)
    {
      if detectState.CountReferencesLoop? {
        if reference in gcMap { gcMap := gcMap[reference := gcMap[reference] - 1]; }
      } else if detectState.DetectGarbageLoop2? {
        if reference in gcMap { liveObjects := liveObjects + [reference]; }
      }
    }

    /** gcEnumReferences of one object: the callback for each reference it holds, in order. */
    method EnumReferences(obj: Obj)
      requires detectState.CountReferencesLoop? || detectState.DetectGarbageLoop2?
      modifies this`gcMap, this`liveObjects
      ensures detectState.CountReferencesLoop? ==> gcMap == SubtractRefs(old(gcMap), Held(heap.refs, obj)) && liveObjects == old(liveObjects)
      ensures detectState.DetectGarbageLoop2? ==> gcMap == old(gcMap) && liveObjects == MarkRefs(gcMap, old(liveObjects), Held(heap.refs, obj))
    {
      var refs := Held(heap.refs, obj);
      var i := 0;
      while i < |refs|
        invariant 0 <= i <= |refs|
        invariant detectState.CountReferencesLoop? ==>
          SubtractRefs(gcMap, refs[i..]) == SubtractRefs(old(gcMap), refs) && liveObjects == old(liveObjects)
        invariant detectState.DetectGarbageLoop2? ==>
          gcMap == old(gcMap) && MarkRefs(gcMap, liveObjects, refs[i..]) == MarkRefs(gcMap, old(liveObjects), refs)
      {
        assert refs[i..][0] == refs[i] && refs[i..][1..] == refs[i + 1..];
        GCEnumCallback(refs[i]);
        i := i + 1;
      }
    }

    // ---- Detection: one method for each looping case of the switch; done tells whether it returns ----

    method ClearCounter() returns (done: bool)
      requires detectState.ClearCountersLoop?
      modifies this`heap, this`gcMap, this`detectState
      ensures ClearCounters(old(V())) == if done then Return(V(), 1) else Again(V())
    {
      var cursor := AtOrAfter(gcMap.Keys, 0);
      if cursor.Some? {
        heap := Release(heap, [cursor.value]);
        gcMap := gcMap - {cursor.value};
        return true;
      }
      detectState := BuildMapInit;
      done := false;
    }

    method BuildMapEntry() returns (done: bool)
      requires detectState.BuildMapLoop?
      modifies this`heap, this`gcMap, this`detectIdx, this`detectState
      ensures BuildMap(old(V())) == if done then Return(V(), 1) else Again(V())
    {
      if detectIdx < |gcOldObjects| {
        var obj := gcOldObjects[detectIdx].obj;
        var refCount := heap.count[obj];
        if refCount > 1 {
          gcMap := gcMap[obj := refCount - 1];
          heap := AddRef(heap, obj);
          heap := SetFlag(heap, obj);
        }
        detectIdx := detectIdx + 1;
        return true;
      }
      detectState := CountReferencesInit;
      done := false;
    }

    method CountReference() returns (done: bool)
      requires detectState.CountReferencesLoop?
      modifies this`gcMap, this`gcMapCursor, this`liveObjects, this`counted, this`detectState
      ensures CountReferences(old(V())) == if done then Return(V(), 1) else Again(V())
    {
      if gcMapCursor.Some? {
        var obj := gcMapCursor.value;
        gcMapCursor := AtOrAfter(gcMap.Keys, obj + 1);
        if obj in heap.flagged {
          EnumReferences(obj);
          counted := counted + {obj};
        }
        return true;
      }
      detectState := DetectGarbageInit;
      done := false;
    }

    method FindLiveObject() returns (done: bool)
      requires detectState.DetectGarbageLoop1?
      modifies this`gcMapCursor, this`liveObjects, this`detectState
      ensures FindLive(old(V())) == if done then Return(V(), 1) else Again(V())
    {
      if gcMapCursor.Some? {
        var obj := gcMapCursor.value;
        gcMapCursor := AtOrAfter(gcMap.Keys, obj + 1);
        if obj !in heap.flagged || (obj in gcMap && gcMap[obj] > 0) {
          liveObjects := liveObjects + [obj];
        }
        return true;
      }
      detectState := DetectGarbageLoop2;
      done := false;
    }

    method RemoveLiveObject() returns (done: bool)
      requires detectState.DetectGarbageLoop2?
      modifies this`heap, this`gcMap, this`liveObjects, this`detectState
      ensures RemoveLive(old(V())) == if done then Return(V(), 1) else Again(V())
    {
      if |liveObjects| > 0 {
        var obj := liveObjects[|liveObjects| - 1];
        liveObjects := liveObjects[..|liveObjects| - 1];
        if obj in gcMap {
          gcMap := gcMap - {obj};
          heap := Release(heap, [obj]);
          EnumReferences(obj);
        }
        return true;
      }
      detectState := VerifyUnmarkedInit;
      done := false;
    }

    method VerifyObject() returns (done: bool)
      requires detectState.VerifyUnmarkedLoop?
      modifies this`gcMapCursor, this`detectState
      ensures VerifyUnmarked(old(V())) == if done then Return(V(), 1) else Again(V())
    {
      if gcMapCursor.Some? {
        var obj := gcMapCursor.value;
        if obj !in heap.flagged {
          detectState := DetectGarbageInit;
        } else {
          gcMapCursor := AtOrAfter(gcMap.Keys, obj + 1);
        }
        return true;
      }
      detectState := BreakCirclesInit;
      done := false;
    }

    /** The two states in which the objects left in the map release their references; both always return. */
    method BreakObject() returns (r: int)
      requires detectState.BreakCirclesLoop? || detectState.BreakCirclesHaveGarbage?
      modifies this`heap, this`gcMapCursor, this`detectState, this`numDetected
      ensures Return(V(), r) == BreakCircles(old(V()))
      ensures numDetected == old(numDetected) + if old(gcMapCursor).Some? then 1 else 0
    {
      if gcMapCursor.Some? {
        numDetected := numDetected + 1;
        var obj := gcMapCursor.value;
        heap := ReleaseAllReferences(heap, obj);
        gcMapCursor := AtOrAfter(gcMap.Keys, obj + 1);
        detectState := BreakCirclesHaveGarbage;
        return 1;
      }
      r := if detectState != BreakCirclesHaveGarbage then 0 else 1;
      detectState := ClearCountersInit;
    }

    method DetectOnce() returns (done: bool, r: int)
      modifies this`heap, this`gcMap, this`gcMapCursor, this`liveObjects, this`detectState, this`detectIdx, this`numDetected, this`counted
      ensures DetectPass(old(V())) == if done then Return(V(), r) else Again(V())
    {
      done, r := false, 1;
      match detectState {
        case ClearCountersInit => detectState := ClearCountersLoop;
        case ClearCountersLoop => done := ClearCounter();
        case BuildMapInit => detectIdx, counted, detectState := 0, {}, BuildMapLoop;
        case BuildMapLoop => done := BuildMapEntry();
        case CountReferencesInit => gcMapCursor, detectState := AtOrAfter(gcMap.Keys, 0), CountReferencesLoop;
        case CountReferencesLoop => done := CountReference();
        case DetectGarbageInit => gcMapCursor, liveObjects, detectState := AtOrAfter(gcMap.Keys, 0), [], DetectGarbageLoop1;
        case DetectGarbageLoop1 => done := FindLiveObject();
        case DetectGarbageLoop2 => done := RemoveLiveObject();
        case VerifyUnmarkedInit => gcMapCursor, detectState := AtOrAfter(gcMap.Keys, 0), VerifyUnmarkedLoop;
        case VerifyUnmarkedLoop => done := VerifyObject();
        case BreakCirclesInit => gcMapCursor, detectState := AtOrAfter(gcMap.Keys, 0), BreakCirclesLoop;
        case BreakCirclesLoop => r := BreakObject(); done := true;
        case BreakCirclesHaveGarbage => r := BreakObject(); done := true;
      }
    }

    method IdentifyGarbageWithCyclicRefs() returns (r: int)
      modifies this`heap, this`gcMap, this`gcMapCursor, this`liveObjects, this`detectState, this`detectIdx, this`numDetected, this`counted
      ensures (V(), r) == Identify(old(V()))
    {
      var done := false;
      r := 1;
      while !done
        invariant if done then (V(), r) == Identify(old(V())) else Identify(V()) == Identify(old(V()))
        decreases !done, Rank(detectState)
      {
        ghost var s := V();
        IdentifyUnfolds(s);
        AgainDescends(s);
        done, r := DetectOnce();
      }
    }

    // ---- Destruction ----

    /** Releases the list's reference, which is the last. */
    method DestroyNewObject()
      requires 0 <= destroyNewIdx < |gcNewObjects|
      modifies this`heap, this`gcNewObjects, this`destroyNewState, this`destroyNewIdx, this`numDestroyed, this`numNewDestroyed
      ensures heap == Release(old(heap), [old(gcNewObjects)[old(destroyNewIdx)].obj])
      ensures gcNewObjects == SwapRemove(old(gcNewObjects), old(destroyNewIdx))
      ensures destroyNewIdx == old(destroyNewIdx) - 1 && destroyNewState == DestroyHaveMore
      ensures numDestroyed == old(numDestroyed) + 1 && numNewDestroyed == old(numNewDestroyed) + 1
    {
      hide Release, SwapRemove;
      heap := Release(heap, [gcNewObjects[destroyNewIdx].obj]);
      numDestroyed := numDestroyed + 1;
      numNewDestroyed := numNewDestroyed + 1;
      RemoveNewObjectAtIdx(destroyNewIdx);
      destroyNewIdx := destroyNewIdx - 1;
      destroyNewState := DestroyHaveMore;
    }

    /** One entry of the new list: destroyed, moved to the old list, or looked at once more. */
    method DestroyNewEntry()
      requires !destroyNewState.DestroyInit? && 0 <= destroyNewIdx < |gcNewObjects|
      modifies this`heap, this`gcNewObjects, this`gcOldObjects, this`destroyNewState, this`destroyNewIdx, this`numDestroyed, this`numNewDestroyed
      ensures Return(V(), 1) == DestroyNewPass(old(V().(newIdx := destroyNewIdx - 1)))
      ensures Size() + numDestroyed == old(Size() + numDestroyed) && destroyNewIdx >= -1
      ensures numNewDestroyed - old(numNewDestroyed) == numDestroyed - old(numDestroyed)
    {
      hide Release, Objs, SwapRemove;
      var gcObj := gcNewObjects[destroyNewIdx];
      ghost var s := V();
      if heap.count[gcObj.obj] == 1 {
        DestroyNewObject();
      } else if gcObj.count == 3 {
        MoveObjectToOldList(destroyNewIdx);
        destroyNewIdx := destroyNewIdx - 1;
        assert V() == MoveToOld(s, destroyNewIdx + 1).(newIdx := destroyNewIdx);
      } else {
        gcNewObjects := gcNewObjects[destroyNewIdx := Entry(gcObj.obj, gcObj.count + 1)];
      }
    }

    method DestroyNewOnce() returns (done: bool, r: int)
      requires destroyNewIdx >= -1
      modifies this`heap, this`gcNewObjects, this`gcOldObjects, this`destroyNewState, this`destroyNewIdx, this`numDestroyed, this`numNewDestroyed
      ensures DestroyNewPass(old(V())) == if done then Return(V(), r) else Again(V())
      ensures Size() + numDestroyed == old(Size() + numDestroyed) && destroyNewIdx >= -1
      ensures numNewDestroyed - old(numNewDestroyed) == numDestroyed - old(numDestroyed)
    {
      if destroyNewState == DestroyInit {
        if |gcNewObjects| == 0 { return true, 0; }
        destroyNewIdx := -1;
        destroyNewState := DestroyLoop;
        return false, 1;
      }
      destroyNewIdx := destroyNewIdx + 1;
      if destroyNewIdx < |gcNewObjects| {
        DestroyNewEntry();
        return true, 1;
      }
      done, r := destroyNewState != DestroyHaveMore, 0;
      destroyNewState := DestroyInit;
    }

    method DestroyNewGarbage() returns (r: int)
      requires destroyNewIdx >= -1
      modifies this`heap, this`gcNewObjects, this`gcOldObjects, this`destroyNewState, this`destroyNewIdx, this`numDestroyed, this`numNewDestroyed
      ensures (V(), r) == DestroyNew(old(V()))
      ensures r == 0 || r == 1
      ensures r == 1 ==> exists e :: LookedAt(old(V()), V(), e)
      ensures r == 0 ==> V().heap == old(V()).heap && gcNewObjects == old(gcNewObjects) && gcOldObjects == old(gcOldObjects)
      ensures Size() + numDestroyed == old(Size() + numDestroyed) && destroyNewIdx >= -1
      ensures numNewDestroyed - old(numNewDestroyed) == numDestroyed - old(numDestroyed)
    {
      var done := false;
      r := 1;
      while !done
        invariant if done then (V(), r) == DestroyNew(old(V())) else DestroyNew(V()) == DestroyNew(old(V()))
        invariant destroyNewIdx >= -1 && Size() + numDestroyed == old(Size() + numDestroyed)
        invariant numNewDestroyed - old(numNewDestroyed) == numDestroyed - old(numDestroyed)
        decreases !done, DestroyRank(destroyNewState)
      {
        DestroyNewUnfolds(V());
        done, r := DestroyNewOnce();
      }
      NewLooks(old(V()), V(), r);
    }

    method DestroyOldEntry()
      requires !destroyOldState.DestroyInit? && 0 <= destroyOldIdx < |gcOldObjects|
      modifies this`heap, this`gcOldObjects, this`destroyOldState, this`destroyOldIdx, this`numDestroyed
      ensures Return(V(), 1) == DestroyOldPass(old(V().(oldIdx := destroyOldIdx - 1)))
      ensures Size() + numDestroyed == old(Size() + numDestroyed) && destroyOldIdx >= -1
    {
      hide Release, Objs, SwapRemove;
      var gcObj := gcOldObjects[destroyOldIdx];
      if heap.count[gcObj.obj] == 1 {
        heap := Release(heap, [gcObj.obj]);
        numDestroyed := numDestroyed + 1;
        RemoveOldObjectAtIdx(destroyOldIdx);
        destroyOldIdx := destroyOldIdx - 1;
        destroyOldState := DestroyHaveMore;
      }
    }

    method DestroyOldOnce() returns (done: bool, r: int)
      requires destroyOldIdx >= -1
      modifies this`heap, this`gcOldObjects, this`destroyOldState, this`destroyOldIdx, this`numDestroyed
      ensures DestroyOldPass(old(V())) == if done then Return(V(), r) else Again(V())
      ensures Size() + numDestroyed == old(Size() + numDestroyed) && destroyOldIdx >= -1
    {
      if destroyOldState == DestroyInit {
        if |gcOldObjects| == 0 { return true, 0; }
        destroyOldIdx := -1;
        destroyOldState := DestroyLoop;
        return false, 1;
      }
      destroyOldIdx := destroyOldIdx + 1;
      if destroyOldIdx < |gcOldObjects| {
        DestroyOldEntry();
        return true, 1;
      }
      done, r := destroyOldState != DestroyHaveMore, 0;
      destroyOldState := DestroyInit;
    }

    method DestroyOldGarbage() returns (r: int)
      requires destroyOldIdx >= -1
      modifies this`heap, this`gcOldObjects, this`destroyOldState, this`destroyOldIdx, this`numDestroyed
      ensures (V(), r) == DestroyOld(old(V()))
      ensures gcNewObjects == old(gcNewObjects)
      ensures (heap == old(heap) && gcOldObjects == old(gcOldObjects)) || (r == 1 && exists e :: Destroyed(old(V()), V(), e))
      ensures Size() + numDestroyed == old(Size() + numDestroyed) && destroyOldIdx >= -1
    {
      var done := false;
      r := 1;
      while !done
        invariant if done then (V(), r) == DestroyOld(old(V())) else DestroyOld(V()) == DestroyOld(old(V()))
        invariant destroyOldIdx >= -1 && Size() + numDestroyed == old(Size() + numDestroyed)
        decreases !done, DestroyRank(destroyOldState)
      {
        DestroyOldUnfolds(V());
        done, r := DestroyOldOnce();
      }
      OldLooks(old(V()), V(), r);
    }

    // ---- Registering ----

    method DestroyNewSteps(n: nat)
      requires destroyNewIdx >= -1
      modifies this`heap, this`gcNewObjects, this`gcOldObjects, this`destroyNewState, this`destroyNewIdx, this`numDestroyed, this`numNewDestroyed
      ensures V() == RepeatDestroyNew(old(V()), n)
      ensures Size() + numDestroyed == old(Size() + numDestroyed) && destroyNewIdx >= -1
    {
      var iter := n;
      while iter > 0
        invariant 0 <= iter <= n
        invariant V() == RepeatDestroyNew(old(V()), n - iter)
        invariant Size() + numDestroyed == old(Size() + numDestroyed) && destroyNewIdx >= -1
      {
        iter := iter - 1;
        var r := DestroyNewGarbage();
      }
    }

    /** The few collector steps taken when an object is registered. */
    method AutoCollectSteps()
      requires destroyNewIdx >= -1 && destroyOldIdx >= -1
      modifies this`heap, this`gcNewObjects, this`gcOldObjects, this`gcMap, this`gcMapCursor, this`liveObjects, this`detectState, this`detectIdx, this`numDetected, this`counted
      modifies this`destroyNewState, this`destroyNewIdx, this`destroyOldState, this`destroyOldIdx, this`numDestroyed, this`numNewDestroyed
      ensures V() == AutoCollect(old(V()))
      ensures Size() + numDestroyed == old(Size() + numDestroyed)
    {
      if |gcOldObjects| > 0 {
        var r1 := IdentifyGarbageWithCyclicRefs();
        var r2 := DestroyOldGarbage();
      }
      var iter := |gcNewObjects|;
      if iter > 10 { iter := 10; }
      DestroyNewSteps(iter);
    }

    method MaybeAutoCollect(autoGarbageCollect: bool)
      requires destroyNewIdx >= -1 && destroyOldIdx >= -1
      modifies this
      ensures isProcessing == old(isProcessing) && types == old(types)
      ensures V() == if autoGarbageCollect && !old(isProcessing) && |old(gcNewObjects)| > 0 then AutoCollect(old(V())) else old(V())
      ensures Size() + numDestroyed == old(Size() + numDestroyed)
    {
      if autoGarbageCollect && |gcNewObjects| > 0 {
        if !isProcessing {
          isProcessing := true;
          AutoCollectSteps();
          isProcessing := false;
        }
      }
    }

    method AddScriptObjectToGC(obj: Obj, autoGarbageCollect: bool)
      requires destroyNewIdx >= -1 && destroyOldIdx >= -1
      modifies this
      ensures isProcessing == old(isProcessing) && types == old(types)
      ensures V() == AddObject(old(V()), obj, autoGarbageCollect && !old(isProcessing))
      ensures Size() + numDestroyed == old(Size() + numDestroyed) + 1
    {
      heap := AddRef(heap, obj);
      // The new reference is the caller's until the entry is pushed
      heap := heap.(outside := heap.outside + multiset{obj});
      MaybeAutoCollect(autoGarbageCollect);
      heap := heap.(outside := heap.outside - multiset{obj});
      gcNewObjects := gcNewObjects + [Entry(obj, 0)];
    }

    method RegisterObject(obj: Obj, autoGarbageCollect: bool)
      requires Inv(V()) && Reachable(heap, obj) && obj !in Listed(V())
      modifies this
      ensures isProcessing == old(isProcessing) && types == old(types)
      ensures Inv(V()) && V() == AddObject(old(V()), obj, autoGarbageCollect && !old(isProcessing))
      ensures Size() + numDestroyed == old(Size() + numDestroyed) + 1
    {
      AddObjectKeeps(V(), obj, autoGarbageCollect && !isProcessing);
      AddScriptObjectToGC(obj, autoGarbageCollect);
    }

    // ---- Collecting ----

    /** The engine discards types that are no longer used and says how many. */
    method ClearUnusedTypes() returns (n: nat)
      modifies this`types
      ensures n + types == old(types)
    {
      n :| 0 <= n <= types;
      types := types - n;
    }

    /** Runs detection until a cycle finds no garbage. */
    method DetectAll()
      requires Inv(V()) && gcNewObjects == [] && detectState.ClearCountersInit?
      modifies this`heap, this`gcMap, this`gcMapCursor, this`liveObjects, this`detectState, this`detectIdx, this`numDetected, this`counted
      ensures Step(old(V()), V()) && Done(V()) && KeepsAnchored(old(V()), V())
      ensures gcNewObjects == old(gcNewObjects) && gcOldObjects == old(gcOldObjects)
      ensures old(Managed(V())) ==> Managed(V())
    {
      hide Phase, Sound, SameForApp, Reachable, Managed, KeepsAnchored, Quiet, Done, Listed, Identify;
      StepSelf(V());
      KeepsSelf(V());
      QuietAtFirst(V());
      var r := 1;
      while r == 1
        invariant Step(old(V()), V()) && (old(Managed(V())) ==> Managed(V())) && KeepsAnchored(old(V()), V())
        invariant gcNewObjects == old(gcNewObjects) && gcOldObjects == old(gcOldObjects)
        invariant r == 1 ==> Quiet(V())
        invariant r == 1 || (r == 0 && Done(V()))
        decreases r, Edges(V()), Rank(detectState), Work(V()), Queue(V())
      {
        ghost var s := V();
        r := IdentifyGarbageWithCyclicRefs();
        IdentifyKeeps(s);
        StepTrans(old(V()), s, V());
        IdentifyQuiet(s, V(), r);
        IdentifySameLists(s);
        IdentifyKeepsAnchored(old(V()), s);
        if old(Managed(V())) { IdentifyManaged(s); }
      }
    }

    /** Moves every new object to the old list, from the last one down. */
    method MoveAllToOld()
      modifies this`gcNewObjects, this`gcOldObjects
      ensures V() == CollectorSteps.MoveAllToOld(old(V()))
    {
      var n := |gcNewObjects|;
      while n > 0
        invariant n == |gcNewObjects| && CollectorSteps.MoveAllToOld(V()) == CollectorSteps.MoveAllToOld(old(V()))
      {
        n := n - 1;
        MoveObjectToOldList(n);
      }
    }

    /** Destroys new objects until a sweep destroys none. */
    method DestroyAllNew()
      requires Inv(V()) && destroyNewState.DestroyInit?
      modifies this`heap, this`gcNewObjects, this`gcOldObjects, this`destroyNewState, this`destroyNewIdx, this`numDestroyed, this`numNewDestroyed
      ensures Step(old(V()), V()) && destroyNewState.DestroyInit?
      ensures Size() + numDestroyed == old(Size() + numDestroyed) && Size() <= old(Size())
      ensures Size() == old(Size()) ==> heap == old(heap)
      ensures forall k :: 0 <= k < |gcNewObjects| ==> heap.count[gcNewObjects[k].obj] != 1
      ensures old(gcNewObjects == [] && destroyNewState.DestroyInit?) ==> V() == old(V())
    {
      hide LookedAt, Phase, Sound, SameForApp, Reachable, Listed, DestroyNew;
      NewIndex(V());
      EmptyStays(V());
      StepSelf(V());
      var r := 1;
      while r == 1
        invariant Step(old(V()), V()) && Size() + numDestroyed == old(Size() + numDestroyed)
        invariant Size() <= old(Size()) && (Size() == old(Size()) ==> heap == old(heap))
        invariant r == 1 ==> NewScanned(V())
        invariant r == 1 || (r == 0 && destroyNewState.DestroyInit? && forall k :: 0 <= k < |gcNewObjects| ==> heap.count[gcNewObjects[k].obj] != 1)
        invariant old(gcNewObjects == [] && destroyNewState.DestroyInit?) ==> V() == old(V())
        decreases r, |gcNewObjects|, DestroyRank(destroyNewState), |gcNewObjects| - destroyNewIdx
      {
        ghost var s := V();
        r := DestroyNewGarbage();
        DestroyNewKeeps(s);
        DestroyNewQuiet(s, V(), r);
        DestroyNewScans(s, V(), r);
        StepTrans(old(V()), s, V());
      }
    }

    /** Destroys old objects until a sweep destroys none. */
    method DestroyAllOld()
      requires Inv(V()) && destroyOldState.DestroyInit?
      modifies this`heap, this`gcOldObjects, this`destroyOldState, this`destroyOldIdx, this`numDestroyed
      ensures Step(old(V()), V()) && (old(Managed(V())) ==> Managed(V()))
      ensures destroyOldState.DestroyInit?
      ensures Size() + numDestroyed == old(Size() + numDestroyed) && |gcOldObjects| <= old(|gcOldObjects|)
      ensures |gcOldObjects| == old(|gcOldObjects|) ==> heap == old(heap) && gcOldObjects == old(gcOldObjects)
      ensures forall k :: 0 <= k < |gcOldObjects| ==> heap.count[gcOldObjects[k].obj] != 1
    {
      hide Destroyed, Phase, Sound, SameForApp, Reachable, Managed, Listed, DestroyOld;
      OldIndex(V());
      StepSelf(V());
      var r := 1;
      while r == 1
        invariant Step(old(V()), V()) && (old(Managed(V())) ==> Managed(V()))
        invariant Size() + numDestroyed == old(Size() + numDestroyed) && |gcOldObjects| <= old(|gcOldObjects|)
        invariant |gcOldObjects| == old(|gcOldObjects|) ==> heap == old(heap) && gcOldObjects == old(gcOldObjects)
        invariant r == 1 ==> OldScanned(V())
        invariant r == 1 || (r == 0 && destroyOldState.DestroyInit? && forall k :: 0 <= k < |gcOldObjects| ==> heap.count[gcOldObjects[k].obj] != 1)
        decreases r, |gcOldObjects|, DestroyRank(destroyOldState), |gcOldObjects| - destroyOldIdx
      {
        ghost var s := V();
        r := DestroyOldGarbage();
        DestroyOldKeeps(s);
        DestroyOldQuiet(s, V(), r);
        if Managed(s) { DestroyOldManaged(s); }
        StepTrans(old(V()), s, V());
      }
    }

    /** The destruction half of a round. */
    method DestroyAll()
      requires Inv(V()) && destroyNewState.DestroyInit? && destroyOldState.DestroyInit?
      modifies this`heap, this`gcNewObjects, this`gcOldObjects, this`destroyNewState, this`destroyNewIdx, this`destroyOldState, this`destroyOldIdx, this`numDestroyed, this`numNewDestroyed
      ensures Step(old(V()), V()) && destroyNewState.DestroyInit? && destroyOldState.DestroyInit?
      ensures Size() + numDestroyed == old(Size() + numDestroyed)
      ensures old(gcNewObjects) == [] && old(Managed(V())) ==> Managed(V())
      ensures old(gcNewObjects) == [] ==> gcNewObjects == [] && |gcOldObjects| <= old(|gcOldObjects|)
      ensures old(gcNewObjects) == [] && |gcOldObjects| == old(|gcOldObjects|) ==> heap == old(heap) && gcOldObjects == old(gcOldObjects)
      ensures forall k :: 0 <= k < |gcOldObjects| ==> heap.count[gcOldObjects[k].obj] != 1
      ensures Size() == old(Size()) ==> NoneAlone(V())
    {
      hide Phase, Sound, SameForApp, Reachable, Listed, Managed, NoneAlone;
      ghost var s := V();
      DestroyAllNew();
      ghost var t := V();
      DestroyAllOld();
      StepTrans(s, t, V());
      if Size() == old(Size()) { NoneAloneIs(V()); }
    }

    /** One round of a full collection: when it destroys nothing, everything still listed is reachable. */
    method CollectOnce()
      requires Inv(V()) && gcNewObjects == [] && detectState.ClearCountersInit? && destroyNewState.DestroyInit? && destroyOldState.DestroyInit?
      modifies this`heap, this`gcNewObjects, this`gcOldObjects, this`gcMap, this`gcMapCursor, this`liveObjects, this`detectState, this`detectIdx, this`numDetected, this`counted
      modifies this`destroyNewState, this`destroyNewIdx, this`destroyOldState, this`destroyOldIdx, this`numDestroyed, this`numNewDestroyed
      ensures Step(old(V()), V()) && Size() + numDestroyed == old(Size() + numDestroyed)
      ensures gcNewObjects == [] && detectState.ClearCountersInit? && destroyNewState.DestroyInit? && destroyOldState.DestroyInit?
      ensures old(Managed(V())) ==> Managed(V())
      ensures old(Managed(V())) && Size() == old(Size()) ==> AllReachable(V())
      ensures Size() == old(Size()) ==> NoneAlone(V())
    {
      hide Phase, Sound, SameForApp, Reachable, AllReachable, Listed, Managed, Quiet, NoneAlone, KeepsAnchored;
      ghost var s := V();
      DetectAll();
      ghost var t := V();
      DestroyAll();
      StepTrans(s, t, V());
      RoundExact(t, V());
    }

    /** The rounds that run only one half: detection alone changes no list, destruction alone starts no cycle. */
    method CollectHalf(doDetect: bool)
      requires Inv(V())
      requires doDetect ==> gcNewObjects == [] && detectState.ClearCountersInit?
      requires !doDetect ==> destroyNewState.DestroyInit? && destroyOldState.DestroyInit?
      modifies this`heap, this`gcNewObjects, this`gcOldObjects, this`gcMap, this`gcMapCursor, this`liveObjects, this`detectState, this`detectIdx, this`numDetected, this`counted
      modifies this`destroyNewState, this`destroyNewIdx, this`destroyOldState, this`destroyOldIdx, this`numDestroyed, this`numNewDestroyed
      ensures Step(old(V()), V()) && Size() + numDestroyed == old(Size() + numDestroyed)
      ensures doDetect ==> gcNewObjects == [] && detectState.ClearCountersInit?
      ensures !doDetect ==> destroyNewState.DestroyInit? && destroyOldState.DestroyInit?
      ensures doDetect ==> gcOldObjects == old(gcOldObjects) && Done(V()) && KeepsAnchored(old(V()), V())
      ensures !doDetect ==> gcMap == old(gcMap) && detectState == old(detectState) && (Size() == old(Size()) ==> NoneAlone(V()))
    {
      hide Phase, Sound, SameForApp, Reachable, Managed, KeepsAnchored, Quiet, Done, Listed, NoneAlone;
      if doDetect {
        DetectAll();
        DoneAtFirst(V());
      } else {
        DestroyAll();
      }
    }

    method CollectRound(doDetect: bool, doDestroy: bool)
      requires Inv(V()) && (doDetect || doDestroy)
      requires doDetect ==> gcNewObjects == [] && detectState.ClearCountersInit?
      requires doDestroy ==> destroyNewState.DestroyInit? && destroyOldState.DestroyInit?
      modifies this`heap, this`gcNewObjects, this`gcOldObjects, this`gcMap, this`gcMapCursor, this`liveObjects, this`detectState, this`detectIdx, this`numDetected, this`counted
      modifies this`destroyNewState, this`destroyNewIdx, this`destroyOldState, this`destroyOldIdx, this`numDestroyed, this`numNewDestroyed
      ensures Step(old(V()), V()) && Size() + numDestroyed == old(Size() + numDestroyed) && Size() <= old(Size())
      ensures doDetect ==> gcNewObjects == [] && detectState.ClearCountersInit?
      ensures doDestroy ==> destroyNewState.DestroyInit? && destroyOldState.DestroyInit?
      ensures doDetect && doDestroy && old(Managed(V())) ==> Managed(V())
      ensures doDetect && doDestroy && old(Managed(V())) && Size() == old(Size()) ==> AllReachable(V())
      ensures doDestroy && Size() == old(Size()) ==> NoneAlone(V())
      ensures !doDestroy ==> Done(V()) && KeepsAnchored(old(V()), V())
      ensures !doDetect ==> gcMap == old(gcMap) && detectState == old(detectState)
    {
      hide Phase, Sound, SameForApp, Reachable, Listed, AllReachable, Managed, NoneAlone, KeepsAnchored, Done;
      ghost var s := V();
      if doDetect && doDestroy { CollectOnce(); } else { CollectHalf(doDetect); }
      StepSize(s, V());
    }

    /** Prepares a full collection. */
    method StartFully(doDetect: bool, doDestroy: bool)
      requires Inv(V())
      modifies this`gcNewObjects, this`gcOldObjects, this`detectState, this`destroyNewState, this`destroyOldState
      ensures V() == CollectorSteps.StartFully(old(V()), doDetect, doDestroy)
      ensures Step(old(V()), V()) && Size() == old(Size()) && heap == old(heap) && Listed(V()) == old(Listed(V()))
      ensures doDetect ==> gcNewObjects == [] && detectState.ClearCountersInit?
      ensures doDestroy ==> destroyNewState.DestroyInit? && destroyOldState.DestroyInit?
    {
      hide Phase, Sound, SameForApp, Reachable, Listed;
      StartFullyKeeps(V(), doDetect, doDestroy);
      if doDetect {
        MoveAllKeeps(V());
        MoveAllToOld();
        detectState := ClearCountersInit;
      }
      if doDestroy {
        destroyNewState := DestroyInit;
        destroyOldState := DestroyInit;
      }
    }

    /** A full collection: detection and destruction repeat until neither an object nor a type goes away. */
    method CollectFully(doDetect: bool, doDestroy: bool)
      requires Inv(V()) && (doDetect || doDestroy)
      modifies this`heap, this`gcNewObjects, this`gcOldObjects, this`gcMap, this`gcMapCursor, this`liveObjects, this`detectState, this`detectIdx, this`numDetected, this`counted
      modifies this`destroyNewState, this`destroyNewIdx, this`destroyOldState, this`destroyOldIdx, this`numDestroyed, this`numNewDestroyed, this`types
      ensures Step(old(V()), V()) && Size() + numDestroyed == old(Size() + numDestroyed)
      ensures doDetect && doDestroy && old(Managed(V())) ==>
        forall o :: o in Listed(V()) <==> o in old(Listed(V())) && old(Reachable(heap, o))
      ensures doDestroy ==> destroyNewState.DestroyInit? && destroyOldState.DestroyInit? && NoneAlone(V())
      ensures !doDetect ==> gcMap == old(gcMap) && detectState == old(detectState)
      ensures !doDestroy ==> gcNewObjects == [] && Done(V()) && Listed(V()) == old(Listed(V())) && (old(Managed(V())) ==> Managed(V()))
      ensures !doDestroy ==> forall o :: Anchored(AllOld(old(V())), o) ==> Held(heap.refs, o) == Held(old(heap).refs, o)
    {
      hide Phase, Sound, SameForApp, Reachable, Listed, NoneAlone, KeepsAnchored, Done, Anchored, Managed, AllReachable, AllOld;
      ghost var s0 := V();
      StartFully(doDetect, doDestroy);
      ghost var s1 := V();
      ManagedSame(s0, s1);
      CollectRounds(doDetect, doDestroy);
      StepTrans(s0, s1, V());
      if doDetect && doDestroy && Managed(s0) { FullCycleExact(s0, V()); }
      if !doDestroy { KeptSince(s0, s1, V()); }
    }

    /** Rounds go on until one leaves as many objects, and the engine as many types, as there were before it. */
    method CollectRounds(doDetect: bool, doDestroy: bool)
      requires Inv(V()) && (doDetect || doDestroy)
      requires doDetect ==> gcNewObjects == [] && detectState.ClearCountersInit?
      requires doDestroy ==> destroyNewState.DestroyInit? && destroyOldState.DestroyInit?
      modifies this`heap, this`gcNewObjects, this`gcOldObjects, this`gcMap, this`gcMapCursor, this`liveObjects, this`detectState, this`detectIdx, this`numDetected, this`counted
      modifies this`destroyNewState, this`destroyNewIdx, this`destroyOldState, this`destroyOldIdx, this`numDestroyed, this`numNewDestroyed, this`types
      ensures Step(old(V()), V()) && Size() + numDestroyed == old(Size() + numDestroyed)
      ensures doDetect && doDestroy && old(Managed(V())) ==> AllReachable(V())
      ensures doDetect ==> gcNewObjects == []
      ensures doDestroy ==> destroyNewState.DestroyInit? && destroyOldState.DestroyInit? && NoneAlone(V())
      ensures !doDetect ==> gcMap == old(gcMap) && detectState == old(detectState)
      ensures !doDestroy ==> Done(V()) && KeepsAnchored(old(V()), V())
    {
      hide Phase, Sound, SameForApp, Reachable, Listed, NoneAlone, KeepsAnchored, Done, Anchored, Managed, AllReachable;
      ghost var s0 := V();
      ghost var exact := doDetect && doDestroy && Managed(s0);
      StepSelf(s0);
      if !doDestroy { KeepsSelf(s0); }
      var count := Size();
      var finished := false;
      while !finished
        invariant Step(s0, V()) && count == Size()
        invariant Size() + numDestroyed == old(Size() + numDestroyed)
        invariant doDetect ==> gcNewObjects == [] && detectState.ClearCountersInit?
        invariant doDestroy ==> destroyNewState.DestroyInit? && destroyOldState.DestroyInit?
        invariant exact ==> Managed(V())
        invariant finished && exact ==> AllReachable(V())
        invariant finished && doDestroy ==> NoneAlone(V())
        invariant !doDetect ==> gcMap == old(gcMap) && detectState == old(detectState)
        invariant !doDestroy ==> KeepsAnchored(s0, V()) && (finished ==> Done(V()))
        decreases !finished, Size(), types
      {
        ghost var s := V();
        CollectRound(doDetect, doDestroy);
        StepTrans(s0, s, V());
        if !doDestroy { KeepsTrans(s0, s, V()); }
        if count != Size() {
          count := Size();
        } else {
          var cleared := ClearUnusedTypes();
          finished := cleared == 0;
        }
      }
    }

    /** GarbageCollect: flags select a full cycle and which halves of it to run. Returns 0 after a full cycle and 1
        otherwise, also when the collector is already running. */
    method GarbageCollect(fullCycle: bool, detectGarbage: bool, destroyGarbage: bool) returns (r: int)
      requires Inv(V())
      modifies this
      ensures Step(old(V()), V()) && isProcessing == old(isProcessing)
      ensures Size() + numDestroyed == old(Size() + numDestroyed)
      ensures r == if fullCycle && !isProcessing then 0 else 1
      ensures isProcessing ==> V() == old(V()) && types == old(types)
      ensures !isProcessing && !fullCycle ==>
        var s1 := if destroyGarbage || !detectGarbage then DestroyOld(DestroyNew(old(V())).0).0 else old(V());
        V() == if detectGarbage || !destroyGarbage then Identify(s1).0 else s1
      ensures !isProcessing && fullCycle && detectGarbage == destroyGarbage && old(Managed(V())) ==>
        forall o :: o in Listed(V()) <==> o in old(Listed(V())) && old(Reachable(heap, o))
      // Asked to destroy: no object is left that the lists alone refer to
      ensures !isProcessing && fullCycle && (destroyGarbage || !detectGarbage) ==>
        destroyNewState.DestroyInit? && destroyOldState.DestroyInit? && forall o :: o in Listed(V()) ==> heap.count[o] != 1
      // Only that: no cycle is begun or taken further
      ensures !isProcessing && fullCycle && destroyGarbage && !detectGarbage ==> gcMap == old(gcMap) && detectState == old(detectState)
      // Asked only to detect: the same objects are listed, all of them old, and each that nothing leads to has been broken
      ensures !isProcessing && fullCycle && detectGarbage && !destroyGarbage ==>
        && gcNewObjects == [] && Listed(V()) == old(Listed(V())) && detectState.ClearCountersInit? && gcMap == map[]
        && (old(Managed(V())) ==> Managed(V()) && forall o :: o in Listed(V()) ==> Anchored(V(), o))
        && forall o :: Anchored(AllOld(old(V())), o) ==> Held(heap.refs, o) == Held(old(heap).refs, o)
    {
      hide Phase, SameForApp, Sound, Managed, Reachable, Anchored, Listed;
      StepSelf(V());
      if isProcessing { return 1; }
      isProcessing := true;
      var doDetect := detectGarbage || !destroyGarbage;
      var doDestroy := destroyGarbage || !detectGarbage;
      if fullCycle {
        CollectFully(doDetect, doDestroy);
        isProcessing := false;
        return 0;
      }
      CollectStep(doDetect, doDestroy);
      isProcessing := false;
      r := 1;
    }

    method DestroyStep()
      requires Inv(V())
      modifies this`heap, this`gcNewObjects, this`gcOldObjects, this`destroyNewState, this`destroyNewIdx, this`destroyOldState, this`destroyOldIdx, this`numDestroyed, this`numNewDestroyed
      ensures Step(old(V()), V()) && Size() + numDestroyed == old(Size() + numDestroyed)
      ensures V() == DestroyOld(DestroyNew(old(V())).0).0
    {
      hide Phase, SameForApp, Reachable, Listed;
      ghost var s := V();
      DestroyNewKeeps(s);
      var r1 := DestroyNewGarbage();
      ghost var t := V();
      DestroyOldKeeps(t);
      var r2 := DestroyOldGarbage();
      StepTrans(s, t, V());
    }

    method DetectStep()
      requires Inv(V())
      modifies this`heap, this`gcMap, this`gcMapCursor, this`liveObjects, this`detectState, this`detectIdx, this`numDetected, this`counted
      ensures Step(old(V()), V()) && V() == Identify(old(V())).0
    {
      IdentifyKeeps(V());
      var r := IdentifyGarbageWithCyclicRefs();
    }

    /** One step of each half that is asked for. */
    method CollectStep(doDetect: bool, doDestroy: bool)
      requires Inv(V()) && (doDetect || doDestroy)
      modifies this`heap, this`gcNewObjects, this`gcOldObjects, this`gcMap, this`gcMapCursor, this`liveObjects, this`detectState, this`detectIdx, this`numDetected, this`counted
      modifies this`destroyNewState, this`destroyNewIdx, this`destroyOldState, this`destroyOldIdx, this`numDestroyed, this`numNewDestroyed
      ensures Step(old(V()), V()) && Size() + numDestroyed == old(Size() + numDestroyed)
      ensures var s1 := if doDestroy then DestroyOld(DestroyNew(old(V())).0).0 else old(V());
        V() == if doDetect then Identify(s1).0 else s1
    {
      hide Phase, Sound, SameForApp, Reachable, Listed;
      if !doDestroy {
        DetectStep();
      } else if !doDetect {
        DestroyStep();
      } else {
        ghost var s := V();
        DestroyStep();
        ghost var t := V();
        DetectStep();
        StepTrans(s, t, V());
      }
    }
  }

  lemma RoundExact(s: GC, t: GC)
    requires Inv(s) && Done(s) && s.newObjs == []
    requires |t.oldObjs| == |s.oldObjs| ==> t.heap == s.heap && t.oldObjs == s.oldObjs && t.newObjs == s.newObjs
    requires forall k :: 0 <= k < |t.oldObjs| ==> t.heap.count[t.oldObjs[k].obj] != 1
    ensures Managed(s) && |t.oldObjs| == |s.oldObjs| ==> AllReachable(t)
  {
    if Managed(s) && |t.oldObjs| == |s.oldObjs| { NothingLeft(s, t); }
  }

  /** The lists never grow. */
  lemma StepSize(s: GC, t: GC)
    requires Step(s, t)
    ensures |t.newObjs| + |t.oldObjs| <= |s.newObjs| + |s.oldObjs|
  {
    assert |Listed(t)| == |t.newObjs| + |t.oldObjs| && |Listed(s)| == |s.newObjs| + |s.oldObjs|;
    assert Listed(s) == Listed(t) + (Listed(s) - Listed(t));
  }
}
