/** The incremental collector as a state machine: one function per public step, built from one function
    per pass through the detection switch. The class in Collector.dfy is proved to compute these. */
module CollectorSteps {
  import opened Options
  import opened ObjectHeap

  datatype DetectState =
    | ClearCountersInit | ClearCountersLoop
    | BuildMapInit | BuildMapLoop
    | CountReferencesInit | CountReferencesLoop
    | DetectGarbageInit | DetectGarbageLoop1 | DetectGarbageLoop2
    | VerifyUnmarkedInit | VerifyUnmarkedLoop
    | BreakCirclesInit | BreakCirclesLoop | BreakCirclesHaveGarbage

  datatype DestroyState = DestroyInit | DestroyLoop | DestroyHaveMore

  /** A listed object and how often DestroyNewGarbage has looked at it. */
  datatype Entry = Entry(obj: Obj, count: nat)

  /** The collector together with the heap its callbacks act on. counted is a history variable: the objects whose
      references have been subtracted from the counters of gcMap in this cycle. Indices are -1 where the source
      has the unsigned value that the next increment wraps to 0. */
  datatype GC = GC(
    heap: Heap,
    newObjs: seq<Entry>, oldObjs: seq<Entry>,
    gcMap: map<Obj, int>, cursor: Option<Obj>, live: seq<Obj>,
    detectState: DetectState, detectIdx: nat,
    newState: DestroyState, newIdx: int,
    oldState: DestroyState, oldIdx: int,
    counted: set<Obj>)

  /** The result of one pass through a switch: go round again, or return a value to the caller. */
  datatype Pass = Again(s: GC) | Return(s: GC, r: int)

  // ---- The ordered map's cursor ----

  lemma {:induction false} LeastKey(keys: set<Obj>, lo: Obj, k: Obj) returns (m: Obj)
    requires k in keys && lo <= k
    ensures m in keys && lo <= m && forall j :: j in keys && lo <= j ==> m <= j
    decreases k
  {
    m := k;
    if j :| j in keys && lo <= j && j < k {
      m := LeastKey(keys, lo, j);
    }
  }

  lemma LeastExists(keys: set<Obj>, lo: Obj)
    requires exists k :: k in keys && lo <= k
    ensures exists k :: k in keys && lo <= k && forall j :: j in keys && lo <= j ==> k <= j
  {
    var k :| k in keys && lo <= k;
    var m := LeastKey(keys, lo, k);
  }

  /** MoveFirst is AtOrAfter(keys, 0); MoveNext from k is AtOrAfter(keys, k + 1). */
  function AtOrAfter(keys: set<Obj>, lo: Obj): (r: Option<Obj>)
    ensures r.None? ==> forall k :: k in keys ==> k < lo
    ensures r.Some? ==> r.value in keys && lo <= r.value && forall k :: k in keys && lo <= k ==> r.value <= k
  {
    if exists k :: k in keys && lo <= k then
      LeastExists(keys, lo);
      var m :| m in keys && lo <= m && forall k :: k in keys && lo <= k ==> m <= k;
      Some(m)
    else None
  }

  // ---- Lists ----

  function SwapRemove(s: seq<Entry>, i: int): (r: seq<Entry>)
    requires 0 <= i < |s|
    ensures |r| == |s| - 1
  {
    if i == |s| - 1 then s[..i] else s[i := s[|s| - 1]][..|s| - 1]
  }

  function Objs(s: seq<Entry>): (r: seq<Obj>)
    ensures |r| == |s| && forall i :: 0 <= i < |s| ==> r[i] == s[i].obj
  {
    seq(|s|, i requires 0 <= i < |s| => s[i].obj)
  }

  // ---- gcEnumReferences calling back into the collector ----

  function SubtractRefs(m: map<Obj, int>, refs: seq<Obj>): map<Obj, int> {
    if refs == [] then m
    else SubtractRefs(if refs[0] in m then m[refs[0] := m[refs[0]] - 1] else m, refs[1..])
  }

  function MarkRefs(m: map<Obj, int>, live: seq<Obj>, refs: seq<Obj>): seq<Obj>
    decreases |refs|
  {
    if refs == [] then live
    else MarkRefs(m, if refs[0] in m then live + [refs[0]] else live, refs[1..])
  }

  // ---- Detection: one function for each looping state of the switch ----

  function ClearCounters(s: GC): Pass {
    var c := AtOrAfter(s.gcMap.Keys, 0);
    if c.Some? then Return(s.(heap := Release(s.heap, [c.value]), gcMap := s.gcMap - {c.value}), 1)
    else Again(s.(detectState := BuildMapInit))
  }

  function BuildMap(s: GC): Pass {
    if s.detectIdx < |s.oldObjs| then
      var o := s.oldObjs[s.detectIdx].obj;
      var refCount := s.heap.count[o];
      if refCount > 1 then
        Return(s.(gcMap := s.gcMap[o := refCount - 1], heap := SetFlag(AddRef(s.heap, o), o), detectIdx := s.detectIdx + 1), 1)
      else
        Return(s.(detectIdx := s.detectIdx + 1), 1)
    else Again(s.(detectState := CountReferencesInit))
  }

  function CountReferences(s: GC): Pass {
    if s.cursor.Some? then
      var o := s.cursor.value;
      var s1 := s.(cursor := AtOrAfter(s.gcMap.Keys, o + 1));
      if o in s.heap.flagged then
        Return(s1.(gcMap := SubtractRefs(s.gcMap, Held(s.heap.refs, o)), counted := s.counted + {o}), 1)
      else Return(s1, 1)
    else Again(s.(detectState := DetectGarbageInit))
  }

  function FindLive(s: GC): Pass {
    if s.cursor.Some? then
      var o := s.cursor.value;
      var s1 := s.(cursor := AtOrAfter(s.gcMap.Keys, o + 1));
      if o !in s.heap.flagged || (o in s.gcMap && s.gcMap[o] > 0) then Return(s1.(live := s.live + [o]), 1)
      else Return(s1, 1)
    else Again(s.(detectState := DetectGarbageLoop2))
  }

  function RemoveLive(s: GC): Pass {
    if |s.live| > 0 then
      var o := s.live[|s.live| - 1];
      var rest := s.live[..|s.live| - 1];
      if o in s.gcMap then
        var m := s.gcMap - {o};
        var h := Release(s.heap, [o]);
        Return(s.(gcMap := m, heap := h, live := MarkRefs(m, rest, Held(h.refs, o))), 1)
      else Return(s.(live := rest), 1)
    else Again(s.(detectState := VerifyUnmarkedInit))
  }

  function VerifyUnmarked(s: GC): Pass {
    if s.cursor.Some? then
      var o := s.cursor.value;
      if o !in s.heap.flagged then Return(s.(detectState := DetectGarbageInit), 1)
      else Return(s.(cursor := AtOrAfter(s.gcMap.Keys, o + 1)), 1)
    else Again(s.(detectState := BreakCirclesInit))
  }

  function BreakCircles(s: GC): Pass {
    if s.cursor.Some? then
      var o := s.cursor.value;
      Return(s.(heap := ReleaseAllReferences(s.heap, o), cursor := AtOrAfter(s.gcMap.Keys, o + 1),
                detectState := BreakCirclesHaveGarbage), 1)
    else Return(s.(detectState := ClearCountersInit), if s.detectState != BreakCirclesHaveGarbage then 0 else 1)
  }

  /** One pass through the switch of IdentifyGarbageWithCyclicRefs. */
  function DetectPass(s: GC): Pass {
    match s.detectState
    case ClearCountersInit => Again(s.(detectState := ClearCountersLoop))
    case ClearCountersLoop => ClearCounters(s)
    case BuildMapInit => Again(s.(detectIdx := 0, detectState := BuildMapLoop, counted := {}))
    case BuildMapLoop => BuildMap(s)
    case CountReferencesInit => Again(s.(cursor := AtOrAfter(s.gcMap.Keys, 0), detectState := CountReferencesLoop))
    case CountReferencesLoop => CountReferences(s)
    case DetectGarbageInit => Again(s.(cursor := AtOrAfter(s.gcMap.Keys, 0), live := [], detectState := DetectGarbageLoop1))
    case DetectGarbageLoop1 => FindLive(s)
    case DetectGarbageLoop2 => RemoveLive(s)
    case VerifyUnmarkedInit => Again(s.(cursor := AtOrAfter(s.gcMap.Keys, 0), detectState := VerifyUnmarkedLoop))
    case VerifyUnmarkedLoop => VerifyUnmarked(s)
    case BreakCirclesInit => Again(s.(cursor := AtOrAfter(s.gcMap.Keys, 0), detectState := BreakCirclesLoop))
    case BreakCirclesLoop => BreakCircles(s)
    case BreakCirclesHaveGarbage => BreakCircles(s)
  }

  /** Passes left before the switch must return. */
  function Rank(d: DetectState): nat {
    match d
    case ClearCountersInit => 12 case ClearCountersLoop => 11
    case BuildMapInit => 10 case BuildMapLoop => 9
    case CountReferencesInit => 8 case CountReferencesLoop => 7
    case DetectGarbageInit => 6 case DetectGarbageLoop1 => 5 case DetectGarbageLoop2 => 4
    case VerifyUnmarkedInit => 3 case VerifyUnmarkedLoop => 2
    case BreakCirclesInit => 1 case BreakCirclesLoop => 0 case BreakCirclesHaveGarbage => 0
  }

  /** IdentifyGarbageWithCyclicRefs: passes until one returns. */
  function Identify(s: GC): (GC, int)
    decreases Rank(s.detectState)
  {
    match DetectPass(s)
    case Again(s1) => Identify(s1)
    case Return(s1, r) => (s1, r)
  }

  // ---- Destruction ----

  function MoveToOld(s: GC, i: int): GC
    requires 0 <= i < |s.newObjs|
  {
    s.(oldObjs := s.oldObjs + [s.newObjs[i]], newObjs := SwapRemove(s.newObjs, i))
  }

  function DestroyNewPass(s: GC): Pass {
    if s.newState.DestroyInit? then
      if |s.newObjs| == 0 then Return(s, 0) else Again(s.(newIdx := -1, newState := DestroyLoop))
    else
      var i := s.newIdx + 1;
      if 0 <= i < |s.newObjs| then
        var e := s.newObjs[i];
        if s.heap.count[e.obj] == 1 then
          Return(s.(heap := Release(s.heap, [e.obj]), newObjs := SwapRemove(s.newObjs, i), newIdx := i - 1, newState := DestroyHaveMore), 1)
        else if e.count == 3 then
          Return(MoveToOld(s, i).(newIdx := i - 1), 1)
        else
          Return(s.(newObjs := s.newObjs[i := Entry(e.obj, e.count + 1)], newIdx := i), 1)
      else if s.newState.DestroyHaveMore? then Again(s.(newIdx := i, newState := DestroyInit))
      else Return(s.(newIdx := i, newState := DestroyInit), 0)
  }

  function DestroyRank(d: DestroyState): nat {
    match d case DestroyHaveMore => 2 case DestroyInit => 1 case DestroyLoop => 0
  }

  /** DestroyNewGarbage. After a restart the list is not empty-checked past its first entry, so this returns. */
  function DestroyNew(s: GC): (GC, int)
    decreases DestroyRank(s.newState)
  {
    match DestroyNewPass(s)
    case Again(s1) => DestroyNew(s1)
    case Return(s1, r) => (s1, r)
  }

  function DestroyOldPass(s: GC): Pass {
    if s.oldState.DestroyInit? then
      if |s.oldObjs| == 0 then Return(s, 0) else Again(s.(oldIdx := -1, oldState := DestroyLoop))
    else
      var i := s.oldIdx + 1;
      if 0 <= i < |s.oldObjs| then
        var o := s.oldObjs[i].obj;
        if s.heap.count[o] == 1 then
          Return(s.(heap := Release(s.heap, [o]), oldObjs := SwapRemove(s.oldObjs, i), oldIdx := i - 1, oldState := DestroyHaveMore), 1)
        else Return(s.(oldIdx := i), 1)
      else if s.oldState.DestroyHaveMore? then Again(s.(oldIdx := i, oldState := DestroyInit))
      else Return(s.(oldIdx := i, oldState := DestroyInit), 0)
  }

  function DestroyOld(s: GC): (GC, int)
    decreases DestroyRank(s.oldState)
  {
    match DestroyOldPass(s)
    case Again(s1) => DestroyOld(s1)
    case Return(s1, r) => (s1, r)
  }

  // ---- Starting a full collection ----

  /** Every new object goes to the old list, the last one first. */
  function MoveAllToOld(s: GC): GC
    decreases |s.newObjs|
  {
    if |s.newObjs| == 0 then s else MoveAllToOld(MoveToOld(s, |s.newObjs| - 1))
  }

  /** A full collection begins anew, wherever detection and destruction have got to. */
  function StartFully(s: GC, doDetect: bool, doDestroy: bool): GC {
    var s1 := if doDetect then MoveAllToOld(s).(detectState := ClearCountersInit) else s;
    if doDestroy then s1.(newState := DestroyInit, oldState := DestroyInit) else s1
  }

  // ---- Registering an object ----

  /** AddScriptObjectToGC with the collector not already running; the reference that addref takes belongs to the
      list only once the entry has been pushed, and is the caller's until then. */
  function AddObject(s: GC, o: Obj, autoCollect: bool): GC {
    var h := AddRef(s.heap, o);
    var s1 := s.(heap := h.(outside := h.outside + multiset{o}));
    var s2 := if autoCollect && |s1.newObjs| > 0 then AutoCollect(s1) else s1;
    s2.(heap := s2.heap.(outside := s2.heap.outside - multiset{o}), newObjs := s2.newObjs + [Entry(o, 0)])
  }

  function AutoCollect(s: GC): GC {
    var s1 := if |s.oldObjs| > 0 then DestroyOld(Identify(s).0).0 else s;
    RepeatDestroyNew(s1, if |s1.newObjs| > 10 then 10 else |s1.newObjs|)
  }

  function RepeatDestroyNew(s: GC, n: nat): GC
    decreases n
  {
    if n == 0 then s else DestroyNew(RepeatDestroyNew(s, n - 1)).0
  }
}
