/** What a detection cycle finds when the application does not run: termination and completeness. */
module CollectorComplete {
  import opened Options
  import opened ObjectHeap
  import opened CollectorSteps
  import opened CollectorSafety
  import opened CollectorRuns

  /** References to o other than the collector's. */
  ghost function Degree(h: Heap, o: Obj): nat {
    Inner(h)[o] + h.outside[o]
  }

  /** Only listed objects hold references. */
  ghost predicate Managed(s: GC) {
    forall p, o :: o in Held(s.heap.refs, p) ==> p in Listed(s)
  }

  // ---- What keeps a listed object from being taken for garbage ----

  /** Referenced from outside, not yet looked at as an old object, or referenced by the list alone and so never mapped. */
  ghost predicate Anchor(s: GC, o: Obj) {
    o in s.heap.outside || o in Objs(s.newObjs) || (o in Listed(s) && Degree(s.heap, o) == 0)
  }

  ghost predicate AnchorPath(s: GC, path: seq<Obj>) {
    && |path| > 0 && Anchor(s, path[0])
    && forall i :: 0 <= i < |path| - 1 ==> path[i + 1] in Held(s.heap.refs, path[i])
  }

  /** References lead to o from an anchor. */
  ghost predicate Anchored(s: GC, o: Obj) {
    exists path :: AnchorPath(s, path) && path[|path| - 1] == o
  }

  lemma AnchorIs(s: GC, o: Obj)
    requires Anchor(s, o)
    ensures Anchored(s, o)
  {
    assert AnchorPath(s, [o]);
  }

  lemma AnchorNext(s: GC, p: Obj, o: Obj)
    requires Anchored(s, p) && o in Held(s.heap.refs, p)
    ensures Anchored(s, o)
  {
    var path :| AnchorPath(s, path) && path[|path| - 1] == p;
    assert AnchorPath(s, path + [o]);
  }

  /** Where no object is referenced by the list alone, or new, it is the application that leads to it. */
  lemma AnchoredReachable(s: GC, o: Obj)
    requires Anchored(s, o) && s.newObjs == [] && forall x :: x in Listed(s) ==> Degree(s.heap, x) > 0
    ensures Reachable(s.heap, o)
  {
    var path :| AnchorPath(s, path) && path[|path| - 1] == o;
    assert Path(s.heap, path);
  }

  lemma {:induction false} AnchorIn(s: GC, c: iset<Obj>, path: seq<Obj>)
    requires AnchorPath(s, path) && path[0] in c && forall p, o :: p in c && o in Held(s.heap.refs, p) ==> o in c
    ensures path[|path| - 1] in c
    decreases |path|
  {
    if |path| > 1 {
      var init := path[..|path| - 1];
      assert AnchorPath(s, init);
      AnchorIn(s, c, init);
      assert path[|path| - 2 + 1] in Held(s.heap.refs, path[|path| - 2]);
    }
  }

  /** Objects that only refer to one another, and all are referred to, have no anchor; so where all listed objects are anchored
      no such circle is left. */
  lemma NoCircleLeft(s: GC, m: set<Obj>, o: Obj)
    requires (forall x :: x in Listed(s) ==> Anchored(s, x)) && Isolated(s.heap, m) && o in m && o in Listed(s)
    ensures exists x :: x in m && (x in Objs(s.newObjs) || (x in Listed(s) && Degree(s.heap, x) == 0))
  {
    var path :| AnchorPath(s, path) && path[|path| - 1] == o;
    if path[0] !in m {
      var c := iset x | x !in m;
      forall p, x | p in c && x in Held(s.heap.refs, p) ensures x in c { }
      AnchorIn(s, c, path);
    }
  }

  // ---- The cycle's invariant without an application ----

  ghost predicate AllFlagged(s: GC) {
    s.gcMap.Keys <= s.heap.flagged
  }

  ghost predicate Referenced(s: GC) {
    forall o :: o in s.gcMap ==> Degree(s.heap, o) > 0
  }

  /** Every scanned object with a reference is mapped. */
  ghost predicate Covers(s: GC, upto: nat) {
    forall k :: 0 <= k < upto && k < |s.oldObjs| && Degree(s.heap, s.oldObjs[k].obj) > 0 ==> s.oldObjs[k].obj in s.gcMap
  }

  ghost predicate CountedVisited(s: GC) {
    forall p :: p in s.counted <==> p in s.gcMap && Visited(s, p)
  }

  ghost predicate LiveAnchored(s: GC) {
    Managed(s) ==> forall o :: o in s.live ==> Anchored(s, o)
  }

  ghost predicate RestAnchored(s: GC) {
    Managed(s) ==> forall o :: o in Listed(s) && o !in s.gcMap ==> Anchored(s, o)
  }

  /** Some mapped object still to be broken holds a reference. */
  ghost predicate Holding(s: GC) {
    exists p :: p in s.gcMap && !Visited(s, p) && Held(s.heap.refs, p) != []
  }

  ghost predicate Quiet(s: GC) {
    match s.detectState
    case ClearCountersInit => true
    case ClearCountersLoop => true
    case BuildMapInit => true
    case BuildMapLoop => AllFlagged(s) && Referenced(s) && Covers(s, s.detectIdx)
    case CountReferencesInit => AllFlagged(s) && Referenced(s) && Covers(s, |s.oldObjs|)
    case CountReferencesLoop => AllFlagged(s) && Referenced(s) && Covers(s, |s.oldObjs|) && CountedVisited(s)
    case DetectGarbageInit => AllFlagged(s) && Referenced(s) && Covers(s, |s.oldObjs|) && s.counted == s.gcMap.Keys
    case DetectGarbageLoop1 => AllFlagged(s) && Referenced(s) && Covers(s, |s.oldObjs|) && s.counted == s.gcMap.Keys && LiveAnchored(s)
    case DetectGarbageLoop2 => AllFlagged(s) && Referenced(s) && RestAnchored(s) && LiveAnchored(s)
    case VerifyUnmarkedInit => AllFlagged(s) && Referenced(s) && RestAnchored(s)
    case VerifyUnmarkedLoop => AllFlagged(s) && Referenced(s) && RestAnchored(s)
    case BreakCirclesInit => Referenced(s) && RestAnchored(s)
    case BreakCirclesLoop => RestAnchored(s) && (Holding(s) || s.gcMap == map[])
    case BreakCirclesHaveGarbage => true
  }

  // ---- The termination measure ----

  /** References in the heap, plus one once the last reference of this cycle's garbage has been broken. */
  ghost function Edges(s: GC): nat {
    |Inner(s.heap)| + if s.detectState.BreakCirclesHaveGarbage? && !Holding(s) then 1 else 0
  }

  ghost function Unvisited(s: GC): set<Obj> {
    set o | o in s.gcMap && !Visited(s, o)
  }

  ghost function Work(s: GC): nat {
    match s.detectState
    case ClearCountersLoop => |s.gcMap|
    case BuildMapLoop => if s.detectIdx < |s.oldObjs| then |s.oldObjs| - s.detectIdx else 0
    case CountReferencesLoop => |Unvisited(s)|
    case DetectGarbageLoop1 => |Unvisited(s)|
    case DetectGarbageLoop2 => |s.gcMap|
    case VerifyUnmarkedLoop => |Unvisited(s)|
    case BreakCirclesLoop => |Unvisited(s)|
    case BreakCirclesHaveGarbage => |Unvisited(s)|
    case _ => 0
  }

  ghost function Queue(s: GC): nat {
    if s.detectState.DetectGarbageLoop2? then |s.live| else 0
  }

  ghost predicate Decreases(s: GC, t: GC) {
    || Edges(t) < Edges(s)
    || (Edges(t) == Edges(s) && Rank(t.detectState) < Rank(s.detectState))
    || (Edges(t) == Edges(s) && Rank(t.detectState) == Rank(s.detectState) && Work(t) < Work(s))
    || (Edges(t) == Edges(s) && Rank(t.detectState) == Rank(s.detectState) && Work(t) == Work(s) && Queue(t) < Queue(s))
  }

  /** A cycle that found no garbage: where only listed objects hold references, every listed object is anchored. */
  ghost predicate Done(s: GC) {
    && s.detectState.ClearCountersInit? && s.gcMap == map[]
    && (Managed(s) ==> forall o :: o in Listed(s) ==> Anchored(s, o))
  }

  /** What a pass with no application running achieves. */
  ghost predicate Progress(s: GC, p: Pass) {
    && (p.Again? || p.r == 1 ==> Quiet(p.s) && Decreases(s, p.s))
    && (p.Return? ==> p.r == 0 || p.r == 1)
    && (p.Return? && p.r == 0 ==> Done(p.s))
  }

  lemma VisitedShrinks(s: GC, t: GC, o: Obj)
    requires s.cursor == Some(o) && o in s.gcMap && t.gcMap.Keys == s.gcMap.Keys && t.cursor == AtOrAfter(s.gcMap.Keys, o + 1)
    ensures Unvisited(t) == Unvisited(s) - {o} && |Unvisited(t)| < |Unvisited(s)|
    ensures forall x :: x in s.gcMap ==> (Visited(t, x) <==> Visited(s, x) || x == o)
  {
    assert o in Unvisited(s);
    forall x | x in s.gcMap ensures Visited(t, x) <==> Visited(s, x) || x == o { }
    assert Unvisited(t) == Unvisited(s) - {o};
  }

  // ---- Heap changes that leave all references alone ----

  ghost predicate SameGraph(h1: Heap, h2: Heap) {
    h1.refs == h2.refs && h1.outside == h2.outside
  }

  lemma SameGraphReach(h1: Heap, h2: Heap)
    requires SameGraph(h1, h2)
    ensures forall o :: Reachable(h1, o) <==> Reachable(h2, o)
    ensures forall o :: Degree(h1, o) == Degree(h2, o)
    ensures Inner(h1) == Inner(h2)
  {
    ReachableClosed(h1, h2);
    ReachableClosed(h2, h1);
  }

  lemma AnchoredCarries(s: GC, t: GC)
    requires SameGraph(s.heap, t.heap) && t.newObjs == s.newObjs && t.oldObjs == s.oldObjs
    ensures Managed(s) <==> Managed(t)
    ensures Listed(s) == Listed(t)
    ensures forall o :: Anchored(s, o) <==> Anchored(t, o)
  {
    SameGraphReach(s.heap, t.heap);
    assert forall o :: o in Listed(s) <==> o in Listed(t);
    assert forall o :: Anchor(s, o) <==> Anchor(t, o);
    forall o ensures Anchored(s, o) <==> Anchored(t, o) {
      if Anchored(s, o) {
        var path :| AnchorPath(s, path) && path[|path| - 1] == o;
        assert AnchorPath(t, path);
      }
      if Anchored(t, o) {
        var path :| AnchorPath(t, path) && path[|path| - 1] == o;
        assert AnchorPath(s, path);
      }
    }
  }

  // ---- The passes, one state at a time ----

  lemma ClearCountersQuiet(s: GC)
    requires Inv(s) && Quiet(s) && s.detectState.ClearCountersLoop?
    ensures Progress(s, ClearCounters(s))
  {
    hide Phase, SameForApp, Sound;
    var c, t := AtOrAfter(s.gcMap.Keys, 0), ClearCounters(s).s;
    if c.Some? {
      UnmapStep(s, c.value, t);
      ClearedOne(s, c.value, t);
    }
  }

  lemma ClearedOne(s: GC, o: Obj, t: GC)
    requires s.detectState.ClearCountersLoop? && o in s.gcMap && t.detectState == s.detectState && t.gcMap == s.gcMap - {o}
    requires t.heap.refs == s.heap.refs
    ensures Quiet(t) && Decreases(s, t)
  {
    assert Inner(t.heap) == Inner(s.heap);
    assert t.gcMap.Keys == s.gcMap.Keys - {o};
  }

  /** While the map is being built, an unmapped object's counter is its other references plus the list's. */
  lemma CountOfUnmapped(s: GC)
    requires Inv(s) && s.detectState.BuildMapLoop? && s.detectIdx < |s.oldObjs|
    ensures var o := s.oldObjs[s.detectIdx].obj; s.heap.count[o] == Degree(s.heap, o) + 1
  {
    ListedAt(s, s.detectIdx);
    var o := s.oldObjs[s.detectIdx].obj;
    assert Own(s)[o] == 1;
  }

  lemma BuildMapQuiet(s: GC)
    requires Quiet(s) && s.detectState.BuildMapLoop?
    requires s.detectIdx < |s.oldObjs| ==> var o := s.oldObjs[s.detectIdx].obj; s.heap.count[o] == Degree(s.heap, o) + 1
    ensures Progress(s, BuildMap(s))
  {
    var t := BuildMap(s).s;
    assert Inner(t.heap) == Inner(s.heap) && t.heap.outside == s.heap.outside;
    assert forall o :: Degree(t.heap, o) == Degree(s.heap, o);
    if s.detectIdx < |s.oldObjs| {
      assert Referenced(t);
      forall k | 0 <= k < t.detectIdx && k < |t.oldObjs| && Degree(t.heap, t.oldObjs[k].obj) > 0
        ensures t.oldObjs[k].obj in t.gcMap
      {
        if k < s.detectIdx { assert s.oldObjs[k].obj in s.gcMap; }
      }
    }
  }

  lemma CountReferencesQuiet(s: GC)
    requires Quiet(s) && s.detectState.CountReferencesLoop? && (s.cursor.Some? ==> s.cursor.value in s.gcMap)
    ensures Progress(s, CountReferences(s))
  {
    var t := CountReferences(s).s;
    if s.cursor.Some? {
      var o := s.cursor.value;
      SubtractRefsAt(s.gcMap, Held(s.heap.refs, o));
      VisitedShrinks(s, t, o);
      forall p ensures p in t.counted <==> p in t.gcMap && Visited(t, p) { assert p in s.counted <==> p in s.gcMap && Visited(s, p); }
      assert AllFlagged(t) && Referenced(t) && Covers(t, |t.oldObjs|);
    } else {
      assert t.counted == t.gcMap.Keys;
      assert AllFlagged(t) && Referenced(t) && Covers(t, |t.oldObjs|);
    }
  }

  lemma ListedOld(s: GC, o: Obj)
    requires o in Listed(s) && o !in Objs(s.newObjs)
    ensures exists k :: 0 <= k < |s.oldObjs| && s.oldObjs[k].obj == o
  {
    assert o in multiset(Objs(s.oldObjs));
    var k :| 0 <= k < |s.oldObjs| && Objs(s.oldObjs)[k] == o;
  }

  /** A listed object that the scan has not mapped is an anchor. */
  lemma UnmappedAnchors(s: GC)
    requires Covers(s, |s.oldObjs|)
    ensures forall o :: o in Listed(s) && o !in s.gcMap ==> Anchor(s, o)
  {
    forall o | o in Listed(s) && o !in s.gcMap ensures Anchor(s, o) {
      if o !in Objs(s.newObjs) { ListedOld(s, o); }
    }
  }

  /** With all references inside the map subtracted, a positive counter means a reference from an anchor. */
  lemma PositiveIsAnchored(s: GC, o: Obj)
    requires Balanced(s) && AllFlagged(s) && Covers(s, |s.oldObjs|) && s.counted == s.gcMap.Keys && Managed(s)
    requires o in s.gcMap && s.gcMap[o] > 0
    ensures Anchored(s, o)
  {
    UnmappedAnchors(s);
    var all := s.heap.refs.Keys;
    OutGrow(s.heap.refs, s.counted, s.counted + all, o);
    OutGrow(s.heap.refs, all, s.counted + all, o);
    if o in s.heap.outside {
      AnchorIs(s, o);
    } else {
      var p :| p in s.counted + all - s.counted && o in Held(s.heap.refs, p);
      AnchorIs(s, p);
      AnchorNext(s, p, o);
    }
  }

  lemma FindLiveSome(s: GC, o: Obj, t: GC)
    requires Quiet(s) && s.detectState.DetectGarbageLoop1? && s.cursor == Some(o) && o in s.gcMap && Balanced(s)
    requires t == s.(cursor := AtOrAfter(s.gcMap.Keys, o + 1), live := if s.gcMap[o] > 0 then s.live + [o] else s.live)
    ensures Quiet(t) && Decreases(s, t)
  {
    assert AllFlagged(t) && Referenced(t) && Covers(t, |t.oldObjs|);
    VisitedShrinks(s, t, o);
    AnchoredCarries(s, t);
    if Managed(s) && s.gcMap[o] > 0 { PositiveIsAnchored(s, o); }
  }

  lemma FindLiveQuiet(s: GC)
    requires Quiet(s) && s.detectState.DetectGarbageLoop1? && (s.cursor.Some? ==> s.cursor.value in s.gcMap) && Balanced(s)
    ensures Progress(s, FindLive(s))
  {
    hide Reachable;
    var t := FindLive(s).s;
    if s.cursor.Some? {
      FindLiveSome(s, s.cursor.value, t);
    } else {
      FindLiveNone(s, t);
    }
  }

  lemma FindLiveNone(s: GC, t: GC)
    requires Quiet(s) && s.detectState.DetectGarbageLoop1? && t == s.(detectState := DetectGarbageLoop2)
    ensures Quiet(t) && Decreases(s, t)
  {
    hide RestAnchored, LiveAnchored;
    RestStarts(s);
    AnchorsStay(s, t);
    assert AllFlagged(t) && Referenced(t);
  }

  lemma RestStarts(s: GC)
    requires Covers(s, |s.oldObjs|)
    ensures RestAnchored(s)
  {
    hide Anchor, Anchored;
    UnmappedAnchors(s);
    forall o | Anchor(s, o) ensures Anchored(s, o) { AnchorIs(s, o); }
  }

  /** What is known of anchored objects does not depend on the state of detection. */
  lemma AnchorsStay(s: GC, t: GC)
    requires SameGraph(s.heap, t.heap) && t.newObjs == s.newObjs && t.oldObjs == s.oldObjs && t.gcMap.Keys == s.gcMap.Keys && t.live == s.live
    ensures RestAnchored(s) ==> RestAnchored(t)
    ensures LiveAnchored(s) ==> LiveAnchored(t)
  {
    hide Anchored, Managed, Listed;
    AnchoredCarries(s, t);
  }

  lemma RemoveLiveReaches(s: GC, o: Obj, rest: seq<Obj>, t: GC)
    requires RestAnchored(s) && LiveAnchored(s) && s.live == rest + [o] && SameGraph(s.heap, t.heap)
    requires t.newObjs == s.newObjs && t.oldObjs == s.oldObjs && t.gcMap == s.gcMap - {o}
    requires t.live == MarkRefs(t.gcMap, rest, if o in s.gcMap then Held(t.heap.refs, o) else [])
    ensures RestAnchored(t) && LiveAnchored(t)
  {
    AnchoredCarries(s, t);
    SameGraphReach(s.heap, t.heap);
    MarkRefsHas(t.gcMap, rest, if o in s.gcMap then Held(t.heap.refs, o) else []);
    if Managed(s) {
      assert o in s.live;
      forall x | x in t.live ensures Anchored(t, x) {
        if x in rest { assert x in s.live; } else { AnchorNext(t, o, x); }
      }
    }
  }

  lemma RemoveLiveSome(s: GC, o: Obj, rest: seq<Obj>, t: GC)
    requires AllFlagged(s) && Referenced(s) && RestAnchored(s) && LiveAnchored(s) && s.detectState.DetectGarbageLoop2?
    requires s.live == rest + [o]
    requires t.heap.refs == s.heap.refs && t.heap.outside == s.heap.outside && s.heap.flagged - {o} <= t.heap.flagged
    requires o !in s.gcMap ==> t.heap == s.heap
    requires t.gcMap == s.gcMap - {o} && t.live == MarkRefs(t.gcMap, rest, if o in s.gcMap then Held(t.heap.refs, o) else [])
    requires t.newObjs == s.newObjs && t.oldObjs == s.oldObjs && t.detectState == s.detectState
    ensures Quiet(t) && Decreases(s, t)
  {
    RemoveLiveReaches(s, o, rest, t);
    assert Inner(t.heap) == Inner(s.heap);
    assert t.gcMap.Keys == s.gcMap.Keys - {o};
    if o !in s.gcMap { assert t.live == rest; }
  }

  lemma RemoveLiveAt(s: GC, o: Obj, rest: seq<Obj>, t: GC)
    requires Sound(s) && s.live == rest + [o] && t == RemoveLive(s).s
    ensures t.heap.refs == s.heap.refs && t.heap.outside == s.heap.outside && s.heap.flagged - {o} <= t.heap.flagged
    ensures o !in s.gcMap ==> t.heap == s.heap
    ensures t.gcMap == s.gcMap - {o} && t.live == MarkRefs(t.gcMap, rest, if o in s.gcMap then Held(t.heap.refs, o) else [])
    ensures t.newObjs == s.newObjs && t.oldObjs == s.oldObjs && t.detectState == s.detectState
    ensures RemoveLive(s) == Return(t, 1)
  {
    assert s.live[..|s.live| - 1] == rest;
    if o in s.gcMap { Unmap(s, o); } else { assert s.gcMap - {o} == s.gcMap; }
  }

  lemma RemoveLiveQuiet(s: GC)
    requires Inv(s) && Quiet(s) && s.detectState.DetectGarbageLoop2?
    ensures Progress(s, RemoveLive(s))
  {
    hide Accounts, Reachable, RestAnchored, LiveAnchored, Balanced, LooseEnds, Queued, Edges, Listed;
    if |s.live| > 0 {
      var o, rest := s.live[|s.live| - 1], s.live[..|s.live| - 1];
      var t := RemoveLive(s).s;
      RemoveLiveAt(s, o, rest, t);
      RemoveLiveSome(s, o, rest, t);
      assert RemoveLive(s) == Return(t, 1);
    } else {
      RemoveLiveNone(s);
    }
  }

  lemma RemoveLiveNone(s: GC)
    requires Quiet(s) && s.detectState.DetectGarbageLoop2? && s.live == []
    ensures Progress(s, RemoveLive(s))
  {
    var t := RemoveLive(s).s;
    assert AllFlagged(t) && Referenced(t) && RestAnchored(t);
  }

  lemma VerifyUnmarkedQuiet(s: GC)
    requires Quiet(s) && s.detectState.VerifyUnmarkedLoop? && (s.cursor.Some? ==> s.cursor.value in s.gcMap)
    ensures Progress(s, VerifyUnmarked(s))
  {
    hide Reachable, Out, RestAnchored, Referenced;
    var t := VerifyUnmarked(s).s;
    StillQuiet(s, t);
    if s.cursor.Some? { VisitedShrinks(s, t, s.cursor.value); }
  }

  lemma StillQuiet(s: GC, t: GC)
    requires Quiet(s) && s.detectState.VerifyUnmarkedLoop? && t == s.(cursor := t.cursor, detectState := t.detectState)
    ensures AllFlagged(t) && Referenced(t) && RestAnchored(t)
  {
    hide RestAnchored, LiveAnchored;
    AnchorsStay(s, t);
  }

  /** Isolated garbage that is referenced at all is referenced by garbage. */
  lemma GarbageHolds(h: Heap, m: set<Obj>, o: Obj)
    requires Isolated(h, m) && o in m && Degree(h, o) > 0
    ensures exists p :: p in m && Held(h.refs, p) != []
  {
    OutMember(h.refs, h.refs.Keys, o);
  }

  lemma BreakInitQuiet(s: GC)
    requires Quiet(s) && s.detectState.BreakCirclesInit? && Isolated(s.heap, s.gcMap.Keys)
    ensures Progress(s, DetectPass(s))
  {
    hide RestAnchored, LiveAnchored;
    var t := DetectPass(s).s;
    AnchorsStay(s, t);
    if o :| o in s.gcMap {
      GarbageHolds(s.heap, s.gcMap.Keys, o);
      var p :| p in s.gcMap.Keys && Held(s.heap.refs, p) != [];
      assert !Visited(t, p);
      assert Holding(t);
    } else {
      assert s.gcMap == map[];
    }
  }

  /** Releasing all references of an object that has some leaves fewer references in the heap. */
  lemma ReleaseAllShrinks(h: Heap, o: Obj, own: multiset<Obj>, m: set<Obj>)
    requires Accounts(h, own) && Isolated(h, m) && o in m && o in h.refs
    ensures |Inner(ReleaseAllReferences(h, o))| <= |Inner(h)| - |h.refs[o]|
  {
    var h1, h2 := h.(refs := h.refs[o := []]), ReleaseAllReferences(h, o);
    ReleaseAllLaws(h, o, own, m);
    InnerUpdate(h, o, []);
    assert Inner(h) == Inner(h1) + multiset(h.refs[o]);
    forall x ensures Inner(h2)[x] <= Inner(h1)[x] {
      OutSame(h2.refs, h1.refs, h2.refs.Keys, x);
      OutGrow(h1.refs, h2.refs.Keys, h1.refs.Keys, x);
    }
    SmallerMultiset(Inner(h2), Inner(h1));
  }

  lemma SmallerMultiset(a: multiset<Obj>, b: multiset<Obj>)
    requires forall x :: a[x] <= b[x]
    ensures |a| <= |b|
  {
    assert b == a + (b - a);
  }

  lemma BreakFacts(h: Heap, o: Obj, own: multiset<Obj>, m: set<Obj>)
    requires Accounts(h, own) && o in own && o in m && Isolated(h, m)
    ensures var h2 := ReleaseAllReferences(h, o);
      && |Inner(h2)| <= |Inner(h)| - |Held(h.refs, o)|
      && (Held(h.refs, o) == [] ==> h2 == h)
      && forall p :: Held(h2.refs, p) != [] ==> Held(h.refs, p) != []
  {
    assert o in h.count;
    ReleaseAllShrinks(h, o, own, m);
    ReleaseAllLaws(h, o, own, m);
    if Held(h.refs, o) == [] { assert h.refs[o := []] == h.refs; }
  }

  /** Breaking the cursor's object: either references disappear, or what is still holding is still to come. */
  lemma HoldingCarries(s: GC, o: Obj, t: GC)
    requires s.cursor == Some(o) && o in s.gcMap && t.gcMap == s.gcMap && t.cursor == AtOrAfter(s.gcMap.Keys, o + 1)
    requires forall p :: Held(t.heap.refs, p) != [] ==> Held(s.heap.refs, p) != []
    requires Held(s.heap.refs, o) == [] ==> t.heap == s.heap
    ensures Holding(t) ==> Holding(s)
    ensures Held(s.heap.refs, o) == [] ==> (Holding(s) <==> Holding(t))
  {
    VisitedShrinks(s, t, o);
    if Holding(t) {
      var p :| p in t.gcMap && !Visited(t, p) && Held(t.heap.refs, p) != [];
      assert !Visited(s, p);
    }
    if Holding(s) && Held(s.heap.refs, o) == [] {
      var p :| p in s.gcMap && !Visited(s, p) && Held(s.heap.refs, p) != [];
      assert !Visited(t, p);
    }
  }

  lemma BreakCirclesSome(s: GC, o: Obj, t: GC)
    requires s.cursor == Some(o) && o in s.gcMap && t.gcMap == s.gcMap && t.cursor == AtOrAfter(s.gcMap.Keys, o + 1)
    requires s.detectState.BreakCirclesHaveGarbage? || (s.detectState.BreakCirclesLoop? && Holding(s))
    requires t.detectState.BreakCirclesHaveGarbage?
    requires |Inner(t.heap)| <= |Inner(s.heap)| - |Held(s.heap.refs, o)|
    requires Holding(t) ==> Holding(s)
    requires Held(s.heap.refs, o) == [] ==> (Holding(s) <==> Holding(t))
    ensures Quiet(t) && Decreases(s, t)
  {
    VisitedShrinks(s, t, o);
  }

  lemma BreakCirclesAt(s: GC, o: Obj, t: GC)
    requires Sound(s) && Isolated(s.heap, s.gcMap.Keys) && (s.detectState.BreakCirclesLoop? || s.detectState.BreakCirclesHaveGarbage?)
    requires s.cursor == Some(o) && t == BreakCircles(s).s
    ensures o in s.gcMap
    ensures |Inner(t.heap)| <= |Inner(s.heap)| - |Held(s.heap.refs, o)|
    ensures Holding(t) ==> Holding(s)
    ensures Held(s.heap.refs, o) == [] ==> (Holding(s) <==> Holding(t))
  {
    assert o in multiset(s.gcMap.Keys);
    BreakFacts(s.heap, o, Own(s), s.gcMap.Keys);
    HoldingCarries(s, o, t);
  }

  lemma BreakCirclesQuiet(s: GC)
    requires Inv(s) && Quiet(s) && (s.detectState.BreakCirclesLoop? || s.detectState.BreakCirclesHaveGarbage?)
    ensures Progress(s, BreakCircles(s))
  {
    hide Accounts, Reachable, RestAnchored, Edges;
    if s.cursor.Some? {
      var t := BreakCircles(s).s;
      BreakCirclesAt(s, s.cursor.value, t);
      BreakCirclesSome(s, s.cursor.value, t);
      assert BreakCircles(s) == Return(t, 1);
    } else {
      BreakCirclesNone(s);
    }
  }

  lemma BreakCirclesNone(s: GC)
    requires Quiet(s) && s.cursor.None? && (s.detectState.BreakCirclesLoop? || s.detectState.BreakCirclesHaveGarbage?)
    ensures Progress(s, BreakCircles(s))
  {
    assert !Holding(s);
    if s.detectState.BreakCirclesLoop? { AnchoredCarries(s, BreakCircles(s).s); }
  }

  lemma InitStatesQuiet(s: GC)
    requires Quiet(s)
    requires s.detectState.ClearCountersInit? || s.detectState.BuildMapInit? || s.detectState.CountReferencesInit?
          || s.detectState.DetectGarbageInit? || s.detectState.VerifyUnmarkedInit?
    requires s.detectState.BuildMapInit? ==> s.gcMap == map[]
    requires s.detectState.CountReferencesInit? ==> s.counted == {}
    ensures Progress(s, DetectPass(s))
  {
    hide RestAnchored, LiveAnchored;
    var t := DetectPass(s).s;
    if s.detectState.CountReferencesInit? { assert Covers(t, |t.oldObjs|); }
    if s.detectState.DetectGarbageInit? { FindInitQuiet(s); }
    if s.detectState.VerifyUnmarkedInit? { VerifyInitQuiet(s); }
  }

  lemma FindInitQuiet(s: GC)
    requires Quiet(s) && s.detectState.DetectGarbageInit?
    ensures Progress(s, DetectPass(s))
  {
    hide RestAnchored, Anchored;
    var t := DetectPass(s).s;
    assert Covers(t, |t.oldObjs|) && LiveAnchored(t);
  }

  lemma VerifyInitQuiet(s: GC)
    requires Quiet(s) && s.detectState.VerifyUnmarkedInit?
    ensures Progress(s, DetectPass(s))
  {
    hide RestAnchored, LiveAnchored;
    AnchorsStay(s, DetectPass(s).s);
  }

  lemma DetectPassQuiet(s: GC)
    requires Inv(s) && Quiet(s)
    ensures Progress(s, DetectPass(s))
  {
    hide Quiet, Progress;
    match s.detectState {
      case ClearCountersLoop => ClearCountersQuiet(s);
      case BuildMapLoop => if s.detectIdx < |s.oldObjs| { CountOfUnmapped(s); } BuildMapQuiet(s);
      case CountReferencesLoop => CountReferencesQuiet(s);
      case DetectGarbageLoop1 => FindLiveQuiet(s);
      case DetectGarbageLoop2 => RemoveLiveQuiet(s);
      case VerifyUnmarkedLoop => VerifyUnmarkedQuiet(s);
      case BreakCirclesInit => BreakInitQuiet(s);
      case BreakCirclesLoop => BreakCirclesQuiet(s);
      case BreakCirclesHaveGarbage => BreakCirclesQuiet(s);
      case _ => InitStatesQuiet(s);
    }
  }

  lemma DecreasesTrans(s: GC, t: GC, u: GC)
    requires Decreases(s, t) && Decreases(t, u)
    ensures Decreases(s, u)
  {
  }

  /** A call of IdentifyGarbageWithCyclicRefs, with no application step since the cycle began: the measure goes down,
      or the cycle ends having found no garbage. */
  lemma {:induction false} IdentifyQuiet(s: GC, t: GC, r: int)
    requires Inv(s) && Quiet(s) && (t, r) == Identify(s)
    ensures r == 0 || r == 1
    ensures r == 1 ==> Quiet(t) && Decreases(s, t)
    ensures r == 0 ==> Done(t)
    decreases Rank(s.detectState)
  {
    hide Phase, Sound, Quiet, SameForApp;
    DetectPassKeeps(s);
    DetectPassQuiet(s);
    AgainDescends(s);
    IdentifyUnfolds(s);
    var p := DetectPass(s);
    if p.Again? {
      IdentifyQuiet(p.s, t, r);
      if r == 1 { DecreasesTrans(s, p.s, t); }
    }
  }

  // ---- What a full collection needs besides ----

  ghost predicate Shrinks(h1: Heap, h2: Heap) {
    forall p, o :: o in Held(h2.refs, p) ==> o in Held(h1.refs, p)
  }

  lemma UnmapShrinks(s: GC, o: Obj)
    requires Sound(s) && o in s.gcMap
    ensures Shrinks(s.heap, Release(s.heap, [o]))
  {
    Unmap(s, o);
  }

  lemma BreakShrinks(h: Heap, o: Obj, own: multiset<Obj>, m: set<Obj>)
    requires Accounts(h, own) && o in own && o in m && Isolated(h, m)
    ensures Shrinks(h, ReleaseAllReferences(h, o))
  {
    assert o in h.count;
    ReleaseAllLaws(h, o, own, m);
  }

  lemma SameRefsShrinks(h1: Heap, h2: Heap)
    requires h1.refs == h2.refs
    ensures Shrinks(h1, h2)
  {
  }

  lemma DetectPassShrinks(s: GC, t: GC)
    requires Inv(s) && t == DetectPass(s).s
    ensures Shrinks(s.heap, t.heap)
  {
    hide SameForApp, Reachable, Accounts, Balanced, LooseEnds, Queued, NonePositive, Sealed, Touched;
    var d := s.detectState;
    if d.ClearCountersLoop? && AtOrAfter(s.gcMap.Keys, 0).Some? {
      UnmapShrinks(s, AtOrAfter(s.gcMap.Keys, 0).value);
    } else if d.DetectGarbageLoop2? && |s.live| > 0 && s.live[|s.live| - 1] in s.gcMap {
      UnmapShrinks(s, s.live[|s.live| - 1]);
    } else if d.BreakCirclesLoop? || d.BreakCirclesHaveGarbage? {
      BreakCirclesShrinks(s);
    } else {
      SameRefsShrinks(s.heap, t.heap);
    }
  }

  lemma BreakCirclesShrinks(s: GC)
    requires Sound(s) && Isolated(s.heap, s.gcMap.Keys) && (s.detectState.BreakCirclesLoop? || s.detectState.BreakCirclesHaveGarbage?)
    ensures Shrinks(s.heap, BreakCircles(s).s.heap)
  {
    if s.cursor.Some? {
      assert s.cursor.value in multiset(s.gcMap.Keys);
      BreakShrinks(s.heap, s.cursor.value, Own(s), s.gcMap.Keys);
    }
  }

  lemma {:induction false} IdentifyManaged(s: GC)
    requires Inv(s) && Managed(s)
    ensures Managed(Identify(s).0)
    decreases Rank(s.detectState)
  {
    DetectPassKeeps(s);
    DetectPassShrinks(s, DetectPass(s).s);
    AgainDescends(s);
    IdentifyUnfolds(s);
    var p := DetectPass(s);
    DetectPassLists(s);
    assert Managed(p.s);
    if p.Again? { IdentifyManaged(p.s); }
  }

  lemma DetectPassLists(s: GC)
    ensures Listed(DetectPass(s).s) == Listed(s)
  {
    assert DetectPass(s).s.newObjs == s.newObjs && DetectPass(s).s.oldObjs == s.oldObjs;
  }

  // ---- Destruction without an application ----

  ghost predicate OldScanned(s: GC) {
    s.oldIdx >= -1 && (s.oldState.DestroyLoop? ==> forall k :: 0 <= k <= s.oldIdx && k < |s.oldObjs| ==> s.heap.count[s.oldObjs[k].obj] != 1)
  }

  ghost predicate OldLess(s: GC, t: GC) {
    || |t.oldObjs| < |s.oldObjs|
    || (|t.oldObjs| == |s.oldObjs| && DestroyRank(t.oldState) < DestroyRank(s.oldState))
    || (|t.oldObjs| == |s.oldObjs| && DestroyRank(t.oldState) == DestroyRank(s.oldState) && s.oldIdx < t.oldIdx < |t.oldObjs|)
  }

  /** DestroyOldGarbage, called over and over: it gets on, changes nothing unless it destroys, and ends only when no
      listed object has the list's reference alone. */
  lemma {:induction false} DestroyOldQuiet(s: GC, t: GC, r: int)
    requires OldScanned(s) && (t, r) == DestroyOld(s)
    ensures r == 0 || r == 1
    ensures t.newObjs == s.newObjs && t.newState == s.newState && t.gcMap == s.gcMap && t.detectState == s.detectState
    ensures |t.oldObjs| <= |s.oldObjs|
    ensures |t.oldObjs| == |s.oldObjs| ==> t.heap == s.heap && t.oldObjs == s.oldObjs
    ensures r == 1 ==> OldScanned(t) && OldLess(s, t)
    ensures r == 0 ==> t.oldState.DestroyInit? && forall k :: 0 <= k < |t.oldObjs| ==> t.heap.count[t.oldObjs[k].obj] != 1
    decreases DestroyRank(s.oldState)
  {
    DestroyOldUnfolds(s);
    var p := DestroyOldPass(s);
    if p.Again? { DestroyOldQuiet(p.s, t, r); }
  }

  lemma DestroyOldManaged(s: GC)
    requires Inv(s) && Managed(s)
    ensures Managed(DestroyOld(s).0)
    decreases DestroyRank(s.oldState)
  {
    DestroyOldPassKeeps(s);
    DestroyOldUnfolds(s);
    DestroyOldPassManaged(s);
    var p := DestroyOldPass(s);
    if p.Again? { DestroyOldManaged(p.s); }
  }

  lemma DestroyOldPassManaged(s: GC)
    requires Inv(s) && Managed(s)
    ensures Managed(DestroyOldPass(s).s)
  {
    hide Phase, SameForApp, Reachable, Accounts, Inner, Out;
    var t, i := DestroyOldPass(s).s, s.oldIdx + 1;
    if !s.oldState.DestroyInit? && 0 <= i < |s.oldObjs| && s.heap.count[s.oldObjs[i].obj] == 1 {
      var o := s.oldObjs[i].obj;
      ListedAt(s, i);
      SwapRemoveObjs(s.oldObjs, i);
      assert Objs(s.oldObjs)[i] in multiset(Objs(s.oldObjs));
      assert Listed(t) == Listed(s) - multiset{o};
      DestroyedHoldsNothing(s, o);
      forall p, x | x in Held(t.heap.refs, p) ensures p in Listed(t) { assert x in Held(s.heap.refs, p); }
    } else {
      assert Listed(t) == Listed(s);
    }
  }

  lemma DestroyedHoldsNothing(s: GC, o: Obj)
    requires Inv(s) && s.heap.count[o] == 1 && o in Listed(s)
    ensures Held(Release(s.heap, [o]).refs, o) == [] && Shrinks(s.heap, Release(s.heap, [o]))
  {
    var rest := Own(s) - multiset{o};
    assert Own(s) == rest + multiset{o};
    assert multiset([o]) == multiset{o};
    ReleaseLaws(s.heap, [o], rest);
    LastReleased(s.heap, o);
  }

  /** Releasing the last reference to an object destroys it. */
  lemma LastReleased(h: Heap, o: Obj)
    requires h.count[o] == 1
    ensures o !in Release(h, [o]).refs
  {
    assert [o][1..] == [];
    ReleaseOnlyDestroys(h.(refs := h.refs - {o}, count := h.count - multiset{o}, flagged := h.flagged - {o}), Held(h.refs, o) + []);
  }

  ghost predicate NewLess(s: GC, t: GC) {
    || |t.newObjs| < |s.newObjs|
    || (|t.newObjs| == |s.newObjs| && DestroyRank(t.newState) < DestroyRank(s.newState))
    || (|t.newObjs| == |s.newObjs| && DestroyRank(t.newState) == DestroyRank(s.newState) && s.newIdx < t.newIdx < |t.newObjs|)
  }

  lemma {:induction false} DestroyNewQuiet(s: GC, t: GC, r: int)
    requires (t, r) == DestroyNew(s) && s.newIdx >= -1
    ensures r == 0 || r == 1
    ensures r == 1 ==> NewLess(s, t)
    ensures t.newIdx >= -1
    ensures r == 0 ==> t.newState.DestroyInit?
    decreases DestroyRank(s.newState)
  {
    DestroyNewUnfolds(s);
    var p := DestroyNewPass(s);
    if p.Again? { DestroyNewQuiet(p.s, t, r); }
  }

  ghost predicate AllReachable(s: GC) {
    forall o :: o in Listed(s) ==> Reachable(s.heap, o)
  }

  /** A finished full collection: after a cycle that found no garbage and a destruction sweep that destroyed nothing,
      every listed object is reachable. */
  lemma NothingLeft(s: GC, t: GC)
    requires Inv(s) && Done(s) && Managed(s) && s.newObjs == []
    requires t.heap == s.heap && t.oldObjs == s.oldObjs && t.newObjs == s.newObjs
    requires forall k :: 0 <= k < |t.oldObjs| ==> t.heap.count[t.oldObjs[k].obj] != 1
    ensures AllReachable(t)
  {
    assert Listed(t) == Listed(s);
    forall o | o in Listed(s) ensures Degree(s.heap, o) > 0 {
      ListedOld(s, o);
      assert multiset(s.gcMap.Keys)[o] == 0;
      assert s.heap.count[o] == Degree(s.heap, o) + Own(s)[o];
      assert Own(s)[o] == 1;
    }
    forall o | o in Listed(t) ensures Reachable(t.heap, o) { AnchoredReachable(s, o); }
  }

  /** What a full collection keeps listed, given that every collector step keeps Step. */
  lemma FullCycleExact(s: GC, t: GC)
    requires Step(s, t) && AllReachable(t)
    ensures forall o :: o in Listed(t) <==> o in Listed(s) && Reachable(s.heap, o)
  {
    SameReach(s.heap, t.heap);
  }
}
