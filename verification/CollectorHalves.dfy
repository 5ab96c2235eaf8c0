/** What a full collection achieves when only one of its halves is asked for: detection without destruction breaks exactly what no
    anchor leads to, destruction without detection ends with nothing that the lists alone refer to. */
module CollectorHalves {
  import opened Options
  import opened ObjectHeap
  import opened CollectorSteps
  import opened CollectorSafety
  import opened CollectorRuns
  import opened CollectorComplete

  // ---- Detection keeps what is anchored ----

  predicate Breaking(d: DetectState) { d.BreakCirclesLoop? || d.BreakCirclesHaveGarbage? }

  /** Since s0 no list has changed, no reference was added, and what was anchored then holds what it held; it is not among what is
      being broken. */
  ghost predicate KeepsAnchored(s0: GC, s: GC) {
    && s.newObjs == s0.newObjs && s.oldObjs == s0.oldObjs && s.heap.outside == s0.heap.outside && Shrinks(s0.heap, s.heap)
    && (forall o :: Anchored(s0, o) ==> Held(s.heap.refs, o) == Held(s0.heap.refs, o))
    && (Breaking(s.detectState) ==> forall o :: Anchored(s0, o) ==> o !in s.gcMap)
  }

  lemma ShrinksInner(h1: Heap, h2: Heap, o: Obj)
    requires Shrinks(h1, h2) && Inner(h1)[o] == 0
    ensures Inner(h2)[o] == 0
  {
    OutMember(h1.refs, h1.refs.Keys, o);
    OutMember(h2.refs, h2.refs.Keys, o);
    assert forall p :: o !in Held(h1.refs, p);
  }

  /** An anchor stays one. */
  lemma AnchorStays(s0: GC, s: GC, o: Obj)
    requires s.newObjs == s0.newObjs && s.oldObjs == s0.oldObjs && s.heap.outside == s0.heap.outside && Shrinks(s0.heap, s.heap)
    requires Anchor(s0, o)
    ensures Anchor(s, o)
  {
    if o in Listed(s0) && Degree(s0.heap, o) == 0 { ShrinksInner(s0.heap, s.heap, o); }
  }

  lemma {:induction false} PrefixPath(s: GC, path: seq<Obj>)
    requires AnchorPath(s, path) && |path| > 1
    ensures AnchorPath(s, path[..|path| - 1]) && Anchored(s, path[|path| - 2])
    ensures path[|path| - 1] in Held(s.heap.refs, path[|path| - 2])
  {
    var init := path[..|path| - 1];
    assert AnchorPath(s, init) && init[|init| - 1] == path[|path| - 2];
    assert path[|path| - 2 + 1] in Held(s.heap.refs, path[|path| - 2]);
  }

  lemma {:induction false} AnchoredStays(s0: GC, s: GC, path: seq<Obj>)
    requires KeepsAnchored(s0, s) && AnchorPath(s0, path)
    ensures Anchored(s, path[|path| - 1])
    decreases |path|
  {
    if |path| == 1 {
      AnchorStays(s0, s, path[0]);
      AnchorIs(s, path[0]);
    } else {
      PrefixPath(s0, path);
      AnchoredStays(s0, s, path[..|path| - 1]);
      AnchorNext(s, path[|path| - 2], path[|path| - 1]);
    }
  }

  /** An isolated map whose objects are all referenced has nothing anchored in it. */
  lemma {:induction false} NotInMap(s0: GC, s: GC, path: seq<Obj>)
    requires KeepsAnchored(s0, s) && AnchorPath(s0, path) && Sound(s) && Isolated(s.heap, s.gcMap.Keys) && Referenced(s)
    ensures path[|path| - 1] !in s.gcMap
    decreases |path|
  {
    if |path| == 1 {
      AnchorStays(s0, s, path[0]);
      if path[0] in Objs(s.newObjs) {
        var i :| 0 <= i < |s.newObjs| && Objs(s.newObjs)[i] == path[0];
        NewNotMapped(s, i);
      }
    } else {
      PrefixPath(s0, path);
      NotInMap(s0, s, path[..|path| - 1]);
    }
  }

  /** Nothing anchored is destroyed while other objects release what they hold. */
  lemma {:induction false} NotDestroyed(s0: GC, s: GC, h1: Heap, h2: Heap, path: seq<Obj>)
    requires KeepsAnchored(s0, s) && AnchorPath(s0, path) && Destroys(h1, h2) && Accounts(h2, Own(s)) && h1.outside == s.heap.outside
    requires forall p :: Anchored(s0, p) ==> Held(h1.refs, p) == Held(s.heap.refs, p)
    ensures path[|path| - 1] in h2.refs && Held(h2.refs, path[|path| - 1]) == Held(s0.heap.refs, path[|path| - 1])
    decreases |path|
  {
    var o := path[|path| - 1];
    assert Anchored(s0, o);
    if |path| == 1 {
      assert o in h2.outside || o in Own(s);
      assert o in h2.count;
    } else {
      PrefixPath(s0, path);
      NotDestroyed(s0, s, h1, h2, path[..|path| - 1]);
      OutMember(h2.refs, h2.refs.Keys, o);
      assert o in h2.count;
    }
  }

  lemma BreakKeepsAnchored(s0: GC, s: GC, o: Obj, t: GC)
    requires Inv(s) && KeepsAnchored(s0, s) && Breaking(s.detectState) && s.cursor == Some(o) && t == BreakCircles(s).s
    ensures KeepsAnchored(s0, t)
  {
    hide Anchored, Reachable, SameForApp, Accounts, Destroys, ReleaseAllReferences;
    BreakAt(s, o, t);
    var h1 := s.heap.(refs := s.heap.refs[o := []]);
    BreakShrinks(s.heap, o, Own(s), s.gcMap.Keys) by { InOwn(s, o); }
    forall a | Anchored(s0, a) ensures Held(t.heap.refs, a) == Held(s0.heap.refs, a) {
      var path := PathTo(s0, a);
      NotDestroyed(s0, s, h1, t.heap, path);
    }
    ShrinksTrans(s0.heap, s.heap, t.heap);
  }

  lemma ShrinksTrans(h1: Heap, h2: Heap, h3: Heap)
    requires Shrinks(h1, h2) && Shrinks(h2, h3)
    ensures Shrinks(h1, h3)
  {
  }

  lemma InOwn(s: GC, o: Obj)
    requires Sound(s) && o in s.gcMap
    ensures o in Own(s) && o in s.heap.refs && Accounts(s.heap, Own(s))
  {
    assert o in multiset(s.gcMap.Keys);
    assert o in s.heap.count;
  }

  lemma BreakAt(s: GC, o: Obj, t: GC)
    requires Inv(s) && Breaking(s.detectState) && s.cursor == Some(o) && t == BreakCircles(s).s
    ensures o in s.gcMap && Isolated(s.heap, s.gcMap.Keys) && t.heap == ReleaseAllReferences(s.heap, o)
    ensures t.newObjs == s.newObjs && t.oldObjs == s.oldObjs && t.gcMap == s.gcMap && t.heap.outside == s.heap.outside
    ensures Destroys(s.heap.(refs := s.heap.refs[o := []]), t.heap) && Accounts(t.heap, Own(s))
  {
    hide SameForApp, Accounts, ReleaseAllReferences;
    InOwn(s, o);
    ReleaseAllLaws(s.heap, o, Own(s), s.gcMap.Keys);
  }

  lemma PathTo(s: GC, o: Obj) returns (path: seq<Obj>)
    requires Anchored(s, o)
    ensures AnchorPath(s, path) && path[|path| - 1] == o
  {
    path :| AnchorPath(s, path) && path[|path| - 1] == o;
  }

  lemma SameGraphKeeps(s0: GC, s: GC, t: GC)
    requires KeepsAnchored(s0, s) && SameGraph(s.heap, t.heap) && t.newObjs == s.newObjs && t.oldObjs == s.oldObjs
    requires Breaking(t.detectState) ==> forall o :: Anchored(s0, o) ==> o !in t.gcMap
    ensures KeepsAnchored(s0, t)
  {
  }

  /** The passes that break nothing leave all references alone. */
  lemma PassSameGraph(s: GC)
    requires Inv(s) && !(Breaking(s.detectState) && s.cursor.Some?)
    ensures var t := DetectPass(s).s; SameGraph(s.heap, t.heap) && t.newObjs == s.newObjs && t.oldObjs == s.oldObjs
  {
    hide Inv, Sound, DetectPass, SameGraph;
    InvSound(s);
    if s.detectState.ClearCountersLoop? { ClearSameGraph(s); }
    else if s.detectState.DetectGarbageLoop2? { RemoveSameGraph(s); }
    else { OtherSameGraph(s); }
  }

  lemma ClearSameGraph(s: GC)
    requires Sound(s) && s.detectState.ClearCountersLoop?
    ensures var t := DetectPass(s).s; SameGraph(s.heap, t.heap) && t.newObjs == s.newObjs && t.oldObjs == s.oldObjs
  {
    hide Sound, Release;
    var c := AtOrAfter(s.gcMap.Keys, 0);
    if c.Some? { UnmapSameGraph(s, c.value); }
  }

  lemma RemoveSameGraph(s: GC)
    requires Sound(s) && s.detectState.DetectGarbageLoop2?
    ensures var t := DetectPass(s).s; SameGraph(s.heap, t.heap) && t.newObjs == s.newObjs && t.oldObjs == s.oldObjs
  {
    hide Sound, Release;
    if |s.live| > 0 && s.live[|s.live| - 1] in s.gcMap { UnmapSameGraph(s, s.live[|s.live| - 1]); }
  }

  lemma OtherSameGraph(s: GC)
    requires !(Breaking(s.detectState) && s.cursor.Some?) && !s.detectState.ClearCountersLoop? && !s.detectState.DetectGarbageLoop2?
    ensures var t := DetectPass(s).s; SameGraph(s.heap, t.heap) && t.newObjs == s.newObjs && t.oldObjs == s.oldObjs
  {
  }

  lemma InvSound(s: GC)
    requires Inv(s)
    ensures Sound(s)
  {
  }

  lemma UnmapSameGraph(s: GC, o: Obj)
    requires Sound(s) && o in s.gcMap
    ensures SameGraph(s.heap, Release(s.heap, [o]))
  {
    Unmap(s, o);
  }

  lemma PassKeepsAnchored(s0: GC, s: GC)
    requires Inv(s) && Quiet(s) && KeepsAnchored(s0, s)
    ensures KeepsAnchored(s0, DetectPass(s).s)
  {
    hide Anchored, SameGraph, SameForApp, Reachable, KeepsAnchored, DetectPass;
    var t := DetectPass(s).s;
    if Breaking(s.detectState) && s.cursor.Some? {
      BreakPass(s);
      BreakKeepsAnchored(s0, s, s.cursor.value, t);
    } else {
      PassSameGraph(s);
      BreaksSame(s);
      if s.detectState.BreakCirclesInit? { InitNotInMap(s0, s); }
      SameGraphKeeps(s0, s, t);
    }
  }

  lemma BreakPass(s: GC)
    requires Breaking(s.detectState)
    ensures DetectPass(s) == BreakCircles(s)
  {
  }

  lemma InitNotInMap(s0: GC, s: GC)
    requires Inv(s) && Quiet(s) && KeepsAnchored(s0, s) && s.detectState.BreakCirclesInit?
    ensures forall o :: Anchored(s0, o) ==> o !in s.gcMap
  {
    hide Anchored, KeepsAnchored;
    forall o | Anchored(s0, o) ensures o !in s.gcMap {
      var path := PathTo(s0, o);
      NotInMap(s0, s, path);
    }
  }

  lemma BreaksSame(s: GC)
    requires !(Breaking(s.detectState) && s.cursor.Some?)
    ensures var t := DetectPass(s).s; Breaking(t.detectState) ==> s.detectState.BreakCirclesInit? && t.gcMap == s.gcMap
  {
  }

  lemma {:induction false} IdentifyKeepsAnchored(s0: GC, s: GC)
    requires Inv(s) && Quiet(s) && KeepsAnchored(s0, s)
    ensures KeepsAnchored(s0, Identify(s).0)
    decreases Rank(s.detectState)
  {
    hide Phase, Sound, Quiet, SameForApp, KeepsAnchored;
    DetectPassKeeps(s);
    DetectPassQuiet(s);
    PassKeepsAnchored(s0, s);
    AgainDescends(s);
    IdentifyUnfolds(s);
    var p := DetectPass(s);
    if p.Again? { IdentifyKeepsAnchored(s0, p.s); }
  }

  lemma KeepsSelf(s: GC)
    requires !Breaking(s.detectState)
    ensures KeepsAnchored(s, s)
  {
  }

  lemma KeepsTrans(s0: GC, s: GC, t: GC)
    requires KeepsAnchored(s0, s) && KeepsAnchored(s, t)
    ensures KeepsAnchored(s0, t)
  {
    hide Anchored;
    forall o | Anchored(s0, o) ensures Anchored(s, o) {
      var path := PathTo(s0, o);
      AnchoredStays(s0, s, path);
    }
  }

  lemma QuietAtFirst(s: GC)
    requires s.detectState.ClearCountersInit?
    ensures Quiet(s)
  {
  }

  lemma DoneAtFirst(s: GC)
    requires Done(s)
    ensures s.detectState.ClearCountersInit? && s.gcMap == map[]
  {
  }

  lemma PassSameLists(s: GC)
    ensures var t := DetectPass(s).s;
      && t.newObjs == s.newObjs && t.oldObjs == s.oldObjs
      && (t.newState, t.newIdx, t.oldState, t.oldIdx) == (s.newState, s.newIdx, s.oldState, s.oldIdx)
  {
  }

  lemma {:induction false} IdentifySameLists(s: GC)
    ensures Identify(s).0.newObjs == s.newObjs && Identify(s).0.oldObjs == s.oldObjs
    ensures (Identify(s).0.newState, Identify(s).0.newIdx, Identify(s).0.oldState, Identify(s).0.oldIdx) == (s.newState, s.newIdx, s.oldState, s.oldIdx)
    decreases Rank(s.detectState)
  {
    AgainDescends(s);
    IdentifyUnfolds(s);
    PassSameLists(s);
    hide DetectPass;
    var p := DetectPass(s);
    if p.Again? { IdentifySameLists(p.s); }
  }

  // ---- A circle that detection leaves ----

  /** Object 1, which the list alone refers to, holds 2, and 2 and 3 hold each other. */
  function CircleBehind(): GC {
    GC(Heap(map[1 := [2], 2 := [3], 3 := [2]], multiset([2]) + (multiset([3]) + multiset([2])) + multiset([1, 2, 3]), multiset{}, {}),
       [], [Entry(1, 0), Entry(2, 0), Entry(3, 0)], map[], None, [], ClearCountersInit, 0, DestroyInit, -1, DestroyInit, -1, {})
  }

  lemma CircleOut(refs: map<Obj, seq<Obj>>)
    requires Held(refs, 1) == [2] && Held(refs, 2) == [3] && Held(refs, 3) == [2]
    ensures Out(refs, {1, 2, 3}) == multiset([2]) + (multiset([3]) + multiset([2]))
  {
    hide Out;
    OutTake(refs, {1, 2, 3}, 1);
    assert {1, 2, 3} - {1} == {2, 3};
    OutTake(refs, {2, 3}, 2);
    assert {2, 3} - {2} == {3};
    OutTake(refs, {3}, 3);
    assert {3} - {3} == {};
    NoneOut(refs);
  }

  lemma NoneOut(refs: map<Obj, seq<Obj>>)
    ensures Out(refs, {}) == multiset{}
  {
  }

  lemma CircleInv(s: GC)
    requires s == CircleBehind()
    ensures Inv(s) && Listed(s) == multiset([1, 2, 3]) && Inner(s.heap) == multiset([2]) + (multiset([3]) + multiset([2]))
  {
    hide Out, Accounts;
    CircleOut(s.heap.refs);
    assert s.heap.refs.Keys == {1, 2, 3};
    CircleListed(s);
    assert Own(s) == Listed(s) by { assert multiset(s.gcMap.Keys) == multiset{}; }
    CircleAccounts(s.heap, Own(s));
  }

  lemma CircleListed(s: GC)
    requires s == CircleBehind()
    ensures Listed(s) == multiset([1, 2, 3]) && forall o :: Listed(s)[o] <= 1
  {
    assert Objs(s.newObjs) == [] && Objs(s.oldObjs) == [1, 2, 3];
  }

  lemma CircleAccounts(h: Heap, own: multiset<Obj>)
    requires h == CircleBehind().heap && own == multiset([1, 2, 3]) && Inner(h) == multiset([2]) + (multiset([3]) + multiset([2]))
    ensures Accounts(h, own)
  {
    hide Inner;
  }

  /** All of it is garbage, and the circle of 2 and 3 is anchored by 1: so detection alone leaves it, however often it runs. */
  lemma CircleStays(s: GC)
    requires s == CircleBehind()
    ensures Inv(s) && Managed(s) && s.detectState.ClearCountersInit? && forall o :: !Reachable(s.heap, o)
    ensures 3 in Held(s.heap.refs, 2) && 2 in Held(s.heap.refs, 3) && Anchored(s, 2) && Anchored(s, 3)
  {
    hide Inv, Inner, Anchored, Out;
    CircleInv(s);
    assert Closed(s.heap, iset{});
    ReachableInClosed(s.heap, iset{});
    AnchorIs(s, 1);
    AnchorNext(s, 1, 2);
    AnchorNext(s, 2, 3);
  }

  // ---- Destruction without detection ----

  /** The new objects a sweep without destruction has looked at so far are referenced by more than the list. */
  ghost predicate NewScanned(s: GC) {
    s.newIdx >= -1 && (s.newState.DestroyLoop? ==> forall k :: 0 <= k <= s.newIdx && k < |s.newObjs| ==> s.heap.count[s.newObjs[k].obj] != 1)
  }

  /** DestroyNewGarbage, called over and over: it changes nothing about references unless it destroys, and ends only when no new
      object has the list's reference alone. */
  lemma {:induction false} DestroyNewScans(s: GC, t: GC, r: int)
    requires NewScanned(s) && (t, r) == DestroyNew(s)
    ensures |t.newObjs| + |t.oldObjs| <= |s.newObjs| + |s.oldObjs|
    ensures |t.newObjs| + |t.oldObjs| == |s.newObjs| + |s.oldObjs| ==> t.heap == s.heap
    ensures r == 1 ==> NewScanned(t)
    ensures r == 0 ==> forall k :: 0 <= k < |t.newObjs| ==> t.heap.count[t.newObjs[k].obj] != 1
    ensures t.oldState == s.oldState && t.oldIdx == s.oldIdx && t.gcMap == s.gcMap && t.detectState == s.detectState
    decreases DestroyRank(s.newState)
  {
    DestroyNewUnfolds(s);
    var p := DestroyNewPass(s);
    if p.Again? { DestroyNewScans(p.s, t, r); }
  }

  /** No listed object is referenced by the collector's lists alone. */
  ghost predicate NoneAlone(s: GC) {
    forall o :: o in Listed(s) ==> s.heap.count[o] != 1
  }

  lemma NoneAloneIs(s: GC)
    requires forall k :: 0 <= k < |s.newObjs| ==> s.heap.count[s.newObjs[k].obj] != 1
    requires forall k :: 0 <= k < |s.oldObjs| ==> s.heap.count[s.oldObjs[k].obj] != 1
    ensures NoneAlone(s)
  {
    forall o | o in Listed(s) ensures s.heap.count[o] != 1 {
      if o in multiset(Objs(s.newObjs)) {
        var k :| 0 <= k < |s.newObjs| && Objs(s.newObjs)[k] == o;
      } else {
        assert o in multiset(Objs(s.oldObjs));
        var k :| 0 <= k < |s.oldObjs| && Objs(s.oldObjs)[k] == o;
      }
    }
  }

  // ---- All objects old ----

  /** Every new object taken for an old one, as when a full collection with detection begins. */
  function AllOld(s: GC): GC { s.(newObjs := [], oldObjs := s.oldObjs + s.newObjs) }

  lemma SameAnchors(s: GC, t: GC)
    requires s.newObjs == [] && t.newObjs == [] && Listed(s) == Listed(t) && s.heap == t.heap
    ensures forall o :: Anchored(s, o) <==> Anchored(t, o)
  {
    assert forall o :: Anchor(s, o) <==> Anchor(t, o);
    forall o ensures Anchored(s, o) <==> Anchored(t, o) {
      if Anchored(s, o) { var path := PathTo(s, o); assert AnchorPath(t, path); }
      if Anchored(t, o) { var path := PathTo(t, o); assert AnchorPath(s, path); }
    }
  }

  lemma ManagedSame(s: GC, t: GC)
    requires s.heap == t.heap && Listed(s) == Listed(t)
    ensures Managed(s) == Managed(t)
  {
  }

  lemma AllOldListed(s: GC)
    ensures Listed(AllOld(s)) == Listed(s)
  {
    assert Objs(s.oldObjs + s.newObjs) == Objs(s.oldObjs) + Objs(s.newObjs);
    assert Objs([]) == [];
  }

  /** From before a collection to after it, when all objects have been made old in between. */
  lemma KeptSince(s0: GC, s: GC, t: GC)
    requires s.newObjs == [] && Listed(s) == Listed(s0) && s.heap == s0.heap && KeepsAnchored(s, t)
    ensures Listed(t) == Listed(s0) && (Managed(s0) ==> Managed(t))
    ensures forall o :: Anchored(AllOld(s0), o) ==> Held(t.heap.refs, o) == Held(s0.heap.refs, o)
  {
    AllOldListed(s0);
    SameAnchors(AllOld(s0), s);
  }
}
