/** Destruction and registration keep the invariant too, and so does every run of interleaved steps. */
module CollectorRuns {
  import opened ObjectHeap
  import opened CollectorSteps
  import opened CollectorSafety

  // ---- The lists ----

  lemma SwapRemoveObjs(s: seq<Entry>, i: int)
    requires 0 <= i < |s|
    ensures multiset(Objs(SwapRemove(s, i))) == multiset(Objs(s)) - multiset{s[i].obj}
  {
    var q, r := Objs(s), Objs(SwapRemove(s, i));
    assert q == q[..i] + [q[i]] + q[i + 1..];
    if i < |s| - 1 {
      var last := |s| - 1;
      assert q[i + 1..] == q[i + 1..last] + [q[last]];
      assert r == q[..i] + [q[last]] + q[i + 1..last];
    } else {
      assert r == q[..i];
    }
  }

  lemma PushObjs(s: seq<Entry>, e: Entry)
    ensures multiset(Objs(s + [e])) == multiset(Objs(s)) + multiset{e.obj}
  {
    assert Objs(s + [e]) == Objs(s) + [e.obj];
  }

  /** The part of Sound that depends on the lists, for a list change that leaves the rest alone. */
  lemma RelistSound(s: GC, h: Heap, t: GC)
    requires Sound(s) && t.heap == h && t.gcMap == s.gcMap && t.cursor == s.cursor && t.detectState == s.detectState && t.detectIdx == s.detectIdx
    requires Accounts(h, Own(t)) && Listed(t) <= Listed(s) && ScanOk(t) && t.newIdx >= -1 && t.oldIdx >= -1
    requires forall o :: o in t.gcMap ==> o in Objs(t.oldObjs)
    ensures Sound(t)
  {
    forall o ensures Listed(t)[o] <= 1 { assert Listed(s)[o] <= 1; }
  }

  lemma RelistPhase(s: GC, t: GC)
    requires Phase(s) && t.heap == s.heap && t.gcMap == s.gcMap && t.cursor == s.cursor && t.detectState == s.detectState && t.live == s.live && t.counted == s.counted
    ensures Phase(t)
  {
    assert Balanced(s) ==> Balanced(t);
    assert forall q :: LooseEnds(s, q) ==> LooseEnds(t, q);
    if s.detectState.VerifyUnmarkedLoop? && Touched(s) {
      var o :| o in s.gcMap && o !in s.heap.flagged && !Visited(s, o);
      assert !Visited(t, o);
    }
  }

  lemma Unreferenced(h: Heap, o: Obj)
    ensures Inner(h)[o] == 0 && h.outside[o] == 0 ==> !Reachable(h, o)
  {
    if Inner(h)[o] == 0 && h.outside[o] == 0 {
      OutMember(h.refs, h.refs.Keys, o);
      IsolatedUnreachable(h, {o});
    }
  }

  /** With one reference, that of the list, an object is neither mapped nor reachable. */
  lemma OnlyListed(s: GC, o: Obj)
    requires Sound(s) && s.heap.count[o] == 1 && o in Listed(s)
    ensures Accounts(s.heap, Own(s)) && o !in s.gcMap && !Reachable(s.heap, o)
  {
    hide Inner, Reachable;
    Unreferenced(s.heap, o);
    assert s.heap.count[o] == Inner(s.heap)[o] + s.heap.outside[o] + Own(s)[o];
    assert multiset(s.gcMap.Keys)[o] == 0;
  }

  lemma DestroyHeap(s: GC, o: Obj)
    requires Sound(s) && s.heap.count[o] == 1 && o in Listed(s)
    ensures var h := Release(s.heap, [o]); Accounts(h, Own(s) - multiset{o}) && SameForApp(s.heap, h) && Calm(s.heap, h, s.gcMap.Keys)
    ensures o !in s.gcMap && !Reachable(s.heap, o)
  {
    hide Inner, Accounts, SameForApp, Calm, Reachable, Release, Sound;
    OnlyListed(s, o);
    var rest := Own(s) - multiset{o};
    assert Own(s) == rest + multiset{o};
    assert multiset([o]) == multiset{o};
    ReleaseLaws(s.heap, [o], rest);
    DestroysSpares(s.heap, Release(s.heap, [o]), rest);
    forall x | x in s.gcMap.Keys ensures x in rest { assert x in multiset(s.gcMap.Keys); }
    ReleaseIsCalm(s.heap, [o], s.gcMap.Keys, rest);
  }

  /** A listed object has gone, and with it the list's reference. */
  ghost predicate Gone(s: GC, o: Obj, t: GC) {
    && t.heap == Release(s.heap, [o]) && Listed(t) == Listed(s) - multiset{o}
    && t.gcMap == s.gcMap && t.cursor == s.cursor && t.detectState == s.detectState && t.detectIdx == s.detectIdx
    && t.live == s.live && t.counted == s.counted
  }

  lemma DestroySound(s: GC, o: Obj, t: GC)
    requires Sound(s) && o in Listed(s) && Gone(s, o, t) && Accounts(t.heap, Own(s) - multiset{o}) && o !in s.gcMap
    requires ScanOk(t) && t.newIdx >= -1 && t.oldIdx >= -1
    requires forall x :: x in s.gcMap && x != o ==> x in Objs(t.oldObjs)
    ensures Sound(t)
  {
    hide SameForApp, Reachable, Accounts, Inner, Out, Calm, Release;
    OwnMinus(Listed(s), multiset(s.gcMap.Keys), o);
    RelistSound(s, t.heap, t);
  }

  /** Destroying a listed object whose only reference is the list's. */
  lemma DestroyListed(s: GC, o: Obj, t: GC)
    requires Inv(s) && s.heap.count[o] == 1 && o in Listed(s) && Gone(s, o, t)
    requires ScanOk(t) && t.newIdx >= -1 && t.oldIdx >= -1
    requires forall x :: x in s.gcMap && x != o ==> x in Objs(t.oldObjs)
    ensures Step(s, t)
  {
    hide Phase, SameForApp, Reachable, Accounts, Inner, Out, Calm, Release, Sound, Listed, ScanOk, Objs;
    DestroyHeap(s, o);
    ChangedPhase(s, t);
    DestroySound(s, o, t);
    LessOne(Listed(s), o);
  }

  lemma LessOne(listed: multiset<Obj>, o: Obj)
    ensures listed - multiset{o} <= listed
    ensures forall x :: x in listed && x != o ==> x in listed - multiset{o}
  {
  }

  lemma OwnMinus(listed: multiset<Obj>, mapped: multiset<Obj>, o: Obj)
    requires o in listed
    ensures listed - multiset{o} + mapped == listed + mapped - multiset{o}
    ensures listed - multiset{o} <= listed
  {
  }

  lemma ChangedPhase(s: GC, t: GC)
    requires Phase(s) && Calm(s.heap, t.heap, s.gcMap.Keys)
    requires t.gcMap == s.gcMap && t.cursor == s.cursor && t.detectState == s.detectState && t.live == s.live && t.counted == s.counted
    ensures Phase(t)
  {
    CalmKeepsPhase(s, t.heap);
    RelistPhase(s.(heap := t.heap), t);
  }

  lemma StepSelf(s: GC)
    requires Inv(s)
    ensures Step(s, s)
  {
    SameForAppSelf(s.heap, s.heap, Own(s));
  }

  /** Steps that only reorganise the lists. */
  lemma RelistStep(s: GC, t: GC)
    requires Inv(s) && t.heap == s.heap && t.gcMap == s.gcMap && t.cursor == s.cursor && t.detectState == s.detectState && t.detectIdx == s.detectIdx && t.live == s.live && t.counted == s.counted
    requires Listed(t) == Listed(s) && ScanOk(t) && t.newIdx >= -1 && t.oldIdx >= -1
    requires forall o :: o in t.gcMap ==> o in Objs(t.oldObjs)
    ensures Step(s, t)
  {
    assert Own(t) == Own(s);
    RelistSound(s, s.heap, t);
    RelistPhase(s, t);
    SameForAppSelf(s.heap, s.heap, Own(s));
  }

  lemma NewNotMapped(s: GC, i: int)
    requires Sound(s) && 0 <= i < |s.newObjs|
    ensures s.newObjs[i].obj !in s.gcMap && s.newObjs[i].obj in Listed(s)
  {
    var o := s.newObjs[i].obj;
    assert Objs(s.newObjs)[i] in multiset(Objs(s.newObjs));
    assert Listed(s)[o] <= 1;
    assert o !in multiset(Objs(s.oldObjs));
  }

  lemma MoveToOldLists(s: GC, i: int, t: GC)
    requires 0 <= i < |s.newObjs| && t.newObjs == SwapRemove(s.newObjs, i) && t.oldObjs == s.oldObjs + [s.newObjs[i]]
    ensures Listed(t) == Listed(s)
    ensures forall o :: o in Objs(s.oldObjs) ==> o in Objs(t.oldObjs)
  {
    SwapRemoveObjs(s.newObjs, i);
    PushObjs(s.oldObjs, s.newObjs[i]);
    assert s.newObjs[i].obj in multiset(Objs(s.newObjs)) by { assert Objs(s.newObjs)[i] in multiset(Objs(s.newObjs)); }
    assert Objs(t.oldObjs) == Objs(s.oldObjs) + [s.newObjs[i].obj];
  }

  lemma MoveToOldKeeps(s: GC, i: int, t: GC)
    requires Inv(s) && 0 <= i < |s.newObjs| && t == MoveToOld(s, i).(newIdx := t.newIdx) && t.newIdx >= -1
    ensures Step(s, t)
  {
    MoveToOldLists(s, i, t);
    NewNotMapped(s, i);
    assert ScanOk(t);
    RelistStep(s, t);
  }

  lemma DestroyNewAt(s: GC, i: int, t: GC)
    requires Inv(s) && 0 <= i < |s.newObjs| && s.heap.count[s.newObjs[i].obj] == 1
    requires t == s.(heap := Release(s.heap, [s.newObjs[i].obj]), newObjs := SwapRemove(s.newObjs, i), newIdx := i - 1, newState := DestroyHaveMore)
    ensures Step(s, t)
  {
    NewNotMapped(s, i);
    SwapRemoveObjs(s.newObjs, i);
    assert s.newObjs[i].obj in multiset(Objs(s.newObjs)) by { assert Objs(s.newObjs)[i] in multiset(Objs(s.newObjs)); }
    assert Listed(t) == Listed(s) - multiset{s.newObjs[i].obj};
    DestroyListed(s, s.newObjs[i].obj, t);
  }

  lemma SameObjsStep(s: GC, t: GC)
    requires Inv(s) && Objs(t.newObjs) == Objs(s.newObjs) && t.newIdx >= -1
    requires t == s.(newObjs := t.newObjs, newIdx := t.newIdx, newState := t.newState)
    ensures Step(s, t)
  {
    RelistStep(s, t);
  }

  lemma DestroyNewPassKeeps(s: GC)
    requires Inv(s)
    ensures Step(s, DestroyNewPass(s).s)
  {
    hide Phase, SameForApp, Reachable;
    var t, i := DestroyNewPass(s).s, s.newIdx + 1;
    if !s.newState.DestroyInit? && 0 <= i < |s.newObjs| {
      var e := s.newObjs[i];
      if s.heap.count[e.obj] == 1 {
        DestroyNewAt(s, i, t);
      } else if e.count == 3 {
        assert t == MoveToOld(s, i).(newIdx := i - 1);
        MoveToOldKeeps(s, i, t);
      } else {
        assert Objs(t.newObjs) == Objs(s.newObjs);
        SameObjsStep(s, t);
      }
    } else {
      SameObjsStep(s, t);
    }
  }

  lemma DestroyNewUnfolds(s: GC)
    ensures match DestroyNewPass(s)
      case Again(t) => DestroyNew(s) == DestroyNew(t) && DestroyRank(t.newState) < DestroyRank(s.newState)
      case Return(t, r) => DestroyNew(s) == (t, r)
  {
  }

  lemma {:induction false} DestroyNewKeeps(s: GC)
    requires Inv(s)
    ensures Step(s, DestroyNew(s).0)
    decreases DestroyRank(s.newState)
  {
    hide Phase, Sound, SameForApp, Reachable, Listed;
    DestroyNewPassKeeps(s);
    DestroyNewUnfolds(s);
    var p := DestroyNewPass(s);
    if p.Again? {
      DestroyNewKeeps(p.s);
      StepTrans(s, p.s, DestroyNew(p.s).0);
    }
  }

  lemma OldRemoved(s: GC, i: int, t: GC)
    requires Sound(s) && 0 <= i < |s.oldObjs| && t.oldObjs == SwapRemove(s.oldObjs, i)
    requires t.gcMap == s.gcMap && t.detectState == s.detectState && t.detectIdx == s.detectIdx
    ensures ScanOk(t)
    ensures forall x :: x in s.gcMap && x != s.oldObjs[i].obj ==> x in Objs(t.oldObjs)
  {
    forall x | x in s.gcMap && x != s.oldObjs[i].obj ensures x in Objs(t.oldObjs) {
      var k :| 0 <= k < |s.oldObjs| && Objs(s.oldObjs)[k] == x;
      if k < |s.oldObjs| - 1 { assert Objs(t.oldObjs)[k] == x; } else { assert Objs(t.oldObjs)[i] == x; }
    }
  }

  lemma DestroyOldAt(s: GC, i: int, t: GC)
    requires Inv(s) && 0 <= i < |s.oldObjs| && s.heap.count[s.oldObjs[i].obj] == 1
    requires t == s.(heap := Release(s.heap, [s.oldObjs[i].obj]), oldObjs := SwapRemove(s.oldObjs, i), oldIdx := i - 1, oldState := DestroyHaveMore)
    ensures Step(s, t)
  {
    hide Phase, SameForApp, Reachable, Accounts, Inner, Out, Release;
    ListedAt(s, i);
    SwapRemoveObjs(s.oldObjs, i);
    assert s.oldObjs[i].obj in multiset(Objs(s.oldObjs)) by { assert Objs(s.oldObjs)[i] in multiset(Objs(s.oldObjs)); }
    assert Listed(t) == Listed(s) - multiset{s.oldObjs[i].obj};
    OldRemoved(s, i, t);
    DestroyListed(s, s.oldObjs[i].obj, t);
  }

  lemma DestroyOldPassKeeps(s: GC)
    requires Inv(s)
    ensures Step(s, DestroyOldPass(s).s)
  {
    hide Phase, SameForApp, Reachable, Accounts, Inner, Out, Release;
    var t, i := DestroyOldPass(s).s, s.oldIdx + 1;
    if !s.oldState.DestroyInit? && 0 <= i < |s.oldObjs| && s.heap.count[s.oldObjs[i].obj] == 1 {
      DestroyOldAt(s, i, t);
    } else {
      RelistStep(s, t);
    }
  }

  lemma DestroyOldUnfolds(s: GC)
    ensures match DestroyOldPass(s)
      case Again(t) => DestroyOld(s) == DestroyOld(t) && DestroyRank(t.oldState) < DestroyRank(s.oldState)
      case Return(t, r) => DestroyOld(s) == (t, r)
  {
  }

  lemma {:induction false} DestroyOldKeeps(s: GC)
    requires Inv(s)
    ensures Step(s, DestroyOld(s).0)
    decreases DestroyRank(s.oldState)
  {
    hide Phase, Sound, SameForApp, Reachable, Listed;
    DestroyOldPassKeeps(s);
    DestroyOldUnfolds(s);
    var p := DestroyOldPass(s);
    if p.Again? {
      DestroyOldKeeps(p.s);
      StepTrans(s, p.s, DestroyOld(p.s).0);
    }
  }

  // ---- Starting a full collection ----

  lemma {:induction false} MoveAllKeeps(s: GC)
    requires Inv(s)
    ensures var t := MoveAllToOld(s);
      Step(s, t) && t.newObjs == [] && |t.oldObjs| == |s.newObjs| + |s.oldObjs| && t.heap == s.heap && Listed(t) == Listed(s)
    ensures MoveAllToOld(s) == s.(newObjs := [], oldObjs := MoveAllToOld(s).oldObjs)
    decreases |s.newObjs|
  {
    hide Phase, Sound, SameForApp, Reachable, Listed;
    if |s.newObjs| == 0 {
      StepSelf(s);
    } else {
      var u := MoveToOld(s, |s.newObjs| - 1);
      NewIndex(s);
      MoveToOldKeeps(s, |s.newObjs| - 1, u);
      MoveToOldLists(s, |s.newObjs| - 1, u);
      MoveAllKeeps(u);
      StepTrans(s, u, MoveAllToOld(s));
    }
  }

  lemma NewIndex(s: GC)
    requires Inv(s)
    ensures s.newIdx >= -1
  {
  }

  /** Abandoning a cycle and starting over is always possible: the map is cleared first. */
  lemma Restart(s: GC, t: GC)
    requires Inv(s)
    requires t == s.(detectState := t.detectState, newState := t.newState, oldState := t.oldState)
    requires t.detectState == s.detectState || t.detectState == ClearCountersInit
    ensures Step(s, t) && Listed(t) == Listed(s)
  {
    if t.detectState == s.detectState { RelistStep(s, t); } else { QuietStep(s, t); }
  }

  lemma StartFullyKeeps(s: GC, doDetect: bool, doDestroy: bool)
    requires Inv(s)
    ensures var t := StartFully(s, doDetect, doDestroy);
      Step(s, t) && t.heap == s.heap && Listed(t) == Listed(s) && (doDetect ==> t.newObjs == [])
  {
    hide Phase, Sound, SameForApp, Reachable, Listed;
    var s0 := if doDetect then MoveAllToOld(s) else s;
    if doDetect { MoveAllKeeps(s); } else { StepSelf(s); }
    Restart(s0, StartFully(s, doDetect, doDestroy));
    StepTrans(s, s0, StartFully(s, doDetect, doDestroy));
  }

  // ---- Registering an object ----

  lemma {:induction false} RepeatDestroyNewKeeps(s: GC, n: nat, t: GC)
    requires Inv(s) && t == RepeatDestroyNew(s, n)
    ensures Step(s, t)
    decreases n
  {
    hide Phase, Sound, SameForApp, Reachable, Listed;
    if n == 0 {
      StepSelf(s);
    } else {
      var u := RepeatDestroyNew(s, n - 1);
      RepeatDestroyNewKeeps(s, n - 1, u);
      DestroyNewKeeps(u);
      StepTrans(s, u, t);
    }
  }

  lemma AutoCollectKeeps(s: GC)
    requires Inv(s)
    ensures Step(s, AutoCollect(s))
  {
    hide Phase, Sound, SameForApp, Reachable, Listed;
    var s1 := if |s.oldObjs| > 0 then DestroyOld(Identify(s).0).0 else s;
    if |s.oldObjs| > 0 {
      IdentifyKeeps(s);
      DestroyOldKeeps(Identify(s).0);
      StepTrans(s, Identify(s).0, s1);
    } else {
      StepSelf(s);
    }
    var n := if |s1.newObjs| > 10 then 10 else |s1.newObjs|;
    RepeatDestroyNewKeeps(s1, n, RepeatDestroyNew(s1, n));
    StepTrans(s, s1, RepeatDestroyNew(s1, n));
  }

  /** The application steps on the whole state. */
  lemma AppKeeps(s: GC, a: Action)
    requires Inv(s) && Allowed(s.heap, a)
    ensures Inv(s.(heap := Mutate(s.heap, a)))
  {
    var t := s.(heap := Mutate(s.heap, a));
    forall x | x in s.gcMap.Keys ensures x in Own(s) { assert x in multiset(s.gcMap.Keys); }
    MutateLaws(s.heap, a, Own(s), s.gcMap.Keys);
    CalmKeepsPhase(s, t.heap);
    assert Own(t) == Own(s);
    RelistSound(s, t.heap, t);
  }

  lemma PushSound(s: GC, o: Obj, t: GC)
    requires Sound(s) && o in s.heap.outside && o !in Listed(s)
    requires t == s.(heap := s.heap.(outside := s.heap.outside - multiset{o}), newObjs := s.newObjs + [Entry(o, 0)])
    ensures Sound(t)
  {
    PushListed(s, o, t);
    HandOver(s.heap, o, Own(s));
    forall x ensures Listed(t)[x] <= 1 { assert Listed(s)[x] <= 1; }
  }

  lemma PushListed(s: GC, o: Obj, t: GC)
    requires t.newObjs == s.newObjs + [Entry(o, 0)] && t.oldObjs == s.oldObjs && t.gcMap == s.gcMap
    ensures Listed(t) == Listed(s) + multiset{o}
    ensures Own(t) == Own(s) + multiset{o}
  {
    PushObjs(s.newObjs, Entry(o, 0));
  }

  lemma HandOver(h: Heap, o: Obj, own: multiset<Obj>)
    requires Accounts(h, own) && o in h.outside
    ensures Accounts(h.(outside := h.outside - multiset{o}), own + multiset{o})
  {
    assert Inner(h.(outside := h.outside - multiset{o})) == Inner(h);
  }

  /** Pushing the entry turns the caller's temporary reference into the list's. */
  lemma PushKeeps(s: GC, o: Obj, t: GC)
    requires Inv(s) && o in s.heap.outside && o !in Listed(s)
    requires t == s.(heap := s.heap.(outside := s.heap.outside - multiset{o}), newObjs := s.newObjs + [Entry(o, 0)])
    ensures Inv(t)
  {
    PushSound(s, o, t);
    forall x | x in s.gcMap ensures x != o { assert x in multiset(Objs(s.oldObjs)); }
    HandOverCalm(s.heap, o, s.gcMap.Keys);
    ChangedPhase(s, t);
  }

  lemma HandOverCalm(h: Heap, o: Obj, m: set<Obj>)
    requires o !in m
    ensures Calm(h, h.(outside := h.outside - multiset{o}), m)
  {
  }

  lemma AddObjectKeeps(s: GC, o: Obj, autoCollect: bool)
    requires Inv(s) && Reachable(s.heap, o) && o !in Listed(s)
    ensures Inv(AddObject(s, o, autoCollect)) && SameForApp(s.heap, AddObject(s, o, autoCollect).heap)
  {
    hide Phase, Sound, SameForApp, Reachable;
    var s1 := s.(heap := Mutate(s.heap, Copy(o)));
    AppKeeps(s, Copy(o));
    assert Listed(s1) == Listed(s);
    var s2 := if autoCollect && |s1.newObjs| > 0 then AutoCollect(s1) else s1;
    if autoCollect && |s1.newObjs| > 0 { AutoCollectKeeps(s1); } else { StepSelf(s1); }
    var t := AddObject(s, o, autoCollect);
    HeldStays(s.heap, s1.heap, s2.heap, o);
    PushKeeps(s2, o, t);
    HandedBack(s.heap, s1.heap, s2.heap, t.heap, o);
  }

  lemma HeldStays(h: Heap, h1: Heap, h2: Heap, o: Obj)
    requires h1.outside == h.outside + multiset{o} && SameForApp(h1, h2)
    ensures o in h2.outside
  {
  }

  /** What the application can reach is the same with a reference more and without it again. */
  lemma HandedBack(h: Heap, h1: Heap, h2: Heap, h3: Heap, o: Obj)
    requires h1.outside == h.outside + multiset{o} && h1.refs == h.refs && SameForApp(h1, h2)
    requires h3.outside == h2.outside - multiset{o} && h3.refs == h2.refs
    ensures SameForApp(h, h3)
  {
    assert h3.outside == h.outside;
    forall x {:trigger Reachable(h, x)} | Reachable(h, x) ensures x in h.refs && x in h3.refs && h.refs[x] == h3.refs[x] {
      var path :| Path(h, path) && path[|path| - 1] == x;
      assert Path(h1, path);
      assert Reachable(h1, x);
    }
  }

  // ---- Runs ----

  /** Detect is a single pass through the detection switch, so application steps may come between any two passes;
      a call of IdentifyGarbageWithCyclicRefs is a sequence of them, and a full collection is its start followed by
      passes and destruction steps. */
  datatype Event =
    | Detect | DestroyNewStep | DestroyOldStep | BeginFully(doDetect: bool, doDestroy: bool)
    | Register(o: Obj, autoCollect: bool) | App(a: Action)
  {
    predicate OfCollector() { !App? }
  }

  ghost predicate Enabled(s: GC, e: Event) {
    match e
    case Register(o, _) => Reachable(s.heap, o) && o !in Listed(s)
    case App(a) => Allowed(s.heap, a)
    case _ => true
  }

  function After(s: GC, e: Event): GC {
    match e
    case Detect => DetectPass(s).s
    case DestroyNewStep => DestroyNew(s).0
    case DestroyOldStep => DestroyOld(s).0
    case BeginFully(doDetect, doDestroy) => StartFully(s, doDetect, doDestroy)
    case Register(o, autoCollect) => AddObject(s, o, autoCollect)
    case App(a) => s.(heap := Mutate(s.heap, a))
  }

  /** A collector that has just been constructed, over any heap with exact counters. */
  ghost predicate Start(s: GC) {
    && Accounts(s.heap, multiset{})
    && s.newObjs == [] && s.oldObjs == [] && s.gcMap == map[]
    && s.detectState.ClearCountersInit? && s.newState.DestroyInit? && s.oldState.DestroyInit?
    && s.newIdx >= -1 && s.oldIdx >= -1
  }

  ghost predicate Run(states: seq<GC>, events: seq<Event>) {
    && |states| == |events| + 1
    && Start(states[0])
    && forall i {:trigger events[i]} :: 0 <= i < |events| ==> Enabled(states[i], events[i]) && states[i + 1] == After(states[i], events[i])
  }

  lemma StartInv(s: GC)
    requires Start(s)
    ensures Inv(s)
  {
    assert Objs(s.newObjs) == [] && Objs(s.oldObjs) == [];
    assert multiset(s.gcMap.Keys) == multiset{};
    assert Own(s) == multiset{};
  }

  lemma AfterKeeps(s: GC, e: Event)
    requires Inv(s) && Enabled(s, e)
    ensures Inv(After(s, e))
    ensures e.OfCollector() ==> SameForApp(s.heap, After(s, e).heap)
  {
    match e
    case Detect => DetectPassKeeps(s);
    case DestroyNewStep => DestroyNewKeeps(s);
    case DestroyOldStep => DestroyOldKeeps(s);
    case BeginFully(doDetect, doDestroy) => StartFullyKeeps(s, doDetect, doDestroy);
    case Register(o, autoCollect) => AddObjectKeeps(s, o, autoCollect);
    case App(a) => AppKeeps(s, a);
  }

  lemma {:induction false} RunInv(states: seq<GC>, events: seq<Event>, i: nat)
    requires Run(states, events) && i < |states|
    ensures Inv(states[i])
    decreases i
  {
    if i == 0 {
      StartInv(states[0]);
    } else {
      RunInv(states, events, i - 1);
      assert states[i - 1 + 1] == After(states[i - 1], events[i - 1]);
      AfterKeeps(states[i - 1], events[i - 1]);
    }
  }

  /** When the collector decides to break circles, every reference to a mapped object is held by a mapped object,
      and this stays so while they are being broken: what is broken is out of the application's reach. */
  lemma BrokenObjectsAreGarbage(states: seq<GC>, events: seq<Event>, i: nat)
    requires Run(states, events) && i < |states|
    requires var d := states[i].detectState; d.BreakCirclesInit? || d.BreakCirclesLoop? || d.BreakCirclesHaveGarbage?
    ensures Isolated(states[i].heap, states[i].gcMap.Keys)
    ensures forall o :: o in states[i].gcMap ==> !Reachable(states[i].heap, o)
    ensures states[i].cursor.Some? && !states[i].detectState.BreakCirclesInit? ==> !Reachable(states[i].heap, states[i].cursor.value)
  {
    hide Run, Isolated, Reachable, Accounts;
    RunInv(states, events, i);
    IsolatedUnreachable(states[i].heap, states[i].gcMap.Keys);
  }

  /** No collector step takes away anything the application can reach, or a reference held by it. */
  lemma CollectorNeverDisturbsLive(states: seq<GC>, events: seq<Event>, i: nat)
    requires Run(states, events) && i < |events|
    requires events[i].OfCollector()
    ensures SameForApp(states[i].heap, states[i + 1].heap)
    ensures forall o :: Reachable(states[i].heap, o) <==> Reachable(states[i + 1].heap, o)
  {
    RunInv(states, events, i);
    AfterKeeps(states[i], events[i]);
    SameReach(states[i].heap, states[i + 1].heap);
  }

  /** In every reachable state each counter is the references in the heap, plus those outside, plus one if the object
      is listed, plus one if it is mapped; objects are listed at most once and mapped objects are listed and live. */
  lemma CountersAreExact(states: seq<GC>, events: seq<Event>, i: nat, o: Obj)
    requires Run(states, events) && i < |states|
    ensures var s := states[i];
      && s.heap.count[o] == Inner(s.heap)[o] + s.heap.outside[o] + Listed(s)[o] + (if o in s.gcMap then 1 else 0)
      && Listed(s)[o] <= 1
      && (o in s.gcMap ==> o in s.heap.refs && Listed(s)[o] == 1)
  {
    RunInv(states, events, i);
    var s := states[i];
    assert Own(s)[o] == Listed(s)[o] + multiset(s.gcMap.Keys)[o];
    if o in s.gcMap {
      assert o in multiset(Objs(s.oldObjs));
      assert o in s.heap.count;
    }
  }
}
