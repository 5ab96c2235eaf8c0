/** What registering objects achieves: each registration takes detection and destruction further, and garbage that a sweep has still to
    come to is destroyed after a number of registrations that can be told beforehand. */
module CollectorProgress {
  import opened Options
  import opened ObjectHeap
  import opened CollectorSteps
  import opened CollectorSafety
  import opened CollectorRuns
  import opened CollectorComplete
  import opened CollectorHalves

  // ---- One registration ----

  lemma {:induction false} OldAdvances(s: GC, t: GC, r: int)
    requires s.oldIdx >= -1 && (t, r) == DestroyOld(s)
    ensures r == 0 || r == 1
    ensures r == 1 ==> OldLess(s, t)
    ensures r == 0 ==> t.oldState.DestroyInit?
    ensures t.newObjs == s.newObjs && t.newState == s.newState && t.newIdx == s.newIdx && t.oldIdx >= -1
    ensures (t.detectState, t.detectIdx, t.gcMap, t.cursor, t.live, t.counted) ==
            (s.detectState, s.detectIdx, s.gcMap, s.cursor, s.live, s.counted)
    decreases DestroyRank(s.oldState)
  {
    DestroyOldUnfolds(s);
    var p := DestroyOldPass(s);
    if p.Again? { OldAdvances(p.s, t, r); }
  }

  lemma {:induction false} NewAdvances(s: GC, t: GC, r: int)
    requires s.newIdx >= -1 && (t, r) == DestroyNew(s)
    ensures r == 0 || r == 1
    ensures r == 1 ==> NewLess(s, t)
    ensures r == 0 ==> t.newState.DestroyInit?
    ensures t.newIdx >= -1 && t.oldState == s.oldState && t.oldIdx == s.oldIdx && s.oldObjs <= t.oldObjs
    ensures (t.detectState, t.detectIdx, t.gcMap, t.cursor, t.live, t.counted) ==
            (s.detectState, s.detectIdx, s.gcMap, s.cursor, s.live, s.counted)
    decreases DestroyRank(s.newState)
  {
    DestroyNewUnfolds(s);
    var p := DestroyNewPass(s);
    if p.Again? { NewAdvances(p.s, t, r); }
  }

  /** The k-th of the destruction steps that follow gets on, too. */
  lemma {:induction false} RepeatAdvances(s: GC, n: nat, t: GC)
    requires s.newIdx >= -1 && t == RepeatDestroyNew(s, n)
    ensures t.newIdx >= -1 && t.oldState == s.oldState && t.oldIdx == s.oldIdx && s.oldObjs <= t.oldObjs
    ensures (t.detectState, t.detectIdx, t.gcMap, t.cursor, t.live, t.counted) ==
            (s.detectState, s.detectIdx, s.gcMap, s.cursor, s.live, s.counted)
    ensures forall k: nat :: k < n ==>
      var a, b := RepeatDestroyNew(s, k), RepeatDestroyNew(s, k + 1); NewLess(a, b) || b.newState.DestroyInit?
    decreases n
  {
    if n > 0 {
      var u := RepeatDestroyNew(s, n - 1);
      RepeatAdvances(s, n - 1, u);
      NewAdvances(u, DestroyNew(u).0, DestroyNew(u).1);
    }
  }

  /** With new and old objects listed, registering one more takes detection one returning pass further - its measure goes down, or the
      cycle ends - and the sweep of the old objects one object, or to its end; then up to ten steps do the same for the new ones. */
  lemma RegistrationAdvances(s: GC, o: Obj, s1: GC, m: GC, u: GC, t: GC)
    requires Inv(s) && Reachable(s.heap, o) && o !in Listed(s) && s.newObjs != [] && s.oldObjs != []
    requires s1 == s.(heap := Mutate(s.heap, Copy(o))) && m == Identify(s1).0 && u == DestroyOld(m).0 && t == AddObject(s, o, true)
    ensures Quiet(s1) ==> Decreases(s1, m) || Done(m)
    ensures OldLess(m, u) || u.oldState.DestroyInit?
    ensures (t.detectState, t.detectIdx, t.gcMap, t.cursor, t.live, t.counted) ==
            (m.detectState, m.detectIdx, m.gcMap, m.cursor, m.live, m.counted)
    ensures t.oldState == u.oldState && t.oldIdx == u.oldIdx && u.oldObjs <= t.oldObjs
    ensures var n := if |s.newObjs| > 10 then 10 else |s.newObjs|;
      && t.newObjs == RepeatDestroyNew(u, n).newObjs + [Entry(o, 0)] && t.newState == RepeatDestroyNew(u, n).newState
      && forall k: nat :: k < n ==>
           var a, b := RepeatDestroyNew(u, k), RepeatDestroyNew(u, k + 1); NewLess(a, b) || b.newState.DestroyInit?
  {
    hide Phase, Sound, Quiet, Decreases, Done, Reachable, Identify, DestroyOld, DestroyNew, RepeatDestroyNew, NewLess, OldLess, Inv, Listed;
    Copied(s, o, s1);
    if Quiet(s1) { IdentifyQuiet(s1, m, Identify(s1).1); }
    IdentifySameLists(s1);
    Indices(s);
    OldAdvances(m, u, DestroyOld(m).1);
    var n := if |s.newObjs| > 10 then 10 else |s.newObjs|;
    RepeatAdvances(u, n, RepeatDestroyNew(u, n));
    Composed(s, o, s1, m, u, n);
  }

  lemma Copied(s: GC, o: Obj, s1: GC)
    requires Inv(s) && Reachable(s.heap, o) && s1 == s.(heap := Mutate(s.heap, Copy(o)))
    ensures Inv(s1)
  {
    AppKeeps(s, Copy(o));
  }

  lemma Composed(s: GC, o: Obj, s1: GC, m: GC, u: GC, n: nat)
    requires s.newObjs != [] && s.oldObjs != [] && s1 == s.(heap := Mutate(s.heap, Copy(o)))
    requires m == Identify(s1).0 && u == DestroyOld(m).0 && u.newObjs == s.newObjs && n == if |s.newObjs| > 10 then 10 else |s.newObjs|
    ensures var r, t := RepeatDestroyNew(u, n), AddObject(s, o, true);
      t == r.(heap := t.heap, newObjs := r.newObjs + [Entry(o, 0)]) && t.heap == r.heap.(outside := r.heap.outside - multiset{o})
  {
    hide Identify, DestroyOld, RepeatDestroyNew;
  }

  lemma Indices(s: GC)
    requires Inv(s)
    ensures s.newIdx >= -1 && s.oldIdx >= -1
  {
  }

  // ---- An object that only the list refers to ----

  /** No reference to x but the list's, if it is listed. */
  ghost predicate Unheld(s: GC, x: Obj) {
    Inner(s.heap)[x] == 0 && s.heap.outside[x] == 0 && x !in s.gcMap
  }

  lemma UnheldIs(s: GC, x: Obj)
    requires Sound(s)
    ensures s.heap.count[x] == 1 && x in Listed(s) ==> Unheld(s, x)
    ensures Unheld(s, x) ==> s.heap.count[x] == Listed(s)[x] && !Reachable(s.heap, x)
    ensures Unheld(s, x) && x !in Listed(s) ==> x !in s.heap.refs
    ensures Unheld(s, x) && x in Listed(s) ==> s.heap.count[x] == 1
  {
    assert Own(s)[x] == Listed(s)[x] + multiset(s.gcMap.Keys)[x];
    Unreferenced(s.heap, x);
    assert Listed(s)[x] <= 1;
  }

  lemma UnheldStays(s: GC, t: GC, x: Obj)
    requires Unheld(s, x) && Shrinks(s.heap, t.heap) && t.heap.outside == s.heap.outside && (x in t.gcMap ==> x in s.gcMap)
    ensures Unheld(t, x)
  {
    ShrinksInner(s.heap, t.heap, x);
  }

  lemma PassMaps(s: GC, x: Obj)
    requires Sound(s) && Unheld(s, x)
    ensures x !in DetectPass(s).s.gcMap
  {
    hide Accounts, Reachable, Inner;
    if s.detectState.BuildMapLoop? && s.detectIdx < |s.oldObjs| && s.oldObjs[s.detectIdx].obj == x {
      ListedAt(s, s.detectIdx);
      UnheldIs(s, x);
    }
    if s.detectState.CountReferencesLoop? && s.cursor.Some? { SubtractRefsAt(s.gcMap, Held(s.heap.refs, s.cursor.value)); }
  }

  lemma PassUnheld(s: GC, x: Obj)
    requires Inv(s) && Unheld(s, x)
    ensures Unheld(DetectPass(s).s, x)
  {
    hide Phase, DetectPass, Reachable, Listed, Unheld;
    DetectPassKeeps(s);
    DetectPassShrinks(s, DetectPass(s).s);
    PassMaps(s, x);
    StepOutside(s, DetectPass(s).s);
    UnheldStays(s, DetectPass(s).s, x);
  }

  lemma StepOutside(s: GC, t: GC)
    requires Step(s, t)
    ensures t.heap.outside == s.heap.outside
  {
  }

  lemma {:induction false} IdentifyUnheld(s: GC, x: Obj)
    requires Inv(s) && Unheld(s, x)
    ensures Unheld(Identify(s).0, x)
    decreases Rank(s.detectState)
  {
    hide Phase, Sound, SameForApp, Unheld;
    DetectPassKeeps(s);
    PassUnheld(s, x);
    AgainDescends(s);
    IdentifyUnfolds(s);
    var p := DetectPass(s);
    if p.Again? { IdentifyUnheld(p.s, x); }
  }

  lemma DestroyOldPassUnheld(s: GC, x: Obj)
    requires Inv(s) && Unheld(s, x)
    ensures Unheld(DestroyOldPass(s).s, x)
  {
    hide Phase, SameForApp, Reachable, Accounts, Inner, Out, Release;
    var t, i := DestroyOldPass(s).s, s.oldIdx + 1;
    if !s.oldState.DestroyInit? && 0 <= i < |s.oldObjs| && s.heap.count[s.oldObjs[i].obj] == 1 {
      ListedAt(s, i);
      DestroyUnheld(s, s.oldObjs[i].obj, t, x);
    }
  }

  lemma DestroyUnheld(s: GC, o: Obj, t: GC, x: Obj)
    requires Inv(s) && s.heap.count[o] == 1 && o in Listed(s) && Unheld(s, x)
    requires t.heap == Release(s.heap, [o]) && t.gcMap == s.gcMap
    ensures Unheld(t, x)
  {
    hide Phase, Reachable, Accounts, Inner, Out, Release;
    DestroyedHoldsNothing(s, o);
    DestroyHeap(s, o);
    UnheldStays(s, t, x);
  }

  lemma DestroyNewPassUnheld(s: GC, x: Obj)
    requires Inv(s) && Unheld(s, x)
    ensures Unheld(DestroyNewPass(s).s, x)
  {
    hide Phase, SameForApp, Reachable, Accounts, Inner, Out, Release;
    var t, i := DestroyNewPass(s).s, s.newIdx + 1;
    if !s.newState.DestroyInit? && 0 <= i < |s.newObjs| && s.heap.count[s.newObjs[i].obj] == 1 {
      NewNotMapped(s, i);
      DestroyUnheld(s, s.newObjs[i].obj, t, x);
    }
  }

  lemma {:induction false} DestroyNewUnheld(s: GC, x: Obj)
    requires Inv(s) && Unheld(s, x)
    ensures Unheld(DestroyNew(s).0, x)
    decreases DestroyRank(s.newState)
  {
    hide Phase, Sound, SameForApp, Unheld;
    DestroyNewPassKeeps(s);
    DestroyNewPassUnheld(s, x);
    DestroyNewUnfolds(s);
    var p := DestroyNewPass(s);
    if p.Again? { DestroyNewUnheld(p.s, x); }
  }

  lemma {:induction false} RepeatUnheld(s: GC, n: nat, x: Obj)
    requires Inv(s) && Unheld(s, x)
    ensures Unheld(RepeatDestroyNew(s, n), x)
    decreases n
  {
    hide Phase, Sound, SameForApp, Unheld, DestroyNew;
    if n > 0 {
      RepeatUnheld(s, n - 1, x);
      RepeatDestroyNewKeeps(s, n - 1, RepeatDestroyNew(s, n - 1));
      DestroyNewUnheld(RepeatDestroyNew(s, n - 1), x);
    }
  }

  // ---- How far off its destruction is ----

  /** The listed objects the application cannot reach. */
  ghost function Garbage(s: GC): set<Obj> {
    set o | o in Listed(s) && !Reachable(s.heap, o)
  }

  function SweptTo(s: GC): int { if s.oldState.DestroyInit? then -1 else s.oldIdx }

  /** The sweep of the old objects has still to come to x, which only the list refers to. */
  ghost predicate Ahead(s: GC, x: Obj, k: nat) {
    Unheld(s, x) && SweptTo(s) < k < |s.oldObjs| && s.oldObjs[k].obj == x
  }

  lemma GarbageShrinks(s: GC, t: GC)
    requires Step(s, t)
    ensures Garbage(t) <= Garbage(s) && |Garbage(t)| <= |Garbage(s)|
  {
    SameReach(s.heap, t.heap);
    forall o | o in Garbage(t) ensures o in Garbage(s) { }
    SubsetSize(Garbage(t), Garbage(s));
  }

  lemma SubsetSize(a: set<Obj>, b: set<Obj>)
    requires a <= b
    ensures |a| <= |b|
  {
    assert |b - a| + |a| == |b| by { assert (b - a) + a == b; }
  }

  lemma SmallerBy(a: set<Obj>, b: set<Obj>, o: Obj)
    requires a <= b && o in b && o !in a
    ensures |a| < |b|
  {
    SubsetSize(a, b - {o});
  }

  /** What the old step makes of it: x is destroyed, or another object is, or the sweep has come one nearer. */
  lemma OldNearer(s: GC, x: Obj, k: nat) returns (k2: nat)
    requires Inv(s) && Ahead(s, x, k) && !s.oldState.DestroyInit?
    ensures DestroyOldPass(s).Return?
    ensures var t := DestroyOldPass(s).s;
      (x !in Listed(t) || (Ahead(t, x, k2) && |Garbage(t)| + k2 - SweptTo(t) < |Garbage(s)| + k - SweptTo(s)))
  {
    hide Phase, SameForApp, Reachable, Accounts, Inner, Out, Release, Sound;
    assert Sound(s) by { InvSound(s); }
    var t, i := DestroyOldPass(s).s, s.oldIdx + 1;
    Indices(s);
    DestroyOldPassKeeps(s);
    DestroyOldPassUnheld(s, x);
    GarbageShrinks(s, t);
    k2 := k;
    var y := s.oldObjs[i].obj;
    if s.heap.count[y] == 1 {
      Removed(s, i, t);
      if i < k {
        if k == |s.oldObjs| - 1 { k2 := i; }
        DifferentObjects(s, i, k);
        SweepGarbage(s, i);
        SmallerBy(Garbage(t), Garbage(s), y);
      }
    } else {
      assert y != x by { UnheldListed(s, x, k); }
    }
  }

  lemma UnheldListed(s: GC, x: Obj, k: nat)
    requires Sound(s) && Ahead(s, x, k)
    ensures x in Listed(s) && s.heap.count[x] == 1
  {
    ListedAt(s, k);
    UnheldIs(s, x);
  }

  lemma DifferentObjects(s: GC, i: nat, k: nat)
    requires Sound(s) && i < k < |s.oldObjs|
    ensures s.oldObjs[i].obj != s.oldObjs[k].obj
  {
    ListedAt(s, k);
    if s.oldObjs[i].obj == s.oldObjs[k].obj { SeenTwice(Objs(s.oldObjs), i, k); }
  }

  lemma SeenTwice(q: seq<Obj>, i: nat, k: nat)
    requires i < k < |q| && q[i] == q[k]
    ensures multiset(q)[q[i]] >= 2
  {
    assert q == q[..k] + [q[k]] + q[k + 1..];
    assert q[..k][i] == q[i] && q[i] in multiset(q[..k]);
  }

  lemma SweepGarbage(s: GC, i: nat)
    requires Sound(s) && i < |s.oldObjs| && s.heap.count[s.oldObjs[i].obj] == 1
    ensures s.oldObjs[i].obj in Garbage(s)
  {
    ListedAt(s, i);
    UnheldIs(s, s.oldObjs[i].obj);
  }

  lemma Removed(s: GC, i: nat, t: GC)
    requires Sound(s) && i < |s.oldObjs| && t.oldObjs == SwapRemove(s.oldObjs, i) && t.newObjs == s.newObjs
    ensures s.oldObjs[i].obj !in Listed(t) && s.oldObjs[i].obj !in Garbage(t)
  {
    var y := s.oldObjs[i].obj;
    ListedAt(s, i);
    SwapRemoveObjs(s.oldObjs, i);
    assert Listed(s)[y] <= 1;
    assert multiset(Objs(s.oldObjs))[y] >= 1 by { assert Objs(s.oldObjs)[i] in multiset(Objs(s.oldObjs)); }
  }

  lemma OldStepNearer(s: GC, x: Obj, k: nat) returns (k2: nat)
    requires Inv(s) && Ahead(s, x, k)
    ensures var t := DestroyOld(s).0;
      x !in Listed(t) || (Ahead(t, x, k2) && |Garbage(t)| + k2 - SweptTo(t) < |Garbage(s)| + k - SweptTo(s))
  {
    hide Phase, SameForApp, Reachable, Sound, Garbage, Unheld;
    DestroyOldUnfolds(s);
    if s.oldState.DestroyInit? {
      var s1 := s.(oldIdx := -1, oldState := DestroyLoop);
      assert DestroyOldPass(s) == Again(s1);
      DestroyOldPassKeeps(s);
      RestartSame(s, s1, x);
      DestroyOldUnfolds(s1);
      k2 := OldNearer(s1, x, k);
    } else {
      k2 := OldNearer(s, x, k);
    }
  }

  lemma RestartSame(s: GC, s1: GC, x: Obj)
    requires s1 == s.(oldIdx := s1.oldIdx, oldState := s1.oldState)
    ensures Garbage(s1) == Garbage(s) && (Unheld(s, x) ==> Unheld(s1, x))
  {
  }

  // ---- Registrations, and an application that drops nothing ----

  lemma DestroyNewNearer(s: GC, n: nat, x: Obj, k: nat)
    requires Inv(s) && Ahead(s, x, k)
    ensures var t := RepeatDestroyNew(s, n);
      Inv(t) && Ahead(t, x, k) && |Garbage(t)| + k - SweptTo(t) <= |Garbage(s)| + k - SweptTo(s)
  {
    hide Phase, Sound, SameForApp, Reachable, Garbage, Unheld, RepeatDestroyNew, Listed;
    var t := RepeatDestroyNew(s, n);
    RepeatDestroyNewKeeps(s, n, t);
    RepeatUnheld(s, n, x);
    Indices(s);
    RepeatAdvances(s, n, t);
    GarbageShrinks(s, t);
  }

  /** The automatic steps of one registration. */
  lemma AutoNearer(s: GC, x: Obj, k: nat) returns (k2: nat)
    requires Inv(s) && Ahead(s, x, k)
    ensures var t := AutoCollect(s);
      Inv(t) && Unheld(t, x) && (x !in Listed(t) || (Ahead(t, x, k2) && |Garbage(t)| + k2 - SweptTo(t) < |Garbage(s)| + k - SweptTo(s)))
  {
    hide Phase, Sound, SameForApp, Reachable, Garbage, Unheld, Identify, DestroyOld, RepeatDestroyNew, Listed;
    var m := Identify(s).0;
    IdentifyKeeps(s);
    IdentifyUnheld(s, x);
    IdentifySameLists(s);
    GarbageShrinks(s, m);
    k2 := OldStepNearer(m, x, k);
    var u := DestroyOld(m).0;
    DestroyOldKeeps(m);
    OldUnheld(m, x);
    var n := if |u.newObjs| > 10 then 10 else |u.newObjs|;
    var t := RepeatDestroyNew(u, n);
    RepeatDestroyNewKeeps(u, n, t);
    RepeatUnheld(u, n, x);
    if x in Listed(u) { DestroyNewNearer(u, n, x, k2); } else { StaysUnlisted(u, t, x); }
  }

  lemma StaysUnlisted(s: GC, t: GC, x: Obj)
    requires Step(s, t) && x !in Listed(s)
    ensures x !in Listed(t)
  {
  }

  lemma {:induction false} OldUnheld(s: GC, x: Obj)
    requires Inv(s) && Unheld(s, x)
    ensures Unheld(DestroyOld(s).0, x)
    decreases DestroyRank(s.oldState)
  {
    hide Phase, Sound, SameForApp, Unheld;
    DestroyOldPassKeeps(s);
    DestroyOldPassUnheld(s, x);
    DestroyOldUnfolds(s);
    var p := DestroyOldPass(s);
    if p.Again? { OldUnheld(p.s, x); }
  }

  /** The application creates, copies and links, but drops no reference. */
  predicate Growing(a: Action) { a.Create? || a.Copy? || a.Link? }

  lemma GrowingReach(h: Heap, a: Action, own: multiset<Obj>, o: Obj)
    requires Accounts(h, own) && Allowed(h, a) && Growing(a) && Reachable(h, o)
    ensures Reachable(Mutate(h, a), o)
  {
    var h2 := Mutate(h, a);
    var path :| Path(h, path) && path[|path| - 1] == o;
    forall i | 0 <= i < |path| - 1 ensures path[i + 1] in Held(h2.refs, path[i]) { assert path[i + 1] in Held(h.refs, path[i]); }
    assert Path(h2, path);
  }

  /** What the application cannot reach gets no reference from what it adds. */
  lemma GrowingOut(h: Heap, a: Action, x: Obj)
    requires Allowed(h, a) && Growing(a) && !Reachable(h, x) && x in h.refs && x !in h.outside
    requires forall p :: x !in Held(h.refs, p)
    ensures x !in Mutate(h, a).outside && forall p :: x !in Held(Mutate(h, a).refs, p)
  {
    hide Reachable;
    var refs := Mutate(h, a).refs;
    forall p ensures x !in Held(refs, p) {
      assert x !in Held(h.refs, p);
      assert a.Link? ==> Held(refs, p) == if p == a.p then Held(h.refs, p) + [a.o] else Held(h.refs, p);
      assert a.Create? && p == a.o ==> Held(refs, p) == [];
      assert !a.Link? && !(a.Create? && p == a.o) ==> Held(refs, p) == Held(h.refs, p);
    }
  }

  lemma NotHeld(refs: map<Obj, seq<Obj>>, x: Obj)
    ensures Out(refs, refs.Keys)[x] == 0 <==> forall p :: x !in Held(refs, p)
  {
    OutMember(refs, refs.Keys, x);
    if p :| x in Held(refs, p) { assert p in refs.Keys; }
  }

  lemma GrowingUnheld(s: GC, a: Action, x: Obj)
    requires Inv(s) && Allowed(s.heap, a) && Growing(a) && Unheld(s, x) && x in Listed(s)
    ensures Unheld(s.(heap := Mutate(s.heap, a)), x)
  {
    hide Reachable, Phase, Release, Mutate, Allowed, Out, Accounts;
    UnheldIs(s, x);
    assert s.heap.count[x] == 1;
    assert x in s.heap.refs by { CountedAllocated(s, x); }
    NotHeld(s.heap.refs, x);
    GrowingOut(s.heap, a, x);
    NotHeld(Mutate(s.heap, a).refs, x);
  }

  lemma CountedAllocated(s: GC, x: Obj)
    requires Sound(s) && x in s.heap.count
    ensures x in s.heap.refs
  {
  }

  lemma GrowingGarbage(s: GC, a: Action)
    requires Inv(s) && Allowed(s.heap, a) && Growing(a)
    ensures |Garbage(s.(heap := Mutate(s.heap, a)))| <= |Garbage(s)|
  {
    hide Reachable;
    var t := s.(heap := Mutate(s.heap, a));
    forall o | o in Garbage(t) ensures o in Garbage(s) { if Reachable(s.heap, o) { GrowingReach(s.heap, a, Own(s), o); } }
    SubsetSize(Garbage(t), Garbage(s));
  }

  lemma PushNearer(s: GC, o: Obj, t: GC, x: Obj)
    requires Inv(s) && o in s.heap.outside && o !in Listed(s) && Reachable(t.heap, o)
    requires t == s.(heap := s.heap.(outside := s.heap.outside - multiset{o}), newObjs := s.newObjs + [Entry(o, 0)])
    requires forall y :: Reachable(s.heap, y) ==> Reachable(t.heap, y)
    ensures |Garbage(t)| <= |Garbage(s)|
    ensures Unheld(s, x) ==> Unheld(t, x)
    ensures x !in Listed(s) && x != o ==> x !in Listed(t)
  {
    hide Reachable;
    PushListed(s, o, t);
    forall y | y in Garbage(t) ensures y in Garbage(s) { }
    SubsetSize(Garbage(t), Garbage(s));
  }

  /** Registering brings the sweep nearer, unless there is no new object yet. */
  lemma RegisterNearer(s: GC, o: Obj, x: Obj, k: nat) returns (k2: nat)
    requires Inv(s) && Reachable(s.heap, o) && o !in Listed(s) && Ahead(s, x, k)
    ensures var t := AddObject(s, o, true);
      && Inv(t) && Unheld(t, x) && t.newObjs != []
      && (x !in Listed(t) || (Ahead(t, x, k2) && |Garbage(t)| + k2 - SweptTo(t) <= |Garbage(s)| + k - SweptTo(s) - if s.newObjs == [] then 0 else 1))
  {
    hide Phase, Sound, SameForApp, Reachable, Garbage, Unheld, AutoCollect, Listed;
    var s1 := s.(heap := Mutate(s.heap, Copy(o)));
    AheadListed(s, x, k);
    AppKeeps(s, Copy(o));
    GrowingUnheld(s, Copy(o), x);
    GrowingGarbage(s, Copy(o));
    AddObjectKeeps(s, o, true);
    k2 := k;
    var s2 := s1;
    if s1.newObjs != [] {
      k2 := AutoNearer(s1, x, k);
      s2 := AutoCollect(s1);
      AutoCollectKeeps(s1);
    } else {
      StepSelf(s1);
    }
    var t := AddObject(s, o, true);
    PushFacts(s, o, s1, s2, t);
    PushNearer(s2, o, t, x);
    DifferentFromUnheld(s, o, x);
    if x in Listed(t) { AheadStays(s2, t, x, k2); }
  }

  lemma AheadListed(s: GC, x: Obj, k: nat)
    requires Ahead(s, x, k)
    ensures x in Listed(s) && Unheld(s, x)
  {
    ListedAt(s, k);
  }

  lemma AheadStays(s: GC, t: GC, x: Obj, k: nat)
    requires Ahead(s, x, k) && Unheld(t, x) && t.oldObjs == s.oldObjs && t.oldIdx == s.oldIdx && t.oldState == s.oldState
    ensures Ahead(t, x, k) && SweptTo(t) == SweptTo(s)
  {
  }

  lemma DifferentFromUnheld(s: GC, o: Obj, x: Obj)
    requires Sound(s) && Reachable(s.heap, o) && Unheld(s, x)
    ensures x != o
  {
    UnheldIs(s, x);
  }

  lemma PushFacts(s: GC, o: Obj, s1: GC, s2: GC, t: GC)
    requires Inv(s) && Reachable(s.heap, o) && o !in Listed(s) && s1 == s.(heap := Mutate(s.heap, Copy(o))) && Step(s1, s2)
    requires s2 == (if |s1.newObjs| > 0 then AutoCollect(s1) else s1) && t == AddObject(s, o, true)
    ensures o in s2.heap.outside && o !in Listed(s2)
    ensures t == s2.(heap := s2.heap.(outside := s2.heap.outside - multiset{o}), newObjs := s2.newObjs + [Entry(o, 0)])
    ensures forall y :: Reachable(s2.heap, y) ==> Reachable(t.heap, y)
    ensures Reachable(t.heap, o)
  {
    hide Phase, Sound, AutoCollect, Reachable;
    AddObjectKeeps(s, o, true);
    assert Listed(s1) == Listed(s);
    SameReach(s.heap, t.heap);
    SameReach(s1.heap, s2.heap);
    forall y | Reachable(s2.heap, y) ensures Reachable(t.heap, y) { CopyReach(s.heap, s1.heap, o, y); }
  }

  /** One reference more to what is reachable makes nothing else reachable. */
  lemma CopyReach(h: Heap, h1: Heap, o: Obj, y: Obj)
    requires Reachable(h, o) && h1.refs == h.refs && h1.outside == h.outside + multiset{o} && Reachable(h1, y)
    ensures Reachable(h, y)
  {
    var c := iset z | Reachable(h, z);
    forall z | z in h1.outside ensures z in c { if z in h.outside { ReachOutside(h, z); } }
    forall p, z | p in c && z in Held(h1.refs, p) ensures z in c { ReachNext(h, p, z); }
    assert Closed(h1, c);
    ReachableInClosed(h1, c);
  }

  // ---- A whole run ----

  predicate Quietly(e: Event) { (e.Register? && e.autoCollect) || (e.App? && Growing(e.a)) }

  /** The events of evs can follow one another from s on, and the application drops nothing meanwhile. */
  ghost predicate QuietRun(s: GC, evs: seq<Event>)
    decreases |evs|
  {
    evs != [] ==> Enabled(s, evs[0]) && Quietly(evs[0]) && QuietRun(After(s, evs[0]), evs[1..])
  }

  function Registrations(evs: seq<Event>): nat {
    if evs == [] then 0 else (if evs[0].Register? then 1 else 0) + Registrations(evs[1..])
  }

  /** At some point of the run x has been destroyed. */
  ghost predicate GoneIn(s: GC, evs: seq<Event>, x: Obj)
    decreases |evs|
  {
    x !in s.heap.refs || (evs != [] && GoneIn(After(s, evs[0]), evs[1..], x))
  }

  /** An old object that only the list refers to, and that the sweep has still to come to, is destroyed after at most as many
      registrations as there are listed garbage objects and entries before it, and one. Behind the sweep that is not so: see
      CollectorBehind. */
  lemma {:induction false} GarbageGoes(s: GC, evs: seq<Event>, x: Obj, k: nat)
    requires Inv(s) && Ahead(s, x, k) && QuietRun(s, evs)
    requires Registrations(evs) >= |Garbage(s)| + k - SweptTo(s) + if s.newObjs == [] then 1 else 0
    ensures GoneIn(s, evs, x)
    decreases |evs|
  {
    hide Phase, Sound, SameForApp, Reachable, Garbage, Unheld, AddObject, Listed;
    NotYet(s, x, k);
    assert evs != [];
    match evs[0] {
      case Register(o, autoCollect) =>
        var k2 := RegisterNearer(s, o, x, k);
        var t := AddObject(s, o, true);
        assert After(s, evs[0]) == t;
        if x in Listed(t) { GarbageGoes(t, evs[1..], x, k2); } else { UnlistedGone(t, x); }
      case App(a) =>
        AheadListed(s, x, k);
        AppKeeps(s, a);
        GrowingUnheld(s, a, x);
        GrowingGarbage(s, a);
        GarbageGoes(s.(heap := Mutate(s.heap, a)), evs[1..], x, k);
    }
  }

  /** There is something left to do: x itself is garbage. */
  lemma NotYet(s: GC, x: Obj, k: nat)
    requires Inv(s) && Ahead(s, x, k)
    ensures |Garbage(s)| + k - SweptTo(s) > 0
  {
  }

  lemma UnlistedGone(s: GC, x: Obj)
    requires Inv(s) && Unheld(s, x) && x !in Listed(s)
    ensures x !in s.heap.refs
  {
    UnheldIs(s, x);
  }
}
