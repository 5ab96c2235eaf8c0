/** The collector's invariant under every interleaving of collector steps and application steps. */
module CollectorSafety {
  import opened Options
  import opened ObjectHeap
  import opened CollectorSteps

  // ---- What the application may do between two collector steps ----

  /** Create allocates an unregistered object; Copy and Drop take and give up a reference held outside the heap;
      Link and Unlink store and remove a reference in an object. */
  datatype Action = Create(o: Obj) | Copy(o: Obj) | Drop(o: Obj) | Link(p: Obj, o: Obj) | Unlink(p: Obj, i: nat)

  /** The application touches only what it can reach. */
  ghost predicate Allowed(h: Heap, a: Action) {
    match a
    case Create(o) => o !in h.refs
    case Copy(o) => Reachable(h, o)
    case Drop(o) => o in h.outside
    case Link(p, o) => Reachable(h, p) && Reachable(h, o)
    case Unlink(p, i) => Reachable(h, p) && i < |Held(h.refs, p)|
  }

  function Mutate(h: Heap, a: Action): Heap {
    match a
    case Create(o) => h.(refs := h.refs[o := []], count := h.count + multiset{o}, outside := h.outside + multiset{o})
    case Copy(o) => var h1 := AddRef(h, o); h1.(outside := h1.outside + multiset{o})
    case Drop(o) => Release(h.(outside := h.outside - multiset{o}), [o])
    case Link(p, o) => var h1 := AddRef(h, o); h1.(refs := h1.refs[p := Held(h1.refs, p) + [o]])
    case Unlink(p, i) =>
      var s := Held(h.refs, p);
      if i < |s| then Release(h.(refs := h.refs[p := s[..i] + s[i + 1..]]), [s[i]]) else h
  }

  // ---- The invariant ----

  ghost function Listed(s: GC): multiset<Obj> {
    multiset(Objs(s.newObjs)) + multiset(Objs(s.oldObjs))
  }

  /** The references the collector itself holds: one for each list entry and one for each map entry. */
  ghost function Own(s: GC): multiset<Obj> {
    Listed(s) + multiset(s.gcMap.Keys)
  }

  ghost predicate UsesCursor(d: DetectState) {
    d.CountReferencesLoop? || d.DetectGarbageLoop1? || d.VerifyUnmarkedLoop? || d.BreakCirclesLoop? || d.BreakCirclesHaveGarbage?
  }

  /** Counters are exact, objects are listed once, mapped objects are in the old list, and while the map is being
      built they are in the part of it that has been scanned. */
  ghost predicate Sound(s: GC) {
    && Accounts(s.heap, Own(s))
    && (forall o :: Listed(s)[o] <= 1)
    && (forall o :: o in s.gcMap ==> o in Objs(s.oldObjs))
    && (s.detectState.BuildMapLoop? ==> forall k :: s.detectIdx <= k < |s.oldObjs| ==> s.oldObjs[k].obj !in s.gcMap)
    && (UsesCursor(s.detectState) && s.cursor.Some? ==> s.cursor.value in s.gcMap)
    && s.newIdx >= -1 && s.oldIdx >= -1
  }

  ghost predicate Visited(s: GC, o: Obj) {
    s.cursor.Some? ==> o < s.cursor.value
  }

  /** For an object not touched since it was mapped: remaining counter plus references already subtracted is the
      number of references to it. */
  ghost predicate Balanced(s: GC) {
    forall o :: o in s.gcMap && o in s.heap.flagged ==>
      s.gcMap[o] + Out(s.heap.refs, s.counted)[o] == Inner(s.heap)[o] + s.heap.outside[o]
  }

  /** An untouched map object referenced by an object that was counted but is no longer mapped is queued as live. */
  ghost predicate LooseEnds(s: GC, queue: seq<Obj>) {
    forall p, o :: p in s.counted && p !in s.gcMap && o in s.gcMap && o in s.heap.flagged && o in Held(s.heap.refs, p) ==> o in queue
  }

  ghost predicate Queued(s: GC, all: bool) {
    forall o :: o in s.gcMap && o in s.heap.flagged && (all || Visited(s, o)) && s.gcMap[o] > 0 ==> o in s.live
  }

  ghost predicate NonePositive(s: GC) {
    forall o :: o in s.gcMap && o in s.heap.flagged ==> s.gcMap[o] <= 0
  }

  /** Every reference to an object of m, apart from the collector's own, is held by an object of m. */
  ghost predicate Isolated(h: Heap, m: set<Obj>) {
    && (forall o :: o in m ==> o !in h.outside)
    && (forall o, p :: o in m && o in Held(h.refs, p) ==> p in m)
  }

  ghost predicate Sealed(s: GC) {
    s.gcMap.Keys <= s.heap.flagged && Isolated(s.heap, s.gcMap.Keys)
  }

  ghost predicate Touched(s: GC) {
    exists o :: o in s.gcMap && o !in s.heap.flagged && !Visited(s, o)
  }

  ghost predicate Phase(s: GC) {
    match s.detectState
    case ClearCountersInit => true
    case ClearCountersLoop => true
    case BuildMapInit => s.gcMap == map[]
    case BuildMapLoop => s.counted == {} && Balanced(s)
    case CountReferencesInit => s.counted == {} && Balanced(s)
    case CountReferencesLoop => Balanced(s) && s.counted <= s.gcMap.Keys && forall p :: p in s.counted ==> Visited(s, p)
    case DetectGarbageInit => Balanced(s) && LooseEnds(s, [])
    case DetectGarbageLoop1 => Balanced(s) && LooseEnds(s, []) && Queued(s, false)
    case DetectGarbageLoop2 => Balanced(s) && LooseEnds(s, s.live) && Queued(s, true)
    case VerifyUnmarkedInit => Balanced(s) && LooseEnds(s, []) && NonePositive(s)
    case VerifyUnmarkedLoop => Balanced(s) && LooseEnds(s, []) && NonePositive(s) && (Sealed(s) || Touched(s))
    case BreakCirclesInit => Isolated(s.heap, s.gcMap.Keys)
    case BreakCirclesLoop => Isolated(s.heap, s.gcMap.Keys)
    case BreakCirclesHaveGarbage => Isolated(s.heap, s.gcMap.Keys)
  }

  ghost predicate Inv(s: GC) {
    Sound(s) && Phase(s)
  }

  // ---- Heap changes that keep the phase ----

  /** On the objects of m still flagged in h2 no reference has changed, and nothing isolated has been disturbed. */
  ghost predicate Calm(h1: Heap, h2: Heap, m: set<Obj>) {
    && (forall o :: o in m && o in h2.flagged ==> o in h1.flagged && h1.outside[o] == h2.outside[o])
    && (forall o, p :: o in m && o in h2.flagged ==> multiset(Held(h1.refs, p))[o] == multiset(Held(h2.refs, p))[o])
    && (Isolated(h1, m) ==> Isolated(h2, m))
    && (Isolated(h1, m) && m <= h1.flagged ==> m <= h2.flagged)
  }

  lemma CalmSums(h1: Heap, h2: Heap, m: set<Obj>, o: Obj, s: set<Obj>)
    requires Calm(h1, h2, m) && o in m && o in h2.flagged
    ensures Out(h1.refs, s)[o] == Out(h2.refs, s)[o]
    ensures Inner(h1)[o] == Inner(h2)[o]
  {
    OutSame(h1.refs, h2.refs, s, o);
    var all := h1.refs.Keys + h2.refs.Keys;
    OutSame(h1.refs, h2.refs, all, o);
    OutGrow(h1.refs, h1.refs.Keys, all, o);
    OutGrow(h2.refs, h2.refs.Keys, all, o);
  }

  lemma CalmKeepsPhase(s: GC, h: Heap)
    requires Phase(s) && Calm(s.heap, h, s.gcMap.Keys)
    ensures Phase(s.(heap := h))
  {
    var t := s.(heap := h);
    if Balanced(s) {
      forall o | o in t.gcMap && o in h.flagged
        ensures t.gcMap[o] + Out(h.refs, t.counted)[o] == Inner(h)[o] + h.outside[o]
      {
        CalmSums(s.heap, h, s.gcMap.Keys, o, s.counted);
      }
      assert Balanced(t);
    }
    forall p, o | o in t.gcMap && o in h.flagged && o in Held(h.refs, p)
      ensures o in s.heap.flagged && o in Held(s.heap.refs, p)
    {
      assert multiset(Held(s.heap.refs, p))[o] == multiset(Held(h.refs, p))[o];
      assert o in multiset(Held(h.refs, p));
    }
    if s.detectState.VerifyUnmarkedLoop? && Touched(s) {
      var o :| o in s.gcMap && o !in s.heap.flagged && !Visited(s, o);
      assert o !in h.flagged && !Visited(t, o);
    }
  }

  lemma IsolatedUnreachable(h: Heap, m: set<Obj>)
    requires Isolated(h, m)
    ensures forall o :: o in m ==> !Reachable(h, o)
  {
    var c := iset o | o !in m;
    assert Closed(h, c);
    ReachableInClosed(h, c);
  }

  lemma ReleaseIsCalm(h: Heap, pending: seq<Obj>, m: set<Obj>, own: multiset<Obj>)
    requires Accounts(h, own + multiset(pending))
    requires forall o :: o in m ==> o in own
    requires forall o :: o in m && o in pending ==> o !in h.flagged
    ensures Calm(h, Release(h, pending), m)
  {
    ReleaseLaws(h, pending, own);
    var h2 := Release(h, pending);
    forall o | o in m ensures o in h2.refs { assert o in h2.count; }
    if Isolated(h, m) && m <= h.flagged {
      forall o | o in m ensures o in h2.flagged {
        if o !in h2.flagged { ReleaseUnflags(h, pending, o); }
      }
    }
  }

  lemma CalmTrans(h1: Heap, h2: Heap, h3: Heap, m: set<Obj>)
    requires Calm(h1, h2, m) && Calm(h2, h3, m)
    ensures Calm(h1, h3, m)
  {
  }

  // ---- Application steps ----

  ghost predicate OneLess(h: Heap, h0: Heap, o: Obj) {
    && h0.flagged == h.flagged
    && (forall x :: x in h0.outside ==> x in h.outside)
    && (forall x :: x != o ==> h0.outside[x] == h.outside[x])
    && (forall p, x :: x in Held(h0.refs, p) ==> x in Held(h.refs, p))
    && (forall p, x :: x != o ==> multiset(Held(h0.refs, p))[x] == multiset(Held(h.refs, p))[x])
  }

  lemma OneLessCalm(h: Heap, h0: Heap, o: Obj, m: set<Obj>)
    requires OneLess(h, h0, o) && (Isolated(h, m) ==> o !in m)
    ensures Calm(h, h0.(flagged := h0.flagged - {o}), m)
  {
  }

  /** Taking one reference to o out of the heap or out of the outside references, then releasing it. */
  lemma GiveUpReference(h: Heap, h0: Heap, o: Obj, own: multiset<Obj>, m: set<Obj>)
    requires Accounts(h, own) && Accounts(h0, own + multiset{o}) && Reachable(h, o)
    requires OneLess(h, h0, o)
    requires forall x :: x in m ==> x in own
    ensures Accounts(Release(h0, [o]), own) && Calm(h, Release(h0, [o]), m)
  {
    hide OneLess, Calm, Reachable, Isolated;
    IsolatedUnreachableIf(h, m);
    OneLessCalm(h, h0, o, m);
    var h1 := h0.(flagged := h0.flagged - {o});
    assert multiset([o]) == multiset{o};
    assert o in h0.count;
    assert Release(h0, [o]) == Release(h1, [o]) by {
      assert h0.(count := h0.count - multiset{o}, flagged := h0.flagged - {o}) == h1.(count := h1.count - multiset{o}, flagged := h1.flagged - {o});
    }
    assert Accounts(h1, own + multiset([o]));
    ReleaseLaws(h1, [o], own);
    ReleaseIsCalm(h1, [o], m, own);
    CalmTrans(h, h1, Release(h1, [o]), m);
  }

  lemma IsolatedUnreachableIf(h: Heap, m: set<Obj>)
    ensures Isolated(h, m) ==> forall o :: o in m ==> !Reachable(h, o)
  {
    if Isolated(h, m) { IsolatedUnreachable(h, m); }
  }

  lemma CreateHeld(h: Heap, o: Obj)
    requires o !in h.refs
    ensures forall p :: Held(Mutate(h, Create(o)).refs, p) == Held(h.refs, p)
  {
  }

  lemma CreateLaws(h: Heap, o: Obj, own: multiset<Obj>, m: set<Obj>)
    requires Accounts(h, own) && Allowed(h, Create(o))
    requires forall x :: x in m ==> x in own
    ensures Accounts(Mutate(h, Create(o)), own) && Calm(h, Mutate(h, Create(o)), m)
  {
    var h2 := Mutate(h, Create(o));
    CreateHeld(h, o);
    assert Inner(h2) == Inner(h) by {
      OutTake(h2.refs, h2.refs.Keys, o);
      assert h2.refs.Keys - {o} == h.refs.Keys;
      OutSameAll(h.refs, h2.refs, h.refs.Keys);
    }
    forall x | x in m ensures x != o { assert x in h.count; }
    assert Calm(h, h2, m) by {
      assert forall x :: x in m ==> h2.outside[x] == h.outside[x];
    }
  }

  lemma CopyLaws(h: Heap, o: Obj, own: multiset<Obj>, m: set<Obj>)
    requires Accounts(h, own) && Allowed(h, Copy(o))
    ensures Accounts(Mutate(h, Copy(o)), own) && Calm(h, Mutate(h, Copy(o)), m)
  {
    ReachableLive(h, own);
    IsolatedUnreachableIf(h, m);
  }

  lemma DropLaws(h: Heap, o: Obj, own: multiset<Obj>, m: set<Obj>)
    requires Accounts(h, own) && Allowed(h, Drop(o))
    requires forall x :: x in m ==> x in own
    ensures Accounts(Mutate(h, Drop(o)), own) && Calm(h, Mutate(h, Drop(o)), m)
  {
    ReachOutside(h, o);
    GiveUpReference(h, h.(outside := h.outside - multiset{o}), o, own, m);
  }

  /** What replacing the references of one live object does to the sum. */
  lemma InnerUpdate(h: Heap, p: Obj, s: seq<Obj>)
    requires p in h.refs
    ensures Inner(h.(refs := h.refs[p := s])) + multiset(h.refs[p]) == Inner(h) + multiset(s)
  {
    var r2 := h.refs[p := s];
    assert r2.Keys == h.refs.Keys;
    OutTake(h.refs, h.refs.Keys, p);
    OutTake(r2, h.refs.Keys, p);
    OutSameAll(h.refs, r2, h.refs.Keys - {p});
  }

  lemma LinkAccounts(h: Heap, p: Obj, o: Obj, own: multiset<Obj>)
    requires Accounts(h, own) && p in h.refs && o in h.refs
    ensures Accounts(Mutate(h, Link(p, o)), own)
  {
    var h1, h2 := AddRef(h, o), Mutate(h, Link(p, o));
    var s := h.refs[p] + [o];
    InnerUpdate(h1, p, s);
    forall x ensures Inner(h2)[x] == (Inner(h) + multiset{o})[x] {
      assert (Inner(h2) + multiset(h.refs[p]))[x] == (Inner(h) + multiset(s))[x];
    }
    assert Inner(h2) == Inner(h) + multiset{o};
    assert h2.refs.Keys == h.refs.Keys;
    forall x ensures x in h2.count <==> x in h2.refs { assert x in h.count <==> x in h.refs; }
  }

  lemma LinkHeld(h: Heap, p: Obj, o: Obj)
    requires p in h.refs
    ensures forall q, x :: x != o ==> multiset(Held(Mutate(h, Link(p, o)).refs, q))[x] == multiset(Held(h.refs, q))[x]
    ensures forall q, x :: x in Held(Mutate(h, Link(p, o)).refs, q) ==> x in Held(h.refs, q) || (q == p && x == o)
  {
  }

  lemma LinkLaws(h: Heap, p: Obj, o: Obj, own: multiset<Obj>, m: set<Obj>)
    requires Accounts(h, own) && Allowed(h, Link(p, o))
    ensures Accounts(Mutate(h, Link(p, o)), own) && Calm(h, Mutate(h, Link(p, o)), m)
  {
    ReachableLive(h, own);
    IsolatedUnreachableIf(h, m);
    LinkAccounts(h, p, o, own);
    LinkHeld(h, p, o);
  }

  lemma UnlinkHeld(h: Heap, p: Obj, i: nat, h0: Heap, o: Obj, s: seq<Obj>)
    requires p in h.refs && i < |h.refs[p]| && o == h.refs[p][i] && s == h.refs[p][..i] + h.refs[p][i + 1..]
    requires h0 == h.(refs := h.refs[p := s])
    ensures forall q, x :: x in Held(h0.refs, q) ==> x in Held(h.refs, q)
    ensures forall q, x :: x != o ==> multiset(Held(h0.refs, q))[x] == multiset(Held(h.refs, q))[x]
  {
    var was := h.refs[p];
    assert was == was[..i] + [o] + was[i + 1..];
    assert multiset(was) == multiset(s) + multiset{o};
    forall x | x in s ensures x in was { assert x in multiset(s); }
  }

  lemma UnlinkAccounts(h: Heap, p: Obj, i: nat, h0: Heap, own: multiset<Obj>)
    requires Accounts(h, own) && p in h.refs && i < |h.refs[p]|
    requires h0 == h.(refs := h.refs[p := h.refs[p][..i] + h.refs[p][i + 1..]])
    ensures Accounts(h0, own + multiset{h.refs[p][i]})
  {
    var was, o, s := h.refs[p], h.refs[p][i], h.refs[p][..i] + h.refs[p][i + 1..];
    assert was == was[..i] + [o] + was[i + 1..];
    assert multiset(was) == multiset(s) + multiset{o};
    InnerUpdate(h, p, s);
    assert h0.refs.Keys == h.refs.Keys;
    forall x ensures Inner(h)[x] == (Inner(h0) + multiset{o})[x] {
      assert (Inner(h0) + multiset(was))[x] == (Inner(h) + multiset(s))[x];
    }
    assert Inner(h) == Inner(h0) + multiset{o};
  }

  lemma UnlinkLaws(h: Heap, p: Obj, i: nat, own: multiset<Obj>, m: set<Obj>)
    requires Accounts(h, own) && Allowed(h, Unlink(p, i))
    requires forall x :: x in m ==> x in own
    ensures Accounts(Mutate(h, Unlink(p, i)), own) && Calm(h, Mutate(h, Unlink(p, i)), m)
  {
    hide Accounts, Reachable, Calm;
    var o, s := h.refs[p][i], h.refs[p][..i] + h.refs[p][i + 1..];
    var h0 := h.(refs := h.refs[p := s]);
    UnlinkAccounts(h, p, i, h0, own);
    UnlinkHeld(h, p, i, h0, o, s);
    ReachNext(h, p, o);
    GiveUpReference(h, h0, o, own, m);
  }

  lemma MutateLaws(h: Heap, a: Action, own: multiset<Obj>, m: set<Obj>)
    requires Accounts(h, own) && Allowed(h, a)
    requires forall x :: x in m ==> x in own
    ensures Accounts(Mutate(h, a), own) && Calm(h, Mutate(h, a), m)
  {
    match a
    case Create(o) => CreateLaws(h, o, own, m);
    case Copy(o) => CopyLaws(h, o, own, m);
    case Drop(o) => DropLaws(h, o, own, m);
    case Link(p, o) => LinkLaws(h, p, o, own, m);
    case Unlink(p, i) => UnlinkLaws(h, p, i, own, m);
  }

  // ---- Collector steps: what they do to counters, lists and the map ----

  /** What a collector step guarantees. */
  ghost predicate Step(s: GC, t: GC) {
    && Inv(t)
    && SameForApp(s.heap, t.heap)
    && Listed(t) <= Listed(s)
    && (forall o {:trigger Reachable(s.heap, o)} :: o in Listed(s) && Reachable(s.heap, o) ==> o in Listed(t))
  }

  lemma SameForAppSelf(h1: Heap, h2: Heap, own: multiset<Obj>)
    requires Accounts(h1, own) && h2.refs == h1.refs && h2.outside == h1.outside
    ensures SameForApp(h1, h2)
  {
    ReachableLive(h1, own);
  }

  /** The fields that Sound reads, apart from the heap and the cursor. */
  ghost predicate SameLists(s: GC, t: GC) {
    t.newObjs == s.newObjs && t.oldObjs == s.oldObjs && t.newIdx == s.newIdx && t.oldIdx == s.oldIdx
  }

  ghost predicate CursorOk(s: GC) {
    UsesCursor(s.detectState) && s.cursor.Some? ==> s.cursor.value in s.gcMap
  }

  ghost predicate ScanOk(s: GC) {
    s.detectState.BuildMapLoop? ==> forall k :: s.detectIdx <= k < |s.oldObjs| ==> s.oldObjs[k].obj !in s.gcMap
  }

  /** Steps that change neither the heap, nor the lists, nor which objects are mapped. */
  lemma QuietStep(s: GC, t: GC)
    requires Sound(s) && SameLists(s, t) && t.heap == s.heap && t.gcMap.Keys == s.gcMap.Keys
    requires CursorOk(t) && ScanOk(t)
    ensures Sound(t) && SameForApp(s.heap, t.heap) && Listed(t) == Listed(s)
  {
    SameForAppSelf(s.heap, s.heap, Own(s));
    forall o | o in t.gcMap ensures o in Objs(t.oldObjs) { assert o in s.gcMap; }
  }

  lemma MapKeySets(m: map<Obj, int>, o: Obj)
    requires o in m
    ensures multiset((m - {o}).Keys) == multiset(m.Keys) - multiset{o}
  {
    assert (m - {o}).Keys == m.Keys - {o};
  }

  /** Taking an object out of the map releases the map's reference to it and no more. */
  lemma Unmap(s: GC, o: Obj)
    requires Sound(s) && o in s.gcMap
    ensures Release(s.heap, [o]) == s.heap.(count := s.heap.count - multiset{o}, flagged := s.heap.flagged - {o})
    ensures Accounts(Release(s.heap, [o]), Own(s.(gcMap := s.gcMap - {o})))
  {
    assert o in Listed(s) && o in multiset(s.gcMap.Keys);
    ReleaseShared(s.heap, o);
    UnmapAccounts(s, o, Release(s.heap, [o]));
  }

  lemma UnmapAccounts(s: GC, o: Obj, h: Heap)
    requires Accounts(s.heap, Own(s)) && o in s.gcMap
    requires h == s.heap.(count := s.heap.count - multiset{o}, flagged := s.heap.flagged - {o})
    requires s.heap.count[o] > 1
    ensures Accounts(h, Own(s.(gcMap := s.gcMap - {o})))
  {
    MapKeySets(s.gcMap, o);
    assert Inner(h) == Inner(s.heap);
    forall x ensures x in h.count <==> x in h.refs { assert x in s.heap.count <==> x in s.heap.refs; }
  }

  lemma UnmapStep(s: GC, o: Obj, t: GC)
    requires Sound(s) && o in s.gcMap && SameLists(s, t)
    requires t.heap == Release(s.heap, [o]) && t.gcMap == s.gcMap - {o}
    requires !UsesCursor(t.detectState) && !t.detectState.BuildMapLoop?
    ensures Sound(t) && SameForApp(s.heap, t.heap) && Listed(t) == Listed(s)
    ensures t.heap == s.heap.(count := s.heap.count - multiset{o}, flagged := s.heap.flagged - {o})
  {
    Unmap(s, o);
    SameForAppSelf(s.heap, t.heap, Own(s));
    assert Own(t) == Own(s.(gcMap := s.gcMap - {o}));
    forall x | x in t.gcMap ensures x in Objs(t.oldObjs) { assert x in s.gcMap; }
  }

  lemma ListedAt(s: GC, k: int)
    requires 0 <= k < |s.oldObjs|
    ensures s.oldObjs[k].obj in Objs(s.oldObjs)
    ensures s.oldObjs[k].obj in Listed(s)
  {
    assert Objs(s.oldObjs)[k] in multiset(Objs(s.oldObjs));
  }

  lemma TwiceListed(s: GC, i: int, k: int)
    requires 0 <= i < k < |s.oldObjs| && s.oldObjs[i].obj == s.oldObjs[k].obj
    ensures Listed(s)[s.oldObjs[i].obj] >= 2
  {
    var q := Objs(s.oldObjs);
    assert q == q[..k] + q[k..];
    assert multiset(q) == multiset(q[..k]) + multiset(q[k..]);
    assert q[..k][i] in multiset(q[..k]) && q[k..][0] in multiset(q[k..]);
  }

  lemma AddRefAccounts(h: Heap, o: Obj, own: multiset<Obj>)
    requires Accounts(h, own) && o in h.count
    ensures Accounts(SetFlag(AddRef(h, o), o), own + multiset{o})
  {
    var h2 := SetFlag(AddRef(h, o), o);
    assert Inner(h2) == Inner(h);
    forall x ensures x in h2.count <==> x in h2.refs { assert x in h.count <==> x in h.refs; }
  }

  lemma MapKeyAdded(m: map<Obj, int>, o: Obj, n: int)
    requires o !in m
    ensures multiset(m[o := n].Keys) == multiset(m.Keys) + multiset{o}
  {
    assert m[o := n].Keys == m.Keys + {o};
  }

  /** Mapping an object: the map's reference is added and its flag set. */
  lemma MapStep(s: GC, o: Obj, n: int, t: GC)
    requires Sound(s) && s.detectState.BuildMapLoop? && s.detectIdx < |s.oldObjs| && o == s.oldObjs[s.detectIdx].obj
    requires o in s.heap.count
    requires t == s.(gcMap := s.gcMap[o := n], heap := SetFlag(AddRef(s.heap, o), o), detectIdx := s.detectIdx + 1)
    ensures Sound(t) && SameForApp(s.heap, t.heap) && Listed(t) == Listed(s) && o !in s.gcMap
    ensures s.heap.count[o] == Inner(s.heap)[o] + s.heap.outside[o] + 1
  {
    ListedAt(s, s.detectIdx);
    MapKeyAdded(s.gcMap, o, n);
    AddRefAccounts(s.heap, o, Own(s));
    assert Own(t) == Own(s) + multiset{o};
    assert ScanOk(t) by {
      forall k | t.detectIdx <= k < |t.oldObjs| ensures t.oldObjs[k].obj !in t.gcMap {
        if t.oldObjs[k].obj == o { TwiceListed(s, s.detectIdx, k); }
      }
    }
    SameForAppSelf(s.heap, t.heap, Own(s));
    assert s.heap.count[o] == Inner(s.heap)[o] + s.heap.outside[o] + 1 by { assert Own(s)[o] == 1; }
  }

  /** gcReleaseAllReferences on an object of an isolated set. */
  lemma ReleaseAllLaws(h: Heap, o: Obj, own: multiset<Obj>, m: set<Obj>)
    requires Accounts(h, own) && Isolated(h, m) && o in m && o in h.refs
    ensures Accounts(ReleaseAllReferences(h, o), own)
    ensures SameForApp(h, ReleaseAllReferences(h, o))
    ensures Isolated(ReleaseAllReferences(h, o), m)
    ensures Destroys(h.(refs := h.refs[o := []]), ReleaseAllReferences(h, o))
  {
    var h1 := h.(refs := h.refs[o := []]);
    var h2 := Release(h1, h.refs[o]);
    InnerUpdate(h, o, []);
    assert h1.refs.Keys == h.refs.Keys;
    assert Inner(h) == Inner(h1) + multiset(h.refs[o]);
    assert Accounts(h1, own + multiset(h.refs[o]));
    ReleaseLaws(h1, h.refs[o], own);
    ReachableLive(h, own);
    IsolatedUnreachable(h, m);
    assert SameForApp(h, h1);
    DestroysSpares(h1, h2, own);
    SameForAppTrans(h, h1, h2);
    assert forall p, x :: x in Held(h2.refs, p) ==> x in Held(h.refs, p);
  }

  lemma BreakStep(s: GC, o: Obj, t: GC)
    requires Sound(s) && o in s.gcMap && Isolated(s.heap, s.gcMap.Keys) && SameLists(s, t)
    requires t.heap == ReleaseAllReferences(s.heap, o) && t.gcMap == s.gcMap
    requires CursorOk(t) && !t.detectState.BuildMapLoop?
    ensures Sound(t) && SameForApp(s.heap, t.heap) && Listed(t) == Listed(s) && Isolated(t.heap, t.gcMap.Keys)
  {
    assert o in multiset(s.gcMap.Keys);
    assert o in s.heap.count;
    ReleaseAllLaws(s.heap, o, Own(s), s.gcMap.Keys);
    assert Own(t) == Own(s);
  }

  // ---- Collector steps: what they do to the phase ----

  lemma {:induction false} SubtractRefsAt(m: map<Obj, int>, refs: seq<Obj>)
    ensures SubtractRefs(m, refs).Keys == m.Keys
    ensures forall o :: o in m ==> SubtractRefs(m, refs)[o] == m[o] - multiset(refs)[o]
    decreases |refs|
  {
    if refs != [] {
      assert refs == [refs[0]] + refs[1..];
      SubtractRefsAt(if refs[0] in m then m[refs[0] := m[refs[0]] - 1] else m, refs[1..]);
    }
  }

  lemma {:induction false} MarkRefsHas(m: map<Obj, int>, live: seq<Obj>, refs: seq<Obj>)
    ensures forall o :: o in MarkRefs(m, live, refs) <==> o in live || (o in refs && o in m)
    decreases |refs|
  {
    if refs != [] {
      MarkRefsHas(m, if refs[0] in m then live + [refs[0]] else live, refs[1..]);
      assert forall o :: o in refs <==> o == refs[0] || o in refs[1..];
    }
  }

  lemma BuildMapPhase(s: GC, o: Obj, n: int, t: GC)
    requires Balanced(s) && s.counted == {} && o !in s.gcMap && n == Inner(s.heap)[o] + s.heap.outside[o]
    requires t.gcMap == s.gcMap[o := n] && t.heap == SetFlag(AddRef(s.heap, o), o) && t.counted == {}
    ensures Balanced(t)
  {
    assert Inner(t.heap) == Inner(s.heap);
  }

  lemma CountReferencesPhase(s: GC, o: Obj, t: GC)
    requires Balanced(s) && s.counted <= s.gcMap.Keys && (forall p :: p in s.counted ==> Visited(s, p))
    requires s.cursor == Some(o) && o in s.gcMap
    requires t == s.(cursor := AtOrAfter(s.gcMap.Keys, o + 1), gcMap := SubtractRefs(s.gcMap, Held(s.heap.refs, o)), counted := s.counted + {o})
    ensures t.gcMap.Keys == s.gcMap.Keys
    ensures Balanced(t) && t.counted <= t.gcMap.Keys && forall p :: p in t.counted ==> Visited(t, p)
  {
    SubtractRefsAt(s.gcMap, Held(s.heap.refs, o));
    OutTake(s.heap.refs, t.counted, o);
    assert t.counted - {o} == s.counted;
  }

  /** Once every untouched object is known to have no uncounted reference, and all are untouched,
      every reference to them comes from the map. */
  lemma NothingQueued(s: GC)
    requires Balanced(s) && LooseEnds(s, []) && NonePositive(s) && s.gcMap.Keys <= s.heap.flagged
    ensures Isolated(s.heap, s.gcMap.Keys)
  {
    var all := s.heap.refs.Keys;
    var both := s.counted + all;
    forall o | o in s.gcMap ensures o !in s.heap.outside && forall p :: o in Held(s.heap.refs, p) ==> p in s.gcMap {
      OutGrow(s.heap.refs, all, both, o);
      OutGrow(s.heap.refs, s.counted, both, o);
      assert Out(s.heap.refs, s.counted)[o] == Out(s.heap.refs, both)[o];
      forall p | o in Held(s.heap.refs, p) ensures p in s.gcMap {
        assert p in all;
        assert p in both;
      }
    }
  }

  lemma RemoveLivePhase(s: GC, o: Obj, rest: seq<Obj>, t: GC)
    requires Balanced(s) && LooseEnds(s, s.live) && Queued(s, true) && s.live == rest + [o]
    requires t.counted == s.counted && t.heap.refs == s.heap.refs && t.heap.outside == s.heap.outside && t.heap.flagged <= s.heap.flagged
    requires t.gcMap == s.gcMap - {o} && t.live == MarkRefs(t.gcMap, rest, if o in s.gcMap then Held(t.heap.refs, o) else [])
    ensures Balanced(t) && LooseEnds(t, t.live) && Queued(t, true)
  {
    MarkRefsHas(t.gcMap, rest, if o in s.gcMap then Held(t.heap.refs, o) else []);
    assert Inner(t.heap) == Inner(s.heap);
  }

  lemma VerifyInitPhase(s: GC)
    requires s.detectState.VerifyUnmarkedInit? && Phase(s)
    ensures Phase(DetectPass(s).s)
  {
    var t := DetectPass(s).s;
    if o :| o in t.gcMap && o !in t.heap.flagged {
      assert !Visited(t, o);
      assert Touched(t);
    } else {
      NothingQueued(s);
      assert Sealed(t);
    }
    assert Balanced(t) && LooseEnds(t, []) && NonePositive(t);
  }

  lemma VerifyUnmarkedPhase(s: GC)
    requires s.detectState.VerifyUnmarkedLoop? && Phase(s)
    ensures Phase(VerifyUnmarked(s).s)
  {
    var t := VerifyUnmarked(s).s;
    assert Balanced(t) && LooseEnds(t, []) && NonePositive(t);
    if t.detectState.VerifyUnmarkedLoop? && Touched(s) {
      var o :| o in s.gcMap && o !in s.heap.flagged && !Visited(s, o);
      assert !Visited(t, o);
    }
  }

  // ---- Collector steps keep the invariant ----

  lemma ClearCountersKeeps(s: GC)
    requires Inv(s) && s.detectState.ClearCountersLoop?
    ensures Step(s, ClearCounters(s).s)
  {
    var c, t := AtOrAfter(s.gcMap.Keys, 0), ClearCounters(s).s;
    if c.Some? { UnmapStep(s, c.value, t); } else { QuietStep(s, t); }
  }

  lemma BuildMapKeeps(s: GC)
    requires Inv(s) && s.detectState.BuildMapLoop?
    ensures Step(s, BuildMap(s).s)
  {
    var t := BuildMap(s).s;
    if s.detectIdx < |s.oldObjs| && s.heap.count[s.oldObjs[s.detectIdx].obj] > 1 {
      var o := s.oldObjs[s.detectIdx].obj;
      MapStep(s, o, s.heap.count[o] - 1, t);
      BuildMapPhase(s, o, s.heap.count[o] - 1, t);
    } else {
      QuietStep(s, t);
      assert Balanced(t);
    }
  }

  lemma CountReferencesKeeps(s: GC)
    requires Inv(s) && s.detectState.CountReferencesLoop?
    ensures Step(s, CountReferences(s).s)
  {
    hide SameForApp, Reachable, Accounts, Inner, Out;
    var t := CountReferences(s).s;
    if s.cursor.Some? && s.cursor.value in s.heap.flagged {
      CountReferencesPhase(s, s.cursor.value, t);
    }
    QuietStep(s, t);
    assert Balanced(t);
  }

  lemma FindLivePhase(s: GC)
    requires s.detectState.DetectGarbageLoop1? && Phase(s)
    ensures Phase(FindLive(s).s)
  {
    hide Out, Inner;
    var t := FindLive(s).s;
    assert Balanced(t) && LooseEnds(t, []);
    assert LooseEnds(t, t.live);
    forall o | o in t.gcMap && o in t.heap.flagged && (t.detectState.DetectGarbageLoop2? || Visited(t, o)) && t.gcMap[o] > 0
      ensures o in t.live
    {
      if Visited(s, o) { assert o in s.live; } else { assert Some(o) == s.cursor; }
    }
  }

  lemma RemoveLiveAnyPhase(s: GC)
    requires s.detectState.DetectGarbageLoop2? && Phase(s)
    requires forall o :: o in s.gcMap ==>
      Release(s.heap, [o]) == s.heap.(count := s.heap.count - multiset{o}, flagged := s.heap.flagged - {o})
    ensures Phase(RemoveLive(s).s)
  {
    hide Out, Inner, Isolated;
    var t := RemoveLive(s).s;
    if |s.live| > 0 {
      hide Balanced, LooseEnds, Queued, Release;
      var o, rest := s.live[|s.live| - 1], s.live[..|s.live| - 1];
      assert s.live == rest + [o];
      if o !in s.gcMap { assert s.gcMap - {o} == s.gcMap; }
      RemoveLivePhase(s, o, rest, t);
    } else {
      assert s.live == [];
      assert Balanced(t) && LooseEnds(t, []) && NonePositive(t);
    }
  }

  lemma UnmapAny(s: GC)
    requires Sound(s)
    ensures forall o :: o in s.gcMap ==>
      Release(s.heap, [o]) == s.heap.(count := s.heap.count - multiset{o}, flagged := s.heap.flagged - {o})
  {
    forall o | o in s.gcMap
      ensures Release(s.heap, [o]) == s.heap.(count := s.heap.count - multiset{o}, flagged := s.heap.flagged - {o})
    {
      Unmap(s, o);
    }
  }

  lemma FindLiveKeeps(s: GC)
    requires Inv(s) && s.detectState.DetectGarbageLoop1?
    ensures Step(s, FindLive(s).s)
  {
    QuietStep(s, FindLive(s).s);
    FindLivePhase(s);
  }

  lemma RemoveLiveSound(s: GC)
    requires Sound(s) && s.detectState.DetectGarbageLoop2?
    ensures var t := RemoveLive(s).s; Sound(t) && SameForApp(s.heap, t.heap) && Listed(t) == Listed(s)
  {
    var t := RemoveLive(s).s;
    if |s.live| > 0 && s.live[|s.live| - 1] in s.gcMap {
      UnmapStep(s, s.live[|s.live| - 1], t);
    } else {
      QuietStep(s, t);
    }
  }

  lemma RemoveLiveKeeps(s: GC)
    requires Inv(s) && s.detectState.DetectGarbageLoop2?
    ensures Step(s, RemoveLive(s).s)
  {
    RemoveLiveSound(s);
    UnmapAny(s);
    RemoveLiveAnyPhase(s);
  }

  lemma BreakCirclesKeeps(s: GC)
    requires Inv(s) && (s.detectState.BreakCirclesLoop? || s.detectState.BreakCirclesHaveGarbage?)
    ensures Step(s, BreakCircles(s).s)
  {
    hide SameForApp, Reachable, Accounts;
    var t := BreakCircles(s).s;
    if s.cursor.Some? { BreakStep(s, s.cursor.value, t); } else { QuietStep(s, t); }
  }

  lemma InitStatesKeep(s: GC)
    requires Inv(s) && (s.detectState.ClearCountersInit? || s.detectState.BuildMapInit? || s.detectState.CountReferencesInit?
                        || s.detectState.DetectGarbageInit? || s.detectState.BreakCirclesInit?)
    ensures Step(s, DetectPass(s).s)
  {
    hide Accounts, Inner, Out, Reachable;
    var t := DetectPass(s).s;
    QuietStep(s, t);
    if s.detectState.CountReferencesInit? || s.detectState.BuildMapInit? || s.detectState.DetectGarbageInit? { assert Balanced(t); }
    if s.detectState.DetectGarbageInit? { assert LooseEnds(t, []) && Queued(t, false); }
  }

  /** One pass through the detection switch keeps the invariant and everything the application can reach. */
  lemma DetectPassKeeps(s: GC)
    requires Inv(s)
    ensures Step(s, DetectPass(s).s)
  {
    hide Sound, SameForApp, Reachable, Balanced, LooseEnds, Queued, NonePositive, Sealed, Touched, Isolated;
    match s.detectState {
      case ClearCountersLoop => ClearCountersKeeps(s);
      case BuildMapLoop => BuildMapKeeps(s);
      case CountReferencesLoop => CountReferencesKeeps(s);
      case DetectGarbageLoop1 => FindLiveKeeps(s);
      case DetectGarbageLoop2 => RemoveLiveKeeps(s);
      case VerifyUnmarkedInit => QuietStep(s, DetectPass(s).s); VerifyInitPhase(s);
      case VerifyUnmarkedLoop => QuietStep(s, DetectPass(s).s); VerifyUnmarkedPhase(s);
      case BreakCirclesLoop => BreakCirclesKeeps(s);
      case BreakCirclesHaveGarbage => BreakCirclesKeeps(s);
      case _ => InitStatesKeep(s);
    }
  }

  lemma StepTrans(s: GC, t: GC, u: GC)
    requires Step(s, t) && Step(t, u)
    ensures Step(s, u)
  {
    hide Phase, Sound, Reachable, Listed;
    SameReach(s.heap, t.heap);
    SameForAppTrans(s.heap, t.heap, u.heap);
  }

  lemma AgainDescends(s: GC)
    ensures DetectPass(s).Again? ==> Rank(DetectPass(s).s.detectState) < Rank(s.detectState)
  {
  }

  lemma IdentifyUnfolds(s: GC)
    ensures match DetectPass(s) case Again(t) => Identify(s) == Identify(t) case Return(t, r) => Identify(s) == (t, r)
  {
  }

  lemma {:induction false} IdentifyKeeps(s: GC)
    requires Inv(s)
    ensures Step(s, Identify(s).0)
    decreases Rank(s.detectState)
  {
    hide Phase, Sound, SameForApp, Reachable, Listed;
    DetectPassKeeps(s);
    AgainDescends(s);
    IdentifyUnfolds(s);
    var p := DetectPass(s);
    if p.Again? {
      IdentifyKeeps(p.s);
      StepTrans(s, p.s, Identify(p.s).0);
    }
  }
}
