/** What the search for live objects leaves in the map, when the application does not run meanwhile. */
module CollectorMarking {
  import opened Options
  import opened ObjectHeap
  import opened CollectorSteps
  import opened CollectorSafety
  import opened CollectorComplete

  /** Known not to be dead: the flag is cleared, or a reference was not found in the map. */
  predicate Root(s: GC, o: Obj) {
    o in s.gcMap && (o !in s.heap.flagged || s.gcMap[o] > 0)
  }

  /** n references inside the map lead from a root to o. */
  ghost predicate LedTo(s: GC, o: Obj, n: nat)
    decreases n
  {
    o in s.gcMap && if n == 0 then Root(s, o) else exists p :: LedTo(s, p, n - 1) && o in Held(s.heap.refs, p)
  }

  /** Reachable from the roots inside the map. */
  ghost predicate Alive(s: GC, o: Obj) {
    exists n: nat :: LedTo(s, o, n)
  }

  lemma AliveRoot(s: GC, o: Obj)
    requires Root(s, o)
    ensures Alive(s, o)
  {
    assert LedTo(s, o, 0);
  }

  lemma AliveNext(s: GC, p: Obj, o: Obj)
    requires Alive(s, p) && o in s.gcMap && o in Held(s.heap.refs, p)
    ensures Alive(s, o)
  {
    var n: nat :| LedTo(s, p, n);
    assert LedTo(s, o, n + 1);
  }

  /** A set that holds the roots and what its members refer to holds everything alive. */
  lemma {:induction false} AliveIn(s: GC, a: set<Obj>, o: Obj, n: nat)
    requires LedTo(s, o, n) && (forall r :: Root(s, r) ==> r in a)
    requires forall p, x :: p in a && x in s.gcMap && x in Held(s.heap.refs, p) ==> x in a
    ensures o in a
    decreases n
  {
    if n > 0 {
      var p :| LedTo(s, p, n - 1) && o in Held(s.heap.refs, p);
      AliveIn(s, a, p, n - 1);
    }
  }

  // ---- While the search runs ----

  /** Nothing has been removed yet; the roots before the cursor are queued, and nothing else. */
  ghost predicate Finding(s0: GC, t: GC) {
    && t.heap == s0.heap && t.gcMap == s0.gcMap
    && (forall o :: o in t.live ==> Alive(s0, o))
    && (forall o :: Root(s0, o) && Visited(t, o) ==> o in t.live)
  }

  /** What was removed is alive, and so is what is queued; the queue has all the roots still mapped, and all that removed
      objects refer to. */
  ghost predicate Removing(s0: GC, t: GC) {
    && t.heap.refs == s0.heap.refs && t.gcMap.Keys <= s0.gcMap.Keys
    && (forall o :: o in s0.gcMap && o !in t.gcMap ==> Alive(s0, o))
    && (forall o :: o in t.live ==> Alive(s0, o))
    && (forall o :: Root(s0, o) && o in t.gcMap ==> o in t.live)
    && (forall p, o :: p in s0.gcMap && p !in t.gcMap && o in t.gcMap && o in Held(t.heap.refs, p) ==> o in t.live)
  }

  ghost predicate Searching(s0: GC, t: GC) {
    match t.detectState
    case DetectGarbageInit => t == s0
    case DetectGarbageLoop1 => Finding(s0, t)
    case DetectGarbageLoop2 => Removing(s0, t)
    case VerifyUnmarkedInit => forall o :: o in t.gcMap <==> o in s0.gcMap && !Alive(s0, o)
    case _ => false
  }

  lemma FindStep(s0: GC, t: GC)
    requires Sound(t) && t.detectState.DetectGarbageLoop1? && Finding(s0, t)
    ensures Searching(s0, DetectPass(t).s)
  {
    hide Alive, Accounts;
    if t.cursor.Some? {
      var o := t.cursor.value;
      var u := FindLive(t).s;
      VisitedShrinks(t, u, o);
      if Root(s0, o) { AliveRoot(s0, o); }
      forall r | Root(s0, r) && Visited(u, r) ensures r in u.live { assert r in t.gcMap; }
    }
  }

  /** Removing a queued object queues what it refers to. */
  lemma RemoveSome(s0: GC, t: GC, o: Obj, rest: seq<Obj>, u: GC)
    requires Removing(s0, t) && t.live == rest + [o] && o in s0.gcMap
    requires u.heap.refs == t.heap.refs && u.gcMap == t.gcMap - {o}
    requires u.live == MarkRefs(u.gcMap, rest, if o in t.gcMap then Held(u.heap.refs, o) else [])
    ensures Removing(s0, u)
  {
    hide Alive;
    var refs := if o in t.gcMap then Held(u.heap.refs, o) else [];
    MarkRefsHas(u.gcMap, rest, refs);
    assert o in t.live;
    forall x | x in u.live ensures Alive(s0, x) {
      if x in rest { assert x in t.live; } else { AliveNext(s0, o, x); }
    }
    assert forall x :: x in t.live ==> x in rest || x == o;
  }

  lemma RemoveNone(s0: GC, t: GC)
    requires Removing(s0, t) && t.live == []
    ensures forall o :: o in t.gcMap <==> o in s0.gcMap && !Alive(s0, o)
  {
    var gone := s0.gcMap.Keys - t.gcMap.Keys;
    forall o, n: nat | LedTo(s0, o, n) ensures o in gone { AliveIn(s0, gone, o, n); }
  }

  lemma AliveMapped(s: GC, o: Obj)
    requires Alive(s, o)
    ensures o in s.gcMap
  {
  }

  lemma RemoveStep(s0: GC, t: GC)
    requires Sound(t) && t.detectState.DetectGarbageLoop2? && Removing(s0, t)
    ensures Searching(s0, DetectPass(t).s)
  {
    hide Alive, Accounts, Removing, Sound;
    if |t.live| > 0 {
      var o, rest := t.live[|t.live| - 1], t.live[..|t.live| - 1];
      var u := RemoveLive(t).s;
      RemoveLiveAt(t, o, rest, u);
      QueuedAlive(s0, t, o);
      AliveMapped(s0, o);
      RemoveSome(s0, t, o, rest, u);
    } else {
      RemoveNone(s0, t);
    }
  }

  lemma QueuedAlive(s0: GC, t: GC, o: Obj)
    requires Removing(s0, t) && o in t.live
    ensures Alive(s0, o)
  {
  }

  lemma StartSearch(s0: GC)
    requires s0.detectState.DetectGarbageInit?
    ensures Finding(s0, DetectPass(s0).s)
  {
  }

  lemma FoundAll(s0: GC, t: GC)
    requires Finding(s0, t) && t.cursor.None?
    ensures Removing(s0, t)
  {
    forall r | Root(s0, r) ensures r in t.live { assert Visited(t, r); }
  }

  // ---- The search as a whole ----

  /** Passes through the switch, as long as the search goes on. */
  function Search(t: GC, fuel: nat): GC
    decreases fuel
  {
    if fuel == 0 || t.detectState.VerifyUnmarkedInit? then t else Search(DetectPass(t).s, fuel - 1)
  }

  ghost predicate InSearch(t: GC) {
    t.detectState.DetectGarbageInit? || t.detectState.DetectGarbageLoop1? || t.detectState.DetectGarbageLoop2? || t.detectState.VerifyUnmarkedInit?
  }

  ghost function Phases(t: GC): nat {
    match t.detectState case DetectGarbageInit => 3 case DetectGarbageLoop1 => 2 case DetectGarbageLoop2 => 1 case _ => 0
  }

  ghost function Left(t: GC): nat {
    match t.detectState case DetectGarbageLoop1 => |Unvisited(t)| case DetectGarbageLoop2 => |t.gcMap| case _ => 0
  }

  /** Every pass brings the end nearer: an object is looked at, removed, or taken off the queue, although objects may have been
      queued over and over. */
  lemma SearchStep(s0: GC, t: GC)
    requires Inv(t) && InSearch(t) && !t.detectState.VerifyUnmarkedInit? && Searching(s0, t)
    ensures var u := DetectPass(t).s;
      && Inv(u) && InSearch(u) && Searching(s0, u)
      && (Phases(u) < Phases(t) || (Phases(u) == Phases(t) && (Left(u) < Left(t) || (Left(u) == Left(t) && |u.live| < |t.live|))))
  {
    hide Inv, Searching, Step, DetectPass, Unvisited, Sound;
    SearchInv(s0, t);
    match t.detectState
    case DetectGarbageInit => SearchingInit(s0, t);
    case DetectGarbageLoop1 => SearchingLoop1(s0, t);
    case _ => SearchingLoop2(s0, t);
  }

  lemma SearchInv(s0: GC, t: GC)
    requires Inv(t)
    ensures Inv(DetectPass(t).s) && Sound(t)
  {
    DetectPassKeeps(t);
  }

  lemma SearchingInit(s0: GC, t: GC)
    requires t.detectState.DetectGarbageInit? && Searching(s0, t)
    ensures Searching(s0, DetectPass(t).s) && DetectPass(t).s.detectState.DetectGarbageLoop1?
  {
    StartSearch(s0);
  }

  lemma SearchingLoop1(s0: GC, t: GC)
    requires Sound(t) && t.detectState.DetectGarbageLoop1? && Searching(s0, t)
    ensures var u := DetectPass(t).s;
      Searching(s0, u) && (u.detectState.DetectGarbageLoop2? || (u.detectState.DetectGarbageLoop1? && |Unvisited(u)| < |Unvisited(t)|))
  {
    if t.cursor.Some? {
      FindStep(s0, t);
      VisitedShrinks(t, FindLive(t).s, t.cursor.value);
    } else {
      FoundAll(s0, t);
    }
  }

  lemma SearchingLoop2(s0: GC, t: GC)
    requires Sound(t) && t.detectState.DetectGarbageLoop2? && Searching(s0, t)
    ensures var u := DetectPass(t).s;
      Searching(s0, u) && (u.detectState.VerifyUnmarkedInit? || (u.detectState.DetectGarbageLoop2? &&
        (|u.gcMap| < |t.gcMap| || (|u.gcMap| == |t.gcMap| && |u.live| < |t.live|))))
  {
    RemoveStep(s0, t);
  }

  /** Without the application running, the search ends, and leaves in the map exactly the objects that cannot be reached inside
      the map from one whose flag is cleared or whose remaining counter is positive. */
  lemma {:induction false} SearchExact(s0: GC, t: GC) returns (fuel: nat)
    requires Inv(t) && InSearch(t) && Searching(s0, t)
    ensures var u := Search(t, fuel);
      u.detectState.VerifyUnmarkedInit? && Inv(u) && forall o :: o in u.gcMap <==> o in s0.gcMap && !Alive(s0, o)
    decreases Phases(t), Left(t), |t.live|
  {
    hide Inv, Alive, DetectPass;
    if t.detectState.VerifyUnmarkedInit? {
      fuel := 0;
    } else {
      SearchStep(s0, t);
      var n := SearchExact(s0, DetectPass(t).s);
      fuel := n + 1;
    }
  }

  /** The same, from the state in which the search begins. */
  lemma GarbageIsNotAlive(s: GC) returns (fuel: nat)
    requires Inv(s) && s.detectState.DetectGarbageInit?
    ensures var u := Search(s, fuel);
      u.detectState.VerifyUnmarkedInit? && forall o :: o in u.gcMap <==> o in s.gcMap && !Alive(s, o)
  {
    fuel := SearchExact(s, s);
  }
}
