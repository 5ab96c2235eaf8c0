/** Why nothing is promised of garbage behind the sweep of the old list: while the application goes on registering objects that it
    keeps, the list can grow as fast as the sweep moves on, and the sweep never comes back. */
module CollectorBehind {
  import opened Options
  import opened ObjectHeap
  import opened CollectorSteps
  import opened CollectorSafety
  import opened CollectorRuns
  import opened CollectorHalves
  import opened CollectorProgress

  // ---- The new list when nothing in it is destroyed ----

  /** How often each new object has been looked at, and where the sweep is. */
  datatype Ages = Ages(counts: seq<nat>, idx: int, state: DestroyState)

  function Counts(s: seq<Entry>): (r: seq<nat>)
    ensures |r| == |s| && forall i :: 0 <= i < |s| ==> r[i] == s[i].count
  {
    seq(|s|, i requires 0 <= i < |s| => s[i].count)
  }

  function AgesOf(s: GC): Ages { Ages(Counts(s.newObjs), s.newIdx, s.newState) }

  /** One look, and how many objects it promotes. */
  function Look(a: Ages): (Ages, nat) {
    if a.state.DestroyInit? && a.counts == [] then (a, 0)
    else
      var i := if a.state.DestroyInit? then 0 else a.idx + 1;
      var n := |a.counts|;
      if !(0 <= i < n) then (Ages(a.counts, i, DestroyInit), 0)
      else if a.counts[i] == 3 then
        (Ages(if i == n - 1 then a.counts[..i] else a.counts[i := a.counts[n - 1]][..n - 1], i - 1, DestroyLoop), 1)
      else (Ages(a.counts[i := a.counts[i] + 1], i, DestroyLoop), 0)
  }

  /** Looks one after another, with how many objects they have promoted. */
  ghost predicate Follow(t: seq<(Ages, nat)>) {
    && |t| > 0 && t[0].1 == 0
    && forall k: nat {:trigger t[k]} :: k + 1 < |t| ==> LeadsTo(t[k], t[k + 1])
  }

  predicate LeadsTo(a: (Ages, nat), b: (Ages, nat)) {
    Look(a.0).0 == b.0 && a.1 + Look(a.0).1 == b.1
  }

  /** Everything listed but x is held by the application. */
  ghost predicate Others(s: GC, x: Obj) {
    Inv(s) && !s.newState.DestroyHaveMore? && x !in Objs(s.newObjs) && forall o :: o in Listed(s) && o != x ==> o in s.heap.outside
  }

  lemma HeldTwice(s: GC, x: Obj, o: Obj)
    requires Others(s, x) && o in Listed(s) && o != x
    ensures s.heap.count[o] != 1
  {
    assert Own(s)[o] >= Listed(s)[o];
  }

  lemma NewListed(s: GC, i: nat)
    requires i < |s.newObjs|
    ensures s.newObjs[i].obj in Listed(s)
  {
    assert Objs(s.newObjs)[i] in multiset(Objs(s.newObjs));
  }

  /** At an entry, or at the end. */
  lemma {:induction false} LookAtEntry(s: GC, t: GC, i: int)
    requires s.newState.DestroyLoop? && i == s.newIdx + 1 >= 0 && (i < |s.newObjs| ==> s.heap.count[s.newObjs[i].obj] != 1)
    requires t == DestroyNewPass(s).s
    ensures DestroyNewPass(s).Return? && Counts(t.newObjs) == Look(AgesOf(s)).0.counts && (t.newIdx, t.newState) == (Look(AgesOf(s)).0.idx, Look(AgesOf(s)).0.state)
    ensures |t.oldObjs| == |s.oldObjs| + Look(AgesOf(s)).1 && s.oldObjs <= t.oldObjs && t.heap == s.heap
    ensures forall e :: e in t.newObjs ==> exists d :: d in s.newObjs && d.obj == e.obj
  {
    hide Release;
    if i < |s.newObjs| && s.newObjs[i].count != 3 {
      var e := s.newObjs[i];
      assert t.newObjs == s.newObjs[i := Entry(e.obj, e.count + 1)];
    }
  }

  lemma {:induction false} LookIs(s: GC)
    requires s.newIdx >= -1 && !s.newState.DestroyHaveMore? && forall i :: 0 <= i < |s.newObjs| ==> s.heap.count[s.newObjs[i].obj] != 1
    ensures var t, l := DestroyNew(s).0, Look(AgesOf(s));
      && AgesOf(t) == l.0 && |t.oldObjs| == |s.oldObjs| + l.1 && s.oldObjs <= t.oldObjs && t.heap == s.heap
      && forall e :: e in t.newObjs ==> exists d :: d in s.newObjs && d.obj == e.obj
  {
    hide DestroyNewPass, Look, Counts;
    var s1 := if s.newState.DestroyInit? then s.(newIdx := -1, newState := DestroyLoop) else s;
    if s.newState.DestroyInit? { LookFirst(s); }
    if !(s.newState.DestroyInit? && s.newObjs == []) {
      DestroyNewUnfolds(s1);
      LookAtEntry(s1, DestroyNewPass(s1).s, s1.newIdx + 1);
    }
  }

  lemma {:induction false} LookFirst(s: GC)
    requires s.newState.DestroyInit?
    ensures var s1 := s.(newIdx := -1, newState := DestroyLoop);
      if s.newObjs == [] then DestroyNew(s) == (s, 0) && Look(AgesOf(s)) == (AgesOf(s), 0)
      else DestroyNew(s) == DestroyNew(s1) && Look(AgesOf(s)) == Look(AgesOf(s1))
  {
    DestroyNewUnfolds(s);
  }

  lemma LookOthers(s: GC, x: Obj)
    requires Others(s, x)
    ensures var t, l := DestroyNew(s).0, Look(AgesOf(s));
      Others(t, x) && AgesOf(t) == l.0 && |t.oldObjs| == |s.oldObjs| + l.1 && s.oldObjs <= t.oldObjs
  {
    hide Phase, DestroyNew, Look, Accounts;
    forall i | 0 <= i < |s.newObjs| ensures s.heap.count[s.newObjs[i].obj] != 1 {
      NewListed(s, i);
      assert s.newObjs[i].obj == Objs(s.newObjs)[i];
      HeldTwice(s, x, s.newObjs[i].obj);
    }
    LookIs(s);
    DestroyNewKeeps(s);
    var t := DestroyNew(s).0;
    NotNew(s, t, x);
    NotRestarting(s);
  }

  lemma NotNew(s: GC, t: GC, x: Obj)
    requires x !in Objs(s.newObjs) && forall e :: e in t.newObjs ==> exists d :: d in s.newObjs && d.obj == e.obj
    ensures x !in Objs(t.newObjs)
  {
  }

  lemma NotRestarting(s: GC)
    requires !s.newState.DestroyHaveMore?
    ensures !Look(AgesOf(s)).0.state.DestroyHaveMore?
  {
  }

  lemma {:induction false} LooksOthers(s: GC, t: seq<(Ages, nat)>, n: nat, x: Obj)
    requires Others(s, x) && Follow(t) && t[0].0 == AgesOf(s) && n < |t|
    ensures var r := RepeatDestroyNew(s, n);
      Others(r, x) && AgesOf(r) == t[n].0 && |r.oldObjs| == |s.oldObjs| + t[n].1 && s.oldObjs <= r.oldObjs
    decreases n
  {
    hide Others, DestroyNew, Look, AgesOf;
    if n > 0 {
      LooksOthers(s, t, n - 1, x);
      LookOthers(RepeatDestroyNew(s, n - 1), x);
      assert LeadsTo(t[n - 1], t[n - 1 + 1]);
    }
  }

  // ---- Four registrations, and the new list is as it was ----

  function Pattern(j: nat): Ages {
    match j
    case 0 => Ages([1, 2, 3, 0], 2, DestroyLoop)
    case 1 => Ages([2, 3, 3, 1, 0], 1, DestroyLoop)
    case 2 => Ages([3, 3, 1, 2, 0], 0, DestroyLoop)
    case _ => Ages([3, 1, 2, 3, 0], 4, DestroyInit)
  }

  function Next(j: nat): nat { if j < 3 then j + 1 else 0 }

  /** How many of them are promoted in each. */
  function Promoted(j: nat): nat { match j case 0 => 0 case 1 => 1 case 2 => 1 case _ => 2 }

  function Trace(j: nat): seq<(Ages, nat)> {
    match j
    case 0 => [
        (Ages([1, 2, 3, 0], 2, DestroyLoop), 0),
        (Ages([1, 2, 3, 1], 3, DestroyLoop), 0),
        (Ages([1, 2, 3, 1], 4, DestroyInit), 0),
        (Ages([2, 2, 3, 1], 0, DestroyLoop), 0),
        (Ages([2, 3, 3, 1], 1, DestroyLoop), 0)]
    case 1 => [
        (Ages([2, 3, 3, 1, 0], 1, DestroyLoop), 0),
        (Ages([2, 3, 0, 1], 1, DestroyLoop), 1),
        (Ages([2, 3, 1, 1], 2, DestroyLoop), 1),
        (Ages([2, 3, 1, 2], 3, DestroyLoop), 1),
        (Ages([2, 3, 1, 2], 4, DestroyInit), 1),
        (Ages([3, 3, 1, 2], 0, DestroyLoop), 1)]
    case 2 => [
        (Ages([3, 3, 1, 2, 0], 0, DestroyLoop), 0),
        (Ages([3, 0, 1, 2], 0, DestroyLoop), 1),
        (Ages([3, 1, 1, 2], 1, DestroyLoop), 1),
        (Ages([3, 1, 2, 2], 2, DestroyLoop), 1),
        (Ages([3, 1, 2, 3], 3, DestroyLoop), 1),
        (Ages([3, 1, 2, 3], 4, DestroyInit), 1)]
    case _ => [
        (Ages([3, 1, 2, 3, 0], 4, DestroyInit), 0),
        (Ages([0, 1, 2, 3], -1, DestroyLoop), 1),
        (Ages([1, 1, 2, 3], 0, DestroyLoop), 1),
        (Ages([1, 2, 2, 3], 1, DestroyLoop), 1),
        (Ages([1, 2, 3, 3], 2, DestroyLoop), 1),
        (Ages([1, 2, 3], 2, DestroyLoop), 2)]
  }

  lemma Traced0(t: seq<(Ages, nat)>)
    requires t == Trace(0)
    ensures Follow(t)
  {
    assert Look(t[0].0).0.counts == t[1].0.counts && LeadsTo(t[0], t[1]);
    assert Look(t[1].0).0.counts == t[2].0.counts && LeadsTo(t[1], t[2]);
    assert Look(t[2].0).0.counts == t[3].0.counts && LeadsTo(t[2], t[3]);
    assert Look(t[3].0).0.counts == t[4].0.counts && LeadsTo(t[3], t[4]);
  }

  lemma Traced1(t: seq<(Ages, nat)>)
    requires t == Trace(1)
    ensures Follow(t)
  {
    assert Look(t[0].0).0.counts == t[1].0.counts && LeadsTo(t[0], t[1]);
    assert Look(t[1].0).0.counts == t[2].0.counts && LeadsTo(t[1], t[2]);
    assert Look(t[2].0).0.counts == t[3].0.counts && LeadsTo(t[2], t[3]);
    assert Look(t[3].0).0.counts == t[4].0.counts && LeadsTo(t[3], t[4]);
    assert Look(t[4].0).0.counts == t[5].0.counts && LeadsTo(t[4], t[5]);
  }

  lemma Traced2(t: seq<(Ages, nat)>)
    requires t == Trace(2)
    ensures Follow(t)
  {
    assert Look(t[0].0).0.counts == t[1].0.counts && LeadsTo(t[0], t[1]);
    assert Look(t[1].0).0.counts == t[2].0.counts && LeadsTo(t[1], t[2]);
    assert Look(t[2].0).0.counts == t[3].0.counts && LeadsTo(t[2], t[3]);
    assert Look(t[3].0).0.counts == t[4].0.counts && LeadsTo(t[3], t[4]);
    assert Look(t[4].0).0.counts == t[5].0.counts && LeadsTo(t[4], t[5]);
  }

  lemma Traced3(t: seq<(Ages, nat)>)
    requires t == Trace(3)
    ensures Follow(t)
  {
    assert Look(t[0].0).0.counts == t[1].0.counts && LeadsTo(t[0], t[1]);
    assert Look(t[1].0).0.counts == t[2].0.counts && LeadsTo(t[1], t[2]);
    assert Look(t[2].0).0.counts == t[3].0.counts && LeadsTo(t[2], t[3]);
    assert Look(t[3].0).0.counts == t[4].0.counts && LeadsTo(t[3], t[4]);
    assert Look(t[4].0).0.counts == t[5].0.counts && LeadsTo(t[4], t[5]);
  }

  lemma PatternNext(j: nat)
    requires j < 4
    ensures var t := Trace(j); var n := |Pattern(j).counts|;
      && Follow(t) && |t| == n + 1 && t[0].0 == Pattern(j)
      && t[n].0.(counts := t[n].0.counts + [0]) == Pattern(Next(j)) && t[n].1 == Promoted(j)
  {
    hide Follow;
    match j {
      case 0 => Traced0(Trace(j));
      case 1 => Traced1(Trace(j));
      case 2 => Traced2(Trace(j));
      case _ => Traced3(Trace(j));
    }
  }

  // ---- The sweep that never ends ----

  /** x is behind the sweep of the old list, with enough ahead of that for the four registrations; the new list is at the j-th. */
  ghost predicate Behind(s: GC, x: Obj, j: nat) {
    && j < 4 && Others(s, x) && AgesOf(s) == Pattern(j) && s.oldState.DestroyLoop?
    && s.oldIdx + (if j == 0 then 2 else 1) < |s.oldObjs|
    && exists k: nat :: k <= s.oldIdx && k < |s.oldObjs| && s.oldObjs[k].obj == x
  }

  lemma BehindAlive(s: GC, x: Obj, j: nat)
    requires Behind(s, x, j)
    ensures x in s.heap.refs && x in Listed(s)
  {
    var k: nat :| k <= s.oldIdx && k < |s.oldObjs| && s.oldObjs[k].obj == x;
    assert Objs(s.oldObjs)[k] in multiset(Objs(s.oldObjs));
    assert x in Own(s);
    assert x in s.heap.count;
  }

  lemma NotYetListed(s: GC, o: Obj)
    requires Inv(s) && o !in s.heap.refs
    ensures o !in Listed(s)
  {
  }

  /** The application creates an object that it keeps. */
  lemma CreatedBehind(s: GC, x: Obj, j: nat, o: Obj)
    requires Behind(s, x, j) && o !in s.heap.refs
    ensures var s1 := s.(heap := Mutate(s.heap, Create(o)));
      Behind(s1, x, j) && o in s1.heap.outside && o !in Listed(s1) && Reachable(s1.heap, o)
  {
    hide Phase, Sound, Reachable;
    var s1 := s.(heap := Mutate(s.heap, Create(o)));
    AppKeeps(s, Create(o));
    assert Listed(s1) == Listed(s);
    NotYetListed(s, o);
    ReachOutside(s1.heap, o);
  }

  /** Another reference that it takes. */
  lemma CopiedBehind(s: GC, x: Obj, j: nat, o: Obj)
    requires Behind(s, x, j) && Reachable(s.heap, o)
    ensures Behind(s.(heap := Mutate(s.heap, Copy(o))), x, j)
  {
    hide Phase, Sound, Reachable;
    AppKeeps(s, Copy(o));
    assert Listed(s.(heap := Mutate(s.heap, Copy(o)))) == Listed(s);
  }

  lemma DetectedOthers(s: GC, x: Obj)
    requires Others(s, x)
    ensures var m := Identify(s).0; Others(m, x) && AgesOf(m) == AgesOf(s)
    ensures var m := Identify(s).0; m.oldObjs == s.oldObjs && m.oldIdx == s.oldIdx && m.oldState == s.oldState && m.heap.outside == s.heap.outside
  {
    hide Phase, Sound, Identify;
    IdentifySameLists(s);
    IdentifyKeeps(s);
    StepOutside(s, Identify(s).0);
    SameOthers(s, Identify(s).0, x);
  }

  /** The sweep moves on by one object, which is not x. */
  lemma SweptOthers(s: GC, x: Obj, k: nat)
    requires Others(s, x) && s.oldState.DestroyLoop? && k <= s.oldIdx && s.oldIdx + 1 < |s.oldObjs| && s.oldObjs[k].obj == x
    ensures DestroyOld(s).0 == s.(oldIdx := s.oldIdx + 1) && Others(DestroyOld(s).0, x) && AgesOf(DestroyOld(s).0) == AgesOf(s)
  {
    hide Phase, Accounts, DestroyOld;
    var i := s.oldIdx + 1;
    var o := s.oldObjs[i].obj;
    assert Objs(s.oldObjs)[i] in multiset(Objs(s.oldObjs));
    assert o != x by { DifferentOld(s, k, i); }
    HeldTwice(s, x, o);
    SweepOn(s);
    DestroyOldKeeps(s);
    SameOthers(s, DestroyOld(s).0, x);
  }

  lemma SweepOn(s: GC)
    requires s.oldState.DestroyLoop? && 0 <= s.oldIdx + 1 < |s.oldObjs| && s.heap.count[s.oldObjs[s.oldIdx + 1].obj] != 1
    ensures DestroyOld(s) == (s.(oldIdx := s.oldIdx + 1), 1)
  {
    hide Release, SwapRemove;
    DestroyOldUnfolds(s);
  }

  lemma SameOthers(s: GC, t: GC, x: Obj)
    requires Others(s, x) && Inv(t) && t.newObjs == s.newObjs && t.oldObjs == s.oldObjs && t.heap.outside == s.heap.outside
    requires t.newState == s.newState && t.newIdx == s.newIdx
    ensures Others(t, x) && AgesOf(t) == AgesOf(s)
  {
    hide Inv;
    assert Listed(t) == Listed(s);
  }

  lemma OthersInv(s: GC, x: Obj)
    requires Others(s, x)
    ensures Inv(s) && s.newIdx >= -1
  {
  }

  lemma DifferentOld(s: GC, k: nat, i: nat)
    requires Sound(s) && k < i < |s.oldObjs|
    ensures s.oldObjs[k].obj != s.oldObjs[i].obj
  {
    var q := Objs(s.oldObjs);
    assert Listed(s)[q[i]] <= 1;
    if q[k] == q[i] { SeenTwice(q, k, i); }
  }

  /** Registering an object that the application holds: the sweep moves on, and as many objects are promoted as it needs. */
  lemma RegisteredBehind(s: GC, x: Obj, j: nat, o: Obj)
    requires Behind(s, x, j) && o in s.heap.outside && o !in Listed(s) && Reachable(s.heap, o)
    ensures Behind(AddObject(s, o, true), x, Next(j))
  {
    hide Others, AgesOf, Reachable, Identify, DestroyOld, RepeatDestroyNew, Follow, Trace, Pattern, Listed;
    var k: nat :| k <= s.oldIdx && k < |s.oldObjs| && s.oldObjs[k].obj == x;
    var s1 := s.(heap := Mutate(s.heap, Copy(o)));
    CopiedBehind(s, x, j, o);
    var m := Identify(s1).0;
    DetectedOthers(s1, x);
    var u := DestroyOld(m).0;
    SweptOthers(m, x, k);
    var n := |Pattern(j).counts|;
    PatternSize(j);
    SizeIs(s1);
    SizeIs(u);
    PatternNext(j);
    LooksOthers(u, Trace(j), n, x);
    var r := RepeatDestroyNew(u, n);
    OthersInv(s, x);
    OthersInv(u, x);
    StillSwept(u, n);
    AutoIs(s1, m, u, n);
    BehindAlive(s, x, j);
    assert o != x;
    RegisteredIs(s, o, s1, r);
    PushedOthers(r, x, o, AddObject(s, o, true));
    assert r.oldObjs[k] == u.oldObjs[k];
  }

  lemma RegisteredIs(s: GC, o: Obj, s1: GC, r: GC)
    requires Inv(s) && Reachable(s.heap, o) && o in s.heap.outside && o !in Listed(s) && s.newObjs != []
    requires s1 == s.(heap := Mutate(s.heap, Copy(o))) && r == AutoCollect(s1)
    ensures r.heap.outside[o] > 1 && o !in Listed(r)
    ensures AddObject(s, o, true) == r.(heap := r.heap.(outside := r.heap.outside - multiset{o}), newObjs := r.newObjs + [Entry(o, 0)])
  {
    hide Phase, Sound, Reachable, AutoCollect;
    AppKeeps(s, Copy(o));
    AutoCollectKeeps(s1);
    StepOutside(s1, r);
    assert Listed(s1) == Listed(s);
  }

  lemma PushedOthers(r: GC, x: Obj, o: Obj, t: GC)
    requires Others(r, x) && o != x && r.heap.outside[o] > 1 && o !in Listed(r)
    requires t == r.(heap := r.heap.(outside := r.heap.outside - multiset{o}), newObjs := r.newObjs + [Entry(o, 0)])
    ensures Others(t, x) && AgesOf(t) == AgesOf(r).(counts := AgesOf(r).counts + [0])
  {
    hide Phase, Sound;
    PushKeeps(r, o, t);
    PushListed(r, o, t);
    assert Counts(t.newObjs) == Counts(r.newObjs) + [0];
    assert Objs(t.newObjs) == Objs(r.newObjs) + [o];
  }

  lemma PatternSize(j: nat)
    requires j < 4
    ensures 0 < |Pattern(j).counts| <= 10
  {
  }

  lemma SizeIs(s: GC)
    ensures |AgesOf(s).counts| == |s.newObjs|
  {
  }

  lemma StillSwept(u: GC, n: nat)
    requires u.newIdx >= -1
    ensures var r := RepeatDestroyNew(u, n); r.oldState == u.oldState && r.oldIdx == u.oldIdx
  {
    RepeatAdvances(u, n, RepeatDestroyNew(u, n));
  }

  lemma AutoIs(s: GC, m: GC, u: GC, n: nat)
    requires m == Identify(s).0 && u == DestroyOld(m).0 && |s.oldObjs| > 0 && n == |u.newObjs| <= 10
    ensures AutoCollect(s) == RepeatDestroyNew(u, n)
  {
  }

  lemma {:induction false} AboveAll(s: set<Obj>) returns (o: Obj)
    ensures forall x :: x in s ==> x < o
    decreases s
  {
    if s == {} { return 0; }
    var y :| y in s;
    var p := AboveAll(s - {y});
    assert s == (s - {y}) + {y};
    o := if p > y then p else y + 1;
  }

  /** However long the application goes on creating objects that it keeps and registering them, x stays. */
  lemma {:induction false} BehindStays(s: GC, x: Obj, j: nat, n: nat) returns (evs: seq<Event>)
    requires Behind(s, x, j)
    ensures QuietRun(s, evs) && Registrations(evs) == n && !GoneIn(s, evs, x)
    decreases n
  {
    hide Behind, AddObject, Reachable, Mutate;
    BehindAlive(s, x, j);
    evs := [];
    if n > 0 {
      var o := AboveAll(s.heap.refs.Keys);
      assert o !in s.heap.refs;
      var s1 := s.(heap := Mutate(s.heap, Create(o)));
      CreatedBehind(s, x, j, o);
      BehindAlive(s1, x, j);
      RegisteredBehind(s1, x, j, o);
      var rest := BehindStays(AddObject(s1, o, true), x, Next(j), n - 1);
      var last := [Register(o, true)] + rest;
      assert last[1..] == rest && last[0] == Register(o, true);
      assert QuietRun(s1, last) && Registrations(last) == n && !GoneIn(s1, last, x);
      evs := [App(Create(o))] + last;
      assert evs[1..] == last && evs[0] == App(Create(o));
    }
  }

  /** Object 1 is garbage that the list alone refers to, behind a sweep that has two entries to go. */
  function BehindStart(): GC {
    GC(Heap(map[1 := [], 2 := [], 3 := [], 4 := [], 5 := [], 6 := [], 7 := []],
            multiset([2, 3, 4, 5, 6, 7]) + (multiset([4, 5, 6, 7]) + multiset([1, 2, 3])), multiset([2, 3, 4, 5, 6, 7]), {}),
       [Entry(4, 1), Entry(5, 2), Entry(6, 3), Entry(7, 0)], [Entry(1, 4), Entry(2, 4), Entry(3, 4)],
       map[], None, [], ClearCountersInit, 0, DestroyLoop, 2, DestroyLoop, 0, {})
  }

  lemma BehindStarts(s: GC)
    requires s == BehindStart()
    ensures Behind(s, 1, 0) && s.heap.count[1] == 1 && !Reachable(s.heap, 1)
  {
    hide Reachable, Out, Sound, Phase, Listed, Closed;
    StartSound(s);
    StartPhase(s);
    assert Counts(s.newObjs) == [1, 2, 3, 0];
    assert Objs(s.newObjs) == [4, 5, 6, 7];
    assert s.oldObjs[0].obj == 1;
    StartFree(s.heap);
  }

  lemma StartFree(h: Heap)
    requires h == BehindStart().heap
    ensures !Reachable(h, 1)
  {
    hide Reachable;
    var c := iset o | o in h.outside;
    assert Closed(h, c);
    ReachableInClosed(h, c);
  }

  lemma StartSound(s: GC)
    requires s == BehindStart()
    ensures Sound(s) && (forall o :: o in Listed(s) && o != 1 ==> o in s.heap.outside) && s.heap.count[1] == 1
  {
    hide Out, Accounts;
    StartListed(s);
    NothingHeld(s.heap.refs, s.heap.refs.Keys);
    assert Own(s) == Listed(s) by { assert multiset(s.gcMap.Keys) == multiset{}; }
    StartAccounts(s.heap, Own(s));
  }

  lemma StartListed(s: GC)
    requires s == BehindStart()
    ensures Listed(s) == multiset([4, 5, 6, 7]) + multiset([1, 2, 3]) && forall o :: Listed(s)[o] <= 1
  {
    assert Objs(s.newObjs) == [4, 5, 6, 7] && Objs(s.oldObjs) == [1, 2, 3];
  }

  lemma StartAccounts(h: Heap, own: multiset<Obj>)
    requires h == BehindStart().heap && own == multiset([4, 5, 6, 7]) + multiset([1, 2, 3]) && Inner(h) == multiset{}
    ensures Accounts(h, own)
  {
    hide Inner;
  }

  lemma StartPhase(s: GC)
    requires s == BehindStart()
    ensures Phase(s)
  {
  }

  lemma {:induction false} NothingHeld(refs: map<Obj, seq<Obj>>, s: set<Obj>)
    requires forall p :: Held(refs, p) == []
    ensures Out(refs, s) == multiset{}
    decreases s
  {
    if p :| p in s {
      OutTake(refs, s, p);
      NothingHeld(refs, s - {p});
    }
  }

  /** So no number of registrations is enough for every garbage object in every state. */
  lemma NeverComesBack(n: nat) returns (evs: seq<Event>)
    ensures QuietRun(BehindStart(), evs) && Registrations(evs) == n && !GoneIn(BehindStart(), evs, 1)
  {
    BehindStarts(BehindStart());
    evs := BehindStays(BehindStart(), 1, 0, n);
  }
}
