/** The application's memory as the garbage collector sees it: objects, the references they hold,
    the references held from outside the heap (script stacks, globals, the host application),
    the reference counters and the GC flags. The object behaviours the collector calls
    (addref, release, gcSetFlag, gcEnumReferences, gcReleaseAllReferences) are modelled on it. */
module ObjectHeap {
  import opened Options

  /** An object address. The collector's map is ordered by address. */
  type Obj = nat


  /** refs has exactly the live (allocated) objects as keys and gives the references each one holds.
      count[o] is the reference counter of o. */
  datatype Heap = Heap(refs: map<Obj, seq<Obj>>, count: multiset<Obj>, outside: multiset<Obj>, flagged: set<Obj>)

  function Held(refs: map<Obj, seq<Obj>>, p: Obj): seq<Obj> {
    if p in refs then refs[p] else []
  }

  /** The multiset of references held by the objects of s. */
  ghost function Out(refs: map<Obj, seq<Obj>>, s: set<Obj>): multiset<Obj> {
    if s == {} then multiset{} else
      var p :| p in s;
      multiset(Held(refs, p)) + Out(refs, s - {p})
  }

  /** All references held inside the heap. */
  ghost function Inner(h: Heap): multiset<Obj> {
    Out(h.refs, h.refs.Keys)
  }

  /** Every counter is the number of references: inside the heap, outside it, and own, those of the collector.
      An object exists exactly as long as its counter is positive. */
  ghost predicate Accounts(h: Heap, own: multiset<Obj>) {
    && h.count == Inner(h) + h.outside + own
    && (forall o :: o in h.count <==> o in h.refs)
    && h.flagged <= h.refs.Keys
  }

  // ---- Sums of references ----

  lemma {:induction false} OutTake(refs: map<Obj, seq<Obj>>, s: set<Obj>, p: Obj)
    requires p in s
    ensures Out(refs, s) == multiset(Held(refs, p)) + Out(refs, s - {p})
    decreases |s|
  {
    var q :| q in s && Out(refs, s) == multiset(Held(refs, q)) + Out(refs, s - {q});
    if q != p {
      OutTake(refs, s - {q}, p);
      OutTake(refs, s - {p}, q);
      assert s - {q} - {p} == s - {p} - {q};
    }
  }

  /** Sums agree at o when every summand does. */
  lemma {:induction false} OutSame(r1: map<Obj, seq<Obj>>, r2: map<Obj, seq<Obj>>, s: set<Obj>, o: Obj)
    requires forall p :: p in s ==> multiset(Held(r1, p))[o] == multiset(Held(r2, p))[o]
    ensures Out(r1, s)[o] == Out(r2, s)[o]
    decreases |s|
  {
    if s != {} {
      var p :| p in s;
      OutTake(r1, s, p);
      OutTake(r2, s, p);
      OutSame(r1, r2, s - {p}, o);
    }
  }

  lemma OutSameAll(r1: map<Obj, seq<Obj>>, r2: map<Obj, seq<Obj>>, s: set<Obj>)
    requires forall p :: p in s ==> Held(r1, p) == Held(r2, p)
    ensures Out(r1, s) == Out(r2, s)
  {
    forall o ensures Out(r1, s)[o] == Out(r2, s)[o] { OutSame(r1, r2, s, o); }
  }

  /** The larger set holds at least as many references, and more only through its extra members. */
  lemma {:induction false} OutGrow(refs: map<Obj, seq<Obj>>, s: set<Obj>, t: set<Obj>, o: Obj)
    requires s <= t
    ensures Out(refs, s)[o] <= Out(refs, t)[o]
    ensures Out(refs, s)[o] < Out(refs, t)[o] <==> exists p :: p in t - s && o in Held(refs, p)
    decreases |t|
  {
    if forall p :: p in t ==> p in s {
      assert s == t;
    } else {
      var p :| p in t && p !in s;
      OutTake(refs, t, p);
      OutGrow(refs, s, t - {p}, o);
      assert t - {p} - s == t - s - {p};
      assert (exists q :: q in t - s && o in Held(refs, q))
        <==> o in Held(refs, p) || exists q :: q in t - {p} - s && o in Held(refs, q);
    }
  }

  lemma OutMember(refs: map<Obj, seq<Obj>>, s: set<Obj>, o: Obj)
    ensures o in Out(refs, s) <==> exists p :: p in s && o in Held(refs, p)
  {
    OutGrow(refs, {}, s, o);
    assert s - {} == s;
  }

  // ---- Reachability from outside the heap ----

  ghost predicate Path(h: Heap, path: seq<Obj>) {
    && |path| > 0
    && path[0] in h.outside
    && forall i :: 0 <= i < |path| - 1 ==> path[i + 1] in Held(h.refs, path[i])
  }

  /** The application can get hold of o. */
  ghost predicate Reachable(h: Heap, o: Obj) {
    exists path :: Path(h, path) && path[|path| - 1] == o
  }

  lemma ReachOutside(h: Heap, o: Obj)
    requires o in h.outside
    ensures Reachable(h, o)
  {
    assert Path(h, [o]);
  }

  lemma ReachNext(h: Heap, p: Obj, o: Obj)
    requires Reachable(h, p) && o in Held(h.refs, p)
    ensures Reachable(h, o)
  {
    var path :| Path(h, path) && path[|path| - 1] == p;
    assert Path(h, path + [o]);
  }

  ghost predicate Closed(h: Heap, c: iset<Obj>) {
    && (forall o :: o in h.outside ==> o in c)
    && (forall p, o :: p in c && o in Held(h.refs, p) ==> o in c)
  }

  lemma {:induction false} ReachInClosed(h: Heap, c: iset<Obj>, path: seq<Obj>)
    requires Closed(h, c) && Path(h, path)
    ensures path[|path| - 1] in c
    decreases |path|
  {
    if |path| > 1 {
      var init := path[..|path| - 1];
      assert Path(h, init);
      ReachInClosed(h, c, init);
      assert path[|path| - 2 + 1] in Held(h.refs, path[|path| - 2]);
    }
  }

  /** A closed set contains everything reachable. */
  lemma ReachableInClosed(h: Heap, c: iset<Obj>)
    requires Closed(h, c)
    ensures forall o :: Reachable(h, o) ==> o in c
  {
    forall o | Reachable(h, o) ensures o in c {
      var path :| Path(h, path) && path[|path| - 1] == o;
      ReachInClosed(h, c, path);
    }
  }

  /** h2 has the same outside references as h1, and everything reachable in h1 is still there with the same references. */
  ghost predicate SameForApp(h1: Heap, h2: Heap) {
    && h1.outside == h2.outside
    && forall o {:trigger Reachable(h1, o)} :: Reachable(h1, o) ==> o in h1.refs && o in h2.refs && h1.refs[o] == h2.refs[o]
  }

  /** A set closed under the edges of h2 that the reachable objects of h1 form, whenever the two heaps agree on them. */
  lemma ReachableClosed(h1: Heap, h2: Heap)
    requires h1.outside == h2.outside
    requires forall o :: Reachable(h1, o) ==> Held(h1.refs, o) == Held(h2.refs, o)
    ensures forall o :: Reachable(h2, o) ==> Reachable(h1, o)
  {
    var c := iset o | Reachable(h1, o);
    forall o | o in h2.outside ensures o in c { ReachOutside(h1, o); }
    forall p, o | p in c && o in Held(h2.refs, p) ensures o in c { ReachNext(h1, p, o); }
    ReachableInClosed(h2, c);
  }

  /** What the application can reach is then exactly the same. */
  lemma SameReach(h1: Heap, h2: Heap)
    requires SameForApp(h1, h2)
    ensures forall o :: Reachable(h1, o) <==> Reachable(h2, o)
  {
    ReachableClosed(h1, h2);
    ReachableClosed(h2, h1);
  }

  lemma SameForAppTrans(h1: Heap, h2: Heap, h3: Heap)
    requires SameForApp(h1, h2) && SameForApp(h2, h3)
    ensures SameForApp(h1, h3)
  {
    SameReach(h1, h2);
  }

  /** Reachable objects are live. */
  lemma ReachableLive(h: Heap, own: multiset<Obj>)
    requires Accounts(h, own)
    ensures forall o :: Reachable(h, o) ==> o in h.refs
  {
    var c := iset o | o in h.refs;
    forall p, o | p in c && o in Held(h.refs, p) ensures o in c { OutMember(h.refs, h.refs.Keys, o); }
    forall o | o in h.outside ensures o in c { assert o in h.count; }
    assert Closed(h, c);
    ReachableInClosed(h, c);
  }

  // ---- Object behaviours ----

  /** addref: one more reference, and the flag is cleared. */
  function AddRef(h: Heap, o: Obj): Heap {
    h.(count := h.count + multiset{o}, flagged := h.flagged - {o})
  }

  function SetFlag(h: Heap, o: Obj): Heap {
    h.(flagged := h.flagged + {o})
  }

  /** release, once for each pending reference in turn. The flag is cleared and the counter decremented; when it
      reaches zero the object is destroyed and releases its own references before the next pending one is released.
      A reference that no counter accounts for is skipped; Accounts excludes that case. */
  function Release(h: Heap, pending: seq<Obj>): Heap
    decreases |h.count|, |pending|
  {
    if pending == [] then h else
      var o, rest := pending[0], pending[1..];
      if o !in h.count then Release(h, rest) else
        var h1 := h.(count := h.count - multiset{o}, flagged := h.flagged - {o});
        if o in h1.count then Release(h1, rest)
        else Release(h1.(refs := h1.refs - {o}), Held(h.refs, o) + rest)
  }

  /** gcReleaseAllReferences. */
  function ReleaseAllReferences(h: Heap, o: Obj): Heap {
    if o in h.refs then Release(h.(refs := h.refs[o := []]), h.refs[o]) else h
  }

  /** h2 comes from h1 by destroying objects: nothing else about references changes, and an object whose flag is
      still set at the end lost no reference. */
  ghost predicate Destroys(h1: Heap, h2: Heap) {
    && h2.outside == h1.outside
    && h2.refs.Keys <= h1.refs.Keys
    && (forall p :: p in h2.refs ==> h2.refs[p] == h1.refs[p])
    && h2.flagged <= h1.flagged
    && (forall p, o :: p in h1.refs && p !in h2.refs && o in h2.flagged ==> o !in h1.refs[p])
  }

  /** The counters stay right when the last reference to o is dropped and o's own references become pending. */
  lemma DestroyAccounts(h: Heap, o: Obj, rest: seq<Obj>, own: multiset<Obj>)
    requires Accounts(h, own + multiset{o} + multiset(rest)) && h.count[o] == 1
    ensures var h2 := Heap(h.refs - {o}, h.count - multiset{o}, h.outside, h.flagged - {o});
            Accounts(h2, own + multiset(Held(h.refs, o) + rest))
  {
    var h2 := Heap(h.refs - {o}, h.count - multiset{o}, h.outside, h.flagged - {o});
    OutTake(h.refs, h.refs.Keys, o);
    assert h2.refs.Keys == h.refs.Keys - {o};
    OutSameAll(h.refs, h2.refs, h2.refs.Keys);
    assert multiset(Held(h.refs, o) + rest) == multiset(Held(h.refs, o)) + multiset(rest);
    assert o in h.count;
  }

  /** The counters stay right when one of several references to o is dropped. */
  lemma SharedAccounts(h: Heap, o: Obj, own: multiset<Obj>)
    requires Accounts(h, own + multiset{o}) && h.count[o] > 1
    ensures Accounts(h.(count := h.count - multiset{o}, flagged := h.flagged - {o}), own)
  {
    var h1 := h.(count := h.count - multiset{o}, flagged := h.flagged - {o});
    forall x ensures x in h1.count <==> x in h1.refs { assert x in h.count <==> x in h.refs; }
  }

  lemma DestroyThenDestroys(h: Heap, o: Obj, h2: Heap, h3: Heap)
    requires Destroys(h2, h3) && h2.outside == h.outside && h2.refs == h.refs - {o} && h2.flagged == h.flagged - {o}
    requires forall x :: x in Held(h.refs, o) ==> x !in h3.flagged
    ensures Destroys(h, h3)
  {
    forall p, x | p in h.refs && p !in h3.refs && x in h3.flagged ensures x !in h.refs[p] {
      if p != o { assert p in h2.refs && h2.refs[p] == h.refs[p]; }
    }
  }

  lemma {:induction false} ReleaseLaws(h: Heap, pending: seq<Obj>, own: multiset<Obj>)
    requires Accounts(h, own + multiset(pending))
    ensures Accounts(Release(h, pending), own)
    ensures Destroys(h, Release(h, pending))
    ensures forall o :: o in pending ==> o !in Release(h, pending).flagged
    decreases |h.count|, |pending|
  {
    if pending == [] {
      assert own + multiset(pending) == own;
    } else {
      var o, rest := pending[0], pending[1..];
      assert pending == [o] + rest;
      assert own + multiset(pending) == own + multiset{o} + multiset(rest) == own + multiset(rest) + multiset{o};
      assert o in h.count;
      var h1 := h.(count := h.count - multiset{o}, flagged := h.flagged - {o});
      if o in h1.count {
        SharedAccounts(h, o, own + multiset(rest));
        ReleaseLaws(h1, rest, own);
        assert Release(h, pending) == Release(h1, rest);
      } else {
        DestroyAccounts(h, o, rest, own);
        var h2, more := h1.(refs := h1.refs - {o}), Held(h.refs, o) + rest;
        ReleaseLaws(h2, more, own);
        assert Release(h, pending) == Release(h2, more);
        forall x | x in Held(h.refs, o) ensures x in more { }
        DestroyThenDestroys(h, o, h2, Release(h2, more));
        forall x | x in rest ensures x in more { }
      }
    }
  }

  /** A flag is cleared only on an object that is released. */
  lemma {:induction false} ReleaseUnflags(h: Heap, pending: seq<Obj>, o: Obj)
    requires o in h.flagged && o !in Release(h, pending).flagged
    ensures o in pending || exists p :: p in h.refs && p !in Release(h, pending).refs && o in h.refs[p]
    decreases |h.count|, |pending|
  {
    var q, rest := pending[0], pending[1..];
    if q !in h.count {
      ReleaseUnflags(h, rest, o);
    } else if q != o {
      var h1 := h.(count := h.count - multiset{q}, flagged := h.flagged - {q});
      if q in h1.count {
        ReleaseUnflags(h1, rest, o);
      } else {
        var h2 := h1.(refs := h1.refs - {q});
        var more := Held(h.refs, q) + rest;
        ReleaseUnflags(h2, more, o);
        ReleaseOnlyDestroys(h2, more);
        if o in Held(h.refs, q) {
          assert q in h.refs && q !in Release(h, pending).refs;
        }
      }
    }
  }

  lemma {:induction false} ReleaseOnlyDestroys(h: Heap, pending: seq<Obj>)
    ensures Release(h, pending).refs.Keys <= h.refs.Keys
    decreases |h.count|, |pending|
  {
    if pending != [] {
      var o, rest := pending[0], pending[1..];
      if o !in h.count {
        ReleaseOnlyDestroys(h, rest);
      } else {
        var h1 := h.(count := h.count - multiset{o}, flagged := h.flagged - {o});
        if o in h1.count { ReleaseOnlyDestroys(h1, rest); }
        else { ReleaseOnlyDestroys(h1.(refs := h1.refs - {o}), Held(h.refs, o) + rest); }
      }
    }
  }

  /** Releasing one of several references does nothing but decrement the counter and clear the flag. */
  lemma ReleaseShared(h: Heap, o: Obj)
    requires h.count[o] > 1
    ensures Release(h, [o]) == h.(count := h.count - multiset{o}, flagged := h.flagged - {o})
  {
    assert [o][1..] == [];
  }

  /** Destroying never takes away anything reachable. */
  lemma DestroysSpares(h1: Heap, h2: Heap, own: multiset<Obj>)
    requires Destroys(h1, h2) && Accounts(h2, own)
    ensures SameForApp(h1, h2)
  {
    var c := iset o | o in h2.refs;
    forall o | o in h1.outside ensures o in c { assert o in h2.count; }
    forall p, o | p in c && o in Held(h1.refs, p) ensures o in c {
      assert o in Held(h2.refs, p);
      OutMember(h2.refs, h2.refs.Keys, o);
      assert o in h2.count;
    }
    assert Closed(h1, c);
    ReachableInClosed(h1, c);
  }
}
