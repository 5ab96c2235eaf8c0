/** How long new objects stay new: what a step of the destruction does to the two lists. */
module CollectorAges {
  import opened Options
  import opened ObjectHeap
  import opened CollectorSteps
  import opened CollectorSafety
  import opened CollectorRuns
  import opened CollectorHalves

  // ---- One step ----

  /** The step has looked at the entry e of the new list: the object goes when only the list refers to it, to the old list when it was
      looked at three times before, and else stays, looked at once more. */
  ghost predicate LookedAt(s: GC, t: GC, e: Entry) {
    && e in s.newObjs
    && if s.heap.count[e.obj] == 1 then
         t.heap == Release(s.heap, [e.obj]) && t.oldObjs == s.oldObjs && multiset(t.newObjs) == multiset(s.newObjs) - multiset{e}
       else if e.count == 3 then
         t.heap == s.heap && t.oldObjs == s.oldObjs + [e] && multiset(t.newObjs) == multiset(s.newObjs) - multiset{e}
       else
         && t.heap == s.heap && t.oldObjs == s.oldObjs
         && multiset(t.newObjs) == multiset(s.newObjs) - multiset{e} + multiset{Entry(e.obj, e.count + 1)}
  }

  lemma SwapRemoved(s: seq<Entry>, i: int)
    requires 0 <= i < |s|
    ensures multiset(SwapRemove(s, i)) == multiset(s) - multiset{s[i]}
  {
    var r := SwapRemove(s, i);
    assert s == s[..i] + [s[i]] + s[i + 1..];
    if i < |s| - 1 {
      var last := |s| - 1;
      assert s[i + 1..] == s[i + 1..last] + [s[last]];
      assert r == s[..i] + [s[last]] + s[i + 1..last];
    }
  }

  lemma Replaced(s: seq<Entry>, i: int, e: Entry)
    requires 0 <= i < |s|
    ensures multiset(s[i := e]) == multiset(s) - multiset{s[i]} + multiset{e}
  {
  }

  lemma EntryLooks(s: GC, i: nat, t: GC)
    requires !s.newState.DestroyInit? && i == s.newIdx + 1 && i < |s.newObjs| && DestroyNewPass(s) == Return(t, 1)
    ensures LookedAt(s, t, s.newObjs[i])
  {
    hide Release, SwapRemove;
    SwapRemoved(s.newObjs, i);
    Replaced(s.newObjs, i, Entry(s.newObjs[i].obj, s.newObjs[i].count + 1));
  }

  lemma LookedSince(s: GC, s1: GC, t: GC, e: Entry)
    requires LookedAt(s1, t, e) && s1.heap == s.heap && s1.newObjs == s.newObjs && s1.oldObjs == s.oldObjs
    ensures LookedAt(s, t, e)
  {
  }

  /** A step that returns 1 has looked at one new object, and one that returns 0 at none. */
  lemma {:induction false} NewLooks(s: GC, t: GC, r: int)
    requires s.newIdx >= -1 && (t, r) == DestroyNew(s)
    ensures r == 0 || r == 1
    ensures r == 1 ==> exists e :: LookedAt(s, t, e)
    ensures r == 0 ==> t.heap == s.heap && t.newObjs == s.newObjs && t.oldObjs == s.oldObjs
    decreases DestroyRank(s.newState)
  {
    hide Release, SwapRemove, LookedAt;
    DestroyNewUnfolds(s);
    var p := DestroyNewPass(s);
    var i := s.newIdx + 1;
    if p.Again? {
      NewLooks(p.s, t, r);
      if r == 1 {
        var e :| LookedAt(p.s, t, e);
        LookedSince(s, p.s, t, e);
      }
    } else if !s.newState.DestroyInit? && i < |s.newObjs| {
      EntryLooks(s, i, t);
    }
  }

  /** The entry e of the old list is destroyed: only the list refers to its object. */
  ghost predicate Destroyed(s: GC, t: GC, e: Entry) {
    && e in s.oldObjs && s.heap.count[e.obj] == 1
    && t.heap == Release(s.heap, [e.obj]) && multiset(t.oldObjs) == multiset(s.oldObjs) - multiset{e}
  }

  /** A step of the other destruction destroys one old object or passes one over that has references left. */
  lemma {:induction false} OldLooks(s: GC, t: GC, r: int)
    requires s.oldIdx >= -1 && (t, r) == DestroyOld(s)
    ensures t.newObjs == s.newObjs
    ensures (t.heap == s.heap && t.oldObjs == s.oldObjs) || (r == 1 && exists e :: Destroyed(s, t, e))
    ensures r == 1 && t.heap == s.heap && t.oldObjs == s.oldObjs ==> 0 <= t.oldIdx < |s.oldObjs| && s.heap.count[s.oldObjs[t.oldIdx].obj] != 1
    decreases DestroyRank(s.oldState)
  {
    hide Release, SwapRemove;
    DestroyOldUnfolds(s);
    var p := DestroyOldPass(s);
    var i := s.oldIdx + 1;
    if p.Again? {
      OldLooks(p.s, t, r);
      if e :| Destroyed(p.s, t, e) { assert Destroyed(s, t, e); }
    } else if !s.oldState.DestroyInit? && i < |s.oldObjs| {
      SwapRemoved(s.oldObjs, i);
      if s.heap.count[s.oldObjs[i].obj] == 1 {
        assert |t.oldObjs| < |s.oldObjs|;
        assert Destroyed(s, t, s.oldObjs[i]);
      }
    }
  }

  lemma EmptyStays(s: GC)
    ensures s.newObjs == [] && s.newState.DestroyInit? ==> DestroyNew(s) == (s, 0)
  {
  }

  // ---- Runs ----

  /** No new object has been looked at more than three times. */
  ghost predicate Young(s: GC) {
    forall e :: e in s.newObjs ==> e.count <= 3
  }

  lemma LookedYoung(s: GC, t: GC, e: Entry)
    requires Young(s) && LookedAt(s, t, e)
    ensures Young(t)
  {
    hide Release;
    forall x | x in t.newObjs ensures x.count <= 3 {
      assert x in multiset(t.newObjs);
      if x in multiset(s.newObjs) { assert x in s.newObjs; }
    }
  }

  lemma DestroyNewYoung(s: GC)
    requires Young(s) && s.newIdx >= -1
    ensures Young(DestroyNew(s).0)
  {
    hide Young, LookedAt;
    var t, r := DestroyNew(s).0, DestroyNew(s).1;
    NewLooks(s, t, r);
    if r == 1 {
      var e :| LookedAt(s, t, e);
      LookedYoung(s, t, e);
    } else {
      SameYoung(s, t);
    }
  }

  lemma SameYoung(s: GC, t: GC)
    requires Young(s) && t.newObjs == s.newObjs
    ensures Young(t)
  {
  }

  lemma {:induction false} RepeatYoung(s: GC, n: nat)
    requires Inv(s) && Young(s)
    ensures Young(RepeatDestroyNew(s, n))
    decreases n
  {
    hide Young, Inv, DestroyNew;
    if n > 0 {
      RepeatYoung(s, n - 1);
      RepeatDestroyNewKeeps(s, n - 1, RepeatDestroyNew(s, n - 1));
      NewIndex(RepeatDestroyNew(s, n - 1));
      DestroyNewYoung(RepeatDestroyNew(s, n - 1));
    }
  }

  lemma OldIndex(s: GC)
    requires Inv(s)
    ensures s.oldIdx >= -1
  {
  }

  lemma AutoYoung(s: GC)
    requires Inv(s) && Young(s)
    ensures Young(AutoCollect(s))
  {
    hide Young, Inv, Identify, DestroyOld, RepeatDestroyNew, Destroyed;
    if |s.oldObjs| > 0 {
      var m := Identify(s).0;
      IdentifySameLists(s);
      IdentifyKeeps(s);
      OldIndex(m);
      OldLooks(m, DestroyOld(m).0, DestroyOld(m).1);
      DestroyOldKeeps(m);
      SameYoung(s, DestroyOld(m).0);
      RepeatYoung(DestroyOld(m).0, if |DestroyOld(m).0.newObjs| > 10 then 10 else |DestroyOld(m).0.newObjs|);
    } else {
      RepeatYoung(s, if |s.newObjs| > 10 then 10 else |s.newObjs|);
    }
  }

  lemma RegisteredYoung(s: GC, o: Obj, autoCollect: bool)
    requires Inv(s) && Young(s) && Enabled(s, Register(o, autoCollect))
    ensures Young(AddObject(s, o, autoCollect))
  {
    hide AutoCollect, Inv;
    var s1 := s.(heap := Mutate(s.heap, Copy(o)));
    AppKeeps(s, Copy(o));
    if autoCollect && |s1.newObjs| > 0 { AutoYoung(s1); }
  }

  lemma {:induction false} MovedYoung(s: GC)
    requires Young(s)
    ensures Young(MoveAllToOld(s))
    decreases |s.newObjs|
  {
    if |s.newObjs| > 0 { MovedYoung(MoveToOld(s, |s.newObjs| - 1)); }
  }

  lemma AfterYoung(s: GC, e: Event)
    requires Inv(s) && Young(s) && Enabled(s, e)
    ensures Young(After(s, e))
  {
    hide Young, Inv, DetectPass, DestroyNew, DestroyOld, AddObject, Enabled, MoveAllToOld, Destroyed, Mutate;
    match e
    case Detect => PassSameLists(s); SameYoung(s, After(s, e));
    case DestroyNewStep => NewIndex(s); DestroyNewYoung(s);
    case DestroyOldStep => OldIndex(s); OldLooks(s, DestroyOld(s).0, DestroyOld(s).1); SameYoung(s, After(s, e));
    case BeginFully(doDetect, doDestroy) =>
      MovedYoung(s);
      SameYoung(if doDetect then MoveAllToOld(s) else s, After(s, e));
    case Register(o, autoCollect) => RegisteredYoung(s, o, autoCollect);
    case App(a) => SameYoung(s, After(s, e));
  }

  /** In every state of every run, each new object has been looked at three times at most. */
  lemma {:induction false} NewAreYoung(states: seq<GC>, events: seq<Event>, i: nat)
    requires Run(states, events) && i < |states|
    ensures Young(states[i])
    decreases i
  {
    hide After, Enabled, Inv;
    if i > 0 {
      NewAreYoung(states, events, i - 1);
      RunInv(states, events, i - 1);
      assert states[i - 1 + 1] == After(states[i - 1], events[i - 1]);
      AfterYoung(states[i - 1], events[i - 1]);
    }
  }
}
