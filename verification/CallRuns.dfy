/** Calls, returns and preparations as a run sees them: where execution goes on, with what frame, and with what in it. */
module CallRuns {
  import opened ContextState
  import opened NestedRuns
  import opened StackFrames
  import opened StackSafety

  // ---- One call ----

  /** A call goes on at the first instruction of the function called, whether or not there is space for its frame; the caller is
      saved on the call stack, and nothing of the run it is part of changes. */
  lemma CallEnters(e: Engine, c: Ctx, f: nat)
    requires e.Valid() && !c.noMemory && Allowed(e, c, Calls(f))
    ensures var d := Step(e, c, Calls(f));
      && d.current == f && d.pc == e.funcs(f).code
      && d.callStack == c.callStack + [Frame(c.fp, c.current, c.pc, c.sp, c.index)]
      && (d.initial, d.system, d.originalSp, d.args, d.ret) == (c.initial, c.system, c.originalSp, c.args, c.ret)
      && (d.noMemory ==> d.status == Exception && d.mem == c.mem)
      && (!d.noMemory ==> d.status == Active && d.fp.At? && d.sp == At(d.fp.block, d.fp.off - e.funcs(f).variableSpace))
  {
    hide FindBlock;
    var c1 := PushCallState(c).(current := f, pc := e.funcs(f).code);
    FindBlockKeeps(e, FirstBlock(e, c1), e.Needed(f));
  }

  /** Within its block the callee has its frame right where the caller pushed the arguments; in a later one with room for
      them above it, and they are there as well. */
  lemma CallFrame(e: Engine, c: Ctx, f: nat, k: nat)
    requires e.Valid() && Sane(e, c) && Layout(e, c) && Allowed(e, c, Calls(f)) && !CallScript(e, c, f).noMemory
    ensures var d := Step(e, c, Calls(f));
      && d.fp.At? && d.fp.block == d.index && c.index <= d.index
      && (d.index == c.index ==> d.fp == c.sp && d.mem == c.mem)
      && (d.index > c.index ==> d.fp.off + e.Args(f) == e.Size(d.index))
      && (k < e.Args(f) ==> Read(d.mem, d.fp.Plus(k)) == Read(c.mem, c.sp.Plus(k)))
  {
    hide Chain, FindBlock;
    var c1 := PushCallState(c).(current := f, pc := e.funcs(f).code);
    InChain(e, c.blocks, c.callStack, Current(c), c.originalSp, c.initial, c.args);
    FindBlockLayout(e, c1, e.Needed(f));
    FindBlockKeeps(e, c1, e.Needed(f));
    if k < e.Args(f) { ArgumentsArrive(e, c, f, k); }
  }

  // ---- A call and its return ----

  /** The events of evs take c to d, with n frames or more on the call stack all the time. */
  ghost predicate Inside(e: Engine, n: nat, c: Ctx, evs: seq<Event>, d: Ctx)
    requires e.Valid()
    decreases |evs|
  {
    if evs == [] then c == d
    else Allowed(e, c, evs[0]) && n <= |Step(e, c, evs[0]).callStack| && Inside(e, n, Step(e, c, evs[0]), evs[1..], d)
  }

  /** The frames of base are as they were; f runs, or ran, on the level above them, or the state it was left in is saved. */
  predicate OnLevel(base: seq<Frame>, f: nat, c: Ctx) {
    && |base| > 0 && !base[|base| - 1].IsMarker()
    && |base| <= |c.callStack| && c.callStack[..|base|] == base
    && (|c.callStack| == |base| ==> c.current == f && c.status != Prepared && c.status != Finished && c.status != Uninitialized)
    && (|c.callStack| > |base| ==> c.callStack[|base|].s1 == f && !c.callStack[|base|].IsMarker())
  }

  lemma TopIs(base: seq<Frame>, f: nat, c: Ctx)
    requires OnLevel(base, f, c) && |c.callStack| == |base|
    ensures !AtMarker(c) && c.callStack == base
  {
    assert c.callStack[..|base|] == c.callStack;
  }

  /** What is left when the call stack is cut, but not down to the level or below. */
  lemma CutLevel(base: seq<Frame>, f: nat, c: Ctx, d: Ctx)
    requires OnLevel(base, f, c) && |base| < |d.callStack| <= |c.callStack| && d.callStack == c.callStack[..|d.callStack|]
    ensures OnLevel(base, f, d)
  {
    assert d.callStack[..|base|] == base;
    assert d.callStack[|base|] == c.callStack[|base|];
  }

  /** Cleaning cuts the call stack down to a marker, so never just to the level of a call. */
  lemma CleanedLevel(e: Engine, base: seq<Frame>, f: nat, c: Ctx)
    requires Sane(e, c) && OnLevel(base, f, c) && |base| <= |Clean(e, c).callStack|
    ensures |base| < |Clean(e, c).callStack| && OnLevel(base, f, Clean(e, c))
  {
    CleanStops(e, c);
    var d := Clean(e, c);
    if |d.callStack| == |base| { NotJust(base, f, c, d); }
    CutLevel(base, f, c, d);
  }

  lemma NotJust(base: seq<Frame>, f: nat, c: Ctx, d: Ctx)
    requires OnLevel(base, f, c) && |d.callStack| == |base| <= |c.callStack| && d.callStack == c.callStack[..|d.callStack|]
    ensures !AtMarker(d)
  {
  }

  lemma PopLevel(e: Engine, base: seq<Frame>, f: nat, c: Ctx)
    requires Sane(e, c) && OnLevel(base, f, c) && Allowed(e, c, Pops) && |base| <= |PopState(e, c).callStack|
    ensures OnLevel(base, f, PopState(e, c))
  {
    hide Clean, HasMarker;
    if IsNested(c) {
      var c1 := Unprepare(e, c);
      if Busy(c) {
        if |c.callStack| == |base| { TopIs(base, f, c); }
      } else {
        CleanStops(e, c);
        CleanedLevel(e, base, f, c);
      }
      assert c1.callStack == c.callStack[..|c1.callStack|];
      var d := PopState(e, c);
      assert d.callStack == c1.callStack[..|c1.callStack| - 2];
      if |d.callStack| > |base| {
        CutLevel(base, f, c, d);
      } else {
        assert d.callStack == base;
        assert d.current == c1.callStack[|base|].s1;
      }
    } else {
      NoPop(e, c);
    }
  }

  lemma UnprepareLevel(e: Engine, base: seq<Frame>, f: nat, c: Ctx)
    requires Sane(e, c) && OnLevel(base, f, c) && |base| <= |Unprepare(e, c).callStack|
    ensures OnLevel(base, f, Unprepare(e, c))
  {
    hide Clean;
    if !Busy(c) { CleanedLevel(e, base, f, c); }
  }

  lemma PrepareLevel(e: Engine, base: seq<Frame>, f: nat, c: Ctx, g: nat)
    requires e.Valid() && Sane(e, c) && OnLevel(base, f, c) && |base| <= |Prepare(e, c, g).callStack|
    ensures OnLevel(base, f, Prepare(e, c, g))
  {
    hide Clean, Prepare, Sane;
    PrepareSane(e, c, g);
    if g != 0 && !Busy(c) {
      CleanedLevel(e, base, f, c);
      var d := Prepare(e, c, g);
      assert d.callStack == Clean(e, c).callStack;
    }
  }

  lemma ReturnLevel(e: Engine, base: seq<Frame>, f: nat, c: Ctx, w: nat)
    requires Sane(e, c) && OnLevel(base, f, c) && c.status == Active && |base| <= |Return(e, c, w).callStack|
    ensures OnLevel(base, f, Return(e, c, w))
  {
    var d := Return(e, c, w);
    if |c.callStack| == |base| { TopIs(base, f, c); }
    if |d.callStack| < |c.callStack| {
      if |d.callStack| > |base| { CutLevel(base, f, c, d); } else { assert d.callStack == base; }
    }
  }

  lemma PushedLevel(e: Engine, base: seq<Frame>, f: nat, c: Ctx, d: Ctx)
    requires Sane(e, c) && OnLevel(base, f, c) && Busy(c) && |d.callStack| > |c.callStack| && d.callStack[..|c.callStack|] == c.callStack
    requires d.callStack[|c.callStack|] == Frame(c.fp, c.current, c.pc, c.sp, c.index)
    ensures OnLevel(base, f, d)
  {
    assert d.callStack[..|base|] == d.callStack[..|c.callStack|][..|base|];
    if |c.callStack| > |base| { assert d.callStack[|base|] == d.callStack[..|c.callStack|][|base|]; }
  }

  lemma StepLevel(e: Engine, base: seq<Frame>, f: nat, c: Ctx, ev: Event)
    requires e.Valid() && Sane(e, c) && OnLevel(base, f, c) && Allowed(e, c, ev) && |base| <= |Step(e, c, ev).callStack|
    ensures OnLevel(base, f, Step(e, c, ev))
  {
    hide Unprepare, Prepare, PopState, CallScript, Return;
    match ev
    case Calls(g) =>
      CallEnters(e, c, g);
      PushedLevel(e, base, f, c, Step(e, c, ev));
    case Returns(w) => ReturnLevel(e, base, f, c, w);
    case Pushes => if c.status == Active { PushedLevel(e, base, f, c, PushState(c)); }
    case Pops => PopLevel(e, base, f, c);
    case Prepares(g) => PrepareLevel(e, base, f, c, g);
    case Unprepares => UnprepareLevel(e, base, f, c);
    case _ =>
  }

  lemma StepSane(e: Engine, c: Ctx, ev: Event)
    requires e.Valid() && Sane(e, c) && Based([], c) && Allowed(e, c, ev)
    ensures Sane(e, Step(e, c, ev)) && Based([], Step(e, c, ev))
  {
    if ev.Pops? && IsNested(c) { assert c.callStack[0..] == c.callStack; }
    StepKeeps(e, [], c, ev);
  }

  lemma {:induction false} RunLevel(e: Engine, base: seq<Frame>, f: nat, c: Ctx, evs: seq<Event>, d: Ctx)
    requires e.Valid() && Sane(e, c) && Based([], c) && OnLevel(base, f, c) && Inside(e, |base|, c, evs, d)
    ensures Sane(e, d) && OnLevel(base, f, d)
    decreases |evs|
  {
    hide Step, Allowed, Sane, Based, OnLevel;
    if evs != [] {
      StepLevel(e, base, f, c, evs[0]);
      StepSane(e, c, evs[0]);
      RunLevel(e, base, f, Step(e, c, evs[0]), evs[1..], d);
    }
  }

  /** Whatever a function called does - call others, be suspended, have other runs nested in it - when it returns, its caller goes
      on where it was: with its function, program pointer, frame and block, and the arguments removed. */
  lemma CallReturns(e: Engine, c: Ctx, f: nat, evs: seq<Event>, d: Ctx, w: nat)
    requires e.Valid() && Sane(e, c) && Based([], c) && Allowed(e, c, Calls(f))
    requires Inside(e, |c.callStack| + 1, Step(e, c, Calls(f)), evs, d)
    requires |d.callStack| == |c.callStack| + 1 && Allowed(e, d, Returns(w))
    ensures d.current == f && w == e.Args(f)
    ensures var r := Step(e, d, Returns(w));
      && r.status == Active && r.callStack == c.callStack
      && (r.current, r.pc, r.fp, r.index) == (c.current, c.pc, c.fp, c.index)
      && r.sp == At(c.sp.block, c.sp.off + w)
  {
    hide CallScript, Sane, Based, Inside;
    var c1 := Step(e, c, Calls(f));
    SaneMemory(e, c);
    CallEnters(e, c, f);
    StepSane(e, c, Calls(f));
    var base := c1.callStack;
    assert OnLevel(base, f, c1);
    RunLevel(e, base, f, c1, evs, d);
    TopIs(base, f, d);
    assert base[..|base| - 1] == c.callStack;
  }

  lemma SaneMemory(e: Engine, c: Ctx)
    requires Sane(e, c) && c.status == Active
    ensures !c.noMemory
  {
  }

  // ---- Preparing and starting ----

  lemma {:induction false} Cleared(mem: map<Ptr, Word>, at: Ptr, n: nat, k: nat)
    requires at.At? && k < n
    ensures Read(ClearWords(mem, at, n), at.Plus(k)) == Num(0)
    decreases n
  {
    if k < n - 1 { Cleared(mem, at, n - 1, k); }
  }

  /** A prepared function has its frame below where the run begins, its arguments cleared, but for the place where it is told
      where to put a value it returns on the stack: just above the arguments. */
  lemma PreparedFrame(e: Engine, c: Ctx, f: nat, d: Ctx, k: nat)
    requires e.Valid() && Sane(e, c) && Layout(e, c) && f != 0 && !Busy(c) && CanPrepare(e, c, f) && d == Step(e, c, Prepares(f))
    ensures d.status == Prepared && d.initial == d.current == f && d.pc == 0 && d.sp == d.fp && d.fp.At? && d.fp.block == d.index
    ensures d.originalSp == At(d.index, d.fp.off + e.Args(f) + e.Ret(f))
    ensures d.callStack == Clean(e, c).callStack && d.args == e.Args(f) && d.ret == e.Ret(f)
    ensures k < e.Args(f) ==>
      Read(d.mem, d.fp.Plus(k)) ==
        if e.Ret(f) > 0 && k == (if e.funcs(f).isMethod then 1 else 0) then Addr(d.fp.Plus(e.Args(f))) else Num(0)
  {
    hide Chain, Idle, Assign, Clean, GoodStart, Outer, OverLimit, RunOk, CanPrepare, Layout, Failed;
    LayoutStarts(e, c, f);
    LayoutRuns(e, c);
    PrepareSucceeds(e, c, f);
    CleanStops(e, c);
    AssignGood(e, c, f);
    AssignMem(e, Clean(e, c), f);
    SetUpArguments(e, Assign(e, Clean(e, c), f), f, k);
  }

  lemma LayoutRuns(e: Engine, c: Ctx)
    requires Layout(e, c)
    ensures RunOk(e, c)
  {
  }

  lemma SetUpArguments(e: Engine, c: Ctx, f: nat, k: nat)
    requires c.current == f && c.initial == f && c.args == e.Args(f) && c.ret == e.Ret(f) && c.sp.At? && c.sp.block == c.index
    ensures var d := SetUp(e, c);
      && d.status == Prepared && d.initial == d.current == f && d.pc == 0 && d.sp == d.fp && d.index == c.index
      && d.originalSp == c.sp && d.fp == At(c.index, c.sp.off - e.Args(f) - e.Ret(f))
      && d.callStack == c.callStack && d.args == c.args && d.ret == c.ret
      && (k < e.Args(f) ==>
          Read(d.mem, d.fp.Plus(k)) ==
            if e.Ret(f) > 0 && k == (if e.funcs(f).isMethod then 1 else 0) then Addr(d.fp.Plus(e.Args(f))) else Num(0))
  {
    hide ClearWords;
    if k < e.Args(f) { Cleared(c.mem, c.sp.Plus(-c.args - c.ret), e.Args(f), k); }
  }

  /** And then runs from its first instruction, with room for its variables on top of the stack. */
  lemma PreparedStarts(e: Engine, c: Ctx, f: nat, p: Ctx, d: Ctx)
    requires e.Valid() && Sane(e, c) && Layout(e, c) && f != 0 && !Busy(c) && CanPrepare(e, c, f)
    requires p == Step(e, c, Prepares(f)) && d == Step(e, p, Executes)
    ensures p.fp.At? && d.status == Active && d.current == f && d.pc == e.funcs(f).code
    ensures d == p.(status := Active, pc := d.pc, sp := At(p.fp.block, p.fp.off - e.funcs(f).variableSpace))
  {
    hide Prepare, CanPrepare, Layout;
    PreparedFrame(e, c, f, p, 0);
  }

  /** A suspended run goes on with everything as it was. */
  lemma SuspendedGoesOn(e: Engine, c: Ctx)
    requires e.Valid() && Allowed(e, c, Suspends)
    ensures Step(e, Step(e, c, Suspends), Executes) == c
  {
  }

  /** A run that has ended leaves the call stack of what is below it, and can be prepared again from where it began. */
  lemma UnpreparedState(e: Engine, c: Ctx)
    requires e.Valid() && Sane(e, c) && !Busy(c)
    ensures var d := Step(e, c, Unprepares);
      && d.status == Uninitialized && d.current == 0 && d.initial == 0 && d.pc == 0 && d.fp == Null && !d.noMemory
      && (c.initial != 0 ==> d.sp == c.originalSp) && AtMarker(d) && |d.callStack| <= |c.callStack| && d.callStack == c.callStack[..|d.callStack|]
      && (forall k :: |d.callStack| <= k < |c.callStack| ==> !c.callStack[k].IsMarker())
  {
    hide Clean;
    CleanStops(e, c);
  }

  /** Nothing runs right after the state was pushed; the stack pointer is two dwords down, out of the way of a value being
      pushed, and what is needed to go on is saved. */
  lemma PushedState(e: Engine, c: Ctx)
    requires e.Valid() && c.status == Active
    ensures var d := Step(e, c, Pushes);
      && d.status == Uninitialized && d.initial == 0 && d.system == 0 && d.sp == c.sp.Plus(-2) && d.index == c.index && d.mem == c.mem
      && d.callStack == c.callStack + [Frame(c.fp, c.current, c.pc, c.sp, c.index), Frame(Null, c.system, c.initial, c.originalSp, c.args)]
  {
  }

  /** The end of a run: the first function returns, and its stack is as it was. */
  lemma FirstReturns(e: Engine, c: Ctx, w: nat)
    requires e.Valid() && Allowed(e, c, Returns(w)) && AtMarker(c)
    ensures Step(e, c, Returns(w)) == c.(status := Finished)
  {
  }
}
