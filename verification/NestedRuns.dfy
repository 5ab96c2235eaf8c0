/** Runs nested in a script call: what a system function does between pushing and popping the state of its context. */
module NestedRuns {
  import opened ContextState

  /** What holds of a context at all times, whatever the application does with it. */
  predicate Sane(e: Engine, c: Ctx) {
    && (c.status == Prepared || Busy(c) ==> c.fp != Null)
    && (c.status == Prepared ==> c.sp == c.fp)
    && (c.status == Finished || c.status == Uninitialized ==> AtMarker(c))
    && (c.noMemory ==> c.status == Exception)
    && (c.initial != 0 ==> c.ret == e.Ret(c.initial))
  }

  /** No call is on the stack since the nearest marker. */
  predicate AtMarker(c: Ctx) { |c.callStack| == 0 || Top(c).IsMarker() }

  /** The first n frames are those of base, and every later marker comes with the call state pushed before it. */
  predicate Based(base: seq<Frame>, c: Ctx) {
    && |base| <= |c.callStack| && c.callStack[..|base|] == base
    && (|base| > 0 ==> base[|base| - 1].IsMarker())
    && forall k :: |base| <= k < |c.callStack| && c.callStack[k].IsMarker() ==> k > |base| && !c.callStack[k - 1].IsMarker()
  }

  // ---- What leaves the call stack alone ----

  lemma {:induction false} FindBlockKeeps(e: Engine, c: Ctx, size: nat)
    requires e.Valid() && !c.noMemory
    ensures var r := FindBlock(e, c, size);
      && r == c.(noMemory := r.noMemory, sp := r.sp, fp := r.fp, index := r.index, blocks := r.blocks, status := r.status)
      && (r.noMemory ==> r.status == Exception)
      && (!r.noMemory ==> r.fp == c.fp && r.status == c.status && Fits(e, r, size))
      && (c.sp.At? ==> r.sp.At?)
    decreases Shortage(e, c.current, c.index, size), if c.sp == At(c.index, e.Size(c.index) - e.Args(c.current)) then 0 else 1
  {
    if !Fits(e, c, size) && !OverLimit(e, c.index) { FindBlockKeeps(e, NextBlock(e, c), size); }
  }

  /** Unwinding stops at the nearest marker, having popped calls only. */
  lemma {:induction false} UnwindStops(e: Engine, c: Ctx)
    ensures var r := Unwind(e, c);
      && |r.callStack| <= |c.callStack| && r.callStack == c.callStack[..|r.callStack|]
      && (forall k :: |r.callStack| <= k < |c.callStack| ==> !c.callStack[k].IsMarker())
      && AtMarker(r)
      && (r.status, r.initial, r.originalSp, r.args, r.ret, r.blocks, r.mem) ==
         (c.status, c.initial, c.originalSp, c.args, c.ret, c.blocks, c.mem)
      && (!c.noMemory ==> !r.noMemory)
      && r.system == c.system
    decreases |c.callStack|
  {
    if |c.callStack| > 0 && !Top(c).IsMarker() { UnwindStops(e, CleanFrame(e, PopCallState(c))); }
  }

  lemma CleanStops(e: Engine, c: Ctx)
    requires Sane(e, c)
    ensures var r := Clean(e, c);
      && |r.callStack| <= |c.callStack| && r.callStack == c.callStack[..|r.callStack|]
      && (forall k :: |r.callStack| <= k < |c.callStack| ==> !c.callStack[k].IsMarker())
      && AtMarker(r)
      && (r.initial, r.originalSp, r.args, r.ret, r.blocks, r.mem, r.system) ==
         (c.initial, c.originalSp, c.args, c.ret, c.blocks, c.mem, c.system)
      && !r.noMemory
  {
    if c.status != Finished && c.status != Uninitialized { UnwindStops(e, CleanFrame(e, c).(status := Exception)); }
  }

  lemma AssignKeeps(e: Engine, c: Ctx, f: nat)
    requires e.Valid() && f != 0 && !c.noMemory && (c.initial != 0 ==> c.ret == e.Ret(c.initial))
    ensures var r := Assign(e, c, f);
      && r.callStack == c.callStack && r.initial == f && r.current == f && r.ret == e.Ret(f)
      && (r.noMemory ==> r.status == Exception)
  {
    if c.initial != f {
      var c2 := (if c.initial != 0 then c.(sp := c.originalSp) else c).(initial := f, current := f, args := e.Args(f), ret := e.Ret(f));
      FindBlockKeeps(e, FirstBlock(e, c2), e.Args(f) + e.Ret(f) + e.Needed(f));
    }
  }

  lemma PrepareSane(e: Engine, c: Ctx, f: nat)
    requires e.Valid() && Sane(e, c)
    ensures Sane(e, Prepare(e, c, f))
    ensures f != 0 && !Busy(c) ==> Prepare(e, c, f).callStack == Clean(e, c).callStack
    ensures f == 0 || Busy(c) ==> Prepare(e, c, f) == c
  {
    hide Assign, Clean;
    if f != 0 && !Busy(c) {
      CleanStops(e, c);
      AssignKeeps(e, Clean(e, c), f);
    }
  }

  lemma PrepareKeeps(e: Engine, base: seq<Frame>, c: Ctx, f: nat)
    requires e.Valid() && Sane(e, c) && Based(base, c)
    ensures Sane(e, Prepare(e, c, f)) && Based(base, Prepare(e, c, f))
  {
    hide Prepare, Clean, Sane;
    PrepareSane(e, c, f);
    CleanStops(e, c);
  }

  lemma CallKeeps(e: Engine, base: seq<Frame>, c: Ctx, f: nat)
    requires e.Valid() && Sane(e, c) && Based(base, c) && c.status == Active && c.sp.At?
    ensures Sane(e, CallScript(e, c, f)) && Based(base, CallScript(e, c, f))
  {
    hide FindBlock, Based;
    var c1 := PushCallState(c).(current := f, pc := e.funcs(f).code);
    PushBased(base, c, c1);
    FindBlockKeeps(e, FirstBlock(e, c1), e.Needed(f));
    SameBased(base, c1, CallScript(e, c, f));
  }

  lemma PushBased(base: seq<Frame>, c: Ctx, c1: Ctx)
    requires Based(base, c) && c.fp != Null && c1.callStack == PushCallState(c).callStack
    ensures Based(base, c1)
  {
  }

  lemma SameBased(base: seq<Frame>, c: Ctx, d: Ctx)
    requires Based(base, c) && d.callStack == c.callStack
    ensures Based(base, d)
  {
  }

  lemma UnprepareStops(e: Engine, base: seq<Frame>, c: Ctx)
    requires Sane(e, c) && Based(base, c)
    ensures Sane(e, Unprepare(e, c)) && Based(base, Unprepare(e, c))
    ensures HasMarker(c.callStack[|base|..]) && |Unprepare(e, c).callStack| > 0 && Top(Unprepare(e, c)).IsMarker() ==>
      |Unprepare(e, c).callStack| >= |base| + 2 && Unprepare(e, c).callStack[|Unprepare(e, c).callStack| - 2].s0 != Null
  {
    hide HasMarker, Clean;
    if !Busy(c) { CleanStops(e, c); }
    var r := Unprepare(e, c).callStack;
    if HasMarker(c.callStack[|base|..]) {
      var k := MarkerAt(c.callStack, |base|);
      assert forall m :: |r| <= m < |c.callStack| ==> !c.callStack[m].IsMarker();
    }
  }

  lemma MarkerAt(stack: seq<Frame>, n: nat) returns (k: nat)
    requires n <= |stack| && HasMarker(stack[n..])
    ensures n <= k < |stack| && stack[k].IsMarker()
  {
    var i :| 0 <= i < |stack| - n && stack[n..][i].IsMarker();
    k := n + i;
  }

  lemma PopKeeps(e: Engine, base: seq<Frame>, c: Ctx)
    requires Sane(e, c) && Based(base, c) && HasMarker(c.callStack[|base|..]) && Allowed(e, c, Pops)
    ensures Sane(e, PopState(e, c)) && Based(base, PopState(e, c))
  {
    if IsNested(c) { UnprepareStops(e, base, c); }
  }

  /** Whatever happens in a run nested in base - further nested runs included - the frames of base stay where they are. */
  lemma StepKeeps(e: Engine, base: seq<Frame>, c: Ctx, ev: Event)
    requires e.Valid() && Sane(e, c) && Based(base, c) && Allowed(e, c, ev)
    requires ev.Pops? ==> !IsNested(c) || HasMarker(c.callStack[|base|..])
    ensures Sane(e, Step(e, c, ev)) && Based(base, Step(e, c, ev))
  {
    hide Unprepare, Prepare, PopState, CallScript, Unwind, HasMarker, Based;
    match ev
    case Calls(f) => CallKeeps(e, base, c, f);
    case Pops => if IsNested(c) { PopKeeps(e, base, c); } else { NoPop(e, c); }
    case Prepares(f) => PrepareKeeps(e, base, c, f);
    case Unprepares => UnprepareStops(e, base, c);
    case _ => OtherKeeps(e, base, c, ev);
  }

  lemma OtherKeeps(e: Engine, base: seq<Frame>, c: Ctx, ev: Event)
    requires e.Valid() && Sane(e, c) && Based(base, c) && Allowed(e, c, ev)
    requires !ev.Calls? && !ev.Pops? && !ev.Prepares? && !ev.Unprepares?
    ensures Sane(e, Step(e, c, ev)) && Based(base, Step(e, c, ev))
  {
    hide Unprepare, Prepare, PopState, CallScript;
  }

  lemma NoPop(e: Engine, c: Ctx)
    requires !IsNested(c)
    ensures PopState(e, c) == c
  {
  }

  // ---- Whole nested runs ----

  /** The events of evs take c to d, popping only states pushed after the first n frames were there. */
  ghost predicate NestedRun(e: Engine, n: nat, c: Ctx, evs: seq<Event>, d: Ctx)
    requires e.Valid()
    decreases |evs|
  {
    if evs == [] then c == d
    else
      && Allowed(e, c, evs[0]) && n <= |c.callStack|
      && (evs[0].Pops? ==> !IsNested(c) || HasMarker(c.callStack[n..]))
      && NestedRun(e, n, Step(e, c, evs[0]), evs[1..], d)
  }

  lemma {:induction false} RunKeeps(e: Engine, base: seq<Frame>, c: Ctx, evs: seq<Event>, d: Ctx)
    requires e.Valid() && Sane(e, c) && Based(base, c) && NestedRun(e, |base|, c, evs, d)
    ensures Sane(e, d) && Based(base, d)
    decreases |evs|
  {
    hide Step, Allowed;
    if evs != [] {
      StepKeeps(e, base, c, evs[0]);
      RunKeeps(e, base, Step(e, c, evs[0]), evs[1..], d);
    }
  }

  /** Everything but the stack blocks and what is stored in them. */
  predicate SameState(c: Ctx, d: Ctx) {
    c == d.(blocks := c.blocks, mem := c.mem)
  }

  /** Every run nested in the nested run has been popped. */
  predicate OneLevel(c: Ctx, d: Ctx) {
    |c.callStack| + 2 <= |d.callStack| && !HasMarker(d.callStack[|c.callStack| + 2..])
  }

  /** The state to pop is found on top of the call stack, whatever status the nested run is left in. */
  lemma Popped(e: Engine, base: seq<Frame>, d: Ctx)
    requires Sane(e, d) && Based(base, d) && |base| >= 2
    requires !Busy(d) ==> !HasMarker(d.callStack[|base|..])
    ensures Busy(d) ==> Unprepare(e, d).callStack == d.callStack
    ensures !Busy(d) ==> Unprepare(e, d).callStack == base && !Unprepare(e, d).noMemory
    ensures d.current != 0 ==> IsNested(d)
  {
    assert d.callStack[..|base|][|base| - 1] == d.callStack[|base| - 1];
    if !Busy(d) {
      CleanStops(e, d);
      var r := Clean(e, d).callStack;
      assert forall k :: |base| <= k < |d.callStack| ==> d.callStack[k] == d.callStack[|base|..][k - |base|];
      assert |r| >= |base|;
      assert r == d.callStack[..|r|];
    }
  }

  /** When a state is pushed, any run follows, and the state is popped, then the interrupted run finds everything as it was -
      call stack, registers, functions - exactly if the application did not unprepare the context before and did not leave
      a call of the nested run on the call stack by popping it while suspended. */
  lemma PopRestores(e: Engine, c: Ctx, evs: seq<Event>, d: Ctx)
    requires e.Valid() && Sane(e, c) && c.status == Active && c.initial != 0
    requires NestedRun(e, |c.callStack| + 2, PushState(c), evs, d)
    requires !Busy(d) ==> OneLevel(c, d)
    ensures IsNested(d) ==> |Unprepare(e, d).callStack| >= 2
    ensures SameState(PopState(e, d), c) <==> d.current != 0 && (Busy(d) ==> |d.callStack| == |c.callStack| + 2)
  {
    hide Step, Unprepare, CleanStack, HasMarker;
    var c1 := PushState(c);
    var base := c1.callStack;
    RunKeeps(e, base, c1, evs, d);
    Popped(e, base, d);
    assert base[..|c.callStack|] == c.callStack;
    assert d.callStack[..|base|] == base;
    PopTwo(e, c, d);
  }

  lemma PopTwo(e: Engine, c: Ctx, d: Ctx)
    requires c.status == Active && c.initial != 0 && Sane(e, c) && Sane(e, d)
    requires var base := PushState(c).callStack; |d.callStack| >= |base| && d.callStack[..|base|] == base
    requires Busy(d) ==> Unprepare(e, d).callStack == d.callStack
    requires !Busy(d) ==> Unprepare(e, d).callStack == PushState(c).callStack && !Unprepare(e, d).noMemory
    requires d.current != 0 ==> IsNested(d)
    ensures SameState(PopState(e, d), c) <==> d.current != 0 && (Busy(d) ==> |d.callStack| == |c.callStack| + 2)
  {
    hide Clean, HasMarker;
    var base := PushState(c).callStack;
    assert base == c.callStack + [Frame(c.fp, c.current, c.pc, c.sp, c.index), Frame(Null, c.system, c.initial, c.originalSp, c.args)];
  }

  /** Whatever the context was doing: when all that the nested run does is unprepare it, nothing is restored. */
  lemma UnpreparedNotRestored(e: Engine, c: Ctx)
    requires e.Valid() && c.status == Active && c.initial != 0
    ensures var d := Unprepare(e, PushState(c));
      && NestedRun(e, |c.callStack| + 2, PushState(c), [Unprepares], d)
      && !IsNested(d) && PopState(e, d) == d && !SameState(PopState(e, d), c)
  {
    hide Unprepare;
    OneEvent(e, |c.callStack| + 2, PushState(c), Unprepares);
    UnpreparedIs(e, PushState(c));
  }

  lemma OneEvent(e: Engine, n: nat, c: Ctx, ev: Event)
    requires e.Valid() && Allowed(e, c, ev) && !ev.Pops? && n <= |c.callStack|
    ensures NestedRun(e, n, c, [ev], Step(e, c, ev))
  {
    hide Allowed, Step;
    assert [ev][1..] == [];
  }

  lemma UnpreparedIs(e: Engine, c: Ctx)
    requires c.status == Uninitialized
    ensures Unprepare(e, c).current == 0 && Unprepare(e, c).status == Uninitialized
  {
  }
}
