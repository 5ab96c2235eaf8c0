/** What the layout of the stack is for: frames do not overlap, and a nested run leaves the interrupted calls alone. */
module StackSafety {
  import opened ContextState
  import opened NestedRuns
  import opened StackFrames

  // ---- Callees lie below their callers ----

  lemma {:induction false} ChainBelow(e: Engine, blocks: nat, stack: seq<Frame>, y: Act, orig: Ptr, init: nat, args: int, i: nat)
    requires Chain(e, blocks, stack, y, orig, init, args) && i < |stack| && !stack[i].IsMarker()
    ensures IsCall(e, stack[i]) && stack[i].s4 <= y.block && (stack[i].s4 == y.block ==> y.fp <= stack[i].s3.off)
    ensures (stack[i].s4 == y.block ==> y.fp + e.Args(y.func) <= stack[i].s0.off)
    ensures i < |stack| - 1 && stack[i].s4 == y.block ==> y.fp + e.Args(y.func) <= stack[i].s3.off
    decreases |stack|, 1
  {
    hide Chain;
    if stack[|stack| - 1].IsMarker() {
      AtFirst(e, blocks, stack, y, orig, init, args);
      IdleBelow(e, blocks, stack, orig, i);
    } else {
      AtCall(e, blocks, stack, y, orig, init, args);
      var x := stack[|stack| - 1];
      if i < |stack| - 1 { ChainBelow(e, blocks, stack[..|stack| - 1], ActOf(x), orig, init, args, i); }
    }
  }

  lemma {:induction false} IdleBelow(e: Engine, blocks: nat, stack: seq<Frame>, p: Ptr, i: nat)
    requires Idle(e, blocks, stack, p) && i < |stack| && !stack[i].IsMarker()
    ensures IsCall(e, stack[i]) && stack[i].s4 <= p.block && (stack[i].s4 == p.block ==> p.off <= stack[i].s3.off - 2)
    decreases |stack|, 0
  {
    hide Chain;
    var m := stack[|stack| - 1];
    var x := stack[|stack| - 2];
    if i < |stack| - 2 { ChainBelow(e, blocks, stack[..|stack| - 2], ActOf(x), m.s3, m.s2, m.s4, i); }
  }

  /** The chain as it was when the call at j was made. */
  lemma {:induction false} ChainAt(e: Engine, blocks: nat, stack: seq<Frame>, y: Act, orig: Ptr, init: nat, args: int, j: nat)
    returns (orig1: Ptr, init1: nat, args1: int)
    requires Chain(e, blocks, stack, y, orig, init, args) && j < |stack| && !stack[j].IsMarker()
    ensures IsCall(e, stack[j]) && Chain(e, blocks, stack[..j], ActOf(stack[j]), orig1, init1, args1)
    decreases |stack|
  {
    hide Chain, Idle;
    var n := |stack|;
    if stack[n - 1].IsMarker() {
      AtFirst(e, blocks, stack, y, orig, init, args);
      AtIdle(e, blocks, stack, orig);
      var m := stack[n - 1];
      if j == n - 2 {
        orig1, init1, args1 := m.s3, m.s2, m.s4;
      } else {
        assert stack[..n - 2][..j] == stack[..j];
        orig1, init1, args1 := ChainAt(e, blocks, stack[..n - 2], ActOf(stack[n - 2]), m.s3, m.s2, m.s4, j);
      }
    } else {
      AtCall(e, blocks, stack, y, orig, init, args);
      if j == n - 1 {
        orig1, init1, args1 := orig, init, args;
      } else {
        assert stack[..n - 1][..j] == stack[..j];
        orig1, init1, args1 := ChainAt(e, blocks, stack[..n - 1], ActOf(stack[n - 1]), orig, init, args, j);
      }
    }
  }

  lemma AtIdle(e: Engine, blocks: nat, stack: seq<Frame>, p: Ptr)
    requires Idle(e, blocks, stack, p) && |stack| > 0
    ensures |stack| >= 2 && IsCall(e, stack[|stack| - 2])
    ensures var m := stack[|stack| - 1];
      Chain(e, blocks, stack[..|stack| - 2], ActOf(stack[|stack| - 2]), m.s3, m.s2, m.s4)
  {
  }

  /** The address lies in the frame of a saved call. */
  predicate Within(p: Ptr, f: Frame) {
    p.At? && f.s0.At? && f.s3.At? && p.block == f.s4 && f.s3.off <= p.off < f.s0.off
  }

  /** What lies under the newest call y: the chain of its run, or the run it would be nested in. */
  lemma CallBelow(e: Engine, c: Ctx, i: nat, j: nat)
    requires RunOk(e, c) && i < j < |c.callStack| && !c.callStack[i].IsMarker() && !c.callStack[j].IsMarker()
    ensures var x, y := c.callStack[i], c.callStack[j];
      IsCall(e, x) && IsCall(e, y) && x.s4 <= y.s4 && (x.s4 == y.s4 ==> y.s0.off <= x.s3.off)
  {
    hide Chain;
    var stack := c.callStack;
    var n := |stack|;
    if Layout(e, c) && c.initial != 0 {
      Under(e, c.blocks, stack, Current(c), c.originalSp, c.initial, c.args, i, j);
    } else {
      OuterOf(e, c);
      var m, x := stack[n - 1], stack[n - 2];
      if j == n - 2 {
        assert stack[..n - 2][i] == stack[i];
        ChainBelow(e, c.blocks, stack[..n - 2], ActOf(x), m.s3, m.s2, m.s4, i);
      } else {
        assert stack[..n - 2][i] == stack[i] && stack[..n - 2][j] == stack[j];
        Under(e, c.blocks, stack[..n - 2], ActOf(x), m.s3, m.s2, m.s4, i, j);
      }
    }
  }

  lemma OuterOf(e: Engine, c: Ctx)
    requires RunOk(e, c) && |c.callStack| > 0 && !(Layout(e, c) && c.initial != 0)
    ensures Outer(e, c.blocks, c.callStack)
  {
    if Layout(e, c) { IdleIs(e, c.blocks, c.callStack, c.sp); }
  }

  lemma Under(e: Engine, blocks: nat, stack: seq<Frame>, y: Act, orig: Ptr, init: nat, args: int, i: nat, j: nat)
    requires Chain(e, blocks, stack, y, orig, init, args) && i < j < |stack| && !stack[i].IsMarker() && !stack[j].IsMarker()
    ensures IsCall(e, stack[i]) && IsCall(e, stack[j]) && stack[i].s4 <= stack[j].s4
    ensures stack[i].s4 == stack[j].s4 ==> stack[j].s0.off <= stack[i].s3.off
  {
    hide Chain;
    var orig1, init1, args1 := ChainAt(e, blocks, stack, y, orig, init, args, j);
    assert stack[..j][i] == stack[i];
    ChainBelow(e, blocks, stack[..j], ActOf(stack[j]), orig1, init1, args1, i);
  }

  /** The block indices saved on the call stack never decrease, within a block the stack pointers never increase, and no
      address belongs to the frames of two calls, be they of the same run or of runs nested in each other, and whatever
      the newest run is doing. */
  lemma FramesDisjoint(e: Engine, c: Ctx, i: nat, j: nat, p: Ptr)
    requires RunOk(e, c) && i < j < |c.callStack| && !c.callStack[i].IsMarker() && !c.callStack[j].IsMarker()
    ensures var x := c.callStack[i]; var y := c.callStack[j];
      x.s3.At? && y.s3.At? && x.s4 <= y.s4 && (x.s4 == y.s4 ==> y.s3.off <= x.s3.off) && !(Within(p, x) && Within(p, y))
  {
    hide RunOk;
    CallBelow(e, c, i, j);
  }

  /** The frame of the running function is disjoint from all of them. */
  lemma RunningFrameDisjoint(e: Engine, c: Ctx, i: nat, p: Ptr)
    requires Layout(e, c) && c.initial != 0 && i < |c.callStack| && !c.callStack[i].IsMarker()
    ensures c.fp.At? && c.callStack[i].s4 <= c.index
    ensures Within(p, c.callStack[i]) ==> !(p.block == c.index && p.off < c.fp.off)
  {
    ChainBelow(e, c.blocks, c.callStack, Current(c), c.originalSp, c.initial, c.args, i);
  }

  // ---- Writes ----

  /** p is in a block before b, or in b at off or above. */
  predicate Outside(p: Ptr, b: int, off: int) {
    p.At? && (p.block < b || (p.block == b && p.off >= off))
  }

  lemma {:induction false} ClearedElsewhere(mem: map<Ptr, Word>, at: Ptr, n: nat, p: Ptr)
    requires at.At? && Outside(p, at.block, at.off + n)
    ensures Read(ClearWords(mem, at, n), p) == Read(mem, p)
    decreases n
  {
    if n > 0 { ClearedElsewhere(mem, at, n - 1, p); }
  }

  lemma {:induction false} CopiedElsewhere(mem: map<Ptr, Word>, src: Ptr, dst: Ptr, n: nat, p: Ptr)
    requires dst.At? && p.At? && p.block != dst.block
    ensures Read(CopyWords(mem, src, dst, n), p) == Read(mem, p)
    decreases n
  {
    if n > 0 { CopiedElsewhere(mem, src, dst, n - 1, p); }
  }

  /** When a call has to move to another block, the callee finds its arguments there as the caller pushed them. */
  lemma {:induction false} CopiedThere(mem: map<Ptr, Word>, src: Ptr, dst: Ptr, n: nat, k: nat)
    requires src.At? && dst.At? && src.block != dst.block && k < n
    ensures Read(CopyWords(mem, src, dst, n), dst.Plus(k)) == Read(mem, src.Plus(k))
    decreases n
  {
    if k < n - 1 { CopiedThere(mem, src, dst, n - 1, k); }
  }

  /** A script function finds its arguments at its frame pointer, wherever its frame was put. */
  lemma ArgumentsArrive(e: Engine, c: Ctx, f: nat, k: nat)
    requires e.Valid() && Sane(e, c) && Layout(e, c) && Allowed(e, c, Calls(f)) && k < e.Args(f)
    requires CallScript(e, c, f).status == Active
    ensures var r := CallScript(e, c, f); Read(r.mem, r.fp.Plus(k)) == Read(c.mem, c.sp.Plus(k))
  {
    hide Chain, FindBlock;
    var c1 := PushCallState(c).(current := f, pc := e.funcs(f).code);
    InChain(e, c.blocks, c.callStack, Current(c), c.originalSp, c.initial, c.args);
    FindBlockLayout(e, c1, e.Needed(f));
    FindBlockKeeps(e, c1, e.Needed(f));
    var c2 := Reserve(e, c1, e.Needed(f));
    if c2.sp != c.sp { CopiedThere(c.mem, c.sp, c2.sp, e.Args(f), k); }
  }

  /** A step of a run nested in the call at i writes nowhere at or above the stack pointer of that call. */
  lemma StoreMemory(e: Engine, c: Ctx, ev: Event, i: nat, p: Ptr)
    requires e.Valid() && Sane(e, c) && Layout(e, c) && ev.Store? && Allowed(e, c, ev)
    requires i + 1 < |c.callStack| && !c.callStack[i].IsMarker() && IsCall(e, c.callStack[i])
    requires Outside(p, c.callStack[i].s4, c.callStack[i].s3.off)
    ensures Read(Step(e, c, ev).mem, p) == Read(c.mem, p)
  {
    hide Chain;
    ChainBelow(e, c.blocks, c.callStack, Current(c), c.originalSp, c.initial, c.args, i);
  }

  lemma CallMemory(e: Engine, c: Ctx, f: nat, i: nat, p: Ptr)
    requires e.Valid() && Sane(e, c) && Layout(e, c) && Allowed(e, c, Calls(f))
    requires i + 1 < |c.callStack| && !c.callStack[i].IsMarker() && IsCall(e, c.callStack[i])
    requires Outside(p, c.callStack[i].s4, c.callStack[i].s3.off)
    ensures Read(CallScript(e, c, f).mem, p) == Read(c.mem, p)
  {
    hide Chain, FindBlock;
    ChainBelow(e, c.blocks, c.callStack, Current(c), c.originalSp, c.initial, c.args, i);
    InChain(e, c.blocks, c.callStack, Current(c), c.originalSp, c.initial, c.args);
    var c1 := PushCallState(c).(current := f, pc := e.funcs(f).code);
    FindBlockLayout(e, c1, e.Needed(f));
    FindBlockKeeps(e, c1, e.Needed(f));
    var c2 := Reserve(e, c1, e.Needed(f));
    if c2.sp != c.sp { CopiedElsewhere(c.mem, c.sp, c2.sp, e.Args(f), p); }
  }

  lemma SetUpMemory(e: Engine, c: Ctx, f: nat, p: Ptr)
    requires c.current == f && c.args == e.Args(f) && c.ret == e.Ret(f) && c.sp.At? && Outside(p, c.sp.block, c.sp.off)
    ensures Read(SetUp(e, c).mem, p) == Read(c.mem, p)
  {
    ClearedElsewhere(c.mem, c.sp.Plus(-c.args - c.ret), c.args, p);
  }

  lemma PrepareMemory(e: Engine, c: Ctx, f: nat, i: nat, p: Ptr)
    requires e.Valid() && Sane(e, c) && RunOk(e, c) && f != 0 && !Busy(c) && GoodStart(e, c, f)
    requires i + 1 < |c.callStack| && !c.callStack[i].IsMarker() && c.callStack[i + 1].IsMarker() && IsCall(e, c.callStack[i])
    requires Outside(p, c.callStack[i].s4, c.callStack[i].s3.off)
    ensures Read(Prepare(e, c, f).mem, p) == Read(c.mem, p)
  {
    hide Chain, Idle, Assign, Clean, GoodStart, RunOk, Outer;
    AssignGood(e, c, f);
    CleanStops(e, c);
    var c0, r := Clean(e, c), Assign(e, Clean(e, c), f);
    AssignMem(e, c0, f);
    if !r.noMemory {
      assert c0.callStack[i] == c.callStack[i];
      IdleAt(e, r.blocks, r.callStack, r.sp);
      IdleBelow(e, r.blocks, r.callStack, r.sp, i);
      SetUpMemory(e, r, f, p);
    }
  }

  lemma AssignMem(e: Engine, c: Ctx, f: nat)
    requires e.Valid() && !c.noMemory
    ensures Assign(e, c, f).mem == c.mem
  {
    if c.initial != f {
      var c2 := (if c.initial != 0 then c.(sp := c.originalSp) else c).(initial := f, current := f, args := e.Args(f), ret := e.Ret(f));
      FindBlockKeeps(e, FirstBlock(e, c2), e.Args(f) + e.Ret(f) + e.Needed(f));
    }
  }

  lemma UnprepareMemory(e: Engine, c: Ctx)
    requires Sane(e, c)
    ensures Unprepare(e, c).mem == c.mem
    ensures (IsNested(c) ==> |Unprepare(e, c).callStack| >= 2) ==> PopState(e, c).mem == c.mem
  {
    CleanStops(e, c);
  }

  lemma StepMemory(e: Engine, c: Ctx, ev: Event, i: nat, p: Ptr)
    requires e.Valid() && Sane(e, c) && RunOk(e, c) && Allowed(e, c, ev) && Careful(e, c, ev)
    requires i + 1 < |c.callStack| && !c.callStack[i].IsMarker() && c.callStack[i + 1].IsMarker() && IsCall(e, c.callStack[i])
    requires Outside(p, c.callStack[i].s4, c.callStack[i].s3.off)
    ensures Read(Step(e, c, ev).mem, p) == Read(c.mem, p)
  {
    hide Unprepare, Prepare, PopState, CallScript, Chain, Idle, Read, Layout, Failed, GoodStart;
    match ev
    case Store(_, _) => ActiveLayout(e, c); StoreMemory(e, c, ev, i, p);
    case Calls(f) => ActiveLayout(e, c); CallMemory(e, c, f, i, p);
    case Prepares(f) =>
      PrepareSane(e, c, f);
      if f != 0 && !Busy(c) { PrepareMemory(e, c, f, i, p); }
    case Unprepares => UnprepareMemory(e, c);
    case Pops => UnprepareMemory(e, c);
    case _ =>
  }

  lemma ActiveLayout(e: Engine, c: Ctx)
    requires RunOk(e, c) && c.status == Active
    ensures Layout(e, c)
  {
  }

  // ---- Whole runs ----

  /** A run in which every preparation has a good start, whether or not it finds space. */
  ghost predicate CarefulRun(e: Engine, n: nat, c: Ctx, evs: seq<Event>, d: Ctx)
    requires e.Valid()
    decreases |evs|
  {
    if evs == [] then c == d
    else
      && Allowed(e, c, evs[0]) && n <= |c.callStack| && Careful(e, c, evs[0])
      && (evs[0].Pops? ==> !IsNested(c) || HasMarker(c.callStack[n..]))
      && CarefulRun(e, n, Step(e, c, evs[0]), evs[1..], d)
  }

  lemma {:induction false} RunKeepsOk(e: Engine, base: seq<Frame>, c: Ctx, evs: seq<Event>, d: Ctx)
    requires e.Valid() && Sane(e, c) && Based(base, c) && RunOk(e, c) && CarefulRun(e, |base|, c, evs, d)
    ensures RunOk(e, d) && Sane(e, d) && Based(base, d)
    decreases |evs|
  {
    hide Step, Allowed, RunOk, Sane, Based, Careful;
    if evs != [] {
      StepKeeps(e, base, c, evs[0]);
      StepOk(e, c, evs[0]);
      RunKeepsOk(e, base, Step(e, c, evs[0]), evs[1..], d);
    }
  }

  function NewContext(): Ctx {
    Ctx(Uninitialized, [], 0, 0, 0, 0, Null, Null, 0, 0, Null, 0, 0, false, map[])
  }

  /** From a new context on, failed preparations included, every state has the layout or is that of a failure whose level has
      yet to be popped or prepared from a good start. */
  lemma EveryRunKeepsLayout(e: Engine, evs: seq<Event>, d: Ctx)
    requires e.Valid() && CarefulRun(e, 0, NewContext(), evs, d)
    ensures RunOk(e, d) && (d.status == Active || d.status == Suspended || d.status == Prepared || d.status == Finished ==> Layout(e, d))
  {
    RunKeepsOk(e, [], NewContext(), evs, d);
  }

  /** Every function is prepared where there is space for it. */
  ghost predicate AllFit(e: Engine, c: Ctx, evs: seq<Event>)
    requires e.Valid()
    decreases |evs|
  {
    evs != [] && Allowed(e, c, evs[0]) ==> Fitting(e, c, evs[0]) && AllFit(e, Step(e, c, evs[0]), evs[1..])
  }

  ghost predicate Fitting(e: Engine, c: Ctx, ev: Event)
    requires e.Valid()
  {
    ev.Prepares? && ev.f != 0 && !Busy(c) ==> CanPrepare(e, c, ev.f)
  }

  lemma StepFits(e: Engine, c: Ctx, ev: Event)
    requires e.Valid() && Sane(e, c) && Layout(e, c) && Allowed(e, c, ev) && Fitting(e, c, ev)
    ensures Layout(e, Step(e, c, ev))
  {
    hide Unprepare, Prepare, PopState, Layout, Failed, GoodStart, CanPrepare;
    match ev
    case Pops => if IsNested(c) { PopLayout(e, c); } else { NoPop(e, c); }
    case Prepares(f) =>
      if f != 0 && !Busy(c) {
        LayoutStarts(e, c, f);
        PrepareSucceeds(e, c, f);
        PrepareGood(e, c, f);
      } else {
        PrepareSane(e, c, f);
      }
    case Unprepares => UnprepareLayout(e, c);
    case _ => StepLayout(e, c, ev);
  }

  lemma {:induction false} FittingRun(e: Engine, base: seq<Frame>, c: Ctx, evs: seq<Event>, d: Ctx)
    requires e.Valid() && Sane(e, c) && Based(base, c) && Layout(e, c) && NestedRun(e, |base|, c, evs, d) && AllFit(e, c, evs)
    ensures CarefulRun(e, |base|, c, evs, d) && Layout(e, d)
    decreases |evs|
  {
    hide Step, Allowed, Sane, Based, Careful, Layout, Fitting;
    if evs != [] {
      LayoutCareful(e, c, evs[0]);
      StepKeeps(e, base, c, evs[0]);
      StepFits(e, c, evs[0]);
      FittingRun(e, base, Step(e, c, evs[0]), evs[1..], d);
    }
  }

  /** A run in which every preparation finds space is one of those, and has the layout throughout. */
  lemma FittingRunIsCareful(e: Engine, evs: seq<Event>, d: Ctx)
    requires e.Valid() && NestedRun(e, 0, NewContext(), evs, d) && AllFit(e, NewContext(), evs)
    ensures CarefulRun(e, 0, NewContext(), evs, d) && Layout(e, d)
  {
    FittingRun(e, [], NewContext(), evs, d);
  }

  lemma {:induction false} RunMemory(e: Engine, base: seq<Frame>, c: Ctx, evs: seq<Event>, d: Ctx, p: Ptr)
    requires e.Valid() && Sane(e, c) && RunOk(e, c) && Based(base, c) && CarefulRun(e, |base|, c, evs, d)
    requires |base| >= 2 && !base[|base| - 2].IsMarker() && IsCall(e, base[|base| - 2])
    requires Outside(p, base[|base| - 2].s4, base[|base| - 2].s3.off)
    ensures Read(d.mem, p) == Read(c.mem, p)
    decreases |evs|
  {
    hide Step, Allowed, RunOk, Sane, Careful;
    if evs != [] {
      assert c.callStack[..|base|][|base| - 2] == c.callStack[|base| - 2];
      assert c.callStack[..|base|][|base| - 1] == c.callStack[|base| - 1];
      StepMemory(e, c, evs[0], |base| - 2, p);
      StepKeeps(e, base, c, evs[0]);
      StepOk(e, c, evs[0]);
      RunMemory(e, base, Step(e, c, evs[0]), evs[1..], d, p);
    }
  }

  /** What the application runs between pushing and popping the state leaves every word of the interrupted calls as it was:
      their frames, arguments, and all that lies above the stack pointer. */
  lemma NestedRunLeavesFrames(e: Engine, c: Ctx, evs: seq<Event>, d: Ctx, p: Ptr)
    requires e.Valid() && Sane(e, c) && Layout(e, c) && c.status == Active
    requires CarefulRun(e, |c.callStack| + 2, PushState(c), evs, d)
    requires Outside(p, c.index, c.sp.off)
    ensures Read(d.mem, p) == Read(c.mem, p)
  {
    hide Chain, Idle;
    var base := PushState(c).callStack;
    PushLayout(e, c);
    assert Based(base, PushState(c)) && Sane(e, PushState(c));
    RunMemory(e, base, PushState(c), evs, d, p);
  }

  // ---- Memory, in any run ----

  /** What bounds the stack blocks, however the application goes on after a failure. */
  predicate BlocksOk(e: Engine, c: Ctx) {
    && WithinLimit(e, c.blocks) && (if c.blocks == 0 then c.index == 0 else c.index < c.blocks)
    && forall f :: f in c.callStack && !f.IsMarker() ==> f.s4 <= c.blocks && (c.blocks > 0 ==> f.s4 < c.blocks)
  }

  lemma {:induction false} FindBlockBound(e: Engine, c: Ctx, size: nat)
    requires e.Valid() && c.index < c.blocks && WithinLimit(e, c.blocks)
    ensures var r := FindBlock(e, c, size);
      c.blocks <= r.blocks && r.index < r.blocks && WithinLimit(e, r.blocks) && r.callStack == c.callStack
    decreases Shortage(e, c.current, c.index, size), if c.sp == At(c.index, e.Size(c.index) - e.Args(c.current)) then 0 else 1
  {
    hide Engine.Total;
    if !Fits(e, c, size) && !OverLimit(e, c.index) {
      AllocateWithinLimit(e, c.index);
      FindBlockBound(e, NextBlock(e, c), size);
    }
  }

  lemma ReserveBound(e: Engine, c: Ctx, size: nat)
    requires e.Valid() && BlocksOk(e, c)
    ensures BlocksOk(e, Reserve(e, c, size))
  {
    assert e.Total(1) == e.Total(0) + e.Size(0);
    FindBlockBound(e, FirstBlock(e, c), size);
  }

  lemma {:induction false} UnwindBound(e: Engine, c: Ctx)
    requires BlocksOk(e, c)
    ensures BlocksOk(e, Unwind(e, c)) && Unwind(e, c).blocks == c.blocks
    decreases |c.callStack|
  {
    if |c.callStack| > 0 && !Top(c).IsMarker() {
      PopBound(e, c);
      UnwindBound(e, CleanFrame(e, PopCallState(c)));
    }
  }

  lemma PopBound(e: Engine, c: Ctx)
    requires BlocksOk(e, c) && |c.callStack| > 0 && !Top(c).IsMarker()
    ensures BlocksOk(e, PopCallState(c))
  {
    assert Top(c) in c.callStack;
  }

  lemma CleanBound(e: Engine, c: Ctx)
    requires BlocksOk(e, c)
    ensures BlocksOk(e, Clean(e, c)) && BlocksOk(e, Unprepare(e, c))
  {
    if c.status != Finished && c.status != Uninitialized { UnwindBound(e, CleanFrame(e, c).(status := Exception)); }
  }

  lemma PrepareBound(e: Engine, c: Ctx, f: nat)
    requires e.Valid() && BlocksOk(e, c)
    ensures BlocksOk(e, Prepare(e, c, f))
  {
    hide Clean, FindBlock, ClearWords;
    if f != 0 && !Busy(c) {
      CleanBound(e, c);
      var c0 := Clean(e, c);
      var c1 := if c0.initial != 0 then c0.(sp := c0.originalSp) else c0;
      ReserveBound(e, c1.(initial := f, current := f, args := e.Args(f), ret := e.Ret(f)), e.Args(f) + e.Ret(f) + e.Needed(f));
    }
  }

  lemma PopStateBound(e: Engine, c: Ctx)
    requires Sane(e, c) && BlocksOk(e, c) && Based([], c) && Allowed(e, c, Pops)
    ensures BlocksOk(e, PopState(e, c))
  {
    hide Unprepare;
    if IsNested(c) {
      CleanBound(e, c);
      UnprepareKeeps(e, c);
      RestoredBound(e, Unprepare(e, c));
    }
  }

  lemma UnprepareKeeps(e: Engine, c: Ctx)
    requires Sane(e, c) && Based([], c)
    ensures Based([], Unprepare(e, c))
  {
    UnprepareStops(e, [], c);
  }

  lemma RestoredBound(e: Engine, c: Ctx)
    requires BlocksOk(e, c) && Based([], c) && |c.callStack| >= 2 && Top(c).IsMarker()
    ensures BlocksOk(e, Restored(e, c))
  {
    var x := c.callStack[|c.callStack| - 2];
    assert x in c.callStack && !x.IsMarker();
  }

  lemma StepBound(e: Engine, c: Ctx, ev: Event)
    requires e.Valid() && Sane(e, c) && BlocksOk(e, c) && Based([], c) && Allowed(e, c, ev)
    ensures BlocksOk(e, Step(e, c, ev))
  {
    hide Unprepare, Prepare, PopState, CallScript, Based, Clean;
    match ev
    case Calls(f) => CallBound(e, c, f);
    case Prepares(f) => PrepareBound(e, c, f);
    case Pops => PopStateBound(e, c);
    case Unprepares => CleanBound(e, c);
    case Returns(w) => if |c.callStack| > 0 && !Top(c).IsMarker() { PopBound(e, c); }
    case _ =>
  }

  lemma CallBound(e: Engine, c: Ctx, f: nat)
    requires e.Valid() && BlocksOk(e, c)
    ensures BlocksOk(e, CallScript(e, c, f))
  {
    hide FindBlock;
    ReserveBound(e, PushCallState(c).(current := f, pc := e.funcs(f).code), e.Needed(f));
  }

  /** In any run at all, the stack blocks together take no more than twice the limit and one first block. */
  lemma EveryRunWithinLimit(e: Engine, evs: seq<Event>, d: Ctx)
    requires e.Valid() && NestedRun(e, 0, NewContext(), evs, d)
    ensures WithinLimit(e, d.blocks)
  {
    RunBound(e, NewContext(), evs, d);
  }

  lemma {:induction false} RunBound(e: Engine, c: Ctx, evs: seq<Event>, d: Ctx)
    requires e.Valid() && Sane(e, c) && BlocksOk(e, c) && Based([], c) && NestedRun(e, 0, c, evs, d)
    ensures BlocksOk(e, d)
    decreases |evs|
  {
    hide Step, Allowed, Sane, BlocksOk, Based;
    if evs != [] {
      StepKeeps(e, [], c, evs[0]);
      StepBound(e, c, evs[0]);
      RunBound(e, Step(e, c, evs[0]), evs[1..], d);
    }
  }

  // ---- Two runs that go on after a failure ----

  /** Two functions, one of which needs more than the limit allows. */
  function TightEngine(): Engine {
    Engine((f: nat) => FuncInfo(0, false, false, 0, 0, if f == 2 then 100 else 4, 1), 16, 8, (b: int) => if b >= 0 then 1000 + 1000 * b else 0)
  }

  /** The first function prepared on a new context. */
  function PreparedFirst(): Ctx {
    Ctx(Prepared, [], 1, 1, 0, 0, At(0, 16), At(0, 16), 0, 1, At(0, 16), 0, 0, false, map[])
  }

  /** It runs. */
  function RunningFirst(): Ctx {
    Ctx(Active, [], 1, 1, 0, 1, At(0, 16), At(0, 16), 0, 1, At(0, 16), 0, 0, false, map[])
  }

  /** A run nested in it. */
  function PushedFirst(): Ctx {
    Ctx(Uninitialized, [Frame(At(0, 16), 1, 1, At(0, 16), 0), Frame(Null, 0, 1, At(0, 16), 0)],
        1, 0, 0, 1, At(0, 14), At(0, 16), 0, 1, At(0, 16), 0, 0, false, map[])
  }

  /** The second function prepared there, without success. */
  function FailedSecond(): Ctx {
    Ctx(Exception, [Frame(At(0, 16), 1, 1, At(0, 16), 0), Frame(Null, 0, 1, At(0, 16), 0)],
        2, 2, 0, 1, At(0, 14), At(0, 14), 0, 1, At(0, 16), 0, 0, true, map[])
  }

  /** The first one prepared again. */
  function AgainFirst(): Ctx {
    FailedSecond().(status := Prepared, current := 1, initial := 1, pc := 0, sp := At(0, 16), fp := At(0, 16), noMemory := false)
  }

  lemma FirstPrepared()
    ensures Prepare(TightEngine(), NewContext(), 1) == PreparedFirst()
  {
    var e, c := TightEngine(), NewContext();
    var c1 := FirstBlock(e, c.(initial := 1, current := 1, args := 0, ret := 0));
    assert Fits(e, c1, 4);
    assert Reserve(e, c.(initial := 1, current := 1, args := 0, ret := 0), 4) == c1;
    assert Assign(e, c, 1) == c1;
  }

  lemma SecondFails()
    ensures Prepare(TightEngine(), PushedFirst(), 2) == FailedSecond()
  {
    var e, p := TightEngine(), PushedFirst();
    assert Pow2(1) == 2 * Pow2(0) && OverLimit(e, 0);
    var c1 := p.(initial := 2, current := 2, args := 0, ret := 0);
    assert !Fits(e, c1, 100);
    assert Reserve(e, c1, 100) == FailedSecond();
    assert Assign(e, p, 2) == FailedSecond();
  }

  lemma FirstAgain()
    ensures Prepare(TightEngine(), FailedSecond(), 1) == AgainFirst()
  {
    var e, f := TightEngine(), FailedSecond();
    assert Top(f).IsMarker();
    var c0 := f.(noMemory := false);
    assert CleanStack(e, f) == c0;
    var c1 := c0.(sp := At(0, 16), initial := 1, current := 1, args := 0, ret := 0);
    assert Fits(e, c1, 4);
    assert Reserve(e, c1, 4) == c1;
    assert Assign(e, c0, 1) == c1;
  }

  /** Prepare, run, push, prepare without success, prepare again: the frame of the nested run is put over that of the call it is
      nested in. */
  lemma FailedPrepareOverlaps()
    ensures NestedRun(TightEngine(), 0, NewContext(), [Prepares(1), Executes, Pushes, Prepares(2), Prepares(1)], AgainFirst())
    ensures AgainFirst().status == Prepared && AgainFirst().fp == AgainFirst().callStack[0].s0
  {
    hide Prepare, NestedRun, Execute, PushState;
    FirstPrepared();
    FirstRuns();
    FirstPushed();
    SecondFails();
    FirstAgain();
    RunsOn(NewContext(), [Prepares(1), Executes, Pushes, Prepares(2), Prepares(1)], PreparedFirst());
    RunsOn(PreparedFirst(), [Executes, Pushes, Prepares(2), Prepares(1)], RunningFirst());
    RunsOn(RunningFirst(), [Pushes, Prepares(2), Prepares(1)], PushedFirst());
    RunsOn(PushedFirst(), [Prepares(2), Prepares(1)], FailedSecond());
    RunsOn(FailedSecond(), [Prepares(1)], AgainFirst());
  }

  lemma FirstRuns()
    ensures Execute(TightEngine(), PreparedFirst()) == RunningFirst()
  {
    hide Enter, Execute;
    PreparedRuns(TightEngine(), PreparedFirst());
  }

  lemma PreparedRuns(e: Engine, c: Ctx)
    requires c.status == Prepared && c.sp.At?
    ensures Execute(e, c) == c.(status := Active, pc := e.funcs(c.current).code, fp := c.sp, sp := c.sp.Plus(0 - e.Vars(c.current)))
  {
  }

  lemma FirstPushed()
    ensures PushState(RunningFirst()) == PushedFirst()
  {
    assert PushState(RunningFirst()).callStack == PushedFirst().callStack;
  }

  /** In the nested run the first function calls itself and is suspended. */
  function AgainPrepared(): Ctx {
    PushedFirst().(status := Prepared, current := 1, initial := 1, pc := 0, fp := At(0, 14), originalSp := At(0, 14))
  }

  function AgainRunning(): Ctx { AgainPrepared().(status := Active, pc := 1) }

  function AgainCalled(): Ctx {
    AgainRunning().(callStack := AgainRunning().callStack + [Frame(At(0, 14), 1, 1, At(0, 14), 0)])
  }

  lemma AgainPrepares()
    ensures Prepare(TightEngine(), PushedFirst(), 1) == AgainPrepared()
  {
    var e, p := TightEngine(), PushedFirst();
    var c1 := p.(initial := 1, current := 1, args := 0, ret := 0);
    assert Fits(e, c1, 4);
    assert Reserve(e, c1, 4) == c1;
    assert Assign(e, p, 1) == c1;
  }

  lemma AgainCalls()
    ensures CallScript(TightEngine(), AgainRunning(), 1) == AgainCalled()
  {
    var e, c := TightEngine(), AgainRunning();
    var c1 := PushCallState(c).(current := 1, pc := 1);
    assert Fits(e, c1, 4);
    assert Reserve(e, c1, 4) == c1;
  }

  /** A nested run that is popped with a suspended call on the stack: what was interrupted is not restored. */
  lemma SuspendedNotRestored()
    ensures var e, d := TightEngine(), AgainCalled().(status := Suspended);
      && NestedRun(e, 2, PushState(RunningFirst()), [Prepares(1), Executes, Calls(1), Suspends], d)
      && IsNested(d) && |Unprepare(e, d).callStack| >= 2 && !SameState(PopState(e, d), RunningFirst())
  {
    hide Prepare, NestedRun, Execute, PushState, CallScript;
    var e, d := TightEngine(), AgainCalled().(status := Suspended);
    FirstPushed();
    AgainPrepares();
    PreparedRuns(e, AgainPrepared());
    AgainCalls();
    RunsOnAt(2, PushedFirst(), [Prepares(1), Executes, Calls(1), Suspends], AgainPrepared());
    RunsOnAt(2, AgainPrepared(), [Executes, Calls(1), Suspends], AgainRunning());
    RunsOnAt(2, AgainRunning(), [Calls(1), Suspends], AgainCalled());
    RunsOnAt(2, AgainCalled(), [Suspends], d);
    assert d.callStack[1].IsMarker() && IsNested(d);
    PopRestores(e, RunningFirst(), [Prepares(1), Executes, Calls(1), Suspends], d);
  }

  lemma RunsOn(c: Ctx, evs: seq<Event>, d: Ctx)
    requires |evs| > 0 && Allowed(TightEngine(), c, evs[0]) && !evs[0].Pops? && Step(TightEngine(), c, evs[0]) == d
    ensures evs[1..] == [] ==> NestedRun(TightEngine(), 0, c, evs, d)
    ensures forall d1 :: NestedRun(TightEngine(), 0, d, evs[1..], d1) ==> NestedRun(TightEngine(), 0, c, evs, d1)
  {
    RunsOnAt(0, c, evs, d);
  }

  lemma RunsOnAt(n: nat, c: Ctx, evs: seq<Event>, d: Ctx)
    requires |evs| > 0 && Allowed(TightEngine(), c, evs[0]) && !evs[0].Pops? && Step(TightEngine(), c, evs[0]) == d && n <= |c.callStack|
    ensures evs[1..] == [] ==> NestedRun(TightEngine(), n, c, evs, d)
    ensures forall d1 :: NestedRun(TightEngine(), n, d, evs[1..], d1) ==> NestedRun(TightEngine(), n, c, evs, d1)
  {
  }

  /** The function whose preparation failed on a new context, prepared again: space is not looked for, and it is reported as
      prepared with no stack at all. */
  lemma FailedPrepareRepeats()
    ensures var e := TightEngine(); var c1 := Prepare(e, NewContext(), 2); var c2 := Prepare(e, c1, 2);
      c1.noMemory && c2.status == Prepared && !c2.noMemory && c2.fp == At(-1, 0)
  {
    var e, c := TightEngine(), NewContext();
    assert Pow2(1) == 2 * Pow2(0) && OverLimit(e, 0);
    var c1 := FirstBlock(e, c.(initial := 2, current := 2, args := 0, ret := 0));
    assert !Fits(e, c1, 100);
    assert Reserve(e, c.(initial := 2, current := 2, args := 0, ret := 0), 100) == OutOfSpace(c1);
    assert Assign(e, c, 2) == OutOfSpace(c1);
    var f := OutOfSpace(c1);
    assert Prepare(e, c, 2) == f;
    assert Clean(e, f) == f.(noMemory := false);
    assert Assign(e, f.(noMemory := false), 2) == f.(noMemory := false, sp := Null);
  }
}
