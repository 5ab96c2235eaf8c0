/** Where the frames of the active calls lie on the stack blocks. */
module StackFrames {
  import opened ContextState
  import opened NestedRuns

  /** A call as its callees see it: its function, frame pointer and block. */
  datatype Act = Act(func: nat, fp: int, block: int)

  function ActOf(f: Frame): Act
    requires f.s0.At?
  {
    Act(f.s1, f.s0.off, f.s4)
  }

  function Current(c: Ctx): Act
    requires c.fp.At?
  {
    Act(c.current, c.fp.off, c.index)
  }

  predicate InBlocks(e: Engine, blocks: nat, block: int, top: int) {
    0 <= block < blocks && top <= e.Size(block)
  }

  /** The running function has its stack space, and the reserve below it, in one block. */
  predicate Room(e: Engine, y: Act, sp: int) {
    RESERVE_STACK <= y.fp - e.Needed(y.func) <= sp <= y.fp - e.Vars(y.func)
  }

  /** A saved call. */
  predicate IsCall(e: Engine, f: Frame) {
    f.s0.At? && f.s3.At? && f.s0.block == f.s4 && f.s3.block == f.s4 && Room(e, ActOf(f), f.s3.off)
  }

  /** y is called from x: the arguments lie within the frame of x, and the frame of y right below or in a later block. */
  predicate Link(e: Engine, x: Frame, y: Act)
    requires IsCall(e, x)
  {
    && x.s4 <= y.block && (x.s4 == y.block ==> y.fp == x.s3.off)
    && x.s3.off + e.Args(y.func) <= x.s0.off - e.Vars(x.s1)
  }

  /** The stack of a run nested in x begins at p. */
  predicate NestedBelow(e: Engine, x: Frame, p: Ptr)
    requires IsCall(e, x) && p.At?
  {
    x.s4 <= p.block && (x.s4 == p.block ==> p.off <= x.s3.off - 2)
  }

  /** y is the first call of a run that began at orig. */
  predicate First(e: Engine, y: Act, orig: Ptr, init: nat, args: int) {
    && init != 0 && y.func == init && args == e.Args(init)
    && orig == At(y.block, y.fp + args + e.Ret(init)) && orig.off <= e.Size(if y.block >= 0 then y.block else 0)
    && RESERVE_STACK <= y.fp - e.Needed(init)
  }

  /** The calls of a run, from the newest, y, to the first. */
  ghost predicate Chain(e: Engine, blocks: nat, stack: seq<Frame>, y: Act, orig: Ptr, init: nat, args: int)
    decreases |stack|, 1
  {
    && InBlocks(e, blocks, y.block, y.fp + e.Args(y.func))
    && if |stack| == 0 || stack[|stack| - 1].IsMarker() then First(e, y, orig, init, args) && Idle(e, blocks, stack, orig)
       else
         var x := stack[|stack| - 1];
         IsCall(e, x) && Link(e, x, y) && Chain(e, blocks, stack[..|stack| - 1], ActOf(x), orig, init, args)
  }

  /** No run since the nearest marker: the next begins at p. */
  ghost predicate Idle(e: Engine, blocks: nat, stack: seq<Frame>, p: Ptr)
    decreases |stack|, 0
  {
    && p.At? && InBlocks(e, blocks, p.block, p.off)
    && (|stack| > 0 ==>
        var m := stack[|stack| - 1];
        && m.IsMarker() && |stack| >= 2
        && var x := stack[|stack| - 2];
           IsCall(e, x) && NestedBelow(e, x, p) && Chain(e, blocks, stack[..|stack| - 2], ActOf(x), m.s3, m.s2, m.s4))
  }

  predicate WithinLimit(e: Engine, blocks: nat) {
    e.maximumSize > 0 ==> e.Total(blocks) <= 2 * e.maximumSize + e.initialSize
  }

  ghost predicate Fresh(e: Engine, c: Ctx) { c.initial == 0 && c.blocks == 0 && c.callStack == [] && c.sp == Null }

  /** p cannot be where a run nested in the newest call begins: it belongs to the run that call is part of. */
  predicate Stale(e: Engine, stack: seq<Frame>, p: Ptr) {
    p.At? && |stack| >= 2 && IsCall(e, stack[|stack| - 2]) && !NestedBelow(e, stack[|stack| - 2], p)
  }

  /** The layout of the stack. */
  ghost predicate Layout(e: Engine, c: Ctx) {
    && WithinLimit(e, c.blocks)
    && (c.status == Uninitialized <==> c.initial == 0)
    && (c.initial == 0 ==>
        || (Fresh(e, c) && c.originalSp == Null)
        || (c.sp.At? && c.sp.block == c.index && Idle(e, c.blocks, c.callStack, c.sp)
            && (c.originalSp == c.sp || Stale(e, c.callStack, c.originalSp))))
    && (c.initial != 0 ==>
        && c.fp.At? && c.fp.block == c.index
        && Chain(e, c.blocks, c.callStack, Current(c), c.originalSp, c.initial, c.args))
    && (Busy(c) ==> c.sp.At? && c.sp.block == c.index && Room(e, Current(c), c.sp.off))
    && (c.status == Prepared ==> AtMarker(c))
  }

  // ---- Blocks ----

  lemma {:induction false} TotalIs(e: Engine, n: nat)
    ensures e.Total(n) == e.initialSize * (Pow2(n) - 1) && e.Size(n) == e.initialSize * Pow2(n)
  {
    if n > 0 { TotalIs(e, n - 1); }
  }

  /** The limit is only crossed by a block allocated when the total was still within it. */
  lemma AllocateWithinLimit(e: Engine, index: nat)
    requires !OverLimit(e, index)
    ensures WithinLimit(e, index + 2)
  {
    TotalIs(e, index + 1);
    TotalIs(e, index);
    assert e.Total(index + 2) == e.Total(index + 1) + e.Size(index + 1);
    assert e.Total(index + 1) == e.Total(index) + e.Size(index);
    assert e.Size(index + 1) == e.Total(index + 1) + e.initialSize by {
      assert e.Size(index + 1) == e.initialSize * Pow2(index + 1);
      assert e.Total(index + 1) == e.initialSize * (Pow2(index + 1) - 1);
    }
  }

  /** The search for space goes to later blocks only, and ends with the request and the reserve in one block - unless the
      limit is crossed - without ever allocating more than twice the limit and one first block. */
  lemma {:induction false} FindBlockLayout(e: Engine, c: Ctx, size: nat)
    requires e.Valid() && c.index < c.blocks && c.sp.At? && c.sp.block == c.index && WithinLimit(e, c.blocks) && !c.noMemory
    ensures var r := FindBlock(e, c, size);
      && c.index <= r.index < r.blocks && c.blocks <= r.blocks && WithinLimit(e, r.blocks)
      && r.sp.At? && r.sp.block == r.index
      && (r.index == c.index ==> r.sp == c.sp)
      && (r.index != c.index ==> r.sp.off == e.Size(r.index) - e.Args(c.current))
      && (!r.noMemory ==> r.sp.off - (size + RESERVE_STACK) >= 0)
      && (r.noMemory ==> OverLimit(e, r.index) && r.fp == r.sp && r.status == Exception)
      && (r.noMemory && OverLimit(e, c.index) ==> r.index == c.index)
    decreases Shortage(e, c.current, c.index, size), if c.sp == At(c.index, e.Size(c.index) - e.Args(c.current)) then 0 else 1
  {
    hide Engine.Total;
    if !Fits(e, c, size) && !OverLimit(e, c.index) {
      AllocateWithinLimit(e, c.index);
      FindBlockLayout(e, NextBlock(e, c), size);
    }
  }

  lemma {:induction false} MoreBlocks(e: Engine, b1: nat, b2: nat, stack: seq<Frame>, y: Act, orig: Ptr, init: nat, args: int)
    requires b1 <= b2 && Chain(e, b1, stack, y, orig, init, args)
    ensures Chain(e, b2, stack, y, orig, init, args)
    decreases |stack|, 1
  {
    if |stack| == 0 || stack[|stack| - 1].IsMarker() {
      MoreIdle(e, b1, b2, stack, orig);
    } else {
      MoreBlocks(e, b1, b2, stack[..|stack| - 1], ActOf(stack[|stack| - 1]), orig, init, args);
    }
  }

  lemma {:induction false} MoreIdle(e: Engine, b1: nat, b2: nat, stack: seq<Frame>, p: Ptr)
    requires b1 <= b2 && Idle(e, b1, stack, p)
    ensures Idle(e, b2, stack, p)
    decreases |stack|, 0
  {
    if |stack| > 0 {
      var m := stack[|stack| - 1];
      MoreBlocks(e, b1, b2, stack[..|stack| - 2], ActOf(stack[|stack| - 2]), m.s3, m.s2, m.s4);
    }
  }

  lemma {:induction false} ChainFirst(e: Engine, blocks: nat, stack: seq<Frame>, y: Act, orig: Ptr, init: nat, args: int)
    requires Chain(e, blocks, stack, y, orig, init, args)
    ensures init != 0 && args == e.Args(init) && orig.At? && InBlocks(e, blocks, orig.block, orig.off)
    ensures orig.off - args - e.Ret(init) - e.Needed(init) >= RESERVE_STACK
    decreases |stack|
  {
    if |stack| > 0 && !stack[|stack| - 1].IsMarker() {
      ChainFirst(e, blocks, stack[..|stack| - 1], ActOf(stack[|stack| - 1]), orig, init, args);
    }
  }

  /** A run can begin where another did, or further on. */
  lemma IdleFurther(e: Engine, b1: nat, b2: nat, stack: seq<Frame>, p: Ptr, q: Ptr)
    requires Idle(e, b1, stack, p) && b1 <= b2 && q.At? && InBlocks(e, b2, q.block, q.off)
    requires p.block <= q.block && (p.block == q.block ==> q.off <= p.off)
    ensures Idle(e, b2, stack, q)
  {
    MoreIdle(e, b1, b2, stack, p);
  }

  // ---- Every step keeps the layout ----

  lemma CallLayout(e: Engine, c: Ctx, f: nat)
    requires e.Valid() && Sane(e, c) && Layout(e, c) && Allowed(e, c, Calls(f))
    ensures Layout(e, CallScript(e, c, f))
  {
    hide Chain, FindBlock, OverLimit;
    var x := Frame(c.fp, c.current, c.pc, c.sp, c.index);
    var c1 := PushCallState(c).(current := f, pc := e.funcs(f).code);
    InChain(e, c.blocks, c.callStack, Current(c), c.originalSp, c.initial, c.args);
    FindBlockLayout(e, c1, e.Needed(f));
    FindBlockKeeps(e, c1, e.Needed(f));
    var r := CallScript(e, c, f);
    MoreBlocks(e, c.blocks, r.blocks, c.callStack, Current(c), c.originalSp, c.initial, c.args);
    PushChain(e, r.blocks, c.callStack, x, Current(r), c.originalSp, c.initial, c.args);
  }

  lemma InChain(e: Engine, blocks: nat, stack: seq<Frame>, y: Act, orig: Ptr, init: nat, args: int)
    requires Chain(e, blocks, stack, y, orig, init, args)
    ensures InBlocks(e, blocks, y.block, y.fp + e.Args(y.func))
  {
  }

  lemma PushChain(e: Engine, blocks: nat, stack: seq<Frame>, x: Frame, y: Act, orig: Ptr, init: nat, args: int)
    requires !x.IsMarker() && IsCall(e, x) && Link(e, x, y) && InBlocks(e, blocks, y.block, y.fp + e.Args(y.func))
    requires Chain(e, blocks, stack, ActOf(x), orig, init, args)
    ensures Chain(e, blocks, stack + [x], y, orig, init, args)
  {
    assert (stack + [x])[..|stack|] == stack;
  }

  lemma AtCall(e: Engine, blocks: nat, stack: seq<Frame>, y: Act, orig: Ptr, init: nat, args: int)
    requires Chain(e, blocks, stack, y, orig, init, args) && |stack| > 0 && !stack[|stack| - 1].IsMarker()
    ensures var x := stack[|stack| - 1];
      IsCall(e, x) && Link(e, x, y) && Chain(e, blocks, stack[..|stack| - 1], ActOf(x), orig, init, args)
  {
  }

  lemma ReturnLayout(e: Engine, c: Ctx, w: nat)
    requires e.Valid() && Sane(e, c) && Layout(e, c) && Allowed(e, c, Returns(w))
    ensures Layout(e, Return(e, c, w))
  {
    hide Chain, Idle;
    if |c.callStack| > 0 && !Top(c).IsMarker() {
      AtCall(e, c.blocks, c.callStack, Current(c), c.originalSp, c.initial, c.args);
      InChain(e, c.blocks, c.callStack[..|c.callStack| - 1], ActOf(Top(c)), c.originalSp, c.initial, c.args);
    }
  }

  /** Unwinding ends where the run began. */
  lemma {:induction false} UnwindLayout(e: Engine, c: Ctx)
    requires e.Valid() && c.fp.At? && c.fp.block == c.index && Chain(e, c.blocks, c.callStack, Current(c), c.originalSp, c.initial, c.args)
    ensures var r := Unwind(e, c); Idle(e, c.blocks, r.callStack, c.originalSp) && c.originalSp.block == r.index
    decreases |c.callStack|
  {
    if |c.callStack| > 0 && !Top(c).IsMarker() { UnwindLayout(e, CleanFrame(e, PopCallState(c))); }
  }

  lemma CleanLayout(e: Engine, c: Ctx)
    requires e.Valid() && Sane(e, c) && Layout(e, c) && c.initial != 0 && !Busy(c)
    ensures var r := Clean(e, c); Idle(e, c.blocks, r.callStack, c.originalSp) && c.originalSp.block == r.index
  {
    if c.status == Finished { assert Unwind(e, c) == c; UnwindLayout(e, c); } else { UnwindLayout(e, CleanFrame(e, c).(status := Exception)); }
  }

  lemma UnprepareLayout(e: Engine, c: Ctx)
    requires e.Valid() && Sane(e, c) && Layout(e, c)
    ensures Layout(e, Unprepare(e, c))
  {
    hide Chain, Idle, CleanStack, Stale;
    if !Busy(c) && c.initial != 0 {
      CleanLayout(e, c);
      CleanStops(e, c);
      IdleAt(e, c.blocks, Clean(e, c).callStack, c.originalSp);
    }
  }

  lemma IdleAt(e: Engine, blocks: nat, stack: seq<Frame>, p: Ptr)
    requires Idle(e, blocks, stack, p)
    ensures p.At? && InBlocks(e, blocks, p.block, p.off)
    ensures |stack| > 0 ==> stack[|stack| - 1].IsMarker()
  {
  }

  lemma CleanIdle(e: Engine, c: Ctx)
    requires c.status == Uninitialized
    ensures Clean(e, c) == c
  {
  }

  lemma SetUpLayout(e: Engine, c: Ctx, f: nat)
    requires f != 0 && c.initial == f && c.current == f && c.args == e.Args(f) && c.ret == e.Ret(f) && WithinLimit(e, c.blocks)
    requires c.sp.At? && c.sp.block == c.index && Idle(e, c.blocks, c.callStack, c.sp)
    requires c.sp.off - e.Args(f) - e.Ret(f) - e.Needed(f) >= RESERVE_STACK
    ensures Layout(e, SetUp(e, c))
  {
  }

  lemma PushLayout(e: Engine, c: Ctx)
    requires e.Valid() && Sane(e, c) && Layout(e, c)
    ensures Layout(e, PushState(c))
  {
    if c.status == Active {
      var r := PushState(c);
      assert r.callStack[..|r.callStack| - 2] == c.callStack;
      assert r.callStack == c.callStack + [Frame(c.fp, c.current, c.pc, c.sp, c.index), Frame(Null, c.system, c.initial, c.originalSp, c.args)];
      OrigAbove(e, c.blocks, c.callStack, Current(c), c.originalSp, c.initial, c.args);
    }
  }

  /** A run began above everything it has on the stack since. */
  lemma {:induction false} OrigAbove(e: Engine, blocks: nat, stack: seq<Frame>, y: Act, orig: Ptr, init: nat, args: int)
    requires Chain(e, blocks, stack, y, orig, init, args)
    ensures orig.At? && orig.block <= y.block && (orig.block == y.block ==> y.fp <= orig.off)
    decreases |stack|
  {
    if |stack| > 0 && !stack[|stack| - 1].IsMarker() {
      OrigAbove(e, blocks, stack[..|stack| - 1], ActOf(stack[|stack| - 1]), orig, init, args);
    }
  }

  lemma PopLayout(e: Engine, c: Ctx)
    requires e.Valid() && Sane(e, c) && RunOk(e, c) && Allowed(e, c, Pops)
    ensures IsNested(c) ==> Layout(e, PopState(e, c))
  {
    hide Chain, Idle, Unprepare;
    if IsNested(c) {
      var c1 := Unprepare(e, c);
      UnprepareOk(e, c);
      AtTop(e, c1);
      var m := Top(c1);
      var x := c1.callStack[|c1.callStack| - 2];
      ChainFirst(e, c1.blocks, c1.callStack[..|c1.callStack| - 2], ActOf(x), m.s3, m.s2, m.s4);
      InChain(e, c1.blocks, c1.callStack[..|c1.callStack| - 2], ActOf(x), m.s3, m.s2, m.s4);
      assert c1.callStack[..|c1.callStack| - 1][..|c1.callStack| - 2] == c1.callStack[..|c1.callStack| - 2];
    }
  }

  lemma AtTop(e: Engine, c: Ctx)
    requires RunOk(e, c) && |c.callStack| >= 2 && Top(c).IsMarker()
    ensures WithinLimit(e, c.blocks)
    ensures var m := Top(c); var x := c.callStack[|c.callStack| - 2];
      IsCall(e, x) && Chain(e, c.blocks, c.callStack[..|c.callStack| - 2], ActOf(x), m.s3, m.s2, m.s4)
  {
    if Layout(e, c) {
      var p := if c.initial == 0 then c.sp else c.originalSp;
      if c.initial != 0 { AtFirst(e, c.blocks, c.callStack, Current(c), p, c.initial, c.args); }
      assert Idle(e, c.blocks, c.callStack, p);
    }
  }

  lemma AtFirst(e: Engine, blocks: nat, stack: seq<Frame>, y: Act, orig: Ptr, init: nat, args: int)
    requires Chain(e, blocks, stack, y, orig, init, args) && (|stack| == 0 || stack[|stack| - 1].IsMarker())
    ensures First(e, y, orig, init, args) && Idle(e, blocks, stack, orig)
  {
  }

  // ---- Preparing without space ----

  /** The runs that are interrupted, whatever became of the one nested in them. */
  ghost predicate Outer(e: Engine, blocks: nat, stack: seq<Frame>) {
    |stack| > 0 ==>
      var m := stack[|stack| - 1];
      && m.IsMarker() && |stack| >= 2
      && var x := stack[|stack| - 2];
         IsCall(e, x) && Chain(e, blocks, stack[..|stack| - 2], ActOf(x), m.s3, m.s2, m.s4)
  }

  /** A run can begin at p. */
  predicate Begins(e: Engine, blocks: nat, stack: seq<Frame>, p: Ptr) {
    && p.At? && InBlocks(e, blocks, p.block, p.off)
    && (|stack| > 0 ==> |stack| >= 2 && IsCall(e, stack[|stack| - 2]) && NestedBelow(e, stack[|stack| - 2], p))
  }

  lemma IdleIs(e: Engine, blocks: nat, stack: seq<Frame>, p: Ptr)
    ensures Idle(e, blocks, stack, p) <==> Outer(e, blocks, stack) && Begins(e, blocks, stack, p)
  {
  }

  /** After a preparation that found no space. */
  ghost predicate Failed(e: Engine, c: Ctx) {
    && WithinLimit(e, c.blocks) && c.index < c.blocks && OverLimit(e, c.index) && AtMarker(c) && Outer(e, c.blocks, c.callStack)
    && (if c.initial == 0 then c.status == Uninitialized && !c.noMemory
        else c.status == Exception && c.noMemory && c.args == e.Args(c.initial))
  }

  /** What holds in every run. */
  ghost predicate RunOk(e: Engine, c: Ctx) { Layout(e, c) || Failed(e, c) }

  /** The request fits where the stack pointer is, or in a later block that is reached before the limit is crossed. */
  predicate RoomIn(e: Engine, current: nat, i: nat, size: nat) { e.Size(i) - e.Args(current) - (size + RESERVE_STACK) >= 0 }

  ghost predicate CanReserve(e: Engine, c: Ctx, size: nat) {
    Fits(e, c, size) || exists i: nat :: RoomAt(e, c, i, size)
  }

  ghost predicate RoomAt(e: Engine, c: Ctx, i: nat, size: nat) {
    i > c.index && RoomIn(e, c.current, i, size) && forall k: nat :: c.index <= k < i ==> !OverLimit(e, k)
  }

  lemma {:induction false} ReserveDecided(e: Engine, c: Ctx, size: nat)
    requires e.Valid() && !c.noMemory
    ensures !FindBlock(e, c, size).noMemory <==> CanReserve(e, c, size)
    decreases Shortage(e, c.current, c.index, size), if c.sp == At(c.index, e.Size(c.index) - e.Args(c.current)) then 0 else 1
  {
    hide OverLimit;
    if !Fits(e, c, size) && !OverLimit(e, c.index) {
      var n := NextBlock(e, c);
      ReserveDecided(e, n, size);
      assert Fits(e, n, size) <==> RoomIn(e, c.current, c.index + 1, size);
      if Fits(e, n, size) { assert RoomAt(e, c, c.index + 1, size); }
      forall i: nat ensures RoomAt(e, c, i, size) ==> i == c.index + 1 || RoomAt(e, n, i, size) { }
      forall i: nat ensures RoomAt(e, n, i, size) ==> RoomAt(e, c, i, size) { }
      assert RoomAt(e, c, c.index + 1, size) ==> Fits(e, n, size);
    }
  }

  /** What preparing f starts from. */
  function Started(e: Engine, c: Ctx, f: nat): Ctx {
    var c0 := Clean(e, c);
    var c1 := if c0.initial != 0 then c0.(sp := c0.originalSp) else c0;
    if c0.initial == f then c1 else FirstBlock(e, c1)
  }

  /** Whether preparing f finds space: for the function prepared before it is not looked for. */
  ghost predicate CanPrepare(e: Engine, c: Ctx, f: nat) {
    c.initial == f || CanReserve(e, Started(e, c, f).(current := f), e.Args(f) + e.Ret(f) + e.Needed(f))
  }

  /** Preparing fails for lack of space exactly if the limit is crossed before a block has room. */
  lemma PrepareSucceeds(e: Engine, c: Ctx, f: nat)
    requires e.Valid() && Sane(e, c) && f != 0 && !Busy(c)
    ensures !Prepare(e, c, f).noMemory <==> CanPrepare(e, c, f)
  {
    hide Clean, FindBlock, CanReserve, ClearWords;
    CleanStops(e, c);
    var c0 := Clean(e, c);
    if c.initial != f {
      var c1 := if c0.initial != 0 then c0.(sp := c0.originalSp) else c0;
      var c2 := FirstBlock(e, c1.(initial := f, current := f, args := e.Args(f), ret := e.Ret(f)));
      ReserveDecided(e, c2, e.Args(f) + e.Ret(f) + e.Needed(f));
      SameReserve(e, c2, Started(e, c, f).(current := f), e.Args(f) + e.Ret(f) + e.Needed(f));
    }
  }

  lemma SameReserve(e: Engine, c: Ctx, d: Ctx, size: nat)
    requires c.sp == d.sp && c.index == d.index && c.current == d.current
    ensures CanReserve(e, c, size) <==> CanReserve(e, d, size)
  {
    forall i: nat ensures RoomAt(e, c, i, size) <==> RoomAt(e, d, i, size) { }
  }

  /** The run would begin where its level may, in the block the index names, and with room if none is looked for. */
  predicate GoodStart(e: Engine, c: Ctx, f: nat) {
    var s := Started(e, c, f);
    && s.sp.At? && s.sp.block == s.index && Begins(e, s.blocks, s.callStack, s.sp)
    && (c.initial == f ==> s.sp.off - e.Args(f) - e.Ret(f) - e.Needed(f) >= RESERVE_STACK)
  }

  /** The level of c, below which no call is left, with the sizes that belong to its initial function. */
  lemma Cleaned(e: Engine, c: Ctx)
    requires e.Valid() && Sane(e, c) && RunOk(e, c) && !Busy(c)
    ensures var c0 := Clean(e, c);
      && Outer(e, c0.blocks, c0.callStack) && WithinLimit(e, c0.blocks) && !c0.noMemory && c0.blocks == c.blocks
      && (c0.initial, c0.originalSp, c0.args, c0.ret) == (c.initial, c.originalSp, c.args, c.ret)
      && (c.initial != 0 ==> c.args == e.Args(c.initial) && c.ret == e.Ret(c.initial))
      && (c.initial == 0 ==> c0 == c)
      && (Failed(e, c) ==> c0.index == c.index && c0.callStack == c.callStack)
  {
    hide Chain, Idle, Unwind, Begins, Stale;
    CleanStops(e, c);
    if Failed(e, c) { FailedClean(e, c); }
    if Layout(e, c) {
      if c.initial != 0 {
        CleanLayout(e, c);
        ChainFirst(e, c.blocks, c.callStack, Current(c), c.originalSp, c.initial, c.args);
        IdleIs(e, c.blocks, Clean(e, c).callStack, c.originalSp);
      } else {
        IdleIs(e, c.blocks, c.callStack, c.sp);
      }
    }
  }

  lemma FailedClean(e: Engine, c: Ctx)
    requires Failed(e, c)
    ensures Clean(e, c) == c.(noMemory := false)
  {
  }

  /** Where the layout holds, every start is good. */
  lemma LayoutStarts(e: Engine, c: Ctx, f: nat)
    requires e.Valid() && Sane(e, c) && Layout(e, c) && !Busy(c) && f != 0
    ensures GoodStart(e, c, f)
  {
    hide Chain, Idle, Clean, Stale, Begins;
    Cleaned(e, c);
    var c0 := Clean(e, c);
    if c.initial != 0 {
      CleanLayout(e, c);
      ChainFirst(e, c.blocks, c.callStack, Current(c), c.originalSp, c.initial, c.args);
      IdleIs(e, c.blocks, c0.callStack, c.originalSp);
      IdleAt(e, c.blocks, c0.callStack, c.originalSp);
    } else if c.blocks > 0 {
      IdleIs(e, c.blocks, c.callStack, c.sp);
      IdleAt(e, c.blocks, c.callStack, c.sp);
    } else {
      FreshBegins(e, c, f);
    }
  }

  lemma FreshBegins(e: Engine, c: Ctx, f: nat)
    requires e.Valid() && Layout(e, c) && c.blocks == 0 && c.initial == 0 && f != 0
    ensures GoodStart(e, c, f)
  {
    CleanIdle(e, c);
  }

  /** From a good start the function is prepared with its frame in the layout, or there is no space for it. */
  lemma AssignGood(e: Engine, c: Ctx, f: nat)
    requires e.Valid() && Sane(e, c) && RunOk(e, c) && !Busy(c) && f != 0 && GoodStart(e, c, f)
    ensures var c0 := Clean(e, c); var r := Assign(e, c0, f);
      && r.callStack == c0.callStack && r.originalSp == c.originalSp
      && (!r.noMemory ==>
          && r.initial == f && r.current == f && r.args == e.Args(f) && r.ret == e.Ret(f)
          && r.sp.At? && r.sp.block == r.index && Idle(e, r.blocks, r.callStack, r.sp)
          && WithinLimit(e, r.blocks) && r.sp.off - e.Args(f) - e.Ret(f) - e.Needed(f) >= RESERVE_STACK)
      && (r.noMemory ==>
          && r.initial == f && r.args == e.Args(f) && r.status == Exception && WithinLimit(e, r.blocks)
          && r.index < r.blocks && OverLimit(e, r.index) && Outer(e, r.blocks, r.callStack)
          && (OverLimit(e, Started(e, c, f).index) <==> r.index == Started(e, c, f).index))
  {
    hide Chain, Idle, FindBlock, OverLimit, Clean, Begins, Outer, Stale, Layout, Failed;
    Cleaned(e, c);
    var c0 := Clean(e, c);
    var s := Started(e, c, f);
    StartedIdle(e, c, f);
    if c.initial != f {
      var c3 := s.(initial := f, current := f, args := e.Args(f), ret := e.Ret(f));
      var size := e.Args(f) + e.Ret(f) + e.Needed(f);
      BeginsIn(e, s);
      FindBlockLayout(e, c3, size);
      FindBlockKeeps(e, c3, size);
      var r := Assign(e, c0, f);
      assert r == FindBlock(e, c3, size);
      if !r.noMemory { IdleFurther(e, s.blocks, r.blocks, s.callStack, s.sp, r.sp); }
      else { OuterMore(e, s.blocks, r.blocks, s.callStack, s.sp); }
    }
  }

  lemma BeginsIn(e: Engine, s: Ctx)
    requires Begins(e, s.blocks, s.callStack, s.sp) && s.sp.block == s.index
    ensures s.index < s.blocks && InBlocks(e, s.blocks, s.sp.block, s.sp.off)
  {
  }

  lemma OuterMore(e: Engine, b1: nat, b2: nat, stack: seq<Frame>, p: Ptr)
    requires b1 <= b2 && Idle(e, b1, stack, p)
    ensures Outer(e, b2, stack)
  {
    MoreIdle(e, b1, b2, stack, p);
    IdleIs(e, b2, stack, p);
  }

  lemma StartedIdle(e: Engine, c: Ctx, f: nat)
    requires e.Valid() && Sane(e, c) && RunOk(e, c) && !Busy(c) && f != 0 && GoodStart(e, c, f)
    ensures var s := Started(e, c, f);
      Idle(e, s.blocks, s.callStack, s.sp) && WithinLimit(e, s.blocks) && s.callStack == Clean(e, c).callStack
  {
    hide Chain, Idle, Clean, Begins, Stale;
    Cleaned(e, c);
    var c0, s := Clean(e, c), Started(e, c, f);
    IdleIs(e, s.blocks, s.callStack, s.sp);
    if s.blocks != c.blocks {
      assert e.Total(1) == e.Total(0) + e.Size(0);
      NoOuter(e, c);
    }
  }

  lemma NoOuter(e: Engine, c: Ctx)
    requires RunOk(e, c) && c.blocks == 0
    ensures c.callStack == [] && c.initial == 0 && forall b: nat :: Outer(e, b, c.callStack)
  {
  }

  /** Preparing from a good start keeps what holds in every run. */
  lemma PrepareGood(e: Engine, c: Ctx, f: nat)
    requires e.Valid() && Sane(e, c) && RunOk(e, c) && f != 0 && !Busy(c) && GoodStart(e, c, f)
    ensures var r := Prepare(e, c, f); if r.noMemory then Failed(e, r) else Layout(e, r)
  {
    hide Chain, Idle, Assign, Clean, GoodStart, Outer, OverLimit, RunOk;
    AssignGood(e, c, f);
    CleanStops(e, c);
    var r := Assign(e, Clean(e, c), f);
    if !r.noMemory { SetUpLayout(e, r, f); }
  }

  /** Success keeps the layout exactly if the start was good. */
  lemma PrepareExact(e: Engine, c: Ctx, f: nat)
    requires e.Valid() && Sane(e, c) && RunOk(e, c) && f != 0 && !Busy(c) && !Prepare(e, c, f).noMemory
    ensures Layout(e, Prepare(e, c, f)) <==> GoodStart(e, c, f)
  {
    hide Layout, Failed, GoodStart, Prepare;
    if GoodStart(e, c, f) { PrepareGood(e, c, f); }
    if Layout(e, c) { LayoutStarts(e, c, f); }
    else if Layout(e, Prepare(e, c, f)) { FailedStart(e, c, f); }
  }

  /** After a failure there is no going on to another block, so a start that is not good cannot be made good. */
  lemma FailedStart(e: Engine, c: Ctx, f: nat)
    requires e.Valid() && Sane(e, c) && Failed(e, c) && f != 0 && !Prepare(e, c, f).noMemory && Layout(e, Prepare(e, c, f))
    ensures GoodStart(e, c, f)
  {
    hide Idle, OverLimit, Stale;
    FailedClean(e, c);
    var r := Prepare(e, c, f);
    AtFirst(e, r.blocks, r.callStack, Current(r), r.originalSp, r.initial, r.args);
    IdleIs(e, r.blocks, r.callStack, r.originalSp);
  }

  /** This level has been prepared before, with success. */
  predicate LevelPrepared(c: Ctx) { c.initial != 0 || (c.sp.At? && c.sp == c.originalSp) }

  /** What a failure leaves behind. */
  lemma FailureFacts(e: Engine, c: Ctx, f: nat)
    requires e.Valid() && Sane(e, c) && Layout(e, c) && !Busy(c) && f != 0 && Prepare(e, c, f).noMemory
    ensures var c1, s := Prepare(e, c, f), Started(e, c, f);
      && Failed(e, c1) && Sane(e, c1) && c1.initial == f && c.initial != f && c1.originalSp == c.originalSp && c1.callStack == s.callStack
      && (OverLimit(e, s.index) <==> c1.index == s.index) && s.blocks <= c1.blocks
      && s.sp.At? && s.sp.block == s.index && Begins(e, s.blocks, s.callStack, s.sp)
      && s.sp.off - e.Args(f) - e.Ret(f) - e.Needed(f) < RESERVE_STACK
  {
    hide Layout, OverLimit, Clean, Begins, FindBlock, Idle, Chain, Outer;
    LayoutStarts(e, c, f);
    PrepareGood(e, c, f);
    PrepareSane(e, c, f);
    PrepareSucceeds(e, c, f);
    AssignGood(e, c, f);
    Cleaned(e, c);
    MoreSpace(e, c, f);
  }

  lemma MoreSpace(e: Engine, c: Ctx, f: nat)
    requires e.Valid() && Sane(e, c) && RunOk(e, c) && !Busy(c) && f != 0 && GoodStart(e, c, f) && c.initial != f
    ensures Started(e, c, f).blocks <= Assign(e, Clean(e, c), f).blocks
  {
    hide Layout, Failed, Clean, Begins, FindBlock, Idle, Chain, Outer, OverLimit;
    Cleaned(e, c);
    StartedIdle(e, c, f);
    var s := Started(e, c, f);
    var c3 := s.(initial := f, current := f, args := e.Args(f), ret := e.Ret(f));
    BeginsIn(e, s);
    FindBlockLayout(e, c3, e.Args(f) + e.Ret(f) + e.Needed(f));
    assert Assign(e, Clean(e, c), f) == FindBlock(e, c3, e.Args(f) + e.Ret(f) + e.Needed(f));
  }

  /** When a preparation has failed, the next one, if it succeeds, keeps the layout exactly if it is for another function, the
      level had been prepared before, and the limit was already crossed by the block that level begins in. */
  lemma AfterFailure(e: Engine, c: Ctx, f: nat, g: nat)
    requires e.Valid() && Sane(e, c) && Layout(e, c) && !Busy(c) && f != 0 && g != 0
    requires var c1 := Prepare(e, c, f); c1.noMemory && !Prepare(e, c1, g).noMemory
    ensures Layout(e, Prepare(e, Prepare(e, c, f), g)) <==> g != f && LevelPrepared(c) && OverLimit(e, Clean(e, c).index)
  {
    hide Layout, Prepare, OverLimit, Clean, Outer, Started;
    FailureFacts(e, c, f);
    var c1 := Prepare(e, c, f);
    PrepareExact(e, c1, g);
    StartAgain(e, c1, g);
    if LevelPrepared(c) {
      StartIsOriginal(e, c, f);
    } else {
      NotOriginal(e, c);
      CleanIdle(e, c) by { StatusOf(e, c); }
      StartedStack(e, c, f);
    }
  }

  lemma StatusOf(e: Engine, c: Ctx)
    requires Layout(e, c) && c.initial == 0
    ensures c.status == Uninitialized
  {
  }

  lemma StartedStack(e: Engine, c: Ctx, f: nat)
    requires c.initial == 0 && Clean(e, c) == c
    ensures Started(e, c, f).callStack == c.callStack
  {
  }

  lemma StartAgain(e: Engine, c: Ctx, g: nat)
    requires Failed(e, c) && c.initial != 0 && g != 0
    ensures var s := Started(e, c, g); s.sp == c.originalSp && s.index == c.index && s.blocks == c.blocks && s.callStack == c.callStack
  {
    FailedClean(e, c);
  }

  lemma StartIsOriginal(e: Engine, c: Ctx, f: nat)
    requires e.Valid() && Sane(e, c) && Layout(e, c) && !Busy(c) && LevelPrepared(c) && c.initial != f
    ensures Started(e, c, f).sp == c.originalSp && Started(e, c, f).index == Clean(e, c).index
  {
    hide Chain, Idle, Clean;
    Cleaned(e, c);
    if c.initial != 0 {
      InChain(e, c.blocks, c.callStack, Current(c), c.originalSp, c.initial, c.args);
    } else {
      IdleAt(e, c.blocks, c.callStack, c.sp);
    }
  }

  lemma NotOriginal(e: Engine, c: Ctx)
    requires Layout(e, c) && !LevelPrepared(c)
    ensures c.initial == 0 && forall b: nat :: !Begins(e, b, c.callStack, c.originalSp)
  {
  }

  // ---- Every step ----

  lemma UnprepareOk(e: Engine, c: Ctx)
    requires e.Valid() && Sane(e, c) && RunOk(e, c)
    ensures RunOk(e, Unprepare(e, c))
  {
    hide Chain, Idle, Clean, Stale, Layout;
    if Layout(e, c) { UnprepareLayout(e, c); } else { FailedClean(e, c); }
  }

  /** The application prepares from a good start. Where no preparation has failed since the last one that succeeded, every
      start is good. */
  predicate Careful(e: Engine, c: Ctx, ev: Event) {
    ev.Prepares? && ev.f != 0 && !Busy(c) ==> GoodStart(e, c, ev.f)
  }

  lemma LayoutCareful(e: Engine, c: Ctx, ev: Event)
    requires e.Valid() && Sane(e, c) && Layout(e, c)
    ensures Careful(e, c, ev)
  {
    if ev.Prepares? && ev.f != 0 && !Busy(c) { LayoutStarts(e, c, ev.f); }
  }

  lemma StepOk(e: Engine, c: Ctx, ev: Event)
    requires e.Valid() && Sane(e, c) && RunOk(e, c) && Allowed(e, c, ev) && Careful(e, c, ev)
    ensures RunOk(e, Step(e, c, ev))
  {
    hide Unprepare, Prepare, PopState, CallScript, Chain, Idle, Return, PushState, Layout, Failed, GoodStart;
    match ev
    case Pops => if IsNested(c) { PopLayout(e, c); } else { NoPop(e, c); }
    case Prepares(f) =>
      if f != 0 && !Busy(c) { PrepareGood(e, c, f); } else { PrepareSane(e, c, f); }
    case Unprepares => UnprepareOk(e, c);
    case _ =>
      if Layout(e, c) { StepLayout(e, c, ev); } else { StepFailed(e, c, ev); }
  }

  lemma StepFailed(e: Engine, c: Ctx, ev: Event)
    requires e.Valid() && Failed(e, c) && Allowed(e, c, ev) && !ev.Pops? && !ev.Prepares? && !ev.Unprepares?
    ensures Failed(e, Step(e, c, ev))
  {
    hide OverLimit, Outer;
  }

  lemma StepLayout(e: Engine, c: Ctx, ev: Event)
    requires e.Valid() && Sane(e, c) && Layout(e, c) && Allowed(e, c, ev) && !ev.Pops? && !ev.Prepares? && !ev.Unprepares?
    ensures Layout(e, Step(e, c, ev))
  {
    hide Unprepare, Prepare, PopState, CallScript, Chain, Idle, Return, PushState, Stale;
    match ev
    case Calls(f) => CallLayout(e, c, f);
    case Returns(w) => ReturnLayout(e, c, w);
    case Pushes => PushLayout(e, c);
    case _ => OtherLayout(e, c, ev);
  }

  lemma OtherLayout(e: Engine, c: Ctx, ev: Event)
    requires e.Valid() && Sane(e, c) && Layout(e, c) && Allowed(e, c, ev)
    requires ev.Work? || ev.Store? || ev.Raises? || ev.BeginSystem? || ev.EndSystem? || ev.Suspends? || ev.Aborts? || ev.Executes?
    ensures Layout(e, Step(e, c, ev))
  {
  }
}
