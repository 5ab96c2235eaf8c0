/** The state of a script context: call stack, stack blocks and registers, and what each operation makes of it. */
module ContextState {

  /** An address on the script stack: a block and an offset in dwords from its base. */
  datatype Ptr = Null | At(block: int, off: int)
  {
    /** Pointer arithmetic. A null pointer moved is no valid address, but not null either. */
    function Plus(n: int): Ptr {
      match this
      case Null => At(-1, n)
      case At(b, o) => At(b, o + n)
    }
  }

  datatype Word = Num(n: int) | Addr(p: Ptr)

  datatype Status = Uninitialized | Prepared | Active | Suspended | Finished | Exception | Aborted

  /** What the context needs to know of a script function. Sizes are in dwords; code is the address of its bytecode. */
  datatype FuncInfo = FuncInfo(argSpace: nat, isMethod: bool, returnsOnStack: bool, returnSize: nat, variableSpace: nat,
                               stackNeeded: nat, code: nat)

  /** Function 0 is no function. base: the address at which a stack block is allocated. */
  datatype Engine = Engine(funcs: nat -> FuncInfo, initialSize: nat, maximumSize: nat, base: int -> int)
  {
    ghost predicate Valid() {
      initialSize > 0 && forall f :: funcs(f).code > 0 && funcs(f).variableSpace <= funcs(f).stackNeeded
    }

    /** The arguments of f, with the object pointer and the pointer to the return value. */
    function Args(f: nat): nat {
      funcs(f).argSpace + (if funcs(f).isMethod then 1 else 0) + (if funcs(f).returnsOnStack then 1 else 0)
    }

    function Address(p: Ptr): int { match p case Null => 0 case At(b, o) => base(b) + o }

    function Ret(f: nat): nat { if funcs(f).returnsOnStack then funcs(f).returnSize else 0 }

    function Needed(f: nat): nat { funcs(f).stackNeeded }

    function Vars(f: nat): nat { funcs(f).variableSpace }

    /** The size of a stack block: the first size, doubled with every block. */
    function Size(i: nat): (n: nat)
      ensures n >= initialSize
    {
      if i == 0 then initialSize else 2 * Size(i - 1)
    }

    /** The size of the first n blocks together. */
    function Total(n: nat): nat {
      if n == 0 then 0 else Total(n - 1) + Size(n - 1)
    }
  }

  /** Five slots. Of a call: the caller's frame pointer, function, program pointer, stack pointer and block index. Of the
      marker of a nested run: null, the system function that started it, and the initial function, original stack pointer
      and size of the arguments of the run it interrupts. */
  datatype Frame = Frame(s0: Ptr, s1: nat, s2: nat, s3: Ptr, s4: int)
  {
    predicate IsMarker() { s0 == Null }
  }

  datatype Ctx = Ctx(status: Status, callStack: seq<Frame>, current: nat, initial: nat, system: nat, pc: nat, sp: Ptr, fp: Ptr,
                     index: nat, blocks: nat, originalSp: Ptr, args: int, ret: nat, noMemory: bool, mem: map<Ptr, Word>)

  const RESERVE_STACK := 2

  function Pow2(n: nat): (p: nat)
    ensures p > 0
  {
    if n == 0 then 1 else 2 * Pow2(n - 1)
  }

  // ---- Call states ----

  function PushCallState(c: Ctx): Ctx {
    c.(callStack := c.callStack + [Frame(c.fp, c.current, c.pc, c.sp, c.index)])
  }

  function Top(c: Ctx): Frame
    requires |c.callStack| > 0
  {
    c.callStack[|c.callStack| - 1]
  }

  function PopCallState(c: Ctx): Ctx
    requires |c.callStack| > 0
  {
    var f := Top(c);
    c.(fp := f.s0, current := f.s1, pc := f.s2, sp := f.s3, index := if f.s4 >= 0 then f.s4 else 0,
       callStack := c.callStack[..|c.callStack| - 1])
  }

  predicate HasMarker(frames: seq<Frame>) { exists f :: f in frames && f.IsMarker() }

  predicate IsNested(c: Ctx) { c.current != 0 && HasMarker(c.callStack) }

  // ---- Stack space ----

  /** The search does not go on forever: the blocks grow until the request fits. */
  function Shortage(e: Engine, current: nat, i: nat, size: nat): nat {
    var need := size + RESERVE_STACK + e.Args(current);
    if e.Size(i) >= need then 0 else need - e.Size(i)
  }

  function OutOfSpace(c: Ctx): Ctx {
    c.(noMemory := true, fp := c.sp, status := Exception)
  }

  /** The stack pointer is compared with the block that the index names, whether or not it points there. */
  predicate Fits(e: Engine, c: Ctx, size: nat) { e.Address(c.sp) - (size + RESERVE_STACK) >= e.base(c.index) }

  /** The next block, allocated when there is none. */
  function NextBlock(e: Engine, c: Ctx): Ctx {
    c.(index := c.index + 1, blocks := if c.blocks == c.index + 1 then c.blocks + 1 else c.blocks,
       sp := At(c.index + 1, e.Size(c.index + 1) - e.Args(c.current)))
  }

  predicate OverLimit(e: Engine, index: nat) {
    e.maximumSize > 0 && e.initialSize * (Pow2(index + 1) - 1) > e.maximumSize
  }

  function FindBlock(e: Engine, c: Ctx, size: nat): Ctx
    requires e.Valid()
    decreases Shortage(e, c.current, c.index, size), if c.sp == At(c.index, e.Size(c.index) - e.Args(c.current)) then 0 else 1
  {
    if Fits(e, c, size) then c
    else if OverLimit(e, c.index) then OutOfSpace(c)
    else FindBlock(e, NextBlock(e, c), size)
  }

  function FirstBlock(e: Engine, c: Ctx): Ctx {
    if c.blocks == 0 then c.(blocks := 1, index := 0, sp := At(0, e.initialSize)) else c
  }

  /** The context is left in the state Exception when there is no space. */
  function Reserve(e: Engine, c: Ctx, size: nat): Ctx
    requires e.Valid()
  {
    FindBlock(e, FirstBlock(e, c), size)
  }

  function CopyWords(mem: map<Ptr, Word>, src: Ptr, dst: Ptr, n: nat): map<Ptr, Word> {
    if n == 0 then mem
    else CopyWords(mem, src, dst, n - 1)[dst.Plus(n - 1) := Read(mem, src.Plus(n - 1))]
  }

  function Read(mem: map<Ptr, Word>, p: Ptr): Word { if p in mem then mem[p] else Num(0) }

  function ClearWords(mem: map<Ptr, Word>, p: Ptr, n: nat): map<Ptr, Word> {
    if n == 0 then mem else ClearWords(mem, p, n - 1)[p.Plus(n - 1) := Num(0)]
  }

  // ---- Calls and returns ----

  function Enter(e: Engine, c: Ctx): Ctx {
    c.(fp := c.sp, sp := c.sp.Plus(0 - e.Vars(c.current)))
  }

  function CallScript(e: Engine, c: Ctx, f: nat): Ctx
    requires e.Valid()
  {
    var c1 := PushCallState(c).(current := f, pc := e.funcs(f).code);
    var c2 := Reserve(e, c1, e.Needed(f));
    if c2.noMemory then c2
    else Enter(e, if c2.sp == c.sp then c2 else c2.(mem := CopyWords(c2.mem, c.sp, c2.sp, e.Args(f))))
  }

  function Return(e: Engine, c: Ctx, w: nat): Ctx {
    if |c.callStack| == 0 || Top(c).IsMarker() then c.(status := Finished)
    else var c1 := PopCallState(c); c1.(sp := c1.sp.Plus(w))
  }

  // ---- Unwinding ----

  /** What cleaning a frame leaves: the objects of the frame are not part of the model. */
  function CleanFrame(e: Engine, c: Ctx): Ctx {
    if !c.noMemory && c.pc != 0 then c.(sp := c.sp.Plus(e.Vars(c.current))) else c.(noMemory := false)
  }

  function Unwind(e: Engine, c: Ctx): Ctx
    decreases |c.callStack|
  {
    if |c.callStack| == 0 || Top(c).IsMarker() then c else Unwind(e, CleanFrame(e, PopCallState(c)))
  }

  function CleanStack(e: Engine, c: Ctx): Ctx {
    Unwind(e, CleanFrame(e, c).(status := Exception))
  }

  // ---- The interface of the application ----

  predicate Busy(c: Ctx) { c.status == Active || c.status == Suspended }

  function Clean(e: Engine, c: Ctx): Ctx {
    if c.status == Finished || c.status == Uninitialized then c else CleanStack(e, c)
  }

  /** Where the values of a run start: below the arguments and the return value. */
  function SetUp(e: Engine, c: Ctx): Ctx {
    var fp := c.sp.Plus(-c.args - c.ret);
    var cleared := ClearWords(c.mem, fp, if c.args >= 0 then c.args else 0);
    var mem := if c.ret == 0 then cleared
               else cleared[fp.Plus(if e.funcs(c.current).isMethod then 1 else 0) := Addr(fp.Plus(c.args))];
    c.(status := Prepared, pc := 0, fp := fp, originalSp := c.sp, sp := fp, mem := mem)
  }

  /** The function a context is prepared for, with the space for its arguments and frame. */
  function Assign(e: Engine, c: Ctx, f: nat): Ctx
    requires e.Valid()
  {
    var c1 := if c.initial != 0 then c.(sp := c.originalSp) else c;
    if c.initial == f then c1.(current := f)
    else
      Reserve(e, c1.(initial := f, current := f, args := e.Args(f), ret := e.Ret(f)),
              e.Args(f) + e.Ret(f) + e.Needed(f))
  }

  function Prepare(e: Engine, c: Ctx, f: nat): Ctx
    requires e.Valid()
  {
    if f == 0 || Busy(c) then c
    else var c1 := Assign(e, Clean(e, c), f); if c1.noMemory then c1 else SetUp(e, c1)
  }

  function Unprepare(e: Engine, c: Ctx): Ctx {
    if Busy(c) then c
    else
      var c1 := Clean(e, c);
      c1.(sp := if c1.initial != 0 then c1.originalSp else c1.sp, initial := 0, current := 0, pc := 0,
          status := Uninitialized, fp := Null)
  }

  function Execute(e: Engine, c: Ctx): Ctx {
    if c.status == Suspended then c.(status := Active)
    else if c.status == Prepared then Enter(e, c.(status := Active, pc := e.funcs(c.current).code))
    else c
  }

  function PushState(c: Ctx): Ctx {
    if c.status != Active then c
    else
      var c1 := PushCallState(c);
      c1.(callStack := c1.callStack + [Frame(Null, c.system, c.initial, c.originalSp, c.args)],
          sp := c.sp.Plus(-2), initial := 0, system := 0, status := Uninitialized)
  }

  /** The run that was interrupted when the marker on top was pushed. */
  function Restored(e: Engine, c: Ctx): Ctx
    requires |c.callStack| >= 2
  {
    var m := Top(c);
    PopCallState(c.(system := m.s1, callStack := c.callStack[..|c.callStack| - 1], initial := m.s2, originalSp := m.s3,
                    args := m.s4, ret := e.Ret(m.s2)))
  }

  function PopState(e: Engine, c: Ctx): Ctx
    requires IsNested(c) ==> |Unprepare(e, c).callStack| >= 2
  {
    if !IsNested(c) then c else Restored(e, Unprepare(e, c)).(status := Active)
  }

  // ---- Runs ----

  /** Work: the instructions that only move the stack and program pointer. Store: a write of the running function to its
      frame or arguments, at the given offset from the frame pointer. */
  datatype Event =
    | Work(sp: int, pc: nat) | Store(at: int, value: Word) | Calls(f: nat) | Returns(w: nat) | Raises
    | BeginSystem(f: nat) | EndSystem | Suspends | Aborts
    | Pushes | Pops | Prepares(f: nat) | Unprepares | Executes

  /** What the compiler and the application see to: a function stays within the stack it needs and pushes the arguments of
      what it calls, returning removes the arguments of the function that returns, and a state is popped when the run nested
      in it is over. */
  predicate Allowed(e: Engine, c: Ctx, ev: Event) {
    match ev
    case Work(sp, pc) => c.status == Active && pc > 0 && 0 - e.Needed(c.current) <= sp <= 0 - e.Vars(c.current)
    case Store(at, _) => c.status == Active && 0 - e.Needed(c.current) <= at < e.Args(c.current)
    case Calls(f) => c.status == Active && f != 0 && c.sp.At? && c.fp.At? && c.sp.off + e.Args(f) <= c.fp.off - e.Vars(c.current)
    case Returns(w) => c.status == Active && w == e.Args(c.current)
    case Raises => c.status == Active
    case BeginSystem(f) => c.status == Active
    case Suspends => c.status == Active
    case Aborts => c.status == Suspended
    case Pops => IsNested(c) ==> |Unprepare(e, c).callStack| >= 2 && Top(Unprepare(e, c)).IsMarker()
    case _ => true
  }

  function Step(e: Engine, c: Ctx, ev: Event): Ctx
    requires e.Valid() && Allowed(e, c, ev)
  {
    match ev
    case Work(sp, pc) => c.(sp := c.fp.Plus(sp), pc := pc)
    case Store(at, v) => c.(mem := c.mem[c.fp.Plus(at) := v])
    case Calls(f) => CallScript(e, c, f)
    case Returns(w) => Return(e, c, w)
    case Raises => c.(status := Exception)
    case BeginSystem(f) => c.(system := f)
    case EndSystem => c.(system := 0)
    case Suspends => c.(status := Suspended)
    case Aborts => c.(status := Aborted)
    case Pushes => PushState(c)
    case Pops => PopState(e, c)
    case Prepares(f) => Prepare(e, c, f)
    case Unprepares => Unprepare(e, c)
    case Executes => Execute(e, c)
  }
}
