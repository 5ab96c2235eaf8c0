/** The script context: the fields its operations update, each operation tied to what ContextState says of it. */
module Context {
  import opened ContextState
  import opened NestedRuns
  import opened StackSafety

  /** asSUCCESS and the error codes the operations return. */
  datatype Code = Success | Error | NoFunction | ContextActive | OutOfMemory

  class ScriptContext {
    const engine: Engine
    var status: Status
    var callStack: seq<Frame>
    var currentFunction: nat
    var initialFunction: nat
    var callingSystemFunction: nat
    var programPointer: nat
    var stackPointer: Ptr
    var stackFramePointer: Ptr
    var stackIndex: nat
    var numBlocks: nat
    var originalStackPointer: Ptr
    var argumentsSize: int
    var returnValueSize: nat
    var isStackMemoryNotAllocated: bool
    var memory: map<Ptr, Word>

    function State(): Ctx
      reads this
    {
      Ctx(status, callStack, currentFunction, initialFunction, callingSystemFunction, programPointer, stackPointer, stackFramePointer,
          stackIndex, numBlocks, originalStackPointer, argumentsSize, returnValueSize, isStackMemoryNotAllocated, memory)
    }

    constructor (engine: Engine)
      ensures this.engine == engine && State() == NewContext()
    {
      this.engine := engine;
      status, callStack, currentFunction, initialFunction, callingSystemFunction := Uninitialized, [], 0, 0, 0;
      programPointer, stackPointer, stackFramePointer, stackIndex, numBlocks := 0, Null, Null, 0, 0;
      originalStackPointer, argumentsSize, returnValueSize, isStackMemoryNotAllocated, memory := Null, 0, 0, false, map[];
    }

    method PushCallState()
      modifies this`callStack
      ensures State() == ContextState.PushCallState(old(State()))
    {
      callStack := callStack + [Frame(stackFramePointer, currentFunction, programPointer, stackPointer, stackIndex)];
    }

    method PopCallState()
      requires |callStack| > 0
      modifies this
      ensures State() == ContextState.PopCallState(old(State()))
    {
      var f := callStack[|callStack| - 1];
      stackFramePointer := f.s0;
      currentFunction := f.s1;
      programPointer := f.s2;
      stackPointer := f.s3;
      stackIndex := if f.s4 >= 0 then f.s4 else 0;
      callStack := callStack[..|callStack| - 1];
    }

    /** Leaves room above the stack pointer for the arguments. */
    method NextStackBlock()
      modifies this
      ensures State() == NextBlock(engine, old(State()))
    {
      stackIndex := stackIndex + 1;
      if numBlocks == stackIndex { numBlocks := numBlocks + 1; }
      var f := engine.funcs(currentFunction);
      stackPointer := At(stackIndex,
        engine.Size(stackIndex) - f.argSpace - (if f.isMethod then 1 else 0) - (if f.returnsOnStack then 1 else 0));
    }

    /** Moves on to larger blocks until the size and the reserve fit. */
    method ReserveStackSpace(size: nat) returns (ok: bool)
      requires engine.Valid() && !isStackMemoryNotAllocated
      modifies this
      ensures State() == Reserve(engine, old(State()), size)
      ensures ok <==> !isStackMemoryNotAllocated
    {
      hide Shortage, Engine.Size, Pow2, Engine.Args;
      if numBlocks == 0 {
        numBlocks, stackIndex, stackPointer := 1, 0, At(0, engine.initialSize);
      }
      ghost var goal := FindBlock(engine, State(), size);
      while engine.Address(stackPointer) - (size + RESERVE_STACK) < engine.base(stackIndex)
        invariant FindBlock(engine, State(), size) == goal && !isStackMemoryNotAllocated
        invariant currentFunction == old(currentFunction)
        decreases Shortage(engine, currentFunction, stackIndex, size),
          if stackPointer == At(stackIndex, engine.Size(stackIndex) - engine.Args(currentFunction)) then 0 else 1
      {
        if engine.maximumSize > 0 {
          if engine.initialSize * (Pow2(stackIndex + 1) - 1) > engine.maximumSize {
            isStackMemoryNotAllocated := true;
            stackFramePointer := stackPointer;
            status := Exception;
            return false;
          }
        }
        BlocksGrow(engine, State(), size);
        NextStackBlock();
      }
      ok := true;
    }

    /** Below the frame pointer: the variables of the function. */
    method PrepareScriptFunction()
      modifies this
      ensures State() == Enter(engine, old(State()))
    {
      stackFramePointer := stackPointer;
      stackPointer := stackPointer.Plus(-(engine.Vars(currentFunction) as int));
    }

    method CallScriptFunction(f: nat)
      requires engine.Valid() && !isStackMemoryNotAllocated
      modifies this
      ensures State() == CallScript(engine, old(State()), f)
    {
      PushCallState();
      currentFunction := f;
      programPointer := engine.funcs(f).code;
      var oldStackPointer := stackPointer;
      ghost var before := State();
      var ok := ReserveStackSpace(engine.Needed(f));
      if !ok { return; }
      FindBlockKeeps(engine, FirstBlock(engine, before), engine.Needed(f));
      if stackPointer != oldStackPointer {
        memory := CopyWords(memory, oldStackPointer, stackPointer, engine.Args(f));
      }
      PrepareScriptFunction();
    }

    /** Returns from a function. The first function of a run ends it instead. */
    method Ret(w: nat)
      modifies this
      ensures State() == Return(engine, old(State()), w)
    {
      if |callStack| == 0 || callStack[|callStack| - 1].s0 == Null {
        status := Finished;
        return;
      }
      PopCallState();
      stackPointer := stackPointer.Plus(w);
    }

    method CleanStackFrame()
      modifies this
      ensures State() == CleanFrame(engine, old(State()))
    {
      if !isStackMemoryNotAllocated && programPointer != 0 {
        stackPointer := stackPointer.Plus(engine.Vars(currentFunction));
      } else {
        isStackMemoryNotAllocated := false;
      }
    }

    /** Unwinds up to the nearest marker of a nested run. */
    method CleanStack()
      modifies this
      ensures State() == ContextState.CleanStack(engine, old(State()))
    {
      CleanStackFrame();
      status := Exception;
      ghost var goal := Unwind(engine, State());
      while |callStack| > 0
        invariant Unwind(engine, State()) == goal
        decreases |callStack|
      {
        if callStack[|callStack| - 1].s0 == Null { break; }
        PopCallState();
        CleanStackFrame();
      }
    }

    /** Searches the call stack from the newest frame for a marker. Without a current function the call stack counts
        as empty. */
    method IsNested() returns (nested: bool)
      ensures nested <==> ContextState.IsNested(State())
    {
      if currentFunction == 0 { return false; }
      var c := 1 + |callStack|;
      var n := 2;
      while n <= c
        invariant 2 <= n <= c + 1
        invariant forall k :: c - n < k < |callStack| ==> !callStack[k].IsMarker()
      {
        if callStack[c - n].s0 == Null {
          assert callStack[c - n].IsMarker();
          return true;
        }
        n := n + 1;
      }
      return false;
    }

    /** Takes f as the initial function, with the stack space it needs. */
    method AssignFunction(f: nat) returns (ok: bool)
      requires engine.Valid() && !isStackMemoryNotAllocated
      modifies this
      ensures State() == Assign(engine, old(State()), f)
      ensures ok <==> !isStackMemoryNotAllocated
    {
      hide Reserve;
      if initialFunction != 0 { stackPointer := originalStackPointer; }
      if initialFunction == f {
        currentFunction := initialFunction;
        return true;
      }
      initialFunction := f;
      currentFunction := f;
      argumentsSize := engine.funcs(f).argSpace + if engine.funcs(f).isMethod then 1 else 0;
      if engine.funcs(f).returnsOnStack {
        returnValueSize := engine.funcs(f).returnSize;
        argumentsSize := argumentsSize + 1;
      } else {
        returnValueSize := 0;
      }
      ok := ReserveStackSpace(engine.Args(f) + returnValueSize + engine.Needed(f));
    }

    /** Clears the arguments and tells the function where to put a value it returns on the stack. */
    method SetUpArguments()
      modifies this
      ensures State() == SetUp(engine, old(State()))
    {
      hide ClearWords;
      status := Prepared;
      programPointer := 0;
      stackFramePointer := stackPointer.Plus(-argumentsSize - returnValueSize);
      originalStackPointer := stackPointer;
      stackPointer := stackFramePointer;
      FillArguments();
    }

    method FillArguments()
      modifies this`memory
      ensures var cleared := ClearWords(old(memory), stackPointer, if argumentsSize >= 0 then argumentsSize else 0);
        memory == if returnValueSize == 0 then cleared
                  else cleared[stackFramePointer.Plus(if engine.funcs(currentFunction).isMethod then 1 else 0) := Addr(stackFramePointer.Plus(argumentsSize))]
    {
      hide ClearWords;
      memory := ClearWords(memory, stackPointer, if argumentsSize >= 0 then argumentsSize else 0);
      if returnValueSize != 0 {
        var ptr := stackFramePointer.Plus(if engine.funcs(currentFunction).isMethod then 1 else 0);
        memory := memory[ptr := Addr(stackFramePointer.Plus(argumentsSize))];
      }
    }

    method Prepare(f: nat) returns (code: Code)
      requires engine.Valid() && Sane(engine, State())
      modifies this
      ensures State() == ContextState.Prepare(engine, old(State()), f)
      ensures code == (if f == 0 then NoFunction else if Busy(old(State())) then ContextActive
                       else if isStackMemoryNotAllocated then OutOfMemory else Success)
    {
      hide Assign, SetUp, Clean;
      if f == 0 { return NoFunction; }
      if status == Active || status == Suspended { return ContextActive; }
      CleanStops(engine, State());
      CleanUp();
      var ok := AssignFunction(f);
      if !ok { return OutOfMemory; }
      SetUpArguments();
      SetUpKeepsFlag(engine, Assign(engine, Clean(engine, old(State())), f));
      code := Success;
    }

    /** The stack is only cleaned if the function was not executed until its end. */
    method CleanUp()
      modifies this
      ensures State() == Clean(engine, old(State()))
    {
      hide ContextState.CleanStack;
      if status != Finished && status != Uninitialized { CleanStack(); }
    }

    method Unprepare() returns (code: Code)
      modifies this
      ensures State() == ContextState.Unprepare(engine, old(State()))
      ensures code == if Busy(old(State())) then ContextActive else Success
    {
      hide Clean;
      if status == Active || status == Suspended { return ContextActive; }
      CleanUp();
      if initialFunction != 0 { stackPointer := originalStackPointer; }
      initialFunction, currentFunction, programPointer := 0, 0, 0;
      status := Uninitialized;
      stackFramePointer := Null;
      code := Success;
    }

    /** The application takes over the context inside a call of its own: what it interrupts goes on the call stack, under a
        marker. */
    method PushState() returns (code: Code)
      modifies this
      ensures State() == ContextState.PushState(old(State()))
      ensures code == if old(status) == Active then Success else Error
    {
      if status != Active { return Error; }
      PushCallState();
      callStack := callStack + [Frame(Null, callingSystemFunction, initialFunction, originalStackPointer, argumentsSize)];
      stackPointer := stackPointer.Plus(-2);
      initialFunction := 0;
      callingSystemFunction := 0;
      status := Uninitialized;
      code := Success;
    }

    /** Takes the marker and the call state below it from the call stack. */
    method RestoreState()
      requires |callStack| >= 2
      modifies this
      ensures State() == Restored(engine, old(State()))
    {
      var tmp := callStack[|callStack| - 1];
      callingSystemFunction := tmp.s1;
      callStack := callStack[..|callStack| - 1];
      initialFunction := tmp.s2;
      originalStackPointer := tmp.s3;
      argumentsSize := tmp.s4;
      returnValueSize := ReturnSpace(initialFunction);
      PopCallState();
    }

    method ReturnSpace(f: nat) returns (size: nat)
      ensures size == engine.Ret(f)
    {
      size := 0;
      if engine.funcs(f).returnsOnStack { size := engine.funcs(f).returnSize; }
    }

    method PopState() returns (code: Code)
      requires ContextState.IsNested(State()) ==> |ContextState.Unprepare(engine, State()).callStack| >= 2
      modifies this
      ensures State() == ContextState.PopState(engine, old(State()))
      ensures code == if ContextState.IsNested(old(State())) then Success else Error
    {
      hide ContextState.CleanStack, HasMarker;
      var nested := IsNested();
      if !nested { return Error; }
      var _ := Unprepare();
      RestoreState();
      status := Active;
      code := Success;
    }

    /** Starts a prepared run of a script function, or goes on with a suspended one. */
    method Resume() returns (code: Code)
      modifies this
      ensures State() == ContextState.Execute(engine, old(State()))
      ensures code == if old(status) == Suspended || old(status) == Prepared then Success else Error
    {
      if status != Suspended && status != Prepared { return Error; }
      var start := status == Prepared;
      status := Active;
      if start {
        programPointer := engine.funcs(currentFunction).code;
        PrepareScriptFunction();
      }
      code := Success;
    }
  }

  /** The search for space comes closer to its end with every block. */
  lemma BlocksGrow(e: Engine, c: Ctx, size: nat)
    requires e.Valid() && !Fits(e, c, size)
    ensures var n := NextBlock(e, c);
      && Shortage(e, n.current, n.index, size) <= Shortage(e, c.current, c.index, size)
      && n.current == c.current && n.sp == At(n.index, e.Size(n.index) - e.Args(n.current))
      && (c.sp == At(c.index, e.Size(c.index) - e.Args(c.current)) ==>
          Shortage(e, n.current, n.index, size) < Shortage(e, c.current, c.index, size))
  {
    assert e.Size(c.index + 1) == 2 * e.Size(c.index);
  }

  lemma SetUpKeepsFlag(e: Engine, c: Ctx)
    ensures SetUp(e, c).noMemory == c.noMemory
  {
  }
}
