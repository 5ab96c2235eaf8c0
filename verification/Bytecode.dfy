/** The modelled part of the bytecode: instructions as the compiler's list holds them, with jump targets still
    labels, and their meaning as the virtual machine executes them. */
module Bytecode {
  import opened Options


  datatype ArithOp = ADD | SUB | MUL
  datatype TestOp = TZ | TNZ | TS | TNS | TP | TNP
  datatype Cond = JZ | JNZ | JS | JNS | JP | JNP | JLowZ | JLowNZ

  /** v, d, x, y are variable offsets, k a 32 bit constant, g a global variable, l a label, pop the dwords of the arguments. The
      operand order is that of wArg. */
  datatype Instr =
    | SetV4(v: int, k: int) | CpyVtoV4(d: int, x: int) | CpyRtoV4(v: int) | CpyVtoR4(v: int)
    | Arith(op: ArithOp, d: int, x: int, y: int) | ArithI(op: ArithOp, d: int, x: int, k: int)
    | CMPi(x: int, y: int) | CMPIi(x: int, k: int) | Test(t: TestOp) | ClrHi
    | LDV(v: int) | INCi | DECi | IncVi(v: int) | DecVi(v: int)
    | LDG(g: int) | RDR4(v: int) | WRTV4(v: int)
    | CpyGtoV4(v: int, g: int) | CpyVtoG4(v: int, g: int) | LdGRdR4(v: int, g: int) | SetG4(g: int, k: int) | PshG4(g: int)
    | PSF(v: int) | PshVPtr(v: int) | PshNull | PshV4(v: int) | PshC4(k: int) | PopPtr | SwapPtr | RDSPtr
    | JMP(l: int) | Jump(cond: Cond, l: int) | JMPP(v: int) | LABEL(l: int) | LINE | SUSPEND | RET(pop: int)

  // ---- What the optimizer knows about instructions ----

  predicate IsTempVarReadByInstr(i: Instr, v: int) {
    match i
    case Arith(_, _, x, y) => x == v || y == v
    case CpyVtoR4(x) => x == v
    case LDV(x) => x == v
    case IncVi(x) => x == v
    case DecVi(x) => x == v
    case WRTV4(x) => x == v
    case CpyVtoG4(x, _) => x == v
    case PSF(x) => x == v
    case PshVPtr(x) => x == v
    case PshV4(x) => x == v
    case JMPP(x) => x == v
    case CMPIi(x, _) => x == v
    case CpyVtoV4(_, x) => x == v
    case ArithI(_, _, x, _) => x == v
    case CMPi(x, y) => x == v || y == v
    case _ => false
  }

  /** The variable an instruction writes by its operand types. */
  function Target(i: Instr): Option<int> {
    match i
    case Arith(_, d, _, _) => Some(d)
    case ArithI(_, d, _, _) => Some(d)
    case CpyVtoV4(d, _) => Some(d)
    case CpyRtoV4(v) => Some(v)
    case RDR4(v) => Some(v)
    case SetV4(v, _) => Some(v)
    case CpyGtoV4(v, _) => Some(v)
    case LdGRdR4(v, _) => Some(v)
    case _ => None
  }

  predicate IsTempVarOverwrittenByInstr(i: Instr, v: int) {
    i.RET? || i.SUSPEND? || Target(i) == Some(v)
  }

  predicate IsInstrJmpOrLabel(i: Instr) {
    i.JMP? || i.Jump? || i.JMPP? || i.LABEL?
  }

  /** Works on the stack only. */
  predicate OnStack(i: Instr) {
    i.PopPtr? || i.SwapPtr? || i.RDSPtr? || i.PshG4? || i.PSF? || i.PshVPtr? || i.PshNull? || i.PshV4? || i.PshC4?
  }

  predicate ReadsReg(i: Instr) {
    i.INCi? || i.DECi? || i.WRTV4? || i.RDR4? || i.CpyRtoV4? || i.Test? || i.Jump?
  }

  /** Overwrites the value register or discards its value. */
  predicate DropsReg(i: Instr) {
    || i.SUSPEND? || i.CpyVtoR4? || i.LdGRdR4? || i.LDG? || i.LDV? || i.Test? || i.Jump? || i.JMPP? || i.JMP?
    || i.CMPi? || i.CMPIi? || i.LABEL?
  }

  // ---- Labels ----

  function FindForward(c: seq<Instr>, i: nat, l: int): (r: Option<nat>)
    ensures r.Some? ==> i <= r.value < |c| && c[r.value] == LABEL(l)
    ensures forall j :: i <= j < |c| && c[j] == LABEL(l) ==> r.Some? && r.value <= j
    decreases |c| - i
  {
    if i >= |c| then None else if c[i] == LABEL(l) then Some(i) else FindForward(c, i + 1, l)
  }

  function FindBackward(c: seq<Instr>, i: nat, l: int): (r: Option<nat>)
    requires i <= |c|
    ensures r.Some? ==> r.value < i && c[r.value] == LABEL(l)
    ensures forall j :: 0 <= j < i && c[j] == LABEL(l) ==> r.Some? && j <= r.value
  {
    if i == 0 then None else if c[i - 1] == LABEL(l) then Some(i - 1) else FindBackward(c, i - 1, l)
  }

  /** The label a jump at position from goes to: the next one of that name, else the previous one. */
  function FindLabel(c: seq<Instr>, from: nat, l: int): (r: Option<nat>)
    requires from < |c|
    ensures r.Some? ==> r.value < |c| && c[r.value] == LABEL(l)
  {
    match FindForward(c, from + 1, l)
    case Some(i) => Some(i)
    case None => FindBackward(c, from, l)
  }

  // ---- Values and states ----

  /** A dword: a 32 bit signed integer, the address of a local or global variable, or an address with bytes cleared. The
      register may also be lost: the code has no claim on what it holds. */
  datatype Val = Int(n: int) | VarAddr(v: int) | GlobAddr(g: int) | Mangled | Lost

  datatype Event = Branch(l: int, taken: bool) | Switch(n: int)

  /** trace records the jumps; epoch counts the suspends, after which temporaries have lost their values. taken is the
      variable whose address the instruction just before has taken. */
  datatype St = St(vars: map<int, Val>, reg: Val, stack: seq<Val>, globals: map<int, Val>, trace: seq<Event>, epoch: nat,
                   taken: Option<int>)

  /** What is found in the temporaries after a suspend. */
  datatype Junk = Junk(tmp: (nat, int) -> Val)

  function Get(m: map<int, Val>, x: int): Val {
    if x in m then m[x] else Int(0)
  }

  function Wrap(n: int): int {
    (n + 0x8000_0000) % 0x1_0000_0000 - 0x8000_0000
  }

  function Calc(op: ArithOp, a: int, b: int): int {
    match op case ADD => Wrap(a + b) case SUB => Wrap(a - b) case MUL => Wrap(a * b)
  }

  function Compare(a: int, b: int): int {
    if a == b then 0 else if a < b then -1 else 1
  }

  predicate Passes(t: TestOp, n: int) {
    match t
    case TZ => n == 0 case TNZ => n != 0 case TS => n < 0 case TNS => n >= 0 case TP => n > 0 case TNP => n <= 0
  }

  /** The low byte is that of the two's complement representation. */
  predicate Taken(j: Cond, n: int) {
    match j
    case JZ => n == 0 case JNZ => n != 0 case JS => n < 0 case JNS => n >= 0 case JP => n > 0 case JNP => n <= 0
    case JLowZ => n % 256 == 0 case JLowNZ => n % 256 != 0
  }

  /** A number for which the condition is, or is not, met. */
  function Meets(cond: Cond, taken: bool): (n: int)
    ensures Taken(cond, n) == taken
  {
    match cond
    case JZ => if taken then 0 else 1
    case JNZ => if taken then 1 else 0
    case JS => if taken then -1 else 0
    case JNS => if taken then 0 else -1
    case JP => if taken then 1 else 0
    case JNP => if taken then 0 else 1
    case JLowZ => if taken then 0 else 1
    case JLowNZ => if taken then 1 else 0
  }

  // ---- Meaning ----

  /** Whether the address of v may be followed: that of a temporary only at once, since code that saves one is not compared. */
  predicate CanFollow(temps: set<int>, s: St, v: int) {
    v !in temps || s.taken == Some(v)
  }

  /** Reading through an address. */
  function Load(temps: set<int>, s: St, a: Val): Option<Val> {
    match a
    case VarAddr(v) => if CanFollow(temps, s, v) then Some(Get(s.vars, v)) else None
    case GlobAddr(g) => Some(Get(s.globals, g))
    case _ => None
  }

  function Store(temps: set<int>, s: St, a: Val, w: Val): Option<St> {
    match a
    case VarAddr(v) => if CanFollow(temps, s, v) then Some(s.(vars := s.vars[v := w])) else None
    case GlobAddr(g) => Some(s.(globals := s.globals[g := w]))
    case _ => None
  }

  function SetVar(s: St, v: int, w: Val): St {
    s.(vars := s.vars[v := w])
  }

  function Push(s: St, w: Val): St {
    s.(stack := [w] + s.stack)
  }

  /** ++ or -- through an address. */
  function Bump(temps: set<int>, s: St, a: Val, delta: int): Option<St> {
    match Load(temps, s, a)
    case Some(Int(n)) => Store(temps, s, a, Int(Wrap(n + delta)))
    case _ => None
  }

  function BumpVar(s: St, v: int, delta: int): Option<St> {
    match Get(s.vars, v) case Int(n) => Some(SetVar(s, v, Int(Wrap(n + delta)))) case _ => None
  }

  function TakesAddr(i: Instr): Option<int> {
    match i case PSF(v) => Some(v) case LDV(v) => Some(v) case _ => None
  }

  /** Instructions that fall through to the next one; None when the machine raises an exception or the operation
      has no meaning here. */
  function Do(temps: set<int>, i: Instr, s: St): Option<St> {
    match Act(temps, i, s) case Some(s1) => Some(s1.(taken := TakesAddr(i))) case None => None
  }

  function Act(temps: set<int>, i: Instr, s: St): Option<St> {
    match i
    case SetV4(v, k) => Some(SetVar(s, v, Int(Wrap(k))))
    case CpyVtoV4(d, x) => Some(SetVar(s, d, Get(s.vars, x)))
    case CpyRtoV4(v) => if s.reg.Lost? then None else Some(SetVar(s, v, s.reg))
    case CpyVtoR4(v) => Some(s.(reg := Get(s.vars, v)))
    case Arith(op, d, x, y) =>
      (match (Get(s.vars, x), Get(s.vars, y)) case (Int(a), Int(b)) => Some(SetVar(s, d, Int(Calc(op, a, b)))) case _ => None)
    case ArithI(op, d, x, k) =>
      (match Get(s.vars, x) case Int(a) => Some(SetVar(s, d, Int(Calc(op, a, Wrap(k))))) case _ => None)
    case CMPi(x, y) =>
      (match (Get(s.vars, x), Get(s.vars, y)) case (Int(a), Int(b)) => Some(s.(reg := Int(Compare(a, b)))) case _ => None)
    case CMPIi(x, k) =>
      (match Get(s.vars, x) case Int(a) => Some(s.(reg := Int(Compare(a, Wrap(k))))) case _ => None)
    case Test(t) => (match s.reg case Int(n) => Some(s.(reg := Int(if Passes(t, n) then 1 else 0))) case _ => None)
    case ClrHi => Some(s.(reg := match s.reg case Int(n) => Int(n % 256) case Lost => Lost case _ => Mangled))
    case LDV(v) => Some(s.(reg := VarAddr(v)))
    case INCi => Bump(temps, s, s.reg, 1)
    case DECi => Bump(temps, s, s.reg, -1)
    case IncVi(v) => BumpVar(s, v, 1)
    case DecVi(v) => BumpVar(s, v, -1)
    case LDG(g) => Some(s.(reg := GlobAddr(g)))
    case RDR4(v) => (match Load(temps, s, s.reg) case Some(w) => Some(SetVar(s, v, w)) case None => None)
    case WRTV4(v) => Store(temps, s, s.reg, Get(s.vars, v))
    case CpyGtoV4(v, g) => Some(SetVar(s, v, Get(s.globals, g)))
    case CpyVtoG4(v, g) => Some(s.(globals := s.globals[g := Get(s.vars, v)]))
    case LdGRdR4(v, g) => Some(SetVar(s.(reg := GlobAddr(g)), v, Get(s.globals, g)))
    case SetG4(g, k) => Some(s.(globals := s.globals[g := Int(Wrap(k))]))
    case PshG4(g) => Some(Push(s, Get(s.globals, g)))
    case PSF(v) => Some(Push(s, VarAddr(v)))
    case PshVPtr(v) => Some(Push(s, Get(s.vars, v)))
    case PshNull => Some(Push(s, Int(0)))
    case PshV4(v) => Some(Push(s, Get(s.vars, v)))
    case PshC4(k) => Some(Push(s, Int(Wrap(k))))
    case PopPtr => if |s.stack| > 0 then Some(s.(stack := s.stack[1..])) else None
    case SwapPtr => if |s.stack| > 1 then Some(s.(stack := [s.stack[1], s.stack[0]] + s.stack[2..])) else None
    case RDSPtr =>
      if |s.stack| > 0 then
        (match Load(temps, s, s.stack[0]) case Some(w) => Some(s.(stack := [w] + s.stack[1..])) case None => None)
      else None
    case _ => Some(s)
  }

  /** Execution leaves a list at RET, at its end, or by a jump to a label elsewhere. */
  datatype Exit = Returned | FellOff | Left(l: int)

  datatype Outcome = Go(pc: nat, s: St) | Halt(exit: Exit, s: St) | Fault | Timeout

  /** A number in the register outlasts jumps and labels, as that a function returns must; an address does not. */
  function Pass(s: St): St {
    s.(reg := if s.reg.Int? then s.reg else Lost, taken := None)
  }

  /** Nothing in the register outlasts a conditional jump, which may have been made without the test before it. */
  function Part(s: St): St {
    s.(reg := Lost, taken := None)
  }

  /** Nor does anything in it, or in the temporaries, outlast a suspend. */
  function Wake(temps: set<int>, j: Junk, s: St): St {
    s.(vars := s.vars + (map t | t in temps :: j.tmp(s.epoch, t)), reg := Lost, epoch := s.epoch + 1, taken := None)
  }

  function Goto(c: seq<Instr>, pc: nat, l: int, s: St): Outcome
    requires pc < |c|
  {
    match FindLabel(c, pc, l) case Some(q) => Go(q, s) case None => Halt(Left(l), s)
  }

  /** JMPP jumps into the table of JMP instructions that follows it. */
  predicate InTable(c: seq<Instr>, pc: nat, n: int) {
    0 <= n && pc + 1 + n < |c| && forall k :: pc + 1 <= k <= pc + 1 + n ==> c[k].JMP?
  }

  function Step(temps: set<int>, c: seq<Instr>, j: Junk, pc: nat, s: St): Outcome {
    if pc >= |c| then Halt(FellOff, s) else
      match c[pc]
      case RET(_) => Halt(Returned, s)
      case JMP(l) => Goto(c, pc, l, Pass(s.(trace := s.trace + [Branch(l, true)])))
      case Jump(cond, l) =>
        (match s.reg
         case Int(n) =>
           var s1 := Part(s.(trace := s.trace + [Branch(l, Taken(cond, n))]));
           if Taken(cond, n) then Goto(c, pc, l, s1) else Go(pc + 1, s1)
         case _ => Fault)
      case JMPP(v) =>
        (match Get(s.vars, v)
         case Int(n) => if InTable(c, pc, n) then Go(pc + 1 + n, Pass(s.(trace := s.trace + [Switch(n)]))) else Fault
         case _ => Fault)
      case LABEL(_) => Go(pc + 1, Pass(s))
      case SUSPEND => Go(pc + 1, Wake(temps, j, s))
      case _ => match Do(temps, c[pc], s) case Some(s1) => Go(pc + 1, s1) case None => Fault
  }

  function Run(temps: set<int>, c: seq<Instr>, j: Junk, pc: nat, s: St, fuel: nat): Outcome
    decreases fuel
  {
    match Step(temps, c, j, pc, s)
    case Go(q, s1) => if fuel == 0 then Timeout else Run(temps, c, j, q, s1, fuel - 1)
    case r => r
  }

  // ---- Refinement ----

  /** Equal except in temporaries and the register. */
  ghost predicate SameOutside(temps: set<int>, s: St, t: St) {
    && (forall x :: x !in temps ==> Get(s.vars, x) == Get(t.vars, x))
    && s.stack == t.stack && s.globals == t.globals && s.trace == t.trace && s.epoch == t.epoch
  }

  /** Where s has a number in the register, which is where functions return one, t has that number. */
  ghost predicate Same(temps: set<int>, s: St, t: St) {
    SameOutside(temps, s, t) && (s.reg.Int? ==> t.reg == s.reg)
  }

  /** A list is entered at its first instruction or by a jump from elsewhere to one of its labels. */
  datatype Entry = Start | At(l: int)

  function EntryPos(c: seq<Instr>, e: Entry): Option<nat> {
    match e case Start => Some(0) case At(l) => FindForward(c, 0, l)
  }

  /** c2 ends every run that c1 ends, in the same way, with the same jumps taken and the same variables that are not
      temporaries, globals, stack and number in the register. */
  ghost predicate Refines(temps: set<int>, c1: seq<Instr>, c2: seq<Instr>) {
    forall e: Entry, j: Junk, s: St, fuel: nat :: RefinesFrom(temps, c1, c2, e, j, s, fuel)
  }

  ghost predicate RefinesFrom(temps: set<int>, c1: seq<Instr>, c2: seq<Instr>, e: Entry, j: Junk, s: St, fuel: nat) {
    EntryPos(c1, e).Some? ==>
      && EntryPos(c2, e).Some?
      && var r1 := Run(temps, c1, j, EntryPos(c1, e).value, s, fuel);
         r1.Halt? ==> EndsLike(temps, c2, j, EntryPos(c2, e).value, s, r1.exit, r1.s)
  }

  ghost predicate EndsLike(temps: set<int>, c: seq<Instr>, j: Junk, pc: nat, s: St, exit: Exit, end: St) {
    exists fuel: nat :: var r := Run(temps, c, j, pc, s, fuel); r.Halt? && r.exit == exit && Same(temps, end, r.s)
  }
}
