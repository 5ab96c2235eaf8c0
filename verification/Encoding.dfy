/** What the tables of the engine say of every instruction: number, operands, size, and effect on the stack. */
module Encoding {
  import opened Options
  import opened Bytecode

  datatype Format = NoArg | W | DW | WDW | WW | WWW | WWDW | DWDW | Info

  /** The operands of an instruction: up to three words and two dwords. */
  datatype Raw = Raw(op: int, w0: int, w1: int, w2: int, d0: int, d1: int)

  function OpArith(op: ArithOp): int { match op case ADD => 115 case SUB => 116 case MUL => 117 }

  function OpTest(t: TestOp): int {
    match t case TZ => 18 case TNZ => 19 case TS => 20 case TNS => 21 case TP => 22 case TNP => 23
  }

  function OpCond(c: Cond): int {
    match c
    case JZ => 12 case JNZ => 13 case JS => 14 case JNS => 15 case JP => 16 case JNP => 17 case JLowZ => 187 case JLowNZ => 188
  }

  function ToRaw(i: Instr): Raw {
    match i
    case PopPtr => Raw(0, 0, 0, 0, 0, 0)
    case PshC4(k) => Raw(2, 0, 0, 0, k, 0)
    case PshV4(v) => Raw(3, v, 0, 0, 0, 0)
    case PSF(v) => Raw(4, v, 0, 0, 0, 0)
    case SwapPtr => Raw(5, 0, 0, 0, 0, 0)
    case PshG4(g) => Raw(7, 0, 0, 0, g, 0)
    case LdGRdR4(v, g) => Raw(8, v, 0, 0, g, 0)
    case RET(pop) => Raw(10, pop, 0, 0, 0, 0)
    case JMP(l) => Raw(11, 0, 0, 0, l, 0)
    case Jump(c, l) => Raw(OpCond(c), 0, 0, 0, l, 0)
    case Test(t) => Raw(OpTest(t), 0, 0, 0, 0, 0)
    case INCi => Raw(31, 0, 0, 0, 0, 0)
    case DECi => Raw(32, 0, 0, 0, 0, 0)
    case IncVi(v) => Raw(37, v, 0, 0, 0, 0)
    case DecVi(v) => Raw(38, v, 0, 0, 0, 0)
    case PshVPtr(v) => Raw(48, v, 0, 0, 0, 0)
    case RDSPtr => Raw(49, 0, 0, 0, 0, 0)
    case CMPi(x, y) => Raw(53, x, y, 0, 0, 0)
    case CMPIi(x, k) => Raw(54, x, 0, 0, k, 0)
    case JMPP(v) => Raw(57, v, 0, 0, 0, 0)
    case SUSPEND => Raw(63, 0, 0, 0, 0, 0)
    case PshNull => Raw(73, 0, 0, 0, 0, 0)
    case SetV4(v, k) => Raw(77, v, 0, 0, k, 0)
    case CpyVtoV4(d, x) => Raw(80, d, x, 0, 0, 0)
    case CpyVtoR4(v) => Raw(82, v, 0, 0, 0, 0)
    case CpyVtoG4(v, g) => Raw(84, v, 0, 0, g, 0)
    case CpyRtoV4(v) => Raw(85, v, 0, 0, 0, 0)
    case CpyGtoV4(v, g) => Raw(87, v, 0, 0, g, 0)
    case WRTV4(v) => Raw(90, v, 0, 0, 0, 0)
    case RDR4(v) => Raw(94, v, 0, 0, 0, 0)
    case LDG(g) => Raw(96, 0, 0, 0, g, 0)
    case LDV(v) => Raw(97, v, 0, 0, 0, 0)
    case Arith(op, d, x, y) => Raw(OpArith(op), d, x, y, 0, 0)
    case ArithI(op, d, x, k) => Raw(OpArith(op) + 15, d, x, 0, k, 0)
    case SetG4(g, k) => Raw(136, 0, 0, 0, g, k)
    case ClrHi => Raw(174, 0, 0, 0, 0, 0)
    case LINE => Raw(254, 0, 0, 0, 0, 0)
    case LABEL(l) => Raw(255, l, 0, 0, 0, 0)
  }

  function FormatOf(op: int): Format {
    if op in {2, 7, 96} || 11 <= op <= 17 || op == 187 || op == 188 then DW
    else if op in {3, 4, 10, 37, 38, 48, 57, 82, 85, 90, 94, 97} then W
    else if op in {8, 54, 77, 84, 87} then WDW
    else if op in {53, 80} then WW
    else if 115 <= op <= 117 then WWW
    else if 130 <= op <= 132 then WWDW
    else if op == 136 then DWDW
    else if op == 254 || op == 255 then Info
    else NoArg
  }

  function FormatSize(f: Format): nat {
    match f
    case Info => 0 case NoArg => 1 case W => 1 case DW => 2 case WDW => 2 case WW => 2 case WWW => 2 case WWDW => 3 case DWDW => 3
  }

  function SizeOf(i: Instr): nat { FormatSize(FormatOf(ToRaw(i).op)) }

  /** What the machine takes operands for. */
  function CondAt(op: int): Cond {
    if op == 12 then JZ else if op == 13 then JNZ else if op == 14 then JS else if op == 15 then JNS
    else if op == 16 then JP else if op == 17 then JNP else if op == 187 then JLowZ else JLowNZ
  }

  function TestAt(op: int): TestOp {
    if op == 18 then TZ else if op == 19 then TNZ else if op == 20 then TS else if op == 21 then TNS else if op == 22 then TP else TNP
  }

  function ArithAt(op: int): ArithOp { if op == 115 then ADD else if op == 116 then SUB else MUL }

  function FromRaw(r: Raw): Option<Instr> {
    if r.op == 0 then Some(PopPtr) else if r.op == 2 then Some(PshC4(r.d0)) else if r.op == 3 then Some(PshV4(r.w0))
    else if r.op == 4 then Some(PSF(r.w0)) else if r.op == 5 then Some(SwapPtr) else if r.op == 7 then Some(PshG4(r.d0))
    else if r.op == 8 then Some(LdGRdR4(r.w0, r.d0)) else if r.op == 10 then Some(RET(r.w0)) else if r.op == 11 then Some(JMP(r.d0))
    else if 12 <= r.op <= 17 || r.op == 187 || r.op == 188 then Some(Jump(CondAt(r.op), r.d0))
    else if 18 <= r.op <= 23 then Some(Test(TestAt(r.op)))
    else if r.op == 31 then Some(INCi) else if r.op == 32 then Some(DECi) else if r.op == 37 then Some(IncVi(r.w0))
    else if r.op == 38 then Some(DecVi(r.w0)) else if r.op == 48 then Some(PshVPtr(r.w0)) else if r.op == 49 then Some(RDSPtr)
    else if r.op == 53 then Some(CMPi(r.w0, r.w1)) else if r.op == 54 then Some(CMPIi(r.w0, r.d0))
    else if r.op == 57 then Some(JMPP(r.w0)) else if r.op == 63 then Some(SUSPEND) else if r.op == 73 then Some(PshNull)
    else if r.op == 77 then Some(SetV4(r.w0, r.d0)) else if r.op == 80 then Some(CpyVtoV4(r.w0, r.w1))
    else if r.op == 82 then Some(CpyVtoR4(r.w0)) else if r.op == 84 then Some(CpyVtoG4(r.w0, r.d0))
    else if r.op == 85 then Some(CpyRtoV4(r.w0)) else if r.op == 87 then Some(CpyGtoV4(r.w0, r.d0))
    else if r.op == 90 then Some(WRTV4(r.w0)) else if r.op == 94 then Some(RDR4(r.w0)) else if r.op == 96 then Some(LDG(r.d0))
    else if r.op == 97 then Some(LDV(r.w0)) else if 115 <= r.op <= 117 then Some(Arith(ArithAt(r.op), r.w0, r.w1, r.w2))
    else if 130 <= r.op <= 132 then Some(ArithI(ArithAt(r.op - 15), r.w0, r.w1, r.d0))
    else if r.op == 136 then Some(SetG4(r.d0, r.d1)) else if r.op == 174 then Some(ClrHi)
    else None
  }

  /** How the instructions of the model move the stack. */
  function StackInc(i: Instr): int {
    match i
    case PSF(_) => 1
    case PshVPtr(_) => 1
    case PshNull => 1
    case PshV4(_) => 1
    case PshC4(_) => 1
    case PshG4(_) => 1
    case PopPtr => -1
    case _ => 0
  }

  predicate OneDword(i: Instr) {
    || i.PSF? || i.PshVPtr? || i.PshNull? || i.PshV4? || i.PopPtr? || i.SwapPtr? || i.RDSPtr? || i.LDV? || i.IncVi? || i.DecVi?
    || i.Test? || i.SUSPEND? || i.JMPP? || i.RET?
  }

  predicate TwoDwords(i: Instr) {
    || i.SetV4? || i.CpyVtoV4? || i.CpyGtoV4? || i.CpyVtoG4? || i.LdGRdR4? || i.LDG? || i.PshC4? || i.PshG4? || i.CMPi? || i.CMPIi?
    || i.Arith? || i.JMP? || i.Jump?
  }

  /** The sizes the optimizers rely on where they put one operation in the place of another. */
  lemma SizeIs(i: Instr)
    ensures OneDword(i) ==> SizeOf(i) == 1
    ensures TwoDwords(i) ==> SizeOf(i) == 2
    ensures i.ArithI? || i.SetG4? ==> SizeOf(i) == 3
    ensures i.LABEL? || i.LINE? ==> SizeOf(i) == 0
  {
    hide SizeOf, OneDword, TwoDwords;
    OneSized(i);
    TwoSized(i);
    OtherSized(i);
  }

  lemma OneSized(i: Instr)
    ensures OneDword(i) ==> SizeOf(i) == 1
  {
  }

  lemma TwoSized(i: Instr)
    ensures TwoDwords(i) ==> SizeOf(i) == 2
  {
  }

  lemma OtherSized(i: Instr)
    ensures i.ArithI? || i.SetG4? ==> SizeOf(i) == 3
    ensures i.LABEL? || i.LINE? ==> SizeOf(i) == 0
  {
  }
}
