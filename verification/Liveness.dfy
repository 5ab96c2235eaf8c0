/** When a temporary or the value register still matters, and why nothing else about them does. */
module Liveness {
  import opened Options
  import opened Bytecode

  /** q may follow p within the list; a JMPP may be followed by any JMP of its table. */
  predicate Succ(c: seq<Instr>, p: nat, q: nat) {
    && p < |c|
    && match c[p]
       case RET(_) => false
       case JMP(l) => FindLabel(c, p, l) == Some(q)
       case Jump(_, l) => q == p + 1 || FindLabel(c, p, l) == Some(q)
       case JMPP(_) => p < q < |c| && forall k :: p < k <= q ==> c[k].JMP?
       case _ => q == p + 1
  }

  /** Some path of at most n instructions from p reads x before it is overwritten or discarded. */
  ghost predicate LiveN(c: seq<Instr>, p: nat, x: int, n: nat)
    decreases n
  {
    && n > 0 && p < |c|
    && (|| IsTempVarReadByInstr(c[p], x)
        || (!IsTempVarOverwrittenByInstr(c[p], x) && exists q :: Succ(c, p, q) && LiveN(c, q, x, n - 1)))
  }

  ghost predicate Live(c: seq<Instr>, p: nat, x: int) {
    exists n: nat :: LiveN(c, p, x, n)
  }

  /** The register is read from p on before it is overwritten or discarded. */
  predicate RegUsed(c: seq<Instr>, p: nat)
    decreases |c| - p
  {
    p < |c| && (ReadsReg(c[p]) || (!DropsReg(c[p]) && RegUsed(c, p + 1)))
  }

  /** Two states that execution from p cannot tell apart. */
  ghost predicate Sim(temps: set<int>, c: seq<Instr>, p: nat, s: St, t: St) {
    && Same(temps, s, t)
    && (forall x :: x in temps && Live(c, p, x) ==> Get(s.vars, x) == Get(t.vars, x))
    && (RegUsed(c, p) ==> s.reg == t.reg || s.reg.Lost?)
    && TakenSim(s, t)
  }

  /** Where s may follow an address, t may, and finds the same. */
  predicate TakenSim(s: St, t: St) {
    s.taken.Some? ==> t.taken == s.taken && Get(s.vars, s.taken.value) == Get(t.vars, s.taken.value)
  }

  lemma LiveRead(c: seq<Instr>, p: nat, x: int)
    requires p < |c| && IsTempVarReadByInstr(c[p], x)
    ensures Live(c, p, x)
  {
    assert LiveN(c, p, x, 1);
  }

  lemma LiveStep(c: seq<Instr>, p: nat, q: nat, x: int)
    requires Succ(c, p, q) && Live(c, q, x) && !IsTempVarOverwrittenByInstr(c[p], x)
    ensures Live(c, p, x)
  {
    var n: nat :| LiveN(c, q, x, n);
    assert LiveN(c, p, x, n + 1);
  }

  predicate Straight(i: Instr) {
    !IsInstrJmpOrLabel(i) && !i.SUSPEND? && !i.RET?
  }

  /** What an instruction may make of two states: it changes the same things in the same way. */
  ghost predicate SameEffect(temps: set<int>, i: Instr, s: St, t: St) {
    && Do(temps, i, s).Some? && Do(temps, i, t).Some?
    && var s1, t1 := Do(temps, i, s).value, Do(temps, i, t).value;
      && Same(temps, s1, t1)
      && (forall x :: Get(s.vars, x) == Get(t.vars, x) || Target(i) == Some(x) ==> Get(s1.vars, x) == Get(t1.vars, x))
      && (s.reg == t.reg || DropsReg(i) ==> s1.reg == t1.reg) && (s.reg.Lost? && !DropsReg(i) ==> s1.reg.Lost?)
      && s1.taken == t1.taken == TakesAddr(i)
  }

  ghost predicate Prepared(temps: set<int>, i: Instr, s: St, t: St) {
    && Same(temps, s, t) && Do(temps, i, s).Some?
    && (forall x :: IsTempVarReadByInstr(i, x) ==> Get(s.vars, x) == Get(t.vars, x))
    && (ReadsReg(i) ==> s.reg == t.reg)
    && TakenSim(s, t)
  }

  /** Writing equal values to the same variable. */
  lemma WriteSim(temps: set<int>, i: Instr, s: St, t: St, v: int, w: Val)
    requires Same(temps, s, t) && Act(temps, i, s) == Some(SetVar(s, v, w)) && Act(temps, i, t) == Some(SetVar(t, v, w))
    requires !DropsReg(i) && (Target(i) == Some(v) || Target(i) == None)
    ensures SameEffect(temps, i, s, t)
  {
    hide Act, Same;
    WriteSame(temps, s, t, v, w, TakesAddr(i));
  }

  lemma WriteSame(temps: set<int>, s: St, t: St, v: int, w: Val, taken: Option<int>)
    requires Same(temps, s, t)
    ensures Same(temps, SetVar(s, v, w).(taken := taken), SetVar(t, v, w).(taken := taken))
  {
  }

  lemma DoSimVars(temps: set<int>, i: Instr, s: St, t: St)
    requires Prepared(temps, i, s, t)
    requires i.SetV4? || i.CpyVtoV4? || i.CpyRtoV4? || i.CpyGtoV4?
    ensures SameEffect(temps, i, s, t)
  {
    hide SameEffect, Wrap;
    match i {
      case SetV4(v, k) => WriteSim(temps, i, s, t, v, Int(Wrap(k)));
      case CpyVtoV4(d, x) => assert IsTempVarReadByInstr(i, x); WriteSim(temps, i, s, t, d, Get(s.vars, x));
      case CpyRtoV4(v) => WriteSim(temps, i, s, t, v, s.reg);
      case CpyGtoV4(v, g) => WriteSim(temps, i, s, t, v, Get(s.globals, g));
    }
  }

  lemma DoSimArith(temps: set<int>, i: Instr, s: St, t: St)
    requires Prepared(temps, i, s, t) && (i.Arith? || i.ArithI?)
    ensures SameEffect(temps, i, s, t)
  {
    hide SameEffect, Wrap, Calc;
    match i {
      case Arith(op, d, x, y) =>
        assert IsTempVarReadByInstr(i, x) && IsTempVarReadByInstr(i, y);
        WriteSim(temps, i, s, t, d, Int(Calc(op, Get(s.vars, x).n, Get(s.vars, y).n)));
      case ArithI(op, d, x, k) =>
        assert IsTempVarReadByInstr(i, x);
        WriteSim(temps, i, s, t, d, Int(Calc(op, Get(s.vars, x).n, Wrap(k))));
    }
  }

  lemma DoSimAddress(temps: set<int>, i: Instr, s: St, t: St)
    requires Prepared(temps, i, s, t) && i.LdGRdR4?
    ensures SameEffect(temps, i, s, t)
  {
  }

  lemma DoSimCount(temps: set<int>, i: Instr, s: St, t: St)
    requires Prepared(temps, i, s, t) && (i.IncVi? || i.DecVi?)
    ensures SameEffect(temps, i, s, t)
  {
    hide SameEffect, Wrap;
    var n := Get(s.vars, i.v).n;
    assert IsTempVarReadByInstr(i, i.v);
    WriteSim(temps, i, s, t, i.v, Int(Wrap(if i.IncVi? then n + 1 else n + -1)));
  }

  lemma DoSimReg(temps: set<int>, i: Instr, s: St, t: St)
    requires Prepared(temps, i, s, t)
    requires i.CpyVtoR4? || i.CMPi? || i.CMPIi? || i.Test? || i.ClrHi? || i.LDV? || i.LDG?
    ensures SameEffect(temps, i, s, t)
  {
    match i {
      case CMPi(x, y) => assert IsTempVarReadByInstr(i, x) && IsTempVarReadByInstr(i, y);
      case CMPIi(x, k) => assert IsTempVarReadByInstr(i, x);
      case CpyVtoR4(v) => assert IsTempVarReadByInstr(i, v);
      case _ =>
    }
  }

  lemma LoadSim(temps: set<int>, s: St, t: St, a: Val)
    requires Same(temps, s, t) && TakenSim(s, t) && Load(temps, s, a).Some?
    ensures Load(temps, t, a) == Load(temps, s, a)
  {
  }

  lemma StoreSim(temps: set<int>, s: St, t: St, a: Val, w: Val)
    requires Same(temps, s, t) && TakenSim(s, t) && Store(temps, s, a, w).Some?
    ensures Store(temps, t, a, w).Some?
    ensures var s1, t1 := Store(temps, s, a, w).value, Store(temps, t, a, w).value;
      && Same(temps, s1, t1) && s1.reg == s.reg && t1.reg == t.reg
      && forall x :: Get(s.vars, x) == Get(t.vars, x) ==> Get(s1.vars, x) == Get(t1.vars, x)
  {
  }

  lemma DoSimBump(temps: set<int>, i: Instr, s: St, t: St)
    requires Prepared(temps, i, s, t) && (i.INCi? || i.DECi?)
    ensures SameEffect(temps, i, s, t)
  {
    hide Wrap, Load, Store, Same, IsTempVarReadByInstr, TakenSim;
    LoadSim(temps, s, t, s.reg);
    var n := Load(temps, s, s.reg).value.n;
    var w := Int(Wrap(n + if i.INCi? then 1 else -1));
    StoreSim(temps, s, t, s.reg, w);
    SameTaken(temps, Store(temps, s, s.reg, w).value, Store(temps, t, s.reg, w).value, None);
  }

  lemma SameTaken(temps: set<int>, s: St, t: St, v: Option<int>)
    requires Same(temps, s, t)
    ensures Same(temps, s.(taken := v), t.(taken := v))
  {
  }

  lemma DoSimMemory(temps: set<int>, i: Instr, s: St, t: St)
    requires Prepared(temps, i, s, t) && i.WRTV4?
    ensures SameEffect(temps, i, s, t)
  {
    hide Load, Store, Same, TakenSim;
    assert IsTempVarReadByInstr(i, i.v);
    var w := Get(s.vars, i.v);
    StoreSim(temps, s, t, s.reg, w);
    SameTaken(temps, Store(temps, s, s.reg, w).value, Store(temps, t, s.reg, w).value, None);
  }

  lemma DoSimRead(temps: set<int>, i: Instr, s: St, t: St)
    requires Prepared(temps, i, s, t) && i.RDR4?
    ensures SameEffect(temps, i, s, t)
  {
    hide Load, SameEffect, IsTempVarReadByInstr;
    LoadSim(temps, s, t, s.reg);
    WriteSim(temps, i, s, t, i.v, Load(temps, s, s.reg).value);
  }

  lemma DoSimGlobal(temps: set<int>, i: Instr, s: St, t: St)
    requires Prepared(temps, i, s, t) && (i.CpyVtoG4? || i.SetG4?)
    ensures SameEffect(temps, i, s, t)
  {
    hide Wrap;
    if i.CpyVtoG4? { assert IsTempVarReadByInstr(i, i.v); }
  }

  lemma DoSimPush(temps: set<int>, i: Instr, s: St, t: St)
    requires Prepared(temps, i, s, t) && OnStack(i) && !i.PopPtr? && !i.SwapPtr? && !i.RDSPtr?
    ensures SameEffect(temps, i, s, t)
  {
    hide SameEffect, Wrap;
    match i {
      case PshVPtr(v) => assert IsTempVarReadByInstr(i, v); StackSim(temps, i, s, t, [Get(s.vars, v)] + s.stack);
      case PshV4(v) => assert IsTempVarReadByInstr(i, v); StackSim(temps, i, s, t, [Get(s.vars, v)] + s.stack);
      case PshG4(g) => StackSim(temps, i, s, t, [Get(s.globals, g)] + s.stack);
      case PSF(v) => StackSim(temps, i, s, t, [VarAddr(v)] + s.stack);
      case PshNull => StackSim(temps, i, s, t, [Int(0)] + s.stack);
      case PshC4(k) => StackSim(temps, i, s, t, [Int(Wrap(k))] + s.stack);
    }
  }

  /** Making the same of the stack. */
  lemma StackSim(temps: set<int>, i: Instr, s: St, t: St, w: seq<Val>)
    requires Same(temps, s, t) && Act(temps, i, s) == Some(s.(stack := w)) && Act(temps, i, t) == Some(t.(stack := w))
    requires !DropsReg(i) && Target(i) == None
    ensures SameEffect(temps, i, s, t)
  {
    hide Act;
  }

  lemma DoSimStack(temps: set<int>, i: Instr, s: St, t: St)
    requires Prepared(temps, i, s, t)
    requires i.PopPtr? || i.SwapPtr? || i.RDSPtr? || i.LINE?
    ensures SameEffect(temps, i, s, t)
  {
    hide SameEffect, Load, IsTempVarReadByInstr;
    match i {
      case PopPtr => StackSim(temps, i, s, t, s.stack[1..]);
      case SwapPtr => StackSim(temps, i, s, t, [s.stack[1], s.stack[0]] + s.stack[2..]);
      case RDSPtr =>
        LoadSim(temps, s, t, s.stack[0]);
        StackSim(temps, i, s, t, [Load(temps, s, s.stack[0]).value] + s.stack[1..]);
      case LINE => StackSim(temps, i, s, t, s.stack);
    }
  }

  /** What an instruction does depends only on what it is known to read. */
  lemma DoSim(temps: set<int>, i: Instr, s: St, t: St)
    requires Prepared(temps, i, s, t) && Straight(i)
    ensures SameEffect(temps, i, s, t)
  {
    hide Prepared, SameEffect;
    if i.CpyVtoR4? || i.CMPi? || i.CMPIi? || i.Test? || i.ClrHi? || i.LDV? || i.LDG? { DoSimReg(temps, i, s, t); }
    else if i.INCi? || i.DECi? { DoSimBump(temps, i, s, t); }
    else if i.WRTV4? { DoSimMemory(temps, i, s, t); }
    else if i.RDR4? { DoSimRead(temps, i, s, t); }
    else if i.CpyVtoG4? || i.SetG4? { DoSimGlobal(temps, i, s, t); }
    else if i.SetV4? || i.CpyVtoV4? || i.CpyRtoV4? || i.CpyGtoV4? { DoSimVars(temps, i, s, t); }
    else if i.IncVi? || i.DecVi? { DoSimCount(temps, i, s, t); }
    else if i.Arith? || i.ArithI? { DoSimArith(temps, i, s, t); }
    else if i.LdGRdR4? { DoSimAddress(temps, i, s, t); }
    else if OnStack(i) && !i.PopPtr? && !i.SwapPtr? && !i.RDSPtr? { DoSimPush(temps, i, s, t); }
    else { DoSimStack(temps, i, s, t); }
  }

  // ---- What is known to be read is read, and what is written is known to be written ----

  const Plain: St := St(map[], GlobAddr(0), [], map[], [], 0, None)

  /** What i does with v as it is is not what it does with w in v. */
  predicate Differs(i: Instr, v: int, s: St, w: Val) {
    var s2 := SetVar(s, v, w);
    match (Act({}, i, s), Act({}, i, s2))
    case (Some(a), Some(b)) =>
      a.reg != b.reg || a.stack != b.stack || a.globals != b.globals || (Target(i).Some? && Get(a.vars, Target(i).value) != Get(b.vars, Target(i).value))
    case (a, b) => a.Some? || b.Some?
  }

  /** Every variable that an instruction is taken to read makes a difference to it, unless it takes its address or is a switch. */
  lemma ReadsMatter(i: Instr, v: int)
    requires IsTempVarReadByInstr(i, v)
    ensures TakesAddr(i) == Some(v) || i == JMPP(v) || Differs(i, v, Plain, VarAddr(0))
  {
    hide Wrap, Calc;
    var a, b := Act({}, i, Plain), Act({}, i, SetVar(Plain, v, VarAddr(0)));
    if i.PshV4? || i.PshVPtr? { assert a.value.stack[0] != b.value.stack[0]; }
    if i.CpyVtoG4? { assert a.value.globals[i.g] != b.value.globals[i.g]; }
    if i.WRTV4? { assert a.value.globals[0] != b.value.globals[0]; }
  }

  /** The register makes a difference to those taken to read it. */
  lemma RegReadsMatter(i: Instr)
    requires ReadsReg(i) && !i.Jump?
    ensures exists r :: Act({}, i, Plain.(reg := r)).Some? && Act({}, i, Plain.(reg := Lost)).None?
  {
    hide Wrap;
    var r := if i.Test? || i.CpyRtoV4? then Int(0) else GlobAddr(0);
    assert Act({}, i, Plain.(reg := r)).Some?;
  }

  /** An instruction that changes a variable is taken to overwrite it, unless it counts it up or down or goes through the register. */
  lemma ChangesTarget(temps: set<int>, i: Instr, s: St, x: int)
    requires Act(temps, i, s).Some? && Get(Act(temps, i, s).value.vars, x) != Get(s.vars, x)
    ensures Target(i) == Some(x) || i == IncVi(x) || i == DecVi(x) || ((i.WRTV4? || i.INCi? || i.DECi?) && s.reg == VarAddr(x))
  {
    if i.WRTV4? || i.INCi? || i.DECi? { ChangesThrough(temps, i, s, x); }
    else if Target(i).Some? { ChangesOne(temps, i, s); }
    else if OnStack(i) { StackOnly(temps, i, s); }
    else { hide Compare, Passes, Wrap; }
  }

  lemma ChangesOne(temps: set<int>, i: Instr, s: St)
    requires Target(i).Some? && Act(temps, i, s).Some?
    ensures forall x :: x != Target(i).value ==> Get(Act(temps, i, s).value.vars, x) == Get(s.vars, x)
  {
    hide Wrap, Calc, Load;
  }

  lemma StackOnly(temps: set<int>, i: Instr, s: St)
    requires OnStack(i) && Act(temps, i, s).Some?
    ensures Act(temps, i, s).value.vars == s.vars
  {
    hide Wrap, Load;
  }

  lemma ChangesThrough(temps: set<int>, i: Instr, s: St, x: int)
    requires i.WRTV4? || i.INCi? || i.DECi?
    requires Act(temps, i, s).Some? && Get(Act(temps, i, s).value.vars, x) != Get(s.vars, x)
    ensures s.reg == VarAddr(x)
  {
    hide Wrap, Load;
  }

  /** And one that changes the register to drop what was in it, unless it only clears some of it. */
  lemma ChangesReg(temps: set<int>, i: Instr, s: St)
    requires Act(temps, i, s).Some? && Act(temps, i, s).value.reg != s.reg
    ensures DropsReg(i) || i.ClrHi?
  {
    hide Wrap, Calc;
  }

  /** Every way the search goes on from an instruction is gone in some state. */
  lemma SuccHappens(c: seq<Instr>, p: nat, q: nat, j: Junk) returns (s: St)
    requires Succ(c, p, q)
    ensures var r := Step({}, c, j, p, s); r.Go? && r.pc == q
  {
    hide Wrap, Calc, FindLabel;
    var i := c[p];
    s := Plain.(reg := if i.Test? || i.CpyRtoV4? then Int(0) else GlobAddr(0), stack := [GlobAddr(0), GlobAddr(0)]);
    if i.Jump? { s := s.(reg := Int(Meets(i.cond, q != p + 1))); }
    if i.JMPP? { s := s.(vars := map[i.v := Int(q - p - 1)]); }
  }

  /** Nothing is read beyond the end, a return or a suspend, or in the register beyond a jump or a label. */
  lemma NothingLive(c: seq<Instr>, p: nat, x: int)
    ensures p >= |c| || c[p].RET? || c[p].SUSPEND? ==> !Live(c, p, x)
    ensures p < |c| && (c[p].SUSPEND? || c[p].JMP? || c[p].JMPP? || c[p].LABEL?) ==> !RegUsed(c, p)
  {
    if Live(c, p, x) {
      var n: nat :| LiveN(c, p, x, n);
    }
  }

  lemma DoStepSim(temps: set<int>, c: seq<Instr>, p: nat, s: St, t: St)
    requires Sim(temps, c, p, s, t) && p < |c| && Straight(c[p]) && Do(temps, c[p], s).Some?
    ensures Do(temps, c[p], t).Some? && Sim(temps, c, p + 1, Do(temps, c[p], s).value, Do(temps, c[p], t).value)
  {
    forall x | IsTempVarReadByInstr(c[p], x) ensures Get(s.vars, x) == Get(t.vars, x) {
      LiveRead(c, p, x);
    }
    hide Do;
    DoSim(temps, c[p], s, t);
    var s1, t1 := Do(temps, c[p], s).value, Do(temps, c[p], t).value;
    forall x | x in temps && Live(c, p + 1, x) ensures Get(s1.vars, x) == Get(t1.vars, x) {
      if Target(c[p]) != Some(x) { LiveStep(c, p, p + 1, x); }
    }
  }

  /** Where only a number in the register is passed on, and no temporary overwritten, the successor cannot tell the states apart. */
  lemma JumpSim(temps: set<int>, c: seq<Instr>, p: nat, q: nat, s: St, t: St, s1: St, t1: St)
    requires Sim(temps, c, p, s, t) && Succ(c, p, q) && !IsTempVarOverwrittenByInstr(c[p], 0) && Target(c[p]) == None
    requires s1.vars == s.vars && t1.vars == t.vars && (s1.reg.Int? || s1.reg.Lost?) && s1.taken == None && Same(temps, s1, t1)
    requires !c[p].SUSPEND? && !c[p].RET?
    ensures Sim(temps, c, q, s1, t1)
  {
    forall x | x in temps && Live(c, q, x) ensures Get(s1.vars, x) == Get(t1.vars, x) { LiveStep(c, p, q, x); }
  }

  /** What a step from s must be matched with. */
  ghost predicate Matches(temps: set<int>, c: seq<Instr>, r: Outcome, r2: Outcome) {
    match r
    case Go(q, s1) => r2.Go? && r2.pc == q && Sim(temps, c, q, s1, r2.s)
    case Halt(e, s1) => r2.Halt? && r2.exit == e && Same(temps, s1, r2.s)
    case _ => true
  }

  lemma GotoSim(temps: set<int>, c: seq<Instr>, p: nat, l: int, s: St, t: St, s1: St, t1: St)
    requires Sim(temps, c, p, s, t) && p < |c| && (c[p] == JMP(l) || (c[p].Jump? && c[p].l == l))
    requires s1.vars == s.vars && t1.vars == t.vars && (s1.reg.Int? || s1.reg.Lost?) && s1.taken == None && Same(temps, s1, t1)
    ensures Matches(temps, c, Goto(c, p, l, s1), Goto(c, p, l, t1))
  {
    var q := FindLabel(c, p, l);
    if q.Some? { JumpSim(temps, c, p, q.value, s, t, s1, t1); }
  }

  lemma CondSim(temps: set<int>, c: seq<Instr>, j: Junk, p: nat, s: St, t: St)
    requires Sim(temps, c, p, s, t) && p < |c| && c[p].Jump?
    ensures Matches(temps, c, Step(temps, c, j, p, s), Step(temps, c, j, p, t))
  {
    if s.reg.Int? {
      var b := Taken(c[p].cond, s.reg.n);
      var s1, t1 := Part(s.(trace := s.trace + [Branch(c[p].l, b)])), Part(t.(trace := t.trace + [Branch(c[p].l, b)]));
      if b { GotoSim(temps, c, p, c[p].l, s, t, s1, t1); } else { JumpSim(temps, c, p, p + 1, s, t, s1, t1); }
    }
  }

  lemma TableSim(temps: set<int>, c: seq<Instr>, j: Junk, p: nat, s: St, t: St)
    requires Sim(temps, c, p, s, t) && p < |c| && c[p].JMPP?
    ensures Matches(temps, c, Step(temps, c, j, p, s), Step(temps, c, j, p, t))
  {
    hide Live, RegUsed;
    LiveRead(c, p, c[p].v);
    if Get(s.vars, c[p].v).Int? {
      var n := Get(s.vars, c[p].v).n;
      if InTable(c, p, n) {
        assert Succ(c, p, p + 1 + n);
        JumpSim(temps, c, p, p + 1 + n, s, t, Pass(s.(trace := s.trace + [Switch(n)])), Pass(t.(trace := t.trace + [Switch(n)])));
      }
    }
  }

  lemma SuspendSim(temps: set<int>, c: seq<Instr>, j: Junk, p: nat, s: St, t: St)
    requires Sim(temps, c, p, s, t) && p < |c| && c[p].SUSPEND?
    ensures Matches(temps, c, Step(temps, c, j, p, s), Step(temps, c, j, p, t))
  {
  }

  /** One step from states that cannot be told apart leads to such states. */
  lemma StepSim(temps: set<int>, c: seq<Instr>, j: Junk, p: nat, s: St, t: St)
    requires Sim(temps, c, p, s, t)
    ensures Matches(temps, c, Step(temps, c, j, p, s), Step(temps, c, j, p, t))
  {
    hide Live, RegUsed, Do;
    if p < |c| {
      if c[p].JMP? {
        var l := c[p].l;
        GotoSim(temps, c, p, l, s, t, Pass(s.(trace := s.trace + [Branch(l, true)])), Pass(t.(trace := t.trace + [Branch(l, true)])));
      } else if c[p].Jump? {
        CondSim(temps, c, j, p, s, t);
      } else if c[p].JMPP? {
        TableSim(temps, c, j, p, s, t);
      } else if c[p].LABEL? {
        JumpSim(temps, c, p, p + 1, s, t, Pass(s), Pass(t));
      } else if c[p].SUSPEND? {
        SuspendSim(temps, c, j, p, s, t);
      } else if !c[p].RET? && Do(temps, c[p], s).Some? {
        DoStepSim(temps, c, p, s, t);
      }
    }
  }
}
