/** The machine as it is: nothing is ever lost. Code that keeps the conventions about temporaries and the register does not
    notice. */
module Conventions {
  import opened Options
  import opened Bytecode

  /** What the temporaries happen to hold. */
  function Keep(s: St): Junk {
    Junk((_, t) => Get(s.vars, t))
  }

  /** The instructions that leave the register alone, though the code may no longer count on all that is in it. */
  predicate Loses(i: Instr) { i.JMP? || i.Jump? || i.JMPP? || i.LABEL? || i.SUSPEND? }

  function WithReg(r: Outcome, reg: Val): Outcome {
    match r
    case Go(q, s) => Go(q, s.(reg := reg))
    case Halt(e, s) => Halt(e, s.(reg := reg))
    case _ => r
  }

  /** A step that leaves temporaries and register as they are. */
  function RealStep(temps: set<int>, c: seq<Instr>, pc: nat, s: St): Outcome {
    var r := Step(temps, c, Keep(s), pc, s);
    if pc < |c| && Loses(c[pc]) then WithReg(r, s.reg) else r
  }

  function RealRun(temps: set<int>, c: seq<Instr>, pc: nat, s: St, fuel: nat): Outcome
    decreases fuel
  {
    match RealStep(temps, c, pc, s)
    case Go(q, s1) => if fuel == 0 then Timeout else RealRun(temps, c, q, s1, fuel - 1)
    case r => r
  }

  function Jumped(s: St, e: Event): St {
    s.(trace := s.trace + [e], taken := None)
  }

  function Woken(temps: set<int>, s: St): St {
    Wake(temps, Keep(s), s).(reg := s.reg)
  }

  /** What the machine makes of jumps, labels and suspends. */
  lemma RealTransfer(temps: set<int>, c: seq<Instr>, pc: nat, s: St)
    requires pc < |c|
    ensures match c[pc]
      case JMP(l) => RealStep(temps, c, pc, s) == Goto(c, pc, l, Jumped(s, Branch(l, true)))
      case Jump(cond, l) => s.reg.Int? ==>
        var s1 := Jumped(s, Branch(l, Taken(cond, s.reg.n)));
        RealStep(temps, c, pc, s) == if Taken(cond, s.reg.n) then Goto(c, pc, l, s1) else Go(pc + 1, s1)
      case LABEL(_) => RealStep(temps, c, pc, s) == Go(pc + 1, s.(taken := None))
      case SUSPEND => RealStep(temps, c, pc, s) == Go(pc + 1, Woken(temps, s))
      case _ => true
  {
    hide FindLabel, InTable, Taken, Do;
  }

  /** Code that reads no register it has lost, and whose end does not depend on what it finds in temporaries after a suspend:
      every run of the machine that ends also ends when these things are lost. */
  ghost predicate Conventional(temps: set<int>, c: seq<Instr>) {
    forall e: Entry, j: Junk, s: St, fuel: nat :: ConventionalFrom(temps, c, e, j, s, fuel)
  }

  ghost predicate ConventionalFrom(temps: set<int>, c: seq<Instr>, e: Entry, j: Junk, s: St, fuel: nat) {
    EntryPos(c, e).Some? ==>
      var r := RealRun(temps, c, EntryPos(c, e).value, s, fuel);
      r.Halt? ==> ConventionalEnd(temps, c, j, EntryPos(c, e).value, s, r.exit, r.s)
  }

  ghost predicate ConventionalEnd(temps: set<int>, c: seq<Instr>, j: Junk, pc: nat, s: St, exit: Exit, end: St) {
    exists fuel: nat :: var r := Run(temps, c, j, pc, s, fuel); r.Halt? && r.exit == exit && Same(temps, r.s, end)
  }

  // ---- A run of the machine is a run under some oracle ----

  function RealAfter(temps: set<int>, c: seq<Instr>, pc: nat, s: St, k: nat): Outcome
    decreases k
  {
    if k == 0 then Go(pc, s)
    else match RealAfter(temps, c, pc, s, k - 1) case Go(q, t) => RealStep(temps, c, q, t) case r => r
  }

  /** After k steps the machine is about to suspend for the n-th time. */
  predicate SuspendsAt(temps: set<int>, c: seq<Instr>, pc: nat, s: St, n: nat, k: nat) {
    var r := RealAfter(temps, c, pc, s, k);
    r.Go? && r.pc < |c| && r.s.epoch == n && c[r.pc].SUSPEND?
  }

  ghost function Memory(temps: set<int>, c: seq<Instr>, pc: nat, s: St, n: nat): St {
    if exists k: nat :: SuspendsAt(temps, c, pc, s, n, k)
    then var k: nat :| SuspendsAt(temps, c, pc, s, n, k); RealAfter(temps, c, pc, s, k).s
    else s
  }

  /** The oracle that answers what the machine holds. */
  ghost function Oracle(temps: set<int>, c: seq<Instr>, pc: nat, s: St): Junk {
    Junk((n: nat, t: int) => Get(Memory(temps, c, pc, s, n).vars, t))
  }

  lemma StepEpoch(temps: set<int>, c: seq<Instr>, pc: nat, s: St)
    requires RealStep(temps, c, pc, s).Go?
    ensures RealStep(temps, c, pc, s).s.epoch == if pc < |c| && c[pc].SUSPEND? then s.epoch + 1 else s.epoch
  {
    hide FindLabel, InTable, Taken, Do;
    if pc < |c| { DoEpoch(temps, c[pc], s); }
  }

  lemma DoEpoch(temps: set<int>, i: Instr, s: St)
    ensures Do(temps, i, s).Some? ==> Do(temps, i, s).value.epoch == s.epoch
  {
  }

  lemma {:induction false} EpochGrows(temps: set<int>, c: seq<Instr>, pc: nat, s: St, k: nat, m: nat)
    requires k < m && RealAfter(temps, c, pc, s, m).Go?
    ensures var r := RealAfter(temps, c, pc, s, k);
      r.Go? && r.s.epoch + (if r.pc < |c| && c[r.pc].SUSPEND? then 1 else 0) <= RealAfter(temps, c, pc, s, m).s.epoch
    decreases m
  {
    hide RealStep;
    var r := RealAfter(temps, c, pc, s, m - 1);
    StepEpoch(temps, c, r.pc, r.s);
    if k < m - 1 { EpochGrows(temps, c, pc, s, k, m - 1); }
  }

  lemma MemoryAt(temps: set<int>, c: seq<Instr>, pc: nat, s: St, n: nat, k: nat)
    requires SuspendsAt(temps, c, pc, s, n, k)
    ensures Memory(temps, c, pc, s, n) == RealAfter(temps, c, pc, s, k).s
  {
    hide RealAfter;
    forall m: nat | SuspendsAt(temps, c, pc, s, n, m) ensures m == k {
      if m < k { EpochGrows(temps, c, pc, s, m, k); }
      if k < m { EpochGrows(temps, c, pc, s, k, m); }
    }
  }

  /** r is s on the machine: it has what s has, and something in the register even where s has lost it. */
  predicate Knows(s: St, r: St) {
    r == s.(reg := r.reg) && (s.reg.Lost? || r.reg == s.reg)
  }

  predicate KnowsOutcome(a: Outcome, b: Outcome) {
    match a
    case Go(q, s) => b.Go? && b.pc == q && Knows(s, b.s)
    case Halt(e, s) => b.Halt? && b.exit == e && Knows(s, b.s)
    case Timeout => b.Timeout?
    case Fault => true
  }

  lemma DoKnows(temps: set<int>, i: Instr, s: St, r: St)
    requires Knows(s, r) && Do(temps, i, s).Some?
    ensures Do(temps, i, r).Some? && Knows(Do(temps, i, s).value, Do(temps, i, r).value)
  {
    hide Do;
    if Target(i).Some? { TargetKnows(temps, i, s, r); }
    else if OnStack(i) { StackKnows(temps, i, s, r); }
    else { OtherKnows(temps, i, s, r); }
  }

  lemma TargetKnows(temps: set<int>, i: Instr, s: St, r: St)
    requires Knows(s, r) && Target(i).Some? && Do(temps, i, s).Some?
    ensures Do(temps, i, r).Some? && Knows(Do(temps, i, s).value, Do(temps, i, r).value)
  {
    hide Wrap, Calc;
  }

  lemma StackKnows(temps: set<int>, i: Instr, s: St, r: St)
    requires OnStack(i) && Knows(s, r) && Do(temps, i, s).Some?
    ensures Do(temps, i, r).Some? && Knows(Do(temps, i, s).value, Do(temps, i, r).value)
  {
    hide Wrap;
  }

  lemma OtherKnows(temps: set<int>, i: Instr, s: St, r: St)
    requires Target(i).None? && !OnStack(i) && Knows(s, r) && Do(temps, i, s).Some?
    ensures Do(temps, i, r).Some? && Knows(Do(temps, i, s).value, Do(temps, i, r).value)
  {
    hide Wrap, Passes, Compare;
  }

  lemma StepKnows(temps: set<int>, c: seq<Instr>, j: Junk, pc: nat, s: St, r: St)
    requires Knows(s, r) && (pc < |c| && c[pc].SUSPEND? ==> forall t :: j.tmp(s.epoch, t) == Get(r.vars, t))
    ensures KnowsOutcome(Step(temps, c, j, pc, s), RealStep(temps, c, pc, r))
  {
    hide FindLabel, InTable, Taken, Do;
    if pc < |c| {
      if c[pc].SUSPEND? {
        var m1, m2 := map t | t in temps :: j.tmp(s.epoch, t), map t | t in temps :: Keep(r).tmp(r.epoch, t);
        assert m1.Keys == m2.Keys;
        forall t | t in temps ensures m1[t] == m2[t] { assert j.tmp(s.epoch, t) == Keep(r).tmp(r.epoch, t); }
        assert m1 == m2;
      } else if !Loses(c[pc]) && !c[pc].RET? && Do(temps, c[pc], s).Some? {
        DoKnows(temps, c[pc], s, r);
      }
    }
  }

  /** Where the code does not read what it has lost, the run of the machine is the run under that oracle. */
  lemma {:induction false} RunIsReal(temps: set<int>, c: seq<Instr>, pc: nat, s: St, k: nat, fuel: nat, t: St)
    requires RealAfter(temps, c, pc, s, k).Go? && Knows(t, RealAfter(temps, c, pc, s, k).s)
    ensures var r := RealAfter(temps, c, pc, s, k);
      KnowsOutcome(Run(temps, c, Oracle(temps, c, pc, s), r.pc, t, fuel), RealRun(temps, c, r.pc, r.s, fuel))
    decreases fuel
  {
    hide Step, RealStep, Memory, Knows;
    var r, j := RealAfter(temps, c, pc, s, k), Oracle(temps, c, pc, s);
    if r.pc < |c| && c[r.pc].SUSPEND? { MemoryAt(temps, c, pc, s, r.s.epoch, k); }
    assert t.epoch == r.s.epoch by { KnowsEpoch(t, r.s); }
    StepKnows(temps, c, j, r.pc, t, r.s);
    var t1 := Step(temps, c, j, r.pc, t);
    if t1.Go? && fuel > 0 { RunIsReal(temps, c, pc, s, k + 1, fuel - 1, t1.s); }
  }

  lemma KnowsEpoch(s: St, r: St)
    requires Knows(s, r)
    ensures s.epoch == r.epoch
  {
  }

  // ---- What refinement means on the machine ----

  /** Entered there in that state, the code returns with a number in the register that it has not lost. */
  ghost predicate ReturnsNumber(temps: set<int>, c: seq<Instr>, e: Entry, s: St) {
    forall j: Junk, fuel: nat :: NumberFrom(temps, c, e, j, s, fuel)
  }

  ghost predicate NumberFrom(temps: set<int>, c: seq<Instr>, e: Entry, j: Junk, s: St, fuel: nat) {
    EntryPos(c, e).Some? ==>
      var r := Run(temps, c, j, EntryPos(c, e).value, s, fuel); r.Halt? && r.exit == Returned ==> r.s.reg.Int?
  }

  lemma KnowsSame(temps: set<int>, s: St, r: St)
    requires Knows(s, r)
    ensures Same(temps, s, r)
  {
  }

  lemma SameBoth(temps: set<int>, s: St, t: St, u: St, r: St)
    requires Same(temps, s, t) && Same(temps, s, u) && Same(temps, u, r)
    ensures SameOutside(temps, t, r) && (s.reg.Int? ==> t.reg == r.reg == s.reg)
  {
  }

  /** Code that refines conventional code does the same on the machine: it ends every run the other ends, in the same way, with
      the same jumps taken and the same variables that are not temporaries, globals and stack; and it returns the same number, if
      that code returns one. */
  lemma RefinedOnMachine(temps: set<int>, c1: seq<Instr>, c2: seq<Instr>, e: Entry, s: St, fuel: nat) returns (fuel2: nat)
    requires Refines(temps, c1, c2) && Conventional(temps, c1) && EntryPos(c1, e).Some?
    requires RealRun(temps, c1, EntryPos(c1, e).value, s, fuel).Halt?
    ensures EntryPos(c2, e).Some?
    ensures var r1 := RealRun(temps, c1, EntryPos(c1, e).value, s, fuel);
      var r2 := RealRun(temps, c2, EntryPos(c2, e).value, s, fuel2);
      && r2.Halt? && r2.exit == r1.exit && SameOutside(temps, r1.s, r2.s)
      && (ReturnsNumber(temps, c1, e, s) && r1.exit == Returned ==> r1.s.reg.Int? && r2.s.reg == r1.s.reg)
  {
    hide Step, RealStep, Same, EntryPos, Oracle, Knows;
    var p1 := EntryPos(c1, e).value;
    var r1 := RealRun(temps, c1, p1, s, fuel);
    assert RefinesFrom(temps, c1, c2, e, Keep(s), s, fuel);
    var p2 := EntryPos(c2, e).value;
    var j := Oracle(temps, c2, p2, s);
    assert ConventionalFrom(temps, c1, e, j, s, fuel);
    var fuelx: nat :| var r := Run(temps, c1, j, p1, s, fuelx); r.Halt? && r.exit == r1.exit && Same(temps, r.s, r1.s);
    var rx := Run(temps, c1, j, p1, s, fuelx);
    assert RefinesFrom(temps, c1, c2, e, j, s, fuelx);
    fuel2 :| var r := Run(temps, c2, j, p2, s, fuel2); r.Halt? && r.exit == rx.exit && Same(temps, rx.s, r.s);
    var rj, r2 := Run(temps, c2, j, p2, s, fuel2), RealRun(temps, c2, p2, s, fuel2);
    KnowsSelf(s);
    RunIsReal(temps, c2, p2, s, 0, fuel2, s);
    KnowsSame(temps, rj.s, r2.s);
    SameBoth(temps, rx.s, r1.s, rj.s, r2.s);
    if ReturnsNumber(temps, c1, e, s) { assert NumberFrom(temps, c1, e, j, s, fuelx); }
  }

  lemma KnowsSelf(s: St)
    ensures Knows(s, s)
  {
  }

  // ---- A number returned counts ----

  const Returning: seq<Instr> := [CpyVtoR4(1), JMP(0), LABEL(0), RET(0)]

  const NotReturning: seq<Instr> := [JMP(0), LABEL(0), RET(0)]

  lemma ReturningSteps(j: Junk, s: St, s1: St, s2: St)
    requires Get(s.vars, 1) == Int(5) && s1 == s.(reg := Int(5), taken := None) && s2 == Jumped(s1, Branch(0, true))
    ensures Step({}, Returning, j, 0, s) == Go(1, s1) && Step({}, Returning, j, 1, s1) == Go(2, s2)
    ensures Step({}, Returning, j, 2, s2) == Go(3, s2) && Step({}, Returning, j, 3, s2) == Halt(Returned, s2)
  {
    hide FindForward, FindBackward, InTable, Taken, Wake, Do;
    NextLabel(Returning, 2, 0);
    LoadReturned(s);
  }

  lemma LoadReturned(s: St)
    requires Get(s.vars, 1) == Int(5)
    ensures Do({}, CpyVtoR4(1), s) == Some(s.(reg := Int(5), taken := None))
  {
  }

  lemma NextLabel(c: seq<Instr>, p: nat, l: int)
    requires p < |c| && c[p] == LABEL(l)
    ensures FindForward(c, p, l) == Some(p)
  {
  }

  lemma ReturningRun(j: Junk, s: St)
    requires Get(s.vars, 1) == Int(5)
    ensures var r := Run({}, Returning, j, 0, s, 3); r.Halt? && r.exit == Returned && r.s.reg == Int(5)
  {
    hide Step;
    var c, s1 := Returning, s.(reg := Int(5), taken := None);
    var s2 := Jumped(s1, Branch(0, true));
    ReturningSteps(j, s, s1, s2);
    assert Run({}, c, j, 3, s2, 0) == Halt(Returned, s2);
    assert Run({}, c, j, 2, s2, 1) == Run({}, c, j, 3, s2, 0);
    assert Run({}, c, j, 1, s1, 2) == Run({}, c, j, 2, s2, 1);
  }

  lemma NotReturningRun(j: Junk, s: St, fuel: nat)
    requires s.reg == Int(0)
    ensures var r := Run({}, NotReturning, j, 0, s, fuel); r.Halt? ==> r.s.reg == Int(0)
  {
    var c := NotReturning;
    var s2 := Pass(s.(trace := s.trace + [Branch(0, true)]));
    hide FindForward, FindBackward, InTable, Taken, Wake, Do;
    NextLabel(c, 1, 0);
    assert Step({}, c, j, 0, s) == Go(1, s2);
    assert Step({}, c, j, 1, s2) == Go(2, Pass(s2));
    assert Step({}, c, j, 2, Pass(s2)) == Halt(Returned, Pass(s2));
    if fuel > 1 { assert Run({}, c, j, 1, s2, fuel - 1) == Run({}, c, j, 2, Pass(s2), fuel - 2); }
  }

  /** Code that forgets to return its number does not refine code that returns it, though a jump to the end lies between. */
  lemma DroppedReturnBreaks()
    ensures !Refines({}, Returning, NotReturning)
  {
    hide Run;
    var j, s := Junk((_, _) => Int(0)), St(map[1 := Int(5)], Int(0), [], map[], [], 0, None);
    ReturningRun(j, s);
    var end := Run({}, Returning, j, 0, s, 3).s;
    forall fuel: nat ensures var r := Run({}, NotReturning, j, 0, s, fuel); r.Halt? ==> r.s.reg == Int(0) { NotReturningRun(j, s, fuel); }
    assert !EndsLike({}, NotReturning, j, 0, s, Returned, end);
    assert !RefinesFrom({}, Returning, NotReturning, Start, j, s, 3);
  }
}
