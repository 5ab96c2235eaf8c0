/** The virtual machine on a finished list: nothing is forgotten, and a switch jumps by distance into what follows it. */
module Machine {
  import opened Options
  import opened Bytecode
  import opened Liveness
  import opened InstructionList
  import opened Conventions

  /** n entries of two dwords lie between the switch and where it jumps to. */
  predicate Lands(c: seq<Instr>, p: nat, n: int) {
    0 <= n && p + 1 + n < |c| && forall k :: p < k <= p + n ==> c[k].JMP?
  }

  /** The compiler guards a switch, so that the index does not exceed max. */
  function MachineStep(temps: set<int>, nodes: seq<Node>, pc: nat, s: St): Outcome {
    var c := Ops(nodes);
    if pc < |c| && c[pc].JMPP? then
      match Get(s.vars, c[pc].v)
      case Int(n) =>
        if n <= nodes[pc].max && Lands(c, pc, n) then Go(pc + 1 + n, s.(trace := s.trace + [Switch(n)], taken := None)) else Fault
      case _ => Fault
    else RealStep(temps, c, pc, s)
  }

  function MachineRun(temps: set<int>, nodes: seq<Node>, pc: nat, s: St, fuel: nat): Outcome
    decreases fuel
  {
    match MachineStep(temps, nodes, pc, s)
    case Go(q, s1) => if fuel == 0 then Timeout else MachineRun(temps, nodes, q, s1, fuel - 1)
    case r => r
  }

  /** The table of the switch at p: max + 1 jumps, and then a label, or nothing. */
  predicate FullTable(nodes: seq<Node>, p: nat)
    requires p < |nodes|
  {
    var end := p + 2 + nodes[p].max;
    end <= |nodes| && (end < |nodes| ==> nodes[end].op.LABEL?) && forall k :: p < k < end ==> nodes[k].op.JMP?
  }

  ghost predicate FullTables(nodes: seq<Node>) {
    forall p: nat :: p < |nodes| && nodes[p].op.JMPP? ==> FullTable(nodes, p)
  }

  /** With full tables this is the machine of the labels. */
  lemma StepIsReal(temps: set<int>, nodes: seq<Node>, pc: nat, s: St)
    requires FullTables(nodes)
    ensures MachineStep(temps, nodes, pc, s) == RealStep(temps, Ops(nodes), pc, s)
  {
    if pc < |nodes| && nodes[pc].op.JMPP? {
      assert FullTable(nodes, pc);
      if Get(s.vars, nodes[pc].op.v).Int? {
        var n := Get(s.vars, nodes[pc].op.v).n;
        TableOrNot(nodes, pc, n);
      }
    }
  }

  lemma TableOrNot(nodes: seq<Node>, p: nat, n: int)
    requires p < |nodes| && FullTable(nodes, p)
    ensures InTable(Ops(nodes), p, n) <==> n <= nodes[p].max && Lands(Ops(nodes), p, n)
  {
    var c, end := Ops(nodes), p + 2 + nodes[p].max;
    assert end < |c| ==> !c[end].JMP?;
  }

  lemma {:induction false} RunIsRealRun(temps: set<int>, nodes: seq<Node>, pc: nat, s: St, fuel: nat)
    requires FullTables(nodes)
    ensures MachineRun(temps, nodes, pc, s, fuel) == RealRun(temps, Ops(nodes), pc, s, fuel)
    decreases fuel
  {
    hide MachineStep, RealStep, FullTables;
    StepIsReal(temps, nodes, pc, s);
    var r := MachineStep(temps, nodes, pc, s);
    if r.Go? && fuel > 0 { RunIsRealRun(temps, nodes, r.pc, r.s, fuel - 1); }
  }

  // ---- States that only differ in their history ----

  /** Equal but for the trace, the epoch, and that t may follow an address where s may not. */
  ghost predicate Alike(s: St, t: St) {
    && (forall x :: Get(s.vars, x) == Get(t.vars, x))
    && s.reg == t.reg && s.stack == t.stack && s.globals == t.globals
    && (s.taken.Some? ==> t.taken == s.taken)
  }

  lemma DoHistory(temps: set<int>, i: Instr, s: St, trace: seq<Event>, epoch: nat)
    requires Straight(i)
    ensures Do(temps, i, s.(trace := trace, epoch := epoch)) ==
      match Do(temps, i, s) case Some(s1) => Some(s1.(trace := trace, epoch := epoch)) case None => None
  {
    hide Do;
    if Target(i).Some? { TargetHistory(temps, i, s, trace, epoch); }
    else if OnStack(i) { StackHistory(temps, i, s, trace, epoch); }
    else { OtherHistory(temps, i, s, trace, epoch); }
  }

  lemma TargetHistory(temps: set<int>, i: Instr, s: St, trace: seq<Event>, epoch: nat)
    requires Straight(i) && Target(i).Some?
    ensures Do(temps, i, s.(trace := trace, epoch := epoch)) ==
      match Do(temps, i, s) case Some(s1) => Some(s1.(trace := trace, epoch := epoch)) case None => None
  {
    hide Wrap, Calc;
  }

  lemma StackHistory(temps: set<int>, i: Instr, s: St, trace: seq<Event>, epoch: nat)
    requires OnStack(i)
    ensures Do(temps, i, s.(trace := trace, epoch := epoch)) ==
      match Do(temps, i, s) case Some(s1) => Some(s1.(trace := trace, epoch := epoch)) case None => None
  {
    hide Wrap;
  }

  lemma OtherHistory(temps: set<int>, i: Instr, s: St, trace: seq<Event>, epoch: nat)
    requires Straight(i) && Target(i).None? && !OnStack(i)
    ensures Do(temps, i, s.(trace := trace, epoch := epoch)) ==
      match Do(temps, i, s) case Some(s1) => Some(s1.(trace := trace, epoch := epoch)) case None => None
  {
    hide Wrap, Passes, Compare;
  }

  lemma DoAlike(temps: set<int>, i: Instr, s: St, t: St)
    requires Straight(i) && Alike(s, t) && Do(temps, i, s).Some?
    ensures Do(temps, i, t).Some? && Alike(Do(temps, i, s).value, Do(temps, i, t).value)
  {
    hide Do, IsTempVarReadByInstr, ReadsReg;
    var u := t.(trace := s.trace, epoch := s.epoch);
    DoSim(temps, i, s, u);
    DoHistory(temps, i, t, s.trace, s.epoch);
  }
}
