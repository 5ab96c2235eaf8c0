/** The machine on the dwords it is given: what it decodes at its position it does, and goes on from there. */
module Execution {
  import opened Options
  import opened Bytecode
  import opened Encoding
  import opened Liveness
  import opened InstructionList
  import opened Conventions
  import opened Machine
  import opened Linker

  function To(pc: int, s: St): Outcome { if pc >= 0 then Go(pc, s) else Fault }

  /** A jump is relative to the instruction behind it, a switch in steps of two dwords to the one behind it. */
  function WordStep(temps: set<int>, a: seq<int>, pc: nat, s: St): Outcome {
    if pc >= |a| then Halt(FellOff, s) else
      match Decode(a, pc)
      case None => Fault
      case Some(i) => Perform(temps, i, pc, s)
  }

  function Perform(temps: set<int>, i: Instr, pc: nat, s: St): Outcome {
    match i
    case RET(_) => Halt(Returned, s)
    case JMP(d) => To(pc + 2 + d, s.(taken := None))
    case Jump(cond, d) =>
      (match s.reg
       case Int(n) => To(if Taken(cond, n) then pc + 2 + d else pc + 2, s.(taken := None))
       case _ => Fault)
    case JMPP(v) => (match Get(s.vars, v) case Int(n) => To(pc + 1 + 2 * n, s.(taken := None)) case _ => Fault)
    case SUSPEND => Go(pc + 1, Woken(temps, s))
    case LABEL(_) => Fault
    case _ => match Do(temps, i, s) case Some(s1) => Go(pc + SizeOf(i), s1) case None => Fault
  }

  function WordRun(temps: set<int>, a: seq<int>, pc: nat, s: St, fuel: nat): Outcome
    decreases fuel
  {
    match WordStep(temps, a, pc, s)
    case Go(q, s1) => if fuel == 0 then Timeout else WordRun(temps, a, q, s1, fuel - 1)
    case r => r
  }

  /** a holds what was made of the list: jumps resolved, labels gone, line cues turned into suspends or gone too. */
  ghost predicate Laid(nodes: seq<Node>, resolved: seq<Node>, withoutCues: bool, a: seq<int>) {
    && Tabled(nodes, withoutCues) && IsResolved(nodes, resolved) && Emitted(Extracted(resolved, withoutCues, |resolved|), a)
    && |a| == Pos(nodes, |nodes|) && forall i: nat :: i < |nodes| ==> Found(nodes, i)
  }

  /** A step of the list and the step of the dwords that goes with it. */
  ghost predicate SameStep(nodes: seq<Node>, r: Outcome, r2: Outcome) {
    match r
    case Go(q, s) => q <= |nodes| && r2.Go? && r2.pc == Pos(nodes, q) && Alike(s, r2.s)
    case Halt(e, s) => r2.Halt? && r2.exit == e && Alike(s, r2.s)
    case _ => true
  }

  lemma SizeAt(nodes: seq<Node>, withoutCues: bool, p: nat)
    requires Tabled(nodes, withoutCues) && p < |nodes|
    ensures nodes[p].size == if nodes[p].op.LINE? then (if withoutCues then 0 else 1) else SizeOf(nodes[p].op)
    ensures nodes[p].op.LABEL? ==> nodes[p].size == 0
    ensures !nodes[p].op.LABEL? && !nodes[p].op.LINE? ==> nodes[p].size > 0
    ensures nodes[p].op.JMP? || nodes[p].op.Jump? ==> nodes[p].size == 2
    ensures nodes[p].op.SUSPEND? ==> nodes[p].size == 1
    ensures Pos(nodes, p + 1) == Pos(nodes, p) + nodes[p].size
  {
    hide SizeOf;
    assert nodes[p] in nodes;
    SizeIs(nodes[p].op);
    SizePositive(nodes[p].op);
  }

  lemma SizePositive(i: Instr)
    ensures !i.LABEL? && !i.LINE? ==> SizeOf(i) > 0
  {
  }

  /** What takes up space is found there. */
  lemma Decodes(nodes: seq<Node>, resolved: seq<Node>, withoutCues: bool, a: seq<int>, p: nat)
    requires Laid(nodes, resolved, withoutCues, a) && p < |nodes| && nodes[p].size > 0
    ensures Pos(nodes, p) < |a| && Decode(a, Pos(nodes, p)) == Some(Cued(ResolvedAt(nodes, p)).op)
  {
    hide Decode, Extracted, Emitted, SizeOf, Pos, Tabled, ResolvedAt;
    SizeAt(nodes, withoutCues, p);
    TabledLines(nodes, withoutCues);
    InstrLands(nodes, resolved, withoutCues, a, p);
    PosMonotone(nodes, p + 1, |nodes|);
    assert resolved[p] == ResolvedAt(nodes, p);
  }

  lemma JumpFinds(nodes: seq<Node>, p: nat)
    requires p < |nodes| && Found(nodes, p) && JumpLabel(nodes[p].op).Some?
    ensures var l := JumpLabel(nodes[p].op).value; var t := FindLabel(Ops(nodes), p, l);
      t.Some? && ResolvedAt(nodes, p).op == SetLabel(nodes[p].op, Distance(nodes, p, t.value))
  {
    hide FindLabel, Distance;
  }

  lemma GotoStep(temps: set<int>, nodes: seq<Node>, resolved: seq<Node>, withoutCues: bool, a: seq<int>, p: nat, s: St, t: St)
    requires Laid(nodes, resolved, withoutCues, a) && p < |nodes| && nodes[p].op.JMP? && Alike(s, t)
    ensures SameStep(nodes, MachineStep(temps, nodes, p, s), WordStep(temps, a, Pos(nodes, p), t))
  {
    hide FindLabel, Decode, Extracted, Emitted, SizeOf, Pos, Taken, Tabled, Found, MachineStep;
    SizeAt(nodes, withoutCues, p);
    Decodes(nodes, resolved, withoutCues, a, p);
    JumpFinds(nodes, p);
    JumpDoes(temps, nodes, p, s);
  }

  lemma CondStep(temps: set<int>, nodes: seq<Node>, resolved: seq<Node>, withoutCues: bool, a: seq<int>, p: nat, s: St, t: St)
    requires Laid(nodes, resolved, withoutCues, a) && p < |nodes| && nodes[p].op.Jump? && Alike(s, t)
    ensures SameStep(nodes, MachineStep(temps, nodes, p, s), WordStep(temps, a, Pos(nodes, p), t))
  {
    hide FindLabel, Decode, Extracted, Emitted, SizeOf, Pos, Taken, Tabled, Found, MachineStep;
    SizeAt(nodes, withoutCues, p);
    Decodes(nodes, resolved, withoutCues, a, p);
    JumpFinds(nodes, p);
    JumpDoes(temps, nodes, p, s);
  }

  lemma JumpDoes(temps: set<int>, nodes: seq<Node>, p: nat, s: St)
    requires p < |nodes| && (nodes[p].op.JMP? || nodes[p].op.Jump?)
    ensures match nodes[p].op
      case JMP(l) => MachineStep(temps, nodes, p, s) == Goto(Ops(nodes), p, l, Jumped(s, Branch(l, true)))
      case Jump(cond, l) =>
        if s.reg.Int? then
          var s1 := Jumped(s, Branch(l, Taken(cond, s.reg.n)));
          MachineStep(temps, nodes, p, s) == if Taken(cond, s.reg.n) then Goto(Ops(nodes), p, l, s1) else Go(p + 1, s1)
        else MachineStep(temps, nodes, p, s) == Fault
      case _ => true
  {
    hide FindLabel, Taken;
    RealTransfer(temps, Ops(nodes), p, s);
  }

  lemma SwitchStep(temps: set<int>, nodes: seq<Node>, resolved: seq<Node>, withoutCues: bool, a: seq<int>, p: nat, s: St, t: St)
    requires Laid(nodes, resolved, withoutCues, a) && p < |nodes| && nodes[p].op.JMPP? && Alike(s, t)
    ensures SameStep(nodes, MachineStep(temps, nodes, p, s), WordStep(temps, a, Pos(nodes, p), t))
  {
    hide Decode, Extracted, Emitted, SizeOf, Pos, Tabled, Found;
    SizeAt(nodes, withoutCues, p);
    Decodes(nodes, resolved, withoutCues, a, p);
    if Get(s.vars, nodes[p].op.v).Int? {
      var n := Get(s.vars, nodes[p].op.v).n;
      if n <= nodes[p].max && Lands(Ops(nodes), p, n) {
        forall i | p < i <= p + n ensures nodes[i].op.JMP? { assert Ops(nodes)[i].JMP?; }
        SwitchLands(nodes, resolved, withoutCues, a, p, n);
      }
    }
  }

  lemma DoStep(temps: set<int>, nodes: seq<Node>, resolved: seq<Node>, withoutCues: bool, a: seq<int>, p: nat, s: St, t: St)
    requires Laid(nodes, resolved, withoutCues, a) && p < |nodes| && Straight(nodes[p].op) && !nodes[p].op.LINE? && Alike(s, t)
    ensures SameStep(nodes, MachineStep(temps, nodes, p, s), WordStep(temps, a, Pos(nodes, p), t))
  {
    hide Decode, Extracted, Emitted, SizeOf, Pos, Tabled, Found, Do, Alike;
    SizeAt(nodes, withoutCues, p);
    Decodes(nodes, resolved, withoutCues, a, p);
    if Do(temps, nodes[p].op, s).Some? { DoAlike(temps, nodes[p].op, s, t); }
  }

  /** A cue is nothing to the list, and a suspend, which wakes to the same state, to the dwords. */
  lemma CueStep(temps: set<int>, nodes: seq<Node>, resolved: seq<Node>, a: seq<int>, p: nat, s: St, t: St)
    requires Laid(nodes, resolved, false, a) && p < |nodes| && nodes[p].op.LINE? && Alike(s, t)
    ensures SameStep(nodes, MachineStep(temps, nodes, p, s), WordStep(temps, a, Pos(nodes, p), t))
  {
    hide Decode, Extracted, Emitted, SizeOf, Pos, Tabled, Found;
    hide MachineStep, Woken;
    SizeAt(nodes, false, p);
    Decodes(nodes, resolved, false, a, p);
    CueDoes(temps, nodes, p, s);
    WokenAlike(temps, t);
  }

  lemma CueDoes(temps: set<int>, nodes: seq<Node>, p: nat, s: St)
    requires p < |nodes| && nodes[p].op.LINE?
    ensures MachineStep(temps, nodes, p, s) == Go(p + 1, s.(taken := None))
  {
  }

  lemma SuspendStep(temps: set<int>, nodes: seq<Node>, resolved: seq<Node>, withoutCues: bool, a: seq<int>, p: nat, s: St, t: St)
    requires Laid(nodes, resolved, withoutCues, a) && p < |nodes| && nodes[p].op.SUSPEND? && Alike(s, t)
    ensures SameStep(nodes, MachineStep(temps, nodes, p, s), WordStep(temps, a, Pos(nodes, p), t))
  {
    hide Decode, Extracted, Emitted, SizeOf, Pos, Tabled, Found, Woken;
    SizeAt(nodes, withoutCues, p);
    Decodes(nodes, resolved, withoutCues, a, p);
    RealTransfer(temps, Ops(nodes), p, s);
    WokenAlike(temps, s);
    WokenAlike(temps, t);
  }

  lemma WokenAlike(temps: set<int>, s: St)
    ensures var w := Woken(temps, s);
      && (forall x :: Get(w.vars, x) == Get(s.vars, x)) && w.reg == s.reg && w.stack == s.stack && w.globals == s.globals && w.taken == None
  {
    var kept := map x | x in temps :: Keep(s).tmp(s.epoch, x);
    forall x ensures Get(s.vars + kept, x) == Get(s.vars, x) {
      if x in temps { assert (s.vars + kept)[x] == kept[x]; }
    }
  }

  lemma ReturnStep(temps: set<int>, nodes: seq<Node>, resolved: seq<Node>, withoutCues: bool, a: seq<int>, p: nat, s: St, t: St)
    requires Laid(nodes, resolved, withoutCues, a) && p < |nodes| && nodes[p].op.RET? && Alike(s, t)
    ensures SameStep(nodes, MachineStep(temps, nodes, p, s), WordStep(temps, a, Pos(nodes, p), t))
  {
    hide Decode, Extracted, Emitted, SizeOf, Pos, Tabled, Found, Alike;
    SizeAt(nodes, withoutCues, p);
    Decodes(nodes, resolved, withoutCues, a, p);
  }

  /** What takes up no space does nothing that the dwords would notice. */
  lemma NoSpace(temps: set<int>, nodes: seq<Node>, withoutCues: bool, p: nat, s: St, t: St)
    requires Tabled(nodes, withoutCues) && p < |nodes| && nodes[p].size == 0 && Alike(s, t)
    ensures var r := MachineStep(temps, nodes, p, s); r.Go? && r.pc == p + 1 && Alike(r.s, t) && Pos(nodes, p + 1) == Pos(nodes, p)
  {
    hide SizeOf, Pos, Tabled;
    SizeAt(nodes, withoutCues, p);
    if nodes[p].op.LABEL? { RealTransfer(temps, Ops(nodes), p, s); }
  }

  lemma StepLaid(temps: set<int>, nodes: seq<Node>, resolved: seq<Node>, withoutCues: bool, a: seq<int>, p: nat, s: St, t: St)
    requires Laid(nodes, resolved, withoutCues, a) && p < |nodes| && nodes[p].size > 0 && Alike(s, t)
    ensures SameStep(nodes, MachineStep(temps, nodes, p, s), WordStep(temps, a, Pos(nodes, p), t))
  {
    hide MachineStep, WordStep, SameStep, Alike, SizeOf, Pos;
    SizeAt(nodes, withoutCues, p);
    var i := nodes[p].op;
    if i.JMP? { GotoStep(temps, nodes, resolved, withoutCues, a, p, s, t); }
    else if i.Jump? { CondStep(temps, nodes, resolved, withoutCues, a, p, s, t); }
    else if i.JMPP? { SwitchStep(temps, nodes, resolved, withoutCues, a, p, s, t); }
    else if i.SUSPEND? { SuspendStep(temps, nodes, resolved, withoutCues, a, p, s, t); }
    else if i.RET? { ReturnStep(temps, nodes, resolved, withoutCues, a, p, s, t); }
    else if i.LINE? { CueStep(temps, nodes, resolved, a, p, s, t); }
    else { DoStep(temps, nodes, resolved, withoutCues, a, p, s, t); }
  }

  ghost predicate WordsEnd(temps: set<int>, a: seq<int>, pc: nat, s: St, exit: Exit, end: St) {
    exists fuel: nat :: var r := WordRun(temps, a, pc, s, fuel); r.Halt? && r.exit == exit && Alike(end, r.s)
  }

  lemma EndsAfterWord(temps: set<int>, a: seq<int>, pc: nat, s: St, q: nat, s1: St, exit: Exit, end: St)
    requires WordStep(temps, a, pc, s) == Go(q, s1) && WordsEnd(temps, a, q, s1, exit, end)
    ensures WordsEnd(temps, a, pc, s, exit, end)
  {
    hide WordStep, Alike;
    var fuel: nat :| var r := WordRun(temps, a, q, s1, fuel); r.Halt? && r.exit == exit && Alike(end, r.s);
    assert WordRun(temps, a, pc, s, fuel + 1) == WordRun(temps, a, q, s1, fuel);
  }

  /** A run of the list that ends is followed by the dwords, instruction for instruction, to the same end. */
  lemma {:induction false} RunLaid(temps: set<int>, nodes: seq<Node>, resolved: seq<Node>, withoutCues: bool, a: seq<int>, p: nat, s: St, t: St, fuel: nat)
    requires Laid(nodes, resolved, withoutCues, a) && p <= |nodes| && Alike(s, t) && MachineRun(temps, nodes, p, s, fuel).Halt?
    ensures var r := MachineRun(temps, nodes, p, s, fuel); WordsEnd(temps, a, Pos(nodes, p), t, r.exit, r.s)
    decreases fuel
  {
    hide MachineStep, WordStep, Alike, Pos, Tabled, Emitted, Extracted, Found;
    var r := MachineStep(temps, nodes, p, s);
    if p == |nodes| {
      AtTheEnd(temps, nodes, a, s, t);
      assert WordRun(temps, a, Pos(nodes, p), t, 0) == Halt(FellOff, t);
    } else if nodes[p].size == 0 {
      NoSpace(temps, nodes, withoutCues, p, s, t);
      RunLaid(temps, nodes, resolved, withoutCues, a, p + 1, r.s, t, fuel - 1);
    } else {
      StepLaid(temps, nodes, resolved, withoutCues, a, p, s, t);
      var r2 := WordStep(temps, a, Pos(nodes, p), t);
      if r.Go? {
        RunLaid(temps, nodes, resolved, withoutCues, a, r.pc, r.s, r2.s, fuel - 1);
        var end := MachineRun(temps, nodes, r.pc, r.s, fuel - 1);
        EndsAfterWord(temps, a, Pos(nodes, p), t, r2.pc, r2.s, end.exit, end.s);
      } else {
        assert WordRun(temps, a, Pos(nodes, p), t, 0) == r2;
      }
    }
  }

  lemma AtTheEnd(temps: set<int>, nodes: seq<Node>, a: seq<int>, s: St, t: St)
    requires |a| == Pos(nodes, |nodes|)
    ensures MachineStep(temps, nodes, |nodes|, s) == Halt(FellOff, s) && WordStep(temps, a, Pos(nodes, |nodes|), t) == Halt(FellOff, t)
  {
  }
}
