/** Taking out an instruction that the one behind it makes superfluous. */
module Deletions {
  import opened Options
  import opened Bytecode
  import opened Encoding
  import opened Liveness
  import opened InstructionList
  import opened Conventions
  import opened Machine

  /** A pop before the return, the first of two suspends or line cues, and a jump to the label right behind it. */
  predicate Removable(nodes: seq<Node>, k: nat) {
    && k + 1 < |nodes|
    && var a, b := nodes[k].op, nodes[k + 1].op;
      || (a.PopPtr? && b.RET?)
      || (a.SUSPEND? && b.SUSPEND?)
      || (a.LINE? && b.LINE?)
      || (a.JMP? && b == LABEL(a.l))
  }

  function Without(nodes: seq<Node>, k: nat): seq<Node>
    requires k < |nodes|
  {
    nodes[..k] + nodes[k + 1..]
  }

  /** Where what was at p is afterwards; for k itself, where its successor is. */
  function Shift(k: nat, p: nat): nat {
    if p <= k then p else p - 1
  }

  // ---- Labels ----

  lemma ShiftAt(nodes: seq<Node>, k: nat, p: nat)
    requires k < |nodes| && p < |nodes| && p != k
    ensures Shift(k, p) < |Without(nodes, k)| && Without(nodes, k)[Shift(k, p)] == nodes[p]
  {
  }

  lemma {:induction false} LabelShift(nodes: seq<Node>, k: nat, p: nat, l: int)
    requires k < |nodes| && !nodes[k].op.LABEL? && p < |nodes| && p != k
    ensures var r := FindLabel(Ops(nodes), p, l);
      && r != Some(k)
      && FindLabel(Ops(Without(nodes, k)), Shift(k, p), l) == match r case Some(q) => Some(Shift(k, q)) case None => None
  {
    hide FindForward, FindBackward;
    ShiftAt(nodes, k, p);
    ForwardShift(nodes, k, p + 1, l);
    BackwardShift(nodes, k, p, l);
  }

  lemma LabelFrom(nodes: seq<Node>, k: nat, q: nat, l: int) returns (p: nat)
    requires k < |nodes| && q < |nodes| - 1 && Without(nodes, k)[q].op == LABEL(l)
    ensures p < |nodes| && p != k && Shift(k, p) == q && nodes[p].op == LABEL(l)
  {
    p := if q < k then q else q + 1;
  }

  lemma {:induction false} ForwardShift(nodes: seq<Node>, k: nat, i: nat, l: int)
    requires k < |nodes| && !nodes[k].op.LABEL?
    ensures var r := FindForward(Ops(nodes), i, l);
      && r != Some(k)
      && FindForward(Ops(Without(nodes, k)), Shift(k, i), l) == match r case Some(q) => Some(Shift(k, q)) case None => None
  {
    var r, r2 := FindForward(Ops(nodes), i, l), FindForward(Ops(Without(nodes, k)), Shift(k, i), l);
    if r.Some? { ShiftAt(nodes, k, r.value); }
    if r2.Some? { var p := LabelFrom(nodes, k, r2.value, l); }
  }

  lemma {:induction false} BackwardShift(nodes: seq<Node>, k: nat, i: nat, l: int)
    requires k < |nodes| && !nodes[k].op.LABEL? && i <= |nodes| && i != k
    ensures var r := FindBackward(Ops(nodes), i, l);
      && r != Some(k)
      && FindBackward(Ops(Without(nodes, k)), Shift(k, i), l) == match r case Some(q) => Some(Shift(k, q)) case None => None
  {
    var r, r2 := FindBackward(Ops(nodes), i, l), FindBackward(Ops(Without(nodes, k)), Shift(k, i), l);
    if r.Some? { ShiftAt(nodes, k, r.value); }
    if r2.Some? { var p := LabelFrom(nodes, k, r2.value, l); }
  }

  // ---- Runs ----

  /** No switch jumps past k from before it. */
  ghost predicate TablesSpare(nodes: seq<Node>, k: nat) {
    forall p: nat, n: int :: p < |nodes| && nodes[p].op.JMPP? && n <= nodes[p].max && Lands(Ops(nodes), p, n) ==> !(p < k <= p + n)
  }

  /** At the return behind a pop that was taken out, the stack may still hold what it would have popped. */
  ghost predicate AlikeAt(nodes: seq<Node>, k: nat, p: nat, s: St, t: St) {
    || Alike(s, t)
    || (p == k + 1 && k < |nodes| && nodes[k].op.PopPtr? && |t.stack| > 0 && Alike(s, t.(stack := t.stack[1..])))
  }

  /** The end of a run: what a return finds on its stack may lie deeper. */
  ghost predicate EndAlike(exit: Exit, s: St, t: St) {
    && (forall x :: Get(s.vars, x) == Get(t.vars, x)) && s.reg == t.reg && s.globals == t.globals
    && (if exit == Returned then exists n :: 0 <= n <= |t.stack| && t.stack[n..] == s.stack else s.stack == t.stack)
  }

  ghost predicate MatchedAt(nodes: seq<Node>, k: nat, r: Outcome, r2: Outcome) {
    match r
    case Go(q, s) => r2.Go? && r2.pc == Shift(k, q) && AlikeAt(nodes, k, q, s, r2.s)
    case Halt(e, s) => r2.Halt? && r2.exit == e && EndAlike(e, s, r2.s)
    case _ => true
  }

  lemma AlikeEnds(exit: Exit, s: St, t: St)
    requires Alike(s, t)
    ensures EndAlike(exit, s, t)
  {
    assert t.stack[0..] == s.stack;
  }

  /** The instruction itself does nothing that its successor would notice. */
  lemma SkipIt(temps: set<int>, nodes: seq<Node>, k: nat, s: St, t: St)
    requires Removable(nodes, k) && Alike(s, t) && MachineStep(temps, nodes, k, s) != Fault
    ensures MachineStep(temps, nodes, k, s).Go? && MachineStep(temps, nodes, k, s).pc == k + 1
    ensures AlikeAt(nodes, k, k + 1, MachineStep(temps, nodes, k, s).s, t)
  {
    var i := nodes[k].op;
    if i.JMP? {
      assert FindForward(Ops(nodes), k + 1, i.l) == Some(k + 1);
    }
  }

  lemma GotoWithout(temps: set<int>, nodes: seq<Node>, k: nat, p: nat, l: int, s: St, t: St)
    requires Removable(nodes, k) && p < |nodes| && p != k && Alike(s, t)
    ensures MatchedAt(nodes, k, Goto(Ops(nodes), p, l, s), Goto(Ops(Without(nodes, k)), Shift(k, p), l, t))
  {
    LabelShift(nodes, k, p, l);
    AlikeEnds(Left(l), s, t);
  }

  lemma SwitchWithout(temps: set<int>, nodes: seq<Node>, k: nat, p: nat, s: St, t: St)
    requires Removable(nodes, k) && TablesSpare(nodes, k) && p < |nodes| && p != k && nodes[p].op.JMPP? && Alike(s, t)
    ensures MatchedAt(nodes, k, MachineStep(temps, nodes, p, s), MachineStep(temps, Without(nodes, k), Shift(k, p), t))
  {
    ShiftAt(nodes, k, p);
    var v := nodes[p].op.v;
    if Get(s.vars, v).Int? {
      var n := Get(s.vars, v).n;
      if n <= nodes[p].max && Lands(Ops(nodes), p, n) { LandsWithout(nodes, k, p, n); }
    }
  }

  lemma LandsWithout(nodes: seq<Node>, k: nat, p: nat, n: int)
    requires Removable(nodes, k) && TablesSpare(nodes, k) && p < |nodes| && p != k && nodes[p].op.JMPP?
    requires n <= nodes[p].max && Lands(Ops(nodes), p, n)
    ensures Lands(Ops(Without(nodes, k)), Shift(k, p), n) && Shift(k, p) + 1 + n == Shift(k, p + 1 + n)
  {
    var c, c2, p2 := Ops(nodes), Ops(Without(nodes, k)), Shift(k, p);
    assert !(p < k <= p + n);
    forall j | p2 < j <= p2 + n ensures c2[j].JMP? {
      assert c[if j < k then j else j + 1].JMP?;
    }
  }

  /** Elsewhere both lists take the same step. */
  lemma StepWithout(temps: set<int>, nodes: seq<Node>, k: nat, p: nat, s: St, t: St)
    requires Removable(nodes, k) && TablesSpare(nodes, k) && p != k && p <= |nodes| && AlikeAt(nodes, k, p, s, t)
    ensures MatchedAt(nodes, k, MachineStep(temps, nodes, p, s), MachineStep(temps, Without(nodes, k), Shift(k, p), t))
  {
    hide TablesSpare, FindLabel, InTable, Lands, Do, Alike, EndAlike, Taken;
    var c := Ops(nodes);
    if p == |nodes| {
      AlikeEnds(FellOff, s, t);
    } else {
      ShiftAt(nodes, k, p);
      if c[p].RET? {
        ReturnsAlike(nodes, k, p, s, t);
      } else if c[p].JMP? {
        JumpWithout(temps, nodes, k, p, s, t);
      } else if c[p].Jump? {
        CondWithout(temps, nodes, k, p, s, t);
      } else if c[p].JMPP? {
        SwitchWithout(temps, nodes, k, p, s, t);
      } else if c[p].LABEL? {
        JumpedAlike(s, t, Switch(0));
        LabelWithout(temps, nodes, k, p, s, t);
      } else if c[p].SUSPEND? {
        SuspendWithout(temps, nodes, k, p, s, t);
      } else {
        DoWithout(temps, nodes, k, p, s, t);
      }
    }
  }

  lemma JumpWithout(temps: set<int>, nodes: seq<Node>, k: nat, p: nat, s: St, t: St)
    requires Removable(nodes, k) && p < |nodes| && p != k && nodes[p].op.JMP? && Alike(s, t)
    ensures MatchedAt(nodes, k, MachineStep(temps, nodes, p, s), MachineStep(temps, Without(nodes, k), Shift(k, p), t))
  {
    hide FindLabel, Alike, EndAlike;
    ShiftAt(nodes, k, p);
    var l := nodes[p].op.l;
    JumpedAlike(s, t, Branch(l, true));
    GotoWithout(temps, nodes, k, p, l, Jumped(s, Branch(l, true)), Jumped(t, Branch(l, true)));
    RealTransfer(temps, Ops(nodes), p, s);
    RealTransfer(temps, Ops(Without(nodes, k)), Shift(k, p), t);
  }

  lemma LabelWithout(temps: set<int>, nodes: seq<Node>, k: nat, p: nat, s: St, t: St)
    requires Removable(nodes, k) && p < |nodes| && p != k && nodes[p].op.LABEL? && Alike(s, t)
    requires Alike(s.(taken := None), t.(taken := None))
    ensures MatchedAt(nodes, k, MachineStep(temps, nodes, p, s), MachineStep(temps, Without(nodes, k), Shift(k, p), t))
  {
    hide Alike, EndAlike;
    ShiftAt(nodes, k, p);
    RealTransfer(temps, Ops(nodes), p, s);
    RealTransfer(temps, Ops(Without(nodes, k)), Shift(k, p), t);
  }

  lemma DoWithout(temps: set<int>, nodes: seq<Node>, k: nat, p: nat, s: St, t: St)
    requires Removable(nodes, k) && p < |nodes| && p != k && Straight(nodes[p].op) && Alike(s, t)
    ensures MatchedAt(nodes, k, MachineStep(temps, nodes, p, s), MachineStep(temps, Without(nodes, k), Shift(k, p), t))
  {
    hide Do, Alike, EndAlike;
    ShiftAt(nodes, k, p);
    if Do(temps, nodes[p].op, s).Some? { DoAlike(temps, nodes[p].op, s, t); }
  }

  lemma SuspendWithout(temps: set<int>, nodes: seq<Node>, k: nat, p: nat, s: St, t: St)
    requires Removable(nodes, k) && p < |nodes| && p != k && nodes[p].op.SUSPEND? && Alike(s, t)
    ensures MatchedAt(nodes, k, MachineStep(temps, nodes, p, s), MachineStep(temps, Without(nodes, k), Shift(k, p), t))
  {
    hide Alike, EndAlike;
    ShiftAt(nodes, k, p);
    SuspendAlike(temps, s, t);
    RealTransfer(temps, Ops(nodes), p, s);
    RealTransfer(temps, Ops(Without(nodes, k)), Shift(k, p), t);
  }

  lemma CondWithout(temps: set<int>, nodes: seq<Node>, k: nat, p: nat, s: St, t: St)
    requires Removable(nodes, k) && p < |nodes| && p != k && nodes[p].op.Jump? && Alike(s, t)
    ensures MatchedAt(nodes, k, MachineStep(temps, nodes, p, s), MachineStep(temps, Without(nodes, k), Shift(k, p), t))
  {
    hide FindLabel, Taken, Alike, EndAlike;
    ShiftAt(nodes, k, p);
    AlikeReg(s, t);
    var i := nodes[p].op;
    if s.reg.Int? {
      var b := Branch(i.l, Taken(i.cond, s.reg.n));
      JumpedAlike(s, t, b);
      GotoWithout(temps, nodes, k, p, i.l, Jumped(s, b), Jumped(t, b));
      RealTransfer(temps, Ops(nodes), p, s);
      RealTransfer(temps, Ops(Without(nodes, k)), Shift(k, p), t);
    }
  }

  lemma AlikeReg(s: St, t: St)
    requires Alike(s, t)
    ensures s.reg == t.reg
  {
  }

  lemma JumpedAlike(s: St, t: St, e: Event)
    requires Alike(s, t)
    ensures Alike(Jumped(s, e), Jumped(t, e)) && Alike(s.(taken := None), t.(taken := None))
  {
  }

  lemma SuspendAlike(temps: set<int>, s: St, t: St)
    requires Alike(s, t)
    ensures Alike(Woken(temps, s), Woken(temps, t))
  {
    KeptVars(temps, s);
    KeptVars(temps, t);
  }

  lemma KeptVars(temps: set<int>, s: St)
    ensures var m := s.vars + (map x | x in temps :: Keep(s).tmp(s.epoch, x)); forall x :: Get(m, x) == Get(s.vars, x)
  {
    var kept := map x | x in temps :: Keep(s).tmp(s.epoch, x);
    forall x ensures Get(s.vars + kept, x) == Get(s.vars, x) {
      if x in temps { assert (s.vars + kept)[x] == kept[x]; }
    }
  }

  lemma ReturnsAlike(nodes: seq<Node>, k: nat, p: nat, s: St, t: St)
    requires AlikeAt(nodes, k, p, s, t)
    ensures EndAlike(Returned, s, t)
  {
    if Alike(s, t) { AlikeEnds(Returned, s, t); }
  }

  ghost predicate MachineEnds(temps: set<int>, nodes: seq<Node>, p: nat, s: St, exit: Exit, end: St) {
    exists fuel: nat :: var r := MachineRun(temps, nodes, p, s, fuel); r.Halt? && r.exit == exit && EndAlike(exit, end, r.s)
  }

  lemma EndsAfter(temps: set<int>, nodes: seq<Node>, p: nat, s: St, q: nat, s1: St, exit: Exit, end: St)
    requires MachineStep(temps, nodes, p, s) == Go(q, s1) && MachineEnds(temps, nodes, q, s1, exit, end)
    ensures MachineEnds(temps, nodes, p, s, exit, end)
  {
    hide MachineStep, EndAlike;
    var fuel: nat :| var r := MachineRun(temps, nodes, q, s1, fuel); r.Halt? && r.exit == exit && EndAlike(exit, end, r.s);
    assert MachineRun(temps, nodes, p, s, fuel + 1) == MachineRun(temps, nodes, q, s1, fuel);
  }

  lemma {:induction false} RunWithout(temps: set<int>, nodes: seq<Node>, k: nat, p: nat, s: St, t: St, fuel: nat)
    requires Removable(nodes, k) && TablesSpare(nodes, k) && p <= |nodes| && AlikeAt(nodes, k, p, s, t) && (p == k ==> Alike(s, t))
    requires MachineRun(temps, nodes, p, s, fuel).Halt?
    ensures var r := MachineRun(temps, nodes, p, s, fuel); MachineEnds(temps, Without(nodes, k), Shift(k, p), t, r.exit, r.s)
    decreases fuel
  {
    hide MachineStep, TablesSpare, Removable, Alike, EndAlike;
    var r := MachineStep(temps, nodes, p, s);
    AtMostEnd(nodes, k);
    if p == k {
      SkipIt(temps, nodes, k, s, t);
      RunWithout(temps, nodes, k, k + 1, r.s, t, fuel - 1);
    } else {
      StepWithout(temps, nodes, k, p, s, t);
      var r2 := MachineStep(temps, Without(nodes, k), Shift(k, p), t);
      if r.Go? {
        StepsWithin(temps, nodes, p, s);
        NotMixed(nodes, k, r.pc, r.s, r2.s);
        RunWithout(temps, nodes, k, r.pc, r.s, r2.s, fuel - 1);
        var end := MachineRun(temps, nodes, r.pc, r.s, fuel - 1);
        EndsAfter(temps, Without(nodes, k), Shift(k, p), t, r2.pc, r2.s, end.exit, end.s);
      } else {
        assert MachineRun(temps, Without(nodes, k), Shift(k, p), t, 0) == r2;
      }
    }
  }

  lemma AtMostEnd(nodes: seq<Node>, k: nat)
    requires Removable(nodes, k)
    ensures k + 1 < |nodes|
  {
  }

  lemma NotMixed(nodes: seq<Node>, k: nat, p: nat, s: St, t: St)
    requires AlikeAt(nodes, k, p, s, t)
    ensures p == k ==> Alike(s, t)
  {
  }

  /** Execution stays within the list, or falls off its end. */
  lemma StepsWithin(temps: set<int>, nodes: seq<Node>, p: nat, s: St)
    requires p <= |nodes| && MachineStep(temps, nodes, p, s).Go?
    ensures p < |nodes| && MachineStep(temps, nodes, p, s).pc <= |nodes|
  {
    hide Do, Taken, InTable;
  }

  // ---- Stack depth ----

  /** q can be reached from p by one step. */
  predicate Moves(nodes: seq<Node>, p: nat, q: nat) {
    && p < |nodes| && q < |nodes|
    && match nodes[p].op
       case RET(_) => false
       case JMP(l) => FindLabel(Ops(nodes), p, l) == Some(q)
       case Jump(_, l) => q == p + 1 || FindLabel(Ops(nodes), p, l) == Some(q)
       case JMPP(_) => p < q <= p + 1 + nodes[p].max && forall j :: p < j < q ==> nodes[j].op.JMP?
       case _ => q == p + 1
  }

  /** h bounds the depth before every instruction, and largest that before and after. */
  ghost predicate Capped(nodes: seq<Node>, h: seq<int>, largest: int) {
    && |h| == |nodes| && (|h| > 0 ==> h[0] >= 0) && largest >= 0
    && (forall p: nat, q: nat :: Moves(nodes, p, q) ==> h[p] + nodes[p].stackInc <= h[q])
    && (forall p: nat :: p < |nodes| ==> h[p] <= largest && h[p] + nodes[p].stackInc <= largest)
  }

  /** The bounds once the instruction at k is gone: a return takes over that of the pop before it. */
  function CapsWithout(nodes: seq<Node>, h: seq<int>, k: nat): seq<int>
    requires k + 1 < |nodes| == |h|
  {
    if nodes[k].op.PopPtr? then h[..k + 1] + h[k + 2..] else h[..k] + h[k + 1..]
  }

  lemma CapAt(nodes: seq<Node>, h: seq<int>, k: nat, p: nat)
    requires k + 1 < |nodes| == |h| && p < |nodes| && p != k && !(p == k + 1 && nodes[k].op.PopPtr?)
    ensures CapsWithout(nodes, h, k)[Shift(k, p)] == h[p]
  {
  }

  /** A move in the shorter list is one in the longer, or two by way of the instruction taken out. */
  lemma MoveFrom(nodes: seq<Node>, k: nat, p: nat, q2: nat) returns (q: nat)
    requires Removable(nodes, k) && p < |nodes| && p != k && Moves(Without(nodes, k), Shift(k, p), q2)
    ensures q < |nodes| && Shift(k, q) == q2 && Moves(nodes, p, q)
  {
    ShiftAt(nodes, k, p);
    var p2, nodes2 := Shift(k, p), Without(nodes, k);
    match nodes[p].op
    case JMP(l) =>
      LabelShift(nodes, k, p, l);
      q := FindLabel(Ops(nodes), p, l).value;
    case Jump(_, l) =>
      LabelShift(nodes, k, p, l);
      q := if q2 == p2 + 1 then p + 1 else FindLabel(Ops(nodes), p, l).value;
    case JMPP(_) =>
      q := TableMoveFrom(nodes, k, p, q2);
    case _ => q := p + 1;
  }

  lemma TableMoveFrom(nodes: seq<Node>, k: nat, p: nat, q2: nat) returns (q: nat)
    requires Removable(nodes, k) && p < |nodes| && p != k && nodes[p].op.JMPP? && Moves(Without(nodes, k), Shift(k, p), q2)
    ensures q < |nodes| && Shift(k, q) == q2 && Moves(nodes, p, q)
  {
    ShiftAt(nodes, k, p);
    var p2, nodes2 := Shift(k, p), Without(nodes, k);
    q := p + (q2 - p2);
    assert nodes2[k] == nodes[k + 1];
    assert !nodes2[k].op.JMP?;
    forall j | p < j < q ensures nodes[j].op.JMP? {
      assert nodes2[j + p2 - p].op.JMP?;
    }
  }

  /** No depth rises. */
  lemma StaysCapped(nodes: seq<Node>, h: seq<int>, largest: int, k: nat)
    requires Capped(nodes, h, largest) && Removable(nodes, k) && nodes[k].stackInc == StackInc(nodes[k].op)
    requires nodes[k + 1].stackInc == StackInc(nodes[k + 1].op)
    ensures Capped(Without(nodes, k), CapsWithout(nodes, h, k), largest)
  {
    hide FindLabel;
    var nodes2, h2 := Without(nodes, k), CapsWithout(nodes, h, k);
    assert |h2| == |nodes2|;
    forall p2: nat, q2: nat | Moves(nodes2, p2, q2) ensures h2[p2] + nodes2[p2].stackInc <= h2[q2] {
      MoveCapped(nodes, h, largest, k, p2, q2);
    }
    forall p2: nat | p2 < |nodes2| ensures h2[p2] <= largest && h2[p2] + nodes2[p2].stackInc <= largest {
      var p := if p2 < k then p2 else p2 + 1;
      ShiftAt(nodes, k, p);
      if p == k + 1 && nodes[k].op.PopPtr? { assert h2[p2] == h[k]; } else { CapAt(nodes, h, k, p); }
    }
    FirstCap(nodes, h, largest, k);
  }

  lemma FirstCap(nodes: seq<Node>, h: seq<int>, largest: int, k: nat)
    requires Capped(nodes, h, largest) && Removable(nodes, k) && nodes[k].stackInc == StackInc(nodes[k].op)
    ensures CapsWithout(nodes, h, k)[0] >= 0
  {
    SkipMoves(nodes, k);
  }

  lemma SkipMoves(nodes: seq<Node>, k: nat)
    requires Removable(nodes, k)
    ensures Moves(nodes, k, k + 1)
  {
    if nodes[k].op.JMP? { assert FindForward(Ops(nodes), k + 1, nodes[k].op.l) == Some(k + 1); }
  }

  /** The return behind a pop is reached from there only. */
  lemma OneWayIn(nodes: seq<Node>, k: nat, p: nat)
    requires Removable(nodes, k)
    ensures nodes[k].op.PopPtr? && Moves(nodes, p, k + 1) ==> p == k
  {
  }

  lemma MoveCapped(nodes: seq<Node>, h: seq<int>, largest: int, k: nat, p2: nat, q2: nat)
    requires Capped(nodes, h, largest) && Removable(nodes, k) && nodes[k].stackInc == StackInc(nodes[k].op)
    requires Moves(Without(nodes, k), p2, q2)
    ensures var h2 := CapsWithout(nodes, h, k); h2[p2] + Without(nodes, k)[p2].stackInc <= h2[q2]
  {
    hide FindLabel;
    var nodes2, h2 := Without(nodes, k), CapsWithout(nodes, h, k);
    var p := if p2 < k then p2 else p2 + 1;
    ShiftAt(nodes, k, p);
    if p != k + 1 || !nodes[k].op.PopPtr? {
      CapAt(nodes, h, k, p);
      var q := MoveFrom(nodes, k, p, q2);
      SkipMoves(nodes, k);
      if q == k {
        if !nodes[k].op.PopPtr? { CapAt(nodes, h, k, k + 1); }
      } else {
        OneWayIn(nodes, k, p);
        CapAt(nodes, h, k, q);
      }
    }
  }
}
