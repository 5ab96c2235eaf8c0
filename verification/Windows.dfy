/** Replacing a stretch of instructions by another: when that preserves every run of the whole list. */
module Windows {
  import opened Options
  import opened Bytecode
  import opened Liveness

  /** Straight-line execution. */
  function Exec(temps: set<int>, w: seq<Instr>, s: St): Option<St> {
    if w == [] then Some(s) else
      match Do(temps, w[0], s) case Some(s1) => Exec(temps, w[1..], s1) case None => None
  }

  predicate AllStraight(w: seq<Instr>) {
    forall k :: 0 <= k < |w| ==> Straight(w[k])
  }

  /** What the compiler emits for a switch: the JMPP, its table of JMPs, and then a label. */
  ghost predicate TablesClosed(c: seq<Instr>) {
    forall p :: 0 <= p < |c| && c[p].JMPP? ==> TableEnd(c, p)
  }

  ghost predicate TableEnd(c: seq<Instr>, p: nat) {
    exists q :: p < q < |c| && c[q].LABEL? && forall k :: p < k < q ==> c[k].JMP?
  }

  /** The list pre + w + post becomes pre + w2 + post. */
  datatype Edit = Edit(pre: seq<Instr>, w: seq<Instr>, w2: seq<Instr>, post: seq<Instr>) {
    function Before(): seq<Instr> { pre + w + post }
    function After(): seq<Instr> { pre + w2 + post }

    /** Positions outside the stretch, its start included. */
    predicate Outside(p: int) { p <= |pre| || p >= |pre| + |w| }

    function Map(p: nat): nat
      requires Outside(p)
    {
      if p <= |pre| then p else p - |w| + |w2|
    }

    function MapOption(r: Option<nat>): Option<nat>
      requires r.Some? ==> Outside(r.value)
    {
      match r case Some(p) => Some(Map(p)) case None => None
    }

    predicate NoLabels() {
      && |w| > 0
      && (forall k :: 0 <= k < |w| ==> !w[k].LABEL? && !w[k].JMP? && !w[k].JMPP?)
      && (forall k :: 0 <= k < |w2| ==> !w2[k].LABEL? && !w2[k].JMP? && !w2[k].JMPP?)
    }
  }

  lemma MapAt(e: Edit, p: nat)
    requires e.NoLabels() && p < |e.Before()| && (p < |e.pre| || p >= |e.pre| + |e.w|)
    ensures e.Map(p) < |e.After()| && e.After()[e.Map(p)] == e.Before()[p]
  {
  }

  /** Every label of the new list comes from one of the old list. */
  lemma LabelFrom(e: Edit, q: nat, l: int) returns (p: nat)
    requires e.NoLabels() && q < |e.After()| && e.After()[q] == LABEL(l)
    ensures p < |e.Before()| && (p < |e.pre| || p >= |e.pre| + |e.w|) && e.Map(p) == q && e.Before()[p] == LABEL(l)
  {
    if q < |e.pre| {
      p := q;
    } else {
      assert q >= |e.pre| + |e.w2|;
      p := q - |e.w2| + |e.w|;
    }
  }

  lemma LabelOutside(e: Edit, p: nat)
    requires e.NoLabels() && p < |e.Before()| && e.Before()[p].LABEL?
    ensures p < |e.pre| || p >= |e.pre| + |e.w|
  {
  }

  lemma ForwardMap(e: Edit, i: nat, i2: nat, l: int)
    requires e.NoLabels()
    requires (i <= |e.pre| && i2 == i) || (i >= |e.pre| + |e.w| && i2 == i - |e.w| + |e.w2|)
    ensures var r := FindForward(e.Before(), i, l);
      && (r.Some? ==> e.Outside(r.value) && r.value != |e.pre|)
      && FindForward(e.After(), i2, l) == e.MapOption(r)
  {
    var r, r2 := FindForward(e.Before(), i, l), FindForward(e.After(), i2, l);
    if r.Some? {
      LabelOutside(e, r.value);
      MapAt(e, r.value);
    }
    if r2.Some? {
      var p := LabelFrom(e, r2.value, l);
    }
  }

  lemma BackwardMap(e: Edit, i: nat, i2: nat, l: int)
    requires e.NoLabels() && i <= |e.Before()| && i2 <= |e.After()|
    requires (i <= |e.pre| && i2 == i) || (i >= |e.pre| + |e.w| && i2 == i - |e.w| + |e.w2|)
          || (|e.pre| <= i <= |e.pre| + |e.w| && |e.pre| <= i2 <= |e.pre| + |e.w2|)
    ensures var r := FindBackward(e.Before(), i, l);
      && (r.Some? ==> e.Outside(r.value) && r.value != |e.pre|)
      && FindBackward(e.After(), i2, l) == e.MapOption(r)
  {
    var r, r2 := FindBackward(e.Before(), i, l), FindBackward(e.After(), i2, l);
    if r.Some? {
      LabelOutside(e, r.value);
      MapAt(e, r.value);
    }
    if r2.Some? {
      var p := LabelFrom(e, r2.value, l);
    }
  }

  /** Jumps before, after, and at the end of the stretch reach corresponding labels. */
  lemma LabelMap(e: Edit, p: nat, p2: nat, l: int)
    requires e.NoLabels() && p < |e.Before()| && p2 < |e.After()|
    requires (p < |e.pre| && p2 == p) || (p >= |e.pre| + |e.w| && p2 == e.Map(p))
          || (|e.w2| > 0 && p == |e.pre| + |e.w| - 1 && p2 == |e.pre| + |e.w2| - 1)
    ensures var r := FindLabel(e.Before(), p, l);
      && (r.Some? ==> e.Outside(r.value) && r.value != |e.pre|)
      && FindLabel(e.After(), p2, l) == e.MapOption(r)
  {
    ForwardMap(e, p + 1, p2 + 1, l);
    BackwardMap(e, p, p2, l);
  }

  /** A switch and its table lie wholly before or wholly after the stretch. */
  lemma TableOneSide(e: Edit, p: nat, q: nat)
    requires e.NoLabels() && p < q < |e.Before()| && e.Before()[p].JMPP? && e.Before()[q].LABEL?
    requires forall k :: p < k < q ==> e.Before()[k].JMP?
    ensures q < |e.pre| || p >= |e.pre| + |e.w|
  {
    assert forall k :: |e.pre| <= k < |e.pre| + |e.w| ==> e.Before()[k] == e.w[k - |e.pre|];
    assert e.Before()[|e.pre|] == e.w[0];
  }

  lemma TablesStayClosed(e: Edit)
    requires e.NoLabels() && TablesClosed(e.Before())
    ensures TablesClosed(e.After())
  {
    var c, c2 := e.Before(), e.After();
    forall p2 | 0 <= p2 < |c2| && c2[p2].JMPP? ensures TableEnd(c2, p2) {
      assert forall k :: |e.pre| <= k < |e.pre| + |e.w2| ==> c2[k] == e.w2[k - |e.pre|];
      var p: nat := if p2 < |e.pre| then p2 else p2 - |e.w2| + |e.w|;
      assert c[p] == c2[p2];
      assert TableEnd(c, p);
      var q :| p < q < |c| && c[q].LABEL? && forall k :: p < k < q ==> c[k].JMP?;
      TableOneSide(e, p, q);
      var q2 := e.Map(q);
      MapAt(e, q);
      forall k2 | p2 < k2 < q2 ensures c2[k2].JMP? {
        var k := k2 + (p - p2);
        assert c[k] == c2[k2];
      }
      assert c2[q2].LABEL?;
    }
  }

  // ---- Steps outside the stretch ----

  lemma TableMap(e: Edit, p: nat, n: int)
    requires e.NoLabels() && TablesClosed(e.Before()) && p < |e.Before()| && e.Before()[p].JMPP?
    requires p < |e.pre| || p >= |e.pre| + |e.w|
    ensures InTable(e.Before(), p, n) ==>
      e.Outside(p + 1 + n) && p + 1 + n != |e.pre| && InTable(e.After(), e.Map(p), n) && e.Map(p + 1 + n) == e.Map(p) + 1 + n
  {
    var c, c2 := e.Before(), e.After();
    assert TableEnd(c, p);
    var q :| p < q < |c| && c[q].LABEL? && forall k :: p < k < q ==> c[k].JMP?;
    TableOneSide(e, p, q);
    if InTable(c, p, n) {
      assert !c[q].JMP?;
      var d := e.Map(p) - p;
      forall k | e.Map(p) + 1 <= k <= e.Map(p) + 1 + n ensures c2[k].JMP? {
        assert c[k - d].JMP?;
        assert c2[k] == c[k - d];
      }
    }
  }

  /** An instruction outside the stretch does the same in both lists. */
  ghost predicate StepsAlike(e: Edit, r: Outcome, r2: Outcome) {
    match r
    case Go(q, s1) => e.Outside(q) && r2 == Go(e.Map(q), s1)
    case Fault => true
    case _ => r2 == r
  }

  lemma StepMap(temps: set<int>, e: Edit, j: Junk, p: nat, s: St)
    requires e.NoLabels() && TablesClosed(e.Before())
    requires p < |e.pre| || p >= |e.pre| + |e.w|
    ensures StepsAlike(e, Step(temps, e.Before(), j, p, s), Step(temps, e.After(), j, e.Map(p), s))
  {
    hide Do, FindLabel, InTable, Taken, TablesClosed, Pass, Part, Wake;
    var c, c2 := e.Before(), e.After();
    if p < |c| {
      MapAt(e, p);
      match c[p] {
        case JMP(l) => LabelMap(e, p, e.Map(p), l);
        case Jump(cond, l) => LabelMap(e, p, e.Map(p), l);
        case JMPP(v) => if Get(s.vars, v).Int? { TableMap(e, p, Get(s.vars, v).n); }
        case _ =>
      }
    }
  }

  // ---- Runs ----

  lemma SimRefl(temps: set<int>, c: seq<Instr>, p: nat, s: St)
    ensures Sim(temps, c, p, s, s)
  {
  }

  lemma SimTrans(temps: set<int>, c: seq<Instr>, p: nat, s: St, t: St, u: St)
    requires Sim(temps, c, p, s, t) && Sim(temps, c, p, t, u)
    ensures Sim(temps, c, p, s, u)
  {
    hide Live, RegUsed;
  }

  lemma EndsAfterStep(temps: set<int>, c: seq<Instr>, j: Junk, p: nat, s: St, q: nat, s1: St, exit: Exit, end: St)
    requires Step(temps, c, j, p, s) == Go(q, s1) && EndsLike(temps, c, j, q, s1, exit, end)
    ensures EndsLike(temps, c, j, p, s, exit, end)
  {
    hide Step;
    var fuel: nat :| var r := Run(temps, c, j, q, s1, fuel); r.Halt? && r.exit == exit && Same(temps, end, r.s);
    assert Run(temps, c, j, p, s, fuel + 1) == Run(temps, c, j, q, s1, fuel);
  }

  /** A run through a straight stretch. */
  lemma {:induction false} RunThrough(temps: set<int>, c: seq<Instr>, j: Junk, p: nat, w: seq<Instr>, s: St, fuel: nat)
    requires p + |w| <= |c| && c[p..p + |w|] == w && AllStraight(w)
    requires Run(temps, c, j, p, s, fuel).Halt?
    ensures Exec(temps, w, s).Some? && fuel >= |w|
    ensures Run(temps, c, j, p, s, fuel) == Run(temps, c, j, p + |w|, Exec(temps, w, s).value, fuel - |w|)
    decreases |w|
  {
    hide Do;
    if w != [] {
      assert c[p] == w[0];
      var s1 := Do(temps, w[0], s);
      assert Straight(w[0]);
      assert Step(temps, c, j, p, s) == if s1.Some? then Go(p + 1, s1.value) else Fault;
      assert c[p + 1..p + 1 + |w[1..]|] == w[1..];
      RunThrough(temps, c, j, p + 1, w[1..], s1.value, fuel - 1);
    }
  }

  lemma {:induction false} EndsThrough(temps: set<int>, c: seq<Instr>, j: Junk, p: nat, w: seq<Instr>, s: St, exit: Exit, end: St)
    requires p + |w| <= |c| && c[p..p + |w|] == w && AllStraight(w) && Exec(temps, w, s).Some?
    requires EndsLike(temps, c, j, p + |w|, Exec(temps, w, s).value, exit, end)
    ensures EndsLike(temps, c, j, p, s, exit, end)
    decreases |w|
  {
    hide Do, EndsLike;
    if w != [] {
      assert c[p] == w[0];
      var s1 := Do(temps, w[0], s);
      assert Straight(w[0]);
      assert Step(temps, c, j, p, s) == Go(p + 1, s1.value);
      assert c[p + 1..p + 1 + |w[1..]|] == w[1..];
      EndsThrough(temps, c, j, p + 1, w[1..], s1.value, exit, end);
      EndsAfterStep(temps, c, j, p, s, p + 1, s1.value, exit, end);
    }
  }

  /** States that cannot be told apart stay so through a straight stretch. */
  lemma {:induction false} ExecSim(temps: set<int>, c: seq<Instr>, p: nat, w: seq<Instr>, s: St, t: St)
    requires p + |w| <= |c| && c[p..p + |w|] == w && AllStraight(w) && Exec(temps, w, s).Some?
    requires Sim(temps, c, p, s, t)
    ensures Exec(temps, w, t).Some? && Sim(temps, c, p + |w|, Exec(temps, w, s).value, Exec(temps, w, t).value)
    decreases |w|
  {
    hide Do, Sim;
    if w != [] {
      assert c[p] == w[0];
      assert Straight(w[0]);
      DoStepSim(temps, c, p, s, t);
      assert c[p + 1..p + 1 + |w[1..]|] == w[1..];
      ExecSim(temps, c, p + 1, w[1..], Do(temps, w[0], s).value, Do(temps, w[0], t).value);
    }
  }

  // ---- When an edit is right ----

  /** Wherever the old stretch gets through, the new one does, with a result that the rest of the list cannot tell apart. */
  ghost predicate StraightOk(temps: set<int>, e: Edit) {
    && AllStraight(e.w) && AllStraight(e.w2) && |e.w| > 0
    && forall s :: Exec(temps, e.w, s).Some? ==>
         Exec(temps, e.w2, s).Some? && Sim(temps, e.After(), |e.pre| + |e.w2|, Exec(temps, e.w, s).value, Exec(temps, e.w2, s).value)
  }

  /** The same for stretches that end in a conditional jump to one label: the jumps agree. */
  ghost predicate JumpOk(temps: set<int>, e: Edit) {
    && |e.w| > 0 && |e.w2| > 0
    && var u, u2 := e.w[..|e.w| - 1], e.w2[..|e.w2| - 1];
      && AllStraight(u) && AllStraight(u2)
      && e.w[|e.w| - 1].Jump? && e.w2[|e.w2| - 1].Jump? && e.w[|e.w| - 1].l == e.w2[|e.w2| - 1].l
      && forall s :: Exec(temps, u, s).Some? && Exec(temps, u, s).value.reg.Int? ==>
           JumpsAlike(temps, e.w[|e.w| - 1].cond, e.w2[|e.w2| - 1].cond, Exec(temps, u, s).value, Exec(temps, u2, s))
  }

  ghost predicate JumpsAlike(temps: set<int>, cond: Cond, cond2: Cond, s1: St, r2: Option<St>) {
    && r2.Some? && s1.reg.Int? && r2.value.reg.Int?
    && Taken(cond, s1.reg.n) == Taken(cond2, r2.value.reg.n)
    && r2.value == s1.(reg := r2.value.reg, taken := r2.value.taken)
  }

  ghost predicate EditOk(temps: set<int>, e: Edit) {
    StraightOk(temps, e) || JumpOk(temps, e)
  }

  lemma EditOkNoLabels(temps: set<int>, e: Edit)
    requires EditOk(temps, e)
    ensures e.NoLabels()
  {
    forall k | 0 <= k < |e.w| ensures !e.w[k].LABEL? && !e.w[k].JMP? && !e.w[k].JMPP? {
      if !StraightOk(temps, e) && k < |e.w| - 1 { assert e.w[k] == e.w[..|e.w| - 1][k]; }
    }
    forall k | 0 <= k < |e.w2| ensures !e.w2[k].LABEL? && !e.w2[k].JMP? && !e.w2[k].JMPP? {
      if !StraightOk(temps, e) && k < |e.w2| - 1 { assert e.w2[k] == e.w2[..|e.w2| - 1][k]; }
    }
  }

  lemma EditSlices(e: Edit)
    ensures e.Before()[|e.pre|..|e.pre| + |e.w|] == e.w && e.After()[|e.pre|..|e.pre| + |e.w2|] == e.w2
  {
  }

  /** The end of a run from p in the old list is reached in the new one. */
  ghost predicate Follows(temps: set<int>, e: Edit, j: Junk, p: nat, t: St, r: Outcome)
    requires e.Outside(p)
  {
    r.Halt? ==> EndsLike(temps, e.After(), j, e.Map(p), t, r.exit, r.s)
  }

  lemma {:induction false} Simulate(temps: set<int>, e: Edit, j: Junk, p: nat, s: St, t: St, fuel: nat)
    requires EditOk(temps, e) && e.NoLabels() && TablesClosed(e.Before())
    requires e.Outside(p) && Sim(temps, e.After(), e.Map(p), s, t)
    ensures Follows(temps, e, j, p, t, Run(temps, e.Before(), j, p, s, fuel))
    decreases fuel
  {
    hide EditOk, StraightOk, JumpOk, Sim, TablesClosed, Step;
    if Run(temps, e.Before(), j, p, s, fuel).Halt? {
      if p != |e.pre| {
        SimulateStep(temps, e, j, p, s, t, fuel);
      } else if StraightOk(temps, e) {
        SimulateStraight(temps, e, j, s, t, fuel);
      } else {
        EditKinds(temps, e);
        SimulateJump(temps, e, j, s, t, fuel);
      }
    }
  }

  lemma EditKinds(temps: set<int>, e: Edit)
    requires EditOk(temps, e)
    ensures StraightOk(temps, e) || JumpOk(temps, e)
  {
  }

  lemma {:induction false} SimulateStep(temps: set<int>, e: Edit, j: Junk, p: nat, s: St, t: St, fuel: nat)
    requires EditOk(temps, e) && e.NoLabels() && TablesClosed(e.Before())
    requires e.Outside(p) && p != |e.pre| && Sim(temps, e.After(), e.Map(p), s, t)
    requires Run(temps, e.Before(), j, p, s, fuel).Halt?
    ensures Follows(temps, e, j, p, t, Run(temps, e.Before(), j, p, s, fuel))
    decreases fuel, 0
  {
    hide EditOk, TablesClosed, Step, Sim;
    StepMap(temps, e, j, p, s);
    StepSim(temps, e.After(), j, e.Map(p), s, t);
    var r, r2 := Step(temps, e.Before(), j, p, s), Step(temps, e.After(), j, e.Map(p), t);
    if r.Go? {
      Simulate(temps, e, j, r.pc, r.s, r2.s, fuel - 1);
      var end := Run(temps, e.Before(), j, r.pc, r.s, fuel - 1);
      EndsAfterStep(temps, e.After(), j, e.Map(p), t, r2.pc, r2.s, end.exit, end.s);
    } else {
      assert Run(temps, e.After(), j, e.Map(p), t, 0) == r2;
    }
  }

  lemma {:induction false} SimulateStraight(temps: set<int>, e: Edit, j: Junk, s: St, t: St, fuel: nat)
    requires EditOk(temps, e) && StraightOk(temps, e) && e.NoLabels() && TablesClosed(e.Before())
    requires Sim(temps, e.After(), |e.pre|, s, t)
    requires Run(temps, e.Before(), j, |e.pre|, s, fuel).Halt?
    ensures Follows(temps, e, j, |e.pre|, t, Run(temps, e.Before(), j, |e.pre|, s, fuel))
    decreases fuel, 0
  {
    hide EditOk, TablesClosed, Sim, Do, Step, Exec;
    EditSlices(e);
    RunThrough(temps, e.Before(), j, |e.pre|, e.w, s, fuel);
    var a, b := Exec(temps, e.w, s).value, Exec(temps, e.w2, s).value;
    ExecSim(temps, e.After(), |e.pre|, e.w2, s, t);
    var b2 := Exec(temps, e.w2, t).value;
    SimTrans(temps, e.After(), |e.pre| + |e.w2|, a, b, b2);
    Simulate(temps, e, j, |e.pre| + |e.w|, a, b2, fuel - |e.w|);
    var end := Run(temps, e.Before(), j, |e.pre| + |e.w|, a, fuel - |e.w|);
    EndsThrough(temps, e.After(), j, |e.pre|, e.w2, t, end.exit, end.s);
  }

  lemma JumpStep(temps: set<int>, e: Edit, j: Junk, a: St, b: St)
    requires JumpOk(temps, e) && e.NoLabels()
    requires JumpsAlike(temps, e.w[|e.w| - 1].cond, e.w2[|e.w2| - 1].cond, a, Some(b))
    ensures StepsAlike(e, Step(temps, e.Before(), j, |e.pre| + |e.w| - 1, a), Step(temps, e.After(), j, |e.pre| + |e.w2| - 1, b))
  {
    hide Do, Taken, FindLabel, InTable;
    var p, p2 := |e.pre| + |e.w| - 1, |e.pre| + |e.w2| - 1;
    assert e.Before()[p] == e.w[|e.w| - 1] && e.After()[p2] == e.w2[|e.w2| - 1];
    LabelMap(e, p, p2, e.w[|e.w| - 1].l);
    assert e.Map(p + 1) == p2 + 1;
  }

  lemma {:induction false} SimulateJump(temps: set<int>, e: Edit, j: Junk, s: St, t: St, fuel: nat)
    requires EditOk(temps, e) && JumpOk(temps, e) && e.NoLabels() && TablesClosed(e.Before())
    requires Sim(temps, e.After(), |e.pre|, s, t)
    requires Run(temps, e.Before(), j, |e.pre|, s, fuel).Halt?
    ensures Follows(temps, e, j, |e.pre|, t, Run(temps, e.Before(), j, |e.pre|, s, fuel))
    decreases fuel, 0
  {
    hide EditOk, TablesClosed, Sim, Do, Step, Exec, Taken;
    EditSlices(e);
    var c, c2, n, n2 := e.Before(), e.After(), |e.w| - 1, |e.w2| - 1;
    var u, u2 := e.w[..n], e.w2[..n2];
    assert c[|e.pre|..|e.pre| + n] == u && c2[|e.pre|..|e.pre| + n2] == u2;
    RunThrough(temps, c, j, |e.pre|, u, s, fuel);
    var a := Exec(temps, u, s).value;
    JumpFaults(temps, c, j, |e.pre| + n, a, fuel - n);
    var b := Exec(temps, u2, s).value;
    ExecSim(temps, c2, |e.pre|, u2, s, t);
    var b2 := Exec(temps, u2, t).value;
    JumpStep(temps, e, j, a, b);
    StepSim(temps, c2, j, |e.pre| + n2, b, b2);
    var r, r2 := Step(temps, c, j, |e.pre| + n, a), Step(temps, c2, j, |e.pre| + n2, b2);
    var end := Run(temps, c, j, |e.pre| + n, a, fuel - n);
    if r.Go? {
      Simulate(temps, e, j, r.pc, r.s, r2.s, fuel - n - 1);
      EndsAfterStep(temps, c2, j, |e.pre| + n2, b2, r2.pc, r2.s, end.exit, end.s);
    } else {
      assert Run(temps, c2, j, |e.pre| + n2, b2, 0) == r2;
      assert EndsLike(temps, c2, j, |e.pre| + n2, b2, end.exit, end.s);
    }
    EndsThrough(temps, c2, j, |e.pre|, u2, t, end.exit, end.s);
  }

  lemma JumpFaults(temps: set<int>, c: seq<Instr>, j: Junk, p: nat, s: St, fuel: nat)
    requires p < |c| && c[p].Jump? && Run(temps, c, j, p, s, fuel).Halt?
    ensures s.reg.Int?
  {
  }

  /** An edit that is right for the stretch is right for the list. */
  lemma EditRefines(temps: set<int>, e: Edit)
    requires EditOk(temps, e) && TablesClosed(e.Before())
    ensures Refines(temps, e.Before(), e.After()) && TablesClosed(e.After())
  {
    EditOkNoLabels(temps, e);
    TablesStayClosed(e);
    forall en: Entry, j: Junk, s: St, fuel: nat ensures RefinesFrom(temps, e.Before(), e.After(), en, j, s, fuel) {
      if en.At? { ForwardMap(e, 0, 0, en.l); }
      if EntryPos(e.Before(), en).Some? {
        var p := EntryPos(e.Before(), en).value;
        SimRefl(temps, e.After(), e.Map(p), s);
        Simulate(temps, e, j, p, s, s, fuel);
      }
    }
  }

  lemma RefinesRefl(temps: set<int>, c: seq<Instr>)
    ensures Refines(temps, c, c)
  {
    forall en: Entry, j: Junk, s: St, fuel: nat ensures RefinesFrom(temps, c, c, en, j, s, fuel) {
      if EntryPos(c, en).Some? {
        var r := Run(temps, c, j, EntryPos(c, en).value, s, fuel);
        if r.Halt? { assert Same(temps, r.s, r.s); }
      }
    }
  }

  lemma EndsLikeTrans(temps: set<int>, c: seq<Instr>, j: Junk, p: nat, s: St, exit: Exit, end: St, end2: St)
    requires Same(temps, end, end2) && EndsLike(temps, c, j, p, s, exit, end2)
    ensures EndsLike(temps, c, j, p, s, exit, end)
  {
    hide Run;
    var fuel: nat :| var r := Run(temps, c, j, p, s, fuel); r.Halt? && r.exit == exit && Same(temps, end2, r.s);
    assert Same(temps, end, Run(temps, c, j, p, s, fuel).s);
  }

  lemma RefinesTrans(temps: set<int>, a: seq<Instr>, b: seq<Instr>, c: seq<Instr>)
    requires Refines(temps, a, b) && Refines(temps, b, c)
    ensures Refines(temps, a, c)
  {
    hide Run, Same;
    forall en: Entry, j: Junk, s: St, fuel: nat ensures RefinesFrom(temps, a, c, en, j, s, fuel) {
      assert RefinesFrom(temps, a, b, en, j, s, fuel);
      assert RefinesFrom(temps, b, c, en, j, s, 0);
      if EntryPos(a, en).Some? {
        var q := EntryPos(b, en).value;
        var r := Run(temps, a, j, EntryPos(a, en).value, s, fuel);
        if r.Halt? {
          var fuel2: nat :| var r2 := Run(temps, b, j, q, s, fuel2); r2.Halt? && r2.exit == r.exit && Same(temps, r.s, r2.s);
          assert RefinesFrom(temps, b, c, en, j, s, fuel2);
          EndsLikeTrans(temps, c, j, EntryPos(c, en).value, s, r.exit, r.s, Run(temps, b, j, q, s, fuel2).s);
        }
      }
    }
  }
}
