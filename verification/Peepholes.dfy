/** The rewrites of the local optimizer, each shown to be right where the optimizer applies it. */
module Peepholes {
  import opened Options
  import opened Bytecode
  import opened Liveness
  import opened Windows

  // ---- What is dead after the stretch stays dead ----

  /** w reads x before overwriting it. */
  predicate UpRead(w: seq<Instr>, x: int) {
    w != [] && (IsTempVarReadByInstr(w[0], x) || (!IsTempVarOverwrittenByInstr(w[0], x) && UpRead(w[1..], x)))
  }

  /** Every way on in the new list, from outside the stretch, was a way on in the old one. */
  lemma SuccMap(e: Edit, p: nat, q2: nat) returns (q: nat)
    requires e.NoLabels() && TablesClosed(e.Before()) && p < |e.Before()|
    requires p < |e.pre| || p >= |e.pre| + |e.w|
    requires Succ(e.After(), e.Map(p), q2)
    ensures e.Outside(q) && e.Map(q) == q2 && Succ(e.Before(), p, q)
  {
    var c, c2 := e.Before(), e.After();
    MapAt(e, p);
    q := p + 1;
    match c[p] {
      case JMP(l) =>
        LabelMap(e, p, e.Map(p), l);
        q := FindLabel(c, p, l).value;
      case Jump(cond, l) =>
        LabelMap(e, p, e.Map(p), l);
        if q2 != e.Map(p) + 1 { q := FindLabel(c, p, l).value; }
      case JMPP(v) =>
        q := TableSuccMap(e, p, q2);
      case _ =>
    }
  }

  lemma TableSuccMap(e: Edit, p: nat, q2: nat) returns (q: nat)
    requires e.NoLabels() && TablesClosed(e.Before()) && p < |e.Before()| && e.Before()[p].JMPP?
    requires p < |e.pre| || p >= |e.pre| + |e.w|
    requires Succ(e.After(), e.Map(p), q2)
    ensures e.Outside(q) && e.Map(q) == q2 && Succ(e.Before(), p, q)
  {
    var c, c2 := e.Before(), e.After();
    assert TableEnd(c, p);
    var end :| p < end < |c| && c[end].LABEL? && forall k :: p < k < end ==> c[k].JMP?;
    TableOneSide(e, p, end);
    MapAt(e, p);
    MapAt(e, end);
    assert !c2[e.Map(end)].JMP?;
    assert q2 < e.Map(end);
    q := q2 + p - e.Map(p);
  }

  lemma {:induction false} UpReadLive(c: seq<Instr>, p: nat, w: seq<Instr>, x: int)
    requires p + |w| <= |c| && c[p..p + |w|] == w && AllStraight(w) && UpRead(w, x)
    ensures Live(c, p, x)
    decreases |w|
  {
    assert c[p] == w[0];
    assert Straight(w[0]);
    if IsTempVarReadByInstr(w[0], x) {
      LiveRead(c, p, x);
    } else {
      assert c[p + 1..p + 1 + |w[1..]|] == w[1..];
      UpReadLive(c, p + 1, w[1..], x);
      LiveStep(c, p, p + 1, x);
    }
  }

  /** A path through a straight stretch reads x there or goes on behind it. */
  lemma {:induction false} LiveThrough(c: seq<Instr>, p: nat, w: seq<Instr>, x: int, n: nat)
    requires p + |w| <= |c| && c[p..p + |w|] == w && AllStraight(w) && LiveN(c, p, x, n) && !UpRead(w, x)
    ensures |w| <= n && LiveN(c, p + |w|, x, n - |w|)
    decreases |w|
  {
    if w != [] {
      assert c[p] == w[0];
      assert Straight(w[0]);
      assert LiveN(c, p + 1, x, n - 1);
      assert c[p + 1..p + 1 + |w[1..]|] == w[1..];
      LiveThrough(c, p + 1, w[1..], x, n - 1);
    }
  }

  /** A reading path in the new list is one in the old list, or passes the end of the new stretch. */
  lemma {:induction false} LiveBack(e: Edit, p: nat, x: int, n: nat) returns (m: nat)
    requires e.NoLabels() && TablesClosed(e.Before()) && AllStraight(e.w) && AllStraight(e.w2)
    requires UpRead(e.w2, x) ==> UpRead(e.w, x)
    requires e.Outside(p) && LiveN(e.After(), e.Map(p), x, n)
    ensures m <= n && (p != |e.pre| ==> m < n)
    ensures Live(e.Before(), p, x) || LiveN(e.After(), |e.pre| + |e.w2|, x, m)
    decreases n
  {
    var c, c2 := e.Before(), e.After();
    EditSlices(e);
    m := 0;
    if p == |e.pre| {
      if UpRead(e.w2, x) {
        UpReadLive(c, p, e.w, x);
      } else {
        LiveThrough(c2, p, e.w2, x, n);
        m := n - |e.w2|;
      }
    } else {
      assert p < |c|;
      MapAt(e, p);
      if IsTempVarReadByInstr(c[p], x) {
        LiveRead(c, p, x);
      } else {
        var q2 :| Succ(c2, e.Map(p), q2) && LiveN(c2, q2, x, n - 1);
        var q := SuccMap(e, p, q2);
        m := LiveBack(e, q, x, n - 1);
        if Live(c, q, x) { LiveStep(c, p, q, x); }
      }
    }
  }

  lemma {:induction false} NotLiveN(e: Edit, x: int, n: nat)
    requires e.NoLabels() && TablesClosed(e.Before()) && AllStraight(e.w) && AllStraight(e.w2)
    requires UpRead(e.w2, x) ==> UpRead(e.w, x)
    requires !Live(e.Before(), |e.pre| + |e.w|, x)
    ensures !LiveN(e.After(), |e.pre| + |e.w2|, x, n)
    decreases n
  {
    if LiveN(e.After(), |e.pre| + |e.w2|, x, n) {
      var m := LiveBack(e, |e.pre| + |e.w|, x, n);
      NotLiveN(e, x, m);
    }
  }

  lemma LiveTransfer(e: Edit, x: int)
    requires e.NoLabels() && TablesClosed(e.Before()) && AllStraight(e.w) && AllStraight(e.w2)
    requires UpRead(e.w2, x) ==> UpRead(e.w, x)
    requires !Live(e.Before(), |e.pre| + |e.w|, x)
    ensures !Live(e.After(), |e.pre| + |e.w2|, x)
  {
    var c2, p2 := e.After(), |e.pre| + |e.w2|;
    forall n: nat ensures !LiveN(c2, p2, x, n) { NotLiveN(e, x, n); }
  }

  lemma {:induction false} RegUsedSuffix(c: seq<Instr>, c2: seq<Instr>, p: nat, p2: nat)
    requires p <= |c| && p2 <= |c2| && c[p..] == c2[p2..]
    ensures RegUsed(c, p) == RegUsed(c2, p2)
    decreases |c| - p
  {
    if p < |c| {
      assert c[p] == c[p..][0] && c2[p2] == c2[p2..][0];
      assert c[p + 1..] == c[p..][1..] && c2[p2 + 1..] == c2[p2..][1..];
      RegUsedSuffix(c, c2, p + 1, p2 + 1);
    }
  }

  // ---- Edits that differ in dead places only ----

  /** Equal except in the variables of dead and, if regDead, in an address in the register. */
  ghost predicate EqualBut(s: St, t: St, dead: set<int>, regDead: bool) {
    && (forall x :: x !in dead ==> Get(s.vars, x) == Get(t.vars, x))
    && s.stack == t.stack && s.globals == t.globals && s.trace == t.trace && s.epoch == t.epoch
    && (!regDead ==> s.reg == t.reg) && (s.reg.Int? ==> t.reg == s.reg)
    && TakenSim(s, t)
  }

  ghost predicate SameBut(temps: set<int>, w: seq<Instr>, w2: seq<Instr>, s: St, dead: set<int>, regDead: bool) {
    Exec(temps, w, s).Some? ==>
      Exec(temps, w2, s).Some? && EqualBut(Exec(temps, w, s).value, Exec(temps, w2, s).value, dead, regDead)
  }

  lemma RuleOk(temps: set<int>, e: Edit, dead: set<int>, regDead: bool)
    requires AllStraight(e.w) && AllStraight(e.w2) && |e.w| > 0 && TablesClosed(e.Before())
    requires dead <= temps
    requires forall x :: x in dead ==> !Live(e.Before(), |e.pre| + |e.w|, x) && (UpRead(e.w2, x) ==> UpRead(e.w, x))
    requires regDead ==> !RegUsed(e.Before(), |e.pre| + |e.w|)
    requires forall s :: SameBut(temps, e.w, e.w2, s, dead, regDead)
    ensures EditOk(temps, e)
  {
    hide Exec, Live, TablesClosed, UpRead;
    var p2 := |e.pre| + |e.w2|;
    assert e.NoLabels();
    forall x | x in dead ensures !Live(e.After(), p2, x) { LiveTransfer(e, x); }
    assert e.Before()[|e.pre| + |e.w|..] == e.post && e.After()[p2..] == e.post;
    RegUsedSuffix(e.Before(), e.After(), |e.pre| + |e.w|, p2);
    forall s | Exec(temps, e.w, s).Some?
      ensures Exec(temps, e.w2, s).Some? && Sim(temps, e.After(), p2, Exec(temps, e.w, s).value, Exec(temps, e.w2, s).value)
    {
      assert SameBut(temps, e.w, e.w2, s, dead, regDead);
    }
  }

  lemma Exec1(temps: set<int>, a: Instr, s: St)
    ensures Exec(temps, [a], s) == Do(temps, a, s)
  {
    hide Do;
  }

  lemma Exec2(temps: set<int>, a: Instr, b: Instr, s: St)
    ensures Exec(temps, [a, b], s) == match Do(temps, a, s) case Some(s1) => Do(temps, b, s1) case None => None
  {
    hide Do;
    assert [a, b][1..] == [b];
    match Do(temps, a, s) case Some(s1) => Exec1(temps, b, s1); case None =>
  }

  lemma UpRead1(a: Instr, x: int)
    ensures UpRead([a], x) == IsTempVarReadByInstr(a, x)
  {
    assert [a][1..] == [];
  }

  // ---- The value of a temporary is not used ----

  lemma DeadWrite(temps: set<int>, e: Edit, v: int)
    requires |e.w| == 1 && e.w2 == [] && Target(e.w[0]) == Some(v) && v in temps && TablesClosed(e.Before())
    requires !Live(e.Before(), |e.pre| + 1, v)
    requires e.w[0].LdGRdR4? ==> !RegUsed(e.Before(), |e.pre| + 1)
    ensures EditOk(temps, e)
  {
    var i := e.w[0];
    assert e.w == [i];
    forall s ensures SameBut(temps, e.w, e.w2, s, {v}, i.LdGRdR4?) { Exec1(temps, i, s); }
    RuleOk(temps, e, {v}, i.LdGRdR4?);
  }

  lemma DeadGlobalRead(temps: set<int>, e: Edit, v: int, g: int)
    requires e.w == [LdGRdR4(v, g)] && e.w2 == [LDG(g)] && v in temps && TablesClosed(e.Before())
    requires !Live(e.Before(), |e.pre| + 1, v)
    ensures EditOk(temps, e)
  {
    UpRead1(LDG(g), v);
    forall s ensures SameBut(temps, e.w, e.w2, s, {v}, false) { Exec1(temps, e.w[0], s); Exec1(temps, e.w2[0], s); }
    RuleOk(temps, e, {v}, false);
  }

  // ---- A constant is used at once and then never again ----

  lemma FoldCompare(temps: set<int>, e: Edit, v: int, k: int, x: int)
    requires e.w == [SetV4(v, k), CMPi(x, v)] && e.w2 == [CMPIi(x, k)] && x != v && v in temps && TablesClosed(e.Before())
    requires !Live(e.Before(), |e.pre| + 2, v)
    ensures EditOk(temps, e)
  {
    UpRead1(CMPIi(x, k), v);
    forall s ensures SameBut(temps, e.w, e.w2, s, {v}, false) { Exec2(temps, e.w[0], e.w[1], s); Exec1(temps, e.w2[0], s); }
    RuleOk(temps, e, {v}, false);
  }

  /** The constant is the second operand. */
  lemma FoldRight(temps: set<int>, e: Edit, v: int, k: int, op: ArithOp, d: int, x: int)
    requires e.w == [SetV4(v, k), Arith(op, d, x, v)] && e.w2 == [ArithI(op, d, x, k)] && x != v && TablesClosed(e.Before())
    requires d == v || (v in temps && !Live(e.Before(), |e.pre| + 2, v))
    ensures EditOk(temps, e)
  {
    hide Calc, Wrap;
    var dead := if d == v then {} else {v};
    UpRead1(ArithI(op, d, x, k), v);
    forall s ensures SameBut(temps, e.w, e.w2, s, dead, false) { Exec2(temps, e.w[0], e.w[1], s); Exec1(temps, e.w2[0], s); }
    RuleOk(temps, e, dead, false);
  }

  // ---- The folds that the source does not guard ----

  ghost predicate FoldCompareAgrees(temps: set<int>, v: int, k: int, x: int) {
    forall s: St :: Get(s.vars, v).Int? ==> SameBut(temps, [SetV4(v, k), CMPi(x, v)], [CMPIi(x, k)], s, {v}, false)
  }

  /** Folding a constant into a comparison gives the same result exactly when the other operand is another variable. */
  lemma FoldCompareExact(temps: set<int>, v: int, k: int, x: int)
    ensures FoldCompareAgrees(temps, v, k, x) <==> x != v
  {
    var w, w2 := [SetV4(v, k), CMPi(x, v)], [CMPIi(x, k)];
    forall s: St ensures Exec(temps, w, s) == match Do(temps, w[0], s) case Some(s1) => Do(temps, w[1], s1) case None => None
                 ensures Exec(temps, w2, s) == Do(temps, w2[0], s) {
      Exec2(temps, w[0], w[1], s);
      Exec1(temps, w2[0], s);
    }
    if x == v {
      var s := St(map[v := Int(Wrap(k) + 1)], Int(0), [], map[], [], 0, None);
      assert Exec(temps, w, s).value.reg == Int(0) && Exec(temps, w2, s).value.reg == Int(1);
      assert !SameBut(temps, w, w2, s, {v}, false);
    } else {
      hide Wrap;
      forall s: St | Get(s.vars, v).Int? ensures SameBut(temps, w, w2, s, {v}, false) { }
    }
  }

  ghost predicate FoldRightAgrees(temps: set<int>, v: int, k: int, op: ArithOp, d: int, x: int) {
    forall s: St :: Get(s.vars, v).Int? ==>
      SameBut(temps, [SetV4(v, k), Arith(op, d, x, v)], [ArithI(op, d, x, k)], s, if d == v then {} else {v}, false)
  }

  /** Folding a constant into an operation gives the same result exactly when the other operand is another variable,
      or the operation multiplies by zero. */
  lemma FoldRightExact(temps: set<int>, v: int, k: int, op: ArithOp, d: int, x: int)
    ensures FoldRightAgrees(temps, v, k, op, d, x) <==> x != v || (op == MUL && Wrap(k) == 0)
  {
    var w, w2, dead := [SetV4(v, k), Arith(op, d, x, v)], [ArithI(op, d, x, k)], if d == v then {} else {v};
    if x == v && !(op == MUL && Wrap(k) == 0) {
      hide Wrap, SameBut, Exec;
      DoubledFoldDiffers(temps, v, k, op, d, dead);
    } else {
      hide Wrap, SameBut, Exec;
      forall s: St | Get(s.vars, v).Int? ensures SameBut(temps, w, w2, s, dead, false) {
        FoldRightAt(temps, v, k, op, d, x, s);
      }
    }
  }

  lemma FoldRightAt(temps: set<int>, v: int, k: int, op: ArithOp, d: int, x: int, s: St)
    requires Get(s.vars, v).Int? && (x != v || (op == MUL && Wrap(k) == 0))
    ensures SameBut(temps, [SetV4(v, k), Arith(op, d, x, v)], [ArithI(op, d, x, k)], s, if d == v then {} else {v}, false)
  {
    hide Wrap, Calc;
    Exec2(temps, SetV4(v, k), Arith(op, d, x, v), s);
    Exec1(temps, ArithI(op, d, x, k), s);
    if x == v { TimesZero(Get(s.vars, v).n); }
  }

  lemma DoubledFoldDiffers(temps: set<int>, v: int, k: int, op: ArithOp, d: int, dead: set<int>)
    requires !(op == MUL && Wrap(k) == 0) && d !in dead
    ensures var s := St(map[v := Int(Wrap(k) + 1)], Int(0), [], map[], [], 0, None);
      !SameBut(temps, [SetV4(v, k), Arith(op, d, v, v)], [ArithI(op, d, v, k)], s, dead, false)
  {
    hide Wrap, Calc;
    var s := St(map[v := Int(Wrap(k) + 1)], Int(0), [], map[], [], 0, None);
    var w, w2 := [SetV4(v, k), Arith(op, d, v, v)], [ArithI(op, d, v, k)];
    Exec2(temps, w[0], w[1], s);
    Exec1(temps, w2[0], s);
    WrapRange(k);
    DoubledDiffers(op, Wrap(k));
    assert Get(Exec(temps, w, s).value.vars, d) == Int(Calc(op, Wrap(k), Wrap(k)));
    assert Get(Exec(temps, w2, s).value.vars, d) == Int(Calc(op, Wrap(k) + 1, Wrap(k)));
  }

  lemma WrapRange(k: int)
    ensures -0x8000_0000 <= Wrap(k) < 0x8000_0000
  {
  }

  lemma TimesZero(n: int)
    ensures Calc(MUL, n, 0) == 0 && Calc(MUL, 0, 0) == 0
  {
  }

  lemma DoubledDiffers(op: ArithOp, k: int)
    requires -0x8000_0000 <= k < 0x8000_0000 && !(op == MUL && k == 0)
    ensures Calc(op, k, k) != Calc(op, k + 1, k)
  {
    assert (k + 1) * k == k * k + k;
    WrapApart(if op == MUL then k * k else if op == ADD then k + k else 0, if op == MUL then k else 1);
  }

  /** Numbers that differ by less than a dword's range stay apart. */
  lemma WrapApart(a: int, delta: int)
    requires delta != 0 && -0x1_0000_0000 < delta < 0x1_0000_0000
    ensures Wrap(a) != Wrap(a + delta)
  {
    var m, x := 0x1_0000_0000, a + 0x8000_0000;
    var q := (x + delta) / m - x / m;
    assert delta == m * q + ((x + delta) % m - x % m);
  }

  lemma DoubledSteps(c: seq<Instr>, j: Junk, s: St, s1: St, a: St)
    requires s.taken == None && c == [SetV4(1, 3), Arith(ADD, 2, 1, 1), RET(0)] && s1 == SetVar(s, 1, Int(3)) && a == SetVar(s1, 2, Int(6))
    ensures Step({1}, c, j, 0, s) == Go(1, s1) && Step({1}, c, j, 1, s1) == Go(2, a) && Step({1}, c, j, 2, a) == Halt(Returned, a)
  {
    hide FindLabel, InTable, Taken;
  }

  lemma DoubledRun(j: Junk, s: St)
    requires s.taken == None
    ensures Run({1}, [SetV4(1, 3), Arith(ADD, 2, 1, 1), RET(0)], j, 0, s, 2) == Halt(Returned, SetVar(SetVar(s, 1, Int(3)), 2, Int(6)))
  {
    hide Step;
    var c, s1 := [SetV4(1, 3), Arith(ADD, 2, 1, 1), RET(0)], SetVar(s, 1, Int(3));
    var a := SetVar(s1, 2, Int(6));
    DoubledSteps(c, j, s, s1, a);
    assert Run({1}, c, j, 2, a, 0) == Halt(Returned, a);
    assert Run({1}, c, j, 1, s1, 1) == Run({1}, c, j, 2, a, 0);
  }

  lemma FoldedSteps(c: seq<Instr>, j: Junk, s: St, a: St)
    requires s.taken == None && Get(s.vars, 1) == Int(0) && c == [ArithI(ADD, 2, 1, 3), RET(0)] && a == SetVar(s, 2, Int(3))
    ensures Step({1}, c, j, 0, s) == Go(1, a) && Step({1}, c, j, 1, a) == Halt(Returned, a)
  {
    hide FindLabel, InTable, Taken;
  }

  lemma FoldedRun(j: Junk, s: St, fuel: nat)
    requires s.taken == None && Get(s.vars, 1) == Int(0)
    ensures var r := Run({1}, [ArithI(ADD, 2, 1, 3), RET(0)], j, 0, s, fuel); r.Halt? ==> r.s == SetVar(s, 2, Int(3))
  {
    hide Step;
    var c, a := [ArithI(ADD, 2, 1, 3), RET(0)], SetVar(s, 2, Int(3));
    FoldedSteps(c, j, s, a);
    if fuel > 0 { assert Run({1}, c, j, 1, a, fuel - 1) == Halt(Returned, a); }
  }

  /** The whole list: 3 + 3 becomes whatever the variable held before, plus 3. */
  lemma DoubledFoldBreaks()
    ensures !Refines({1}, [SetV4(1, 3), Arith(ADD, 2, 1, 1), RET(0)], [ArithI(ADD, 2, 1, 3), RET(0)])
  {
    hide Run;
    var c, c2 := [SetV4(1, 3), Arith(ADD, 2, 1, 1), RET(0)], [ArithI(ADD, 2, 1, 3), RET(0)];
    var j, s := Junk((_, _) => Int(0)), St(map[], Int(0), [], map[], [], 0, None);
    var a, b := SetVar(SetVar(s, 1, Int(3)), 2, Int(6)), SetVar(s, 2, Int(3));
    DoubledRun(j, s);
    forall fuel: nat ensures var r := Run({1}, c2, j, 0, s, fuel); r.Halt? ==> r.s == b { FoldedRun(j, s, fuel); }
    assert Get(a.vars, 2) != Get(b.vars, 2);
    assert !EndsLike({1}, c2, j, 0, s, Returned, a);
    assert !RefinesFrom({1}, c, c2, Start, j, s, 2);
  }

  /** The constant is the first operand of an operation that commutes. */
  lemma FoldLeft(temps: set<int>, e: Edit, v: int, k: int, op: ArithOp, d: int, y: int)
    requires e.w == [SetV4(v, k), Arith(op, d, v, y)] && e.w2 == [ArithI(op, d, y, k)] && y != v && TablesClosed(e.Before())
    requires op == ADD || op == MUL
    requires d == v || (v in temps && !Live(e.Before(), |e.pre| + 2, v))
    ensures EditOk(temps, e)
  {
    hide Calc, Wrap;
    var dead := if d == v then {} else {v};
    UpRead1(ArithI(op, d, y, k), v);
    forall s ensures SameBut(temps, e.w, e.w2, s, dead, false) {
      Exec2(temps, e.w[0], e.w[1], s);
      Exec1(temps, e.w2[0], s);
      if Get(s.vars, y).Int? { Commutes(op, Wrap(k), Get(s.vars, y).n); }
    }
    RuleOk(temps, e, dead, false);
  }

  lemma Commutes(op: ArithOp, a: int, b: int)
    requires op == ADD || op == MUL
    ensures Calc(op, a, b) == Calc(op, b, a)
  {
    assert a * b == b * a;
  }

  lemma FoldCopy(temps: set<int>, e: Edit, v: int, k: int, d: int)
    requires e.w == [SetV4(v, k), CpyVtoV4(d, v)] && e.w2 == [SetV4(d, k)] && v in temps && TablesClosed(e.Before())
    requires !Live(e.Before(), |e.pre| + 2, v)
    ensures EditOk(temps, e)
  {
    hide Wrap;
    UpRead1(SetV4(d, k), v);
    forall s ensures SameBut(temps, e.w, e.w2, s, {v}, false) { Exec2(temps, e.w[0], e.w[1], s); Exec1(temps, e.w2[0], s); }
    RuleOk(temps, e, {v}, false);
  }

  lemma FoldPush(temps: set<int>, e: Edit, v: int, k: int)
    requires e.w == [SetV4(v, k), PshV4(v)] && e.w2 == [PshC4(k)] && v in temps && TablesClosed(e.Before())
    requires !Live(e.Before(), |e.pre| + 2, v)
    ensures EditOk(temps, e)
  {
    hide Live, RegUsed, TablesClosed, EditOk, Exec, Wrap;
    UpRead1(PshC4(k), v);
    forall s ensures SameBut(temps, e.w, e.w2, s, {v}, false) { Exec2(temps, e.w[0], e.w[1], s); Exec1(temps, e.w2[0], s); }
    RuleOk(temps, e, {v}, false);
  }

  lemma FoldGlobal(temps: set<int>, e: Edit, v: int, k: int, g: int)
    requires e.w == [SetV4(v, k), CpyVtoG4(v, g)] && e.w2 == [SetG4(g, k)] && v in temps && TablesClosed(e.Before())
    requires !Live(e.Before(), |e.pre| + 2, v)
    ensures EditOk(temps, e)
  {
    hide Wrap;
    UpRead1(SetG4(g, k), v);
    forall s ensures SameBut(temps, e.w, e.w2, s, {v}, false) { Exec2(temps, e.w[0], e.w[1], s); Exec1(temps, e.w2[0], s); }
    RuleOk(temps, e, {v}, false);
  }

  // ---- A result is moved at once and then never used again ----

  /** i with its target replaced. */
  function Retarget(i: Instr, d: int): Instr {
    match i
    case Arith(op, _, x, y) => Arith(op, d, x, y)
    case ArithI(op, _, x, k) => ArithI(op, d, x, k)
    case _ => i
  }

  lemma MoveResult(temps: set<int>, e: Edit, i: Instr, v: int, d: int)
    requires (i.Arith? || i.ArithI?) && i.d == v && e.w == [i, CpyVtoV4(d, v)] && e.w2 == [Retarget(i, d)]
    requires v in temps && TablesClosed(e.Before()) && !Live(e.Before(), |e.pre| + 2, v)
    ensures EditOk(temps, e)
  {
    hide Calc, Wrap;
    UpRead1(Retarget(i, d), v);
    forall s ensures SameBut(temps, e.w, e.w2, s, {v}, false) { Exec2(temps, e.w[0], e.w[1], s); Exec1(temps, e.w2[0], s); }
    RuleOk(temps, e, {v}, false);
  }

  lemma RegisterRoundTrip(temps: set<int>, e: Edit, v: int)
    requires e.w == [CpyRtoV4(v), CpyVtoR4(v)] && e.w2 == [] && v in temps && TablesClosed(e.Before())
    requires !Live(e.Before(), |e.pre| + 2, v)
    ensures EditOk(temps, e)
  {
    forall s ensures SameBut(temps, e.w, e.w2, s, {v}, false) { Exec2(temps, e.w[0], e.w[1], s); }
    RuleOk(temps, e, {v}, false);
  }

  lemma GlobalPush(temps: set<int>, e: Edit, v: int, g: int)
    requires e.w == [CpyGtoV4(v, g), PshV4(v)] && e.w2 == [PshG4(g)] && v in temps && TablesClosed(e.Before())
    requires !Live(e.Before(), |e.pre| + 2, v)
    ensures EditOk(temps, e)
  {
    hide Live, RegUsed, TablesClosed, EditOk, Exec, Wrap;
    UpRead1(PshG4(g), v);
    forall s ensures SameBut(temps, e.w, e.w2, s, {v}, false) { Exec2(temps, e.w[0], e.w[1], s); Exec1(temps, e.w2[0], s); }
    RuleOk(temps, e, {v}, false);
  }

  // ---- Postponing the initialization of a temporary ----

  predicate NotAbout(w: seq<Instr>, v: int) {
    forall k :: 0 <= k < |w| ==> Straight(w[k]) && !IsTempVarReadByInstr(w[k], v) && !IsTempVarOverwrittenByInstr(w[k], v)
  }

  /** An instruction that neither reads nor overwrites a temporary leaves it as it is. */
  lemma DoFrame(temps: set<int>, i: Instr, s: St, v: int)
    requires v in temps && Straight(i) && !IsTempVarReadByInstr(i, v) && Target(i) != Some(v) && Do(temps, i, s).Some?
    requires s.taken != Some(v)
    ensures Get(Do(temps, i, s).value.vars, v) == Get(s.vars, v)
  {
    hide Act;
    if Target(i).Some? { TargetFrame(temps, i, s, v); }
    else if i.WRTV4? || i.INCi? || i.DECi? { ThroughFrame(temps, i, s, v); }
    else { ActFrame(temps, i, s, v); }
  }

  lemma TargetFrame(temps: set<int>, i: Instr, s: St, v: int)
    requires Target(i).Some? && Target(i) != Some(v) && Act(temps, i, s).Some?
    ensures Get(Act(temps, i, s).value.vars, v) == Get(s.vars, v)
  {
    hide Wrap, Calc, Load;
  }

  lemma ActFrame(temps: set<int>, i: Instr, s: St, v: int)
    requires !IsTempVarReadByInstr(i, v) && Target(i).None? && !i.WRTV4? && !i.INCi? && !i.DECi? && Act(temps, i, s).Some?
    ensures Get(Act(temps, i, s).value.vars, v) == Get(s.vars, v)
  {
    hide Wrap, Calc, Taken, Passes, Compare, Load;
  }

  lemma ThroughFrame(temps: set<int>, i: Instr, s: St, v: int)
    requires v in temps && (i.WRTV4? || i.INCi? || i.DECi?) && Act(temps, i, s).Some? && s.taken != Some(v)
    ensures Get(Act(temps, i, s).value.vars, v) == Get(s.vars, v)
  {
    hide Wrap, Store, Bump;
    match i
    case WRTV4(x) => StoreFrame(temps, s, s.reg, Get(s.vars, x), v);
    case INCi => BumpFrame(temps, s, s.reg, 1, v);
    case DECi => BumpFrame(temps, s, s.reg, -1, v);
  }

  lemma StoreFrame(temps: set<int>, s: St, a: Val, w: Val, v: int)
    requires v in temps && s.taken != Some(v) && Store(temps, s, a, w).Some?
    ensures Get(Store(temps, s, a, w).value.vars, v) == Get(s.vars, v)
  {
  }

  lemma BumpFrame(temps: set<int>, s: St, a: Val, delta: int, v: int)
    requires v in temps && s.taken != Some(v) && Bump(temps, s, a, delta).Some?
    ensures Get(Bump(temps, s, a, delta).value.vars, v) == Get(s.vars, v)
  {
  }

  lemma {:induction false} ExecPast(temps: set<int>, w: seq<Instr>, s: St, t: St, v: int)
    requires v in temps && NotAbout(w, v) && EqualBut(s, t, {v}, false) && Exec(temps, w, s).Some? && s.taken != Some(v)
    ensures Exec(temps, w, t).Some? && EqualBut(Exec(temps, w, s).value, Exec(temps, w, t).value, {v}, false)
    ensures Get(Exec(temps, w, s).value.vars, v) == Get(s.vars, v)
    decreases |w|
  {
    hide Do;
    if w != [] {
      assert Straight(w[0]) && !IsTempVarReadByInstr(w[0], v) && !IsTempVarOverwrittenByInstr(w[0], v);
      DoSim(temps, w[0], s, t);
      DoFrame(temps, w[0], s, v);
      forall k | 0 <= k < |w[1..]|
        ensures Straight(w[1..][k]) && !IsTempVarReadByInstr(w[1..][k], v) && !IsTempVarOverwrittenByInstr(w[1..][k], v)
      {
        assert w[1..][k] == w[k + 1];
      }
      ExecPast(temps, w[1..], Do(temps, w[0], s).value, Do(temps, w[0], t).value, v);
    }
  }

  lemma {:induction false} ExecAppend(temps: set<int>, w: seq<Instr>, i: Instr, s: St)
    ensures Exec(temps, w + [i], s) == match Exec(temps, w, s) case Some(s1) => Do(temps, i, s1) case None => None
    decreases |w|
  {
    hide Do;
    if w == [] {
      assert w + [i] == [i];
      Exec1(temps, i, s);
    } else {
      assert (w + [i])[1..] == w[1..] + [i];
      match Do(temps, w[0], s) case Some(s1) => ExecAppend(temps, w[1..], i, s1); case None =>
    }
  }

  /** Works through an address it finds in the register or on the stack. */
  predicate FollowsAddr(i: Instr) {
    i.INCi? || i.DECi? || i.RDR4? || i.WRTV4? || i.RDSPtr?
  }

  lemma DoAnyTaken(temps: set<int>, i: Instr, s: St, t: St)
    requires Straight(i) && !FollowsAddr(i) && EqualBut(s, t.(taken := s.taken), {}, false) && Do(temps, i, s).Some?
    ensures Do(temps, i, t).Some? && EqualBut(Do(temps, i, s).value, Do(temps, i, t).value, {}, false)
  {
    hide Do;
    var u := t.(taken := s.taken);
    DoSim(temps, i, s, u);
    DoTaken(temps, i, u, t.taken);
  }

  lemma DoTaken(temps: set<int>, i: Instr, s: St, v: Option<int>)
    requires Straight(i) && !FollowsAddr(i)
    ensures Do(temps, i, s.(taken := v)) == Do(temps, i, s)
  {
    hide Do;
    if Target(i).Some? { TargetTaken(temps, i, s, v); } else { OtherTaken(temps, i, s, v); }
  }

  lemma TargetTaken(temps: set<int>, i: Instr, s: St, v: Option<int>)
    requires Straight(i) && !FollowsAddr(i) && Target(i).Some?
    ensures Do(temps, i, s.(taken := v)) == Do(temps, i, s)
  {
    hide Wrap, Calc;
  }

  lemma OtherTaken(temps: set<int>, i: Instr, s: St, v: Option<int>)
    requires Straight(i) && !FollowsAddr(i) && Target(i).None?
    ensures Do(temps, i, s.(taken := v)) == Do(temps, i, s)
  {
    hide Wrap, Passes, Compare;
  }

  /** An initialization moves past what is not about its variable, up to an instruction that follows no address. */
  lemma Postpone(temps: set<int>, e: Edit, v: int, k: int, mid: seq<Instr>, use: Instr)
    requires e.w == [SetV4(v, k)] + mid + [use] && e.w2 == mid + [SetV4(v, k), use] && v in temps && NotAbout(mid, v)
    requires Straight(use) && !FollowsAddr(use) && TablesClosed(e.Before())
    ensures EditOk(temps, e)
  {
    hide Do, NotAbout, FollowsAddr, EqualBut;
    var i := SetV4(v, k);
    forall s ensures SameBut(temps, e.w, e.w2, s, {}, false) { PostponeAt(temps, i, mid, use, s); }
    assert AllStraight(e.w) && AllStraight(e.w2) by { MidStraight(mid, v); }
    RuleOk(temps, e, {}, false);
  }

  lemma MidStraight(mid: seq<Instr>, v: int)
    requires NotAbout(mid, v)
    ensures AllStraight(mid)
  {
  }

  lemma PostponeAt(temps: set<int>, i: Instr, mid: seq<Instr>, use: Instr, s: St)
    requires i.SetV4? && i.v in temps && NotAbout(mid, i.v) && Straight(use) && !FollowsAddr(use)
    ensures SameBut(temps, [i] + mid + [use], mid + [i, use], s, {}, false)
  {
    hide Wrap, Act, NotAbout, FollowsAddr, Exec;
    var w, w2 := [i] + mid + [use], mid + [i, use];
    var t := SetVar(s, i.v, Int(Wrap(i.k))).(taken := None);
    assert Do(temps, i, s) == Some(t) by { SetDoes(temps, i, s); }
    assert w == ([i] + mid) + [use] && w2 == (mid + [i]) + [use];
    ExecAppend(temps, [i] + mid, use, s);
    ExecAppend(temps, mid + [i], use, s);
    ExecAppend(temps, mid, i, s);
    ExecCons(temps, i, mid, s);
    if Exec(temps, w, s).Some? {
      ExecPast(temps, mid, t, s, i.v);
      var a, b := Exec(temps, mid, t).value, Exec(temps, mid, s).value;
      SetDoes(temps, i, b);
      DoAnyTaken(temps, use, a, SetVar(b, i.v, Int(Wrap(i.k))).(taken := None));
    }
  }

  lemma SetDoes(temps: set<int>, i: Instr, s: St)
    requires i.SetV4?
    ensures Do(temps, i, s) == Some(SetVar(s, i.v, Int(Wrap(i.k))).(taken := None))
  {
  }

  lemma ExecCons(temps: set<int>, i: Instr, w: seq<Instr>, s: St)
    ensures Exec(temps, [i] + w, s) == match Do(temps, i, s) case Some(s1) => Exec(temps, w, s1) case None => None
  {
    assert ([i] + w)[1..] == w;
  }

  // ---- Stack ----

  predicate PushesPtr(i: Instr) {
    i.PshNull? || i.PshVPtr? || i.PSF?
  }

  /** What a push instruction pushes. */
  function Pushed(i: Instr, s: St): Val {
    match i case PshVPtr(v) => Get(s.vars, v) case PSF(v) => VarAddr(v) case _ => Int(0)
  }

  lemma PushDoes(temps: set<int>, i: Instr, s: St)
    requires PushesPtr(i)
    ensures Do(temps, i, s) == Some(Push(s, Pushed(i, s)).(taken := TakesAddr(i)))
  {
  }

  lemma TwoPushes(temps: set<int>, a: Instr, b: Instr, s: St)
    requires PushesPtr(a) && PushesPtr(b)
    ensures Exec(temps, [a, b], s) == Some(Push(Push(s, Pushed(a, s)), Pushed(b, s)).(taken := TakesAddr(b)))
  {
    hide Do;
    PushDoes(temps, a, s);
    var s1 := Push(s, Pushed(a, s)).(taken := TakesAddr(a));
    PushDoes(temps, b, s1);
    Exec2(temps, a, b, s);
  }

  lemma SwapDoes(temps: set<int>, s: St, x: Val, y: Val, v: Option<int>)
    ensures Do(temps, SwapPtr, Push(Push(s, x), y).(taken := v)) == Some(Push(Push(s, y), x).(taken := None))
  {
    var t := Push(Push(s, x), y).(taken := v);
    assert [t.stack[1], t.stack[0]] + t.stack[2..] == Push(Push(s, y), x).stack;
  }

  lemma SwapPushes(temps: set<int>, e: Edit, a: Instr, b: Instr)
    requires e.w == [a, b, SwapPtr] && e.w2 == [b, a] && PushesPtr(a) && PushesPtr(b) && TablesClosed(e.Before())
    ensures EditOk(temps, e)
  {
    hide Do, UpRead, Live, RegUsed, Pushed, Push;
    forall s ensures SameBut(temps, e.w, e.w2, s, {}, false) {
      TwoPushes(temps, a, b, s);
      TwoPushes(temps, b, a, s);
      SwapDoes(temps, s, Pushed(a, s), Pushed(b, s), TakesAddr(b));
      assert e.w == [a, b] + [SwapPtr];
      ExecAppend(temps, [a, b], SwapPtr, s);
    }
    RuleOk(temps, e, {}, false);
  }

  lemma PushPop(temps: set<int>, e: Edit, a: Instr)
    requires e.w == [a, PopPtr] && e.w2 == [] && PushesPtr(a) && TablesClosed(e.Before())
    ensures EditOk(temps, e)
  {
    forall s ensures SameBut(temps, e.w, e.w2, s, {}, false) {
      Exec2(temps, a, PopPtr, s);
      PushDoes(temps, a, s);
    }
    RuleOk(temps, e, {}, false);
  }

  lemma LoadPop(temps: set<int>, e: Edit)
    requires e.w == [RDSPtr, PopPtr] && e.w2 == [PopPtr] && TablesClosed(e.Before())
    ensures EditOk(temps, e)
  {
    hide UpRead, Live, RegUsed, TablesClosed, EditOk, Exec;
    forall s ensures SameBut(temps, e.w, e.w2, s, {}, false) {
      Exec2(temps, RDSPtr, PopPtr, s);
      Exec1(temps, PopPtr, s);
    }
    RuleOk(temps, e, {}, false);
  }

  /** The address of any variable may be followed by the next instruction, a temporary's too. */
  lemma PushLoadDoes(temps: set<int>, v: int, s: St)
    ensures Exec(temps, [PSF(v), RDSPtr], s) == Some(Push(s, Get(s.vars, v)).(taken := None))
  {
    Exec2(temps, PSF(v), RDSPtr, s);
    var s1 := Push(s, VarAddr(v)).(taken := Some(v));
    assert Do(temps, PSF(v), s) == Some(s1);
    assert Load(temps, s1, VarAddr(v)) == Some(Get(s.vars, v));
    assert [Get(s.vars, v)] + s1.stack[1..] == Push(s, Get(s.vars, v)).stack;
  }

  lemma PushLoad(temps: set<int>, e: Edit, v: int)
    requires e.w == [PSF(v), RDSPtr] && e.w2 == [PshVPtr(v)] && TablesClosed(e.Before())
    ensures EditOk(temps, e)
  {
    hide UpRead, Live, RegUsed, TablesClosed, EditOk, Do, Exec, Push;
    forall s ensures SameBut(temps, e.w, e.w2, s, {}, false) {
      PushLoadDoes(temps, v, s);
      Exec1(temps, PshVPtr(v), s);
      PushDoes(temps, PshVPtr(v), s);
    }
    RuleOk(temps, e, {}, false);
  }

  // ---- The value register ----

  /** So it is incremented, with a wrap at 32 bits, if it holds a number. */
  lemma IncrementDoes(temps: set<int>, v: int, up: bool, s: St)
    ensures Exec(temps, [LDV(v), if up then INCi else DECi], s) ==
      if !Get(s.vars, v).Int? then None
      else Some(SetVar(s, v, Int(Wrap(Get(s.vars, v).n + if up then 1 else -1))).(reg := VarAddr(v), taken := None))
  {
    hide Wrap;
    Exec2(temps, LDV(v), if up then INCi else DECi, s);
  }

  lemma IncrementVar(temps: set<int>, e: Edit, v: int, up: bool)
    requires e.w == [LDV(v), if up then INCi else DECi] && e.w2 == [if up then IncVi(v) else DecVi(v)] && TablesClosed(e.Before())
    requires !RegUsed(e.Before(), |e.pre| + 2)
    ensures EditOk(temps, e)
  {
    hide Wrap;
    forall s ensures SameBut(temps, e.w, e.w2, s, {}, true) { Exec2(temps, e.w[0], e.w[1], s); Exec1(temps, e.w2[0], s); }
    RuleOk(temps, e, {}, true);
  }

  lemma WriteGlobal(temps: set<int>, e: Edit, v: int, g: int)
    requires e.w == [LDG(g), WRTV4(v)] && e.w2 == [CpyVtoG4(v, g)] && TablesClosed(e.Before())
    requires !RegUsed(e.Before(), |e.pre| + 2)
    ensures EditOk(temps, e)
  {
    forall s ensures SameBut(temps, e.w, e.w2, s, {}, true) { Exec2(temps, e.w[0], e.w[1], s); Exec1(temps, e.w2[0], s); }
    RuleOk(temps, e, {}, true);
  }

  lemma ReadGlobal(temps: set<int>, e: Edit, v: int, g: int, used: bool)
    requires e.w == [LDG(g), RDR4(v)] && e.w2 == [if used then LdGRdR4(v, g) else CpyGtoV4(v, g)] && TablesClosed(e.Before())
    requires RegUsed(e.Before(), |e.pre| + 2) ==> used
    ensures EditOk(temps, e)
  {
    hide Live, RegUsed, TablesClosed, EditOk, Exec, SameBut;
    var regDead := !used;
    forall s ensures SameBut(temps, e.w, e.w2, s, {}, regDead) { GlobalRead(temps, v, g, used, s); }
    RuleOk(temps, e, {}, regDead);
  }

  lemma GlobalRead(temps: set<int>, v: int, g: int, used: bool, s: St)
    ensures SameBut(temps, [LDG(g), RDR4(v)], [if used then LdGRdR4(v, g) else CpyGtoV4(v, g)], s, {}, !used)
  {
    Exec2(temps, LDG(g), RDR4(v), s);
    Exec1(temps, if used then LdGRdR4(v, g) else CpyGtoV4(v, g), s);
  }

  lemma TestClears(temps: set<int>, e: Edit, t: TestOp)
    requires e.w == [Test(t), ClrHi] && e.w2 == [Test(t)] && TablesClosed(e.Before())
    ensures EditOk(temps, e)
  {
    hide Passes;
    forall s ensures SameBut(temps, e.w, e.w2, s, {}, false) { Exec2(temps, e.w[0], e.w[1], s); Exec1(temps, e.w2[0], s); }
    RuleOk(temps, e, {}, false);
  }

  // ---- Conditional jumps ----

  lemma JumpRule(temps: set<int>, e: Edit, a: Instr, cond: Cond, cond2: Cond, l: int)
    requires e.w == [a, Jump(cond, l)] && e.w2 == [Jump(cond2, l)] && Straight(a)
    requires forall s :: Do(temps, a, s).Some? && Do(temps, a, s).value.reg.Int? ==>
      JumpsAlike(temps, cond, cond2, Do(temps, a, s).value, Some(s))
    ensures EditOk(temps, e)
  {
    hide Do, Taken, JumpsAlike;
    var u, u2 := e.w[..|e.w| - 1], e.w2[..|e.w2| - 1];
    assert u == [a] && u2 == [];
    forall s | Exec(temps, u, s).Some? && Exec(temps, u, s).value.reg.Int?
      ensures JumpsAlike(temps, e.w[|e.w| - 1].cond, e.w2[|e.w2| - 1].cond, Exec(temps, u, s).value, Exec(temps, u2, s))
    {
      Exec1(temps, a, s);
    }
    assert JumpOk(temps, e);
  }

  lemma ClearJump(temps: set<int>, e: Edit, l: int, zero: bool)
    requires e.w == [ClrHi, Jump(if zero then JZ else JNZ, l)] && e.w2 == [Jump(if zero then JLowZ else JLowNZ, l)]
    ensures EditOk(temps, e)
  {
    hide EditOk, JumpsAlike, Do;
    forall s | Do(temps, ClrHi, s).Some? && Do(temps, ClrHi, s).value.reg.Int?
      ensures JumpsAlike(temps, if zero then JZ else JNZ, if zero then JLowZ else JLowNZ, Do(temps, ClrHi, s).value, Some(s)) {
      ClearsAlike(temps, zero, s);
    }
    JumpRule(temps, e, ClrHi, if zero then JZ else JNZ, if zero then JLowZ else JLowNZ, l);
  }

  lemma ClearsAlike(temps: set<int>, zero: bool, s: St)
    requires Do(temps, ClrHi, s).Some? && Do(temps, ClrHi, s).value.reg.Int?
    ensures JumpsAlike(temps, if zero then JZ else JNZ, if zero then JLowZ else JLowNZ, Do(temps, ClrHi, s).value, Some(s))
  {
  }

  /** The jump that does what a test followed by a jump on its result does. */
  function TestJump(t: TestOp, cond: Cond): Option<Cond> {
    if cond == JZ || cond == JLowZ then
      Some(match t case TZ => JNZ case TNZ => JZ case TS => JNS case TNS => JS case TP => JNP case TNP => JP)
    else if cond == JNZ || cond == JLowNZ then
      Some(match t case TZ => JZ case TNZ => JNZ case TS => JS case TNS => JNS case TP => JP case TNP => JNP)
    else None
  }

  lemma TestJumps(temps: set<int>, e: Edit, t: TestOp, cond: Cond, l: int)
    requires TestJump(t, cond).Some?
    requires e.w == [Test(t), Jump(cond, l)] && e.w2 == [Jump(TestJump(t, cond).value, l)]
    ensures EditOk(temps, e)
  {
    JumpRule(temps, e, Test(t), cond, TestJump(t, cond).value, l);
  }
}
