/** From the list the compiler delivers to the one the machine executes: dead code out, what is superfluous out, and what
    the list then does and needs. */
module Finalize {
  import opened Options
  import opened Bytecode
  import opened Encoding
  import opened InstructionList
  import opened Conventions
  import opened Machine
  import opened Deletions
  import opened UnreachableCode
  import opened GlobalOptimizer
  import opened Linker
  import opened Execution

  // ---- After dead code is gone ----

  lemma FullFits(nodes: seq<Node>)
    requires FullTables(nodes)
    ensures TablesFit(nodes)
  {
    forall p: nat, n: int | p < |nodes| && nodes[p].op.JMPP? && InTable(Ops(nodes), p, n) ensures n <= nodes[p].max {
      assert FullTable(nodes, p);
      TableOrNot(nodes, p, n);
    }
  }

  /** A move among the kept instructions is one in the whole list. */
  lemma MoveKept(all: seq<Node>, p: nat, q2: nat) returns (q: nat)
    requires Closed(all) && FullTables(all) && p < |all| && all[p].marked && Moves(Kept(all), Rank(all, p), q2)
    ensures q < |all| && all[q].marked && Rank(all, q) == q2 && Follows(all, p, q)
  {
    hide Kept, Rank, FindLabel;
    KeptHere(all, p);
    match all[p].op
    case JMP(l) => q := JumpKept(all, p, l);
    case Jump(_, l) =>
      if q2 == Rank(all, p) + 1 { q := NextKept(all, p, q2); } else { q := JumpKept(all, p, l); }
    case JMPP(_) => q := SwitchKept(all, p, q2);
    case _ => q := NextKept(all, p, q2);
  }

  lemma KeptHere(all: seq<Node>, p: nat)
    requires p < |all| && all[p].marked
    ensures Rank(all, p) < |Kept(all)| && Kept(all)[Rank(all, p)] == all[p]
  {
    RankAll(all);
    assert all[..|all|] == all;
    KeptAt(all, p, |all|);
  }

  lemma NextKept(all: seq<Node>, p: nat, q2: nat) returns (q: nat)
    requires Closed(all) && p < |all| && all[p].marked && q2 == Rank(all, p) + 1 < |Kept(all)|
    requires !all[p].op.JMP? && !all[p].op.JMPP?
    ensures q < |all| && all[q].marked && Rank(all, q) == q2 && Follows(all, p, q)
  {
    hide Kept, Rank, FindLabel;
    q := p + 1;
    RankNext(all, p);
    RankAll(all);
    assert q < |all|;
    assert Follows(all, p, q);
  }

  lemma JumpKept(all: seq<Node>, p: nat, l: int) returns (q: nat)
    requires Closed(all) && p < |all| && all[p].marked && (all[p].op == JMP(l) || (all[p].op.Jump? && all[p].op.l == l))
    ensures q < |all| && all[q].marked && Follows(all, p, q)
    ensures Rank(all, p) < |Kept(all)| && FindLabel(Ops(Kept(all)), Rank(all, p), l) == Some(Rank(all, q))
  {
    hide Kept, Rank, FindLabel;
    assert HasLabel(all, p);
    q := FindLabel(Ops(all), p, l).value;
    assert Follows(all, p, q);
    LabelKept(all, p, l, q);
  }

  lemma SwitchKept(all: seq<Node>, p: nat, q2: nat) returns (q: nat)
    requires Closed(all) && FullTables(all) && p < |all| && all[p].marked && all[p].op.JMPP?
    requires Rank(all, p) < q2 <= Rank(all, p) + 1 + all[p].max
    ensures q < |all| && all[q].marked && Rank(all, q) == q2 && Follows(all, p, q)
  {
    hide Kept, Rank, FindLabel, Closed, FullTables, FullTable;
    q := p + (q2 - Rank(all, p));
    TableIsFull(all, p);
    EntryIn(all, p, q - p - 1);
    EntryKept(all, p, q - p - 1);
    TableKept(all, p, q - p - 1);
  }

  lemma EntryIn(all: seq<Node>, p: nat, n: nat)
    requires p < |all| && all[p].op.JMPP? && FullTable(all, p) && n <= all[p].max
    ensures p + 1 + n < |all| && InTable(Ops(all), p, n) && Follows(all, p, p + 1 + n)
  {
  }

  /** The depth each kept instruction carries bounds what the machine needs. */
  lemma KeptBounded(n0: seq<Node>, depth: nat -> int, all: seq<Node>, largest: int)
    requires Consistent(n0, depth) && FullTables(n0) && Searched(n0, depth, all, largest)
    ensures Bounded(Kept(all), largest)
  {
    hide Kept, Consistent, FullTables, Follows, Reachable;
    var kept := Kept(all);
    var h := seq(|kept|, i requires 0 <= i < |kept| => kept[i].stackSize);
    SameFull(n0, all);
    FullFits(n0);
    SearchedClosed(n0, depth, all, largest);
    forall p2: nat, q2: nat | Moves(kept, p2, q2) ensures h[p2] + kept[p2].stackInc <= h[q2] {
      RankAll(all);
      var p := KeptFrom(all, |all|, p2);
      KeptHere(all, p);
      var q := MoveKept(all, p, q2);
      KeptHere(all, q);
      FollowsSame(n0, all, p, q);
      FollowsDepth(n0, depth, p, q);
    }
    forall p2: nat | p2 < |kept| ensures h[p2] <= largest && h[p2] + kept[p2].stackInc <= largest {
      RankAll(all);
      var p := KeptFrom(all, |all|, p2);
      KeptHere(all, p);
      DepthBound(n0, depth, all, largest, p);
    }
    FirstKept(n0, depth, all, largest);
    assert Capped(kept, h, largest);
  }

  lemma FirstKept(n0: seq<Node>, depth: nat -> int, all: seq<Node>, largest: int)
    requires Consistent(n0, depth) && Searched(n0, depth, all, largest)
    ensures |Kept(all)| > 0 && Kept(all)[0] == all[0] && all[0].marked && all[0].stackSize == 0
  {
    ReachFirst(n0);
    KeptHere(all, 0);
    assert all[..0] == [];
  }

  lemma SameFull(n0: seq<Node>, all: seq<Node>)
    requires FullTables(n0) && SameList(n0, all)
    ensures FullTables(all) && Ops(all) == Ops(n0)
  {
    forall p: nat | p < |all| && all[p].op.JMPP? ensures FullTable(all, p) { assert FullTable(n0, p); }
  }

  lemma FollowsSame(n0: seq<Node>, all: seq<Node>, p: nat, q: nat)
    requires SameList(n0, all) && Follows(all, p, q)
    ensures Follows(n0, p, q)
  {
    assert Ops(all) == Ops(n0);
  }

  // ---- Tables of kept switches ----

  lemma Predecessor(n0: seq<Node>, u: nat) returns (v: nat)
    requires u > 0 && Reachable(n0, u)
    ensures Reachable(n0, v) && v < |n0| && Follows(n0, v, u)
  {
    hide Follows;
    var n: nat :| ReachedIn(n0, u, n);
    v :| ReachedIn(n0, v, n - 1) && Follows(n0, v, u);
    FollowsIn(n0, v, u);
  }

  lemma FollowsIn(n0: seq<Node>, v: nat, u: nat)
    requires Follows(n0, v, u)
    ensures v < |n0| && u < |n0|
  {
  }

  /** No other way leads behind a table than a jump to a label there. */
  lemma IntoLabel(n0: seq<Node>, p: nat, v: nat, u: nat)
    requires FullTables(n0) && p < |n0| && n0[p].op.JMPP? && p + 2 + n0[p].max <= u && Follows(n0, v, u)
    requires v < p + 2 + n0[p].max || v >= u
    ensures n0[u].op.LABEL?
  {
    assert FullTable(n0, p);
    if n0[v].op.JMPP? { assert FullTable(n0, v); }
  }

  /** Behind the table of a kept switch the next instruction kept is a label: nothing else is reached but from before it. */
  lemma LabelNext(n0: seq<Node>, depth: nat -> int, all: seq<Node>, largest: int, p: nat, u: nat)
    requires FullTables(n0) && Searched(n0, depth, all, largest)
    requires p < |all| && all[p].op.JMPP? && all[p].marked && p + 2 + all[p].max <= u < |all| && all[u].marked
    requires forall j :: p + 2 + all[p].max <= j < u ==> !all[j].marked
    ensures all[u].op.LABEL?
  {
    hide FullTables, Follows, Reachable;
    var v := Predecessor(n0, u);
    assert all[v].marked;
    assert n0[p].SameInstr(all[p]) && n0[u].SameInstr(all[u]);
    IntoLabel(n0, p, v, u);
  }

  lemma KeptFull(n0: seq<Node>, depth: nat -> int, all: seq<Node>, largest: int)
    requires Consistent(n0, depth) && FullTables(n0) && Searched(n0, depth, all, largest)
    ensures FullTables(Kept(all))
  {
    hide Consistent, Searched, FullTable;
    forall p2: nat | p2 < |Kept(all)| && Kept(all)[p2].op.JMPP? ensures FullTable(Kept(all), p2) {
      RankAll(all);
      var p := KeptFrom(all, |all|, p2);
      KeptHere(all, p);
      KeptTable(n0, depth, all, largest, p);
    }
  }

  lemma KeptEntries(all: seq<Node>, p: nat)
    requires Closed(all) && FullTables(all) && p < |all| && all[p].op.JMPP? && all[p].marked
    ensures var m, p2 := all[p].max, Rank(all, p);
      && p + 2 + m <= |all| && Rank(all, p + 2 + m) == p2 + 2 + m <= |Kept(all)|
      && forall k :: p2 < k < p2 + 2 + m ==> Kept(all)[k].op.JMP?
  {
    hide Kept, Rank, Closed, FullTables;
    assert FullTable(all, p) by { TableIsFull(all, p); }
    var m, p2 := all[p].max, Rank(all, p);
    assert InTable(Ops(all), p, m);
    TableKept(all, p, m);
    EntryKept(all, p, m);
    RankNext(all, p + 1 + m);
    RankAll(all);
    RankMonotone(all, p + 2 + m, |all|);
    forall k | p2 < k < p2 + 2 + m ensures Kept(all)[k].op.JMP? { assert Ops(Kept(all))[k].JMP?; }
  }

  lemma TableIsFull(all: seq<Node>, p: nat)
    requires FullTables(all) && p < |all| && all[p].op.JMPP?
    ensures FullTable(all, p)
  {
  }

  lemma KeptTable(n0: seq<Node>, depth: nat -> int, all: seq<Node>, largest: int, p: nat)
    requires Consistent(n0, depth) && FullTables(n0) && Searched(n0, depth, all, largest)
    requires p < |all| && all[p].op.JMPP? && all[p].marked
    ensures Rank(all, p) < |Kept(all)| && Kept(all)[Rank(all, p)] == all[p] && FullTable(Kept(all), Rank(all, p))
  {
    hide Kept, Rank, Consistent, Searched, FullTables, Closed;
    SearchedSame(n0, depth, all, largest);
    SameFull(n0, all);
    FullFits(n0);
    SearchedClosed(n0, depth, all, largest);
    KeptHere(all, p);
    KeptEntries(all, p);
    var end := Rank(all, p + 2 + all[p].max);
    if end < |Kept(all)| {
      RankAll(all);
      var u := KeptFrom(all, |all|, end);
      FirstAfter(all, p + 2 + all[p].max, u);
      LabelNext(n0, depth, all, largest, p, u);
      KeptHere(all, u);
    }
  }

  lemma SearchedSame(n0: seq<Node>, depth: nat -> int, all: seq<Node>, largest: int)
    requires Searched(n0, depth, all, largest)
    ensures SameList(n0, all)
  {
  }

  /** u is the first marked instruction from a on. */
  lemma FirstAfter(all: seq<Node>, a: nat, u: nat)
    requires a <= |all| && u < |all| && all[u].marked && Rank(all, u) == Rank(all, a)
    ensures a <= u && forall j :: a <= j < u ==> !all[j].marked
  {
    hide Rank;
    if u < a {
      RankNext(all, u);
      RankMonotone(all, u + 1, a);
    }
    forall j | a <= j < u ensures !all[j].marked {
      RankMonotone(all, a, j);
      RankNext(all, j);
      RankMonotone(all, j + 1, u);
    }
  }

  // ---- Runs ----

  /** The machine does on the kept instructions what it does on all. */
  lemma {:induction false} RealRunKept(temps: set<int>, all: seq<Node>, p: nat, s: St, fuel: nat)
    requires Closed(all) && p <= |all| && (p < |all| ==> all[p].marked) && RealRun(temps, Ops(all), p, s, fuel) != Fault
    ensures RealRun(temps, Ops(Kept(all)), Rank(all, p), s, fuel) == RealRun(temps, Ops(all), p, s, fuel)
    decreases fuel
  {
    hide Step, RealStep, Closed, Kept, Rank;
    if p == |all| {
      RankAll(all);
      RealEnd(temps, Ops(all), s);
      RealEnd(temps, Ops(Kept(all)), s);
    } else {
      RealStepKept(temps, all, p, s);
      var r := RealStep(temps, Ops(all), p, s);
      if r.Go? && fuel > 0 { RealRunKept(temps, all, r.pc, r.s, fuel - 1); }
    }
  }

  lemma RealEnd(temps: set<int>, c: seq<Instr>, s: St)
    ensures RealStep(temps, c, |c|, s) == Halt(FellOff, s)
  {
  }

  lemma RealStepKept(temps: set<int>, all: seq<Node>, p: nat, s: St)
    requires Closed(all) && p < |all| && all[p].marked && RealStep(temps, Ops(all), p, s) != Fault
    ensures var r, r2 := RealStep(temps, Ops(all), p, s), RealStep(temps, Ops(Kept(all)), Rank(all, p), s);
      if r.Go? then r.pc <= |all| && (r.pc < |all| ==> all[r.pc].marked) && r2 == Go(Rank(all, r.pc), r.s) else r2 == r
  {
    hide Step, Closed, Kept, Rank;
    StepKept(temps, all, Keep(s), p, s);
    KeptHere(all, p);
  }

  lemma MachineRunKept(temps: set<int>, n0: seq<Node>, depth: nat -> int, all: seq<Node>, largest: int, s: St, fuel: nat)
    requires Consistent(n0, depth) && FullTables(n0) && Searched(n0, depth, all, largest)
    requires MachineRun(temps, n0, 0, s, fuel) != Fault
    ensures MachineRun(temps, Kept(all), 0, s, fuel) == MachineRun(temps, n0, 0, s, fuel)
  {
    hide Consistent, FullTables, Kept, Rank;
    SameFull(n0, all) by { SearchedSame(n0, depth, all, largest); }
    FullFits(n0);
    SearchedClosed(n0, depth, all, largest);
    FirstKept(n0, depth, all, largest);
    KeptFull(n0, depth, all, largest);
    RunIsRealRun(temps, n0, 0, s, fuel);
    RunIsRealRun(temps, Kept(all), 0, s, fuel);
    RealRunKept(temps, all, 0, s, fuel);
    assert Rank(all, 0) == 0 by { RankNone(all); }
  }

  lemma RankNone(all: seq<Node>)
    ensures Rank(all, 0) == 0
  {
    assert all[..0] == [];
  }

  // ---- The stack ----

  function MachineAfter(temps: set<int>, nodes: seq<Node>, p: nat, s: St, n: nat): Outcome
    decreases n
  {
    if n == 0 then Go(p, s) else match MachineStep(temps, nodes, p, s) case Go(q, t) => MachineAfter(temps, nodes, q, t, n - 1) case r => r
  }

  lemma StepMoves(temps: set<int>, nodes: seq<Node>, p: nat, s: St)
    requires p < |nodes| && Even(nodes) && MachineStep(temps, nodes, p, s).Go?
    ensures var r := MachineStep(temps, nodes, p, s);
      r.pc <= |nodes| && (r.pc < |nodes| ==> Moves(nodes, p, r.pc)) && |r.s.stack| == |s.stack| + nodes[p].stackInc
  {
    hide Do, FindLabel, Taken, InTable;
    assert nodes[p] in nodes;
    if !nodes[p].op.JMPP? { StepStack(temps, Ops(nodes), Keep(s), p, s); }
  }

  /** Wherever a run is, its stack has grown by no more than the largest depth the search reported. */
  lemma StackWithinCap(temps: set<int>, nodes: seq<Node>, largest: int, s: St, n: nat)
    requires Bounded(nodes, largest) && Even(nodes) && MachineAfter(temps, nodes, 0, s, n).Go?
    ensures |MachineAfter(temps, nodes, 0, s, n).s.stack| <= |s.stack| + largest
  {
    hide Capped, Even;
    var h :| Capped(nodes, h, largest);
    CapFacts(nodes, h, largest);
    StackAt(temps, nodes, h, largest, 0, s, n);
  }

  lemma CapFacts(nodes: seq<Node>, h: seq<int>, largest: int)
    requires Capped(nodes, h, largest)
    ensures |h| == |nodes| && largest >= 0 && (|h| > 0 ==> h[0] >= 0)
  {
  }

  lemma {:induction false} StackAt(temps: set<int>, nodes: seq<Node>, h: seq<int>, largest: int, p: nat, s: St, n: nat)
    requires Capped(nodes, h, largest) && Even(nodes) && p <= |nodes| == |h| && MachineAfter(temps, nodes, p, s, n).Go?
    ensures |MachineAfter(temps, nodes, p, s, n).s.stack| <= |s.stack| + if p < |h| then largest - h[p] else 0
    decreases n
  {
    hide MachineStep, Even, Moves;
    if n > 0 {
      StepsWithin(temps, nodes, p, s);
      StepMoves(temps, nodes, p, s);
      var r := MachineStep(temps, nodes, p, s);
      StackAt(temps, nodes, h, largest, r.pc, r.s, n - 1);
    }
  }

  // ---- The stages together ----

  lemma KeptEven(all: seq<Node>, n: Node)
    requires n in Kept(all)
    ensures n in all
    decreases |all|
  {
    var m := |all| - 1;
    if n in Kept(all[..m]) { KeptEven(all[..m], n); }
  }

  /** The tables know every node of n, if they knew those of n0. */
  lemma TabledFrom(n0: seq<Node>, n: seq<Node>, withoutCues: bool)
    requires Tabled(n0, withoutCues) && forall x :: x in n ==> exists y :: y in n0 && x.SameInstr(y)
    ensures Tabled(n, withoutCues) && Even(n)
  {
    forall x | x in n ensures x.stackInc == StackInc(x.op) && x.size == if x.op.LINE? && !withoutCues then 1 else SizeOf(x.op) {
      var y :| y in n0 && x.SameInstr(y);
    }
  }

  lemma KeptTabled(n0: seq<Node>, all: seq<Node>, withoutCues: bool)
    requires Tabled(n0, withoutCues) && SameList(all, n0)
    ensures Tabled(Kept(all), withoutCues) && Even(Kept(all))
  {
    forall x | x in Kept(all) ensures exists y :: y in n0 && x.SameInstr(y) {
      KeptEven(all, x);
      var i :| 0 <= i < |all| && all[i] == x;
      assert n0[i] in n0;
    }
    TabledFrom(n0, Kept(all), withoutCues);
  }

  lemma DerivedTabled(n0: seq<Node>, n: seq<Node>, origin: seq<nat>, withoutCues: bool)
    requires Tabled(n0, withoutCues) && Derived(n0, n, origin)
    ensures Tabled(n, withoutCues) && Even(n)
  {
    forall x | x in n ensures exists y :: y in n0 && x.SameInstr(y) {
      var i :| 0 <= i < |n| && n[i] == x;
      assert n0[origin[i]] in n0;
    }
    TabledFrom(n0, n, withoutCues);
  }

  lemma KeptFinds(all: seq<Node>)
    requires Closed(all)
    ensures JumpsFind(Kept(all))
  {
    hide Closed, FindLabel, Kept, Rank;
    var kept := Kept(all);
    forall p2: nat | p2 < |kept| && (kept[p2].op.JMP? || kept[p2].op.Jump?) ensures FindLabel(Ops(kept), p2, kept[p2].op.l).Some? {
      RankAll(all);
      var p := KeptFrom(all, |all|, p2);
      KeptHere(all, p);
      var q := JumpKept(all, p, kept[p2].op.l);
    }
  }

  /** Where a run of the delivered list ends, the finished one ends. */
  lemma ChainEnds(temps: set<int>, n0: seq<Node>, depth: nat -> int, all: seq<Node>, largest: int, n: seq<Node>, s: St, fuel: nat)
    requires Consistent(n0, depth) && FullTables(n0) && Searched(n0, depth, all, largest) && Carries(temps, Kept(all), n)
    requires MachineRun(temps, n0, 0, s, fuel).Halt?
    ensures var r := MachineRun(temps, n0, 0, s, fuel); MachineEnds(temps, n, 0, s, r.exit, r.s)
  {
    hide Consistent, FullTables, Searched, MachineRun, MachineEnds;
    MachineRunKept(temps, n0, depth, all, largest, s, fuel);
    assert CarriesFrom(temps, Kept(all), n, s, fuel);
  }

  /** What comes of a list before it is linked. kept: what the search for dead code leaves. */
  ghost predicate Finished(n0: seq<Node>, kept: seq<Node>, n: seq<Node>, largest: int, withoutCues: bool) {
    && FullTables(kept) && Tabled(n, withoutCues) && JumpsFind(n)
    && (AllKeepTwo(kept) ==> forall temps: set<int>, s: St, fuel: nat :: EndsFrom(temps, n0, n, s, fuel))
    && (forall temps: set<int>, s: St, k: nat :: StackFrom(temps, n, largest, s, k))
  }

  ghost predicate EndsFrom(temps: set<int>, n0: seq<Node>, n: seq<Node>, s: St, fuel: nat) {
    var r := MachineRun(temps, n0, 0, s, fuel); r.Halt? ==> MachineEnds(temps, n, 0, s, r.exit, r.s)
  }

  ghost predicate StackFrom(temps: set<int>, n: seq<Node>, largest: int, s: St, k: nat) {
    var r := MachineAfter(temps, n, 0, s, k); r.Go? ==> |r.s.stack| <= |s.stack| + largest
  }

  lemma FinishedFrom(n0: seq<Node>, depth: nat -> int, all: seq<Node>, largest: int, n: seq<Node>, origin: seq<nat>, withoutCues: bool)
    requires Consistent(n0, depth) && FullTables(n0) && Tabled(n0, withoutCues) && Searched(n0, depth, all, largest)
    requires Derived(Kept(all), n, origin) && (JumpsFind(Kept(all)) ==> JumpsFind(n))
    requires FullTables(Kept(all)) && AllKeepTwo(Kept(all)) ==> forall temps: set<int> :: Carries(temps, Kept(all), n)
    requires Even(Kept(all)) ==> forall l: int :: Bounded(Kept(all), l) ==> Bounded(n, l)
    ensures Finished(n0, Kept(all), n, largest, withoutCues)
  {
    hide Consistent, Tabled, Derived, Carries, Bounded, Kept, Even, JumpsFind, EndsFrom, StackFrom, FullTables, AllKeepTwo;
    KeptFull(n0, depth, all, largest);
    KeptTabled(n0, all, withoutCues) by { SearchedSame(n0, depth, all, largest); }
    DerivedTabled(Kept(all), n, origin, withoutCues);
    FullFits(n0);
    SearchedClosed(n0, depth, all, largest);
    KeptFinds(all);
    KeptBounded(n0, depth, all, largest);
    if AllKeepTwo(Kept(all)) {
      forall temps: set<int>, s: St, fuel: nat ensures EndsFrom(temps, n0, n, s, fuel) {
        RunEnds(temps, n0, depth, all, largest, n, s, fuel);
      }
    }
    forall temps: set<int>, s: St, k: nat ensures StackFrom(temps, n, largest, s, k) { RunFits(temps, n, largest, s, k); }
  }

  lemma RunEnds(temps: set<int>, n0: seq<Node>, depth: nat -> int, all: seq<Node>, largest: int, n: seq<Node>, s: St, fuel: nat)
    requires Consistent(n0, depth) && FullTables(n0) && Searched(n0, depth, all, largest) && Carries(temps, Kept(all), n)
    ensures EndsFrom(temps, n0, n, s, fuel)
  {
    hide Consistent, FullTables, Searched, Carries, MachineRun, MachineEnds, Kept;
    if MachineRun(temps, n0, 0, s, fuel).Halt? { ChainEnds(temps, n0, depth, all, largest, n, s, fuel); }
  }

  lemma RunFits(temps: set<int>, n: seq<Node>, largest: int, s: St, k: nat)
    requires Bounded(n, largest) && Even(n)
    ensures StackFrom(temps, n, largest, s, k)
  {
    hide Bounded, Even, MachineAfter;
    if MachineAfter(temps, n, 0, s, k).Go? { StackWithinCap(temps, n, largest, s, k); }
  }

  lemma FoundAll(n: seq<Node>)
    requires JumpsFind(n)
    ensures forall i: nat :: i < |n| ==> Found(n, i)
  {
    hide FindLabel;
  }

  lemma FinishedLinks(n0: seq<Node>, kept: seq<Node>, n: seq<Node>, largest: int, withoutCues: bool)
    requires Finished(n0, kept, n, largest, withoutCues)
    ensures FullTables(kept) && Tabled(n, withoutCues) && LineSized(n, withoutCues) && forall i: nat :: i < |n| ==> Found(n, i)
  {
    hide Found, FullTables, Tabled, LineSized;
    TabledLines(n, withoutCues);
    FoundAll(n);
  }

  // ---- Down to the dwords ----

  lemma {:induction false} KeptShorter(all: seq<Node>)
    ensures Pos(Kept(all), |Kept(all)|) <= Pos(all, |all|)
    decreases |all|
  {
    if all != [] {
      var m := |all| - 1;
      KeptShorter(all[..m]);
      PosPrefix(all, all[..m], m);
      PosPrefix(Kept(all), Kept(all[..m]), |Kept(all[..m])|);
    }
  }

  lemma {:induction false} PosPrefix(nodes: seq<Node>, before: seq<Node>, k: nat)
    requires k <= |before| <= |nodes| && before == nodes[..|before|]
    ensures Pos(nodes, k) == Pos(before, k)
    decreases k
  {
    if k > 0 { PosPrefix(nodes, before, k - 1); }
  }

  lemma {:induction false} DerivedShorter(n0: seq<Node>, n: seq<Node>, origin: seq<nat>, k: nat)
    requires Derived(n0, n, origin) && k <= |n|
    ensures k > 0 ==> Pos(n, k) <= Pos(n0, origin[k - 1] + 1)
    ensures Pos(n, k) <= Pos(n0, |n0|)
    decreases k
  {
    if k > 0 {
      DerivedShorter(n0, n, origin, k - 1);
      if k > 1 { PosMonotone(n0, origin[k - 2] + 1, origin[k - 1]); } else { PosMonotone(n0, 0, origin[0]); }
      PosMonotone(n0, origin[k - 1] + 1, |n0|);
    } else {
      PosMonotone(n0, 0, |n0|);
    }
  }

  lemma KeptOperands(n0: seq<Node>, all: seq<Node>)
    requires SameList(all, n0) && OperandsFit(n0)
    ensures OperandsFit(Kept(all))
  {
    hide Encodable;
    forall x | x in Kept(all) && JumpLabel(x.op).None? ensures Encodable(ToRaw(x.op)) {
      KeptEven(all, x);
      var i :| 0 <= i < |all| && all[i] == x;
      assert n0[i] in n0;
    }
  }

  lemma DerivedOperands(n0: seq<Node>, n: seq<Node>, origin: seq<nat>)
    requires Derived(n0, n, origin) && OperandsFit(n0)
    ensures OperandsFit(n)
  {
    hide Encodable;
    forall x | x in n && JumpLabel(x.op).None? ensures Encodable(ToRaw(x.op)) {
      var i :| 0 <= i < |n| && n[i] == x;
      assert n0[origin[i]] in n0;
    }
  }

  lemma {:induction false} SameLength(n0: seq<Node>, all: seq<Node>, k: nat)
    requires SameList(all, n0) && k <= |all|
    ensures Pos(all, k) == Pos(n0, k)
    decreases k
  {
    if k > 0 { SameLength(n0, all, k - 1); }
  }

  /** What fits before the stages fits after them. */
  lemma StillFits(n0: seq<Node>, all: seq<Node>, n: seq<Node>, origin: seq<nat>)
    requires SameList(all, n0) && Derived(Kept(all), n, origin)
    ensures OperandsFit(n0) ==> OperandsFit(n)
    ensures Pos(n, |n|) <= Pos(n0, |n0|)
  {
    hide Derived, OperandsFit, Kept, Pos;
    if OperandsFit(n0) {
      KeptOperands(n0, all);
      DerivedOperands(Kept(all), n, origin);
    }
    SameLength(n0, all, |all|);
    KeptShorter(all);
    DerivedShorter(Kept(all), n, origin, |n|);
  }

  /** Takes a function's list through all stages. kept is the list without dead code, linked that with labels still in place. */
  method FinalizeCode(nodes: seq<Node>, optimizeByteCode: bool, withoutCues: bool, ghost depth: nat -> int)
    returns (code: Linker.ByteCode, largestStackUsed: int, ghost kept: seq<Node>, ghost linked: seq<Node>, ghost resolved: seq<Node>)
    requires nodes != [] && Consistent(nodes, depth) && FullTables(nodes) && Tabled(nodes, withoutCues)
    ensures fresh(code)
    ensures Finished(nodes, kept, linked, largestStackUsed, withoutCues)
    ensures linked == if optimizeByteCode then Spared(kept) else kept
    ensures optimizeByteCode ==> FullTables(kept) && (TablesLand(linked) <==> AllKeepTwo(kept))
    ensures IsResolved(linked, resolved) && code.nodes == Extracted(resolved, withoutCues, |resolved|)
    ensures OperandsFit(linked) && Pos(linked, |linked|) < 0x8000_0000 ==> Writable(code.nodes)
    ensures (OperandsFit(nodes) ==> OperandsFit(linked)) && Pos(linked, |linked|) <= Pos(nodes, |nodes|)
    ensures Recorded(code.lineNumbers, code.sectionIdxs, Lines(resolved, |resolved|))
  {
    hide Consistent, FullTables, Tabled, Searched, Finished, Derived, Kept, Spared, Even, Bounded, JumpsFind, Settled, TablesLand, AllKeepTwo, Carries,
         IsResolved, Extracted, Writable, OperandsFit, Found, LineSized, Recorded;
    var search := new UnreachableCode.ByteCode(nodes);
    ghost var all := search.PostProcess(depth);
    kept := search.nodes;
    largestStackUsed := search.largestStackUsed;
    var optimizer := new GlobalOptimizer.ByteCode(search.nodes);
    ghost var origin := optimizer.Optimize(optimizeByteCode);
    linked := optimizer.nodes;
    FinishedFrom(nodes, depth, all, largestStackUsed, linked, origin, withoutCues);
    StillFits(nodes, all, linked, origin) by { SearchedSame(nodes, depth, all, largestStackUsed); }
    FinishedLinks(nodes, kept, linked, largestStackUsed, withoutCues);
    code := new Linker.ByteCode(optimizer.nodes);
    var ok := code.ResolveJumpAddresses();
    resolved := code.nodes;
    ResolvedLines(linked, resolved, withoutCues);
    code.ExtractLineNumbers(withoutCues);
    if OperandsFit(linked) && Pos(linked, |linked|) < 0x8000_0000 { LinkedWritable(linked, resolved, withoutCues); }
  }

  ghost predicate EmittedFrom(temps: set<int>, n0: seq<Node>, a: seq<int>, s: St, fuel: nat) {
    var r := MachineRun(temps, n0, 0, s, fuel); r.Halt? ==> EmittedEnds(temps, a, s, r.exit, r.s)
  }

  ghost predicate EmittedEnds(temps: set<int>, a: seq<int>, s: St, exit: Exit, end: St) {
    exists fuel: nat :: var r := WordRun(temps, a, 0, s, fuel); r.Halt? && r.exit == exit && EndAlike(exit, end, r.s)
  }

  lemma EmittedRuns(temps: set<int>, n0: seq<Node>, linked: seq<Node>, resolved: seq<Node>, withoutCues: bool, a: seq<int>, s: St, fuel: nat)
    requires EndsFrom(temps, n0, linked, s, fuel) && Laid(linked, resolved, withoutCues, a)
    ensures EmittedFrom(temps, n0, a, s, fuel)
  {
    hide MachineRun, WordRun, Laid, EndAlike, Alike;
    var r := MachineRun(temps, n0, 0, s, fuel);
    if r.Halt? {
      var f2: nat :| var r2 := MachineRun(temps, linked, 0, s, f2); r2.Halt? && r2.exit == r.exit && EndAlike(r.exit, r.s, r2.s);
      var r2 := MachineRun(temps, linked, 0, s, f2);
      SameAlike(s);
      RunLaid(temps, linked, resolved, withoutCues, a, 0, s, s, f2);
      var f3: nat :| var r3 := WordRun(temps, a, 0, s, f3); r3.Halt? && r3.exit == r2.exit && Alike(r2.s, r3.s);
      var r3 := WordRun(temps, a, 0, s, f3);
      AlikeEnds(r.exit, r2.s, r3.s);
      EndAlikeTrans(r.exit, r.s, r2.s, r3.s);
    }
  }

  lemma SameAlike(s: St)
    ensures Alike(s, s)
  {
  }

  lemma TogetherLaid(n0: seq<Node>, kept: seq<Node>, linked: seq<Node>, resolved: seq<Node>, largest: int, withoutCues: bool, a: seq<int>)
    requires Finished(n0, kept, linked, largest, withoutCues) && IsResolved(linked, resolved)
    requires Emitted(Extracted(resolved, withoutCues, |resolved|), a) && |a| == Pos(linked, |linked|)
    ensures Laid(linked, resolved, withoutCues, a)
  {
    hide Finished, Tabled, Emitted, Extracted, Found;
    FinishedLinks(n0, kept, linked, largest, withoutCues);
  }

  lemma EndsUnfolds(n0: seq<Node>, kept: seq<Node>, n: seq<Node>, largest: int, withoutCues: bool)
    requires Finished(n0, kept, n, largest, withoutCues)
    ensures FullTables(kept)
    ensures AllKeepTwo(kept) ==> forall temps: set<int>, s: St, fuel: nat :: EndsFrom(temps, n0, n, s, fuel)
    ensures forall temps: set<int>, s: St, k: nat :: StackFrom(temps, n, largest, s, k)
  {
    hide EndsFrom, StackFrom;
  }

  /** From the delivered list to the dwords: every run of the list that ends, the machine ends alike on the dwords. */
  method EmitCode(nodes: seq<Node>, optimizeByteCode: bool, withoutCues: bool, ghost depth: nat -> int)
    returns (a: array<int>, largestStackUsed: int, ghost kept: seq<Node>, ghost linked: seq<Node>)
    requires nodes != [] && Consistent(nodes, depth) && FullTables(nodes) && Tabled(nodes, withoutCues)
    requires OperandsFit(nodes) && Pos(nodes, |nodes|) < 0x8000_0000
    ensures fresh(a) && a.Length == Pos(linked, |linked|) && FullTables(kept)
    ensures AllKeepTwo(kept) ==> forall temps: set<int>, s: St, fuel: nat :: EmittedFrom(temps, nodes, a[..], s, fuel)
    ensures optimizeByteCode ==> (TablesLand(linked) <==> AllKeepTwo(kept))
    ensures forall temps: set<int>, s: St, k: nat :: StackFrom(temps, linked, largestStackUsed, s, k)
  {
    hide Consistent, FullTables, Tabled, Finished, TablesLand, AllKeepTwo, IsResolved, Extracted, Writable, OperandsFit, Recorded,
         EndsFrom, StackFrom, EmittedFrom, Laid, Pos, Emitted;
    ghost var resolved;
    var code;
    code, largestStackUsed, kept, linked, resolved := FinalizeCode(nodes, optimizeByteCode, withoutCues, depth);
    EndsUnfolds(nodes, kept, linked, largestStackUsed, withoutCues);
    ExtractedLength(linked, resolved, withoutCues) by { FinishedLinks(nodes, kept, linked, largestStackUsed, withoutCues); }
    var size := code.GetSize();
    a := new int[size];
    code.Output(a);
    TogetherLaid(nodes, kept, linked, resolved, largestStackUsed, withoutCues, a[..]);
    if AllKeepTwo(kept) {
      forall temps: set<int>, s: St, fuel: nat ensures EmittedFrom(temps, nodes, a[..], s, fuel) {
        EmittedRuns(temps, nodes, linked, resolved, withoutCues, a[..], s, fuel);
      }
    }
  }

  lemma ExtractedLength(linked: seq<Node>, resolved: seq<Node>, withoutCues: bool)
    requires LineSized(linked, withoutCues) && IsResolved(linked, resolved)
    ensures var e := Extracted(resolved, withoutCues, |resolved|); Pos(e, |e|) == Pos(linked, |linked|)
  {
    hide Extracted, Pos;
    ResolvedLines(linked, resolved, withoutCues);
    ExtractedSize(resolved, withoutCues, |resolved|);
    PosSame(linked, resolved, |linked|) by { SizesKept(linked, resolved); }
  }
}
