/** The pass over a finished list that finds the instructions execution can reach and the stack depth at each, and deletes
    the others. */
module UnreachableCode {
  import opened Options
  import opened Bytecode
  import opened Encoding
  import opened InstructionList

  predicate SameList(a: seq<Node>, b: seq<Node>) {
    |a| == |b| && forall i :: 0 <= i < |a| ==> a[i].SameInstr(b[i])
  }

  /** q can come after p. The code after a RET is not told apart from other code. */
  predicate Follows(nodes: seq<Node>, p: nat, q: nat) {
    && p < |nodes| && q < |nodes|
    && match nodes[p].op
       case JMP(l) => FindLabel(Ops(nodes), p, l) == Some(q)
       case Jump(_, l) => q == p + 1 || FindLabel(Ops(nodes), p, l) == Some(q)
       case JMPP(_) => p < q <= p + 1 + nodes[p].max
       case _ => q == p + 1
  }

  ghost predicate ReachedIn(nodes: seq<Node>, q: nat, n: nat)
    decreases n
  {
    if n == 0 then q == 0 && |nodes| > 0 else exists p :: ReachedIn(nodes, p, n - 1) && Follows(nodes, p, q)
  }

  /** Some path from the first instruction leads to q. */
  ghost predicate Reachable(nodes: seq<Node>, q: nat) {
    exists n: nat :: ReachedIn(nodes, q, n)
  }

  lemma ReachNext(nodes: seq<Node>, p: nat, q: nat)
    requires Reachable(nodes, p) && Follows(nodes, p, q)
    ensures Reachable(nodes, q)
  {
    var n: nat :| ReachedIn(nodes, p, n);
    assert ReachedIn(nodes, q, n + 1);
  }

  lemma ReachFirst(nodes: seq<Node>)
    requires |nodes| > 0
    ensures Reachable(nodes, 0)
  {
    assert ReachedIn(nodes, 0, 0);
  }

  /** What the compiler delivers: jumps have their labels, and whichever way an instruction is reached, the stack has the
      same depth. */
  ghost predicate Consistent(nodes: seq<Node>, depth: nat -> int) {
    && |nodes| > 0 && nodes[|nodes| - 1].op.RET? && depth(0) == 0
    && (forall p: nat :: p < |nodes| && Reachable(nodes, p) ==> HasLabel(nodes, p))
    && (forall p: nat, q: nat :: p < |nodes| && Reachable(nodes, p) && Follows(nodes, p, q) ==> depth(q) == depth(p) + nodes[p].stackInc)
  }

  predicate HasLabel(nodes: seq<Node>, p: nat)
    requires p < |nodes|
  {
    (nodes[p].op.JMP? || nodes[p].op.Jump?) ==> FindLabel(Ops(nodes), p, nodes[p].op.l).Some?
  }

  /** What is taken to come after an instruction does, in some state, except after a return. */
  lemma FollowsHappens(nodes: seq<Node>, p: nat, q: nat, j: Junk) returns (s: St)
    requires Follows(nodes, p, q) && !nodes[p].op.RET?
    requires nodes[p].op.JMPP? ==> forall k :: p < k <= p + 1 + nodes[p].max ==> k < |nodes| && nodes[k].op.JMP?
    ensures var r := Step({}, Ops(nodes), j, p, s); r.Go? && r.pc == q
  {
    hide Wrap, Calc, FindLabel;
    var i := nodes[p].op;
    assert Ops(nodes)[p] == i;
    s := St(map[], if i.Test? || i.CpyRtoV4? then Int(0) else GlobAddr(0), [GlobAddr(0), GlobAddr(0)], map[], [], 0, None);
    if i.Jump? { s := s.(reg := Int(Meets(i.cond, q != p + 1))); }
    if i.JMPP? { s := s.(vars := map[i.v := Int(q - p - 1)]); }
  }

  // ---- Marking ----

  /** Everything that can follow i is marked, or is the instruction the search turns to next. */
  ghost predicate Done(n0: seq<Node>, nodes: seq<Node>, i: nat, turn: int) {
    forall q: nat {:trigger Follows(n0, i, q)} :: q < |nodes| && Follows(n0, i, q) ==> nodes[q].marked || q == turn
  }

  /** Marked instructions are reachable and carry their depth. */
  ghost predicate Labelled(n0: seq<Node>, depth: nat -> int, nodes: seq<Node>) {
    && SameList(nodes, n0)
    && forall i: nat {:trigger nodes[i].marked} :: i < |nodes| && nodes[i].marked ==> Reachable(n0, i) && nodes[i].stackSize == depth(i)
  }

  /** largest bounds the depth after every marked instruction that is not waiting to be followed. */
  ghost predicate Followed(n0: seq<Node>, depth: nat -> int, nodes: seq<Node>, largest: int, waiting: seq<nat>, turn: int)
    requires |nodes| == |n0|
  {
    forall i: nat {:trigger nodes[i].marked} :: i < |nodes| && nodes[i].marked && i !in waiting && i != turn ==>
      Done(n0, nodes, i, turn) && depth(i) + n0[i].stackInc <= largest
  }

  ghost predicate Attained(n0: seq<Node>, depth: nat -> int, largest: int) {
    largest >= 0 && (largest == 0 || exists i: nat :: i < |n0| && Reachable(n0, i) && largest == depth(i) + n0[i].stackInc)
  }

  /** The search has still to follow the instructions waiting and turn, when there is one. */
  ghost predicate Searching(n0: seq<Node>, depth: nat -> int, nodes: seq<Node>, largest: int, waiting: seq<nat>, turn: int) {
    && Labelled(n0, depth, nodes) && |n0| > 0 && nodes[0].marked
    && (forall i: nat :: i in waiting ==> i < |nodes| && nodes[i].marked)
    && Followed(n0, depth, nodes, largest, waiting, turn)
    && (turn >= 0 ==> turn < |nodes| && Reachable(n0, turn))
    && Attained(n0, depth, largest)
  }

  function Mark(nodes: seq<Node>, i: nat, stackSize: int): seq<Node>
    requires i < |nodes|
  {
    nodes[i := nodes[i].(marked := true, stackSize := stackSize)]
  }

  lemma AddKeeps(n0: seq<Node>, depth: nat -> int, nodes: seq<Node>, largest: int, waiting: seq<nat>, turn: int, i: nat)
    requires Searching(n0, depth, nodes, largest, waiting, turn) && i < |nodes| && Reachable(n0, i) && !nodes[i].marked
    ensures Searching(n0, depth, Mark(nodes, i, depth(i)), largest, waiting + [i], turn)
  {
    hide Reachable, Follows;
  }

  /** The search turns to an instruction: it is marked and its effect on the stack counted. */
  lemma TurnKeeps(n0: seq<Node>, depth: nat -> int, nodes: seq<Node>, largest: int, waiting: seq<nat>, turn: nat)
    requires Searching(n0, depth, nodes, largest, waiting, turn)
    ensures var after := depth(turn) + n0[turn].stackInc;
      Searching(n0, depth, Mark(nodes, turn, depth(turn)), if after > largest then after else largest, waiting, turn)
  {
    hide Reachable, Follows;
  }

  lemma TurnAway(n0: seq<Node>, depth: nat -> int, nodes: seq<Node>, largest: int, waiting: seq<nat>, turn: nat, next: int)
    requires Searching(n0, depth, nodes, largest, waiting, turn) && nodes[turn].marked && depth(turn) + n0[turn].stackInc <= largest
    requires Done(n0, nodes, turn, next) && (next >= 0 ==> next < |nodes| && Reachable(n0, next))
    ensures Searching(n0, depth, nodes, largest, waiting, next)
  {
    hide Reachable, Follows;
  }

  lemma NextMarked(n0: seq<Node>, depth: nat -> int, nodes: seq<Node>, largest: int, p: nat, q: nat)
    requires Searching(n0, depth, nodes, largest, [], -1) && p < |nodes| && nodes[p].marked && Follows(n0, p, q)
    ensures q < |nodes| && nodes[q].marked
  {
    hide Reachable;
    assert p !in [] && Done(n0, nodes, p, -1);
  }

  lemma {:induction false} AllMarked(n0: seq<Node>, depth: nat -> int, nodes: seq<Node>, largest: int, q: nat, n: nat)
    requires Searching(n0, depth, nodes, largest, [], -1) && ReachedIn(n0, q, n)
    ensures q < |nodes| && nodes[q].marked
    decreases n
  {
    hide Follows, Labelled, Followed;
    if n > 0 {
      var p :| ReachedIn(n0, p, n - 1) && Follows(n0, p, q);
      AllMarked(n0, depth, nodes, largest, p, n - 1);
      NextMarked(n0, depth, nodes, largest, p, q);
    } else {
      FirstMarked(n0, depth, nodes, largest);
    }
  }

  lemma FirstMarked(n0: seq<Node>, depth: nat -> int, nodes: seq<Node>, largest: int)
    requires Searching(n0, depth, nodes, largest, [], -1)
    ensures |nodes| == |n0| > 0 && nodes[0].marked
  {
  }

  /** What the search leaves: marked are exactly the reachable instructions, each with the depth it is reached with, and
      largest is the largest depth after any of them. */
  ghost predicate Searched(n0: seq<Node>, depth: nat -> int, nodes: seq<Node>, largest: int) {
    && SameList(nodes, n0)
    && (forall i: nat {:trigger nodes[i].marked} :: i < |nodes| ==> (nodes[i].marked <==> Reachable(n0, i)))
    && (forall i: nat {:trigger nodes[i].marked} :: i < |nodes| && nodes[i].marked ==> nodes[i].stackSize == depth(i) && depth(i) + n0[i].stackInc <= largest)
    && Attained(n0, depth, largest)
  }

  lemma SearchEnds(n0: seq<Node>, depth: nat -> int, nodes: seq<Node>, largest: int)
    requires Searching(n0, depth, nodes, largest, [], -1)
    ensures Searched(n0, depth, nodes, largest)
  {
    forall i: nat | i < |nodes| && Reachable(n0, i) ensures nodes[i].marked {
      var n: nat :| ReachedIn(n0, i, n);
      AllMarked(n0, depth, nodes, largest, i, n);
    }
  }

  // ---- Deleting ----

  function Kept(nodes: seq<Node>): seq<Node>
    decreases |nodes|
  {
    if nodes == [] then []
    else
      var n := |nodes| - 1;
      Kept(nodes[..n]) + if nodes[n].marked then [nodes[n]] else []
  }

  /** The position of the instruction at i among those kept. */
  function Rank(nodes: seq<Node>, i: nat): nat
    requires i <= |nodes|
  {
    |Kept(nodes[..i])|
  }

  lemma RankNext(nodes: seq<Node>, i: nat)
    requires i < |nodes|
    ensures Rank(nodes, i + 1) == Rank(nodes, i) + if nodes[i].marked then 1 else 0
  {
    assert nodes[..i + 1][..i] == nodes[..i];
  }

  lemma {:induction false} RankMonotone(nodes: seq<Node>, i: nat, k: nat)
    requires i <= k <= |nodes|
    ensures Rank(nodes, i) <= Rank(nodes, k)
    decreases k
  {
    if i < k {
      RankNext(nodes, k - 1);
      RankMonotone(nodes, i, k - 1);
    }
  }

  lemma {:induction false} KeptAt(nodes: seq<Node>, i: nat, n: nat)
    requires i < n <= |nodes| && nodes[i].marked
    ensures Rank(nodes, i) < Rank(nodes, n) && Kept(nodes[..n])[Rank(nodes, i)] == nodes[i]
    decreases n
  {
    assert nodes[..n][..n - 1] == nodes[..n - 1];
    if i < n - 1 { KeptAt(nodes, i, n - 1); }
  }

  lemma {:induction false} KeptFrom(nodes: seq<Node>, n: nat, r: nat) returns (i: nat)
    requires n <= |nodes| && r < Rank(nodes, n)
    ensures i < n && nodes[i].marked && Rank(nodes, i) == r
    decreases n
  {
    assert nodes[..n][..n - 1] == nodes[..n - 1];
    if r < Rank(nodes, n - 1) { i := KeptFrom(nodes, n - 1, r); } else { i := n - 1; }
  }

  lemma RankAll(nodes: seq<Node>)
    ensures Rank(nodes, |nodes|) == |Kept(nodes)|
  {
    assert nodes[..|nodes|] == nodes;
  }

  /** What is marked has its labels, tables and successors among what is marked. */
  ghost predicate Closed(nodes: seq<Node>) {
    && (forall p: nat :: p < |nodes| && nodes[p].marked ==> HasLabel(nodes, p))
    && (forall p: nat, q: nat :: p < |nodes| && q < |nodes| && nodes[p].marked && Follows(nodes, p, q) ==> nodes[q].marked)
    && TablesFit(nodes)
  }

  /** The table of a JMPP has max + 1 jumps. */
  ghost predicate TablesFit(nodes: seq<Node>) {
    forall p: nat, n: int :: p < |nodes| && nodes[p].op.JMPP? && InTable(Ops(nodes), p, n) ==> n <= nodes[p].max
  }

  /** The label found from a kept jump is kept, and found again. */
  lemma {:induction false} LabelKept(nodes: seq<Node>, p: nat, l: int, q: nat)
    requires p < |nodes| && nodes[p].marked && FindLabel(Ops(nodes), p, l) == Some(q) && nodes[q].marked
    ensures Rank(nodes, p) < |Kept(nodes)| && FindLabel(Ops(Kept(nodes)), Rank(nodes, p), l) == Some(Rank(nodes, q))
  {
    hide Kept, Rank;
    var c, kept := Ops(nodes), Kept(nodes);
    var c2 := Ops(kept);
    var k := Rank(nodes, p);
    RankAll(nodes);
    assert nodes[..|nodes|] == nodes;
    KeptAt(nodes, p, |nodes|);
    KeptAt(nodes, q, |nodes|);
    RankNext(nodes, p);
    assert c2[Rank(nodes, q)] == LABEL(l);
    if FindForward(c, p + 1, l).Some? {
      RankMonotone(nodes, p + 1, q);
      var r := FindForward(c2, k + 1, l).value;
      FoundLater(nodes, p, l, r);
    } else {
      NotFoundLater(nodes, p, l);
      RankMonotone(nodes, q + 1, p);
      RankNext(nodes, q);
      var r := FindBackward(c2, k, l).value;
      FoundEarlier(nodes, p, l, r);
    }
  }

  lemma FoundLater(nodes: seq<Node>, p: nat, l: int, r: nat)
    requires p < |nodes| && nodes[p].marked && Rank(nodes, p) < r < |Kept(nodes)| && Ops(Kept(nodes))[r] == LABEL(l)
    ensures FindForward(Ops(nodes), p + 1, l).Some? && Rank(nodes, FindForward(Ops(nodes), p + 1, l).value) <= r
  {
    RankAll(nodes);
    assert nodes[..|nodes|] == nodes;
    var u := KeptFrom(nodes, |nodes|, r);
    KeptAt(nodes, u, |nodes|);
    if u <= p { RankMonotone(nodes, u, p); }
    assert Ops(nodes)[u] == LABEL(l);
    RankMonotone(nodes, FindForward(Ops(nodes), p + 1, l).value, u);
  }

  lemma NotFoundLater(nodes: seq<Node>, p: nat, l: int)
    requires p < |nodes| && nodes[p].marked && FindForward(Ops(nodes), p + 1, l).None?
    ensures FindForward(Ops(Kept(nodes)), Rank(nodes, p) + 1, l).None?
  {
    RankAll(nodes);
    assert nodes[..|nodes|] == nodes;
    forall r: nat | Rank(nodes, p) < r < |Kept(nodes)| ensures Ops(Kept(nodes))[r] != LABEL(l) {
      var u := KeptFrom(nodes, |nodes|, r);
      KeptAt(nodes, u, |nodes|);
      if u <= p { RankMonotone(nodes, u, p); }
    }
  }

  lemma FoundEarlier(nodes: seq<Node>, p: nat, l: int, r: nat)
    requires p < |nodes| && r < Rank(nodes, p) && Rank(nodes, p) <= |Kept(nodes)| && Ops(Kept(nodes))[r] == LABEL(l)
    ensures FindBackward(Ops(nodes), p, l).Some? && r <= Rank(nodes, FindBackward(Ops(nodes), p, l).value)
  {
    RankAll(nodes);
    assert nodes[..|nodes|] == nodes;
    var u := KeptFrom(nodes, |nodes|, r);
    KeptAt(nodes, u, |nodes|);
    if u >= p { RankMonotone(nodes, p, u); }
    assert Ops(nodes)[u] == LABEL(l);
    RankMonotone(nodes, u, FindBackward(Ops(nodes), p, l).value);
  }

  // ---- Runs ----

  /** A step goes to an instruction that follows, or past the end. */
  lemma StepFollows(temps: set<int>, nodes: seq<Node>, j: Junk, p: nat, s: St)
    requires p < |nodes| && TablesFit(nodes) && Step(temps, Ops(nodes), j, p, s).Go?
    ensures var q := Step(temps, Ops(nodes), j, p, s).pc; q < |nodes| ==> Follows(nodes, p, q)
    ensures var q := Step(temps, Ops(nodes), j, p, s).pc; q <= |nodes| && (q == |nodes| ==> q == p + 1)
    ensures !nodes[p].op.RET?
  {
    hide Do, Pass, Part, Wake, Taken, FindLabel;
  }

  /** The jump at index n of a table that is kept. */
  lemma {:induction false} EntryKept(nodes: seq<Node>, p: nat, n: nat)
    requires Closed(nodes) && p < |nodes| && nodes[p].marked && nodes[p].op.JMPP? && InTable(Ops(nodes), p, n)
    ensures nodes[p + 1 + n].marked && nodes[p + 1 + n].op.JMP?
    ensures Rank(nodes, p + 1 + n) < |Kept(nodes)| && Ops(Kept(nodes))[Rank(nodes, p + 1 + n)].JMP?
  {
    hide HasLabel;
    RankAll(nodes);
    assert nodes[..|nodes|] == nodes;
    assert n <= nodes[p].max;
    var q: nat := p + 1 + n;
    assert Ops(nodes)[q].JMP?;
    assert Follows(nodes, p, q);
    KeptAt(nodes, q, |nodes|);
  }

  /** The table of a kept JMPP is kept as it is. */
  lemma {:induction false} TableKept(nodes: seq<Node>, p: nat, n: int)
    requires Closed(nodes) && p < |nodes| && nodes[p].marked && nodes[p].op.JMPP? && InTable(Ops(nodes), p, n)
    ensures InTable(Ops(Kept(nodes)), Rank(nodes, p), n) && Rank(nodes, p + 1 + n) == Rank(nodes, p) + 1 + n
    decreases n
  {
    hide Closed, Kept, Rank;
    EntryKept(nodes, p, n);
    RankNext(nodes, p);
    if n > 0 {
      EntryKept(nodes, p, n - 1);
      RankNext(nodes, p + n);
      TableKept(nodes, p, n - 1);
    }
  }

  /** Where a kept instruction goes in the whole list, it goes among those kept. */
  lemma {:induction false} StepKept(temps: set<int>, nodes: seq<Node>, j: Junk, p: nat, s: St)
    requires Closed(nodes) && p < |nodes| && nodes[p].marked && Step(temps, Ops(nodes), j, p, s) != Fault
    ensures var r := Step(temps, Ops(nodes), j, p, s);
      var r2 := Step(temps, Ops(Kept(nodes)), j, Rank(nodes, p), s);
      if r.Go? then r.pc <= |nodes| && (r.pc < |nodes| ==> nodes[r.pc].marked) && r2 == Go(Rank(nodes, r.pc), r.s) else r2 == r
  {
    hide Do, Pass, Part, Wake, Taken, FindLabel, InTable, Kept, Rank;
    var c := Ops(nodes);
    RankAll(nodes);
    assert nodes[..|nodes|] == nodes;
    KeptAt(nodes, p, |nodes|);
    RankNext(nodes, p);
    var r := Step(temps, c, j, p, s);
    if r.Go? { StepFollows(temps, nodes, j, p, s); }
    match c[p]
    case JMP(l) =>
      assert HasLabel(nodes, p);
      var q := FindLabel(c, p, l).value;
      assert Follows(nodes, p, q);
      LabelKept(nodes, p, l, q);
    case Jump(_, l) =>
      assert HasLabel(nodes, p);
      var q := FindLabel(c, p, l).value;
      assert Follows(nodes, p, q);
      LabelKept(nodes, p, l, q);
    case JMPP(v) =>
      var n := Get(s.vars, v).n;
      TableKept(nodes, p, n);
    case _ =>
  }

  /** Deleting what execution cannot reach changes no run: it ends in the same way, in the same state and after the same number
      of steps. */
  lemma {:induction false} RunKept(temps: set<int>, nodes: seq<Node>, j: Junk, p: nat, s: St, fuel: nat)
    requires Closed(nodes) && p <= |nodes| && (p < |nodes| ==> nodes[p].marked)
    requires Run(temps, Ops(nodes), j, p, s, fuel) != Fault
    ensures Run(temps, Ops(Kept(nodes)), j, Rank(nodes, p), s, fuel) == Run(temps, Ops(nodes), j, p, s, fuel)
    decreases fuel
  {
    hide Step, Closed;
    if p == |nodes| {
      RankAll(nodes);
      AtEnd(temps, Ops(nodes), j, s);
      AtEnd(temps, Ops(Kept(nodes)), j, s);
    } else {
      StepKept(temps, nodes, j, p, s);
      var r := Step(temps, Ops(nodes), j, p, s);
      if r.Go? && fuel > 0 { RunKept(temps, nodes, j, r.pc, r.s, fuel - 1); }
    }
  }

  lemma AtEnd(temps: set<int>, c: seq<Instr>, j: Junk, s: St)
    ensures Step(temps, c, j, |c|, s) == Halt(FellOff, s)
  {
  }

  /** The search leaves the list such that the others can be deleted. */
  lemma SearchedClosed(n0: seq<Node>, depth: nat -> int, nodes: seq<Node>, largest: int)
    requires Consistent(n0, depth) && TablesFit(n0) && Searched(n0, depth, nodes, largest)
    ensures Closed(nodes)
  {
    assert Ops(nodes) == Ops(n0);
    forall p: nat, q: nat | p < |nodes| && q < |nodes| && nodes[p].marked && Follows(nodes, p, q) ensures nodes[q].marked {
      assert Follows(n0, p, q);
      ReachNext(n0, p, q);
    }
    forall p: nat | p < |nodes| && nodes[p].marked ensures HasLabel(nodes, p) { assert HasLabel(n0, p); }
  }

  // ---- The depth is that of the stack ----

  /** Where execution is after n steps. */
  function After(temps: set<int>, c: seq<Instr>, j: Junk, p: nat, s: St, n: nat): Outcome
    decreases n
  {
    if n == 0 then Go(p, s) else match Step(temps, c, j, p, s) case Go(q, t) => After(temps, c, j, q, t, n - 1) case r => r
  }

  lemma DoStack(temps: set<int>, i: Instr, s: St)
    requires Do(temps, i, s).Some?
    ensures |Do(temps, i, s).value.stack| == |s.stack| + StackInc(i)
  {
  }

  lemma StepStack(temps: set<int>, c: seq<Instr>, j: Junk, p: nat, s: St)
    requires p < |c| && Step(temps, c, j, p, s).Go?
    ensures |Step(temps, c, j, p, s).s.stack| == |s.stack| + StackInc(c[p])
  {
    hide Do, FindLabel, InTable, Taken;
    match c[p]
    case RET(_) => case JMP(_) => case Jump(_, _) => case JMPP(_) => case LABEL(_) => case SUSPEND =>
    case _ => DoStack(temps, c[p], s);
  }

  /** In every run, wherever it is, the stack has grown by the depth the search computes, and never by more than the largest
      depth it reports. */
  lemma {:induction false} StackWithinLargest(temps: set<int>, n0: seq<Node>, depth: nat -> int, nodes: seq<Node>, largest: int,
      j: Junk, p: nat, s: St, n: nat)
    requires Consistent(n0, depth) && TablesFit(n0) && Searched(n0, depth, nodes, largest)
    requires forall i :: i in n0 ==> i.stackInc == StackInc(i.op)
    requires p < |n0| && Reachable(n0, p) && After(temps, Ops(n0), j, p, s, n).Go?
    ensures var r := After(temps, Ops(n0), j, p, s, n);
      r.pc < |n0| && Reachable(n0, r.pc) && |r.s.stack| == |s.stack| + depth(r.pc) - depth(p) <= |s.stack| + largest - depth(p)
    decreases n
  {
    hide Step, Follows, Consistent, Reachable;
    if n == 0 {
      DepthBound(n0, depth, nodes, largest, p);
    } else {
      assert n0[p] in n0;
      StepFollows(temps, n0, j, p, s);
      StepStack(temps, Ops(n0), j, p, s);
      var r := Step(temps, Ops(n0), j, p, s);
      NextDepth(n0, depth, p, r.pc);
      StackWithinLargest(temps, n0, depth, nodes, largest, j, r.pc, r.s, n - 1);
    }
  }

  lemma NextDepth(n0: seq<Node>, depth: nat -> int, p: nat, q: nat)
    requires Consistent(n0, depth) && p < |n0| && Reachable(n0, p) && !n0[p].op.RET?
    requires q < |n0| ==> Follows(n0, p, q)
    requires q <= |n0| && (q == |n0| ==> q == p + 1)
    ensures q < |n0| && Reachable(n0, q) && depth(q) == depth(p) + n0[p].stackInc
  {
    ReachNext(n0, p, q);
  }

  /** The depth before an instruction is that after another, or the first's. */
  lemma DepthBound(n0: seq<Node>, depth: nat -> int, nodes: seq<Node>, largest: int, p: nat)
    requires Consistent(n0, depth) && Searched(n0, depth, nodes, largest) && Reachable(n0, p)
    ensures depth(p) <= largest
  {
    var n: nat :| ReachedIn(n0, p, n);
    if n > 0 {
      var o :| ReachedIn(n0, o, n - 1) && Follows(n0, o, p);
      assert Reachable(n0, o);
    }
  }

  // ---- The pass ----

  class ByteCode {
    var nodes: seq<Node>
    var largestStackUsed: int

    constructor (nodes: seq<Node>)
      ensures this.nodes == nodes
    {
      this.nodes, largestStackUsed := nodes, 0;
    }

    /** Queues an instruction that follows another, unless it is marked: then its depth has to be the same. */
    method AddPath(paths: seq<nat>, p: nat, from: nat, i: nat, stackSize: int, ghost n0: seq<Node>, ghost depth: nat -> int)
      returns (queue: seq<nat>)
      requires Consistent(n0, depth) && p <= |paths| && |nodes| == |n0|
      requires Searching(n0, depth, nodes, largestStackUsed, paths[p..], from)
      requires from < |n0| && Follows(n0, from, i) && Reachable(n0, from) && stackSize == depth(from) + n0[from].stackInc
      modifies this`nodes
      ensures |queue| >= |paths| && queue[..p] == paths[..p] && SameList(nodes, n0)
      ensures Searching(n0, depth, nodes, largestStackUsed, queue[p..], from)
      ensures nodes[i].marked && forall k :: 0 <= k < |nodes| && old(nodes[k].marked) ==> nodes[k].marked
      ensures |queue| + Unmarked(nodes) <= |paths| + Unmarked(old(nodes))
    {
      hide Follows, Reachable, Searching, Unmarked;
      FollowsDepth(n0, depth, from, i);
      SearchingList(n0, depth, nodes, largestStackUsed, paths[p..], from);
      queue := paths;
      if nodes[i].marked {
        assert nodes[i].stackSize == stackSize;
      } else {
        AddKeeps(n0, depth, nodes, largestStackUsed, paths[p..], from, i);
        MarkCount(nodes, i, stackSize);
        nodes := nodes[i := nodes[i].(marked := true, stackSize := stackSize)];
        queue := paths + [i];
        assert queue[p..] == paths[p..] + [i];
      }
    }

    /** Follows one path from the instruction start, already marked, and queues what it branches to. */
    method FollowPath(paths: seq<nat>, p: nat, start: nat, ghost n0: seq<Node>, ghost depth: nat -> int) returns (queue: seq<nat>)
      requires Consistent(n0, depth) && p <= |paths| && start < |nodes| && nodes[start].marked
      requires Searching(n0, depth, nodes, largestStackUsed, paths[p..], start)
      modifies this
      ensures |queue| >= |paths| && queue[..p] == paths[..p] && |nodes| == |n0|
      ensures Searching(n0, depth, nodes, largestStackUsed, queue[p..], -1)
      ensures |queue| + Unmarked(nodes) <= |paths| + Unmarked(old(nodes))
    {
      queue := paths;
      var instr: int := start;
      var stackSize := nodes[start].stackSize;
      while instr >= 0
        invariant instr < |nodes| && |nodes| == |n0| && |queue| >= |paths| >= p && queue[..p] == paths[..p]
        invariant Searching(n0, depth, nodes, largestStackUsed, queue[p..], instr)
        invariant instr >= 0 ==> stackSize == depth(instr)
        invariant |queue| + Unmarked(nodes) <= |paths| + Unmarked(old(nodes))
        decreases if instr >= 0 then |nodes| - instr else 0
      {
        var next: int, size: int;
        queue, next, size := Visit(queue, p, instr, stackSize, n0, depth);
        instr, stackSize := next, size;
      }
    }

    /** Marks an instruction and queues the targets of a jump. next is the following instruction if the path goes on there. */
    method Visit(paths: seq<nat>, p: nat, instr: nat, stackSize: int, ghost n0: seq<Node>, ghost depth: nat -> int)
      returns (queue: seq<nat>, next: int, size: int)
      requires Consistent(n0, depth) && p <= |paths| && stackSize == depth(instr) && |nodes| == |n0|
      requires Searching(n0, depth, nodes, largestStackUsed, paths[p..], instr)
      modifies this
      ensures |queue| >= |paths| && queue[..p] == paths[..p] && |nodes| == |n0|
      ensures Searching(n0, depth, nodes, largestStackUsed, queue[p..], next)
      ensures next < 0 || (instr + 1 == next < |nodes| && size == depth(next))
      ensures |queue| + Unmarked(nodes) <= |paths| + Unmarked(old(nodes))
    {
      hide Follows, Reachable, Searching, Unmarked, FindLabel, Consistent;
      SearchingList(n0, depth, nodes, largestStackUsed, paths[p..], instr);
      queue, next := paths, -1;
      MarkCount(nodes, instr, stackSize);
      TurnKeeps(n0, depth, nodes, largestStackUsed, paths[p..], instr);
      nodes := nodes[instr := nodes[instr].(marked := true, stackSize := stackSize)];
      size := stackSize + nodes[instr].stackInc;
      if size > largestStackUsed { largestStackUsed := size; }
      SearchingList(n0, depth, nodes, largestStackUsed, queue[p..], instr);
      if nodes[instr].op.JMP? || nodes[instr].op.Jump? {
        queue := QueueTargets(queue, p, instr, size, n0, depth);
      } else if nodes[instr].op.JMPP? {
        queue := QueueTable(queue, p, instr, size, n0, depth);
      } else {
        FollowsJump(n0, depth, instr);
        if instr + 1 < |nodes| && !nodes[instr + 1].marked {
          next := instr + 1;
          FollowsDepth(n0, depth, instr, instr + 1);
        }
        TurnAway(n0, depth, nodes, largestStackUsed, queue[p..], instr, next);
      }
    }

    /** Queues the label of a jump and, unless the jump is always taken, the next instruction. */
    method QueueTargets(paths: seq<nat>, p: nat, instr: nat, size: int, ghost n0: seq<Node>, ghost depth: nat -> int)
      returns (queue: seq<nat>)
      requires Consistent(n0, depth) && p <= |paths| && SameList(nodes, n0) && instr < |n0| && Reachable(n0, instr)
      requires Searching(n0, depth, nodes, largestStackUsed, paths[p..], instr) && nodes[instr].marked
      requires size == depth(instr) + n0[instr].stackInc <= largestStackUsed
      requires nodes[instr].op.JMP? || nodes[instr].op.Jump?
      modifies this`nodes
      ensures |queue| >= |paths| && queue[..p] == paths[..p] && |nodes| == |n0|
      ensures Searching(n0, depth, nodes, largestStackUsed, queue[p..], -1)
      ensures |queue| + Unmarked(nodes) <= |paths| + Unmarked(old(nodes))
    {
      hide Follows, Reachable, Searching, Unmarked, FindLabel, Consistent;
      FollowsJump(n0, depth, instr);
      assert Ops(nodes) == Ops(n0);
      var dest := FindLabel(Ops(nodes), instr, nodes[instr].op.l).value;
      queue := AddPath(paths, p, instr, dest, size, n0, depth);
      if nodes[instr].op.Jump? { queue := AddPath(queue, p, instr, instr + 1, size, n0, depth); }
      TurnAway(n0, depth, nodes, largestStackUsed, queue[p..], instr, -1);
    }

    /** Queues every entry of the table of a JMPP. */
    method QueueTable(paths: seq<nat>, p: nat, instr: nat, size: int, ghost n0: seq<Node>, ghost depth: nat -> int)
      returns (queue: seq<nat>)
      requires Consistent(n0, depth) && p <= |paths| && SameList(nodes, n0) && instr < |n0| && Reachable(n0, instr)
      requires Searching(n0, depth, nodes, largestStackUsed, paths[p..], instr) && nodes[instr].marked
      requires size == depth(instr) + n0[instr].stackInc <= largestStackUsed && nodes[instr].op.JMPP?
      modifies this`nodes
      ensures |queue| >= |paths| && queue[..p] == paths[..p] && |nodes| == |n0|
      ensures Searching(n0, depth, nodes, largestStackUsed, queue[p..], -1)
      ensures |queue| + Unmarked(nodes) <= |paths| + Unmarked(old(nodes))
    {
      hide Follows, Reachable, Searching, Unmarked, FindLabel, Consistent;
      FollowsJump(n0, depth, instr);
      queue := paths;
      var dest := instr + 1;
      var n := 0;
      while n <= nodes[instr].max && dest < |nodes|
        invariant SameList(nodes, n0) && dest == instr + 1 + n && n <= n0[instr].max + 1
        invariant |queue| >= |paths| && queue[..p] == paths[..p] && dest <= |nodes|
        invariant Searching(n0, depth, nodes, largestStackUsed, queue[p..], instr) && nodes[instr].marked
        invariant forall q :: instr < q < dest ==> nodes[q].marked
        invariant |queue| + Unmarked(nodes) <= |paths| + Unmarked(old(nodes))
      {
        queue := AddPath(queue, p, instr, dest, size, n0, depth);
        dest := dest + 1;
        n := n + 1;
      }
      TurnAway(n0, depth, nodes, largestStackUsed, queue[p..], instr, -1);
    }

    /** Marks what can be reached and deletes the rest. all: the list as the search leaves it. */
    method PostProcess(ghost depth: nat -> int) returns (ghost all: seq<Node>)
      requires nodes != [] ==> Consistent(nodes, depth)
      modifies this
      ensures old(nodes) != [] ==> Searched(old(nodes), depth, all, largestStackUsed) && nodes == Kept(all)
      ensures old(nodes) == [] ==> nodes == [] && largestStackUsed == old(largestStackUsed)
    {
      hide Searching, Unmarked, Consistent, Kept;
      all := nodes;
      if nodes == [] { return; }
      largestStackUsed := 0;
      ghost var n0 := nodes;
      ClearMarks();
      FirstInstr(n0, depth);
      StartSearch(n0, depth, nodes);
      nodes := nodes[0 := nodes[0].(marked := true, stackSize := 0)];
      var paths: seq<nat> := [0];
      var p := 0;
      assert paths[p..] == [0];
      while p < |paths|
        invariant p <= |paths| && |nodes| == |n0| && Searching(n0, depth, nodes, largestStackUsed, paths[p..], -1)
        decreases |paths| - p + Unmarked(nodes)
      {
        TakePath(n0, depth, nodes, largestStackUsed, paths, p);
        paths := FollowPath(paths, p + 1, paths[p], n0, depth);
        p := p + 1;
      }
      assert paths[p..] == [];
      SearchEnds(n0, depth, nodes, largestStackUsed);
      all := nodes;
      DeleteUnmarked();
    }

    method ClearMarks()
      modifies this`nodes
      ensures SameList(nodes, old(nodes)) && forall i :: 0 <= i < |nodes| ==> !nodes[i].marked
    {
      var i := 0;
      while i < |nodes|
        invariant 0 <= i <= |nodes| && SameList(nodes, old(nodes)) && forall k :: 0 <= k < i ==> !nodes[k].marked
      {
        nodes := nodes[i := nodes[i].(marked := false, stackSize := -1)];
        i := i + 1;
      }
    }

    method DeleteUnmarked()
      modifies this`nodes
      ensures nodes == Kept(old(nodes))
    {
      hide Kept;
      EmptyKept();
      ghost var all := nodes;
      ghost var k := 0;
      var i := 0;
      assert all[..0] == [];
      while i < |nodes|
        invariant k <= |all| && i == |Kept(all[..k])| <= |nodes| && nodes == Kept(all[..k]) + all[k..]
        decreases |all| - k
      {
        KeptStep(all, k, i, nodes);
        if !nodes[i].marked {
          nodes := nodes[..i] + nodes[i + 1..];
        } else {
          i := i + 1;
        }
        k := k + 1;
      }
      assert all[..k] == all && all[k..] == [];
    }
  }

  lemma EmptyKept()
    ensures Kept([]) == []
  {
  }

  /** The list with the first k instructions dealt with. */
  lemma KeptStep(all: seq<Node>, k: nat, i: nat, nodes: seq<Node>)
    requires k < |all| && i == |Kept(all[..k])| && nodes == Kept(all[..k]) + all[k..]
    ensures i < |nodes| && nodes[i] == all[k]
    ensures nodes[i].marked ==> i + 1 == |Kept(all[..k + 1])| && nodes == Kept(all[..k + 1]) + all[k + 1..]
    ensures !nodes[i].marked ==> Kept(all[..k + 1]) == Kept(all[..k]) && nodes[..i] + nodes[i + 1..] == Kept(all[..k + 1]) + all[k + 1..]
  {
    assert all[..k + 1][..k] == all[..k];
    assert all[k..] == [all[k]] + all[k + 1..];
  }

  lemma StartSearch(n0: seq<Node>, depth: nat -> int, nodes: seq<Node>)
    requires |n0| > 0 && depth(0) == 0 && SameList(nodes, n0) && forall i :: 0 <= i < |nodes| ==> !nodes[i].marked
    ensures Searching(n0, depth, Mark(nodes, 0, 0), 0, [0], -1)
  {
    ReachFirst(n0);
  }

  lemma FirstInstr(n0: seq<Node>, depth: nat -> int)
    requires Consistent(n0, depth)
    ensures |n0| > 0 && depth(0) == 0
  {
  }

  lemma TakePath(n0: seq<Node>, depth: nat -> int, nodes: seq<Node>, largest: int, paths: seq<nat>, p: nat)
    requires p < |paths| && Searching(n0, depth, nodes, largest, paths[p..], -1)
    ensures paths[p] < |nodes| == |n0| && nodes[paths[p]].marked
    ensures Searching(n0, depth, nodes, largest, paths[p + 1..], paths[p])
  {
    assert paths[p..] == [paths[p]] + paths[p + 1..];
    TakeFirst(n0, depth, nodes, largest, paths[p], paths[p + 1..]);
  }

  lemma TakeFirst(n0: seq<Node>, depth: nat -> int, nodes: seq<Node>, largest: int, turn: nat, rest: seq<nat>)
    requires Searching(n0, depth, nodes, largest, [turn] + rest, -1)
    ensures turn < |nodes| == |n0| && nodes[turn].marked
    ensures Searching(n0, depth, nodes, largest, rest, turn)
  {
    hide Reachable, Follows, Attained;
    var waiting := [turn] + rest;
    assert waiting[0] == turn && turn in waiting;
    forall i: nat | i in rest ensures i in waiting { }
    assert forall i: nat :: i in waiting ==> i < |nodes| && nodes[i].marked;
    forall i: nat | i < |nodes| && nodes[i].marked && i !in rest && i != turn
      ensures Done(n0, nodes, i, turn) && depth(i) + n0[i].stackInc <= largest
    {
      assert i !in waiting;
      assert Done(n0, nodes, i, -1);
    }
    assert Followed(n0, depth, nodes, largest, rest, turn);
    assert turn < |nodes| && nodes[turn].marked;
  }

  lemma FollowsDepth(n0: seq<Node>, depth: nat -> int, p: nat, q: nat)
    requires Consistent(n0, depth) && p < |n0| && Reachable(n0, p) && Follows(n0, p, q)
    ensures q < |n0| && Reachable(n0, q) && depth(q) == depth(p) + n0[p].stackInc
  {
    ReachNext(n0, p, q);
  }

  /** The targets of a reachable jump. */
  lemma FollowsJump(n0: seq<Node>, depth: nat -> int, p: nat)
    requires Consistent(n0, depth) && p < |n0| && Reachable(n0, p)
    ensures n0[p].op.JMP? || n0[p].op.Jump? ==> FindLabel(Ops(n0), p, n0[p].op.l).Some?
    ensures n0[p].op.JMP? ==> forall q: nat :: Follows(n0, p, q) <==> FindLabel(Ops(n0), p, n0[p].op.l).value == q
    ensures n0[p].op.Jump? ==> p + 1 < |n0|
    ensures n0[p].op.Jump? ==> forall q: nat ::
      Follows(n0, p, q) <==> q == p + 1 || FindLabel(Ops(n0), p, n0[p].op.l).value == q
    ensures n0[p].op.JMPP? ==> forall q: nat :: Follows(n0, p, q) <==> p < q <= p + 1 + n0[p].max && q < |n0|
    ensures !n0[p].op.JMP? && !n0[p].op.Jump? && !n0[p].op.JMPP? ==> forall q: nat :: Follows(n0, p, q) <==> q == p + 1 < |n0|
  {
    assert HasLabel(n0, p);
  }

  lemma SearchingList(n0: seq<Node>, depth: nat -> int, nodes: seq<Node>, largest: int, waiting: seq<nat>, turn: nat)
    requires Searching(n0, depth, nodes, largest, waiting, turn)
    ensures SameList(nodes, n0) && turn < |nodes| && Reachable(n0, turn)
    ensures forall i: nat {:trigger nodes[i].marked} :: i < |nodes| && nodes[i].marked ==> nodes[i].stackSize == depth(i)
  {
  }

  /** The instructions still to be marked. */
  function Unmarked(nodes: seq<Node>): nat
    decreases |nodes|
  {
    if nodes == [] then 0 else Unmarked(nodes[..|nodes| - 1]) + if nodes[|nodes| - 1].marked then 0 else 1
  }

  lemma {:induction false} MarkCount(nodes: seq<Node>, i: nat, stackSize: int)
    requires i < |nodes|
    ensures Unmarked(Mark(nodes, i, stackSize)) == Unmarked(nodes) - if nodes[i].marked then 0 else 1
    decreases |nodes|
  {
    var n := |nodes| - 1;
    var m := Mark(nodes, i, stackSize);
    if i == n {
      assert m[..n] == nodes[..n];
    } else {
      assert m[..n] == Mark(nodes[..n], i, stackSize);
      MarkCount(nodes[..n], i, stackSize);
    }
  }
}
