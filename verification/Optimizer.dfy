/** The local optimizer, rewriting the instruction list in place. */
module Optimizer {
  import opened Options
  import opened Bytecode
  import opened Encoding
  import opened Liveness
  import opened Windows
  import opened Peepholes
  import opened Rewriting

  // ---- What the rewrites need of the code ----

  /** The variable an operation has for both of its operands. */
  function DoubleOf(i: Instr): Option<int> {
    match i
    case Arith(_, _, x, y) => if x == y then Some(x) else None
    case CMPi(x, y) => if x == y then Some(x) else None
    case _ => None
  }

  /** The variable an instruction sets in a way that may become a constant. */
  function SetsConst(i: Instr): Option<int> {
    match i case SetV4(v, _) => Some(v) case CpyVtoV4(d, _) => Some(d) case _ => None
  }

  ghost predicate NeverConst(c: seq<Instr>, x: int) {
    forall k :: k in c ==> SetsConst(k) != Some(x)
  }

  ghost predicate NeverCopied(c: seq<Instr>, x: int) {
    forall k :: k in c && k.CpyVtoV4? ==> k.d != x
  }

  /** Whether i, with one variable for both operands, is out of reach of a constant: either the variable never holds one that
      could be folded, or it is not a temporary and the result of i does not go, nor can be moved, back into it. */
  ghost predicate DoubleOk(temps: set<int>, c: seq<Instr>, i: Instr) {
    DoubleOf(i).Some? ==>
      var x := DoubleOf(i).value;
      NeverConst(c, x) || (x !in temps && (i.Arith? ==> i.d != x && NeverCopied(c, x)))
  }

  /** No constant can be folded into an operation that has the variable for both operands: that would be wrong. */
  ghost predicate Safe(temps: set<int>, c: seq<Instr>) {
    forall i :: i in c ==> DoubleOk(temps, c, i)
  }

  /** i has a double that was there before, with the same target or one that values are copied to. */
  ghost predicate CoveredBy(i: Instr, w: seq<Instr>) {
    && (DoubleOf(i).Some? ==> exists k :: k in w && SameDouble(i, k, w))
    && (SetsConst(i).Some? ==> exists k :: k in w && SetsConst(k) == SetsConst(i))
    && (i.CpyVtoV4? ==> exists k :: k in w && k.CpyVtoV4? && k.d == i.d)
  }

  ghost predicate SameDouble(i: Instr, k: Instr, w: seq<Instr>) {
    && DoubleOf(k) == DoubleOf(i) && k.Arith? == i.Arith?
    && (i.Arith? ==> i.d == k.d || exists m :: m in w && m.CpyVtoV4? && m.d == i.d)
  }

  function Loads(c: seq<Instr>): nat {
    if c == [] then 0 else (if c[0].LdGRdR4? then 1 else 0) + Loads(c[1..])
  }

  lemma {:induction false} LoadsAppend(a: seq<Instr>, b: seq<Instr>)
    ensures Loads(a + b) == Loads(a) + Loads(b)
    decreases |a|
  {
    if a == [] {
      assert a + b == b;
    } else {
      assert (a + b)[1..] == a[1..] + b;
      LoadsAppend(a[1..], b);
    }
  }

  predicate Smaller(c1: seq<Instr>, c2: seq<Instr>) {
    |c2| < |c1| || (|c2| == |c1| && Loads(c2) < Loads(c1))
  }

  /** c2 does what c1 does and is smaller in the optimizer's termination order. */
  ghost predicate Improves(temps: set<int>, c1: seq<Instr>, c2: seq<Instr>) {
    Refines(temps, c1, c2) && TablesClosed(c2) && (Safe(temps, c1) ==> Safe(temps, c2)) && Smaller(c1, c2)
  }

  /** A constant is set at i for an operation that has its variable for both operands. */
  predicate Doubled(c: seq<Instr>, i: nat) {
    i + 1 < |c| && c[i].SetV4? && DoubleOf(c[i + 1]) == Some(c[i].v)
  }

  /** A constant is folded into such an operation, perhaps after it was rightly moved there. */
  ghost predicate FoldsDoubled(temps: set<int>, c1: seq<Instr>, c2: seq<Instr>) {
    exists m: seq<Instr>, i: nat :: FoldsDoubledAt(temps, c1, m, i, c2)
  }

  ghost predicate FoldsDoubledAt(temps: set<int>, c1: seq<Instr>, m: seq<Instr>, i: nat, c2: seq<Instr>) {
    Refines(temps, c1, m) && |m| == |c1| && Doubled(m, i) && c2 == Folded(m, i)
  }

  /** What a rewrite makes of a list: it improves it, or folds a constant where that is wrong, which safe lists rule out. */
  ghost predicate Rewritten(temps: set<int>, c1: seq<Instr>, c2: seq<Instr>) {
    && TablesClosed(c2) && Smaller(c1, c2)
    && (Improves(temps, c1, c2) || (FoldsDoubled(temps, c1, c2) && !Safe(temps, c1)))
  }

  /** Rewrites one after another. */
  ghost predicate Rewrites(temps: set<int>, steps: seq<seq<Instr>>) {
    forall i {:trigger steps[i]} :: 0 <= i < |steps| - 1 ==> Rewritten(temps, steps[i], steps[i + 1])
  }

  /** None of them wrong. */
  ghost predicate NoneDoubled(temps: set<int>, steps: seq<seq<Instr>>) {
    forall i {:trigger steps[i]} :: 0 <= i < |steps| - 1 ==> !FoldsDoubled(temps, steps[i], steps[i + 1])
  }

  /** When no constant is folded where that is wrong, the last list refines the first. */
  lemma {:induction false} RewritesRefine(temps: set<int>, steps: seq<seq<Instr>>)
    requires |steps| > 0 && Rewrites(temps, steps) && NoneDoubled(temps, steps)
    ensures Refines(temps, steps[0], steps[|steps| - 1])
    decreases |steps|
  {
    hide Refines, FoldsDoubled, TablesClosed, Safe, Smaller;
    var n := |steps| - 1;
    if n == 0 {
      RefinesRefl(temps, steps[0]);
    } else {
      var before := steps[..n];
      assert forall i :: 0 <= i < |before| ==> before[i] == steps[i];
      RewritesRefine(temps, before);
      assert Rewritten(temps, steps[n - 1], steps[n - 1 + 1]);
      assert !FoldsDoubled(temps, steps[n - 1], steps[n - 1 + 1]);
      RefinesTrans(temps, steps[0], steps[n - 1], steps[n]);
    }
  }

  /** In a safe list none is, and the last one is safe again. */
  lemma {:induction false} SafeRewrites(temps: set<int>, steps: seq<seq<Instr>>)
    requires |steps| > 0 && Rewrites(temps, steps) && Safe(temps, steps[0])
    ensures Refines(temps, steps[0], steps[|steps| - 1]) && Safe(temps, steps[|steps| - 1])
    decreases |steps|
  {
    hide Refines, FoldsDoubled, TablesClosed, Safe, Smaller;
    var n := |steps| - 1;
    if n == 0 {
      RefinesRefl(temps, steps[0]);
    } else {
      var before := steps[..n];
      assert forall i :: 0 <= i < |before| ==> before[i] == steps[i];
      SafeRewrites(temps, before);
      assert Rewritten(temps, steps[n - 1], steps[n - 1 + 1]);
      RefinesTrans(temps, steps[0], steps[n - 1], steps[n]);
    }
  }

  lemma SafeEdit(temps: set<int>, e: Edit)
    requires Safe(temps, e.Before()) && forall i :: i in e.w2 ==> CoveredBy(i, e.w)
    ensures Safe(temps, e.After())
  {
    hide SameDouble;
    forall i | i in e.After() ensures DoubleOk(temps, e.After(), i) {
      if DoubleOf(i).Some? { StaysOk(temps, e, i); }
    }
  }

  lemma InBefore(e: Edit, i: Instr)
    ensures i in e.w ==> i in e.Before()
    ensures i in e.After() && i !in e.w2 ==> i in e.Before()
  {
  }

  lemma NeverStays(e: Edit, x: int)
    requires forall i :: i in e.w2 ==> CoveredBy(i, e.w)
    ensures NeverConst(e.Before(), x) ==> NeverConst(e.After(), x)
    ensures NeverCopied(e.Before(), x) ==> NeverCopied(e.After(), x)
  {
    hide SameDouble;
    forall k | k in e.After() ensures NeverConst(e.Before(), x) ==> SetsConst(k) != Some(x)
                              ensures NeverCopied(e.Before(), x) && k.CpyVtoV4? ==> k.d != x {
      InBefore(e, k);
      if k in e.w2 {
        assert CoveredBy(k, e.w);
        forall m ensures m in e.w ==> m in e.Before() { InBefore(e, m); }
      }
    }
  }

  lemma StaysOk(temps: set<int>, e: Edit, i: Instr)
    requires Safe(temps, e.Before()) && (forall k :: k in e.w2 ==> CoveredBy(k, e.w)) && i in e.After() && DoubleOf(i).Some?
    ensures DoubleOk(temps, e.After(), i)
  {
    hide NeverConst;
    var x := DoubleOf(i).value;
    NeverStays(e, x);
    InBefore(e, i);
    if i in e.w2 {
      assert CoveredBy(i, e.w);
      var k :| k in e.w && SameDouble(i, k, e.w);
      InBefore(e, k);
      assert DoubleOk(temps, e.Before(), k);
      forall m ensures m in e.w ==> m in e.Before() { InBefore(e, m); }
    }
  }

  lemma EditImproves(temps: set<int>, e: Edit)
    requires TablesClosed(e.Before()) && EditOk(temps, e) && forall i :: i in e.w2 ==> CoveredBy(i, e.w)
    requires |e.w2| < |e.w| || (|e.w2| == |e.w| && Loads(e.w2) < Loads(e.w))
    ensures Improves(temps, e.Before(), e.After())
  {
    hide TablesClosed, EditOk, Safe, Refines, CoveredBy;
    EditRefines(temps, e);
    if Safe(temps, e.Before()) { SafeEdit(temps, e); }
    LoadsAppend(e.pre + e.w, e.post);
    LoadsAppend(e.pre, e.w);
    LoadsAppend(e.pre + e.w2, e.post);
    LoadsAppend(e.pre, e.w2);
  }

  // ---- The liveness search ----

  function Positions(n: nat): (s: set<nat>)
    ensures forall p: nat {:trigger p in s} :: p <= n ==> p in s
  {
    if n == 0 then {0} else Positions(n - 1) + {n}
  }

  /** A path that reads x leaves the explored part through a known head, and is shorter from there. */
  ghost predicate Onward(c: seq<Instr>, x: int, heads: seq<nat>, n: nat) {
    exists h: nat, m: nat :: h in heads && m < n && LiveN(c, h, x, m)
  }

  ghost predicate Explored(c: seq<Instr>, x: int, head: nat, heads: seq<nat>) {
    forall n: nat :: LiveN(c, head, x, n) ==> Onward(c, x, heads, n)
  }

  ghost predicate WithinN(c: seq<Instr>, x: int, p: nat, n: nat) {
    exists m: nat :: m <= n && LiveN(c, p, x, m)
  }

  ghost predicate Walking(c: seq<Instr>, x: int, head: nat, curr: nat, heads: seq<nat>) {
    forall n: nat :: LiveN(c, head, x, n) ==> Onward(c, x, heads, n) || WithinN(c, x, curr, n)
  }

  ghost predicate Distinct(open: seq<nat>, closed: seq<nat>) {
    && (forall i, j :: 0 <= i < j < |open| ==> open[i] != open[j])
    && (forall p :: p in open ==> p !in closed)
  }

  lemma WalkStart(c: seq<Instr>, x: int, head: nat, heads: seq<nat>)
    ensures Walking(c, x, head, head, heads)
  {
  }

  lemma MoreHeads(c: seq<Instr>, x: int, head: nat, curr: nat, heads: seq<nat>, more: seq<nat>)
    requires Walking(c, x, head, curr, heads) && forall h :: h in heads ==> h in more
    ensures Walking(c, x, head, curr, more)
  {
    forall n: nat | LiveN(c, head, x, n) ensures Onward(c, x, more, n) || WithinN(c, x, curr, n) {
      if Onward(c, x, heads, n) {
        var h: nat, m: nat :| h in heads && m < n && LiveN(c, h, x, m);
        assert h in more;
      }
    }
  }

  /** The walk ends or goes on: every successor of curr that can read is a head, or is next. */
  lemma WalkOn(c: seq<Instr>, x: int, head: nat, curr: nat, heads: seq<nat>, next: Option<nat>)
    requires Walking(c, x, head, curr, heads)
    requires curr < |c| ==> !IsTempVarReadByInstr(c[curr], x)
    requires curr < |c| && !IsTempVarOverwrittenByInstr(c[curr], x) ==>
      forall q: nat, n: nat :: Succ(c, curr, q) && LiveN(c, q, x, n) ==> next == Some(q) || q in heads || Onward(c, x, heads, n)
    ensures next.Some? ==> Walking(c, x, head, next.value, heads)
    ensures next.None? ==> Explored(c, x, head, heads)
  {
    forall n: nat | LiveN(c, head, x, n)
      ensures Onward(c, x, heads, n) || (next.Some? && WithinN(c, x, next.value, n))
    {
      if !Onward(c, x, heads, n) {
        var m: nat :| m <= n && LiveN(c, curr, x, m);
        var q: nat :| Succ(c, curr, q) && LiveN(c, q, x, m - 1);
      }
    }
  }

  /** With every head explored nothing is read. */
  lemma {:induction false} NoneLive(c: seq<Instr>, x: int, heads: seq<nat>, h: nat, n: nat)
    requires forall p :: p in heads ==> Explored(c, x, p, heads)
    requires h in heads
    ensures !LiveN(c, h, x, n)
    decreases n
  {
    if LiveN(c, h, x, n) {
      assert Explored(c, x, h, heads);
      var g: nat, m: nat :| g in heads && m < n && LiveN(c, g, x, m);
      NoneLive(c, x, heads, g, m);
    }
  }

  class ByteCode {
    var code: seq<Instr>
    // The size of every instruction and how it moves the stack, as its node has them
    var sizes: seq<nat>
    var incs: seq<int>
    const temps: set<int>

    constructor (code: seq<Instr>, sizes: seq<nat>, incs: seq<int>, temps: set<int>)
      ensures this.code == code && this.sizes == sizes && this.incs == incs && this.temps == temps
    {
      this.code, this.sizes, this.incs := code, sizes, incs;
      this.temps := temps;
    }

    // ---- Searching ----

    /** Looks for the label forward, then backward. */
    method FindLabelFrom(from: nat, label_: int) returns (r: Option<nat>)
      requires from < |code|
      ensures r == FindLabel(code, from, label_)
    {
      var i := from + 1;
      while i < |code|
        invariant from < i <= |code|
        invariant FindForward(code, from + 1, label_) == FindForward(code, i, label_)
      {
        if code[i] == LABEL(label_) { return Some(i); }
        i := i + 1;
      }
      i := from;
      while i > 0
        invariant 0 <= i <= from
        invariant FindForward(code, from + 1, label_) == None
        invariant FindBackward(code, from, label_) == FindBackward(code, i, label_)
      {
        i := i - 1;
        if code[i] == LABEL(label_) { return Some(i); }
      }
      r := None;
    }

    /** Queues a position unless it has been queued before. */
    method Enqueue(dest: nat, open: seq<nat>, closed: seq<nat>) returns (open2: seq<nat>)
      requires Distinct(open, closed)
      ensures Distinct(open2, closed) && dest in open2 + closed
      ensures open2 == open || open2 == open + [dest]
    {
      open2 := if dest !in closed && dest !in open then open + [dest] else open;
    }

    /** Queues the targets of a switch table. */
    method EnqueueTable(p: nat, offset: int, open: seq<nat>, closed: seq<nat>, ghost head: nat) returns (open2: seq<nat>)
      requires p < |code| && code[p].JMPP? && Distinct(open, closed)
      requires (forall h :: h in open ==> h <= |code|) && forall q: nat :: Succ(code, p, q) && Live(code, q, offset) ==> Live(code, head, offset)
      ensures Distinct(open2, closed) && (forall h :: h in open ==> h in open2) && forall h :: h in open2 ==> h <= |code|
      ensures forall h :: h in open2 ==> h in open || (Live(code, h, offset) ==> Live(code, head, offset))
      ensures forall q: nat :: Succ(code, p, q) ==> FindLabel(code, q, code[q].l).Some? ==> FindLabel(code, q, code[q].l).value in open2 + closed
    {
      hide Live, Distinct, FindForward, FindBackward, LiveN, FindLabel;
      open2 := open;
      var k := p + 1;
      while k < |code| && code[k].JMP?
        invariant p < k <= |code| && forall i :: p < i < k ==> code[i].JMP?
        invariant Distinct(open2, closed) && (forall h :: h in open ==> h in open2) && forall h :: h in open2 ==> h <= |code|
        invariant forall h :: h in open2 ==> h in open || (Live(code, h, offset) ==> Live(code, head, offset))
        invariant forall i :: p < i < k && FindLabel(code, i, code[i].l).Some? ==> FindLabel(code, i, code[i].l).value in open2 + closed
      {
        var dest := FindLabelFrom(k, code[k].l);
        if dest.Some? {
          assert Succ(code, p, k);
          if Live(code, dest.value, offset) { LiveStep(code, k, dest.value, offset); }
          open2 := Enqueue(dest.value, open2, closed);
        }
        k := k + 1;
      }
    }

    /** Queues the target of a jump. */
    method EnqueueTarget(p: nat, offset: int, open: seq<nat>, closed: seq<nat>, ghost head: nat) returns (open2: seq<nat>)
      requires p < |code| && (code[p].JMP? || code[p].Jump?) && Distinct(open, closed) && forall h :: h in open ==> h <= |code|
      requires Live(code, p, offset) ==> Live(code, head, offset)
      ensures Distinct(open2, closed) && (forall h :: h in open ==> h in open2) && forall h :: h in open2 ==> h <= |code|
      ensures forall h :: h in open2 ==> h in open || (Live(code, h, offset) ==> Live(code, head, offset))
      ensures FindLabel(code, p, code[p].l).Some? ==> FindLabel(code, p, code[p].l).value in open2 + closed
    {
      hide Live, Distinct, FindForward, FindBackward, FindLabel;
      open2 := open;
      var dest := FindLabelFrom(p, code[p].l);
      if dest.Some? {
        if Live(code, dest.value, offset) { LiveStep(code, p, dest.value, offset); }
        open2 := Enqueue(dest.value, open2, closed);
      }
    }

    /** Follows one path to its end, queueing the branches off it. */
    method FollowPath(head: nat, offset: int, open: seq<nat>, closed: seq<nat>) returns (found: bool, open2: seq<nat>)
      requires head <= |code| && head in closed && Distinct(open, closed) && forall h :: h in open ==> h <= |code|
      ensures found ==> Live(code, head, offset)
      ensures Distinct(open2, closed) && (forall h :: h in open ==> h in open2) && forall h :: h in open2 ==> h <= |code|
      ensures !found ==> Explored(code, offset, head, open2 + closed)
      ensures forall h :: h in open2 ==> h in open || (Live(code, h, offset) ==> Live(code, head, offset))
    {
      hide Live, Distinct, Walking, Explored, Onward, FindForward, FindBackward, IsTempVarReadByInstr, LiveN, FindLabel;
      open2 := open;
      var curr := head;
      WalkStart(code, offset, head, open2 + closed);
      while curr < |code|
        invariant curr <= |code| && (Live(code, curr, offset) ==> Live(code, head, offset))
        invariant Distinct(open2, closed) && (forall h :: h in open ==> h in open2) && forall h :: h in open2 ==> h <= |code|
        invariant forall h :: h in open2 ==> h in open || (Live(code, h, offset) ==> Live(code, head, offset))
        invariant Walking(code, offset, head, curr, open2 + closed)
      {
        if IsTempVarReadByInstr(code[curr], offset) {
          LiveRead(code, curr, offset);
          return true, open2;
        }
        if IsTempVarOverwrittenByInstr(code[curr], offset) {
          WalkOn(code, offset, head, curr, open2 + closed, None);
          return false, open2;
        }
        if code[curr].JMP? || code[curr].Jump? {
          ghost var was := open2;
          open2 := EnqueueTarget(curr, offset, open2, closed, head);
          MoreHeads(code, offset, head, curr, was + closed, open2 + closed);
          if code[curr].JMP? {
            WalkOn(code, offset, head, curr, open2 + closed, None);
            return false, open2;
          }
        } else if code[curr].JMPP? {
          ghost var was := open2;
          forall q: nat | Succ(code, curr, q) && Live(code, q, offset) ensures Live(code, head, offset) { LiveStep(code, curr, q, offset); }
          open2 := EnqueueTable(curr, offset, open2, closed, head);
          MoreHeads(code, offset, head, curr, was + closed, open2 + closed);
          TableHeads(code, offset, curr, open2 + closed);
          WalkOn(code, offset, head, curr, open2 + closed, None);
          return false, open2;
        }
        WalkOn(code, offset, head, curr, open2 + closed, Some(curr + 1));
        if Live(code, curr + 1, offset) { LiveStep(code, curr, curr + 1, offset); }
        curr := curr + 1;
      }
      WalkOn(code, offset, head, curr, open2 + closed, None);
      found := false;
    }

    /** Whether the variable set by the instruction at curr is read later, before it is overwritten or discarded. */
    method IsTempVarRead(curr: nat, offset: int) returns (r: bool)
      requires curr < |code|
      ensures r <==> Live(code, curr + 1, offset)
    {
      var openPaths: seq<nat>, closedPaths: seq<nat> := [curr + 1], [];
      ghost var todo := Positions(|code|);
      while |openPaths| > 0
        invariant Distinct(openPaths, closedPaths) && curr + 1 in openPaths + closedPaths
        invariant forall h :: h in openPaths ==> h <= |code| && h in todo && (Live(code, h, offset) ==> Live(code, curr + 1, offset))
        invariant forall p: nat {:trigger p in todo} :: p <= |code| && p !in closedPaths ==> p in todo
        invariant forall h :: h in closedPaths ==> Explored(code, offset, h, openPaths + closedPaths)
        decreases todo
      {
        ghost var was := openPaths + closedPaths;
        var head := openPaths[|openPaths| - 1];
        assert head in openPaths;
        ghost var queued := openPaths;
        openPaths := openPaths[..|openPaths| - 1];
        assert forall h :: h in openPaths ==> h in queued;
        closedPaths := closedPaths + [head];
        assert forall h :: h in was <==> h in openPaths + closedPaths;
        var found;
        found, openPaths := FollowPath(head, offset, openPaths, closedPaths);
        if found { return true; }
        forall h | h in closedPaths ensures Explored(code, offset, h, openPaths + closedPaths) {
          if h != head { ExploredMore(code, offset, h, was, openPaths + closedPaths); }
        }
        todo := todo - {head};
      }
      assert openPaths + closedPaths == closedPaths;
      ghost var next: nat := curr + 1;
      forall n: nat ensures !LiveN(code, next, offset, n) { NoneLive(code, offset, closedPaths, next, n); }
      r := false;
    }

    /** Whether the register set by the instruction at curr is read before it is overwritten or discarded. */
    method IsTempRegUsed(curr: nat) returns (r: bool)
      requires curr < |code|
      ensures r == RegUsed(code, curr + 1)
    {
      var i := curr;
      while i + 1 < |code|
        invariant curr <= i < |code| && RegUsed(code, curr + 1) == RegUsed(code, i + 1)
      {
        i := i + 1;
        if ReadsReg(code[i]) { return true; }
        if DropsReg(code[i]) { return false; }
      }
      r := false;
    }

    // ---- List edits ----

    /** Takes an instruction out; the result is its predecessor, or its successor if it was the first, or -1 for none. */
    method DeleteInstruction(i: nat) returns (ret: int)
      requires i < |code| && |sizes| == |incs| == |code|
      modifies this`code, this`sizes, this`incs
      ensures code == old(code)[..i] + old(code)[i + 1..]
      ensures sizes == old(sizes)[..i] + old(sizes)[i + 1..] && incs == old(incs)[..i] + old(incs)[i + 1..]
      ensures ret == if i > 0 then i - 1 else if |code| > 0 then 0 else -1
      ensures Tabled(old(code), old(sizes), old(incs)) ==> Tabled(code, sizes, incs)
    {
      code := code[..i] + code[i + 1..];
      sizes := sizes[..i] + sizes[i + 1..];
      incs := incs[..i] + incs[i + 1..];
      ret := if i > 0 then i - 1 else if |code| > 0 then 0 else -1;
    }

    /** Drops the instruction at i and rewrites the one behind it, whose fields are given. */
    method DeleteFirstChangeNext(i: nat, instr: Instr, size: nat, inc: int) returns (ret: int)
      requires i + 1 < |code| && Tabled(code, sizes, incs) && size == SizeOf(instr) && inc == StackInc(instr)
      modifies this`code, this`sizes, this`incs
      ensures code == Splice(old(code), i, 2, [instr]).After() && Tabled(code, sizes, incs)
      ensures ret == if i > 0 then i - 1 else 0
    {
      hide SizeOf, StackInc;
      code, sizes, incs := code[i + 1 := instr], sizes[i + 1 := size], incs[i + 1 := inc];
      ret := DeleteInstruction(i);
      assert code == Splice(old(code), i, 2, [instr]).After();
    }

    /** Rewrites the instruction at i, whose fields are given, and drops the one behind it. */
    method ChangeFirstDeleteNext(i: nat, instr: Instr, size: nat, inc: int)
      requires i + 1 < |code| && Tabled(code, sizes, incs) && size == SizeOf(instr) && inc == StackInc(instr)
      modifies this`code, this`sizes, this`incs
      ensures code == Splice(old(code), i, 2, [instr]).After() && Tabled(code, sizes, incs)
    {
      hide SizeOf, StackInc;
      code, sizes, incs := code[i := instr], sizes[i := size], incs[i := inc];
      var ret := DeleteInstruction(i + 1);
      assert code == Splice(old(code), i, 2, [instr]).After();
    }

    function GoForward(p: int): (r: int)
      requires -1 <= p < |code|
      reads this
      ensures -1 <= r < |code|
    {
      if p < 0 then p else if p + 2 < |code| then p + 2 else |code| - 1
    }

    // ---- Values that are not used ----

    /** A write to a temporary that nothing reads goes; of LdGRdR4 the load of the register may have to stay. */
    method RemoveDeadWrite(curr: nat) returns (changed: bool, next: int)
      requires curr < |code| && TablesClosed(code) && Tabled(code, sizes, incs)
      modifies this`code, this`sizes, this`incs
      ensures Tabled(code, sizes, incs)
      ensures changed <==> DeadAt(temps, old(code), curr)
      ensures changed ==> Improves(temps, old(code), code) && code == WithoutWrite(old(code), curr)
      ensures changed ==> Behind(old(code), curr, code, next) && SwapsBehind(old(code), curr, code, next)
      ensures !changed ==> code == old(code)
    {
      hide Improves, TablesClosed, Live, EditOk, Refines, Tabled, SizeOf, RegUsed, Behind, SwapsBehind;
      changed, next := false, -1;
      ghost var before := code;
      var t := Target(code[curr]);
      if t.Some? && t.value in temps {
        var read := IsTempVarRead(curr, t.value);
        if !read {
          var used := false;
          if code[curr].LdGRdR4? { used := IsTempRegUsed(curr); }
          TabledAt(code, sizes, incs, curr);
          if used {
            DeadGlobalReadImproves(temps, code, curr);
            // Both take an address after the operation, so the size stays
            SizeIs(code[curr]);
            SizeIs(LDG(code[curr].g));
            TabledChange(code, sizes, incs, curr, LDG(code[curr].g));
            code := code[curr := LDG(code[curr].g)];
            assert code == Replaced(before, curr, 1, [LDG(before[curr].g)]);
            WindowsStay(before, curr, 1, [LDG(before[curr].g)], curr, GoForward(curr));
            return true, GoForward(curr);
          }
          DeadWriteImproves(temps, code, curr);
          var p := DeleteInstruction(curr);
          assert code == Replaced(before, curr, 1, []);
          WindowsStay(before, curr, 1, [], curr, GoForward(p));
          return true, GoForward(p);
        }
      }
    }

    /** Whether a temporary set at curr dies with the instruction that follows. */
    method DiesAfterNext(curr: nat, v: int) returns (r: bool)
      requires curr + 1 < |code|
      ensures r <==> Dies(temps, code, curr + 2, v)
    {
      r := false;
      if v in temps {
        var read := IsTempVarRead(curr + 1, v);
        r := !read;
      }
    }

    /** A constant that the next instruction computes with, and nothing later reads, becomes its operand. */
    method FoldOperand(curr: nat) returns (changed: bool, next: int)
      requires curr + 1 < |code| && code[curr].SetV4? && TablesClosed(code) && Tabled(code, sizes, incs)
      modifies this`code, this`sizes, this`incs
      ensures Tabled(code, sizes, incs)
      ensures changed <==> FoldsAt(temps, old(code), curr)
      ensures changed ==> Rewritten(temps, old(code), code) && code == Folded(old(code), curr)
      ensures changed ==> Behind(old(code), curr, code, next) && SwapsBehind(old(code), curr, code, next)
      ensures !changed ==> code == old(code)
    {
      hide Improves, Rewritten, TablesClosed, Live, EditOk, Refines, Tabled, SizeOf, StackInc, Combined, Behind, SwapsBehind;
      changed, next := false, -1;
      ghost var before := code;
      var v, k, use := code[curr].v, code[curr].k, code[curr + 1];
      var dies := DiesAfterNext(curr, v);
      var folds := OperandFolds(use, v, dies);
      if folds {
        var instr := FoldedOperand(v, k, use);
        OperandRewritten(temps, code, curr);
        TabledAt(code, sizes, incs, curr + 1);
        SameStackInc(code[curr], use);
        next := DeleteFirstChangeNext(curr, instr, SizeOf(instr), incs[curr + 1]);
        CombinedNoPush(before[curr], use);
        WindowsStay(before, curr, 2, [instr], curr, GoForward(next));
        return true, GoForward(next);
      }
    }

    /** Whether the instruction has the variable for an operand that can be a constant, and the variable is not needed again. */
    method OperandFolds(use: Instr, v: int, dies: bool) returns (r: bool)
      ensures r <==> (use.CMPi? || use.Arith?) && Combines(v, use) && (dies || (use.Arith? && use.d == v))
    {
      r := false;
      if use.CMPi? && v == use.y && dies { return true; }
      if use.Arith? && v == use.y && (use.d == v || dies) { return true; }
      if use.Arith? && (use.op == ADD || use.op == MUL) && v == use.x && (use.d == v || dies) { return true; }
    }

    /** The instruction with the constant; the variable operand comes first. */
    method FoldedOperand(v: int, k: int, use: Instr) returns (instr: Instr)
      requires (use.CMPi? || use.Arith?) && Combines(v, use)
      ensures instr == Combined(SetV4(v, k), use)
    {
      if use.CMPi? { return CMPIi(use.x, k); }
      instr := ArithI(use.op, use.d, if v == use.y then use.x else use.y, k);
    }

    /** A constant that the next instruction only passes on, and nothing later reads, is set or pushed there. */
    method FoldCopied(curr: nat) returns (changed: bool, next: int)
      requires curr + 1 < |code| && code[curr].SetV4? && TablesClosed(code) && Tabled(code, sizes, incs)
      modifies this`code, this`sizes, this`incs
      ensures Tabled(code, sizes, incs)
      ensures changed <==> PassedAt(temps, old(code), curr)
      ensures changed ==> Improves(temps, old(code), code) && code == Folded(old(code), curr)
      ensures changed ==> Behind(old(code), curr, code, next) && SwapsBehind(old(code), curr, code, next)
      ensures !changed ==> code == old(code)
    {
      hide Improves, TablesClosed, Live, EditOk, Refines, Tabled, SizeOf, Behind, SwapsBehind;
      changed, next := false, -1;
      ghost var before := code;
      var v, k, use := code[curr].v, code[curr].k, code[curr + 1];
      var dies := DiesAfterNext(curr, v);
      TabledAt(code, sizes, incs, curr);
      SizeIs(code[curr]);
      if use.CpyVtoV4? && v == use.x && dies {
        ConstantImproves(temps, code, curr, use);
        SizeIs(SetV4(use.d, k));
        ChangeFirstDeleteNext(curr, SetV4(use.d, k), sizes[curr], incs[curr]);
        WindowsStay(before, curr, 2, [SetV4(use.d, k)], curr, GoForward(curr));
        return true, GoForward(curr);
      }
      if use.PshV4? && v == use.v && dies {
        ConstantImproves(temps, code, curr, use);
        SizeIs(PshC4(k));
        ChangeFirstDeleteNext(curr, PshC4(k), sizes[curr], StackInc(PshC4(k)));
        WindowsStay(before, curr, 2, [PshC4(k)], curr, GoForward(curr));
        return true, GoForward(curr);
      }
      if use.CpyVtoG4? && v == use.v && dies {
        ConstantImproves(temps, code, curr, use);
        ChangeFirstDeleteNext(curr, SetG4(use.g, k), SizeOf(SetG4(use.g, k)), incs[curr]);
        WindowsStay(before, curr, 2, [SetG4(use.g, k)], curr, GoForward(curr));
        return true, GoForward(curr);
      }
    }

    /** A result that the next instruction moves, and nothing later reads, is produced where it goes. */
    method FoldMove(curr: nat) returns (changed: bool, next: int)
      requires curr + 1 < |code| && TablesClosed(code) && Tabled(code, sizes, incs)
      modifies this`code, this`sizes, this`incs
      ensures Tabled(code, sizes, incs)
      ensures changed <==> MovedAt(temps, old(code), curr)
      ensures changed ==> Improves(temps, old(code), code) && UnusedTo(temps, old(code), curr, code)
      ensures changed ==> Behind(old(code), curr, code, next) && SwapsBehind(old(code), curr, code, next)
      ensures !changed ==> code == old(code)
    {
      hide Improves, TablesClosed, Live, EditOk, Refines, Tabled, SizeOf, Behind, SwapsBehind;
      changed, next := false, -1;
      ghost var before := code;
      var i, use := code[curr], code[curr + 1];
      TabledAt(code, sizes, incs, curr);
      if (i.Arith? || i.ArithI?) && use.CpyVtoV4? && i.d == use.x {
        var dies := DiesAfterNext(curr, i.d);
        if dies {
          MoveImproves(temps, code, curr);
          SizeIs(i);
          SizeIs(Retarget(i, use.d));
          ChangeFirstDeleteNext(curr, Retarget(i, use.d), sizes[curr], incs[curr]);
          WindowsStay(before, curr, 2, [Retarget(i, use.d)], curr, GoForward(curr));
          return true, GoForward(curr);
        }
      }
    }

    /** The register is not saved only to be loaded again. */
    method FoldSaved(curr: nat) returns (changed: bool, next: int)
      requires curr + 1 < |code| && TablesClosed(code) && Tabled(code, sizes, incs)
      modifies this`code, this`sizes, this`incs
      ensures Tabled(code, sizes, incs)
      ensures changed <==> SavedAt(temps, old(code), curr)
      ensures changed ==> Improves(temps, old(code), code) && UnusedTo(temps, old(code), curr, code)
      ensures changed ==> Behind(old(code), curr, code, next) && SwapsBehind(old(code), curr, code, next)
      ensures !changed ==> code == old(code)
    {
      hide Improves, TablesClosed, Live, EditOk, Refines, Tabled, SizeOf, Behind, SwapsBehind;
      changed, next := false, -1;
      ghost var before := code;
      var i, use := code[curr], code[curr + 1];
      TabledAt(code, sizes, incs, curr);
      if i.CpyRtoV4? && use.CpyVtoR4? && i.v == use.v {
        var dies := DiesAfterNext(curr, i.v);
        if dies {
          RoundTripImproves(temps, code, curr);
          next := DeleteBoth(curr);
          WindowsStay(before, curr, 2, [], curr, GoForward(next));
          return true, GoForward(next);
        }
      }
    }

    /** A global is not copied only to be pushed. */
    method FoldPushed(curr: nat) returns (changed: bool, next: int)
      requires curr + 1 < |code| && TablesClosed(code) && Tabled(code, sizes, incs)
      modifies this`code, this`sizes, this`incs
      ensures Tabled(code, sizes, incs)
      ensures changed <==> PushedAt(temps, old(code), curr)
      ensures changed ==> Improves(temps, old(code), code) && UnusedTo(temps, old(code), curr, code)
      ensures changed ==> Behind(old(code), curr, code, next) && SwapsBehind(old(code), curr, code, next)
      ensures !changed ==> code == old(code)
    {
      hide Improves, TablesClosed, Live, EditOk, Refines, Tabled, SizeOf, Behind, SwapsBehind;
      changed, next := false, -1;
      ghost var before := code;
      var i, use := code[curr], code[curr + 1];
      TabledAt(code, sizes, incs, curr);
      if i.CpyGtoV4? && use.PshV4? && i.v == use.v {
        var dies := DiesAfterNext(curr, i.v);
        if dies {
          GlobalPushImproves(temps, code, curr);
          ChangeFirstDeleteNext(curr, PshG4(i.g), SizeOf(PshG4(i.g)), StackInc(PshG4(i.g)));
          WindowsStay(before, curr, 2, [PshG4(i.g)], curr, GoForward(curr));
          return true, GoForward(curr);
        }
      }
    }

    /** Takes out the instruction at i and the one behind it. */
    method DeleteBoth(i: nat) returns (ret: int)
      requires i + 1 < |code| && Tabled(code, sizes, incs)
      modifies this`code, this`sizes, this`incs
      ensures code == Splice(old(code), i, 2, []).After() && Tabled(code, sizes, incs)
      ensures ret == if i > 0 then i - 1 else if |code| > 0 then 0 else -1
    {
      ret := DeleteInstruction(i + 1);
      ret := DeleteInstruction(i);
      assert code == Splice(old(code), i, 2, []).After();
    }

    method RemoveUnusedValue(curr: nat) returns (changed: bool, next: int)
      requires curr < |code| && TablesClosed(code) && Tabled(code, sizes, incs)
      modifies this`code, this`sizes, this`incs
      ensures Tabled(code, sizes, incs)
      ensures changed <==> UnusedAt(temps, old(code), curr)
      ensures changed ==> Rewritten(temps, old(code), code) && UnusedTo(temps, old(code), curr, code)
      ensures changed ==> Behind(old(code), curr, code, next) && SwapsBehind(old(code), curr, code, next)
      ensures !changed ==> code == old(code)
    {
      hide Improves, Rewritten, TablesClosed, Behind, SwapsBehind, DeadAt, FoldsAt, PassedAt, MovedAt, SavedAt, PushedAt;
      hide Folded, Tabled, WithoutWrite;
      ghost var before := code;
      UnusedNeeds(temps, before, curr);
      changed, next := RemoveDeadWrite(curr);
      if changed {
        ImprovedIsRewritten(temps, before, code);
        return;
      }
      if code[curr].SetV4? && curr + 1 < |code| {
        changed, next := FoldOperand(curr);
        if changed { return; }
        changed, next := FoldCopied(curr);
        if changed {
          ImprovedIsRewritten(temps, before, code);
          return;
        }
      }
      if curr + 1 < |code| {
        changed, next := FoldMove(curr);
        if !changed { changed, next := FoldSaved(curr); }
        if !changed { changed, next := FoldPushed(curr); }
        if changed { ImprovedIsRewritten(temps, before, code); }
      }
    }

    /** Looks for the first instruction that reads a temporary, up to a label, a jump, or one that sets it again. */
    method FindUse(curr: nat, v: int) returns (found: bool, use: nat)
      requires curr < |code|
      ensures found ==> FirstUse(code, curr, v, use)
      ensures !found ==> forall u: nat :: !FirstUse(code, curr, v, u)
    {
      use := curr + 1;
      while use < |code|
        invariant curr < use <= |code| && NotAbout(code[curr + 1..use], v)
        invariant forall u: nat :: u < use ==> !FirstUse(code, curr, v, u)
      {
        if IsTempVarReadByInstr(code[use], v) { return true, use; }
        if IsTempVarOverwrittenByInstr(code[use], v) || IsInstrJmpOrLabel(code[use]) {
          NoUseBehind(code, curr, v, use);
          return false, use;
        }
        assert code[curr + 1..use + 1] == code[curr + 1..use] + [code[use]];
        use := use + 1;
      }
      found := false;
    }

    /** Puts an instruction, whose fields are given, before the one at i. */
    method InsertBefore(i: nat, instr: Instr, size: nat, inc: int)
      requires i <= |code| && |sizes| == |incs| == |code|
      modifies this`code, this`sizes, this`incs
      ensures code == Inserted(old(code), i, instr) && sizes == Inserted(old(sizes), i, size) && incs == Inserted(old(incs), i, inc)
    {
      code := code[..i] + [instr] + code[i..];
      sizes := sizes[..i] + [size] + sizes[i..];
      incs := incs[..i] + [inc] + incs[i..];
    }

    method RemoveInstruction(i: nat)
      requires i < |code| && |sizes| == |incs| == |code|
      modifies this`code, this`sizes, this`incs
      ensures code == Removed(old(code), i) && sizes == Removed(old(sizes), i) && incs == Removed(old(incs), i)
    {
      code := code[..i] + code[i + 1..];
      sizes := sizes[..i] + sizes[i + 1..];
      incs := incs[..i] + incs[i + 1..];
    }

    /** Takes the instruction at curr out and puts it back just before the one at use. */
    method MoveForward(curr: nat, use: nat)
      requires curr < use < |code| && Tabled(code, sizes, incs)
      modifies this`code, this`sizes, this`incs
      ensures code == MovedDown(old(code), curr, use) && Tabled(code, sizes, incs)
    {
      hide Tabled, Inserted, Removed, MovedDown, MovedUp;
      TabledLengths(code, sizes, incs);
      MovedTabled(code, sizes, incs, curr, use);
      Reinserted(code, curr, use);
      Reinserted(sizes, curr, use);
      Reinserted(incs, curr, use);
      var instr, size, inc := code[curr], sizes[curr], incs[curr];
      RemoveInstruction(curr);
      InsertBefore(use - 1, instr, size, inc);
    }

    method MoveBack(curr: nat, use: nat)
      requires curr < use < |code| && Tabled(code, sizes, incs)
      modifies this`code, this`sizes, this`incs
      ensures code == MovedUp(old(code), curr, use) && Tabled(code, sizes, incs)
    {
      hide Tabled, Inserted, Removed, MovedDown, MovedUp;
      TabledLengths(code, sizes, incs);
      MovedTabled(code, sizes, incs, curr, use);
      Reinserted(code, curr, use);
      Reinserted(sizes, curr, use);
      Reinserted(incs, curr, use);
      var instr, size, inc := code[use - 1], sizes[use - 1], incs[use - 1];
      RemoveInstruction(use - 1);
      InsertBefore(curr, instr, size, inc);
    }

    /** Moves the initialization of a temporary down to the instruction that reads it, if the two can be combined there. */
    method PostponeInitOfTemp(curr: nat) returns (changed: bool, next: int)
      requires curr < |code| && TablesClosed(code) && Tabled(code, sizes, incs)
      modifies this`code, this`sizes, this`incs
      ensures Tabled(code, sizes, incs)
      ensures changed <==> Postpones(temps, old(code), curr)
      ensures changed ==> Rewritten(temps, old(code), code) && PostponedTo(temps, old(code), curr, code)
      ensures changed ==> Behind(old(code), curr, code, next) && next == curr
      ensures !changed ==> code == old(code)
    {
      hide Rewritten, TablesClosed, Tabled, UnusedAt, UnusedTo, FirstUse, Behind, MovedDown, MovedUp, PostponedAt;
      changed, next := false, -1;
      PostponedNeeds(temps, code, curr);
      if !code[curr].SetV4? || code[curr].v !in temps { return; }
      var found, use := FindUse(curr, code[curr].v);
      if !found { return; }
      ghost var before := code;
      OnlyUse(temps, before, curr, use);
      if use - 1 != curr {
        FirstUseIs(before, curr, before[curr].v, use);
        MovedReady(temps, before, curr, use);
        MoveForward(curr, use);
        ghost var moved := code;
        MovedUse(before, curr, use);
        UnusedMoved(temps, before, curr, use);
        var dummy;
        changed, dummy := RemoveUnusedValue(use - 1);
        if changed {
          MovedFolded(temps, before, curr, use, code);
          MovedRefines(temps, before, curr, use);
          RewrittenAfter(temps, before, moved, code);
          PostponedPairs(before, curr, use);
          // On from what came after the initialization
          return true, curr;
        }
        // It was no use there: put it back
        MoveBack(curr, use);
        ThereAndBack(before, curr, use);
      }
    }

    // ---- Sequences that have a shorter form ----

    /** Two pushes in the wrong order are made in the right one. */
    method SwapPushed(curr: nat) returns (next: int)
      requires SwapAt(code, curr) && TablesClosed(code) && Tabled(code, sizes, incs)
      modifies this`code, this`sizes, this`incs
      ensures Tabled(code, sizes, incs)
      ensures Improves(temps, old(code), code)
      ensures code == Replaced(old(code), curr - 2, 3, [old(code)[curr - 1], old(code)[curr - 2]])
      ensures Behind(old(code), curr, code, next) && SwapsBehind(old(code), curr, code, next)
    {
      hide Improves, TablesClosed, EditOk, Refines, SizeOf, StackInc, Behind, SwapsBehind, Tabled, Replaced;
      SwapImproves(temps, code, curr - 2);
      TabledLengths(code, sizes, incs);
      ghost var before := code;
      var p := DeleteInstruction(curr);
      SwapTabled(code, sizes, incs, curr - 2);
      code := Swapped(code, curr - 2);
      sizes := Swapped(sizes, curr - 2);
      incs := Swapped(incs, curr - 2);
      SwappedIs(before, curr - 2);
      next := GoForward(curr - 1);
      WindowsStay(before, curr - 2, 3, [before[curr - 1], before[curr - 2]], curr, next);
    }

    /** A pointer loaded only to be dropped. */
    method OptimizeLoadPop(curr: nat) returns (changed: bool, next: int)
      requires 0 < curr < |code| && TablesClosed(code) && Tabled(code, sizes, incs)
      modifies this`code, this`sizes, this`incs
      ensures Tabled(code, sizes, incs)
      ensures changed <==> old(code)[curr - 1].RDSPtr? && old(code)[curr].PopPtr?
      ensures changed ==> Improves(temps, old(code), code) && code == Replaced(old(code), curr - 1, 2, StackPairTo(old(code)[curr - 1], old(code)[curr]))
      ensures changed ==> Behind(old(code), curr, code, next) && SwapsBehind(old(code), curr, code, next)
      ensures !changed ==> code == old(code)
    {
      hide Improves, TablesClosed, EditOk, Refines, Tabled, SizeOf, StackInc, Behind, SwapsBehind;
      changed, next := false, -1;
      ghost var before := code;
      var prev := code[curr - 1];
      TabledAt(code, sizes, incs, curr);
      if code[curr].PopPtr? && prev.RDSPtr? {
        LoadPopImproves(temps, code, curr - 1);
        next := DeleteFirstChangeNext(curr - 1, PopPtr, sizes[curr], incs[curr]);
        WindowsStay(before, curr - 1, 2, [PopPtr], curr, GoForward(next));
        return true, GoForward(next);
      }
    }

    /** A pointer pushed only to be dropped. */
    method OptimizePushPop(curr: nat) returns (changed: bool, next: int)
      requires 0 < curr < |code| && TablesClosed(code) && Tabled(code, sizes, incs)
      modifies this`code, this`sizes, this`incs
      ensures Tabled(code, sizes, incs)
      ensures changed <==> PushesPtr(old(code)[curr - 1]) && old(code)[curr].PopPtr?
      ensures changed ==> Improves(temps, old(code), code) && code == Replaced(old(code), curr - 1, 2, StackPairTo(old(code)[curr - 1], old(code)[curr]))
      ensures changed ==> Behind(old(code), curr, code, next) && SwapsBehind(old(code), curr, code, next)
      ensures !changed ==> code == old(code)
    {
      hide Improves, TablesClosed, EditOk, Refines, Tabled, SizeOf, StackInc, Behind, SwapsBehind;
      changed, next := false, -1;
      ghost var before := code;
      var prev := code[curr - 1];
      if code[curr].PopPtr? && PushesPtr(prev) {
        PushPopImproves(temps, code, curr - 1);
        next := DeleteBoth(curr - 1);
        WindowsStay(before, curr - 1, 2, [], curr, GoForward(next));
        return true, GoForward(next);
      }
    }

    /** An address pushed only to be followed. */
    method OptimizeLoad(curr: nat) returns (changed: bool, next: int)
      requires 0 < curr < |code| && TablesClosed(code) && Tabled(code, sizes, incs)
      modifies this`code, this`sizes, this`incs
      ensures Tabled(code, sizes, incs)
      ensures changed <==> old(code)[curr].RDSPtr? && StackPair(old(code)[curr - 1], old(code)[curr])
      ensures changed ==> Improves(temps, old(code), code) && code == Replaced(old(code), curr - 1, 2, StackPairTo(old(code)[curr - 1], old(code)[curr]))
      ensures changed ==> Behind(old(code), curr, code, next) && SwapsBehind(old(code), curr, code, next)
      ensures !changed ==> code == old(code)
    {
      hide Improves, TablesClosed, EditOk, Refines, Tabled, SizeOf, Behind, SwapsBehind;
      changed, next := false, -1;
      ghost var before := code;
      var prev := code[curr - 1];
      TabledAt(code, sizes, incs, curr - 1);
      TabledAt(code, sizes, incs, curr);
      if code[curr].RDSPtr? && prev.PSF? {
        PushLoadImproves(temps, code, curr - 1);
        SizeIs(prev);
        SizeIs(PshVPtr(prev.v));
        ChangeFirstDeleteNext(curr - 1, PshVPtr(prev.v), sizes[curr - 1], incs[curr - 1]);
        WindowsStay(before, curr - 1, 2, [PshVPtr(prev.v)], curr, GoForward(curr - 1));
        return true, GoForward(curr - 1);
      }
    }

    /** Instructions that push pointers only to drop, swap or follow them. */
    method OptimizeStackOps(curr: nat) returns (changed: bool, next: int)
      requires curr < |code| && TablesClosed(code) && Tabled(code, sizes, incs)
      modifies this`code, this`sizes, this`incs
      ensures Tabled(code, sizes, incs)
      ensures changed <==> StackOpsAt(old(code), curr)
      ensures changed ==> Improves(temps, old(code), code) && StackOpsTo(old(code), curr, code)
      ensures changed ==> Behind(old(code), curr, code, next) && SwapsBehind(old(code), curr, code, next)
      ensures !changed ==> code == old(code)
    {
      hide Improves, TablesClosed, EditOk, Refines, Tabled, SizeOf, Behind, SwapsBehind, StackPairTo;
      changed, next := false, -1;
      if curr == 0 { return; }
      if code[curr].SwapPtr? && curr >= 2 && PushesPtr(code[curr - 2]) && PushesPtr(code[curr - 1]) {
        next := SwapPushed(curr);
        return true, next;
      }
      changed, next := OptimizeLoadPop(curr);
      if !changed { changed, next := OptimizePushPop(curr); }
      if !changed { changed, next := OptimizeLoad(curr); }
    }

    /** A variable loaded only to be incremented or decremented. */
    method OptimizeIncrement(curr: nat) returns (changed: bool, next: int)
      requires curr + 1 < |code| && TablesClosed(code) && Tabled(code, sizes, incs)
      modifies this`code, this`sizes, this`incs
      ensures Tabled(code, sizes, incs)
      ensures changed <==> old(code)[curr].LDV? && RegisterLoadsAt(old(code), curr)
      ensures changed ==> Improves(temps, old(code), code) && RegisterLoadsTo(old(code), curr, code)
      ensures changed ==> Behind(old(code), curr, code, next) && SwapsBehind(old(code), curr, code, next)
      ensures !changed ==> code == old(code)
    {
      hide Improves, TablesClosed, EditOk, Refines, Tabled, SizeOf, Behind, SwapsBehind, RegUsed;
      changed, next := false, -1;
      ghost var before := code;
      var i, use := code[curr], code[curr + 1];
      TabledAt(code, sizes, incs, curr);
      if i.LDV? && (use.INCi? || use.DECi?) {
        var used := IsTempRegUsed(curr + 1);
        if !used {
          var instr := if use.INCi? then IncVi(i.v) else DecVi(i.v);
          IncrementImproves(temps, code, curr);
          SizeIs(i);
          SizeIs(instr);
          ChangeFirstDeleteNext(curr, instr, sizes[curr], incs[curr]);
          WindowsStay(before, curr, 2, [instr], curr, GoForward(curr));
          return true, GoForward(curr);
        }
      }
    }

    /** A global written through its address in the register. */
    method OptimizeGlobalWrite(curr: nat) returns (changed: bool, next: int)
      requires curr + 1 < |code| && TablesClosed(code) && Tabled(code, sizes, incs)
      modifies this`code, this`sizes, this`incs
      ensures Tabled(code, sizes, incs)
      ensures changed <==> old(code)[curr].LDG? && old(code)[curr + 1].WRTV4? && RegisterLoadsAt(old(code), curr)
      ensures changed ==> Improves(temps, old(code), code) && RegisterLoadsTo(old(code), curr, code)
      ensures changed ==> Behind(old(code), curr, code, next) && SwapsBehind(old(code), curr, code, next)
      ensures !changed ==> code == old(code)
    {
      hide Improves, TablesClosed, EditOk, Refines, Tabled, SizeOf, Behind, SwapsBehind, RegUsed;
      changed, next := false, -1;
      ghost var before := code;
      var i, use := code[curr], code[curr + 1];
      TabledAt(code, sizes, incs, curr);
      if i.LDG? && use.WRTV4? {
        var used := IsTempRegUsed(curr + 1);
        if !used {
          WriteGlobalImproves(temps, code, curr);
          ChangeFirstDeleteNext(curr, CpyVtoG4(use.v, i.g), SizeOf(CpyVtoG4(use.v, i.g)), incs[curr]);
          WindowsStay(before, curr, 2, [CpyVtoG4(use.v, i.g)], curr, GoForward(curr));
          return true, GoForward(curr);
        }
      }
    }

    /** And read. */
    method OptimizeGlobalRead(curr: nat) returns (changed: bool, next: int)
      requires curr + 1 < |code| && TablesClosed(code) && Tabled(code, sizes, incs)
      modifies this`code, this`sizes, this`incs
      ensures Tabled(code, sizes, incs)
      ensures changed <==> GlobalReadPair(old(code)[curr], old(code)[curr + 1])
      ensures changed ==> Improves(temps, old(code), code) && RegisterLoadsTo(old(code), curr, code)
      ensures changed ==> Behind(old(code), curr, code, next) && SwapsBehind(old(code), curr, code, next)
      ensures !changed ==> code == old(code)
    {
      hide Improves, TablesClosed, EditOk, Refines, Tabled, SizeOf, Behind, SwapsBehind, RegUsed;
      changed, next := false, -1;
      ghost var before := code;
      var i, use := code[curr], code[curr + 1];
      TabledAt(code, sizes, incs, curr);
      if i.LDG? && use.RDR4? {
        var used := IsTempRegUsed(curr + 1);
        ReadGlobalImproves(temps, code, curr, used);
        // Either way the size is that of CpyGtoV4
        var instr := if used then LdGRdR4(use.v, i.g) else CpyGtoV4(use.v, i.g);
        SizeIs(instr);
        SizeIs(CpyGtoV4(use.v, i.g));
        ChangeFirstDeleteNext(curr, instr, SizeOf(CpyGtoV4(use.v, i.g)), incs[curr]);
        WindowsStay(before, curr, 2, [instr], curr, GoForward(curr));
        return true, GoForward(curr);
      }
    }

    /** Work on a variable through its address in the register. */
    method OptimizeRegisterLoads(curr: nat) returns (changed: bool, next: int)
      requires curr < |code| && TablesClosed(code) && Tabled(code, sizes, incs)
      modifies this`code, this`sizes, this`incs
      ensures Tabled(code, sizes, incs)
      ensures changed <==> RegisterLoadsAt(old(code), curr)
      ensures changed ==> Improves(temps, old(code), code) && RegisterLoadsTo(old(code), curr, code)
      ensures changed ==> Behind(old(code), curr, code, next) && SwapsBehind(old(code), curr, code, next)
      ensures !changed ==> code == old(code)
    {
      hide Improves, TablesClosed, Tabled, Behind, SwapsBehind, RegUsed, RegisterLoadsTo;
      changed, next := false, -1;
      if curr + 1 >= |code| { return; }
      changed, next := OptimizeIncrement(curr);
      if !changed { changed, next := OptimizeGlobalWrite(curr); }
      if !changed { changed, next := OptimizeGlobalRead(curr); }
    }

    /** Tests, and jumps on their results. */
    method OptimizeJumps(curr: nat) returns (changed: bool, next: int)
      requires curr < |code| && TablesClosed(code) && Tabled(code, sizes, incs)
      modifies this`code, this`sizes, this`incs
      ensures Tabled(code, sizes, incs)
      ensures changed <==> JumpsAt(old(code), curr)
      ensures changed ==> Improves(temps, old(code), code) && JumpsTo(old(code), curr, code)
      ensures changed ==> Behind(old(code), curr, code, next) && SwapsBehind(old(code), curr, code, next)
      ensures !changed ==> code == old(code)
    {
      hide Improves, TablesClosed, EditOk, Refines, Tabled, SizeOf, Behind, SwapsBehind;
      changed, next := false, -1;
      ghost var before := code;
      if code[curr].ClrHi? {
        if curr > 0 && code[curr - 1].Test? {
          TestClearImproves(temps, code, curr - 1);
          TabledAt(code, sizes, incs, curr - 1);
          ChangeFirstDeleteNext(curr - 1, code[curr - 1], sizes[curr - 1], incs[curr - 1]);
          WindowsStay(before, curr - 1, 2, [before[curr - 1]], curr, GoForward(curr - 1));
          return true, GoForward(curr - 1);
        }
        if curr + 1 < |code| && code[curr + 1].Jump? && (code[curr + 1].cond == JZ || code[curr + 1].cond == JNZ) {
          ClearJumpImproves(temps, code, curr);
          next := ReplaceJump(curr, curr, if code[curr + 1].cond == JZ then JLowZ else JLowNZ);
          return true, next;
        }
      } else if code[curr].Jump? && curr > 0 && code[curr - 1].Test? {
        var cond := TestJump(code[curr - 1].t, code[curr].cond);
        if cond.Some? {
          TestJumpImproves(temps, code, curr - 1);
          next := ReplaceJump(curr - 1, curr, cond.value);
          return true, next;
        }
      }
    }

    /** Drops the instruction at i and changes the condition of the jump behind it. */
    method ReplaceJump(i: nat, ghost curr: nat, cond: Cond) returns (next: int)
      requires i + 1 < |code| && i <= curr <= i + 1 && code[i + 1].Jump? && Tabled(code, sizes, incs)
      modifies this`code, this`sizes, this`incs
      ensures code == Splice(old(code), i, 2, [Jump(cond, old(code)[i + 1].l)]).After() && Tabled(code, sizes, incs)
      ensures Behind(old(code), curr, code, next) && SwapsBehind(old(code), curr, code, next)
    {
      hide Tabled, SizeOf, Behind, SwapsBehind;
      TabledAt(code, sizes, incs, i + 1);
      SizeIs(code[i + 1]);
      SizeIs(Jump(cond, code[i + 1].l));
      next := DeleteFirstChangeNext(i, Jump(cond, code[i + 1].l), sizes[i + 1], incs[i + 1]);
      next := GoForward(next);
      WindowsStay(old(code), i, 2, [Jump(cond, old(code)[i + 1].l)], curr, next);
    }

    /** Goes through the instructions from the last to the first, and some way forward again after every change: at[k] is where
        steps[k] was rewritten. Every list was searched from where the one before was rewritten down to there, the first from its
        end and the last to its beginning, and had nothing to rewrite on the way. */
    method OptimizeLocally(optimizeByteCode: bool) returns (ghost steps: seq<seq<Instr>>, ghost at: seq<nat>)
      requires TablesClosed(code) && Tabled(code, sizes, incs)
      modifies this`code, this`sizes, this`incs
      ensures TablesClosed(code) && Tabled(code, sizes, incs) && |code| <= |old(code)|
      ensures !optimizeByteCode ==> code == old(code)
      ensures |steps| == |at| + 1 && steps[0] == old(code) && steps[|at|] == code && Rewrites(temps, steps)
      ensures RewrittenAll(temps, steps, at)
      ensures optimizeByteCode ==> forall k: nat, p: nat :: k <= |at| && p < |steps[k]| && (k < |at| ==> p > at[k]) && (k > 0 ==> p <= at[k - 1]) ==>
        !RewritableAt(temps, steps[k], p)
      ensures forall k: nat :: k + 1 < |at| ==> at[k + 1] <= if Postpones(temps, steps[k], at[k]) then at[k] else at[k] + 2
      ensures optimizeByteCode && code == old(code) ==> forall p: nat :: p < |code| ==> !RewritableAt(temps, code, p)
      ensures optimizeByteCode ==> forall p: nat :: p + 1 < |code| ==>
        && !StackPair(code[p], code[p + 1]) && !TestPair(code[p], code[p + 1])
        && !GlobalReadPair(code[p], code[p + 1]) && !ClearJumpPair(code[p], code[p + 1])
      ensures optimizeByteCode && (forall k: nat :: k < |at| ==> !Postpones(temps, steps[k], at[k])) ==> forall p: nat :: !SwapAt(code, p)
      ensures NoneDoubled(temps, steps) ==> Refines(temps, old(code), code)
      ensures Safe(temps, old(code)) ==> Refines(temps, old(code), code) && Safe(temps, code)
    {
      hide TablesClosed, Safe, Refines, Loads, Tabled, Improves, Rewritten, FoldsDoubled, RewritableAt, RewrittenAt, SwapAt, Postpones;
      hide NextAll, NoPairs, NoSwaps, Rewrites, RewrittenAll, SearchedAll, SearchedLast, PostponedSome, Smaller, NoneDoubled;
      steps, at := [code], [];
      SearchStart(temps, code);
      ghost var postponed := false;
      var instr := |code| - 1;
      if !optimizeByteCode { instr := -1; }
      while instr >= 0
        invariant -1 <= instr < |code| && |code| <= |old(code)| && TablesClosed(code) && Tabled(code, sizes, incs)
        invariant |steps| == |at| + 1 && steps[0] == old(code) && steps[|at|] == code && Rewrites(temps, steps)
        invariant RewrittenAll(temps, steps, at)
        invariant at == [] || Smaller(old(code), code)
        invariant NextAll(temps, steps, at, instr)
        invariant !optimizeByteCode ==> at == [] && instr == -1
        invariant optimizeByteCode ==> SearchedAll(temps, steps, at) && SearchedLast(temps, steps, at, instr) && NoPairs(code, instr)
        invariant optimizeByteCode && !postponed ==> NoSwaps(code, instr)
        invariant postponed ==> PostponedSome(temps, steps, at)
        decreases |code|, Loads(code), instr
      {
        ghost var before := code;
        var changed, next := Rewrite(instr);
        if changed {
          RewrittenFacts(temps, before, code);
          OneMore(temps, steps, code);
          SearchedOn(temps, steps, at, instr, code, next);
          SmallerAgain(old(code), before, code);
          PostponedMore(temps, steps, at, instr, code);
          NextMore(temps, steps, at, instr, code, next);
          if Postpones(temps, before, instr) { postponed := true; }
          steps, at := steps + [code], at + [instr];
        } else {
          OnePast(temps, steps, at, instr);
          NextOne(temps, steps, at, instr);
        }
        instr := if changed then next else instr - 1;
      }
      if optimizeByteCode { SearchDone(temps, steps, at, postponed); }
      SmallerAgain(code, code, code);
      NextFacts(temps, steps, at, instr);
      if NoneDoubled(temps, steps) { RewritesRefine(temps, steps); }
      if Safe(temps, steps[0]) { SafeRewrites(temps, steps); }
    }

    /** At most one rewrite at an instruction. */
    method Rewrite(curr: nat) returns (changed: bool, next: int)
      requires curr < |code| && TablesClosed(code) && Tabled(code, sizes, incs)
      modifies this`code, this`sizes, this`incs
      ensures Tabled(code, sizes, incs)
      ensures changed <==> RewritableAt(temps, old(code), curr)
      ensures changed ==> Rewritten(temps, old(code), code) && RewrittenAt(temps, old(code), curr, code)
      ensures changed ==> Behind(old(code), curr, code, next)
      ensures changed ==> if Postpones(temps, old(code), curr) then next == curr else SwapsBehind(old(code), curr, code, next)
      ensures !changed ==> code == old(code)
    {
      hide TablesClosed, Tabled, Improves, Rewritten, UnusedAt, UnusedTo, PostponedTo, Postpones, StackOpsAt, StackOpsTo;
      hide RegisterLoadsAt, RegisterLoadsTo, JumpsAt, JumpsTo, Behind, SwapsBehind;
      ghost var before := code;
      OneRewrite(temps, code, curr);
      changed, next := RemoveUnusedValue(curr);
      if changed { return; }
      changed, next := PostponeInitOfTemp(curr);
      if changed { return; }
      changed, next := OptimizeStackOps(curr);
      if !changed { changed, next := OptimizeRegisterLoads(curr); }
      if !changed { changed, next := OptimizeJumps(curr); }
      if changed { ImprovedIsRewritten(temps, before, code); }
    }
  }

  // ---- One rewrite ----

  /** The element at i and the one behind it change places. */
  function Swapped<T>(s: seq<T>, i: nat): (r: seq<T>)
    requires i + 1 < |s|
    ensures |r| == |s|
  {
    s[i := s[i + 1]][i + 1 := s[i]]
  }

  lemma SwappedIs(c: seq<Instr>, i: nat)
    requires i + 2 < |c|
    ensures |c[..i + 2] + c[i + 2 + 1..]| == |c| - 1
    ensures Swapped(c[..i + 2] + c[i + 2 + 1..], i) == Replaced(c, i, 3, [c[i + 1], c[i]]) == Splice(c, i, 3, [c[i + 1], c[i]]).After()
  {
  }

  lemma SwapTabled(code: seq<Instr>, sizes: seq<nat>, incs: seq<int>, i: nat)
    requires Tabled(code, sizes, incs) && i + 1 < |code|
    ensures |sizes| == |incs| == |code|
    ensures Tabled(Swapped(code, i), Swapped(sizes, i), Swapped(incs, i))
  {
    hide SizeOf, StackInc;
  }

  lemma WindowsStay(c: seq<Instr>, i: nat, n: nat, w2: seq<Instr>, curr: nat, next: int)
    requires i + n <= |c| && i <= curr < i + n && -1 <= next < |c| - n + |w2|
    requires next <= curr + 2 && ((next >= curr && next >= i + |w2|) || next == |c| - n + |w2| - 1)
    requires (w2 != [] && !PushesPtr(w2[|w2| - 1])) || next > i + |w2| || next == |c| - n + |w2| - 1
    ensures Behind(c, curr, Replaced(c, i, n, w2), next) && SwapsBehind(c, curr, Replaced(c, i, n, w2), next)
  {
    hide Behind, SwapsBehind;
    PairsStay(c, i, n, w2, curr, next);
    SwapsStay(c, i, n, w2, curr, next);
  }

  lemma CombinedNoPush(set_: Instr, use: Instr)
    requires set_.SetV4? && (use.CMPi? || use.Arith?)
    ensures !PushesPtr(Combined(set_, use))
  {
  }

  lemma UnusedNeeds(temps: set<int>, c: seq<Instr>, i: nat)
    requires i < |c|
    ensures FoldsAt(temps, c, i) || PassedAt(temps, c, i) ==> c[i].SetV4? && i + 1 < |c|
    ensures MovedAt(temps, c, i) || SavedAt(temps, c, i) || PushedAt(temps, c, i) ==> i + 1 < |c|
  {
  }

  /** What is to be folded is read, so that its setting is not dropped, and nothing else is done there. */
  lemma FoldsOnly(temps: set<int>, c: seq<Instr>, i: nat, c2: seq<Instr>)
    requires FoldsAt(temps, c, i) && RewrittenAt(temps, c, i, c2)
    ensures c2 == Folded(c, i)
  {
    hide Live, Folded, Dies;
    NotDead(temps, c, i);
    if PostponedTo(temps, c, i, c2) {
      var use: nat :| PostponedAt(temps, c, i, use);
      assert false by { NotBetween(c, i, use); }
    }
  }

  /** An initialization with a use further on is neither dead nor of use to the next instruction. */
  lemma OneRewrite(temps: set<int>, c: seq<Instr>, i: nat)
    requires i < |c|
    ensures Postpones(temps, c, i) ==> !UnusedAt(temps, c, i)
  {
    hide MovedDown, FirstUse, NotAbout, Live, Dies;
    if Postpones(temps, c, i) {
      var use: nat :| PostponedAt(temps, c, i, use);
      FirstUseIs(c, i, c[i].v, use);
      StraightToUse(c, i + 1, c[i].v, use);
      assert !DeadAt(temps, c, i) by { LiveLives(temps, c, i); }
      if IsTempVarReadByInstr(c[i + 1], c[i].v) { NotBetween(c, i, use); }
    }
  }

  lemma LiveLives(temps: set<int>, c: seq<Instr>, i: nat)
    requires i < |c| && c[i].SetV4? && Live(c, i + 1, c[i].v)
    ensures !DeadAt(temps, c, i)
  {
  }

  lemma {:induction false} StraightToUse(c: seq<Instr>, i: nat, v: int, use: nat)
    requires i <= use < |c| && IsTempVarReadByInstr(c[use], v) && NotAbout(c[i..use], v)
    ensures Live(c, i, v)
    decreases use - i
  {
    hide Live;
    if i == use {
      LiveRead(c, i, v);
    } else {
      assert c[i..use][0] == c[i] && c[i..use][1..] == c[i + 1..use];
      StraightToUse(c, i + 1, v, use);
      LiveStep(c, i, i + 1, v);
    }
  }

  const PushesApart: seq<Instr> := [PSF(5), SetV4(1, 3), PSF(6), SwapPtr, PshV4(1), RET(0)]
  const PushesTogether: seq<Instr> := [PSF(5), PSF(6), SwapPtr, PshC4(3), RET(0)]

  lemma ApartUse()
    ensures PostponedAt({1}, PushesApart, 1, 4)
  {
    var c := PushesApart;
    var m := MovedDown(c, 1, 4);
    assert m == [PSF(5), PSF(6), SwapPtr, SetV4(1, 3), PshV4(1), RET(0)];
    forall n: nat ensures !LiveN(m, 5, 1, n) { }
    assert c[2..4] == [PSF(6), SwapPtr];
  }

  lemma ApartRewritten(c2: seq<Instr>)
    ensures RewritableAt({1}, PushesApart, 1) && Postpones({1}, PushesApart, 1)
    ensures RewrittenAt({1}, PushesApart, 1, c2) ==> c2 == PushesTogether
  {
    hide UnusedAt, FirstUse, MovedDown, FoldsAt, PassedAt, Dies, Live;
    var c := PushesApart;
    ApartUse();
    OneRewrite({1}, c, 1);
    if UnusedTo({1}, c, 1, c2) { UnusedThere({1}, c, 1, c2); }
    if PostponedTo({1}, c, 1, c2) {
      var use: nat :| PostponedAt({1}, c, 1, use) && c2 == c[..1] + c[2..use] + [Combined(c[1], c[use])] + c[use + 1..];
      FirstUseUnique(c, 1, 1, 4, use);
    }
  }

  lemma UnusedThere(temps: set<int>, c: seq<Instr>, i: nat, c2: seq<Instr>)
    requires UnusedTo(temps, c, i, c2)
    ensures UnusedAt(temps, c, i)
  {
  }

  lemma RewrittenThere(temps: set<int>, c: seq<Instr>, i: nat, c2: seq<Instr>)
    requires RewrittenAt(temps, c, i, c2)
    ensures RewritableAt(temps, c, i)
  {
    hide UnusedAt, UnusedTo, PostponedAt, Combined, Retarget;
    if UnusedTo(temps, c, i, c2) { UnusedThere(temps, c, i, c2); }
  }

  lemma ApartQuiet()
    ensures forall p: nat :: 1 < p < 6 ==> !RewritableAt({1}, PushesApart, p)
  {
  }

  lemma LeftTogether(steps: seq<seq<Instr>>, at: seq<nat>)
    requires RewrittenAll({1}, steps, at) && steps[0] == PushesApart
    requires forall k: nat, p: nat :: k <= |at| && p < |steps[k]| && (k < |at| ==> p > at[k]) && (k > 0 ==> p <= at[k - 1]) ==>
      !RewritableAt({1}, steps[k], p)
    requires forall k: nat :: k + 1 < |at| ==> at[k + 1] <= if Postpones({1}, steps[k], at[k]) then at[k] else at[k] + 2
    ensures steps[|at|] == PushesTogether
  {
    hide RewritableAt, RewrittenAt, Postpones;
    ApartRewritten(PushesTogether);
    ApartQuiet();
    TogetherQuiet();
    assert at != [];
    RewrittenThere({1}, steps[0], at[0], steps[1]);
    assert at[0] == 1;
    ApartRewritten(steps[1]);
    if |at| > 1 { RewrittenThere({1}, steps[1], at[1], steps[2]); }
  }

  lemma TogetherQuiet()
    ensures forall p: nat :: p <= 1 ==> !RewritableAt({1}, PushesTogether, p)
  {
  }

  /** A postponement can bring two pushes and their swap together behind the search, which leaves them there. */
  method LeaveSwap() returns (b: ByteCode)
    ensures b.code == PushesTogether && SwapAt(b.code, 2)
  {
    hide RewritableAt, RewrittenAt, Postpones, Safe, Refines, TablesClosed, SizeOf, StackInc, NoneDoubled, Rewrites;
    var c := PushesApart;
    TablesNone();
    b := new ByteCode(c, seq(6, i requires 0 <= i < 6 => SizeOf(c[i])), seq(6, i requires 0 <= i < 6 => StackInc(c[i])), {1});
    var steps, at := b.OptimizeLocally(true);
    LeftTogether(steps, at);
  }

  lemma TablesNone()
    ensures TablesClosed(PushesApart)
  {
  }

  lemma FoldsThere(temps: set<int>, c: seq<Instr>, i: nat)
    requires FoldsAt(temps, c, i)
    ensures RewritableAt(temps, c, i)
  {
  }

  lemma NotBetween(c: seq<Instr>, i: nat, use: nat)
    requires i + 1 < use < |c| && c[i].SetV4? && IsTempVarReadByInstr(c[i + 1], c[i].v)
    ensures !NotAbout(c[i + 1..use], c[i].v)
  {
    assert c[i + 1..use][0] == c[i + 1];
  }

  lemma NotDead(temps: set<int>, c: seq<Instr>, i: nat)
    requires i + 1 < |c| && c[i].SetV4? && IsTempVarReadByInstr(c[i + 1], c[i].v)
    ensures !DeadAt(temps, c, i)
  {
    LiveRead(c, i + 1, c[i].v);
  }

  // ---- The first use of an initialization ----

  lemma NoUseBehind(c: seq<Instr>, curr: nat, v: int, stop: nat)
    requires curr < stop < |c| && (IsTempVarOverwrittenByInstr(c[stop], v) || IsInstrJmpOrLabel(c[stop]))
    ensures forall u: nat :: u > stop ==> !FirstUse(c, curr, v, u)
  {
    forall u: nat | u > stop ensures !FirstUse(c, curr, v, u) {
      if u < |c| { assert c[curr + 1..u][stop - curr - 1] == c[stop]; }
    }
  }

  lemma FirstUseIs(c: seq<Instr>, i: nat, v: int, use: nat)
    requires FirstUse(c, i, v, use)
    ensures i < use < |c| && IsTempVarReadByInstr(c[use], v) && NotAbout(c[i + 1..use], v)
  {
  }

  lemma PostponedNeeds(temps: set<int>, c: seq<Instr>, i: nat)
    requires i < |c|
    ensures Postpones(temps, c, i) ==> c[i].SetV4? && c[i].v in temps && exists use: nat :: FirstUse(c, i, c[i].v, use)
  {
    hide FirstUse, MovedDown, FoldsAt, PassedAt;
    if Postpones(temps, c, i) {
      var use: nat :| PostponedAt(temps, c, i, use);
    }
  }

  lemma OnlyUse(temps: set<int>, c: seq<Instr>, i: nat, use: nat)
    requires i < |c| && c[i].SetV4? && FirstUse(c, i, c[i].v, use)
    ensures Postpones(temps, c, i) <==> PostponedAt(temps, c, i, use)
    ensures use == i + 1 ==> !PostponedAt(temps, c, i, use)
    ensures i < use < |c|
  {
    hide FirstUse, MovedDown, FoldsAt, PassedAt;
    FirstUseIs(c, i, c[i].v, use);
    if Postpones(temps, c, i) {
      var u: nat :| PostponedAt(temps, c, i, u);
      FirstUseUnique(c, i, c[i].v, use, u);
    }
  }

  lemma MovedUse(c: seq<Instr>, i: nat, use: nat)
    requires i < use < |c|
    ensures var m := MovedDown(c, i, use);
      && |m| == |c| && m[use - 1] == c[i] && m[use] == c[use]
      && m[..use - 1] == c[..i] + c[i + 1..use] && m[use + 1..] == c[use + 1..]
  {
  }

  lemma UnusedMoved(temps: set<int>, c: seq<Instr>, i: nat, use: nat)
    requires i + 1 < use < |c| && c[i].SetV4? && c[i].v in temps && FirstUse(c, i, c[i].v, use)
    ensures UnusedAt(temps, MovedDown(c, i, use), use - 1) <==> PostponedAt(temps, c, i, use)
  {
    hide MovedDown, FirstUse, NotAbout, FoldsAt, PassedAt;
    MovedUse(c, i, use);
    FirstUseIs(c, i, c[i].v, use);
    NotDead(temps, MovedDown(c, i, use), use - 1);
  }

  lemma MovedFolded(temps: set<int>, c: seq<Instr>, i: nat, use: nat, c2: seq<Instr>)
    requires PostponedAt(temps, c, i, use) && UnusedTo(temps, MovedDown(c, i, use), use - 1, c2)
    ensures c2 == c[..i] + c[i + 1..use] + [Combined(c[i], c[use])] + c[use + 1..]
    ensures PostponedTo(temps, c, i, c2) && Combines(c[i].v, c[use])
  {
    hide MovedDown, NotAbout, FoldsAt, PassedAt, DeadAt, Combined;
    MovedUse(c, i, use);
    var m := MovedDown(c, i, use);
    NotDead(temps, m, use - 1);
    assert c2 == Folded(m, use - 1);
    PassedCombines(temps, m, use - 1);
  }

  lemma PassedCombines(temps: set<int>, c: seq<Instr>, i: nat)
    requires FoldsAt(temps, c, i) || PassedAt(temps, c, i)
    ensures i + 1 < |c| && c[i].SetV4? && Combines(c[i].v, c[i + 1])
  {
  }

  // ---- The search as a whole ----

  ghost predicate RewrittenAll(temps: set<int>, steps: seq<seq<Instr>>, at: seq<nat>) {
    |steps| == |at| + 1 && forall k {:trigger at[k]} :: 0 <= k < |at| ==> at[k] < |steps[k]| && RewrittenAt(temps, steps[k], at[k], steps[k + 1])
  }

  /** Nothing to rewrite in c above low, up to where the list before was rewritten, if there is one. */
  ghost predicate Searched(temps: set<int>, c: seq<Instr>, low: int, high: Option<nat>) {
    forall p: nat :: low < p < |c| && (high.Some? ==> p <= high.value) ==> !RewritableAt(temps, c, p)
  }

  function Before(at: seq<nat>, k: nat): Option<nat>
    requires k <= |at|
  {
    if k == 0 then None else Some(at[k - 1])
  }

  ghost predicate SearchedAll(temps: set<int>, steps: seq<seq<Instr>>, at: seq<nat>) {
    |steps| == |at| + 1 && forall k: nat {:trigger at[k]} :: k < |at| ==> Searched(temps, steps[k], at[k], Before(at, k))
  }

  ghost predicate SearchedLast(temps: set<int>, steps: seq<seq<Instr>>, at: seq<nat>, instr: int) {
    |steps| == |at| + 1 && Searched(temps, steps[|at|], instr, Before(at, |at|))
  }

  /** The search does not go on far behind a rewrite, and after a postponement not behind it at all. */
  ghost predicate NextAll(temps: set<int>, steps: seq<seq<Instr>>, at: seq<nat>, instr: int) {
    && |steps| == |at| + 1
    && (forall k: nat {:trigger at[k]} :: k < |at| ==> (if k + 1 < |at| then at[k + 1] else instr) <= if Postpones(temps, steps[k], at[k]) then at[k] else at[k] + 2)
  }

  lemma NextMore(temps: set<int>, steps: seq<seq<Instr>>, at: seq<nat>, instr: nat, c: seq<Instr>, next: int)
    requires NextAll(temps, steps, at, instr) && next <= if Postpones(temps, steps[|at|], instr) then instr else instr + 2
    ensures NextAll(temps, steps + [c], at + [instr], next)
  {
    hide Postpones;
    var steps2, at2 := steps + [c], at + [instr];
    forall k: nat {:trigger at2[k]} | k < |at2|
      ensures (if k + 1 < |at2| then at2[k + 1] else next) <= if Postpones(temps, steps2[k], at2[k]) then at2[k] else at2[k] + 2
    {
      assert steps2[k] == steps[k];
      if k < |at| { assert at2[k] == at[k]; }
    }
  }

  lemma NextOne(temps: set<int>, steps: seq<seq<Instr>>, at: seq<nat>, instr: int)
    requires NextAll(temps, steps, at, instr)
    ensures NextAll(temps, steps, at, instr - 1)
  {
    hide Postpones;
  }

  lemma NextFacts(temps: set<int>, steps: seq<seq<Instr>>, at: seq<nat>, instr: int)
    requires NextAll(temps, steps, at, instr)
    ensures forall k: nat :: k + 1 < |at| ==> at[k + 1] <= if Postpones(temps, steps[k], at[k]) then at[k] else at[k] + 2
  {
    hide Postpones;
  }

  ghost predicate PostponedSome(temps: set<int>, steps: seq<seq<Instr>>, at: seq<nat>) {
    exists k: nat :: k < |at| && k < |steps| && Postpones(temps, steps[k], at[k])
  }

  lemma PostponedMore(temps: set<int>, steps: seq<seq<Instr>>, at: seq<nat>, instr: nat, c: seq<Instr>)
    requires |steps| == |at| + 1
    ensures PostponedSome(temps, steps, at) || Postpones(temps, steps[|at|], instr) ==> PostponedSome(temps, steps + [c], at + [instr])
  {
    hide Postpones;
    var steps2, at2 := steps + [c], at + [instr];
    assert steps2[|at|] == steps[|at|] && at2[|at|] == instr;
    if PostponedSome(temps, steps, at) {
      var k: nat :| k < |at| && k < |steps| && Postpones(temps, steps[k], at[k]);
      assert steps2[k] == steps[k] && at2[k] == at[k];
    }
  }

  lemma SmallerAgain(a: seq<Instr>, b: seq<Instr>, c: seq<Instr>)
    ensures (a == b || Smaller(a, b)) && Smaller(b, c) ==> Smaller(a, c)
    ensures !Smaller(a, a)
  {
  }

  lemma SearchStart(temps: set<int>, c: seq<Instr>)
    ensures Rewrites(temps, [c]) && RewrittenAll(temps, [c], []) && SearchedAll(temps, [c], []) && SearchedLast(temps, [c], [], |c| - 1)
    ensures NoPairs(c, |c| - 1) && NoSwaps(c, |c| - 1) && forall instr :: NextAll(temps, [c], [], instr)
  {
  }

  /** What the search has found when it is through with the last list. */
  lemma SearchDone(temps: set<int>, steps: seq<seq<Instr>>, at: seq<nat>, postponed: bool)
    requires RewrittenAll(temps, steps, at) && SearchedAll(temps, steps, at) && SearchedLast(temps, steps, at, -1)
    requires NoPairs(steps[|at|], -1) && if postponed then PostponedSome(temps, steps, at) else NoSwaps(steps[|at|], -1)
    ensures forall k: nat, p: nat :: k <= |at| && p < |steps[k]| && (k < |at| ==> p > at[k]) && (k > 0 ==> p <= at[k - 1]) ==>
      !RewritableAt(temps, steps[k], p)
    ensures at == [] ==> forall p: nat :: p < |steps[0]| ==> !RewritableAt(temps, steps[0], p)
    ensures var c := steps[|at|];
      forall p: nat :: p + 1 < |c| ==>
        && !StackPair(c[p], c[p + 1]) && !TestPair(c[p], c[p + 1])
        && !GlobalReadPair(c[p], c[p + 1]) && !ClearJumpPair(c[p], c[p + 1])
    ensures (forall k: nat :: k < |at| ==> !Postpones(temps, steps[k], at[k])) ==> forall p: nat :: !SwapAt(steps[|at|], p)
  {
    hide RewritableAt, RewrittenAt, StackPair, TestPair, GlobalReadPair, ClearJumpPair, Postpones;
    var c := steps[|at|];
    forall k: nat, p: nat | k <= |at| && p < |steps[k]| && (k < |at| ==> p > at[k]) && (k > 0 ==> p <= at[k - 1])
      ensures !RewritableAt(temps, steps[k], p)
    {
      if k < |at| { assert Searched(temps, steps[k], at[k], Before(at, k)); }
    }
    forall p: nat | p + 1 < |c|
      ensures !StackPair(c[p], c[p + 1]) && !TestPair(c[p], c[p + 1]) && !GlobalReadPair(c[p], c[p + 1]) && !ClearJumpPair(c[p], c[p + 1])
    {
      assert !PairAt(c, p) && !PairAt(c, p + 1);
    }
  }

  lemma SearchedOn(temps: set<int>, steps: seq<seq<Instr>>, at: seq<nat>, instr: nat, c: seq<Instr>, next: int)
    requires SearchedAll(temps, steps, at) && SearchedLast(temps, steps, at, instr) && RewrittenAll(temps, steps, at)
    requires instr < |steps[|at|]| && RewrittenAt(temps, steps[|at|], instr, c) && (next >= instr || next == |c| - 1)
    ensures SearchedAll(temps, steps + [c], at + [instr]) && SearchedLast(temps, steps + [c], at + [instr], next)
    ensures RewrittenAll(temps, steps + [c], at + [instr])
  {
    hide RewritableAt, RewrittenAt, Searched;
    var steps2, at2 := steps + [c], at + [instr];
    forall k: nat {:trigger at2[k]} | k < |at2|
      ensures Searched(temps, steps2[k], at2[k], Before(at2, k)) && at2[k] < |steps2[k]| && RewrittenAt(temps, steps2[k], at2[k], steps2[k + 1])
    {
      assert Before(at2, k) == Before(at, k);
      if k < |at| { assert at2[k] == at[k]; }
    }
    SearchedNone(temps, c, next, instr);
  }

  lemma SearchedNone(temps: set<int>, c: seq<Instr>, next: int, instr: nat)
    requires next >= instr || next == |c| - 1
    ensures Searched(temps, c, next, Some(instr))
  {
  }

  lemma OnePast(temps: set<int>, steps: seq<seq<Instr>>, at: seq<nat>, instr: nat)
    requires SearchedLast(temps, steps, at, instr) && instr < |steps[|at|]| && !RewritableAt(temps, steps[|at|], instr)
    ensures SearchedLast(temps, steps, at, instr - 1)
    ensures NoPairs(steps[|at|], instr) ==> NoPairs(steps[|at|], instr - 1)
    ensures NoSwaps(steps[|at|], instr) ==> NoSwaps(steps[|at|], instr - 1)
  {
    hide RewritableAt, PairAt, SwapAt;
    PairRewritable(temps, steps[|at|], instr);
  }

  lemma SameStackInc(set_: Instr, use: Instr)
    requires set_.SetV4? && (use.CMPi? || use.Arith?)
    ensures StackInc(Combined(set_, use)) == StackInc(use)
  {
  }

  lemma ImprovedIsRewritten(temps: set<int>, c1: seq<Instr>, c2: seq<Instr>)
    requires Improves(temps, c1, c2)
    ensures Rewritten(temps, c1, c2)
  {
  }

  lemma RewrittenFacts(temps: set<int>, c1: seq<Instr>, c2: seq<Instr>)
    requires Rewritten(temps, c1, c2)
    ensures TablesClosed(c2) && Smaller(c1, c2) && (|c2| < |c1| || (|c2| == |c1| && Loads(c2) < Loads(c1)))
  {
  }

  lemma OneMore(temps: set<int>, steps: seq<seq<Instr>>, c: seq<Instr>)
    requires |steps| > 0 && Rewrites(temps, steps) && Rewritten(temps, steps[|steps| - 1], c)
    ensures Rewrites(temps, steps + [c])
  {
    var more := steps + [c];
    forall i {:trigger more[i]} | 0 <= i < |more| - 1 ensures Rewritten(temps, more[i], more[i + 1]) {
      if i < |steps| - 1 { assert Rewritten(temps, steps[i], steps[i + 1]); }
    }
  }

  lemma DoubledEdit(c: seq<Instr>, i: nat)
    requires Doubled(c, i) && TablesClosed(c)
    ensures TablesClosed(Folded(c, i)) && |Folded(c, i)| == |c| - 1
  {
    hide TablesClosed;
    var e := Splice(c, i, 2, [Combined(c[i], c[i + 1])]);
    NextTwo(c, i, e.w2);
    TablesStayClosed(e);
  }

  const DoubledSum: seq<Instr> := [SetV4(1, 3), Arith(ADD, 2, 1, 1), RET(0)]

  lemma DoubledSumFolds()
    ensures FoldsAt({1}, DoubledSum, 0) && TablesClosed(DoubledSum)
    ensures Folded(DoubledSum, 0) == [ArithI(ADD, 2, 1, 3), RET(0)]
  {
    forall n: nat ensures !LiveN(DoubledSum, 2, 1, n) { }
  }

  /** The optimizer does fold where that is wrong: 3 + 3 becomes what the variable held before, plus 3. */
  method FoldDoubled() returns (b: ByteCode)
    ensures b.code == [ArithI(ADD, 2, 1, 3), RET(0)] && !Refines(b.temps, DoubledSum, b.code)
  {
    hide FoldsAt, Folded, TablesClosed, Refines, Rewritten, SizeOf, StackInc, RewritableAt, RewrittenAt, Behind, SwapsBehind, Postpones;
    DoubledSumFolds();
    var c := DoubledSum;
    b := new ByteCode(c, [SizeOf(c[0]), SizeOf(c[1]), SizeOf(c[2])], [StackInc(c[0]), StackInc(c[1]), StackInc(c[2])], {1});
    FoldsThere({1}, c, 0);
    var changed, next := b.Rewrite(0);
    FoldsOnly({1}, c, 0, b.code);
    DoubledFoldBreaks();
  }

  lemma OperandRewritten(temps: set<int>, c: seq<Instr>, i: nat)
    requires FoldsAt(temps, c, i) && TablesClosed(c)
    ensures Rewritten(temps, c, Folded(c, i)) && c[..i] <= Folded(c, i)
  {
    hide TablesClosed, Live, Refines, Safe, Improves, Combined, DoubleOf;
    if DoubleOf(c[i + 1]) == Some(c[i].v) {
      DoubledEdit(c, i);
      RefinesRefl(temps, c);
      assert FoldsDoubledAt(temps, c, c, i, Folded(c, i));
      if Safe(temps, c) { NotDoubled(temps, c, c[i], c[i + 1]); }
    } else {
      ConstantImproves(temps, c, i, c[i + 1]);
      ImprovedIsRewritten(temps, c, Folded(c, i));
    }
  }

  /** A rewrite after a right move. */
  lemma RewrittenAfter(temps: set<int>, a: seq<Instr>, b: seq<Instr>, c: seq<Instr>)
    requires Refines(temps, a, b) && (Safe(temps, a) ==> Safe(temps, b)) && (Safe(temps, b) ==> Safe(temps, a))
    requires |a| == |b| && Loads(a) == Loads(b) && Rewritten(temps, b, c)
    ensures Rewritten(temps, a, c)
  {
    hide Refines, TablesClosed, Safe, Loads;
    if Improves(temps, b, c) {
      RefinesTrans(temps, a, b, c);
    } else {
      var m: seq<Instr>, i: nat :| FoldsDoubledAt(temps, b, m, i, c);
      RefinesTrans(temps, a, b, m);
      assert FoldsDoubledAt(temps, a, m, i, c);
    }
  }

  // ---- Sizes and stack effects ----

  /** Every instruction has the size and the stack effect that the tables give its operation. */
  ghost predicate Tabled(code: seq<Instr>, sizes: seq<nat>, incs: seq<int>) {
    && |sizes| == |incs| == |code|
    && forall i :: 0 <= i < |code| ==> sizes[i] == SizeOf(code[i]) && incs[i] == StackInc(code[i])
  }

  lemma TabledLengths(code: seq<Instr>, sizes: seq<nat>, incs: seq<int>)
    requires Tabled(code, sizes, incs)
    ensures |sizes| == |incs| == |code|
  {
  }

  function Removed<T>(s: seq<T>, i: nat): seq<T>
    requires i < |s|
  {
    s[..i] + s[i + 1..]
  }

  function Inserted<T>(s: seq<T>, i: nat, x: T): seq<T>
    requires i <= |s|
  {
    s[..i] + [x] + s[i..]
  }

  lemma Reinserted<T>(s: seq<T>, curr: nat, use: nat)
    requires curr < use < |s|
    ensures |Removed(s, curr)| == |Removed(s, use - 1)| == |s| - 1
    ensures Inserted(Removed(s, curr), use - 1, s[curr]) == MovedDown(s, curr, use)
    ensures Inserted(Removed(s, use - 1), curr, s[use - 1]) == MovedUp(s, curr, use)
  {
    var d, u := Removed(s, curr), Removed(s, use - 1);
    assert d[..use - 1] == s[..curr] + s[curr + 1..use] && d[use - 1..] == s[use..];
    assert u[..curr] == s[..curr] && u[curr..] == s[curr..use - 1] + s[use..];
  }

  lemma MovedTabled(code: seq<Instr>, sizes: seq<nat>, incs: seq<int>, curr: nat, use: nat)
    requires Tabled(code, sizes, incs) && curr < use < |code|
    ensures Tabled(MovedDown(code, curr, use), MovedDown(sizes, curr, use), MovedDown(incs, curr, use))
    ensures Tabled(MovedUp(code, curr, use), MovedUp(sizes, curr, use), MovedUp(incs, curr, use))
  {
    hide SizeOf, StackInc, MovedDown, MovedUp;
    MovedFrom(code, curr, use);
    MovedFrom(sizes, curr, use);
    MovedFrom(incs, curr, use);
  }

  function DownFrom(curr: nat, use: nat, k: int): int {
    if k < curr || k >= use then k else if k == use - 1 then curr else k + 1
  }

  function UpFrom(curr: nat, use: nat, k: int): int {
    if k < curr || k >= use then k else if k == curr then use - 1 else k - 1
  }

  /** Where each element comes from. */
  lemma MovedFrom<T>(s: seq<T>, curr: nat, use: nat)
    requires curr < use < |s|
    ensures |MovedDown(s, curr, use)| == |s| == |MovedUp(s, curr, use)|
    ensures forall k :: 0 <= k < |s| ==> MovedDown(s, curr, use)[k] == s[DownFrom(curr, use, k)]
    ensures forall k :: 0 <= k < |s| ==> MovedUp(s, curr, use)[k] == s[UpFrom(curr, use, k)]
  {
  }

  lemma TabledAt(code: seq<Instr>, sizes: seq<nat>, incs: seq<int>, i: nat)
    requires Tabled(code, sizes, incs) && i < |code|
    ensures |sizes| == |incs| == |code| && sizes[i] == SizeOf(code[i]) && incs[i] == StackInc(code[i])
  {
  }

  lemma TabledChange(code: seq<Instr>, sizes: seq<nat>, incs: seq<int>, i: nat, instr: Instr)
    requires Tabled(code, sizes, incs) && i < |code| && SizeOf(instr) == SizeOf(code[i]) && StackInc(instr) == StackInc(code[i])
    ensures Tabled(code[i := instr], sizes, incs)
  {
  }

  // ---- Why each rewrite improves the code ----

  lemma NextTwo(c: seq<Instr>, i: nat, w2: seq<Instr>)
    requires i + 1 < |c|
    ensures Splice(c, i, 2, w2).w == [c[i], c[i + 1]]
  {
  }

  lemma DeadWriteImproves(temps: set<int>, c: seq<Instr>, i: nat)
    requires i < |c| && Target(c[i]).Some? && Target(c[i]).value in temps && !Live(c, i + 1, Target(c[i]).value) && TablesClosed(c)
    requires c[i].LdGRdR4? ==> !RegUsed(c, i + 1)
    ensures Improves(temps, c, c[..i] + c[i + 1..])
  {
    hide TablesClosed, Live, EditOk, Refines, Safe, CoveredBy, Loads, Improves, RegUsed;
    var e := Splice(c, i, 1, []);
    assert e.w == [c[i]] && e.After() == c[..i] + c[i + 1..];
    DeadWrite(temps, e, Target(c[i]).value);
    EditImproves(temps, e);
  }

  lemma LoadsOne(i: Instr)
    ensures Loads([i]) == if i.LdGRdR4? then 1 else 0
  {
    assert [i][1..] == [];
  }

  lemma DeadGlobalReadImproves(temps: set<int>, c: seq<Instr>, i: nat)
    requires i < |c| && c[i].LdGRdR4? && c[i].v in temps && !Live(c, i + 1, c[i].v) && TablesClosed(c)
    ensures Improves(temps, c, c[i := LDG(c[i].g)])
  {
    hide TablesClosed, Live, EditOk, Refines, Loads;
    var e := Splice(c, i, 1, [LDG(c[i].g)]);
    assert e.w == [c[i]];
    DeadGlobalRead(temps, e, c[i].v, c[i].g);
    LoadsOne(c[i]);
    LoadsOne(LDG(c[i].g));
    EditImproves(temps, e);
    assert e.After() == c[i := LDG(c[i].g)];
  }

  /** In safe code a constant load that can be combined with its use meets no doubled operand. */
  lemma NotDoubled(temps: set<int>, c: seq<Instr>, set_: Instr, use: Instr)
    requires Safe(temps, c) && set_ in c && use in c && set_.SetV4? && (set_.v in temps || (use.Arith? && use.d == set_.v))
    ensures DoubleOf(use) != Some(set_.v)
  {
    assert DoubleOk(temps, c, use);
    assert SetsConst(set_) == Some(set_.v);
  }

  lemma ConstantImproves(temps: set<int>, c: seq<Instr>, i: nat, use: Instr)
    requires i + 1 < |c| && c[i].SetV4? && use == c[i + 1] && Combines(c[i].v, use) && TablesClosed(c) && DoubleOf(use) != Some(c[i].v)
    requires (c[i].v in temps && !Live(c, i + 2, c[i].v)) || (use.Arith? && use.d == c[i].v)
    ensures Improves(temps, c, Splice(c, i, 2, [Combined(c[i], use)]).After())
  {
    hide TablesClosed, Live, EditOk, Refines, Safe, Improves, CoveredBy;
    var v, k, e := c[i].v, c[i].k, Splice(c, i, 2, [Combined(c[i], use)]);
    NextTwo(c, i, e.w2);
    match use {
      case CMPi(x, y) => FoldCompare(temps, e, v, k, x);
      case Arith(op, d, x, y) =>
        if y == v { FoldRight(temps, e, v, k, op, d, x); } else { FoldLeft(temps, e, v, k, op, d, y); }
      case CpyVtoV4(d, x) => FoldCopy(temps, e, v, k, d);
      case PshV4(x) => FoldPush(temps, e, v, k);
      case CpyVtoG4(x, g) => FoldGlobal(temps, e, v, k, g);
    }
    CombinedCovered(v, k, use, e.w);
    EditImproves(temps, e);
  }

  lemma CombinedCovered(v: int, k: int, use: Instr, w: seq<Instr>)
    requires Combines(v, use) && w == [SetV4(v, k), use]
    ensures CoveredBy(Combined(SetV4(v, k), use), w)
  {
    assert SetV4(v, k) in w && use in w;
  }

  lemma MoveImproves(temps: set<int>, c: seq<Instr>, i: nat)
    requires i + 1 < |c| && (c[i].Arith? || c[i].ArithI?) && c[i + 1].CpyVtoV4? && c[i].d == c[i + 1].x && TablesClosed(c)
    requires c[i].d in temps && !Live(c, i + 2, c[i].d)
    ensures Improves(temps, c, Splice(c, i, 2, [Retarget(c[i], c[i + 1].d)]).After())
  {
    hide TablesClosed, Live, EditOk, Refines;
    var e := Splice(c, i, 2, [Retarget(c[i], c[i + 1].d)]);
    NextTwo(c, i, e.w2);
    MoveResult(temps, e, c[i], c[i].d, c[i + 1].d);
    assert CoveredBy(Retarget(c[i], c[i + 1].d), e.w) by {
      assert c[i] in e.w && c[i + 1] in e.w;
      if DoubleOf(c[i]).Some? { assert SameDouble(Retarget(c[i], c[i + 1].d), c[i], e.w); }
    }
    EditImproves(temps, e);
  }

  lemma RoundTripImproves(temps: set<int>, c: seq<Instr>, i: nat)
    requires i + 1 < |c| && c[i].CpyRtoV4? && c[i + 1].CpyVtoR4? && c[i].v == c[i + 1].v && TablesClosed(c)
    requires c[i].v in temps && !Live(c, i + 2, c[i].v)
    ensures Improves(temps, c, Splice(c, i, 2, []).After())
  {
    hide TablesClosed, Live, EditOk, Refines;
    var e := Splice(c, i, 2, []);
    NextTwo(c, i, e.w2);
    RegisterRoundTrip(temps, e, c[i].v);
    EditImproves(temps, e);
  }

  lemma GlobalPushImproves(temps: set<int>, c: seq<Instr>, i: nat)
    requires i + 1 < |c| && c[i].CpyGtoV4? && c[i + 1].PshV4? && c[i].v == c[i + 1].v && TablesClosed(c)
    requires c[i].v in temps && !Live(c, i + 2, c[i].v)
    ensures Improves(temps, c, Splice(c, i, 2, [PshG4(c[i].g)]).After())
  {
    hide TablesClosed, Live, EditOk, Refines;
    var e := Splice(c, i, 2, [PshG4(c[i].g)]);
    NextTwo(c, i, e.w2);
    GlobalPush(temps, e, c[i].v, c[i].g);
    EditImproves(temps, e);
  }

  /** Moving an initialization up to its use keeps what the rewrites need. */
  lemma MovedReady(temps: set<int>, c: seq<Instr>, curr: nat, use: nat)
    requires curr < use < |c| && c[curr].SetV4? && c[curr].v in temps && NotAbout(c[curr + 1..use], c[curr].v) && TablesClosed(c)
    ensures var c2 := MovedDown(c, curr, use);
      TablesClosed(c2) && (Safe(temps, c2) <==> Safe(temps, c)) && |c2| == |c| && Loads(c2) == Loads(c)
  {
    hide TablesClosed, Refines;
    var i, mid := c[curr], c[curr + 1..use];
    var e := Splice(c, curr, use - curr, mid + [i]);
    assert e.w == [i] + mid;
    MidStraight(mid, i.v);
    TablesStayClosed(e);
    assert e.After() == c[..curr] + mid + [i] + c[use..];
    SafeMoved(temps, c, curr, use);
    LoadsAppend(e.pre + e.w, e.post);
    LoadsAppend(e.pre, e.w);
    LoadsAppend(e.pre + e.w2, e.post);
    LoadsAppend(e.pre, e.w2);
    LoadsAppend([i], mid);
    LoadsAppend(mid, [i]);
  }

  /** Whether a list is safe does not depend on the order of its instructions. */
  lemma SafeMoved(temps: set<int>, c: seq<Instr>, curr: nat, use: nat)
    requires curr < use < |c|
    ensures Safe(temps, MovedDown(c, curr, use)) <==> Safe(temps, c)
  {
    var c2 := MovedDown(c, curr, use);
    assert c == c[..curr] + [c[curr]] + c[curr + 1..use] + c[use..];
    assert forall k :: k in c <==> k in c2;
    assert forall x :: NeverConst(c, x) <==> NeverConst(c2, x);
    assert forall x :: NeverCopied(c, x) <==> NeverCopied(c2, x);
    assert forall k :: DoubleOk(temps, c, k) <==> DoubleOk(temps, c2, k);
  }

  /** And refines, where the use follows no address. */
  lemma MovedRefines(temps: set<int>, c: seq<Instr>, curr: nat, use: nat)
    requires curr < use < |c| && c[curr].SetV4? && c[curr].v in temps && NotAbout(c[curr + 1..use], c[curr].v) && TablesClosed(c)
    requires Combines(c[curr].v, c[use])
    ensures Refines(temps, c, MovedDown(c, curr, use))
  {
    hide TablesClosed, EditOk, Refines, NotAbout;
    var i, mid := c[curr], c[curr + 1..use];
    var e := Splice(c, curr, use + 1 - curr, mid + [i, c[use]]);
    assert e.w == [i] + mid + [c[use]];
    Postpone(temps, e, i.v, i.k, mid, c[use]);
    EditRefines(temps, e);
    assert e.After() == c[..curr] + mid + [i] + c[use..];
  }

  lemma SwapImproves(temps: set<int>, c: seq<Instr>, i: nat)
    requires i + 2 < |c| && PushesPtr(c[i]) && PushesPtr(c[i + 1]) && c[i + 2].SwapPtr? && TablesClosed(c)
    ensures Improves(temps, c, Splice(c, i, 3, [c[i + 1], c[i]]).After())
  {
    hide TablesClosed, EditOk, Refines, Live;
    var e := Splice(c, i, 3, [c[i + 1], c[i]]);
    assert e.w == [c[i], c[i + 1], c[i + 2]];
    SwapPushes(temps, e, c[i], c[i + 1]);
    EditImproves(temps, e);
  }

  lemma LoadPopImproves(temps: set<int>, c: seq<Instr>, i: nat)
    requires i + 1 < |c| && c[i].RDSPtr? && c[i + 1].PopPtr? && TablesClosed(c)
    ensures Improves(temps, c, Splice(c, i, 2, [PopPtr]).After())
  {
    hide TablesClosed, EditOk, Refines, Live;
    var e := Splice(c, i, 2, [PopPtr]);
    assert e.w == [c[i], c[i + 1]];
    LoadPop(temps, e);
    EditImproves(temps, e);
  }

  lemma PushPopImproves(temps: set<int>, c: seq<Instr>, i: nat)
    requires i + 1 < |c| && PushesPtr(c[i]) && c[i + 1].PopPtr? && TablesClosed(c)
    ensures Improves(temps, c, Splice(c, i, 2, []).After())
  {
    hide TablesClosed, EditOk, Refines, Live;
    var e := Splice(c, i, 2, []);
    assert e.w == [c[i], c[i + 1]];
    PushPop(temps, e, c[i]);
    EditImproves(temps, e);
  }

  lemma PushLoadImproves(temps: set<int>, c: seq<Instr>, i: nat)
    requires i + 1 < |c| && c[i].PSF? && c[i + 1].RDSPtr? && TablesClosed(c)
    ensures Improves(temps, c, Splice(c, i, 2, [PshVPtr(c[i].v)]).After())
  {
    hide TablesClosed, EditOk, Refines, Live;
    var e := Splice(c, i, 2, [PshVPtr(c[i].v)]);
    assert e.w == [c[i], c[i + 1]];
    PushLoad(temps, e, c[i].v);
    EditImproves(temps, e);
  }

  lemma IncrementImproves(temps: set<int>, c: seq<Instr>, i: nat)
    requires i + 1 < |c| && c[i].LDV? && (c[i + 1].INCi? || c[i + 1].DECi?) && !RegUsed(c, i + 2) && TablesClosed(c)
    ensures Improves(temps, c, Splice(c, i, 2, [if c[i + 1].INCi? then IncVi(c[i].v) else DecVi(c[i].v)]).After())
  {
    hide TablesClosed, EditOk, Refines, Live;
    var e := Splice(c, i, 2, [if c[i + 1].INCi? then IncVi(c[i].v) else DecVi(c[i].v)]);
    assert e.w == [c[i], c[i + 1]];
    IncrementVar(temps, e, c[i].v, c[i + 1].INCi?);
    EditImproves(temps, e);
  }

  lemma WriteGlobalImproves(temps: set<int>, c: seq<Instr>, i: nat)
    requires i + 1 < |c| && c[i].LDG? && c[i + 1].WRTV4? && !RegUsed(c, i + 2) && TablesClosed(c)
    ensures Improves(temps, c, Splice(c, i, 2, [CpyVtoG4(c[i + 1].v, c[i].g)]).After())
  {
    hide TablesClosed, EditOk, Refines, Live;
    var e := Splice(c, i, 2, [CpyVtoG4(c[i + 1].v, c[i].g)]);
    assert e.w == [c[i], c[i + 1]];
    WriteGlobal(temps, e, c[i + 1].v, c[i].g);
    EditImproves(temps, e);
  }

  lemma TestClearImproves(temps: set<int>, c: seq<Instr>, i: nat)
    requires i + 1 < |c| && c[i].Test? && c[i + 1].ClrHi? && TablesClosed(c)
    ensures Improves(temps, c, Splice(c, i, 2, [c[i]]).After())
  {
    hide TablesClosed, EditOk, Refines, Live;
    var e := Splice(c, i, 2, [c[i]]);
    assert e.w == [c[i], c[i + 1]];
    TestClears(temps, e, c[i].t);
    EditImproves(temps, e);
  }

  lemma ClearJumpImproves(temps: set<int>, c: seq<Instr>, i: nat)
    requires i + 1 < |c| && c[i].ClrHi? && c[i + 1].Jump? && (c[i + 1].cond == JZ || c[i + 1].cond == JNZ) && TablesClosed(c)
    ensures Improves(temps, c, Splice(c, i, 2, [Jump(if c[i + 1].cond == JZ then JLowZ else JLowNZ, c[i + 1].l)]).After())
  {
    hide TablesClosed, EditOk, Refines, Live;
    var e := Splice(c, i, 2, [Jump(if c[i + 1].cond == JZ then JLowZ else JLowNZ, c[i + 1].l)]);
    assert e.w == [c[i], c[i + 1]];
    ClearJump(temps, e, c[i + 1].l, c[i + 1].cond == JZ);
    EditImproves(temps, e);
  }

  lemma TestJumpImproves(temps: set<int>, c: seq<Instr>, i: nat)
    requires i + 1 < |c| && c[i].Test? && c[i + 1].Jump? && TestJump(c[i].t, c[i + 1].cond).Some? && TablesClosed(c)
    ensures Improves(temps, c, Splice(c, i, 2, [Jump(TestJump(c[i].t, c[i + 1].cond).value, c[i + 1].l)]).After())
  {
    hide TablesClosed, EditOk, Refines, Live;
    var e := Splice(c, i, 2, [Jump(TestJump(c[i].t, c[i + 1].cond).value, c[i + 1].l)]);
    assert e.w == [c[i], c[i + 1]];
    TestJumps(temps, e, c[i].t, c[i + 1].cond, c[i + 1].l);
    EditImproves(temps, e);
  }

  lemma ReadGlobalImproves(temps: set<int>, c: seq<Instr>, i: nat, used: bool)
    requires i + 1 < |c| && c[i].LDG? && c[i + 1].RDR4? && (RegUsed(c, i + 2) ==> used) && TablesClosed(c)
    ensures Improves(temps, c, Splice(c, i, 2, [if used then LdGRdR4(c[i + 1].v, c[i].g) else CpyGtoV4(c[i + 1].v, c[i].g)]).After())
  {
    hide TablesClosed, EditOk, Refines, Live;
    var e := Splice(c, i, 2, [if used then LdGRdR4(c[i + 1].v, c[i].g) else CpyGtoV4(c[i + 1].v, c[i].g)]);
    assert e.w == [c[i], c[i + 1]];
    ReadGlobal(temps, e, c[i + 1].v, c[i].g, used);
    EditImproves(temps, e);
  }

  /** Moving an instruction forward and back restores the list exactly. */
  lemma ThereAndBack(c: seq<Instr>, curr: nat, use: nat)
    requires curr < use < |c|
    ensures MovedUp(MovedDown(c, curr, use), curr, use) == c
  {
    var c2 := MovedDown(c, curr, use);
    assert c2[..curr] == c[..curr] && c2[use - 1] == c[curr] && c2[curr..use - 1] == c[curr + 1..use] && c2[use..] == c[use..];
    assert c == c[..curr] + [c[curr]] + c[curr + 1..use] + c[use..];
  }

  lemma ExploredMore(c: seq<Instr>, x: int, h: nat, heads: seq<nat>, more: seq<nat>)
    requires Explored(c, x, h, heads) && forall p :: p in heads ==> p in more
    ensures Explored(c, x, h, more)
  {
    forall n: nat | LiveN(c, h, x, n) ensures Onward(c, x, more, n) {
      var g: nat, m: nat :| g in heads && m < n && LiveN(c, g, x, m);
      assert g in more;
    }
  }

  /** From a switch, the reading paths go on through the targets of its table. */
  lemma TableHeads(c: seq<Instr>, x: int, p: nat, heads: seq<nat>)
    requires p < |c| && c[p].JMPP?
    requires forall q: nat :: Succ(c, p, q) ==> FindLabel(c, q, c[q].l).Some? ==> FindLabel(c, q, c[q].l).value in heads
    ensures forall q: nat, n: nat :: Succ(c, p, q) && LiveN(c, q, x, n) ==> Onward(c, x, heads, n)
  {
    forall q: nat, n: nat | Succ(c, p, q) && LiveN(c, q, x, n) ensures Onward(c, x, heads, n) {
      assert c[q].JMP?;
      var d :| Succ(c, q, d) && LiveN(c, d, x, n - 1);
      assert d in heads;
    }
  }
}
