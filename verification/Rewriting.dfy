/** Where the local optimizer rewrites a list, and what it makes of it there. */
module Rewriting {
  import opened Options
  import opened Bytecode
  import opened Liveness
  import opened Windows
  import opened Peepholes

  /** The edit that replaces n instructions at i. */
  function Splice(c: seq<Instr>, i: nat, n: nat, w2: seq<Instr>): (e: Edit)
    requires i + n <= |c|
    ensures e.Before() == c
  {
    assert c == c[..i] + c[i..i + n] + c[i + n..];
    Edit(c[..i], c[i..i + n], w2, c[i + n..])
  }

  /** n instructions at i replaced. */
  function Replaced(c: seq<Instr>, i: nat, n: nat, w2: seq<Instr>): seq<Instr>
    requires i + n <= |c|
  {
    c[..i] + w2 + c[i + n..]
  }

  /** The element at curr just before the one at use. */
  function MovedDown<T>(s: seq<T>, curr: nat, use: nat): seq<T>
    requires curr < use < |s|
  {
    s[..curr] + s[curr + 1..use] + [s[curr]] + s[use..]
  }

  /** The element before the one at use at curr. */
  function MovedUp<T>(s: seq<T>, curr: nat, use: nat): seq<T>
    requires curr < use < |s|
  {
    s[..curr] + [s[use - 1]] + s[curr..use - 1] + s[use..]
  }

  /** The instruction that a constant load and its only use become. */
  function Combined(set_: Instr, use: Instr): Instr
    requires set_.SetV4?
  {
    match use
    case CMPi(x, _) => CMPIi(x, set_.k)
    case Arith(op, d, x, y) => if y == set_.v then ArithI(op, d, x, set_.k) else ArithI(op, d, y, set_.k)
    case CpyVtoV4(d, _) => SetV4(d, set_.k)
    case PshV4(_) => PshC4(set_.k)
    case CpyVtoG4(_, g) => SetG4(g, set_.k)
    case _ => use
  }

  /** When a constant load can be combined with its use. */
  predicate Combines(v: int, use: Instr) {
    match use
    case CMPi(_, y) => y == v
    case Arith(op, _, x, y) => y == v || ((op == ADD || op == MUL) && x == v)
    case CpyVtoV4(_, x) => x == v
    case PshV4(x) => x == v
    case CpyVtoG4(x, _) => x == v
    case _ => false
  }

  /** The constant set at i is folded into the instruction behind it. */
  function Folded(c: seq<Instr>, i: nat): seq<Instr>
    requires i + 1 < |c| && c[i].SetV4?
  {
    Splice(c, i, 2, [Combined(c[i], c[i + 1])]).After()
  }

  // ---- Values that are not used ----

  /** The variable is a temporary that nothing reads from p on. */
  ghost predicate Dies(temps: set<int>, c: seq<Instr>, p: nat, v: int) {
    v in temps && !Live(c, p, v)
  }

  /** A temporary is written that nothing reads. */
  ghost predicate DeadAt(temps: set<int>, c: seq<Instr>, i: nat) {
    i < |c| && Target(c[i]).Some? && Dies(temps, c, i + 1, Target(c[i]).value)
  }

  /** The constant set at i is folded into the operation behind it, whatever that has for its other operand. */
  ghost predicate FoldsAt(temps: set<int>, c: seq<Instr>, i: nat) {
    && i + 1 < |c| && c[i].SetV4?
    && var v, use := c[i].v, c[i + 1];
      || (use.CMPi? && use.y == v && Dies(temps, c, i + 2, v))
      || (use.Arith? && (use.y == v || ((use.op == ADD || use.op == MUL) && use.x == v)) && (use.d == v || Dies(temps, c, i + 2, v)))
  }

  /** The constant set at i is only passed on by the instruction behind it. */
  ghost predicate PassedAt(temps: set<int>, c: seq<Instr>, i: nat) {
    && i + 1 < |c| && c[i].SetV4? && Dies(temps, c, i + 2, c[i].v)
    && (|| (c[i + 1].CpyVtoV4? && c[i + 1].x == c[i].v)
        || ((c[i + 1].PshV4? || c[i + 1].CpyVtoG4?) && c[i + 1].v == c[i].v))
  }

  /** The result at i is only moved by the instruction behind it. */
  ghost predicate MovedAt(temps: set<int>, c: seq<Instr>, i: nat) {
    && i + 1 < |c| && (c[i].Arith? || c[i].ArithI?) && c[i + 1].CpyVtoV4? && c[i + 1].x == c[i].d
    && Dies(temps, c, i + 2, c[i].d)
  }

  /** The register is saved at i only to be loaded again. */
  ghost predicate SavedAt(temps: set<int>, c: seq<Instr>, i: nat) {
    i + 1 < |c| && c[i].CpyRtoV4? && c[i + 1] == CpyVtoR4(c[i].v) && Dies(temps, c, i + 2, c[i].v)
  }

  /** A global is copied at i only to be pushed. */
  ghost predicate PushedAt(temps: set<int>, c: seq<Instr>, i: nat) {
    i + 1 < |c| && c[i].CpyGtoV4? && c[i + 1] == PshV4(c[i].v) && Dies(temps, c, i + 2, c[i].v)
  }

  ghost predicate UnusedAt(temps: set<int>, c: seq<Instr>, i: nat) {
    DeadAt(temps, c, i) || FoldsAt(temps, c, i) || PassedAt(temps, c, i) || MovedAt(temps, c, i) || SavedAt(temps, c, i) || PushedAt(temps, c, i)
  }

  /** The write gone; of LdGRdR4 the load of the register stays where that is used. */
  function WithoutWrite(c: seq<Instr>, i: nat): seq<Instr>
    requires i < |c|
  {
    Replaced(c, i, 1, if c[i].LdGRdR4? && RegUsed(c, i + 1) then [LDG(c[i].g)] else [])
  }

  ghost predicate UnusedTo(temps: set<int>, c: seq<Instr>, i: nat, c2: seq<Instr>) {
    || (DeadAt(temps, c, i) && c2 == WithoutWrite(c, i))
    || ((FoldsAt(temps, c, i) || PassedAt(temps, c, i)) && c2 == Folded(c, i))
    || (MovedAt(temps, c, i) && c2 == Replaced(c, i, 2, [Retarget(c[i], c[i + 1].d)]))
    || (SavedAt(temps, c, i) && c2 == Replaced(c, i, 2, []))
    || (PushedAt(temps, c, i) && c2 == Replaced(c, i, 2, [PshG4(c[i].g)]))
  }

  // ---- Initializations ----

  /** The first instruction behind i that reads v, with no label, jump or overwriting of v before it. */
  predicate FirstUse(c: seq<Instr>, i: nat, v: int, use: nat) {
    i < use < |c| && IsTempVarReadByInstr(c[use], v) && NotAbout(c[i + 1..use], v)
  }

  /** The temporary set at i could be combined with its first use, which is further on, if it was set there. */
  ghost predicate PostponedAt(temps: set<int>, c: seq<Instr>, i: nat, use: nat) {
    && i + 1 < use < |c| && c[i].SetV4? && c[i].v in temps && FirstUse(c, i, c[i].v, use)
    && (FoldsAt(temps, MovedDown(c, i, use), use - 1) || PassedAt(temps, MovedDown(c, i, use), use - 1))
  }

  ghost predicate Postpones(temps: set<int>, c: seq<Instr>, i: nat) {
    exists use: nat :: PostponedAt(temps, c, i, use)
  }

  ghost predicate PostponedTo(temps: set<int>, c: seq<Instr>, i: nat, c2: seq<Instr>) {
    exists use: nat :: PostponedAt(temps, c, i, use) && c2 == c[..i] + c[i + 1..use] + [Combined(c[i], c[use])] + c[use + 1..]
  }

  // ---- Sequences that have a shorter form ----

  /** Two pushes in the wrong order end at i. */
  predicate SwapAt(c: seq<Instr>, i: nat) {
    2 <= i < |c| && c[i].SwapPtr? && PushesPtr(c[i - 1]) && PushesPtr(c[i - 2])
  }

  predicate StackPair(a: Instr, b: Instr) {
    (b.PopPtr? && (a.RDSPtr? || PushesPtr(a))) || (b.RDSPtr? && a.PSF?)
  }

  predicate StackOpsAt(c: seq<Instr>, i: nat) {
    SwapAt(c, i) || (0 < i < |c| && StackPair(c[i - 1], c[i]))
  }

  /** What the pair becomes: the pop alone, nothing, or the push of the variable. */
  function StackPairTo(a: Instr, b: Instr): seq<Instr> {
    if b.RDSPtr? && a.PSF? then [PshVPtr(a.v)] else if a.RDSPtr? then [PopPtr] else []
  }

  predicate StackOpsTo(c: seq<Instr>, i: nat, c2: seq<Instr>) {
    && StackOpsAt(c, i)
    && (SwapAt(c, i) ==> c2 == Replaced(c, i - 2, 3, [c[i - 1], c[i - 2]]))
    && (!SwapAt(c, i) ==> c2 == Replaced(c, i - 1, 2, StackPairTo(c[i - 1], c[i])))
  }

  predicate LoadsPair(a: Instr, b: Instr) {
    (a.LDV? && (b.INCi? || b.DECi?)) || (a.LDG? && b.WRTV4?)
  }

  predicate GlobalReadPair(a: Instr, b: Instr) {
    a.LDG? && b.RDR4?
  }

  predicate RegisterLoadsAt(c: seq<Instr>, i: nat) {
    i + 1 < |c| && (GlobalReadPair(c[i], c[i + 1]) || (LoadsPair(c[i], c[i + 1]) && !RegUsed(c, i + 2)))
  }

  predicate RegisterLoadsTo(c: seq<Instr>, i: nat, c2: seq<Instr>) {
    && RegisterLoadsAt(c, i)
    && (c[i + 1].INCi? ==> c2 == Replaced(c, i, 2, [IncVi(c[i].v)]))
    && (c[i + 1].DECi? ==> c2 == Replaced(c, i, 2, [DecVi(c[i].v)]))
    && (c[i + 1].WRTV4? ==> c2 == Replaced(c, i, 2, [CpyVtoG4(c[i + 1].v, c[i].g)]))
    && (c[i + 1].RDR4? && RegUsed(c, i + 2) ==> c2 == Replaced(c, i, 2, [LdGRdR4(c[i + 1].v, c[i].g)]))
    && (c[i + 1].RDR4? && !RegUsed(c, i + 2) ==> c2 == Replaced(c, i, 2, [CpyGtoV4(c[i + 1].v, c[i].g)]))
  }

  predicate ByZero(cond: Cond) { cond == JZ || cond == JNZ || cond == JLowZ || cond == JLowNZ }

  predicate TestPair(a: Instr, b: Instr) {
    a.Test? && (b.ClrHi? || (b.Jump? && ByZero(b.cond)))
  }

  predicate ClearJumpPair(a: Instr, b: Instr) {
    a.ClrHi? && b.Jump? && (b.cond == JZ || b.cond == JNZ)
  }

  predicate JumpsAt(c: seq<Instr>, i: nat) {
    || (0 < i < |c| && TestPair(c[i - 1], c[i]))
    || (i + 1 < |c| && ClearJumpPair(c[i], c[i + 1]))
  }

  predicate JumpsTo(c: seq<Instr>, i: nat, c2: seq<Instr>) {
    && JumpsAt(c, i)
    && (0 < i && TestPair(c[i - 1], c[i]) && c[i].ClrHi? ==> c2 == Replaced(c, i - 1, 2, [c[i - 1]]))
    && (0 < i && TestPair(c[i - 1], c[i]) && c[i].Jump? ==>
          TestJump(c[i - 1].t, c[i].cond).Some? && c2 == Replaced(c, i - 1, 2, [Jump(TestJump(c[i - 1].t, c[i].cond).value, c[i].l)]))
    && (!(0 < i && TestPair(c[i - 1], c[i])) ==>
          c2 == Replaced(c, i, 2, [Jump(if c[i + 1].cond == JZ then JLowZ else JLowNZ, c[i + 1].l)]))
  }

  // ---- All of them ----

  /** There is something to rewrite at i. */
  ghost predicate RewritableAt(temps: set<int>, c: seq<Instr>, i: nat) {
    UnusedAt(temps, c, i) || Postpones(temps, c, i) || StackOpsAt(c, i) || RegisterLoadsAt(c, i) || JumpsAt(c, i)
  }

  /** c2 is c with what there is to rewrite at i rewritten. */
  ghost predicate RewrittenAt(temps: set<int>, c: seq<Instr>, i: nat, c2: seq<Instr>) {
    UnusedTo(temps, c, i, c2) || PostponedTo(temps, c, i, c2) || StackOpsTo(c, i, c2) || RegisterLoadsTo(c, i, c2) || JumpsTo(c, i, c2)
  }

  // ---- What is left behind the instruction that is looked at ----

  /** A pair whose rewriting depends on nothing else, found at its second instruction or at its first. */
  predicate PairAt(c: seq<Instr>, p: nat) {
    || (0 < p < |c| && (StackPair(c[p - 1], c[p]) || TestPair(c[p - 1], c[p])))
    || (p + 1 < |c| && (GlobalReadPair(c[p], c[p + 1]) || ClearJumpPair(c[p], c[p + 1])))
  }

  predicate NoPairs(c: seq<Instr>, curr: int) {
    forall p: nat :: curr < p < |c| ==> !PairAt(c, p)
  }

  predicate NoSwaps(c: seq<Instr>, curr: int) {
    forall p: nat :: curr < p < |c| ==> !SwapAt(c, p)
  }

  /** The search goes on at the instruction or at most two behind it, and misses no pair. */
  predicate Behind(c: seq<Instr>, curr: nat, c2: seq<Instr>, next: int) {
    && -1 <= next < |c2| && next <= curr + 2 && (next >= curr || next == |c2| - 1)
    && (NoPairs(c, curr) ==> NoPairs(c2, next))
  }

  predicate SwapsBehind(c: seq<Instr>, curr: nat, c2: seq<Instr>, next: int) {
    NoSwaps(c, curr) ==> NoSwaps(c2, next)
  }

  lemma PairsStay(c: seq<Instr>, i: nat, n: nat, w2: seq<Instr>, curr: nat, next: int)
    requires i + n <= |c| && i <= curr < i + n && -1 <= next < |c| - n + |w2|
    requires next <= curr + 2 && ((next >= curr && next >= i + |w2|) || next == |c| - n + |w2| - 1)
    ensures Behind(c, curr, Replaced(c, i, n, w2), next)
  {
    var c2 := Replaced(c, i, n, w2);
    forall p: nat | next < p < |c2| && NoPairs(c, curr) ensures !PairAt(c2, p) {
      assert !PairAt(c, p - |w2| + n);
    }
  }

  lemma SwapsStay(c: seq<Instr>, i: nat, n: nat, w2: seq<Instr>, curr: nat, next: int)
    requires i + n <= |c| && i <= curr < i + n && -1 <= next < |c| - n + |w2|
    requires (next >= curr && next >= i + |w2|) || next == |c| - n + |w2| - 1
    requires (w2 != [] && !PushesPtr(w2[|w2| - 1])) || next > i + |w2| || next == |c| - n + |w2| - 1
    ensures SwapsBehind(c, curr, Replaced(c, i, n, w2), next)
  {
    var c2 := Replaced(c, i, n, w2);
    forall p: nat | next < p < |c2| && NoSwaps(c, curr) ensures !SwapAt(c2, p) {
      assert !SwapAt(c, p - |w2| + n);
    }
  }

  /** A postponed initialization ends in nothing that is part of a pair. */
  lemma PostponedPairs(c: seq<Instr>, i: nat, use: nat)
    requires i + 1 < use < |c| && c[i].SetV4? && Combines(c[i].v, c[use])
    ensures Behind(c, i, c[..i] + c[i + 1..use] + [Combined(c[i], c[use])] + c[use + 1..], i)
  {
    var x := Combined(c[i], c[use]);
    var c2 := c[..i] + c[i + 1..use] + [x] + c[use + 1..];
    forall p: nat | i < p < |c2| && NoPairs(c, i) ensures !PairAt(c2, p) {
      assert c2[p - 1] == x || c2[p - 1] == c[p];
      assert c2[p] == x || c2[p] == c[p + 1];
      assert p + 1 < |c2| ==> c2[p + 1] == x || c2[p + 1] == c[p + 2];
      assert !PairAt(c, p + 1);
    }
  }

  lemma PairRewritable(temps: set<int>, c: seq<Instr>, p: nat)
    ensures PairAt(c, p) || SwapAt(c, p) ==> RewritableAt(temps, c, p)
  {
  }

  /** The first use is the only one. */
  lemma FirstUseUnique(c: seq<Instr>, i: nat, v: int, a: nat, b: nat)
    requires FirstUse(c, i, v, a) && FirstUse(c, i, v, b)
    ensures a == b
  {
  }
}
