/** From the list to the array the virtual machine executes: labels become distances, line cues suspends, and instructions
    dwords. */
module Linker {
  import opened Options
  import opened Bytecode
  import opened Encoding
  import opened InstructionList

  /** The position in dwords of the node at i. */
  function Pos(nodes: seq<Node>, i: nat): nat
    requires i <= |nodes|
  {
    if i == 0 then 0 else Pos(nodes, i - 1) + nodes[i - 1].size
  }

  lemma {:induction false} PosMonotone(nodes: seq<Node>, i: nat, k: nat)
    requires i <= k <= |nodes|
    ensures Pos(nodes, i) <= Pos(nodes, k)
    decreases k
  {
    if i < k { PosMonotone(nodes, i, k - 1); }
  }

  /** Positions depend on the sizes only. */
  lemma {:induction false} PosSame(a: seq<Node>, b: seq<Node>, i: nat)
    requires i <= |a| == |b| && forall k :: 0 <= k < |a| ==> a[k].size == b[k].size
    ensures Pos(a, i) == Pos(b, i)
  {
    if i > 0 { PosSame(a, b, i - 1); }
  }

  // ---- Decoding ----

  lemma RawRoundTrip(i: Instr)
    requires !i.LABEL? && !i.LINE?
    ensures FromRaw(ToRaw(i)) == Some(i)
  {
  }

  predicate Short(n: int) { -0x8000 <= n < 0x8000 }

  predicate Long(n: int) { -0x8000_0000 <= n < 0x8000_0000 }

  predicate Encodable(r: Raw) {
    0 <= r.op < 256 && Short(r.w0) && Short(r.w1) && Short(r.w2) && Long(r.d0) && Long(r.d1)
  }

  function U16(n: int): int { n % 0x1_0000 }

  function S16(u: int): int { if u >= 0x8000 then u - 0x1_0000 else u }

  function U32(n: int): int { n % 0x1_0000_0000 }

  function S32(u: int): int { if u >= 0x8000_0000 then u - 0x1_0000_0000 else u }

  /** The operands the machine reads at pos, by the format of the instruction there. */
  function Fetch(a: seq<int>, pos: nat): Option<Raw> {
    if pos >= |a| then None
    else
      var op := a[pos] % 0x100;
      var f := FormatOf(op);
      if pos + FormatSize(f) > |a| then None
      else
        var w0 := S16(a[pos] / 0x1_0000);
        Some(match f
             case NoArg => Raw(op, 0, 0, 0, 0, 0)
             case Info => Raw(op, 0, 0, 0, 0, 0)
             case W => Raw(op, w0, 0, 0, 0, 0)
             case DW => Raw(op, 0, 0, 0, S32(a[pos + 1]), 0)
             case WDW => Raw(op, w0, 0, 0, S32(a[pos + 1]), 0)
             case WW => Raw(op, w0, S16(a[pos + 1] % 0x1_0000), 0, 0, 0)
             case WWW => Raw(op, w0, S16(a[pos + 1] % 0x1_0000), S16(a[pos + 1] / 0x1_0000), 0, 0)
             case WWDW => Raw(op, w0, S16(a[pos + 1] % 0x1_0000), 0, S32(a[pos + 2]), 0)
             case DWDW => Raw(op, 0, 0, 0, S32(a[pos + 1]), S32(a[pos + 2])))
  }

  function Decode(a: seq<int>, pos: nat): Option<Instr> {
    match Fetch(a, pos) case Some(r) => FromRaw(r) case None => None
  }

  /** The dwords of an instruction. Where only the lower word of a dword is written, was is what the upper one is left with. */
  function Words(r: Raw, was: seq<int>): (s: seq<int>)
    requires |was| == FormatSize(FormatOf(r.op))
    ensures |s| == |was|
  {
    var first := r.op + 0x1_0000 * U16(r.w0);
    match FormatOf(r.op)
    case Info => []
    case NoArg => [r.op]
    case W => [first]
    case DW => [r.op, U32(r.d0)]
    case WDW => [first, U32(r.d0)]
    case WW => [first, was[1] / 0x1_0000 * 0x1_0000 + U16(r.w1)]
    case WWW => [first, U16(r.w1) + 0x1_0000 * U16(r.w2)]
    case WWDW => [first, was[1] / 0x1_0000 * 0x1_0000 + U16(r.w1), U32(r.d0)]
    case DWDW => [r.op, U32(r.d0), U32(r.d1)]
  }

  lemma SignedWord(n: int)
    requires Short(n)
    ensures S16(U16(n)) == n
  {
  }

  lemma SignedDword(n: int)
    requires Long(n)
    ensures S32(U32(n)) == n
  {
  }

  lemma FirstDword(op: int, n: int)
    requires 0 <= op < 256 && Short(n)
    ensures var d := op + 0x1_0000 * U16(n); d % 0x100 == op && S16(d / 0x1_0000) == n
  {
    var d := op + 0x1_0000 * U16(n);
    assert d == op + 0x100 * (0x100 * U16(n));
    SignedWord(n);
  }

  /** Operands that the format has no place for are 0. */
  predicate Fitting(r: Raw) {
    match FormatOf(r.op)
    case NoArg => r.w0 == r.w1 == r.w2 == r.d0 == r.d1 == 0
    case Info => false
    case W => r.w1 == r.w2 == r.d0 == r.d1 == 0
    case DW => r.w0 == r.w1 == r.w2 == r.d1 == 0
    case WDW => r.w1 == r.w2 == r.d1 == 0
    case WW => r.w2 == r.d0 == r.d1 == 0
    case WWW => r.d0 == r.d1 == 0
    case WWDW => r.w2 == r.d1 == 0
    case DWDW => r.w0 == r.w1 == r.w2 == 0
  }

  lemma RawFits(i: Instr)
    requires !i.LABEL? && !i.LINE?
    ensures Fitting(ToRaw(i))
  {
    if OneDword(i) { ShortFits(i); } else { LongFits(i); }
  }

  lemma ShortFits(i: Instr)
    requires OneDword(i)
    ensures Fitting(ToRaw(i))
  {
  }

  lemma LongFits(i: Instr)
    requires !OneDword(i) && !i.LABEL? && !i.LINE?
    ensures Fitting(ToRaw(i))
  {
  }

  /** The machine reads the operands the words were made of. */
  lemma FetchWords(r: Raw, was: seq<int>)
    requires Fitting(r) && Encodable(r) && |was| == FormatSize(FormatOf(r.op))
    ensures Fetch(Words(r, was), 0) == Some(r)
  {
    hide U16, S16, U32, S32;
    FirstDword(r.op, r.w0);
    LaterWords(r, was);
    SignedDword(r.d0);
    SignedDword(r.d1);
    var s := Words(r, was);
    assert s[0] % 0x100 == r.op by { OpFirst(r, was); }
  }

  lemma OpFirst(r: Raw, was: seq<int>)
    requires Fitting(r) && Encodable(r) && |was| == FormatSize(FormatOf(r.op))
    ensures |Words(r, was)| > 0 && Words(r, was)[0] % 0x100 == r.op
  {
    FirstDword(r.op, r.w0);
  }

  lemma LaterWords(r: Raw, was: seq<int>)
    requires Encodable(r)
    ensures var d := U16(r.w1) + 0x1_0000 * U16(r.w2); S16(d % 0x1_0000) == r.w1 && S16(d / 0x1_0000) == r.w2
    ensures forall u: int :: S16((u / 0x1_0000 * 0x1_0000 + U16(r.w1)) % 0x1_0000) == r.w1
  {
    SignedWord(r.w1);
    SignedWord(r.w2);
  }

  /** Only the dwords of the instruction matter. */
  lemma FetchSlice(a: seq<int>, pos: nat, ws: seq<int>)
    requires |ws| > 0 && pos + |ws| <= |a| && a[pos..pos + |ws|] == ws && FormatSize(FormatOf(ws[0] % 0x100)) == |ws|
    ensures Fetch(a, pos) == Fetch(ws, 0)
  {
    assert forall k :: 0 <= k < |ws| ==> a[pos + k] == ws[k];
  }

  /** The instruction at pos, as the machine finds it, is i. */
  predicate Holds(a: seq<int>, pos: nat, i: Instr) {
    Fetch(a, pos) == Some(ToRaw(i))
  }

  lemma WordsHold(a: seq<int>, pos: nat, i: Instr, was: seq<int>)
    requires Encodable(ToRaw(i)) && !i.LABEL? && !i.LINE? && |was| == SizeOf(i)
    requires pos + |was| <= |a| && a[pos..pos + |was|] == Words(ToRaw(i), was)
    ensures Holds(a, pos, i) && Decode(a, pos) == Some(i)
  {
    var ws := Words(ToRaw(i), was);
    RawFits(i);
    FetchWords(ToRaw(i), was);
    FirstDword(ToRaw(i).op, ToRaw(i).w0);
    FetchSlice(a, pos, ws);
    RawRoundTrip(i);
  }

  // ---- Labels ----

  function JumpLabel(i: Instr): Option<int> {
    match i case JMP(l) => Some(l) case Jump(_, l) => Some(l) case _ => None
  }

  function SetLabel(i: Instr, d: int): Instr {
    match i case JMP(_) => JMP(d) case Jump(c, _) => Jump(c, d) case _ => i
  }

  /** From the end of the node at i to the node at t. */
  function Distance(nodes: seq<Node>, i: nat, t: nat): int
    requires i < |nodes| && t <= |nodes|
  {
    Pos(nodes, t) - Pos(nodes, i) - nodes[i].size
  }

  /** The distances of a list that fits the machine fit their operand. */
  lemma DistanceFits(nodes: seq<Node>, i: nat, t: nat)
    requires i < |nodes| && t <= |nodes| && Pos(nodes, |nodes|) < 0x8000_0000
    ensures Long(Distance(nodes, i, t))
  {
    PosMonotone(nodes, i + 1, |nodes|);
    PosMonotone(nodes, t, |nodes|);
  }

  predicate Found(nodes: seq<Node>, i: nat)
    requires i < |nodes|
  {
    JumpLabel(nodes[i].op).Some? ==> FindLabel(Ops(nodes), i, JumpLabel(nodes[i].op).value).Some?
  }

  function ResolvedAt(nodes: seq<Node>, i: nat): Node
    requires i < |nodes|
  {
    match JumpLabel(nodes[i].op)
    case None => nodes[i]
    case Some(l) =>
      match FindLabel(Ops(nodes), i, l)
      case None => nodes[i]
      case Some(t) => nodes[i].(op := SetLabel(nodes[i].op, Distance(nodes, i, t)))
  }

  /** The labels of a list do not change when jumps get their distances. */
  lemma {:induction false} ForwardSame(c: seq<Instr>, d: seq<Instr>, i: nat, l: int)
    requires |c| == |d| && forall k :: 0 <= k < |c| ==> (c[k] == LABEL(l) <==> d[k] == LABEL(l))
    ensures FindForward(c, i, l) == FindForward(d, i, l)
    decreases |c| - i
  {
    if i < |c| { ForwardSame(c, d, i + 1, l); }
  }

  lemma {:induction false} BackwardSame(c: seq<Instr>, d: seq<Instr>, i: nat, l: int)
    requires |c| == |d| && i <= |c| && forall k :: 0 <= k < |c| ==> (c[k] == LABEL(l) <==> d[k] == LABEL(l))
    ensures FindBackward(c, i, l) == FindBackward(d, i, l)
  {
    if i > 0 { BackwardSame(c, d, i - 1, l); }
  }

  lemma LabelSame(c: seq<Instr>, d: seq<Instr>, i: nat, l: int)
    requires |c| == |d| && i < |c| && forall k :: 0 <= k < |c| ==> (c[k] == LABEL(l) <==> d[k] == LABEL(l))
    ensures FindLabel(c, i, l) == FindLabel(d, i, l)
  {
    ForwardSame(c, d, i + 1, l);
    BackwardSame(c, d, i, l);
  }

  /** nor their distances. */
  lemma DistanceSame(nodes: seq<Node>, n0: seq<Node>, i: nat, l: int)
    requires |nodes| == |n0| && i < |n0| && forall k: nat :: k < |n0| ==> nodes[k] == n0[k] || nodes[k] == ResolvedAt(n0, k)
    ensures FindLabel(Ops(nodes), i, l) == FindLabel(Ops(n0), i, l)
    ensures FindLabel(Ops(n0), i, l).Some? ==> 
      Distance(nodes, i, FindLabel(Ops(n0), i, l).value) == Distance(n0, i, FindLabel(Ops(n0), i, l).value)
  {
    hide FindLabel, Distance;
    SameLabels(nodes, n0, l);
    LabelSame(Ops(nodes), Ops(n0), i, l);
    if FindLabel(Ops(n0), i, l).Some? { SameDistance(nodes, n0, i, FindLabel(Ops(n0), i, l).value); }
  }

  lemma SameLabels(nodes: seq<Node>, n0: seq<Node>, l: int)
    requires |nodes| == |n0| && forall k: nat :: k < |n0| ==> nodes[k] == n0[k] || nodes[k] == ResolvedAt(n0, k)
    ensures forall k: nat :: k < |n0| ==> nodes[k].size == n0[k].size && (Ops(nodes)[k] == LABEL(l) <==> Ops(n0)[k] == LABEL(l))
  {
    hide FindLabel, Distance;
  }

  lemma SameDistance(nodes: seq<Node>, n0: seq<Node>, i: nat, t: nat)
    requires |nodes| == |n0| && i < |n0| && t <= |n0| && forall k: nat :: k < |n0| ==> nodes[k].size == n0[k].size
    ensures Distance(nodes, i, t) == Distance(n0, i, t)
  {
    PosSame(nodes, n0, i);
    PosSame(nodes, n0, t);
  }

  // ---- Line cues ----

  /** A LINE has the size of what it becomes: a SUSPEND, or nothing. */
  predicate LineSized(nodes: seq<Node>, withoutCues: bool) {
    forall i :: 0 <= i < |nodes| && nodes[i].op.LINE? ==> nodes[i].size == if withoutCues then 0 else 1
  }

  predicate Dropped(n: Node, withoutCues: bool) { n.op.LINE? && withoutCues }

  function Cued(n: Node): Node { if n.op.LINE? then n.(op := SUSPEND, size := 1) else n }

  /** What becomes of the first n nodes. */
  function Extracted(nodes: seq<Node>, withoutCues: bool, n: nat): seq<Node>
    requires n <= |nodes|
  {
    if n == 0 then []
    else Extracted(nodes, withoutCues, n - 1) + if Dropped(nodes[n - 1], withoutCues) then [] else [Cued(nodes[n - 1])]
  }

  datatype LineEntry = LineEntry(pos: int, line: int, section: int)

  /** The line of each position, as found in the first n nodes; of two lines at one position the later counts. */
  function Lines(nodes: seq<Node>, n: nat): seq<LineEntry>
    requires n <= |nodes|
  {
    if n == 0 then []
    else
      var before := Lines(nodes, n - 1);
      var pos := Pos(nodes, n - 1);
      if !nodes[n - 1].op.LINE? then before
      else Appended(before, LineEntry(pos, nodes[n - 1].line, nodes[n - 1].section))
  }

  function Appended(e: seq<LineEntry>, x: LineEntry): seq<LineEntry> {
    (if |e| > 0 && e[|e| - 1].pos == x.pos then e[..|e| - 1] else e) + [x]
  }

  /** In order of position, no position twice, none after bound. */
  predicate InOrder(e: seq<LineEntry>, bound: int) {
    && (forall i, k :: 0 <= i < k < |e| ==> e[i].pos < e[k].pos)
    && (forall i :: 0 <= i < |e| ==> e[i].pos <= bound)
  }

  /** Positions are recorded once, in order, each with the last line that begins there. */
  lemma {:induction false} LinesOrdered(nodes: seq<Node>, n: nat)
    requires n <= |nodes|
    ensures InOrder(Lines(nodes, n), Pos(nodes, n))
  {
    if n > 0 {
      LinesOrdered(nodes, n - 1);
      var before := Lines(nodes, n - 1);
      var pos := Pos(nodes, n - 1);
      assert Pos(nodes, n) == pos + nodes[n - 1].size;
      if nodes[n - 1].op.LINE? {
        AppendOrdered(before, LineEntry(pos, nodes[n - 1].line, nodes[n - 1].section));
      }
    }
  }

  lemma AppendOrdered(before: seq<LineEntry>, x: LineEntry)
    requires InOrder(before, x.pos)
    ensures InOrder(Appended(before, x), x.pos)
  {
    var kept := if |before| > 0 && before[|before| - 1].pos == x.pos then before[..|before| - 1] else before;
    forall i | 0 <= i < |kept| ensures kept[i].pos < x.pos {
      if i < |before| - 1 { assert before[i].pos < before[|before| - 1].pos; }
    }
  }

  lemma {:induction false} LineRecorded(nodes: seq<Node>, n: nat, k: nat)
    requires k < n <= |nodes| && nodes[k].op.LINE?
    requires forall i :: k < i < n && nodes[i].op.LINE? ==> Pos(nodes, i) != Pos(nodes, k)
    ensures LineEntry(Pos(nodes, k), nodes[k].line, nodes[k].section) in Lines(nodes, n)
    decreases n
  {
    if k < n - 1 {
      LineRecorded(nodes, n - 1, k);
      var before := Lines(nodes, n - 1);
      var j :| 0 <= j < |before| && before[j] == LineEntry(Pos(nodes, k), nodes[k].line, nodes[k].section);
      assert nodes[n - 1].op.LINE? ==> before[j] in Lines(nodes, n);
    }
  }

  lemma {:induction false} PosPrefix(a: seq<Node>, b: seq<Node>, i: nat)
    requires i <= |a|
    ensures Pos(a + b, i) == Pos(a, i)
  {
    if i > 0 { PosPrefix(a, b, i - 1); }
  }

  /** Turning line cues into suspends or dropping them moves nothing. */
  lemma {:induction false} ExtractedSize(nodes: seq<Node>, withoutCues: bool, n: nat)
    requires n <= |nodes| && LineSized(nodes, withoutCues)
    ensures var e := Extracted(nodes, withoutCues, n); Pos(e, |e|) == Pos(nodes, n)
  {
    if n > 0 {
      ExtractedSize(nodes, withoutCues, n - 1);
      var e := Extracted(nodes, withoutCues, n - 1);
      PosPrefix(e, [Cued(nodes[n - 1])], |e|);
      assert Dropped(nodes[n - 1], withoutCues) ==> Extracted(nodes, withoutCues, n) == e;
    }
  }

  lemma {:induction false} ExtractedAt(nodes: seq<Node>, withoutCues: bool, n: nat, k: nat) returns (i: nat)
    requires k < n <= |nodes| && LineSized(nodes, withoutCues) && !Dropped(nodes[k], withoutCues)
    ensures var e := Extracted(nodes, withoutCues, n); i < |e| && e[i] == Cued(nodes[k]) && Pos(e, i) == Pos(nodes, k)
    decreases n
  {
    var e := Extracted(nodes, withoutCues, n - 1);
    var more := if Dropped(nodes[n - 1], withoutCues) then [] else [Cued(nodes[n - 1])];
    if k == n - 1 {
      i := |e|;
      ExtractedSize(nodes, withoutCues, n - 1);
    } else {
      i := ExtractedAt(nodes, withoutCues, n - 1, k);
    }
    PosPrefix(e, more, i);
  }

  // ---- The whole ----

  /** What Output promises of the array. */
  ghost predicate Emitted(nodes: seq<Node>, a: seq<int>) {
    forall k: nat :: k < |nodes| && nodes[k].size > 0 ==> Holds(a, Pos(nodes, k), nodes[k].op)
  }

  /** Where a jump at pos takes the machine. */
  function MachineTarget(a: seq<int>, pos: nat): Option<int> {
    match Decode(a, pos)
    case Some(JMP(d)) => Some(pos + 2 + d)
    case Some(Jump(_, d)) => Some(pos + 2 + d)
    case _ => None
  }

  ghost predicate IsResolved(nodes: seq<Node>, resolved: seq<Node>) {
    |resolved| == |nodes| && forall i: nat :: i < |nodes| ==> resolved[i] == ResolvedAt(nodes, i)
  }

  lemma ResolvedLines(n: seq<Node>, resolved: seq<Node>, withoutCues: bool)
    requires LineSized(n, withoutCues) && IsResolved(n, resolved)
    ensures LineSized(resolved, withoutCues)
  {
    hide FindLabel, Distance;
  }

  lemma SizesKept(linked: seq<Node>, resolved: seq<Node>)
    requires IsResolved(linked, resolved)
    ensures forall k: nat :: k < |linked| ==> resolved[k].size == linked[k].size
  {
    hide FindLabel, Distance;
  }

  /** Every instruction of the list is found in the array at its position in the list. */
  lemma InstrLands(nodes: seq<Node>, resolved: seq<Node>, withoutCues: bool, a: seq<int>, k: nat)
    requires LineSized(nodes, withoutCues) && IsResolved(nodes, resolved)
    requires Emitted(Extracted(resolved, withoutCues, |resolved|), a)
    requires k < |nodes| && nodes[k].size > 0 && !nodes[k].op.LABEL?
    ensures Decode(a, Pos(nodes, k)) == Some(Cued(resolved[k]).op)
  {
    hide Fetch, FromRaw, ToRaw, Extracted, Pos, LineSized, ResolvedAt;
    ResolvedLines(nodes, resolved, withoutCues);
    SizesKept(nodes, resolved);
    PosSame(nodes, resolved, k);
    StaysPut(nodes, resolved, withoutCues, k);
    var i := ExtractedAt(resolved, withoutCues, |resolved|, k);
    RawRoundTrip(Cued(resolved[k]).op);
  }

  /** What takes up space is not dropped, and takes up space in the end. */
  lemma StaysPut(nodes: seq<Node>, resolved: seq<Node>, withoutCues: bool, k: nat)
    requires LineSized(nodes, withoutCues) && IsResolved(nodes, resolved) && k < |nodes| && nodes[k].size > 0 && !nodes[k].op.LABEL?
    ensures var n := Cued(resolved[k]);
      !Dropped(resolved[k], withoutCues) && !n.op.LABEL? && !n.op.LINE? && n.size > 0
  {
    hide FindLabel, Distance;
  }

  /** A jump takes the machine to the position of its label, forward or backward, whatever became of the line cues. */
  lemma JumpLands(nodes: seq<Node>, resolved: seq<Node>, withoutCues: bool, a: seq<int>, k: nat, t: nat)
    requires LineSized(nodes, withoutCues) && IsResolved(nodes, resolved)
    requires Emitted(Extracted(resolved, withoutCues, |resolved|), a)
    requires k < |nodes| && nodes[k].size == 2 && JumpLabel(nodes[k].op).Some?
    requires FindLabel(Ops(nodes), k, JumpLabel(nodes[k].op).value) == Some(t)
    ensures MachineTarget(a, Pos(nodes, k)) == Some(Pos(nodes, t))
  {
    hide Extracted, Emitted, Decode, FindLabel, Pos;
    InstrLands(nodes, resolved, withoutCues, a, k);
  }

  /** And what it finds there is the next instruction after the label that takes space. */
  lemma {:induction false} LabelPosition(nodes: seq<Node>, t: nat, k: nat)
    requires t <= k <= |nodes| && forall i :: t <= i < k ==> nodes[i].size == 0
    ensures Pos(nodes, k) == Pos(nodes, t)
    decreases k
  {
    if t < k { LabelPosition(nodes, t, k - 1); }
  }

  /** A JMPP takes the machine to the entry of its table. */
  lemma {:induction false} TableLands(nodes: seq<Node>, k: nat, n: nat)
    requires k + 1 + n < |nodes| && nodes[k].size == 1 && forall i :: k < i <= k + n ==> nodes[i].size == 2
    ensures Pos(nodes, k) + 1 + 2 * n == Pos(nodes, k + 1 + n)
    decreases n
  {
    if n > 0 {
      TableLands(nodes, k, n - 1);
      assert Pos(nodes, k + 1 + n) == Pos(nodes, k + n) + nodes[k + n].size;
    }
  }

  /** Where a switch at pos takes the machine. */
  function SwitchTarget(a: seq<int>, pos: nat, n: int): Option<int> {
    match Decode(a, pos) case Some(JMPP(_)) => Some(pos + 1 + 2 * n) case _ => None
  }

  /** A switch takes the machine to the position of the entry, when jumps lie between. */
  lemma {:induction false} SwitchLands(nodes: seq<Node>, resolved: seq<Node>, withoutCues: bool, a: seq<int>, k: nat, n: nat)
    requires Tabled(nodes, withoutCues) && IsResolved(nodes, resolved) && Emitted(Extracted(resolved, withoutCues, |resolved|), a)
    requires k + 1 + n < |nodes| && nodes[k].op.JMPP? && forall i :: k < i <= k + n ==> nodes[i].op.JMP?
    ensures SwitchTarget(a, Pos(nodes, k), n) == Some(Pos(nodes, k + 1 + n))
  {
    hide Extracted, Emitted, Decode, Pos, SizeOf;
    TabledLines(nodes, withoutCues);
    assert nodes[k] in nodes;
    SizeIs(nodes[k].op);
    forall i | k < i <= k + n ensures nodes[i].size == 2 {
      assert nodes[i] in nodes;
      SizeIs(nodes[i].op);
    }
    TableLands(nodes, k, n);
    InstrLands(nodes, resolved, withoutCues, a, k);
  }

  lemma TabledLines(nodes: seq<Node>, withoutCues: bool)
    requires Tabled(nodes, withoutCues)
    ensures LineSized(nodes, withoutCues)
  {
    forall i | 0 <= i < |nodes| && nodes[i].op.LINE? ensures nodes[i].size == if withoutCues then 0 else 1 {
      assert nodes[i] in nodes;
      SizeIs(LINE);
    }
  }

  // ---- What is linked can be written ----

  /** The operands fit their words and dwords; jumps do not have theirs yet. */
  ghost predicate OperandsFit(nodes: seq<Node>) {
    forall n :: n in nodes && JumpLabel(n.op).None? ==> Encodable(ToRaw(n.op))
  }

  lemma JumpEncodable(i: Instr, d: int)
    requires JumpLabel(i).Some? && Long(d)
    ensures Encodable(ToRaw(SetLabel(i, d)))
  {
  }

  lemma {:induction false} ResolvedWritable(nodes: seq<Node>, withoutCues: bool, k: nat)
    requires Tabled(nodes, withoutCues) && OperandsFit(nodes) && Pos(nodes, |nodes|) < 0x8000_0000
    requires k < |nodes| && Found(nodes, k) && !Dropped(nodes[k], withoutCues)
    ensures var n := Cued(ResolvedAt(nodes, k));
      n.size > 0 ==> n.size == SizeOf(n.op) && !n.op.LABEL? && !n.op.LINE? && Encodable(ToRaw(n.op))
  {
    hide FindLabel, Distance, SizeOf;
    var n := nodes[k];
    assert n in nodes;
    SizeIs(n.op);
    SizeIs(Cued(ResolvedAt(nodes, k)).op);
    if JumpLabel(n.op).Some? {
      var t := FindLabel(Ops(nodes), k, JumpLabel(n.op).value).value;
      DistanceFits(nodes, k, t);
      JumpEncodable(n.op, Distance(nodes, k, t));
    }
  }

  /** Linking leaves a list that Output can write: distances fit their operand in any list the machine can hold. */
  lemma LinkedWritable(nodes: seq<Node>, resolved: seq<Node>, withoutCues: bool)
    requires Tabled(nodes, withoutCues) && OperandsFit(nodes) && Pos(nodes, |nodes|) < 0x8000_0000
    requires IsResolved(nodes, resolved) && forall i: nat :: i < |nodes| ==> Found(nodes, i)
    ensures Writable(Extracted(resolved, withoutCues, |resolved|))
  {
    hide Tabled, OperandsFit, ResolvedAt, Found, Pos, Cued, Encodable;
    forall n | n in Extracted(resolved, withoutCues, |resolved|) && n.size > 0
      ensures n.size == SizeOf(n.op) && !n.op.LABEL? && !n.op.LINE? && Encodable(ToRaw(n.op))
    {
      var k := ExtractedFrom(resolved, withoutCues, |resolved|, n);
      KindKept(nodes, k);
      ResolvedWritable(nodes, withoutCues, k);
    }
  }

  lemma NoJump(nodes: seq<Node>, k: nat)
    requires k < |nodes| && JumpLabel(nodes[k].op).None?
    ensures ResolvedAt(nodes, k) == nodes[k] && Found(nodes, k)
  {
  }

  lemma KindKept(nodes: seq<Node>, k: nat)
    requires k < |nodes|
    ensures ResolvedAt(nodes, k).op.LINE? == nodes[k].op.LINE?
  {
  }

  lemma {:induction false} ExtractedFrom(nodes: seq<Node>, withoutCues: bool, n: nat, x: Node) returns (k: nat)
    requires n <= |nodes| && x in Extracted(nodes, withoutCues, n)
    ensures k < n && !Dropped(nodes[k], withoutCues) && x == Cued(nodes[k])
    decreases n
  {
    if x in Extracted(nodes, withoutCues, n - 1) { k := ExtractedFrom(nodes, withoutCues, n - 1, x); } else { k := n - 1; }
  }

  class ByteCode {
    var nodes: seq<Node>
    // position and line in turn
    var lineNumbers: seq<int>
    var sectionIdxs: seq<int>

    constructor (nodes: seq<Node>)
      ensures this.nodes == nodes && lineNumbers == [] && sectionIdxs == []
    {
      this.nodes, lineNumbers, sectionIdxs := nodes, [], [];
    }

    /** Searches forward, then backward. The distance is from the end of the instruction to the label. */
    method FindLabel(l: int, from: nat) returns (distance: Option<int>)
      requires from < |nodes|
      ensures distance == match Bytecode.FindLabel(Ops(nodes), from, l)
        case Some(t) => Some(Distance(nodes, from, t)) case None => None
    {
      hide Ops, FindForward, FindBackward;
      distance := SearchForward(l, from);
      if distance.None? { distance := SearchBackward(l, from); }
    }

    method SearchForward(l: int, from: nat) returns (distance: Option<int>)
      requires from < |nodes|
      ensures distance == match FindForward(Ops(nodes), from + 1, l)
        case Some(t) => Some(Distance(nodes, from, t)) case None => None
    {
      hide Pos, FindBackward;
      ghost var c := Ops(nodes);
      var labelPos := -(nodes[from].size as int);
      var at := from;
      while at < |nodes|
        invariant from <= at <= |nodes| && labelPos == Pos(nodes, at) - Pos(nodes, from) - nodes[from].size
        invariant at < |nodes| ==> FindForward(c, from + 1, l) == FindForward(c, at + 1, l)
        invariant at == |nodes| ==> FindForward(c, from + 1, l).None?
      {
        PosStep(nodes, at);
        labelPos := labelPos + nodes[at].size;
        at := at + 1;
        if at < |nodes| && nodes[at].op == LABEL(l) { return Some(labelPos); }
      }
      distance := None;
    }

    method SearchBackward(l: int, from: nat) returns (distance: Option<int>)
      requires from < |nodes|
      ensures distance == match FindBackward(Ops(nodes), from, l)
        case Some(t) => Some(Distance(nodes, from, t)) case None => None
    {
      hide Pos, FindForward;
      ghost var c := Ops(nodes);
      var labelPos := -(nodes[from].size as int);
      var at := from;
      while at > 0
        invariant 0 <= at <= from && labelPos == Pos(nodes, at) - Pos(nodes, from) - nodes[from].size
        invariant FindBackward(c, from, l) == FindBackward(c, at, l)
      {
        at := at - 1;
        PosStep(nodes, at);
        labelPos := labelPos - nodes[at].size;
        if nodes[at].op == LABEL(l) { return Some(labelPos); }
      }
      distance := None;
    }

    /** Replaces the label of every jump by the distance to it. Fails at the first jump without one. */
    method ResolveJumpAddresses() returns (ok: bool)
      modifies this`nodes
      ensures ok <==> forall i: nat :: i < |old(nodes)| ==> Found(old(nodes), i)
      ensures ok ==> IsResolved(old(nodes), nodes)
    {
      hide Found, ResolvedAt;
      ghost var n0 := nodes;
      var i := 0;
      while i < |nodes|
        invariant 0 <= i <= |nodes| == |n0|
        invariant forall k: nat :: k < i ==> nodes[k] == ResolvedAt(n0, k) && Found(n0, k)
        invariant forall k: nat :: i <= k < |nodes| ==> nodes[k] == n0[k]
      {
        if nodes[i].op.JMP? || nodes[i].op.Jump? {
          ok := ResolveJump(i, n0);
          if !ok { return; }
        } else {
          NoJump(n0, i);
        }
        i := i + 1;
      }
      ok := true;
    }

    /** The jump at i. n0: the list before any was resolved. */
    method ResolveJump(i: nat, ghost n0: seq<Node>) returns (ok: bool)
      requires i < |nodes| == |n0| && nodes[i] == n0[i] && JumpLabel(n0[i].op).Some?
      requires forall k: nat :: k < i ==> nodes[k] == ResolvedAt(n0, k)
      requires forall k: nat :: i <= k < |nodes| ==> nodes[k] == n0[k]
      modifies this`nodes
      ensures ok <==> Found(n0, i)
      ensures nodes == if ok then old(nodes)[i := ResolvedAt(n0, i)] else old(nodes)
    {
      hide Bytecode.FindLabel, Distance, Ops;
      DistanceSame(nodes, n0, i, nodes[i].op.l);
      var distance := FindLabel(nodes[i].op.l, i);
      ok := distance.Some?;
      if ok { nodes := nodes[i := nodes[i].(op := SetLabel(nodes[i].op, distance.value))]; }
    }

    /** A line that begins where the last one did takes its place. */
    method RecordLine(again: bool, pos: int, line: int, section: int, ghost e: seq<LineEntry>)
      requires Recorded(lineNumbers, sectionIdxs, e) && (again <==> LastPos(e) == pos) && pos >= 0
      modifies this`lineNumbers, this`sectionIdxs
      ensures Recorded(lineNumbers, sectionIdxs, Appended(e, LineEntry(pos, line, section)))
    {
      if again {
        lineNumbers := lineNumbers[..|lineNumbers| - 2];
        sectionIdxs := sectionIdxs[..|sectionIdxs| - 1];
      }
      lineNumbers := lineNumbers + [pos, line];
      sectionIdxs := sectionIdxs + [section];
    }

    /** Records where lines begin, and turns their cues into suspends or deletes them. */
    method ExtractLineNumbers(withoutCues: bool)
      requires LineSized(nodes, withoutCues) && lineNumbers == [] && sectionIdxs == []
      modifies this
      ensures nodes == Extracted(old(nodes), withoutCues, |old(nodes)|)
      ensures Recorded(lineNumbers, sectionIdxs, Lines(old(nodes), |old(nodes)|))
    {
      hide Extracted, Lines, Pos;
      ghost var n0 := nodes;
      ghost var k := 0;
      var lastLinePos := -1;
      var pos := 0;
      var i := 0;
      NothingExtracted(n0, withoutCues);
      while i < |nodes|
        invariant k <= |n0| && i == |Extracted(n0, withoutCues, k)| && nodes == Extracted(n0, withoutCues, k) + n0[k..]
        invariant pos == Pos(n0, k) && Recorded(lineNumbers, sectionIdxs, Lines(n0, k))
        invariant lastLinePos == LastPos(Lines(n0, k))
        decreases |n0| - k
      {
        NextLine(n0, withoutCues, k);
        var curr := nodes[i];
        NextNodes(n0, withoutCues, k, i, nodes);
        if curr.op.LINE? {
          RecordLine(lastLinePos == pos, pos, curr.line, curr.section, Lines(n0, k));
          lastLinePos := pos;
          if !withoutCues {
            nodes := nodes[i := curr.(op := SUSPEND, size := 1)];
            pos := pos + 1;
            i := i + 1;
          } else {
            nodes := nodes[..i] + nodes[i + 1..];
          }
        } else {
          assert nodes[i := Cued(curr)] == nodes;
          pos := pos + curr.size;
          i := i + 1;
        }
        k := k + 1;
      }
    }

    /** The number of dwords the instructions take. */
    method GetSize() returns (size: nat)
      ensures size == Pos(nodes, |nodes|)
    {
      size := 0;
      var i := 0;
      while i < |nodes|
        invariant 0 <= i <= |nodes| && size == Pos(nodes, i)
      {
        size := size + nodes[i].size;
        i := i + 1;
      }
    }

    /** Writes every instruction to its position in the array. */
    method Output(a: array<int>)
      requires Writable(nodes) && a.Length == Pos(nodes, |nodes|)
      modifies a
      ensures Emitted(nodes, a[..])
    {
      hide Pos, Holds, Words, Encodable, ToRaw;
      var ap := 0;
      var i := 0;
      PosStart(nodes);
      while i < |nodes|
        invariant 0 <= i <= |nodes| && ap == Pos(nodes, i)
        invariant forall k: nat :: k < i && nodes[k].size > 0 ==> Holds(a[..], Pos(nodes, k), nodes[k].op)
      {
        PosMonotone(nodes, i + 1, |nodes|);
        PosStep(nodes, i);
        if nodes[i].size > 0 {
          ghost var was := a[..];
          WriteInstr(a, ap, nodes[i].op);
          forall k: nat | k < i && nodes[k].size > 0 ensures Holds(a[..], Pos(nodes, k), nodes[k].op) {
            PosMonotone(nodes, k + 1, i);
            PosStep(nodes, k);
            HoldsStill(was, a[..], Pos(nodes, k), nodes[k].op);
          }
        }
        ap := ap + nodes[i].size;
        i := i + 1;
      }
    }
  }

  method WriteInstr(a: array<int>, ap: nat, i: Instr)
    requires Encodable(ToRaw(i)) && !i.LABEL? && !i.LINE? && ap + SizeOf(i) <= a.Length
    modifies a
    ensures Holds(a[..], ap, i)
    ensures forall k :: 0 <= k < a.Length && !(ap <= k < ap + SizeOf(i)) ==> a[k] == old(a[k])
  {
    hide Holds, Encodable, ToRaw, FormatOf, Words;
    ghost var was := a[ap..ap + SizeOf(i)];
    WriteWords(a, ap, ToRaw(i));
    WordsHold(a[..], ap, i, was);
  }

  /** Operation and first word share a dword; the other words and the dwords follow. */
  method WriteWords(a: array<int>, ap: nat, r: Raw)
    requires ap + FormatSize(FormatOf(r.op)) <= a.Length
    modifies a
    ensures a[..][ap..ap + FormatSize(FormatOf(r.op))] == Words(r, old(a[ap..ap + FormatSize(FormatOf(r.op))]))
    ensures forall k :: 0 <= k < a.Length && !(ap <= k < ap + FormatSize(FormatOf(r.op))) ==> a[k] == old(a[k])
  {
    hide FormatOf, U16, U32;
    var w0 := r.op + 0x1_0000 * U16(r.w0);
    match FormatOf(r.op) {
      case NoArg => a[ap] := r.op;
      case W => a[ap] := w0;
      case DW => a[ap], a[ap + 1] := r.op, U32(r.d0);
      case WDW => a[ap], a[ap + 1] := w0, U32(r.d0);
      case WW => a[ap], a[ap + 1] := w0, a[ap + 1] / 0x1_0000 * 0x1_0000 + U16(r.w1);
      case WWW => a[ap], a[ap + 1] := w0, U16(r.w1) + 0x1_0000 * U16(r.w2);
      case WWDW =>
        a[ap], a[ap + 1], a[ap + 2] := w0, a[ap + 1] / 0x1_0000 * 0x1_0000 + U16(r.w1), U32(r.d0);
      case DWDW =>
        a[ap], a[ap + 1], a[ap + 2] := r.op, U32(r.d0), U32(r.d1);
      case Info =>
    }
  }

  /** Every node that takes space is an instruction whose operands fit. */
  predicate Writable(nodes: seq<Node>) {
    forall n :: n in nodes && n.size > 0 ==> n.size == SizeOf(n.op) && !n.op.LABEL? && !n.op.LINE? && Encodable(ToRaw(n.op))
  }

  lemma PosStart(nodes: seq<Node>)
    ensures Pos(nodes, 0) == 0
  {
  }

  lemma PosStep(nodes: seq<Node>, i: nat)
    requires i < |nodes|
    ensures Pos(nodes, i + 1) == Pos(nodes, i) + nodes[i].size
  {
  }

  lemma HoldsStill(a: seq<int>, b: seq<int>, pos: nat, i: Instr)
    requires |a| == |b| && Holds(a, pos, i) && SizeOf(i) > 0 && forall k :: pos <= k < pos + SizeOf(i) && k < |a| ==> b[k] == a[k]
    ensures Holds(b, pos, i)
  {
    var op := a[pos] % 0x100;
    assert op == ToRaw(i).op;
    assert b[pos] == a[pos];
  }

  function LastPos(e: seq<LineEntry>): int { if e == [] then -1 else e[|e| - 1].pos }

  /** The entries as they are kept: position and line in one array, section in another. */
  ghost predicate Recorded(lineNumbers: seq<int>, sectionIdxs: seq<int>, e: seq<LineEntry>) {
    && |lineNumbers| == 2 * |e| && |sectionIdxs| == |e|
    && forall i :: 0 <= i < |e| ==> e[i] == LineEntry(lineNumbers[2 * i], lineNumbers[2 * i + 1], sectionIdxs[i])
  }

  lemma NothingExtracted(nodes: seq<Node>, withoutCues: bool)
    ensures Extracted(nodes, withoutCues, 0) == [] && Lines(nodes, 0) == [] && Pos(nodes, 0) == 0
  {
  }

  /** The list with the first k nodes dealt with. */
  lemma NextNodes(n0: seq<Node>, withoutCues: bool, k: nat, i: nat, nodes: seq<Node>)
    requires k < |n0| && i == |Extracted(n0, withoutCues, k)| && nodes == Extracted(n0, withoutCues, k) + n0[k..]
    ensures i < |nodes| && nodes[i] == n0[k]
    ensures var next := Extracted(n0, withoutCues, k + 1) + n0[k + 1..];
      && (Dropped(n0[k], withoutCues) ==> nodes[..i] + nodes[i + 1..] == next && |Extracted(n0, withoutCues, k + 1)| == i)
      && (!Dropped(n0[k], withoutCues) ==> nodes[i := Cued(n0[k])] == next && |Extracted(n0, withoutCues, k + 1)| == i + 1)
  {
    assert n0[k..] == [n0[k]] + n0[k + 1..];
  }

  lemma NextLine(nodes: seq<Node>, withoutCues: bool, k: nat)
    requires k < |nodes|
    ensures Pos(nodes, k + 1) == Pos(nodes, k) + nodes[k].size
    ensures !nodes[k].op.LINE? ==> Lines(nodes, k + 1) == Lines(nodes, k)
    ensures nodes[k].op.LINE? ==>
      Lines(nodes, k + 1) == Appended(Lines(nodes, k), LineEntry(Pos(nodes, k), nodes[k].line, nodes[k].section))
  {
  }
}
