/** Which variables of a function hold an object at a program position: found by scanning back over the events the compiler
    recorded, skipping blocks that were left. */
module LiveObjects {

  datatype Kind = Uninit | Init | BlockBegin | BlockEnd

  /** An event of a variable, or of a block, placed on the instruction after the one that caused it. */
  datatype Info = Info(programPos: nat, variableOffset: int, option: Kind)

  datatype Variable = Variable(declaredAtProgramPos: nat)

  datatype Function = Function(objVariablePos: seq<int>, objVariableInfo: seq<Info>, variables: seq<Variable>)

  /** The first variable at the offset; 0 when there is none. */
  function VarAt(pos: seq<int>, offset: int): (v: nat)
    ensures v < |pos| || v == 0
    ensures offset in pos ==> v < |pos| && pos[v] == offset && offset !in pos[..v]
  {
    FirstAt(pos, offset, 0)
  }

  function FirstAt(pos: seq<int>, offset: int, n: nat): (v: nat)
    requires n <= |pos| && offset !in pos[..n]
    ensures v < |pos| || v == 0
    ensures offset in pos ==> v < |pos| && pos[v] == offset && offset !in pos[..v]
    ensures offset !in pos ==> v == 0
    decreases |pos| - n
  {
    if n == |pos| then 0
    else if pos[n] == offset then n
    else assert pos[..n + 1] == pos[..n] + [pos[n]]; FirstAt(pos, offset, n + 1)
  }

  // ---- The forward reading ----

  /** The count of one variable in each scope that is open, after the events: a block begins a scope and leaving it discards
      what happened in it. */
  function Scopes(pos: seq<int>, infos: seq<Info>, v: nat): (s: seq<int>)
    ensures |s| > 0
    decreases |infos|
  {
    if infos == [] then [0]
    else
      Entered(pos, Scopes(pos, infos[..|infos| - 1], v), infos[|infos| - 1], v)
  }

  function Entered(pos: seq<int>, s: seq<int>, i: Info, v: nat): (r: seq<int>)
    requires |s| > 0
    ensures |r| > 0
  {
    match i.option
    case BlockBegin => s + [0]
    case BlockEnd => if |s| > 1 then s[..|s| - 1] else s
    case Init => if VarAt(pos, i.variableOffset) == v then s[..|s| - 1] + [s[|s| - 1] + 1] else s
    case Uninit => if VarAt(pos, i.variableOffset) == v then s[..|s| - 1] + [s[|s| - 1] - 1] else s
  }

  lemma ScopesNext(pos: seq<int>, infos: seq<Info>, n: nat, v: nat)
    requires n < |infos|
    ensures Scopes(pos, infos[..n + 1], v) == Entered(pos, Scopes(pos, infos[..n], v), infos[n], v)
  {
    assert infos[..n + 1][..n] == infos[..n];
  }

  function Sum(s: seq<int>): int {
    if s == [] then 0 else Sum(s[..|s| - 1]) + s[|s| - 1]
  }

  /** How many blocks are open after the events. */
  function Depth(infos: seq<Info>): int
    decreases |infos|
  {
    if infos == [] then 0
    else
      var n := |infos| - 1;
      Depth(infos[..n]) + match infos[n].option case BlockBegin => 1 case BlockEnd => -1 case _ => 0
  }

  /** No block ends that did not begin. */
  ghost predicate Bracketed(infos: seq<Info>) {
    forall k {:trigger infos[..k]} :: 0 <= k <= |infos| ==> Depth(infos[..k]) >= 0
  }

  lemma {:induction false} ScopesDepth(pos: seq<int>, infos: seq<Info>, k: nat, v: nat)
    requires Bracketed(infos) && k <= |infos|
    ensures |Scopes(pos, infos[..k], v)| == Depth(infos[..k]) + 1
    decreases k
  {
    if k > 0 {
      assert infos[..k][..k - 1] == infos[..k - 1];
      ScopesDepth(pos, infos, k - 1, v);
      assert Depth(infos[..k]) >= 0;
    }
  }

  // ---- The backward reading ----

  /** The position where the block began of which nested many ends were passed. */
  function SkipBlock(infos: seq<Info>, n: nat, nested: nat): (m: nat)
    requires n <= |infos|
    ensures m <= n
    decreases n
  {
    if n == 0 || nested == 0 then n
    else match infos[n - 1].option
      case BlockEnd => SkipBlock(infos, n - 1, nested + 1)
      case BlockBegin => SkipBlock(infos, n - 1, nested - 1)
      case _ => SkipBlock(infos, n - 1, nested)
  }

  function Backward(pos: seq<int>, infos: seq<Info>, n: nat, v: nat): int
    requires n <= |infos|
    decreases n
  {
    if n == 0 then 0
    else match infos[n - 1].option
      case BlockEnd => Backward(pos, infos, SkipBlock(infos, n - 1, 1), v)
      case BlockBegin => Backward(pos, infos, n - 1, v)
      case Init => Backward(pos, infos, n - 1, v) + if VarAt(pos, infos[n - 1].variableOffset) == v then 1 else 0
      case Uninit => Backward(pos, infos, n - 1, v) - if VarAt(pos, infos[n - 1].variableOffset) == v then 1 else 0
  }

  /** How many ends are still to be matched before an event. */
  function NextNested(i: Info, nested: nat): nat
    requires nested > 0
  {
    match i.option case BlockEnd => nested + 1 case BlockBegin => nested - 1 case _ => nested
  }

  /** The scopes outside those are the same before an event and after it. */
  lemma EnteredOutside(pos: seq<int>, t: seq<int>, i: Info, v: nat, nested: nat)
    requires |t| > 0 && nested > 0 && nested < |Entered(pos, t, i, v)| && (i.option.BlockEnd? ==> |t| > 1)
    ensures var s := Entered(pos, t, i, v);
      NextNested(i, nested) < |t| && t[..|t| - NextNested(i, nested)] == s[..|s| - nested]
  {
    hide VarAt;
  }

  /** Where the skipped block began, the scopes were those that remain after it ended, and no end was missed. */
  lemma {:induction false} SkipFindsBegin(pos: seq<int>, infos: seq<Info>, n: nat, nested: nat, v: nat)
    requires Bracketed(infos) && n <= |infos| && nested < |Scopes(pos, infos[..n], v)|
    ensures var m := SkipBlock(infos, n, nested); var s := Scopes(pos, infos[..n], v);
      Scopes(pos, infos[..m], v) == s[..|s| - nested]
    ensures nested > 0 ==> SkipBlock(infos, n, nested) < n && infos[SkipBlock(infos, n, nested)].option == BlockBegin
    decreases n
  {
    hide Bracketed, VarAt, Scopes, Depth, Entered, SkipBlock;
    var s := Scopes(pos, infos[..n], v);
    SkipNext(infos, n, nested);
    if nested == 0 {
      assert s[..|s| - nested] == s;
    } else {
      NoneAtStart(pos, infos, v);
      SkipOnce(pos, infos, n, nested, v);
      SkipFindsBegin(pos, infos, n - 1, NextNested(infos[n - 1], nested), v);
      SkipNext(infos, n - 1, 0);
    }
  }

  lemma NoneAtStart(pos: seq<int>, infos: seq<Info>, v: nat)
    ensures |Scopes(pos, infos[..0], v)| == 1
  {
  }

  lemma SkipNext(infos: seq<Info>, n: nat, nested: nat)
    requires n <= |infos|
    ensures nested == 0 ==> SkipBlock(infos, n, nested) == n
    ensures n > 0 && nested > 0 ==> SkipBlock(infos, n, nested) == SkipBlock(infos, n - 1, NextNested(infos[n - 1], nested))
  {
  }

  lemma SkipOnce(pos: seq<int>, infos: seq<Info>, n: nat, nested: nat, v: nat)
    requires Bracketed(infos) && 0 < n <= |infos| && 0 < nested < |Scopes(pos, infos[..n], v)|
    ensures var t, s, next := Scopes(pos, infos[..n - 1], v), Scopes(pos, infos[..n], v), NextNested(infos[n - 1], nested);
      next < |t| && t[..|t| - next] == s[..|s| - nested]
  {
    hide Bracketed, VarAt, Scopes, Depth, Entered;
    ScopesNext(pos, infos, n - 1, v);
    DepthNext(infos, n - 1);
    ScopesDepth(pos, infos, n, v);
    ScopesDepth(pos, infos, n - 1, v);
    EnteredOutside(pos, Scopes(pos, infos[..n - 1], v), infos[n - 1], v, nested);
  }

  lemma {:induction false} SumLast(s: seq<int>, x: int)
    ensures Sum(s + [x]) == Sum(s) + x
  {
    assert (s + [x])[..|s|] == s;
  }

  lemma {:induction false} SumTop(s: seq<int>, d: int)
    requires |s| > 0
    ensures Sum(s[..|s| - 1] + [s[|s| - 1] + d]) == Sum(s) + d
  {
    hide Sum;
    var init, x := s[..|s| - 1], s[|s| - 1];
    assert s == init + [x];
    SumLast(init, x);
    SumLast(init, x + d);
  }

  /** Scanning back and skipping the blocks that were left counts what a forward reading with scopes counts. */
  lemma {:induction false} BackwardIsForward(pos: seq<int>, infos: seq<Info>, n: nat, v: nat)
    requires Bracketed(infos) && n <= |infos|
    ensures Backward(pos, infos, n, v) == Sum(Scopes(pos, infos[..n], v))
    decreases n
  {
    hide Bracketed, VarAt, Scopes, Depth, Sum, SkipBlock, Entered;
    if n == 0 {
      NothingYet(pos, infos, v);
    } else {
      ScopesNext(pos, infos, n - 1, v);
      if infos[n - 1].option == BlockEnd {
        LeftScope(pos, infos, n, v);
        BackwardIsForward(pos, infos, SkipBlock(infos, n - 1, 1), v);
      } else {
        BackwardIsForward(pos, infos, n - 1, v);
        EnteredSum(pos, Scopes(pos, infos[..n - 1], v), infos[n - 1], v);
      }
    }
  }

  lemma NothingYet(pos: seq<int>, infos: seq<Info>, v: nat)
    ensures Sum(Scopes(pos, infos[..0], v)) == 0
  {
    SumLast([], 0);
  }

  lemma EnteredSum(pos: seq<int>, t: seq<int>, i: Info, v: nat)
    requires |t| > 0 && !i.option.BlockEnd?
    ensures Sum(Entered(pos, t, i, v)) == Sum(t) +
      if i.option.BlockBegin? || VarAt(pos, i.variableOffset) != v then 0 else if i.option.Init? then 1 else -1
  {
    hide VarAt, Sum;
    match i.option
    case BlockBegin => SumLast(t, 0);
    case Init => SumTop(t, 1);
    case Uninit => SumTop(t, -1);
  }

  lemma LeftScope(pos: seq<int>, infos: seq<Info>, n: nat, v: nat)
    requires Bracketed(infos) && 0 < n <= |infos| && infos[n - 1].option == BlockEnd
    ensures SkipBlock(infos, n - 1, 1) < n && Scopes(pos, infos[..SkipBlock(infos, n - 1, 1)], v) == Scopes(pos, infos[..n], v)
  {
    hide Bracketed, VarAt, Scopes, Depth, SkipBlock;
    ScopesNext(pos, infos, n - 1, v);
    DepthNext(infos, n - 1);
    ScopesDepth(pos, infos, n, v);
    ScopesDepth(pos, infos, n - 1, v);
    SkipFindsBegin(pos, infos, n - 1, 1, v);
  }

  function DepthAt(infos: seq<Info>, b: nat): int
    requires b <= |infos|
  {
    Depth(infos[..b])
  }

  lemma DepthNext(infos: seq<Info>, n: nat)
    requires n < |infos|
    ensures DepthAt(infos, n + 1) ==
      DepthAt(infos, n) + match infos[n].option case BlockBegin => 1 case BlockEnd => -1 case _ => 0
  {
    assert infos[..n + 1][..n] == infos[..n];
  }

  // ---- The count without scopes ----

  /** No block that was open at the k-th event has been left since, among the first n. */
  ghost predicate StillOpen(infos: seq<Info>, k: nat, n: nat)
    requires n <= |infos|
  {
    forall m :: k < m <= n ==> DepthAt(infos, m) >= DepthAt(infos, k)
  }

  function Change(pos: seq<int>, i: Info, v: nat): int {
    if VarAt(pos, i.variableOffset) != v then 0 else match i.option case Init => 1 case Uninit => -1 case _ => 0
  }

  /** The initializations of the variable less its destructions, of those among the first k that belong to a block not left. */
  ghost function OpenSum(pos: seq<int>, infos: seq<Info>, v: nat, k: nat, n: nat): int
    requires k <= n <= |infos|
  {
    if k == 0 then 0 else OpenSum(pos, infos, v, k - 1, n) + if StillOpen(infos, k - 1, n) then Change(pos, infos[k - 1], v) else 0
  }

  lemma {:induction false} OpenSumSame(pos: seq<int>, infos: seq<Info>, v: nat, k: nat, n: nat, m: nat)
    requires k <= n <= |infos| && k <= m <= |infos| && forall j :: 0 <= j < k ==> (StillOpen(infos, j, n) <==> StillOpen(infos, j, m))
    ensures OpenSum(pos, infos, v, k, n) == OpenSum(pos, infos, v, k, m)
    decreases k
  {
    hide StillOpen, Change;
    if k > 0 { OpenSumSame(pos, infos, v, k - 1, n, m); }
  }

  /** What was done in blocks that have been left since does not count. */
  lemma {:induction false} OpenSumClosed(pos: seq<int>, infos: seq<Info>, v: nat, k: nat, n: nat, m: nat)
    requires m <= k <= n <= |infos| && forall j :: m <= j < k ==> !StillOpen(infos, j, n) || Change(pos, infos[j], v) == 0
    ensures OpenSum(pos, infos, v, k, n) == OpenSum(pos, infos, v, m, n)
    decreases k
  {
    hide StillOpen, Change;
    if k > m { OpenSumClosed(pos, infos, v, k - 1, n, m); }
  }

  /** The block that is skipped is the one that ended: from its beginning on the depth was greater. */
  lemma {:induction false} SkipDepth(infos: seq<Info>, n: nat, nested: nat)
    requires Bracketed(infos) && n <= |infos| && nested <= DepthAt(infos, n)
    ensures var m := SkipBlock(infos, n, nested);
      && DepthAt(infos, m) == DepthAt(infos, n) - nested
      && (nested > 0 ==> m < n && infos[m].option == BlockBegin)
      && forall j :: m < j <= n ==> DepthAt(infos, j) > DepthAt(infos, m)
    decreases n
  {
    hide Depth, DepthAt, Bracketed;
    DepthZero(infos);
    if n > 0 && nested > 0 {
      DepthNext(infos, n - 1);
      var next := match infos[n - 1].option case BlockEnd => nested + 1 case BlockBegin => nested - 1 case _ => nested;
      SkipDepth(infos, n - 1, next);
    }
  }

  lemma DepthZero(infos: seq<Info>)
    ensures DepthAt(infos, 0) == 0
  {
  }

  /** Scanning back counts what was done in the blocks that are still open. */
  lemma {:induction false} BackwardIsOpen(pos: seq<int>, infos: seq<Info>, n: nat, v: nat)
    requires Bracketed(infos) && n <= |infos|
    ensures Backward(pos, infos, n, v) == OpenSum(pos, infos, v, n, n)
    decreases n
  {
    hide Depth, DepthAt, Bracketed, VarAt;
    if n > 0 {
      DepthNext(infos, n - 1);
      if infos[n - 1].option == BlockEnd {
        DepthHolds(infos, n);
        SkipDepth(infos, n - 1, 1);
        var m := SkipBlock(infos, n - 1, 1);
        BackwardIsOpen(pos, infos, m, v);
        forall j | m <= j < n ensures !StillOpen(infos, j, n) || Change(pos, infos[j], v) == 0 { }
        OpenSumClosed(pos, infos, v, n, n, m);
        OpenSumSame(pos, infos, v, m, n, m);
      } else {
        BackwardIsOpen(pos, infos, n - 1, v);
        OpenSumSame(pos, infos, v, n - 1, n, n - 1);
        assert StillOpen(infos, n - 1, n);
      }
    }
  }

  lemma DepthHolds(infos: seq<Info>, n: nat)
    requires Bracketed(infos) && n <= |infos|
    ensures DepthAt(infos, n) >= 0
  {
  }

  // ---- The scan itself ----

  /** The position of the first event after pos. */
  ghost predicate IsFirstBeyond(infos: seq<Info>, pos: nat, n: nat) {
    n <= |infos| && (forall k :: 0 <= k < n ==> infos[k].programPos <= pos) && (n < |infos| ==> infos[n].programPos > pos)
  }

  predicate Named(f: Function) { |f.objVariablePos| > 0 || forall i :: i in f.objVariableInfo ==> i.option.BlockBegin? || i.option.BlockEnd? }

  /** Positions are unsigned: one before the start is the largest. */
  function Before(pos: nat): nat { if pos == 0 then 0xFFFF_FFFF else pos - 1 }

  method FindVariable(f: Function, offset: int) returns (found: nat)
    ensures found == VarAt(f.objVariablePos, offset)
  {
    found := 0;
    var v := 0;
    while v < |f.objVariablePos|
      invariant 0 <= v <= |f.objVariablePos| && offset !in f.objVariablePos[..v] && found == 0
      invariant VarAt(f.objVariablePos, offset) == FirstAt(f.objVariablePos, offset, v)
    {
      if f.objVariablePos[v] == offset {
        found := v;
        break;
      }
      assert f.objVariablePos[..v + 1] == f.objVariablePos[..v] + [f.objVariablePos[v]];
      v := v + 1;
    }
  }

  /** The number of objects alive in each variable. The instruction at the position is not counted as executed when it
      failed or is a call still going on. */
  method DetermineLiveObjects(f: Function, position: nat, unfinished: bool) returns (liveObjects: seq<int>)
    requires Bracketed(f.objVariableInfo) && Named(f)
    ensures |liveObjects| == |f.objVariablePos|
    ensures forall n: nat, v: nat :: IsFirstBeyond(f.objVariableInfo, if unfinished then Before(position) else position, n) && v < |liveObjects| ==>
      liveObjects[v] == if n < |f.objVariableInfo| then Sum(Scopes(f.objVariablePos, f.objVariableInfo[..n], v)) else 0
    ensures forall n: nat, v: nat :: IsFirstBeyond(f.objVariableInfo, if unfinished then Before(position) else position, n) && v < |liveObjects| ==>
      n < |f.objVariableInfo| ==> liveObjects[v] == OpenSum(f.objVariablePos, f.objVariableInfo, v, n, n)
  {
    var pos := if unfinished then Before(position) else position;
    var infos := f.objVariableInfo;
    liveObjects := seq(|f.objVariablePos|, _ => 0);
    var n := 0;
    while n < |infos| && infos[n].programPos <= pos
      invariant 0 <= n <= |infos| && forall k :: 0 <= k < n ==> infos[k].programPos <= pos
    {
      n := n + 1;
    }
    assert forall m :: IsFirstBeyond(infos, pos, m) ==> m == n;
    if n < |infos| {
      liveObjects := ScanBack(f, n);
      forall v: nat | v < |liveObjects|
        ensures liveObjects[v] == Sum(Scopes(f.objVariablePos, infos[..n], v)) == OpenSum(f.objVariablePos, infos, v, n, n)
      {
        BackwardIsForward(f.objVariablePos, infos, n, v);
        BackwardIsOpen(f.objVariablePos, infos, n, v);
      }
    }
  }

  method ScanBack(f: Function, end: nat) returns (liveObjects: seq<int>)
    requires Bracketed(f.objVariableInfo) && Named(f) && end <= |f.objVariableInfo|
    ensures |liveObjects| == |f.objVariablePos|
    ensures forall v: nat :: v < |liveObjects| ==> liveObjects[v] == Backward(f.objVariablePos, f.objVariableInfo, end, v)
  {
    var infos := f.objVariableInfo;
    liveObjects := seq(|f.objVariablePos|, _ => 0);
    var n := end;
    while n > 0
      invariant 0 <= n <= end && |liveObjects| == |f.objVariablePos|
      invariant forall v: nat :: v < |liveObjects| ==>
        liveObjects[v] + Backward(f.objVariablePos, infos, n, v) == Backward(f.objVariablePos, infos, end, v)
    {
      n := n - 1;
      match infos[n].option {
        case Uninit =>
          assert infos[n] in infos;
          var v := FindVariable(f, infos[n].variableOffset);
          liveObjects := liveObjects[v := liveObjects[v] - 1];
        case Init =>
          assert infos[n] in infos;
          var v := FindVariable(f, infos[n].variableOffset);
          liveObjects := liveObjects[v := liveObjects[v] + 1];
        case BlockBegin =>
        case BlockEnd =>
          n := SkipLeftBlock(f, n);
      }
    }
  }

  /** Looks for the beginning of the block that ends at end, and does not run past the start of the list. */
  method SkipLeftBlock(f: Function, end: nat) returns (n: nat)
    requires Bracketed(f.objVariableInfo) && end < |f.objVariableInfo| && f.objVariableInfo[end].option == BlockEnd
    ensures n == SkipBlock(f.objVariableInfo, end, 1) <= end
  {
    var infos := f.objVariableInfo;
    assert infos[..end + 1][..end] == infos[..end];
    assert Depth(infos[..end + 1]) >= 0;
    var nested := 1;
    n := end;
    while nested > 0
      invariant 0 <= nested <= Depth(infos[..n]) && n <= end
      invariant SkipBlock(infos, n, nested) == SkipBlock(infos, end, 1)
      decreases n
    {
      assert infos[..n][..n - 1] == infos[..n - 1];
      n := n - 1;
      if infos[n].option == BlockEnd { nested := nested + 1; }
      if infos[n].option == BlockBegin { nested := nested - 1; }
    }
  }

  // ---- Visibility ----

  /** A block open after the first a events is left by pos. */
  ghost predicate LeftAfter(infos: seq<Info>, a: nat, pos: nat) {
    exists b: nat :: a < b <= |infos| && (forall k :: a <= k < b ==> infos[k].programPos <= pos) && DepthAt(infos, b) < DepthAt(infos, a)
  }

  method BlockIsLeft(infos: seq<Info>, a: nat, pos: nat) returns (left: bool)
    requires a <= |infos|
    ensures left <==> LeftAfter(infos, a, pos)
  {
    hide Depth, DepthAt;
    var n := a;
    var level := 0;
    while n < |infos| && infos[n].programPos <= pos
      invariant a <= n <= |infos| && level >= 0 && level == DepthAt(infos, n) - DepthAt(infos, a)
      invariant forall k :: a <= k < n ==> infos[k].programPos <= pos
      invariant forall b: nat :: a <= b <= n ==> DepthAt(infos, b) >= DepthAt(infos, a)
    {
      DepthNext(infos, n);
      if infos[n].option == BlockBegin { level := level + 1; }
      if infos[n].option == BlockEnd {
        level := level - 1;
        if level < 0 {
          assert DepthAt(infos, n + 1) < DepthAt(infos, a);
          return true;
        }
      }
      n := n + 1;
    }
    left := false;
  }

  /** The first event at or after the declaration. */
  predicate IsFirstFrom(infos: seq<Info>, declaredAt: nat, a: nat) {
    a <= |infos| && (forall k :: 0 <= k < a ==> infos[k].programPos < declaredAt) && (a < |infos| ==> infos[a].programPos >= declaredAt)
  }

  /** A variable can be seen after its declaration until the block it was declared in is left. */
  method IsVarInScope(f: Function, varIndex: nat, pos: nat) returns (visible: bool)
    ensures varIndex >= |f.variables| ==> !visible
    ensures varIndex < |f.variables| ==>
      var declaredAt := f.variables[varIndex].declaredAtProgramPos;
      forall a: nat :: IsFirstFrom(f.objVariableInfo, declaredAt, a) ==>
        (visible <==> declaredAt <= pos && !LeftAfter(f.objVariableInfo, a, pos))
  {
    hide LeftAfter;
    if |f.variables| <= varIndex { return false; }
    if f.variables[varIndex].declaredAtProgramPos > pos { return false; }
    var declaredAt := f.variables[varIndex].declaredAtProgramPos;
    var infos := f.objVariableInfo;
    var n := 0;
    while n < |infos| && infos[n].programPos < declaredAt
      invariant 0 <= n <= |infos| && forall k :: 0 <= k < n ==> infos[k].programPos < declaredAt
    {
      n := n + 1;
    }
    var left := BlockIsLeft(infos, n, pos);
    assert forall a: nat :: IsFirstFrom(infos, declaredAt, a) ==> a == n;
    visible := !left;
  }
}
