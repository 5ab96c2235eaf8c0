/** The local optimizer ends on every list, whatever the instructions of it do: the operations alone are looked at, and
    conditions on operands and liveness may turn out either way. */
module OptimizerTermination {

  /** The operations the optimizer knows by name. Write, Read and Other stand for the rest: those that only set a variable, only
      use one, and all others. */
  datatype Kind =
    | SetV4 | SetV8 | LdGRdR4 | LDG | LDV | INCi | DECi | IncVi | DecVi | WRTV4 | RDR4 | CpyVtoG4 | CpyGtoV4 | SetG4
    | Calc | CalcI | CpyVtoV4 | CpyRtoV4 | CpyVtoR4 | PshV4 | PshV8 | PshC4 | PshC8 | PshG4
    | SwapPtr | PshNull | PshVPtr | PSF | VAR | PshRPtr | PGA | PshGPtr | PopPtr | RDSPtr | ADDSi | PopRPtr
    | CHKREF | ChkRefS | ChkNullV | REFCPY | RefCpyV | FREE | STOREOBJ | GETREF | GETOBJREF | LoadThisR | LoadRObjR | LoadVObjR
    | ClrHi | Test | JZ | JNZ | JLowZ | JLowNZ | JSign | Label | Write | Read | Other

  // ---- The measure ----

  function Count(s: seq<Kind>, k: Kind): nat { multiset(s)[k] }

  predicate Early(k: Kind) { k == PSF || k == VAR }

  function Frees(s: seq<Kind>): nat {
    if s == [] then 0 else (if s[0] == FREE then 1 else 0) + Frees(s[1..])
  }

  /** The pairs of a pushed address and a FREE further on. */
  function Inversions(s: seq<Kind>): nat {
    if s == [] then 0 else (if Early(s[0]) then Frees(s[1..]) else 0) + Inversions(s[1..])
  }

  /** b comes before a: fewer instructions, or as many and fewer LdGRdR4, or ChkRefS, or inversions. */
  predicate Below(b: seq<Kind>, a: seq<Kind>) {
    || |b| < |a|
    || (|b| == |a| && Count(b, LdGRdR4) < Count(a, LdGRdR4))
    || (|b| == |a| && Count(b, LdGRdR4) == Count(a, LdGRdR4) && Count(b, ChkRefS) < Count(a, ChkRefS))
    || (|b| == |a| && Count(b, LdGRdR4) == Count(a, LdGRdR4) && Count(b, ChkRefS) == Count(a, ChkRefS) && Inversions(b) < Inversions(a))
  }

  function Swapped(s: seq<Kind>, i: nat): seq<Kind>
    requires i + 1 < |s|
  {
    s[i := s[i + 1]][i + 1 := s[i]]
  }

  lemma {:induction false} FreesSwapped(s: seq<Kind>, i: nat)
    requires i + 1 < |s|
    ensures Frees(Swapped(s, i)) == Frees(s)
    decreases i
  {
    var t := Swapped(s, i);
    if i == 0 {
      assert s[1..][1..] == t[1..][1..];
    } else {
      assert t[1..] == Swapped(s[1..], i - 1);
      FreesSwapped(s[1..], i - 1);
    }
  }

  /** An address pushed just before a FREE, pushed after it instead: one inversion less. */
  lemma {:induction false} InversionsSwapped(s: seq<Kind>, i: nat)
    requires i + 1 < |s| && Early(s[i]) && s[i + 1] == FREE
    ensures Inversions(Swapped(s, i)) == Inversions(s) - 1
    decreases i
  {
    var t := Swapped(s, i);
    if i == 0 {
      assert s[1..][1..] == t[1..][1..];
    } else {
      assert t[1..] == Swapped(s[1..], i - 1) && s[1..][i - 1] == s[i];
      FreesSwapped(s[1..], i - 1);
      InversionsSwapped(s[1..], i - 1);
    }
  }

  lemma SwapDescends(s: seq<Kind>, i: nat)
    requires i + 1 < |s| && Early(s[i]) && s[i + 1] == FREE
    ensures Below(Swapped(s, i), s)
  {
    InversionsSwapped(s, i);
  }

  /** Moving one kind down to just before another, and back, restores the list. */
  lemma MovedBack(kinds: seq<Kind>, curr: nat, use: nat)
    requires curr < use - 1 < |kinds|
    ensures var moved := kinds[..curr] + kinds[curr + 1..use] + [kinds[curr]] + kinds[use..];
      && |moved| == |kinds| && moved[use - 1] == kinds[curr]
      && moved[..curr] + [kinds[curr]] + moved[curr..use - 1] + moved[use..] == kinds
  {
    var moved := kinds[..curr] + kinds[curr + 1..use] + [kinds[curr]] + kinds[use..];
    assert moved[..curr] == kinds[..curr];
    assert moved[curr..use - 1] == kinds[curr + 1..use];
    assert moved[use..] == kinds[use..];
  }

  class KindList {
    var kinds: seq<Kind>

    constructor (kinds: seq<Kind>)
      ensures this.kinds == kinds
    {
      this.kinds := kinds;
    }

    function GoForward(p: int): (r: int)
      requires -1 <= p < |kinds|
      reads this
      ensures -1 <= r < |kinds|
    {
      if p < 0 then p else if p + 2 < |kinds| then p + 2 else |kinds| - 1
    }

    /** Takes an instruction out; the result is its predecessor, or its successor if it was the first, or -1 for none. */
    method Delete(i: nat) returns (ret: int)
      requires i < |kinds|
      modifies this
      ensures kinds == old(kinds)[..i] + old(kinds)[i + 1..]
      ensures ret == if i > 0 then i - 1 else if |kinds| > 0 then 0 else -1
    {
      kinds := kinds[..i] + kinds[i + 1..];
      ret := if i > 0 then i - 1 else if |kinds| > 0 then 0 else -1;
    }

    /** Any instruction that sets a variable may go; LdGRdR4 may become LDG; a constant or a result may be combined with what
        comes next. */
    method RemoveUnusedValue(curr: nat) returns (changed: bool, next: int)
      requires curr < |kinds|
      modifies this
      ensures changed ==> -1 <= next < |kinds|
      ensures changed ==> |kinds| < |old(kinds)| || (old(kinds)[curr] == LdGRdR4 && kinds == old(kinds)[curr := LDG])
      ensures !changed ==> kinds == old(kinds)
    {
      changed, next := false, -1;
      var op := kinds[curr];
      var unread: bool := *;
      if op in {SetV4, SetV8, LdGRdR4, RDR4, CpyGtoV4, Calc, CalcI, CpyVtoV4, CpyRtoV4, RefCpyV, STOREOBJ, Write} && unread {
        var regUsed: bool := *;
        if op == LdGRdR4 && regUsed {
          kinds := kinds[curr := LDG];
          return true, GoForward(curr);
        }
        next := Delete(curr);
        return true, GoForward(next);
      }
      if curr + 1 >= |kinds| { return; }
      var use, matches: bool := kinds[curr + 1], *;
      if !matches { return; }
      if op == SetV4 && use == Calc {
        kinds := kinds[curr + 1 := CalcI];
        next := Delete(curr);
        return true, GoForward(next);
      }
      if (op == SetV4 && use in {CpyVtoV4, PshV4, CpyVtoG4}) || (op in {Calc, CalcI, Write} && use == CpyVtoV4)
         || (op == CpyGtoV4 && use == PshV4) || (op == SetV8 && use == PshV8) {
        kinds := kinds[curr := Combined(op, use)];
        next := Delete(curr + 1);
        return true, GoForward(curr);
      }
      if op == CpyRtoV4 && use == CpyVtoR4 {
        next := Delete(curr + 1);
        next := Delete(curr);
        return true, GoForward(next);
      }
    }

    /** The initialization of a temporary moves down to an instruction, and back if the two cannot be combined. */
    method PostponeInitOfTemp(curr: nat) returns (changed: bool, next: int)
      requires curr < |kinds|
      modifies this
      ensures changed ==> -1 <= next < |kinds| && |kinds| < |old(kinds)|
      ensures !changed ==> kinds == old(kinds)
    {
      changed, next := false, -1;
      if kinds[curr] != SetV4 && kinds[curr] != SetV8 { return; }
      var use := curr + 1;
      var found := false;
      while use < |kinds| && !found
        invariant curr < use <= |kinds|
        decreases |kinds| - use, !found
      {
        found := *;
        var stop: bool := *;
        if !found && stop { return; }
        if !found { use := use + 1; }
      }
      if !found || use - 1 == curr { return; }
      MovedBack(kinds, curr, use);
      var instr := kinds[curr];
      kinds := kinds[..curr] + kinds[curr + 1..use] + [instr] + kinds[use..];
      changed, next := RemoveUnusedValue(use - 1);
      if changed { return true, if |kinds| == 0 then -1 else if curr < |kinds| then curr else |kinds| - 1; }
      kinds := kinds[..curr] + [instr] + kinds[curr..use - 1] + kinds[use..];
    }

    /** The pointer on top of the stack is dropped. */
    method AtPop(curr: nat) returns (changed: bool, next: int)
      requires 0 < curr < |kinds| && kinds[curr] == PopPtr
      modifies this
      ensures changed ==> -1 <= next < |kinds| && |kinds| < |old(kinds)|
      ensures !changed ==> kinds == old(kinds)
    {
      changed, next := false, -1;
      var prev := kinds[curr - 1];
      if prev == RDSPtr {
        next := Delete(curr - 1);
        return true, GoForward(next);
      }
      if prev == RefCpyV && curr >= 2 && kinds[curr - 2] == PshNull {
        next := Delete(curr);
        next := Delete(curr - 2);
        kinds := kinds[curr - 2 := FREE];
        return true, GoForward(curr - 2);
      }
      if prev in {PshRPtr, PSF, VAR, PshVPtr, PshNull} {
        next := Delete(curr);
        next := Delete(curr - 1);
        return true, GoForward(next);
      }
      if curr >= 2 && ((prev == ChkRefS && kinds[curr - 2] == PSF) || (prev == CHKREF && kinds[curr - 2] == PshVPtr)) {
        kinds := kinds[curr - 2 := ChkNullV];
        next := Delete(curr);
        next := Delete(curr - 1);
        return true, GoForward(curr - 2);
      }
      if prev == FREE && curr >= 6 && kinds[curr - 2] == REFCPY && kinds[curr - 3] == PSF && kinds[curr - 4] == RDSPtr
         && kinds[curr - 5] == PSF && kinds[curr - 6] == STOREOBJ {
        var applies: bool := *;
        if applies {
          kinds := kinds[curr := STOREOBJ];
          next := Delete(curr - 2);
          next := Delete(curr - 3);
          next := Delete(curr - 4);
          next := Delete(curr - 5);
          next := Delete(curr - 6);
          return true, GoForward(curr - 5);
        }
      }
    }

    /** The pointer on top of the stack is followed. */
    method AtDereference(curr: nat) returns (changed: bool, next: int)
      requires 0 < curr < |kinds| && kinds[curr] == RDSPtr
      modifies this
      ensures changed ==> -1 <= next < |kinds| && Below(kinds, old(kinds))
      ensures !changed ==> kinds == old(kinds)
    {
      changed, next := false, -1;
      var prev := kinds[curr - 1];
      if prev == PGA || prev == PSF {
        kinds := kinds[curr - 1 := if prev == PGA then PshGPtr else PshVPtr];
        next := Delete(curr);
        return true, GoForward(curr - 1);
      }
      if prev == ChkRefS {
        // As many instructions as before, but one check of a reference on the stack less
        kinds := kinds[curr := CHKREF][curr - 1 := RDSPtr];
        return true, GoForward(curr);
      }
    }

    /** A check of the pointer on top of the stack. */
    method AtCheck(curr: nat) returns (changed: bool, next: int)
      requires curr < |kinds| && kinds[curr] == CHKREF
      modifies this
      ensures changed ==> -1 <= next < |kinds| && |kinds| < |old(kinds)|
      ensures !changed ==> kinds == old(kinds)
    {
      changed, next := false, -1;
      if (curr + 1 < |kinds| && kinds[curr + 1] in {ADDSi, RDSPtr}) || (curr > 0 && kinds[curr - 1] in {ADDSi, PGA, PSF})
         || (curr > 1 && kinds[curr - 1] == ChkRefS && kinds[curr - 2] == PGA) {
        next := Delete(curr);
        return true, GoForward(next);
      }
    }

    /** Work through an address in the register, or one to be loaded into it. */
    method AtRegister(curr: nat) returns (changed: bool, next: int)
      requires curr < |kinds|
      modifies this
      ensures changed ==> -1 <= next < |kinds| && |kinds| < |old(kinds)|
      ensures !changed ==> kinds == old(kinds)
    {
      changed, next := false, -1;
      var op := kinds[curr];
      if op in {LDV, LDG} && curr + 1 < |kinds| {
        var use, used: bool := kinds[curr + 1], *;
        if (op == LDV && use in {INCi, DECi} && !used) || (op == LDG && use == WRTV4 && !used) || (op == LDG && use == RDR4) {
          var instr := if use == INCi then IncVi else if use == DECi then DecVi else if use == WRTV4 then CpyVtoG4
                       else if used then LdGRdR4 else CpyGtoV4;
          kinds := kinds[curr := instr];
          next := Delete(curr + 1);
          return true, GoForward(curr);
        }
      }
      if op == PopRPtr && curr >= 2 && kinds[curr - 1] == ADDSi && kinds[curr - 2] in {PshVPtr, PSF} {
        var this_: bool := *;
        kinds := kinds[curr - 2 := if kinds[curr - 2] == PSF then LoadVObjR else if this_ then LoadThisR else LoadRObjR];
        next := Delete(curr - 1);
        next := Delete(curr - 1);
        return true, GoForward(curr - 2);
      }
      if op == REFCPY && curr > 0 && kinds[curr - 1] == PSF {
        kinds := kinds[curr := RefCpyV];
        next := Delete(curr - 1);
        return true, GoForward(curr - 1);
      }
    }

    /** Tests and jumps. */
    method AtJump(curr: nat) returns (changed: bool, next: int)
      requires curr < |kinds|
      modifies this
      ensures changed ==> -1 <= next < |kinds| && |kinds| < |old(kinds)|
      ensures !changed ==> kinds == old(kinds)
    {
      changed, next := false, -1;
      if kinds[curr] == ClrHi {
        if curr > 0 && kinds[curr - 1] == Test {
          next := Delete(curr);
          return true, GoForward(next);
        }
        if curr + 1 < |kinds| && kinds[curr + 1] in {JZ, JNZ} {
          kinds := kinds[curr + 1 := if kinds[curr + 1] == JZ then JLowZ else JLowNZ];
          next := Delete(curr);
          return true, GoForward(next);
        }
      }
      if kinds[curr] in {JZ, JNZ, JLowZ, JLowNZ} && curr > 0 && kinds[curr - 1] == Test {
        var cond: Kind := *;
        kinds := kinds[curr := if cond in {JZ, JNZ} then cond else JSign];
        next := Delete(curr - 1);
        return true, GoForward(next);
      }
    }

    /** Addresses of variables that are pushed in an order that stands in the way. */
    method AtOrder(curr: nat) returns (changed: bool, next: int)
      requires curr < |kinds|
      modifies this
      ensures changed ==> -1 <= next < |kinds| && Below(kinds, old(kinds))
      ensures !changed ==> kinds == old(kinds)
    {
      changed, next := false, -1;
      var op := kinds[curr];
      if op == SwapPtr && curr >= 2 && kinds[curr - 1] in {PshNull, PshVPtr, PSF} && kinds[curr - 2] in {PshNull, PshVPtr, PSF} {
        next := Delete(curr);
        kinds := Swapped(kinds, curr - 2);
        return true, GoForward(curr - 1);
      }
      if op == FREE && curr > 0 && Early(kinds[curr - 1]) {
        // As many instructions as before, but one inversion less
        SwapDescends(kinds, curr - 1);
        kinds := Swapped(kinds, curr - 1);
        return true, GoForward(curr);
      }
      if op == VAR && curr + 2 < |kinds| && kinds[curr + 1] == PSF && kinds[curr + 2] == GETOBJREF {
        var first: bool := *;
        if first {
          kinds := kinds[curr := PshVPtr];
          next := Delete(curr + 2);
          return true, GoForward(curr);
        }
      }
      if op == VAR && curr + 1 < |kinds| && kinds[curr + 1] == GETREF {
        var first: bool := *;
        if first {
          kinds := kinds[curr := PSF];
          next := Delete(curr + 1);
          return true, GoForward(curr);
        }
      }
    }

    /** From the last instruction to the first, and some way forward again after every change. */
    method OptimizeLocally()
      modifies this
      ensures kinds == old(kinds) || Below(kinds, old(kinds))
    {
      hide Below, Count, Inversions;
      var instr := |kinds| - 1;
      while instr >= 0
        invariant -1 <= instr < |kinds| && (kinds == old(kinds) || Below(kinds, old(kinds)))
        decreases |kinds|, Count(kinds, LdGRdR4), Count(kinds, ChkRefS), Inversions(kinds), instr
      {
        ghost var before := kinds;
        var changed, next := Rewrite(instr);
        if changed {
          Descends(kinds, before);
          BelowTrans(kinds, before, old(kinds));
        }
        instr := if changed then next else instr - 1;
      }
    }

    /** At most one rewrite at an instruction. */
    method Rewrite(curr: nat) returns (changed: bool, next: int)
      requires curr < |kinds|
      modifies this
      ensures changed ==> -1 <= next < |kinds| && Below(kinds, old(kinds))
      ensures !changed ==> kinds == old(kinds)
    {
      changed, next := RemoveUnusedValue(curr);
      if changed { return; }
      changed, next := PostponeInitOfTemp(curr);
      if changed { return; }
      if kinds[curr] == CHKREF {
        changed, next := AtCheck(curr);
      } else if kinds[curr] == PopPtr && curr > 0 {
        changed, next := AtPop(curr);
      } else if kinds[curr] == RDSPtr && curr > 0 {
        changed, next := AtDereference(curr);
      } else if kinds[curr] in {SwapPtr, FREE, VAR} {
        changed, next := AtOrder(curr);
      } else if kinds[curr] in {ClrHi, JZ, JNZ, JLowZ, JLowNZ} {
        changed, next := AtJump(curr);
      } else {
        changed, next := AtRegister(curr);
      }
    }
  }

  /** What a constant or a result becomes together with what passes it on. */
  function Combined(op: Kind, use: Kind): Kind {
    match use
    case PshV4 => if op == CpyGtoV4 then PshG4 else PshC4
    case PshV8 => PshC8
    case CpyVtoG4 => SetG4
    case _ => op
  }

  lemma Descends(b: seq<Kind>, a: seq<Kind>)
    requires Below(b, a)
    ensures |b| <= |a|
    ensures |b| == |a| ==> Count(b, LdGRdR4) <= Count(a, LdGRdR4)
    ensures |b| == |a| && Count(b, LdGRdR4) == Count(a, LdGRdR4) ==> Count(b, ChkRefS) <= Count(a, ChkRefS)
    ensures |b| == |a| && Count(b, LdGRdR4) == Count(a, LdGRdR4) && Count(b, ChkRefS) == Count(a, ChkRefS) ==> Inversions(b) < Inversions(a)
  {
  }

  lemma BelowTrans(c: seq<Kind>, b: seq<Kind>, a: seq<Kind>)
    requires Below(c, b) && (b == a || Below(b, a))
    ensures Below(c, a)
  {
  }
}
