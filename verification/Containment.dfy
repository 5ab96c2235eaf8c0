/** Classes that contain one another by value: the rounds that validate them. */
module Containment {
  import opened Options
  import opened Inheritance

  /** The new classes being compiled and, for each property of a class, the type it holds by value if it holds one
      (template types unwrapped to the held subtype). */
  datatype Program = Program(newClasses: seq<Id>, existing: set<Id>, members: map<Id, seq<Option<Id>>>)

  function MembersOf(p: Program, c: Id): seq<Option<Id>> {
    if c in p.members then p.members[c] else []
  }

  /** c contains t by value, both being classes of this compilation. */
  predicate Contains(p: Program, c: Id, t: Id) {
    c in p.newClasses && t in p.newClasses && t !in p.existing && Some(t) in MembersOf(p, c)
  }

  ghost predicate Path(p: Program, path: seq<Id>) {
    |path| > 0 && forall i :: 0 <= i < |path| - 1 ==> Contains(p, path[i], path[i + 1])
  }

  ghost predicate HasCycle(p: Program) {
    exists path :: Path(p, path) && |path| > 1 && path[0] == path[|path| - 1]
  }

  /** c contains itself, directly or indirectly, or a class that does. */
  ghost predicate LeadsToCycle(p: Program, c: Id) {
    exists path, i: nat :: LeadsBack(p, c, path, i)
  }

  ghost predicate LeadsBack(p: Program, c: Id, path: seq<Id>, i: nat) {
    Path(p, path) && path[0] == c && i < |path| - 1 && path[i] == path[|path| - 1]
  }

  lemma LeadsOn(p: Program, c: Id, t: Id)
    requires Contains(p, c, t) && LeadsToCycle(p, t)
    ensures LeadsToCycle(p, c)
  {
    var path, i: nat :| LeadsBack(p, t, path, i);
    var longer := [c] + path;
    forall n | 0 <= n < |longer| - 1 ensures Contains(p, longer[n], longer[n + 1]) {
      if n > 0 { assert Contains(p, path[n - 1], path[n - 1 + 1]); }
    }
    assert LeadsBack(p, c, longer, i + 1);
  }

  // ---- An order of validation rules out cycles ----

  /** Each class of the order comes after the classes it contains. */
  ghost predicate Ordered(p: Program, order: seq<Id>) {
    forall k, t :: 0 <= k < |order| && Contains(p, order[k], t) ==> t in order[..k]
  }

  lemma {:induction false} PathDescends(p: Program, order: seq<Id>, path: seq<Id>, i: nat) returns (k: nat)
    requires Ordered(p, order) && Path(p, path) && |path| > 1 && i < |order| && path[0] == order[i]
    ensures k < i && order[k] == path[|path| - 1]
    decreases |path|
  {
    assert Contains(p, path[0], path[0 + 1]);
    var j :| 0 <= j < |order[..i]| && order[..i][j] == path[1];
    if |path| == 2 {
      k := j;
    } else {
      forall n | 0 <= n < |path[1..]| - 1 ensures Contains(p, path[1..][n], path[1..][n + 1]) {
        assert Contains(p, path[n + 1], path[n + 1 + 1]);
      }
      k := PathDescends(p, order, path[1..], j);
    }
  }

  /** A path back to its start would descend forever. */
  lemma {:induction false} NoReturn(p: Program, order: seq<Id>, path: seq<Id>, i: nat)
    requires Ordered(p, order) && Path(p, path) && |path| > 1 && i < |order| && path[0] == order[i]
    ensures path[0] != path[|path| - 1]
    decreases i
  {
    var k := PathDescends(p, order, path, i);
    if path[0] == path[|path| - 1] { NoReturn(p, order, path, k); }
  }

  /** None of the classes of the order leads to a cycle. */
  lemma OrderedOffCycle(p: Program, order: seq<Id>, c: Id)
    requires Ordered(p, order) && c in order
    ensures !LeadsToCycle(p, c)
  {
    if LeadsToCycle(p, c) {
      var path, i: nat :| LeadsBack(p, c, path, i);
      var j :| 0 <= j < |order| && order[j] == c;
      var k: nat := j;
      if i > 0 {
        var start := path[..i + 1];
        forall n | 0 <= n < |start| - 1 ensures Contains(p, start[n], start[n + 1]) { assert Contains(p, path[n], path[n + 1]); }
        k := PathDescends(p, order, start, j);
      }
      var loop := path[i..];
      forall n | 0 <= n < |loop| - 1 ensures Contains(p, loop[n], loop[n + 1]) { assert Contains(p, path[i + n], path[i + n + 1]); }
      NoReturn(p, order, loop, k);
    }
  }

  lemma OrderedNoCycle(p: Program, order: seq<Id>)
    requires Ordered(p, order) && forall c :: c in p.newClasses && c !in p.existing ==> c in order
    ensures !HasCycle(p)
  {
    forall path | Path(p, path) && |path| > 1 ensures path[0] != path[|path| - 1] {
      if path[0] == path[|path| - 1] {
        assert Contains(p, path[|path| - 2], path[|path| - 2 + 1]);
        var i :| 0 <= i < |order| && order[i] == path[0];
        NoReturn(p, order, path, i);
      }
    }
  }

  // ---- Where every class waits for another there is a cycle ----

  lemma LoopFound(p: Program, path: seq<Id>, i: nat)
    requires Path(p, path) && i < |path| - 1 && path[i] == path[|path| - 1]
    ensures HasCycle(p)
  {
    var loop := path[i..];
    forall n | 0 <= n < |loop| - 1 ensures Contains(p, loop[n], loop[n + 1]) { assert Contains(p, path[i + n], path[i + n + 1]); }
    assert Path(p, loop) && loop[0] == loop[|loop| - 1];
  }

  lemma PathExtends(p: Program, path: seq<Id>, t: Id)
    requires Path(p, path) && Contains(p, path[|path| - 1], t)
    ensures Path(p, path + [t])
  {
    var longer := path + [t];
    forall n | 0 <= n < |longer| - 1 ensures Contains(p, longer[n], longer[n + 1]) {
      if n < |path| - 1 { assert Contains(p, path[n], path[n + 1]); }
    }
  }

  /** c contains a class of s. */
  ghost predicate Waits(p: Program, s: set<Id>, c: Id) {
    exists t :: t in s && Contains(p, c, t)
  }

  /** Following the classes of s from one to the next comes back to a class seen before. */
  lemma {:induction false} WaitingCycle(p: Program, s: set<Id>, path: seq<Id>, seen: set<Id>)
    requires forall c :: c in s ==> Waits(p, s, c)
    requires |path| > 0 && Path(p, path) && path[|path| - 1] in s && seen <= s
    requires forall c :: c in seen <==> c in path[..|path| - 1]
    ensures HasCycle(p) && LeadsToCycle(p, path[0])
    decreases s - seen
  {
    hide Path, Contains, HasCycle, Waits;
    var last := path[|path| - 1];
    var t := Waited(p, s, last);
    if last in path[..|path| - 1] {
      var i :| 0 <= i < |path[..|path| - 1]| && path[..|path| - 1][i] == last;
      LoopFound(p, path, i);
      assert LeadsBack(p, path[0], path, i);
    } else {
      PathExtends(p, path, t);
      var longer := path + [t];
      assert longer[..|longer| - 1] == path[..|path| - 1] + [last];
      assert last in s - seen && last !in s - (seen + {last});
      WaitingCycle(p, s, longer, seen + {last});
    }
  }

  lemma Waited(p: Program, s: set<Id>, c: Id) returns (t: Id)
    requires Waits(p, s, c)
    ensures t in s && Contains(p, c, t)
  {
    t :| t in s && Contains(p, c, t);
  }

  lemma AllWaitCycle(p: Program, list: seq<Id>, s: set<Id>)
    requires |list| > 0 && (forall c :: c in s <==> c in list) && forall c :: c in list ==> Waits(p, s, c)
    ensures HasCycle(p) && forall c :: c in list ==> LeadsToCycle(p, c)
  {
    hide Contains, HasCycle, Waits, LeadsToCycle;
    assert list[0] in s;
    WaitingCycle(p, s, [list[0]], {});
    forall c | c in list ensures LeadsToCycle(p, c) { WaitingCycle(p, s, [c], {}); }
  }

  lemma SelfCycle(p: Program, c: Id)
    requires Contains(p, c, c)
    ensures HasCycle(p) && LeadsToCycle(p, c)
  {
    assert Path(p, [c, c]);
    assert LeadsBack(p, c, [c, c], 0);
  }

  class Validator {
    const program: Program
    var validState: map<Id, int>
    var toValidate: seq<Id>
    var toValidateNext: seq<Id>
    var numErrors: nat
    // The classes validated so far, in order
    ghost var order: seq<Id>

    function State(c: Id): int
      reads this`validState
    {
      if c in validState then validState[c] else 0
    }

    predicate IsNew(c: Id) { c in program.newClasses && c !in program.existing }

    /** Shared classes that exist already count as validated; the new ones wait. */
    constructor (program: Program, toValidate: seq<Id>)
      requires forall c :: c in toValidate <==> c in program.newClasses && c !in program.existing
      requires forall i, k :: 0 <= i < k < |toValidate| ==> toValidate[i] != toValidate[k]
      ensures this.program == program && Valid() && numErrors == 0 && this.toValidate == toValidate && toValidateNext == []
    {
      this.program := program;
      validState := map c | c in program.existing :: 1;
      this.toValidate, toValidateNext, numErrors, order := toValidate, [], 0, [];
    }

    ghost predicate Valid()
      reads this
    {
      && (forall c :: c in program.existing ==> State(c) == 1)
      && (forall c :: IsNew(c) ==> (State(c) == 0 <==> c in toValidate || c in toValidateNext))
      && (forall c :: IsNew(c) ==> (State(c) == 1 <==> c in order) && 0 <= State(c) <= 2)
      && (forall c :: c in toValidate || c in toValidateNext ==> IsNew(c))
      && (forall i, k :: 0 <= i < k < |toValidate| ==> toValidate[i] != toValidate[k])
      && (forall i, k :: 0 <= i < k < |toValidateNext| ==> toValidateNext[i] != toValidateNext[k])
      && (forall c :: c in toValidate ==> c !in toValidateNext)
      && Ordered(program, order)
      && (forall c :: IsNew(c) && State(c) == 2 ==> numErrors > 0 && LeadsToCycle(program, c))
      && (numErrors > 0 ==> HasCycle(program))
    }

    /** The state a class' properties allow it. */
    method Check(c: Id) returns (state: int)
      requires Valid() && c in toValidate
      modifies this`numErrors
      ensures state == 1 <==> forall t :: Contains(program, c, t) ==> t != c && State(t) == 1
      ensures state == 0 ==> exists t :: Contains(program, c, t) && State(t) == 0
      ensures 0 <= state <= 2 && numErrors >= old(numErrors)
      ensures state == 2 ==> numErrors > 0 && LeadsToCycle(program, c)
      ensures numErrors > 0 ==> HasCycle(program)
    {
      var props := MembersOf(program, c);
      var n := 0;
      while n < |props|
        invariant 0 <= n <= |props| && numErrors == old(numErrors)
        invariant forall t :: Some(t) in props[..n] && Contains(program, c, t) ==> t != c && State(t) == 1
      {
        if props[n].Some? && props[n].value in program.newClasses {
          var t := props[n].value;
          if t == c {
            SelfCycle(program, c);
            numErrors := numErrors + 1;
            return 2;
          } else if State(t) != 1 {
            assert t !in program.existing;
            assert Contains(program, c, t);
            if State(t) == 2 { LeadsOn(program, c, t); }
            return State(t);
          }
        }
        assert props[..n + 1] == props[..n] + [props[n]];
        n := n + 1;
      }
      assert props[..n] == props;
      state := 1;
    }

    /** Takes one class from the end of the list. resolved is false if it has to wait for another round. */
    method ValidateLast() returns (resolved: bool)
      requires Valid() && |toValidate| > 0
      modifies this
      ensures Valid() && toValidate == old(toValidate)[..|old(toValidate)| - 1]
      ensures numErrors >= old(numErrors)
      ensures resolved ==> toValidateNext == old(toValidateNext)
      ensures !resolved ==> toValidateNext == old(toValidateNext) + [old(toValidate)[|old(toValidate)| - 1]] && validState == old(validState)
      ensures !resolved ==> exists t :: Contains(program, old(toValidate)[|old(toValidate)| - 1], t) && State(t) == 0
    {
      var c := toValidate[|toValidate| - 1];
      var state := Check(c);
      if state == 0 {
        PutOff();
        return false;
      }
      Resolve(state);
      resolved := true;
    }

    /** The last class of the list has to wait. */
    method PutOff()
      requires Valid() && |toValidate| > 0
      modifies this`toValidate, this`toValidateNext
      ensures Valid() && toValidate == old(toValidate)[..|old(toValidate)| - 1]
      ensures toValidateNext == old(toValidateNext) + [old(toValidate)[|old(toValidate)| - 1]]
    {
      hide Ordered, HasCycle, LeadsToCycle;
      LastOne(toValidate);
      toValidateNext := toValidateNext + [toValidate[|toValidate| - 1]];
      toValidate := toValidate[..|toValidate| - 1];
    }

    /** The last class of the list is valid, after those it contains, or an error. */
    method Resolve(state: int)
      requires Valid() && |toValidate| > 0 && (state == 1 || (state == 2 && numErrors > 0 && LeadsToCycle(program, toValidate[|toValidate| - 1])))
      requires state == 1 ==> forall t :: Contains(program, toValidate[|toValidate| - 1], t) ==> State(t) == 1
      modifies this`toValidate, this`validState, this`order
      ensures Valid() && toValidate == old(toValidate)[..|old(toValidate)| - 1]
    {
      hide Ordered, HasCycle, LeadsToCycle;
      var c := toValidate[|toValidate| - 1];
      LastOne(toValidate);
      toValidate := toValidate[..|toValidate| - 1];
      if state == 1 {
        forall t | Contains(program, c, t) ensures t in order { }
        OrderedPush(program, order, c);
        order := order + [c];
      }
      validState := validState[c := state];
    }

    /** Rounds go on until all classes are resolved, or a round resolves none. */
    method ValidateAll()
      requires Valid() && numErrors == 0 && toValidateNext == []
      modifies this
      ensures numErrors > 0 <==> HasCycle(program)
      ensures !HasCycle(program) ==> forall c :: c in program.newClasses ==> State(c) == 1
      ensures forall c :: IsNew(c) ==> (State(c) == 1 <==> !LeadsToCycle(program, c))
    {
      hide Ordered, LeadsToCycle, HasCycle, Contains, Waits;
      while |toValidate| > 0
        invariant Valid() && toValidateNext == []
        decreases |toValidate|
      {
        var numClasses := |toValidate|;
        ValidateRound();
        toValidate, toValidateNext := toValidateNext, [];
        if numClasses == |toValidate| {
          AllWaitCycle(program, toValidate, (set c | c in toValidate));
          ValidOffCycle();
          numErrors := numErrors + 1;
          return;
        }
      }
      if numErrors == 0 { OrderedNoCycle(program, order); }
      ValidOffCycle();
    }

    lemma ValidOffCycle()
      requires Valid()
      ensures forall c :: IsNew(c) && State(c) == 1 ==> !LeadsToCycle(program, c)
    {
      hide Ordered, LeadsToCycle;
      forall c | IsNew(c) && State(c) == 1 ensures !LeadsToCycle(program, c) { OrderedOffCycle(program, order, c); }
    }

    /** One round: the classes that have to wait are left in toValidateNext. If none was resolved, each waits for another. */
    method ValidateRound()
      requires Valid() && toValidateNext == []
      modifies this
      ensures Valid() && toValidate == [] && |toValidateNext| <= |old(toValidate)|
      ensures |toValidateNext| == |old(toValidate)| ==>
        forall c :: c in toValidateNext ==> Waits(program, (set t | t in toValidateNext), c)
    {
      while |toValidate| > 0
        invariant Valid() && |toValidate| + |toValidateNext| <= |old(toValidate)|
        invariant |toValidate| + |toValidateNext| == |old(toValidate)| ==>
          forall c :: c in toValidateNext ==> exists t :: Contains(program, c, t) && State(t) == 0
        decreases |toValidate|
      {
        var resolved := ValidateLast();
      }
    }
  }

  lemma LastOne(s: seq<Id>)
    requires |s| > 0 && forall i, k :: 0 <= i < k < |s| ==> s[i] != s[k]
    ensures var c, rest := s[|s| - 1], s[..|s| - 1]; c !in rest && forall x :: x in s <==> x in rest || x == c
  {
    assert s == s[..|s| - 1] + [s[|s| - 1]];
  }

  lemma OrderedPush(p: Program, order: seq<Id>, c: Id)
    requires Ordered(p, order) && forall t :: Contains(p, c, t) ==> t in order
    ensures Ordered(p, order + [c])
  {
    var o := order + [c];
    forall k, t | 0 <= k < |o| && Contains(p, o[k], t) ensures t in o[..k] {
      if k < |order| { assert o[..k] == order[..k]; } else { assert o[..k] == order; }
    }
  }
}
