/** Which script classes are left to the garbage collector: one pass over the classes that clears the flag of those that
    cannot be part of a circular reference. */
module GcFlags {
  import opened Inheritance

  /** A property holds no object, an object by value, or a handle. */
  datatype Prop = Primitive | Value(t: Id) | Handle(t: Id)

  /** script: the script classes and interfaces. final: those declared final. The other types come from the application. */
  datatype Types = Types(script: set<Id>, final: set<Id>, props: map<Id, seq<Prop>>, derivedFrom: map<Id, Id>,
                         interfaces: map<Id, set<Id>>)
  {
    function Props(c: Id): seq<Prop> { if c in props then props[c] else [] }

    /** Only script classes that are not final can be inherited from, and interfaces are never final. */
    ghost predicate HeirsAllowed() {
      && (forall x :: x in derivedFrom ==> derivedFrom[x] in script && derivedFrom[x] !in final)
      && (forall x, t :: x in interfaces && t in interfaces[x] ==> t in script && t !in final)
    }

    /** An object of type b can be behind a handle to t. */
    ghost predicate StandsFor(b: Id, t: Id) {
      b == t || Inherits(derivedFrom, b, t) || exists x :: Inherits(derivedFrom, b, x) && x in interfaces && t in interfaces[x]
    }
  }

  /** An object of type a can hold an object of type b: script classes through their properties, application types with
      the flag in any way, application types without it not at all. */
  ghost predicate MayRef(p: Types, flags: set<Id>, a: Id, b: Id) {
    if a !in p.script then a in flags
    else Value(b) in p.Props(a) || exists t :: Handle(t) in p.Props(a) && p.StandsFor(b, t)
  }

  ghost predicate Path(p: Types, flags: set<Id>, path: seq<Id>) {
    |path| > 0 && forall i :: 0 <= i < |path| - 1 ==> MayRef(p, flags, path[i], path[i + 1])
  }

  /** Objects of type c can be part of a circular reference. */
  ghost predicate OnCycle(p: Types, flags: set<Id>, c: Id) {
    exists path :: Path(p, flags, path) && |path| > 1 && path[0] == c && path[|path| - 1] == c
  }

  // ---- What the pass decides for one class ----

  /** Seen in a final class: a property that leads on to types that may refer back. */
  predicate LeadsOn(p: Types, flags: set<Id>, prop: Prop) {
    match prop
    case Primitive => false
    case Value(u) => u in flags
    case Handle(u) => u in p.script || u in flags
  }

  predicate Risky(p: Types, flags: set<Id>, prop: Prop) {
    match prop
    case Primitive => false
    case Value(t) => t in flags
    case Handle(t) =>
      if t !in p.script then t in flags
      else t !in p.final || exists sp :: sp in p.Props(t) && LeadsOn(p, flags, sp)
  }

  predicate NeedsGc(p: Types, flags: set<Id>, c: Id) {
    exists prop :: prop in p.Props(c) && Risky(p, flags, prop)
  }

  /** The flags after the pass over the classes of list. */
  function Marked(p: Types, flags: set<Id>, list: seq<Id>): set<Id>
    decreases |list|
  {
    if list == [] then flags
    else Marked(p, if NeedsGc(p, flags, list[0]) then flags + {list[0]} else flags - {list[0]}, list[1..])
  }

  lemma MarkedStep(p: Types, flags: set<Id>, c: Id, rest: seq<Id>)
    ensures Marked(p, flags, [c] + rest) == Marked(p, if NeedsGc(p, flags, c) then flags + {c} else flags - {c}, rest)
  {
    assert ([c] + rest)[1..] == rest;
  }

  // ---- What holds of the classes the pass has cleared ----

  /** t cannot refer to anything but what was decided before. */
  predicate Fine(p: Types, flags: set<Id>, before: seq<Id>, t: Id) {
    t !in flags && (t in p.script ==> t in before)
  }

  /** A final class behind a handle: by value it holds only classes decided before, and its handles are to application
      types without the flag. */
  ghost predicate Harmless(p: Types, flags: set<Id>, before: seq<Id>, t: Id) {
    && t in p.script && t in p.final
    && (forall u :: Value(u) in p.Props(t) ==> Fine(p, flags, before, u))
    && (forall u :: Handle(u) in p.Props(t) ==> u !in p.script && u !in flags)
  }

  ghost predicate Cleared(p: Types, flags: set<Id>, before: seq<Id>, c: Id) {
    && (forall t :: Value(t) in p.Props(c) ==> Fine(p, flags, before, t))
    && (forall t :: Handle(t) in p.Props(c) ==> if t in p.script then Harmless(p, flags, before, t) else t !in flags)
  }

  /** order: all classes decided so far. */
  ghost predicate Decided(p: Types, flags: set<Id>, order: seq<Id>) {
    && (forall k :: 0 <= k < |order| && order[k] !in flags ==> Cleared(p, flags, order[..k], order[k]))
    && (forall i, k :: 0 <= i < k < |order| ==> order[i] != order[k])
    && (forall c :: c in order ==> c in p.script)
    && (forall c :: c in p.script && c !in flags ==> c in order)
  }

  lemma ClearedNow(p: Types, flags: set<Id>, order: seq<Id>, c: Id)
    requires Decided(p, flags, order) && !NeedsGc(p, flags, c)
    ensures Cleared(p, flags, order, c)
  {
    forall t | Handle(t) in p.Props(c) && t in p.script ensures Harmless(p, flags, order, t) {
      assert !Risky(p, flags, Handle(t));
      forall u | Value(u) in p.Props(t) ensures u !in flags { assert !LeadsOn(p, flags, Value(u)); }
      forall u | Handle(u) in p.Props(t) ensures u !in p.script && u !in flags { assert !LeadsOn(p, flags, Handle(u)); }
    }
    forall t | Handle(t) in p.Props(c) && t !in p.script ensures t !in flags { assert !Risky(p, flags, Handle(t)); }
    forall t | Value(t) in p.Props(c) ensures t !in flags { assert !Risky(p, flags, Value(t)); }
  }

  /** Clearing more flags does not spoil it. */
  lemma ClearedKept(p: Types, flags: set<Id>, flags2: set<Id>, before: seq<Id>, c: Id)
    requires Cleared(p, flags, before, c) && flags2 <= flags
    ensures Cleared(p, flags2, before, c)
  {
    forall t | Handle(t) in p.Props(c) && t in p.script ensures Harmless(p, flags2, before, t) {
      assert Harmless(p, flags, before, t);
    }
  }

  lemma DecideOne(p: Types, flags: set<Id>, order: seq<Id>, c: Id)
    requires Decided(p, flags, order) && c in p.script && c in flags && c !in order
    ensures Decided(p, if NeedsGc(p, flags, c) then flags + {c} else flags - {c}, order + [c])
  {
    hide Cleared, NeedsGc;
    var flags2 := if NeedsGc(p, flags, c) then flags + {c} else flags - {c};
    var o := order + [c];
    forall k | 0 <= k < |o| && o[k] !in flags2 ensures Cleared(p, flags2, o[..k], o[k]) {
      if k < |order| {
        assert o[..k] == order[..k];
        ClearedKept(p, flags, flags2, order[..k], o[k]);
      } else {
        assert o[..k] == order;
        ClearedNow(p, flags, order, c);
        ClearedKept(p, flags, flags2, order, c);
      }
    }
  }

  lemma {:induction false} DecideAll(p: Types, flags: set<Id>, order: seq<Id>, list: seq<Id>)
    requires Decided(p, flags, order)
    requires forall i, k :: 0 <= i < k < |list| ==> list[i] != list[k]
    requires forall c :: c in list ==> c in p.script && c in flags && c !in order
    ensures Decided(p, Marked(p, flags, list), order + list)
    decreases |list|
  {
    hide NeedsGc, Decided;
    if list == [] {
      assert order + list == order;
    } else {
      var c := list[0];
      var flags2 := if NeedsGc(p, flags, c) then flags + {c} else flags - {c};
      DecideOne(p, flags, order, c);
      assert forall k :: 0 <= k < |list[1..]| ==> list[1..][k] == list[k + 1];
      DecideAll(p, flags2, order + [c], list[1..]);
      assert order + list == (order + [c]) + list[1..];
    }
  }

  // ---- A cleared class is on no cycle ----

  /** Where a path from the cleared class order[b] can get to. */
  ghost predicate Zone(p: Types, flags: set<Id>, order: seq<Id>, b: nat, x: Id)
    requires b <= |order|
  {
    Fine(p, flags, order[..b], x) || Harmless(p, flags, order[..b], x)
  }

  /** A type that cannot be inherited from is nobody's base. */
  lemma {:induction false} NoHeirs(p: Types, x: Id, y: Id, n: nat)
    requires p.HeirsAllowed() && (y !in p.script || y in p.final) && Above(p.derivedFrom, x, y, n)
    ensures x == y
    decreases n
  {
    if n > 0 { NoHeirs(p, p.derivedFrom[x], y, n - 1); }
  }

  lemma OnlyItself(p: Types, b: Id, t: Id)
    requires p.HeirsAllowed() && (t !in p.script || t in p.final) && p.StandsFor(b, t)
    ensures b == t
  {
    if Inherits(p.derivedFrom, b, t) {
      var n: nat :| Above(p.derivedFrom, b, t, n);
      NoHeirs(p, b, t, n);
    }
  }

  lemma FineShrinks(p: Types, flags: set<Id>, order: seq<Id>, a: nat, b: nat, x: Id)
    requires a <= b <= |order| && Zone(p, flags, order, a, x)
    ensures Zone(p, flags, order, b, x)
  {
    assert forall c :: c in order[..a] ==> c in order[..b];
  }

  lemma FromCleared(p: Types, flags: set<Id>, order: seq<Id>, b: nat, y: Id)
    requires p.HeirsAllowed() && Decided(p, flags, order) && b < |order| && order[b] !in flags && MayRef(p, flags, order[b], y)
    ensures if Value(y) in p.Props(order[b]) then Fine(p, flags, order[..b], y) else
      Handle(y) in p.Props(order[b]) && (Fine(p, flags, order[..b], y) || Harmless(p, flags, order[..b], y))
  {
    var c := order[b];
    assert Cleared(p, flags, order[..b], c);
    if Value(y) !in p.Props(c) {
      var t :| Handle(t) in p.Props(c) && p.StandsFor(y, t);
      OnlyItself(p, y, t);
    }
  }

  lemma ZoneStep(p: Types, flags: set<Id>, order: seq<Id>, b: nat, x: Id, y: Id)
    requires p.HeirsAllowed() && Decided(p, flags, order) && b <= |order| && Zone(p, flags, order, b, x) && MayRef(p, flags, x, y)
    ensures Zone(p, flags, order, b, y)
    ensures x in p.script && !Fine(p, flags, order[..b], x) ==> Fine(p, flags, order[..b], y)
  {
    if Fine(p, flags, order[..b], x) {
      var k :| 0 <= k < |order[..b]| && order[..b][k] == x;
      FromCleared(p, flags, order, k, y);
      FineShrinks(p, flags, order, k, b, y);
    } else if Value(y) !in p.Props(x) {
      var t :| Handle(t) in p.Props(x) && p.StandsFor(y, t);
      OnlyItself(p, y, t);
    }
  }

  lemma {:induction false} ZoneClosed(p: Types, flags: set<Id>, order: seq<Id>, b: nat, path: seq<Id>)
    requires p.HeirsAllowed() && Decided(p, flags, order) && b <= |order| && Path(p, flags, path) && Zone(p, flags, order, b, path[0])
    ensures Zone(p, flags, order, b, path[|path| - 1])
    decreases |path|
  {
    if |path| > 1 {
      assert MayRef(p, flags, path[0], path[0 + 1]);
      ZoneStep(p, flags, order, b, path[0], path[1]);
      TailPath(p, flags, path);
      ZoneClosed(p, flags, order, b, path[1..]);
    }
  }

  lemma TailPath(p: Types, flags: set<Id>, path: seq<Id>)
    requires Path(p, flags, path) && |path| > 1
    ensures Path(p, flags, path[1..])
  {
    forall n | 0 <= n < |path[1..]| - 1 ensures MayRef(p, flags, path[1..][n], path[1..][n + 1]) {
      assert MayRef(p, flags, path[n + 1], path[n + 1 + 1]);
    }
  }

  /** The cycle seen from the class before the last. */
  lemma Rotated(p: Types, flags: set<Id>, path: seq<Id>) returns (r: seq<Id>)
    requires Path(p, flags, path) && |path| > 1 && path[0] == path[|path| - 1]
    ensures Path(p, flags, r) && |r| == |path| && r[0] == path[|path| - 2] && r[|r| - 1] == path[|path| - 2] && r[1] == path[0]
  {
    var m := |path| - 2;
    assert MayRef(p, flags, path[m], path[m + 1]);
    r := [path[m]] + path[..m + 1];
    forall n | 0 <= n < |r| - 1 ensures MayRef(p, flags, r[n], r[n + 1]) {
      if n > 0 { assert MayRef(p, flags, path[n - 1], path[n - 1 + 1]); }
    }
  }

  /** A path back to order[b] ends with a class that is itself cleared and was decided earlier (it can only refer to order[b] by a
      handle). */
  lemma EntersByHandle(p: Types, flags: set<Id>, order: seq<Id>, b: nat, path: seq<Id>) returns (w: nat)
    requires p.HeirsAllowed() && Decided(p, flags, order) && b < |order| && order[b] !in flags
    requires Path(p, flags, path) && |path| > 1 && path[0] == order[b] && path[|path| - 1] == order[b]
    ensures w < b && order[w] == path[|path| - 2] && order[w] !in flags
  {
    var c := order[b];
    var last := path[|path| - 2];
    assert MayRef(p, flags, path[0], path[0 + 1]);
    FromCleared(p, flags, order, b, path[1]);
    assert MayRef(p, flags, path[|path| - 2], path[|path| - 2 + 1]);
    NotBefore(p, flags, order, b);
    if |path| > 2 {
      TailPath(p, flags, path);
      var init := path[1..|path| - 1];
      assert Path(p, flags, init) by {
        forall n | 0 <= n < |init| - 1 ensures MayRef(p, flags, init[n], init[n + 1]) { assert MayRef(p, flags, path[n + 1], path[n + 1 + 1]); }
      }
      ZoneClosed(p, flags, order, b, init);
      ZoneStep(p, flags, order, b, last, c);
      w :| 0 <= w < |order[..b]| && order[..b][w] == last;
    }
  }

  lemma NotBefore(p: Types, flags: set<Id>, order: seq<Id>, b: nat)
    requires Decided(p, flags, order) && b < |order|
    ensures order[b] !in order[..b] && !Fine(p, flags, order[..b], order[b])
  {
  }

  lemma {:induction false} NoCycleAt(p: Types, flags: set<Id>, order: seq<Id>, b: nat, path: seq<Id>)
    requires p.HeirsAllowed() && Decided(p, flags, order) && b < |order| && order[b] !in flags
    requires Path(p, flags, path) && |path| > 1 && path[0] == order[b]
    ensures path[|path| - 1] != order[b]
    decreases b
  {
    if path[|path| - 1] == order[b] {
      var w := EntersByHandle(p, flags, order, b, path);
      var r := Rotated(p, flags, path);
      NoCycleAt(p, flags, order, w, r);
    }
  }

  /** Whatever the order of the classes: a class the pass took from the garbage collector is on no circular reference. */
  lemma ClearedOnNoCycle(p: Types, flags: set<Id>, earlier: seq<Id>, list: seq<Id>, c: Id)
    requires p.HeirsAllowed() && Decided(p, flags, earlier)
    requires forall i, k :: 0 <= i < k < |list| ==> list[i] != list[k]
    requires forall x :: x in list ==> x in p.script && x in flags && x !in earlier
    requires c in p.script && c !in Marked(p, flags, list)
    ensures !OnCycle(p, Marked(p, flags, list), c)
  {
    hide MayRef, Decided, OnCycle;
    DecideAll(p, flags, earlier, list);
    NotOnCycle(p, Marked(p, flags, list), earlier + list, c);
  }

  lemma NotOnCycle(p: Types, flags: set<Id>, order: seq<Id>, c: Id)
    requires p.HeirsAllowed() && Decided(p, flags, order) && c in p.script && c !in flags
    ensures !OnCycle(p, flags, c)
  {
    var b :| 0 <= b < |order| && order[b] == c;
    forall path | Path(p, flags, path) && |path| > 1 && path[0] == c ensures path[|path| - 1] != c {
      NoCycleAt(p, flags, order, b, path);
    }
  }

  /** Interfaces and classes that nothing was decided about keep their flag. */
  lemma {:induction false} MarkedElsewhere(p: Types, flags: set<Id>, list: seq<Id>, c: Id)
    requires c !in list
    ensures c in Marked(p, flags, list) <==> c in flags
    decreases |list|
  {
    if list != [] { MarkedElsewhere(p, if NeedsGc(p, flags, list[0]) then flags + {list[0]} else flags - {list[0]}, list[1..], c); }
  }

  /** The classes of one compilation and the types they use. */
  class FlagPass {
    const types: Types
    // Types with asOBJ_GC
    var flags: set<Id>

    /** New script classes carry the flag from their registration on. */
    constructor (types: Types, flags: set<Id>)
      ensures this.types == types && this.flags == flags
    {
      this.types, this.flags := types, flags;
    }

    /** Looks into a final class behind a handle. */
    method FinalClassLeadsOn(t: Id) returns (gc: bool)
      ensures gc <==> exists sp :: sp in types.Props(t) && LeadsOn(types, flags, sp)
    {
      var props := types.Props(t);
      var sp := 0;
      while sp < |props|
        invariant 0 <= sp <= |props| && forall k :: 0 <= k < sp ==> !LeadsOn(types, flags, props[k])
      {
        match props[sp] {
          case Primitive =>
          case Handle(u) => if u in types.script || u in flags { assert LeadsOn(types, flags, props[sp]); return true; }
          case Value(u) => if u in flags { assert LeadsOn(types, flags, props[sp]); return true; }
        }
        sp := sp + 1;
      }
      return false;
    }

    method CanFormCircle(c: Id) returns (gc: bool)
      ensures gc <==> NeedsGc(types, flags, c)
    {
      var props := types.Props(c);
      var n := 0;
      while n < |props|
        invariant 0 <= n <= |props| && forall k :: 0 <= k < n ==> !Risky(types, flags, props[k])
      {
        match props[n] {
          case Primitive =>
          case Handle(t) =>
            if t in types.script {
              if t in types.final {
                var leads := FinalClassLeadsOn(t);
                if leads { assert Risky(types, flags, props[n]); return true; }
              } else {
                assert Risky(types, flags, props[n]);
                return true;
              }
            } else if t in flags {
              assert Risky(types, flags, props[n]);
              return true;
            }
          case Value(t) => if t in flags { assert Risky(types, flags, props[n]); return true; }
        }
        n := n + 1;
      }
      return false;
    }

    /** The pass over the class declarations. Shared classes that exist already keep what they have. Of each other class, with
        the flags as they stood when its turn came: it carries the flag afterwards exactly if it holds by value a type with the
        flag, or has a handle to an application type with the flag, to a class that can be inherited from, or to a final class
        that holds by value a type with the flag or has a handle to a script class or a type with the flag. */
    method MarkClasses(declarations: seq<Id>, existingShared: set<Id>)
      modifies this
      ensures flags == Marked(types, old(flags), NewOnes(declarations, existingShared))
      ensures forall c :: c !in declarations || c in existingShared ==> (c in flags <==> c in old(flags))
      ensures (forall i, k :: 0 <= i < k < |declarations| ==> declarations[i] != declarations[k]) ==>
        forall n: nat {:trigger declarations[n]} :: n < |declarations| && declarations[n] !in existingShared ==>
          var c, f := declarations[n], Standing(old(flags), flags, declarations[..n]);
          c in flags <==>
            exists prop :: prop in types.Props(c) &&
              match prop
              case Primitive => false
              case Value(t) => t in f
              case Handle(t) =>
                if t !in types.script then t in f
                else if t !in types.final then true
                else exists u :: (Value(u) in types.Props(t) && u in f) || (Handle(u) in types.Props(t) && (u in types.script || u in f))
    {
      ghost var target := Marked(types, flags, NewOnes(declarations, existingShared));
      ghost var history := [flags];
      assert declarations[0..] == declarations;
      var n := 0;
      while n < |declarations|
        invariant 0 <= n <= |declarations|
        invariant Marked(types, flags, NewOnes(declarations[n..], existingShared)) == target
        invariant |history| == n + 1 && history[0] == old(flags) && history[n] == flags
        invariant Passed(types, history, declarations[..n], existingShared)
      {
        ghost var rest := NewOnes(declarations[n + 1..], existingShared);
        assert declarations[n..][1..] == declarations[n + 1..];
        if declarations[n] !in existingShared {
          assert NewOnes(declarations[n..], existingShared) == [declarations[n]] + rest;
          MarkedStep(types, flags, declarations[n], rest);
          var gc := CanFormCircle(declarations[n]);
          flags := if gc then flags + {declarations[n]} else flags - {declarations[n]};
        } else {
          assert NewOnes(declarations[n..], existingShared) == rest;
        }
        PassedOne(types, history, declarations[..n], existingShared, declarations[n], flags);
        assert declarations[..n + 1] == declarations[..n] + [declarations[n]];
        history := history + [flags];
        n := n + 1;
      }
      assert declarations[..n] == declarations;
      forall c | c !in declarations || c in existingShared ensures c in flags <==> c in old(flags) {
        Untouched(types, history, declarations, existingShared, c, 0, n);
      }
      if forall i, k :: 0 <= i < k < |declarations| ==> declarations[i] != declarations[k] {
        forall k: nat {:trigger declarations[k]} | k < |declarations| && declarations[k] !in existingShared
          ensures declarations[k] in flags <==> NeedsGc(types, Standing(old(flags), flags, declarations[..k]), declarations[k])
        {
          DecidedAt(types, history, declarations, existingShared, k);
        }
      }
    }
  }

  /** The flags when the classes of done have been decided: they have what they are to have, the others what they had. */
  function Standing(before: set<Id>, after: set<Id>, done: seq<Id>): set<Id> {
    set c | c in before + after && c in (if c in done then after else before)
  }

  /** The flags before each class of the list and after the last. */
  ghost predicate Passed(p: Types, history: seq<set<Id>>, list: seq<Id>, existing: set<Id>) {
    && |history| == |list| + 1
    && forall m: nat {:trigger list[m]} :: m < |list| ==>
         history[m + 1] == if list[m] in existing then history[m]
                           else if NeedsGc(p, history[m], list[m]) then history[m] + {list[m]} else history[m] - {list[m]}
  }

  lemma PassedOne(p: Types, history: seq<set<Id>>, list: seq<Id>, existing: set<Id>, c: Id, flags: set<Id>)
    requires Passed(p, history, list, existing)
    requires var was := history[|list|];
      flags == if c in existing then was else if NeedsGc(p, was, c) then was + {c} else was - {c}
    ensures Passed(p, history + [flags], list + [c], existing)
  {
    hide NeedsGc;
  }

  /** A class that is not decided between two points keeps what it has. */
  lemma {:induction false} Untouched(p: Types, history: seq<set<Id>>, list: seq<Id>, existing: set<Id>, c: Id, i: nat, k: nat)
    requires Passed(p, history, list, existing) && i <= k <= |list| && (c in list[i..k] ==> c in existing)
    ensures c in history[k] <==> c in history[i]
    decreases k
  {
    hide NeedsGc;
    if i < k {
      assert list[i..k] == list[i..k - 1] + [list[k - 1]];
      Untouched(p, history, list, existing, c, i, k - 1);
      assert history[k - 1 + 1] == if list[k - 1] in existing then history[k - 1]
        else if NeedsGc(p, history[k - 1], list[k - 1]) then history[k - 1] + {list[k - 1]} else history[k - 1] - {list[k - 1]};
    }
  }

  lemma DecidedAt(p: Types, history: seq<set<Id>>, list: seq<Id>, existing: set<Id>, k: nat)
    requires Passed(p, history, list, existing) && k < |list| && list[k] !in existing
    requires forall i, j :: 0 <= i < j < |list| ==> list[i] != list[j]
    ensures var after := history[|list|];
      list[k] in after <==> NeedsGc(p, Standing(history[0], after, list[..k]), list[k])
  {
    hide NeedsGc;
    var after := history[|list|];
    forall c ensures c in history[k] <==> c in Standing(history[0], after, list[..k]) {
      assert list[..k] == list[0..k];
      if c in list[..k] {
        Untouched(p, history, list, existing, c, k, |list|);
      } else {
        Untouched(p, history, list, existing, c, 0, k);
      }
    }
    assert history[k] == Standing(history[0], after, list[..k]);
    Untouched(p, history, list, existing, list[k], k + 1, |list|);
    assert history[k + 1] == if NeedsGc(p, history[k], list[k]) then history[k] + {list[k]} else history[k] - {list[k]};
  }

  function NewOnes(declarations: seq<Id>, existingShared: set<Id>): seq<Id> {
    if declarations == [] then []
    else (if declarations[0] in existingShared then [] else [declarations[0]]) + NewOnes(declarations[1..], existingShared)
  }
}
