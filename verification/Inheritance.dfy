/** Which class inherits from which, and the order in which classes are compiled. */
module Inheritance {
  type Id = nat

  /** What the builder knows of a type named as a base: whether it is a script type at all, declared final, an interface
      (which has size zero), or shared. */
  datatype TypeInfo = TypeInfo(isScript: bool, isFinal: bool, isInterface: bool, isShared: bool)

  /** What a name in an inheritance list stands for; of an unknown one the name or its namespace does not exist. What
      interfaces a mixin class brings is not part of this model. */
  datatype Named = Unknown | MixinClass | Type(info: TypeInfo)
  {
    predicate Inheritable() { Type? && info.isScript && !info.isFinal }
  }

  /** depth goes down along every step to a base class. */
  ghost predicate Layered(derivedFrom: map<Id, Id>, depth: Id -> nat) {
    forall x :: x in derivedFrom ==> depth(derivedFrom[x]) < depth(x)
  }

  ghost predicate Acyclic(derivedFrom: map<Id, Id>) {
    exists depth: Id -> nat :: Layered(derivedFrom, depth)
  }

  /** y is x or one of its base classes, n steps up. */
  ghost predicate Above(derivedFrom: map<Id, Id>, x: Id, y: Id, n: nat)
    decreases n
  {
    if n == 0 then x == y else x in derivedFrom && Above(derivedFrom, derivedFrom[x], y, n - 1)
  }

  ghost predicate Inherits(derivedFrom: map<Id, Id>, x: Id, y: Id) {
    exists n: nat :: Above(derivedFrom, x, y, n)
  }

  lemma {:induction false} AboveDepth(d: map<Id, Id>, depth: Id -> nat, x: Id, y: Id, n: nat)
    requires Layered(d, depth) && Above(d, x, y, n)
    ensures depth(y) + n <= depth(x)
    decreases n
  {
    if n > 0 { AboveDepth(d, depth, d[x], y, n - 1); }
  }

  /** No class is its own base class, directly or indirectly. */
  lemma NotItsOwnBase(d: map<Id, Id>, x: Id, n: nat)
    requires Acyclic(d) && n > 0
    ensures !Above(d, x, x, n)
  {
    var depth :| Layered(d, depth);
    if Above(d, x, x, n) { AboveDepth(d, depth, x, x, n); }
  }

  lemma InheritsStep(d: map<Id, Id>, x: Id, y: Id)
    requires x != y
    ensures Inherits(d, x, y) <==> x in d && Inherits(d, d[x], y)
  {
    if x in d && Inherits(d, d[x], y) {
      var n: nat :| Above(d, d[x], y, n);
      assert Above(d, x, y, n + 1);
    }
    if Inherits(d, x, y) {
      var n: nat :| Above(d, x, y, n);
      assert Above(d, d[x], y, n - 1);
    }
  }

  /** Setting a base whose chain does not lead back keeps the relation acyclic. */
  lemma SetBaseAcyclic(d: map<Id, Id>, x: Id, base: Id)
    requires Acyclic(d) && x !in d && !Inherits(d, base, x)
    ensures Acyclic(d[x := base])
  {
    var depth :| Layered(d, depth);
    var below := iset y | Inherits(d, y, x);
    var shifted := (y: Id) => if y in below then depth(y) + depth(base) + 1 else depth(y);
    assert Above(d, x, x, 0);
    var d2 := d[x := base];
    forall y | y in d2 ensures shifted(d2[y]) < shifted(y) {
      if y != x { InheritsStep(d, y, x); }
    }
    assert Layered(d2, shifted);
  }

  /** And a base whose chain leads back would not. */
  lemma SetBaseCyclic(d: map<Id, Id>, x: Id, base: Id)
    requires x !in d && Inherits(d, base, x)
    ensures !Acyclic(d[x := base])
  {
    var d2 := d[x := base];
    var n: nat :| Above(d, base, x, n);
    AboveMore(d, d2, base, x, n);
    assert Above(d2, x, x, n + 1);
    if Acyclic(d2) { NotItsOwnBase(d2, x, n + 1); }
  }

  lemma {:induction false} AboveMore(d: map<Id, Id>, d2: map<Id, Id>, x: Id, y: Id, n: nat)
    requires Above(d, x, y, n) && forall z :: z in d ==> z in d2 && d2[z] == d[z]
    ensures Above(d2, x, y, n)
    decreases n
  {
    if n > 0 { AboveMore(d, d2, d[x], y, n - 1); }
  }

  // ---- Ordering ----

  /** The class at k has no base further down the list. */
  predicate Settled(d: map<Id, Id>, s: seq<Id>, k: nat)
    requires k < |s|
  {
    s[k] in d ==> d[s[k]] !in s[k + 1..]
  }

  predicate BasesFirst(d: map<Id, Id>, s: seq<Id>) {
    forall k :: 0 <= k < |s| ==> Settled(d, s, k)
  }

  /** The distance to the first class of s whose base is not in s. */
  ghost function FirstFree(d: map<Id, Id>, s: seq<Id>, t: seq<Id>): nat {
    if t == [] || !(t[0] in d && d[t[0]] in s) then 0 else 1 + FirstFree(d, s, t[1..])
  }

  ghost predicate HasFree(d: map<Id, Id>, s: seq<Id>) {
    exists k :: 0 <= k < |s| && !(s[k] in d && d[s[k]] in s)
  }

  /** In an acyclic relation some class of a nonempty list has no base in it: one of least depth. */
  lemma {:induction false} SomeFree(d: map<Id, Id>, depth: Id -> nat, s: seq<Id>, k: nat)
    requires Layered(d, depth) && k < |s|
    ensures HasFree(d, s)
    decreases depth(s[k])
  {
    if s[k] in d && d[s[k]] in s {
      var m :| 0 <= m < |s| && s[m] == d[s[k]];
      SomeFree(d, depth, s, m);
    }
  }

  lemma {:induction false} FirstFreeAppend(d: map<Id, Id>, s: seq<Id>, t: seq<Id>, u: seq<Id>)
    requires exists k :: 0 <= k < |t| && !(t[k] in d && d[t[k]] in s)
    ensures FirstFree(d, s, t + u) == FirstFree(d, s, t)
    decreases |t|
  {
    assert (t + u)[0] == t[0] && (t + u)[1..] == t[1..] + u;
    if t[0] in d && d[t[0]] in s {
      var k :| 0 <= k < |t| && !(t[k] in d && d[t[k]] in s);
      assert t[1..][k - 1] == t[k];
      FirstFreeAppend(d, s, t[1..], u);
    }
  }

  lemma {:induction false} FirstFreeSameSet(d: map<Id, Id>, s: seq<Id>, s2: seq<Id>, t: seq<Id>)
    requires forall x :: x in s <==> x in s2
    ensures FirstFree(d, s, t) == FirstFree(d, s2, t)
    decreases |t|
  {
    if t != [] { FirstFreeSameSet(d, s, s2, t[1..]); }
  }

  /** Moving a class that is not free from the front of a list to its end brings the first free class nearer. */
  lemma RotateNearer(d: map<Id, Id>, s: seq<Id>)
    requires Acyclic(d) && |s| > 0 && s[0] in d && d[s[0]] in s
    ensures FirstFree(d, s[1..] + [s[0]], s[1..] + [s[0]]) < FirstFree(d, s, s)
  {
    var depth :| Layered(d, depth);
    SomeFree(d, depth, s, 0);
    var k :| 0 <= k < |s| && !(s[k] in d && d[s[k]] in s);
    assert s[1..][k - 1] == s[k];
    FirstFreeAppend(d, s, s[1..], [s[0]]);
    var r := s[1..] + [s[0]];
    assert s == [s[0]] + s[1..];
    assert forall x :: x in s <==> x in r;
    FirstFreeSameSet(d, s, r, r);
  }

  /** The names that get an error. */
  ghost predicate Refused(d: map<Id, Id>, decl: Id, isShared: bool, existing: bool, name: Id, named: Named, hadMultiple: bool) {
    match named
    case MixinClass => false
    case Unknown => true
    case Type(info) =>
      || !info.isScript || info.isFinal
      || (!info.isInterface &&
          if !existing && decl in d then !hadMultiple
          else Inherits(d, name, decl) || (isShared && !info.isShared) || (existing && !(decl in d && d[decl] == name)))
  }

  class Hierarchy {
    var classDeclarations: seq<Id>
    var derivedFrom: map<Id, Id>
    var numErrors: nat

    constructor (classDeclarations: seq<Id>, derivedFrom: map<Id, Id>)
      ensures this.classDeclarations == classDeclarations && this.derivedFrom == derivedFrom && numErrors == 0
    {
      this.classDeclarations, this.derivedFrom, numErrors := classDeclarations, derivedFrom, 0;
    }

    /** Walks up from base to see whether the class is met. */
    method LeadsBack(base: Id, decl: Id) returns (r: bool)
      requires Acyclic(derivedFrom)
      ensures r <==> Inherits(derivedFrom, base, decl)
    {
      ghost var depth: Id -> nat :| Layered(derivedFrom, depth);
      var b := base;
      while true
        invariant Inherits(derivedFrom, base, decl) <==> Inherits(derivedFrom, b, decl)
        decreases depth(b)
      {
        if b == decl {
          assert Above(derivedFrom, b, decl, 0);
          return true;
        }
        InheritsStep(derivedFrom, b, decl);
        if b !in derivedFrom { return false; }
        b := derivedFrom[b];
      }
    }

    /** One name in the inheritance list of a class. Returns whether it was taken as the base class, and whether as an
        interface. existing is set for a shared class declared before. */
    method InheritFrom(decl: Id, isShared: bool, existing: bool, name: Id, named: Named, hadMultiple: bool)
      returns (tookBase: bool, tookInterface: bool, multiple: bool)
      requires Acyclic(derivedFrom)
      modifies this`derivedFrom, this`numErrors
      ensures Acyclic(derivedFrom)
      ensures tookBase <==> (
        && named.Inheritable() && !named.info.isInterface && !existing
        && decl !in old(derivedFrom) && !Inherits(old(derivedFrom), name, decl) && (isShared ==> named.info.isShared))
      ensures derivedFrom == if tookBase then old(derivedFrom)[decl := name] else old(derivedFrom)
      ensures tookInterface <==> named.Inheritable() && named.info.isInterface
      // One error or none, and a class is told only once that it has more than one base
      ensures numErrors == old(numErrors) + if Refused(old(derivedFrom), decl, isShared, existing, name, named, hadMultiple) then 1 else 0
      ensures multiple <==> hadMultiple || (named.Inheritable() && !named.info.isInterface && !existing && decl in old(derivedFrom))
    {
      tookBase, tookInterface, multiple := false, false, hadMultiple;
      if named.MixinClass? { return; }
      if named.Unknown? || !named.info.isScript || named.info.isFinal {
        numErrors := numErrors + 1;
      } else if !named.info.isInterface {
        if !existing && decl in derivedFrom {
          if !multiple {
            numErrors := numErrors + 1;
            multiple := true;
          }
        } else {
          var error := LeadsBack(name, decl);
          if !error && isShared && !named.info.isShared {
            error := true;
          }
          if error {
            numErrors := numErrors + 1;
          } else if existing {
            if !(decl in derivedFrom && derivedFrom[decl] == name) { numErrors := numErrors + 1; }
          } else {
            SetBaseAcyclic(derivedFrom, decl, name);
            derivedFrom := derivedFrom[decl := name];
            tookBase := true;
          }
        }
      } else {
        tookInterface := true;
      }
    }

    method BaseIsLater(n: nat) returns (later: bool)
      requires n < |classDeclarations|
      ensures later <==> !Settled(derivedFrom, classDeclarations, n)
    {
      var decl := classDeclarations[n];
      if decl !in derivedFrom { return false; }
      var m := n + 1;
      while m < |classDeclarations|
        invariant n < m <= |classDeclarations|
        invariant derivedFrom[decl] !in classDeclarations[n + 1..m]
      {
        if derivedFrom[decl] == classDeclarations[m] {
          assert classDeclarations[n + 1..][m - n - 1] == classDeclarations[m];
          return true;
        }
        assert classDeclarations[n + 1..m + 1] == classDeclarations[n + 1..m] + [classDeclarations[m]];
        m := m + 1;
      }
      later := false;
    }

    /** Moves classes to the end of the list until no class precedes its base. */
    method OrderClasses()
      requires Acyclic(derivedFrom)
      modifies this`classDeclarations
      ensures multiset(classDeclarations) == multiset(old(classDeclarations))
      ensures BasesFirst(derivedFrom, classDeclarations)
      ensures old(BasesFirst(derivedFrom, classDeclarations)) ==> classDeclarations == old(classDeclarations)
    {
      hide Acyclic, FirstFree;
      var n := 0;
      while n < |classDeclarations|
        invariant 0 <= n <= |classDeclarations|
        invariant multiset(classDeclarations) == multiset(old(classDeclarations))
        invariant forall k :: 0 <= k < n ==> Settled(derivedFrom, classDeclarations, k)
        invariant old(BasesFirst(derivedFrom, classDeclarations)) ==> classDeclarations == old(classDeclarations)
        decreases |classDeclarations| - n, FirstFree(derivedFrom, classDeclarations[n..], classDeclarations[n..])
      {
        var later := BaseIsLater(n);
        if later { assert !Settled(derivedFrom, classDeclarations, n); }
        if later {
          ghost var was := classDeclarations;
          classDeclarations := classDeclarations[..n] + classDeclarations[n + 1..] + [classDeclarations[n]];
          Rotated(derivedFrom, was, n);
        } else {
          n := n + 1;
        }
      }
    }
  }

  lemma Rotated(d: map<Id, Id>, s: seq<Id>, n: nat)
    requires Acyclic(d) && n < |s| && s[n] in d && d[s[n]] in s[n + 1..]
    requires forall k :: 0 <= k < n ==> Settled(d, s, k)
    ensures var t := s[..n] + s[n + 1..] + [s[n]];
      && |t| == |s| && multiset(t) == multiset(s)
      && (forall k :: 0 <= k < n ==> Settled(d, t, k))
      && FirstFree(d, t[n..], t[n..]) < FirstFree(d, s[n..], s[n..])
  {
    var t := s[..n] + s[n + 1..] + [s[n]];
    assert s == s[..n] + [s[n]] + s[n + 1..];
    assert s[n..] == [s[n]] + s[n + 1..];
    assert t[n..] == s[n..][1..] + [s[n..][0]];
    RotateNearer(d, s[n..]);
    forall k | 0 <= k < n ensures Settled(d, t, k) { SettledRotated(d, s, t, n, k); }
  }

  lemma SettledRotated(d: map<Id, Id>, s: seq<Id>, t: seq<Id>, n: nat, k: nat)
    requires k < n < |s| && t == s[..n] + s[n + 1..] + [s[n]] && Settled(d, s, k)
    ensures Settled(d, t, k)
  {
    var a, b := s[k + 1..], t[k + 1..];
    assert a == s[k + 1..n] + [s[n]] + s[n + 1..];
    assert b == s[k + 1..n] + s[n + 1..] + [s[n]];
    assert forall x :: x in b ==> x in a;
  }
}
