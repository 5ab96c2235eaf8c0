/** Virtual function tables: how they are laid out for each class and what a virtual call runs. */
module VTables {
  import opened Options
  import opened Inheritance

  /** A declared function, or the stub that stands for it in a method list and holds its table index. */
  datatype Func = Real(id: nat, sig: nat, isFinal: bool) | Virtual(sig: nat, isFinal: bool, vfTableIdx: nat)

  predicate HasSig(s: seq<Func>, sig: nat) {
    exists k :: 0 <= k < |s| && s[k].sig == sig
  }

  predicate DistinctSigs(s: seq<Func>) {
    forall i, k :: 0 <= i < k < |s| ==> s[i].sig != s[k].sig
  }

  predicate AllReal(s: seq<Func>) {
    forall k :: 0 <= k < |s| ==> s[k].Real?
  }

  // ---- What a class should call ----

  /** The declared methods of each class, and its base. */
  datatype Program = Program(own: map<Id, seq<Func>>, derivedFrom: map<Id, Id>)

  /** c declares f for the signature, n steps above d, and no class nearer to d declares it. */
  ghost predicate DeclaredAt(p: Program, d: Id, sig: nat, f: Func, c: Id, n: nat) {
    && Above(p.derivedFrom, d, c, n) && c in p.own && f in p.own[c] && f.sig == sig
    && forall b: Id, m: nat :: m < n && Above(p.derivedFrom, d, b, m) ==> b in p.own && !HasSig(p.own[b], sig)
  }

  ghost predicate IsNearest(p: Program, d: Id, sig: nat, f: Func) {
    exists c, n: nat :: DeclaredAt(p, d, sig, f, c, n)
  }

  lemma NearestOwn(p: Program, d: Id, f: Func)
    requires d in p.own && f in p.own[d]
    ensures IsNearest(p, d, f.sig, f)
  {
    assert DeclaredAt(p, d, f.sig, f, d, 0);
  }

  lemma NearestInherited(p: Program, d: Id, sig: nat, f: Func)
    requires d in p.own && !HasSig(p.own[d], sig) && d in p.derivedFrom && IsNearest(p, p.derivedFrom[d], sig, f)
    ensures IsNearest(p, d, sig, f)
  {
    var c, n: nat :| DeclaredAt(p, p.derivedFrom[d], sig, f, c, n);
    forall b: Id, m: nat | m < n + 1 && Above(p.derivedFrom, d, b, m) ensures b in p.own && !HasSig(p.own[b], sig) {
      if m > 0 { assert Above(p.derivedFrom, p.derivedFrom[d], b, m - 1); }
    }
    assert DeclaredAt(p, d, sig, f, c, n + 1);
  }

  /** With distinct signatures in each class there is at most one nearest declaration. */
  lemma NearestUnique(p: Program, d: Id, sig: nat, f: Func, g: Func)
    requires IsNearest(p, d, sig, f) && IsNearest(p, d, sig, g)
    requires forall c :: c in p.own ==> DistinctSigs(p.own[c])
    ensures f == g
  {
    var c, n: nat :| DeclaredAt(p, d, sig, f, c, n);
    var e, m: nat :| DeclaredAt(p, d, sig, g, e, m);
    assert HasSig(p.own[c], sig) && HasSig(p.own[e], sig);
    assert n == m;
    AboveUnique(p.derivedFrom, d, c, e, n);
  }

  lemma {:induction false} AboveUnique(d: map<Id, Id>, x: Id, y: Id, z: Id, n: nat)
    requires Above(d, x, y, n) && Above(d, x, z, n)
    ensures y == z
    decreases n
  {
    if n > 0 { AboveUnique(d, d[x], y, z, n - 1); }
  }

  /** c declares f for the signature, n steps above d, and no class further up declares it. */
  ghost predicate FirstDeclaredAt(p: Program, d: Id, sig: nat, f: Func, c: Id, n: nat) {
    && Above(p.derivedFrom, d, c, n) && c in p.own && f in p.own[c] && f.sig == sig
    && forall b: Id, m: nat :: m > n && Above(p.derivedFrom, d, b, m) ==> b in p.own && !HasSig(p.own[b], sig)
  }

  ghost predicate IsTopmost(p: Program, d: Id, sig: nat, f: Func) {
    exists c, n: nat :: FirstDeclaredAt(p, d, sig, f, c, n)
  }

  lemma TopmostInherited(p: Program, d: Id, sig: nat, f: Func)
    requires d in p.derivedFrom && IsTopmost(p, p.derivedFrom[d], sig, f)
    ensures IsTopmost(p, d, sig, f)
  {
    var c, n: nat :| FirstDeclaredAt(p, p.derivedFrom[d], sig, f, c, n);
    forall b: Id, m: nat | m > n + 1 && Above(p.derivedFrom, d, b, m) ensures b in p.own && !HasSig(p.own[b], sig) {
      assert Above(p.derivedFrom, p.derivedFrom[d], b, m - 1);
    }
    assert FirstDeclaredAt(p, d, sig, f, c, n + 1);
  }

  /** With distinct signatures in each class there is at most one topmost declaration. */
  lemma TopmostUnique(p: Program, d: Id, sig: nat, f: Func, g: Func)
    requires IsTopmost(p, d, sig, f) && IsTopmost(p, d, sig, g)
    requires forall c, n: nat :: Above(p.derivedFrom, d, c, n) ==> c in p.own && DistinctSigs(p.own[c])
    ensures f == g
  {
    var c, n: nat :| FirstDeclaredAt(p, d, sig, f, c, n);
    var e, m: nat :| FirstDeclaredAt(p, d, sig, g, e, m);
    assert HasSig(p.own[c], sig) && HasSig(p.own[e], sig);
    assert n == m;
    AboveUnique(p.derivedFrom, d, c, e, n);
  }

  /** The methods of d that override one whose first declaration is final. */
  ghost function RefusedIn(p: Program, d: Id): set<Func>
    requires d in p.own
  {
    set f | f in p.own[d] && Overrides(p, d, f)
  }

  ghost predicate Overrides(p: Program, d: Id, f: Func) {
    d in p.derivedFrom && exists g :: IsTopmost(p, p.derivedFrom[d], f.sig, g) && g.isFinal
  }

  // ---- What the builder lays out ----

  /** The functions of own whose signature base does not have, in order. */
  function Rest(own: seq<Func>, base: seq<Func>): seq<Func> {
    if own == [] then []
    else (if HasSig(base, own[0].sig) then [] else [own[0]]) + Rest(own[1..], base)
  }

  /** The table entry for the inherited stub b: the class' own function if it has one, else the base's. */
  function Entry(own: seq<Func>, b: Func, inherited: Func): Func {
    match FindSig(own, b.sig, 0) case Some(i) => own[i] case None => inherited
  }

  function FindSig(s: seq<Func>, sig: nat, i: nat): (r: Option<nat>)
    requires i <= |s|
    ensures r.Some? ==> i <= r.value < |s| && s[r.value].sig == sig && forall k :: i <= k < r.value ==> s[k].sig != sig
    ensures r.None? ==> forall k :: i <= k < |s| ==> s[k].sig != sig
    decreases |s| - i
  {
    if i == |s| then None else if s[i].sig == sig then Some(i) else FindSig(s, sig, i + 1)
  }

  function Stubs(fs: seq<Func>, at: nat): (r: seq<Func>)
    ensures |r| == |fs| && forall k :: 0 <= k < |fs| ==> r[k] == Virtual(fs[k].sig, fs[k].isFinal, at + k)
  {
    seq(|fs|, k requires 0 <= k < |fs| => Virtual(fs[k].sig, fs[k].isFinal, at + k))
  }

  lemma {:induction false} RestIs(own: seq<Func>, base: seq<Func>)
    requires DistinctSigs(own)
    ensures DistinctSigs(Rest(own, base))
    ensures forall f :: f in Rest(own, base) <==> f in own && !HasSig(base, f.sig)
    decreases |own|
  {
    if own != [] {
      assert own == [own[0]] + own[1..];
      RestIs(own[1..], base);
      var r := Rest(own[1..], base);
      forall k | 0 <= k < |r| ensures r[k].sig != own[0].sig {
        assert r[k] in own[1..];
        var j :| 0 <= j < |own[1..]| && own[1..][j] == r[k];
      }
    }
  }

  lemma HasSigPush(s: seq<Func>, f: Func, sig: nat)
    ensures HasSig(s + [f], sig) <==> HasSig(s, sig) || f.sig == sig
  {
    if HasSig(s, sig) { var k :| 0 <= k < |s| && s[k].sig == sig; assert (s + [f])[k].sig == sig; }
    assert (s + [f])[|s|] == f;
    if HasSig(s + [f], sig) { var k :| 0 <= k < |s + [f]| && (s + [f])[k].sig == sig; assert k < |s| ==> s[k].sig == sig; }
  }

  /** Without the entry that a search finds. */
  function Without(s: seq<Func>, sig: nat): seq<Func> {
    match FindSig(s, sig, 0) case Some(i) => s[..i] + s[i + 1..] case None => s
  }

  lemma WithoutCons(f: Func, s: seq<Func>, sig: nat)
    ensures Without([f] + s, sig) == if f.sig == sig then s else [f] + Without(s, sig)
  {
    var t := [f] + s;
    if f.sig == sig {
      assert FindSig(t, sig, 0) == Some(0);
      assert t[..0] + t[1..] == s;
    } else {
      FindSigShift(f, s, sig);
      var i := FindSig(s, sig, 0);
      if i.Some? { assert t[..i.value + 1] + t[i.value + 2..] == [f] + (s[..i.value] + s[i.value + 1..]); }
    }
  }

  lemma WithoutNone(s: seq<Func>, sig: nat)
    requires !HasSig(s, sig)
    ensures Without(s, sig) == s
  {
  }

  /** One more base method: the own function of that signature leaves the list, if there is one. */
  lemma {:induction false} RestPush(own: seq<Func>, base: seq<Func>, b: Func)
    requires DistinctSigs(own) && !HasSig(base, b.sig)
    ensures Rest(own, base + [b]) == Without(Rest(own, base), b.sig)
    decreases |own|
  {
    hide Without, FindSig;
    if own == [] {
      WithoutNone([], b.sig);
    } else {
      var r := Rest(own[1..], base);
      HasSigPush(base, b, own[0].sig);
      RestPush(own[1..], base, b);
      if own[0].sig == b.sig {
        RestIs(own[1..], base);
        forall k | 0 <= k < |r| ensures r[k].sig != b.sig {
          assert r[k] in own[1..];
          var j :| 0 <= j < |own[1..]| && own[1..][j] == r[k];
        }
        WithoutNone(r, b.sig);
        WithoutCons(own[0], r, b.sig);
      } else if !HasSig(base, own[0].sig) {
        WithoutCons(own[0], r, b.sig);
      } else {
        assert Rest(own, base) == r && Rest(own, base + [b]) == Rest(own[1..], base + [b]);
      }
    }
  }

  lemma FindSigShift(f: Func, s: seq<Func>, sig: nat)
    requires f.sig != sig
    ensures FindSig([f] + s, sig, 0) == match FindSig(s, sig, 0) case Some(i) => Some(i + 1) case None => None
  {
    var r, r2 := FindSig(s, sig, 0), FindSig([f] + s, sig, 0);
    if r.Some? { assert ([f] + s)[r.value + 1] == s[r.value]; }
    if r2.Some? { assert r2.value > 0 && s[r2.value - 1] == ([f] + s)[r2.value]; }
  }

  /** Looking for a signature among the remaining own functions finds the own function that has it. */
  lemma FindInRest(own: seq<Func>, base: seq<Func>, sig: nat)
    requires DistinctSigs(own) && !HasSig(base, sig)
    ensures FindSig(own, sig, 0).Some? <==> FindSig(Rest(own, base), sig, 0).Some?
    ensures FindSig(own, sig, 0).Some? ==> own[FindSig(own, sig, 0).value] == Rest(own, base)[FindSig(Rest(own, base), sig, 0).value]
  {
    RestIs(own, base);
    var i, j := FindSig(own, sig, 0), FindSig(Rest(own, base), sig, 0);
    if i.Some? {
      assert own[i.value] in Rest(own, base);
      var k :| 0 <= k < |Rest(own, base)| && Rest(own, base)[k] == own[i.value];
    }
    if j.Some? {
      assert Rest(own, base)[j.value] in own;
      var k :| 0 <= k < |own| && own[k] == Rest(own, base)[j.value];
    }
  }

  /** The lists of a compiled class: every stub's index is its position, its table entry has its signature and is the
      nearest declaration, signatures are distinct, the base's stubs come first, and every function declared at or above the class has a place. */
  ghost predicate WellBuilt(p: Program, methods: map<Id, seq<Func>>, vtables: map<Id, seq<Func>>, d: Id) {
    && d in methods && d in vtables && d in p.own && |methods[d]| == |vtables[d]| && DistinctSigs(methods[d])
    && (forall k :: 0 <= k < |methods[d]| ==> SlotOk(p, d, methods[d][k], vtables[d][k], k))
    && (d in p.derivedFrom ==> p.derivedFrom[d] in methods && methods[p.derivedFrom[d]] <= methods[d])
    && Covers(p, methods[d], d)
  }

  /** Every function declared at or above d has its signature in the list, and the signatures of each class are distinct. */
  ghost predicate Covers(p: Program, ms: seq<Func>, d: Id) {
    forall b, n: nat :: Above(p.derivedFrom, d, b, n) ==>
      b in p.own && DistinctSigs(p.own[b]) && forall f :: f in p.own[b] ==> HasSig(ms, f.sig)
  }

  /** The stub is final when the first declaration is. */
  ghost predicate SlotOk(p: Program, d: Id, stub: Func, f: Func, k: nat) {
    && stub.Virtual? && stub.vfTableIdx == k && f.Real? && f.sig == stub.sig && IsNearest(p, d, stub.sig, f)
    && exists g :: IsTopmost(p, d, stub.sig, g) && g.isFinal == stub.isFinal
  }

  /** The base's stubs, then stubs for the own functions that override nothing; and the table that goes with them. */
  function Methods(own: seq<Func>, base: seq<Func>): seq<Func> {
    base + Stubs(Rest(own, base), |base|)
  }

  function VTable(own: seq<Func>, base: seq<Func>, baseTable: seq<Func>): seq<Func>
    requires |baseTable| == |base|
  {
    seq(|base|, k requires 0 <= k < |base| => Entry(own, base[k], baseTable[k])) + Rest(own, base)
  }

  lemma LayoutDistinct(own: seq<Func>, base: seq<Func>)
    requires DistinctSigs(own) && DistinctSigs(base)
    ensures DistinctSigs(Methods(own, base))
  {
    RestIs(own, base);
    var r, ms := Rest(own, base), Methods(own, base);
    forall i, k | 0 <= i < k < |ms| ensures ms[i].sig != ms[k].sig {
      if i < |base| <= k { assert r[k - |base|] in r && base[i].sig == ms[i].sig; }
    }
  }

  /** The slots of a class laid out over a well-built base. */
  lemma LayoutSlot(p: Program, d: Id, base: seq<Func>, baseTable: seq<Func>, k: nat)
    requires d in p.own && DistinctSigs(p.own[d]) && AllReal(p.own[d]) && |baseTable| == |base|
    requires d in p.derivedFrom ==> forall i :: 0 <= i < |base| ==> SlotOk(p, p.derivedFrom[d], base[i], baseTable[i], i)
    requires if d in p.derivedFrom then Covers(p, base, p.derivedFrom[d]) else base == []
    requires k < |Methods(p.own[d], base)|
    ensures SlotOk(p, d, Methods(p.own[d], base)[k], VTable(p.own[d], base, baseTable)[k], k)
  {
    var own := p.own[d];
    RestIs(own, base);
    if k < |base| {
      assert SlotOk(p, p.derivedFrom[d], base[k], baseTable[k], k);
      var i := FindSig(own, base[k].sig, 0);
      if i.Some? { NearestOwn(p, d, own[i.value]); } else { NearestInherited(p, d, base[k].sig, baseTable[k]); }
      var g :| IsTopmost(p, p.derivedFrom[d], base[k].sig, g) && g.isFinal == base[k].isFinal;
      TopmostInherited(p, d, base[k].sig, g);
    } else {
      var f := Rest(own, base)[k - |base|];
      assert f in own;
      NearestOwn(p, d, f);
      FirstHere(p, d, base, f);
    }
  }

  /** What no class above has, is first declared here. */
  lemma FirstHere(p: Program, d: Id, base: seq<Func>, f: Func)
    requires d in p.own && f in p.own[d] && !HasSig(base, f.sig)
    requires d in p.derivedFrom ==> Covers(p, base, p.derivedFrom[d])
    ensures IsTopmost(p, d, f.sig, f)
  {
    forall b: Id, m: nat | m > 0 && Above(p.derivedFrom, d, b, m) ensures b in p.own && !HasSig(p.own[b], f.sig) {
      assert Above(p.derivedFrom, p.derivedFrom[d], b, m - 1);
    }
    assert FirstDeclaredAt(p, d, f.sig, f, d, 0);
  }

  lemma LayoutCovers(p: Program, d: Id, base: seq<Func>)
    requires d in p.own && DistinctSigs(p.own[d]) && (d in p.derivedFrom ==> Covers(p, base, p.derivedFrom[d]))
    ensures Covers(p, Methods(p.own[d], base), d)
  {
    hide Methods, HasSig;
    forall b, n: nat | Above(p.derivedFrom, d, b, n) 
      ensures b in p.own && DistinctSigs(p.own[b]) && forall f :: f in p.own[b] ==> HasSig(Methods(p.own[d], base), f.sig)
    {
      if n == 0 {
        forall f | f in p.own[d] ensures HasSig(Methods(p.own[d], base), f.sig) { LayoutHasOwn(p.own[d], base, f); }
      } else {
        assert Above(p.derivedFrom, p.derivedFrom[d], b, n - 1);
        forall f | f in p.own[b] ensures HasSig(Methods(p.own[d], base), f.sig) { LayoutHasBase(p.own[d], base, f.sig); }
      }
    }
  }

  lemma LayoutHasBase(own: seq<Func>, base: seq<Func>, sig: nat)
    requires HasSig(base, sig)
    ensures HasSig(Methods(own, base), sig)
  {
    var k :| 0 <= k < |base| && base[k].sig == sig;
    assert Methods(own, base)[k].sig == sig;
  }

  lemma LayoutHasOwn(own: seq<Func>, base: seq<Func>, f: Func)
    requires DistinctSigs(own) && f in own
    ensures HasSig(Methods(own, base), f.sig)
  {
    RestIs(own, base);
    var ms := Methods(own, base);
    if HasSig(base, f.sig) {
      var k :| 0 <= k < |base| && base[k].sig == f.sig;
      assert ms[k].sig == f.sig;
    } else {
      assert f in Rest(own, base);
      var k :| 0 <= k < |Rest(own, base)| && Rest(own, base)[k] == f;
      assert ms[|base| + k].sig == f.sig;
    }
  }

  lemma LayoutWellBuilt(p: Program, methods: map<Id, seq<Func>>, vtables: map<Id, seq<Func>>, d: Id)
    requires d in p.own && d in methods && d in vtables && DistinctSigs(p.own[d]) && AllReal(p.own[d])
    requires d in p.derivedFrom ==> WellBuilt(p, methods, vtables, p.derivedFrom[d])
    requires var base := if d in p.derivedFrom then methods[p.derivedFrom[d]] else [];
      var table := if d in p.derivedFrom then vtables[p.derivedFrom[d]] else [];
      methods[d] == Methods(p.own[d], base) && vtables[d] == VTable(p.own[d], base, table)
    ensures WellBuilt(p, methods, vtables, d)
  {
    var base := if d in p.derivedFrom then methods[p.derivedFrom[d]] else [];
    var table := if d in p.derivedFrom then vtables[p.derivedFrom[d]] else [];
    LayoutDistinct(p.own[d], base);
    forall k | 0 <= k < |methods[d]| ensures SlotOk(p, d, methods[d][k], vtables[d][k], k) { LayoutSlot(p, d, base, table, k); }
    LayoutCovers(p, d, base);
  }

  /** Compiling another class does not disturb one already built, nor its bases. */
  lemma StaysBuilt(p: Program, m1: map<Id, seq<Func>>, v1: map<Id, seq<Func>>, m2: map<Id, seq<Func>>, v2: map<Id, seq<Func>>, d: Id)
    requires WellBuilt(p, m1, v1, d) && d in m2 && d in v2 && m2[d] == m1[d] && v2[d] == v1[d]
    requires d in p.derivedFrom ==> p.derivedFrom[d] in m2 && m2[p.derivedFrom[d]] == m1[p.derivedFrom[d]]
    ensures WellBuilt(p, m2, v2, d)
  {
  }

  /** The stubs of every class above d are a prefix of those of d. */
  lemma {:induction false} PrefixAbove(p: Program, methods: map<Id, seq<Func>>, vtables: map<Id, seq<Func>>, d: Id, a: Id, n: nat)
    requires Above(p.derivedFrom, d, a, n)
    requires forall b, m: nat :: Above(p.derivedFrom, d, b, m) ==> WellBuilt(p, methods, vtables, b)
    ensures a in methods && d in methods && methods[a] <= methods[d]
    decreases n
  {
    assert Above(p.derivedFrom, d, d, 0);
    if n > 0 {
      var b := p.derivedFrom[d];
      forall c, m: nat | Above(p.derivedFrom, b, c, m) ensures WellBuilt(p, methods, vtables, c) {
        assert Above(p.derivedFrom, d, c, m + 1);
      }
      PrefixAbove(p, methods, vtables, b, a, n - 1);
    }
  }

  /** m2 is m1 with another value at d. */
  ghost predicate OnlyAt(m1: map<Id, seq<Func>>, m2: map<Id, seq<Func>>, d: Id, v: seq<Func>) {
    m2.Keys == m1.Keys && d in m2 && m2[d] == v && forall c :: c in m1 && c != d ==> m2[c] == m1[c]
  }

  lemma TableNext(own: seq<Func>, base: seq<Func>, table: seq<Func>, m: nat)
    requires m < |base| && |table| == |base|
    ensures VTable(own, base, table)[..m] + [Entry(own, base[m], table[m])] == VTable(own, base, table)[..m + 1]
  {
  }

  /** What copying the m-th base method does to the lists. */
  lemma InheritOne(own: seq<Func>, base: seq<Func>, table: seq<Func>, m: nat)
    requires DistinctSigs(own) && DistinctSigs(base) && m < |base| && |table| == |base|
    ensures var r := Rest(own, base[..m]); var i := FindSig(r + base[..m], base[m].sig, 0);
      && Without(r + base[..m], base[m].sig) + [base[m]] == Rest(own, base[..m + 1]) + base[..m + 1]
      && VTable(own, base, table)[..m] + [if i.Some? then (r + base[..m])[i.value] else table[m]] == VTable(own, base, table)[..m + 1]
  {
    hide DistinctSigs, HasSig, FindSig, Rest, VTable;
    var r, b, sig := Rest(own, base[..m]), base[..m], base[m].sig;
    TableNext(own, base, table, m);
    assert base[..m + 1] == b + [base[m]];
    NotBefore(base, m);
    SearchAmong(r, b, sig);
    RestPush(own, b, base[m]);
    FindInRest(own, b, sig);
    var i := FindSig(r, sig, 0);
    if i.Some? { RemoveAmong(r, b, i.value); }
  }

  /** The own functions for whose signature base has a final stub. */
  ghost function OverFinal(own: seq<Func>, base: seq<Func>): set<Func> {
    set f | f in own && HasFinal(base, f.sig)
  }

  ghost predicate HasFinal(base: seq<Func>, sig: nat) {
    exists k :: 0 <= k < |base| && base[k].sig == sig && base[k].isFinal
  }

  lemma HasFinalPush(base: seq<Func>, b: Func, sig: nat)
    ensures HasFinal(base + [b], sig) <==> HasFinal(base, sig) || (b.sig == sig && b.isFinal)
  {
    var t := base + [b];
    assert t[|base|] == b;
    if HasFinal(base, sig) { var k :| 0 <= k < |base| && base[k].sig == sig && base[k].isFinal; assert t[k] == base[k]; }
    if HasFinal(t, sig) { var k :| 0 <= k < |t| && t[k].sig == sig && t[k].isFinal; assert k < |base| ==> base[k] == t[k]; }
  }

  /** The m-th base method adds the function that overrides it, if it is final. */
  lemma FinalOne(own: seq<Func>, base: seq<Func>, m: nat)
    requires DistinctSigs(own) && DistinctSigs(base) && m < |base|
    ensures |OverFinal(own, base[..m + 1])| == |OverFinal(own, base[..m])| +
      if base[m].isFinal && FindSig(Rest(own, base[..m]) + base[..m], base[m].sig, 0).Some? then 1 else 0
  {
    hide HasFinal, Rest;
    var b, sig := base[..m], base[m].sig;
    assert base[..m + 1] == b + [base[m]];
    NotBefore(base, m);
    SearchAmong(Rest(own, b), b, sig);
    FindInRest(own, b, sig);
    forall f | f in own ensures HasFinal(base[..m + 1], f.sig) <==> HasFinal(b, f.sig) || (sig == f.sig && base[m].isFinal) {
      HasFinalPush(b, base[m], f.sig);
    }
    var i := FindSig(own, sig, 0);
    if base[m].isFinal && i.Some? {
      assert OverFinal(own, base[..m + 1]) == OverFinal(own, b) + {own[i.value]};
      NotFinalBefore(b, sig);
    } else {
      assert OverFinal(own, base[..m + 1]) == OverFinal(own, b);
    }
  }

  lemma NotFinalBefore(b: seq<Func>, sig: nat)
    requires !HasSig(b, sig)
    ensures !HasFinal(b, sig)
  {
  }

  /** Over a well-built base those are the ones that override a method first declared final. */
  lemma RefusedOver(p: Program, methods: map<Id, seq<Func>>, vtables: map<Id, seq<Func>>, d: Id)
    requires d in p.own && d in p.derivedFrom && WellBuilt(p, methods, vtables, p.derivedFrom[d])
    requires DistinctSigs(p.own[d])
    ensures OverFinal(p.own[d], methods[p.derivedFrom[d]]) == RefusedIn(p, d)
  {
    hide IsNearest, IsTopmost, DistinctSigs, Covers;
    var b := p.derivedFrom[d];
    CoversDistinct(p, methods[b], b);
    forall f | f in p.own[d] ensures HasFinal(methods[b], f.sig) <==> Overrides(p, d, f) {
      if HasFinal(methods[b], f.sig) {
        var k :| 0 <= k < |methods[b]| && methods[b][k].sig == f.sig && methods[b][k].isFinal;
        assert SlotOk(p, b, methods[b][k], vtables[b][k], k);
      }
      if Overrides(p, d, f) {
        var g :| IsTopmost(p, b, f.sig, g) && g.isFinal;
        TopmostHas(p, b, methods[b], f.sig, g);
        var k :| 0 <= k < |methods[b]| && methods[b][k].sig == f.sig;
        assert SlotOk(p, b, methods[b][k], vtables[b][k], k);
        var g2 :| IsTopmost(p, b, f.sig, g2) && g2.isFinal == methods[b][k].isFinal;
        TopmostUnique(p, b, f.sig, g, g2);
      }
    }
  }

  /** One of the first n classes overrides a method first declared final. */
  ghost predicate SomeRefused(p: Program, order: seq<Id>, built: set<Id>, n: nat)
    requires n <= |order|
  {
    exists k: nat :: k < n && order[k] !in built && order[k] in p.own && RefusedIn(p, order[k]) != {}
  }

  lemma RefusedNext(p: Program, order: seq<Id>, built: set<Id>, n: nat)
    requires n < |order|
    ensures SomeRefused(p, order, built, n + 1) <==>
      SomeRefused(p, order, built, n) || (order[n] !in built && order[n] in p.own && |RefusedIn(p, order[n])| > 0)
  {
    hide RefusedIn;
  }

  lemma RefusedAny(p: Program, order: seq<Id>, built: set<Id>)
    ensures SomeRefused(p, order, built, |order|) <==>
      exists d, f :: d in order && d !in built && d in p.own && f in p.own[d] && Overrides(p, d, f)
    ensures !SomeRefused(p, order, built, 0)
  {
    hide Overrides;
    if SomeRefused(p, order, built, |order|) {
      var k: nat :| k < |order| && order[k] !in built && order[k] in p.own && RefusedIn(p, order[k]) != {};
      var f :| f in RefusedIn(p, order[k]);
      assert order[k] in order && f in p.own[order[k]] && Overrides(p, order[k], f);
    }
    if d, f :| d in order && d !in built && d in p.own && f in p.own[d] && Overrides(p, d, f) {
      var k :| 0 <= k < |order| && order[k] == d;
      assert f in RefusedIn(p, order[k]);
    }
  }

  lemma CoversDistinct(p: Program, ms: seq<Func>, d: Id)
    requires Covers(p, ms, d)
    ensures forall c, n: nat :: Above(p.derivedFrom, d, c, n) ==> c in p.own && DistinctSigs(p.own[c])
  {
  }

  lemma TopmostHas(p: Program, b: Id, ms: seq<Func>, sig: nat, g: Func)
    requires Covers(p, ms, b) && IsTopmost(p, b, sig, g)
    ensures HasSig(ms, sig)
  {
    var c, n: nat :| FirstDeclaredAt(p, b, sig, g, c, n);
  }

  /** A method may override one declared final, when that itself overrides one that is not: nothing is reported. */
  lemma LaterFinal()
    ensures var f, g, h := Real(1, 0, false), Real(2, 0, true), Real(3, 0, false);
      var p := Program(map[1 := [f], 2 := [g], 3 := [h]], map[2 := 1, 3 := 2]);
      IsNearest(p, 2, 0, g) && g.isFinal && h in p.own[3] && RefusedIn(p, 3) == {}
  {
    var f, g, h := Real(1, 0, false), Real(2, 0, true), Real(3, 0, false);
    var p := Program(map[1 := [f], 2 := [g], 3 := [h]], map[2 := 1, 3 := 2]);
    NearestOwn(p, 2, g);
    assert Above(p.derivedFrom, 1, 1, 0);
    assert Above(p.derivedFrom, 2, 1, 1);
    assert forall b: Id, m: nat :: m > 1 ==> !Above(p.derivedFrom, 2, b, m) by {
      forall b: Id, m: nat | m > 1 ensures !Above(p.derivedFrom, 2, b, m) { assert !Above(p.derivedFrom, 1, b, m - 1); }
    }
    assert FirstDeclaredAt(p, 2, 0, f, 1, 1);
    forall x | IsTopmost(p, 2, 0, x) ensures x == f { TopmostUnique(p, 2, 0, x, f); }
  }

  /** Moving the first of the functions left to the table and its stub to the end. */
  lemma NextOwn(base: seq<Func>, r: seq<Func>, j: nat)
    requires j < |r|
    ensures r[..j + 1] == r[..j] + [r[j]]
    ensures var ms := r[j..] + base + Stubs(r[..j], |base|);
      ms[0] == r[j] && ms[1..] + [Virtual(r[j].sig, r[j].isFinal, |base| + j)] == r[j + 1..] + base + Stubs(r[..j + 1], |base|)
  {
    assert r[..j + 1] == r[..j] + [r[j]];
    assert r[j..] == [r[j]] + r[j + 1..];
    StubsPush(r[..j], r[j], |base|);
  }

  class VTableBuilder {
    const program: Program
    var methods: map<Id, seq<Func>>
    var virtualFunctionTable: map<Id, seq<Func>>
    var numErrors: nat

    /** Every class starts with the real functions it declares and an empty table. */
    constructor (program: Program)
      ensures this.program == program && methods == program.own && numErrors == 0
      ensures virtualFunctionTable == map d | d in program.own :: []
    {
      this.program := program;
      methods, numErrors := program.own, 0;
      virtualFunctionTable := map d | d in program.own :: [];
    }

    /** One method of the base class: the class' own function of that signature replaces it in the table. */
    method CopyBaseMethod(d: Id, b: Id, m: nat)
      requires d in methods && d in virtualFunctionTable && b in methods && b in virtualFunctionTable && b != d
      requires m < |methods[b]| && m < |virtualFunctionTable[b]|
      modifies this
      ensures var baseFunc, i := old(methods[b])[m], FindSig(old(methods[d]), old(methods[b])[m].sig, 0);
        && OnlyAt(old(methods), methods, d, Without(old(methods[d]), baseFunc.sig) + [baseFunc])
        && OnlyAt(old(virtualFunctionTable), virtualFunctionTable, d,
             old(virtualFunctionTable[d]) + [if i.Some? then old(methods[d])[i.value] else old(virtualFunctionTable[b])[m]])
        && numErrors == old(numErrors) + if i.Some? && baseFunc.isFinal then 1 else 0
    {
      var baseFunc := methods[b][m];
      var i := FindOverride(d, baseFunc.sig);
      if i.Some? {
        if baseFunc.isFinal { numErrors := numErrors + 1; }
        // The overriding function takes the inherited slot and leaves the list, where the base's stub replaces it
        var derivedFunc := methods[d][i.value];
        methods := methods[d := methods[d][..i.value] + methods[d][i.value + 1..]];
        virtualFunctionTable := virtualFunctionTable[d := virtualFunctionTable[d] + [derivedFunc]];
      } else {
        virtualFunctionTable := virtualFunctionTable[d := virtualFunctionTable[d] + [virtualFunctionTable[b][m]]];
      }
      methods := methods[d := methods[d] + [baseFunc]];
    }

    /** Copies the methods of the base class, letting the class' own functions replace them. */
    method CopyBaseMethods(d: Id)
      requires d in program.own && d in methods && d in virtualFunctionTable && d in program.derivedFrom && program.derivedFrom[d] != d
      requires methods[d] == program.own[d] && virtualFunctionTable[d] == [] && DistinctSigs(program.own[d])
      requires WellBuilt(program, methods, virtualFunctionTable, program.derivedFrom[d])
      modifies this
      ensures var b := program.derivedFrom[d]; var base, table, own := old(methods[b]), old(virtualFunctionTable[b]), program.own[d];
        && OnlyAt(old(methods), methods, d, Rest(own, base) + base)
        && OnlyAt(old(virtualFunctionTable), virtualFunctionTable, d, VTable(own, base, table)[..|base|])
        && numErrors == old(numErrors) + |OverFinal(own, base)|
    {
      var b := program.derivedFrom[d];
      ghost var base, table, own := methods[b], virtualFunctionTable[b], program.own[d];
      var m := 0;
      RestAll(own);
      assert base[..0] == [];
      assert OverFinal(own, []) == {};
      while m < |methods[b]|
        invariant 0 <= m <= |base| && b in methods && b in virtualFunctionTable && methods[b] == base && virtualFunctionTable[b] == table
        invariant OnlyAt(old(methods), methods, d, Rest(own, base[..m]) + base[..m])
        invariant OnlyAt(old(virtualFunctionTable), virtualFunctionTable, d, VTable(own, base, table)[..m])
        invariant numErrors == old(numErrors) + |OverFinal(own, base[..m])|
      {
        InheritOne(own, base, table, m);
        FinalOne(own, base, m);
        CopyBaseMethod(d, b, m);
        m := m + 1;
      }
      assert base[..m] == base;
    }

    /** Looks for a function of the class with the signature. */
    method FindOverride(d: Id, sig: nat) returns (r: Option<nat>)
      requires d in methods
      ensures r == FindSig(methods[d], sig, 0)
    {
      var i := 0;
      while i < |methods[d]|
        invariant 0 <= i <= |methods[d]|
        invariant FindSig(methods[d], sig, 0) == FindSig(methods[d], sig, i)
      {
        if methods[d][i].sig == sig { return Some(i); }
        i := i + 1;
      }
      r := None;
    }

    /** Moves one function from the method list to the table, and puts a stub at the end of the list. */
    method MoveOwnMethod(d: Id, m: nat)
      requires d in methods && d in virtualFunctionTable && m < |methods[d]|
      modifies this`methods, this`virtualFunctionTable
      ensures var ms, func, n := old(methods[d]), old(methods[d])[m], |old(virtualFunctionTable[d])|;
        && OnlyAt(old(methods), methods, d, ms[..m] + ms[m + 1..] + [Virtual(func.sig, func.isFinal, n)])
        && OnlyAt(old(virtualFunctionTable), virtualFunctionTable, d, old(virtualFunctionTable[d]) + [func])
    {
      var func := methods[d][m];
      methods := methods[d := methods[d][..m] + methods[d][m + 1..]];
      virtualFunctionTable := virtualFunctionTable[d := virtualFunctionTable[d] + [func]];
      // The stub goes last, so that its index is its position
      methods := methods[d := methods[d] + [Virtual(func.sig, func.isFinal, |virtualFunctionTable[d]| - 1)]];
    }

    /** Moves the functions that are still in the method list to the table, leaving stubs. */
    method MoveOwnMethods(d: Id, ghost base: seq<Func>, ghost r: seq<Func>)
      requires d in methods && d in virtualFunctionTable && methods[d] == r + base && AllReal(r)
      requires (forall k :: 0 <= k < |base| ==> base[k].Virtual?) && |virtualFunctionTable[d]| == |base|
      modifies this`methods, this`virtualFunctionTable
      ensures OnlyAt(old(methods), methods, d, base + Stubs(r, |base|))
      ensures OnlyAt(old(virtualFunctionTable), virtualFunctionTable, d, old(virtualFunctionTable[d]) + r)
    {
      ghost var j := 0;
      var m := 0;
      assert r[j..] == r && r[..j] == [] && Stubs(r[..j], |base|) == [];
      while m < |methods[d]|
        invariant 0 <= j <= |r| && 0 <= m <= |base| + |r| && (j < |r| ==> m == 0) && d in methods && d in virtualFunctionTable
        invariant OnlyAt(old(methods), methods, d, r[j..] + base + Stubs(r[..j], |base|))
        invariant OnlyAt(old(virtualFunctionTable), virtualFunctionTable, d, old(virtualFunctionTable[d]) + r[..j])
        decreases |r| - j, |base| + |r| - m
      {
        if methods[d][m].Real? {
          assert j < |r| && methods[d][m] == r[j] && m == 0;
          NextOwn(base, r, j);
          MoveOwnMethod(d, m);
          j := j + 1;
        } else {
          m := m + 1;
        }
      }
      assert r[..j] == r && r[j..] == [];
    }

    method CompileClass(d: Id)
      requires d in program.own && d in methods && d in virtualFunctionTable
      requires methods[d] == program.own[d] && virtualFunctionTable[d] == [] && DistinctSigs(program.own[d]) && AllReal(program.own[d])
      requires Acyclic(program.derivedFrom)
      requires d in program.derivedFrom ==> program.derivedFrom[d] != d && WellBuilt(program, methods, virtualFunctionTable, program.derivedFrom[d])
      modifies this
      ensures WellBuilt(program, methods, virtualFunctionTable, d)
      ensures numErrors == old(numErrors) + |RefusedIn(program, d)|
      ensures methods.Keys == old(methods.Keys) && virtualFunctionTable.Keys == old(virtualFunctionTable.Keys)
      ensures forall c :: c in methods && c != d ==> methods[c] == old(methods)[c]
      ensures forall c :: c in virtualFunctionTable && c != d ==> virtualFunctionTable[c] == old(virtualFunctionTable)[c]
    {
      ghost var base: seq<Func>, table: seq<Func> := [], [];
      ghost var m0, v0 := methods, virtualFunctionTable;
      if d in program.derivedFrom {
        base, table := methods[program.derivedFrom[d]], virtualFunctionTable[program.derivedFrom[d]];
        StubsOf(program, methods, virtualFunctionTable, program.derivedFrom[d]);
        RefusedOver(program, methods, virtualFunctionTable, d);
        CopyBaseMethods(d);
      } else {
        RestAll(program.own[d]);
        assert RefusedIn(program, d) == {};
        assert methods[d] == Rest(program.own[d], base) + base;
        assert virtualFunctionTable[d] == VTable(program.own[d], base, table)[..|base|];
      }
      RestIs(program.own[d], base);
      RestReal(program.own[d], base);
      MoveOwnMethods(d, base, Rest(program.own[d], base));
      assert virtualFunctionTable[d] == VTable(program.own[d], base, table);
      if d in program.derivedFrom {
        BaseStays(program, m0, v0, methods, virtualFunctionTable, d, program.derivedFrom[d]);
      }
      LayoutWellBuilt(program, methods, virtualFunctionTable, d);
    }

    /** Compiles the classes of a list in which no class precedes its base. Those that were built before, as shared classes are
        for another module, are passed over; they may be bases of the others, in the list or not. */
    method CompileAll(order: seq<Id>, built: set<Id>)
      requires BasesFirst(program.derivedFrom, order) && Acyclic(program.derivedFrom)
      requires forall i, k :: 0 <= i < k < |order| ==> order[i] != order[k]
      requires forall d :: d in built ==>
        WellBuilt(program, methods, virtualFunctionTable, d) && (d in program.derivedFrom ==> program.derivedFrom[d] in built)
      requires forall d :: d in order && d !in built ==>
        && d in program.own && DistinctSigs(program.own[d]) && AllReal(program.own[d])
        && d in methods && methods[d] == program.own[d] && d in virtualFunctionTable && virtualFunctionTable[d] == []
        && (d in program.derivedFrom ==> program.derivedFrom[d] in order || program.derivedFrom[d] in built)
      modifies this
      ensures forall d :: d in order || d in built ==> WellBuilt(program, methods, virtualFunctionTable, d)
      ensures numErrors >= old(numErrors)
      ensures numErrors > old(numErrors) <==> exists d, f :: d in order && d !in built && d in program.own && f in program.own[d] && Overrides(program, d, f)
      ensures forall d :: d in old(methods) && (d !in order || d in built) ==> d in methods && methods[d] == old(methods)[d]
      ensures forall d :: d in old(virtualFunctionTable) && (d !in order || d in built) ==>
        d in virtualFunctionTable && virtualFunctionTable[d] == old(virtualFunctionTable)[d]
    {
      hide WellBuilt, Acyclic, Overrides, RefusedIn, SomeRefused;
      RefusedAny(program, order, built);
      var n := 0;
      while n < |order|
        invariant 0 <= n <= |order| && methods.Keys == old(methods.Keys) && virtualFunctionTable.Keys == old(virtualFunctionTable.Keys)
        invariant forall d :: d in built || d in order[..n] ==> WellBuilt(program, methods, virtualFunctionTable, d)
        invariant numErrors >= old(numErrors)
        invariant numErrors > old(numErrors) <==> SomeRefused(program, order, built, n)
        invariant forall d :: d in methods && (d !in order[..n] || d in built) ==> methods[d] == old(methods)[d]
        invariant forall d :: d in virtualFunctionTable && (d !in order[..n] || d in built) ==> virtualFunctionTable[d] == old(virtualFunctionTable)[d]
      {
        var d := order[n];
        assert order[..n + 1] == order[..n] + [d];
        RefusedNext(program, order, built, n);
        ghost var m0, v0 := methods, virtualFunctionTable;
        if d !in built {
          if d in program.derivedFrom { BaseDone(program.derivedFrom, order, built, n); }
          CompileClass(d);
          forall c | c in built || c in order[..n] ensures WellBuilt(program, methods, virtualFunctionTable, c) {
            if c in order[..n] && c !in built && c in program.derivedFrom {
              var i :| 0 <= i < n && order[i] == c;
              BaseDone(program.derivedFrom, order, built, i);
            }
            StaysBuilt(program, m0, v0, methods, virtualFunctionTable, c) by { BuiltKeys(program, m0, v0, c); }
          }
        }
        n := n + 1;
      }
      assert order[..n] == order;
    }

    /** A virtual call, resolved by the table of the object's class; an interface call first finds the class' stub.
        None is the null pointer exception for an interface method that the class does not have. */
    method CallInterfaceMethod(d: Id, func: Func, isInterface: bool) returns (r: Option<Func>)
      requires d in methods && d in virtualFunctionTable && WellBuilt(program, methods, virtualFunctionTable, d)
      requires !isInterface ==> func.Virtual? && func.vfTableIdx < |virtualFunctionTable[d]|
      ensures isInterface ==>
        if HasSig(methods[d], func.sig) then r.Some? && IsNearest(program, d, func.sig, r.value) else r == None
      ensures !isInterface ==> r == Some(virtualFunctionTable[d][func.vfTableIdx])
    {
      if !isInterface { return Some(virtualFunctionTable[d][func.vfTableIdx]); }
      var i := FindOverride(d, func.sig);
      if i.None? { return None; }
      assert SlotOk(program, d, methods[d][i.value], virtualFunctionTable[d][i.value], i.value);
      var f2 := methods[d][i.value];
      r := Some(if f2.Virtual? then virtualFunctionTable[d][f2.vfTableIdx] else f2);
    }
  }

  /** Calling any stub of a class above d on an object of class d runs the declaration of the nearest class at or above d. */
  lemma VirtualCall(p: Program, methods: map<Id, seq<Func>>, vtables: map<Id, seq<Func>>, d: Id, a: Id, n: nat, k: nat)
    requires Above(p.derivedFrom, d, a, n)
    requires forall b, m: nat :: Above(p.derivedFrom, d, b, m) ==> WellBuilt(p, methods, vtables, b)
    requires a in methods && k < |methods[a]|
    ensures d in vtables && methods[a][k].Virtual? && methods[a][k].vfTableIdx < |vtables[d]|
    ensures var f := vtables[d][methods[a][k].vfTableIdx]; f.Real? && f.sig == methods[a][k].sig && IsNearest(p, d, f.sig, f)
  {
    assert Above(p.derivedFrom, d, d, 0);
    PrefixAbove(p, methods, vtables, d, a, n);
    assert methods[d][k] == methods[a][k];
    assert SlotOk(p, d, methods[d][k], vtables[d][k], k);
  }

  lemma {:induction false} RestAll(own: seq<Func>)
    ensures Rest(own, []) == own
    decreases |own|
  {
    if own != [] {
      RestAll(own[1..]);
      assert own == [own[0]] + own[1..];
    }
  }

  lemma RestReal(own: seq<Func>, base: seq<Func>)
    requires DistinctSigs(own) && AllReal(own)
    ensures AllReal(Rest(own, base))
  {
    RestIs(own, base);
    forall k | 0 <= k < |Rest(own, base)| ensures Rest(own, base)[k].Real? { assert Rest(own, base)[k] in own; }
  }

  lemma NotBefore(base: seq<Func>, m: nat)
    requires DistinctSigs(base) && m < |base|
    ensures !HasSig(base[..m], base[m].sig)
  {
  }

  /** The search in the mixed list finds an own function or nothing. */
  lemma SearchAmong(r: seq<Func>, b: seq<Func>, sig: nat)
    requires !HasSig(b, sig)
    ensures FindSig(r + b, sig, 0) == FindSig(r, sig, 0)
  {
    var i, j := FindSig(r + b, sig, 0), FindSig(r, sig, 0);
    assert forall k :: 0 <= k < |b| ==> b[k].sig != sig && (r + b)[|r| + k] == b[k];
    if j.Some? { assert (r + b)[j.value] == r[j.value]; }
    if i.Some? { assert i.value < |r| by { assert (r + b)[i.value].sig == sig; } }
  }

  lemma RemoveAmong(r: seq<Func>, b: seq<Func>, i: nat)
    requires i < |r|
    ensures (r + b)[..i] + (r + b)[i + 1..] == r[..i] + r[i + 1..] + b && (r + b)[i] == r[i]
  {
  }

  lemma StubsPush(fs: seq<Func>, f: Func, at: nat)
    ensures Stubs(fs + [f], at) == Stubs(fs, at) + [Virtual(f.sig, f.isFinal, at + |fs|)]
  {
  }

  lemma StubsOf(p: Program, methods: map<Id, seq<Func>>, vtables: map<Id, seq<Func>>, b: Id)
    requires WellBuilt(p, methods, vtables, b)
    ensures forall k :: 0 <= k < |methods[b]| ==> methods[b][k].Virtual?
  {
    forall k | 0 <= k < |methods[b]| ensures methods[b][k].Virtual? { assert SlotOk(p, b, methods[b][k], vtables[b][k], k); }
  }

  lemma BaseStays(p: Program, m1: map<Id, seq<Func>>, v1: map<Id, seq<Func>>, m2: map<Id, seq<Func>>, v2: map<Id, seq<Func>>, d: Id, b: Id)
    requires WellBuilt(p, m1, v1, b) && b != d && d in m2 && d in v2 && d in m1 && d in v1
    requires OnlyAt(m1, m2, d, m2[d]) && OnlyAt(v1, v2, d, v2[d])
    requires Acyclic(p.derivedFrom) && d in p.derivedFrom && p.derivedFrom[d] == b
    ensures WellBuilt(p, m2, v2, b)
  {
    if b in p.derivedFrom {
      NotItsOwnBase(p.derivedFrom, d, 2);
      assert Above(p.derivedFrom, p.derivedFrom[b], p.derivedFrom[b], 0);
      assert Above(p.derivedFrom, b, p.derivedFrom[b], 1);
      assert Above(p.derivedFrom, d, p.derivedFrom[b], 2);
    }
  }

  lemma BuiltKeys(p: Program, methods: map<Id, seq<Func>>, vtables: map<Id, seq<Func>>, d: Id)
    requires WellBuilt(p, methods, vtables, d)
    ensures d in methods && d in vtables && (d in p.derivedFrom ==> p.derivedFrom[d] in methods)
  {
  }

  /** The base of a class in the list comes before it, or was built before. */
  lemma BaseDone(d: map<Id, Id>, order: seq<Id>, built: set<Id>, n: nat)
    requires BasesFirst(d, order) && Acyclic(d) && n < |order| && order[n] in d && (d[order[n]] in order || d[order[n]] in built)
    ensures d[order[n]] in order[..n] || d[order[n]] in built
    ensures d[order[n]] != order[n]
  {
    NotItsOwnBase(d, order[n], 1);
    assert Above(d, order[n], d[order[n]], 1) by { assert Above(d, d[order[n]], d[order[n]], 0); }
    if d[order[n]] in order {
      var i :| 0 <= i < |order| && order[i] == d[order[n]];
      assert Settled(d, order, n);
      assert forall k :: n < k < |order| ==> order[k] == order[n + 1..][k - n - 1];
      assert i < n && order[..n][i] == order[i];
    }
  }
}
