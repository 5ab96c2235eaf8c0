/** The optimizer that runs on the whole function, after unreachable code is gone: it takes out instructions that the one behind
    them makes superfluous. */
module GlobalOptimizer {
  import opened Options
  import opened Bytecode
  import opened Encoding
  import opened InstructionList
  import opened Machine
  import opened Deletions

  // ---- What the whole optimization keeps ----

  /** What ends from the start of a ends, in the same way, from the start of b. */
  ghost predicate Carries(temps: set<int>, a: seq<Node>, b: seq<Node>) {
    forall s: St, fuel: nat :: CarriesFrom(temps, a, b, s, fuel)
  }

  ghost predicate CarriesFrom(temps: set<int>, a: seq<Node>, b: seq<Node>, s: St, fuel: nat) {
    var r := MachineRun(temps, a, 0, s, fuel);
    r.Halt? ==> MachineEnds(temps, b, 0, s, r.exit, r.s)
  }

  lemma CarriesRefl(temps: set<int>, a: seq<Node>)
    ensures Carries(temps, a, a)
  {
    forall s: St, fuel: nat ensures CarriesFrom(temps, a, a, s, fuel) {
      var r := MachineRun(temps, a, 0, s, fuel);
      if r.Halt? { AlikeEnds(r.exit, r.s, r.s); }
    }
  }

  lemma EndAlikeTrans(exit: Exit, s: St, t: St, u: St)
    requires EndAlike(exit, s, t) && EndAlike(exit, t, u)
    ensures EndAlike(exit, s, u)
  {
    if exit == Returned {
      var n :| 0 <= n <= |t.stack| && t.stack[n..] == s.stack;
      var m :| 0 <= m <= |u.stack| && u.stack[m..] == t.stack;
      assert u.stack[m + n..] == u.stack[m..][n..];
    }
  }

  lemma CarriesWithout(temps: set<int>, a: seq<Node>, b: seq<Node>, k: nat)
    requires Carries(temps, a, b) && Removable(b, k) && TablesSpare(b, k)
    ensures Carries(temps, a, Without(b, k))
  {
    hide MachineRun, EndAlike, Removable, TablesSpare;
    AtMostEnd(b, k);
    forall s: St, fuel: nat ensures CarriesFrom(temps, a, Without(b, k), s, fuel) {
      assert CarriesFrom(temps, a, b, s, fuel);
      var r := MachineRun(temps, a, 0, s, fuel);
      if r.Halt? {
        var f2: nat :| var r2 := MachineRun(temps, b, 0, s, f2); r2.Halt? && r2.exit == r.exit && EndAlike(r.exit, r.s, r2.s);
        var r2 := MachineRun(temps, b, 0, s, f2);
        RunWithout(temps, b, k, 0, s, s, f2);
        var f3: nat :| var r3 := MachineRun(temps, Without(b, k), 0, s, f3); r3.Halt? && r3.exit == r2.exit && EndAlike(r2.exit, r2.s, r3.s);
        EndAlikeTrans(r.exit, r.s, r2.s, MachineRun(temps, Without(b, k), 0, s, f3).s);
      }
    }
  }

  /** The stack needs no more than largest. */
  ghost predicate Bounded(nodes: seq<Node>, largest: int) {
    exists h :: Capped(nodes, h, largest)
  }

  lemma BoundedWithout(nodes: seq<Node>, largest: int, k: nat)
    requires Bounded(nodes, largest) && Removable(nodes, k) && forall n :: n in nodes ==> n.stackInc == StackInc(n.op)
    ensures Bounded(Without(nodes, k), largest)
  {
    hide Capped;
    var h :| Capped(nodes, h, largest);
    StaysCapped(nodes, h, largest, k);
  }

  // ---- Where the nodes come from ----

  /** n is what remains of n0; origin says where each node was. Only pops, suspends, line cues and jumps are gone. */
  ghost predicate Derived(n0: seq<Node>, n: seq<Node>, origin: seq<nat>) {
    && |origin| == |n|
    && (forall i :: 0 <= i < |n| ==> origin[i] < |n0| && n[i] == n0[origin[i]])
    && (forall i, j :: 0 <= i < j < |n| ==> origin[i] < origin[j])
    && (forall x: nat :: x < |n0| && (n0[x].op.LABEL? || n0[x].op.JMPP?) ==> x in origin)
  }

  lemma DerivedAll(n: seq<Node>)
    ensures Derived(n, n, seq(|n|, i => i))
  {
    var origin := seq(|n|, i => i);
    forall x: nat | x < |n| ensures x in origin { assert origin[x] == x; }
  }

  function OriginWithout(origin: seq<nat>, k: nat): seq<nat>
    requires k < |origin|
  {
    origin[..k] + origin[k + 1..]
  }

  lemma GoneAt(n: seq<Node>, k: nat)
    requires Removable(n, k)
    ensures k < |n| && !n[k].op.LABEL? && !n[k].op.JMPP?
  {
  }

  lemma OrderWithout(origin: seq<nat>, k: nat)
    requires k < |origin| && forall i, j :: 0 <= i < j < |origin| ==> origin[i] < origin[j]
    ensures var o := OriginWithout(origin, k); forall i, j :: 0 <= i < j < |o| ==> o[i] < o[j]
  {
  }

  lemma StaysIn(origin: seq<nat>, k: nat, x: nat)
    requires k < |origin| && x in origin && x != origin[k]
    ensures x in OriginWithout(origin, k)
  {
    var i :| 0 <= i < |origin| && origin[i] == x;
    assert OriginWithout(origin, k)[if i < k then i else i - 1] == x;
  }

  lemma DerivedWithout(n0: seq<Node>, n: seq<Node>, origin: seq<nat>, k: nat)
    requires Derived(n0, n, origin) && Removable(n, k)
    ensures Derived(n0, Without(n, k), OriginWithout(origin, k))
  {
    hide Removable, OriginWithout;
    GoneAt(n, k);
    OrderWithout(origin, k);
    OriginAt(origin, k);
    forall x: nat | x < |n0| && (n0[x].op.LABEL? || n0[x].op.JMPP?) ensures x in OriginWithout(origin, k) { StaysIn(origin, k, x); }
  }

  lemma OriginAt(origin: seq<nat>, k: nat)
    requires k < |origin|
    ensures var o := OriginWithout(origin, k); |o| == |origin| - 1 && forall i :: 0 <= i < |o| ==> o[i] == origin[if i < k then i else i + 1]
  {
  }

  // ---- Tables ----

  /** The last two entries of the table of the switch at p do not both go to the label behind it. */
  predicate KeepsTwo(n0: seq<Node>, p: nat)
    requires p < |n0| && FullTable(n0, p)
  {
    var end := p + 2 + n0[p].max;
    end < |n0| && n0[p].max >= 1 ==> !(n0[end - 1].op == JMP(n0[end].op.l) && n0[end - 2].op == JMP(n0[end].op.l))
  }

  ghost predicate AllKeepTwo(n0: seq<Node>)
    requires FullTables(n0)
  {
    forall p: nat :: p < |n0| && n0[p].op.JMPP? ==> FullTable(n0, p) && KeepsTwo(n0, p)
  }

  /** The len nodes behind the one at p are those that were behind it. */
  predicate RunsOn(origin: seq<nat>, p: nat, len: nat) {
    p + len < |origin| && forall q :: p < q <= p + len ==> origin[q] == origin[p] + (q - p)
  }

  /** The table of the switch at p is as it was, or only its last entry is gone, which went to the label behind it. */
  ghost predicate TableFrom(n0: seq<Node>, n: seq<Node>, origin: seq<nat>, p: nat)
    requires p < |n| == |origin|
  {
    Whole(n0, origin, p, n[p].max) || CutTable(n0, n, origin, p)
  }

  predicate Whole(n0: seq<Node>, origin: seq<nat>, p: nat, m: nat)
    requires p < |origin|
  {
    RunsOn(origin, p, m + 1) && (origin[p] + 2 + m < |n0| ==> RunsOn(origin, p, m + 2))
  }

  ghost predicate CutTable(n0: seq<Node>, n: seq<Node>, origin: seq<nat>, p: nat)
    requires p < |n| == |origin|
  {
    var end := origin[p] + 2 + n[p].max;
    && RunsOn(origin, p, n[p].max) && p + 1 + n[p].max < |n| && origin[p + 1 + n[p].max] == end
    && end < |n0| && n0[end].op.LABEL? && n0[end - 1].op == JMP(n0[end].op.l)
  }

  ghost predicate TablesFrom(n0: seq<Node>, n: seq<Node>, origin: seq<nat>)
    requires |n| == |origin|
  {
    forall p: nat :: p < |n| && n[p].op.JMPP? ==> TableFrom(n0, n, origin, p)
  }

  lemma TablesFromAll(n: seq<Node>)
    requires FullTables(n)
    ensures TablesFrom(n, n, seq(|n|, i => i))
  {
    forall p: nat | p < |n| && n[p].op.JMPP? ensures TableFrom(n, n, seq(|n|, i => i), p) { assert FullTable(n, p); }
  }

  lemma EntriesAre(n0: seq<Node>, n: seq<Node>, origin: seq<nat>, p: nat, len: nat)
    requires FullTables(n0) && Derived(n0, n, origin) && p < |n| && n[p].op.JMPP? && RunsOn(origin, p, len) && len <= n[p].max + 1
    ensures forall q :: p < q <= p + len ==> n[q].op.JMP?
  {
    assert FullTable(n0, origin[p]);
  }

  /** What is taken out of a table is its last entry, and that only while the table is full. */
  lemma LastEntry(n0: seq<Node>, n: seq<Node>, origin: seq<nat>, p: nat, k: nat)
    requires FullTables(n0) && AllKeepTwo(n0) && Derived(n0, n, origin) && p < |n| && n[p].op.JMPP? && TableFrom(n0, n, origin, p)
    requires Removable(n, k)
    ensures var m := n[p].max; k < p || k > p + 1 + m || (k == p + 1 + m && RunsOn(origin, p, m + 2))
    ensures !(p < k <= p + n[p].max) && k != p
  {
    var p0, m := origin[p], n[p].max;
    assert FullTable(n0, p0) && KeepsTwo(n0, p0);
    if Whole(n0, origin, p, m) {
      EntriesAre(n0, n, origin, p, m + 1);
    } else {
      EntriesAre(n0, n, origin, p, m);
      CutEnds(n0, n, origin, p);
    }
  }

  /** In a table that has lost its last entry the new last one goes elsewhere. */
  lemma CutEnds(n0: seq<Node>, n: seq<Node>, origin: seq<nat>, p: nat)
    requires FullTables(n0) && AllKeepTwo(n0) && Derived(n0, n, origin) && p < |n| && n[p].op.JMPP? && CutTable(n0, n, origin, p)
    ensures var m := n[p].max; n[p + 1 + m].op.LABEL? && !Removable(n, p + 1 + m) && (m > 0 ==> !Removable(n, p + m))
  {
    var p0, m := origin[p], n[p].max;
    assert FullTable(n0, p0) && KeepsTwo(n0, p0);
    assert n[p + 1 + m] == n0[p0 + 2 + m];
    if m > 0 { assert n[p + m] == n0[p0 + m]; }
  }

  lemma RunsOnWithout(origin: seq<nat>, p: nat, len: nat, k: nat)
    requires RunsOn(origin, p, len) && k < |origin| && (k < p || k > p + len)
    ensures RunsOn(OriginWithout(origin, k), Shift(k, p), len)
  {
    var o, p2 := OriginWithout(origin, k), Shift(k, p);
    assert o[p2] == origin[p];
    forall q | p2 < q <= p2 + len ensures o[q] == o[p2] + (q - p2) {
      var q0 := if k < p then q + 1 else q;
      assert o[q] == origin[q0];
    }
  }

  lemma RunsOnFits(origin: seq<nat>, p: nat, len: nat)
    ensures RunsOn(origin, p, len) ==> p + len < |origin|
    ensures RunsOn(origin, p, len + 1) ==> p + len + 1 < |origin|
    ensures RunsOn(origin, p, len + 2) ==> p + len + 2 < |origin|
  {
  }

  lemma TableFromWithout(n0: seq<Node>, n: seq<Node>, origin: seq<nat>, p: nat, k: nat)
    requires FullTables(n0) && AllKeepTwo(n0) && Derived(n0, n, origin) && p < |n| && n[p].op.JMPP? && TableFrom(n0, n, origin, p)
    requires Removable(n, k) && k < |origin| && p != k
    ensures TableFrom(n0, Without(n, k), OriginWithout(origin, k), Shift(k, p))
  {
    hide FullTables, AllKeepTwo, Derived, Removable, RunsOn;
    SizesAgree(n0, n, origin);
    LastEntry(n0, n, origin, p, k);
    var m, o, p2 := n[p].max, OriginWithout(origin, k), Shift(k, p);
    RunsOnFits(origin, p, m);
    ShiftAt(n, k, p);
    assert o[p2] == origin[p];
    if k == p + 1 + m {
      CutLast(n0, n, origin, p);
    } else if Whole(n0, origin, p, m) {
      RunsOnWithout(origin, p, m + 1, k);
      if origin[p] + 2 + m < |n0| {
        LabelStays(n0, n, origin, p, k);
        RunsOnWithout(origin, p, m + 2, k);
      }
    } else {
      RunsOnWithout(origin, p, m, k);
      assert o[p2 + 1 + m] == origin[p + 1 + m];
    }
  }

  lemma LabelStays(n0: seq<Node>, n: seq<Node>, origin: seq<nat>, p: nat, k: nat)
    requires FullTables(n0) && Derived(n0, n, origin) && p < |n| && n[p].op.JMPP? && RunsOn(origin, p, n[p].max + 2) && Removable(n, k)
    ensures k != p + 2 + n[p].max
  {
    assert FullTable(n0, origin[p]);
    assert n[p + 2 + n[p].max] == n0[origin[p] + 2 + n[p].max];
  }

  /** The last entry goes. */
  lemma CutLast(n0: seq<Node>, n: seq<Node>, origin: seq<nat>, p: nat)
    requires FullTables(n0) && Derived(n0, n, origin) && p < |n| && n[p].op.JMPP? && RunsOn(origin, p, n[p].max + 2)
    requires Removable(n, p + 1 + n[p].max)
    ensures var k := p + 1 + n[p].max; CutTable(n0, Without(n, k), OriginWithout(origin, k), p)
  {
    hide FullTables, Derived, Removable, RunsOn;
    var m := n[p].max;
    var k := p + 1 + m;
    SizesAgree(n0, n, origin);
    RunsOnFits(origin, p, m);
    CutEntry(n0, n, origin, p);
    RunsOnWithout(origin, p, m, k);
    OriginAt(origin, k);
    ShiftAt(n, k, p);
  }

  /** It goes to the label behind the table. */
  lemma CutEntry(n0: seq<Node>, n: seq<Node>, origin: seq<nat>, p: nat)
    requires FullTables(n0) && Derived(n0, n, origin) && p < |n| && n[p].op.JMPP? && RunsOn(origin, p, n[p].max + 2)
    requires Removable(n, p + 1 + n[p].max)
    ensures var end := origin[p] + 2 + n[p].max;
      && RunsOn(origin, p, n[p].max) && origin[p + 2 + n[p].max] == end
      && end < |n0| && n0[end].op.LABEL? && n0[end - 1].op == JMP(n0[end].op.l)
  {
    var m, p0 := n[p].max, origin[p];
    assert FullTable(n0, p0);
    assert n[p + 1 + m] == n0[p0 + 1 + m] && n[p + 2 + m] == n0[p0 + 2 + m];
  }

  lemma TablesFromWithout(n0: seq<Node>, n: seq<Node>, origin: seq<nat>, k: nat)
    requires FullTables(n0) && AllKeepTwo(n0) && Derived(n0, n, origin) && TablesFrom(n0, n, origin) && Removable(n, k) && k < |n|
    ensures TablesFrom(n0, Without(n, k), OriginWithout(origin, k))
  {
    hide TableFrom, FullTables, AllKeepTwo, Derived, Removable;
    SizesAgree(n0, n, origin);
    var n2, o := Without(n, k), OriginWithout(origin, k);
    forall p2: nat | p2 < |n2| && n2[p2].op.JMPP? ensures TableFrom(n0, n2, o, p2) {
      var p := if p2 < k then p2 else p2 + 1;
      ShiftAt(n, k, p);
      TableFromWithout(n0, n, origin, p, k);
    }
  }

  lemma TablesFromSpare(n0: seq<Node>, n: seq<Node>, origin: seq<nat>, k: nat)
    requires FullTables(n0) && AllKeepTwo(n0) && Derived(n0, n, origin) && TablesFrom(n0, n, origin) && Removable(n, k)
    ensures TablesSpare(n, k)
  {
    hide TableFrom, FullTables, AllKeepTwo, Derived, Lands, Removable, RunsOn;
    forall p: nat, i: int | p < |n| && n[p].op.JMPP? && i <= n[p].max && Lands(Ops(n), p, i) ensures !(p < k <= p + i) {
      SizesAgree(n0, n, origin);
      LastEntry(n0, n, origin, p, k);
    }
  }

  lemma SizesAgree(n0: seq<Node>, n: seq<Node>, origin: seq<nat>)
    requires Derived(n0, n, origin)
    ensures |origin| == |n|
  {
  }

  /** Every index up to max finds its way. */
  ghost predicate TablesLand(n: seq<Node>) {
    forall p: nat, i: nat :: p < |n| && n[p].op.JMPP? && i <= n[p].max ==> Lands(Ops(n), p, i)
  }

  lemma TablesFromLand(n0: seq<Node>, n: seq<Node>, origin: seq<nat>)
    requires FullTables(n0) && Derived(n0, n, origin) && TablesFrom(n0, n, origin)
    ensures TablesLand(n)
  {
    hide FullTables, Derived;
    SizesAgree(n0, n, origin);
    forall p: nat, i: nat | p < |n| && n[p].op.JMPP? && i <= n[p].max ensures Lands(Ops(n), p, i) {
      assert TableFrom(n0, n, origin, p);
      assert RunsOn(origin, p, n[p].max);
      EntriesAre(n0, n, origin, p, n[p].max);
    }
  }

  // ---- A table that does not keep two ----

  predicate Settled(n: seq<Node>) { forall k: nat :: k < |n| ==> !Removable(n, k) }

  /** Two entries of a table that go to the label behind it are both taken out, and then the last index leads astray. */
  lemma Spoiled(n0: seq<Node>, n: seq<Node>, origin: seq<nat>, p0: nat)
    requires FullTables(n0) && Derived(n0, n, origin) && Settled(n) && p0 < |n0| && n0[p0].op.JMPP? && FullTable(n0, p0) && !KeepsTwo(n0, p0)
    ensures !TablesLand(n)
  {
    hide FullTables;
    var m := n0[p0].max;
    var end := p0 + 2 + m;
    var p: nat :| p < |origin| && origin[p] == p0;
    var q: nat :| q < |origin| && origin[q] == end;
    Between(origin, p, q);
    forall j: nat | p < j < q ensures n[j].op.JMP? { assert n[j] == n0[origin[j]] && p0 < origin[j] < end; }
    assert p < q && n[q - 1] == n0[origin[q - 1]] && n[q] == n0[end];
    assert !Removable(n, q - 1);
    assert !Lands(Ops(n), p, m);
  }

  lemma {:induction false} Between(origin: seq<nat>, p: nat, q: nat)
    requires p <= q < |origin| && forall i, j :: 0 <= i < j < |origin| ==> origin[i] < origin[j]
    ensures forall j: nat :: p <= j <= q ==> origin[p] + (j - p) <= origin[j] <= origin[q] - (q - j)
    decreases q - p
  {
    if p < q { Between(origin, p + 1, q); }
  }

  // ---- The optimizer ----

  ghost predicate Even(nodes: seq<Node>) {
    forall n :: n in nodes ==> n.stackInc == StackInc(n.op)
  }

  lemma EvenWithout(n: seq<Node>, k: nat)
    requires Even(n) && k < |n|
    ensures Even(Without(n, k))
  {
    forall x | x in Without(n, k) ensures x in n { }
  }

  lemma SettledPairs(n: seq<Node>)
    requires Settled(n)
    ensures forall k: nat :: k + 1 < |n| ==>
        && !(n[k].op.PopPtr? && n[k + 1].op.RET?) && !(n[k].op.SUSPEND? && n[k + 1].op.SUSPEND?)
        && !(n[k].op.LINE? && n[k + 1].op.LINE?) && !(n[k].op.JMP? && n[k + 1].op == LABEL(n[k].op.l))
  {
    forall k: nat | k + 1 < |n|
      ensures !(n[k].op.PopPtr? && n[k + 1].op.RET?) && !(n[k].op.SUSPEND? && n[k + 1].op.SUSPEND?)
      ensures !(n[k].op.LINE? && n[k + 1].op.LINE?) && !(n[k].op.JMP? && n[k + 1].op == LABEL(n[k].op.l))
    {
      assert !Removable(n, k);
    }
  }

  /** Nothing before i can be taken out. */
  predicate SettledTo(n: seq<Node>, i: nat) { forall k: nat :: k < i ==> !Removable(n, k) }

  lemma SettledBefore(n: seq<Node>, k: nat, i: nat)
    requires SettledTo(n, k) && k < |n| && i < k
    ensures SettledTo(Without(n, k), i)
  {
    var n2 := Without(n, k);
    forall j: nat | j < i ensures !Removable(n2, j) {
      assert n2[j] == n[j] && n2[j + 1] == n[if j + 1 < k then j + 1 else k + 1];
      assert !Removable(n, j);
    }
  }

  /** The list in one pass from its end: a node goes if it is a pop before a return, a suspend before a suspend, a line cue
      before a line cue, or a jump before its label, in what is left of the list behind it. */
  function Spared(n: seq<Node>): (r: seq<Node>)
    ensures n != [] ==> r != []
  {
    if n == [] then []
    else
      var rest := Spared(n[1..]);
      if rest == [] then [n[0]]
      else
        var a, b := n[0].op, rest[0].op;
        if (a.PopPtr? && b.RET?) || (a.SUSPEND? && b.SUSPEND?) || (a.LINE? && b.LINE?) || (a.JMP? && b == LABEL(a.l)) then rest
        else [n[0]] + rest
  }

  /** Taking out what can be taken out does not change what is kept in the end. */
  lemma {:induction false} SparedWithout(n: seq<Node>, k: nat)
    requires Removable(n, k)
    ensures k < |n| && Spared(Without(n, k)) == Spared(n)
    decreases k
  {
    if k == 0 {
      assert Without(n, 0) == n[1..];
      assert n[1..][0] == n[1];
      var rest := Spared(n[1..][1..]);
      assert Spared(n[1..]) == rest || Spared(n[1..]) == [n[1]] + rest;
    } else {
      assert Without(n, k)[1..] == Without(n[1..], k - 1) && Without(n, k)[0] == n[0];
      assert Removable(n[1..], k - 1);
      SparedWithout(n[1..], k - 1);
    }
  }

  lemma {:induction false} SparedSettled(n: seq<Node>)
    requires Settled(n)
    ensures Spared(n) == n
    decreases |n|
  {
    if n != [] {
      forall k: nat | k < |n[1..]| ensures !Removable(n[1..], k) { assert !Removable(n, k + 1); }
      SparedSettled(n[1..]);
      assert !Removable(n, 0);
    }
  }

  /** What holds throughout: where the nodes come from and, as far as the tables allow, what they do. */
  ghost predicate Working(n0: seq<Node>, n: seq<Node>, origin: seq<nat>) {
    && Derived(n0, n, origin)
    && (FullTables(n0) && AllKeepTwo(n0) ==> TablesFrom(n0, n, origin) && forall temps: set<int> :: Carries(temps, n0, n))
    && (Even(n0) ==> Even(n) && forall largest: int :: Bounded(n0, largest) ==> Bounded(n, largest))
    && (JumpsFind(n0) ==> JumpsFind(n))
  }

  /** Every jump has its label. */
  ghost predicate JumpsFind(n: seq<Node>) {
    forall p: nat :: p < |n| && (n[p].op.JMP? || n[p].op.Jump?) ==> FindLabel(Ops(n), p, n[p].op.l).Some?
  }

  lemma FindWithout(n: seq<Node>, k: nat)
    requires JumpsFind(n) && Removable(n, k)
    ensures JumpsFind(Without(n, k))
  {
    hide FindLabel;
    var n2 := Without(n, k);
    forall p2: nat | p2 < |n2| && (n2[p2].op.JMP? || n2[p2].op.Jump?) ensures FindLabel(Ops(n2), p2, n2[p2].op.l).Some? {
      var p := if p2 < k then p2 else p2 + 1;
      ShiftAt(n, k, p);
      LabelShift(n, k, p, n[p].op.l);
    }
  }

  lemma WorkingStarts(n: seq<Node>)
    ensures Working(n, n, seq(|n|, i => i))
  {
    hide Carries, TablesFrom, Derived;
    DerivedAll(n);
    if FullTables(n) { TablesFromAll(n); }
    forall temps: set<int> ensures Carries(temps, n, n) { CarriesRefl(temps, n); }
  }

  lemma WorkingWithout(n0: seq<Node>, n: seq<Node>, origin: seq<nat>, k: nat)
    requires Working(n0, n, origin) && Removable(n, k) && k < |n| == |origin|
    ensures Working(n0, Without(n, k), OriginWithout(origin, k))
  {
    hide Carries, TablesFrom, Derived, Removable, FullTables, AllKeepTwo, Even, Bounded, TablesSpare, JumpsFind;
    DerivedWithout(n0, n, origin, k);
    if JumpsFind(n) { FindWithout(n, k); }
    if FullTables(n0) && AllKeepTwo(n0) {
      TablesFromSpare(n0, n, origin, k);
      TablesFromWithout(n0, n, origin, k);
      forall temps: set<int> ensures Carries(temps, n0, Without(n, k)) { CarriesWithout(temps, n0, n, k); }
    }
    if Even(n0) {
      EvenWithout(n, k);
      assert forall x :: x in n ==> x.stackInc == StackInc(x.op) by { EvenIs(n); }
      forall largest: int | Bounded(n0, largest) ensures Bounded(Without(n, k), largest) { BoundedWithout(n, largest, k); }
    }
  }

  lemma EvenIs(n: seq<Node>)
    requires Even(n)
    ensures forall x :: x in n ==> x.stackInc == StackInc(x.op)
  {
  }

  class ByteCode {
    var nodes: seq<Node>

    constructor (nodes: seq<Node>)
      ensures this.nodes == nodes
    {
      this.nodes := nodes;
    }

    /** Takes an instruction out; the result is its predecessor, or its successor if it was the first. */
    method DeleteInstruction(i: nat) returns (ret: nat)
      requires i + 1 < |nodes|
      modifies this
      ensures nodes == Without(old(nodes), i) && ret == if i > 0 then i - 1 else 0
    {
      nodes := nodes[..i] + nodes[i + 1..];
      ret := if i > 0 then i - 1 else 0;
    }

    function GoBack(p: nat): (r: nat) { if p >= 2 then p - 2 else 0 }

    /** Goes through the list, and a little back after every deletion. */
    method Optimize(optimizeByteCode: bool) returns (ghost origin: seq<nat>)
      modifies this
      ensures !optimizeByteCode ==> nodes == old(nodes)
      ensures Derived(old(nodes), nodes, origin)
      ensures optimizeByteCode ==> nodes == Spared(old(nodes))
      ensures optimizeByteCode ==> forall k: nat :: k + 1 < |nodes| ==>
        && !(nodes[k].op.PopPtr? && nodes[k + 1].op.RET?) && !(nodes[k].op.SUSPEND? && nodes[k + 1].op.SUSPEND?)
        && !(nodes[k].op.LINE? && nodes[k + 1].op.LINE?) && !(nodes[k].op.JMP? && nodes[k + 1].op == LABEL(nodes[k].op.l))
      ensures FullTables(old(nodes)) && AllKeepTwo(old(nodes)) ==> forall temps: set<int> :: Carries(temps, old(nodes), nodes)
      ensures FullTables(old(nodes)) && optimizeByteCode ==> (TablesLand(nodes) <==> AllKeepTwo(old(nodes)))
      ensures Even(old(nodes)) ==> Even(nodes) && forall largest: int :: Bounded(old(nodes), largest) ==> Bounded(nodes, largest)
      ensures JumpsFind(old(nodes)) ==> JumpsFind(nodes)
    {
      hide Working, Removable, Settled, SettledTo, Spared;
      ghost var n0 := nodes;
      origin := seq(|nodes|, i => i);
      WorkingStarts(nodes);
      if !optimizeByteCode {
        WorkingGives(n0, nodes, origin);
        return;
      }
      var instr := 0;
      SettledStart(nodes);
      while instr < |nodes|
        invariant 0 <= instr <= |nodes| && |origin| == |nodes|
        invariant Working(n0, nodes, origin) && SettledTo(nodes, instr) && Spared(nodes) == Spared(n0)
        decreases |nodes|, |nodes| - instr
      {
        var curr := instr;
        instr := instr + 1;
        var superfluous := IsSuperfluous(curr);
        if superfluous {
          WorkingWithout(n0, nodes, origin, curr);
          SparedWithout(nodes, curr);
          AtMostEnd(nodes, curr);
          origin := OriginWithout(origin, curr);
          ghost var before := nodes;
          instr := DeleteInstruction(curr);
          instr := GoBack(instr);
          if curr > 0 { SettledBefore(before, curr, instr); } else { SettledStart(nodes); }
        } else {
          SettledNext(nodes, curr);
        }
      }
      SettledEnd(nodes);
      SparedSettled(nodes);
      SettledPairs(nodes);
      WorkingGives(n0, nodes, origin);
      if FullTables(n0) { TablesDecided(n0, nodes, origin); }
    }

    /** Whether the instruction behind the one at i makes it superfluous. */
    method IsSuperfluous(i: nat) returns (r: bool)
      requires i < |nodes|
      ensures r <==> Removable(nodes, i)
    {
      r := false;
      if i + 1 < |nodes| {
        var currOp, instrOp := nodes[i].op, nodes[i + 1].op;
        if currOp.PopPtr? && instrOp.RET? {
          // The return restores the stack of the caller in any case
          r := true;
        } else if currOp.SUSPEND? {
          r := instrOp.SUSPEND?;
        } else if currOp.LINE? {
          r := instrOp.LINE?;
        } else if currOp.JMP? {
          r := instrOp.LABEL? && currOp.l == instrOp.l;
        }
      }
    }
  }

  lemma SettledStart(n: seq<Node>)
    ensures SettledTo(n, 0)
  {
  }

  lemma SettledNext(n: seq<Node>, k: nat)
    requires SettledTo(n, k) && !Removable(n, k)
    ensures SettledTo(n, k + 1)
  {
  }

  lemma SettledEnd(n: seq<Node>)
    requires SettledTo(n, |n|)
    ensures Settled(n)
  {
  }

  lemma WorkingGives(n0: seq<Node>, n: seq<Node>, origin: seq<nat>)
    requires Working(n0, n, origin)
    ensures Derived(n0, n, origin)
    ensures FullTables(n0) && AllKeepTwo(n0) ==> TablesFrom(n0, n, origin) && forall temps: set<int> :: Carries(temps, n0, n)
    ensures Even(n0) ==> Even(n) && forall largest: int :: Bounded(n0, largest) ==> Bounded(n, largest)
    ensures JumpsFind(n0) ==> JumpsFind(n)
  {
  }

  /** The tables still lead where they should exactly if in each the last two entries do not both go to the label behind it. */
  lemma TablesDecided(n0: seq<Node>, n: seq<Node>, origin: seq<nat>)
    requires FullTables(n0) && Derived(n0, n, origin) && Settled(n) && (AllKeepTwo(n0) ==> TablesFrom(n0, n, origin))
    ensures TablesLand(n) <==> AllKeepTwo(n0)
  {
    hide Derived, Settled, TablesLand, TablesFrom, KeepsTwo;
    if AllKeepTwo(n0) {
      TablesFromLand(n0, n, origin);
    } else {
      var p: nat :| p < |n0| && n0[p].op.JMPP? && !(FullTable(n0, p) && KeepsTwo(n0, p));
      Spoiled(n0, n, origin, p);
    }
  }

  function Plain(op: Instr, max: nat): Node { Node(op, SizeOf(op), StackInc(op), max, 0, 0, false, 0) }

  const TwoToTheEnd: seq<Node> := [Plain(JMPP(0), 1), Plain(JMP(5), 0), Plain(JMP(5), 0), Plain(LABEL(5), 0), Plain(RET(0), 0)]

  lemma TwoToTheEndIs()
    ensures FullTables(TwoToTheEnd) && !AllKeepTwo(TwoToTheEnd)
  {
    hide SizeOf, StackInc;
    var n := TwoToTheEnd;
    assert FullTable(n, 0) && !KeepsTwo(n, 0);
    forall p: nat | p < |n| && n[p].op.JMPP? ensures FullTable(n, p) { assert p == 0; }
  }

  /** Two cases that both go to the end of the switch: once both jumps are gone, the second index goes astray. */
  method SpoilTable() returns (b: ByteCode)
    ensures !TablesLand(b.nodes)
  {
    hide FullTables, AllKeepTwo, TablesLand, Derived, Settled, Carries, Even, Bounded, JumpsFind;
    TwoToTheEndIs();
    b := new ByteCode(TwoToTheEnd);
    ghost var origin := b.Optimize(true);
  }
}
