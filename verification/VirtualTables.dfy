/** Virtual method tables along a chain of single inheritance (underc/sourcecode/src/class.cpp, common.cpp,
    engine.cpp). Every class is staged in one shared buffer; class bodies do not interleave. */
module VirtualTables {
  type Name = nat
  type Sig = nat

  /** A method declaration: `fn` is its function. */
  datatype Method = Method(name: Name, sig: Sig, isVirtual: bool, fn: int)

  /** A declared function: slot 0 means it is not virtual. */
  datatype Entry = Entry(slot: nat, fn: int)

  /** The functions a class declares itself, by name and signature. */
  type Scope = map<Name, map<Sig, Entry>>

  type Key = (Name, Sig)

  // ----- what the compiler does with a declaration -----

  /** The set of functions a name finds: the nearest class that declares it at all. */
  function Near(scopes: seq<Scope>, n: Name): map<Sig, Entry> {
    if scopes == [] then map[]
    else if n in scopes[|scopes| - 1] then scopes[|scopes| - 1][n]
    else Near(scopes[..|scopes| - 1], n)
  }

  /** A slot found above 512 is taken for the first one. */
  function Clipped(slot: nat): nat { if slot > 512 then 1 else slot }

  /** The slot a declaration takes over: none when its class has the name already. */
  function InheritedSlot(outer: seq<Scope>, own: Scope, m: Method): nat {
    if m.name in own then 0
    else if m.sig in Near(outer, m.name) then Clipped(Near(outer, m.name)[m.sig].slot)
    else 0
  }

  /** So a function that would take over a slot past 512 takes over the first one instead. */
  lemma ClippedTakesFirst(vmt: seq<int>, outer: seq<Scope>, own: Scope, m: Method)
    requires m.name !in own && m.sig in Near(outer, m.name) && Near(outer, m.name)[m.sig].slot > 512 && vmt != []
    ensures Declared(vmt, outer, own, m).0 == vmt[0 := m.fn]
    ensures m.name in Declared(vmt, outer, own, m).1 && m.sig in Declared(vmt, outer, own, m).1[m.name]
    ensures Declared(vmt, outer, own, m).1[m.name][m.sig] == Entry(1, m.fn)
  {}

  function WithEntry(own: Scope, m: Method, slot: nat): Scope {
    own[m.name := (if m.name in own then own[m.name] else map[])[m.sig := Entry(slot, m.fn)]]
  }

  /** Table and own scope after a declaration; slot i is vmt[i - 1]. */
  function Declared(vmt: seq<int>, outer: seq<Scope>, own: Scope, m: Method): (seq<int>, Scope) {
    var slot := InheritedSlot(outer, own, m);
    if m.isVirtual || slot > 0 then
      if slot == 0 then (vmt + [m.fn], WithEntry(own, m, |vmt| + 1))
      else (if slot <= |vmt| then vmt[slot - 1 := m.fn] else vmt, WithEntry(own, m, slot))
    else (vmt, WithEntry(own, m, 0))
  }

  function DeclaredAll(vmt: seq<int>, outer: seq<Scope>, own: Scope, ms: seq<Method>): (seq<int>, Scope)
    decreases |ms|
  {
    if ms == [] then (vmt, own)
    else
      var (v, o) := DeclaredAll(vmt, outer, own, ms[..|ms| - 1]);
      Declared(v, outer, o, ms[|ms| - 1])
  }

  // ----- section 10.3 of ISO/IEC 14882:1998 -----

  /** The final overrider of each virtual function so far: a function with the name and signature of a virtual one is
      virtual and overrides it, whatever else its class or those between declare. */
  function Overriders(t: map<Key, int>, ms: seq<Method>): map<Key, int>
    decreases |ms|
  {
    if ms == [] then t
    else
      var u, m := Overriders(t, ms[..|ms| - 1]), ms[|ms| - 1];
      if m.isVirtual || (m.name, m.sig) in u then u[(m.name, m.sig) := m.fn] else u
  }

  /** The compiler's lookup gets to the function this one overrides, if there is one. */
  predicate Visible(outer: seq<Scope>, own: Scope, m: Method, t: map<Key, int>) {
    (m.name, m.sig) in t ==> m.name !in own && m.sig in Near(outer, m.name)
  }

  // ----- the connection -----

  /** `p` gives each virtual function its own slot, and the slot holds its final overrider. */
  ghost predicate SlotsHold(vmt: seq<int>, t: map<Key, int>, p: map<Key, nat>) {
    && p.Keys == t.Keys
    && (forall k {:trigger p[k]} :: k in p ==> 1 <= p[k] <= |vmt| && vmt[p[k] - 1] == t[k])
    && (forall k, j {:trigger p[k], p[j]} :: k in p && j in p && p[k] == p[j] ==> k == j)
  }

  function SlotIn(p: map<Key, nat>, k: Key): nat { if k in p then p[k] else 0 }

  /** Every function a name can find knows its slot. */
  ghost predicate InSight(outer: seq<Scope>, own: Scope, p: map<Key, nat>) {
    forall n: Name, s: Sig {:trigger Near(outer + [own], n)[s]} :: s in Near(outer + [own], n) ==>
      Near(outer + [own], n)[s].slot == SlotIn(p, (n, s))
  }

  ghost predicate Inv(vmt: seq<int>, outer: seq<Scope>, own: Scope, t: map<Key, int>, p: map<Key, nat>) {
    SlotsHold(vmt, t, p) && InSight(outer, own, p)
  }

  ghost predicate Extends(p: map<Key, nat>, q: map<Key, nat>) {
    p.Keys <= q.Keys && forall k :: k in p ==> q[k] == p[k]
  }

  lemma NearOwn(outer: seq<Scope>, own: Scope, n: Name)
    ensures Near(outer + [own], n) == if n in own then own[n] else Near(outer, n)
  {
    assert (outer + [own])[..|outer|] == outer;
  }

  /** What the lookup finds for a declaration outside names its own class already has. */
  lemma FoundSlot(outer: seq<Scope>, own: Scope, p: map<Key, nat>, m: Method)
    requires InSight(outer, own, p) && m.name !in own && m.sig in Near(outer, m.name)
    ensures Near(outer, m.name)[m.sig].slot == SlotIn(p, (m.name, m.sig))
  {
    NearOwn(outer, own, m.name);
    assert Near(outer + [own], m.name)[m.sig] == Near(outer, m.name)[m.sig];
  }

  lemma SightKeeps(outer: seq<Scope>, own: Scope, p: map<Key, nat>, q: map<Key, nat>, m: Method)
    requires InSight(outer, own, p) && forall k: Key :: k != (m.name, m.sig) ==> SlotIn(p, k) == SlotIn(q, k)
    ensures InSight(outer, WithEntry(own, m, SlotIn(q, (m.name, m.sig))), q)
  {
    hide Near, SlotIn;
    var o := WithEntry(own, m, SlotIn(q, (m.name, m.sig)));
    forall n: Name, s: Sig | s in Near(outer + [o], n)
      ensures Near(outer + [o], n)[s].slot == SlotIn(q, (n, s))
    {
      NearOwn(outer, own, n);
      NearOwn(outer, o, n);
      if n != m.name || s != m.sig {
        assert s in Near(outer + [own], n) && Near(outer + [own], n)[s] == Near(outer + [o], n)[s];
      }
    }
  }

  lemma Overwrite(vmt: seq<int>, t: map<Key, int>, p: map<Key, nat>, k: Key, fn: int)
    requires SlotsHold(vmt, t, p) && k in p
    ensures 1 <= p[k] <= |vmt| && SlotsHold(vmt[p[k] - 1 := fn], t[k := fn], p)
  {
    assert t[k := fn].Keys == t.Keys;
  }

  lemma Append(vmt: seq<int>, t: map<Key, int>, p: map<Key, nat>, k: Key, fn: int)
    requires SlotsHold(vmt, t, p) && k !in p
    ensures SlotsHold(vmt + [fn], t[k := fn], p[k := |vmt| + 1])
  {
    assert t[k := fn].Keys == t.Keys + {k} == p[k := |vmt| + 1].Keys;
  }

  /** A visible declaration: the table stays what the standard says, and slots given before stay. */
  lemma DeclareKeeps(vmt: seq<int>, outer: seq<Scope>, own: Scope, t: map<Key, int>, p: map<Key, nat>, m: Method)
    returns (q: map<Key, nat>)
    requires Inv(vmt, outer, own, t, p) && Visible(outer, own, m, t) && |vmt| < 512
    ensures var (v, o) := Declared(vmt, outer, own, m);
            Inv(v, outer, o, Overriders(t, [m]), q) && Extends(p, q) && |vmt| <= |v| <= |vmt| + 1
  {
    var k := (m.name, m.sig);
    assert [m][..0] == [] && Overriders(t, []) == t;
    q := if k !in t && m.isVirtual then p[k := |vmt| + 1] else p;
    if m.name !in own && m.sig in Near(outer, m.name) {
      FoundSlot(outer, own, p, m);
    }
    assert InheritedSlot(outer, own, m) == SlotIn(p, k);
    SightKeeps(outer, own, p, q, m);
    if k in p {
      Overwrite(vmt, t, p, k, m.fn);
    } else {
      Append(vmt, t, p, k, m.fn);
    }
    assert k in p <==> k in t;
    hide InSight, Near, WithEntry, InheritedSlot, SlotsHold;
  }

  /** A function with the name and signature of a virtual one gets into the table in its place exactly when the
      lookup sees what it overrides; hidden from it, the old function stays in the table that calls through a base
      class use. */
  lemma OverridesExactly(vmt: seq<int>, outer: seq<Scope>, own: Scope, t: map<Key, int>, p: map<Key, nat>, m: Method)
    requires Inv(vmt, outer, own, t, p) && |vmt| < 512
    requires (m.name, m.sig) in t && m.fn != t[(m.name, m.sig)]
    ensures var v := Declared(vmt, outer, own, m).0;
            && |vmt| <= |v|
            && v[p[(m.name, m.sig)] - 1] == (if Visible(outer, own, m, t) then m.fn else t[(m.name, m.sig)])
            && Overriders(t, [m]) == t[(m.name, m.sig) := m.fn]
  {
    assert [m][..0] == [] && Overriders(t, []) == t;
    if Visible(outer, own, m, t) {
      FoundSlot(outer, own, p, m);
    }
  }

  // ----- whole classes -----

  /** Every declaration of the class is visible where it stands. */
  predicate AllVisible(vmt: seq<int>, outer: seq<Scope>, ms: seq<Method>, t: map<Key, int>)
    decreases |ms|
  {
    ms != [] ==>
      var n := |ms| - 1;
      && AllVisible(vmt, outer, ms[..n], t)
      && Visible(outer, DeclaredAll(vmt, outer, map[], ms[..n]).1, ms[n], Overriders(t, ms[..n]))
  }

  lemma {:induction false} DeclareAllKeeps(vmt: seq<int>, outer: seq<Scope>, t: map<Key, int>, p: map<Key, nat>,
      ms: seq<Method>)
    returns (q: map<Key, nat>)
    requires Inv(vmt, outer, map[], t, p) && AllVisible(vmt, outer, ms, t) && |vmt| + |ms| <= 512
    ensures var (v, o) := DeclaredAll(vmt, outer, map[], ms);
            Inv(v, outer, o, Overriders(t, ms), q) && Extends(p, q) && |v| <= |vmt| + |ms|
    decreases |ms|
  {
    hide Inv, Declared, Visible;
    if ms == [] {
      q := p;
    } else {
      var n := |ms| - 1;
      var r := DeclareAllKeeps(vmt, outer, t, p, ms[..n]);
      var (v, o) := DeclaredAll(vmt, outer, map[], ms[..n]);
      q := DeclareKeeps(v, outer, o, Overriders(t, ms[..n]), r, ms[n]);
      OverridersStep(t, ms);
    }
  }

  lemma OverridersStep(t: map<Key, int>, ms: seq<Method>)
    requires ms != []
    ensures Overriders(t, ms) == Overriders(Overriders(t, ms[..|ms| - 1]), [ms[|ms| - 1]])
  {
    var m := ms[|ms| - 1];
    var u := Overriders(t, ms[..|ms| - 1]);
    assert [m][..0] == [] && Overriders(u, []) == u;
  }

  /** A chain of classes, the root first: table and scopes of the last one. */
  function Build(chain: seq<seq<Method>>): (seq<int>, seq<Scope>)
    decreases |chain|
  {
    if chain == [] then ([], [])
    else
      var n := |chain| - 1;
      var (v, outer) := Build(chain[..n]);
      var (w, own) := DeclaredAll(v, outer, map[], chain[n]);
      (w, outer + [own])
  }

  function FinalOverriders(chain: seq<seq<Method>>): map<Key, int>
    decreases |chain|
  {
    if chain == [] then map[] else Overriders(FinalOverriders(chain[..|chain| - 1]), chain[|chain| - 1])
  }

  /** Tables fit, and no declaration hides the virtual function a later one means to override. */
  predicate Regular(chain: seq<seq<Method>>)
    decreases |chain|
  {
    chain != [] ==>
      var n := |chain| - 1;
      && Regular(chain[..n]) && |Build(chain[..n]).0| + |chain[n]| < MAX_VMT_ENTRIES
      && AllVisible(Build(chain[..n]).0, Build(chain[..n]).1, chain[n], FinalOverriders(chain[..n]))
  }

  const MAX_VMT_ENTRIES: nat := 250

  lemma NextClass(vmt: seq<int>, outer: seq<Scope>, own: Scope, t: map<Key, int>, p: map<Key, nat>)
    requires Inv(vmt, outer, own, t, p)
    ensures Inv(vmt, outer + [own], map[], t, p)
  {
    forall n: Name
      ensures Near(outer + [own] + [map[]], n) == Near(outer + [own], n)
    {
      NearOwn(outer + [own], map[], n);
    }
  }

  /** The table of every class of the chain. */
  lemma {:induction false} ChainTables(chain: seq<seq<Method>>)
    returns (p: map<Key, nat>)
    requires Regular(chain)
    ensures Inv(Build(chain).0, Build(chain).1, map[], FinalOverriders(chain), p)
    decreases |chain|
  {
    hide Inv, AllVisible;
    if chain == [] {
      p := map[];
      EmptyChain();
    } else {
      var n := |chain| - 1;
      var r := ChainTables(chain[..n]);
      var (v, outer) := Build(chain[..n]);
      var (w, own) := DeclaredAll(v, outer, map[], chain[n]);
      p := DeclareAllKeeps(v, outer, FinalOverriders(chain[..n]), r, chain[n]);
      NextClass(w, outer, own, FinalOverriders(chain), p);
    }
  }

  lemma EmptyChain()
    ensures Inv([], [], map[], map[], map[])
  {
    forall n: Name
      ensures Near([] + [map[]], n) == map[]
    {
      NearOwn([], map[], n);
    }
  }

  /** A derived class's table extends its base's: the slots stay where they are. */
  lemma {:induction false} SlotsStay(chain: seq<seq<Method>>, i: nat)
    returns (p: map<Key, nat>, q: map<Key, nat>)
    requires Regular(chain) && i <= |chain|
    ensures Regular(chain[..i]) && Extends(p, q)
    ensures Inv(Build(chain[..i]).0, Build(chain[..i]).1, map[], FinalOverriders(chain[..i]), p)
    ensures Inv(Build(chain).0, Build(chain).1, map[], FinalOverriders(chain), q)
    decreases |chain|
  {
    hide Inv, AllVisible;
    if i == |chain| {
      assert chain[..i] == chain;
      p := ChainTables(chain);
      q := p;
    } else {
      var n := |chain| - 1;
      assert chain[..n][..i] == chain[..i];
      var r;
      p, r := SlotsStay(chain[..n], i);
      var (v, outer) := Build(chain[..n]);
      var (w, own) := DeclaredAll(v, outer, map[], chain[n]);
      q := DeclareAllKeeps(v, outer, FinalOverriders(chain[..n]), r, chain[n]);
      NextClass(w, outer, own, FinalOverriders(chain), q);
    }
  }

  // ----- every declaration is found -----

  /** A name is looked up in the nearest class that declares it at all, whatever signatures it has there. */
  lemma {:induction false} NearExactly(scopes: seq<Scope>, n: Name, i: nat)
    requires i <= |scopes| && forall j :: i <= j < |scopes| ==> n !in scopes[j]
    ensures Near(scopes, n) == if i == 0 then map[]
                               else if n in scopes[i - 1] then scopes[i - 1][n] else Near(scopes[..i - 1], n)
    decreases |scopes|
  {
    if i < |scopes| {
      NearExactly(scopes[..|scopes| - 1], n, i);
      assert i > 0 ==> scopes[..|scopes| - 1][..i - 1] == scopes[..i - 1];
    } else {
      assert scopes[..i] == scopes;
    }
  }

  /** The last declaration of a name and signature, or -1. */
  function LastOf(ms: seq<Method>, n: Name, s: Sig): (k: int)
    ensures -1 <= k < |ms| && (k >= 0 ==> ms[k].name == n && ms[k].sig == s)
    ensures forall j :: k < j < |ms| ==> ms[j].name != n || ms[j].sig != s
  {
    if ms == [] then -1
    else
      var m := |ms| - 1;
      if ms[m].name == n && ms[m].sig == s then m else LastOf(ms[..m], n, s)
  }

  /** A class's own scope has just its declarations, each overload under its signature. */
  lemma {:induction false} OwnScope(vmt: seq<int>, outer: seq<Scope>, ms: seq<Method>, n: Name, s: Sig)
    ensures var own, k := DeclaredAll(vmt, outer, map[], ms).1, LastOf(ms, n, s);
            (n in own && s in own[n] <==> k >= 0) && (k >= 0 ==> own[n][s].fn == ms[k].fn)
    decreases |ms|
  {
    hide InheritedSlot;
    if ms != [] {
      OwnScope(vmt, outer, ms[..|ms| - 1], n, s);
    }
  }

  /** All declarations along the chain, the root's first. */
  function Flat(chain: seq<seq<Method>>): seq<Method>
    decreases |chain|
  {
    if chain == [] then [] else Flat(chain[..|chain| - 1]) + chain[|chain| - 1]
  }

  lemma {:induction false} OverridersJoin(t: map<Key, int>, a: seq<Method>, b: seq<Method>)
    ensures Overriders(t, a + b) == Overriders(Overriders(t, a), b)
    decreases |b|
  {
    if b == [] {
      assert a + b == a;
    } else {
      assert (a + b)[..|a + b| - 1] == a + b[..|b| - 1];
      OverridersJoin(t, a, b[..|b| - 1]);
    }
  }

  lemma {:induction false} FinalIsFlat(chain: seq<seq<Method>>)
    ensures FinalOverriders(chain) == Overriders(map[], Flat(chain))
    decreases |chain|
  {
    if chain != [] {
      FinalIsFlat(chain[..|chain| - 1]);
      OverridersJoin(map[], Flat(chain[..|chain| - 1]), chain[|chain| - 1]);
    }
  }

  ghost predicate SomeVirtual(ms: seq<Method>, n: Name, s: Sig) {
    exists k :: 0 <= k < |ms| && ms[k].name == n && ms[k].sig == s && ms[k].isVirtual
  }

  lemma {:induction false} LastOverrides(ms: seq<Method>, n: Name, s: Sig)
    ensures (n, s) in Overriders(map[], ms) <==> SomeVirtual(ms, n, s)
    ensures SomeVirtual(ms, n, s) ==> LastOf(ms, n, s) >= 0 && Overriders(map[], ms)[(n, s)] == ms[LastOf(ms, n, s)].fn
    decreases |ms|
  {
    if ms != [] {
      var m := |ms| - 1;
      LastOverrides(ms[..m], n, s);
      if SomeVirtual(ms, n, s) && !(ms[m].name == n && ms[m].sig == s && ms[m].isVirtual) {
        var k :| 0 <= k < |ms| && ms[k].name == n && ms[k].sig == s && ms[k].isVirtual;
        assert ms[..m][k] == ms[k];
      }
      if SomeVirtual(ms[..m], n, s) {
        var k :| 0 <= k < m && ms[..m][k].name == n && ms[..m][k].sig == s && ms[..m][k].isVirtual;
        assert ms[k] == ms[..m][k];
      }
    }
  }

  /** A function is virtual when some class of the chain declares it so, and its final overrider is then the last of its
      declarations. */
  lemma FinalExactly(chain: seq<seq<Method>>, n: Name, s: Sig)
    ensures (n, s) in FinalOverriders(chain) <==> SomeVirtual(Flat(chain), n, s)
    ensures (n, s) in FinalOverriders(chain) ==>
              var k := LastOf(Flat(chain), n, s);
              k >= 0 && FinalOverriders(chain)[(n, s)] == Flat(chain)[k].fn
  {
    FinalIsFlat(chain);
    LastOverrides(Flat(chain), n, s);
  }

  /** A call of a function that class i of the chain declares, through that class: the compiler finds the class's last
      declaration of it, and calls it directly when it is not virtual; when it is, the slot leads to the final overrider
      in the object's table, of whatever class derived from it the object is. */
  lemma DeclaredCall(chain: seq<seq<Method>>, i: nat, n: Name, s: Sig)
    requires Regular(chain) && i < |chain| && LastOf(chain[i], n, s) >= 0
    ensures var near := Near(Build(chain[..i + 1]).1, n);
            && s in near && near[s].fn == chain[i][LastOf(chain[i], n, s)].fn
            && (near[s].slot > 0 <==> SomeVirtual(Flat(chain[..i + 1]), n, s))
            && (near[s].slot > 0 ==>
                  && near[s].slot <= |Build(chain).0| && LastOf(Flat(chain), n, s) >= 0
                  && Build(chain).0[near[s].slot - 1] == Flat(chain)[LastOf(Flat(chain), n, s)].fn)
  {
    hide FinalOverriders, Near, Regular, Inv, LastOf, SomeVirtual;
    var part := chain[..i + 1];
    var near := Near(Build(part).1, n);
    ScopeOnTop(chain, i, n, s);
    var p, q := SlotsStay(chain, i + 1);
    SlotSame(Build(part).0, Build(part).1, FinalOverriders(part), p, n, s);
    FinalExactly(part, n, s);
    if near[s].slot > 0 {
      VirtualCall(chain, i + 1, n, s);
      FinalExactly(chain, n, s);
    }
  }

  lemma ScopeOnTop(chain: seq<seq<Method>>, i: nat, n: Name, s: Sig)
    requires i < |chain| && LastOf(chain[i], n, s) >= 0
    ensures var near := Near(Build(chain[..i + 1]).1, n);
            s in near && near[s].fn == chain[i][LastOf(chain[i], n, s)].fn
  {
    var part := chain[..i + 1];
    assert part[..i] == chain[..i];
    var (v, outer) := Build(chain[..i]);
    OwnScope(v, outer, chain[i], n, s);
    NearOwn(outer, DeclaredAll(v, outer, map[], chain[i]).1, n);
  }

  lemma SlotSame(vmt: seq<int>, scopes: seq<Scope>, t: map<Key, int>, p: map<Key, nat>, n: Name, s: Sig)
    requires Inv(vmt, scopes, map[], t, p) && s in Near(scopes, n)
    ensures Near(scopes, n)[s].slot > 0 <==> (n, s) in t
  {
    NearOwn(scopes, map[], n);
    assert s in Near(scopes + [map[]], n);
    assert Near(scopes + [map[]], n)[s].slot == SlotIn(p, (n, s));
  }

  /** A virtual call: the compiler takes the slot of the function it finds in the static class, the engine what the
      object's table holds there. Whatever class derived from it the object is of, that is the final overrider. */
  lemma VirtualCall(chain: seq<seq<Method>>, i: nat, n: Name, s: Sig)
    requires Regular(chain) && i <= |chain|
    requires s in Near(Build(chain[..i]).1, n) && Near(Build(chain[..i]).1, n)[s].slot > 0
    ensures var slot := Near(Build(chain[..i]).1, n)[s].slot;
            && slot <= |Build(chain).0| && (n, s) in FinalOverriders(chain)
            && Build(chain).0[slot - 1] == FinalOverriders(chain)[(n, s)]
  {
    hide Build, FinalOverriders, Near, Regular, Inv;
    var p, q := SlotsStay(chain, i);
    SlotKnown(Build(chain[..i]).0, Build(chain[..i]).1, FinalOverriders(chain[..i]), p, n, s);
    SlotHolds(Build(chain).0, Build(chain).1, FinalOverriders(chain), q, (n, s));
  }

  lemma SlotKnown(vmt: seq<int>, scopes: seq<Scope>, t: map<Key, int>, p: map<Key, nat>, n: Name, s: Sig)
    requires Inv(vmt, scopes, map[], t, p) && s in Near(scopes, n) && Near(scopes, n)[s].slot > 0
    ensures (n, s) in p && Near(scopes, n)[s].slot == p[(n, s)]
  {
    NearOwn(scopes, map[], n);
    assert s in Near(scopes + [map[]], n);
    assert Near(scopes + [map[]], n)[s].slot == SlotIn(p, (n, s));
  }

  lemma SlotHolds(vmt: seq<int>, scopes: seq<Scope>, t: map<Key, int>, p: map<Key, nat>, k: Key)
    requires Inv(vmt, scopes, map[], t, p) && k in p
    ensures k in t && 1 <= p[k] <= |vmt| && vmt[p[k] - 1] == t[k]
  {}

  // ----- without overloading every chain is regular -----

  /** No name has two signatures, and no class declares one twice. */
  predicate NoOverloads(chain: seq<seq<Method>>) {
    OneSignature(Flat(chain)) && forall c :: 0 <= c < |chain| ==> OnceEach(chain[c])
  }

  predicate OneSignature(ms: seq<Method>) {
    forall i, j :: 0 <= i < |ms| && 0 <= j < |ms| && ms[i].name == ms[j].name ==> ms[i].sig == ms[j].sig
  }

  predicate OnceEach(ms: seq<Method>) { forall i, j :: 0 <= i < j < |ms| ==> ms[i].name != ms[j].name }

  /** Some declaration of the chain has the name, and then its signature. */
  ghost predicate Declares(chain: seq<seq<Method>>, n: Name, s: Sig) {
    exists k :: 0 <= k < |Flat(chain)| && Flat(chain)[k].name == n && Flat(chain)[k].sig == s
  }

  lemma {:induction false} OwnNames(vmt: seq<int>, outer: seq<Scope>, ms: seq<Method>, n: Name)
    ensures n in DeclaredAll(vmt, outer, map[], ms).1 <==> exists k :: 0 <= k < |ms| && ms[k].name == n
    ensures |DeclaredAll(vmt, outer, map[], ms).0| <= |vmt| + |ms|
    decreases |ms|
  {
    hide InheritedSlot;
    if ms != [] {
      var m := |ms| - 1;
      OwnNames(vmt, outer, ms[..m], n);
      if exists k :: 0 <= k < |ms| && ms[k].name == n {
        var k :| 0 <= k < |ms| && ms[k].name == n;
        assert k < m ==> ms[..m][k].name == n;
      }
    }
  }

  /** What the lookup of a declared name finds has its signature. */
  lemma {:induction false} NearDeclares(chain: seq<seq<Method>>, n: Name, s: Sig)
    requires NoOverloads(chain) && Declares(chain, n, s)
    ensures s in Near(Build(chain).1, n)
    decreases |chain|
  {
    var c := |chain| - 1;
    var (v, outer) := Build(chain[..c]);
    var own := DeclaredAll(v, outer, map[], chain[c]).1;
    var flat := Flat(chain[..c]);
    assert Flat(chain) == flat + chain[c];
    NearOwn(outer, own, n);
    OwnNames(v, outer, chain[c], n);
    var k :| 0 <= k < |Flat(chain)| && Flat(chain)[k].name == n && Flat(chain)[k].sig == s;
    if k >= |flat| {
      assert Flat(chain)[k] == chain[c][k - |flat|];
    }
    if n in own {
      var j :| 0 <= j < |chain[c]| && chain[c][j].name == n;
      assert Flat(chain)[|flat| + j] == chain[c][j];
      OwnScope(v, outer, chain[c], n, s);
    } else {
      assert flat[k] == Flat(chain)[k];
      FewerOverloads(chain);
      assert Declares(chain[..c], n, s);
      NearDeclares(chain[..c], n, s);
    }
  }

  lemma FewerOverloads(chain: seq<seq<Method>>)
    requires NoOverloads(chain) && chain != []
    ensures NoOverloads(chain[..|chain| - 1]) && |Flat(chain)| == |Flat(chain[..|chain| - 1])| + |chain[|chain| - 1]|
  {
    hide OnceEach, OneSignature;
    var part := chain[..|chain| - 1];
    assert Flat(chain) == Flat(part) + chain[|chain| - 1];
    OneSignatureBefore(Flat(part), chain[|chain| - 1]);
  }

  lemma OneSignatureBefore(a: seq<Method>, b: seq<Method>)
    requires OneSignature(a + b)
    ensures OneSignature(a)
  {
    forall i, j | 0 <= i < |a| && 0 <= j < |a| && a[i].name == a[j].name
      ensures a[i].sig == a[j].sig
    {
      assert (a + b)[i] == a[i] && (a + b)[j] == a[j];
    }
  }

  lemma {:induction false} PrefixVisible(chain: seq<seq<Method>>, ms: seq<Method>, k: nat)
    requires chain != [] && NoOverloads(chain) && ms == chain[|chain| - 1] && k <= |ms|
    ensures var part := chain[..|chain| - 1];
            AllVisible(Build(part).0, Build(part).1, ms[..k], FinalOverriders(part))
    decreases k
  {
    hide Build, FinalOverriders, NoOverloads;
    if k > 0 {
      PrefixVisible(chain, ms, k - 1);
      assert ms[..k][..k - 1] == ms[..k - 1];
      OneVisible(chain, ms, k - 1);
    }
  }

  lemma OneVisible(chain: seq<seq<Method>>, ms: seq<Method>, k: nat)
    requires chain != [] && NoOverloads(chain) && ms == chain[|chain| - 1] && k < |ms|
    ensures var part := chain[..|chain| - 1];
            Visible(Build(part).1, DeclaredAll(Build(part).0, Build(part).1, map[], ms[..k]).1, ms[k],
                    Overriders(FinalOverriders(part), ms[..k]))
  {
    hide Build, Near;
    var part, m := chain[..|chain| - 1], ms[k];
    OwnNames(Build(part).0, Build(part).1, ms[..k], m.name);
    assert forall j :: 0 <= j < k ==> ms[..k][j] == ms[j];
    if (m.name, m.sig) in Overriders(FinalOverriders(part), ms[..k]) {
      NewOverriders(FinalOverriders(part), ms[..k], (m.name, m.sig));
      FinalExactly(part, m.name, m.sig);
      var i :| 0 <= i < |Flat(part)| && Flat(part)[i].name == m.name && Flat(part)[i].sig == m.sig;
      FewerOverloads(chain);
      NearDeclares(part, m.name, m.sig);
    }
  }

  lemma {:induction false} NewOverriders(t: map<Key, int>, ms: seq<Method>, k: Key)
    requires k in Overriders(t, ms) && forall j :: 0 <= j < |ms| ==> ms[j].name != k.0
    ensures k in t
    decreases |ms|
  {
    if ms != [] {
      NewOverriders(t, ms[..|ms| - 1], k);
    }
  }

  lemma {:induction false} TableSize(chain: seq<seq<Method>>)
    ensures |Build(chain).0| <= |Flat(chain)|
    decreases |chain|
  {
    if chain != [] {
      var c := |chain| - 1;
      TableSize(chain[..c]);
      var (v, outer) := Build(chain[..c]);
      OwnNames(v, outer, chain[c], 0);
    }
  }

  /** Without overloading, and with fewer than 250 declarations in all, every override is seen: the chain is
      regular, and all virtual calls along it go where they should. */
  lemma {:induction false} NoOverloadsRegular(chain: seq<seq<Method>>)
    requires NoOverloads(chain) && |Flat(chain)| < 250
    ensures Regular(chain)
    decreases |chain|
  {
    hide Build, NoOverloads, AllVisible, FinalOverriders;
    if chain != [] {
      var c := |chain| - 1;
      FewerOverloads(chain);
      NoOverloadsRegular(chain[..c]);
      TableSize(chain[..c]);
      PrefixVisible(chain, chain[c], |chain[c]|);
      assert chain[c][..|chain[c]|] == chain[c];
    }
  }

  // ----- objects: built with CCALL, called with VCALL -----

  /** What of the engine these calls use: mOP, the hidden table pointer of every object (the whole table, the class
      pointer first), and the functions started so far. */
  datatype Objects = Objects(op: nat, tables: map<nat, seq<int>>, started: seq<int>)

  /** mOP moves to an object; a constructor called with the table of its class; a plain call; a virtual call. */
  datatype Call = SetObject(o: nat) | CCall(fn: int, table: seq<int>) | Plain(fn: int) | VCall(slot: nat)

  /** A virtual call on an object without that slot does nothing here: nothing is claimed of it. */
  function Does(t: Objects, c: Call): Objects {
    match c
    case SetObject(o) => t.(op := o)
    case CCall(fn, table) => t.(tables := t.tables[t.op := table], started := t.started + [fn])
    case Plain(fn) => t.(started := t.started + [fn])
    case VCall(slot) =>
      if t.op in t.tables && slot < |t.tables[t.op]| then t.(started := t.started + [t.tables[t.op][slot]]) else t
  }

  function DoesAll(t: Objects, cs: seq<Call>): Objects
    decreases |cs|
  {
    if cs == [] then t else DoesAll(Does(t, cs[0]), cs[1..])
  }

  /** No constructor is called with a table on o again: those of its base classes, from inside its own, are plain
      calls. */
  predicate BuiltOnce(t: Objects, cs: seq<Call>, o: nat)
    decreases |cs|
  {
    cs != [] ==> !(cs[0].CCall? && t.op == o) && BuiltOnce(Does(t, cs[0]), cs[1..], o)
  }

  lemma {:induction false} TableStays(t: Objects, cs: seq<Call>, o: nat)
    requires o in t.tables && BuiltOnce(t, cs, o)
    ensures o in DoesAll(t, cs).tables && DoesAll(t, cs).tables[o] == t.tables[o]
    decreases |cs|
  {
    if cs != [] {
      TableStays(Does(t, cs[0]), cs[1..], o);
    }
  }

  /** The base classes' constructors that run first. */
  lemma {:induction false} BasesBuiltPlainly(t: Objects, cs: seq<Call>, o: nat)
    requires forall k :: 0 <= k < |cs| ==> cs[k].Plain?
    ensures BuiltOnce(t, cs, o)
    ensures DoesAll(t, cs).op == t.op && DoesAll(t, cs).tables == t.tables
    ensures var started := DoesAll(t, cs).started;
            && |started| == |t.started| + |cs| && t.started <= started
            && forall k :: 0 <= k < |cs| ==> started[|t.started| + k] == cs[k].fn
    decreases |cs|
  {
    if cs != [] {
      BasesBuiltPlainly(Does(t, cs[0]), cs[1..], o);
      var started := DoesAll(t, cs).started;
      assert started[..|t.started|] == started[..|t.started| + 1][..|t.started|];
      forall k | 0 <= k < |cs|
        ensures started[|t.started| + k] == cs[k].fn
      {
        if k == 0 {
          assert started[|t.started|] == started[..|t.started| + 1][|t.started|];
        } else {
          assert cs[1..][k - 1] == cs[k];
        }
      }
    }
  }

  /** The object after its constructor has been called with its class's table. */
  function Constructed(t: Objects, o: nat, ctor: int, self: int, vmt: seq<int>): Objects {
    Does(Does(t, SetObject(o)), CCall(ctor, [self] + vmt))
  }

  /** A virtual call on an object, through any class its own derives from, however much has been run and built since its
      construction: the function started is the final overrider in the object's class. */
  lemma ConstructedCall(chain: seq<seq<Method>>, i: nat, n: Name, s: Sig, t: Objects, o: nat, ctor: int, self: int,
      cs: seq<Call>)
    requires Regular(chain) && i <= |chain|
    requires s in Near(Build(chain[..i]).1, n) && Near(Build(chain[..i]).1, n)[s].slot > 0
    requires BuiltOnce(Constructed(t, o, ctor, self, Build(chain).0), cs, o)
    ensures var u := Does(DoesAll(Constructed(t, o, ctor, self, Build(chain).0), cs), SetObject(o));
            && u.op == o && o in u.tables && u.tables[o] == [self] + Build(chain).0
            && Constructed(t, o, ctor, self, Build(chain).0).started == t.started + [ctor]
            && (n, s) in FinalOverriders(chain)
            && Does(u, VCall(Near(Build(chain[..i]).1, n)[s].slot)).started
               == u.started + [FinalOverriders(chain)[(n, s)]]
  {
    hide Build, FinalOverriders, Near, Regular;
    VirtualCall(chain, i, n, s);
    TableStays(Constructed(t, o, ctor, self, Build(chain).0), cs, o);
  }

  // ----- the shared staging buffer -----

  class Class {
    const self: int
    var slotId: nat
    var vmt: seq<int>
    var scope: Scope

    constructor (self: int)
      ensures this.self == self && slotId == 0 && vmt == [] && scope == map[]
    {
      this.self, slotId, vmt, scope := self, 0, [], map[];
    }

    /** Closed: a class with slots has its own copy of the table, the class pointer first. */
    ghost predicate Closed(table: seq<int>)
      reads this
    {
      slotId == |table| && vmt == if table == [] then [] else [self] + table
    }
  }

  class Staging {
    const mVMT: array<int>

    constructor ()
      ensures mVMT.Length == MAX_VMT_ENTRIES && fresh(mVMT)
    {
      mVMT := new int[MAX_VMT_ENTRIES](_ => 0);
    }

    ghost function Table(c: Class): seq<int>
      requires c.slotId < mVMT.Length
      reads c, mVMT
    {
      mVMT[1..c.slotId + 1]
    }

    /** The base's table is copied into the buffer. */
    method SetBaseClass(c: Class, base: Class?, ghost table: seq<int>)
      requires base != c && |table| < mVMT.Length && if base == null then table == [] else base.Closed(table)
      modifies c, mVMT
      ensures c.slotId == |table| && Table(c) == table && c.vmt == [] && c.scope == map[]
    {
      c.vmt, c.scope, c.slotId := [], map[], 0;
      if base != null {
        c.slotId := base.slotId;
        if base.vmt != [] {
          var i := 0;
          while i < c.slotId + 1
            modifies mVMT
            invariant 0 <= i <= c.slotId + 1 && mVMT[..i] == base.vmt[..i]
          {
            mVMT[i] := base.vmt[i];
            i := i + 1;
          }
          assert mVMT[1..i] == mVMT[..i][1..] == base.vmt[1..] == table;
        }
      }
    }

    method GenerateFunction(c: Class, outer: seq<Scope>, m: Method)
      requires c.slotId + 1 < mVMT.Length && InheritedSlot(outer, c.scope, m) <= c.slotId
      modifies c, mVMT
      ensures c.slotId < mVMT.Length && c.vmt == old(c.vmt)
      ensures (Table(c), c.scope) == Declared(old(Table(c)), outer, old(c.scope), m)
    {
      var slot := InheritedSlot(outer, c.scope, m);
      ghost var before := Table(c);
      if m.isVirtual || slot > 0 {
        if slot == 0 {
          c.slotId := c.slotId + 1;
          slot := c.slotId;
        }
        mVMT[slot] := m.fn;
        assert Table(c) == Declared(before, outer, c.scope, m).0;
      }
      c.scope := WithEntry(c.scope, m, slot);
    }

    method ConstructVMT(c: Class)
      requires c.slotId < mVMT.Length && c.vmt == []
      modifies c`vmt, mVMT
      ensures c.Closed(old(Table(c)))
    {
      if c.slotId > 0 {
        ghost var table := Table(c);
        mVMT[0] := c.self;
        c.vmt := mVMT[..c.slotId + 1];
        assert c.vmt[1..] == table;
      }
    }

    /** A class from its head to its closing brace, with nothing else staged meanwhile. */
    method DefineClass(self: int, base: Class?, outer: seq<Scope>, ms: seq<Method>, ghost table: seq<int>,
        ghost t: map<Key, int>, ghost p: map<Key, nat>)
      returns (c: Class)
      requires |table| + |ms| < mVMT.Length <= MAX_VMT_ENTRIES
      requires if base == null then table == [] else base.Closed(table)
      requires Inv(table, outer, map[], t, p) && AllVisible(table, outer, ms, t)
      modifies mVMT
      ensures fresh(c) && c.Closed(DeclaredAll(table, outer, map[], ms).0)
              && c.scope == DeclaredAll(table, outer, map[], ms).1
    {
      hide Inv, Declared, InheritedSlot, Visible;
      c := new Class(self);
      SetBaseClass(c, base, table);
      ghost var q := p;
      var k := 0;
      assert ms[..0] == [];
      while k < |ms|
        modifies c, mVMT
        invariant 0 <= k <= |ms| && c.slotId < mVMT.Length && c.vmt == [] && c.slotId <= |table| + k
        invariant (Table(c), c.scope) == DeclaredAll(table, outer, map[], ms[..k])
        invariant AllVisible(table, outer, ms[..k], t) && Inv(Table(c), outer, c.scope, Overriders(t, ms[..k]), q)
      {
        assert ms[..k + 1][..k] == ms[..k];
        VisiblePrefix(table, outer, ms, t, k + 1);
        SlotInTable(Table(c), outer, c.scope, Overriders(t, ms[..k]), q, ms[k]);
        q := DeclareKeeps(Table(c), outer, c.scope, Overriders(t, ms[..k]), q, ms[k]);
        OverridersStep(t, ms[..k + 1]);
        GenerateFunction(c, outer, ms[k]);
        k := k + 1;
      }
      assert ms[..k] == ms;
      ConstructVMT(c);
    }
  }

  lemma {:induction false} VisiblePrefix(vmt: seq<int>, outer: seq<Scope>, ms: seq<Method>, t: map<Key, int>, k: nat)
    requires AllVisible(vmt, outer, ms, t) && k <= |ms|
    ensures AllVisible(vmt, outer, ms[..k], t)
    decreases |ms|
  {
    if k < |ms| {
      VisiblePrefix(vmt, outer, ms[..|ms| - 1], t, k);
      assert ms[..|ms| - 1][..k] == ms[..k];
    } else {
      assert ms[..k] == ms;
    }
  }

  lemma SlotInTable(vmt: seq<int>, outer: seq<Scope>, own: Scope, t: map<Key, int>, p: map<Key, nat>, m: Method)
    requires Inv(vmt, outer, own, t, p) && |vmt| < 512
    ensures InheritedSlot(outer, own, m) <= |vmt|
  {
    if m.name !in own && m.sig in Near(outer, m.name) {
      FoundSlot(outer, own, p, m);
    }
  }
}
