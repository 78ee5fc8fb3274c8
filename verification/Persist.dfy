/** Object graphs written as text and read back (include/ucri/persist.h). A stream is a sequence of lines; memory
    is a map from addresses to whole objects; layouts are the field lists that reflection gives. */
module Persist {
  /** Scalar: anything written as one line of text, char* included. Struct: a class by value. List: a list<> or
      vector<>, whose length is in the stream. Ptr: a pointer or reference to an object of a class. */
  datatype Layout =
    | Scalar
    | Ptr(cls: string)
    | Struct(fields: seq<Layout>)
    | Array(n: nat, elem: Layout)
    | List(elem: Layout)

  datatype Value = Word(text: string) | Ref(a: nat) | Parts(vs: seq<Value>)

  datatype Class = Class(vmt: bool, layout: Layout)
  type Classes = map<string, Class>

  datatype Cell = Cell(cls: string, val: Value)
  type Heap = map<nat, Cell>

  datatype Line = TextLine(text: string) | PtrLine(id: nat, cls: string) | CountLine(n: nat)

  // ----- what can be written -----

  /** A value of the layout, whose pointers are null or point to whole objects: of just the declared class when
      that has no virtual method table, and never null when the class is a container. */
  predicate Fits(env: Classes, heap: Heap, t: Layout, v: Value)
    decreases v
  {
    match t
    case Scalar => v.Word?
    case Ptr(c) =>
      && v.Ref? && c in env
      && (if v.a == 0 then !env[c].layout.List? else v.a in heap && (env[c].vmt || heap[v.a].cls == c))
    case Struct(ts) => v.Parts? && |v.vs| == |ts| && forall k :: 0 <= k < |ts| ==> Fits(env, heap, ts[k], v.vs[k])
    case Array(n, e) => v.Parts? && |v.vs| == n && forall k :: 0 <= k < n ==> Fits(env, heap, e, v.vs[k])
    case List(e) => v.Parts? && forall k :: 0 <= k < |v.vs| ==> Fits(env, heap, e, v.vs[k])
  }

  predicate AllFit(env: Classes, heap: Heap, ts: seq<Layout>, vs: seq<Value>) {
    |vs| == |ts| && forall k :: 0 <= k < |ts| ==> Fits(env, heap, ts[k], vs[k])
  }

  predicate EachFits(env: Classes, heap: Heap, e: Layout, vs: seq<Value>) {
    forall k :: 0 <= k < |vs| ==> Fits(env, heap, e, vs[k])
  }

  predicate Good(env: Classes, heap: Heap) {
    forall a {:trigger heap[a]} :: a in heap ==>
      a != 0 && heap[a].cls in env && Fits(env, heap, env[heap[a].cls].layout, heap[a].val)
  }

  // ----- writing -----

  datatype Written = Written(lines: seq<Line>, seen: set<nat>)

  /** The class whose name goes into the stream: the actual one when the object can tell. */
  function ClassOf(env: Classes, heap: Heap, c: string, a: nat): string {
    if a != 0 && a in heap && c in env && env[c].vmt then heap[a].cls else c
  }

  function Write(env: Classes, heap: Heap, t: Layout, v: Value, seen: set<nat>): (r: Written)
    requires Good(env, heap) && Fits(env, heap, t, v) && seen <= heap.Keys
    ensures seen <= r.seen <= heap.Keys
    decreases heap.Keys - seen, v, 1
  {
    match t
    case Scalar => Written([TextLine(v.text)], seen)
    case Ptr(c) => WritePtr(env, heap, c, v.a, seen)
    case Struct(ts) => WriteFields(env, heap, ts, v.vs, seen)
    case Array(_, e) => WriteEach(env, heap, e, v.vs, seen)
    case List(e) =>
      var r := WriteEach(env, heap, e, v.vs, seen);
      Written([CountLine(|v.vs|)] + r.lines, r.seen)
  }

  /** An object is flagged as written before its fields are visited. */
  function WritePtr(env: Classes, heap: Heap, c: string, a: nat, seen: set<nat>): (r: Written)
    requires Good(env, heap) && Fits(env, heap, Ptr(c), Ref(a)) && seen <= heap.Keys
    ensures seen <= r.seen <= heap.Keys
    decreases heap.Keys - seen, Ref(a), 0
  {
    var line := PtrLine(a, ClassOf(env, heap, c, a));
    if a == 0 || a in seen then Written([line], seen)
    else
      var r := Write(env, heap, env[ClassOf(env, heap, c, a)].layout, heap[a].val, seen + {a});
      Written([line] + r.lines, r.seen)
  }

  function WriteFields(env: Classes, heap: Heap, ts: seq<Layout>, vs: seq<Value>, seen: set<nat>): (r: Written)
    requires Good(env, heap) && AllFit(env, heap, ts, vs) && seen <= heap.Keys
    ensures seen <= r.seen <= heap.Keys
    decreases heap.Keys - seen, vs, 0
  {
    if vs == [] then Written([], seen)
    else
      var r := Write(env, heap, ts[0], vs[0], seen);
      var q := WriteFields(env, heap, ts[1..], vs[1..], r.seen);
      Written(r.lines + q.lines, q.seen)
  }

  function WriteEach(env: Classes, heap: Heap, e: Layout, vs: seq<Value>, seen: set<nat>): (r: Written)
    requires Good(env, heap) && EachFits(env, heap, e, vs) && seen <= heap.Keys
    ensures seen <= r.seen <= heap.Keys
    decreases heap.Keys - seen, vs, 0
  {
    if vs == [] then Written([], seen)
    else
      var r := Write(env, heap, e, vs[0], seen);
      var q := WriteEach(env, heap, e, vs[1..], r.seen);
      Written(r.lines + q.lines, q.seen)
  }

  // ----- reading -----

  /** The reader: what is left of the stream, the map from written addresses to new ones, the objects made. */
  datatype Reader = Reader(input: seq<Line>, ptrs: map<nat, nat>, heap: Heap)
  datatype Got = Got(v: Value, r: Reader) | Stuck
  datatype GotAll = GotAll(vs: seq<Value>, r: Reader) | StuckAll

  /** create(): where the next object goes, given the objects there are. */
  type Allocator = Heap -> nat

  ghost predicate Allocates(create: Allocator) {
    forall h: Heap {:trigger create(h)} :: create(h) != 0 && create(h) !in h
  }

  function Read(env: Classes, create: Allocator, t: Layout, r: Reader): (g: Got)
    ensures g.Got? ==> |g.r.input| <= |r.input|
    decreases |r.input|, t, 1
  {
    match t
    case Scalar => if r.input != [] && r.input[0].TextLine? then Got(Word(r.input[0].text), Rest(r)) else Stuck
    case Ptr(_) => ReadPtr(env, create, t, r)
    case Struct(ts) =>
      var g := ReadFields(env, create, ts, r);
      if g.GotAll? then Got(Parts(g.vs), g.r) else Stuck
    case Array(n, e) =>
      var g := ReadEach(env, create, e, n, r);
      if g.GotAll? then Got(Parts(g.vs), g.r) else Stuck
    case List(e) =>
      if r.input == [] || !r.input[0].CountLine? then Stuck
      else
        var g := ReadEach(env, create, e, r.input[0].n, Rest(r));
        if g.GotAll? then Got(Parts(g.vs), g.r) else Stuck
  }

  function Rest(r: Reader): Reader
    requires r.input != []
  {
    r.(input := r.input[1..])
  }

  /** A new object is made, and noted under the written address, before its fields are read. */
  function ReadPtr(env: Classes, create: Allocator, t: Layout, r: Reader): (g: Got)
    requires t.Ptr?
    ensures g.Got? ==> |g.r.input| <= |r.input|
    decreases |r.input|, t, 0
  {
    if r.input == [] || !r.input[0].PtrLine? then Stuck
    else
      var id, name := r.input[0].id, r.input[0].cls;
      if id == 0 then Got(Ref(0), Rest(r))
      else if id in r.ptrs then Got(Ref(r.ptrs[id]), Rest(r))
      else if name !in env then Stuck
      else
        var there := create(r.heap);
        var g := Read(env, create, env[name].layout,
                      Reader(r.input[1..], r.ptrs[id := there], r.heap[there := Cell(name, Parts([]))]));
        if g.Got? then Got(Ref(there), g.r.(heap := g.r.heap[there := Cell(name, g.v)])) else Stuck
  }

  function ReadFields(env: Classes, create: Allocator, ts: seq<Layout>, r: Reader): (g: GotAll)
    ensures g.GotAll? ==> |g.r.input| <= |r.input| && |g.vs| == |ts|
    decreases |r.input|, ts, 0
  {
    if ts == [] then GotAll([], r)
    else
      var g := Read(env, create, ts[0], r);
      if g.Stuck? then StuckAll
      else
        var q := ReadFields(env, create, ts[1..], g.r);
        if q.GotAll? then GotAll([g.v] + q.vs, q.r) else StuckAll
  }

  function ReadEach(env: Classes, create: Allocator, e: Layout, n: nat, r: Reader): (g: GotAll)
    ensures g.GotAll? ==> |g.r.input| <= |r.input| && |g.vs| == n
    decreases |r.input|, e, 2, n
  {
    if n == 0 then GotAll([], r)
    else
      var g := Read(env, create, e, r);
      if g.Stuck? then StuckAll
      else
        var q := ReadEach(env, create, e, n - 1, g.r);
        if q.GotAll? then GotAll([g.v] + q.vs, q.r) else StuckAll
  }

  // ----- reading what was written -----

  /** v with every address sent through the map. */
  function Renamed(m: map<nat, nat>, v: Value): Value
    decreases v
  {
    match v
    case Word(_) => v
    case Ref(a) => if a in m then Ref(m[a]) else Ref(0)
    case Parts(vs) => Parts(RenamedAll(m, vs))
  }

  function RenamedAll(m: map<nat, nat>, vs: seq<Value>): (r: seq<Value>)
    ensures |r| == |vs|
    decreases vs
  {
    if vs == [] then [] else [Renamed(m, vs[0])] + RenamedAll(m, vs[1..])
  }

  /** Every object v points to is in the set. */
  predicate Covered(s: set<nat>, v: Value)
    decreases v
  {
    match v
    case Word(_) => true
    case Ref(a) => a == 0 || a in s
    case Parts(vs) => CoveredAll(s, vs)
  }

  predicate CoveredAll(s: set<nat>, vs: seq<Value>)
    decreases vs
  {
    vs != [] ==> Covered(s, vs[0]) && CoveredAll(s, vs[1..])
  }

  lemma {:induction false} CoveredMore(s: set<nat>, t: set<nat>, v: Value)
    requires Covered(s, v) && s <= t
    ensures Covered(t, v)
    decreases v
  {
    if v.Parts? {
      CoveredAllMore(s, t, v.vs);
    }
  }

  lemma {:induction false} CoveredAllMore(s: set<nat>, t: set<nat>, vs: seq<Value>)
    requires CoveredAll(s, vs) && s <= t
    ensures CoveredAll(t, vs)
    decreases vs
  {
    if vs != [] {
      CoveredMore(s, t, vs[0]);
      CoveredAllMore(s, t, vs[1..]);
    }
  }

  predicate Extends(m: map<nat, nat>, m': map<nat, nat>) {
    m.Keys <= m'.Keys && forall a :: a in m ==> m'[a] == m[a]
  }

  lemma {:induction false} RenamedSame(m: map<nat, nat>, m': map<nat, nat>, v: Value)
    requires Covered(m.Keys, v) && Extends(m, m') && 0 !in m'
    ensures Renamed(m, v) == Renamed(m', v)
    decreases v
  {
    if v.Parts? {
      RenamedAllSame(m, m', v.vs);
    }
  }

  lemma {:induction false} RenamedAllSame(m: map<nat, nat>, m': map<nat, nat>, vs: seq<Value>)
    requires CoveredAll(m.Keys, vs) && Extends(m, m') && 0 !in m'
    ensures RenamedAll(m, vs) == RenamedAll(m', vs)
    decreases vs
  {
    if vs != [] {
      RenamedSame(m, m', vs[0]);
      RenamedAllSame(m, m', vs[1..]);
    }
  }

  /** The map takes different objects to different objects of the reader's heap. */
  predicate Matched(heap: Heap, seen: set<nat>, r: Reader) {
    && r.ptrs.Keys == seen <= heap.Keys && 0 !in seen
    && r.ptrs.Values == r.heap.Keys && 0 !in r.heap
    && (forall a, b {:trigger r.ptrs[a], r.ptrs[b]} :: a in r.ptrs && b in r.ptrs && r.ptrs[a] == r.ptrs[b] ==> a == b)
  }

  /** The reader's copy of object a: same class, and the same value up to the map. */
  predicate Copied(heap: Heap, a: nat, r: Reader) {
    && a in heap && a in r.ptrs && r.ptrs[a] in r.heap
    && Covered(r.ptrs.Keys, heap[a].val)
    && r.heap[r.ptrs[a]] == Cell(heap[a].cls, Renamed(r.ptrs, heap[a].val))
  }

  /** From reader state r to q: the objects in `seen` that r did not know have been copied, nothing else touched. */
  predicate Grown(heap: Heap, r: Reader, q: Reader, seen: set<nat>) {
    && Matched(heap, seen, q) && Extends(r.ptrs, q.ptrs) && 0 !in q.ptrs
    && r.heap.Keys <= q.heap.Keys && (forall x {:trigger q.heap[x]} :: x in r.heap ==> q.heap[x] == r.heap[x])
    && (forall a {:trigger Copied(heap, a, q)} :: a in seen && a !in r.ptrs ==> Copied(heap, a, q))
  }

  lemma CopiedStays(heap: Heap, a: nat, r: Reader, q: Reader)
    requires Copied(heap, a, r) && Extends(r.ptrs, q.ptrs) && 0 !in q.ptrs && r.ptrs[a] in q.heap
    requires q.heap[r.ptrs[a]] == r.heap[r.ptrs[a]]
    ensures Copied(heap, a, q)
  {
    CoveredMore(r.ptrs.Keys, q.ptrs.Keys, heap[a].val);
    RenamedSame(r.ptrs, q.ptrs, heap[a].val);
  }

  lemma GrownNone(heap: Heap, r: Reader, seen: set<nat>, rest: seq<Line>)
    requires Matched(heap, seen, r)
    ensures Grown(heap, r, r.(input := rest), seen)
  {}

  lemma GrownTrans(heap: Heap, r: Reader, q: Reader, w: Reader, seen: set<nat>, seen': set<nat>)
    requires Grown(heap, r, q, seen) && Grown(heap, q, w, seen')
    ensures Grown(heap, r, w, seen')
  {
    forall a {:trigger Copied(heap, a, w)} | a in seen' && a !in r.ptrs
      ensures Copied(heap, a, w)
    {
      if a in q.ptrs {
        assert Copied(heap, a, q);
        CopiedStays(heap, a, q, w);
      }
    }
  }

  /** Two stretches of reading in a row; what the first one read keeps its meaning. */
  lemma Onward(heap: Heap, r: Reader, q: Reader, w: Reader, seen: set<nat>, seen': set<nat>, v: Value)
    requires Grown(heap, r, q, seen) && Grown(heap, q, w, seen') && Covered(q.ptrs.Keys, v)
    ensures Grown(heap, r, w, seen') && Covered(w.ptrs.Keys, v) && Renamed(q.ptrs, v) == Renamed(w.ptrs, v)
  {
    hide Covered, Renamed, Copied;
    GrownTrans(heap, r, q, w, seen, seen');
    RenamedSame(q.ptrs, w.ptrs, v);
    CoveredMore(q.ptrs.Keys, w.ptrs.Keys, v);
  }

  lemma GrownMatched(heap: Heap, r: Reader, q: Reader, seen: set<nat>)
    requires Grown(heap, r, q, seen)
    ensures Matched(heap, seen, q)
  {}

  /** Reading what Write wrote gives the value back up to the map, and uses up just those lines. */
  lemma {:induction false} ReadWritten(env: Classes, create: Allocator, heap: Heap, t: Layout, v: Value, seen: set<nat>,
      r: Reader, rest: seq<Line>)
    returns (q: Reader)
    requires Allocates(create) && Good(env, heap) && Fits(env, heap, t, v) && Matched(heap, seen, r)
    requires r.input == Write(env, heap, t, v, seen).lines + rest
    ensures Read(env, create, t, r) == Got(Renamed(q.ptrs, v), q) && q.input == rest
    ensures Grown(heap, r, q, Write(env, heap, t, v, seen).seen) && Covered(q.ptrs.Keys, v)
    decreases heap.Keys - seen, v, 1
  {
    match t
    case Scalar => q := r.(input := rest);
    case Ptr(c) => q := ReadWrittenPtr(env, create, heap, t, v, seen, r, rest);
    case Struct(ts) => q := ReadWrittenFields(env, create, heap, ts, v.vs, seen, r, rest);
    case Array(n, e) => q := ReadWrittenEach(env, create, heap, e, v.vs, seen, r, rest);
    case List(e) =>
      q := ReadWrittenEach(env, create, heap, e, v.vs, seen, Rest(r), rest);
  }

  lemma {:induction false} ReadWrittenPtr(env: Classes, create: Allocator, heap: Heap, t: Layout, v: Value,
      seen: set<nat>, r: Reader, rest: seq<Line>)
    returns (q: Reader)
    requires Allocates(create) && Good(env, heap) && t.Ptr? && Fits(env, heap, t, v) && Matched(heap, seen, r)
    requires r.input == WritePtr(env, heap, t.cls, v.a, seen).lines + rest
    ensures ReadPtr(env, create, t, r) == Got(Renamed(q.ptrs, v), q) && q.input == rest
    ensures Grown(heap, r, q, WritePtr(env, heap, t.cls, v.a, seen).seen) && Covered(q.ptrs.Keys, v)
    decreases heap.Keys - seen, v, 0
  {
    hide Copied, Read, Write;
    var a, name := v.a, ClassOf(env, heap, t.cls, v.a);
    if a == 0 || a in seen {
      q := r.(input := rest);
      GrownNone(heap, r, seen, rest);
    } else {
      var there := create(r.heap);
      var lines := Write(env, heap, env[name].layout, heap[a].val, seen + {a}).lines;
      assert r.input[1..] == lines + rest;
      var r1 := Reader(r.input[1..], r.ptrs[a := there], r.heap[there := Cell(name, Parts([]))]);
      assert r1.ptrs.Values == r1.heap.Keys by {
        AddedValue(r.ptrs, a, there);
      }
      var q1 := ReadWritten(env, create, heap, env[name].layout, heap[a].val, seen + {a}, r1, rest);
      q := q1.(heap := q1.heap[there := Cell(name, Renamed(q1.ptrs, heap[a].val))]);
      FilledIn(heap, r, r1, q1, q, a, there, name, Write(env, heap, env[name].layout, heap[a].val, seen + {a}).seen);
    }
  }

  lemma AddedValue(m: map<nat, nat>, a: nat, x: nat)
    requires a !in m
    ensures m[a := x].Values == m.Values + {x}
  {
    var m' := m[a := x];
    assert m'[a] == x;
    forall b | b in m
      ensures m[b] in m'.Values
    {
      assert m'[b] == m[b];
    }
  }

  /** Filling in the object at `there` leaves every other copy as it was. */
  lemma OthersKept(heap: Heap, r1: Reader, q1: Reader, q: Reader, a: nat, there: nat, cell: Cell, seen: set<nat>)
    requires a in r1.ptrs && r1.ptrs[a] == there && Grown(heap, r1, q1, seen)
    requires q == q1.(heap := q1.heap[there := cell])
    ensures forall b {:trigger Copied(heap, b, q)} :: b in seen && b !in r1.ptrs ==> Copied(heap, b, q)
  {
    hide Renamed, Covered;
    assert q1.ptrs[a] == there;
    forall b {:trigger Copied(heap, b, q)} | b in seen && b !in r1.ptrs
      ensures Copied(heap, b, q)
    {
      assert Copied(heap, b, q1);
      assert q1.ptrs[b] != there;
    }
  }

  lemma FilledIn(heap: Heap, r: Reader, r1: Reader, q1: Reader, q: Reader, a: nat, there: nat, name: string,
      seen: set<nat>)
    requires a in heap && a !in r.ptrs && there !in r.heap && name == heap[a].cls
    requires r1.ptrs == r.ptrs[a := there] && r1.heap == r.heap[there := Cell(name, Parts([]))]
    requires Grown(heap, r1, q1, seen) && Covered(q1.ptrs.Keys, heap[a].val)
    requires q == q1.(heap := q1.heap[there := Cell(name, Renamed(q1.ptrs, heap[a].val))])
    ensures Grown(heap, r, q, seen) && q.ptrs[a] == there
  {
    OthersKept(heap, r1, q1, q, a, there, Cell(name, Renamed(q1.ptrs, heap[a].val)), seen);
    hide Renamed, Covered;
    assert q.ptrs[a] == r1.ptrs[a] == there && there in r1.heap;
    assert q.heap.Keys == q1.heap.Keys;
    assert forall x :: x in r.heap ==> r1.heap[x] == r.heap[x];
  }

  lemma {:induction false} ReadWrittenFields(env: Classes, create: Allocator, heap: Heap, ts: seq<Layout>,
      vs: seq<Value>, seen: set<nat>, r: Reader, rest: seq<Line>)
    returns (q: Reader)
    requires Allocates(create) && Good(env, heap) && AllFit(env, heap, ts, vs) && Matched(heap, seen, r)
    requires r.input == WriteFields(env, heap, ts, vs, seen).lines + rest
    ensures ReadFields(env, create, ts, r) == GotAll(RenamedAll(q.ptrs, vs), q) && q.input == rest
    ensures Grown(heap, r, q, WriteFields(env, heap, ts, vs, seen).seen) && CoveredAll(q.ptrs.Keys, vs)
    decreases heap.Keys - seen, vs, 0
  {
    hide Matched, Grown, Copied, Good, Allocates, Fits, Read, Write, Covered, Renamed;
    if vs == [] {
      q := r;
      GrownNone(heap, r, seen, rest);
    } else {
      var w := Write(env, heap, ts[0], vs[0], seen);
      var z := WriteFields(env, heap, ts[1..], vs[1..], w.seen);
      assert r.input == w.lines + (z.lines + rest);
      var q1 := ReadWritten(env, create, heap, ts[0], vs[0], seen, r, z.lines + rest);
      GrownMatched(heap, r, q1, w.seen);
      q := ReadWrittenFields(env, create, heap, ts[1..], vs[1..], w.seen, q1, rest);
      Onward(heap, r, q1, q, w.seen, z.seen, vs[0]);
    }
  }

  lemma EachNone(env: Classes, create: Allocator, e: Layout, r: Reader)
    ensures ReadEach(env, create, e, 0, r) == GotAll([], r)
  {}

  lemma EachStep(env: Classes, create: Allocator, e: Layout, n: nat, r: Reader, q: Reader)
    requires n > 0 && Read(env, create, e, r).Got? && Read(env, create, e, r).r == q
    ensures var z := ReadEach(env, create, e, n - 1, q);
            ReadEach(env, create, e, n, r)
            == if z.GotAll? then GotAll([Read(env, create, e, r).v] + z.vs, z.r) else StuckAll
  {}

  lemma {:induction false} EachWritten(env: Classes, heap: Heap, e: Layout, vs: seq<Value>, seen: set<nat>)
    requires Good(env, heap) && EachFits(env, heap, e, vs) && seen <= heap.Keys
    ensures vs == [] ==> WriteEach(env, heap, e, vs, seen) == Written([], seen)
    ensures vs != [] ==>
              var w := Write(env, heap, e, vs[0], seen);
              var z := WriteEach(env, heap, e, vs[1..], w.seen);
              WriteEach(env, heap, e, vs, seen) == Written(w.lines + z.lines, z.seen)
  {
    hide Good, Fits, Write;
  }

  lemma PartsNone(m: map<nat, nat>, vs: seq<Value>)
    requires vs == []
    ensures RenamedAll(m, vs) == [] && CoveredAll(m.Keys, vs)
  {}

  lemma PartsCons(m: map<nat, nat>, vs: seq<Value>)
    requires vs != []
    ensures RenamedAll(m, vs) == [Renamed(m, vs[0])] + RenamedAll(m, vs[1..])
    ensures CoveredAll(m.Keys, vs) <==> Covered(m.Keys, vs[0]) && CoveredAll(m.Keys, vs[1..])
  {
    hide Renamed, Covered;
  }

  /** The first element read back, and then the others. */
  lemma EachJoined(env: Classes, create: Allocator, heap: Heap, e: Layout, vs: seq<Value>, seen: set<nat>,
      seen': set<nat>, r: Reader, q: Reader, w: Reader)
    requires vs != [] && Read(env, create, e, r) == Got(Renamed(q.ptrs, vs[0]), q)
    requires ReadEach(env, create, e, |vs| - 1, q) == GotAll(RenamedAll(w.ptrs, vs[1..]), w)
    requires Grown(heap, r, q, seen) && Covered(q.ptrs.Keys, vs[0])
    requires Grown(heap, q, w, seen') && CoveredAll(w.ptrs.Keys, vs[1..])
    ensures ReadEach(env, create, e, |vs|, r) == GotAll(RenamedAll(w.ptrs, vs), w)
    ensures Grown(heap, r, w, seen') && CoveredAll(w.ptrs.Keys, vs)
  {
    hide ReadEach, Grown, Read, Covered, Renamed, RenamedAll, CoveredAll;
    Onward(heap, r, q, w, seen, seen', vs[0]);
    PartsCons(w.ptrs, vs);
    EachStep(env, create, e, |vs|, r, q);
  }

  lemma {:induction false} ReadWrittenEach(env: Classes, create: Allocator, heap: Heap, e: Layout, vs: seq<Value>,
      seen: set<nat>, r: Reader, rest: seq<Line>)
    returns (q: Reader)
    requires Allocates(create) && Good(env, heap) && EachFits(env, heap, e, vs) && Matched(heap, seen, r)
    requires r.input == WriteEach(env, heap, e, vs, seen).lines + rest
    ensures ReadEach(env, create, e, |vs|, r) == GotAll(RenamedAll(q.ptrs, vs), q) && q.input == rest
    ensures Grown(heap, r, q, WriteEach(env, heap, e, vs, seen).seen) && CoveredAll(q.ptrs.Keys, vs)
    decreases heap.Keys - seen, vs, 0
  {
    hide ReadEach, WriteEach, Matched, Grown, Copied, Good, Allocates, Fits, Read, Write, Covered, Renamed, RenamedAll,
         CoveredAll;
    EachWritten(env, heap, e, vs, seen);
    if vs == [] {
      q := r;
      EachNone(env, create, e, r);
      PartsNone(q.ptrs, vs);
      GrownNone(heap, r, seen, rest);
    } else {
      var w := Write(env, heap, e, vs[0], seen);
      var z := WriteEach(env, heap, e, vs[1..], w.seen);
      assert r.input == w.lines + (z.lines + rest);
      var q1 := ReadWritten(env, create, heap, e, vs[0], seen, r, z.lines + rest);
      GrownMatched(heap, r, q1, w.seen);
      q := ReadWrittenEach(env, create, heap, e, vs[1..], w.seen, q1, rest);
      EachJoined(env, create, heap, e, vs, w.seen, z.seen, r, q1, q);
    }
  }

  // ----- the whole trip -----

  /** Everything a member points to is a member. */
  predicate Closed(heap: Heap, s: set<nat>) {
    forall a {:trigger heap[a]} :: a in s && a in heap ==> Covered(s, heap[a].val)
  }

  /** `m` is an isomorphism from the objects in `seen` onto the whole of the new heap. */
  predicate Isomorphic(heap: Heap, seen: set<nat>, m: map<nat, nat>, copy: Heap) {
    && m.Keys == seen <= heap.Keys && m.Values == copy.Keys
    && (forall a, b {:trigger m[a], m[b]} :: a in m && b in m && m[a] == m[b] ==> a == b)
    && (forall a {:trigger m[a]} :: a in seen ==> copy[m[a]] == Cell(heap[a].cls, Renamed(m, heap[a].val)))
  }

  /** A graph with sharing and cycles comes back as an isomorphic graph; just the objects reachable from the value
      written (the least closed set that covers it) come back. */
  lemma RoundTrip(env: Classes, create: Allocator, heap: Heap, t: Layout, v: Value, s: set<nat>)
    returns (q: Reader)
    requires Allocates(create) && Good(env, heap) && Fits(env, heap, t, v)
    ensures var w := Write(env, heap, t, v, {});
            && Read(env, create, t, Reader(w.lines, map[], map[])) == Got(Renamed(q.ptrs, v), q) && q.input == []
            && Isomorphic(heap, w.seen, q.ptrs, q.heap)
            && Closed(heap, w.seen) && Covered(w.seen, v)
            && (Closed(heap, s) && Covered(s, v) ==> w.seen <= s)
  {
    var w, r := Write(env, heap, t, v, {}), Reader(Write(env, heap, t, v, {}).lines, map[], map[]);
    assert w.lines + [] == w.lines;
    q := ReadWritten(env, create, heap, t, v, {}, r, []);
    forall a | a in w.seen
      ensures Copied(heap, a, q)
    {
      assert a !in r.ptrs;
    }
    if Closed(heap, s) && Covered(s, v) {
      WriteStays(env, heap, t, v, {}, s);
    }
  }

  // ----- graphs of any shape -----

  /** An object with a text, two pointers and a list of pointers; 0 is null, k is object k - 1 of the graph. */
  datatype Node = Node(text: string, left: nat, right: nat, links: seq<nat>)

  predicate InGraph(g: seq<Node>) {
    forall k {:trigger g[k]} :: 0 <= k < |g| ==>
      g[k].left <= |g| && g[k].right <= |g| && forall j :: 0 <= j < |g[k].links| ==> g[k].links[j] <= |g|
  }

  function NodeLayout(): Layout { Struct([Scalar, Array(2, Ptr("node")), List(Ptr("node"))]) }

  function Pointers(links: seq<nat>): seq<Value> { seq(|links|, j requires 0 <= j < |links| => Ref(links[j])) }

  function ValueOf(x: Node): Value {
    Parts([Word(x.text), Parts([Ref(x.left), Ref(x.right)]), Parts(Pointers(x.links))])
  }

  function At(g: seq<Node>, k: nat): Node
    requires 0 < k <= |g|
  {
    g[k - 1]
  }

  function Laid(g: seq<Node>): Heap { map k: nat | 0 < k <= |g| :: Cell("node", ValueOf(At(g, k))) }

  lemma PointerFits(env: Classes, heap: Heap, a: nat)
    requires "node" in env && env["node"].layout.Struct? && (a == 0 || (a in heap && heap[a].cls == "node"))
    ensures Fits(env, heap, Ptr("node"), Ref(a))
  {}

  lemma NodeFits(env: Classes, heap: Heap, x: Node)
    requires Fits(env, heap, Ptr("node"), Ref(x.left)) && Fits(env, heap, Ptr("node"), Ref(x.right))
    requires forall j :: 0 <= j < |x.links| ==> Fits(env, heap, Ptr("node"), Ref(x.links[j]))
    ensures Fits(env, heap, NodeLayout(), ValueOf(x))
  {
    var two, vs := [Ref(x.left), Ref(x.right)], Pointers(x.links);
    assert Fits(env, heap, Array(2, Ptr("node")), Parts(two));
    assert Fits(env, heap, List(Ptr("node")), Parts(vs));
    assert Fits(env, heap, Scalar, Word(x.text));
  }

  lemma GraphFits(vmt: bool, g: seq<Node>)
    requires InGraph(g)
    ensures Good(map["node" := Class(vmt, NodeLayout())], Laid(g))
  {
    hide Fits, ValueOf;
    var env, heap := map["node" := Class(vmt, NodeLayout())], Laid(g);
    forall a {:trigger heap[a]} | a in heap
      ensures Fits(env, heap, NodeLayout(), heap[a].val)
    {
      var x := g[a - 1];
      PointerFits(env, heap, x.left);
      PointerFits(env, heap, x.right);
      forall j | 0 <= j < |x.links|
        ensures Fits(env, heap, Ptr("node"), Ref(x.links[j]))
      {
        PointerFits(env, heap, x.links[j]);
      }
      NodeFits(env, heap, x);
    }
  }

  /** An address past all those in use. */
  ghost function Past(s: set<nat>): (n: nat)
    ensures n > 0 && forall a :: a in s ==> a < n
  {
    if s == {} then 1
    else
      var a :| a in s;
      var n := Past(s - {a});
      assert forall b :: b in s ==> b == a || b in s - {a};
      if a < n then n else a + 1
  }

  /** Allocating there is one way to allocate. */
  lemma PastAllocates()
    ensures exists create: Allocator :: Allocates(create)
  {
    var create: Allocator := (h: Heap) => Past(h.Keys);
    assert Allocates(create);
  }

  /** Every finite graph of such objects, with whatever cycles, sharing and null pointers, can be written from any of
      its objects and comes back isomorphic. */
  lemma AnyGraph(vmt: bool, g: seq<Node>, root: nat, create: Allocator)
    returns (q: Reader)
    requires InGraph(g) && root <= |g| && Allocates(create)
    ensures Good(map["node" := Class(vmt, NodeLayout())], Laid(g))
    ensures Fits(map["node" := Class(vmt, NodeLayout())], Laid(g), Ptr("node"), Ref(root))
    ensures var env, t := map["node" := Class(vmt, NodeLayout())], Ptr("node");
            var w := Write(env, Laid(g), t, Ref(root), {});
            && Read(env, create, t, Reader(w.lines, map[], map[])) == Got(Renamed(q.ptrs, Ref(root)), q)
            && q.input == []
            && Isomorphic(Laid(g), w.seen, q.ptrs, q.heap) && (root != 0 ==> root in w.seen)
  {
    hide Write, Read, Good, Renamed, Isomorphic;
    var env := map["node" := Class(vmt, NodeLayout())];
    GraphFits(vmt, g);
    PointerFits(env, Laid(g), root);
    q := RoundTrip(env, create, Laid(g), Ptr("node"), Ref(root), {});
  }

  /** Writing goes nowhere outside a closed set. */
  lemma {:induction false} WriteStays(env: Classes, heap: Heap, t: Layout, v: Value, seen: set<nat>, s: set<nat>)
    requires Good(env, heap) && Fits(env, heap, t, v) && seen <= heap.Keys && seen <= s
    requires Closed(heap, s) && Covered(s, v)
    ensures Write(env, heap, t, v, seen).seen <= s
    decreases heap.Keys - seen, v, 1
  {
    match t
    case Scalar =>
    case Ptr(c) =>
      if v.a != 0 && v.a !in seen {
        WriteStays(env, heap, env[ClassOf(env, heap, c, v.a)].layout, heap[v.a].val, seen + {v.a}, s);
      }
    case Struct(ts) => WriteAllStays(env, heap, ts, v.vs, seen, s);
    case Array(_, e) => WriteEachStays(env, heap, e, v.vs, seen, s);
    case List(e) => WriteEachStays(env, heap, e, v.vs, seen, s);
  }

  lemma {:induction false} WriteAllStays(env: Classes, heap: Heap, ts: seq<Layout>, vs: seq<Value>, seen: set<nat>,
      s: set<nat>)
    requires Good(env, heap) && AllFit(env, heap, ts, vs) && seen <= heap.Keys && seen <= s
    requires Closed(heap, s) && CoveredAll(s, vs)
    ensures WriteFields(env, heap, ts, vs, seen).seen <= s
    decreases heap.Keys - seen, vs, 0
  {
    if vs != [] {
      WriteStays(env, heap, ts[0], vs[0], seen, s);
      WriteAllStays(env, heap, ts[1..], vs[1..], Write(env, heap, ts[0], vs[0], seen).seen, s);
    }
  }

  lemma {:induction false} WriteEachStays(env: Classes, heap: Heap, e: Layout, vs: seq<Value>, seen: set<nat>,
      s: set<nat>)
    requires Good(env, heap) && EachFits(env, heap, e, vs) && seen <= heap.Keys && seen <= s
    requires Closed(heap, s) && CoveredAll(s, vs)
    ensures WriteEach(env, heap, e, vs, seen).seen <= s
    decreases heap.Keys - seen, vs, 0
  {
    if vs != [] {
      WriteStays(env, heap, e, vs[0], seen, s);
      WriteEachStays(env, heap, e, vs[1..], Write(env, heap, e, vs[0], seen).seen, s);
    }
  }

  // ----- the streamers -----

  class OutStreamer {
    var out: seq<Line>
    var ptrMap: set<nat>

    constructor ()
      ensures out == [] && ptrMap == {}
    {
      out, ptrMap := [], {};
    }

    method Stream(env: Classes, heap: Heap, t: Layout, v: Value)
      requires Good(env, heap) && Fits(env, heap, t, v) && ptrMap <= heap.Keys
      modifies this
      ensures var w := Write(env, heap, t, v, old(ptrMap));
              out == old(out) + w.lines && ptrMap == w.seen
      decreases heap.Keys - ptrMap, v, 1
    {
      match t
      case Scalar => out := out + [TextLine(v.text)];
      case Ptr(c) =>
        var name := ClassOf(env, heap, c, v.a);
        out := out + [PtrLine(v.a, name)];
        if v.a == 0 || v.a in ptrMap {
          return;
        }
        ptrMap := ptrMap + {v.a};
        Stream(env, heap, env[name].layout, heap[v.a].val);
      case Struct(ts) => StreamObject(env, heap, ts, v.vs);
      case Array(_, e) => StreamElements(env, heap, e, v.vs);
      case List(e) =>
        out := out + [CountLine(|v.vs|)];
        StreamElements(env, heap, e, v.vs);
    }

    method StreamObject(env: Classes, heap: Heap, ts: seq<Layout>, vs: seq<Value>)
      requires Good(env, heap) && AllFit(env, heap, ts, vs) && ptrMap <= heap.Keys
      modifies this
      ensures var w := WriteFields(env, heap, ts, vs, old(ptrMap));
              out == old(out) + w.lines && ptrMap == w.seen
      decreases heap.Keys - ptrMap, vs, 0
    {
      var k := 0;
      while k < |ts|
        invariant 0 <= k <= |ts| && old(ptrMap) <= ptrMap <= heap.Keys
        invariant out + WriteFields(env, heap, ts[k..], vs[k..], ptrMap).lines
                  == old(out) + WriteFields(env, heap, ts, vs, old(ptrMap)).lines
        invariant WriteFields(env, heap, ts[k..], vs[k..], ptrMap).seen
                  == WriteFields(env, heap, ts, vs, old(ptrMap)).seen
      {
        assert ts[k..][1..] == ts[k + 1..] && vs[k..][1..] == vs[k + 1..];
        Stream(env, heap, ts[k], vs[k]);
        k := k + 1;
      }
    }

    method StreamElements(env: Classes, heap: Heap, e: Layout, vs: seq<Value>)
      requires Good(env, heap) && EachFits(env, heap, e, vs) && ptrMap <= heap.Keys
      modifies this
      ensures var w := WriteEach(env, heap, e, vs, old(ptrMap));
              out == old(out) + w.lines && ptrMap == w.seen
      decreases heap.Keys - ptrMap, vs, 0
    {
      hide Write, Fits, Good;
      var k := 0;
      while k < |vs|
        invariant 0 <= k <= |vs| && old(ptrMap) <= ptrMap <= heap.Keys
        invariant out + WriteEach(env, heap, e, vs[k..], ptrMap).lines
                  == old(out) + WriteEach(env, heap, e, vs, old(ptrMap)).lines
        invariant WriteEach(env, heap, e, vs[k..], ptrMap).seen == WriteEach(env, heap, e, vs, old(ptrMap)).seen
      {
        assert vs[k..][1..] == vs[k + 1..];
        Stream(env, heap, e, vs[k]);
        k := k + 1;
      }
    }
  }

  class InStreamer {
    const create: Allocator
    var input: seq<Line>
    var ptrMap: map<nat, nat>
    var heap: Heap

    constructor (create: Allocator, input: seq<Line>)
      ensures this.create == create && State() == Reader(input, map[], map[])
    {
      this.create, this.input, ptrMap, heap := create, input, map[], map[];
    }

    function State(): Reader
      reads this
    {
      Reader(input, ptrMap, heap)
    }

    method Stream(env: Classes, t: Layout) returns (ok: bool, v: Value)
      modifies this
      ensures var g := Read(env, create, t, old(State()));
              ok == g.Got? && (ok ==> v == g.v && State() == g.r)
      decreases |input|, t, 1
    {
      v := Ref(0);
      match t
      case Scalar =>
        ok := input != [] && input[0].TextLine?;
        if ok {
          v, input := Word(input[0].text), input[1..];
        }
      case Ptr(_) => ok, v := StreamPointer(env, t);
      case Struct(ts) =>
        var vs;
        ok, vs := StreamObject(env, ts);
        v := Parts(vs);
      case Array(n, e) =>
        var vs;
        ok, vs := StreamElements(env, e, n);
        v := Parts(vs);
      case List(e) =>
        ok := input != [] && input[0].CountLine?;
        if ok {
          var vs, n := [], input[0].n;
          input := input[1..];
          ok, vs := StreamElements(env, e, n);
          v := Parts(vs);
        }
    }

    method StreamPointer(env: Classes, t: Layout) returns (ok: bool, v: Value)
      requires t.Ptr?
      modifies this
      ensures var g := ReadPtr(env, create, t, old(State()));
              ok == g.Got? && (ok ==> v == g.v && State() == g.r)
      decreases |input|, t, 0
    {
      v := Ref(0);
      ok := input != [] && input[0].PtrLine?;
      if ok {
        var id, name := input[0].id, input[0].cls;
        input := input[1..];
        if id != 0 && id in ptrMap {
          v := Ref(ptrMap[id]);
        } else if id != 0 {
          ok := name in env;
          if ok {
            var there := create(heap);
            heap, ptrMap := heap[there := Cell(name, Parts([]))], ptrMap[id := there];
            var val;
            ok, val := Stream(env, env[name].layout);
            heap, v := heap[there := Cell(name, val)], Ref(there);
          }
        }
      }
    }

    method StreamObject(env: Classes, ts: seq<Layout>) returns (ok: bool, vs: seq<Value>)
      modifies this
      ensures var g := ReadFields(env, create, ts, old(State()));
              ok == g.GotAll? && (ok ==> vs == g.vs && State() == g.r)
      decreases |input|, ts, 0
    {
      var k := 0;
      ok, vs := true, [];
      ghost var g := ReadFields(env, create, ts, State());
      while ok && k < |ts|
        invariant 0 <= k <= |ts| && (ok ==> |input| <= |old(input)|)
        invariant !ok ==> g.StuckAll?
        invariant ok ==> Continues(g, vs, ReadFields(env, create, ts[k..], State()))
        decreases |ts| - k, ok
      {
        assert ts[k..][1..] == ts[k + 1..];
        var v;
        ghost var h := ReadFields(env, create, ts[k..], State());
        ok, v := Stream(env, ts[k]);
        k := k + 1;
        if ok {
          ContinuesStep(g, vs, v, h, ReadFields(env, create, ts[k..], State()));
        }
        vs := vs + [v];
      }
    }

    method StreamElements(env: Classes, e: Layout, n: nat) returns (ok: bool, vs: seq<Value>)
      modifies this
      ensures var g := ReadEach(env, create, e, n, old(State()));
              ok == g.GotAll? && (ok ==> vs == g.vs && State() == g.r)
      decreases |input|, e, 2, n
    {
      hide Read, ReadPtr;
      var left: nat := n;
      ok, vs := true, [];
      ghost var g := ReadEach(env, create, e, n, State());
      while ok && left > 0
        invariant left <= n && (ok ==> |input| <= |old(input)|)
        invariant !ok ==> g.StuckAll?
        invariant ok ==> Continues(g, vs, ReadEach(env, create, e, left, State()))
        decreases left, ok
      {
        var v;
        ghost var h := ReadEach(env, create, e, left, State());
        ok, v := Stream(env, e);
        left := left - 1;
        if ok {
          ContinuesStep(g, vs, v, h, ReadEach(env, create, e, left, State()));
        }
        vs := vs + [v];
      }
    }
  }

  /** The whole answer is what has been read already, followed by what the rest of the stream gives. */
  predicate Continues(g: GotAll, vs: seq<Value>, h: GotAll) {
    h.GotAll? == g.GotAll? && (g.GotAll? ==> g.vs == vs + h.vs && g.r == h.r)
  }

  lemma ContinuesStep(g: GotAll, vs: seq<Value>, v: Value, h: GotAll, rest: GotAll)
    requires Continues(g, vs, h)
    requires h == if rest.GotAll? then GotAll([v] + rest.vs, rest.r) else StuckAll
    ensures Continues(g, vs + [v], rest)
  {
    if rest.GotAll? {
      assert vs + ([v] + rest.vs) == vs + [v] + rest.vs;
    }
  }
}
