/** Which modules have to be compiled again (underc/sourcecode/src/breakpoints.cpp): a depth-first walk over a
    dependency graph that may have cycles. */
module Rebuild {
  type FileTimes = nat -> int

  class Module {
    const name: nat
    const deps: seq<Module>
    var visited: bool
    var modified: bool
    var modifiedTime: int
    ghost var visits: nat

    ghost function Now(): Mark
      reads this
    {
      Mark(visited, modified, modifiedTime, visits)
    }

    method IsModified(times: FileTimes) returns (r: bool)
      modifies this
      ensures r == Stale(times, this, old(Now())) && Now() == Visited(times, this, old(Now()))
    {
      visits := visits + 1;
      visited := true;
      if modified {
        return true;
      }
      if times(name) > modifiedTime {
        modifiedTime := times(name);
        modified := true;
        return true;
      }
      return false;
    }

    /** `s` is any closed set with this module in it: the walk does not leave it. */
    method NeedsRebuilding(times: FileTimes, ghost all: set<Module>, ghost s: set<Module>) returns (changed: bool)
      requires this in all && Closed(all) && this in s && Closed(s)
      modifies all
      ensures Walked(times, old(Marked(all)), Marked(all), s, changed) && this in Seen(Marked(all))
      decreases all - Seen(Marked(all))
    {
      hide LeadTo, Walked, Walking, Closed;
      ClosedDeps(this, all);
      ClosedDeps(this, s);
      ghost var b := Marked(all);
      if visited {
        StandStill(times, b, s);
        return false;
      }
      changed := IsModified(times);
      assert Marked(all) == b[this := Visited(times, this, b[this])];
      WalkStarts(times, b, this, s);
      var k := 0;
      while k < |deps|
        invariant 0 <= k <= |deps| && Walking(times, b, Marked(all), s, this, changed) && this in Seen(Marked(all))
        invariant forall j :: 0 <= j < k ==> deps[j] in Seen(Marked(all))
      {
        ghost var c := Marked(all);
        SeenGrows(times, b, c, s, this, changed);
        var check := deps[k].NeedsRebuilding(times, all, s);
        WalkJoins(times, b, c, Marked(all), s, this, changed, check);
        changed := changed || check;
        k := k + 1;
      }
      WalkEnds(times, b, Marked(all), s, this, changed);
    }
  }

  /** What is recorded of a module, and how often the walk has been there. */
  datatype Mark = Mark(visited: bool, modified: bool, time: int, visits: nat)
  type Marks = map<Module, Mark>

  ghost function Marked(all: set<Module>): Marks
    reads all
  {
    map m | m in all :: m.Now()
  }

  function Stale(times: FileTimes, m: Module, b: Mark): bool { b.modified || times(m.name) > b.time }

  /** What a visit makes of a mark. */
  function Visited(times: FileTimes, m: Module, b: Mark): Mark {
    var time := if !b.modified && times(m.name) > b.time then times(m.name) else b.time;
    Mark(true, Stale(times, m, b), time, b.visits + 1)
  }

  ghost function Seen(b: Marks): set<Module> { set m | m in b && b[m].visited }

  /** Whatever a module in x depends on is in y. */
  ghost predicate LeadTo(x: set<Module>, y: set<Module>) {
    forall m {:trigger m.deps} :: m in x ==> forall j :: 0 <= j < |m.deps| ==> m.deps[j] in y
  }

  ghost predicate Closed(s: set<Module>) { LeadTo(s, s) }

  lemma ClosedDeps(m: Module, s: set<Module>)
    requires Closed(s) && m in s
    ensures forall j :: 0 <= j < |m.deps| ==> m.deps[j] in s
  {}

  /** From b to c, but for the dependencies of `but`: the modules newly seen are a closed part of `s` with those seen
      before, each was visited once, the others were left alone, and `changed` says whether a new one was stale. */
  ghost predicate Part(times: FileTimes, b: Marks, c: Marks, s: set<Module>, but: set<Module>, changed: bool) {
    && b.Keys == c.Keys && Seen(b) <= Seen(c) && Seen(c) - Seen(b) <= s
    && (forall m {:trigger c[m]} :: m in b ==> c[m] == if m in Seen(c) - Seen(b) then Visited(times, m, b[m]) else b[m])
    && LeadTo(Seen(c) - Seen(b) - but, Seen(c))
    && (changed <==> exists m :: m in Seen(c) - Seen(b) && Stale(times, m, b[m]))
  }

  ghost predicate Walked(times: FileTimes, b: Marks, c: Marks, s: set<Module>, changed: bool) {
    Part(times, b, c, s, {}, changed)
  }

  ghost predicate Walking(times: FileTimes, b: Marks, c: Marks, s: set<Module>, me: Module, changed: bool) {
    me in b && me !in Seen(b) && Part(times, b, c, s, {me}, changed)
  }

  lemma StandStill(times: FileTimes, b: Marks, s: set<Module>)
    ensures Walked(times, b, b, s, false)
  {}

  lemma WalkStarts(times: FileTimes, b: Marks, me: Module, s: set<Module>)
    requires me in b && me in s && !b[me].visited
    ensures Walking(times, b, b[me := Visited(times, me, b[me])], s, me, Stale(times, me, b[me]))
  {
    assert Seen(b[me := Visited(times, me, b[me])]) == Seen(b) + {me};
  }

  /** Something has been seen since the walk began, so that it comes to an end. */
  lemma SeenGrows(times: FileTimes, b: Marks, c: Marks, s: set<Module>, me: Module, changed: bool)
    requires Walking(times, b, c, s, me, changed) && me in Seen(c)
    ensures b.Keys - Seen(b) > c.Keys - Seen(c)
  {
    assert me in b.Keys - Seen(b);
  }

  lemma WalkJoins(times: FileTimes, b: Marks, c: Marks, d: Marks, s: set<Module>, me: Module, before: bool, check: bool)
    requires Walking(times, b, c, s, me, before) && Walked(times, c, d, s, check)
    ensures Walking(times, b, d, s, me, before || check)
    ensures Seen(c) <= Seen(d)
  {
    assert Seen(d) - Seen(b) == (Seen(c) - Seen(b)) + (Seen(d) - Seen(c));
    assert forall m :: m in Seen(d) - Seen(c) ==> c[m] == b[m];
  }

  lemma WalkEnds(times: FileTimes, b: Marks, c: Marks, s: set<Module>, me: Module, changed: bool)
    requires Walking(times, b, c, s, me, changed) && forall j :: 0 <= j < |me.deps| ==> me.deps[j] in Seen(c)
    ensures Walked(times, b, c, s, changed)
  {}

  method ResetModifyFlags(list: seq<Module>)
    modifies set m | m in list
    ensures forall m {:trigger m in list} :: m in list ==> m.Now() == old(m.Now()).(visited := false, modified := false)
  {
    var k := 0;
    while k < |list|
      invariant 0 <= k <= |list|
      invariant forall j :: 0 <= j < k ==> !list[j].visited && !list[j].modified
      invariant forall m {:trigger m in list} :: m in list ==>
                  m.modifiedTime == old(m.modifiedTime) && m.visits == old(m.visits)
    {
      list[k].modified := false;
      list[k].visited := false;
      k := k + 1;
    }
  }

  /** After a reset the walk from `root` visits exactly the modules reachable from it (the least closed set it is
      in), each once, and says whether the file of one of them is newer than its recorded time. */
  method CheckModules(list: seq<Module>, root: Module, times: FileTimes, ghost s: set<Module>) returns (changed: bool)
    requires root in list && Closed(set m | m in list) && root in s && Closed(s)
    modifies set m | m in list
    ensures var reached := Seen(Marked(set m | m in list));
            && (forall m {:trigger m in list} :: m in list ==>
                  (m.modified <==> m in reached && times(m.name) > old(m.modifiedTime)))
            && root in reached && Closed(reached) && reached <= s
            && (changed <==> exists m :: m in reached && times(m.name) > old(m.modifiedTime))
            && (forall m {:trigger m in list} :: m in list ==>
                  m.visits == old(m.visits) + if m in reached then 1 else 0)
            && (forall m {:trigger m in list} :: m in list ==>
                  m.modifiedTime == if m in reached && times(m.name) > old(m.modifiedTime) then times(m.name)
                                    else old(m.modifiedTime))
  {
    ghost var all := set m | m in list;
    ghost var was := Marked(all);
    ResetModifyFlags(list);
    ghost var b := Marked(all);
    assert Seen(b) == {};
    changed := root.NeedsRebuilding(times, all, s);
    ghost var c := Marked(all);
    assert Seen(c) - Seen(b) == Seen(c) - Seen(b) - {} == Seen(c);
    assert forall m {:trigger m in list} :: m in list ==>
        && b[m] == was[m].(visited := false, modified := false) && was[m] == old(m.Now())
        && m.Now() == c[m] && c[m] == if m in Seen(c) then Visited(times, m, b[m]) else b[m];
  }
}
