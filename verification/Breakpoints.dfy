/** Breakpoints patched into running code (underc/sourcecode/src/breakpoints.cpp, engine.cpp), over any
    instruction set `I` and machine data `D`. */
module Breakpoints {
  datatype Op<I> = Code(i: I) | Halt(id: nat)

  datatype Cpu<D> = Cpu(pc: nat, data: D)
  type Sem<!I, !D> = (I, Cpu<D>) -> Cpu<D>

  datatype Bp<I> = Bp(pi: nat, saved: Op<I>, persistent: bool, paused: bool)
  datatype Dbg<I> = Dbg(code: seq<Op<I>>, live: map<nat, Bp<I>>)

  // ----- what the operations do -----

  /** set_break: what is at pi is saved and a HALT with the breakpoint's id takes its place. */
  function Armed<I>(d: Dbg<I>, id: nat, b: Bp<I>): Dbg<I>
    requires b.pi < |d.code|
  {
    Dbg(d.code[b.pi := Halt(id)], d.live[id := b.(saved := d.code[b.pi])])
  }

  function Restored<I>(d: Dbg<I>, id: nat): Dbg<I>
    requires id in d.live && d.live[id].pi < |d.code|
  {
    d.(code := d.code[d.live[id].pi := d.live[id].saved])
  }

  function Deleted<I>(d: Dbg<I>, id: nat): Dbg<I>
    requires id in d.live && d.live[id].pi < |d.code|
  {
    var r := Restored(d, id);
    r.(live := r.live - {id})
  }

  predicate CanExecute<I>(d: Dbg<I>, id: nat) {
    && id in d.live && d.live[id].pi < |d.code|
    && (d.live[id].persistent ==> if d.live[id].paused then d.live[id].pi > 0 else d.live[id].pi + 1 < |d.code|)
  }

  /** What a HALT does; true means the run stops here. A persistent breakpoint moves its trap to the next
      instruction, where hitting it moves the trap back. */
  function Executed<I>(d: Dbg<I>, id: nat): (Dbg<I>, bool)
    requires CanExecute(d, id)
  {
    var b := d.live[id];
    if !b.persistent then (Deleted(d, id), true)
    else if !b.paused then (Armed(Restored(d, id), id, b.(pi := b.pi + 1, paused := true)), true)
    else (Armed(Restored(d, id), id, b.(pi := b.pi - 1, paused := false)), false)
  }

  // ----- the original code is always there -----

  /** The instruction the breakpoint was set on. */
  function Home<I>(b: Bp<I>): int { if b.paused then b.pi - 1 else b.pi }

  predicate Apart(x: int, y: int) { x + 2 <= y || y + 2 <= x }

  /** What holds of one live breakpoint: its trap is in the code, and what it saved is the original. */
  ghost predicate Planted<I>(d: Dbg<I>, orig: seq<Op<I>>, straight: I -> bool, id: nat)
    requires id in d.live
  {
    var b := d.live[id];
    && 0 <= Home(b) && Home(b) + 1 < |orig| == |d.code| && (b.paused ==> b.persistent)
    && d.code[b.pi] == Halt(id) && b.saved == orig[b.pi]
    && orig[Home(b)].Code? && straight(orig[Home(b)].i)
  }

  /** No live breakpoint has its trap at a. */
  ghost predicate Untouched<I>(d: Dbg<I>, a: nat) {
    forall id {:trigger d.live[id]} :: id in d.live ==> d.live[id].pi != a
  }

  /** Undoing every live saved instruction gives `orig`; breakpoints sit on straight-line instructions, none next to
      another. */
  ghost predicate Transparent<I>(d: Dbg<I>, orig: seq<Op<I>>, straight: I -> bool) {
    && |d.code| == |orig| && (forall a {:trigger orig[a]} :: 0 <= a < |orig| ==> orig[a].Code?)
    && (forall id {:trigger Planted(d, orig, straight, id)} :: id in d.live ==> Planted(d, orig, straight, id))
    && (forall a: nat {:trigger Untouched(d, a)} :: a < |orig| && Untouched(d, a) ==> d.code[a] == orig[a])
    && (forall x, y {:trigger d.live[x], d.live[y]} :: x in d.live && y in d.live && x != y ==>
          Apart(Home(d.live[x]), Home(d.live[y])))
  }

  // ----- setting and deleting -----

  /** A place where a breakpoint may go. */
  ghost predicate Free<I>(d: Dbg<I>, orig: seq<Op<I>>, straight: I -> bool, a: nat) {
    && a + 1 < |orig| && orig[a].Code? && straight(orig[a].i)
    && forall id {:trigger d.live[id]} :: id in d.live ==> Apart(a, Home(d.live[id]))
  }

  lemma CreateKeeps<I(!new)>(d: Dbg<I>, orig: seq<Op<I>>, straight: I -> bool, id: nat, a: nat, b: Bp<I>)
    requires Transparent(d, orig, straight) && Free(d, orig, straight, a) && id !in d.live
    requires b.pi == a && !b.paused
    ensures Transparent(Armed(d, id, b), orig, straight)
  {
    var e := Armed(d, id, b);
    assert Untouched(d, a) by {
      forall x {:trigger d.live[x]} | x in d.live
        ensures d.live[x].pi != a
      {
        assert Planted(d, orig, straight, x);
      }
    }
    forall x {:trigger Planted(e, orig, straight, x)} | x in e.live
      ensures Planted(e, orig, straight, x)
    {
      if x != id {
        assert Planted(d, orig, straight, x);
      }
    }
    forall c: nat {:trigger Untouched(e, c)} | c < |orig| && Untouched(e, c)
      ensures e.code[c] == orig[c]
    {
      assert e.live[id].pi == a;
      assert Untouched(d, c) by {
        assert forall x {:trigger d.live[x]} :: x in d.live ==> e.live[x] == d.live[x];
      }
    }
  }

  lemma DeleteKeeps<I(!new)>(d: Dbg<I>, orig: seq<Op<I>>, straight: I -> bool, id: nat)
    requires Transparent(d, orig, straight) && id in d.live && Planted(d, orig, straight, id)
    ensures Transparent(Deleted(d, id), orig, straight)
  {
    var e, b := Deleted(d, id), d.live[id];
    forall x {:trigger Planted(e, orig, straight, x)} | x in e.live
      ensures Planted(e, orig, straight, x)
    {
      assert Planted(d, orig, straight, x) && e.live[x] == d.live[x];
      assert Apart(Home(d.live[x]), Home(b));
    }
    forall c: nat {:trigger Untouched(e, c)} | c < |orig| && Untouched(e, c)
      ensures e.code[c] == orig[c]
    {
      if c != b.pi {
        assert Untouched(d, c) by {
          assert forall x {:trigger d.live[x]} :: x in d.live && x != id ==> e.live[x] == d.live[x];
        }
      }
    }
  }

  /** Moving a persistent breakpoint's trap to the next instruction, or back. */
  lemma MoveKeeps<I(!new)>(d: Dbg<I>, orig: seq<Op<I>>, straight: I -> bool, id: nat)
    requires Transparent(d, orig, straight) && id in d.live && Planted(d, orig, straight, id) && d.live[id].persistent
    ensures CanExecute(d, id) && Transparent(Executed(d, id).0, orig, straight)
    ensures var b, c := d.live[id], Executed(d, id).0.live[id];
            && Home(c) == Home(b) && c.paused != b.paused && c.persistent
            && Executed(d, id).0.live == d.live[id := c]
  {
    var e, b := Executed(d, id).0, d.live[id];
    var c := e.live[id];
    var r := Restored(d, id);
    assert Untouched(d, c.pi) by {
      forall x {:trigger d.live[x]} | x in d.live
        ensures d.live[x].pi != c.pi
      {
        assert Planted(d, orig, straight, x);
        assert x != id ==> Apart(Home(d.live[x]), Home(b));
      }
    }
    forall x {:trigger Planted(e, orig, straight, x)} | x in e.live
      ensures Planted(e, orig, straight, x)
    {
      assert Planted(d, orig, straight, x);
      assert x != id ==> Apart(Home(d.live[x]), Home(b));
    }
    forall a: nat {:trigger Untouched(e, a)} | a < |orig| && Untouched(e, a)
      ensures e.code[a] == orig[a]
    {
      assert e.live[id].pi == c.pi;
      if a != b.pi {
        assert Untouched(d, a) by {
          assert forall x {:trigger d.live[x]} :: x in d.live && x != id ==> e.live[x] == d.live[x];
        }
      }
    }
  }

  // ----- running -----

  datatype Sys<I, D> = Sys(d: Dbg<I>, cpu: Cpu<D>, stops: nat)

  /** One turn of the execution loop on the patched code, resuming after each stop. */
  function SysStep<I, D>(sem: Sem<I, D>, s: Sys<I, D>): Sys<I, D> {
    if s.cpu.pc >= |s.d.code| then s
    else match s.d.code[s.cpu.pc]
      case Code(i) => s.(cpu := sem(i, s.cpu))
      case Halt(id) =>
        if !CanExecute(s.d, id) then s
        else
          var (e, stop) := Executed(s.d, id);
          Sys(e, s.cpu, if stop then s.stops + 1 else s.stops)
  }

  function SysRun<I, D>(sem: Sem<I, D>, s: Sys<I, D>, n: nat): Sys<I, D>
    decreases n
  {
    if n == 0 then s else SysRun(sem, SysStep(sem, s), n - 1)
  }

  function OrigStep<I, D>(sem: Sem<I, D>, orig: seq<Op<I>>, c: Cpu<D>): Cpu<D> {
    if c.pc < |orig| && orig[c.pc].Code? then sem(orig[c.pc].i, c) else c
  }

  function OrigRun<I, D>(sem: Sem<I, D>, orig: seq<Op<I>>, c: Cpu<D>, n: nat): Cpu<D>
    decreases n
  {
    if n == 0 then c else OrigRun(sem, orig, OrigStep(sem, orig, c), n - 1)
  }

  /** The plain idea: the original code, and a set of places where to stop before going on; a place maps to
      whether it stays. `armed` is false just after a stop at a place that stays. */
  datatype Watch<D> = Watch(cpu: Cpu<D>, homes: map<nat, bool>, armed: bool, stops: nat)

  function WatchStep<I, D>(sem: Sem<I, D>, orig: seq<Op<I>>, w: Watch<D>): Watch<D> {
    var pc := w.cpu.pc;
    if pc < |orig| && w.armed && pc in w.homes then
      Watch(w.cpu, if w.homes[pc] then w.homes else w.homes - {pc}, !w.homes[pc], w.stops + 1)
    else if pc < |orig| then w.(cpu := OrigStep(sem, orig, w.cpu), armed := true)
    else w
  }

  function WatchRun<I, D>(sem: Sem<I, D>, orig: seq<Op<I>>, w: Watch<D>, n: nat): Watch<D>
    decreases n
  {
    if n == 0 then w else WatchRun(sem, orig, WatchStep(sem, orig, w), n - 1)
  }

  ghost predicate SameHomes<I>(live: map<nat, Bp<I>>, homes: map<nat, bool>) {
    && (forall id {:trigger live[id]} :: id in live ==>
          Home(live[id]) in homes && homes[Home(live[id])] == live[id].persistent)
    && (forall a {:trigger homes[a]} :: a in homes ==> exists id :: id in live && Home(live[id]) == a)
  }

  /** A breakpoint whose trap is on the next instruction is about to be stepped over, or about to be hit. */
  ghost predicate InStep<I>(live: map<nat, Bp<I>>, pc: nat, armed: bool) {
    && (forall id {:trigger live[id]} :: id in live && live[id].paused ==>
          (pc == live[id].pi - 1 && !armed) || (pc == live[id].pi && armed))
    && (!armed ==> exists id :: id in live && live[id].paused && pc == live[id].pi - 1)
  }

  ghost predicate Follows<I, D>(s: Sys<I, D>, w: Watch<D>, orig: seq<Op<I>>, straight: I -> bool) {
    && Transparent(s.d, orig, straight) && s.cpu == w.cpu && s.stops == w.stops
    && SameHomes(s.d.live, w.homes) && InStep(s.d.live, s.cpu.pc, w.armed)
  }

  /** Straight-line instructions go to the next one. */
  ghost predicate GoesOn<I(!new), D(!new)>(sem: Sem<I, D>, straight: I -> bool) {
    forall i: I, c: Cpu<D> {:trigger sem(i, c)} :: straight(i) ==> sem(i, c).pc == c.pc + 1
  }

  /** A trap that only puts its breakpoint back. */
  predicate Rearms<I, D>(s: Sys<I, D>) {
    && s.cpu.pc < |s.d.code| && s.d.code[s.cpu.pc].Halt?
    && s.d.code[s.cpu.pc].id in s.d.live && s.d.live[s.d.code[s.cpu.pc].id].paused
  }

  lemma PlainStep<I(!new), D(!new)>(sem: Sem<I, D>, orig: seq<Op<I>>, straight: I -> bool, s: Sys<I, D>, w: Watch<D>)
    requires Follows(s, w, orig, straight) && GoesOn(sem, straight)
    requires s.cpu.pc < |orig| && Untouched(s.d, s.cpu.pc)
    ensures Follows(SysStep(sem, s), WatchStep(sem, orig, w), orig, straight)
  {
    var pc, live := s.cpu.pc, s.d.live;
    forall id {:trigger live[id]} | id in live && live[id].paused
      ensures SysStep(sem, s).cpu.pc == live[id].pi
    {
      assert Planted(s.d, orig, straight, id);
    }
  }

  lemma HomesMoved<I(!new)>(live: map<nat, Bp<I>>, homes: map<nat, bool>, id: nat, c: Bp<I>)
    requires SameHomes(live, homes) && id in live && Home(c) == Home(live[id]) && c.persistent == live[id].persistent
    ensures SameHomes(live[id := c], homes)
  {
    var live' := live[id := c];
    forall a {:trigger homes[a]} | a in homes
      ensures exists x :: x in live' && Home(live'[x]) == a
    {
      var x :| x in live && Home(live[x]) == a;
      assert x in live' && Home(live'[x]) == a;
    }
  }

  lemma HomesDropped<I(!new)>(live: map<nat, Bp<I>>, homes: map<nat, bool>, id: nat)
    requires SameHomes(live, homes) && id in live
    requires forall x {:trigger live[x]} :: x in live && x != id ==> Apart(Home(live[x]), Home(live[id]))
    ensures SameHomes(live - {id}, homes - {Home(live[id])})
  {
    var live', homes' := live - {id}, homes - {Home(live[id])};
    assert forall x {:trigger live'[x]} :: x in live' ==> live'[x] == live[x] && Apart(Home(live[x]), Home(live[id]));
    forall a | a in homes'
      ensures exists x :: x in live' && Home(live'[x]) == a
    {
      assert a in homes && homes[a] == homes'[a];
      var x :| x in live && Home(live[x]) == a;
      assert x in live' && Home(live'[x]) == a;
    }
    forall x {:trigger live'[x]} | x in live'
      ensures Home(live'[x]) in homes' && homes'[Home(live'[x])] == live'[x].persistent
    {}
  }

  /** The breakpoint on whose trap control is has its home here, and no other is near. */
  ghost predicate OnTrap<I>(d: Dbg<I>, orig: seq<Op<I>>, straight: I -> bool, id: nat, pc: nat) {
    && id in d.live && d.live[id].pi == pc && Planted(d, orig, straight, id)
    && forall x {:trigger d.live[x]} :: x in d.live && x != id ==> Apart(Home(d.live[x]), Home(d.live[id]))
  }

  /** A temporary breakpoint stops the run and is gone. */
  lemma TemporaryHit<I(!new), D(!new)>(sem: Sem<I, D>, orig: seq<Op<I>>, straight: I -> bool, s: Sys<I, D>, w: Watch<D>,
      id: nat)
    requires Follows(s, w, orig, straight) && OnTrap(s.d, orig, straight, id, s.cpu.pc) && !s.d.live[id].persistent
    ensures Follows(SysStep(sem, s), WatchStep(sem, orig, w), orig, straight) && !Rearms(s)
  {
    DeleteKeeps(s.d, orig, straight, id);
    HomesDropped(s.d.live, w.homes, id);
    hide Transparent, SameHomes, Planted;
  }

  /** A persistent one stops the run and waits on the next instruction. */
  lemma PersistentHit<I(!new), D(!new)>(sem: Sem<I, D>, orig: seq<Op<I>>, straight: I -> bool, s: Sys<I, D>,
      w: Watch<D>, id: nat)
    requires Follows(s, w, orig, straight) && OnTrap(s.d, orig, straight, id, s.cpu.pc)
    requires s.d.live[id].persistent && !s.d.live[id].paused
    ensures Follows(SysStep(sem, s), WatchStep(sem, orig, w), orig, straight) && !Rearms(s)
  {
    MoveKeeps(s.d, orig, straight, id);
    HomesMoved(s.d.live, w.homes, id, Executed(s.d, id).0.live[id]);
    hide Transparent, SameHomes, Planted;
    var live := Executed(s.d, id).0.live;
    assert live[id].paused && s.cpu.pc == live[id].pi - 1;
  }

  /** Its trap there puts it back, and the run goes on. */
  lemma TrapBack<I(!new), D(!new)>(sem: Sem<I, D>, orig: seq<Op<I>>, straight: I -> bool, s: Sys<I, D>, w: Watch<D>,
      id: nat)
    requires Follows(s, w, orig, straight) && OnTrap(s.d, orig, straight, id, s.cpu.pc) && s.d.live[id].paused
    ensures Follows(SysStep(sem, s), w, orig, straight) && Rearms(s) && !Rearms(SysStep(sem, s))
  {
    MoveKeeps(s.d, orig, straight, id);
    var e := Executed(s.d, id).0;
    HomesMoved(s.d.live, w.homes, id, e.live[id]);
    assert Untouched(e, s.cpu.pc) by {
      forall x {:trigger e.live[x]} | x in e.live
        ensures e.live[x].pi != s.cpu.pc
      {
        assert x != id ==> e.live[x] == s.d.live[x];
      }
    }
    assert e.code[s.cpu.pc] == orig[s.cpu.pc];
    hide Transparent, SameHomes, Planted;
  }

  /** Every step of the patched code is a step of the watched original, except that a trap may put its breakpoint
      back first; that never happens twice running. */
  lemma StepFollows<I(!new), D(!new)>(sem: Sem<I, D>, orig: seq<Op<I>>, straight: I -> bool, s: Sys<I, D>, w: Watch<D>)
    returns (k: nat)
    requires Follows(s, w, orig, straight) && GoesOn(sem, straight)
    ensures k <= 1 && Follows(SysStep(sem, s), WatchRun(sem, orig, w, k), orig, straight)
    ensures (k == 0 <==> Rearms(s)) && (k == 0 ==> !Rearms(SysStep(sem, s)))
  {
    k := 1;
    assert WatchRun(sem, orig, w, 1) == WatchRun(sem, orig, WatchStep(sem, orig, w), 0) == WatchStep(sem, orig, w);
    if s.cpu.pc < |orig| {
      if Untouched(s.d, s.cpu.pc) {
        PlainStep(sem, orig, straight, s, w);
      } else {
        var id :| id in s.d.live && s.d.live[id].pi == s.cpu.pc;
        assert Planted(s.d, orig, straight, id);
        if !s.d.live[id].persistent {
          TemporaryHit(sem, orig, straight, s, w, id);
        } else if !s.d.live[id].paused {
          PersistentHit(sem, orig, straight, s, w, id);
        } else {
          TrapBack(sem, orig, straight, s, w, id);
          k := 0;
        }
      }
    }
  }

  /** Whole runs: the same machine states, the same stops, the original code still there underneath. */
  lemma {:induction false} RunFollows<I(!new), D(!new)>(sem: Sem<I, D>, orig: seq<Op<I>>, straight: I -> bool,
      s: Sys<I, D>, w: Watch<D>, n: nat)
    returns (m: nat)
    requires Follows(s, w, orig, straight) && GoesOn(sem, straight)
    ensures m <= n <= 2 * m + (if Rearms(s) then 1 else 0)
    ensures Follows(SysRun(sem, s, n), WatchRun(sem, orig, w, m), orig, straight)
    decreases n
  {
    hide Follows, SysStep, WatchStep, GoesOn;
    if n == 0 {
      m := 0;
    } else {
      var k := StepFollows(sem, orig, straight, s, w);
      var j := RunFollows(sem, orig, straight, SysStep(sem, s), WatchRun(sem, orig, w, k), n - 1);
      WatchPlus(sem, orig, w, k, j);
      m := k + j;
    }
  }

  lemma {:induction false} WatchPlus<I, D>(sem: Sem<I, D>, orig: seq<Op<I>>, w: Watch<D>, m: nat, n: nat)
    ensures WatchRun(sem, orig, w, m + n) == WatchRun(sem, orig, WatchRun(sem, orig, w, m), n)
    decreases m
  {
    if m > 0 {
      WatchPlus(sem, orig, WatchStep(sem, orig, w), m - 1, n);
    }
  }

  /** Watching does not change what runs: m turns are m - stops steps of the original code. */
  lemma {:induction false} WatchIsOriginal<I, D>(sem: Sem<I, D>, orig: seq<Op<I>>, w: Watch<D>, m: nat)
    ensures var u := WatchRun(sem, orig, w, m);
            w.stops <= u.stops <= w.stops + m && u.cpu == OrigRun(sem, orig, w.cpu, m - (u.stops - w.stops))
    decreases m
  {
    if m > 0 {
      WatchIsOriginal(sem, orig, WatchStep(sem, orig, w), m - 1);
    }
  }

  ghost predicate TrapAt<I>(live: map<nat, Bp<I>>, a: nat) { exists id :: id in live && live[id].pi == a }

  /** With no trap moved, the patched program is the original one watched at the breakpoints' places. */
  lemma StartWatching<I(!new), D(!new)>(orig: seq<Op<I>>, straight: I -> bool, s: Sys<I, D>)
    returns (w: Watch<D>)
    requires Transparent(s.d, orig, straight)
    requires forall id {:trigger s.d.live[id]} :: id in s.d.live ==> !s.d.live[id].paused
    ensures Follows(s, w, orig, straight) && w.armed
  {
    var live := s.d.live;
    var homes := map a: nat | a < |orig| && TrapAt(live, a) ::
      (var id :| id in live && live[id].pi == a; live[id].persistent);
    forall id {:trigger live[id]} | id in live
      ensures Home(live[id]) in homes && homes[Home(live[id])] == live[id].persistent
    {
      assert Planted(s.d, orig, straight, id);
    }
    w := Watch(s.cpu, homes, true, s.stops);
  }

  // ----- sessions: breakpoints set and deleted between resumes, wherever the run has got to -----

  /** A turn of the execution loop, a breakpoint set, a breakpoint deleted. */
  datatype Act = Go | Set(id: nat, a: nat, persistent: bool) | Clear(id: nat)

  function NewBp<I>(op: Op<I>, a: nat, persistent: bool): Bp<I> { Bp(a, op, persistent, false) }

  function Acted<I, D>(sem: Sem<I, D>, s: Sys<I, D>, act: Act): Sys<I, D> {
    match act
    case Go => SysStep(sem, s)
    case Set(id, a, persistent) =>
      if a < |s.d.code| then s.(d := Armed(s.d, id, NewBp(s.d.code[a], a, persistent))) else s
    case Clear(id) => if id in s.d.live && s.d.live[id].pi < |s.d.code| then s.(d := Deleted(s.d, id)) else s
  }

  function SysActs<I, D>(sem: Sem<I, D>, s: Sys<I, D>, acts: seq<Act>): Sys<I, D>
    decreases |acts|
  {
    if acts == [] then s else SysActs(sem, Acted(sem, s, acts[0]), acts[1..])
  }

  /** The same on the original code: a turn, a place to stop at, a place no longer to stop at. */
  datatype Note = Turn | Put(a: nat, persistent: bool) | Drop(home: int)

  function Noted<I, D>(sem: Sem<I, D>, orig: seq<Op<I>>, w: Watch<D>, note: Note): Watch<D> {
    match note
    case Turn => WatchStep(sem, orig, w)
    case Put(a, persistent) => w.(homes := w.homes[a := persistent])
    case Drop(a) => if a >= 0 then w.(homes := w.homes - {a}, armed := w.armed || a == w.cpu.pc) else w
  }

  function WatchNotes<I, D>(sem: Sem<I, D>, orig: seq<Op<I>>, w: Watch<D>, notes: seq<Note>): Watch<D>
    decreases |notes|
  {
    if notes == [] then w else WatchNotes(sem, orig, Noted(sem, orig, w, notes[0]), notes[1..])
  }

  /** What an act is to the original: a trap that only puts its breakpoint back is nothing. */
  function NoteOf<I, D>(s: Sys<I, D>, act: Act): seq<Note> {
    match act
    case Go => if Rearms(s) then [] else [Turn]
    case Set(_, a, persistent) => [Put(a, persistent)]
    case Clear(id) => if id in s.d.live then [Drop(Home(s.d.live[id]))] else []
  }

  function NotesOf<I, D>(sem: Sem<I, D>, s: Sys<I, D>, acts: seq<Act>): seq<Note>
    decreases |acts|
  {
    if acts == [] then [] else NoteOf(s, acts[0]) + NotesOf(sem, Acted(sem, s, acts[0]), acts[1..])
  }

  /** Breakpoints are set with a free id at a place where one may go, and live ones are deleted. */
  ghost predicate Allowed<I, D>(orig: seq<Op<I>>, straight: I -> bool, s: Sys<I, D>, act: Act) {
    match act
    case Go => true
    case Set(id, a, _) => id !in s.d.live && Free(s.d, orig, straight, a)
    case Clear(id) => id in s.d.live
  }

  ghost predicate AllAllowed<I, D>(sem: Sem<I, D>, orig: seq<Op<I>>, straight: I -> bool, s: Sys<I, D>, acts: seq<Act>)
    decreases |acts|
  {
    acts != [] ==>
      && Allowed(orig, straight, s, acts[0])
      && AllAllowed(sem, orig, straight, Acted(sem, s, acts[0]), acts[1..])
  }

  lemma HomesAdded<I(!new)>(live: map<nat, Bp<I>>, homes: map<nat, bool>, id: nat, b: Bp<I>)
    requires SameHomes(live, homes) && id !in live && !b.paused
    requires forall x {:trigger live[x]} :: x in live ==> Apart(b.pi, Home(live[x]))
    ensures SameHomes(live[id := b], homes[b.pi := b.persistent])
  {
    var live', homes' := live[id := b], homes[b.pi := b.persistent];
    forall a {:trigger homes'[a]} | a in homes'
      ensures exists x :: x in live' && Home(live'[x]) == a
    {
      if a == b.pi {
        assert Home(live'[id]) == a;
      } else {
        assert homes[a] == homes'[a];
        var x :| x in live && Home(live[x]) == a;
        assert x in live' && Home(live'[x]) == a;
      }
    }
    forall x {:trigger live'[x]} | x in live'
      ensures Home(live'[x]) in homes' && homes'[Home(live'[x])] == live'[x].persistent
    {
      if x != id {
        assert live'[x] == live[x];
      }
    }
  }

  lemma StepAdded<I(!new)>(live: map<nat, Bp<I>>, pc: nat, armed: bool, id: nat, b: Bp<I>)
    requires InStep(live, pc, armed) && id !in live && !b.paused
    ensures InStep(live[id := b], pc, armed)
  {
    var live' := live[id := b];
    assert forall x {:trigger live'[x]} :: x in live' && x != id ==> live'[x] == live[x];
    if !armed {
      var x :| x in live && live[x].paused && pc == live[x].pi - 1;
      assert x in live' && live'[x].paused && pc == live'[x].pi - 1;
    }
  }

  /** Deleting the breakpoint control is about to step over leaves none to step over. */
  lemma StepDropped<I(!new)>(live: map<nat, Bp<I>>, pc: nat, armed: bool, id: nat)
    requires InStep(live, pc, armed) && id in live
    requires forall x {:trigger live[x]} :: x in live && x != id ==> Apart(Home(live[x]), Home(live[id]))
    ensures InStep(live - {id}, pc, armed || Home(live[id]) == pc)
  {
    var live' := live - {id};
    assert forall x {:trigger live'[x]} :: x in live' ==> live'[x] == live[x] && Apart(Home(live[x]), Home(live[id]));
    if !armed && pc != Home(live[id]) {
      var x :| x in live && live[x].paused && pc == live[x].pi - 1;
      assert x in live' && live'[x].paused && pc == live'[x].pi - 1;
    }
  }

  lemma PlacesApart<I(!new)>(d: Dbg<I>, orig: seq<Op<I>>, straight: I -> bool, id: nat)
    requires Transparent(d, orig, straight)
    ensures |d.code| == |orig|
    ensures id in d.live ==>
              && Planted(d, orig, straight, id) && d.live[id].pi < |d.code| && 0 <= Home(d.live[id])
              && forall x {:trigger d.live[x]} :: x in d.live && x != id ==> Apart(Home(d.live[x]), Home(d.live[id]))
  {
    if id in d.live {
      assert Planted(d, orig, straight, id);
    }
  }

  /** A breakpoint set anywhere in a session is one more place to stop at. */
  lemma CreateFollows<I(!new), D(!new)>(sem: Sem<I, D>, orig: seq<Op<I>>, straight: I -> bool, s: Sys<I, D>,
      w: Watch<D>, act: Act)
    requires Follows(s, w, orig, straight) && act.Set? && Allowed(orig, straight, s, act)
    ensures Follows(Acted(sem, s, act), Noted(sem, orig, w, Put(act.a, act.persistent)), orig, straight)
    ensures Rearms(Acted(sem, s, act)) ==> Rearms(s)
  {
    hide Transparent, SameHomes, Planted, InStep;
    PlacesApart(s.d, orig, straight, act.id);
    var b := NewBp(s.d.code[act.a], act.a, act.persistent);
    CreateKeeps(s.d, orig, straight, act.id, act.a, b);
    HomesAdded(s.d.live, w.homes, act.id, b);
    StepAdded(s.d.live, s.cpu.pc, w.armed, act.id, b);
  }

  /** A breakpoint deleted anywhere in a session, its trap moved on or not, is one place fewer. */
  lemma DeleteFollows<I(!new), D(!new)>(sem: Sem<I, D>, orig: seq<Op<I>>, straight: I -> bool, s: Sys<I, D>,
      w: Watch<D>, act: Act)
    requires Follows(s, w, orig, straight) && act.Clear? && Allowed(orig, straight, s, act)
    ensures Follows(Acted(sem, s, act), Noted(sem, orig, w, Drop(Home(s.d.live[act.id]))), orig, straight)
    ensures Rearms(Acted(sem, s, act)) ==> Rearms(s)
  {
    hide Transparent, SameHomes, Planted, InStep, Rearms, Apart, Home;
    var live, id := s.d.live, act.id;
    PlacesApart(s.d, orig, straight, id);
    DeleteKeeps(s.d, orig, straight, id);
    HomesDropped(live, w.homes, id);
    StepDropped(live, s.cpu.pc, w.armed, id);
    DeleteRearms(s.d, orig, straight, id, s);
  }

  lemma DeleteRearms<I(!new), D(!new)>(d: Dbg<I>, orig: seq<Op<I>>, straight: I -> bool, id: nat, s: Sys<I, D>)
    requires s.d == d && Transparent(d, orig, straight) && id in d.live && d.live[id].pi < |d.code|
    ensures Rearms(s.(d := Deleted(d, id))) ==> Rearms(s)
  {
    assert Planted(d, orig, straight, id);
  }

  /** A whole session goes through the states of the original code watched at the places it asks for, in the order it
      asks. */
  lemma {:induction false} SessionFollows<I(!new), D(!new)>(sem: Sem<I, D>, orig: seq<Op<I>>, straight: I -> bool,
      s: Sys<I, D>, w: Watch<D>, acts: seq<Act>)
    requires Follows(s, w, orig, straight) && GoesOn(sem, straight) && AllAllowed(sem, orig, straight, s, acts)
    ensures Follows(SysActs(sem, s, acts), WatchNotes(sem, orig, w, NotesOf(sem, s, acts)), orig, straight)
    ensures var n := Turns(NotesOf(sem, s, acts));
            n <= Gos(acts) <= 2 * n + (if Rearms(s) then 1 else 0)
    decreases |acts|
  {
    hide Follows, SysStep, WatchStep, GoesOn, Allowed, Rearms;
    if acts != [] {
      var act := acts[0];
      var t, notes := Acted(sem, s, act), NoteOf(s, act);
      var u := ActFollows(sem, orig, straight, s, w, act);
      SessionFollows(sem, orig, straight, t, u, acts[1..]);
      NotesConcat(sem, orig, w, notes, NotesOf(sem, t, acts[1..]));
    }
  }

  lemma ActFollows<I(!new), D(!new)>(sem: Sem<I, D>, orig: seq<Op<I>>, straight: I -> bool, s: Sys<I, D>, w: Watch<D>,
      act: Act)
    returns (u: Watch<D>)
    requires Follows(s, w, orig, straight) && GoesOn(sem, straight) && Allowed(orig, straight, s, act)
    ensures u == WatchNotes(sem, orig, w, NoteOf(s, act)) && Follows(Acted(sem, s, act), u, orig, straight)
    ensures |NoteOf(s, act)| <= 1 && Turns(NoteOf(s, act)) == if act.Go? && !Rearms(s) then 1 else 0
    ensures Rearms(Acted(sem, s, act)) ==> (if act.Go? then !Rearms(s) else Rearms(s))
  {
    hide Follows, SysStep, WatchStep, GoesOn, Rearms, Noted;
    var notes := NoteOf(s, act);
    u := WatchNotes(sem, orig, w, notes);
    if act.Go? {
      var k := StepFollows(sem, orig, straight, s, w);
      TurnIsStep(sem, orig, w, k);
    } else {
      OneNote(sem, orig, w, notes, straight, s, act);
      if act.Set? {
        CreateFollows(sem, orig, straight, s, w, act);
      } else {
        DeleteFollows(sem, orig, straight, s, w, act);
      }
    }
  }

  lemma OneNote<I, D>(sem: Sem<I, D>, orig: seq<Op<I>>, w: Watch<D>, notes: seq<Note>, straight: I -> bool,
      s: Sys<I, D>, act: Act)
    requires !act.Go? && Allowed(orig, straight, s, act) && notes == NoteOf(s, act)
    ensures |notes| == 1 && !notes[0].Turn? && WatchNotes(sem, orig, w, notes) == Noted(sem, orig, w, notes[0])
  {
    assert WatchNotes(sem, orig, Noted(sem, orig, w, notes[0]), []) == Noted(sem, orig, w, notes[0]);
  }

  lemma TurnIsStep<I, D>(sem: Sem<I, D>, orig: seq<Op<I>>, w: Watch<D>, k: nat)
    requires k <= 1
    ensures WatchNotes(sem, orig, w, if k == 0 then [] else [Turn]) == WatchRun(sem, orig, w, k)
  {
    var v := WatchStep(sem, orig, w);
    assert WatchNotes(sem, orig, v, []) == v && WatchRun(sem, orig, v, 0) == v;
    assert [Turn][1..] == [];
  }

  function Gos(acts: seq<Act>): nat
    decreases |acts|
  {
    if acts == [] then 0 else (if acts[0].Go? then 1 else 0) + Gos(acts[1..])
  }

  function Turns(notes: seq<Note>): nat
    decreases |notes|
  {
    if notes == [] then 0 else (if notes[0].Turn? then 1 else 0) + Turns(notes[1..])
  }

  lemma {:induction false} NotesConcat<I, D>(sem: Sem<I, D>, orig: seq<Op<I>>, w: Watch<D>, a: seq<Note>, b: seq<Note>)
    ensures WatchNotes(sem, orig, w, a + b) == WatchNotes(sem, orig, WatchNotes(sem, orig, w, a), b)
    ensures Turns(a + b) == Turns(a) + Turns(b)
    decreases |a|
  {
    hide Noted;
    if a == [] {
      assert a + b == b;
    } else {
      assert (a + b)[1..] == a[1..] + b;
      NotesConcat(sem, orig, Noted(sem, orig, w, a[0]), a[1..], b);
    }
  }

  /** Watching does not change what runs, whatever places are put and dropped meanwhile. */
  lemma {:induction false} NotesAreOriginal<I, D>(sem: Sem<I, D>, orig: seq<Op<I>>, w: Watch<D>, notes: seq<Note>)
    ensures var u, n := WatchNotes(sem, orig, w, notes), Turns(notes);
            w.stops <= u.stops <= w.stops + n && u.cpu == OrigRun(sem, orig, w.cpu, n - (u.stops - w.stops))
    decreases |notes|
  {
    if notes != [] {
      NotesAreOriginal(sem, orig, Noted(sem, orig, w, notes[0]), notes[1..]);
    }
  }

  /** Set and delete breakpoints, run and resume as often as you like, in any order: the machine goes through a prefix
      of its original run, and every live breakpoint's saved instruction is the original one. */
  lemma BreakpointsTransparent<I(!new), D(!new)>(sem: Sem<I, D>, orig: seq<Op<I>>, straight: I -> bool, s: Sys<I, D>,
      w: Watch<D>, acts: seq<Act>)
    returns (m: nat)
    requires Follows(s, w, orig, straight) && GoesOn(sem, straight) && AllAllowed(sem, orig, straight, s, acts)
    ensures var t := SysActs(sem, s, acts);
            && Transparent(t.d, orig, straight) && t.stops >= s.stops
            && t.cpu == OrigRun(sem, orig, s.cpu, m) && m <= Gos(acts) <= 2 * (m + (t.stops - s.stops)) + 1
  {
    hide SysStep, WatchStep, GoesOn, AllAllowed, SysActs, WatchNotes, NotesOf, Transparent, SameHomes, InStep;
    SessionFollows(sem, orig, straight, s, w, acts);
    var notes := NotesOf(sem, s, acts);
    NotesAreOriginal(sem, orig, w, notes);
    m := Turns(notes) - (SysActs(sem, s, acts).stops - s.stops);
  }

  // ----- from the start -----

  /** With no breakpoints yet, any straight-line instruction but the last may have one. */
  lemma FreshProgram<I(!new)>(orig: seq<Op<I>>, straight: I -> bool, a: nat)
    requires forall k {:trigger orig[k]} :: 0 <= k < |orig| ==> orig[k].Code?
    requires a + 1 < |orig| && straight(orig[a].i)
    ensures Transparent(Dbg(orig, map[]), orig, straight) && Free(Dbg(orig, map[]), orig, straight, a)
  {}

  /** A place keeps free when one is set at least two instructions away. */
  lemma KeepsFree<I(!new)>(d: Dbg<I>, orig: seq<Op<I>>, straight: I -> bool, id: nat, b: Bp<I>, c: nat)
    requires b.pi < |d.code| && !b.paused && id !in d.live && Free(d, orig, straight, c)
    requires b.pi + 2 <= c || c + 2 <= b.pi
    ensures Free(Armed(d, id, b), orig, straight, c)
  {
    var e := Armed(d, id, b);
    forall x {:trigger e.live[x]} | x in e.live
      ensures Apart(c, Home(e.live[x]))
    {
      assert x != id ==> e.live[x] == d.live[x];
    }
  }

  lemma {:induction false} RunsAllowed<I, D>(sem: Sem<I, D>, orig: seq<Op<I>>, straight: I -> bool, s: Sys<I, D>,
      acts: seq<Act>)
    requires forall k :: 0 <= k < |acts| ==> acts[k].Go?
    ensures AllAllowed(sem, orig, straight, s, acts) && Gos(acts) == |acts|
    decreases |acts|
  {
    hide Acted;
    if acts != [] {
      RunsAllowed(sem, orig, straight, Acted(sem, s, acts[0]), acts[1..]);
    }
  }

  /** Two breakpoints set in a program that has none, one that stays and one that does not, and n turns with a resume
      after each stop: a prefix of the program's own run. */
  lemma TwoBreakpoints<I(!new), D(!new)>(sem: Sem<I, D>, orig: seq<Op<I>>, straight: I -> bool, cpu: Cpu<D>, a: nat,
      c: nat, n: nat)
    returns (m: nat)
    requires (forall k {:trigger orig[k]} :: 0 <= k < |orig| ==> orig[k].Code?) && GoesOn(sem, straight)
    requires a + 1 < |orig| && c + 1 < |orig| && straight(orig[a].i) && straight(orig[c].i)
    requires a + 2 <= c || c + 2 <= a
    ensures var s, runs := Sys(Dbg(orig, map[]), cpu, 0), seq(n, _ => Go);
            var t := SysActs(sem, s, [Set(0, a, true), Set(1, c, false)] + runs);
            && Transparent(t.d, orig, straight) && t.cpu == OrigRun(sem, orig, cpu, m)
            && m <= n <= 2 * (m + t.stops) + 1
  {
    hide SysStep, Transparent, Free, SysActs, GoesOn, Follows;
    var s, runs := Sys(Dbg(orig, map[]), cpu, 0), seq(n, _ => Go);
    var first, second := Set(0, a, true), Set(1, c, false);
    FreshProgram(orig, straight, a);
    FreshProgram(orig, straight, c);
    var w := StartWatching(orig, straight, s);
    var b := NewBp(orig[a], a, true);
    KeepsFree(s.d, orig, straight, 0, b, c);
    var t := Acted(sem, s, first);
    assert t.d == Armed(s.d, 0, b);
    RunsAllowed(sem, orig, straight, Acted(sem, t, second), runs);
    AllowedFirst(sem, orig, straight, t, second, runs);
    AllowedFirst(sem, orig, straight, s, first, [second] + runs);
    assert [first] + ([second] + runs) == [first, second] + runs;
    m := BreakpointsTransparent(sem, orig, straight, s, w, [first, second] + runs);
  }

  lemma AllowedFirst<I, D>(sem: Sem<I, D>, orig: seq<Op<I>>, straight: I -> bool, s: Sys<I, D>, act: Act,
      acts: seq<Act>)
    requires Allowed(orig, straight, s, act) && AllAllowed(sem, orig, straight, Acted(sem, s, act), acts)
    ensures AllAllowed(sem, orig, straight, s, [act] + acts)
    ensures Gos([act] + acts) == (if act.Go? then 1 else 0) + Gos(acts)
  {
    assert ([act] + acts)[1..] == acts;
  }

  /** A persistent breakpoint that has just been hit is put back by the next instruction exactly when that goes on
      to the one after it; from a jump it is not, and control can pass its home unseen. */
  lemma RearmedExactly<I(!new), D(!new)>(sem: Sem<I, D>, s: Sys<I, D>, id: nat)
    requires id in s.d.live && s.d.live[id].persistent && !s.d.live[id].paused && s.d.live[id].pi == s.cpu.pc
    requires s.cpu.pc + 1 < |s.d.code| && s.d.code[s.cpu.pc] == Halt(id) && s.d.live[id].saved.Code?
    requires forall a {:trigger s.d.code[a]} :: 0 <= a < |s.d.code| && a != s.cpu.pc ==> s.d.code[a] != Halt(id)
    ensures var t := SysStep(sem, SysStep(sem, s));
            && t.stops == s.stops + 1 && t.cpu == sem(s.d.live[id].saved.i, s.cpu)
            && (t.cpu.pc < |t.d.code| && t.d.code[t.cpu.pc] == Halt(id) <==> t.cpu.pc == s.cpu.pc + 1)
  {
    assert CanExecute(s.d, id);
    assert SysStep(sem, s).d.code[s.cpu.pc] == s.d.live[id].saved;
  }

  // ----- the table of breakpoints -----

  class Breakpoint<I> {
    const id: nat
    var pi: nat
    var saved: Op<I>
    const persistent: bool
    var paused: bool

    constructor (id: nat, persistent: bool, pi: nat, here: Op<I>)
      ensures this.id == id && this.persistent == persistent && this.pi == pi && saved == here && !paused
    {
      this.id, this.persistent, this.pi, saved, paused := id, persistent, pi, here, false;
    }

    function View(): Bp<I>
      reads this
    {
      Bp(pi, saved, persistent, paused)
    }
  }

  class Debugger<I> {
    const code: array<Op<I>>
    const table: array<Breakpoint?<I>>

    constructor (code: array<Op<I>>, ids: nat)
      ensures this.code == code && fresh(table) && table.Length == ids && Valid() && Abstract() == Dbg(code[..], map[])
    {
      this.code, table := code, new Breakpoint?<I>[ids](_ => null);
    }

    ghost function Live(): set<Breakpoint<I>>
      reads this, table
    {
      set k: nat | k < table.Length && table[k] != null :: table[k]
    }

    ghost predicate Valid()
      reads this, table, Live()
    {
      forall k: nat {:trigger table[k]} :: k < table.Length && table[k] != null ==>
        table[k].id == k && table[k].pi < code.Length
    }

    ghost function Abstract(): Dbg<I>
      reads this, code, table, Live()
    {
      Dbg(code[..], map k: nat | k < table.Length && table[k] != null :: table[k].View())
    }

    method SetBreak(b: Breakpoint<I>)
      requires b.pi < code.Length
      modifies code, b`saved
      ensures code[..] == old(code[..])[b.pi := Halt(b.id)] && b.saved == old(code[b.pi])
    {
      b.saved := code[b.pi];
      code[b.pi] := Halt(b.id);
    }

    method RestoreInstruction(b: Breakpoint<I>)
      requires b.pi < code.Length
      modifies code
      ensures code[..] == old(code[..])[b.pi := b.saved]
    {
      code[b.pi] := b.saved;
    }

    /** The first free id goes to the new breakpoint. */
    method Create(a: nat, persistent: bool) returns (b: Breakpoint<I>)
      requires Valid() && a < code.Length && exists k: nat :: k < table.Length && table[k] == null
      modifies code, table
      ensures Valid() && fresh(b) && b.id < table.Length && table[b.id] == b && b.id !in old(Abstract()).live
      ensures forall k: nat {:trigger table[k]} :: k < b.id ==> old(table[k]) != null
      ensures Abstract() == Armed(old(Abstract()), b.id, Bp(a, Halt(b.id), persistent, false))
    {
      var i := 0;
      while table[i] != null
        invariant i < table.Length && exists k: nat :: i <= k < table.Length && table[k] == null
        invariant forall k: nat {:trigger table[k]} :: k < i ==> table[k] != null
        decreases table.Length - i
      {
        i := i + 1;
      }
      b := new Breakpoint(i, persistent, a, code[a]);
      SetBreak(b);
      table[i] := b;
      assert Abstract().live == Armed(old(Abstract()), b.id, Bp(a, Halt(b.id), persistent, false)).live;
    }

    method Destroy(b: Breakpoint<I>)
      requires Valid() && b.id < table.Length && table[b.id] == b
      modifies code, table
      ensures Valid() && Abstract() == Deleted(old(Abstract()), b.id)
    {
      table[b.id] := null;
      RestoreInstruction(b);
      assert Abstract().live == Deleted(old(Abstract()), b.id).live;
    }

    /** The trap goes to pi. */
    method MoveTrap(b: Breakpoint<I>, pi: nat, paused: bool)
      requires Valid() && b.id < table.Length && table[b.id] == b && pi < code.Length
      modifies code, b
      ensures Valid() && Abstract() == Armed(old(Abstract()), b.id, old(b.View()).(pi := pi, paused := paused))
    {
      b.pi := pi;
      SetBreak(b);
      b.paused := paused;
      assert Abstract().live == Armed(old(Abstract()), b.id, old(b.View()).(pi := pi, paused := paused)).live;
    }

    /** What the engine does on a HALT; true stops the run. */
    method Execute(b: Breakpoint<I>) returns (stop: bool)
      requires Valid() && b.id < table.Length && table[b.id] == b && CanExecute(Abstract(), b.id)
      modifies code, table, b
      ensures Valid() && (Abstract(), stop) == Executed(old(Abstract()), b.id)
    {
      hide Armed;
      ghost var d := Abstract();
      RestoreInstruction(b);
      assert Abstract() == Restored(d, b.id) && b.View() == d.live[b.id];
      if b.persistent {
        if !b.paused {
          MoveTrap(b, b.pi + 1, true);
          stop := true;
        } else {
          MoveTrap(b, b.pi - 1, false);
          stop := false;
        }
      } else {
        Destroy(b);
        stop := true;
        assert Abstract().code == Deleted(old(Abstract()), b.id).code;
      }
    }
  }
}
