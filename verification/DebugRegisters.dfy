/** The debug registers a guest believes it has, and the ones the driver really sets (DBKKernel/debugger.c): MOV DR
    emulation in interrupt1_handler, and the allocation of breakpoints to free registers in interrupt1_centry. */
module DebugRegisters {
  /** DR7's fields for one of DR0 to DR3: local and global enable, and the condition. */
  datatype Slot = Slot(l: bool, g: bool, rw: nat, len: nat)

  /** DR7: four slots, bit 10, GD, and the other bits that software can set. */
  datatype Seven = Seven(slots: seq<Slot>, bit10: bool, gd: bool, rest: nat)

  datatype Breakpoint = Breakpoint(active: bool, address: nat, kind: nat, length: nat)

  /** `(DR7 >> (debugregister*2)) & 3` is zero. */
  predicate Unused(d: Seven, r: nat)
    requires r < |d.slots|
  {
    !d.slots[r].l && !d.slots[r].g
  }

  /** Lr set, LENr and RWr as the breakpoint wants them. */
  function Taken(d: Seven, r: nat, b: Breakpoint): Seven
    requires r < |d.slots|
  {
    d.(slots := d.slots[r := d.slots[r].(l := true, rw := b.kind, len := b.length)])
  }

  // ----- which breakpoint gets which register -----

  function NextActive(bps: seq<Breakpoint>, b: nat): (n: nat)
    ensures n >= b && (b <= |bps| ==> n <= |bps|)
    ensures n < |bps| ==> bps[n].active
    ensures forall i :: b <= i < n && i < |bps| ==> !bps[i].active
    decreases |bps| - b
  {
    if b >= |bps| then b else if bps[b].active then b else NextActive(bps, b + 1)
  }

  /** For the registers from r on, the breakpoint each is given from b on, or -1. */
  function Owners(d: Seven, bps: seq<Breakpoint>, r: nat, b: nat): (o: seq<int>)
    requires r <= |d.slots| && b <= |bps|
    ensures |o| == |d.slots| - r
    decreases |d.slots| - r
  {
    if r == |d.slots| then []
    else if !Unused(d, r) || NextActive(bps, b) == |bps| then [-1] + Owners(d, bps, r + 1, b)
    else [NextActive(bps, b)] + Owners(d, bps, r + 1, NextActive(bps, b) + 1)
  }

  function CountUnused(d: Seven, r: nat): nat
    requires r <= |d.slots|
    decreases |d.slots| - r
  {
    if r == |d.slots| then 0 else (if Unused(d, r) then 1 else 0) + CountUnused(d, r + 1)
  }

  function CountActive(bps: seq<Breakpoint>, b: nat): nat
    requires b <= |bps|
    decreases |bps| - b
  {
    if b == |bps| then 0 else (if bps[b].active then 1 else 0) + CountActive(bps, b + 1)
  }

  function CountOwned(o: seq<int>): nat {
    if o == [] then 0 else (if o[0] >= 0 then 1 else 0) + CountOwned(o[1..])
  }

  lemma {:induction false} SkipInactive(bps: seq<Breakpoint>, b: nat)
    requires b <= |bps|
    ensures var n := NextActive(bps, b);
            CountActive(bps, b) == if n == |bps| then 0 else 1 + CountActive(bps, n + 1)
    decreases |bps| - b
  {
    if b < |bps| && !bps[b].active {
      SkipInactive(bps, b + 1);
    }
  }

  /** Owners in increasing order, each an active breakpoint from b on in an unused register. */
  predicate Orderly(d: Seven, bps: seq<Breakpoint>, r: nat, b: nat, o: seq<int>)
    requires r + |o| <= |d.slots|
  {
    && (forall i :: 0 <= i < |o| && o[i] != -1 ==> Unused(d, r + i) && b <= o[i] < |bps| && bps[o[i]].active)
    && (forall i, j :: 0 <= i < j < |o| && o[i] != -1 && o[j] != -1 ==> o[i] < o[j])
  }

  lemma OrderlyMore(d: Seven, bps: seq<Breakpoint>, r: nat, b: nat, x: int, o: seq<int>)
    requires r + 1 + |o| <= |d.slots|
    requires if x == -1 then Orderly(d, bps, r + 1, b, o)
             else Unused(d, r) && b <= x < |bps| && bps[x].active && Orderly(d, bps, r + 1, x + 1, o)
    ensures Orderly(d, bps, r, b, [x] + o)
  {
    var z := [x] + o;
    forall i | 0 <= i < |z| && z[i] != -1
      ensures Unused(d, r + i) && b <= z[i] < |bps| && bps[z[i]].active
    {
      assert i > 0 ==> z[i] == o[i - 1] && r + i == (r + 1) + (i - 1);
    }
    forall i, j | 0 <= i < j < |z| && z[i] != -1 && z[j] != -1
      ensures z[i] < z[j]
    {
      assert z[j] == o[j - 1];
      assert i > 0 ==> z[i] == o[i - 1];
    }
  }

  /** What register r is given, and from which breakpoint on the others are served. */
  function Given(d: Seven, bps: seq<Breakpoint>, r: nat, b: nat): (g: (int, nat))
    requires r < |d.slots| && b <= |bps|
    ensures g.1 <= |bps| && Owners(d, bps, r, b) == [g.0] + Owners(d, bps, r + 1, g.1)
    ensures if g.0 == -1 then g.1 == b && (!Unused(d, r) || CountActive(bps, b) == 0)
            else Unused(d, r) && b <= g.0 < |bps| && bps[g.0].active && g.1 == g.0 + 1
                 && CountActive(bps, b) == 1 + CountActive(bps, g.1)
  {
    SkipInactive(bps, b);
    if !Unused(d, r) || NextActive(bps, b) == |bps| then (-1, b) else (NextActive(bps, b), NextActive(bps, b) + 1)
  }

  /** No register of the guest's is taken, and the active breakpoints go to the unused registers in order. */
  lemma {:induction false} OwnersInOrder(d: Seven, bps: seq<Breakpoint>, r: nat, b: nat)
    requires r <= |d.slots| && b <= |bps|
    ensures Orderly(d, bps, r, b, Owners(d, bps, r, b))
    decreases |d.slots| - r
  {
    if r < |d.slots| {
      var (x, c) := Given(d, bps, r, b);
      hide Owners, Given, Unused, Orderly;
      OwnersInOrder(d, bps, r + 1, c);
      OrderlyMore(d, bps, r, b, x, Owners(d, bps, r + 1, c));
    }
  }

  /** As many are placed as there are both active breakpoints and unused registers. */
  lemma {:induction false} OwnersFill(d: Seven, bps: seq<Breakpoint>, r: nat, b: nat)
    requires r <= |d.slots| && b <= |bps|
    ensures var x, y := CountActive(bps, b), CountUnused(d, r);
            CountOwned(Owners(d, bps, r, b)) == if x < y then x else y
    decreases |d.slots| - r
  {
    hide Unused, CountActive;
    if r < |d.slots| {
      var (x, c) := Given(d, bps, r, b);
      hide Owners, Given;
      OwnersFill(d, bps, r + 1, c);
      assert ([x] + Owners(d, bps, r + 1, c))[1..] == Owners(d, bps, r + 1, c);
    }
  }

  // ----- the registers -----

  /** What is really set, and what the guest is shown: DR0 to DR3, DR6 and DR7. */
  datatype Cpu = Cpu(hard: seq<nat>, hard6: nat, hard7: Seven, fake: seq<nat>, fake6: nat, fake7: Seven)

  predicate Wellformed(c: Cpu) { |c.hard| == |c.fake| == 4 && |c.hard7.slots| == |c.fake7.slots| == 4 }

  /** A guest's write to DR7 gets bit 10 and loses GD. */
  function Admitted(v: Seven): Seven { v.(bit10 := true, gd := false) }

  predicate FitsOwners(o: seq<int>, bps: seq<Breakpoint>) { |o| == 4 && forall i :: 0 <= i < 4 ==> -1 <= o[i] < |bps| }

  /** DR7 with the breakpoints in the owned registers below n. */
  function Applied(d: Seven, o: seq<int>, bps: seq<Breakpoint>, n: nat): (e: Seven)
    requires n <= 4 == |d.slots| && FitsOwners(o, bps)
    ensures |e.slots| == 4 && (n == 0 ==> e == d)
  {
    if n == 0 then d
    else if o[n - 1] >= 0 then Taken(Applied(d, o, bps, n - 1), n - 1, bps[o[n - 1]])
    else Applied(d, o, bps, n - 1)
  }

  lemma OwnersFit(d: Seven, bps: seq<Breakpoint>)
    requires |d.slots| == 4
    ensures FitsOwners(Owners(d, bps, 0, 0), bps)
  {
    OwnersInOrder(d, bps, 0, 0);
  }

  /** What the epilogue of an interrupt leaves in the registers. */
  function Allocated(c: Cpu, bps: seq<Breakpoint>): (d: Cpu)
    requires Wellformed(c)
    ensures Wellformed(d) && d.fake == c.fake && d.fake6 == c.fake6 && d.fake7 == c.fake7
  {
    OwnersFit(c.fake7, bps);
    var o := Owners(c.fake7, bps, 0, 0);
    c.(hard := seq(4, i requires 0 <= i < 4 => if o[i] >= 0 then bps[o[i]].address else c.fake[i]),
       hard6 := c.fake6, hard7 := Applied(c.fake7, o, bps, 4))
  }

  lemma AllocatedIs(c: Cpu, bps: seq<Breakpoint>, hard: seq<nat>, hard7: Seven)
    requires Wellformed(c) && |hard| == 4
    requires var o := Owners(c.fake7, bps, 0, 0);
             && FitsOwners(o, bps) && hard7 == Applied(c.fake7, o, bps, 4)
             && forall i :: 0 <= i < 4 ==> hard[i] == if o[i] >= 0 then bps[o[i]].address else c.fake[i]
    ensures Allocated(c, bps) == c.(hard := hard, hard6 := c.fake6, hard7 := hard7)
  {
    assert Allocated(c, bps).hard == hard;
  }

  lemma {:induction false} AppliedSlots(d: Seven, o: seq<int>, bps: seq<Breakpoint>, n: nat, q: nat)
    requires n <= 4 == |d.slots| && q < 4 && FitsOwners(o, bps)
    ensures var e := Applied(d, o, bps, n);
            && e.bit10 == d.bit10 && e.gd == d.gd && e.rest == d.rest
            && e.slots[q] == if q < n && o[q] >= 0
                             then d.slots[q].(l := true, rw := bps[o[q]].kind, len := bps[o[q]].length)
                             else d.slots[q]
    decreases n
  {
    if n > 0 {
      AppliedSlots(d, o, bps, n - 1, q);
    }
  }

  /** A register the guest uses keeps the guest's address and DR7 fields; one given to a breakpoint is on for it; the
      rest are as the guest wrote them. */
  lemma EpilogueEffect(c: Cpu, bps: seq<Breakpoint>, r: nat)
    requires Wellformed(c) && r < 4
    ensures var d, o := Allocated(c, bps), Owners(c.fake7, bps, 0, 0);
            && (c.fake7.slots[r].l || c.fake7.slots[r].g ==> o[r] == -1)
            && d.hard6 == c.fake6 && d.hard7.bit10 == c.fake7.bit10 && d.hard7.gd == c.fake7.gd
            && d.hard7.rest == c.fake7.rest
            && if o[r] == -1 then d.hard[r] == c.fake[r] && d.hard7.slots[r] == c.fake7.slots[r]
               else
                 && 0 <= o[r] < |bps| && bps[o[r]].active && d.hard[r] == bps[o[r]].address
                 && d.hard7.slots[r] == Slot(true, false, bps[o[r]].kind, bps[o[r]].length)
  {
    OwnersInOrder(c.fake7, bps, 0, 0);
    OwnersFit(c.fake7, bps);
    AppliedSlots(c.fake7, Owners(c.fake7, bps, 0, 0), bps, 4, r);
  }

  /** A register nobody uses is left free only when every active breakpoint has got one before it. */
  lemma {:induction false} FreeOnlyWhenDone(d: Seven, bps: seq<Breakpoint>, r: nat, b: nat, q: nat, x: nat)
    requires r <= q < |d.slots| && b <= x < |bps| && bps[x].active
    requires !d.slots[q].l && !d.slots[q].g && Owners(d, bps, r, b)[q - r] == -1
    ensures x in Owners(d, bps, r, b)[..q - r]
    decreases |d.slots| - r
  {
    var (g, c) := Given(d, bps, r, b);
    var o := Owners(d, bps, r + 1, c);
    if q > r {
      assert ([g] + o)[..q - r] == [g] + o[..q - r - 1];
    }
    if g != x {
      NotPassed(d, bps, r, b, x);
      FreeOnlyWhenDone(d, bps, r + 1, c, q, x);
    }
  }

  /** Breakpoints are not passed over. */
  lemma NotPassed(d: Seven, bps: seq<Breakpoint>, r: nat, b: nat, x: nat)
    requires r < |d.slots| && b <= x < |bps| && bps[x].active && Given(d, bps, r, b).0 != x
    ensures Given(d, bps, r, b).1 <= x && (Given(d, bps, r, b).0 == -1 ==> d.slots[r].l || d.slots[r].g)
  {}

  // ----- one access -----

  datatype Value = Plain(w: nat) | Word7(d: Seven)

  /** DR4 and DR5 are DR6 and DR7. */
  predicate SameRegister(x: nat, y: nat) { x == y || (x >= 4 && y >= 4 && x % 2 == y % 2) }

  predicate ValueFor(dr: nat, v: Value) {
    if dr == 5 || dr == 7 then v.Word7? && |v.d.slots| == 4 else dr < 8 && v.Plain?
  }

  /** What DR6 holds of a value written to it: B0 to B3, BD, BS and BT, the reserved bits being fixed (section 17.2 of
      the Intel SDM, Volume 3B). */
  function Held6(w: nat): nat { 0xffff_0ff0 + w % 16 + w / 0x2000 % 8 * 0x2000 }

  /** A guest's MOV to a debug register: the value goes to the real register, and what that then holds is shown. */
  function Moved(c: Cpu, dr: nat, v: Value): (d: Cpu)
    requires Wellformed(c) && ValueFor(dr, v)
    ensures Wellformed(d)
  {
    if dr < 4 then c.(hard := c.hard[dr := v.w], fake := c.fake[dr := v.w])
    else if v.Plain? then c.(hard6 := Held6(v.w), fake6 := Held6(v.w))
    else c.(hard7 := Admitted(v.d), fake7 := Admitted(v.d))
  }

  /** What a MOV from the register gives the guest. */
  function Shown(c: Cpu, dr: nat): Value
    requires Wellformed(c) && dr < 8
  {
    if dr < 4 then Plain(c.fake[dr]) else if dr == 5 || dr == 7 then Word7(c.fake7) else Plain(c.fake6)
  }

  function ReadBack(dr: nat, v: Value): Value {
    if v.Word7? then Word7(Admitted(v.d)) else if dr < 4 then v else Plain(Held6(v.w))
  }

  /** What a DR7 written as v holds: the guest's four slots and the other bits as written, bit 10 set, GD clear. */
  predicate Holds7(d: Seven, v: Seven) { d.slots == v.slots && d.rest == v.rest && d.bit10 && !d.gd }

  /** What a DR6 written as v holds: B0 to B3, BD, BS and BT as written, and the other bits of 0xffff0ff0 set. */
  predicate Holds6(d: nat, v: nat) {
    && d % 16 == v % 16 && d / 0x2000 % 8 == v / 0x2000 % 8
    && d - d % 16 - d / 0x2000 % 8 * 0x2000 == 0xffff_0ff0
  }

  lemma Held6Holds(v: nat)
    ensures Holds6(Held6(v), v)
  {
    var a, b := v % 16, v / 0x2000 % 8;
    assert Held6(v) / 0x2000 == 0x7_fff8 + b;
  }

  /** The guest sees what it wrote, and its other registers as before. */
  lemma ShownMoved(c: Cpu, to: nat, v: Value, dr: nat)
    requires Wellformed(c) && ValueFor(to, v) && dr < 8
    ensures Shown(Moved(c, to, v), dr) == if SameRegister(to, dr) then ReadBack(to, v) else Shown(c, dr)
    ensures Written(c, Moved(c, to, v), to, v)
  {
    if to == 4 || to == 6 {
      Held6Holds(v.w);
    }
  }

  /** A write of v to register `to`, as the guest sees it and as the hardware has it. */
  predicate Written(c: Cpu, d: Cpu, to: nat, v: Value)
    requires Wellformed(c) && Wellformed(d) && ValueFor(to, v)
  {
    && (forall r :: 0 <= r < 4 ==> d.fake[r] == if r == to then v.w else c.fake[r])
    && (forall r :: 0 <= r < 4 ==> d.hard[r] == if r == to then v.w else c.hard[r])
    && (if to == 4 || to == 6 then Holds6(d.fake6, v.w) && d.hard6 == d.fake6
        else d.fake6 == c.fake6 && d.hard6 == c.hard6)
    && (if to == 5 || to == 7 then Holds7(d.fake7, v.d) && d.hard7 == d.fake7
        else d.fake7 == c.fake7 && d.hard7 == c.hard7)
  }

  /** The same of what is read back. */
  lemma ReadBackHolds(dr: nat, v: Value)
    requires ValueFor(dr, v)
    ensures var z := ReadBack(dr, v);
            if dr < 4 then z == v
            else if dr == 5 || dr == 7 then z.Word7? && Holds7(z.d, v.d) else z.Plain? && Holds6(z.w, v.w)
  {
    if dr == 4 || dr == 6 {
      Held6Holds(v.w);
    }
  }

  lemma ShownKept(c: Cpu, bps: seq<Breakpoint>, dr: nat)
    requires Wellformed(c) && dr < 8
    ensures Shown(Allocated(c, bps), dr) == Shown(c, dr)
  {
    hide Allocated;
  }

  // ----- a thread that waits in the debugger: its copy of what was shown comes back, on whatever CPU it wakes up -----

  /** The array originaldebugregs. */
  datatype Copy = Copy(dr: seq<nat>, dr6: nat, dr7: Seven)

  predicate CopyFits(o: Copy) { |o.dr| == |o.dr7.slots| == 4 }

  function CopyOf(c: Cpu): (o: Copy)
    requires Wellformed(c)
    ensures CopyFits(o)
  {
    Copy(c.fake, c.fake6, c.fake7)
  }

  /** GD is set before interrupts are enabled. */
  function Guarded(c: Cpu): (d: Cpu)
    requires Wellformed(c)
    ensures Wellformed(d)
  {
    c.(hard7 := c.hard7.(gd := true))
  }

  function PutBack(c: Cpu, o: Copy): (d: Cpu)
    requires Wellformed(c) && CopyFits(o)
    ensures Wellformed(d) && CopyOf(d) == o
  {
    c.(fake := o.dr, fake6 := o.dr6, fake7 := o.dr7)
  }

  lemma ShownGuarded(c: Cpu, dr: nat)
    requires Wellformed(c) && dr < 8
    ensures Shown(Guarded(c), dr) == Shown(c, dr)
    ensures Guarded(c).hard == c.hard && Guarded(c).hard6 == c.hard6 && Guarded(c).hard7.gd
    ensures Guarded(c).hard7.slots == c.hard7.slots && Guarded(c).hard7.rest == c.hard7.rest
    ensures Guarded(c).hard7.bit10 == c.hard7.bit10
  {}

  // ----- any sequence of accesses, interrupts and waits, on any number of CPUs -----

  /** The CPUs, and the copies waiting threads hold. */
  datatype Sys = Sys(cpus: seq<Cpu>, saved: map<nat, Copy>)

  /** A guest's MOV to a debug register, the epilogue of an interrupt, and a thread going to wait and waking up. */
  datatype Event = MoveTo(cpu: nat, dr: nat, v: Value) | Epilogue(cpu: nat, bps: seq<Breakpoint>)
                 | Save(cpu: nat, thread: nat) | Restore(cpu: nat, thread: nat)

  predicate Ready(s: Sys) {
    (forall i :: 0 <= i < |s.cpus| ==> Wellformed(s.cpus[i])) && (forall t :: t in s.saved ==> CopyFits(s.saved[t]))
  }

  /** Threads wake up only after they have gone to wait. */
  predicate Proper(e: Event, s: Sys) {
    && e.cpu < |s.cpus| && (e.MoveTo? ==> ValueFor(e.dr, e.v)) && (e.Restore? ==> e.thread in s.saved)
  }

  function Effect(s: Sys, e: Event): (t: Sys)
    requires Ready(s) && Proper(e, s)
    ensures Ready(t) && |t.cpus| == |s.cpus|
  {
    var c := s.cpus[e.cpu];
    match e
    case MoveTo(_, dr, v) => s.(cpus := s.cpus[e.cpu := Moved(c, dr, v)])
    case Epilogue(_, bps) => s.(cpus := s.cpus[e.cpu := Allocated(c, bps)])
    case Save(_, t) => Sys(s.cpus[e.cpu := Guarded(c)], s.saved[t := CopyOf(c)])
    case Restore(_, t) => s.(cpus := s.cpus[e.cpu := PutBack(c, s.saved[t])])
  }

  /** Every event is proper when it comes. */
  predicate AllProper(s: Sys, events: seq<Event>)
    requires Ready(s)
    decreases |events|
  {
    events != [] ==>
      var n := |events| - 1;
      AllProper(s, events[..n]) && Proper(events[n], After(s, events[..n]))
  }

  function After(s: Sys, events: seq<Event>): (t: Sys)
    requires Ready(s)
    ensures Ready(t) && |t.cpus| == |s.cpus|
    decreases |events|
  {
    if events == [] then s
    else
      var n := |events| - 1;
      var t := After(s, events[..n]);
      if Proper(events[n], t) then Effect(t, events[n]) else t
  }

  /** Any CPUs will do to begin with, and any write and any epilogue on one of them. */
  lemma Begins(cpus: seq<Cpu>, c: nat, dr: nat, v: Value, bps: seq<Breakpoint>)
    requires forall i :: 0 <= i < |cpus| ==> |cpus[i].hard| == 4 && |cpus[i].fake| == 4
    requires forall i :: 0 <= i < |cpus| ==> |cpus[i].hard7.slots| == 4 && |cpus[i].fake7.slots| == 4
    requires c < |cpus| && dr < 8 && if dr % 2 == 1 && dr >= 5 then v.Word7? && |v.d.slots| == 4 else v.Plain?
    ensures Ready(Sys(cpus, map[])) && AllProper(Sys(cpus, map[]), [MoveTo(c, dr, v), Epilogue(c, bps)])
  {
    hide Moved, Allocated;
    var s, a, b := Sys(cpus, map[]), MoveTo(c, dr, v), Epilogue(c, bps);
    assert [a, b][..1] == [a] && [a][..0] == [];
    assert After(s, []) == s && AllProper(s, [a]) && |After(s, [a]).cpus| == |cpus|;
  }

  /** The event sets what CPU c shows as register dr. */
  predicate Sets(e: Event, c: nat, dr: nat) {
    e.cpu == c && ((e.MoveTo? && SameRegister(e.dr, dr)) || e.Restore?)
  }

  function LastSet(events: seq<Event>, c: nat, dr: nat): (w: int)
    ensures -1 <= w < |events|
    ensures w >= 0 ==> Sets(events[w], c, dr)
    ensures forall i :: w < i < |events| ==> !Sets(events[i], c, dr)
  {
    if events == [] then -1
    else
      var n := |events| - 1;
      if Sets(events[n], c, dr) then n else LastSet(events[..n], c, dr)
  }

  function LastSave(events: seq<Event>, thread: nat): (k: int)
    ensures -1 <= k < |events|
    ensures k >= 0 ==> events[k].Save? && events[k].thread == thread
    ensures forall i :: k < i < |events| && events[i].Save? ==> events[i].thread != thread
  {
    if events == [] then -1
    else
      var n := |events| - 1;
      if events[n].Save? && events[n].thread == thread then n else LastSave(events[..n], thread)
  }

  lemma {:induction false} ProperPrefix(s: Sys, events: seq<Event>, k: nat)
    requires Ready(s) && AllProper(s, events) && k < |events|
    ensures AllProper(s, events[..k]) && Proper(events[k], After(s, events[..k]))
    decreases |events|
  {
    hide After, Proper;
    var n := |events| - 1;
    if k < n {
      ProperPrefix(s, events[..n], k);
      assert events[..n][..k] == events[..k];
    }
  }

  /** A waiting thread's copy is what its CPU showed when it went to wait. */
  lemma {:induction false} CopySaved(s: Sys, events: seq<Event>, thread: nat)
    requires Ready(s) && AllProper(s, events) && s.saved == map[] && thread in After(s, events).saved
    ensures var k := LastSave(events, thread);
            && k >= 0 && Proper(events[k], After(s, events[..k]))
            && After(s, events).saved[thread] == CopyOf(After(s, events[..k]).cpus[events[k].cpu])
    decreases |events|
  {
    hide Moved, Allocated, Guarded, PutBack, CopyOf;
    var n := |events| - 1;
    if events[n].Save? && events[n].thread == thread {
      assert events[..n] == events[..LastSave(events, thread)];
    } else {
      CopySaved(s, events[..n], thread);
      var k := LastSave(events[..n], thread);
      assert events[..n][..k] == events[..k];
    }
  }

  /** What a copy holds of a register. */
  function Held(o: Copy, dr: nat): Value
    requires CopyFits(o) && dr < 8
  {
    if dr < 4 then Plain(o.dr[dr]) else if dr == 5 || dr == 7 then Word7(o.dr7) else Plain(o.dr6)
  }

  lemma ShownStep(s: Sys, e: Event, c: nat, dr: nat)
    requires Ready(s) && Proper(e, s) && c < |s.cpus| && dr < 8
    ensures var now := Shown(Effect(s, e).cpus[c], dr);
            if !Sets(e, c, dr) then now == Shown(s.cpus[c], dr)
            else if e.MoveTo? then now == ReadBack(e.dr, e.v)
            else now == Held(s.saved[e.thread], dr)
    ensures Held(CopyOf(s.cpus[c]), dr) == Shown(s.cpus[c], dr)
    ensures c != e.cpu ==> Effect(s, e).cpus[c] == s.cpus[c]
    ensures c == e.cpu && e.Save? ==> Effect(s, e).cpus[c].hard7 == s.cpus[c].hard7.(gd := true)
  {
    hide Moved, Allocated, Guarded, ReadBack, SameRegister;
    var x := s.cpus[e.cpu];
    match e
    case MoveTo(_, d, v) => ShownMoved(x, d, v, dr);
    case Epilogue(_, bps) => ShownKept(x, bps, dr);
    case Save(_, _) => ShownGuarded(x, dr);
    case Restore(_, th) =>
  }

  /** Where the value shown came from, when event w set it last. */
  ghost predicate SetBy(s: Sys, events: seq<Event>, w: int, dr: nat, now: Value)
    requires Ready(s) && 0 <= w < |events| && dr < 8
  {
    if events[w].MoveTo? then now == ReadBack(events[w].dr, events[w].v)
    else if events[w].Restore? then
      var k := LastSave(events[..w], events[w].thread);
      k >= 0 && events[k].cpu < |s.cpus| && now == Shown(After(s, events[..k]).cpus[events[k].cpu], dr)
    else false
  }

  lemma SetByPrefix(s: Sys, events: seq<Event>, n: nat, w: int, dr: nat, now: Value)
    requires Ready(s) && 0 <= w < n <= |events| && dr < 8 && SetBy(s, events[..n], w, dr, now)
    ensures SetBy(s, events, w, dr, now)
  {
    hide After, Shown, ReadBack;
    assert events[..n][..w] == events[..w] && events[..n][w] == events[w];
    if events[w].Restore? {
      var k := LastSave(events[..w], events[w].thread);
      assert events[..n][..k] == events[..k];
    }
  }

  /** What the register shows was set last by the guest's write, read back as the hardware holds it, or by a thread that
      woke up on that CPU: then it is what was shown where, and when, that thread went to wait. */
  lemma {:induction false} ReadsLastSet(s: Sys, events: seq<Event>, c: nat, dr: nat)
    requires Ready(s) && AllProper(s, events) && s.saved == map[] && c < |s.cpus| && dr < 8
    ensures var w, now := LastSet(events, c, dr), Shown(After(s, events).cpus[c], dr);
            if w == -1 then now == Shown(s.cpus[c], dr) else SetBy(s, events, w, dr, now)
    decreases |events|
  {
    hide Effect, Shown, ReadBack, CopyOf, Sets, SetBy, Held, LastSave;
    if events != [] {
      var n := |events| - 1;
      var t, e := After(s, events[..n]), events[n];
      ShownStep(t, e, c, dr);
      if Sets(e, c, dr) {
        SetHere(s, events, c, dr);
      } else {
        ReadsLastSet(s, events[..n], c, dr);
        var w := LastSet(events[..n], c, dr);
        if w >= 0 {
          SetByPrefix(s, events, n, w, dr, Shown(t.cpus[c], dr));
        }
      }
    }
  }

  lemma SetHere(s: Sys, events: seq<Event>, c: nat, dr: nat)
    requires Ready(s) && events != [] && AllProper(s, events) && s.saved == map[] && c < |s.cpus| && dr < 8
    requires Sets(events[|events| - 1], c, dr)
    ensures SetBy(s, events, |events| - 1, dr, Shown(After(s, events).cpus[c], dr))
  {
    hide Effect, Shown, ReadBack, CopyOf, Held, SameRegister;
    var n := |events| - 1;
    var t, e := After(s, events[..n]), events[n];
    ShownStep(t, e, c, dr);
    if e.Restore? {
      CopySaved(s, events[..n], e.thread);
      var k := LastSave(events[..n], e.thread);
      assert events[..n][..k] == events[..k];
      ShownStep(After(s, events[..k]), events[k], events[k].cpu, dr);
    }
  }

  /** The guest's last write to the register on CPU c. */
  function LastWrite(events: seq<Event>, c: nat, dr: nat): (w: int)
    ensures -1 <= w < |events|
    ensures w >= 0 ==> events[w].MoveTo? && events[w].cpu == c && SameRegister(events[w].dr, dr)
    ensures forall i :: w < i < |events| && events[i].MoveTo? && events[i].cpu == c ==> !SameRegister(events[i].dr, dr)
  {
    if events == [] then -1
    else
      var n := |events| - 1;
      if events[n].MoveTo? && events[n].cpu == c && SameRegister(events[n].dr, dr) then n
      else LastWrite(events[..n], c, dr)
  }

  /** Where a shown value comes from: what a CPU showed at the start, or one of the guest's writes. */
  datatype Origin = Start(cpu: nat) | Write(i: nat)

  /** Followed through the event list: from a thread that woke up to the CPU it had gone to wait on, and so on back. */
  function OriginOf(events: seq<Event>, c: nat, dr: nat): (o: Origin)
    ensures o.Write? ==> o.i < |events| && events[o.i].MoveTo? && SameRegister(events[o.i].dr, dr)
    decreases |events|
  {
    var w := LastSet(events, c, dr);
    if w == -1 then Start(c)
    else if events[w].MoveTo? then Write(w)
    else
      var k := LastSave(events[..w], events[w].thread);
      if k == -1 then Start(c) else OriginOf(events[..k], events[k].cpu, dr)
  }

  /** What came from there, read back. */
  function FromOrigin(s: Sys, events: seq<Event>, o: Origin, dr: nat): Value
    requires Ready(s) && dr < 8
    requires if o.Start? then o.cpu < |s.cpus| else o.i < |events| && events[o.i].MoveTo?
  {
    if o.Start? then Shown(s.cpus[o.cpu], dr) else ReadBack(events[o.i].dr, events[o.i].v)
  }

  /** Through any chain of waits, a shown register has the value of its origin. */
  lemma {:induction false} ReadsOrigin(s: Sys, events: seq<Event>, c: nat, dr: nat)
    requires Ready(s) && AllProper(s, events) && s.saved == map[] && c < |s.cpus| && dr < 8
    ensures var o := OriginOf(events, c, dr);
            && (o.Start? ==> o.cpu < |s.cpus|)
            && Shown(After(s, events).cpus[c], dr) == FromOrigin(s, events, o, dr)
    decreases |events|
  {
    hide After, Shown, ReadBack, SameRegister, Proper;
    ReadsLastSet(s, events, c, dr);
    var w := LastSet(events, c, dr);
    if w >= 0 && events[w].Restore? {
      var k := LastSave(events[..w], events[w].thread);
      assert events[..w][k] == events[k];
      ProperPrefix(s, events, k);
      ReadsOrigin(s, events[..k], events[k].cpu, dr);
    }
  }

  /** The value the register's origin left is that of the guest's last write on CPU c: a condition on the events and the
      registers at the start. */
  predicate Survives(s: Sys, events: seq<Event>, c: nat, dr: nat)
    requires Ready(s) && dr < 8 && LastWrite(events, c, dr) >= 0
  {
    var w, o := LastWrite(events, c, dr), OriginOf(events, c, dr);
    (o.Start? ==> o.cpu < |s.cpus|) && FromOrigin(s, events, o, dr) == ReadBack(events[w].dr, events[w].v)
  }

  /** The guest reads back its own last write, whatever the driver has put in the registers meanwhile, exactly when that
      survives the waking of threads, as it does when it is the origin itself, and it is when none has woken up there
      since; DR7 with bit 10 on and GD off, DR6 as the hardware holds it. */
  lemma ReadsLastWrite(s: Sys, events: seq<Event>, c: nat, dr: nat)
    requires Ready(s) && AllProper(s, events) && s.saved == map[] && c < |s.cpus| && dr < 8
    requires LastWrite(events, c, dr) >= 0
    ensures var w := LastWrite(events, c, dr);
            && (Shown(After(s, events).cpus[c], dr) == ReadBack(events[w].dr, events[w].v)
                <==> Survives(s, events, c, dr))
            && (OriginOf(events, c, dr) == Write(w) ==> Survives(s, events, c, dr))
            && ((forall i :: w < i < |events| && events[i].Restore? ==> events[i].cpu != c)
                ==> OriginOf(events, c, dr) == Write(w))
  {
    hide After, Shown, ReadBack, SameRegister;
    ReadsOrigin(s, events, c, dr);
    var w, x := LastWrite(events, c, dr), LastSet(events, c, dr);
    assert Sets(events[w], c, dr);
  }

  /** A write made on a CPU while a thread that left it waits is lost when that thread wakes up there. */
  lemma WaitLosesWrite(s: Sys, before: seq<Event>, wait: Event, write: Event, wake: Event)
    requires Ready(s) && s.saved == map[] && wait.Save? && write.MoveTo? && wake.Restore? && wake.thread == wait.thread
    requires wait.cpu == write.cpu == wake.cpu && AllProper(s, before + [wait, write, wake])
    ensures AllProper(s, before) && wait.cpu < |s.cpus| && write.dr < 8
    ensures Shown(After(s, before + [wait, write, wake]).cpus[wait.cpu], write.dr)
            == Shown(After(s, before).cpus[wait.cpu], write.dr)
  {
    hide After, Shown, Effect, ReadBack, SameRegister, AllProper;
    var events, n := before + [wait, write, wake], |before|;
    ProperPrefix(s, events, n);
    ProperPrefix(s, events, n + 1);
    assert events[..n] == before && events[n] == wait && events[n + 1] == write && events[n + 2] == wake;
    ReadsLastSet(s, events, wait.cpu, write.dr);
    assert events[..n + 2] == before + [wait, write];
    assert LastSave(before + [wait, write], wait.thread) == n by {
      assert (before + [wait, write])[n] == wait && (before + [wait, write])[n + 1] == write;
    }
  }

  /** Whatever happened before, the epilogue leaves a register that the DR7 shown to the guest switches on with that
      DR7's fields and the address shown: those the guest last wrote, where they survive. */
  lemma {:induction false} GuestKeepsRegisters(s: Sys, events: seq<Event>, c: nat, bps: seq<Breakpoint>, r: nat)
    requires Ready(s) && AllProper(s, events) && s.saved == map[] && c < |s.cpus| && r < 4
    ensures var was, d := After(s, events).cpus[c], Effect(After(s, events), Epilogue(c, bps)).cpus[c];
            && CopyOf(d) == CopyOf(was)
            && (was.fake7.slots[r].l || was.fake7.slots[r].g ==>
                  d.hard7.slots[r] == was.fake7.slots[r] && d.hard[r] == was.fake[r])
    ensures var was, w := After(s, events).cpus[c], LastWrite(events, c, r);
            w >= 0 && Survives(s, events, c, r) ==> Plain(was.fake[r]) == events[w].v
    ensures var was, w := After(s, events).cpus[c], LastWrite(events, c, 7);
            w >= 0 && Survives(s, events, c, 7) ==> events[w].v.Word7? && Holds7(was.fake7, events[w].v.d)
  {
    hide Owners, Moved, Guarded, PutBack, Survives, After, Allocated;
    EpilogueEffect(After(s, events).cpus[c], bps, r);
    if LastWrite(events, c, r) >= 0 {
      ReadsLastWrite(s, events, c, r);
      WriteProper(s, events, LastWrite(events, c, r));
    }
    if LastWrite(events, c, 7) >= 0 {
      var w := LastWrite(events, c, 7);
      ReadsLastWrite(s, events, c, 7);
      WriteProper(s, events, w);
      ReadBackHolds(events[w].dr, events[w].v);
    }
  }

  lemma WriteProper(s: Sys, events: seq<Event>, w: nat)
    requires Ready(s) && AllProper(s, events) && w < |events| && events[w].MoveTo?
    ensures ValueFor(events[w].dr, events[w].v)
  {
    hide After;
    ProperPrefix(s, events, w);
  }

  // ----- the driver's code -----

  class Processor {
    var dr: seq<nat>
    var dr6: nat
    var dr7: Seven
    var fakeDr: seq<nat>
    var fakeDr6: nat
    var fakeDr7: Seven

    function Now(): Cpu
      reads this
    {
      Cpu(dr, dr6, dr7, fakeDr, fakeDr6, fakeDr7)
    }

    method MoveToDebugRegister(debugregister: nat, gpvalue: Value)
      requires Wellformed(Now()) && ValueFor(debugregister, gpvalue)
      modifies this
      ensures Now() == Moved(old(Now()), debugregister, gpvalue)
      ensures Shown(Now(), debugregister) == ReadBack(debugregister, gpvalue)
      ensures forall r: nat :: r < 8 && !SameRegister(debugregister, r) ==> Shown(Now(), r) == Shown(old(Now()), r)
      ensures Wellformed(Now()) && Written(old(Now()), Now(), debugregister, gpvalue)
    {
      ShownMoved(Now(), debugregister, gpvalue, 0);
      if debugregister < 4 {
        dr := dr[debugregister := gpvalue.w];
        fakeDr := fakeDr[debugregister := dr[debugregister]];
      } else if debugregister == 4 || debugregister == 6 {
        dr6 := Held6(gpvalue.w);
        fakeDr6 := dr6;
      } else {
        var v := gpvalue.d;
        v := v.(bit10 := true);
        v := v.(gd := false);
        dr7 := v;
        fakeDr7 := dr7;
      }
    }

    method MoveFromDebugRegister(debugregister: nat) returns (drvalue: Value)
      requires Wellformed(Now()) && debugregister < 8
      ensures drvalue == Shown(Now(), debugregister)
    {
      if debugregister < 4 {
        drvalue := Plain(fakeDr[debugregister]);
      } else if debugregister == 4 || debugregister == 6 {
        drvalue := Plain(fakeDr6);
      } else {
        drvalue := Word7(fakeDr7);
      }
    }

    /** Before a thread waits in the debugger: its own copy of what is shown, and GD set for whoever runs here next. */
    method SaveFaked() returns (original: Copy)
      requires Wellformed(Now())
      modifies this`dr7
      ensures Now() == Guarded(old(Now())) && original == CopyOf(old(Now()))
      ensures dr7.gd && dr7 == old(dr7).(gd := true)
    {
      original := Copy(fakeDr, fakeDr6, fakeDr7);
      dr7 := dr7.(gd := true);
    }

    /** When it wakes up, possibly on another CPU than it went to wait on. */
    method RestoreFaked(original: Copy)
      requires Wellformed(Now()) && CopyFits(original)
      modifies this`fakeDr, this`fakeDr6, this`fakeDr7
      ensures Now() == PutBack(old(Now()), original)
      ensures forall r: nat :: r < 4 ==> Shown(Now(), r) == Plain(original.dr[r])
    {
      fakeDr, fakeDr6, fakeDr7 := original.dr, original.dr6, original.dr7;
    }

    /** Registers below r have been dealt with. */
    ghost predicate Dealt(o: seq<int>, bps: seq<Breakpoint>, r: nat, v7: Seven)
      requires r <= 4 == |fakeDr7.slots| && FitsOwners(o, bps)
      reads this
    {
      && |dr| == |fakeDr| == 4 && v7 == Applied(fakeDr7, o, bps, r)
      && forall i :: 0 <= i < 4 ==> dr[i] == if i < r && o[i] >= 0 then bps[o[i]].address else fakeDr[i]
    }

    /** The search for a register for one breakpoint goes on from where the last one stopped. */
    method FindRegister(bps: seq<Breakpoint>, breakpoint: nat, ghost o: seq<int>, from: nat, v7: Seven)
      returns (debugregister: nat, v7': Seven)
      requires breakpoint < |bps| && bps[breakpoint].active && from <= 4 == |fakeDr7.slots| && FitsOwners(o, bps)
      requires o[from..] == Owners(fakeDr7, bps, from, breakpoint) && Dealt(o, bps, from, v7)
      modifies this`dr
      ensures debugregister <= 4 && Dealt(o, bps, debugregister, v7')
      ensures o[debugregister..] == Owners(fakeDr7, bps, debugregister, breakpoint + 1)
    {
      debugregister, v7' := from, v7;
      var foundone := false;
      while debugregister < 4 && !foundone
        modifies this`dr
        invariant debugregister <= 4 && Dealt(o, bps, debugregister, v7')
        invariant o[debugregister..]
                  == Owners(fakeDr7, bps, debugregister, if foundone then breakpoint + 1 else breakpoint)
        decreases 4 - debugregister
      {
        assert o[debugregister..][0] == o[debugregister] && o[debugregister..][1..] == o[debugregister + 1..];
        if Unused(fakeDr7, debugregister) {
          foundone := true;
          dr := dr[debugregister := bps[breakpoint].address];
          v7' := Taken(v7', debugregister, bps[breakpoint]);
        }
        debugregister := debugregister + 1;
      }
    }

    method Epilogue(bps: seq<Breakpoint>)
      requires Wellformed(Now())
      modifies this
      ensures Now() == Allocated(old(Now()), bps)
    {
      hide Owners, Applied, Allocated, Unused;
      ghost var was := Now();
      OwnersFit(fakeDr7, bps);
      ghost var o := Owners(fakeDr7, bps, 0, 0);
      var v7 := fakeDr7;
      dr := fakeDr;
      dr6 := fakeDr6;
      var debugregister: nat, breakpoint := 0, 0;
      while breakpoint < |bps|
        modifies this`dr
        invariant breakpoint <= |bps| && debugregister <= 4 && Dealt(o, bps, debugregister, v7)
        invariant o[debugregister..] == Owners(fakeDr7, bps, debugregister, breakpoint)
      {
        if bps[breakpoint].active {
          debugregister, v7 := FindRegister(bps, breakpoint, o, debugregister, v7);
        } else {
          SkipOne(fakeDr7, bps, debugregister, breakpoint);
        }
        breakpoint := breakpoint + 1;
      }
      dr7 := v7;
      NoneLeft(fakeDr7, o, bps, debugregister);
      AllocatedIs(was, bps, dr, dr7);
    }
  }

  lemma {:induction false} SkipOne(d: Seven, bps: seq<Breakpoint>, r: nat, b: nat)
    requires r <= |d.slots| && b < |bps| && !bps[b].active
    ensures Owners(d, bps, r, b) == Owners(d, bps, r, b + 1)
    decreases |d.slots| - r
  {
    if r < |d.slots| {
      SkipOne(d, bps, r + 1, b);
    }
  }

  /** With no breakpoint left, no further register is taken. */
  lemma {:induction false} NoneLeft(d: Seven, o: seq<int>, bps: seq<Breakpoint>, r: nat)
    requires r <= 4 == |d.slots| && FitsOwners(o, bps) && o[r..] == Owners(d, bps, r, |bps|)
    ensures forall i :: r <= i < 4 ==> o[i] == -1
    ensures Applied(d, o, bps, 4) == Applied(d, o, bps, r)
    decreases 4 - r
  {
    if r < 4 {
      assert o[r] == o[r..][0] == -1 && o[r..][1..] == o[r + 1..];
      NoneLeft(d, o, bps, r + 1);
    }
  }
}
