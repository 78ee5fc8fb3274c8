/** The driver's re-entrant lock (DBKKernel/DBKFunc.c): any number of CPUs, every interleaving of their reads and
    writes. Each CPU leaves as often as it entered. */
module CriticalSection {
  /** Where a CPU is in csEnter or csLeave. */
  datatype Phase =
    | Idle
    | CheckLocked | CheckOwner | Recount | ToDisable | Spinning | Racing | SetCount | SetOwner | SaveFlag
    | LeaveLocked | LeaveOwner | Decrement | Enable | DropOwner | Unlock

  /** depth counts the enters not yet left; `before` is the interrupt flag from before the outermost one. */
  datatype Cpu = Cpu(phase: Phase, depth: nat, iflag: bool, oldstate: bool, before: bool)

  datatype Sys = Sys(cpus: map<nat, Cpu>, locked: bool, owner: int, count: int, oldIF: bool)

  /** Go: the CPU's next access. Enter and Leave: it calls csEnter or csLeave. Toggle: outside, it changes its
      interrupt flag. */
  datatype Label = Enter(c: nat) | Leave(c: nat) | Toggle(c: nat) | Go(c: nat)

  predicate Enabled(s: Sys, l: Label) {
    && l.c in s.cpus
    && match l
       case Enter(c) => s.cpus[c].phase.Idle?
       case Leave(c) => s.cpus[c].phase.Idle? && s.cpus[c].depth > 0
       case Toggle(c) => s.cpus[c].phase.Idle? && s.cpus[c].depth == 0
       case Go(c) => !s.cpus[c].phase.Idle?
  }

  function Put(s: Sys, c: nat, p: Cpu): Sys { s.(cpus := s.cpus[c := p]) }

  function Step(s: Sys, l: Label): Sys
    requires Enabled(s, l)
  {
    var p := s.cpus[l.c];
    match l
    case Enter(c) =>
      Put(s, c, p.(phase := CheckLocked, oldstate := p.iflag, before := if p.depth == 0 then p.iflag else p.before))
    case Leave(c) => Put(s, c, p.(phase := LeaveLocked))
    case Toggle(c) => Put(s, c, p.(iflag := !p.iflag))
    case Go(c) => Put(Written(s, c), c, Local(s, c))
  }

  /** The CPU after its access. */
  function Local(s: Sys, c: nat): Cpu
    requires c in s.cpus
  {
    var p := s.cpus[c];
    match p.phase
    case Idle => p
    case CheckLocked => p.(phase := if s.locked then CheckOwner else ToDisable)
    case CheckOwner => p.(phase := if s.owner == c then Recount else ToDisable)
    case Recount => p.(phase := Idle, depth := p.depth + 1)
    case ToDisable => p.(phase := Spinning, iflag := false)
    case Spinning => p.(phase := if s.locked then Spinning else Racing)
    case Racing => p.(phase := if s.locked then Spinning else SetCount)
    case SetCount => p.(phase := SetOwner)
    case SetOwner => p.(phase := SaveFlag)
    case SaveFlag => p.(phase := Idle, depth := p.depth + 1)
    case LeaveLocked => p.(phase := if s.locked then LeaveOwner else Idle)
    case LeaveOwner => p.(phase := if s.owner == c then Decrement else Idle)
    case Decrement => if s.count == 1 then p.(phase := Enable) else p.(phase := Idle, depth := Less(p.depth))
    case Enable => p.(phase := DropOwner, iflag := if s.oldIF then true else p.iflag)
    case DropOwner => p.(phase := Unlock)
    case Unlock => p.(phase := Idle, depth := Less(p.depth))
  }

  function Less(n: nat): nat { if n > 0 then n - 1 else 0 }

  /** The section after it. */
  function Written(s: Sys, c: nat): Sys
    requires c in s.cpus
  {
    match s.cpus[c].phase
    case Recount => s.(count := s.count + 1)
    case Racing => s.(locked := true)
    case SetCount => s.(count := 1)
    case SetOwner => s.(owner := c)
    case SaveFlag => s.(oldIF := s.cpus[c].oldstate)
    case Decrement => s.(count := s.count - 1)
    case DropOwner => s.(owner := -1)
    case Unlock => s.(locked := false)
    case _ => s
  }

  predicate IsRun(s: Sys, labels: seq<Label>)
    decreases |labels|
  {
    labels != [] ==> Enabled(s, labels[0]) && IsRun(Step(s, labels[0]), labels[1..])
  }

  function After(s: Sys, labels: seq<Label>): Sys
    requires IsRun(s, labels)
    decreases |labels|
  {
    if labels == [] then s else After(Step(s, labels[0]), labels[1..])
  }

  predicate Start(s: Sys) {
    !s.locked && forall c {:trigger s.cpus[c]} :: c in s.cpus ==> s.cpus[c].phase.Idle? && s.cpus[c].depth == 0
  }

  // ----- safety -----

  /** From winning the race for the lock to giving it up. */
  predicate Holds(s: Sys, c: nat) {
    && c in s.cpus
    && (s.cpus[c].depth > 0 || s.cpus[c].phase.SetCount? || s.cpus[c].phase.SetOwner? || s.cpus[c].phase.SaveFlag?)
  }

  ghost predicate AtMostOne(s: Sys) {
    forall c, d {:trigger Holds(s, c), Holds(s, d)} :: Holds(s, c) && Holds(s, d) ==> c == d
  }

  /** The section names no CPU, or there is only the one it names. */
  predicate Distinct(s: Sys) { forall c {:trigger s.cpus[c]} :: c in s.cpus && s.owner == c ==> s.cpus.Keys == {c} }

  /** The lock is this CPU's, and nothing but its own last leave can change that. */
  predicate Owns(s: Sys, c: nat)
    requires c in s.cpus
  {
    s.locked && s.owner == c && s.oldIF == s.cpus[c].before && !s.cpus[c].iflag && s.count == s.cpus[c].depth
  }

  predicate Stage(s: Sys, c: nat)
    requires c in s.cpus
  {
    var p := s.cpus[c];
    match p.phase
    case Idle => p.depth > 0 ==> Owns(s, c)
    case CheckLocked => if p.depth > 0 then Owns(s, c) else p.before == p.oldstate
    case CheckOwner => if p.depth > 0 then Owns(s, c) else p.before == p.oldstate && s.cpus.Keys != {c}
    case Recount => p.depth > 0 && Owns(s, c)
    case ToDisable => p.depth == 0 && p.before == p.oldstate
    case Spinning => p.depth == 0 && p.before == p.oldstate && !p.iflag
    case Racing => p.depth == 0 && p.before == p.oldstate && !p.iflag
    case SetCount => p.depth == 0 && p.before == p.oldstate && !p.iflag && s.locked
    case SetOwner => p.depth == 0 && p.before == p.oldstate && !p.iflag && s.locked && s.count == 1
    case SaveFlag => p.depth == 0 && p.before == p.oldstate && !p.iflag && s.locked && s.count == 1 && s.owner == c
    case LeaveLocked => p.depth > 0 && Owns(s, c)
    case LeaveOwner => p.depth > 0 && Owns(s, c)
    case Decrement => p.depth > 0 && Owns(s, c)
    case Enable => p.depth == 1 && s.locked && s.owner == c && s.count == 0 && s.oldIF == p.before && !p.iflag
    case DropOwner => p.depth == 1 && s.locked && s.owner == c && s.count == 0 && p.iflag == p.before
    case Unlock => p.depth == 1 && s.locked && s.owner == -1 && p.iflag == p.before
  }

  ghost predicate Staged(s: Sys) { forall c {:trigger s.cpus[c]} :: c in s.cpus ==> Stage(s, c) }

  ghost predicate Unheld(s: Sys) {
    !s.locked && Staged(s) && Distinct(s) && forall c {:trigger s.cpus[c]} :: c in s.cpus ==> !Holds(s, c)
  }

  ghost predicate HeldBy(s: Sys, h: nat) {
    && s.locked && Staged(s) && Holds(s, h)
    && (forall c {:trigger s.cpus[c]} :: c in s.cpus && c != h ==> !Holds(s, c) && s.owner != c)
  }

  ghost predicate Inv(s: Sys) { Unheld(s) || exists h :: HeldBy(s, h) }

  /** A free section and CPUs outside it; safe when it names none of them. */
  lemma Begins(cpus: map<nat, Cpu>, owner: int, count: int, oldIF: bool)
    requires forall c :: c in cpus ==> cpus[c].phase.Idle? && cpus[c].depth == 0
    ensures Start(Sys(cpus, false, owner, count, oldIF))
    ensures owner < 0 ==> Distinct(Sys(cpus, false, owner, count, oldIF))
  {}

  lemma StartInv(s: Sys)
    requires Start(s) && Distinct(s)
    ensures Inv(s)
  {}

  predicate Wins(s: Sys, l: Label) { l.Go? && l.c in s.cpus && s.cpus[l.c].phase.Racing? }

  predicate SameShared(s: Sys, s': Sys) {
    s'.locked == s.locked && s'.owner == s.owner && s'.count == s.count && s'.oldIF == s.oldIF
  }

  /** A CPU that does not hold the lock sees nothing of the shared fields in its own stage. */
  lemma Undisturbed(s: Sys, s': Sys, d: nat)
    requires d in s.cpus && s'.cpus.Keys == s.cpus.Keys && s'.cpus[d] == s.cpus[d] && Stage(s, d)
    requires !Holds(s, d) || SameShared(s, s')
    ensures Stage(s', d) && Holds(s', d) == Holds(s, d)
  {}

  lemma OneChanges(s: Sys, l: Label)
    requires Enabled(s, l)
    ensures var s' := Step(s, l);
            && s'.cpus.Keys == s.cpus.Keys
            && forall d {:trigger s'.cpus[d]} :: d in s.cpus && d != l.c ==> s'.cpus[d] == s.cpus[d]
  {
    hide Local;
  }

  /** What a CPU outside does: it changes nothing shared, unless it wins the lock. */
  lemma OutsiderMoves(s: Sys, l: Label)
    requires Enabled(s, l) && Stage(s, l.c) && !Holds(s, l.c)
    requires s.owner == l.c ==> s.cpus.Keys == {l.c} && !s.locked
    requires s.locked ==> s.cpus.Keys != {l.c}
    ensures var s' := Step(s, l);
            && Stage(s', l.c) && s'.owner == s.owner
            && (if Wins(s, l) && !s.locked then Holds(s', l.c) && s'.locked else SameShared(s, s') && !Holds(s', l.c))
  {
  }

  /** What the CPU inside does. */
  lemma HolderMoves(s: Sys, l: Label)
    requires Enabled(s, l) && Stage(s, l.c) && Holds(s, l.c) && s.locked
    ensures var s' := Step(s, l);
            && Stage(s', l.c) && (s'.owner == s.owner || s'.owner == l.c || s'.owner == -1)
            && (if l.Go? && s.cpus[l.c].phase.Unlock?
                then !Holds(s', l.c) && !s'.locked && s'.owner == -1 && s'.cpus[l.c].iflag == s.cpus[l.c].before
                else Holds(s', l.c) && s'.locked)
  {
  }

  lemma UnheldStep(s: Sys, l: Label)
    requires Unheld(s) && Enabled(s, l)
    ensures if Wins(s, l) then HeldBy(Step(s, l), l.c) else Unheld(Step(s, l))
  {
    var s' := Step(s, l);
    assert Stage(s, l.c) && !Holds(s, l.c);
    OneChanges(s, l);
    OutsiderMoves(s, l);
    forall d {:trigger s'.cpus[d]} | d in s'.cpus && d != l.c
      ensures Stage(s', d) && !Holds(s', d)
    {
      assert Stage(s, d) && !Holds(s, d);
      Undisturbed(s, s', d);
    }
    hide Stage, Holds, Step, SameShared;
  }

  /** The holder goes on; when it gives the lock up its interrupt flag is what it was before it entered. */
  lemma HolderStep(s: Sys, l: Label, h: nat)
    requires HeldBy(s, h) && Enabled(s, l) && l.c == h
    ensures if l.Go? && s.cpus[h].phase.Unlock?
            then Unheld(Step(s, l)) && Step(s, l).cpus[h].iflag == s.cpus[h].before
            else HeldBy(Step(s, l), h)
  {
    var s' := Step(s, l);
    assert Stage(s, h);
    OneChanges(s, l);
    HolderMoves(s, l);
    forall d {:trigger s'.cpus[d]} | d in s'.cpus && d != h
      ensures Stage(s', d) && !Holds(s', d) && s'.owner != d
    {
      assert Stage(s, d) && !Holds(s, d) && s.owner != d;
      Undisturbed(s, s', d);
    }
    hide Stage, Holds, Step, SameShared;
  }

  /** The others cannot mistake the lock for theirs. */
  lemma OtherStep(s: Sys, l: Label, h: nat)
    requires HeldBy(s, h) && Enabled(s, l) && l.c != h
    ensures HeldBy(Step(s, l), h)
  {
    var s' := Step(s, l);
    assert Stage(s, l.c) && !Holds(s, l.c) && s.owner != l.c;
    OneChanges(s, l);
    OutsiderMoves(s, l);
    forall d {:trigger s'.cpus[d]} | d in s'.cpus && d != l.c
      ensures Stage(s', d) && Holds(s', d) == Holds(s, d)
    {
      assert Stage(s, d);
      Undisturbed(s, s', d);
    }
    hide Stage, Step;
    assert forall d {:trigger s'.cpus[d]} :: d in s'.cpus && d != h ==> s.cpus[d] == s.cpus[d] && s.owner != d;
  }

  lemma StepKeeps(s: Sys, l: Label)
    requires Inv(s) && Enabled(s, l)
    ensures Inv(Step(s, l))
  {
    hide Unheld, HeldBy, Step, Enabled, Wins;
    if Unheld(s) {
      UnheldStep(s, l);
    } else {
      var h :| HeldBy(s, h);
      if l.c == h {
        HolderStep(s, l, h);
      } else {
        OtherStep(s, l, h);
      }
    }
  }

  lemma {:induction false} RunKeeps(s: Sys, labels: seq<Label>)
    requires Inv(s) && IsRun(s, labels)
    ensures Inv(After(s, labels))
    decreases |labels|
  {
    hide Inv, Enabled, Step;
    if labels != [] {
      StepKeeps(s, labels[0]);
      RunKeeps(Step(s, labels[0]), labels[1..]);
    }
  }

  /** Over every run: one CPU inside at most, the count is the owner's depth whenever it is between calls, it runs
      with interrupts off, and the flag to go back to is the one from before its outermost enter. */
  lemma LockSafe(s: Sys, labels: seq<Label>, c: nat)
    requires Start(s) && Distinct(s) && IsRun(s, labels)
    ensures var z := After(s, labels);
            && AtMostOne(z)
            && (c in z.cpus && z.cpus[c].phase.Idle? && z.cpus[c].depth > 0 ==>
                  && z.locked && z.owner == c && z.count == z.cpus[c].depth
                  && z.oldIF == z.cpus[c].before && !z.cpus[c].iflag)
            && (c in z.cpus && z.cpus[c].phase.Unlock? ==> z.cpus[c].iflag == z.cpus[c].before)
  {
    StartInv(s);
    RunKeeps(s, labels);
    hide IsRun, After;
    var z := After(s, labels);
    if c in z.cpus {
      assert Stage(z, c);
    }
  }

  // ----- exactly when -----

  lemma {:induction false} Extend(s: Sys, labels: seq<Label>, l: Label)
    requires IsRun(s, labels) && Enabled(After(s, labels), l)
    ensures IsRun(s, labels + [l]) && After(s, labels + [l]) == Step(After(s, labels), l)
    decreases |labels|
  {
    if labels == [] {
      assert [l][1..] == [];
    } else {
      Extend(Step(s, labels[0]), labels[1..], l);
      assert (labels + [l])[1..] == labels[1..] + [l];
    }
  }

  lemma {:induction false} ExtendMany(s: Sys, labels: seq<Label>, more: seq<Label>)
    requires IsRun(s, labels) && IsRun(After(s, labels), more)
    ensures IsRun(s, labels + more) && After(s, labels + more) == After(After(s, labels), more)
    decreases |more|
  {
    if more == [] {
      assert labels + more == labels;
    } else {
      Extend(s, labels, more[0]);
      assert labels + more == labels + [more[0]] + more[1..];
      ExtendMany(s, labels + [more[0]], more[1..]);
    }
  }

  /** d takes a free lock, and has not yet put its number in. */
  lemma TakesLock(s: Sys, d: nat)
    returns (labels: seq<Label>)
    requires !s.locked && d in s.cpus && s.cpus[d].phase.Idle? && s.cpus[d].depth == 0
    ensures IsRun(s, labels)
    ensures var z := After(s, labels);
            && z.locked && z.owner == s.owner && z.cpus.Keys == s.cpus.Keys && z.cpus[d].phase.SetCount?
            && forall c :: c in s.cpus && c != d ==> z.cpus[c] == s.cpus[c]
  {
    hide After, IsRun;
    labels := Once(s, [], Enter(d));
    labels := Once(s, labels, Go(d));
    labels := Once(s, labels, Go(d));
    labels := Once(s, labels, Go(d));
    labels := Once(s, labels, Go(d));
  }

  lemma Once(s: Sys, labels: seq<Label>, l: Label)
    returns (longer: seq<Label>)
    requires labels != [] ==> IsRun(s, labels)
    requires Enabled(if labels == [] then s else After(s, labels), l)
    ensures longer == labels + [l] && IsRun(s, longer)
    ensures After(s, longer) == Step(if labels == [] then s else After(s, labels), l)
  {
    longer := labels + [l];
    Extend(s, labels, l);
  }

  /** c, whose number is in the section from the start, takes the lock for its own. */
  lemma MistakesLock(s: Sys, c: nat)
    returns (labels: seq<Label>)
    requires s.locked && s.owner == c && c in s.cpus && s.cpus[c].phase.Idle?
    ensures IsRun(s, labels)
    ensures var z := After(s, labels);
            && z.cpus.Keys == s.cpus.Keys && z.cpus[c].depth > 0
            && forall d :: d in s.cpus && d != c ==> z.cpus[d] == s.cpus[d]
  {
    hide After, IsRun;
    labels := Once(s, [], Enter(c));
    labels := Once(s, labels, Go(c));
    labels := Once(s, labels, Go(c));
    labels := Once(s, labels, Go(c));
  }

  // ----- whole calls -----

  function Goes(c: nat, k: nat): seq<Label> { seq(k, _ => Go(c)) }

  /** The CPU's own steps, one after the other. */
  lemma Goes3(s: Sys, labels: seq<Label>, c: nat)
    returns (z: Sys)
    requires labels != [] && IsRun(s, labels)
    requires var t := After(s, labels);
             && Enabled(t, Go(c)) && Enabled(Step(t, Go(c)), Go(c))
             && Enabled(Step(Step(t, Go(c)), Go(c)), Go(c))
    ensures IsRun(s, labels + Goes(c, 3)) && z == After(s, labels + Goes(c, 3))
    ensures z == Step(Step(Step(After(s, labels), Go(c)), Go(c)), Go(c))
  {
    hide Enabled, Step, After, IsRun;
    var a := Once(s, labels, Go(c));
    var b := Once(s, a, Go(c));
    var d := Once(s, b, Go(c));
    assert d == labels + Goes(c, 3);
    z := After(s, d);
  }

  /** csEnter on a section that is this CPU's already: three accesses, and it is in one level deeper. */
  lemma EnterOwn(s: Sys, c: nat)
    requires c in s.cpus && s.cpus[c].phase.Idle? && s.locked && s.owner == c
    ensures var p, labels := s.cpus[c], [Enter(c)] + Goes(c, 3);
            && IsRun(s, labels)
            && After(s, labels) == s.(count := s.count + 1,
                 cpus := s.cpus[c := p.(depth := p.depth + 1, oldstate := p.iflag,
                                        before := if p.depth == 0 then p.iflag else p.before)])
  {
    hide After, IsRun, Step, Enabled;
    var t, u := Three(s, Enter(c), c);
    var labels := Once(s, [], Enter(c));
    var z := Goes3(s, labels, c);
    assert labels == [Enter(c)];
    assert z.cpus == u.cpus;
  }

  /** A call, and the first three accesses it makes, by a CPU whose section it is. */
  lemma Three(s: Sys, l: Label, c: nat)
    returns (t: Sys, u: Sys)
    requires c in s.cpus && s.cpus[c].phase.Idle? && s.locked && s.owner == c && l.c == c
    requires l.Enter? || (l.Leave? && s.cpus[c].depth > 0)
    ensures Enabled(s, l) && t == Step(s, l) && Enabled(t, Go(c)) && Enabled(Step(t, Go(c)), Go(c))
    ensures Enabled(Step(Step(t, Go(c)), Go(c)), Go(c)) && u == Step(Step(Step(t, Go(c)), Go(c)), Go(c))
    ensures var p := s.cpus[c];
            if l.Enter? then
              u == s.(count := s.count + 1,
                      cpus := s.cpus[c := p.(depth := p.depth + 1, oldstate := p.iflag,
                                             before := if p.depth == 0 then p.iflag else p.before)])
            else if s.count == 1 then u == s.(count := 0, cpus := s.cpus[c := p.(phase := Phase.Enable)])
            else u == s.(count := s.count - 1, cpus := s.cpus[c := p.(depth := p.depth - 1)])
  {
    t := Step(s, l);
    var v := GoOnce(t, s.cpus, c);
    var w := GoOnce(v, s.cpus, c);
    u := GoOnce(w, s.cpus, c);
  }

  /** csLeave on a section that is free, or another's, changes nothing. */
  lemma LeaveForeign(s: Sys, c: nat)
    requires c in s.cpus && s.cpus[c].phase.Idle? && s.cpus[c].depth > 0 && !(s.locked && s.owner == c)
    ensures var labels := [Leave(c)] + Goes(c, if s.locked then 2 else 1);
            IsRun(s, labels) && After(s, labels) == s
  {
    hide After, IsRun;
    var t := Step(s, Leave(c));
    var u := GoOnce(t, s.cpus, c);
    var a := Once(s, [], Leave(c));
    var b := Once(s, a, Go(c));
    if s.locked {
      var v := GoOnce(u, s.cpus, c);
      var d := Once(s, b, Go(c));
      assert d == [Leave(c)] + Goes(c, 2) && v.cpus == s.cpus;
    } else {
      assert b == [Leave(c)] + Goes(c, 1) && u.cpus == s.cpus;
    }
  }

  /** The last three of an outermost csLeave. */
  lemma LastThree(s: Sys, c: nat)
    returns (u: Sys)
    requires c in s.cpus && s.cpus[c].phase.Enable? && s.cpus[c].depth == 1 && !s.cpus[c].iflag
    ensures Enabled(s, Go(c)) && Enabled(Step(s, Go(c)), Go(c)) && Enabled(Step(Step(s, Go(c)), Go(c)), Go(c))
    ensures u == Step(Step(Step(s, Go(c)), Go(c)), Go(c))
    ensures u == Sys(s.cpus[c := s.cpus[c].(phase := Idle, depth := 0, iflag := s.oldIF)], false, -1, s.count, s.oldIF)
  {
    var v := GoOnce(s, s.cpus, c);
    var w := GoOnce(v, s.cpus, c);
    u := GoOnce(w, s.cpus, c);
  }

  /** One access, seen from a state in which only c has changed. */
  lemma GoOnce(s: Sys, was: map<nat, Cpu>, c: nat)
    returns (t: Sys)
    requires c in s.cpus && s.cpus == was[c := s.cpus[c]] && !s.cpus[c].phase.Idle?
    ensures Enabled(s, Go(c)) && t == Step(s, Go(c)) && t.cpus == was[c := Local(s, c)]
    ensures t == Written(s, c).(cpus := was[c := Local(s, c)])
  {
    hide Local;
    t := Step(s, Go(c));
  }

  /** csEnter on a free section by a CPU on its own: it is the owner, one level deep, with interrupts off and the flag
      from before kept in the section. */
  lemma EnterFree(s: Sys, c: nat)
    requires c in s.cpus && s.cpus[c].phase.Idle? && !s.locked && s.cpus[c].depth == 0
    ensures var p, labels := s.cpus[c], [Enter(c)] + Goes(c, 7);
            && IsRun(s, labels)
            && After(s, labels) == Sys(s.cpus[c := Cpu(Idle, 1, false, p.iflag, p.iflag)], true, c, 1, p.iflag)
  {
    hide After, IsRun, Step, Enabled;
    var t, u := ThreeFree(s, c);
    var labels := Once(s, [], Enter(c));
    var z := Goes3(s, labels, c);
    var v := Race(u, s.cpus, c);
    var y := Goes3(s, labels + Goes(c, 3), c);
    var w := GoOnce(v, s.cpus, c);
    var all := Once(s, labels + Goes(c, 3) + Goes(c, 3), Go(c));
    assert all == [Enter(c)] + Goes(c, 7);
  }

  lemma ThreeFree(s: Sys, c: nat)
    returns (t: Sys, u: Sys)
    requires c in s.cpus && s.cpus[c].phase.Idle? && !s.locked && s.cpus[c].depth == 0
    ensures Enabled(s, Enter(c)) && t == Step(s, Enter(c)) && Enabled(t, Go(c)) && Enabled(Step(t, Go(c)), Go(c))
    ensures Enabled(Step(Step(t, Go(c)), Go(c)), Go(c)) && u == Step(Step(Step(t, Go(c)), Go(c)), Go(c))
    ensures var p := s.cpus[c];
            u == s.(cpus := s.cpus[c := Cpu(Racing, 0, false, p.iflag, p.iflag)])
  {
    t := Step(s, Enter(c));
    var v := GoOnce(t, s.cpus, c);
    var w := GoOnce(v, s.cpus, c);
    u := GoOnce(w, s.cpus, c);
  }

  lemma Race(s: Sys, was: map<nat, Cpu>, c: nat)
    returns (u: Sys)
    requires c in s.cpus && s.cpus[c].phase.Racing? && !s.locked && s.cpus == was[c := s.cpus[c]]
    ensures Enabled(s, Go(c)) && Enabled(Step(s, Go(c)), Go(c)) && Enabled(Step(Step(s, Go(c)), Go(c)), Go(c))
    ensures u == Step(Step(Step(s, Go(c)), Go(c)), Go(c))
    ensures u == s.(locked := true, count := 1, owner := c, cpus := was[c := s.cpus[c].(phase := SaveFlag)])
  {
    var v := GoOnce(s, was, c);
    var w := GoOnce(v, was, c);
    u := GoOnce(w, was, c);
  }

  /** csLeave by the CPU whose section it is: one level less, or, from the outermost, a free section that names nobody
      and the interrupt flag from before the outermost enter. */
  lemma LeaveOwn(s: Sys, c: nat)
    requires c in s.cpus && s.cpus[c].phase.Idle? && s.cpus[c].depth > 0 && Owns(s, c)
    ensures var p := s.cpus[c];
            var labels := [Leave(c)] + Goes(c, if p.depth == 1 then 6 else 3);
            && IsRun(s, labels)
            && After(s, labels) ==
                 if p.depth == 1
                 then Sys(s.cpus[c := p.(depth := 0, iflag := p.before)], false, -1, 0, s.oldIF)
                 else Sys(s.cpus[c := p.(depth := p.depth - 1)], true, c, p.depth - 1, s.oldIF)
  {
    hide After, IsRun, Step, Enabled;
    var t, u := Three(s, Leave(c), c);
    var labels := Once(s, [], Leave(c));
    assert labels == [Leave(c)];
    var z := Goes3(s, labels, c);
    if s.cpus[c].depth == 1 {
      var v := LastThree(u, c);
      var y := Goes3(s, labels + Goes(c, 3), c);
      assert y.cpus == s.cpus[c := s.cpus[c].(depth := 0, iflag := s.cpus[c].before)];
      assert labels + Goes(c, 3) + Goes(c, 3) == [Leave(c)] + Goes(c, 6);
    }
  }

  lemma Uncons(s: Sys, l: Label, rest: seq<Label>)
    requires IsRun(s, [l] + rest)
    ensures Enabled(s, l) && IsRun(Step(s, l), rest) && After(s, [l] + rest) == After(Step(s, l), rest)
  {
    assert ([l] + rest)[0] == l && ([l] + rest)[1..] == rest;
  }

  // ----- whole calls among those of the other CPUs -----

  /** After its call c only takes the steps the call consists of. */
  predicate OnlyGoes(labels: seq<Label>, c: nat) { forall i :: 0 <= i < |labels| && labels[i].c == c ==> labels[i].Go? }

  /** How many of them. */
  function StepsOf(labels: seq<Label>, c: nat): nat
    decreases |labels|
  {
    if labels == [] then 0 else (if labels[0].c == c then 1 else 0) + StepsOf(labels[1..], c)
  }

  /** Where csLeave is after g accesses. */
  function LeavePhase(g: nat): Phase {
    match g
    case 0 => LeaveLocked
    case 1 => LeaveOwner
    case 2 => Decrement
    case 3 => Enable
    case 4 => DropOwner
    case 5 => Unlock
    case _ => Idle
  }

  function LeaveSteps(n: nat): nat { if n == 1 then 6 else 3 }

  /** c is g accesses into a csLeave from depth n; b is the interrupt flag from before its outermost enter. */
  ghost predicate Leaving(s: Sys, c: nat, n: nat, b: bool, g: nat) {
    && c in s.cpus && s.cpus[c].before == b && n > 0 && g <= LeaveSteps(n) && Inv(s)
    && if g < LeaveSteps(n) then HeldBy(s, c) && s.cpus[c].phase == LeavePhase(g) && s.cpus[c].depth == n
       else
         && s.cpus[c].phase.Idle? && s.cpus[c].depth == n - 1
         && if n > 1 then HeldBy(s, c) else s.cpus[c].iflag == b
  }

  lemma LeavingStep(s: Sys, l: Label, c: nat, n: nat, b: bool, g: nat)
    requires Leaving(s, c, n, b, g) && Enabled(s, l) && (l.c == c ==> l.Go?)
    ensures Leaving(Step(s, l), c, n, b, if l.c == c then g + 1 else g)
  {
    hide Unheld, HeldBy, Stage;
    StepKeeps(s, l);
    OneChanges(s, l);
    if l.c == c {
      HolderStep(s, l, c);
      HolderFields(s, c);
    } else if g < LeaveSteps(n) || n > 1 {
      OtherStep(s, l, c);
    }
  }

  /** What the section says while c holds it and is leaving. */
  lemma HolderFields(s: Sys, c: nat)
    requires HeldBy(s, c)
    ensures c in s.cpus && s.locked
    ensures var p := s.cpus[c];
            && (p.phase.LeaveLocked? || p.phase.LeaveOwner? || p.phase.Decrement? ==>
                  s.owner == c && s.count == p.depth)
            && (p.phase.Idle? ==> Owns(s, c) && p.depth > 0)
  {
    assert Stage(s, c);
  }

  lemma {:induction false} LeavingRun(s: Sys, more: seq<Label>, c: nat, n: nat, b: bool, g: nat)
    requires Leaving(s, c, n, b, g) && IsRun(s, more) && OnlyGoes(more, c)
    ensures Leaving(After(s, more), c, n, b, g + StepsOf(more, c))
    decreases |more|
  {
    hide Leaving, Enabled, Step;
    if more != [] {
      assert more[0].c == c ==> more[0].Go?;
      LeavingStep(s, more[0], c, n, b, g);
      LeavingRun(Step(s, more[0]), more[1..], c, n, b, if more[0].c == c then g + 1 else g);
    }
  }

  /** Whatever the other CPUs do meanwhile, a csLeave comes back after three accesses of its CPU, one level less deep
      in a section still its own, or, from the outermost level, after six with the interrupt flag from before the
      outermost enter; until then the CPU is inside. */
  lemma LeaveReturns(s: Sys, labels: seq<Label>, more: seq<Label>, c: nat)
    requires Start(s) && Distinct(s) && IsRun(s, labels) && c in After(s, labels).cpus
    requires After(s, labels).cpus[c].depth > 0 && IsRun(After(s, labels), [Leave(c)] + more) && OnlyGoes(more, c)
    ensures var p, z := After(s, labels).cpus[c], After(After(s, labels), [Leave(c)] + more);
            && c in z.cpus && StepsOf(more, c) <= LeaveSteps(p.depth)
            && (z.cpus[c].phase.Idle? <==> StepsOf(more, c) == LeaveSteps(p.depth))
            && (!z.cpus[c].phase.Idle? ==> Holds(z, c))
            && (z.cpus[c].phase.Idle? ==> z.cpus[c].depth == p.depth - 1)
            && (z.cpus[c].phase.Idle? && p.depth == 1 ==> z.cpus[c].iflag == p.before)
            && (z.cpus[c].phase.Idle? && p.depth > 1 ==> z.locked && z.owner == c && z.count == p.depth - 1)
  {
    var y := After(s, labels);
    var p := y.cpus[c];
    hide IsRun, After, HeldBy, Step, Enabled, Leaving, Holds;
    Uncons(y, Leave(c), more);
    IsHolder(s, labels, c);
    LeaveBegins(y, c);
    LeavingRun(Step(y, Leave(c)), more, c, p.depth, p.before, 0);
    LeavingFields(After(Step(y, Leave(c)), more), c, p.depth, p.before, StepsOf(more, c));
  }

  lemma LeavingFields(s: Sys, c: nat, n: nat, b: bool, g: nat)
    requires Leaving(s, c, n, b, g)
    ensures c in s.cpus && g <= LeaveSteps(n) && (s.cpus[c].phase.Idle? <==> g == LeaveSteps(n))
    ensures !s.cpus[c].phase.Idle? ==> Holds(s, c)
    ensures s.cpus[c].phase.Idle? ==>
              && s.cpus[c].depth == n - 1 && (n == 1 ==> s.cpus[c].iflag == b)
              && (n > 1 ==> s.locked && s.owner == c && s.count == n - 1)
  {
    hide HeldBy, Inv;
    if HeldBy(s, c) {
      HeldHolds(s, c);
      HolderFields(s, c);
    }
  }

  lemma IsHolder(s: Sys, labels: seq<Label>, c: nat)
    requires Start(s) && Distinct(s) && IsRun(s, labels) && c in After(s, labels).cpus
    requires After(s, labels).cpus[c].depth > 0
    ensures HeldBy(After(s, labels), c)
  {
    StartInv(s);
    RunKeeps(s, labels);
    hide IsRun, After, Stage;
    var y := After(s, labels);
    assert Holds(y, c);
    var h :| Unheld(y) || HeldBy(y, h);
  }

  lemma LeaveBegins(s: Sys, c: nat)
    requires HeldBy(s, c) && Enabled(s, Leave(c))
    ensures Leaving(Step(s, Leave(c)), c, s.cpus[c].depth, s.cpus[c].before, 0)
  {
    hide Stage;
    HolderStep(s, Leave(c), c);
    StepKeeps(s, Leave(c));
  }

  lemma HeldHolds(s: Sys, c: nat)
    requires HeldBy(s, c)
    ensures Holds(s, c)
  {}

  predicate Entering(ph: Phase) {
    || ph.CheckLocked? || ph.CheckOwner? || ph.Recount? || ph.ToDisable? || ph.Spinning? || ph.Racing?
    || ph.SetCount? || ph.SetOwner? || ph.SaveFlag?
  }

  /** c is in a csEnter from depth n, or has come back from it; b is the flag from before its outermost enter. */
  ghost predicate InEnter(s: Sys, c: nat, n: nat, b: bool) {
    && Inv(s) && c in s.cpus && s.cpus[c].before == b
    && if s.cpus[c].phase.Idle? then s.cpus[c].depth == n + 1 else Entering(s.cpus[c].phase) && s.cpus[c].depth == n
  }

  lemma EnterStep(s: Sys, l: Label, c: nat, n: nat, b: bool)
    requires InEnter(s, c, n, b) && Enabled(s, l) && (l.c == c ==> l.Go?)
    ensures InEnter(Step(s, l), c, n, b)
  {
    hide Unheld, HeldBy, Step, Stage, Entering;
    StepKeeps(s, l);
    OneChanges(s, l);
    if l.c == c {
      InvStage(s, c);
      EntersOn(s, c);
    }
  }

  lemma InvStage(s: Sys, c: nat)
    requires Inv(s) && c in s.cpus
    ensures Stage(s, c)
  {}

  /** One access of a CPU in csEnter. */
  lemma EntersOn(s: Sys, c: nat)
    requires c in s.cpus && Stage(s, c) && Entering(s.cpus[c].phase)
    ensures Enabled(s, Go(c))
    ensures var p, q := s.cpus[c], Step(s, Go(c)).cpus[c];
            && q.before == p.before
            && if q.phase.Idle? then q.depth == p.depth + 1 else Entering(q.phase) && q.depth == p.depth
  {}

  lemma {:induction false} EnterRun(s: Sys, more: seq<Label>, c: nat, n: nat, b: bool)
    requires InEnter(s, c, n, b) && IsRun(s, more) && OnlyGoes(more, c)
    ensures InEnter(After(s, more), c, n, b)
    decreases |more|
  {
    hide InEnter, Enabled, Step;
    if more != [] {
      assert more[0].c == c ==> more[0].Go?;
      EnterStep(s, more[0], c, n, b);
      EnterRun(Step(s, more[0]), more[1..], c, n, b);
    }
  }

  /** Whatever the other CPUs do meanwhile, when a csEnter comes back its CPU is one level deeper in a section that is
      its own, with interrupts off and the flag from before its outermost enter kept in the section. */
  lemma EnterReturns(s: Sys, labels: seq<Label>, more: seq<Label>, c: nat)
    requires Start(s) && Distinct(s) && IsRun(s, labels) && c in After(s, labels).cpus
    requires IsRun(After(s, labels), [Enter(c)] + more) && OnlyGoes(more, c)
    ensures var p, z := After(s, labels).cpus[c], After(After(s, labels), [Enter(c)] + more);
            && c in z.cpus
            && (z.cpus[c].phase.Idle? ==>
                  && z.cpus[c].depth == p.depth + 1 && z.locked && z.owner == c && z.count == p.depth + 1
                  && !z.cpus[c].iflag && z.oldIF == if p.depth == 0 then p.iflag else p.before)
  {
    StartInv(s);
    RunKeeps(s, labels);
    var y := After(s, labels);
    var p := y.cpus[c];
    Uncons(y, Enter(c), more);
    var t := Step(y, Enter(c));
    StepKeeps(y, Enter(c));
    var b := if p.depth == 0 then p.iflag else p.before;
    assert InEnter(t, c, p.depth, b);
    hide IsRun, After, Step;
    EnterRun(t, more, c, p.depth, b);
    assert Stage(After(t, more), c);
  }

  // ----- nobody is stuck -----

  lemma Cons(s: Sys, l: Label, rest: seq<Label>)
    requires Enabled(s, l) && IsRun(Step(s, l), rest)
    ensures IsRun(s, [l] + rest) && After(s, [l] + rest) == After(Step(s, l), rest)
  {
    assert ([l] + rest)[0] == l && ([l] + rest)[1..] == rest;
  }

  /** How far the holder is from having given the lock up, if it leaves as soon as it can. */
  function ToGo(p: Cpu): nat {
    match p.phase
    case Idle => 8 * p.depth
    case LeaveLocked => Less(8 * p.depth)
    case LeaveOwner => Less(Less(8 * p.depth))
    case Decrement => Less(Less(Less(8 * p.depth)))
    case Enable => 4
    case DropOwner => 3
    case Unlock => 2
    case Recount => 8 * p.depth + 9
    case CheckOwner => 8 * p.depth + 10
    case CheckLocked => 8 * p.depth + 11
    case SaveFlag => 9
    case SetOwner => 10
    case SetCount => 11
    case _ => 0
  }

  lemma HolderGoesOn(s: Sys, h: nat)
    returns (l: Label)
    requires HeldBy(s, h)
    ensures l == (if s.cpus[h].phase.Idle? then Leave(h) else Go(h)) && Enabled(s, l)
    ensures HeldBy(Step(s, l), h) ==> ToGo(Step(s, l).cpus[h]) < ToGo(s.cpus[h])
    ensures !HeldBy(Step(s, l), h) ==> Unheld(Step(s, l)) && Step(s, l).cpus[h].phase.Idle?
    ensures Step(s, l).cpus.Keys == s.cpus.Keys
  {
    hide Step, Stage, ToGo, Unheld;
    HeldStage(s, h);
    l := if s.cpus[h].phase.Idle? then Leave(h) else Go(h);
    HolderStep(s, l, h);
    OneChanges(s, l);
    HolderToGo(s, l, h);
    NotBoth(Step(s, l), h);
  }

  lemma NotBoth(s: Sys, h: nat)
    ensures Unheld(s) ==> !HeldBy(s, h)
  {}

  lemma HeldStage(s: Sys, h: nat)
    requires HeldBy(s, h)
    ensures Stage(s, h) && Holds(s, h) && s.locked
  {}

  lemma HolderToGo(s: Sys, l: Label, h: nat)
    requires Holds(s, h) && Stage(s, h) && s.locked && l == if s.cpus[h].phase.Idle? then Leave(h) else Go(h)
    ensures Enabled(s, l)
    ensures var q := Step(s, l).cpus[h];
            if s.cpus[h].phase.Unlock? then q.phase.Idle? else ToGo(q) < ToGo(s.cpus[h])
  {}

  /** The holder can give the lock up, whatever it is in the middle of, and nobody else need move. */
  lemma {:induction false} Drains(s: Sys, h: nat)
    returns (more: seq<Label>)
    requires HeldBy(s, h)
    ensures IsRun(s, more) && Unheld(After(s, more)) && After(s, more).cpus.Keys == s.cpus.Keys
    ensures forall d {:trigger s.cpus[d]} :: d in s.cpus && d != h ==> After(s, more).cpus[d] == s.cpus[d]
    decreases ToGo(s.cpus[h])
  {
    hide HeldBy, Unheld, Step, Enabled, ToGo;
    var l := HolderGoesOn(s, h);
    OneChanges(s, l);
    var t, rest := Step(s, l), [];
    if HeldBy(t, h) {
      rest := Drains(t, h);
    }
    Cons(s, l, rest);
    more := [l] + rest;
  }

  /** How many accesses a CPU on its own is from coming back. */
  function Ahead(p: Cpu): nat {
    match p.phase
    case Idle => 0
    case CheckLocked => 8
    case CheckOwner => 8
    case ToDisable => 7
    case Spinning => 6
    case Racing => 5
    case SetCount => 4
    case LeaveLocked => 6
    case LeaveOwner => 5
    case Decrement => 4
    case Enable => 3
    case SetOwner => 3
    case DropOwner => 2
    case SaveFlag => 2
    case Recount => 1
    case Unlock => 1
  }

  /** A CPU on its own gets further, unless another one has the lock. */
  lemma GoesFurther(s: Sys, c: nat)
    requires (Unheld(s) || HeldBy(s, c)) && c in s.cpus && !s.cpus[c].phase.Idle?
    ensures Enabled(s, Go(c)) && Inv(Step(s, Go(c)))
    ensures var p, t := s.cpus[c], Step(s, Go(c));
            && t.cpus.Keys == s.cpus.Keys && (Unheld(t) || HeldBy(t, c))
            && Ahead(t.cpus[c]) < Ahead(p) + (if p.phase.CheckLocked? && t.cpus[c].phase.CheckOwner? then 1 else 0)
            && (if t.cpus[c].phase.Idle?
                then t.cpus[c].depth == (if Entering(p.phase) then p.depth + 1 else p.depth - 1)
                else t.cpus[c].depth == p.depth && Entering(t.cpus[c].phase) == Entering(p.phase))
            && (t.cpus[c].phase.CheckOwner? ==> p.phase.CheckLocked?)
  {
    hide Step, Stage, Ahead, Entering;
    if Unheld(s) {
      assert !Holds(s, c) && Stage(s, c);
      LocalAhead(s, c);
      OneChanges(s, Go(c));
      UnheldStep(s, Go(c));
    } else {
      HeldStage(s, c);
      LocalAhead(s, c);
      OneChanges(s, Go(c));
      HolderStep(s, Go(c), c);
    }
  }

  lemma LocalAhead(s: Sys, c: nat)
    requires c in s.cpus && Stage(s, c) && !s.cpus[c].phase.Idle? && (s.locked ==> Holds(s, c))
    requires s.cpus[c].depth == 0 && s.owner == c ==> s.cpus.Keys == {c} || Holds(s, c)
    ensures Enabled(s, Go(c))
    ensures var p, q := s.cpus[c], Step(s, Go(c)).cpus[c];
            && Ahead(q) < Ahead(p) + (if p.phase.CheckLocked? && q.phase.CheckOwner? then 1 else 0)
            && (if q.phase.Idle? then q.depth == (if Entering(p.phase) then p.depth + 1 else p.depth - 1)
                else q.depth == p.depth && Entering(q.phase) == Entering(p.phase))
            && (q.phase.CheckOwner? ==> p.phase.CheckLocked?)
  {}

  lemma {:induction false} ComesHome(s: Sys, c: nat)
    returns (more: seq<Label>)
    requires (Unheld(s) || HeldBy(s, c)) && c in s.cpus && !s.cpus[c].phase.Idle?
    ensures IsRun(s, more) && c in After(s, more).cpus
    ensures var p, q := s.cpus[c], After(s, more).cpus[c];
            q.phase.Idle? && q.depth == if Entering(p.phase) then p.depth + 1 else p.depth - 1
    decreases Ahead(s.cpus[c]), s.cpus[c].phase.CheckLocked?
  {
    hide Unheld, HeldBy, Inv, Step, Enabled, Ahead;
    GoesFurther(s, c);
    var t, rest := Step(s, Go(c)), [];
    if !t.cpus[c].phase.Idle? {
      rest := ComesHome(t, c);
    }
    Cons(s, Go(c), rest);
    more := [Go(c)] + rest;
  }

  /** From every state of every run, each CPU in the middle of a csEnter or csLeave can come back from it, one level
      deeper or less deep: if another CPU has the lock, that one can give it up first. */
  lemma NobodyStuck(s: Sys, labels: seq<Label>, c: nat)
    returns (more: seq<Label>)
    requires Start(s) && Distinct(s) && IsRun(s, labels)
    requires c in After(s, labels).cpus && !After(s, labels).cpus[c].phase.Idle?
    ensures IsRun(s, labels + more) && c in After(s, labels + more).cpus
    ensures var p, q := After(s, labels).cpus[c], After(s, labels + more).cpus[c];
            q.phase.Idle? && q.depth == if Entering(p.phase) then p.depth + 1 else p.depth - 1
  {
    StartInv(s);
    RunKeeps(s, labels);
    var z := After(s, labels);
    hide IsRun, After, Unheld, HeldBy, Entering;
    if Unheld(z) {
      more := ComesHome(z, c);
    } else {
      var h :| HeldBy(z, h);
      if h == c {
        more := ComesHome(z, c);
      } else {
        var drain := Drains(z, h);
        var rest := ComesHome(After(z, drain), c);
        ExtendMany(z, drain, rest);
        more := drain + rest;
      }
    }
    ExtendMany(s, labels, more);
  }

  ghost predicate SafeAfter(s: Sys, labels: seq<Label>) { IsRun(s, labels) ==> AtMostOne(After(s, labels)) }

  /** The lock keeps all CPUs but one out, on every run, exactly when the section does not start with the number of
      one of several CPUs in it; filled with zeros it does, with that of CPU 0. */
  lemma SafeExactly(s: Sys)
    requires Start(s)
    ensures (forall labels :: SafeAfter(s, labels)) <==> Distinct(s)
  {
    if Distinct(s) {
      forall labels
        ensures SafeAfter(s, labels)
      {
        if IsRun(s, labels) {
          LockSafe(s, labels, 0);
        }
      }
    } else {
      var c :| c in s.cpus && s.owner == c && s.cpus.Keys != {c};
      var d :| d in s.cpus && d != c;
      var l1 := TakesLock(s, d);
      var m := After(s, l1);
      var l2 := MistakesLock(m, c);
      ExtendMany(s, l1, l2);
      assert Holds(After(s, l1 + l2), c) && Holds(After(s, l1 + l2), d);
      assert !SafeAfter(s, l1 + l2);
    }
  }
}
