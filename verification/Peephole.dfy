/** FunctionContext::finalize (underc/sourcecode/src/function.cpp): the trailing return jump is taken out and
    the return label placed again. What that does to every run, and when it is safe. */
module Peephole {
  import opened Arith
  import opened Machine
  import opened Source
  import opened Codegen
  import opened Binding
  import opened SimBase
  import opened Simulation
  import opened Correctness
  import opened Finish
  import opened Placing

  /** A finished function whose code before RETx ends in a jump to its own end. */
  predicate Removable(b: FBlock) {
    && |b.code| > 2 && EndsInHop(b.code[..|b.code| - 2])
    && (b.code[|b.code| - 2].Ret? || b.code[|b.code| - 2].RetI?) && b.code[|b.code| - 1].End?
  }

  function Squeezed(b: FBlock): (r: FBlock)
    requires Removable(b)
  {
    b.(code := Squeeze(b.code[..|b.code| - 2]) + b.code[|b.code| - 2..])
  }

  /** Blocks that differ at most by the removed jump. */
  predicate Paired(v: FBlock, w: FBlock) { v == w || (Removable(v) && w == Squeezed(v)) }

  predicate PairedImages(v: Image, w: Image) {
    |v| == |w| && forall f :: 0 <= f < |v| ==> Paired(v[f], w[f])
  }

  predicate Differs(v: Image, w: Image, f: int)
    requires PairedImages(v, w)
  {
    0 <= f < |v| && v[f] != w[f]
  }

  function MapPc(v: Image, w: Image, f: int, pc: int): int
    requires PairedImages(v, w)
  {
    if Differs(v, w, f) then Shift(pc, |v[f].code| - 2) else pc
  }

  /** Saved return points are the addresses of calls. */
  predicate CallsSaved(v: Image, fs: seq<Frame>) {
    forall k {:trigger fs[k]} :: 0 <= k < |fs| ==>
      (0 <= fs[k].fb < |v| ==>
         0 <= fs[k].pc < |v[fs[k].fb].code| && v[fs[k].fb].code[fs[k].pc].Call?)
  }

  predicate Match(v: Image, w: Image, s: State, t: State)
    requires PairedImages(v, w)
  {
    t == s.(pc := MapPc(v, w, s.fb, s.pc)) && CallsSaved(v, s.fs)
  }

  /** The switch search picks the moved target. */
  lemma {:induction false} SearchShifts(b: seq<int>, n: int, i: nat, left: int, val: int)
    requires i % 2 == 0 && n > 0
    ensures SwitchFrom(ShiftBlock(b, n), i, left, val) == Shift(SwitchFrom(b, i, left, val), n)
    decreases |b| - i
  {
    if left > 0 && i + 1 < |b| && b[i] != val {
      SearchShifts(b, n, i + 2, left - 1, val);
    }
  }

  predicate Straight(i: Instr) { !(i.Jump? || i.JSwitch? || i.Call? || i.Ret? || i.RetI?) }

  /** Straight-line instructions do not look at their own address. */
  lemma StraightSame(v: Image, w: Image, s: State, q: int, i: Instr)
    requires Straight(i) && !Halted(v, s) && |v| == |w|
    ensures var a := Exec1(v, s, i);
            && Exec1(w, s.(pc := q), i) == a.(pc := q + (a.pc - s.pc))
            && (a.pc == s.pc || a.pc == s.pc + 1) && a.fb == s.fb && a.fs == s.fs
  {
    hide Exec1;
    if i.PushI? || i.PopI? || i.IncI? || i.DecI? {
      MemorySame(v, w, s, q, i);
    } else {
      StackSame(v, w, s, q, i);
    }
  }

  lemma MemorySame(v: Image, w: Image, s: State, q: int, i: Instr)
    requires (i.PushI? || i.PopI? || i.IncI? || i.DecI?) && !Halted(v, s) && |v| == |w|
    ensures var a := Exec1(v, s, i);
            && Exec1(w, s.(pc := q), i) == a.(pc := q + (a.pc - s.pc))
            && (a.pc == s.pc || a.pc == s.pc + 1) && a.fb == s.fb && a.fs == s.fs
  {
    hide Wrap;
  }

  lemma StackSame(v: Image, w: Image, s: State, q: int, i: Instr)
    requires (i.End? || i.Dup? || i.Drop? || i.Alu1? || i.Alu2?) && !Halted(v, s) && |v| == |w|
    ensures var a := Exec1(v, s, i);
            && Exec1(w, s.(pc := q), i) == a.(pc := q + (a.pc - s.pc))
            && (a.pc == s.pc || a.pc == s.pc + 1) && a.fb == s.fb && a.fs == s.fs
  {
    hide Alu1Of, Alu2Of, Alu2Traps, Wrap;
  }

  /** Jumps land where their moved targets say, or go on to the next instruction. */
  lemma JumpSame(s: State, q: int, kind: JumpKind, t: int, u: int)
    ensures var a, b := ExecJump(s, kind, t), ExecJump(s.(pc := q), kind, u);
            && b == a.(pc := b.pc) && a.fb == s.fb && a.fs == s.fs
            && ((a.pc == t && b.pc == u) || (a.pc == s.pc + 1 && b.pc == q + 1)
                || (a.pc == s.pc && b.pc == q && a.trap))
  {}

  /** The step at an instruction i of the plain code, and at its counterpart j. */
  lemma SameEffect(v: Image, w: Image, s: State, t: State, i: Instr, j: Instr)
    requires PairedImages(v, w) && Match(v, w, s, t) && !Halted(v, s) && !OnHop(v, w, s)
    requires 0 <= s.pc < |v[s.fb].code| && v[s.fb].code[s.pc] == i
    requires j == if Differs(v, w, s.fb) then ShiftI(i, |v[s.fb].code| - 2) else i
    ensures Match(v, w, Exec1(v, s, i), Exec1(w, t, j))
  {
    hide CallsSaved, Shift;
    assert Paired(v[s.fb], w[s.fb]);
    if Straight(i) {
      StraightSame(v, w, s, t.pc, i);
      NextMaps(v, w, s);
    } else if i.Jump? {
      JumpSame(s, t.pc, i.kind, i.target, j.target);
      NextMaps(v, w, s);
    } else if i.JSwitch? {
      if s.stk != [] && Differs(v, w, s.fb) {
        SearchShifts(i.block, |v[s.fb].code| - 2, 2, if |i.block| > 0 then i.block[0] else 0, Top(s));
      }
    } else if i.Call? {
      CallMaps(v, w, s);
      if i.f < |v| {
        EnterMatches(v, w, s, t, i.f);
      }
    } else {
      LeaveMatches(v, w, s, t);
    }
  }

  lemma NextMaps(v: Image, w: Image, s: State)
    requires PairedImages(v, w) && !Halted(v, s) && !OnHop(v, w, s)
    ensures MapPc(v, w, s.fb, s.pc + 1) == MapPc(v, w, s.fb, s.pc) + 1
  {}

  /** Calls come before the removed jump, so their addresses do not move. */
  lemma CallMaps(v: Image, w: Image, s: State)
    requires PairedImages(v, w) && 0 <= s.fb < |v|
    requires 0 <= s.pc < |v[s.fb].code| && v[s.fb].code[s.pc].Call?
    ensures MapPc(v, w, s.fb, s.pc) == s.pc && MapPc(v, w, s.fb, s.pc + 1) == s.pc + 1
  {
    assert Paired(v[s.fb], w[s.fb]);
    var n := |v[s.fb].code| - 2;
    if Differs(v, w, s.fb) {
      assert v[s.fb].code[n - 1] == v[s.fb].code[..n][n - 1];
    }
  }

  lemma EnterMatches(v: Image, w: Image, s: State, t: State, f: nat)
    requires PairedImages(v, w) && Match(v, w, s, t) && f < |v| && 0 <= s.fb < |v|
    requires 0 <= s.pc < |v[s.fb].code| && v[s.fb].code[s.pc].Call? && t.pc == s.pc
    ensures Match(v, w, Enter(v, s, f), Enter(w, t, f))
  {
    assert Paired(v[f], w[f]);
  }

  lemma LeaveMatches(v: Image, w: Image, s: State, t: State)
    requires PairedImages(v, w) && Match(v, w, s, t) && 0 <= s.fb < |v| && v[s.fb].nargs == w[s.fb].nargs
    ensures CanLeave(v, s) <==> CanLeave(w, t)
    ensures CanLeave(v, s) ==> Match(v, w, Leave(v, s), Leave(w, t))
  {
    if CanLeave(v, s) {
      var fr := s.fs[|s.fs| - 1];
      if 0 <= fr.fb < |v| {
        CallMaps(v, w, s.(fb := fr.fb, pc := fr.pc));
      }
    }
  }

  /** The instruction at a place other than the removed jump sits, moved, at the mapped place. */
  lemma CodeMaps(v: Image, w: Image, s: State)
    requires PairedImages(v, w) && !Halted(v, s) && !OnHop(v, w, s)
    ensures var i, q := s.pc, MapPc(v, w, s.fb, s.pc);
            && (0 <= i < |v[s.fb].code| <==> 0 <= q < |w[s.fb].code|)
            && (0 <= i < |v[s.fb].code| ==>
                  w[s.fb].code[q] == if Differs(v, w, s.fb) then ShiftI(v[s.fb].code[i], |v[s.fb].code| - 2)
                                     else v[s.fb].code[i])
  {
    assert Paired(v[s.fb], w[s.fb]);
    if Differs(v, w, s.fb) && 0 <= s.pc < |v[s.fb].code| {
      var code, n := v[s.fb].code, |v[s.fb].code| - 2;
      if s.pc < n {
        assert code[s.pc] == code[..n][s.pc];
      } else {
        assert w[s.fb].code[s.pc - 1] == code[n..][s.pc - n];
      }
    }
  }

  /** One step of the plain code is one step of the squeezed code, or none when it is the removed jump. */
  lemma StepMatches(v: Image, w: Image, s: State, t: State)
    returns (k: nat)
    requires PairedImages(v, w) && Match(v, w, s, t)
    ensures k <= 1 && Match(v, w, Step(v, s), Run(w, t, k))
    ensures k == 0 ==> OnHop(v, w, s) && !OnHop(v, w, Step(v, s))
  {
    RunNone(w, t);
    if OnHop(v, w, s) {
      k := 0;
    } else {
      k := 1;
      assert Run(w, t, 1) == Run(w, Step(w, t), 0);
      if !Halted(v, s) {
        CodeMaps(v, w, s);
        if 0 <= s.pc < |v[s.fb].code| {
          SameEffect(v, w, s, t, v[s.fb].code[s.pc], w[s.fb].code[t.pc]);
        }
      }
    }
  }

  predicate OnHop(v: Image, w: Image, s: State)
    requires PairedImages(v, w)
  {
    !Halted(v, s) && Differs(v, w, s.fb) && s.pc == |v[s.fb].code| - 3
  }

  /** Every run of the plain code is matched by a run of the squeezed code, at most half as many steps long. */
  lemma {:induction false} RunMatches(v: Image, w: Image, s: State, t: State, n: nat)
    returns (m: nat)
    requires PairedImages(v, w) && Match(v, w, s, t)
    ensures m <= n <= 2 * m + (if OnHop(v, w, s) then 1 else 0)
    ensures Match(v, w, Run(v, s, n), Run(w, t, m))
    decreases n
  {
    hide Match, Step;
    if n == 0 {
      m := 0;
    } else {
      var k := StepMatches(v, w, s, t);
      var j := RunMatches(v, w, Step(v, s), Run(w, t, k), n - 1);
      RunPlus(w, t, k, j);
      m := k + j;
    }
  }

  // ----- the code finalize really leaves -----

  /** The blocks of the functions in `good` are their finished code, finishing them was sound, and they call no
      others. */
  ghost predicate Finished(p: Prog, w: Image, good: iset<nat>) {
    && |w| == |p|
    && forall f: nat {:trigger w[f]} :: f < |p| && f in good ==>
         && w[f] == FinalBlock(p, p[f]) && SafelyFinished(p, p[f])
         && CleanS(p[f].body, good) && Bound(p, p[f].body, 0, false, BodyLabels(p, p[f]), 0, 0)
  }

  /** The same image with the functions in `good` as they were before finalize. */
  ghost function PlainImage(p: Prog, w: Image, good: iset<nat>): (v: Image)
    requires |w| == |p|
    ensures |v| == |p|
    ensures forall f: nat :: f < |p| ==> v[f] == if f in good then PlainBlock(p, p[f]) else w[f]
  {
    seq(|p|, f requires 0 <= f < |p| => if f in good then PlainBlock(p, p[f]) else w[f])
  }

  /** What finalize makes of a function is the function without its trailing jump, all targets moved along,
      exactly when nothing but returns went to the end. */
  lemma FinalIsSqueezed(p: Prog, fn: Fun)
    ensures Removable(PlainBlock(p, fn)) <==> EndsInHop(BodyCode(p, fn))
    ensures Removable(PlainBlock(p, fn)) ==>
              (FinalBlock(p, fn) == Squeezed(PlainBlock(p, fn)) <==> SafelyFinished(p, fn))
    ensures !Removable(PlainBlock(p, fn)) ==> FinalBlock(p, fn) == PlainBlock(p, fn)
  {
    hide StmtLen, CStmt, Place, AllBefore;
    var raw, c, tail := RawBody(p, fn), BodyCode(p, fn), [RetOf(fn.isVoid), End];
    RawPlaced(p, fn);
    var code := PlainBlock(p, fn).code;
    assert code == c + tail && code[..|code| - 2] == c && code[|code| - 2..] == tail;
    if EndsInHop(c) {
      FinalizedIsSqueezed(raw, RETNAME);
      var a, b := Finalized(raw, RETNAME), Squeeze(c);
      assert a + tail == b + tail ==> a == (a + tail)[..|a|] == (b + tail)[..|b|] == b;
    }
  }

  lemma FinishedPairs(p: Prog, w: Image, good: iset<nat>)
    requires Finished(p, w, good)
    ensures Compiled(p, PlainImage(p, w, good), good) && PairedImages(PlainImage(p, w, good), w)
  {
    hide PlainBlock, FinalBlock, Bound, CleanS, SafelyFinished;
    var v := PlainImage(p, w, good);
    forall f: nat {:trigger Unit(p, v, good, f)} | f < |p| && f in good
      ensures Unit(p, v, good, f)
    {
      assert w[f] == FinalBlock(p, p[f]);
    }
    forall f: nat | f < |p|
      ensures Paired(v[f], w[f])
    {
      if f in good {
        assert w[f] == FinalBlock(p, p[f]);
        GoodPair(p, p[f]);
      }
    }
  }

  lemma GoodPair(p: Prog, fn: Fun)
    requires SafelyFinished(p, fn)
    ensures Paired(PlainBlock(p, fn), FinalBlock(p, fn))
  {
    hide PlainBlock, FinalBlock, SafelyFinished;
    FinalIsSqueezed(p, fn);
  }

  /** A call can be made from here: outside the program, or at a CALL. */
  predicate AtCall(v: Image, s: State) {
    CallsSaved(v, s.fs) && !s.trap && (0 <= s.fb < |v| ==> 0 <= s.pc < |v[s.fb].code| && v[s.fb].code[s.pc].Call?)
  }

  lemma EnterPair(v: Image, w: Image, s: State, f: nat)
    requires PairedImages(v, w) && f < |v| && AtCall(v, s)
    ensures Match(v, w, Enter(v, s, f), Enter(w, s, f)) && !OnHop(v, w, s)
    ensures 0 <= s.fb < |v| ==> MapPc(v, w, s.fb, s.pc + 1) == s.pc + 1
  {
    assert Paired(v[f], w[f]);
    if 0 <= s.fb < |v| {
      CallMaps(v, w, s);
    }
    assert Enter(v, s, f).fs == s.fs + [Frame(s.pc, s.fb, s.base)];
  }

  /** A call of a function whose code has been through finalize comes back as CallCorrect says. */
  lemma FinalCallCorrect(p: Prog, w: Image, good: iset<nat>, f: nat, vs: seq<int>, s: State, fuel: nat)
    requires |w| == |p| && Finished(p, w, good) && f < |p| && f in good && |vs| == p[f].nargs && ArgsOnTop(s, vs)
             && AtCall(PlainImage(p, w, good), s)
    ensures var r := Meaning(p, f, vs, s.glob, fuel);
            var cut := |s.stk| - |vs|;
            && (r.Val? ==> exists t :: Reaches(w, Enter(w, s, f), t) && BackIn(s, t, s.stk[..cut] + [r.v], r.st.glob))
            && (r.NoVal? ==> exists t :: Reaches(w, Enter(w, s, f), t) && BackIn(s, t, s.stk[..cut], r.st.glob))
            && (r.Fault? ==> exists t :: Reaches(w, Enter(w, s, f), t) && t.trap)
  {
    hide Run, Body, Enter, PlainImage, Finished, Compiled, PairedImages;
    var v := PlainImage(p, w, good);
    FinishedPairs(p, w, good);
    EnterPair(v, w, s, f);
    var n, t := BodySim(p, v, good, f, vs, s, Store(s.glob, map[]), fuel);
    var m := RunMatches(v, w, Enter(v, s, f), Enter(w, s, f), n);
    assert Reaches(w, Enter(w, s, f), Run(w, Enter(w, s, f), m));
  }

  /** The finished program stops exactly when the source run comes to an end. */
  lemma FinalHaltsExactly(p: Prog, w: Image, good: iset<nat>, f: nat, vs: seq<int>, s: State)
    requires |w| == |p| && Finished(p, w, good) && f < |p| && f in good && |vs| == p[f].nargs && ArgsOnTop(s, vs)
             && AtCall(PlainImage(p, w, good), s)
    requires StartContext(w, s) && Defined(p, f, vs, s.glob)
    ensures Halts(w, Enter(w, s, f)) <==> Finishes(p, f, vs, s.glob)
  {
    hide Run, Body, Enter, PlainImage, Finished, Compiled, PairedImages, Finishes, Defined;
    var v := PlainImage(p, w, good);
    FinishedPairs(p, w, good);
    EnterPair(v, w, s, f);
    HaltsExactly(p, v, good, f, vs, s);
    var a, b := Enter(v, s, f), Enter(w, s, f);
    if Halts(v, a) {
      var n: nat :| Halted(v, Run(v, a, n));
      var m := RunMatches(v, w, a, b, n);
      assert Halted(w, Run(w, b, m));
    }
    if Halts(w, b) {
      var m: nat :| Halted(w, Run(w, b, m));
      var k := RunMatches(v, w, a, b, 2 * m + 1);
      HaltedLater(w, b, m, k);
      assert Halted(v, Run(v, a, 2 * m + 1));
    }
  }

  lemma HaltedLater(img: Image, s: State, m: nat, n: nat)
    requires m <= n && Halted(img, Run(img, s, m))
    ensures Halted(img, Run(img, s, n))
  {
    RunPlus(img, s, m, n - m);
    HaltedStays(img, Run(img, s, m), n - m);
  }

  // ----- and when it is not sound -----

  /** Some jump of an unsafely finished function goes past its RETx. */
  lemma {:induction false} UnsafeJumpsPast(p: Prog, fn: Fun)
    returns (k: nat)
    requires !SafelyFinished(p, fn)
    ensures k < |FinalBlock(p, fn).code| && !LandsBefore(FinalBlock(p, fn).code[k], RETNAME, |RawBody(p, fn)|)
  {
    hide StmtLen, CStmt;
    RawPlaced(p, fn);
    var raw := RawBody(p, fn);
    var front := raw[..|raw| - 1];
    k :| 0 <= k < |front| && !LandsBefore(front[k], RETNAME, |raw|);
    assert Finalized(raw, RETNAME)[k] == PlaceI(front[k], RETNAME, |raw| - 1);
  }

  /** Going there runs off the end of the function, where the plain code returned. */
  lemma {:induction false} PastTheReturn(p: Prog, w: Image, s: State)
    requires 0 <= s.fb < |p| == |w| && w[s.fb] == FinalBlock(p, p[s.fb]) && !s.trap
    requires EndsInHop(BodyCode(p, p[s.fb])) && s.pc >= |RawBody(p, p[s.fb])|
    ensures Run(w, s, 2).trap
    ensures PlainBlock(p, p[s.fb]).code[|RawBody(p, p[s.fb])|] == RetOf(p[s.fb].isVoid)
  {
    hide StmtLen, CStmt, Place, Finalized;
    RawPlaced(p, p[s.fb]);
    FinalLength(RawBody(p, p[s.fb]));
    var t := Step(w, s);
    assert Run(w, s, 2) == Run(w, t, 1) == Run(w, Step(w, t), 0);
  }

  lemma FinalLength(raw: seq<Instr>)
    requires EndsInHop(Place(raw, RETNAME, |raw|))
    ensures |Finalized(raw, RETNAME)| == |raw| - 1
  {}

  /** A void function that ends in `if (c) return;` is finished unsafely. */
  lemma {:induction false} TrailingIfReturnUnsafe(p: Prog, fn: Fun)
    requires fn.body.Seq? && fn.body.s2.If? && fn.body.s2.s1 == Return(None)
    ensures !SafelyFinished(p, fn)
  {
    hide ExprLen, CExpr;
    var raw, a, x, l := RawBody(p, fn), fn.body.s1, fn.body.s2, NOWHERE.(ret := RETNAME);
    var n, k := |raw|, StmtLen(p, a);
    RawPlaced(p, fn);
    var c := CExpr(p, x.c, false, k);
    assert CStmt(p, x.s1, k + |c| + 1, LoopFlag(a, false), l.(tos := n)) == [Jump(JMP, RETNAME)];
    assert CStmt(p, x, k, LoopFlag(a, false), l) == CIf(p, x, k, LoopFlag(a, false), l);
    assert raw[n - 2] == Jump(JZ, n) && raw[n - 1] == Jump(JMP, RETNAME);
    assert !LandsBefore(raw[..n - 1][n - 2], RETNAME, n);
  }

  /** Void functions that end in `if (c) return;`. */
  predicate TrailingIf(fn: Fun) {
    fn.isVoid && fn.body.Seq? && fn.body.s2.If? && fn.body.s2.s1 == Return(None)
  }

  /** What comes before the last jump of such a function while the return label has no place. */
  function TrailingFront(p: Prog, fn: Fun, ret: int): seq<Instr>
    requires TrailingIf(fn)
  {
    CStmt(p, fn.body.s1, 0, false, NOWHERE.(ret := ret))
      + (CExpr(p, fn.body.s2.c, false, StmtLen(p, fn.body.s1)) + [Jump(JZ, StmtLen(p, fn.body))])
  }

  lemma {:induction false} TrailingRaw(p: Prog, fn: Fun)
    requires TrailingIf(fn)
    ensures RawBody(p, fn) == TrailingFront(p, fn, RETNAME) + [Jump(JMP, RETNAME)]
    ensures |TrailingFront(p, fn, RETNAME)| == StmtLen(p, fn.body) - 1
  {
    hide ExprLen, CExpr, CStmt, StmtLen, LoopFlag;
    var a, c, l := fn.body.s1, fn.body.s2.c, NOWHERE.(ret := RETNAME);
    var k, n := StmtLen(p, a), StmtLen(p, fn.body);
    var cc := CExpr(p, c, false, k);
    ReturnForm(p, k + |cc| + 1, LoopFlag(a, false), l.(tos := n));
    IfForm(p, c, Return(None), k, LoopFlag(a, false), l, 0, 0);
    SeqForm(p, a, fn.body.s2, 0, false, l, 0, 0);
    TrailingLen(p, fn);
  }

  lemma TrailingPlaced(p: Prog, fn: Fun)
    requires TrailingIf(fn) && StmtLen(p, fn.body) > 0
    ensures var n := StmtLen(p, fn.body);
            Place(TrailingFront(p, fn, RETNAME), RETNAME, n - 1) == TrailingFront(p, fn, n - 1)
  {
    hide ExprLen, CExpr, Place, CStmt, StmtLen;
    var a, c, n, l := fn.body.s1, fn.body.s2.c, StmtLen(p, fn.body), NOWHERE.(ret := RETNAME);
    var cc := CExpr(p, c, false, StmtLen(p, a));
    PlaceStmt(p, a, 0, false, l, RETNAME, n - 1);
    PlaceExpr(p, c, false, StmtLen(p, a), RETNAME, n - 1);
    PlaceOne(Jump(JZ, n), RETNAME, n - 1);
    PlaceConcat(cc, [Jump(JZ, n)], RETNAME, n - 1);
    PlaceConcat(CStmt(p, a, 0, false, l), cc + [Jump(JZ, n)], RETNAME, n - 1);
  }

  /** Their finished code: returns go to the RETx, which has moved up, but a condition that fails goes past it. */
  lemma TrailingCode(p: Prog, fn: Fun)
    requires TrailingIf(fn)
    ensures var a, c, n := fn.body.s1, fn.body.s2.c, StmtLen(p, fn.body);
            && n == StmtLen(p, a) + ExprLen(p, c, false) + 2
            && FinalBlock(p, fn).code
               == CStmt(p, a, 0, false, NOWHERE.(ret := n - 1))
                  + (CExpr(p, c, false, StmtLen(p, a)) + ([Jump(JZ, n)] + [RetOf(fn.isVoid), End]))
  {
    hide ExprLen, CExpr, Place, EndsInHop, CStmt, StmtLen, RawBody;
    TrailingLen(p, fn);
    TrailingRaw(p, fn);
    TrailingPlaced(p, fn);
    var front := TrailingFront(p, fn, RETNAME);
    assert (front + [Jump(JMP, RETNAME)])[..|front|] == front;
    HopPlaced(front);
  }

  lemma ReturnForm(p: Prog, pc: nat, il: bool, l: Labels)
    ensures CStmt(p, Return(None), pc, il, l) == [Jump(JMP, l.ret)] && StmtLen(p, Return(None)) == 1
  {
    hide CExpr, ExprLen;
  }

  lemma {:induction false} TrailingLen(p: Prog, fn: Fun)
    requires TrailingIf(fn)
    ensures StmtLen(p, fn.body) == StmtLen(p, fn.body.s1) + ExprLen(p, fn.body.s2.c, false) + 2
  {
    hide ExprLen;
    assert StmtLen(p, fn.body.s2) == ExprLen(p, fn.body.s2.c, false) + 1 + StmtLen(p, fn.body.s2.s1);
  }

  lemma HopPlaced(front: seq<Instr>)
    ensures EndsInHop(Place(front + [Jump(JMP, RETNAME)], RETNAME, |front| + 1))
  {}

  /** A call of such a function comes back when it returns, and runs off its end when it should fall through to it. */
  lemma TrailingIfReturnFails(p: Prog, w: Image, good: iset<nat>, f: nat, vs: seq<int>, s: State, fuel: nat)
    requires |w| == |p| && Finished(p, w, good) && f < |p| && TrailingIf(p[f]) && w[f] == FinalBlock(p, p[f])
    requires CleanS(p[f].body, good) && Bound(p, p[f].body, 0, false, BodyLabels(p, p[f]), 0, 0)
    requires |vs| == p[f].nargs && ArgsOnTop(s, vs) && AtCall(PlainImage(p, w, good), s)
    ensures var o, cut := Body(p, f, vs, s.glob, fuel), |s.stk| - |vs|;
            && (o.Normal? ==> Meaning(p, f, vs, s.glob, fuel) == NoVal(Store(o.st.glob, map[]))
                              && exists t :: Reaches(w, Enter(w, s, f), t) && t.trap)
            && (o.Returned? && o.v.None? ==>
                  exists t :: Reaches(w, Enter(w, s, f), t) && BackIn(s, t, s.stk[..cut], o.st.glob))
  {
    hide Run, Body, Enter, PlainImage, Finished, Compiled, PairedImages, CleanS, Bound, TrailingIf;
    var v := PlainImage(p, w, good);
    FinishedPairs(p, w, good);
    EnterPair(v, w, s, f);
    NotGood(p, w, good, f);
    var n, t := TrailingSim(p, v, good, f, vs, s, fuel);
    var m := RunMatches(v, w, Enter(v, s, f), Enter(w, s, f), n);
    assert Reaches(w, Enter(w, s, f), Run(w, Enter(w, s, f), m));
  }

  lemma NotGood(p: Prog, w: Image, good: iset<nat>, f: nat)
    requires |w| == |p| && Finished(p, w, good) && f < |p| && TrailingIf(p[f])
    ensures f !in good && p[f].isVoid && PlainImage(p, w, good)[f] == w[f]
  {
    hide SafelyFinished, FinalBlock, CleanS, Bound, Finished;
    if f in good {
      GoodSafe(p, w, good, f);
    }
    TrailingIfReturnUnsafe(p, p[f]);
  }

  lemma GoodSafe(p: Prog, w: Image, good: iset<nat>, f: nat)
    requires |w| == |p| && Finished(p, w, good) && f < |p| && f in good
    ensures SafelyFinished(p, p[f])
  {
    hide SafelyFinished, FinalBlock, CleanS, Bound;
    assert w[f] == FinalBlock(p, p[f]);
  }

  /** The last condition: not 0, it goes on to the RETx; 0, past it and off the end. */
  lemma TrailingTest(p: Prog, v: Image, good: iset<nat>, f: nat, args: nat, s: State, n: nat, t: State, k: nat,
      st: Store, fuel: nat)
    returns (m: nat, w: State)
    requires Compiled(p, v, good) && f < |p| && TrailingIf(p[f]) && Clean(p[f].body.s2.c, good)
    requires v[f].nargs == p[f].nargs == args <= |s.stk| && v[f].nlocal == p[f].nlocal && !s.trap && p[f].isVoid
    requires Run(v, Enter(v, s, f), n) == t && Kept(p[f], Enter(v, s, f), t) && Rel(p[f], t, st) && t.pc == k
    requires var c := CExpr(p, p[f].body.s2.c, false, k);
             At(v[f].code, k, c) && |v[f].code| == k + |c| + 3 && v[f].code[k + |c|] == Jump(JZ, k + |c| + 2)
             && v[f].code[k + |c| + 1] == RetOf(p[f].isVoid) && v[f].code[k + |c| + 2] == End
    ensures Run(v, Enter(v, s, f), m) == w
    ensures var r := Eval(p, p[f], p[f].body.s2.c, st, fuel);
            r.Val? ==> if r.v == 0 then w.trap else BackIn(s, w, s.stk[..|s.stk| - args], r.st.glob)
  {
    hide Run, At, CExpr, ExprLen, Eval, Clean, Rel;
    var fn, u, c := p[f], Enter(v, s, f), p[f].body.s2.c;
    FrameOf(fn, t, st);
    m, w := TestSim(p, v, good, c, k, k + ExprLen(p, c, false) + 2, t, st, fuel);
    Compose(v, u, n, t, m, w);
    m := n + m;
    var r := Eval(p, fn, c, st, fuel);
    if r.Val? {
      KeptTrans(fn, u, t, w);
      if r.v == 0 {
        Advance(v, u, m, w, End);
        FallsOff(v, u, m + 1, Next(w));
        m, w := m + 2, Trapped(Next(w));
      } else {
        GlobalsAgree(fn, w, r.st);
        m, w := RetSim(p, v, f, s, m, w, args);
      }
    }
  }

  lemma FrameOf(fn: Fun, s: State, st: Store)
    requires Rel(fn, s, st)
    ensures Framed(fn, s)
  {}

  /** Where the parts of the finished code are. */
  lemma TrailingAt(p: Prog, fn: Fun, code: seq<Instr>)
    requires TrailingIf(fn) && code == FinalBlock(p, fn).code
    ensures var a, k, n := fn.body.s1, StmtLen(p, fn.body.s1), StmtLen(p, fn.body);
            && n == k + ExprLen(p, fn.body.s2.c, false) + 2 && |code| == n + 1
            && At(code, 0, CStmt(p, a, 0, false, NOWHERE.(ret := n - 1)))
            && At(code, k, CExpr(p, fn.body.s2.c, false, k))
            && code[n - 2] == Jump(JZ, n) && code[n - 1] == RetOf(fn.isVoid) && code[n] == End
  {
    hide At, CStmt, StmtLen, CExpr, ExprLen, FinalBlock;
    TrailingCode(p, fn);
    var c, k, n := fn.body.s2.c, StmtLen(p, fn.body.s1), StmtLen(p, fn.body);
    var cc, tail := CExpr(p, c, false, k), [RetOf(fn.isVoid), End];
    AtWhole(CStmt(p, fn.body.s1, 0, false, NOWHERE.(ret := n - 1)), cc + ([Jump(JZ, n)] + tail));
    AtSplit(code, k, cc, [Jump(JZ, n)] + tail);
    AtHead(code, n - 2, Jump(JZ, n), tail);
    TailAt(code, n - 1, fn.isVoid);
  }

  lemma TrailingSim(p: Prog, v: Image, good: iset<nat>, f: nat, vs: seq<int>, s: State, fuel: nat)
    returns (n: nat, t: State)
    requires Compiled(p, v, good) && f < |p| && TrailingIf(p[f]) && v[f] == FinalBlock(p, p[f])
    requires CleanS(p[f].body, good) && Bound(p, p[f].body, 0, false, BodyLabels(p, p[f]), 0, 0)
    requires |vs| == p[f].nargs && ArgsOnTop(s, vs) && !s.trap
    ensures Run(v, Enter(v, s, f), n) == t
    ensures var o := Body(p, f, vs, s.glob, fuel);
            && (o.Normal? ==> t.trap)
            && (o.Returned? && o.v.None? ==> BackIn(s, t, s.stk[..|s.stk| - |vs|], o.st.glob))
  {
    hide Run, At, CStmt, StmtLen, Exec, CExpr, ExprLen, Eval, Clean, Bound, CleanS, Finalized, RawBody, Place, Tidy,
         LoopFlag;
    var fn, u := p[f], Enter(v, s, f);
    var a, st, k := fn.body.s1, Store(s.glob, ArgMap(vs)), StmtLen(p, p[f].body.s1);
    var nn := StmtLen(p, fn.body);
    TrailingAt(p, fn, v[f].code);
    var l := NOWHERE.(ret := nn - 1);
    TrailingForm(p, fn, st, fuel, good);
    BoundRet(p, a, 0, false, BodyLabels(p, fn), l, 0, 0);
    n, t := StmtSim(p, v, good, a, 0, false, l, l, u, st, fuel);
    var o := Exec(p, fn, a, st, fuel);
    if o.Normal? {
      n, t := TrailingTest(p, v, good, f, |vs|, s, n, t, k, o.st, fuel);
    } else if o.Returned? && o.v.None? {
      n, t := RetSim(p, v, f, s, n, t, |vs|);
    }
  }

  lemma FallsOff(img: Image, s: State, n: nat, t: State)
    requires Run(img, s, n) == t && !Halted(img, t) && t.pc >= |CodeOf(img, t)|
    ensures Run(img, s, n + 1) == Trapped(t)
  {
    RunPlus(img, s, n, 1);
    assert Run(img, t, 1) == Run(img, Step(img, t), 0);
  }

  lemma TailAt(code: seq<Instr>, pc: int, isVoid: bool)
    requires At(code, pc, [RetOf(isVoid), End])
    ensures 0 <= pc && pc + 1 < |code| && code[pc] == RetOf(isVoid) && code[pc + 1] == End
  {
    assert [RetOf(isVoid), End] == [RetOf(isVoid)] + [End];
    AtHead(code, pc, RetOf(isVoid), [End]);
    AtOne(code, pc + 1, End);
  }

  lemma {:induction false} TrailingForm(p: Prog, fn: Fun, st: Store, fuel: nat, good: iset<nat>)
    requires TrailingIf(fn) && CleanS(fn.body, good) && Bound(p, fn.body, 0, false, BodyLabels(p, fn), 0, 0)
    ensures CleanS(fn.body.s1, good) && Clean(fn.body.s2.c, good)
    ensures Bound(p, fn.body.s1, 0, false, BodyLabels(p, fn), 0, 0)
    ensures var a, c := fn.body.s1, fn.body.s2.c;
            var o := Exec(p, fn, a, st, fuel);
            Exec(p, fn, fn.body, st, fuel) ==
            if !o.Normal? then o else
              var r := NeedVal(Eval(p, fn, c, o.st, fuel));
              if !r.Val? then OutOf(r) else if r.v != 0 then Returned(None, r.st) else Normal(r.st)
  {
    hide Eval, Clean, StmtLen;
    var x, o := fn.body.s2, Exec(p, fn, fn.body.s1, st, fuel);
    assert CleanS(x, good);
    if o.Normal? {
      assert Exec(p, fn, x, o.st, fuel) == ExecIf(p, fn, x, o.st, fuel);
      var r := NeedVal(Eval(p, fn, x.c, o.st, fuel));
      if r.Val? {
        assert Exec(p, fn, x.s1, r.st, fuel) == ExecReturn(p, fn, x.s1, r.st, fuel);
      }
    }
  }
}
