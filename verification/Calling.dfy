/** The calling discipline of the engine (underc/sourcecode/src/engine.cpp): what every call that comes back leaves
    behind, whatever code it ran. */
module Calling {
  import opened Machine
  import opened Source
  import opened Codegen
  import opened Placing
  import opened Finish

  /** A call of f made in state s has not come back in t: the caller's frames are there, with its own on top of them,
      and the callee's registers are kept, in the machine or in the next frame. */
  predicate Inside(s: State, f: nat, t: State) {
    var d := |s.fs|;
    && |t.fs| > d && t.fs[..d] == s.fs && t.fs[d] == Frame(s.pc, s.fb, s.base)
    && if |t.fs| == d + 1 then t.base == |s.stk| && t.fb == f else t.fs[d + 1].base == |s.stk| && t.fs[d + 1].fb == f
  }

  /** From `last`, about to run the RETx i of f itself, to t: back after the CALL with the caller's registers and
      frames, and mSP where it was before the arguments, but for the word RETI pushes. */
  predicate ComesBack(img: Image, s: State, f: nat, last: State, i: Instr, t: State)
    requires f < |img|
  {
    && 0 <= last.pc < |img[f].code| && img[f].code[last.pc] == i && (i.Ret? || i.RetI?)
    && !t.trap && t.pc == s.pc + 1 && t.fb == s.fb && t.base == s.base && t.fs == s.fs && t.glob == last.glob
    && img[f].nargs <= |s.stk| <= |last.stk| && (i.RetI? ==> last.stk != [])
    && t.stk == last.stk[..|s.stk| - img[f].nargs] + (if i.RetI? then [last.stk[|last.stk| - 1]] else [])
  }

  predicate Stays(i: Instr) { !(i.Call? || i.Ret? || i.RetI?) }

  /** Only calls and returns touch the frames and the frame registers. */
  lemma StaysPut(img: Image, t: State, i: Instr)
    requires Stays(i) && !Halted(img, t)
    ensures var u := Exec1(img, t, i);
            u.fs == t.fs && u.fb == t.fb && u.base == t.base
  {
    hide Alu1Of, Alu2Of, Alu2Traps, SwitchTarget;
  }

  /** One more call on top of the ones under way. */
  lemma CallInside(img: Image, s: State, f: nat, t: State, g: nat)
    requires Inside(s, f, t) && g < |img|
    ensures Inside(s, f, Enter(img, t, g))
  {
    var u, d := Enter(img, t, g), |s.fs|;
    assert u.fs[..d] == t.fs[..d];
  }

  /** A return from something the callee has called. */
  lemma LeaveInside(img: Image, s: State, f: nat, t: State)
    requires Inside(s, f, t) && |t.fs| > |s.fs| + 1 && 0 <= t.fb < |img| && CanLeave(img, t)
    ensures Inside(s, f, Leave(img, t))
  {
    var u, d := Leave(img, t), |s.fs|;
    assert u.fs[..d] == t.fs[..d];
  }

  lemma LeaveBack(img: Image, s: State, f: nat, t: State)
    requires Inside(s, f, t) && |t.fs| == |s.fs| + 1 && 0 <= t.fb < |img| && CanLeave(img, t)
    ensures var u := Leave(img, t);
            && u.pc == s.pc + 1 && u.fb == s.fb && u.base == s.base && u.fs == s.fs
            && img[f].nargs <= |s.stk| <= |t.stk| && u.stk == t.stk[..|s.stk| - img[f].nargs]
  {}

  /** One step of a call that is under way leaves it under way, or brings it back. */
  lemma StepInside(img: Image, s: State, f: nat, t: State)
    requires f < |img| && Inside(s, f, t)
    ensures Inside(s, f, Step(img, t))
            || (!Halted(img, t) && 0 <= t.pc < |img[t.fb].code|
                && ComesBack(img, s, f, t, img[t.fb].code[t.pc], Step(img, t)))
  {
    if !Halted(img, t) && 0 <= t.pc < |img[t.fb].code| {
      var i := img[t.fb].code[t.pc];
      if Stays(i) {
        StaysPut(img, t, i);
      } else if i.Call? {
        if i.f < |img| {
          CallInside(img, s, f, t, i.f);
        }
      } else if CanLeave(img, t) {
        if |t.fs| > |s.fs| + 1 {
          LeaveInside(img, s, f, t);
        } else {
          LeaveBack(img, s, f, t);
        }
      }
    }
  }

  /** No earlier state has as few frames as the caller. */
  ghost predicate Under(img: Image, s: State, f: nat, n: nat)
    requires f < |img|
  {
    forall m: nat {:trigger Run(img, Enter(img, s, f), m)} :: m < n ==> |Run(img, Enter(img, s, f), m).fs| != |s.fs|
  }

  /** For as long as a call runs, however deep in other calls, the caller's frames are as it left them. */
  lemma {:induction false} RunInside(img: Image, s: State, f: nat, n: nat)
    requires f < |img| && Under(img, s, f, n + 1)
    ensures Inside(s, f, Run(img, Enter(img, s, f), n))
    decreases n
  {
    hide Inside, Step, ComesBack, Enter;
    if n == 0 {
      EnterInside(img, s, f);
    } else {
      RunInside(img, s, f, n - 1);
      var t := Run(img, Enter(img, s, f), n - 1);
      LastStep(img, Enter(img, s, f), n - 1);
      StepInside(img, s, f, t);
      if !Inside(s, f, Step(img, t)) {
        BackFrames(img, s, f, t, img[t.fb].code[t.pc], Step(img, t));
      }
    }
  }

  lemma EnterInside(img: Image, s: State, f: nat)
    requires f < |img|
    ensures Inside(s, f, Enter(img, s, f))
  {}

  lemma BackFrames(img: Image, s: State, f: nat, last: State, i: Instr, t: State)
    requires f < |img| && ComesBack(img, s, f, last, i, t)
    ensures t.fs == s.fs
  {}

  lemma InsideDeeper(s: State, f: nat, t: State)
    requires Inside(s, f, t)
    ensures |t.fs| > |s.fs|
  {}

  lemma LastStep(img: Image, s: State, n: nat)
    ensures Run(img, s, n + 1) == Step(img, Run(img, s, n))
  {
    RunPlus(img, s, n, 1);
    assert Run(img, Run(img, s, n), 1) == Run(img, Step(img, Run(img, s, n)), 0);
  }

  /** Every call of any function in any image, nested or recursive as it may be: when the frame stack is first as
      deep as the caller's again, the caller has its baseSP, its function, its return point and its frames back, and
      mSP is where it was before the arguments, one word higher exactly when the function itself returned with RETI. */
  lemma CallsReturn(img: Image, s: State, f: nat, n: nat)
    returns (i: Instr)
    requires f < |img| && Under(img, s, f, n) && |Run(img, Enter(img, s, f), n).fs| == |s.fs|
    ensures n > 0 && ComesBack(img, s, f, Run(img, Enter(img, s, f), n - 1), i, Run(img, Enter(img, s, f), n))
    ensures |Run(img, Enter(img, s, f), n).stk| == |s.stk| - img[f].nargs + (if i.RetI? then 1 else 0)
  {
    hide Inside, Step, Enter, Run;
    var u := Enter(img, s, f);
    if n == 0 {
      RunZero(img, u);
      EnterInside(img, s, f);
      InsideDeeper(s, f, u);
    }
    RunInside(img, s, f, n - 1);
    var t := Run(img, u, n - 1);
    LastStep(img, u, n - 1);
    StepInside(img, s, f, t);
    if Inside(s, f, Step(img, t)) {
      InsideDeeper(s, f, Step(img, t));
    }
    i := img[t.fb].code[t.pc];
  }

  lemma RunZero(img: Image, s: State)
    ensures Run(img, s, 0) == s
  {}

  // ----- compiled functions: the word is there exactly when they are not void -----

  lemma BodyNeverReturns(p: Prog, fn: Fun, k: nat)
    requires k < |RawBody(p, fn)|
    ensures Stays(RawBody(p, fn)[k]) || RawBody(p, fn)[k].Call?
  {
    hide CStmt, StmtLen;
    StmtTargets(p, fn.body, 0, false, NOWHERE.(ret := RETNAME), |RawBody(p, fn)| + 1);
    assert LandsInside(RawBody(p, fn)[k], RETNAME, |RawBody(p, fn)| + 1);
  }

  /** The code of a function, finished or not, returns in one way only. */
  lemma OneReturn(p: Prog, fn: Fun, b: FBlock, k: nat)
    requires b == PlainBlock(p, fn) || b == FinalBlock(p, fn)
    requires k < |b.code| && (b.code[k].Ret? || b.code[k].RetI?)
    ensures b.code[k] == RetOf(fn.isVoid)
  {
    hide CStmt, StmtLen;
    RawPlaced(p, fn);
    var raw, n := RawBody(p, fn), |RawBody(p, fn)|;
    var cut := if EndsInHop(Place(raw, RETNAME, n)) then n - 1 else n;
    var to := if b == PlainBlock(p, fn) then n else cut;
    var c := raw[..to];
    assert raw[..n] == raw;
    assert b.code == Place(c, RETNAME, to) + [RetOf(fn.isVoid), End];
    if k < |c| {
      assert b.code[k] == PlaceI(raw[k], RETNAME, to);
      BodyNeverReturns(p, fn, k);
    }
  }

  /** Every call of a compiled function that comes back, clean or not, with a meaning or without: a result is on top of
      the stack if and only if the function is not void. */
  lemma CompiledCallsReturn(p: Prog, img: Image, s: State, f: nat, n: nat)
    requires f < |p| && f < |img| && (img[f] == PlainBlock(p, p[f]) || img[f] == FinalBlock(p, p[f]))
    requires Under(img, s, f, n) && |Run(img, Enter(img, s, f), n).fs| == |s.fs|
    ensures var t := Run(img, Enter(img, s, f), n);
            && !t.trap && t.pc == s.pc + 1 && t.fb == s.fb && t.base == s.base && t.fs == s.fs
            && p[f].nargs <= |s.stk| && |t.stk| == |s.stk| - p[f].nargs + (if p[f].isVoid then 0 else 1)
  {
    hide Run, Enter, Under, BodyCode, Finalized, RawBody;
    var i := CallsReturn(img, s, f, n);
    OneReturn(p, p[f], img[f], Run(img, Enter(img, s, f), n - 1).pc);
  }
}
