/** Running compiled code follows the meaning of the tree: shared notions, and one-instruction lemmas. */
module SimBase {
  import opened Machine
  import opened Source
  import opened Codegen
  import opened Binding

  /** `c` sits in `code` at pc. */
  predicate At(code: seq<Instr>, pc: int, c: seq<Instr>) {
    0 <= pc && pc + |c| <= |code| && code[pc..pc + |c|] == c
  }

  lemma AtSplit(code: seq<Instr>, pc: int, a: seq<Instr>, b: seq<Instr>)
    requires At(code, pc, a + b)
    ensures At(code, pc, a) && At(code, pc + |a|, b)
  {
    assert code[pc..pc + |a|] == (a + b)[..|a|] == a;
    assert code[pc + |a|..pc + |a + b|] == (a + b)[|a|..] == b;
  }

  lemma AtHead(code: seq<Instr>, pc: int, i: Instr, b: seq<Instr>)
    requires At(code, pc, [i] + b)
    ensures 0 <= pc < |code| && code[pc] == i && At(code, pc + 1, b)
  {
    AtSplit(code, pc, [i], b);
    assert code[pc] == code[pc..pc + 1][0];
  }

  lemma AtOne(code: seq<Instr>, pc: int, i: Instr)
    requires At(code, pc, [i])
    ensures 0 <= pc < |code| && code[pc] == i
  {
    assert code[pc] == code[pc..pc + 1][0];
  }

  predicate Framed(fn: Fun, s: State) { fn.nargs <= s.base && s.base + fn.nlocal <= |s.stk| }

  /** The machine's frame and data segment hold what the store says. */
  predicate Rel(fn: Fun, s: State, st: Store) {
    && Framed(fn, s)
    && s.glob == st.glob
    && forall d {:trigger st.loc[d]} :: d in st.loc && InFrame(fn, d) ==> s.stk[SlotOf(s.base, d)] == st.loc[d]
  }

  lemma GlobalsAgree(fn: Fun, s: State, st: Store)
    requires Rel(fn, s, st)
    ensures s.glob == st.glob
  {}

  /** Same frame, and no stack word outside it has changed. */
  predicate Kept(fn: Fun, s: State, t: State) {
    && !t.trap && t.fb == s.fb && t.base == s.base && t.fs == s.fs
    && |s.stk| <= |t.stk|
    && forall i {:trigger t.stk[i]} ::
         0 <= i < |s.stk| && !(s.base - fn.nargs <= i < s.base + fn.nlocal) ==> t.stk[i] == s.stk[i]
  }

  /** Where a function's own labels send its breaks, continues and returns. */
  function BodyLabels(p: Prog, fn: Fun): Labels { NOWHERE.(ret := StmtLen(p, fn.body)) }

  /** Block f holds the code of function f, which the compiler could handle, and calls only functions in `good`. */
  ghost predicate Unit(p: Prog, img: Image, good: iset<nat>, f: int)
    requires 0 <= f < |p| == |img|
  {
    img[f] == PlainBlock(p, p[f]) && CleanS(p[f].body, good) && Bound(p, p[f].body, 0, false, BodyLabels(p, p[f]), 0, 0)
  }

  /** The functions in `good` were compiled as meant, and call no others. */
  ghost predicate Compiled(p: Prog, img: Image, good: iset<nat>) {
    |img| == |p| && forall f: nat {:trigger Unit(p, img, good, f)} :: f < |p| && f in good ==> Unit(p, img, good, f)
  }

  /** The machine can run an expression or statement of function s.fb, which need not be in `good` itself. */
  ghost predicate Ready(p: Prog, img: Image, good: iset<nat>, s: State, st: Store, pc: int) {
    && Compiled(p, img, good)
    && !s.trap && 0 <= s.fb < |p| && s.pc == pc && Framed(p[s.fb], s)
    && Rel(p[s.fb], s, st)
  }

  function CodeOf(img: Image, s: State): seq<Instr>
    requires 0 <= s.fb < |img|
  {
    img[s.fb].code
  }

  lemma RunNone(img: Image, s: State)
    ensures Run(img, s, 0) == s
  {}

  /** One more instruction after n steps. */
  lemma Advance(img: Image, s: State, n: nat, t: State, i: Instr)
    requires Run(img, s, n) == t && !Halted(img, t)
    requires 0 <= t.pc < |CodeOf(img, t)| && CodeOf(img, t)[t.pc] == i
    ensures Run(img, s, n + 1) == Exec1(img, t, i)
  {
    RunPlus(img, s, n, 1);
    assert Run(img, t, 1) == Run(img, Step(img, t), 0);
  }

  lemma Compose(img: Image, s: State, m: nat, t: State, n: nat, u: State)
    requires Run(img, s, m) == t && Run(img, t, n) == u
    ensures Run(img, s, m + n) == u
  {
    RunPlus(img, s, m, n);
  }

  lemma KeptTrans(fn: Fun, s: State, t: State, u: State)
    requires Framed(fn, s)
    requires Kept(fn, s, t) && Kept(fn, t, u)
    ensures Kept(fn, s, u)
  {
    forall i {:trigger u.stk[i]} | 0 <= i < |s.stk| && !(s.base - fn.nargs <= i < s.base + fn.nlocal)
      ensures u.stk[i] == s.stk[i]
    {
      assert u.stk[i] == t.stk[i];
      assert t.stk[i] == s.stk[i];
    }
  }

  /** Work above the old top of the stack disturbs nothing below it. */
  lemma Retop(fn: Fun, s: State, t: State, u: State, st: Store)
    requires Framed(fn, s)
    requires Kept(fn, s, t) && Rel(fn, t, st)
    requires !u.trap && u.fb == t.fb && u.base == t.base && u.fs == t.fs && u.glob == t.glob
    requires |s.stk| <= |u.stk| && u.stk[..|s.stk|] == t.stk[..|s.stk|]
    ensures Kept(fn, s, u) && Rel(fn, u, st)
  {
    forall i {:trigger u.stk[i]} | 0 <= i < |s.stk|
      ensures u.stk[i] == t.stk[i]
    {
      assert u.stk[i] == u.stk[..|s.stk|][i];
    }
  }

  /** A read of a variable pushes its value. */
  lemma PushVar(fn: Fun, s: State, st: Store, x: Var)
    requires Rel(fn, s, st) && HasValue(fn, st, x)
    ensures Readable(s, OperandOf(x)) && Load(s, OperandOf(x)) == ValueOf(fn, st, x)
  {}

  /** A write to a variable changes the frame or the data segment, and nothing else. */
  lemma PopVar(fn: Fun, s: State, st: Store, x: Var, v: int)
    requires Rel(fn, s, st) && Assignable(fn, st, x) && !s.trap
    ensures Writable(s, OperandOf(x))
    ensures var t := StoreTo(s, OperandOf(x), v);
            Kept(fn, s, t) && Rel(fn, t, Update(fn, st, x, v)) && t.pc == s.pc && |t.stk| == |s.stk|
            && forall i {:trigger t.stk[i]} :: s.base + fn.nlocal <= i < |s.stk| ==> t.stk[i] == s.stk[i]
  {
    var t := StoreTo(s, OperandOf(x), v);
    match x
    case Global(k) =>
    case Local(d) =>
      var st' := Update(fn, st, x, v);
      forall e {:trigger st'.loc[e]} | e in st'.loc && InFrame(fn, e)
        ensures t.stk[SlotOf(t.base, e)] == st'.loc[e]
      {
        if e != d {
          assert st'.loc[e] == st.loc[e];
          assert SlotOf(s.base, e) != SlotOf(s.base, d);
        }
      }
  }

  /** Whether a tree compiled with DROP_VALUE leaves nothing behind when evaluated here. */
  predicate Clears(p: Prog, fn: Fun, e: Expr, st: Store, fuel: nat)
    decreases e
  {
    match e
    case Assign(_, _) => true
    case IncDec(_, _, _) => true
    case CallE(_, _) => true
    case Comma(a, b) =>
      var r := Eval(p, fn, a, st, fuel);
      (r.Val? || r.NoVal?) && Clears(p, fn, b, r.st, fuel)
    case Cond(c, a, b) =>
      var r := NeedVal(Eval(p, fn, c, st, fuel));
      r.Val? && Clears(p, fn, if r.v != 0 then a else b, r.st, fuel)
    case _ => false
  }

  predicate HasResult(r: Res) { r.Val? || r.NoVal? }

  lemma {:induction false} HonoursClears(p: Prog, fn: Fun, e: Expr, st: Store, fuel: nat)
    requires Honours(e) && HasResult(Eval(p, fn, e, st, fuel))
    ensures Clears(p, fn, e, st, fuel)
    decreases e
  {
    match e
    case Comma(a, b) =>
      assert Eval(p, fn, e, st, fuel) == EvalComma(p, fn, e, st, fuel);
      HonoursClears(p, fn, b, Eval(p, fn, a, st, fuel).st, fuel);
    case Cond(c, a, b) =>
      assert Eval(p, fn, e, st, fuel) == EvalCond(p, fn, e, st, fuel);
      var r := NeedVal(Eval(p, fn, c, st, fuel));
      HonoursClears(p, fn, if r.v != 0 then a else b, r.st, fuel);
    case _ =>
  }

  /** Where a run of n steps from s to t has got to, for a tree whose meaning is r. */
  predicate ExprPost(img: Image, fn: Fun, s: State, t: State, n: nat, fuel: nat, r: Res, gone: bool, pcEnd: int) {
    match r
    case Val(v, st) =>
      && Kept(fn, s, t) && Rel(fn, t, st) && t.pc == pcEnd
      && (if gone then |t.stk| == |s.stk| else |t.stk| == |s.stk| + 1 && Top(t) == v)
    case NoVal(st) => Kept(fn, s, t) && Rel(fn, t, st) && t.pc == pcEnd && |t.stk| == |s.stk|
    case Fault => t.trap
    case Undef => true
    case Timeout => n >= fuel && !Halted(img, t)
  }

  predicate ArgsPost(img: Image, fn: Fun, s: State, t: State, n: nat, fuel: nat, r: ArgsRes, pcEnd: int) {
    match r
    case Vals(vs, st) =>
      && Kept(fn, s, t) && Rel(fn, t, st) && t.pc == pcEnd && |t.stk| == |s.stk| + |vs|
      && forall d {:trigger vs[d]} :: 0 <= d < |vs| ==> t.stk[|t.stk| - 1 - d] == vs[d]
    case ABad(q) => ExprPost(img, fn, s, t, n, fuel, q, false, pcEnd)
  }

  /** The same for statements; `tidy` says no droppings are left. */
  predicate OutPost(img: Image, fn: Fun, s: State, t: State, n: nat, fuel: nat, o: Out, tidy: bool,
                    pcEnd: int, l: Labels)
  {
    match o
    case Normal(st) => Landed(fn, s, t, st, tidy, pcEnd)
    case Brk(st) => Landed(fn, s, t, st, tidy, l.brk)
    case Cnt(st) => Landed(fn, s, t, st, tidy, l.cnt)
    case Returned(Some(v), st) =>
      Landed(fn, s, t, st, false, l.ret) && |t.stk| > s.base + fn.nlocal && Top(t) == v
    case Returned(None, st) => Landed(fn, s, t, st, false, l.ret)
    case OFault => t.trap
    case OUndef => true
    case OTimeout => n >= fuel && !Halted(img, t)
  }

  predicate Landed(fn: Fun, s: State, t: State, st: Store, tidy: bool, pc: int) {
    Kept(fn, s, t) && Rel(fn, t, st) && t.pc == pc && (tidy ==> |t.stk| == |s.stk|)
  }
}
