/** Compiler correctness: from any state, the code of a tree or statement takes the machine to where the
    meaning of the tree says, pushing its value and leaving the rest of every stack as it was. */
module Simulation {
  import opened Arith
  import opened Machine
  import opened Source
  import opened Codegen
  import opened SimBase
  import opened Binding

  /** The opcode table computes what the operator tokens mean. */
  lemma OperatorsAgree(t: BinTok, a: int, b: int)
    ensures Alu2Traps(EquivOp(t), a, b) <==> BinMeaning(t, a, b).None?
    ensures !Alu2Traps(EquivOp(t), a, b) ==> BinMeaning(t, a, b) == Some(Alu2Of(EquivOp(t), a, b))
  {}

  lemma {:induction false} ExprSim(p: Prog, img: Image, good: iset<nat>, e: Expr, drop: bool, pc: nat, s: State,
      st: Store, fuel: nat)
    returns (n: nat, t: State)
    requires Ready(p, img, good, s, st, pc) && Clean(e, good)
    requires At(CodeOf(img, s), pc, CExpr(p, e, drop, pc))
    ensures Run(img, s, n) == t
    ensures ExprPost(img, p[s.fb], s, t, n, fuel, Eval(p, p[s.fb], e, st, fuel),
                     drop && Clears(p, p[s.fb], e, st, fuel), pc + ExprLen(p, e, drop))
    decreases fuel, e, 2
  {
    hide Run, At, Rel, Kept, ExprLen, CUn, CBin, CAssign, CIncDec, CCond, CLogic, CComma, CCall, EvalRef, EvalUn,
         EvalBin, EvalAssign, EvalIncDec, EvalCond, EvalLogic, EvalComma, EvalCall;
    var fn := p[s.fb];
    match e
    case Const(v) =>
      n, t := ConstSim(p, img, good, v, pc, s, st, fuel);
    case Ref(x) =>
      n, t := RefSim(p, img, good, x, pc, s, st, fuel);
    case Un(tok, a) =>
      n, t := UnSim(p, img, good, e, drop, pc, s, st, fuel, EvalUn(p, fn, e, st, fuel), false);
    case Bin(_, _, _) =>
      n, t := BinSim(p, img, good, e, drop, pc, s, st, fuel, EvalBin(p, fn, e, st, fuel), false);
    case Assign(_, _) =>
      n, t := AssignSim(p, img, good, e, drop, pc, s, st, fuel, EvalAssign(p, fn, e, st, fuel), drop);
    case IncDec(x, incr, post) =>
      n, t := IncDecSim(p, img, good, x, incr, post, drop, pc, s, st, fuel);
    case Cond(_, _, _) =>
      n, t := CondSim(p, img, good, e, drop, pc, s, st, fuel, EvalCond(p, fn, e, st, fuel),
                      drop && Clears(p, fn, e, st, fuel));
    case LogOr(_, _) =>
      n, t := LogicSim(p, img, good, e, drop, pc, s, st, fuel, EvalLogic(p, fn, e, st, fuel), false);
    case LogAnd(_, _) =>
      n, t := LogicSim(p, img, good, e, drop, pc, s, st, fuel, EvalLogic(p, fn, e, st, fuel), false);
    case Comma(_, _) =>
      n, t := CommaSim(p, img, good, e, drop, pc, s, st, fuel, EvalComma(p, fn, e, st, fuel),
                       drop && Clears(p, fn, e, st, fuel));
    case CallE(_, _) =>
      n, t := CallSim(p, img, good, e, drop, pc, s, st, fuel, EvalCall(p, fn, e, st, fuel), drop);
  }

  lemma ConstSim(p: Prog, img: Image, good: iset<nat>, v: int, pc: nat, s: State, st: Store, fuel: nat)
    returns (n: nat, t: State)
    requires Ready(p, img, good, s, st, pc)
    requires At(CodeOf(img, s), pc, [PushI(Lit(v))])
    ensures Run(img, s, n) == t
    ensures ExprPost(img, p[s.fb], s, t, n, fuel, Val(v, st), false, pc + 1)
  {
    hide Run, At;
    AtOne(CodeOf(img, s), pc, PushI(Lit(v)));
    RunNone(img, s);
    Advance(img, s, 0, s, PushI(Lit(v)));
    n, t := 1, Next(Push(s, v));
  }

  lemma RefSim(p: Prog, img: Image, good: iset<nat>, x: Var, pc: nat, s: State, st: Store, fuel: nat)
    returns (n: nat, t: State)
    requires Ready(p, img, good, s, st, pc)
    requires At(CodeOf(img, s), pc, [PushI(OperandOf(x))])
    ensures Run(img, s, n) == t
    ensures ExprPost(img, p[s.fb], s, t, n, fuel, EvalRef(p[s.fb], x, st), false, pc + 1)
  {
    hide Run, At;
    n, t := 0, s;
    RunNone(img, s);
    if HasValue(p[s.fb], st, x) {
      AtOne(CodeOf(img, s), pc, PushI(OperandOf(x)));
      Advance(img, s, 0, s, PushI(OperandOf(x)));
      PushVar(p[s.fb], s, st, x);
      n, t := 1, Next(Push(s, Load(s, OperandOf(x))));
    }
  }

  lemma {:induction false} UnSim(p: Prog, img: Image, good: iset<nat>, e: Expr, drop: bool, pc: nat, s: State,
      st: Store, fuel: nat, r: Res, gone: bool)
    returns (n: nat, t: State)
    requires Ready(p, img, good, s, st, pc) && e.Un? && Clean(e.e, good)
    requires At(CodeOf(img, s), pc, CUn(p, e, pc))
    requires r == EvalUn(p, p[s.fb], e, st, fuel) && gone == false
    ensures Run(img, s, n) == t
    ensures ExprPost(img, p[s.fb], s, t, n, fuel, r, gone, pc + |CUn(p, e, pc)|)
    decreases fuel, e, 1
  {
    hide Run, At, CExpr, ExprLen, Eval, Clean, Clears, Honours, CStmt, StmtLen, Exec, Rel;
    var fn, code := p[s.fb], CodeOf(img, s);
    var i := Alu1(EquivOp1(e.utok));
    AtSplit(code, pc, CExpr(p, e.e, false, pc), [i]);
    n, t := ExprSim(p, img, good, e.e, false, pc, s, st, fuel);
    var ra := Eval(p, fn, e.e, st, fuel);
    if ra.Val? {
      AtOne(code, t.pc, i);
      Advance(img, s, n, t, i);
      var u := Exec1(img, t, i);
      Retop(fn, s, t, u, ra.st);
      n, t := n + 1, u;
    }
  }

  lemma {:induction false} BinSim(p: Prog, img: Image, good: iset<nat>, e: Expr, drop: bool, pc: nat, s: State,
      st: Store, fuel: nat, r: Res, gone: bool)
    returns (n: nat, t: State)
    requires Ready(p, img, good, s, st, pc) && e.Bin? && Clean(e.e1, good) && Clean(e.e2, good)
    requires At(CodeOf(img, s), pc, CBin(p, e, pc))
    requires r == EvalBin(p, p[s.fb], e, st, fuel) && gone == false
    ensures Run(img, s, n) == t
    ensures ExprPost(img, p[s.fb], s, t, n, fuel, r, gone, pc + |CBin(p, e, pc)|)
    decreases fuel, e, 1
  {
    hide Run, At, CExpr, ExprLen, Eval, Clean, Clears, Honours, CStmt, StmtLen, Exec, Rel;
    var fn, code := p[s.fb], CodeOf(img, s);
    var i := Alu2(EquivOp(e.tok));
    var pb := pc + ExprLen(p, e.e1, false);
    AtSplit(code, pc, CExpr(p, e.e1, false, pc), CExpr(p, e.e2, false, pb) + [i]);
    AtSplit(code, pb, CExpr(p, e.e2, false, pb), [i]);
    n, t := ExprSim(p, img, good, e.e1, false, pc, s, st, fuel);
    var ra := Eval(p, fn, e.e1, st, fuel);
    if ra.Val? {
      var m, u := ExprSim(p, img, good, e.e2, false, pb, t, ra.st, fuel);
      Compose(img, s, n, t, m, u);
      var q := Eval(p, fn, e.e2, ra.st, fuel);
      if q.Val? {
        KeptTrans(fn, s, t, u);
        assert u.stk[|t.stk| - 1] == t.stk[|t.stk| - 1] == ra.v;
        OperatorsAgree(e.tok, ra.v, q.v);
        AtOne(code, u.pc, i);
        Advance(img, s, n + m, u, i);
        var w := Exec1(img, u, i);
        if !w.trap {
          Retop(fn, s, u, w, q.st);
        }
        n, t := n + m + 1, w;
      } else {
        n, t := n + m, u;
      }
    }
  }

  lemma {:induction false} AssignSim(p: Prog, img: Image, good: iset<nat>, e: Expr, drop: bool, pc: nat, s: State,
      st: Store, fuel: nat, r: Res, gone: bool)
    returns (n: nat, t: State)
    requires Ready(p, img, good, s, st, pc) && e.Assign? && Clean(e.e, good)
    requires At(CodeOf(img, s), pc, CAssign(p, e, drop, pc))
    requires r == EvalAssign(p, p[s.fb], e, st, fuel) && gone == drop
    ensures Run(img, s, n) == t
    ensures ExprPost(img, p[s.fb], s, t, n, fuel, r, gone, pc + |CAssign(p, e, drop, pc)|)
    decreases fuel, e, 1
  {
    hide Run, At, CExpr, ExprLen, Eval, Clean, Clears, Honours, CStmt, StmtLen, Exec, Rel;
    var fn, code := p[s.fb], CodeOf(img, s);
    var i := PopI(OperandOf(e.x));
    var pd := pc + ExprLen(p, e.e, false);
    AtSplit(code, pc, CExpr(p, e.e, false, pc), DupIf(drop) + [i]);
    AtSplit(code, pd, DupIf(drop), [i]);
    n, t := ExprSim(p, img, good, e.e, false, pc, s, st, fuel);
    var ra := Eval(p, fn, e.e, st, fuel);
    if ra.Val? && Assignable(fn, ra.st, e.x) {
      if !drop {
        AtOne(code, t.pc, Dup);
        n, t := DupSim(p, img, good, s, n, t, ra.st);
      }
      AtOne(code, t.pc, i);
      n, t := PopSim(p, img, good, s, n, t, ra.st, e.x);
    }
  }

  lemma DupSim(p: Prog, img: Image, good: iset<nat>, s: State, n: nat, t: State, st: Store)
    returns (m: nat, u: State)
    requires Compiled(p, img, good) && 0 <= s.fb < |p| && Framed(p[s.fb], s) && Run(img, s, n) == t
    requires Kept(p[s.fb], s, t) && Rel(p[s.fb], t, st) && |s.stk| < |t.stk|
    requires 0 <= t.pc < |CodeOf(img, s)| && CodeOf(img, s)[t.pc] == Dup
    ensures m == n + 1 && Run(img, s, m) == u && u.pc == t.pc + 1 && |u.stk| == |t.stk| + 1 && Top(u) == Top(t)
    ensures u.stk[..|t.stk|] == t.stk && Kept(p[s.fb], s, u) && Rel(p[s.fb], u, st)
  {
    hide Run;
    Advance(img, s, n, t, Dup);
    m, u := n + 1, Exec1(img, t, Dup);
    Retop(p[s.fb], s, t, u, st);
  }

  /** POPI: the top word goes into the variable. */
  lemma PopSim(p: Prog, img: Image, good: iset<nat>, s: State, n: nat, t: State, st: Store, x: Var)
    returns (m: nat, u: State)
    requires Compiled(p, img, good) && 0 <= s.fb < |p| && Framed(p[s.fb], s) && Run(img, s, n) == t
    requires Kept(p[s.fb], s, t) && Rel(p[s.fb], t, st) && Assignable(p[s.fb], st, x) && |s.stk| < |t.stk|
    requires 0 <= t.pc < |CodeOf(img, s)| && CodeOf(img, s)[t.pc] == PopI(OperandOf(x))
    ensures m == n + 1 && Run(img, s, m) == u && u.pc == t.pc + 1 && |u.stk| == |t.stk| - 1
    ensures Kept(p[s.fb], s, u) && Rel(p[s.fb], u, Update(p[s.fb], st, x, Top(t)))
    ensures forall i {:trigger u.stk[i]} :: |s.stk| <= i < |u.stk| ==> u.stk[i] == t.stk[i]
  {
    hide Run;
    var fn, popped := p[s.fb], Pop(t);
    Advance(img, s, n, t, PopI(OperandOf(x)));
    Retop(fn, s, t, popped, st);
    PopVar(fn, popped, st, x, Top(t));
    m, u := n + 1, Exec1(img, t, PopI(OperandOf(x)));
    KeptTrans(fn, s, popped, u);
  }

  lemma IncDecSim(p: Prog, img: Image, good: iset<nat>, x: Var, incr: bool, post: bool, drop: bool, pc: nat, s: State,
      st: Store, fuel: nat)
    returns (n: nat, t: State)
    requires Ready(p, img, good, s, st, pc)
    requires At(CodeOf(img, s), pc, CIncDec(x, incr, post, drop))
    ensures Run(img, s, n) == t
    ensures ExprPost(img, p[s.fb], s, t, n, fuel, EvalIncDec(p[s.fb], x, incr, post, st), drop,
                     pc + |CIncDec(x, incr, post, drop)|)
  {
    hide Run, At, Rel, Wrap, Kept, CIncDec;
    n, t := 0, s;
    RunNone(img, s);
    if HasValue(p[s.fb], st, x) {
      if drop {
        n, t := BumpOnlySim(p, img, good, x, incr, post, pc, s, st, fuel);
      } else if post {
        n, t := PushBumpSim(p, img, good, x, incr, pc, s, st, fuel);
      } else {
        n, t := BumpPushSim(p, img, good, x, incr, pc, s, st, fuel);
      }
    }
  }

  lemma BumpOnlySim(p: Prog, img: Image, good: iset<nat>, x: Var, incr: bool, post: bool, pc: nat, s: State, st: Store,
      fuel: nat)
    returns (n: nat, t: State)
    requires Ready(p, img, good, s, st, pc) && HasValue(p[s.fb], st, x)
    requires At(CodeOf(img, s), pc, CIncDec(x, incr, post, true))
    ensures Run(img, s, n) == t
    ensures ExprPost(img, p[s.fb], s, t, n, fuel, EvalIncDec(p[s.fb], x, incr, post, st), true,
                     pc + |CIncDec(x, incr, post, true)|)
  {
    hide Run, At, Rel, Wrap, Kept;
    assert CIncDec(x, incr, post, true) == [BumpOf(incr, x)];
    n, t := BumpSim(p, img, good, x, incr, pc, s, st);
  }

  /** The old value is pushed, then the variable changes. */
  lemma PushBumpSim(p: Prog, img: Image, good: iset<nat>, x: Var, incr: bool, pc: nat, s: State, st: Store, fuel: nat)
    returns (n: nat, t: State)
    requires Ready(p, img, good, s, st, pc) && HasValue(p[s.fb], st, x)
    requires At(CodeOf(img, s), pc, CIncDec(x, incr, true, false))
    ensures Run(img, s, n) == t
    ensures ExprPost(img, p[s.fb], s, t, n, fuel, EvalIncDec(p[s.fb], x, incr, true, st), false,
                     pc + |CIncDec(x, incr, true, false)|)
  {
    hide Run, At, Rel, Wrap;
    AtSplit(CodeOf(img, s), pc, [PushI(OperandOf(x))], [BumpOf(incr, x)]);
    n, t := RefSim(p, img, good, x, pc, s, st, fuel);
    var m, u := BumpSim(p, img, good, x, incr, pc + 1, t, st);
    Compose(img, s, n, t, m, u);
    KeptTrans(p[s.fb], s, t, u);
    n, t := n + m, u;
  }

  /** The variable changes, then the new value is pushed. */
  lemma BumpPushSim(p: Prog, img: Image, good: iset<nat>, x: Var, incr: bool, pc: nat, s: State, st: Store, fuel: nat)
    returns (n: nat, t: State)
    requires Ready(p, img, good, s, st, pc) && HasValue(p[s.fb], st, x)
    requires At(CodeOf(img, s), pc, CIncDec(x, incr, false, false))
    ensures Run(img, s, n) == t
    ensures ExprPost(img, p[s.fb], s, t, n, fuel, EvalIncDec(p[s.fb], x, incr, false, st), false,
                     pc + |CIncDec(x, incr, false, false)|)
  {
    hide Run, At, Rel, Wrap;
    var fn := p[s.fb];
    AtSplit(CodeOf(img, s), pc, [BumpOf(incr, x)], [PushI(OperandOf(x))]);
    n, t := BumpSim(p, img, good, x, incr, pc, s, st);
    var w := Wrap(if incr then ValueOf(fn, st, x) + 1 else ValueOf(fn, st, x) - 1);
    var m, u := RefSim(p, img, good, x, pc + 1, t, Update(fn, st, x, w), fuel);
    Compose(img, s, n, t, m, u);
    KeptTrans(fn, s, t, u);
    n, t := n + m, u;
  }

  /** INCI or DECI on a variable: nothing above the frame moves. */
  lemma BumpSim(p: Prog, img: Image, good: iset<nat>, x: Var, incr: bool, pc: nat, s: State, st: Store)
    returns (n: nat, t: State)
    requires Ready(p, img, good, s, st, pc) && HasValue(p[s.fb], st, x)
    requires At(CodeOf(img, s), pc, [BumpOf(incr, x)])
    ensures Run(img, s, n) == t && t.pc == pc + 1 && |t.stk| == |s.stk|
    ensures Kept(p[s.fb], s, t)
    ensures var w := Wrap(if incr then ValueOf(p[s.fb], st, x) + 1 else ValueOf(p[s.fb], st, x) - 1);
            Rel(p[s.fb], t, Update(p[s.fb], st, x, w))
    ensures forall i {:trigger t.stk[i]} :: s.base + p[s.fb].nlocal <= i < |s.stk| ==> t.stk[i] == s.stk[i]
  {
    hide Run, At;
    var i := BumpOf(incr, x);
    RunNone(img, s);
    AtOne(CodeOf(img, s), pc, i);
    Advance(img, s, 0, s, i);
    PushVar(p[s.fb], s, st, x);
    PopVar(p[s.fb], s, st, x, Wrap(if incr then ValueOf(p[s.fb], st, x) + 1 else ValueOf(p[s.fb], st, x) - 1));
    n, t := 1, Exec1(img, s, i);
  }

  lemma {:induction false} CondSim(p: Prog, img: Image, good: iset<nat>, e: Expr, drop: bool, pc: nat, s: State,
      st: Store, fuel: nat, r: Res, gone: bool)
    returns (n: nat, t: State)
    requires Ready(p, img, good, s, st, pc) && e.Cond? && Clean(e.c, good) && Clean(e.e1, good) && Clean(e.e2, good)
    requires At(CodeOf(img, s), pc, CCond(p, e, drop, pc))
    requires r == EvalCond(p, p[s.fb], e, st, fuel) && gone == (drop && Clears(p, p[s.fb], e, st, fuel))
    ensures Run(img, s, n) == t
    ensures ExprPost(img, p[s.fb], s, t, n, fuel, r, gone, pc + |CCond(p, e, drop, pc)|)
    decreases fuel, e, 1
  {
    hide Run, At, CExpr, ExprLen, Eval, Clean, Honours, CStmt, StmtLen, Exec;
    var fn, code := p[s.fb], CodeOf(img, s);
    var la := pc + ExprLen(p, e.c, false) + 1;
    var lb := la + ExprLen(p, e.e1, drop) + 1;
    var end := lb + ExprLen(p, e.e2, drop);
    BranchAt(code, pc, CExpr(p, e.c, false, pc), lb, CExpr(p, e.e1, drop, la), end, CExpr(p, e.e2, drop, lb));
    n, t := ExprSim(p, img, good, e.c, false, pc, s, st, fuel);
    var ra := Eval(p, fn, e.c, st, fuel);
    if ra.Val? {
      var taken := if ra.v != 0 then e.e1 else e.e2;
      n, t := JzSim(p, img, good, s, st, n, t, ra.st, ra.v, lb);
      var m, u := ExprSim(p, img, good, taken, drop, t.pc, t, ra.st, fuel);
      Compose(img, s, n, t, m, u);
      var q := Eval(p, fn, taken, ra.st, fuel);
      if HasResult(q) {
        KeptTrans(fn, s, t, u);
      }
      if HasResult(q) && ra.v != 0 {
        Advance(img, s, n + m, u, Jump(JMP, end));
        n, t := n + m + 1, Goto(u, end);
      } else {
        n, t := n + m, u;
      }
    }
  }

  /** The pieces of a two-way branch. */
  lemma BranchAt(code: seq<Instr>, pc: nat, c: seq<Instr>, other: int, a: seq<Instr>, end: int, b: seq<Instr>)
    requires At(code, pc, BranchCode(c, other, a, end, b))
    ensures At(code, pc, c) && pc + |c| < |code| && code[pc + |c|] == Jump(JZ, other)
    ensures At(code, pc + |c| + 1, a)
    ensures pc + |c| + 1 + |a| < |code| && code[pc + |c| + 1 + |a|] == Jump(JMP, end)
    ensures At(code, pc + |c| + 1 + |a| + 1, b)
  {
    hide At;
    AtSplit(code, pc, c, [Jump(JZ, other)] + (a + ([Jump(JMP, end)] + b)));
    AtHead(code, pc + |c|, Jump(JZ, other), a + ([Jump(JMP, end)] + b));
    AtSplit(code, pc + |c| + 1, a, [Jump(JMP, end)] + b);
    AtHead(code, pc + |c| + 1 + |a|, Jump(JMP, end), b);
  }

  /** JZ after a condition: pops the value and goes on, or to the target. */
  lemma JzSim(p: Prog, img: Image, good: iset<nat>, s: State, st: Store, n: nat, t: State, st': Store, v: int,
      target: int)
    returns (m: nat, u: State)
    requires Ready(p, img, good, s, st, s.pc)
    requires Run(img, s, n) == t && Kept(p[s.fb], s, t) && Rel(p[s.fb], t, st')
    requires |t.stk| == |s.stk| + 1 && Top(t) == v
    requires 0 <= t.pc < |CodeOf(img, s)| && CodeOf(img, s)[t.pc] == Jump(JZ, target)
    ensures m == n + 1 && Run(img, s, m) == u && Kept(p[s.fb], s, u) && Rel(p[s.fb], u, st')
    ensures |u.stk| == |s.stk| && u.pc == if v == 0 then target else t.pc + 1
  {
    hide Run, At;
    Advance(img, s, n, t, Jump(JZ, target));
    m, u := n + 1, Exec1(img, t, Jump(JZ, target));
    Retop(p[s.fb], s, t, u, st');
  }

  lemma {:induction false} LogicSim(p: Prog, img: Image, good: iset<nat>, e: Expr, drop: bool, pc: nat, s: State,
      st: Store, fuel: nat, r: Res, gone: bool)
    returns (n: nat, t: State)
    requires Ready(p, img, good, s, st, pc) && (e.LogOr? || e.LogAnd?) && Clean(e.e1, good) && Clean(e.e2, good)
    requires At(CodeOf(img, s), pc, CLogic(p, e, pc))
    requires r == EvalLogic(p, p[s.fb], e, st, fuel) && gone == false
    ensures Run(img, s, n) == t
    ensures ExprPost(img, p[s.fb], s, t, n, fuel, r, gone, pc + |CLogic(p, e, pc)|)
    decreases fuel, e, 1
  {
    hide Run, At, CExpr, ExprLen, Eval, Clean, Clears, Honours, CStmt, StmtLen, Exec, Rel;
    var fn, code := p[s.fb], CodeOf(img, s);
    var lb := pc + ExprLen(p, e.e1, false) + 1;
    var end := lb + ExprLen(p, e.e2, false);
    var i := Jump(if e.LogOr? then JNZND else JZND, end);
    AtSplit(code, pc, CExpr(p, e.e1, false, pc), [i] + CExpr(p, e.e2, false, lb));
    AtHead(code, lb - 1, i, CExpr(p, e.e2, false, lb));
    n, t := ExprSim(p, img, good, e.e1, false, pc, s, st, fuel);
    var ra := Eval(p, fn, e.e1, st, fuel);
    if ra.Val? {
      Advance(img, s, n, t, i);
      var u := Exec1(img, t, i);
      Retop(fn, s, t, u, ra.st);
      n, t := n + 1, u;
      if (ra.v == 0) == e.LogOr? {
        var m, w := ExprSim(p, img, good, e.e2, false, lb, t, ra.st, fuel);
        Compose(img, s, n, t, m, w);
        if Eval(p, fn, e.e2, ra.st, fuel).Val? {
          KeptTrans(fn, s, t, w);
        }
        n, t := n + m, w;
      }
    }
  }

  lemma {:induction false} CommaSim(p: Prog, img: Image, good: iset<nat>, e: Expr, drop: bool, pc: nat, s: State,
      st: Store, fuel: nat, r: Res, gone: bool)
    returns (n: nat, t: State)
    requires Ready(p, img, good, s, st, pc) && e.Comma? && Clean(e.e1, good) && Honours(e.e1) && Clean(e.e2, good)
    requires At(CodeOf(img, s), pc, CComma(p, e, drop, pc))
    requires r == EvalComma(p, p[s.fb], e, st, fuel) && gone == (drop && Clears(p, p[s.fb], e, st, fuel))
    ensures Run(img, s, n) == t
    ensures ExprPost(img, p[s.fb], s, t, n, fuel, r, gone, pc + |CComma(p, e, drop, pc)|)
    decreases fuel, e, 1
  {
    hide Run, At, CExpr, ExprLen, Eval, Clean, Honours, CStmt, StmtLen, Exec, Rel;
    var fn := p[s.fb];
    var pb := pc + ExprLen(p, e.e1, true);
    AtSplit(CodeOf(img, s), pc, CExpr(p, e.e1, true, pc), CExpr(p, e.e2, drop, pb));
    n, t := ExprSim(p, img, good, e.e1, true, pc, s, st, fuel);
    var ra := Eval(p, fn, e.e1, st, fuel);
    if HasResult(ra) {
      HonoursClears(p, fn, e.e1, st, fuel);
      var m, u := ExprSim(p, img, good, e.e2, drop, pb, t, ra.st, fuel);
      Compose(img, s, n, t, m, u);
      if HasResult(Eval(p, fn, e.e2, ra.st, fuel)) {
        KeptTrans(fn, s, t, u);
      }
      n, t := n + m, u;
    }
  }

  // ----- calls -----

  lemma {:induction false} ArgsSim(p: Prog, img: Image, good: iset<nat>, args: seq<Expr>, pc: nat, s: State, st: Store,
      fuel: nat)
    returns (n: nat, t: State)
    requires Ready(p, img, good, s, st, pc) && CleanArgs(args, good)
    requires At(CodeOf(img, s), pc, CArgs(p, args, pc))
    ensures Run(img, s, n) == t
    ensures ArgsPost(img, p[s.fb], s, t, n, fuel, EvalArgs(p, p[s.fb], args, st, fuel), pc + |CArgs(p, args, pc)|)
    decreases fuel, args, 2
  {
    hide Run, At, CExpr, ExprLen, Eval, Clean, Clears;
    n, t := 0, s;
    RunNone(img, s);
    if args != [] {
      var k := |args| - 1;
      var fn := p[s.fb];
      var pa := pc + ExprLen(p, args[k], false);
      AtSplit(CodeOf(img, s), pc, CExpr(p, args[k], false, pc), CArgs(p, args[..k], pa));
      n, t := ExprSim(p, img, good, args[k], false, pc, s, st, fuel);
      var last := Eval(p, fn, args[k], st, fuel);
      if last.Val? {
        var m, u := ArgsSim(p, img, good, args[..k], pa, t, last.st, fuel);
        Compose(img, s, n, t, m, u);
        if EvalArgs(p, fn, args[..k], last.st, fuel).Vals? {
          KeptTrans(fn, s, t, u);
          assert u.stk[|t.stk| - 1] == t.stk[|t.stk| - 1];
        }
        n, t := n + m, u;
      }
    }
  }

  /** The caller's words below its arguments are the caller's again, with the result on top. */
  predicate CallPost(img: Image, s: State, t: State, n: nat, fuel: nat, r: Res, cut: nat)
    requires cut <= |s.stk|
  {
    match r
    case Val(v, st) => BackIn(s, t, s.stk[..cut] + [v], st.glob)
    case NoVal(st) => BackIn(s, t, s.stk[..cut], st.glob)
    case Fault => t.trap
    case Undef => true
    case Timeout => n >= fuel && !Halted(img, t)
  }

  predicate BackIn(s: State, t: State, stk: seq<int>, glob: seq<int>) {
    !t.trap && t.pc == s.pc + 1 && t.fb == s.fb && t.base == s.base && t.fs == s.fs && t.stk == stk && t.glob == glob
  }

  /** From a CALL, with the arguments on top of the stack, to just after it. */
  lemma {:induction false} BodySim(p: Prog, img: Image, good: iset<nat>, f: nat, vs: seq<int>, s: State, st: Store,
      fuel: nat)
    returns (n: nat, t: State)
    requires Compiled(p, img, good) && f < |p| && f in good && |vs| == p[f].nargs <= |s.stk| && s.glob == st.glob
             && !s.trap
    requires forall d {:trigger vs[d]} :: 0 <= d < |vs| ==> s.stk[|s.stk| - 1 - d] == vs[d]
    ensures Run(img, Enter(img, s, f), n) == t
    ensures CallPost(img, s, t, n, fuel, CallResult(p[f].isVoid, st, Body(p, f, vs, st.glob, fuel)), |s.stk| - |vs|)
    decreases fuel, Embrace(p[f].body), 7
  {
    hide Run, At, CStmt, StmtLen, Exec;
    var fn, u, len := p[f], Enter(img, s, f), StmtLen(p, p[f].body);
    var l := NOWHERE.(ret := len);
    var st0 := Store(st.glob, ArgMap(vs));
    assert Unit(p, img, good, f);
    AtWhole(BodyCode(p, fn), [RetOf(fn.isVoid), End]);
    n, t := StmtSim(p, img, good, fn.body, 0, false, l, l, u, st0, fuel);
    var o := Exec(p, fn, fn.body, st0, fuel);
    if CallResult(fn.isVoid, st, o).Val? || CallResult(fn.isVoid, st, o).NoVal? {
      n, t := LeaveSim(p, img, f, s, n, t, |vs|);
    }
  }

  lemma AtWhole(a: seq<Instr>, b: seq<Instr>)
    ensures At(a + b, 0, a) && At(a + b, |a|, b)
  {
    assert (a + b)[0..|a|] == a;
    assert (a + b)[|a|..|a| + |b|] == b;
  }

  /** RETx: the frame goes, and with it every word the callee left; the caller's words are untouched. */
  lemma RetSim(p: Prog, img: Image, f: nat, s: State, n: nat, t: State, k: nat)
    returns (m: nat, w: State)
    requires |img| == |p| && f < |p| && img[f].nargs == p[f].nargs && img[f].nlocal == p[f].nlocal
             && k == p[f].nargs <= |s.stk|
    requires Run(img, Enter(img, s, f), n) == t && Kept(p[f], Enter(img, s, f), t)
    requires 0 <= t.pc < |img[f].code| && img[f].code[t.pc] == RetOf(p[f].isVoid) && (!p[f].isVoid ==> t.stk != [])
    ensures m == n + 1 && Run(img, Enter(img, s, f), m) == w
    ensures BackIn(s, w, s.stk[..|s.stk| - k] + (if p[f].isVoid then [] else [Top(t)]), t.glob)
  {
    hide Run;
    var u, fn := Enter(img, s, f), p[f];
    Advance(img, u, n, t, RetOf(fn.isVoid));
    m, w := n + 1, Exec1(img, t, RetOf(fn.isVoid));
    assert t.stk[..|s.stk| - k] == s.stk[..|s.stk| - k] by {
      forall i | 0 <= i < |s.stk| - k
        ensures t.stk[i] == s.stk[i]
      {
        assert t.stk[i] == u.stk[i];
      }
    }
  }

  /** The RETx that follows a body. */
  lemma LeaveSim(p: Prog, img: Image, f: nat, s: State, n: nat, t: State, k: nat)
    returns (m: nat, w: State)
    requires |img| == |p| && f < |p| && img[f] == PlainBlock(p, p[f]) && k == p[f].nargs <= |s.stk|
    requires Run(img, Enter(img, s, f), n) == t && Kept(p[f], Enter(img, s, f), t)
    requires t.pc == StmtLen(p, p[f].body) && (!p[f].isVoid ==> t.stk != [])
    ensures m == n + 1 && Run(img, Enter(img, s, f), m) == w
    ensures BackIn(s, w, s.stk[..|s.stk| - k] + (if p[f].isVoid then [] else [Top(t)]), t.glob)
  {
    hide Run, CStmt, StmtLen, Kept, BackIn;
    var fn := p[f];
    AtWhole(BodyCode(p, fn), [RetOf(fn.isVoid)] + [End]);
    assert [RetOf(fn.isVoid)] + [End] == [RetOf(fn.isVoid), End];
    AtHead(img[f].code, t.pc, RetOf(fn.isVoid), [End]);
    m, w := RetSim(p, img, f, s, n, t, k);
  }

  /** Back from a call made on top of the caller's own words. */
  lemma CallerKept(fn: Fun, s: State, t: State, u: State, st: Store, glob: seq<int>, result: seq<int>)
    requires Framed(fn, s) && Kept(fn, s, t) && Rel(fn, t, st)
    requires BackIn(t, u, t.stk[..|s.stk|] + result, glob)
    ensures Kept(fn, s, u) && Rel(fn, u, st.(glob := glob)) && |u.stk| == |s.stk| + |result|
  {
    Retop(fn, s, t, u.(glob := t.glob), st);
  }

  lemma {:induction false} CallSim(p: Prog, img: Image, good: iset<nat>, e: Expr, drop: bool, pc: nat, s: State,
      st: Store, fuel: nat, r: Res, gone: bool)
    returns (n: nat, t: State)
    requires Ready(p, img, good, s, st, pc) && e.CallE? && e.f in good && CleanArgs(e.args, good)
    requires At(CodeOf(img, s), pc, CCall(p, e, drop, pc))
    requires r == EvalCall(p, p[s.fb], e, st, fuel) && gone == drop
    ensures Run(img, s, n) == t
    ensures ExprPost(img, p[s.fb], s, t, n, fuel, r, gone, pc + |CCall(p, e, drop, pc)|)
    decreases fuel, e, 1
  {
    hide Run, At, CArgs, ArgsLen, EvalArgs, CleanArgs, Body, Rel;
    var fn, code, f := p[s.fb], CodeOf(img, s), e.f;
    var pa := pc + |CArgs(p, e.args, pc)|;
    AtSplit(code, pc, CArgs(p, e.args, pc), [Call(f)] + DropIf(p, f, drop));
    AtHead(code, pa, Call(f), DropIf(p, f, drop));
    n, t := ArgsSim(p, img, good, e.args, pc, s, st, fuel);
    var ra := EvalArgs(p, fn, e.args, st, fuel);
    if ra.Vals? && f < |p| && |e.args| == p[f].nargs {
      Advance(img, s, n, t, Call(f));
      if fuel == 0 {
        n, t := n + 1, Enter(img, t, f);
      } else {
        GlobalsAgree(fn, t, ra.st);
        var m, u := BodySim(p, img, good, f, ra.vs, t, ra.st, fuel - 1);
        Compose(img, s, n + 1, Enter(img, t, f), m, u);
        if HasResult(r) {
          CallerKept(fn, s, t, u, ra.st, r.st.glob, if r.Val? then [r.v] else []);
        }
        n, t := n + 1 + m, u;
        if r.Val? && drop {
          AtOne(code, t.pc, Drop);
          n, t := DropTopSim(p, img, good, s, n, t, r.st);
        }
      }
    }
  }

  lemma DropTopSim(p: Prog, img: Image, good: iset<nat>, s: State, n: nat, t: State, st: Store)
    returns (m: nat, u: State)
    requires Compiled(p, img, good) && 0 <= s.fb < |p| && Framed(p[s.fb], s) && Run(img, s, n) == t
    requires Kept(p[s.fb], s, t) && Rel(p[s.fb], t, st) && |t.stk| == |s.stk| + 1
    requires 0 <= t.pc < |CodeOf(img, s)| && CodeOf(img, s)[t.pc] == Drop
    ensures m == n + 1 && Run(img, s, m) == u && u.pc == t.pc + 1 && |u.stk| == |s.stk|
    ensures Kept(p[s.fb], s, u) && Rel(p[s.fb], u, st)
  {
    hide Run;
    Advance(img, s, n, t, Drop);
    m, u := n + 1, Exec1(img, t, Drop);
    Retop(p[s.fb], s, t, u, st);
  }

  // ----- statements -----

  /** Code and meaning of a statement, form by form. */
  lemma Forms(p: Prog, x: Stmt, pc: nat, l: Labels, fn: Fun, st: Store, fuel: nat)
    ensures |CStmt(p, x, pc, false, l)| == StmtLen(p, x)
    ensures x.If? ==> CStmt(p, x, pc, false, l) == CIf(p, x, pc, false, l)
    ensures x.IfElse? ==> CStmt(p, x, pc, false, l) == CIfElse(p, x, pc, false, l)
    ensures x.If? || x.IfElse? ==> Exec(p, fn, x, st, fuel) == ExecIf(p, fn, x, st, fuel)
    ensures x.While? ==> CStmt(p, x, pc, false, l) == CWhile(p, x, pc, l)
                         && Exec(p, fn, x, st, fuel) == LoopWhile(p, fn, x, st, fuel)
    ensures x.DoWhile? ==> CStmt(p, x, pc, false, l) == CDoWhile(p, x, pc, l)
                           && Exec(p, fn, x, st, fuel) == LoopDo(p, fn, x, st, fuel)
    ensures x.For? ==> CStmt(p, x, pc, false, l) == CFor(p, x, pc, false, l)
                       && Exec(p, fn, x, st, fuel) == ExecFor(p, fn, x, st, fuel)
    ensures x.Switch? ==> CStmt(p, x, pc, false, l) == CSwitch(p, x, pc, false, l)
                          && Exec(p, fn, x, st, fuel) == ExecSwitch(p, fn, x, st, fuel)
    ensures x.Return? ==> Exec(p, fn, x, st, fuel) == ExecReturn(p, fn, x, st, fuel)
  {
    hide CIf, CIfElse, CWhile, CDoWhile, CFor, CSwitch, ExecIf, LoopWhile, LoopDo, ExecFor, ExecSwitch, ExecReturn,
         StmtLen, ExprLen, CExpr;
  }

  /** Any bound statement, whatever the flag and the labels it was compiled with: breaks and continues that leave it
      land where the labels m say. */
  lemma {:induction false} StmtSim(p: Prog, img: Image, good: iset<nat>, x: Stmt, pc: nat, il: bool, l: Labels,
      m: Labels, s: State, st: Store, fuel: nat)
    returns (n: nat, t: State)
    requires Ready(p, img, good, s, st, pc) && CleanS(x, good) && Bound(p, x, pc, il, l, m.brk, m.cnt) && l.ret == m.ret
    requires At(CodeOf(img, s), pc, CStmt(p, x, pc, il, l))
    ensures Run(img, s, n) == t
    ensures OutPost(img, p[s.fb], s, t, n, fuel, Exec(p, p[s.fb], x, st, fuel), Tidy(x), pc + StmtLen(p, x), m)
    decreases fuel, Embrace(x), 6
  {
    hide Run, At, Rel, Compiled, StmtLen, CleanS, Tidy, OutPost, CStmt, Exec, Bound, Embrace, Braced;
    BoundExactly(p, x, pc, il, l, m);
    EmbraceLen(p, x);
    EmbraceStatic(x, good);
    EmbraceMeans(p, p[s.fb], x, st, fuel);
    n, t := BracedSim(p, img, good, Embrace(x), pc, m, s, st, fuel);
  }

  /** The same for statements that have braces where they need them. */
  lemma {:induction false} BracedSim(p: Prog, img: Image, good: iset<nat>, x: Stmt, pc: nat, l: Labels, s: State,
      st: Store, fuel: nat)
    returns (n: nat, t: State)
    requires Ready(p, img, good, s, st, pc) && CleanS(x, good) && Braced(x)
    requires At(CodeOf(img, s), pc, CStmt(p, x, pc, false, l))
    ensures Run(img, s, n) == t
    ensures OutPost(img, p[s.fb], s, t, n, fuel, Exec(p, p[s.fb], x, st, fuel), Tidy(x), pc + StmtLen(p, x), l)
    decreases fuel, x, 5
  {
    hide Run, At, Rel, Kept, StmtLen, CleanS, Braced, Tidy, OutPost, CStmt, Exec, CIf, CIfElse, CWhile, CDoWhile, CFor,
         CSwitch, ExecIf, LoopWhile, LoopDo, ExecFor, ExecSwitch, ExecReturn, Compiled;
    Forms(p, x, pc, l, p[s.fb], st, fuel);
    if x.If? || x.IfElse? || x.Switch? {
      n, t := BranchingSim(p, img, good, x, pc, l, s, st, fuel);
    } else if x.While? || x.DoWhile? || x.For? {
      n, t := LoopingSim(p, img, good, x, pc, l, s, st, fuel);
    } else if x.Seq? {
      n, t := SeqSim(p, img, good, x, pc, l, s, st, fuel);
    } else if x.Return? {
      n, t := ReturnSim(p, img, good, x, pc, l, s, st, fuel);
    } else {
      n, t := PlainSim(p, img, good, x, pc, l, s, st, fuel);
    }
  }

  lemma {:induction false} BranchingSim(p: Prog, img: Image, good: iset<nat>, x: Stmt, pc: nat, l: Labels, s: State,
      st: Store, fuel: nat)
    returns (n: nat, t: State)
    requires Ready(p, img, good, s, st, pc) && CleanS(x, good) && Braced(x) && (x.If? || x.IfElse? || x.Switch?)
    requires At(CodeOf(img, s), pc, CStmt(p, x, pc, false, l))
    ensures Run(img, s, n) == t
    ensures OutPost(img, p[s.fb], s, t, n, fuel, Exec(p, p[s.fb], x, st, fuel), Tidy(x), pc + StmtLen(p, x), l)
    decreases fuel, x, 4
  {
    hide Run, At, Rel, Kept, StmtLen, CleanS, Braced, Tidy, OutPost, CStmt, Exec, CIf, CIfElse, CWhile, CDoWhile, CFor,
         CSwitch, ExecIf, LoopWhile, LoopDo, ExecFor, ExecSwitch, ExecReturn, Compiled;
    Forms(p, x, pc, l, p[s.fb], st, fuel);
    if x.If? {
      n, t := IfSim(p, img, good, x, pc, l, s, st, fuel);
    } else if x.IfElse? {
      n, t := IfElseSim(p, img, good, x, pc, l, s, st, fuel);
    } else {
      n, t := SwitchSim(p, img, good, x, pc, l, s, st, fuel);
    }
  }

  lemma {:induction false} LoopingSim(p: Prog, img: Image, good: iset<nat>, x: Stmt, pc: nat, l: Labels, s: State,
      st: Store, fuel: nat)
    returns (n: nat, t: State)
    requires Ready(p, img, good, s, st, pc) && CleanS(x, good) && Braced(x) && (x.While? || x.DoWhile? || x.For?)
    requires At(CodeOf(img, s), pc, CStmt(p, x, pc, false, l))
    ensures Run(img, s, n) == t
    ensures OutPost(img, p[s.fb], s, t, n, fuel, Exec(p, p[s.fb], x, st, fuel), Tidy(x), pc + StmtLen(p, x), l)
    decreases fuel, x, 4
  {
    hide Run, At, Rel, Kept, StmtLen, CleanS, Braced, Tidy, OutPost, CStmt, Exec, CIf, CIfElse, CWhile, CDoWhile, CFor,
         CSwitch, ExecIf, LoopWhile, LoopDo, ExecFor, ExecSwitch, ExecReturn, Compiled;
    Forms(p, x, pc, l, p[s.fb], st, fuel);
    if x.While? {
      n, t := WhileSim(p, img, good, x, pc, l, s, st, fuel);
    } else if x.DoWhile? {
      n, t := DoSim(p, img, good, x, pc, l, s, st, fuel);
    } else {
      n, t := ForSim(p, img, good, x, pc, l, s, st, fuel);
    }
  }

  lemma {:induction false} PlainSim(p: Prog, img: Image, good: iset<nat>, x: Stmt, pc: nat, l: Labels, s: State,
      st: Store, fuel: nat)
    returns (n: nat, t: State)
    requires Ready(p, img, good, s, st, pc) && (x.Empty? || x.ExprS? || x.Block? || x.Break? || x.Continue?)
             && CleanS(x, good) && Braced(x)
    requires At(CodeOf(img, s), pc, CStmt(p, x, pc, false, l))
    ensures Run(img, s, n) == t
    ensures OutPost(img, p[s.fb], s, t, n, fuel, Exec(p, p[s.fb], x, st, fuel), Tidy(x),
                    pc + |CStmt(p, x, pc, false, l)|, l)
    decreases fuel, x, 2
  {
    hide Run, At, Rel, Kept;
    if x.Empty? {
      n, t := StandStill(p, img, good, pc, s, st, fuel, l);
    } else if x.ExprS? {
      n, t := DropSim(p, img, good, x.e, pc, s, st, fuel, l);
    } else if x.Block? {
      n, t := BracedSim(p, img, good, x.s, pc, l, s, st, fuel);
    } else {
      n, t := JumpSim(p, img, good, pc, if x.Break? then l.brk else l.cnt, s, st);
    }
  }

  lemma StandStill(p: Prog, img: Image, good: iset<nat>, pc: nat, s: State, st: Store, fuel: nat, l: Labels)
    returns (n: nat, t: State)
    requires Ready(p, img, good, s, st, pc)
    ensures n == 0 && t == s && Run(img, s, n) == t
    ensures OutPost(img, p[s.fb], s, t, n, fuel, Normal(st), true, pc, l)
  {
    n, t := 0, s;
    RunNone(img, s);
  }

  /** An expression compiled with DROP_VALUE as a statement of its own. */
  lemma DropSim(p: Prog, img: Image, good: iset<nat>, e: Expr, pc: nat, s: State, st: Store, fuel: nat, l: Labels)
    returns (n: nat, t: State)
    requires Ready(p, img, good, s, st, pc) && Clean(e, good)
    requires At(CodeOf(img, s), pc, CExpr(p, e, true, pc))
    ensures Run(img, s, n) == t
    ensures OutPost(img, p[s.fb], s, t, n, fuel, OutOf(Eval(p, p[s.fb], e, st, fuel)), Honours(e),
                    pc + |CExpr(p, e, true, pc)|, l)
    decreases fuel, e, 3
  {
    hide Run, At, CExpr, ExprLen, Eval, Clean, Clears, Honours;
    n, t := ExprSim(p, img, good, e, true, pc, s, st, fuel);
    if Honours(e) && HasResult(Eval(p, p[s.fb], e, st, fuel)) {
      HonoursClears(p, p[s.fb], e, st, fuel);
    }
  }

  lemma OptSim(p: Prog, img: Image, good: iset<nat>, e: Option<Expr>, pc: nat, s: State, st: Store, fuel: nat,
      l: Labels)
    returns (n: nat, t: State)
    requires Ready(p, img, good, s, st, pc) && CleanOpt(e, good)
    requires At(CodeOf(img, s), pc, COpt(p, e, pc))
    ensures Run(img, s, n) == t
    ensures OutPost(img, p[s.fb], s, t, n, fuel, EvalOpt(p, p[s.fb], e, st, fuel), e.Some? ==> Honours(e.value),
                    pc + |COpt(p, e, pc)|, l)
    decreases fuel, e, 4
  {
    hide Run, At, CExpr, ExprLen, Eval, Clean, Clears, Honours;
    if e.Some? {
      n, t := DropSim(p, img, good, e.value, pc, s, st, fuel, l);
    } else {
      n, t := StandStill(p, img, good, pc, s, st, fuel, l);
    }
  }

  lemma JumpSim(p: Prog, img: Image, good: iset<nat>, pc: nat, target: int, s: State, st: Store)
    returns (n: nat, t: State)
    requires Ready(p, img, good, s, st, pc)
    requires At(CodeOf(img, s), pc, [Jump(JMP, target)])
    ensures Run(img, s, n) == t && n == 1 && Landed(p[s.fb], s, t, st, true, target)
  {
    hide Run, At;
    RunNone(img, s);
    AtOne(CodeOf(img, s), pc, Jump(JMP, target));
    Advance(img, s, 0, s, Jump(JMP, target));
    n, t := 1, Goto(s, target);
  }

  /** What a statement does after a run that kept the frame is what it does from the start. */
  lemma OutTrans(img: Image, fn: Fun, s: State, t: State, st: Store, u: State, n: nat, fuel: nat, o: Out,
      tidy0: bool, tidy: bool, pcEnd: int, l: Labels, m: nat, l': Labels)
    requires Framed(fn, s)
    requires Kept(fn, s, t) && (tidy0 ==> |t.stk| == |s.stk|)
    requires OutPost(img, fn, t, u, n, fuel, o, tidy, pcEnd, l) && n <= m
    requires (o.Brk? ==> l'.brk == l.brk) && (o.Cnt? ==> l'.cnt == l.cnt) && l'.ret == l.ret
    ensures OutPost(img, fn, s, u, m, fuel, o, tidy0 && tidy, pcEnd, l')
  {
    hide Rel;
    if !(o.OFault? || o.OUndef? || o.OTimeout?) {
      KeptTrans(fn, s, t, u);
    }
  }

  lemma {:induction false} SeqParts(p: Prog, good: iset<nat>, x: Stmt, pc: nat, l: Labels, fn: Fun, st: Store,
      fuel: nat)
    requires x.Seq?
    ensures CStmt(p, x, pc, false, l)
            == CStmt(p, x.s1, pc, false, l) + CStmt(p, x.s2, pc + StmtLen(p, x.s1), false, l)
    ensures |CStmt(p, x, pc, false, l)| == StmtLen(p, x.s1) + StmtLen(p, x.s2)
    ensures Exec(p, fn, x, st, fuel)
            == (var o := Exec(p, fn, x.s1, st, fuel); if o.Normal? then Exec(p, fn, x.s2, o.st, fuel) else o)
    ensures CleanS(x, good) == (CleanS(x.s1, good) && CleanS(x.s2, good))
    ensures Braced(x) == (Braced(x.s1) && Braced(x.s2)) && Tidy(x) == (Tidy(x.s1) && Tidy(x.s2))
  {
    hide StmtLen;
  }

  lemma {:induction false} SeqSim(p: Prog, img: Image, good: iset<nat>, x: Stmt, pc: nat, l: Labels, s: State,
      st: Store, fuel: nat)
    returns (n: nat, t: State)
    requires Ready(p, img, good, s, st, pc) && x.Seq? && CleanS(x, good) && Braced(x)
    requires At(CodeOf(img, s), pc, CStmt(p, x, pc, false, l))
    ensures Run(img, s, n) == t
    ensures OutPost(img, p[s.fb], s, t, n, fuel, Exec(p, p[s.fb], x, st, fuel), Tidy(x),
                    pc + |CStmt(p, x, pc, false, l)|, l)
    decreases fuel, x, 2
  {
    hide Run, At, CStmt, StmtLen, Exec, CleanS, Braced, Tidy, LoopFlag;
    SeqParts(p, good, x, pc, l, p[s.fb], st, fuel);
    var fn, pb := p[s.fb], pc + StmtLen(p, x.s1);
    AtSplit(CodeOf(img, s), pc, CStmt(p, x.s1, pc, false, l), CStmt(p, x.s2, pb, false, l));
    n, t := BracedSim(p, img, good, x.s1, pc, l, s, st, fuel);
    var o := Exec(p, fn, x.s1, st, fuel);
    if o.Normal? {
      var m, u := BracedSim(p, img, good, x.s2, pb, l, t, o.st, fuel);
      Compose(img, s, n, t, m, u);
      OutTrans(img, fn, s, t, o.st, u, m, fuel, Exec(p, fn, x.s2, o.st, fuel), Tidy(x.s1), Tidy(x.s2),
               pb + StmtLen(p, x.s2), l, n + m, l);
      n, t := n + m, u;
    }
  }

  /** A condition and the JZ after it. */
  lemma {:induction false} TestSim(p: Prog, img: Image, good: iset<nat>, c: Expr, pc: nat, other: int, s: State,
      st: Store, fuel: nat)
    returns (n: nat, t: State)
    requires Ready(p, img, good, s, st, pc) && Clean(c, good)
    requires At(CodeOf(img, s), pc, CExpr(p, c, false, pc))
    requires pc + ExprLen(p, c, false) < |CodeOf(img, s)|
             && CodeOf(img, s)[pc + ExprLen(p, c, false)] == Jump(JZ, other)
    ensures Run(img, s, n) == t
    ensures var r := NeedVal(Eval(p, p[s.fb], c, st, fuel));
            if r.Val? then
              Landed(p[s.fb], s, t, r.st, true, if r.v == 0 then other else pc + ExprLen(p, c, false) + 1)
            else
              forall tidy, pcEnd, l {:trigger OutPost(img, p[s.fb], s, t, n, fuel, OutOf(r), tidy, pcEnd, l)} ::
                OutPost(img, p[s.fb], s, t, n, fuel, OutOf(r), tidy, pcEnd, l)
    ensures Eval(p, p[s.fb], c, st, fuel).Val? ==> n > 0
    decreases fuel, c, 3
  {
    hide Run, At, CExpr, ExprLen, Eval, Clean, Clears, Honours;
    n, t := ExprSim(p, img, good, c, false, pc, s, st, fuel);
    var r := Eval(p, p[s.fb], c, st, fuel);
    if r.Val? {
      n, t := JzSim(p, img, good, s, st, n, t, r.st, r.v, other);
    }
  }

  lemma {:induction false} IfSim(p: Prog, img: Image, good: iset<nat>, x: Stmt, pc: nat, l: Labels, s: State,
      st: Store, fuel: nat)
    returns (n: nat, t: State)
    requires Ready(p, img, good, s, st, pc) && x.If? && CleanS(x, good) && Braced(x)
    requires At(CodeOf(img, s), pc, CIf(p, x, pc, false, l))
    ensures Run(img, s, n) == t
    ensures OutPost(img, p[s.fb], s, t, n, fuel, ExecIf(p, p[s.fb], x, st, fuel), Tidy(x),
                    pc + |CIf(p, x, pc, false, l)|, l)
    decreases fuel, x, 2
  {
    hide Run, At, CExpr, ExprLen, Eval, Clean, Rel, Kept, StmtLen, Exec;
    var fn, code := p[s.fb], CodeOf(img, s);
    var pa := pc + ExprLen(p, x.c, false) + 1;
    var end := pa + StmtLen(p, x.s1);
    var la := l.(tos := end);
    AtSplit(code, pc, CExpr(p, x.c, false, pc), [Jump(JZ, end)] + CStmt(p, x.s1, pa, false, la));
    AtHead(code, pa - 1, Jump(JZ, end), CStmt(p, x.s1, pa, false, la));
    n, t := TestSim(p, img, good, x.c, pc, end, s, st, fuel);
    var r := Eval(p, fn, x.c, st, fuel);
    if r.Val? && r.v != 0 {
      n, t := ThenSim(p, img, good, x.s1, pa, la, s, n, t, r.st, fuel, true, l);
    }
  }

  /** A statement run after a part that kept the frame. */
  lemma {:induction false} ThenSim(p: Prog, img: Image, good: iset<nat>, x: Stmt, pc: nat, lx: Labels, s: State,
      n: nat, t: State, st: Store, fuel: nat, tidy0: bool, l: Labels)
    returns (m: nat, u: State)
    requires 0 <= s.fb < |p| && Framed(p[s.fb], s)
    requires Compiled(p, img, good) && CleanS(x, good) && Braced(x) && Run(img, s, n) == t
    requires Landed(p[s.fb], s, t, st, tidy0, pc)
    requires At(CodeOf(img, s), pc, CStmt(p, x, pc, false, lx))
    requires lx.(tos := l.tos) == l
    ensures Run(img, s, m) == u && m >= n
    ensures OutPost(img, p[s.fb], s, u, m, fuel, Exec(p, p[s.fb], x, st, fuel), tidy0 && Tidy(x),
                    pc + StmtLen(p, x), l)
    decreases fuel, x, 6
  {
    hide Run, At, CStmt, StmtLen, Exec, CleanS, Braced, Tidy;
    var k;
    k, u := BracedSim(p, img, good, x, pc, lx, t, st, fuel);
    Compose(img, s, n, t, k, u);
    m := n + k;
    OutTrans(img, p[s.fb], s, t, st, u, k, fuel, Exec(p, p[s.fb], x, st, fuel), tidy0, Tidy(x),
             pc + StmtLen(p, x), lx, m, l);
  }

  lemma {:induction false} IfElseSim(p: Prog, img: Image, good: iset<nat>, x: Stmt, pc: nat, l: Labels, s: State,
      st: Store, fuel: nat)
    returns (n: nat, t: State)
    requires Ready(p, img, good, s, st, pc) && x.IfElse? && CleanS(x, good) && Braced(x)
    requires At(CodeOf(img, s), pc, CIfElse(p, x, pc, false, l))
    ensures Run(img, s, n) == t
    ensures OutPost(img, p[s.fb], s, t, n, fuel, ExecIf(p, p[s.fb], x, st, fuel), Tidy(x),
                    pc + |CIfElse(p, x, pc, false, l)|, l)
    decreases fuel, x, 2
  {
    hide Run, At, CExpr, ExprLen, Eval, Clean, Rel, StmtLen, Exec, LoopFlag, CStmt;
    var fn, code := p[s.fb], CodeOf(img, s);
    var pa := pc + ExprLen(p, x.c, false) + 1;
    var pb := pa + StmtLen(p, x.s1) + 1;
    var end := pb + StmtLen(p, x.s2);
    var la, lb := l.(tos := pb), l.(tos := end);
    BranchAt(code, pc, CExpr(p, x.c, false, pc), pb, CStmt(p, x.s1, pa, false, la), end,
             CStmt(p, x.s2, pb, false, lb));
    n, t := TestSim(p, img, good, x.c, pc, pb, s, st, fuel);
    var r := Eval(p, fn, x.c, st, fuel);
    if r.Val? && r.v != 0 {
      n, t := ThenSim(p, img, good, x.s1, pa, la, s, n, t, r.st, fuel, true, l);
      var o := Exec(p, fn, x.s1, r.st, fuel);
      if o.Normal? {
        n, t := HopSim(p, img, good, s, n, t, o.st, Tidy(x.s1), pb - 1, end);
      }
    } else if r.Val? {
      n, t := ThenSim(p, img, good, x.s2, pb, lb, s, n, t, r.st, fuel, true, l);
    }
  }

  /** An unconditional jump after a part that kept the frame. */
  lemma HopSim(p: Prog, img: Image, good: iset<nat>, s: State, n: nat, t: State, st: Store, tidy: bool, pc: int,
      target: int)
    returns (m: nat, u: State)
    requires 0 <= s.fb < |p| && Framed(p[s.fb], s)
    requires Compiled(p, img, good) && Run(img, s, n) == t && Landed(p[s.fb], s, t, st, tidy, pc)
    requires 0 <= pc < |CodeOf(img, s)| && CodeOf(img, s)[pc] == Jump(JMP, target)
    ensures m == n + 1 && Run(img, s, m) == u && Landed(p[s.fb], s, u, st, tidy, target)
  {
    hide Run;
    Advance(img, s, n, t, Jump(JMP, target));
    m, u := n + 1, Goto(t, target);
  }

  lemma LoopAt(code: seq<Instr>, pc: nat, c: seq<Instr>, end: int, body: seq<Instr>, inc: seq<Instr>, top: int)
    requires At(code, pc, LoopCode(c, end, body, inc, top))
    ensures At(code, pc, c) && pc + |c| < |code| && code[pc + |c|] == Jump(JZ, end)
    ensures At(code, pc + |c| + 1, body) && At(code, pc + |c| + 1 + |body|, inc)
    ensures pc + |c| + 1 + |body| + |inc| < |code| && code[pc + |c| + 1 + |body| + |inc|] == Jump(JMP, top)
  {
    hide At;
    AtSplit(code, pc, c, [Jump(JZ, end)] + (body + (inc + [Jump(JMP, top)])));
    AtHead(code, pc + |c|, Jump(JZ, end), body + (inc + [Jump(JMP, top)]));
    AtSplit(code, pc + |c| + 1, body, inc + [Jump(JMP, top)]);
    AtSplit(code, pc + |c| + 1 + |body|, inc, [Jump(JMP, top)]);
    AtOne(code, pc + |c| + 1 + |body| + |inc|, Jump(JMP, top));
  }

  /** A loop body: break leaves the loop, continue goes to the end of the body. */
  lemma {:induction false} LoopBodySim(p: Prog, img: Image, good: iset<nat>, b: Stmt, pc: nat, end: int, l: Labels,
      s: State, n: nat, t: State, st: Store, fuel: nat)
    returns (m: nat, u: State)
    requires 0 <= s.fb < |p| && Framed(p[s.fb], s)
    requires Compiled(p, img, good) && CleanS(b, good) && BracedBody(b) && Run(img, s, n) == t
    requires Landed(p[s.fb], s, t, st, true, pc)
    requires At(CodeOf(img, s), pc, CStmt(p, b, pc, true, l.(tos := end)))
    ensures Run(img, s, m) == u && m >= n
    ensures OutPost(img, p[s.fb], s, u, m, fuel, Exec(p, p[s.fb], b, st, fuel), Tidy(b), pc + StmtLen(p, b),
                    l.(brk := end, cnt := pc + StmtLen(p, b)))
    decreases fuel, b, 7
  {
    hide Run, At, Rel, Kept, CleanS, Braced, CStmt, StmtLen, Exec, Tidy;
    var lb := l.(tos := end, brk := end, cnt := pc + StmtLen(p, b));
    BracedBinds(p, b, pc, end, l);
    m, u := ThenSim(p, img, good, b, pc, lb, s, n, t, st, fuel, true, lb.(tos := l.tos));
  }

  lemma {:induction false} WhileSim(p: Prog, img: Image, good: iset<nat>, x: Stmt, pc: nat, l: Labels, s: State,
      st: Store, fuel: nat)
    returns (n: nat, t: State)
    requires Ready(p, img, good, s, st, pc) && x.While? && CleanS(x, good) && Braced(x)
    requires At(CodeOf(img, s), pc, CWhile(p, x, pc, l))
    ensures Run(img, s, n) == t
    ensures OutPost(img, p[s.fb], s, t, n, fuel, LoopWhile(p, p[s.fb], x, st, fuel), Tidy(x),
                    pc + |CWhile(p, x, pc, l)|, l)
    decreases fuel, x, 2
  {
    hide Run, At, CExpr, ExprLen, Eval, Clean, Rel, StmtLen, Exec, CStmt;
    var fn, code := p[s.fb], CodeOf(img, s);
    var pa := pc + ExprLen(p, x.c, false) + 1;
    var end := pa + StmtLen(p, x.s) + 1;
    LoopAt(code, pc, CExpr(p, x.c, false, pc), end, CStmt(p, x.s, pa, true, l.(tos := end)), [], pc);
    n, t := TestSim(p, img, good, x.c, pc, end, s, st, fuel);
    var r := Eval(p, fn, x.c, st, fuel);
    if r.Val? && r.v != 0 {
      n, t := LoopBodySim(p, img, good, x.s, pa, end, l, s, n, t, r.st, fuel);
      var o := Exec(p, fn, x.s, r.st, fuel);
      if GoesOn(o) {
        n, t := HopSim(p, img, good, s, n, t, o.st, Tidy(x.s), end - 1, pc);
        if fuel > 0 {
          var m, u := WhileSim(p, img, good, x, pc, l, t, o.st, fuel - 1);
          Compose(img, s, n, t, m, u);
          Unfuel(img, fn, t, u, m, fuel, LoopWhile(p, fn, x, o.st, fuel - 1), Tidy(x), end, l);
          OutTrans(img, fn, s, t, o.st, u, m + 1, fuel, LoopWhile(p, fn, x, o.st, fuel - 1), Tidy(x.s), Tidy(x),
                   end, l, n + m, l);
          n, t := n + m, u;
        }
      }
    }
  }

  /** One iteration takes at least one step, so fuel bounds the length of an unfinished run from below. */
  lemma Unfuel(img: Image, fn: Fun, s: State, t: State, n: nat, fuel: nat, o: Out, tidy: bool, pcEnd: int, l: Labels)
    requires fuel > 0 && OutPost(img, fn, s, t, n, fuel - 1, o, tidy, pcEnd, l)
    ensures OutPost(img, fn, s, t, n + 1, fuel, o, tidy, pcEnd, l)
  {}

  lemma {:induction false} DoSim(p: Prog, img: Image, good: iset<nat>, x: Stmt, pc: nat, l: Labels, s: State,
      st: Store, fuel: nat)
    returns (n: nat, t: State)
    requires Ready(p, img, good, s, st, pc) && x.DoWhile? && CleanS(x, good) && Braced(x)
    requires At(CodeOf(img, s), pc, CDoWhile(p, x, pc, l))
    ensures Run(img, s, n) == t
    ensures OutPost(img, p[s.fb], s, t, n, fuel, LoopDo(p, p[s.fb], x, st, fuel), Tidy(x),
                    pc + |CDoWhile(p, x, pc, l)|, l)
    decreases fuel, x, 2
  {
    hide Run, At, CExpr, ExprLen, Eval, Clean, Rel, StmtLen, Exec, CStmt;
    var fn, code := p[s.fb], CodeOf(img, s);
    var pt := pc + StmtLen(p, x.s);
    var end := pt + ExprLen(p, x.c, false) + 1;
    var body, test := CStmt(p, x.s, pc, true, l.(tos := end)), CExpr(p, x.c, false, pt);
    AtSplit(code, pc, body, test + [Jump(JNZ, pc)]);
    AtSplit(code, pt, test, [Jump(JNZ, pc)]);
    AtOne(code, end - 1, Jump(JNZ, pc));
    n, t := StandStill(p, img, good, pc, s, st, fuel, l);
    n, t := LoopBodySim(p, img, good, x.s, pc, end, l, s, n, t, st, fuel);
    var o := Exec(p, fn, x.s, st, fuel);
    if GoesOn(o) {
      n, t := DoAgainSim(p, img, good, x, pc, l, s, n, t, o.st, fuel);
    }
  }

  /** After the body: the condition, the jump back, and the iterations that follow. */
  lemma {:induction false} DoAgainSim(p: Prog, img: Image, good: iset<nat>, x: Stmt, pc: nat, l: Labels, s: State,
      n: nat, t: State, st: Store, fuel: nat)
    returns (m: nat, u: State)
    requires 0 <= s.fb < |p| && Framed(p[s.fb], s)
    requires Compiled(p, img, good) && x.DoWhile? && CleanS(x, good) && Braced(x) && Run(img, s, n) == t
    requires Landed(p[s.fb], s, t, st, Tidy(x.s), pc + StmtLen(p, x.s))
    requires At(CodeOf(img, s), pc, CDoWhile(p, x, pc, l))
    ensures Run(img, s, m) == u
    ensures var r := NeedVal(Eval(p, p[s.fb], x.c, st, fuel));
            var o := if !r.Val? then OutOf(r) else if r.v == 0 then Normal(r.st) else if fuel == 0 then OTimeout
                     else LoopDo(p, p[s.fb], x, r.st, fuel - 1);
            OutPost(img, p[s.fb], s, u, m, fuel, o, Tidy(x), pc + |CDoWhile(p, x, pc, l)|, l)
    decreases fuel, x, 1
  {
    hide Run, At, CExpr, ExprLen, Eval, Clean, Rel, StmtLen, Exec, CStmt, LoopDo;
    var fn, code := p[s.fb], CodeOf(img, s);
    var pt := pc + StmtLen(p, x.s);
    var end := pt + ExprLen(p, x.c, false) + 1;
    var body, test := CStmt(p, x.s, pc, true, l.(tos := end)), CExpr(p, x.c, false, pt);
    AtSplit(code, pc, body, test + [Jump(JNZ, pc)]);
    AtSplit(code, pt, test, [Jump(JNZ, pc)]);
    AtOne(code, end - 1, Jump(JNZ, pc));
    m, u := JnzSim(p, img, good, x.c, pt, pc, s, n, t, st, fuel, Tidy(x.s), l);
    var r := Eval(p, fn, x.c, st, fuel);
    if r.Val? && r.v != 0 && fuel > 0 {
      var k, w := DoSim(p, img, good, x, pc, l, u, r.st, fuel - 1);
      Compose(img, s, m, u, k, w);
      Unfuel(img, fn, u, w, k, fuel, LoopDo(p, fn, x, r.st, fuel - 1), Tidy(x), end, l);
      OutTrans(img, fn, s, u, r.st, w, k + 1, fuel, LoopDo(p, fn, x, r.st, fuel - 1), Tidy(x.s), Tidy(x),
               end, l, m + k, l);
      m, u := m + k, w;
    }
  }

  /** A condition and the JNZ after it, following a part that kept the frame. */
  lemma {:induction false} JnzSim(p: Prog, img: Image, good: iset<nat>, c: Expr, pc: nat, target: int, s: State,
      n: nat, t: State, st: Store, fuel: nat, tidy: bool, l: Labels)
    returns (m: nat, u: State)
    requires 0 <= s.fb < |p| && Framed(p[s.fb], s)
    requires Compiled(p, img, good) && Clean(c, good) && Run(img, s, n) == t && Landed(p[s.fb], s, t, st, tidy, pc)
    requires At(CodeOf(img, s), pc, CExpr(p, c, false, pc))
    requires pc + ExprLen(p, c, false) < |CodeOf(img, s)|
             && CodeOf(img, s)[pc + ExprLen(p, c, false)] == Jump(JNZ, target)
    ensures Run(img, s, m) == u
    ensures var r := NeedVal(Eval(p, p[s.fb], c, st, fuel));
            if r.Val? then
              m > n && Landed(p[s.fb], s, u, r.st, tidy, if r.v != 0 then target else pc + ExprLen(p, c, false) + 1)
            else
              forall tidy', pcEnd {:trigger OutPost(img, p[s.fb], s, u, m, fuel, OutOf(r), tidy', pcEnd, l)} ::
                OutPost(img, p[s.fb], s, u, m, fuel, OutOf(r), tidy', pcEnd, l)
    decreases fuel, c, 3
  {
    hide Run, At, CExpr, ExprLen, Eval, Clean, Clears, Honours;
    var fn, k, w := p[s.fb], 0, t;
    k, w := ExprSim(p, img, good, c, false, pc, t, st, fuel);
    Compose(img, s, n, t, k, w);
    m, u := n + k, w;
    var r := Eval(p, fn, c, st, fuel);
    if r.Val? {
      Advance(img, s, m, u, Jump(JNZ, target));
      var v := Exec1(img, u, Jump(JNZ, target));
      Retop(fn, t, u, v, r.st);
      KeptTrans(fn, s, t, v);
      m, u := m + 1, v;
    }
  }

  lemma {:induction false} ForSim(p: Prog, img: Image, good: iset<nat>, x: Stmt, pc: nat, l: Labels, s: State,
      st: Store, fuel: nat)
    returns (n: nat, t: State)
    requires Ready(p, img, good, s, st, pc) && x.For? && CleanS(x, good) && Braced(x)
    requires At(CodeOf(img, s), pc, CFor(p, x, pc, false, l))
    ensures Run(img, s, n) == t
    ensures OutPost(img, p[s.fb], s, t, n, fuel, ExecFor(p, p[s.fb], x, st, fuel), Tidy(x),
                    pc + |CFor(p, x, pc, false, l)|, l)
    decreases fuel, x, 3
  {
    hide Run, At, CExpr, ExprLen, Eval, Clean, Rel, StmtLen, Exec, CStmt, EvalOpt, COpt, OptLen, LoopFor;
    var fn := p[s.fb];
    var top := pc + OptLen(p, x.init);
    AtSplit(CodeOf(img, s), pc, COpt(p, x.init, pc), ForCode(p, x, top, l));
    n, t := OptSim(p, img, good, x.init, pc, s, st, fuel, l);
    var o := EvalOpt(p, fn, x.init, st, fuel);
    if o.Normal? {
      var m, u := ForLoopSim(p, img, good, x, top, l, t, o.st, fuel);
      Compose(img, s, n, t, m, u);
      OutTrans(img, fn, s, t, o.st, u, m, fuel, LoopFor(p, fn, x, o.st, fuel),
               x.init.Some? ==> Honours(x.init.value), LoopTidy(x), top + |ForCode(p, x, top, l)|, l, n + m, l);
      n, t := n + m, u;
    }
  }

  predicate LoopTidy(x: Stmt)
    requires x.For?
  {
    Tidy(x.s) && (x.inc.Some? ==> Honours(x.inc.value))
  }

  /** A for-loop's code past its initialiser. */
  function ForCode(p: Prog, x: Stmt, top: nat, l: Labels): (r: seq<Instr>)
    requires x.For?
    ensures |r| == ExprLen(p, x.c, false) + 1 + StmtLen(p, x.s) + OptLen(p, x.inc) + 1
  {
    var pa := top + ExprLen(p, x.c, false) + 1;
    var pn := pa + StmtLen(p, x.s);
    var end := pn + OptLen(p, x.inc) + 1;
    LoopCode(CExpr(p, x.c, false, top), end, CStmt(p, x.s, pa, true, l.(tos := end)), COpt(p, x.inc, pn), top)
  }

  lemma {:induction false} ForLoopSim(p: Prog, img: Image, good: iset<nat>, x: Stmt, top: nat, l: Labels, s: State,
      st: Store, fuel: nat)
    returns (n: nat, t: State)
    requires Ready(p, img, good, s, st, top) && x.For? && CleanS(x, good) && Braced(x)
    requires At(CodeOf(img, s), top, ForCode(p, x, top, l))
    ensures Run(img, s, n) == t
    ensures OutPost(img, p[s.fb], s, t, n, fuel, LoopFor(p, p[s.fb], x, st, fuel), LoopTidy(x),
                    top + |ForCode(p, x, top, l)|, l)
    decreases fuel, x, 2
  {
    hide Run, At, CExpr, ExprLen, Eval, Clean, Rel, StmtLen, Exec, CStmt, EvalOpt, COpt, OptLen;
    var fn, code := p[s.fb], CodeOf(img, s);
    var pa := top + ExprLen(p, x.c, false) + 1;
    var pn := pa + StmtLen(p, x.s);
    var end := pn + OptLen(p, x.inc) + 1;
    LoopAt(code, top, CExpr(p, x.c, false, top), end, CStmt(p, x.s, pa, true, l.(tos := end)),
           COpt(p, x.inc, pn), top);
    n, t := TestSim(p, img, good, x.c, top, end, s, st, fuel);
    var r := Eval(p, fn, x.c, st, fuel);
    if r.Val? && r.v != 0 {
      n, t := LoopBodySim(p, img, good, x.s, pa, end, l, s, n, t, r.st, fuel);
      var o := Exec(p, fn, x.s, r.st, fuel);
      if GoesOn(o) {
        n, t := AgainSim(p, img, good, x, top, l, s, n, t, o.st, fuel);
      }
    }
  }

  /** After the body: the increment, the jump back, and the iterations that follow. */
  lemma {:induction false} AgainSim(p: Prog, img: Image, good: iset<nat>, x: Stmt, top: nat, l: Labels, s: State,
      n: nat, t: State, st: Store, fuel: nat)
    returns (m: nat, u: State)
    requires 0 <= s.fb < |p| && Framed(p[s.fb], s)
    requires Compiled(p, img, good) && x.For? && CleanS(x, good) && Braced(x) && Run(img, s, n) == t
    requires Landed(p[s.fb], s, t, st, Tidy(x.s), top + ExprLen(p, x.c, false) + 1 + StmtLen(p, x.s))
    requires At(CodeOf(img, s), top, ForCode(p, x, top, l))
    ensures Run(img, s, m) == u
    ensures var q := EvalOpt(p, p[s.fb], x.inc, st, fuel);
            var o := if !q.Normal? then q else if fuel == 0 then OTimeout
                     else LoopFor(p, p[s.fb], x, q.st, fuel - 1);
            OutPost(img, p[s.fb], s, u, m, fuel, o, LoopTidy(x), top + |ForCode(p, x, top, l)|, l)
    decreases fuel, x, 1
  {
    hide Run, At, CExpr, ExprLen, Eval, Clean, Rel, StmtLen, Exec, CStmt, EvalOpt, COpt, OptLen, LoopFor;
    var fn, code := p[s.fb], CodeOf(img, s);
    var pa := top + ExprLen(p, x.c, false) + 1;
    var pn := pa + StmtLen(p, x.s);
    var end := pn + OptLen(p, x.inc) + 1;
    LoopAt(code, top, CExpr(p, x.c, false, top), end, CStmt(p, x.s, pa, true, l.(tos := end)),
           COpt(p, x.inc, pn), top);
    var k, w := OptSim(p, img, good, x.inc, pn, t, st, fuel, l);
    var q := EvalOpt(p, fn, x.inc, st, fuel);
    Compose(img, s, n, t, k, w);
    OutTrans(img, fn, s, t, st, w, k, fuel, q, Tidy(x.s), x.inc.Some? ==> Honours(x.inc.value), end - 1, l, n + k, l);
    m, u := n + k, w;
    if q.Normal? {
      m, u := HopSim(p, img, good, s, m, u, q.st, LoopTidy(x), end - 1, top);
      if fuel > 0 {
        var j, v := ForLoopSim(p, img, good, x, top, l, u, q.st, fuel - 1);
        Compose(img, s, m, u, j, v);
        Unfuel(img, fn, u, v, j, fuel, LoopFor(p, fn, x, q.st, fuel - 1), LoopTidy(x), end, l);
        OutTrans(img, fn, s, u, q.st, v, j + 1, fuel, LoopFor(p, fn, x, q.st, fuel - 1), LoopTidy(x), LoopTidy(x),
                 end, l, m + j, l);
        m, u := m + j, v;
      }
    }
  }

  lemma {:induction false} ReturnSim(p: Prog, img: Image, good: iset<nat>, x: Stmt, pc: nat, l: Labels, s: State,
      st: Store, fuel: nat)
    returns (n: nat, t: State)
    requires Ready(p, img, good, s, st, pc) && x.Return? && CleanS(x, good)
    requires At(CodeOf(img, s), pc, CStmt(p, x, pc, false, l))
    ensures Run(img, s, n) == t
    ensures OutPost(img, p[s.fb], s, t, n, fuel, ExecReturn(p, p[s.fb], x, st, fuel), Tidy(x),
                    pc + |CStmt(p, x, pc, false, l)|, l)
    decreases fuel, x, 2
  {
    hide Run, At, CExpr, ExprLen, Eval, Clean, Clears, Honours;
    if x.res.None? {
      n, t := JumpSim(p, img, good, pc, l.ret, s, st);
    } else {
      var fn, e := p[s.fb], x.res.value;
      AtSplit(CodeOf(img, s), pc, CExpr(p, e, false, pc), [Jump(JMP, l.ret)]);
      n, t := ExprSim(p, img, good, e, false, pc, s, st, fuel);
      if HasResult(Eval(p, fn, e, st, fuel)) {
        AtOne(CodeOf(img, s), t.pc, Jump(JMP, l.ret));
        Advance(img, s, n, t, Jump(JMP, l.ret));
        n, t := n + 1, Goto(t, l.ret);
      }
    }
  }

  // ----- switch -----

  predicate IsSuffix(sel: Arms, arms: Arms)
    decreases arms
  {
    sel == arms || (arms.Arm? && IsSuffix(sel, arms.rest))
  }

  lemma {:induction false} FindCaseSuffix(arms: Arms, v: int)
    ensures IsSuffix(FindCase(arms, v), arms)
    decreases arms
  {
    if arms.Arm? {
      FindCaseSuffix(arms.rest, v);
    }
  }

  lemma {:induction false} FindDefaultSuffix(arms: Arms)
    ensures IsSuffix(FindDefault(arms), arms)
    decreases arms
  {
    if arms.Arm? {
      FindDefaultSuffix(arms.rest);
    }
  }

  /** Where the code of a suffix of the arms starts. */
  function SuffixPc(p: Prog, sel: Arms, arms: Arms, pc: int): int {
    pc + ArmsLen(p, arms) - ArmsLen(p, sel)
  }

  lemma {:induction false} SuffixAt(p: Prog, good: iset<nat>, sel: Arms, arms: Arms, pc: nat, l: Labels,
      code: seq<Instr>)
    requires IsSuffix(sel, arms) && At(code, pc, CArms(p, arms, pc, l))
    ensures SuffixPc(p, sel, arms, pc) >= pc
    ensures At(code, SuffixPc(p, sel, arms, pc), CArms(p, sel, SuffixPc(p, sel, arms, pc), l))
    ensures CleanArms(arms, good) && BracedArms(arms) ==> CleanArms(sel, good) && BracedArms(sel)
    ensures TidyArms(arms) ==> TidyArms(sel)
    decreases arms
  {
    hide At, CStmt, StmtLen;
    if sel != arms {
      var next := pc + StmtLen(p, arms.s);
      AtSplit(code, pc, CStmt(p, arms.s, pc, false, l), CArms(p, arms.rest, next, l));
      SuffixAt(p, good, sel, arms.rest, next, l, code);
    }
  }

  /** The table search finds the first matching case. */
  lemma {:induction false} SearchFinds(p: Prog, arms: Arms, pc: nat, block: seq<int>, i: nat, v: int)
    requires 2 <= i <= |block| && block[i..] == CaseList(p, arms, pc)
    ensures SwitchFrom(block, i, (|block| - i) / 2, v) ==
            if FindCase(arms, v).Arm? then SuffixPc(p, FindCase(arms, v), arms, pc) else block[1]
    decreases arms
  {
    hide StmtLen;
    if arms.Arm? {
      var next := pc + StmtLen(p, arms.s);
      if arms.lab.None? {
        SearchFinds(p, arms.rest, next, block, i, v);
      } else {
        assert block[i..][0] == arms.lab.value && block[i..][1] == pc;
        assert block[i + 2..] == block[i..][2..] == CaseList(p, arms.rest, next);
        SearchFinds(p, arms.rest, next, block, i + 2, v);
        assert (|block| - i) / 2 - 1 == (|block| - (i + 2)) / 2;
      }
    }
  }

  lemma {:induction false} DefaultFinds(p: Prog, arms: Arms, pc: nat, sofar: int)
    ensures DefaultJump(p, arms, pc, sofar) ==
            if FindDefault(arms).Arm? then SuffixPc(p, FindDefault(arms), arms, pc) else sofar
    decreases arms
  {
    hide StmtLen;
    if arms.Arm? {
      DefaultFinds(p, arms.rest, pc + StmtLen(p, arms.s), if arms.lab.None? then pc else sofar);
    }
  }

  lemma NoArmsLen(p: Prog)
    ensures ArmsLen(p, NoArms) == 0
  {}

  /** JSWITCH lands on the arm the value selects, or past the switch. */
  lemma SwitchLands(p: Prog, good: iset<nat>, arms: Arms, pc: nat, l: Labels, code: seq<Instr>, v: int)
    returns (sel: Arms, target: nat)
    requires pc > 0 && At(code, pc, CArms(p, arms, pc, l))
    ensures sel == Select(arms, v) && target == SwitchTarget(SwitchTable(p, arms, pc, pc + ArmsLen(p, arms)), v)
    ensures At(code, target, CArms(p, sel, target, l)) && target + ArmsLen(p, sel) == pc + ArmsLen(p, arms)
    ensures CleanArms(arms, good) && BracedArms(arms) ==> CleanArms(sel, good) && BracedArms(sel)
    ensures TidyArms(arms) ==> TidyArms(sel)
  {
    hide At, CArms, CaseList, DefaultJump, SwitchFrom, FindCase, FindDefault, IsSuffix, CleanArms, BracedArms,
         TidyArms, ArmsLen;
    var list, end := CaseList(p, arms, pc), pc + ArmsLen(p, arms);
    var block := SwitchTable(p, arms, pc, end);
    assert block[2..] == list;
    SearchFinds(p, arms, pc, block, 2, v);
    DefaultFinds(p, arms, pc, 0);
    FindCaseSuffix(arms, v);
    FindDefaultSuffix(arms);
    NoArmsLen(p);
    sel := Select(arms, v);
    SuffixAt(p, good, sel, arms, pc, l, code);
    target := SuffixPc(p, sel, arms, pc);
  }

  lemma {:induction false} SwitchSim(p: Prog, img: Image, good: iset<nat>, x: Stmt, pc: nat, l: Labels, s: State,
      st: Store, fuel: nat)
    returns (n: nat, t: State)
    requires Ready(p, img, good, s, st, pc) && x.Switch? && CleanS(x, good) && Braced(x)
    requires At(CodeOf(img, s), pc, CSwitch(p, x, pc, false, l))
    ensures Run(img, s, n) == t
    ensures OutPost(img, p[s.fb], s, t, n, fuel, ExecSwitch(p, p[s.fb], x, st, fuel), Tidy(x),
                    pc + |CSwitch(p, x, pc, false, l)|, l)
    decreases fuel, x, 2
  {
    hide Run, At, CExpr, ExprLen, Eval, Clean, ExecArms, CArms, ArmsLen, SwitchTarget, Select, CleanArms, BracedArms,
         TidyArms, SwitchTable;
    var fn, code := p[s.fb], CodeOf(img, s);
    var pa := pc + ExprLen(p, x.e, false) + 1;
    var end := pa + ArmsLen(p, x.arms);
    var i, la := JSwitch(SwitchTable(p, x.arms, pa, end)), l.(brk := end);
    AtSplit(code, pc, CExpr(p, x.e, false, pc), [i] + CArms(p, x.arms, pa, la));
    AtHead(code, pa - 1, i, CArms(p, x.arms, pa, la));
    n, t := ExprSim(p, img, good, x.e, false, pc, s, st, fuel);
    var r := Eval(p, fn, x.e, st, fuel);
    if r.Val? {
      Advance(img, s, n, t, i);
      var w := Exec1(img, t, i);
      Retop(fn, s, t, w, r.st);
      var sel, target := SwitchLands(p, good, x.arms, pa, la, code, r.v);
      var m, u := ArmsSim(p, img, good, sel, target, la, w, r.st, fuel);
      Compose(img, s, n + 1, w, m, u);
      OutTrans(img, fn, s, w, r.st, u, m, fuel, ExecArms(p, fn, sel, r.st, fuel), true, TidyArms(sel), end, la,
               n + 1 + m, la);
      n, t := n + 1 + m, u;
    }
  }

  lemma {:induction false} ArmsSim(p: Prog, img: Image, good: iset<nat>, arms: Arms, pc: nat, l: Labels, s: State,
      st: Store, fuel: nat)
    returns (n: nat, t: State)
    requires Ready(p, img, good, s, st, pc) && CleanArms(arms, good) && BracedArms(arms)
    requires At(CodeOf(img, s), pc, CArms(p, arms, pc, l))
    ensures Run(img, s, n) == t
    ensures OutPost(img, p[s.fb], s, t, n, fuel, ExecArms(p, p[s.fb], arms, st, fuel), TidyArms(arms),
                    pc + ArmsLen(p, arms), l)
    decreases fuel, arms, 5
  {
    hide Run, At, CStmt, StmtLen, Exec, CleanS, Braced, Tidy;
    if arms == NoArms {
      n, t := StandStill(p, img, good, pc, s, st, fuel, l);
    } else {
      var fn, next := p[s.fb], pc + StmtLen(p, arms.s);
      AtSplit(CodeOf(img, s), pc, CStmt(p, arms.s, pc, false, l), CArms(p, arms.rest, next, l));
      n, t := BracedSim(p, img, good, arms.s, pc, l, s, st, fuel);
      var o := Exec(p, fn, arms.s, st, fuel);
      if o.Normal? {
        var m, u := ArmsSim(p, img, good, arms.rest, next, l, t, o.st, fuel);
        Compose(img, s, n, t, m, u);
        OutTrans(img, fn, s, t, o.st, u, m, fuel, ExecArms(p, fn, arms.rest, o.st, fuel), Tidy(arms.s),
                 TidyArms(arms.rest), next + ArmsLen(p, arms.rest), l, n + m, l);
        n, t := n + m, u;
      }
    }
  }
}
