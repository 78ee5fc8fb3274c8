/** Which loop a break or continue belongs to: the parser gives them to the first block opened after a loop's
    head (underc/sourcecode/src/common.cpp), and here is exactly when that is the loop they are in. */
module Binding {
  import opened Machine
  import opened Source
  import opened Codegen

  // ----- what the code should be: that of the same program with braces around every loop body -----

  function Embrace(x: Stmt): Stmt
    decreases x
  {
    match x
    case Seq(a, b) => Seq(Embrace(a), Embrace(b))
    case Block(a) => Block(Embrace(a))
    case If(c, a) => If(c, Embrace(a))
    case IfElse(c, a, b) => IfElse(c, Embrace(a), Embrace(b))
    case While(c, a) => While(c, Block(Embrace(a)))
    case DoWhile(a, c) => DoWhile(Block(Embrace(a)), c)
    case For(i, c, n, a) => For(i, c, n, Block(Embrace(a)))
    case Switch(e, arms) => Switch(e, EmbraceArms(arms))
    case _ => x
  }

  function EmbraceArms(arms: Arms): Arms
    decreases arms
  {
    match arms
    case NoArms => NoArms
    case Arm(lab, s, rest) => Arm(lab, Embrace(s), EmbraceArms(rest))
  }

  /** Compiled with the flag in_loop and the labels l, every break and continue goes to brk or cnt, or
      to the exit or the end of the body of the loop or switch it is in. */
  predicate Bound(p: Prog, x: Stmt, pc: nat, il: bool, l: Labels, brk: int, cnt: int)
    decreases x, 0
  {
    match x
    case Seq(a, b) => Bound(p, a, pc, il, l, brk, cnt) && Bound(p, b, pc + StmtLen(p, a), LoopFlag(a, il), l, brk, cnt)
    case Block(a) => Bound(p, a, pc, false, Opened(l, il, pc + StmtLen(p, a)), brk, cnt)
    case If(c, a) =>
      var pa := pc + ExprLen(p, c, false) + 1;
      Bound(p, a, pa, il, l.(tos := pa + StmtLen(p, a)), brk, cnt)
    case IfElse(c, a, b) =>
      var pa := pc + ExprLen(p, c, false) + 1;
      var pb := pa + StmtLen(p, a) + 1;
      && Bound(p, a, pa, il, l.(tos := pb), brk, cnt)
      && Bound(p, b, pb, LoopFlag(a, il), l.(tos := pb + StmtLen(p, b)), brk, cnt)
    case While(c, a) =>
      var pa := pc + ExprLen(p, c, false) + 1;
      BoundBody(p, a, pa, pa + StmtLen(p, a) + 1, l)
    case DoWhile(a, c) => BoundBody(p, a, pc, pc + StmtLen(p, a) + ExprLen(p, c, false) + 1, l)
    case For(i, c, n, a) =>
      var pa := pc + OptLen(p, i) + ExprLen(p, c, false) + 1;
      var end := pa + StmtLen(p, a) + OptLen(p, n) + 1;
      BoundBody(p, a, pa, end, Opened(l, il, end))
    case Switch(e, arms) =>
      var pa := pc + ExprLen(p, e, false) + 1;
      var end := pa + ArmsLen(p, arms);
      BoundArms(p, arms, pa, l.(brk := end, cnt := if il then end else l.cnt), end, cnt)
    case Break => l.brk == brk
    case Continue => l.cnt == cnt
    case _ => true
  }

  predicate BoundBody(p: Prog, b: Stmt, pc: nat, end: int, l: Labels)
    decreases b, 1
  {
    Bound(p, b, pc, true, l.(tos := end), end, pc + StmtLen(p, b))
  }

  predicate BoundArms(p: Prog, arms: Arms, pc: nat, l: Labels, brk: int, cnt: int)
    decreases arms, 0
  {
    arms.Arm? ==>
      && Bound(p, arms.s, pc, false, l, brk, cnt)
      && BoundArms(p, arms.rest, pc + StmtLen(p, arms.s), l, brk, cnt)
  }

  // ----- braces change neither the length nor the meaning -----

  lemma {:induction false} EmbraceLen(p: Prog, x: Stmt)
    ensures StmtLen(p, Embrace(x)) == StmtLen(p, x)
    decreases x
  {
    hide ExprLen;
    match x
    case Seq(a, b) => EmbraceLen(p, a); EmbraceLen(p, b);
    case Block(a) => EmbraceLen(p, a);
    case If(_, a) => EmbraceLen(p, a);
    case IfElse(_, a, b) => EmbraceLen(p, a); EmbraceLen(p, b);
    case While(_, a) => EmbraceLen(p, a);
    case DoWhile(a, _) => EmbraceLen(p, a);
    case For(_, _, _, a) => EmbraceLen(p, a);
    case Switch(_, arms) => EmbraceArmsLen(p, arms);
    case _ =>
  }

  lemma {:induction false} EmbraceArmsLen(p: Prog, arms: Arms)
    ensures ArmsLen(p, EmbraceArms(arms)) == ArmsLen(p, arms)
    decreases arms
  {
    if arms.Arm? {
      EmbraceLen(p, arms.s);
      EmbraceArmsLen(p, arms.rest);
    }
  }

  lemma {:induction false} EmbraceTable(p: Prog, arms: Arms, pc: nat, sofar: int)
    ensures CaseList(p, EmbraceArms(arms), pc) == CaseList(p, arms, pc)
    ensures DefaultJump(p, EmbraceArms(arms), pc, sofar) == DefaultJump(p, arms, pc, sofar)
    decreases arms
  {
    hide StmtLen;
    if arms.Arm? {
      EmbraceLen(p, arms.s);
      EmbraceTable(p, arms.rest, pc + StmtLen(p, arms.s), if arms.lab.None? then pc else sofar);
    }
  }

  lemma {:induction false} EmbraceSelect(arms: Arms, v: int)
    ensures FindCase(EmbraceArms(arms), v) == EmbraceArms(FindCase(arms, v))
    ensures FindDefault(EmbraceArms(arms)) == EmbraceArms(FindDefault(arms))
    decreases arms
  {
    hide Embrace;
    if arms.Arm? {
      EmbraceSelect(arms.rest, v);
    }
  }

  lemma {:induction false} EmbraceStatic(x: Stmt, good: iset<nat>)
    ensures CleanS(Embrace(x), good) == CleanS(x, good) && Tidy(Embrace(x)) == Tidy(x) && Braced(Embrace(x))
    decreases x, 0
  {
    hide Clean, Honours;
    match x
    case Seq(a, b) => EmbraceStatic(a, good); EmbraceStatic(b, good);
    case Block(a) => EmbraceStatic(a, good);
    case If(_, a) => EmbraceStatic(a, good);
    case IfElse(_, a, b) => EmbraceStatic(a, good); EmbraceStatic(b, good);
    case While(_, a) => EmbraceBody(a, good);
    case DoWhile(a, _) => EmbraceBody(a, good);
    case For(_, _, _, a) => EmbraceBody(a, good);
    case Switch(_, arms) => EmbraceArmsStatic(arms, good);
    case _ =>
  }

  lemma {:induction false} EmbraceBody(x: Stmt, good: iset<nat>)
    ensures CleanS(Block(Embrace(x)), good) == CleanS(x, good) && Tidy(Block(Embrace(x))) == Tidy(x)
    ensures BracedBody(Block(Embrace(x)))
    decreases x, 1
  {
    EmbraceStatic(x, good);
  }

  lemma {:induction false} EmbraceArmsStatic(arms: Arms, good: iset<nat>)
    ensures CleanArms(EmbraceArms(arms), good) == CleanArms(arms, good)
    ensures TidyArms(EmbraceArms(arms)) == TidyArms(arms) && BracedArms(EmbraceArms(arms))
    decreases arms, 0
  {
    if arms.Arm? {
      EmbraceStatic(arms.s, good);
      EmbraceArmsStatic(arms.rest, good);
    }
  }

  lemma {:induction false} EmbraceMeans(p: Prog, fn: Fun, x: Stmt, st: Store, fuel: nat)
    ensures Exec(p, fn, Embrace(x), st, fuel) == Exec(p, fn, x, st, fuel)
    decreases fuel, x, 2
  {
    hide Eval, LoopWhile, LoopDo, LoopFor, ExecArms, Select;
    match x
    case Seq(a, b) =>
      EmbraceMeans(p, fn, a, st, fuel);
      var o := Exec(p, fn, a, st, fuel);
      if o.Normal? {
        EmbraceMeans(p, fn, b, o.st, fuel);
      }
    case Block(a) => EmbraceMeans(p, fn, a, st, fuel);
    case If(_, _) => EmbraceBranch(p, fn, x, st, fuel);
    case IfElse(_, _, _) => EmbraceBranch(p, fn, x, st, fuel);
    case While(_, _) => EmbraceWhile(p, fn, x, st, fuel);
    case DoWhile(_, _) => EmbraceDo(p, fn, x, st, fuel);
    case For(_, _, _, _) =>
      var o := EvalOpt(p, fn, x.init, st, fuel);
      if o.Normal? {
        EmbraceFor(p, fn, x, o.st, fuel);
      }
    case Switch(e, arms) =>
      var r := NeedVal(Eval(p, fn, e, st, fuel));
      if r.Val? {
        EmbraceSwitch(p, fn, arms, r.v, r.st, fuel);
      }
    case _ =>
  }

  lemma {:induction false} EmbraceBranch(p: Prog, fn: Fun, x: Stmt, st: Store, fuel: nat)
    requires x.If? || x.IfElse?
    ensures ExecIf(p, fn, Embrace(x), st, fuel) == ExecIf(p, fn, x, st, fuel)
    decreases fuel, x, 1
  {
    hide Eval, Exec;
    var r := NeedVal(Eval(p, fn, x.c, st, fuel));
    if r.Val? {
      EmbraceMeans(p, fn, x.s1, r.st, fuel);
      if x.IfElse? {
        EmbraceMeans(p, fn, x.s2, r.st, fuel);
      }
    }
  }

  /** A block around a statement means what the statement does. */
  lemma BlockMeans(p: Prog, fn: Fun, x: Stmt, st: Store, fuel: nat)
    ensures Exec(p, fn, Block(x), st, fuel) == Exec(p, fn, x, st, fuel)
  {}

  lemma {:induction false} EmbraceWhile(p: Prog, fn: Fun, x: Stmt, st: Store, fuel: nat)
    requires x.While?
    ensures LoopWhile(p, fn, Embrace(x), st, fuel) == LoopWhile(p, fn, x, st, fuel)
    decreases fuel, x, 1
  {
    hide Eval, Exec;
    var r := NeedVal(Eval(p, fn, x.c, st, fuel));
    if r.Val? && r.v != 0 {
      EmbraceMeans(p, fn, x.s, r.st, fuel);
      BlockMeans(p, fn, Embrace(x.s), r.st, fuel);
      var o := Exec(p, fn, x.s, r.st, fuel);
      if GoesOn(o) && fuel > 0 {
        EmbraceWhile(p, fn, x, o.st, fuel - 1);
      }
    }
  }

  lemma {:induction false} EmbraceDo(p: Prog, fn: Fun, x: Stmt, st: Store, fuel: nat)
    requires x.DoWhile?
    ensures LoopDo(p, fn, Embrace(x), st, fuel) == LoopDo(p, fn, x, st, fuel)
    decreases fuel, x, 1
  {
    hide Eval, Exec;
    EmbraceMeans(p, fn, x.s, st, fuel);
    BlockMeans(p, fn, Embrace(x.s), st, fuel);
    var o := Exec(p, fn, x.s, st, fuel);
    if GoesOn(o) {
      var r := NeedVal(Eval(p, fn, x.c, o.st, fuel));
      if r.Val? && r.v != 0 && fuel > 0 {
        EmbraceDo(p, fn, x, r.st, fuel - 1);
      }
    }
  }

  lemma {:induction false} EmbraceFor(p: Prog, fn: Fun, x: Stmt, st: Store, fuel: nat)
    requires x.For?
    ensures LoopFor(p, fn, Embrace(x), st, fuel) == LoopFor(p, fn, x, st, fuel)
    decreases fuel, x, 1
  {
    hide Eval, EvalOpt, Exec;
    var r := NeedVal(Eval(p, fn, x.c, st, fuel));
    if r.Val? && r.v != 0 {
      EmbraceMeans(p, fn, x.s, r.st, fuel);
      BlockMeans(p, fn, Embrace(x.s), r.st, fuel);
      var o := Exec(p, fn, x.s, r.st, fuel);
      if GoesOn(o) {
        var q := EvalOpt(p, fn, x.inc, o.st, fuel);
        if q.Normal? && fuel > 0 {
          EmbraceFor(p, fn, x, q.st, fuel - 1);
        }
      }
    }
  }

  lemma {:induction false} EmbraceSwitch(p: Prog, fn: Fun, arms: Arms, v: int, st: Store, fuel: nat)
    ensures ExecArms(p, fn, Select(EmbraceArms(arms), v), st, fuel) == ExecArms(p, fn, Select(arms, v), st, fuel)
    decreases fuel, arms, 2
  {
    hide ExecArms, FindCase, FindDefault;
    EmbraceSelect(arms, v);
    EmbraceRun(p, fn, Select(arms, v), st, fuel);
  }

  lemma {:induction false} EmbraceRun(p: Prog, fn: Fun, arms: Arms, st: Store, fuel: nat)
    ensures ExecArms(p, fn, EmbraceArms(arms), st, fuel) == ExecArms(p, fn, arms, st, fuel)
    decreases fuel, arms, 1
  {
    hide Exec;
    if arms.Arm? {
      EmbraceMeans(p, fn, arms.s, st, fuel);
      var o := Exec(p, fn, arms.s, st, fuel);
      if o.Normal? {
        EmbraceRun(p, fn, arms.rest, o.st, fuel);
      }
    }
  }

  // ----- exactly when the parser binds right -----

  lemma SameParts(a: seq<Instr>, b: seq<Instr>, c: seq<Instr>, d: seq<Instr>)
    requires |a| == |c|
    ensures a + b == c + d <==> a == c && b == d
  {
    assert (a + b)[..|a|] == a && (c + d)[..|c|] == c;
    assert (a + b)[|a|..] == b && (c + d)[|c|..] == d;
  }

  /** A statement's code is that of the same statement with braces around every loop body exactly when it is bound. */
  lemma {:induction false} BoundExactly(p: Prog, x: Stmt, pc: nat, il: bool, l: Labels, m: Labels)
    requires l.ret == m.ret
    ensures CStmt(p, x, pc, il, l) == CStmt(p, Embrace(x), pc, false, m) <==> Bound(p, x, pc, il, l, m.brk, m.cnt)
    decreases x, 2
  {
    hide Bound, CStmt, Embrace;
    match x
    case Seq(_, _) => PartsExactly(p, x, pc, il, l, m);
    case Block(_) => PartsExactly(p, x, pc, il, l, m);
    case If(_, _) => BranchExactly(p, x, pc, il, l, m);
    case IfElse(_, _, _) => BranchExactly(p, x, pc, il, l, m);
    case While(_, _) => WhileExactly(p, x, pc, il, l, m);
    case DoWhile(_, _) => DoExactly(p, x, pc, il, l, m);
    case For(_, _, _, _) => ForExactly(p, x, pc, il, l, m);
    case Switch(_, _) => SwitchExactly(p, x, pc, il, l, m);
    case _ => LeafExactly(p, x, pc, il, l, m);
  }

  lemma LeafExactly(p: Prog, x: Stmt, pc: nat, il: bool, l: Labels, m: Labels)
    requires (x.Empty? || x.ExprS? || x.Break? || x.Continue? || x.Return?) && l.ret == m.ret
    ensures CStmt(p, x, pc, il, l) == CStmt(p, Embrace(x), pc, false, m) <==> Bound(p, x, pc, il, l, m.brk, m.cnt)
  {
    hide CExpr, ExprLen;
    assert [Jump(JMP, l.brk)][0] == Jump(JMP, l.brk) && [Jump(JMP, m.brk)][0] == Jump(JMP, m.brk);
    assert [Jump(JMP, l.cnt)][0] == Jump(JMP, l.cnt) && [Jump(JMP, m.cnt)][0] == Jump(JMP, m.cnt);
  }

  /** Code and binding of the plain compounds, form by form. */
  lemma {:induction false} SeqForm(p: Prog, a: Stmt, b: Stmt, pc: nat, il: bool, l: Labels, brk: int, cnt: int)
    ensures CStmt(p, Seq(a, b), pc, il, l)
            == CStmt(p, a, pc, il, l) + CStmt(p, b, pc + StmtLen(p, a), LoopFlag(a, il), l)
    ensures Bound(p, Seq(a, b), pc, il, l, brk, cnt)
            <==> Bound(p, a, pc, il, l, brk, cnt) && Bound(p, b, pc + StmtLen(p, a), LoopFlag(a, il), l, brk, cnt)
    ensures Embrace(Seq(a, b)) == Seq(Embrace(a), Embrace(b))
    ensures !LoopFlag(a, false)
  {
    hide StmtLen;
  }

  lemma {:induction false} BlockForm(p: Prog, a: Stmt, pc: nat, il: bool, l: Labels, brk: int, cnt: int)
    ensures CStmt(p, Block(a), pc, il, l) == CStmt(p, a, pc, false, Opened(l, il, pc + StmtLen(p, a)))
    ensures Bound(p, Block(a), pc, il, l, brk, cnt)
            <==> Bound(p, a, pc, false, Opened(l, il, pc + StmtLen(p, a)), brk, cnt)
    ensures Embrace(Block(a)) == Block(Embrace(a))
    ensures StmtLen(p, Block(a)) == StmtLen(p, a)
  {
    hide *;
    BlockCode(p, a, pc, il, l);
    BlockBound(p, a, pc, il, l, brk, cnt);
    BlockLen(p, a);
  }

  lemma {:induction false} BlockCode(p: Prog, a: Stmt, pc: nat, il: bool, l: Labels)
    ensures CStmt(p, Block(a), pc, il, l) == CStmt(p, a, pc, false, Opened(l, il, pc + StmtLen(p, a)))
  {
    hide Opened, StmtLen;
  }

  lemma {:induction false} BlockBound(p: Prog, a: Stmt, pc: nat, il: bool, l: Labels, brk: int, cnt: int)
    ensures Bound(p, Block(a), pc, il, l, brk, cnt)
            <==> Bound(p, a, pc, false, Opened(l, il, pc + StmtLen(p, a)), brk, cnt)
    ensures Embrace(Block(a)) == Block(Embrace(a))
  {
    hide Opened, StmtLen;
  }

  lemma {:induction false} BlockLen(p: Prog, a: Stmt)
    ensures StmtLen(p, Block(a)) == StmtLen(p, a)
  {}

  lemma {:induction false} IfForm(p: Prog, c: Expr, a: Stmt, pc: nat, il: bool, l: Labels, brk: int, cnt: int)
    ensures var pa := pc + ExprLen(p, c, false) + 1;
            var t := pa + StmtLen(p, a);
            && CStmt(p, If(c, a), pc, il, l)
               == CExpr(p, c, false, pc) + ([Jump(JZ, t)] + CStmt(p, a, pa, il, l.(tos := t)))
            && (Bound(p, If(c, a), pc, il, l, brk, cnt) <==> Bound(p, a, pa, il, l.(tos := t), brk, cnt))
            && Embrace(If(c, a)) == If(c, Embrace(a))
  {
    hide StmtLen, ExprLen, CExpr;
    assert CStmt(p, If(c, a), pc, il, l) == CIf(p, If(c, a), pc, il, l);
  }

  lemma {:induction false} IfElseForm(p: Prog, c: Expr, a: Stmt, b: Stmt, pc: nat, il: bool, l: Labels, brk: int,
      cnt: int)
    ensures var pa := pc + ExprLen(p, c, false) + 1;
            var pb := pa + StmtLen(p, a) + 1;
            var z := pb + StmtLen(p, b);
            var x := IfElse(c, a, b);
            && CStmt(p, x, pc, il, l)
               == BranchCode(CExpr(p, c, false, pc), pb, CStmt(p, a, pa, il, l.(tos := pb)), z,
                             CStmt(p, b, pb, LoopFlag(a, il), l.(tos := z)))
            && (Bound(p, x, pc, il, l, brk, cnt)
                <==> Bound(p, a, pa, il, l.(tos := pb), brk, cnt)
                     && Bound(p, b, pb, LoopFlag(a, il), l.(tos := z), brk, cnt))
            && Embrace(x) == IfElse(c, Embrace(a), Embrace(b)) && !LoopFlag(a, false)
  {
    hide StmtLen, ExprLen, CExpr, BranchCode;
    assert CStmt(p, IfElse(c, a, b), pc, il, l) == CIfElse(p, IfElse(c, a, b), pc, il, l);
  }

  lemma {:induction false} PartsExactly(p: Prog, x: Stmt, pc: nat, il: bool, l: Labels, m: Labels)
    requires (x.Seq? || x.Block?) && l.ret == m.ret
    ensures CStmt(p, x, pc, il, l) == CStmt(p, Embrace(x), pc, false, m) <==> Bound(p, x, pc, il, l, m.brk, m.cnt)
    decreases x, 1
  {
    hide StmtLen, CStmt, Bound, Embrace, LoopFlag;
    if x.Seq? {
      var a, b := x.s1, x.s2;
      var pb := pc + StmtLen(p, a);
      EmbraceLen(p, a);
      SeqForm(p, a, b, pc, il, l, m.brk, m.cnt);
      SeqForm(p, Embrace(a), Embrace(b), pc, false, m, m.brk, m.cnt);
      BoundExactly(p, a, pc, il, l, m);
      BoundExactly(p, b, pb, LoopFlag(a, il), l, m);
      SameParts(CStmt(p, a, pc, il, l), CStmt(p, b, pb, LoopFlag(a, il), l),
                CStmt(p, Embrace(a), pc, false, m), CStmt(p, Embrace(b), pb, false, m));
    } else {
      EmbraceLen(p, x.s);
      BlockForm(p, x.s, pc, il, l, m.brk, m.cnt);
      BlockForm(p, Embrace(x.s), pc, false, m, m.brk, m.cnt);
      BoundExactly(p, x.s, pc, false, Opened(l, il, pc + StmtLen(p, x.s)), m);
    }
  }

  lemma SameBranches(c: seq<Instr>, other: int, a: seq<Instr>, end: int, b: seq<Instr>, a': seq<Instr>, b': seq<Instr>)
    requires |a| == |a'|
    ensures BranchCode(c, other, a, end, b) == BranchCode(c, other, a', end, b') <==> a == a' && b == b'
  {
    SameParts(c, [Jump(JZ, other)] + (a + ([Jump(JMP, end)] + b)),
              c, [Jump(JZ, other)] + (a' + ([Jump(JMP, end)] + b')));
    SameParts([Jump(JZ, other)], a + ([Jump(JMP, end)] + b), [Jump(JZ, other)], a' + ([Jump(JMP, end)] + b'));
    SameParts(a, [Jump(JMP, end)] + b, a', [Jump(JMP, end)] + b');
    SameParts([Jump(JMP, end)], b, [Jump(JMP, end)], b');
  }

  lemma SameLoops(c: seq<Instr>, end: int, a: seq<Instr>, a': seq<Instr>, inc: seq<Instr>, top: int)
    requires |a| == |a'|
    ensures LoopCode(c, end, a, inc, top) == LoopCode(c, end, a', inc, top) <==> a == a'
  {
    var t := inc + [Jump(JMP, top)];
    SameParts(c, [Jump(JZ, end)] + (a + t), c, [Jump(JZ, end)] + (a' + t));
    SameParts([Jump(JZ, end)], a + t, [Jump(JZ, end)], a' + t);
    SameParts(a, t, a', t);
  }

  lemma {:induction false} BranchExactly(p: Prog, x: Stmt, pc: nat, il: bool, l: Labels, m: Labels)
    requires (x.If? || x.IfElse?) && l.ret == m.ret
    ensures CStmt(p, x, pc, il, l) == CStmt(p, Embrace(x), pc, false, m) <==> Bound(p, x, pc, il, l, m.brk, m.cnt)
    decreases x, 1
  {
    hide StmtLen, CExpr, ExprLen, CStmt, Bound, Embrace, LoopFlag, BranchCode;
    var c, pa := CExpr(p, x.c, false, pc), pc + ExprLen(p, x.c, false) + 1;
    var pb := pa + StmtLen(p, x.s1) + 1;
    EmbraceLen(p, x.s1);
    if x.If? {
      var t := pb - 1;
      var a, a' := CStmt(p, x.s1, pa, il, l.(tos := t)), CStmt(p, Embrace(x.s1), pa, false, m.(tos := t));
      IfForm(p, x.c, x.s1, pc, il, l, m.brk, m.cnt);
      IfForm(p, x.c, Embrace(x.s1), pc, false, m, m.brk, m.cnt);
      BoundExactly(p, x.s1, pa, il, l.(tos := t), m.(tos := t));
      SameParts(c, [Jump(JZ, t)] + a, c, [Jump(JZ, t)] + a');
      SameParts([Jump(JZ, t)], a, [Jump(JZ, t)], a');
    } else {
      var z := pb + StmtLen(p, x.s2);
      EmbraceLen(p, x.s2);
      IfElseForm(p, x.c, x.s1, x.s2, pc, il, l, m.brk, m.cnt);
      IfElseForm(p, x.c, Embrace(x.s1), Embrace(x.s2), pc, false, m, m.brk, m.cnt);
      BoundExactly(p, x.s1, pa, il, l.(tos := pb), m.(tos := pb));
      BoundExactly(p, x.s2, pb, LoopFlag(x.s1, il), l.(tos := z), m.(tos := z));
      SameBranches(c, pb, CStmt(p, x.s1, pa, il, l.(tos := pb)),
                   z, CStmt(p, x.s2, pb, LoopFlag(x.s1, il), l.(tos := z)),
                   CStmt(p, Embrace(x.s1), pa, false, m.(tos := pb)), CStmt(p, Embrace(x.s2), pb, false, m.(tos := z)));
    }
  }

  lemma {:induction false} WhileForm(p: Prog, c: Expr, b: Stmt, pc: nat, il: bool, l: Labels, brk: int, cnt: int)
    ensures var pa := pc + ExprLen(p, c, false) + 1;
            var end := pa + StmtLen(p, b) + 1;
            && CStmt(p, While(c, b), pc, il, l)
               == LoopCode(CExpr(p, c, false, pc), end, CStmt(p, b, pa, true, l.(tos := end)), [], pc)
            && (Bound(p, While(c, b), pc, il, l, brk, cnt) <==> BoundBody(p, b, pa, end, l))
            && Embrace(While(c, b)) == While(c, Block(Embrace(b)))
  {
    hide StmtLen, ExprLen, CExpr, LoopCode, BoundBody;
    assert CStmt(p, While(c, b), pc, il, l) == CWhile(p, While(c, b), pc, l);
  }

  lemma {:induction false} DoForm(p: Prog, b: Stmt, c: Expr, pc: nat, il: bool, l: Labels, brk: int, cnt: int)
    ensures var pt := pc + StmtLen(p, b);
            var end := pt + ExprLen(p, c, false) + 1;
            && CStmt(p, DoWhile(b, c), pc, il, l)
               == CStmt(p, b, pc, true, l.(tos := end)) + (CExpr(p, c, false, pt) + [Jump(JNZ, pc)])
            && (Bound(p, DoWhile(b, c), pc, il, l, brk, cnt) <==> BoundBody(p, b, pc, end, l))
            && Embrace(DoWhile(b, c)) == DoWhile(Block(Embrace(b)), c)
  {
    hide StmtLen, ExprLen, CExpr, BoundBody;
    assert CStmt(p, DoWhile(b, c), pc, il, l) == CDoWhile(p, DoWhile(b, c), pc, l);
  }

  lemma {:induction false} ForForm(p: Prog, x: Stmt, pc: nat, il: bool, l: Labels, brk: int, cnt: int)
    requires x.For?
    ensures var top := pc + OptLen(p, x.init);
            var pa := top + ExprLen(p, x.c, false) + 1;
            var end := pa + StmtLen(p, x.s) + OptLen(p, x.inc) + 1;
            && CStmt(p, x, pc, il, l)
               == COpt(p, x.init, pc)
                  + LoopCode(CExpr(p, x.c, false, top), end, CStmt(p, x.s, pa, true, Opened(l, il, end).(tos := end)),
                             COpt(p, x.inc, pa + StmtLen(p, x.s)), top)
            && (Bound(p, x, pc, il, l, brk, cnt) <==> BoundBody(p, x.s, pa, end, Opened(l, il, end)))
            && Embrace(x) == x.(s := Block(Embrace(x.s)))
  {
    hide StmtLen, ExprLen, CExpr, LoopCode, COpt, OptLen, Opened, BoundBody;
    assert CStmt(p, x, pc, il, l) == CFor(p, x, pc, il, l);
  }

  lemma {:induction false} WhileExactly(p: Prog, x: Stmt, pc: nat, il: bool, l: Labels, m: Labels)
    requires x.While? && l.ret == m.ret
    ensures CStmt(p, x, pc, il, l) == CStmt(p, Embrace(x), pc, false, m) <==> Bound(p, x, pc, il, l, m.brk, m.cnt)
    decreases x, 1
  {
    hide StmtLen, CExpr, ExprLen, BoundBody, CStmt, Bound, Embrace, LoopCode;
    var pa := pc + ExprLen(p, x.c, false) + 1;
    var end := pa + StmtLen(p, x.s) + 1;
    EmbraceLen(p, x.s);
    BlockForm(p, Embrace(x.s), pc, true, l, 0, 0);
    BodyExactly(p, x.s, pa, end, l, m);
    SameLoops(CExpr(p, x.c, false, pc), end, CStmt(p, x.s, pa, true, l.(tos := end)),
              CStmt(p, Block(Embrace(x.s)), pa, true, m.(tos := end)), [], pc);
    WhileForm(p, x.c, x.s, pc, il, l, m.brk, m.cnt);
    WhileForm(p, x.c, Block(Embrace(x.s)), pc, false, m, 0, 0);
  }

  lemma {:induction false} DoExactly(p: Prog, x: Stmt, pc: nat, il: bool, l: Labels, m: Labels)
    requires x.DoWhile? && l.ret == m.ret
    ensures CStmt(p, x, pc, il, l) == CStmt(p, Embrace(x), pc, false, m) <==> Bound(p, x, pc, il, l, m.brk, m.cnt)
    decreases x, 1
  {
    hide StmtLen, CExpr, ExprLen, BoundBody, CStmt, Bound, Embrace;
    var pt := pc + StmtLen(p, x.s);
    var end := pt + ExprLen(p, x.c, false) + 1;
    EmbraceLen(p, x.s);
    BlockForm(p, Embrace(x.s), pc, true, l, 0, 0);
    BodyExactly(p, x.s, pc, end, l, m);
    var test := CExpr(p, x.c, false, pt) + [Jump(JNZ, pc)];
    SameParts(CStmt(p, x.s, pc, true, l.(tos := end)), test,
              CStmt(p, Block(Embrace(x.s)), pc, true, m.(tos := end)), test);
    DoForm(p, x.s, x.c, pc, il, l, m.brk, m.cnt);
    DoForm(p, Block(Embrace(x.s)), x.c, pc, false, m, 0, 0);
  }

  lemma {:induction false} ForExactly(p: Prog, x: Stmt, pc: nat, il: bool, l: Labels, m: Labels)
    requires x.For? && l.ret == m.ret
    ensures CStmt(p, x, pc, il, l) == CStmt(p, Embrace(x), pc, false, m) <==> Bound(p, x, pc, il, l, m.brk, m.cnt)
    decreases x, 1
  {
    hide StmtLen, CExpr, ExprLen, COpt, OptLen, BoundBody, CStmt, Bound, Embrace, LoopCode;
    var top := pc + OptLen(p, x.init);
    var pa := top + ExprLen(p, x.c, false) + 1;
    var pn := pa + StmtLen(p, x.s);
    var end := pn + OptLen(p, x.inc) + 1;
    var lo := Opened(l, il, end);
    EmbraceLen(p, x.s);
    BlockForm(p, Embrace(x.s), pc, true, l, 0, 0);
    BodyExactly(p, x.s, pa, end, lo, m);
    var a, a' := CStmt(p, x.s, pa, true, lo.(tos := end)), CStmt(p, Block(Embrace(x.s)), pa, true, m.(tos := end));
    var c, inc := CExpr(p, x.c, false, top), COpt(p, x.inc, pn);
    SameLoops(c, end, a, a', inc, top);
    SameParts(COpt(p, x.init, pc), LoopCode(c, end, a, inc, top), COpt(p, x.init, pc), LoopCode(c, end, a', inc, top));
    ForForm(p, x, pc, il, l, m.brk, m.cnt);
    ForForm(p, Embrace(x), pc, false, m, 0, 0);
    NotOpened(m, end);
  }

  lemma NotOpened(l: Labels, end: int)
    ensures Opened(l, false, end) == l
  {}

  /** A loop's body: the block around it takes the flag, so that break goes to the exit and continue to its end. */
  lemma {:induction false} BodyExactly(p: Prog, b: Stmt, pc: nat, end: int, l: Labels, m: Labels)
    requires l.ret == m.ret
    ensures CStmt(p, b, pc, true, l.(tos := end)) == CStmt(p, Block(Embrace(b)), pc, true, m.(tos := end))
            <==> BoundBody(p, b, pc, end, l)
    decreases b, 3
  {
    hide CStmt, StmtLen, Bound, Embrace;
    var z := pc + StmtLen(p, b);
    EmbraceLen(p, b);
    BlockForm(p, Embrace(b), pc, true, m.(tos := end), 0, 0);
    BoundExactly(p, b, pc, true, l.(tos := end), m.(tos := end, brk := end, cnt := z));
  }

  lemma {:induction false} SwitchExactly(p: Prog, x: Stmt, pc: nat, il: bool, l: Labels, m: Labels)
    requires x.Switch? && l.ret == m.ret
    ensures CStmt(p, x, pc, il, l) == CStmt(p, Embrace(x), pc, false, m) <==> Bound(p, x, pc, il, l, m.brk, m.cnt)
    decreases x, 1
  {
    hide CExpr, ExprLen, ArmsLen, CArms, CaseList, DefaultJump, BoundArms;
    var pa := pc + ExprLen(p, x.e, false) + 1;
    var end := pa + ArmsLen(p, x.arms);
    var la, ma := l.(brk := end, cnt := if il then end else l.cnt), m.(brk := end);
    EmbraceArmsLen(p, x.arms);
    EmbraceTable(p, x.arms, pa, 0);
    ArmsExactly(p, x.arms, pa, la, ma);
    var c, i := CExpr(p, x.e, false, pc), JSwitch(SwitchTable(p, x.arms, pa, end));
    SameParts(c, [i] + CArms(p, x.arms, pa, la), c, [i] + CArms(p, EmbraceArms(x.arms), pa, ma));
    SameParts([i], CArms(p, x.arms, pa, la), [i], CArms(p, EmbraceArms(x.arms), pa, ma));
    assert CStmt(p, x, pc, il, l) == CSwitch(p, x, pc, il, l);
    assert CStmt(p, Embrace(x), pc, false, m) == CSwitch(p, Embrace(x), pc, false, m);
  }

  lemma {:induction false} ArmsExactly(p: Prog, arms: Arms, pc: nat, l: Labels, m: Labels)
    requires l.ret == m.ret
    ensures CArms(p, arms, pc, l) == CArms(p, EmbraceArms(arms), pc, m) <==> BoundArms(p, arms, pc, l, m.brk, m.cnt)
    decreases arms, 2
  {
    hide StmtLen, CStmt, Bound;
    if arms.Arm? {
      var next := pc + StmtLen(p, arms.s);
      EmbraceLen(p, arms.s);
      BoundExactly(p, arms.s, pc, false, l, m);
      ArmsExactly(p, arms.rest, next, l, m);
      SameParts(CStmt(p, arms.s, pc, false, l), CArms(p, arms.rest, next, l),
                CStmt(p, Embrace(arms.s), pc, false, m), CArms(p, EmbraceArms(arms.rest), next, m));
    }
  }

  // ----- braces are enough, and nothing but the breaks and continues that leave a statement matters -----

  /** Where the braces are, and the labels agree on what leaves the statement, it is bound. */
  lemma {:induction false} BracedIsBound(p: Prog, x: Stmt, pc: nat, il: bool, l: Labels, brk: int, cnt: int)
    requires Braced(x)
    requires (Escapes(x, true) ==> !il && l.brk == brk) && (Escapes(x, false) ==> !il && l.cnt == cnt)
    ensures Bound(p, x, pc, il, l, brk, cnt)
    decreases x, 1
  {
    hide StmtLen, ExprLen, ArmsLen, OptLen;
    match x
    case Seq(a, b) =>
      BracedIsBound(p, a, pc, il, l, brk, cnt);
      BracedIsBound(p, b, pc + StmtLen(p, a), LoopFlag(a, il), l, brk, cnt);
    case Block(a) => BracedIsBound(p, a, pc, false, Opened(l, il, pc + StmtLen(p, a)), brk, cnt);
    case If(c, a) =>
      var pa := pc + ExprLen(p, c, false) + 1;
      BracedIsBound(p, a, pa, il, l.(tos := pa + StmtLen(p, a)), brk, cnt);
    case IfElse(c, a, b) =>
      var pa := pc + ExprLen(p, c, false) + 1;
      var pb := pa + StmtLen(p, a) + 1;
      BracedIsBound(p, a, pa, il, l.(tos := pb), brk, cnt);
      BracedIsBound(p, b, pb, LoopFlag(a, il), l.(tos := pb + StmtLen(p, b)), brk, cnt);
    case While(c, a) =>
      var pa := pc + ExprLen(p, c, false) + 1;
      BracesBind(p, a, pa, pa + StmtLen(p, a) + 1, l);
    case DoWhile(a, c) => BracesBind(p, a, pc, pc + StmtLen(p, a) + ExprLen(p, c, false) + 1, l);
    case For(i, c, n, a) =>
      var pa := pc + OptLen(p, i) + ExprLen(p, c, false) + 1;
      var end := pa + StmtLen(p, a) + OptLen(p, n) + 1;
      BracesBind(p, a, pa, end, Opened(l, il, end));
    case Switch(e, arms) =>
      var pa := pc + ExprLen(p, e, false) + 1;
      var end := pa + ArmsLen(p, arms);
      BracedArmsBound(p, arms, pa, l.(brk := end, cnt := if il then end else l.cnt), end, cnt);
    case _ =>
  }

  lemma {:induction false} BracesBind(p: Prog, b: Stmt, pc: nat, end: int, l: Labels)
    requires BracedBody(b)
    ensures BoundBody(p, b, pc, end, l)
    decreases b, 2
  {
    hide StmtLen;
    if b.Block? {
      var z := pc + StmtLen(p, b.s);
      BlockForm(p, b.s, pc, true, l, 0, 0);
      BracedIsBound(p, b.s, pc, false, Opened(l.(tos := end), true, z), end, z);
    } else {
      BracedIsBound(p, b, pc, true, l.(tos := end), end, pc + StmtLen(p, b));
    }
  }

  lemma {:induction false} BracedArmsBound(p: Prog, arms: Arms, pc: nat, l: Labels, brk: int, cnt: int)
    requires BracedArms(arms) && l.brk == brk && (ArmsEscape(arms, false) ==> l.cnt == cnt)
    ensures BoundArms(p, arms, pc, l, brk, cnt)
    decreases arms, 1
  {
    hide StmtLen;
    if arms.Arm? {
      BracedIsBound(p, arms.s, pc, false, l, brk, cnt);
      BracedArmsBound(p, arms.rest, pc + StmtLen(p, arms.s), l, brk, cnt);
    }
  }

  /** The two settings send what leaves x to the same places. */
  predicate Agree(x: Stmt, il: bool, l: Labels, il': bool, l': Labels) {
    && l.ret == l'.ret
    && (Escapes(x, true) ==> !il && !il' && l.brk == l'.brk)
    && (Escapes(x, false) ==> !il && !il' && l.cnt == l'.cnt)
  }

  /** The code of a braced statement depends on the labels around it, and on the flag in_loop, only through the
      breaks and continues that leave it. */
  lemma OnlyEscapesMatter(p: Prog, x: Stmt, pc: nat, il: bool, l: Labels, il': bool, l': Labels)
    requires Braced(x) && Agree(x, il, l, il', l')
    ensures CStmt(p, x, pc, il, l) == CStmt(p, x, pc, il', l')
  {
    hide Braced, Escapes, CStmt, Embrace;
    BracedIsBound(p, x, pc, il, l, l.brk, l.cnt);
    BracedIsBound(p, x, pc, il', l', l.brk, l.cnt);
    BoundExactly(p, x, pc, il, l, l);
    BoundExactly(p, x, pc, il', l', l);
  }

  /** A loop body, braced or not, is compiled as if break went to the loop's exit and continue to the body's end
      exactly when it is bound. */
  lemma BodyBinds(p: Prog, b: Stmt, pc: nat, end: int, l: Labels)
    ensures BoundBody(p, b, pc, end, l) <==>
            CStmt(p, b, pc, true, l.(tos := end))
            == CStmt(p, Embrace(b), pc, false, l.(tos := end, brk := end, cnt := pc + StmtLen(p, b)))
  {
    BoundExactly(p, b, pc, true, l.(tos := end), l.(tos := end, brk := end, cnt := pc + StmtLen(p, b)));
  }

  /** Where a return goes does not matter. */
  lemma {:induction false} BoundRet(p: Prog, x: Stmt, pc: nat, il: bool, l: Labels, l': Labels, brk: int, cnt: int)
    requires l' == l.(ret := l'.ret)
    ensures Bound(p, x, pc, il, l, brk, cnt) == Bound(p, x, pc, il, l', brk, cnt)
    decreases x, 1
  {
    hide StmtLen, ExprLen, ArmsLen, OptLen, LoopFlag, Bound, CStmt, Embrace, BoundArms, BoundBody, CExpr, COpt,
         LoopCode, BranchCode;
    match x
    case Seq(a, b) =>
      SeqForm(p, a, b, pc, il, l, brk, cnt);
      SeqForm(p, a, b, pc, il, l', brk, cnt);
      BoundRet(p, a, pc, il, l, l', brk, cnt);
      BoundRet(p, b, pc + StmtLen(p, a), LoopFlag(a, il), l, l', brk, cnt);
    case Block(a) =>
      var z := pc + StmtLen(p, a);
      BlockForm(p, a, pc, il, l, brk, cnt);
      BlockForm(p, a, pc, il, l', brk, cnt);
      BoundRet(p, a, pc, false, Opened(l, il, z), Opened(l', il, z), brk, cnt);
    case If(c, a) =>
      var pa := pc + ExprLen(p, c, false) + 1;
      var t := pa + StmtLen(p, a);
      IfForm(p, c, a, pc, il, l, brk, cnt);
      IfForm(p, c, a, pc, il, l', brk, cnt);
      BoundRet(p, a, pa, il, l.(tos := t), l'.(tos := t), brk, cnt);
    case IfElse(c, a, b) =>
      var pa := pc + ExprLen(p, c, false) + 1;
      var pb := pa + StmtLen(p, a) + 1;
      var z := pb + StmtLen(p, b);
      IfElseForm(p, c, a, b, pc, il, l, brk, cnt);
      IfElseForm(p, c, a, b, pc, il, l', brk, cnt);
      BoundRet(p, a, pa, il, l.(tos := pb), l'.(tos := pb), brk, cnt);
      BoundRet(p, b, pb, LoopFlag(a, il), l.(tos := z), l'.(tos := z), brk, cnt);
    case While(c, a) =>
      var pa := pc + ExprLen(p, c, false) + 1;
      WhileForm(p, c, a, pc, il, l, brk, cnt);
      WhileForm(p, c, a, pc, il, l', brk, cnt);
      BoundRetBody(p, a, pa, pa + StmtLen(p, a) + 1, l, l');
    case DoWhile(a, c) =>
      DoForm(p, a, c, pc, il, l, brk, cnt);
      DoForm(p, a, c, pc, il, l', brk, cnt);
      BoundRetBody(p, a, pc, pc + StmtLen(p, a) + ExprLen(p, c, false) + 1, l, l');
    case For(i, c, n, a) =>
      var pa := pc + OptLen(p, i) + ExprLen(p, c, false) + 1;
      var end := pa + StmtLen(p, a) + OptLen(p, n) + 1;
      ForForm(p, x, pc, il, l, brk, cnt);
      ForForm(p, x, pc, il, l', brk, cnt);
      BoundRetBody(p, a, pa, end, Opened(l, il, end), Opened(l', il, end));
    case Switch(e, arms) =>
      var pa := pc + ExprLen(p, e, false) + 1;
      var end := pa + ArmsLen(p, arms);
      SwitchBound(p, x, pc, il, l, brk, cnt);
      SwitchBound(p, x, pc, il, l', brk, cnt);
      BoundRetArms(p, arms, pa, l.(brk := end, cnt := if il then end else l.cnt),
                   l'.(brk := end, cnt := if il then end else l.cnt), end, cnt);
    case _ => LeafBound(p, x, pc, il, l, l', brk, cnt);
  }

  lemma {:induction false} SwitchBound(p: Prog, x: Stmt, pc: nat, il: bool, l: Labels, brk: int, cnt: int)
    requires x.Switch?
    ensures var pa := pc + ExprLen(p, x.e, false) + 1;
            var end := pa + ArmsLen(p, x.arms);
            Bound(p, x, pc, il, l, brk, cnt)
            <==> BoundArms(p, x.arms, pa, l.(brk := end, cnt := if il then end else l.cnt), end, cnt)
  {
    hide ExprLen, ArmsLen, BoundArms;
  }

  lemma {:induction false} LeafBound(p: Prog, x: Stmt, pc: nat, il: bool, l: Labels, l': Labels, brk: int, cnt: int)
    requires (x.Empty? || x.ExprS? || x.Break? || x.Continue? || x.Return?) && l' == l.(ret := l'.ret)
    ensures Bound(p, x, pc, il, l, brk, cnt) == Bound(p, x, pc, il, l', brk, cnt)
  {}

  lemma {:induction false} BoundRetBody(p: Prog, b: Stmt, pc: nat, end: int, l: Labels, l': Labels)
    requires l' == l.(ret := l'.ret)
    ensures BoundBody(p, b, pc, end, l) == BoundBody(p, b, pc, end, l')
    decreases b, 2
  {
    hide StmtLen;
    BoundRet(p, b, pc, true, l.(tos := end), l'.(tos := end), end, pc + StmtLen(p, b));
  }

  lemma {:induction false} BoundRetArms(p: Prog, arms: Arms, pc: nat, l: Labels, l': Labels, brk: int, cnt: int)
    requires l' == l.(ret := l'.ret)
    ensures BoundArms(p, arms, pc, l, brk, cnt) == BoundArms(p, arms, pc, l', brk, cnt)
    decreases arms, 1
  {
    hide StmtLen;
    if arms.Arm? {
      BoundRet(p, arms.s, pc, false, l, l', brk, cnt);
      BoundRetArms(p, arms.rest, pc + StmtLen(p, arms.s), l, l', brk, cnt);
    }
  }

  /** A body with braces of its own, or nothing to bind, is compiled as if the flag were not set. */
  lemma BracedBinds(p: Prog, b: Stmt, pc: nat, end: int, l: Labels)
    requires BracedBody(b)
    ensures CStmt(p, b, pc, true, l.(tos := end))
            == CStmt(p, b, pc, false, l.(tos := end, brk := end, cnt := pc + StmtLen(p, b)))
  {
    hide StmtLen, CStmt, Embrace, Braced, Bound, Escapes;
    var z := pc + StmtLen(p, b);
    var m := l.(tos := end, brk := end, cnt := z);
    BracesBind(p, b, pc, end, l);
    BoundExactly(p, b, pc, true, l.(tos := end), m);
    BracedIsBound(p, b, pc, false, m, end, z);
    BoundExactly(p, b, pc, false, m, m);
  }

  // ----- unbraced bodies: continue is right, break is not -----

  /** Unbraced loops `while (c) if (d) { y }`. */
  function Unbraced(c: Expr, d: Expr, y: Stmt): Stmt { While(c, If(d, Block(y))) }

  /** An unbraced continue is bound, an unbraced break never is. */
  lemma IfContinueBound(p: Prog, c: Expr, d: Expr, pc: nat, il: bool, l: Labels, brk: int, cnt: int)
    ensures Bound(p, Unbraced(c, d, Continue), pc, il, l, brk, cnt)
    ensures !Bound(p, Unbraced(c, d, Break), pc, il, l, brk, cnt)
  {
    hide ExprLen;
    UnbracedBound(p, c, d, Continue, pc, il, l, brk, cnt);
    UnbracedBound(p, c, d, Break, pc, il, l, brk, cnt);
  }

  lemma UnbracedBound(p: Prog, c: Expr, d: Expr, y: Stmt, pc: nat, il: bool, l: Labels, brk: int, cnt: int)
    requires y.Break? || y.Continue?
    ensures Bound(p, Unbraced(c, d, y), pc, il, l, brk, cnt) <==> y.Continue?
  {
    hide ExprLen, StmtLen, CStmt, Bound, Embrace, LoopCode, CExpr;
    var pa := pc + ExprLen(p, c, false) + 1;
    var pb := pa + ExprLen(p, d, false) + 1;
    UnbracedLen(p, d, y);
    WhileForm(p, c, If(d, Block(y)), pc, il, l, brk, cnt);
    JumpForm(p, y, pb, Labels(pb + 1, pb + 1, pb + 1, l.ret), pb + 2, pb + 1);
    IfForm(p, d, Block(y), pa, true, l.(tos := pb + 2), pb + 2, pb + 1);
    BlockForm(p, y, pb, true, l.(tos := pb + 1), pb + 2, pb + 1);
  }

  /** Such a loop's break is compiled as a continue, whatever the conditions. */
  lemma BreakIsContinue(p: Prog, c: Expr, d: Expr, pc: nat, il: bool, l: Labels, m: Labels)
    requires l.ret == m.ret
    ensures CStmt(p, Unbraced(c, d, Break), pc, il, l) == CStmt(p, Embrace(Unbraced(c, d, Continue)), pc, false, m)
  {
    hide ExprLen, CExpr, Embrace, Bound;
    UnbracedCode(p, c, d, Break, pc, il, l);
    UnbracedCode(p, c, d, Continue, pc, il, l);
    IfContinueBound(p, c, d, pc, il, l, m.brk, m.cnt);
    BoundExactly(p, Unbraced(c, d, Continue), pc, il, l, m);
  }

  lemma UnbracedCode(p: Prog, c: Expr, d: Expr, y: Stmt, pc: nat, il: bool, l: Labels)
    requires y.Break? || y.Continue?
    ensures var pa := pc + ExprLen(p, c, false) + 1;
            var pb := pa + ExprLen(p, d, false) + 1;
            CStmt(p, Unbraced(c, d, y), pc, il, l)
            == LoopCode(CExpr(p, c, false, pc), pb + 2,
                        CExpr(p, d, false, pa) + ([Jump(JZ, pb + 1)] + [Jump(JMP, pb + 1)]), [], pc)
  {
    hide ExprLen, CExpr, CStmt, Bound, StmtLen;
    var pa := pc + ExprLen(p, c, false) + 1;
    var pb := pa + ExprLen(p, d, false) + 1;
    UnbracedLen(p, d, y);
    JumpForm(p, y, pb, Labels(pb + 1, pb + 1, pb + 1, l.ret), 0, 0);
    IfForm(p, d, Block(y), pa, true, l.(tos := pb + 2), 0, 0);
    BlockForm(p, y, pb, true, l.(tos := pb + 1), 0, 0);
    WhileForm(p, c, If(d, Block(y)), pc, il, l, 0, 0);
  }

  lemma {:induction false} UnbracedLen(p: Prog, d: Expr, y: Stmt)
    requires y.Break? || y.Continue?
    ensures StmtLen(p, y) == 1 && StmtLen(p, Block(y)) == 1 && StmtLen(p, If(d, Block(y))) == ExprLen(p, d, false) + 2
  {
    hide ExprLen;
  }

  lemma JumpForm(p: Prog, y: Stmt, pc: nat, l: Labels, brk: int, cnt: int)
    requires y.Break? || y.Continue?
    ensures Bound(p, y, pc, false, l, brk, cnt) <==> if y.Break? then l.brk == brk else l.cnt == cnt
    ensures CStmt(p, y, pc, false, l) == [Jump(JMP, if y.Break? then l.brk else l.cnt)]
  {}
}
