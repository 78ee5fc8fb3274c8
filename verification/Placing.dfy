/** Placing labels in code that still names them: the algebra behind backpatching. */
module Placing {
  import opened Machine
  import opened Source
  import opened Codegen

  function PlaceT(t: int, name: int, to: int): int { if t == name then to else t }

  function PlaceI(i: Instr, name: int, to: int): Instr {
    if i.Jump? then Jump(i.kind, PlaceT(i.target, name, to)) else i
  }

  function Place(c: seq<Instr>, name: int, to: int): (r: seq<Instr>)
    ensures |r| == |c| && forall i :: 0 <= i < |c| ==> r[i] == PlaceI(c[i], name, to)
  {
    seq(|c|, i requires 0 <= i < |c| => PlaceI(c[i], name, to))
  }

  predicate Names(i: Instr, name: int) { i.Jump? && i.target == name }

  predicate Free(c: seq<Instr>, name: int) { forall i :: 0 <= i < |c| ==> !Names(c[i], name) }

  lemma PlaceConcat(a: seq<Instr>, b: seq<Instr>, name: int, to: int)
    ensures Place(a + b, name, to) == Place(a, name, to) + Place(b, name, to)
  {}

  lemma PlaceFree(c: seq<Instr>, name: int, to: int)
    requires Free(c, name)
    ensures Place(c, name, to) == c
  {}

  lemma PlaceOne(i: Instr, name: int, to: int)
    ensures Place([i], name, to) == [PlaceI(i, name, to)]
  {}

  function PlaceL(l: Labels, name: int, to: int): Labels {
    Labels(PlaceT(l.tos, name, to), PlaceT(l.brk, name, to), PlaceT(l.cnt, name, to), PlaceT(l.ret, name, to))
  }

  /** Expression code has no open labels. */
  lemma {:induction false} ExprSettled(p: Prog, e: Expr, drop: bool, pc: nat)
    ensures Settled(CExpr(p, e, drop, pc))
    decreases e, 1
  {
    hide ExprLen, Settled;
    match e
    case Cond(_, _, _) => BranchSettled(p, e, drop, pc);
    case LogOr(_, _) => BranchSettled(p, e, drop, pc);
    case LogAnd(_, _) => BranchSettled(p, e, drop, pc);
    case CallE(_, args) => CallSettled(p, e, drop, pc);
    case Const(_) => LeafSettled(p, e, drop, pc);
    case Ref(_) => LeafSettled(p, e, drop, pc);
    case IncDec(_, _, _) => LeafSettled(p, e, drop, pc);
    case _ => ChainSettled(p, e, drop, pc);
  }

  lemma LeafSettled(p: Prog, e: Expr, drop: bool, pc: nat)
    requires e.Const? || e.Ref? || e.IncDec?
    ensures Settled(CExpr(p, e, drop, pc))
  {}

  lemma {:induction false} CallSettled(p: Prog, e: Expr, drop: bool, pc: nat)
    requires e.CallE?
    ensures Settled(CCall(p, e, drop, pc))
    decreases e, 0
  {
    hide CArgs, ArgsLen;
    ArgsSettled(p, e.args, pc);
  }

  /** Operands one after the other, then straight-line code. */
  lemma {:induction false} ChainSettled(p: Prog, e: Expr, drop: bool, pc: nat)
    requires e.Un? || e.Bin? || e.Assign? || e.Comma?
    ensures e.Un? ==> Settled(CUn(p, e, pc))
    ensures e.Bin? ==> Settled(CBin(p, e, pc))
    ensures e.Assign? ==> Settled(CAssign(p, e, drop, pc))
    ensures e.Comma? ==> Settled(CComma(p, e, drop, pc))
    decreases e, 0
  {
    hide CExpr, ExprLen;
    if e.Un? || e.Assign? {
      ExprSettled(p, e.e, false, pc);
    } else {
      ExprSettled(p, e.e1, e.Comma?, pc);
      ExprSettled(p, e.e2, e.Comma? && drop, pc + ExprLen(p, e.e1, e.Comma?));
    }
  }

  lemma {:induction false} BranchSettled(p: Prog, e: Expr, drop: bool, pc: nat)
    requires e.Cond? || e.LogOr? || e.LogAnd?
    ensures e.Cond? ==> Settled(CCond(p, e, drop, pc))
    ensures !e.Cond? ==> Settled(CLogic(p, e, pc))
    decreases e, 0
  {
    hide ExprLen, CExpr;
    if e.Cond? {
      var la := pc + ExprLen(p, e.c, false) + 1;
      ExprSettled(p, e.c, false, pc);
      ExprSettled(p, e.e1, drop, la);
      ExprSettled(p, e.e2, drop, la + ExprLen(p, e.e1, drop) + 1);
    } else {
      ExprSettled(p, e.e1, false, pc);
      ExprSettled(p, e.e2, false, pc + ExprLen(p, e.e1, false) + 1);
    }
  }

  lemma {:induction false} ArgsSettled(p: Prog, args: seq<Expr>, pc: nat)
    ensures Settled(CArgs(p, args, pc))
    decreases args, 1
  {
    if args != [] {
      ExprSettled(p, args[|args| - 1], false, pc);
      ArgsSettled(p, args[..|args| - 1], pc + ExprLen(p, args[|args| - 1], false));
    }
  }

  lemma SettledFree(c: seq<Instr>, name: int)
    requires Settled(c) && name < 0
    ensures Free(c, name)
  {}

  lemma PlaceExpr(p: Prog, e: Expr, drop: bool, pc: nat, name: int, to: int)
    requires name < 0
    ensures Place(CExpr(p, e, drop, pc), name, to) == CExpr(p, e, drop, pc)
  {
    ExprSettled(p, e, drop, pc);
    PlaceFree(CExpr(p, e, drop, pc), name, to);
  }

  lemma PlaceBranch(c: seq<Instr>, other: int, a: seq<Instr>, end: int, b: seq<Instr>, name: int, to: int)
    requires Place(c, name, to) == c
    ensures Place(BranchCode(c, other, a, end, b), name, to)
            == BranchCode(c, PlaceT(other, name, to), Place(a, name, to), PlaceT(end, name, to), Place(b, name, to))
  {
    hide Place;
    PlaceOne(Jump(JMP, end), name, to);
    PlaceOne(Jump(JZ, other), name, to);
    PlaceConcat([Jump(JMP, end)], b, name, to);
    PlaceConcat(a, [Jump(JMP, end)] + b, name, to);
    PlaceConcat([Jump(JZ, other)], a + ([Jump(JMP, end)] + b), name, to);
    PlaceConcat(c, [Jump(JZ, other)] + (a + ([Jump(JMP, end)] + b)), name, to);
  }

  lemma PlaceLoop(c: seq<Instr>, end: int, body: seq<Instr>, inc: seq<Instr>, top: int, name: int, to: int)
    requires Place(c, name, to) == c && Place(inc, name, to) == inc && top >= 0 && name < 0
    ensures Place(LoopCode(c, end, body, inc, top), name, to)
            == LoopCode(c, PlaceT(end, name, to), Place(body, name, to), inc, top)
  {
    hide Place;
    PlaceOne(Jump(JMP, top), name, to);
    PlaceOne(Jump(JZ, end), name, to);
    PlaceConcat(inc, [Jump(JMP, top)], name, to);
    PlaceConcat(body, inc + [Jump(JMP, top)], name, to);
    PlaceConcat([Jump(JZ, end)], body + (inc + [Jump(JMP, top)]), name, to);
    PlaceConcat(c, [Jump(JZ, end)] + (body + (inc + [Jump(JMP, top)])), name, to);
  }

  /** Placing a label in the code of a statement is generating the code with the label placed. */
  lemma {:induction false} PlaceStmt(p: Prog, x: Stmt, pc: nat, il: bool, l: Labels, name: int, to: int)
    requires name < 0
    ensures Place(CStmt(p, x, pc, il, l), name, to) == CStmt(p, x, pc, il, PlaceL(l, name, to))
    decreases x, 2
  {
    hide ExprLen, StmtLen, CExpr, Place;
    match x
    case Empty => PlaceFree([], name, to);
    case ExprS(e) => PlaceExpr(p, e, true, pc, name, to);
    case Seq(a, b) =>
      PlaceStmt(p, a, pc, il, l, name, to);
      PlaceStmt(p, b, pc + StmtLen(p, a), LoopFlag(a, il), l, name, to);
      PlaceConcat(CStmt(p, a, pc, il, l), CStmt(p, b, pc + StmtLen(p, a), LoopFlag(a, il), l), name, to);
    case Block(a) => PlaceStmt(p, a, pc, false, Opened(l, il, pc + StmtLen(p, a)), name, to);
    case If(_, _) => PlaceIf(p, x, pc, il, l, name, to);
    case IfElse(_, _, _) => PlaceIf(p, x, pc, il, l, name, to);
    case While(_, _) => PlaceLoops(p, x, pc, il, l, name, to);
    case DoWhile(_, _) => PlaceLoops(p, x, pc, il, l, name, to);
    case For(_, _, _, _) => PlaceLoops(p, x, pc, il, l, name, to);
    case Switch(_, _) => PlaceSwitch(p, x, pc, il, l, name, to);
    case Break => PlaceOne(Jump(JMP, l.brk), name, to);
    case Continue => PlaceOne(Jump(JMP, l.cnt), name, to);
    case Return(_) => PlaceReturn(p, x, pc, il, l, name, to);
  }

  lemma PlaceReturn(p: Prog, x: Stmt, pc: nat, il: bool, l: Labels, name: int, to: int)
    requires x.Return? && name < 0
    ensures Place(CStmt(p, x, pc, il, l), name, to) == CStmt(p, x, pc, il, PlaceL(l, name, to))
  {
    hide Place, CExpr;
    PlaceOne(Jump(JMP, l.ret), name, to);
    if x.res.Some? {
      PlaceExpr(p, x.res.value, false, pc, name, to);
      PlaceConcat(CExpr(p, x.res.value, false, pc), [Jump(JMP, l.ret)], name, to);
    }
  }

  lemma {:induction false} PlaceIf(p: Prog, x: Stmt, pc: nat, il: bool, l: Labels, name: int, to: int)
    requires (x.If? || x.IfElse?) && name < 0
    ensures Place(CStmt(p, x, pc, il, l), name, to) == CStmt(p, x, pc, il, PlaceL(l, name, to))
    decreases x, 1
  {
    hide ExprLen, StmtLen, CExpr, Place, LoopFlag;
    var pa := pc + ExprLen(p, x.c, false) + 1;
    var pb := pa + StmtLen(p, x.s1) + 1;
    PlaceExpr(p, x.c, false, pc, name, to);
    if x.If? {
      var la := l.(tos := pb - 1);
      PlaceStmt(p, x.s1, pa, il, la, name, to);
      PlaceOne(Jump(JZ, pb - 1), name, to);
      PlaceConcat([Jump(JZ, pb - 1)], CStmt(p, x.s1, pa, il, la), name, to);
      PlaceConcat(CExpr(p, x.c, false, pc), [Jump(JZ, pb - 1)] + CStmt(p, x.s1, pa, il, la), name, to);
    } else {
      var end := pb + StmtLen(p, x.s2);
      PlaceStmt(p, x.s1, pa, il, l.(tos := pb), name, to);
      PlaceStmt(p, x.s2, pb, LoopFlag(x.s1, il), l.(tos := end), name, to);
      PlaceBranch(CExpr(p, x.c, false, pc), pb, CStmt(p, x.s1, pa, il, l.(tos := pb)), end,
                  CStmt(p, x.s2, pb, LoopFlag(x.s1, il), l.(tos := end)), name, to);
    }
  }

  lemma PlaceOpt(p: Prog, e: Option<Expr>, pc: nat, name: int, to: int)
    requires name < 0
    ensures Place(COpt(p, e, pc), name, to) == COpt(p, e, pc)
  {
    if e.Some? {
      PlaceExpr(p, e.value, true, pc, name, to);
    }
  }

  lemma {:induction false} PlaceLoops(p: Prog, x: Stmt, pc: nat, il: bool, l: Labels, name: int, to: int)
    requires (x.While? || x.DoWhile? || x.For?) && name < 0
    ensures Place(CStmt(p, x, pc, il, l), name, to) == CStmt(p, x, pc, il, PlaceL(l, name, to))
    decreases x, 1
  {
    hide ExprLen, StmtLen, CExpr, Place, OptLen, COpt;
    if x.While? {
      var pa := pc + ExprLen(p, x.c, false) + 1;
      var end := pa + StmtLen(p, x.s) + 1;
      PlaceExpr(p, x.c, false, pc, name, to);
      PlaceFree([], name, to);
      PlaceStmt(p, x.s, pa, true, l.(tos := end), name, to);
      PlaceLoop(CExpr(p, x.c, false, pc), end, CStmt(p, x.s, pa, true, l.(tos := end)), [], pc, name, to);
    } else if x.DoWhile? {
      var pt := pc + StmtLen(p, x.s);
      var la := l.(tos := pt + ExprLen(p, x.c, false) + 1);
      PlaceStmt(p, x.s, pc, true, la, name, to);
      PlaceExpr(p, x.c, false, pt, name, to);
      PlaceOne(Jump(JNZ, pc), name, to);
      PlaceConcat(CExpr(p, x.c, false, pt), [Jump(JNZ, pc)], name, to);
      PlaceConcat(CStmt(p, x.s, pc, true, la), CExpr(p, x.c, false, pt) + [Jump(JNZ, pc)], name, to);
    } else {
      var top := pc + OptLen(p, x.init);
      var pa := top + ExprLen(p, x.c, false) + 1;
      var pn := pa + StmtLen(p, x.s);
      var end := pn + OptLen(p, x.inc) + 1;
      var la := Opened(l, il, end).(tos := end);
      PlaceOpt(p, x.init, pc, name, to);
      PlaceExpr(p, x.c, false, top, name, to);
      PlaceStmt(p, x.s, pa, true, la, name, to);
      PlaceOpt(p, x.inc, pn, name, to);
      PlaceLoop(CExpr(p, x.c, false, top), end, CStmt(p, x.s, pa, true, la), COpt(p, x.inc, pn), top, name, to);
      PlaceConcat(COpt(p, x.init, pc), LoopCode(CExpr(p, x.c, false, top), end, CStmt(p, x.s, pa, true, la),
                                                COpt(p, x.inc, pn), top), name, to);
    }
  }

  lemma {:induction false} PlaceSwitch(p: Prog, x: Stmt, pc: nat, il: bool, l: Labels, name: int, to: int)
    requires x.Switch? && name < 0
    ensures Place(CStmt(p, x, pc, il, l), name, to) == CStmt(p, x, pc, il, PlaceL(l, name, to))
    decreases x, 1
  {
    hide ExprLen, CExpr, Place, ArmsLen, CArms, SwitchTable;
    var pa := pc + ExprLen(p, x.e, false) + 1;
    var end := pa + ArmsLen(p, x.arms);
    var la := l.(brk := end, cnt := if il then end else l.cnt);
    var i := JSwitch(SwitchTable(p, x.arms, pa, end));
    PlaceExpr(p, x.e, false, pc, name, to);
    PlaceArms(p, x.arms, pa, la, name, to);
    PlaceOne(i, name, to);
    PlaceConcat([i], CArms(p, x.arms, pa, la), name, to);
    PlaceConcat(CExpr(p, x.e, false, pc), [i] + CArms(p, x.arms, pa, la), name, to);
  }

  lemma {:induction false} PlaceArms(p: Prog, arms: Arms, pc: nat, l: Labels, name: int, to: int)
    requires name < 0
    ensures Place(CArms(p, arms, pc, l), name, to) == CArms(p, arms, pc, PlaceL(l, name, to))
    decreases arms, 2
  {
    hide StmtLen, CStmt, Place;
    if arms == NoArms {
      PlaceFree([], name, to);
    } else {
      PlaceStmt(p, arms.s, pc, false, l, name, to);
      PlaceArms(p, arms.rest, pc + StmtLen(p, arms.s), l, name, to);
      PlaceConcat(CStmt(p, arms.s, pc, false, l), CArms(p, arms.rest, pc + StmtLen(p, arms.s), l), name, to);
    }
  }

  // ----- the buffer while a construct is being emitted: s0 is the code before it -----

  /** A label that is free in what came before is placed only in the new part. */
  lemma PlaceTail(s0: seq<Instr>, c: seq<Instr>, name: int, to: int)
    requires Free(s0, name)
    ensures Place(s0 + c, name, to) == s0 + Place(c, name, to)
  {
    PlaceConcat(s0, c, name, to);
    PlaceFree(s0, name, to);
  }

  lemma LogicEmitted(s0: seq<Instr>, a: seq<Instr>, kind: JumpKind, b: seq<Instr>, name: int, to: int)
    requires Free(s0, name) && name < 0 && Settled(a) && Settled(b)
    ensures Place(s0 + a + [Jump(kind, name)] + b, name, to) == s0 + (a + ([Jump(kind, to)] + b))
  {
    assert s0 + a + [Jump(kind, name)] + b == s0 + (a + ([Jump(kind, name)] + b));
    PlaceTail(s0, a + ([Jump(kind, name)] + b), name, to);
  }

  /** The first label of a two-way branch is placed before the second arm is emitted, the other after it. */
  lemma BranchEmitted(s0: seq<Instr>, c: seq<Instr>, n1: int, a: seq<Instr>, a': seq<Instr>, n2: int, b: seq<Instr>,
      b': seq<Instr>, other: int, end: int)
    requires Free(s0, n1) && Free(s0, n2) && n1 != n2 && n1 < 0 && n2 < 0 && other >= 0
    requires Settled(c) && Place(a, n1, other) == a' && Place(a', n2, end) == a' && Place(b, n2, end) == b'
    ensures Place(Place(s0 + c + [Jump(JZ, n1)] + a + [Jump(JMP, n2)], n1, other) + b, n2, end)
            == s0 + BranchCode(c, other, a', end, b')
  {
    hide Place;
    var inner := c + ([Jump(JZ, n1)] + (a + [Jump(JMP, n2)]));
    assert s0 + c + [Jump(JZ, n1)] + a + [Jump(JMP, n2)] == s0 + inner;
    PlaceTail(s0, inner, n1, other);
    FrontPlaced(c, n1, a, a', n2, other);
    var whole := BranchCode(c, other, a', n2, b);
    assert s0 + (c + ([Jump(JZ, other)] + (a' + [Jump(JMP, n2)]))) + b == s0 + whole;
    PlaceTail(s0, whole, n2, end);
    SettledFree(c, n2);
    PlaceFree(c, n2, end);
    PlaceBranch(c, other, a', n2, b, n2, end);
  }

  lemma FrontPlaced(c: seq<Instr>, n1: int, a: seq<Instr>, a': seq<Instr>, n2: int, other: int)
    requires n1 != n2 && n1 < 0 && Settled(c) && Place(a, n1, other) == a'
    ensures Place(c + ([Jump(JZ, n1)] + (a + [Jump(JMP, n2)])), n1, other)
            == c + ([Jump(JZ, other)] + (a' + [Jump(JMP, n2)]))
  {
    hide Place;
    SettledFree(c, n1);
    PlaceFree(c, n1, other);
    PlaceOne(Jump(JZ, n1), n1, other);
    PlaceOne(Jump(JMP, n2), n1, other);
    PlaceConcat(a, [Jump(JMP, n2)], n1, other);
    PlaceConcat([Jump(JZ, n1)], a + [Jump(JMP, n2)], n1, other);
    PlaceConcat(c, [Jump(JZ, n1)] + (a + [Jump(JMP, n2)]), n1, other);
  }

  // ----- the same for statements; n names the label the construct pushed -----

  /** No jump target in force is the label n. */
  predicate Avoids(l: Labels, n: int) { l.tos != n && l.brk != n && l.cnt != n && l.ret != n }

  lemma IfEmitted(p: Prog, x: Stmt, s0: seq<Instr>, pc: nat, il: bool, l: Labels, n: int)
    requires x.If? && Free(s0, n) && n < 0 && Avoids(l, n)
    ensures var pa := pc + ExprLen(p, x.c, false) + 1;
            Place(s0 + CExpr(p, x.c, false, pc) + [Jump(JZ, n)] + CStmt(p, x.s1, pa, il, l.(tos := n)), n,
                  pa + StmtLen(p, x.s1))
            == s0 + CIf(p, x, pc, il, l)
  {
    hide ExprLen, StmtLen, CExpr, CStmt, Place, Free;
    var pa := pc + ExprLen(p, x.c, false) + 1;
    var end := pa + StmtLen(p, x.s1);
    var c, a := CExpr(p, x.c, false, pc), CStmt(p, x.s1, pa, il, l.(tos := n));
    assert s0 + c + [Jump(JZ, n)] + a == s0 + (c + ([Jump(JZ, n)] + a));
    PlaceTail(s0, c + ([Jump(JZ, n)] + a), n, end);
    PlaceConcat(c, [Jump(JZ, n)] + a, n, end);
    PlaceConcat([Jump(JZ, n)], a, n, end);
    PlaceOne(Jump(JZ, n), n, end);
    PlaceExpr(p, x.c, false, pc, n, end);
    PlaceStmt(p, x.s1, pa, il, l.(tos := n), n, end);
  }

  /** An if statement's code up to its else part: n1 has been placed there, n2 is still open. */
  function ElseRaw(p: Prog, x: Stmt, s0: seq<Instr>, pc: nat, il: bool, l: Labels, n1: int, n2: int): seq<Instr>
    requires x.IfElse?
  {
    var pa := pc + ExprLen(p, x.c, false) + 1;
    Place(s0 + CExpr(p, x.c, false, pc) + [Jump(JZ, n1)] + CStmt(p, x.s1, pa, il, l.(tos := n1)) + [Jump(JMP, n2)],
          n1, pa + StmtLen(p, x.s1) + 1)
  }

  lemma IfElseEmitted(p: Prog, x: Stmt, s0: seq<Instr>, pc: nat, il: bool, l: Labels, n1: int, n2: int)
    requires x.IfElse? && Free(s0, n1) && Free(s0, n2) && n1 < 0 && n2 < 0 && n1 != n2 && Avoids(l, n1) && Avoids(l, n2)
    ensures var pb := pc + ExprLen(p, x.c, false) + StmtLen(p, x.s1) + 2;
            Place(ElseRaw(p, x, s0, pc, il, l, n1, n2) + CStmt(p, x.s2, pb, LoopFlag(x.s1, il), l.(tos := n2)), n2,
                  pb + StmtLen(p, x.s2))
            == s0 + CIfElse(p, x, pc, il, l)
  {
    hide ExprLen, StmtLen, CExpr, CStmt, Place, Free, LoopFlag, Settled;
    var pa := pc + ExprLen(p, x.c, false) + 1;
    var pb := pa + StmtLen(p, x.s1) + 1;
    var end := pb + StmtLen(p, x.s2);
    var jl := LoopFlag(x.s1, il);
    ExprSettled(p, x.c, false, pc);
    PlaceStmt(p, x.s1, pa, il, l.(tos := n1), n1, pb);
    PlaceStmt(p, x.s1, pa, il, l.(tos := pb), n2, end);
    PlaceStmt(p, x.s2, pb, jl, l.(tos := n2), n2, end);
    BranchEmitted(s0, CExpr(p, x.c, false, pc), n1, CStmt(p, x.s1, pa, il, l.(tos := n1)),
                  CStmt(p, x.s1, pa, il, l.(tos := pb)), n2, CStmt(p, x.s2, pb, jl, l.(tos := n2)),
                  CStmt(p, x.s2, pb, jl, l.(tos := end)), pb, end);
  }

  /** A loop tested at the top: its exit label is placed last. */
  lemma LoopEmitted(s0: seq<Instr>, c: seq<Instr>, n: int, body: seq<Instr>, body': seq<Instr>, inc: seq<Instr>,
      top: nat, end: nat)
    requires Free(s0, n) && n < 0 && Settled(c) && Settled(inc) && Place(body, n, end) == body'
    ensures Place(s0 + c + [Jump(JZ, n)] + body + inc + [Jump(JMP, top)], n, end)
            == s0 + LoopCode(c, end, body', inc, top)
  {
    hide Place;
    var whole := LoopCode(c, n, body, inc, top);
    assert s0 + c + [Jump(JZ, n)] + body + inc + [Jump(JMP, top)] == s0 + whole;
    PlaceTail(s0, whole, n, end);
    SettledFree(c, n);
    SettledFree(inc, n);
    PlaceFree(c, n, end);
    PlaceFree(inc, n, end);
    PlaceLoop(c, n, body, inc, top, n, end);
  }

  lemma WhileEmitted(p: Prog, x: Stmt, s0: seq<Instr>, pc: nat, l: Labels, n: int)
    requires x.While? && Free(s0, n) && n < 0 && Avoids(l, n)
    ensures var pa := pc + ExprLen(p, x.c, false) + 1;
            Place(s0 + CExpr(p, x.c, false, pc) + [Jump(JZ, n)] + CStmt(p, x.s, pa, true, l.(tos := n))
                  + [Jump(JMP, pc)], n, pa + StmtLen(p, x.s) + 1)
            == s0 + CWhile(p, x, pc, l)
  {
    hide ExprLen, StmtLen, CExpr, CStmt, Place, Free;
    var pa := pc + ExprLen(p, x.c, false) + 1;
    var end := pa + StmtLen(p, x.s) + 1;
    var body := CStmt(p, x.s, pa, true, l.(tos := n));
    ExprSettled(p, x.c, false, pc);
    PlaceStmt(p, x.s, pa, true, l.(tos := n), n, end);
    var front := s0 + CExpr(p, x.c, false, pc) + [Jump(JZ, n)] + body;
    assert front + [] == front;
    LoopEmitted(s0, CExpr(p, x.c, false, pc), n, body, CStmt(p, x.s, pa, true, l.(tos := end)), [], pc, end);
  }

  /** A do statement's code before its exit label n is placed. */
  function DoRaw(p: Prog, x: Stmt, s0: seq<Instr>, pc: nat, l: Labels, n: int): seq<Instr>
    requires x.DoWhile?
  {
    s0 + CStmt(p, x.s, pc, true, l.(tos := n)) + CExpr(p, x.c, false, pc + StmtLen(p, x.s)) + [Jump(JNZ, pc)]
  }

  lemma DoEmitted(p: Prog, x: Stmt, s0: seq<Instr>, pc: nat, l: Labels, n: int)
    requires x.DoWhile? && Free(s0, n) && n < 0 && Avoids(l, n)
    ensures Place(DoRaw(p, x, s0, pc, l, n), n, pc + StmtLen(p, x.s) + ExprLen(p, x.c, false) + 1)
            == s0 + CDoWhile(p, x, pc, l)
  {
    hide ExprLen, StmtLen, CExpr, CStmt, Place, Free;
    var pt := pc + StmtLen(p, x.s);
    var end := pt + ExprLen(p, x.c, false) + 1;
    var body, c := CStmt(p, x.s, pc, true, l.(tos := n)), CExpr(p, x.c, false, pt);
    assert s0 + body + c + [Jump(JNZ, pc)] == s0 + (body + (c + [Jump(JNZ, pc)]));
    PlaceTail(s0, body + (c + [Jump(JNZ, pc)]), n, end);
    PlaceConcat(body, c + [Jump(JNZ, pc)], n, end);
    PlaceConcat(c, [Jump(JNZ, pc)], n, end);
    PlaceOne(Jump(JNZ, pc), n, end);
    PlaceExpr(p, x.c, false, pt, n, end);
    PlaceStmt(p, x.s, pc, true, l.(tos := n), n, end);
  }

  lemma OptSettled(p: Prog, e: Option<Expr>, pc: nat)
    ensures Settled(COpt(p, e, pc))
  {
    if e.Some? {
      ExprSettled(p, e.value, true, pc);
    }
  }

  /** A for statement's code before its exit label n is placed. */
  function ForRaw(p: Prog, x: Stmt, s0: seq<Instr>, pc: nat, l: Labels, n: int): seq<Instr>
    requires x.For?
  {
    var top := pc + OptLen(p, x.init);
    var pa := top + ExprLen(p, x.c, false) + 1;
    s0 + COpt(p, x.init, pc) + CExpr(p, x.c, false, top) + [Jump(JZ, n)] + CStmt(p, x.s, pa, true, l.(tos := n))
      + COpt(p, x.inc, pa + StmtLen(p, x.s)) + [Jump(JMP, top)]
  }

  /** n is the exit label; m the continue label of the for's own block, when the flag in_loop opened one. */
  lemma ForEmitted(p: Prog, x: Stmt, s0: seq<Instr>, pc: nat, il: bool, l: Labels, n: int, m: int)
    requires x.For? && Free(s0, n) && n < 0 && Avoids(l, n)
    requires il ==> Free(s0, m) && m < 0 && m != n && Avoids(l, m)
    ensures var end := pc + ForLen(p, x.init, x.c, x.inc, StmtLen(p, x.s));
            var placed := Place(ForRaw(p, x, s0, pc, Opened(l, il, m), n), n, end);
            (if il then Place(placed, m, end) else placed) == s0 + CFor(p, x, pc, il, l)
  {
    hide ExprLen, StmtLen, CExpr, CStmt, Place, Free, OptLen, COpt, Settled, LoopCode;
    var top := pc + OptLen(p, x.init);
    var pa := top + ExprLen(p, x.c, false) + 1;
    var pn := pa + StmtLen(p, x.s);
    var end := pn + OptLen(p, x.inc) + 1;
    var li := Opened(l, il, m);
    var init, c, inc := COpt(p, x.init, pc), CExpr(p, x.c, false, top), COpt(p, x.inc, pn);
    ExprSettled(p, x.c, false, top);
    OptSettled(p, x.init, pc);
    OptSettled(p, x.inc, pn);
    SettledFree(init, n);
    FreeConcat(s0, init, n);
    var body, body1 := CStmt(p, x.s, pa, true, li.(tos := n)), CStmt(p, x.s, pa, true, li.(tos := end));
    PlaceStmt(p, x.s, pa, true, li.(tos := n), n, end);
    LoopEmitted(s0 + init, c, n, body, body1, inc, top, end);
    assert s0 + init + LoopCode(c, end, body1, inc, top) == s0 + (init + LoopCode(c, end, body1, inc, top));
    if il {
      PlaceStmt(p, x.s, pa, true, li.(tos := end), m, end);
      PlaceTail(s0, init + LoopCode(c, end, body1, inc, top), m, end);
      PlaceConcat(init, LoopCode(c, end, body1, inc, top), m, end);
      PlaceOpt(p, x.init, pc, m, end);
      PlaceExpr(p, x.c, false, top, m, end);
      PlaceOpt(p, x.inc, pn, m, end);
      PlaceLoop(c, end, body1, inc, top, m, end);
    }
  }

  lemma FreeConcat(a: seq<Instr>, b: seq<Instr>, name: int)
    ensures Free(a + b, name) <==> Free(a, name) && Free(b, name)
  {
    if Free(a + b, name) {
      assert forall i :: 0 <= i < |a| ==> a[i] == (a + b)[i];
      assert forall i :: 0 <= i < |b| ==> b[i] == (a + b)[|a| + i];
    }
  }

  lemma FreePrefix(a: seq<Instr>, whole: seq<Instr>, name: int)
    requires a <= whole && Free(whole, name)
    ensures Free(a, name)
  {
    assert whole == a + whole[|a|..];
    FreeConcat(a, whole[|a|..], name);
  }

  lemma BlockEmitted(p: Prog, x: Stmt, s0: seq<Instr>, pc: nat, l: Labels, m: int)
    requires Free(s0, m) && m < 0 && Avoids(l, m)
    ensures var end := pc + StmtLen(p, x);
            Place(s0 + CStmt(p, x, pc, false, Opened(l, true, m)), m, end)
            == s0 + CStmt(p, x, pc, false, Opened(l, true, end))
  {
    hide StmtLen, CStmt, Place, Free;
    PlaceTail(s0, CStmt(p, x, pc, false, Opened(l, true, m)), m, pc + StmtLen(p, x));
    PlaceStmt(p, x, pc, false, Opened(l, true, m), m, pc + StmtLen(p, x));
  }

  /** A switch statement's code before its block closes. */
  function SwitchRaw(p: Prog, x: Stmt, s0: seq<Instr>, pc: nat, l: Labels): seq<Instr>
    requires x.Switch?
  {
    s0 + CExpr(p, x.e, false, pc) + [JSwitch([])] + CArms(p, x.arms, pc + ExprLen(p, x.e, false) + 1, l)
  }

  /** What closing it does: break placed, table filled in, continue placed. */
  function SwitchClosed(raw: seq<Instr>, end: nat, n: int, start: nat, table: seq<int>, il: bool, m: int): seq<Instr>
    requires start < |raw|
  {
    var tabled := Place(raw, n, end)[start := JSwitch(table)];
    if il then Place(tabled, m, end) else tabled
  }

  /** n is the break label; m the continue label of the switch's block, when in_loop was set. */
  lemma SwitchEmitted(p: Prog, x: Stmt, s0: seq<Instr>, pc: nat, il: bool, l: Labels, n: int, m: int)
    requires x.Switch? && Free(s0, n) && n < 0 && Avoids(l, n) && |s0| == pc
    requires il ==> Free(s0, m) && m < 0 && m != n && Avoids(l, m)
    ensures var start := pc + ExprLen(p, x.e, false);
            var end := start + 1 + ArmsLen(p, x.arms);
            var raw := SwitchRaw(p, x, s0, pc, l.(brk := n, cnt := if il then m else l.cnt));
            && |raw| == end && raw[start] == JSwitch([])
            && SwitchClosed(raw, end, n, start, SwitchTable(p, x.arms, start + 1, end), il, m)
               == s0 + CSwitch(p, x, pc, il, l)
  {
    hide ExprLen, CExpr, Place, Free, ArmsLen, CArms, SwitchTable;
    var pa := pc + ExprLen(p, x.e, false) + 1;
    var end := pa + ArmsLen(p, x.arms);
    var la := l.(brk := n, cnt := if il then m else l.cnt);
    var lb := la.(brk := end);
    var c, i := CExpr(p, x.e, false, pc), JSwitch(SwitchTable(p, x.arms, pa, end));
    var arms, arms1 := CArms(p, x.arms, pa, la), CArms(p, x.arms, pa, lb);
    assert s0 + c + [JSwitch([])] + arms == s0 + (c + ([JSwitch([])] + arms));
    PlaceTail(s0, c + ([JSwitch([])] + arms), n, end);
    PlaceSplit(c, JSwitch([]), arms, n, end);
    PlaceExpr(p, x.e, false, pc, n, end);
    PlaceArms(p, x.arms, pa, la, n, end);
    assert (s0 + (c + ([JSwitch([])] + arms1)))[pa - 1 := i] == s0 + (c + ([i] + arms1));
    if il {
      PlaceTail(s0, c + ([i] + arms1), m, end);
      PlaceSplit(c, i, arms1, m, end);
      PlaceExpr(p, x.e, false, pc, m, end);
      PlaceArms(p, x.arms, pa, lb, m, end);
    }
  }

  lemma PlaceSplit(c: seq<Instr>, i: Instr, d: seq<Instr>, name: int, to: int)
    requires !i.Jump?
    ensures Place(c + ([i] + d), name, to) == Place(c, name, to) + ([i] + Place(d, name, to))
  {
    hide Place;
    PlaceConcat(c, [i] + d, name, to);
    PlaceConcat([i], d, name, to);
    PlaceOne(i, name, to);
  }
}
