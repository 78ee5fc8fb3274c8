/** The end of a function's code as FunctionContext::finalize (underc/sourcecode/src/function.cpp) leaves it, and
    when its treatment of a trailing return jump is sound. */
module Finish {
  import opened Machine
  import opened Source
  import opened Codegen
  import opened Placing

  /** The name of the return label while a function's body is compiled: it is the function's first label. */
  const RETNAME: int := -1

  predicate EndsInHop(c: seq<Instr>) { c != [] && c[|c| - 1] == Jump(JMP, |c|) }

  /** `raw` still names the return label. Once that is placed at the end, a jump at the very end to just past
      itself is taken out, and the return label, but no other, is placed again. */
  function Finalized(raw: seq<Instr>, name: int): seq<Instr> {
    var n := |raw|;
    if EndsInHop(Place(raw, name, n)) then Place(raw[..n - 1], name, n - 1) else Place(raw, name, n)
  }

  function RawBody(p: Prog, fn: Fun): seq<Instr> {
    CStmt(p, fn.body, 0, false, NOWHERE.(ret := RETNAME))
  }

  function FinalBlock(p: Prog, fn: Fun): FBlock {
    FBlock(Finalized(RawBody(p, fn), RETNAME) + [RetOf(fn.isVoid), End], fn.nlocal, fn.nargs)
  }

  lemma RawPlaced(p: Prog, fn: Fun)
    ensures Place(RawBody(p, fn), RETNAME, |RawBody(p, fn)|) == BodyCode(p, fn)
  {
    hide StmtLen, CStmt, Place;
    PlaceStmt(p, fn.body, 0, false, NOWHERE.(ret := RETNAME), RETNAME, |RawBody(p, fn)|);
  }

  // ----- taking the jump out properly: every target past it moves -----

  /** Where an offset moves when the instruction at n - 1 is taken out. */
  function Shift(t: int, n: int): int { if t >= n then t - 1 else t }

  function ShiftBlock(b: seq<int>, n: int): (r: seq<int>)
    ensures |r| == |b|
  {
    seq(|b|, k requires 0 <= k < |b| => if k % 2 == 1 then Shift(b[k], n) else b[k])
  }

  function ShiftI(i: Instr, n: int): Instr {
    match i
    case Jump(kind, t) => Jump(kind, Shift(t, n))
    case JSwitch(block) => JSwitch(ShiftBlock(block, n))
    case _ => i
  }

  /** Code that ends in a jump to its own end, without that jump and with every target moved along. */
  function Squeeze(c: seq<Instr>): (r: seq<Instr>)
    requires EndsInHop(c)
    ensures |r| == |c| - 1 && forall k :: 0 <= k < |r| ==> r[k] == ShiftI(c[k], |c|)
  {
    seq(|c| - 1, k requires 0 <= k < |c| - 1 => ShiftI(c[k], |c|))
  }

  // ----- when the two agree -----

  /** The instruction goes to the return label, or to somewhere before offset n. */
  predicate LandsBefore(i: Instr, name: int, n: int) {
    match i
    case Jump(_, t) => t == name || t < n
    case JSwitch(block) => forall k :: 0 <= k < |block| && k % 2 == 1 ==> block[k] < n
    case _ => true
  }

  predicate AllBefore(c: seq<Instr>, name: int, n: int) { forall k :: 0 <= k < |c| ==> LandsBefore(c[k], name, n) }

  lemma SameMove(i: Instr, name: int, n: nat)
    requires n > 0 && name < 0
    ensures PlaceI(i, name, n - 1) == ShiftI(PlaceI(i, name, n), n) <==> LandsBefore(i, name, n)
  {
    if i.JSwitch? {
      if LandsBefore(i, name, n) {
        assert ShiftBlock(i.block, n) == i.block;
      } else {
        var k :| 0 <= k < |i.block| && k % 2 == 1 && i.block[k] >= n;
        assert ShiftBlock(i.block, n)[k] != i.block[k];
      }
    }
  }

  /** The finished code is the properly squeezed code exactly when nothing but returns goes to its end. */
  lemma FinalizedIsSqueezed(raw: seq<Instr>, name: int)
    requires name < 0 && EndsInHop(Place(raw, name, |raw|))
    ensures Finalized(raw, name) == Squeeze(Place(raw, name, |raw|)) <==> AllBefore(raw[..|raw| - 1], name, |raw|)
  {
    var n := |raw|;
    var front, a, b := raw[..n - 1], Finalized(raw, name), Squeeze(Place(raw, name, n));
    forall k | 0 <= k < n - 1
      ensures a[k] == b[k] <==> LandsBefore(front[k], name, n)
    {
      SameMove(raw[k], name, n);
    }
    if AllBefore(front, name, n) {
      assert a == b;
    }
    if a == b {
      forall k | 0 <= k < n - 1
        ensures LandsBefore(front[k], name, n)
      {
        assert a[k] == b[k];
      }
    }
  }

  // ----- a static reason: a function whose last statement is a plain return -----

  /** The instruction goes to the label `name`, or to an offset below n, and does not return. */
  predicate LandsInside(i: Instr, name: int, n: int) {
    LandsBefore(i, name, n) && (i.Jump? ==> i.target == name || i.target >= 0) && !i.Ret? && !i.RetI?
  }

  predicate AllInside(c: seq<Instr>, name: int, n: int) { forall k :: 0 <= k < |c| ==> LandsInside(c[k], name, n) }

  lemma InsideConcat(a: seq<Instr>, b: seq<Instr>, name: int, n: int)
    requires AllInside(a, name, n) && AllInside(b, name, n)
    ensures AllInside(a + b, name, n)
  {}

  /** An expression's jumps stay inside its code or go to its end. */
  lemma {:induction false} ExprTargets(p: Prog, e: Expr, drop: bool, pc: nat, name: int, n: int)
    requires pc + ExprLen(p, e, drop) < n
    ensures AllInside(CExpr(p, e, drop, pc), name, n)
    decreases e, 2
  {
    match e
    case Cond(_, _, _) => ForkTargets(p, e, drop, pc, name, n);
    case LogOr(_, _) => ForkTargets(p, e, drop, pc, name, n);
    case LogAnd(_, _) => ForkTargets(p, e, drop, pc, name, n);
    case CallE(_, args) => ArgsTargets(p, args, pc, name, n);
    case _ => PlainTargets(p, e, drop, pc, name, n);
  }

  lemma {:induction false} PlainTargets(p: Prog, e: Expr, drop: bool, pc: nat, name: int, n: int)
    requires !(e.Cond? || e.LogOr? || e.LogAnd? || e.CallE?) && pc + ExprLen(p, e, drop) < n
    ensures AllInside(CExpr(p, e, drop, pc), name, n)
    decreases e, 1
  {
    if e.Un? || e.Assign? {
      ExprTargets(p, e.e, false, pc, name, n);
    } else if e.Bin? || e.Comma? {
      ChainTargets(p, e, drop, pc, name, n);
    }
  }

  lemma {:induction false} ChainTargets(p: Prog, e: Expr, drop: bool, pc: nat, name: int, n: int)
    requires (e.Bin? || e.Comma?) && pc + ExprLen(p, e, drop) < n
    ensures e.Bin? ==> AllInside(CBin(p, e, pc), name, n)
    ensures e.Comma? ==> AllInside(CComma(p, e, drop, pc), name, n)
    decreases e, 0
  {
    hide CExpr;
    ExprTargets(p, e.e1, e.Comma?, pc, name, n);
    ExprTargets(p, e.e2, e.Comma? && drop, pc + ExprLen(p, e.e1, e.Comma?), name, n);
  }

  lemma {:induction false} ForkTargets(p: Prog, e: Expr, drop: bool, pc: nat, name: int, n: int)
    requires (e.Cond? || e.LogOr? || e.LogAnd?) && pc + ExprLen(p, e, drop) < n
    ensures e.Cond? ==> AllInside(CCond(p, e, drop, pc), name, n)
    ensures !e.Cond? ==> AllInside(CLogic(p, e, pc), name, n)
    decreases e, 0
  {
    hide CExpr, ExprLen, AllInside;
    ForkLens(p, e, drop);
    if e.Cond? {
      var la := pc + ExprLen(p, e.c, false) + 1;
      var lb := la + ExprLen(p, e.e1, drop) + 1;
      ExprTargets(p, e.c, false, pc, name, n);
      ExprTargets(p, e.e1, drop, la, name, n);
      ExprTargets(p, e.e2, drop, lb, name, n);
      BranchTargets(CExpr(p, e.c, false, pc), lb, CExpr(p, e.e1, drop, la), lb + ExprLen(p, e.e2, drop),
                    CExpr(p, e.e2, drop, lb), name, n);
    } else {
      var lb := pc + ExprLen(p, e.e1, false) + 1;
      var i := Jump(if e.LogOr? then JNZND else JZND, lb + ExprLen(p, e.e2, false));
      ExprTargets(p, e.e1, false, pc, name, n);
      ExprTargets(p, e.e2, false, lb, name, n);
      JumpInside(i, CExpr(p, e.e2, false, lb), name, n);
      InsideConcat(CExpr(p, e.e1, false, pc), [i] + CExpr(p, e.e2, false, lb), name, n);
    }
  }

  lemma ForkLens(p: Prog, e: Expr, drop: bool)
    requires e.Cond? || e.LogOr? || e.LogAnd?
    ensures e.Cond? ==>
              ExprLen(p, e, drop) == ExprLen(p, e.c, false) + ExprLen(p, e.e1, drop) + ExprLen(p, e.e2, drop) + 2
    ensures !e.Cond? ==> ExprLen(p, e, drop) == ExprLen(p, e.e1, false) + ExprLen(p, e.e2, false) + 1
  {}

  lemma NothingInside(name: int, n: int)
    ensures AllInside([], name, n)
  {}

  lemma JumpInside(i: Instr, c: seq<Instr>, name: int, n: int)
    requires i.Jump? && 0 <= i.target < n && AllInside(c, name, n)
    ensures AllInside([i] + c, name, n)
  {}

  lemma BranchTargets(c: seq<Instr>, other: int, a: seq<Instr>, end: int, b: seq<Instr>, name: int, n: int)
    requires AllInside(c, name, n) && AllInside(a, name, n) && AllInside(b, name, n) && 0 <= other < n && 0 <= end < n
    ensures AllInside(BranchCode(c, other, a, end, b), name, n)
  {
    hide AllInside;
    JumpInside(Jump(JMP, end), b, name, n);
    InsideConcat(a, [Jump(JMP, end)] + b, name, n);
    JumpInside(Jump(JZ, other), a + ([Jump(JMP, end)] + b), name, n);
    InsideConcat(c, [Jump(JZ, other)] + (a + ([Jump(JMP, end)] + b)), name, n);
  }

  lemma {:induction false} ArgsTargets(p: Prog, args: seq<Expr>, pc: nat, name: int, n: int)
    requires pc + ArgsLen(p, args) < n
    ensures AllInside(CArgs(p, args, pc), name, n)
    decreases args, 2
  {
    if args != [] {
      ExprTargets(p, args[|args| - 1], false, pc, name, n);
      ArgsTargets(p, args[..|args| - 1], pc + ExprLen(p, args[|args| - 1], false), name, n);
    }
  }

  predicate LabelsInside(l: Labels, n: int) { 0 <= l.tos < n && 0 <= l.brk < n && 0 <= l.cnt < n }

  /** A statement's jumps go no further than its end, or where the labels in force say. */
  lemma {:induction false} StmtTargets(p: Prog, x: Stmt, pc: nat, il: bool, l: Labels, n: int)
    requires LabelsInside(l, n) && pc + StmtLen(p, x) < n
    ensures AllInside(CStmt(p, x, pc, il, l), l.ret, n)
    decreases x, 2
  {
    hide ExprLen, CExpr;
    match x
    case ExprS(e) => ExprTargets(p, e, true, pc, l.ret, n);
    case Seq(a, b) =>
      StmtTargets(p, a, pc, il, l, n);
      StmtTargets(p, b, pc + StmtLen(p, a), LoopFlag(a, il), l, n);
    case Block(a) => StmtTargets(p, a, pc, false, Opened(l, il, pc + StmtLen(p, a)), n);
    case If(_, _) => IfTargets(p, x, pc, il, l, n);
    case IfElse(_, _, _) => IfTargets(p, x, pc, il, l, n);
    case While(_, _) => LoopTargets(p, x, pc, il, l, n);
    case DoWhile(_, _) => LoopTargets(p, x, pc, il, l, n);
    case For(_, _, _, _) => ForTargets(p, x, pc, il, l, n);
    case Switch(_, _) => SwitchTargets(p, x, pc, il, l, n);
    case Return(e) =>
      if e.Some? {
        ExprTargets(p, e.value, false, pc, l.ret, n);
      }
    case _ =>
  }

  lemma {:induction false} IfTargets(p: Prog, x: Stmt, pc: nat, il: bool, l: Labels, n: int)
    requires (x.If? || x.IfElse?) && LabelsInside(l, n) && pc + StmtLen(p, x) < n
    ensures AllInside(CStmt(p, x, pc, il, l), l.ret, n)
    decreases x, 1
  {
    hide ExprLen, CExpr;
    var pa := pc + ExprLen(p, x.c, false) + 1;
    var pb := pa + StmtLen(p, x.s1) + 1;
    ExprTargets(p, x.c, false, pc, l.ret, n);
    if x.If? {
      StmtTargets(p, x.s1, pa, il, l.(tos := pb - 1), n);
    } else {
      StmtTargets(p, x.s1, pa, il, l.(tos := pb), n);
      StmtTargets(p, x.s2, pb, LoopFlag(x.s1, il), l.(tos := pb + StmtLen(p, x.s2)), n);
    }
  }

  lemma {:induction false} LoopTargets(p: Prog, x: Stmt, pc: nat, il: bool, l: Labels, n: int)
    requires (x.While? || x.DoWhile?) && LabelsInside(l, n) && pc + StmtLen(p, x) < n
    ensures AllInside(CStmt(p, x, pc, il, l), l.ret, n)
    decreases x, 1
  {
    hide ExprLen, CExpr;
    if x.While? {
      var pa := pc + ExprLen(p, x.c, false) + 1;
      ExprTargets(p, x.c, false, pc, l.ret, n);
      StmtTargets(p, x.s, pa, true, l.(tos := pa + StmtLen(p, x.s) + 1), n);
    } else {
      var pt := pc + StmtLen(p, x.s);
      StmtTargets(p, x.s, pc, true, l.(tos := pt + ExprLen(p, x.c, false) + 1), n);
      ExprTargets(p, x.c, false, pt, l.ret, n);
    }
  }

  lemma {:induction false} ForTargets(p: Prog, x: Stmt, pc: nat, il: bool, l: Labels, n: int)
    requires x.For? && LabelsInside(l, n) && pc + |CFor(p, x, pc, il, l)| < n
    ensures AllInside(CFor(p, x, pc, il, l), l.ret, n)
    decreases x, 1
  {
    hide ExprLen, CExpr, COpt, OptLen, StmtLen, CStmt, AllInside;
    var top := pc + OptLen(p, x.init);
    var pa := top + ExprLen(p, x.c, false) + 1;
    var pn := pa + StmtLen(p, x.s);
    var end := pn + OptLen(p, x.inc) + 1;
    OptTargets(p, x.init, pc, l.ret, n);
    ExprTargets(p, x.c, false, top, l.ret, n);
    StmtTargets(p, x.s, pa, true, Opened(l, il, end).(tos := end), n);
    OptTargets(p, x.inc, pn, l.ret, n);
    LoopCodeTargets(CExpr(p, x.c, false, top), end, CStmt(p, x.s, pa, true, Opened(l, il, end).(tos := end)),
                    COpt(p, x.inc, pn), top, l.ret, n);
    InsideConcat(COpt(p, x.init, pc),
                 LoopCode(CExpr(p, x.c, false, top), end, CStmt(p, x.s, pa, true, Opened(l, il, end).(tos := end)),
                          COpt(p, x.inc, pn), top), l.ret, n);
  }

  lemma LoopCodeTargets(c: seq<Instr>, end: int, body: seq<Instr>, inc: seq<Instr>, top: int, name: int, n: int)
    requires AllInside(c, name, n) && AllInside(body, name, n) && AllInside(inc, name, n)
    requires 0 <= end < n && 0 <= top < n
    ensures AllInside(LoopCode(c, end, body, inc, top), name, n)
  {
    hide AllInside;
    NothingInside(name, n);
    JumpInside(Jump(JMP, top), [], name, n);
    assert [Jump(JMP, top)] + [] == [Jump(JMP, top)];
    InsideConcat(inc, [Jump(JMP, top)], name, n);
    InsideConcat(body, inc + [Jump(JMP, top)], name, n);
    JumpInside(Jump(JZ, end), body + (inc + [Jump(JMP, top)]), name, n);
    InsideConcat(c, [Jump(JZ, end)] + (body + (inc + [Jump(JMP, top)])), name, n);
  }

  lemma OptTargets(p: Prog, e: Option<Expr>, pc: nat, name: int, n: int)
    requires pc + OptLen(p, e) < n
    ensures AllInside(COpt(p, e, pc), name, n)
  {
    hide ExprLen, CExpr;
    if e.Some? {
      ExprTargets(p, e.value, true, pc, name, n);
    }
  }

  lemma {:induction false} SwitchTargets(p: Prog, x: Stmt, pc: nat, il: bool, l: Labels, n: int)
    requires x.Switch? && LabelsInside(l, n) && pc + StmtLen(p, x) < n
    ensures AllInside(CSwitch(p, x, pc, il, l), l.ret, n)
    decreases x, 1
  {
    hide ExprLen, CExpr, AllInside, CArms, ArmsLen, CaseList, DefaultJump;
    var pa := pc + ExprLen(p, x.e, false) + 1;
    var end := pa + ArmsLen(p, x.arms);
    ExprTargets(p, x.e, false, pc, l.ret, n);
    ArmsTargets(p, x.arms, pa, l.(brk := end, cnt := if il then end else l.cnt), n);
    var table := SwitchTable(p, x.arms, pa, end);
    var arms := CArms(p, x.arms, pa, l.(brk := end, cnt := if il then end else l.cnt));
    TableTargets(p, x.arms, pa, 0, n);
    TableInside(CaseList(p, x.arms, pa), DefaultJump(p, x.arms, pa, 0), end, l.ret, n);
    InsideConcat([JSwitch(table)], arms, l.ret, n);
    InsideConcat(CExpr(p, x.e, false, pc), [JSwitch(table)] + arms, l.ret, n);
  }

  lemma TableInside(list: seq<int>, def: int, here: int, name: int, n: int)
    requires def < n && here < n && forall k :: 0 <= k < |list| && k % 2 == 1 ==> list[k] < n
    ensures AllInside([JSwitch(MakeTable(list, def, here))], name, n)
  {
    var table := MakeTable(list, def, here);
    forall k | 0 <= k < |table| && k % 2 == 1
      ensures table[k] < n
    {
      assert k > 2 ==> table[k] == list[k - 2];
    }
  }

  lemma {:induction false} ArmsTargets(p: Prog, arms: Arms, pc: nat, l: Labels, n: int)
    requires LabelsInside(l, n) && pc + ArmsLen(p, arms) < n
    ensures AllInside(CArms(p, arms, pc, l), l.ret, n)
    decreases arms, 2
  {
    if arms.Arm? {
      StmtTargets(p, arms.s, pc, false, l, n);
      ArmsTargets(p, arms.rest, pc + StmtLen(p, arms.s), l, n);
    }
  }

  lemma {:induction false} TableTargets(p: Prog, arms: Arms, pc: nat, sofar: int, n: int)
    requires sofar < n && pc + ArmsLen(p, arms) < n
    ensures forall k :: 0 <= k < |CaseList(p, arms, pc)| && k % 2 == 1 ==> CaseList(p, arms, pc)[k] < n
    ensures DefaultJump(p, arms, pc, sofar) < n
    decreases arms
  {
    hide StmtLen;
    if arms.Arm? {
      TableTargets(p, arms.rest, pc + StmtLen(p, arms.s), if arms.lab.None? then pc else sofar, n);
    }
  }

  /** Once the return label is placed no jump waits for a label. */
  lemma BodySettled(p: Prog, fn: Fun)
    ensures Settled(Place(RawBody(p, fn), RETNAME, |RawBody(p, fn)|))
  {
    hide StmtLen, CStmt;
    StmtTargets(p, fn.body, 0, false, NOWHERE.(ret := RETNAME), |RawBody(p, fn)| + 1);
  }

  /** What finalize does to a function is sound: nothing but returns goes to the end when a jump is taken out. */
  predicate SafelyFinished(p: Prog, fn: Fun) {
    var raw := RawBody(p, fn);
    EndsInHop(BodyCode(p, fn)) ==> AllBefore(raw[..|raw| - 1], RETNAME, |raw|)
  }

  /** It is sound for every function whose last statement is a return. */
  lemma ReturnLastIsSafe(p: Prog, fn: Fun)
    requires fn.body.Seq? && fn.body.s2.Return?
    ensures SafelyFinished(p, fn) && EndsInHop(BodyCode(p, fn))
  {
    hide ExprLen, CExpr;
    var a, e, l := fn.body.s1, fn.body.s2.res, NOWHERE.(ret := RETNAME);
    var raw, k := RawBody(p, fn), StmtLen(p, a);
    var n := |raw|;
    var c := if e.Some? then CExpr(p, e.value, false, k) else [];
    StmtTargets(p, a, 0, false, l, n);
    if e.Some? {
      ExprTargets(p, e.value, false, k, RETNAME, n);
    }
    assert CStmt(p, fn.body.s2, k, LoopFlag(a, false), l) == c + [Jump(JMP, RETNAME)];
    assert raw == CStmt(p, a, 0, false, l) + (c + [Jump(JMP, RETNAME)]);
    assert raw[..n - 1] == CStmt(p, a, 0, false, l) + c;
    RawPlaced(p, fn);
    InsideConcat(CStmt(p, a, 0, false, l), c, RETNAME, n);
  }
}
