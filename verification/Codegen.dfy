/** The pcode for a tree, as a value: what UCContext::compile (underc/sourcecode/src/code.cpp) and the
    statement actions (underc/sourcecode/src/parser.y, common.cpp) leave in the instruction buffer.
    Jump targets are absolute; a negative target names a label that has no place yet. */
module Codegen {
  import opened Machine
  import opened Source

  function OperandOf(x: Var): Operand {
    match x
    case Global(k) => Direct(k)
    case Local(d) => Srel(d)
  }

  /** The table equiv_op. */
  function EquivOp(t: BinTok): AluOp2 {
    match t
    case STAR => MUL
    case DIVIDE => DIV
    case PLUS => ADD
    case MINUS => SUB
    case MODULO => MOD
    case LSHIFT => SHL
    case RSHIFT => SHR
    case BIN_AND => AND
    case BIN_OR => OR
    case BIN_XOR => XOR
    case EQUAL => EQ
    case NOT_EQUAL => NEQ
    case LESS_THAN => LESS
    case GREATER => GREAT
    case LEQ => LE
    case GEQ => GE
  }

  function EquivOp1(t: UnTok): AluOp1 {
    match t
    case UMINUS => NEG
    case LOG_NOT => NOT
  }

  /** No jump in the code waits for a label. */
  predicate Settled(c: seq<Instr>) { forall i :: 0 <= i < |c| && c[i].Jump? ==> c[i].target >= 0 }

  function DupIf(drop: bool): seq<Instr> { if drop then [] else [Dup] }
  function PushIf(drop: bool, x: Var): seq<Instr> { if drop then [] else [PushI(OperandOf(x))] }
  function BumpOf(incr: bool, x: Var): Instr {
    if incr then IncI(OperandOf(x)) else DecI(OperandOf(x))
  }
  function DropIf(p: Prog, f: nat, drop: bool): seq<Instr> {
    if drop && f < |p| && !p[f].isVoid then [Drop] else []
  }

  /** Two-way branch: condition, jump when zero, first arm, jump over the second arm. */
  function BranchCode(c: seq<Instr>, other: int, a: seq<Instr>, end: int, b: seq<Instr>): (r: seq<Instr>)
    ensures |r| == |c| + |a| + |b| + 2
  {
    c + ([Jump(JZ, other)] + (a + ([Jump(JMP, end)] + b)))
  }

  /** Loop tested at the top: condition, jump out when zero, body, increment, jump back. */
  function LoopCode(c: seq<Instr>, end: int, body: seq<Instr>, inc: seq<Instr>, top: int): (r: seq<Instr>)
    ensures |r| == |c| + |body| + |inc| + 2
  {
    c + ([Jump(JZ, end)] + (body + (inc + [Jump(JMP, top)])))
  }

  function ExprLen(p: Prog, e: Expr, drop: bool): nat
    decreases e, 0
  {
    match e
    case Const(_) => 1
    case Ref(_) => 1
    case Un(_, a) => ExprLen(p, a, false) + 1
    case Bin(_, a, b) => ExprLen(p, a, false) + ExprLen(p, b, false) + 1
    case Assign(_, a) => ExprLen(p, a, false) + (if drop then 1 else 2)
    case IncDec(_, _, _) => if drop then 1 else 2
    case Cond(c, a, b) => ExprLen(p, c, false) + ExprLen(p, a, drop) + ExprLen(p, b, drop) + 2
    case LogOr(a, b) => ExprLen(p, a, false) + ExprLen(p, b, false) + 1
    case LogAnd(a, b) => ExprLen(p, a, false) + ExprLen(p, b, false) + 1
    case Comma(a, b) => ExprLen(p, a, true) + ExprLen(p, b, drop)
    case CallE(f, args) => ArgsLen(p, args) + 1 + |DropIf(p, f, drop)|
  }

  function ArgsLen(p: Prog, args: seq<Expr>): nat
    decreases args, 0
  {
    if args == [] then 0
    else ExprLen(p, args[|args| - 1], false) + ArgsLen(p, args[..|args| - 1])
  }

  /** `drop` is the flag DROP_VALUE, which only some forms look at. */
  function CExpr(p: Prog, e: Expr, drop: bool, pc: nat): (c: seq<Instr>)
    ensures |c| == ExprLen(p, e, drop)
    decreases e, 1
  {
    match e
    case Const(v) => [PushI(Lit(v))]
    case Ref(x) => [PushI(OperandOf(x))]
    case Un(_, _) => CUn(p, e, pc)
    case Bin(_, _, _) => CBin(p, e, pc)
    case Assign(_, _) => CAssign(p, e, drop, pc)
    case IncDec(x, incr, post) => CIncDec(x, incr, post, drop)
    case Cond(_, _, _) => CCond(p, e, drop, pc)
    case LogOr(_, _) => CLogic(p, e, pc)
    case LogAnd(_, _) => CLogic(p, e, pc)
    case Comma(_, _) => CComma(p, e, drop, pc)
    case CallE(_, _) => CCall(p, e, drop, pc)
  }

  function CUn(p: Prog, e: Expr, pc: nat): (r: seq<Instr>)
    requires e.Un?
    ensures |r| == ExprLen(p, e, false)
    decreases e, 0
  {
    CExpr(p, e.e, false, pc) + [Alu1(EquivOp1(e.utok))]
  }

  function CBin(p: Prog, e: Expr, pc: nat): (r: seq<Instr>)
    requires e.Bin?
    ensures |r| == ExprLen(p, e, false)
    decreases e, 0
  {
    CExpr(p, e.e1, false, pc)
      + (CExpr(p, e.e2, false, pc + ExprLen(p, e.e1, false)) + [Alu2(EquivOp(e.tok))])
  }

  function CAssign(p: Prog, e: Expr, drop: bool, pc: nat): (r: seq<Instr>)
    requires e.Assign?
    ensures |r| == ExprLen(p, e, drop)
    decreases e, 0
  {
    CExpr(p, e.e, false, pc) + (DupIf(drop) + [PopI(OperandOf(e.x))])
  }

  function CIncDec(x: Var, incr: bool, post: bool, drop: bool): seq<Instr> {
    if post then PushIf(drop, x) + [BumpOf(incr, x)] else [BumpOf(incr, x)] + PushIf(drop, x)
  }

  function CComma(p: Prog, e: Expr, drop: bool, pc: nat): (r: seq<Instr>)
    requires e.Comma?
    ensures |r| == ExprLen(p, e, drop)
    decreases e, 0
  {
    CExpr(p, e.e1, true, pc) + CExpr(p, e.e2, drop, pc + ExprLen(p, e.e1, true))
  }

  function CCall(p: Prog, e: Expr, drop: bool, pc: nat): (r: seq<Instr>)
    requires e.CallE?
    ensures |r| == ExprLen(p, e, drop)
    decreases e, 0
  {
    CArgs(p, e.args, pc) + ([Call(e.f)] + DropIf(p, e.f, drop))
  }

  function CCond(p: Prog, e: Expr, drop: bool, pc: nat): (r: seq<Instr>)
    requires e.Cond?
    ensures |r| == ExprLen(p, e, drop)
    decreases e, 0
  {
    var la := pc + ExprLen(p, e.c, false) + 1;
    var lb := la + ExprLen(p, e.e1, drop) + 1;
    BranchCode(CExpr(p, e.c, false, pc), lb, CExpr(p, e.e1, drop, la), lb + ExprLen(p, e.e2, drop),
               CExpr(p, e.e2, drop, lb))
  }

  /** The raw left operand stays on the stack when the jump is taken. */
  function CLogic(p: Prog, e: Expr, pc: nat): (r: seq<Instr>)
    requires e.LogOr? || e.LogAnd?
    ensures |r| == ExprLen(p, e, false)
    decreases e, 0
  {
    var lb := pc + ExprLen(p, e.e1, false) + 1;
    CExpr(p, e.e1, false, pc)
      + ([Jump(if e.LogOr? then JNZND else JZND, lb + ExprLen(p, e.e2, false))] + CExpr(p, e.e2, false, lb))
  }

  /** Arguments are pushed in reverse order. */
  function CArgs(p: Prog, args: seq<Expr>, pc: nat): (c: seq<Instr>)
    ensures |c| == ArgsLen(p, args)
    decreases args, 0
  {
    if args == [] then []
    else
      var n := |args| - 1;
      CExpr(p, args[n], false, pc) + CArgs(p, args[..n], pc + ExprLen(p, args[n], false))
  }

  function OptLen(p: Prog, e: Option<Expr>): nat {
    if e.Some? then ExprLen(p, e.value, true) else 0
  }
  function COpt(p: Prog, e: Option<Expr>, pc: nat): (c: seq<Instr>)
    ensures |c| == OptLen(p, e)
  {
    if e.Some? then CExpr(p, e.value, true, pc) else []
  }

  function ForLen(p: Prog, i: Option<Expr>, c: Expr, n: Option<Expr>, body: nat): nat {
    OptLen(p, i) + ExprLen(p, c, false) + 1 + body + OptLen(p, n) + 1
  }

  function StmtLen(p: Prog, s: Stmt): nat
    decreases s
  {
    match s
    case Empty => 0
    case ExprS(e) => ExprLen(p, e, true)
    case Seq(a, b) => StmtLen(p, a) + StmtLen(p, b)
    case Block(a) => StmtLen(p, a)
    case If(c, a) => ExprLen(p, c, false) + 1 + StmtLen(p, a)
    case IfElse(c, a, b) => ExprLen(p, c, false) + 1 + StmtLen(p, a) + 1 + StmtLen(p, b)
    case While(c, a) => ExprLen(p, c, false) + 1 + StmtLen(p, a) + 1
    case DoWhile(a, c) => StmtLen(p, a) + ExprLen(p, c, false) + 1
    case For(i, c, n, a) =>
      ForLen(p, i, c, n, StmtLen(p, a))
    case Switch(e, arms) => ExprLen(p, e, false) + 1 + ArmsLen(p, arms)
    case Break => 1
    case Continue => 1
    case Return(None) => 1
    case Return(Some(e)) => ExprLen(p, e, false) + 1
  }

  function ArmsLen(p: Prog, arms: Arms): nat
    decreases arms
  {
    match arms
    case NoArms => 0
    case Arm(_, s, rest) => StmtLen(p, s) + ArmsLen(p, rest)
  }

  /** The parser's flag in_loop after a statement: a block takes it, loops and switches clear it. */
  function LoopFlag(s: Stmt, il: bool): (r: bool)
    ensures !il ==> !r
    decreases s
  {
    match s
    case Seq(a, b) => LoopFlag(b, LoopFlag(a, il))
    case If(_, a) => LoopFlag(a, il)
    case IfElse(_, a, b) => LoopFlag(b, LoopFlag(a, il))
    case Block(_) => false
    case While(_, _) => false
    case DoWhile(_, _) => false
    case For(_, _, _, _) => false
    case Switch(_, _) => false
    case _ => il
  }

  /** Jump targets in force: the top of label_stack, and where break, continue and return go. */
  datatype Labels = Labels(tos: int, brk: int, cnt: int, ret: int)

  /** What init_block does to the targets when in_loop is set: break goes to the top label, continue to
      the end of the block being opened. */
  function Opened(l: Labels, il: bool, end: int): Labels {
    if il then l.(brk := l.tos, cnt := end) else l
  }

  function CStmt(p: Prog, s: Stmt, pc: nat, il: bool, l: Labels): (c: seq<Instr>)
    ensures |c| == StmtLen(p, s)
    decreases s, 1
  {
    match s
    case Empty => []
    case ExprS(e) => CExpr(p, e, true, pc)
    case Seq(a, b) => CStmt(p, a, pc, il, l) + CStmt(p, b, pc + StmtLen(p, a), LoopFlag(a, il), l)
    case Block(a) => CStmt(p, a, pc, false, Opened(l, il, pc + StmtLen(p, a)))
    case If(_, _) => CIf(p, s, pc, il, l)
    case IfElse(_, _, _) => CIfElse(p, s, pc, il, l)
    case While(_, _) => CWhile(p, s, pc, l)
    case DoWhile(_, _) => CDoWhile(p, s, pc, l)
    case For(_, _, _, _) => CFor(p, s, pc, il, l)
    case Switch(_, _) => CSwitch(p, s, pc, il, l)
    case Break => [Jump(JMP, l.brk)]
    case Continue => [Jump(JMP, l.cnt)]
    case Return(None) => [Jump(JMP, l.ret)]
    case Return(Some(e)) => CExpr(p, e, false, pc) + [Jump(JMP, l.ret)]
  }

  function CIf(p: Prog, s: Stmt, pc: nat, il: bool, l: Labels): (r: seq<Instr>)
    requires s.If?
    ensures |r| == StmtLen(p, s)
    decreases s, 0
  {
    var pa := pc + ExprLen(p, s.c, false) + 1;
    var end := pa + StmtLen(p, s.s1);
    CExpr(p, s.c, false, pc) + ([Jump(JZ, end)] + CStmt(p, s.s1, pa, il, l.(tos := end)))
  }

  function CIfElse(p: Prog, s: Stmt, pc: nat, il: bool, l: Labels): (r: seq<Instr>)
    requires s.IfElse?
    ensures |r| == StmtLen(p, s)
    decreases s, 0
  {
    var pa := pc + ExprLen(p, s.c, false) + 1;
    var pb := pa + StmtLen(p, s.s1) + 1;
    var end := pb + StmtLen(p, s.s2);
    BranchCode(CExpr(p, s.c, false, pc), pb, CStmt(p, s.s1, pa, il, l.(tos := pb)), end,
               CStmt(p, s.s2, pb, LoopFlag(s.s1, il), l.(tos := end)))
  }

  function CWhile(p: Prog, s: Stmt, pc: nat, l: Labels): (r: seq<Instr>)
    requires s.While?
    ensures |r| == StmtLen(p, s)
    decreases s, 0
  {
    var pa := pc + ExprLen(p, s.c, false) + 1;
    var end := pa + StmtLen(p, s.s) + 1;
    LoopCode(CExpr(p, s.c, false, pc), end, CStmt(p, s.s, pa, true, l.(tos := end)), [], pc)
  }

  function CDoWhile(p: Prog, s: Stmt, pc: nat, l: Labels): (r: seq<Instr>)
    requires s.DoWhile?
    ensures |r| == StmtLen(p, s)
    decreases s, 0
  {
    var pcond := pc + StmtLen(p, s.s);
    var end := pcond + ExprLen(p, s.c, false) + 1;
    CStmt(p, s.s, pc, true, l.(tos := end)) + (CExpr(p, s.c, false, pcond) + [Jump(JNZ, pc)])
  }

  function CFor(p: Prog, s: Stmt, pc: nat, il: bool, l: Labels): (r: seq<Instr>)
    requires s.For?
    ensures |r| == StmtLen(p, s)
    decreases s, 0
  {
    var top := pc + OptLen(p, s.init);
    var pa := top + ExprLen(p, s.c, false) + 1;
    var pn := pa + StmtLen(p, s.s);
    var end := pn + OptLen(p, s.inc) + 1;
    COpt(p, s.init, pc)
      + LoopCode(CExpr(p, s.c, false, top), end,
                 CStmt(p, s.s, pa, true, Opened(l, il, end).(tos := end)), COpt(p, s.inc, pn), top)
  }

  function CSwitch(p: Prog, s: Stmt, pc: nat, il: bool, l: Labels): (r: seq<Instr>)
    requires s.Switch?
    ensures |r| == StmtLen(p, s)
    decreases s, 0
  {
    var pa := pc + ExprLen(p, s.e, false) + 1;
    var end := pa + ArmsLen(p, s.arms);
    CExpr(p, s.e, false, pc) + ([JSwitch(SwitchTable(p, s.arms, pa, end))]
      + CArms(p, s.arms, pa, l.(brk := end, cnt := if il then end else l.cnt)))
  }

  function CArms(p: Prog, arms: Arms, pc: nat, l: Labels): (c: seq<Instr>)
    ensures |c| == ArmsLen(p, arms)
    decreases arms, 1
  {
    match arms
    case NoArms => []
    case Arm(_, s, rest) => CStmt(p, s, pc, false, l) + CArms(p, rest, pc + StmtLen(p, s), l)
  }

  /** m_list: value and offset of every case, in order of appearance. */
  function CaseList(p: Prog, arms: Arms, pc: nat): (r: seq<int>)
    ensures |r| % 2 == 0
    decreases arms
  {
    match arms
    case NoArms => []
    case Arm(lab, s, rest) =>
      (if lab.Some? then [lab.value, pc] else []) + CaseList(p, rest, pc + StmtLen(p, s))
  }

  /** m_default_jmp: the last default, or 0. */
  function DefaultJump(p: Prog, arms: Arms, pc: nat, sofar: int): int
    decreases arms
  {
    match arms
    case NoArms => sofar
    case Arm(lab, s, rest) =>
      DefaultJump(p, rest, pc + StmtLen(p, s), if lab.None? then pc else sofar)
  }

  /** The block SwitchBlock::construct lays out: count, default, then value and offset pairs. */
  function MakeTable(list: seq<int>, def: int, here: int): seq<int> {
    [|list| / 2, if def == 0 then here else def] + list
  }

  function SwitchTable(p: Prog, arms: Arms, pc: nat, end: int): seq<int> {
    MakeTable(CaseList(p, arms, pc), DefaultJump(p, arms, pc, 0), end)
  }

  /** A finished function before the return-jump peephole: body, the appropriate RETx, end marker. */
  function RetOf(isVoid: bool): Instr { if isVoid then Machine.Instr.Ret else RetI }

  const NOWHERE: Labels := Labels(0, 0, 0, 0)

  function BodyCode(p: Prog, fn: Fun): seq<Instr> {
    CStmt(p, fn.body, 0, false, NOWHERE.(ret := StmtLen(p, fn.body)))
  }

  function PlainBlock(p: Prog, fn: Fun): FBlock {
    FBlock(BodyCode(p, fn) + [RetOf(fn.isVoid), End], fn.nlocal, fn.nargs)
  }

  // ----- static conditions the compiler needs but does not check -----

  /** Forms that honour DROP_VALUE, on every path. */
  predicate Honours(e: Expr)
    decreases e
  {
    match e
    case Assign(_, _) => true
    case IncDec(_, _, _) => true
    case CallE(_, _) => true
    case Comma(_, b) => Honours(b)
    case Cond(_, a, b) => Honours(a) && Honours(b)
    case _ => false
  }

  /** Every comma's left side honours DROP_VALUE, and only functions in `good` are called. */
  ghost predicate Clean(e: Expr, good: iset<nat>)
    decreases e, 0
  {
    match e
    case Un(_, a) => Clean(a, good)
    case Bin(_, a, b) => Clean(a, good) && Clean(b, good)
    case Assign(_, a) => Clean(a, good)
    case Cond(c, a, b) => Clean(c, good) && Clean(a, good) && Clean(b, good)
    case LogOr(a, b) => Clean(a, good) && Clean(b, good)
    case LogAnd(a, b) => Clean(a, good) && Clean(b, good)
    case Comma(a, b) => Clean(a, good) && Honours(a) && Clean(b, good)
    case CallE(f, args) => f in good && CleanArgs(args, good)
    case _ => true
  }

  ghost predicate CleanArgs(args: seq<Expr>, good: iset<nat>)
    decreases args, 0
  {
    args != [] ==> Clean(args[|args| - 1], good) && CleanArgs(args[..|args| - 1], good)
  }

  ghost predicate CleanOpt(e: Option<Expr>, good: iset<nat>) { e.Some? ==> Clean(e.value, good) }

  ghost predicate CleanS(s: Stmt, good: iset<nat>)
    decreases s
  {
    match s
    case ExprS(e) => Clean(e, good)
    case Seq(a, b) => CleanS(a, good) && CleanS(b, good)
    case Block(a) => CleanS(a, good)
    case If(c, a) => Clean(c, good) && CleanS(a, good)
    case IfElse(c, a, b) => Clean(c, good) && CleanS(a, good) && CleanS(b, good)
    case While(c, a) => Clean(c, good) && CleanS(a, good)
    case DoWhile(a, c) => CleanS(a, good) && Clean(c, good)
    case For(i, c, n, a) => CleanOpt(i, good) && Clean(c, good) && CleanOpt(n, good) && CleanS(a, good)
    case Switch(e, arms) => Clean(e, good) && CleanArms(arms, good)
    case Return(e) => CleanOpt(e, good)
    case _ => true
  }

  ghost predicate CleanArms(arms: Arms, good: iset<nat>)
    decreases arms
  {
    arms.Arm? ==> CleanS(arms.s, good) && CleanArms(arms.rest, good)
  }

  /** A break, or a continue, that leaves the statement. */
  predicate Escapes(s: Stmt, isBreak: bool)
    decreases s
  {
    match s
    case Seq(a, b) => Escapes(a, isBreak) || Escapes(b, isBreak)
    case Block(a) => Escapes(a, isBreak)
    case If(_, a) => Escapes(a, isBreak)
    case IfElse(_, a, b) => Escapes(a, isBreak) || Escapes(b, isBreak)
    case Switch(_, arms) => !isBreak && ArmsEscape(arms, isBreak)
    case Break => isBreak
    case Continue => !isBreak
    case _ => false
  }

  predicate ArmsEscape(arms: Arms, isBreak: bool)
    decreases arms
  {
    arms.Arm? && (Escapes(arms.s, isBreak) || ArmsEscape(arms.rest, isBreak))
  }

  /** Every loop whose body has a break or continue of its own has braces around the body, so that the block
      init_block opens next is the loop's. That is enough for them to go where they should; Bound in Binding says
      exactly when they do. */
  predicate Braced(s: Stmt)
    decreases s, 0
  {
    match s
    case Seq(a, b) => Braced(a) && Braced(b)
    case Block(a) => Braced(a)
    case If(_, a) => Braced(a)
    case IfElse(_, a, b) => Braced(a) && Braced(b)
    case While(_, a) => BracedBody(a)
    case DoWhile(a, _) => BracedBody(a)
    case For(_, _, _, a) => BracedBody(a)
    case Switch(_, arms) => BracedArms(arms)
    case _ => true
  }

  predicate BracedBody(s: Stmt)
    decreases s, 1
  {
    Braced(s) && (s.Block? || !(Escapes(s, true) || Escapes(s, false)))
  }

  predicate BracedArms(arms: Arms)
    decreases arms, 0
  {
    arms.Arm? ==> Braced(arms.s) && BracedArms(arms.rest)
  }

  /** Every expression statement honours DROP_VALUE: no droppings on the stack. */
  predicate Tidy(s: Stmt)
    decreases s
  {
    match s
    case ExprS(e) => Honours(e)
    case Seq(a, b) => Tidy(a) && Tidy(b)
    case Block(a) => Tidy(a)
    case If(_, a) => Tidy(a)
    case IfElse(_, a, b) => Tidy(a) && Tidy(b)
    case While(_, a) => Tidy(a)
    case DoWhile(a, _) => Tidy(a)
    case For(i, _, n, a) =>
      && (i.Some? ==> Honours(i.value)) && (n.Some? ==> Honours(n.value)) && Tidy(a)
    case Switch(_, arms) => TidyArms(arms)
    case _ => true
  }

  predicate TidyArms(arms: Arms)
    decreases arms
  {
    arms.Arm? ==> Tidy(arms.s) && TidyArms(arms.rest)
  }
}
