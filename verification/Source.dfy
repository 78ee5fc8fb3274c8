/** The expression trees and statements the parser hands to the code generator, and what they mean. */
module Source {
  import opened Arith

  datatype Var = Global(k: nat) | Local(d: int)

  datatype UnTok = UMINUS | LOG_NOT
  datatype BinTok = STAR | DIVIDE | PLUS | MINUS | MODULO | LSHIFT | RSHIFT | BIN_AND | BIN_OR | BIN_XOR
                  | EQUAL | NOT_EQUAL | LESS_THAN | GREATER | LEQ | GEQ

  datatype Expr =
    | Const(v: int)
    | Ref(x: Var)
    | Un(utok: UnTok, e: Expr)
    | Bin(tok: BinTok, e1: Expr, e2: Expr)
    | Assign(x: Var, e: Expr)
    | IncDec(x: Var, incr: bool, post: bool)
    | Cond(c: Expr, e1: Expr, e2: Expr)
    | LogOr(e1: Expr, e2: Expr)
    | LogAnd(e1: Expr, e2: Expr)
    | Comma(e1: Expr, e2: Expr)
    | CallE(f: nat, args: seq<Expr>)

  datatype Option<T> = None | Some(value: T)

  datatype Stmt =
    | Empty
    | ExprS(e: Expr)
    | Seq(s1: Stmt, s2: Stmt)
    | Block(s: Stmt)
    | If(c: Expr, s1: Stmt)
    | IfElse(c: Expr, s1: Stmt, s2: Stmt)
    | While(c: Expr, s: Stmt)
    | DoWhile(s: Stmt, c: Expr)
    | For(init: Option<Expr>, c: Expr, inc: Option<Expr>, s: Stmt)  // an absent condition is the constant 1
    | Switch(e: Expr, arms: Arms)
    | Break
    | Continue
    | Return(res: Option<Expr>)

  /** A switch body: statements cut at their labels; `Arm(None, ..)` is `default:`. */
  datatype Arms = NoArms | Arm(lab: Option<int>, s: Stmt, rest: Arms)

  datatype Fun = Fun(isVoid: bool, nargs: nat, nlocal: nat, body: Stmt)
  type Prog = seq<Fun>

  /** Global words, and the initialised words of the current frame by their offset from baseSP. */
  datatype Store = Store(glob: seq<int>, loc: map<int, int>)

  /** NoVal: a call of a void function. Fault: a divide error. Undef: the language gives no meaning
      (an uninitialised local, a missing return value, ill-typed use). Timeout: fuel ran out. */
  datatype Res = Val(v: int, st: Store) | NoVal(st: Store) | Fault | Undef | Timeout
  datatype ArgsRes = Vals(vs: seq<int>, st: Store) | ABad(r: Res)
  datatype Out = Normal(st: Store) | Brk(st: Store) | Cnt(st: Store) | Returned(v: Option<int>, st: Store)
               | OFault | OUndef | OTimeout

  predicate HasValue(fn: Fun, st: Store, x: Var) {
    match x
    case Global(k) => k < |st.glob|
    case Local(d) => d in st.loc && InFrame(fn, d)
  }

  predicate InFrame(fn: Fun, d: int) { 0 <= d + fn.nlocal && d < fn.nargs }

  function ValueOf(fn: Fun, st: Store, x: Var): int
    requires HasValue(fn, st, x)
  {
    match x
    case Global(k) => st.glob[k]
    case Local(d) => st.loc[d]
  }

  predicate Assignable(fn: Fun, st: Store, x: Var) {
    match x
    case Global(k) => k < |st.glob|
    case Local(d) => InFrame(fn, d)
  }

  function Update(fn: Fun, st: Store, x: Var, v: int): Store
    requires Assignable(fn, st, x)
  {
    match x
    case Global(k) => st.(glob := st.glob[k := v])
    case Local(d) => st.(loc := st.loc[d := v])
  }

  function UnMeaning(t: UnTok, a: int): int {
    match t
    case UMINUS => Wrap(-a)
    case LOG_NOT => if a == 0 then 1 else 0
  }

  /** What a C++ operator does to two 32-bit ints; None is a divide error. */
  function BinMeaning(t: BinTok, a: int, b: int): Option<int> {
    match t
    case STAR => Some(Wrap(a * b))
    case DIVIDE => if DivideError(a, b) then None else Some(TruncDiv(a, b))
    case PLUS => Some(Wrap(a + b))
    case MINUS => Some(Wrap(a - b))
    case MODULO => if DivideError(a, b) then None else Some(a - b * TruncDiv(a, b))
    case LSHIFT => Some(ShiftLeft(a, b))
    case RSHIFT => Some(ShiftRight(a, b))
    case BIN_AND => Some(Bitwise(AndF, a, b))
    case BIN_OR => Some(Bitwise(OrF, a, b))
    case BIN_XOR => Some(Bitwise(XorF, a, b))
    case EQUAL => Some(if a == b then 1 else 0)
    case NOT_EQUAL => Some(if a == b then 0 else 1)
    case LESS_THAN => Some(if a < b then 1 else 0)
    case GREATER => Some(if b < a then 1 else 0)
    case LEQ => Some(if b < a then 0 else 1)
    case GEQ => Some(if a < b then 0 else 1)
  }

  /** Operands must have values; anything else is the result of the whole. */
  function NeedVal(r: Res): Res { if r.NoVal? then Undef else r }

  function Eval(p: Prog, fn: Fun, e: Expr, st: Store, fuel: nat): Res
    decreases fuel, e, 1
  {
    match e
    case Const(v) => Val(v, st)
    case Ref(x) => EvalRef(fn, x, st)
    case Un(_, _) => EvalUn(p, fn, e, st, fuel)
    case Bin(_, _, _) => EvalBin(p, fn, e, st, fuel)
    case Assign(_, _) => EvalAssign(p, fn, e, st, fuel)
    case IncDec(x, incr, post) => EvalIncDec(fn, x, incr, post, st)
    case Cond(_, _, _) => EvalCond(p, fn, e, st, fuel)
    case LogOr(_, _) => EvalLogic(p, fn, e, st, fuel)
    case LogAnd(_, _) => EvalLogic(p, fn, e, st, fuel)
    case Comma(_, _) => EvalComma(p, fn, e, st, fuel)
    case CallE(_, _) => EvalCall(p, fn, e, st, fuel)
  }

  function EvalRef(fn: Fun, x: Var, st: Store): Res {
    if HasValue(fn, st, x) then Val(ValueOf(fn, st, x), st) else Undef
  }

  function EvalUn(p: Prog, fn: Fun, e: Expr, st: Store, fuel: nat): Res
    requires e.Un?
    decreases fuel, e, 0
  {
    var r := NeedVal(Eval(p, fn, e.e, st, fuel));
    if r.Val? then Val(UnMeaning(e.utok, r.v), r.st) else r
  }

  function EvalBin(p: Prog, fn: Fun, e: Expr, st: Store, fuel: nat): Res
    requires e.Bin?
    decreases fuel, e, 0
  {
    var r := NeedVal(Eval(p, fn, e.e1, st, fuel));
    if !r.Val? then r else
      var q := NeedVal(Eval(p, fn, e.e2, r.st, fuel));
      if !q.Val? then q else
        var m := BinMeaning(e.tok, r.v, q.v);
        if m.Some? then Val(m.value, q.st) else Fault
  }

  function EvalAssign(p: Prog, fn: Fun, e: Expr, st: Store, fuel: nat): Res
    requires e.Assign?
    decreases fuel, e, 0
  {
    var r := NeedVal(Eval(p, fn, e.e, st, fuel));
    if !r.Val? then r
    else if Assignable(fn, r.st, e.x) then Val(r.v, Update(fn, r.st, e.x, r.v)) else Undef
  }

  function EvalIncDec(fn: Fun, x: Var, incr: bool, post: bool, st: Store): Res {
    if !HasValue(fn, st, x) then Undef else
      var v := ValueOf(fn, st, x);
      var w := Wrap(if incr then v + 1 else v - 1);
      Val(if post then v else w, Update(fn, st, x, w))
  }

  function EvalCond(p: Prog, fn: Fun, e: Expr, st: Store, fuel: nat): Res
    requires e.Cond?
    decreases fuel, e, 0
  {
    var r := NeedVal(Eval(p, fn, e.c, st, fuel));
    if !r.Val? then r
    else if r.v != 0 then Eval(p, fn, e.e1, r.st, fuel) else Eval(p, fn, e.e2, r.st, fuel)
  }

  /** `||` and `&&` yield the raw operand that decided, not 0 or 1. */
  function EvalLogic(p: Prog, fn: Fun, e: Expr, st: Store, fuel: nat): Res
    requires e.LogOr? || e.LogAnd?
    decreases fuel, e, 0
  {
    var r := NeedVal(Eval(p, fn, e.e1, st, fuel));
    if r.Val? && (r.v == 0) == e.LogOr? then NeedVal(Eval(p, fn, e.e2, r.st, fuel)) else r
  }

  function EvalComma(p: Prog, fn: Fun, e: Expr, st: Store, fuel: nat): Res
    requires e.Comma?
    decreases fuel, e, 0
  {
    var r := Eval(p, fn, e.e1, st, fuel);
    if r.Val? || r.NoVal? then Eval(p, fn, e.e2, r.st, fuel) else r
  }

  function EvalCall(p: Prog, fn: Fun, e: Expr, st: Store, fuel: nat): Res
    requires e.CallE?
    decreases fuel, e, 0
  {
    var r := EvalArgs(p, fn, e.args, st, fuel);
    if r.ABad? then r.r
    else if e.f >= |p| || |e.args| != p[e.f].nargs then Undef
    else if fuel == 0 then Timeout
    else CallResult(p[e.f].isVoid, r.st, Body(p, e.f, r.vs, r.st.glob, fuel - 1))
  }

  /** What the caller sees of a finished body: its value, and what it did to the globals. */
  function CallResult(isVoid: bool, st: Store, o: Out): Res {
    match o
    case OFault => Fault
    case OTimeout => Timeout
    case Returned(Some(v), st') => if isVoid then Undef else Val(v, st.(glob := st'.glob))
    case Returned(None, st') => if isVoid then NoVal(st.(glob := st'.glob)) else Undef
    case Normal(st') => if isVoid then NoVal(st.(glob := st'.glob)) else Undef
    case _ => Undef
  }

  /** Arguments are evaluated last to first. */
  function EvalArgs(p: Prog, fn: Fun, args: seq<Expr>, st: Store, fuel: nat): (r: ArgsRes)
    ensures r.Vals? ==> |r.vs| == |args|
    ensures r.ABad? ==> r.r.Fault? || r.r.Undef? || r.r.Timeout?
    decreases fuel, args, 0
  {
    if args == [] then Vals([], st) else
      var last := NeedVal(Eval(p, fn, args[|args| - 1], st, fuel));
      if !last.Val? then ABad(last) else
        var r := EvalArgs(p, fn, args[..|args| - 1], last.st, fuel);
        if r.Vals? then Vals(r.vs + [last.v], r.st) else r
  }

  /** Running a function body on its arguments; argument i sits at baseSP + i. */
  function Body(p: Prog, f: nat, vs: seq<int>, glob: seq<int>, fuel: nat): Out
    requires f < |p|
    decreases fuel, p[f].body, 3
  {
    Exec(p, p[f], p[f].body, Store(glob, ArgMap(vs)), fuel)
  }

  function ArgMap(vs: seq<int>): map<int, int> { map d: int | 0 <= d < |vs| :: vs[d] }

  function OutOf(r: Res): Out {
    match r
    case Val(_, st) => Normal(st)
    case NoVal(st) => Normal(st)
    case Fault => OFault
    case Undef => OUndef
    case Timeout => OTimeout
  }

  function EvalOpt(p: Prog, fn: Fun, e: Option<Expr>, st: Store, fuel: nat): Out
    decreases fuel, e, 1
  {
    if e.Some? then OutOf(Eval(p, fn, e.value, st, fuel)) else Normal(st)
  }

  function Exec(p: Prog, fn: Fun, s: Stmt, st: Store, fuel: nat): Out
    decreases fuel, s, 2
  {
    match s
    case Empty => Normal(st)
    case ExprS(e) => OutOf(Eval(p, fn, e, st, fuel))
    case Seq(a, b) =>
      var o := Exec(p, fn, a, st, fuel);
      if o.Normal? then Exec(p, fn, b, o.st, fuel) else o
    case Block(a) => Exec(p, fn, a, st, fuel)
    case If(_, _) => ExecIf(p, fn, s, st, fuel)
    case IfElse(_, _, _) => ExecIf(p, fn, s, st, fuel)
    case While(_, _) => LoopWhile(p, fn, s, st, fuel)
    case DoWhile(_, _) => LoopDo(p, fn, s, st, fuel)
    case For(_, _, _, _) => ExecFor(p, fn, s, st, fuel)
    case Switch(_, _) => ExecSwitch(p, fn, s, st, fuel)
    case Break => Brk(st)
    case Continue => Cnt(st)
    case Return(_) => ExecReturn(p, fn, s, st, fuel)
  }

  function ExecIf(p: Prog, fn: Fun, s: Stmt, st: Store, fuel: nat): Out
    requires s.If? || s.IfElse?
    decreases fuel, s, 0
  {
    var r := NeedVal(Eval(p, fn, s.c, st, fuel));
    if !r.Val? then OutOf(r)
    else if r.v != 0 then Exec(p, fn, s.s1, r.st, fuel)
    else if s.If? then Normal(r.st)
    else Exec(p, fn, s.s2, r.st, fuel)
  }

  function ExecFor(p: Prog, fn: Fun, s: Stmt, st: Store, fuel: nat): Out
    requires s.For?
    decreases fuel, s, 1
  {
    var o := EvalOpt(p, fn, s.init, st, fuel);
    if o.Normal? then LoopFor(p, fn, s, o.st, fuel) else o
  }

  function ExecSwitch(p: Prog, fn: Fun, s: Stmt, st: Store, fuel: nat): Out
    requires s.Switch?
    decreases fuel, s, 0
  {
    var r := NeedVal(Eval(p, fn, s.e, st, fuel));
    if !r.Val? then OutOf(r)
    else
      var o := ExecArms(p, fn, Select(s.arms, r.v), r.st, fuel);
      if o.Brk? then Normal(o.st) else o
  }

  function ExecReturn(p: Prog, fn: Fun, s: Stmt, st: Store, fuel: nat): Out
    requires s.Return?
    decreases fuel, s, 0
  {
    if s.res.None? then Returned(None, st) else ReturnOf(Eval(p, fn, s.res.value, st, fuel))
  }

  function ReturnOf(r: Res): Out {
    match r
    case Val(v, st) => Returned(Some(v), st)
    case NoVal(st) => Returned(None, st)
    case _ => OutOf(r)
  }

  /** An iteration ends by falling through or by continue; break ends the loop. */
  predicate GoesOn(o: Out) { o.Normal? || o.Cnt? }
  function LeaveLoop(o: Out): Out { if o.Brk? then Normal(o.st) else o }

  function LoopWhile(p: Prog, fn: Fun, s: Stmt, st: Store, fuel: nat): Out
    requires s.While?
    decreases fuel, s, 0
  {
    var r := NeedVal(Eval(p, fn, s.c, st, fuel));
    if !r.Val? then OutOf(r)
    else if r.v == 0 then Normal(r.st)
    else
      var o := Exec(p, fn, s.s, r.st, fuel);
      if !GoesOn(o) then LeaveLoop(o)
      else if fuel == 0 then OTimeout
      else LoopWhile(p, fn, s, o.st, fuel - 1)
  }

  function LoopDo(p: Prog, fn: Fun, s: Stmt, st: Store, fuel: nat): Out
    requires s.DoWhile?
    decreases fuel, s, 0
  {
    var o := Exec(p, fn, s.s, st, fuel);
    if !GoesOn(o) then LeaveLoop(o)
    else
      var r := NeedVal(Eval(p, fn, s.c, o.st, fuel));
      if !r.Val? then OutOf(r)
      else if r.v == 0 then Normal(r.st)
      else if fuel == 0 then OTimeout
      else LoopDo(p, fn, s, r.st, fuel - 1)
  }

  /** A for-loop past its initialiser. */
  function LoopFor(p: Prog, fn: Fun, s: Stmt, st: Store, fuel: nat): Out
    requires s.For?
    decreases fuel, s, 0
  {
    var r := NeedVal(Eval(p, fn, s.c, st, fuel));
    if !r.Val? then OutOf(r)
    else if r.v == 0 then Normal(r.st)
    else
      var o := Exec(p, fn, s.s, r.st, fuel);
      if !GoesOn(o) then LeaveLoop(o)
      else
        var q := EvalOpt(p, fn, s.inc, o.st, fuel);
        if !q.Normal? then q
        else if fuel == 0 then OTimeout
        else LoopFor(p, fn, s, q.st, fuel - 1)
  }

  /** Running the arms in order, each falling through to the next. */
  function ExecArms(p: Prog, fn: Fun, arms: Arms, st: Store, fuel: nat): Out
    decreases fuel, arms, 1
  {
    match arms
    case NoArms => Normal(st)
    case Arm(_, s, rest) =>
      var o := Exec(p, fn, s, st, fuel);
      if o.Normal? then ExecArms(p, fn, rest, o.st, fuel) else o
  }

  /** The arms from the first `case v:` on. */
  function FindCase(arms: Arms, v: int): (r: Arms)
    ensures r == arms || r < arms
  {
    match arms
    case NoArms => NoArms
    case Arm(lab, _, rest) => if lab == Some(v) then arms else FindCase(rest, v)
  }

  /** The arms from the last `default:` on; nothing when there is none. */
  function FindDefault(arms: Arms): (r: Arms)
    ensures r == arms || r < arms
  {
    match arms
    case NoArms => NoArms
    case Arm(lab, _, rest) =>
      if FindDefault(rest) != NoArms || lab.Some? then FindDefault(rest) else arms
  }

  function Select(arms: Arms, v: int): (r: Arms)
    ensures r == arms || r < arms
  {
    if FindCase(arms, v) != NoArms then FindCase(arms, v) else FindDefault(arms)
  }
}
