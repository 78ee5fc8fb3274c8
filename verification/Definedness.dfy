/** Programs that have a meaning: checks on the text of a program (every local is given a value before it is read, every
    value that is used is there, every path of a function returns what it owes) under which nothing it does is left
    undefined, whatever its inputs and however long it runs. */
module Definedness {
  import opened Source
  import opened Codegen

  // ----- what is known of the locals -----

  /** The locals that have values after e, when those in `known` have before it. */
  function Gains(e: Expr, known: set<int>): (r: set<int>)
    ensures known <= r
    decreases e, 0
  {
    match e
    case Un(_, a) => Gains(a, known)
    case Bin(_, a, b) => Gains(b, Gains(a, known))
    case Assign(x, a) => Gains(a, known) + (if x.Local? then {x.d} else {})
    case Cond(c, a, b) => Gains(a, Gains(c, known)) * Gains(b, Gains(c, known))
    case LogOr(a, _) => Gains(a, known)
    case LogAnd(a, _) => Gains(a, known)
    case Comma(a, b) => Gains(b, Gains(a, known))
    case CallE(_, args) => GainsArgs(args, known)
    case _ => known
  }

  function GainsArgs(args: seq<Expr>, known: set<int>): (r: set<int>)
    ensures known <= r
    decreases args, 0
  {
    if args == [] then known else GainsArgs(args[..|args| - 1], Gains(args[|args| - 1], known))
  }

  function GainsOpt(e: Option<Expr>, known: set<int>): (r: set<int>)
    ensures known <= r
  {
    if e.Some? then Gains(e.value, known) else known
  }

  /** The statement never runs through to its end. */
  predicate Stops(s: Stmt)
    decreases s
  {
    match s
    case Seq(a, b) => Stops(a) || Stops(b)
    case Block(a) => Stops(a)
    case IfElse(_, a, b) => Stops(a) && Stops(b)
    case Break => true
    case Continue => true
    case Return(_) => true
    case _ => false
  }

  /** The same after a statement that has run through. */
  function Leaves(s: Stmt, known: set<int>): (r: set<int>)
    ensures known <= r
    decreases s
  {
    match s
    case ExprS(e) => Gains(e, known)
    case Seq(a, b) => Leaves(b, Leaves(a, known))
    case Block(a) => Leaves(a, known)
    case If(c, _) => Gains(c, known)
    case IfElse(c, a, b) =>
      var k := Gains(c, known);
      if Stops(a) then Leaves(b, k) else if Stops(b) then Leaves(a, k) else Leaves(a, k) * Leaves(b, k)
    case While(c, _) => Gains(c, known)
    case For(i, c, _, _) => Gains(c, GainsOpt(i, known))
    case Switch(e, _) => Gains(e, known)
    case _ => known
  }

  // ----- the checks -----

  /** e is not a call of a void function, or something that comes down to one. */
  predicate Valued(p: Prog, e: Expr)
    decreases e
  {
    match e
    case CallE(f, _) => f < |p| && !p[f].isVoid
    case Comma(_, b) => Valued(p, b)
    case Cond(_, a, _) => Valued(p, a)
    case _ => true
  }

  /** A variable there is: one of n globals, or in the function's frame. */
  predicate Declared(n: nat, fn: Fun, x: Var) {
    match x
    case Global(k) => k < n
    case Local(d) => -(fn.nlocal as int) <= d < fn.nargs
  }

  predicate Given(n: nat, fn: Fun, x: Var, known: set<int>) { Declared(n, fn, x) && (x.Local? ==> x.d in known) }

  predicate Checked(p: Prog, n: nat, fn: Fun, e: Expr, known: set<int>)
    decreases e, 1
  {
    match e
    case Const(_) => true
    case Ref(x) => Given(n, fn, x, known)
    case Un(_, a) => Used(p, n, fn, a, known)
    case Bin(_, a, b) => Used(p, n, fn, a, known) && Used(p, n, fn, b, Gains(a, known))
    case Assign(x, a) => Used(p, n, fn, a, known) && Declared(n, fn, x)
    case IncDec(x, _, _) => Given(n, fn, x, known)
    case Cond(c, a, b) =>
      && Used(p, n, fn, c, known) && Valued(p, a) == Valued(p, b)
      && Checked(p, n, fn, a, Gains(c, known)) && Checked(p, n, fn, b, Gains(c, known))
    case LogOr(a, b) => Used(p, n, fn, a, known) && Used(p, n, fn, b, Gains(a, known))
    case LogAnd(a, b) => Used(p, n, fn, a, known) && Used(p, n, fn, b, Gains(a, known))
    case Comma(a, b) => Checked(p, n, fn, a, known) && Checked(p, n, fn, b, Gains(a, known))
    case CallE(f, args) => f < |p| && |args| == p[f].nargs && CheckedArgs(p, n, fn, args, known)
  }

  predicate Used(p: Prog, n: nat, fn: Fun, e: Expr, known: set<int>)
    decreases e, 2
  {
    Checked(p, n, fn, e, known) && Valued(p, e)
  }

  predicate CheckedArgs(p: Prog, n: nat, fn: Fun, args: seq<Expr>, known: set<int>)
    decreases args, 0
  {
    args != [] ==>
      var m := |args| - 1;
      Used(p, n, fn, args[m], known) && CheckedArgs(p, n, fn, args[..m], Gains(args[m], known))
  }

  predicate CheckedOpt(p: Prog, n: nat, fn: Fun, e: Option<Expr>, known: set<int>) {
    e.Some? ==> Checked(p, n, fn, e.value, known)
  }

  predicate CheckedS(p: Prog, n: nat, fn: Fun, s: Stmt, known: set<int>)
    decreases s
  {
    match s
    case ExprS(e) => Checked(p, n, fn, e, known)
    case Seq(a, b) => CheckedS(p, n, fn, a, known) && CheckedS(p, n, fn, b, Leaves(a, known))
    case Block(a) => CheckedS(p, n, fn, a, known)
    case If(c, a) => Used(p, n, fn, c, known) && CheckedS(p, n, fn, a, Gains(c, known))
    case IfElse(c, a, b) =>
      && Used(p, n, fn, c, known)
      && CheckedS(p, n, fn, a, Gains(c, known)) && CheckedS(p, n, fn, b, Gains(c, known))
    case While(c, a) => Used(p, n, fn, c, known) && CheckedS(p, n, fn, a, Gains(c, known))
    case DoWhile(a, c) => CheckedS(p, n, fn, a, known) && Used(p, n, fn, c, known)
    case For(i, c, inc, a) =>
      var k := GainsOpt(i, known);
      && CheckedOpt(p, n, fn, i, known) && Used(p, n, fn, c, k)
      && CheckedS(p, n, fn, a, Gains(c, k)) && CheckedOpt(p, n, fn, inc, Gains(c, k))
    case Switch(e, arms) => Used(p, n, fn, e, known) && CheckedArms(p, n, fn, arms, Gains(e, known))
    case Return(None) => fn.isVoid
    case Return(Some(e)) => Checked(p, n, fn, e, known) && Valued(p, e) == !fn.isVoid
    case _ => true
  }

  /** Control may come in at any label. */
  predicate CheckedArms(p: Prog, n: nat, fn: Fun, arms: Arms, known: set<int>)
    decreases arms
  {
    arms.Arm? ==> CheckedS(p, n, fn, arms.s, known) && CheckedArms(p, n, fn, arms.rest, known)
  }

  /** The arguments have values from the start. */
  function Arguments(n: nat): (r: set<int>)
    ensures forall d :: d in r <==> 0 <= d < n
  {
    if n == 0 then {} else Arguments(n - 1) + {n - 1}
  }

  /** No break or continue outside loops and switches, and no way past the end without a result that is owed. */
  predicate CheckedFun(p: Prog, n: nat, fn: Fun) {
    && CheckedS(p, n, fn, fn.body, Arguments(fn.nargs)) && (fn.isVoid || Stops(fn.body))
    && !Escapes(fn.body, true) && !Escapes(fn.body, false)
  }

  predicate WellFormed(p: Prog, n: nat) { forall f :: 0 <= f < |p| ==> CheckedFun(p, n, p[f]) }

  // ----- checked programs have a meaning -----

  predicate Sound(n: nat, known: set<int>, st: Store) { |st.glob| == n && known <= st.loc.Keys }

  lemma SoundLess(n: nat, known: set<int>, less: set<int>, st: Store)
    requires Sound(n, known, st) && less <= known
    ensures Sound(n, less, st)
  {}

  predicate EvalSound(p: Prog, n: nat, e: Expr, known: set<int>, r: Res) {
    match r
    case Val(_, st) => Sound(n, Gains(e, known), st) && Valued(p, e)
    case NoVal(st) => Sound(n, Gains(e, known), st) && !Valued(p, e)
    case Undef => false
    case _ => true
  }

  predicate ExecSound(fn: Fun, n: nat, s: Stmt, known: set<int>, o: Out) {
    match o
    case Normal(st) => Sound(n, Leaves(s, known), st) && !Stops(s)
    case Brk(st) => Sound(n, known, st) && Escapes(s, true)
    case Cnt(st) => Sound(n, known, st) && Escapes(s, false)
    case Returned(v, st) => |st.glob| == n && v.Some? == !fn.isVoid
    case OUndef => false
    case _ => true
  }

  lemma {:induction false} EvalDefined(p: Prog, n: nat, fn: Fun, e: Expr, known: set<int>, st: Store, fuel: nat)
    requires WellFormed(p, n) && Checked(p, n, fn, e, known) && Sound(n, known, st)
    ensures EvalSound(p, n, e, known, Eval(p, fn, e, st, fuel))
    decreases fuel, e, 1
  {
    match e
    case Const(_) =>
    case Ref(_) =>
    case IncDec(_, _, _) =>
    case Un(_, a) => OperandDefined(p, n, fn, a, known, st, fuel);
    case Assign(_, a) => OperandDefined(p, n, fn, a, known, st, fuel);
    case Bin(_, _, _) => PairDefined(p, n, fn, e, known, st, fuel);
    case LogOr(_, _) => PairDefined(p, n, fn, e, known, st, fuel);
    case LogAnd(_, _) => PairDefined(p, n, fn, e, known, st, fuel);
    case Comma(_, _) => CommaDefined(p, n, fn, e, known, st, fuel);
    case Cond(_, _, _) => CondDefined(p, n, fn, e, known, st, fuel);
    case CallE(_, _) => CallDefined(p, n, fn, e, known, st, fuel);
  }

  /** An operand has a value, faults or does not end. */
  lemma {:induction false} OperandDefined(p: Prog, n: nat, fn: Fun, e: Expr, known: set<int>, st: Store, fuel: nat)
    requires WellFormed(p, n) && Used(p, n, fn, e, known) && Sound(n, known, st)
    ensures var r := Eval(p, fn, e, st, fuel);
            NeedVal(r) == r && if r.Val? then Sound(n, Gains(e, known), r.st) else r.Fault? || r.Timeout?
    decreases fuel, e, 2
  {
    hide Eval, Checked, WellFormed, Gains, Sound;
    EvalDefined(p, n, fn, e, known, st, fuel);
  }

  lemma {:induction false} PairDefined(p: Prog, n: nat, fn: Fun, e: Expr, known: set<int>, st: Store, fuel: nat)
    requires e.Bin? || e.LogOr? || e.LogAnd?
    requires WellFormed(p, n) && Used(p, n, fn, e.e1, known) && Used(p, n, fn, e.e2, Gains(e.e1, known))
    requires Sound(n, known, st)
    ensures EvalSound(p, n, e, known, if e.Bin? then EvalBin(p, fn, e, st, fuel) else EvalLogic(p, fn, e, st, fuel))
    decreases fuel, e, 0
  {
    hide Eval, Checked, WellFormed, BinMeaning, Valued;
    PairKnown(p, e, known);
    OperandDefined(p, n, fn, e.e1, known, st, fuel);
    var r := Eval(p, fn, e.e1, st, fuel);
    if r.Val? {
      OperandDefined(p, n, fn, e.e2, Gains(e.e1, known), r.st, fuel);
    }
  }

  lemma PairKnown(p: Prog, e: Expr, known: set<int>)
    requires e.Bin? || e.LogOr? || e.LogAnd?
    ensures Valued(p, e) && Gains(e, known) <= Gains(e.e2, Gains(e.e1, known))
    ensures Gains(e, known) == if e.Bin? then Gains(e.e2, Gains(e.e1, known)) else Gains(e.e1, known)
  {}

  lemma {:induction false} CommaDefined(p: Prog, n: nat, fn: Fun, e: Expr, known: set<int>, st: Store, fuel: nat)
    requires e.Comma? && WellFormed(p, n) && Checked(p, n, fn, e, known) && Sound(n, known, st)
    ensures EvalSound(p, n, e, known, EvalComma(p, fn, e, st, fuel))
    decreases fuel, e, 0
  {
    hide Eval, WellFormed;
    EvalDefined(p, n, fn, e.e1, known, st, fuel);
    var r := Eval(p, fn, e.e1, st, fuel);
    if r.Val? || r.NoVal? {
      EvalDefined(p, n, fn, e.e2, Gains(e.e1, known), r.st, fuel);
    }
  }

  lemma {:induction false} CondDefined(p: Prog, n: nat, fn: Fun, e: Expr, known: set<int>, st: Store, fuel: nat)
    requires e.Cond? && WellFormed(p, n) && Checked(p, n, fn, e, known) && Sound(n, known, st)
    ensures EvalSound(p, n, e, known, EvalCond(p, fn, e, st, fuel))
    decreases fuel, e, 0
  {
    hide Eval, WellFormed;
    OperandDefined(p, n, fn, e.c, known, st, fuel);
    var r := Eval(p, fn, e.c, st, fuel);
    if r.Val? {
      EvalDefined(p, n, fn, if r.v != 0 then e.e1 else e.e2, Gains(e.c, known), r.st, fuel);
    }
  }

  lemma {:induction false} CallDefined(p: Prog, n: nat, fn: Fun, e: Expr, known: set<int>, st: Store, fuel: nat)
    requires e.CallE? && WellFormed(p, n) && Checked(p, n, fn, e, known) && Sound(n, known, st)
    ensures EvalSound(p, n, e, known, EvalCall(p, fn, e, st, fuel))
    decreases fuel, e, 0
  {
    hide EvalArgs, Body, WellFormed, CheckedArgs, GainsArgs;
    ArgsDefined(p, n, fn, e.args, known, st, fuel);
    var r := EvalArgs(p, fn, e.args, st, fuel);
    if r.Vals? && fuel > 0 {
      BodyDefined(p, n, e.f, r.vs, r.st.glob, fuel - 1);
    }
  }

  lemma {:induction false} ArgsDefined(p: Prog, n: nat, fn: Fun, args: seq<Expr>, known: set<int>, st: Store, fuel: nat)
    requires WellFormed(p, n) && CheckedArgs(p, n, fn, args, known) && Sound(n, known, st)
    ensures var r := EvalArgs(p, fn, args, st, fuel);
            if r.Vals? then Sound(n, GainsArgs(args, known), r.st) else r.r.Fault? || r.r.Timeout?
    decreases fuel, args, 0
  {
    hide Eval, Checked, WellFormed, Gains;
    if args != [] {
      var m := |args| - 1;
      OperandDefined(p, n, fn, args[m], known, st, fuel);
      var r := Eval(p, fn, args[m], st, fuel);
      if r.Val? {
        ArgsDefined(p, n, fn, args[..m], Gains(args[m], known), r.st, fuel);
      }
    }
  }

  /** A body returns a value exactly when it owes one, unless it faults or goes on for ever. */
  predicate BodySound(fn: Fun, n: nat, o: Out) {
    match o
    case Normal(st) => |st.glob| == n && fn.isVoid
    case Returned(v, st) => |st.glob| == n && v.Some? == !fn.isVoid
    case OFault => true
    case OTimeout => true
    case _ => false
  }

  lemma {:induction false} BodyDefined(p: Prog, n: nat, f: nat, vs: seq<int>, glob: seq<int>, fuel: nat)
    requires WellFormed(p, n) && f < |p| && |vs| == p[f].nargs && |glob| == n
    ensures BodySound(p[f], n, Body(p, f, vs, glob, fuel))
    decreases fuel, p[f].body, 4
  {
    hide Exec, CheckedS, Stops, Escapes, Leaves;
    assert CheckedFun(p, n, p[f]);
    ExecDefined(p, n, p[f], p[f].body, Arguments(p[f].nargs), Store(glob, ArgMap(vs)), fuel);
  }

  lemma {:induction false} OptDefined(p: Prog, n: nat, fn: Fun, e: Option<Expr>, known: set<int>, st: Store, fuel: nat)
    requires WellFormed(p, n) && CheckedOpt(p, n, fn, e, known) && Sound(n, known, st)
    ensures var o := EvalOpt(p, fn, e, st, fuel);
            if o.Normal? then Sound(n, GainsOpt(e, known), o.st) else o.OFault? || o.OTimeout?
    decreases fuel, e, 1
  {
    hide Eval, Checked, WellFormed, Gains, Sound;
    if e.Some? {
      EvalDefined(p, n, fn, e.value, known, st, fuel);
    }
  }

  lemma {:induction false} ExecDefined(p: Prog, n: nat, fn: Fun, s: Stmt, known: set<int>, st: Store, fuel: nat)
    requires WellFormed(p, n) && CheckedS(p, n, fn, s, known) && Sound(n, known, st)
    ensures ExecSound(fn, n, s, known, Exec(p, fn, s, st, fuel))
    decreases fuel, s, 3
  {
    hide WellFormed, Eval, EvalOpt, Checked, LoopWhile, LoopDo, LoopFor, ExecArms, Gains, GainsOpt, Sound;
    match s
    case Empty =>
    case ExprS(e) => EvalDefined(p, n, fn, e, known, st, fuel);
    case Seq(a, b) => SeqDefined(p, n, fn, s, known, st, fuel);
    case Block(a) => ExecDefined(p, n, fn, a, known, st, fuel);
    case If(_, _) => IfDefined(p, n, fn, s, known, st, fuel);
    case IfElse(_, _, _) => IfDefined(p, n, fn, s, known, st, fuel);
    case While(_, _) => WhileDefined(p, n, fn, s, known, st, fuel);
    case DoWhile(_, _) => DoDefined(p, n, fn, s, known, st, fuel);
    case For(_, _, _, _) => ForDefined(p, n, fn, s, known, st, fuel);
    case Switch(_, _) => SwitchDefined(p, n, fn, s, known, st, fuel);
    case Break =>
    case Continue =>
    case Return(_) => ReturnDefined(p, n, fn, s, known, st, fuel);
  }

  lemma {:induction false} ReturnDefined(p: Prog, n: nat, fn: Fun, s: Stmt, known: set<int>, st: Store, fuel: nat)
    requires s.Return? && WellFormed(p, n) && CheckedS(p, n, fn, s, known) && Sound(n, known, st)
    ensures ExecSound(fn, n, s, known, ExecReturn(p, fn, s, st, fuel))
    decreases fuel, s, 0
  {
    hide WellFormed, Eval, Checked, Gains;
    if s.res.Some? {
      EvalDefined(p, n, fn, s.res.value, known, st, fuel);
    }
  }

  lemma {:induction false} SeqDefined(p: Prog, n: nat, fn: Fun, s: Stmt, known: set<int>, st: Store, fuel: nat)
    requires s.Seq? && WellFormed(p, n) && CheckedS(p, n, fn, s, known) && Sound(n, known, st)
    ensures ExecSound(fn, n, s, known, Exec(p, fn, s, st, fuel))
    decreases fuel, s, 2
  {
    hide WellFormed;
    var o := Exec(p, fn, s.s1, st, fuel);
    ExecDefined(p, n, fn, s.s1, known, st, fuel);
    if o.Normal? {
      ExecDefined(p, n, fn, s.s2, Leaves(s.s1, known), o.st, fuel);
    }
  }

  lemma {:induction false} IfDefined(p: Prog, n: nat, fn: Fun, s: Stmt, known: set<int>, st: Store, fuel: nat)
    requires (s.If? || s.IfElse?) && WellFormed(p, n) && CheckedS(p, n, fn, s, known) && Sound(n, known, st)
    ensures ExecSound(fn, n, s, known, ExecIf(p, fn, s, st, fuel))
    decreases fuel, s, 0
  {
    hide WellFormed, Eval, Checked, Gains;
    OperandDefined(p, n, fn, s.c, known, st, fuel);
    var r := Eval(p, fn, s.c, st, fuel);
    if r.Val? && r.v != 0 {
      ExecDefined(p, n, fn, s.s1, Gains(s.c, known), r.st, fuel);
    } else if r.Val? && s.IfElse? {
      ExecDefined(p, n, fn, s.s2, Gains(s.c, known), r.st, fuel);
    }
  }

  lemma {:induction false} WhileDefined(p: Prog, n: nat, fn: Fun, s: Stmt, known: set<int>, st: Store, fuel: nat)
    requires s.While? && WellFormed(p, n) && CheckedS(p, n, fn, s, known) && Sound(n, known, st)
    ensures ExecSound(fn, n, s, known, LoopWhile(p, fn, s, st, fuel))
    decreases fuel, s, 0
  {
    hide WellFormed, Eval, Checked, Gains, Exec;
    OperandDefined(p, n, fn, s.c, known, st, fuel);
    var r := Eval(p, fn, s.c, st, fuel);
    if r.Val? && r.v != 0 {
      ExecDefined(p, n, fn, s.s, Gains(s.c, known), r.st, fuel);
      var o := Exec(p, fn, s.s, r.st, fuel);
      if GoesOn(o) && fuel > 0 {
        WhileDefined(p, n, fn, s, known, o.st, fuel - 1);
      }
    }
  }

  lemma {:induction false} DoDefined(p: Prog, n: nat, fn: Fun, s: Stmt, known: set<int>, st: Store, fuel: nat)
    requires s.DoWhile? && WellFormed(p, n) && CheckedS(p, n, fn, s, known) && Sound(n, known, st)
    ensures ExecSound(fn, n, s, known, LoopDo(p, fn, s, st, fuel))
    decreases fuel, s, 0
  {
    hide WellFormed, Eval, Checked, Gains, Exec;
    ExecDefined(p, n, fn, s.s, known, st, fuel);
    var o := Exec(p, fn, s.s, st, fuel);
    if GoesOn(o) {
      OperandDefined(p, n, fn, s.c, known, o.st, fuel);
      var r := Eval(p, fn, s.c, o.st, fuel);
      if r.Val? && r.v != 0 && fuel > 0 {
        DoDefined(p, n, fn, s, known, r.st, fuel - 1);
      }
    }
  }

  lemma {:induction false} ForDefined(p: Prog, n: nat, fn: Fun, s: Stmt, known: set<int>, st: Store, fuel: nat)
    requires s.For? && WellFormed(p, n) && CheckedS(p, n, fn, s, known) && Sound(n, known, st)
    ensures ExecSound(fn, n, s, known, ExecFor(p, fn, s, st, fuel))
    decreases fuel, s, 1
  {
    hide WellFormed, Eval, EvalOpt, Checked, Gains, GainsOpt, LoopFor;
    OptDefined(p, n, fn, s.init, known, st, fuel);
    var o := EvalOpt(p, fn, s.init, st, fuel);
    if o.Normal? {
      LoopForDefined(p, n, fn, s, GainsOpt(s.init, known), o.st, fuel);
    }
  }

  lemma {:induction false} LoopForDefined(p: Prog, n: nat, fn: Fun, s: Stmt, k: set<int>, st: Store, fuel: nat)
    requires s.For? && WellFormed(p, n) && Sound(n, k, st)
    requires Used(p, n, fn, s.c, k) && CheckedS(p, n, fn, s.s, Gains(s.c, k))
    requires CheckedOpt(p, n, fn, s.inc, Gains(s.c, k))
    ensures var o := LoopFor(p, fn, s, st, fuel);
            match o
            case Normal(z) => Sound(n, Gains(s.c, k), z)
            case Returned(v, z) => |z.glob| == n && v.Some? == !fn.isVoid
            case _ => o.OFault? || o.OTimeout?
    decreases fuel, s, 0
  {
    hide WellFormed, Eval, EvalOpt, Checked, Gains, Exec, CheckedOpt;
    OperandDefined(p, n, fn, s.c, k, st, fuel);
    var r := Eval(p, fn, s.c, st, fuel);
    if r.Val? && r.v != 0 {
      ExecDefined(p, n, fn, s.s, Gains(s.c, k), r.st, fuel);
      var o := Exec(p, fn, s.s, r.st, fuel);
      if GoesOn(o) {
        OptDefined(p, n, fn, s.inc, Gains(s.c, k), o.st, fuel);
        var q := EvalOpt(p, fn, s.inc, o.st, fuel);
        if q.Normal? && fuel > 0 {
          LoopForDefined(p, n, fn, s, k, q.st, fuel - 1);
        }
      }
    }
  }

  lemma {:induction false} SwitchDefined(p: Prog, n: nat, fn: Fun, s: Stmt, known: set<int>, st: Store, fuel: nat)
    requires s.Switch? && WellFormed(p, n) && CheckedS(p, n, fn, s, known) && Sound(n, known, st)
    ensures ExecSound(fn, n, s, known, ExecSwitch(p, fn, s, st, fuel))
    decreases fuel, s, 0
  {
    hide WellFormed, Eval, Checked, Gains, ExecArms, CheckedArms, Select;
    OperandDefined(p, n, fn, s.e, known, st, fuel);
    var r := Eval(p, fn, s.e, st, fuel);
    if r.Val? {
      SelectChecked(p, n, fn, s.arms, r.v, Gains(s.e, known));
      ArmsDefined(p, n, fn, Select(s.arms, r.v), Gains(s.e, known), r.st, fuel);
    }
  }

  lemma {:induction false} SelectChecked(p: Prog, n: nat, fn: Fun, arms: Arms, v: int, known: set<int>)
    requires CheckedArms(p, n, fn, arms, known)
    ensures CheckedArms(p, n, fn, Select(arms, v), known)
    ensures ArmsEscape(Select(arms, v), false) ==> ArmsEscape(arms, false)
  {
    hide CheckedS, Escapes;
    CaseChecked(p, n, fn, arms, v, known);
    DefaultChecked(p, n, fn, arms, known);
  }

  lemma {:induction false} CaseChecked(p: Prog, n: nat, fn: Fun, arms: Arms, v: int, known: set<int>)
    requires CheckedArms(p, n, fn, arms, known)
    ensures CheckedArms(p, n, fn, FindCase(arms, v), known)
    ensures ArmsEscape(FindCase(arms, v), false) ==> ArmsEscape(arms, false)
    decreases arms
  {
    hide CheckedS, Escapes;
    if arms.Arm? {
      CaseChecked(p, n, fn, arms.rest, v, known);
    }
  }

  lemma {:induction false} DefaultChecked(p: Prog, n: nat, fn: Fun, arms: Arms, known: set<int>)
    requires CheckedArms(p, n, fn, arms, known)
    ensures CheckedArms(p, n, fn, FindDefault(arms), known)
    ensures ArmsEscape(FindDefault(arms), false) ==> ArmsEscape(arms, false)
    decreases arms
  {
    hide CheckedS, Escapes;
    if arms.Arm? {
      DefaultChecked(p, n, fn, arms.rest, known);
    }
  }

  lemma {:induction false} ArmsDefined(p: Prog, n: nat, fn: Fun, arms: Arms, known: set<int>, st: Store, fuel: nat)
    requires WellFormed(p, n) && CheckedArms(p, n, fn, arms, known) && Sound(n, known, st)
    ensures var o := ExecArms(p, fn, arms, st, fuel);
            match o
            case Normal(z) => Sound(n, known, z)
            case Brk(z) => Sound(n, known, z)
            case Cnt(z) => Sound(n, known, z) && ArmsEscape(arms, false)
            case Returned(v, z) => |z.glob| == n && v.Some? == !fn.isVoid
            case _ => o.OFault? || o.OTimeout?
    decreases fuel, arms, 0
  {
    hide WellFormed, Exec, CheckedS, Leaves, Stops, Escapes;
    if arms.Arm? {
      ExecDefined(p, n, fn, arms.s, known, st, fuel);
      var o := Exec(p, fn, arms.s, st, fuel);
      if o.Normal? {
        ArmsDefined(p, n, fn, arms.rest, known, o.st, fuel);
      }
    }
  }
}
