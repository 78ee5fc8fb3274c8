/** Two programs, from their trees to what the engine leaves on its stack: a recursive function, and a loop that is
    left by a break, with a comma in it. They meet every condition the general results ask for. */
module Worked {
  import opened Arith
  import opened Words
  import opened Machine
  import opened Source
  import opened Codegen
  import opened Binding
  import opened Simulation
  import opened Correctness
  import opened Finish
  import opened Peephole
  import opened Definedness

  // ----- `int fact(int n) { if (n <= 1) return 1; return n * fact(n - 1); }` -----

  const N: Var := Local(0)
  const SMALL: Expr := Bin(LEQ, Ref(N), Const(1))
  const LESS_ONE: Expr := Bin(MINUS, Ref(N), Const(1))
  const AGAIN: Expr := CallE(0, [LESS_ONE])
  const TIMES: Expr := Bin(STAR, Ref(N), AGAIN)
  const ONE: Stmt := If(SMALL, Return(Some(Const(1))))
  const FACT: Fun := Fun(false, 1, 0, Seq(ONE, Return(Some(TIMES))))

  // ----- `int sum(int n) { int s, i; s = 0; i = 0; while (1) { if (i >= n) break; ++i, s = s + i; } return s; }` -----

  const S: Var := Local(-1)
  const I: Var := Local(-2)
  const DONE: Expr := Bin(GEQ, Ref(I), Ref(N))
  const MORE: Expr := Bin(PLUS, Ref(S), Ref(I))
  const ADD_NEXT: Expr := Comma(IncDec(I, true, false), Assign(S, MORE))
  const LOOP: Stmt := While(Const(1), Block(Seq(If(DONE, Break), ExprS(ADD_NEXT))))
  const CLEAR: Stmt := Seq(ExprS(Assign(S, Const(0))), ExprS(Assign(I, Const(0))))
  const SUM: Fun := Fun(false, 1, 2, Seq(Seq(CLEAR, LOOP), Return(Some(Ref(S)))))

  const PROG: Prog := [FACT, SUM]

  ghost const BOTH: iset<nat> := iset{0, 1}

  // ----- they are what the compiler asks for, and more -----

  /** Everything asked of an expression whose value is used, and of a statement. */
  ghost predicate Good(fn: Fun, e: Expr, known: set<int>) { Clean(e, BOTH) && Used(PROG, 0, fn, e, known) }
  ghost predicate GoodS(fn: Fun, s: Stmt, known: set<int>) {
    CleanS(s, BOTH) && Braced(s) && CheckedS(PROG, 0, fn, s, known)
  }

  lemma GoodLeaf(fn: Fun, e: Expr, known: set<int>)
    requires e.Const? || (e.Ref? && e.x.Local? && e.x.d in known && -(fn.nlocal as int) <= e.x.d < fn.nargs)
    ensures Good(fn, e, known) && Gains(e, known) == known
  {}

  lemma GoodBin(fn: Fun, e: Expr, known: set<int>)
    requires e.Bin? && Good(fn, e.e1, known) && Good(fn, e.e2, known)
    requires Gains(e.e1, known) == Gains(e.e2, known) == known
    ensures Good(fn, e, known) && Gains(e, known) == known
  {}

  lemma GoodAgain(known: set<int>)
    requires Good(FACT, LESS_ONE, known) && Gains(LESS_ONE, known) == known
    ensures Good(FACT, AGAIN, known) && Gains(AGAIN, known) == known
  {
    hide Good, Gains;
    OneArgumentGood([LESS_ONE], known);
    GoodCall([LESS_ONE], known);
  }

  lemma GoodCall(args: seq<Expr>, known: set<int>)
    requires |args| == 1 && CleanArgs(args, BOTH) && CheckedArgs(PROG, 0, FACT, args, known)
    requires GainsArgs(args, known) == known
    ensures Good(FACT, CallE(0, args), known) && Gains(CallE(0, args), known) == known
  {
    hide CleanArgs, CheckedArgs, GainsArgs;
    var e := CallE(0, args);
    assert |PROG| == 2 && PROG[0] == FACT;
    assert Valued(PROG, e);
    assert Clean(e, BOTH);
    assert Checked(PROG, 0, FACT, e, known);
  }

  lemma OneArgumentGood(args: seq<Expr>, known: set<int>)
    requires args == [LESS_ONE] && Good(FACT, LESS_ONE, known) && Gains(LESS_ONE, known) == known
    ensures CleanArgs(args, BOTH) && CheckedArgs(PROG, 0, FACT, args, known) && GainsArgs(args, known) == known
  {
    hide Clean, Checked, Gains;
    assert args[..0] == [];
    assert CleanArgs([], BOTH) && CheckedArgs(PROG, 0, FACT, [], known) && GainsArgs([], known) == known;
  }

  lemma GoodIf(fn: Fun, s: Stmt, known: set<int>)
    requires s.If? && Good(fn, s.c, known) && Gains(s.c, known) == known && GoodS(fn, s.s1, known)
    ensures GoodS(fn, s, known) && Leaves(s, known) == known
  {
    hide Clean, Checked, Gains;
  }

  lemma GoodReturn(fn: Fun, e: Expr, known: set<int>)
    requires !fn.isVoid && Good(fn, e, known)
    ensures GoodS(fn, Return(Some(e)), known)
  {
    hide Clean, Checked, Gains;
  }

  lemma GoodSeq(fn: Fun, a: Stmt, b: Stmt, known: set<int>)
    requires GoodS(fn, a, known) && GoodS(fn, b, Leaves(a, known))
    ensures GoodS(fn, Seq(a, b), known) && Leaves(Seq(a, b), known) == Leaves(b, Leaves(a, known))
  {}

  lemma GoodSet(fn: Fun, d: int, e: Expr, known: set<int>)
    requires Good(fn, e, known) && Gains(e, known) == known && -(fn.nlocal as int) <= d < fn.nargs
    ensures GoodS(fn, ExprS(Assign(Local(d), e)), known) && Leaves(ExprS(Assign(Local(d), e)), known) == known + {d}
  {}

  lemma GoodNext(known: set<int>)
    requires -1 in known && -2 in known && Good(SUM, MORE, known)
    ensures GoodS(SUM, ExprS(ADD_NEXT), known)
  {
    assert Gains(IncDec(I, true, false), known) == known;
    assert Checked(PROG, 0, SUM, Assign(S, MORE), known) && Clean(Assign(S, MORE), BOTH);
  }

  lemma GoodLoop(fn: Fun, body: Stmt, known: set<int>)
    requires GoodS(fn, body, known)
    ensures GoodS(fn, While(Const(1), Block(body)), known) && Leaves(While(Const(1), Block(body)), known) == known
  {
    GoodLeaf(fn, Const(1), known);
  }

  lemma FactGood()
    ensures GoodS(FACT, FACT.body, Arguments(1))
  {
    hide Good, GoodS, Gains, Leaves;
    var known := Arguments(1);
    GoodLeaf(FACT, Ref(N), known);
    GoodLeaf(FACT, Const(1), known);
    GoodBin(FACT, SMALL, known);
    GoodBin(FACT, LESS_ONE, known);
    GoodAgain(known);
    GoodBin(FACT, TIMES, known);
    GoodReturn(FACT, Const(1), known);
    GoodIf(FACT, ONE, known);
    GoodReturn(FACT, TIMES, known);
    GoodSeq(FACT, ONE, Return(Some(TIMES)), known);
  }

  lemma ClearGood(known: set<int>)
    ensures GoodS(SUM, CLEAR, known) && Leaves(CLEAR, known) == known + {-1} + {-2}
  {
    hide Good, GoodS, Gains, Leaves;
    var more := known + {-1};
    GoodLeaf(SUM, Const(0), known);
    GoodSet(SUM, -1, Const(0), known);
    GoodLeaf(SUM, Const(0), more);
    GoodSet(SUM, -2, Const(0), more);
    GoodSeq(SUM, ExprS(Assign(S, Const(0))), ExprS(Assign(I, Const(0))), known);
  }

  lemma LoopGood(known: set<int>)
    requires 0 in known && -1 in known && -2 in known
    ensures GoodS(SUM, LOOP, known) && Leaves(LOOP, known) == known
  {
    hide Good, GoodS, Gains, Leaves;
    GoodLeaf(SUM, Ref(S), known);
    GoodLeaf(SUM, Ref(I), known);
    GoodLeaf(SUM, Ref(N), known);
    GoodBin(SUM, DONE, known);
    GoodBin(SUM, MORE, known);
    GoodBreak(SUM, known);
    GoodIf(SUM, If(DONE, Break), known);
    GoodNext(known);
    GoodSeq(SUM, If(DONE, Break), ExprS(ADD_NEXT), known);
    GoodLoop(SUM, Seq(If(DONE, Break), ExprS(ADD_NEXT)), known);
  }

  lemma SumGood()
    ensures GoodS(SUM, SUM.body, Arguments(1))
  {
    hide Good, GoodS, Gains, Leaves;
    var known := Arguments(1);
    var all := known + {-1} + {-2};
    ClearGood(known);
    LoopGood(all);
    GoodSeq(SUM, CLEAR, LOOP, known);
    GoodLeaf(SUM, Ref(S), all);
    GoodReturn(SUM, Ref(S), all);
    GoodSeq(SUM, Seq(CLEAR, LOOP), Return(Some(Ref(S))), known);
  }

  lemma GoodBreak(fn: Fun, known: set<int>)
    ensures GoodS(fn, Break, known)
  {}

  predicate Sealed(s: Stmt) { !Escapes(s, true) && !Escapes(s, false) }

  lemma FactSealed(c: Expr, a: Expr, b: Expr)
    ensures var s := Seq(If(c, Return(Some(a))), Return(Some(b)));
            Sealed(s) && Stops(s)
  {
    assert Sealed(If(c, Return(Some(a))));
  }

  lemma SumSealed(a: Expr, b: Expr, loop: Stmt, c: Expr)
    requires loop.While?
    ensures var s := Seq(Seq(Seq(ExprS(a), ExprS(b)), loop), Return(Some(c)));
            Sealed(s) && Stops(s)
  {
    assert Sealed(Seq(ExprS(a), ExprS(b))) && Sealed(loop);
    assert Sealed(Seq(Seq(ExprS(a), ExprS(b)), loop));
  }

  lemma GoodFunction(fn: Fun)
    requires GoodS(fn, fn.body, Arguments(fn.nargs)) && Sealed(fn.body)
    requires Stops(fn.body) && fn.body.Seq? && fn.body.s2.Return?
    ensures CheckedFun(PROG, 0, fn) && CleanS(fn.body, BOTH) && SafelyFinished(PROG, fn)
    ensures Bound(PROG, fn.body, 0, false, SimBase.BodyLabels(PROG, fn), 0, 0)
  {
    hide CleanS, Braced, Escapes, Stops, CheckedS, SafelyFinished, Bound;
    BracedIsBound(PROG, fn.body, 0, false, SimBase.BodyLabels(PROG, fn), 0, 0);
    ReturnLastIsSafe(PROG, fn);
  }

  /** The two functions as the compiler leaves them. */
  ghost predicate Compiled2(w: Image) { |w| == 2 && w[0] == FinalBlock(PROG, FACT) && w[1] == FinalBlock(PROG, SUM) }

  lemma ProgramFinished(w: Image)
    requires Compiled2(w)
    ensures Finished(PROG, w, BOTH) && WellFormed(PROG, 0)
  {
    hide FinalBlock, CleanS, Bound, SafelyFinished, CheckedFun, GoodS, Sealed, Stops, SimBase.BodyLabels;
    FactGood();
    SumGood();
    FactSealed(SMALL, Const(1), TIMES);
    SumSealed(Assign(S, Const(0)), Assign(I, Const(0)), LOOP, Ref(S));
    GoodFunction(FACT);
    GoodFunction(SUM);
    assert |PROG| == 2 && PROG[0] == FACT && PROG[1] == SUM;
  }

  // ----- how things are evaluated -----

  lemma BinRule(fn: Fun, e: Expr, st: Store, fuel: nat, x: int, y: int)
    requires e.Bin? && Eval(PROG, fn, e.e1, st, fuel) == Val(x, st) && Eval(PROG, fn, e.e2, st, fuel) == Val(y, st)
    requires BinMeaning(e.tok, x, y).Some?
    ensures Eval(PROG, fn, e, st, fuel) == Val(BinMeaning(e.tok, x, y).value, st)
  {
    hide BinMeaning;
    assert Eval(PROG, fn, e, st, fuel) == EvalBin(PROG, fn, e, st, fuel);
  }

  lemma LocalRule(fn: Fun, d: int, st: Store, fuel: nat)
    requires -(fn.nlocal as int) <= d < fn.nargs && d in st.loc
    ensures Eval(PROG, fn, Ref(Local(d)), st, fuel) == Val(st.loc[d], st)
  {}

  lemma ConstRule(fn: Fun, v: int, st: Store, fuel: nat)
    ensures Eval(PROG, fn, Const(v), st, fuel) == Val(v, st)
  {}

  lemma SetRule(fn: Fun, d: int, e: Expr, st: Store, fuel: nat, v: int)
    requires -(fn.nlocal as int) <= d < fn.nargs && Eval(PROG, fn, e, st, fuel) == Val(v, st)
    ensures var a := Assign(Local(d), e);
            && Eval(PROG, fn, a, st, fuel) == Val(v, st.(loc := st.loc[d := v]))
            && Exec(PROG, fn, ExprS(a), st, fuel) == Normal(st.(loc := st.loc[d := v]))
  {
    var a := Assign(Local(d), e);
    assert Eval(PROG, fn, a, st, fuel) == EvalAssign(PROG, fn, a, st, fuel);
  }

  lemma CommaRule(fn: Fun, e: Expr, st: Store, fuel: nat, x: int, st1: Store, y: int, st2: Store)
    requires e.Comma? && Eval(PROG, fn, e.e1, st, fuel) == Val(x, st1) && Eval(PROG, fn, e.e2, st1, fuel) == Val(y, st2)
    ensures Exec(PROG, fn, ExprS(e), st, fuel) == Normal(st2)
  {
    assert Eval(PROG, fn, e, st, fuel) == EvalComma(PROG, fn, e, st, fuel);
  }

  lemma IfRule(fn: Fun, s: Stmt, st: Store, fuel: nat, v: int)
    requires s.If? && Eval(PROG, fn, s.c, st, fuel) == Val(v, st)
    ensures Exec(PROG, fn, s, st, fuel) == if v != 0 then Exec(PROG, fn, s.s1, st, fuel) else Normal(st)
  {
    hide Eval;
    assert Exec(PROG, fn, s, st, fuel) == ExecIf(PROG, fn, s, st, fuel);
  }

  lemma SeqRule(fn: Fun, a: Stmt, b: Stmt, st: Store, fuel: nat)
    ensures var o := Exec(PROG, fn, a, st, fuel);
            Exec(PROG, fn, Seq(a, b), st, fuel) == if o.Normal? then Exec(PROG, fn, b, o.st, fuel) else o
  {}

  lemma JumpRule(fn: Fun, st: Store, fuel: nat)
    ensures Exec(PROG, fn, Break, st, fuel) == Brk(st)
  {}

  lemma ReturnRule(fn: Fun, e: Expr, st: Store, fuel: nat, v: int)
    requires Eval(PROG, fn, e, st, fuel) == Val(v, st)
    ensures Exec(PROG, fn, Return(Some(e)), st, fuel) == Returned(Some(v), st)
  {
    hide Eval;
    var s := Return(Some(e));
    assert Exec(PROG, fn, s, st, fuel) == ExecReturn(PROG, fn, s, st, fuel);
  }

  lemma LoopRule(fn: Fun, body: Stmt, st: Store, fuel: nat)
    ensures var s, o := While(Const(1), Block(body)), Exec(PROG, fn, body, st, fuel);
            && (o.Brk? ==> Exec(PROG, fn, s, st, fuel) == Normal(o.st))
            && (o.Normal? && fuel > 0 ==> Exec(PROG, fn, s, st, fuel) == Exec(PROG, fn, s, o.st, fuel - 1))
  {
    var s, o := While(Const(1), Block(body)), Exec(PROG, fn, body, st, fuel);
    ConstRule(fn, 1, st, fuel);
    assert Exec(PROG, fn, Block(body), st, fuel) == o;
    hide Eval;
    assert Exec(PROG, fn, s, st, fuel) == LoopWhile(PROG, fn, s, st, fuel);
    if o.Normal? && fuel > 0 {
      assert Exec(PROG, fn, s, o.st, fuel - 1) == LoopWhile(PROG, fn, s, o.st, fuel - 1);
    }
  }

  lemma CallRule(fn: Fun, e: Expr, st: Store, fuel: nat, v: int, w: int)
    requires Eval(PROG, fn, e, st, fuel) == Val(v, st) && fuel > 0
    requires Body(PROG, 0, [v], st.glob, fuel - 1).Returned? && Body(PROG, 0, [v], st.glob, fuel - 1).v == Some(w)
    requires Body(PROG, 0, [v], st.glob, fuel - 1).st.glob == st.glob
    ensures Eval(PROG, fn, CallE(0, [e]), st, fuel) == Val(w, st)
  {
    hide Body;
    var c := CallE(0, [e]);
    ArgumentRule(fn, [e], st, fuel, v);
    hide Eval, EvalArgs;
    assert Eval(PROG, fn, c, st, fuel) == EvalCall(PROG, fn, c, st, fuel);
  }

  lemma ArgumentRule(fn: Fun, args: seq<Expr>, st: Store, fuel: nat, v: int)
    requires |args| == 1 && Eval(PROG, fn, args[0], st, fuel) == Val(v, st)
    ensures EvalArgs(PROG, fn, args, st, fuel) == Vals([v], st)
  {
    hide Eval;
    assert args[..0] == [];
    assert EvalArgs(PROG, fn, [], st, fuel) == Vals([], st);
  }

  // ----- what the programs mean -----

  function Factorial(n: nat): nat { if n == 0 then 1 else n * Factorial(n - 1) }

  function Product(n: nat): int { if n <= 1 then 1 else Wrap(n * Product(n - 1)) }

  lemma {:induction false} ProductIsFactorial(n: nat)
    ensures SameWord(Product(n), Factorial(n)) && IsInt32(Product(n))
  {
    hide Wrap, SameWord;
    if n > 1 {
      ProductIsFactorial(n - 1);
      WrapIsSameWord(n * Product(n - 1));
      SameProduct(n, Product(n - 1), Factorial(n - 1));
      SameWordTrans(Wrap(n * Product(n - 1)), n * Product(n - 1), n * Factorial(n - 1));
    } else {
      OneIsOne();
      assert n == 1 ==> Factorial(1) == 1 * Factorial(0);
    }
  }

  lemma OneIsOne()
    ensures SameWord(1, 1)
  {}

  lemma SameProduct(n: int, x: int, y: int)
    requires SameWord(x, y)
    ensures SameWord(n * y, n * x)
  {
    var k := (x - y) / TWO32;
    assert x - y == TWO32 * k;
    assert n * y - n * x == TWO32 * (-(n * k)) by {
      assert n * (x - y) == n * x - n * y;
      assert n * (TWO32 * k) == TWO32 * (n * k);
    }
    MultipleMod(TWO32, -(n * k));
  }

  lemma WrapSmall(n: int)
    requires IsInt32(n)
    ensures Wrap(n) == n
  {}

  /** fact(n) is the product of the numbers up to n, each time cut to 32 bits. */
  lemma {:induction false} FactMeans(n: nat, glob: seq<int>, fuel: nat)
    requires n < TWO31 && fuel + 1 >= n
    ensures Body(PROG, 0, [n], glob, fuel) == Returned(Some(Product(n)), Store(glob, ArgMap([n])))
    decreases n
  {
    hide Eval, Exec, Wrap;
    var st := Store(glob, ArgMap([n]));
    LocalRule(FACT, 0, st, fuel);
    ConstRule(FACT, 1, st, fuel);
    BinRule(FACT, SMALL, st, fuel, n, 1);
    IfRule(FACT, ONE, st, fuel, if n <= 1 then 1 else 0);
    ReturnRule(FACT, Const(1), st, fuel, 1);
    SeqRule(FACT, ONE, Return(Some(TIMES)), st, fuel);
    if n > 1 {
      WrapSmall(n - 1);
      BinRule(FACT, LESS_ONE, st, fuel, n, 1);
      FactMeans(n - 1, glob, fuel - 1);
      CallRule(FACT, LESS_ONE, st, fuel, n - 1, Product(n - 1));
      BinRule(FACT, TIMES, st, fuel, n, Product(n - 1));
      ReturnRule(FACT, TIMES, st, fuel, Product(n));
    }
  }

  function Total(n: nat): int { if n == 0 then 0 else Wrap(Total(n - 1) + n) }

  function Triangle(n: nat): nat { n * (n + 1) / 2 }

  lemma TriangleGrows(n: nat)
    requires n > 0
    ensures Triangle(n) == Triangle(n - 1) + n
  {
    assert n * (n + 1) == (n - 1) * n + 2 * n;
  }

  lemma SameSum(x: int, y: int, n: int)
    requires SameWord(x, y)
    ensures SameWord(y + n, x + n)
  {
    var k := (x - y) / TWO32;
    assert (y + n) - (x + n) == TWO32 * -k;
    MultipleMod(TWO32, -k);
  }

  lemma ZeroIsZero()
    ensures SameWord(0, Triangle(0)) && IsInt32(0)
  {}

  lemma {:induction false} TotalIsTriangle(n: nat)
    ensures SameWord(Total(n), Triangle(n)) && IsInt32(Total(n))
  {
    hide Wrap, Triangle, SameWord;
    if n > 0 {
      TotalIsTriangle(n - 1);
      TriangleGrows(n);
      WrapIsSameWord(Total(n - 1) + n);
      SameSum(Total(n - 1), Triangle(n - 1), n);
      SameWordTrans(Wrap(Total(n - 1) + n), Total(n - 1) + n, Triangle(n));
    } else {
      ZeroIsZero();
    }
  }

  /** The store when the numbers up to i have been added. */
  function AtTurn(n: nat, glob: seq<int>, i: nat): Store { Store(glob, map[0 := n, -1 := Total(i), -2 := i]) }

  /** One turn of the loop. */
  lemma {:induction false} TurnMeans(n: nat, glob: seq<int>, i: nat, fuel: nat)
    requires i <= n < TWO31
    ensures Exec(PROG, SUM, Seq(If(DONE, Break), ExprS(ADD_NEXT)), AtTurn(n, glob, i), fuel)
            == if i == n then Brk(AtTurn(n, glob, i)) else Normal(AtTurn(n, glob, i + 1))
  {
    hide Eval, Exec, Wrap;
    var st := AtTurn(n, glob, i);
    LocalRule(SUM, -2, st, fuel);
    LocalRule(SUM, 0, st, fuel);
    BinRule(SUM, DONE, st, fuel, i, n);
    IfRule(SUM, If(DONE, Break), st, fuel, if i < n then 0 else 1);
    JumpRule(SUM, st, fuel);
    SeqRule(SUM, If(DONE, Break), ExprS(ADD_NEXT), st, fuel);
    if i < n {
      var up := BumpRule(n, glob, i, fuel);
      LocalRule(SUM, -1, up, fuel);
      LocalRule(SUM, -2, up, fuel);
      BinRule(SUM, MORE, up, fuel, Total(i), i + 1);
      SetRule(SUM, -1, MORE, up, fuel, Total(i + 1));
      assert up.loc[-1 := Total(i + 1)] == AtTurn(n, glob, i + 1).loc;
      CommaRule(SUM, ADD_NEXT, st, fuel, i + 1, up, Total(i + 1), AtTurn(n, glob, i + 1));
    }
  }

  lemma BumpRule(n: nat, glob: seq<int>, i: nat, fuel: nat)
    returns (up: Store)
    requires i < n < TWO31
    ensures up == Store(glob, map[0 := n, -1 := Total(i), -2 := i + 1])
    ensures Eval(PROG, SUM, IncDec(I, true, false), AtTurn(n, glob, i), fuel) == Val(i + 1, up)
  {
    hide Wrap, Total;
    WrapSmall(i + 1);
    up := Store(glob, AtTurn(n, glob, i).loc[-2 := i + 1]);
  }

  /** The rest of the loop. */
  lemma {:induction false} LoopMeans(n: nat, glob: seq<int>, i: nat, fuel: nat)
    requires i <= n < TWO31 && fuel >= n - i
    ensures Exec(PROG, SUM, LOOP, AtTurn(n, glob, i), fuel) == Normal(AtTurn(n, glob, n))
    decreases n - i
  {
    hide Exec, AtTurn;
    TurnMeans(n, glob, i, fuel);
    LoopRule(SUM, Seq(If(DONE, Break), ExprS(ADD_NEXT)), AtTurn(n, glob, i), fuel);
    if i < n {
      LoopMeans(n, glob, i + 1, fuel - 1);
    }
  }

  /** sum(n) is the sum of the numbers up to n, each time cut to 32 bits. */
  lemma SumMeans(n: nat, glob: seq<int>, fuel: nat)
    requires n < TWO31 && fuel >= n
    ensures Body(PROG, 1, [n], glob, fuel) == Returned(Some(Total(n)), AtTurn(n, glob, n))
  {
    hide Eval, Exec;
    var st := Store(glob, ArgMap([n]));
    ConstRule(SUM, 0, st, fuel);
    SetRule(SUM, -1, Const(0), st, fuel, 0);
    var st1 := Store(glob, st.loc[-1 := 0]);
    ConstRule(SUM, 0, st1, fuel);
    SetRule(SUM, -2, Const(0), st1, fuel, 0);
    assert st1.loc[-2 := 0] == AtTurn(n, glob, 0).loc;
    SeqRule(SUM, ExprS(Assign(S, Const(0))), ExprS(Assign(I, Const(0))), st, fuel);
    LoopMeans(n, glob, 0, fuel);
    SeqRule(SUM, CLEAR, LOOP, st, fuel);
    SeqRule(SUM, Seq(CLEAR, LOOP), Return(Some(Ref(S))), st, fuel);
    LocalRule(SUM, -1, AtTurn(n, glob, n), fuel);
    ReturnRule(SUM, Ref(S), AtTurn(n, glob, n), fuel, Total(n));
  }

  lemma BodiesMean(n: nat, glob: seq<int>)
    requires n < TWO31
    ensures Meaning(PROG, 0, [n], glob, n) == Val(Product(n), Store(glob, map[]))
    ensures Meaning(PROG, 1, [n], glob, n) == Val(Total(n), Store(glob, map[]))
  {
    hide Body, Product, Total;
    FactMeans(n, glob, n);
    SumMeans(n, glob, n);
  }

  // ----- and what the engine makes of them -----

  /** Called with any n from any context, the finished code comes back with n factorial modulo 2^32 on the stack. */
  lemma FactRuns(w: Image, n: nat, s: State)
    requires Compiled2(w) && n < TWO31 && ArgsOnTop(s, [n]) && AtCall(PlainImage(PROG, w, BOTH), s)
    ensures exists t, v :: Reaches(w, Enter(w, s, 0), t) && BackIn(s, t, s.stk[..|s.stk| - 1] + [v], s.glob)
                           && IsInt32(v) && SameWord(v, Factorial(n))
  {
    hide FinalBlock, ArgsOnTop, AtCall, PlainImage, Enter, Reaches, BackIn, Meaning, SameWord, Product, Factorial,
      Finished, WellFormed;
    BodiesMean(n, s.glob);
    ProgramFinished(w);
    InProgram();
    var t := ComesBackWith(PROG, w, BOTH, 0, n, s, n, Product(n));
    ProductIsFactorial(n);
  }

  /** A call of a finished function of one argument whose meaning is v. */
  lemma ComesBackWith(p: Prog, w: Image, good: iset<nat>, f: nat, n: int, s: State, fuel: nat, v: int)
    returns (t: State)
    requires |w| == |p| && Finished(p, w, good) && f < |p| && f in good && p[f].nargs == 1
    requires ArgsOnTop(s, [n]) && AtCall(PlainImage(p, w, good), s)
    requires Meaning(p, f, [n], s.glob, fuel) == Val(v, Store(s.glob, map[]))
    ensures Reaches(w, Enter(w, s, f), t) && BackIn(s, t, s.stk[..|s.stk| - 1] + [v], s.glob)
  {
    hide Finished, PlainImage, AtCall, Enter, Reaches, BackIn, Meaning;
    FinalCallCorrect(p, w, good, f, [n], s, fuel);
    t :| Reaches(w, Enter(w, s, f), t) && BackIn(s, t, s.stk[..|s.stk| - 1] + [v], s.glob);
  }

  lemma InProgram()
    ensures |PROG| == 2 && PROG[0].nargs == 1 && PROG[1].nargs == 1 && 0 in BOTH && 1 in BOTH
  {}

  /** From outside the program, with nothing but n on the stack: the engine stops with n factorial in its place. */
  lemma FactFromOutside(w: Image, n: nat, stale: seq<int>, glob: seq<int>)
    requires Compiled2(w) && n < TWO31
    ensures var s := State(0, -1, 0, [n], stale, [], glob, false);
            exists t, v :: Reaches(w, Enter(w, s, 0), t) && Halted(w, t) && !t.trap && t.stk == [v] && t.glob == glob
                           && IsInt32(v) && SameWord(v, Factorial(n))
  {
    hide FinalBlock, PlainImage, Enter, Reaches, SameWord, Factorial, ArgsOnTop, AtCall;
    var s := State(0, -1, 0, [n], stale, [], glob, false);
    OutsideCalls(PlainImage(PROG, w, BOTH), s, n);
    FactRuns(w, n, s);
    var t, v :| Reaches(w, Enter(w, s, 0), t) && BackIn(s, t, s.stk[..|s.stk| - 1] + [v], s.glob) && IsInt32(v)
                && SameWord(v, Factorial(n));
    assert s.stk[..0] + [v] == [v];
  }

  lemma OutsideCalls(img: Image, s: State, n: nat)
    requires s.fb < 0 && s.fs == [] && !s.trap && s.stk == [n]
    ensures AtCall(img, s) && ArgsOnTop(s, [n])
  {}

  /** And with the sum of the numbers up to n. */
  lemma SumRuns(w: Image, n: nat, s: State)
    requires Compiled2(w) && n < TWO31 && ArgsOnTop(s, [n]) && AtCall(PlainImage(PROG, w, BOTH), s)
    ensures exists t, v :: Reaches(w, Enter(w, s, 1), t) && BackIn(s, t, s.stk[..|s.stk| - 1] + [v], s.glob)
                           && IsInt32(v) && SameWord(v, Triangle(n))
  {
    hide FinalBlock, ArgsOnTop, AtCall, PlainImage, Enter, Reaches, BackIn, Meaning, SameWord, Total, Triangle,
      Finished, WellFormed;
    BodiesMean(n, s.glob);
    ProgramFinished(w);
    InProgram();
    var t := ComesBackWith(PROG, w, BOTH, 1, n, s, n, Total(n));
    TotalIsTriangle(n);
  }
}
