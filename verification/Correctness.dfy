/** What the simulation gives for whole runs: a call from any context, to its end or for ever. */
module Correctness {
  import opened Machine
  import opened Source
  import opened Codegen
  import opened Binding
  import opened SimBase
  import opened Simulation
  import Definedness

  ghost predicate Reaches(img: Image, s: State, t: State) { exists n: nat :: Run(img, s, n) == t }

  ghost predicate Halts(img: Image, s: State) { exists n: nat :: Halted(img, Run(img, s, n)) }

  /** The words on top of the stack are the arguments, the first one on top. */
  predicate ArgsOnTop(s: State, vs: seq<int>) {
    |vs| <= |s.stk| && forall d {:trigger vs[d]} :: 0 <= d < |vs| ==> s.stk[|s.stk| - 1 - d] == vs[d]
  }

  ghost predicate Callable(p: Prog, img: Image, good: iset<nat>, f: nat, vs: seq<int>, s: State) {
    Compiled(p, img, good) && f < |p| && f in good && |vs| == p[f].nargs && ArgsOnTop(s, vs) && !s.trap
  }

  function Meaning(p: Prog, f: nat, vs: seq<int>, glob: seq<int>, fuel: nat): Res
    requires f < |p|
  {
    CallResult(p[f].isVoid, Store(glob, map[]), Body(p, f, vs, glob, fuel))
  }

  /** Every completed call, however nested or recursive, comes back to the instruction after it with the
      caller's registers, frames and deeper words as they were, its arguments replaced by its result. */
  lemma CallCorrect(p: Prog, img: Image, good: iset<nat>, f: nat, vs: seq<int>, s: State, fuel: nat)
    requires Callable(p, img, good, f, vs, s)
    ensures var r := Meaning(p, f, vs, s.glob, fuel);
            var cut := |s.stk| - |vs|;
            && (r.Val? ==>
                  exists t :: Reaches(img, Enter(img, s, f), t) && BackIn(s, t, s.stk[..cut] + [r.v], r.st.glob))
            && (r.NoVal? ==> exists t :: Reaches(img, Enter(img, s, f), t) && BackIn(s, t, s.stk[..cut], r.st.glob))
            && (r.Fault? ==> exists t :: Reaches(img, Enter(img, s, f), t) && t.trap)
  {
    hide Run, Body, Enter;
    var n, t := BodySim(p, img, good, f, vs, s, Store(s.glob, map[]), fuel);
    assert Reaches(img, Enter(img, s, f), t);
  }

  predicate StartContext(img: Image, s: State) { !(0 <= s.fb < |img|) }

  /** A program with a meaning at every fuel: no use of an uninitialised local, no missing result. */
  ghost predicate Defined(p: Prog, f: nat, vs: seq<int>, glob: seq<int>)
    requires f < |p|
  {
    forall fuel: nat :: Meaning(p, f, vs, glob, fuel) != Undef
  }

  ghost predicate Finishes(p: Prog, f: nat, vs: seq<int>, glob: seq<int>)
    requires f < |p|
  {
    exists fuel: nat :: Meaning(p, f, vs, glob, fuel) != Timeout
  }

  /** Started from outside, the engine stops exactly when the source run comes to an end. */
  lemma HaltsExactly(p: Prog, img: Image, good: iset<nat>, f: nat, vs: seq<int>, s: State)
    requires Callable(p, img, good, f, vs, s) && StartContext(img, s)
    requires Defined(p, f, vs, s.glob)
    ensures Halts(img, Enter(img, s, f)) <==> Finishes(p, f, vs, s.glob)
  {
    hide Run, Body, Enter;
    var start := Enter(img, s, f);
    if Halts(img, start) {
      var n: nat :| Halted(img, Run(img, start, n));
      var m, t := BodySim(p, img, good, f, vs, s, Store(s.glob, map[]), n);
      if Meaning(p, f, vs, s.glob, n) == Timeout {
        StillGoing(img, start, n, m);
      }
    }
    if Finishes(p, f, vs, s.glob) {
      var fuel: nat :| Meaning(p, f, vs, s.glob, fuel) != Timeout;
      var m, t := BodySim(p, img, good, f, vs, s, Store(s.glob, map[]), fuel);
      assert Halted(img, Run(img, start, m));
    }
  }

  /** A well-formed program has a meaning, on whatever arguments and globals it is called: a value exactly when the
      function is to return one, unless it faults or has not come to its end. */
  lemma HasMeaning(p: Prog, f: nat, vs: seq<int>, glob: seq<int>, fuel: nat)
    requires Definedness.WellFormed(p, |glob|) && f < |p| && |vs| == p[f].nargs
    ensures Defined(p, f, vs, glob)
    ensures var r := Meaning(p, f, vs, glob, fuel);
            r.Fault? || r.Timeout? || (|r.st.glob| == |glob| && if p[f].isVoid then r.NoVal? else r.Val?)
  {
    hide Body, Definedness.WellFormed;
    forall k: nat
      ensures Meaning(p, f, vs, glob, k) != Undef
    {
      Definedness.BodyDefined(p, |glob|, f, vs, glob, k);
    }
    Definedness.BodyDefined(p, |glob|, f, vs, glob, fuel);
  }

  /** So the engine stops on a well-formed program exactly when its source run comes to an end. */
  lemma WellFormedHalts(p: Prog, img: Image, good: iset<nat>, f: nat, vs: seq<int>, s: State)
    requires Callable(p, img, good, f, vs, s) && StartContext(img, s) && Definedness.WellFormed(p, |s.glob|)
    ensures Halts(img, Enter(img, s, f)) <==> Finishes(p, f, vs, s.glob)
  {
    hide Definedness.WellFormed, Defined, Finishes, Halts, Enter, Compiled;
    HasMeaning(p, f, vs, s.glob, 0);
    HaltsExactly(p, img, good, f, vs, s);
  }

  /** An expression from any state ends just past its code with its value pushed and nothing else moved. */
  lemma ExprCorrect(p: Prog, img: Image, good: iset<nat>, e: Expr, pc: nat, s: State, st: Store, fuel: nat)
    requires Ready(p, img, good, s, st, pc) && Clean(e, good)
    requires At(CodeOf(img, s), pc, CExpr(p, e, false, pc))
    ensures var r := Eval(p, p[s.fb], e, st, fuel);
            && (r.Val? ==> exists t :: Reaches(img, s, t) && Kept(p[s.fb], s, t) && Rel(p[s.fb], t, r.st)
                                     && t.pc == pc + ExprLen(p, e, false)
                                     && |t.stk| == |s.stk| + 1 && Top(t) == r.v)
            && (r.Fault? ==> exists t :: Reaches(img, s, t) && t.trap)
  {
    hide Run, At, CExpr, ExprLen, Eval, Clean, Clears;
    var n, t := ExprSim(p, img, good, e, false, pc, s, st, fuel);
    assert Reaches(img, s, t);
  }

  // ----- droppings: what happens when DROP_VALUE is ignored -----

  /** Compiled with DROP_VALUE, a tree leaves its value behind exactly when the path taken ignores the flag. */
  lemma DroppingsExactly(p: Prog, img: Image, good: iset<nat>, e: Expr, pc: nat, s: State, st: Store, fuel: nat)
    returns (n: nat, t: State)
    requires Ready(p, img, good, s, st, pc) && Clean(e, good)
    requires At(CodeOf(img, s), pc, CExpr(p, e, true, pc))
    requires Eval(p, p[s.fb], e, st, fuel).Val?
    ensures Run(img, s, n) == t && t.pc == pc + ExprLen(p, e, true)
    ensures |t.stk| == |s.stk| <==> Clears(p, p[s.fb], e, st, fuel)
    ensures |t.stk| == |s.stk| || (|t.stk| == |s.stk| + 1 && Top(t) == Eval(p, p[s.fb], e, st, fuel).v)
  {
    hide Run, At, CExpr, ExprLen, Eval, Clean, Clears;
    n, t := ExprSim(p, img, good, e, true, pc, s, st, fuel);
  }

  /** A comma yields its right value on an otherwise unchanged stack exactly when its left side cleared. */
  lemma CommaExactly(p: Prog, img: Image, good: iset<nat>, e: Expr, pc: nat, s: State, st: Store, fuel: nat)
    returns (n: nat, t: State)
    requires Ready(p, img, good, s, st, pc) && e.Comma? && Clean(e.e1, good) && Clean(e.e2, good)
    requires At(CodeOf(img, s), pc, CComma(p, e, false, pc))
    requires EvalComma(p, p[s.fb], e, st, fuel).Val?
    ensures Run(img, s, n) == t && Kept(p[s.fb], s, t) && t.stk != []
    ensures Top(t) == EvalComma(p, p[s.fb], e, st, fuel).v
    ensures |t.stk| == |s.stk| + 1
            <==> (Eval(p, p[s.fb], e.e1, st, fuel).NoVal? || Clears(p, p[s.fb], e.e1, st, fuel))
  {
    hide Run, At, CExpr, ExprLen, Eval, Clean, Clears;
    var pb := pc + ExprLen(p, e.e1, true);
    AtSplit(CodeOf(img, s), pc, CExpr(p, e.e1, true, pc), CExpr(p, e.e2, false, pb));
    var fn := p[s.fb];
    n, t := ExprSim(p, img, good, e.e1, true, pc, s, st, fuel);
    var r := Eval(p, fn, e.e1, st, fuel);
    var m, u := ExprSim(p, img, good, e.e2, false, pb, t, r.st, fuel);
    Compose(img, s, n, t, m, u);
    KeptTrans(fn, s, t, u);
    n, t := n + m, u;
  }

  /** The parts of `a op (g, b)`, each with a value when evaluated in turn. */
  predicate Sound(p: Prog, fn: Fun, e: Expr, st: Store, fuel: nat) {
    && e.Bin? && e.e2.Comma?
    && var ra := Eval(p, fn, e.e1, st, fuel);
       ra.Val? &&
       var rg := Eval(p, fn, e.e2.e1, ra.st, fuel);
       rg.Val? &&
       var rb := Eval(p, fn, e.e2.e2, rg.st, fuel);
       rb.Val?
  }

  /** What the source makes of such a tree, and what the machine does when g stays on the stack: g op b. */
  function Meant(p: Prog, fn: Fun, e: Expr, st: Store, fuel: nat): (Option<int>, Store)
    requires Sound(p, fn, e, st, fuel)
  {
    var ra := Eval(p, fn, e.e1, st, fuel);
    var rb := Eval(p, fn, e.e2.e2, Eval(p, fn, e.e2.e1, ra.st, fuel).st, fuel);
    (BinMeaning(e.tok, ra.v, rb.v), rb.st)
  }

  function Spoiled(p: Prog, fn: Fun, e: Expr, st: Store, fuel: nat): Option<int>
    requires Sound(p, fn, e, st, fuel)
  {
    var rg := Eval(p, fn, e.e2.e1, Eval(p, fn, e.e1, st, fuel).st, fuel);
    BinMeaning(e.tok, rg.v, Eval(p, fn, e.e2.e2, rg.st, fuel).v)
  }

  /** Whether g leaves nothing behind. */
  predicate LeftClears(p: Prog, fn: Fun, e: Expr, st: Store, fuel: nat)
    requires Sound(p, fn, e, st, fuel)
  {
    Clears(p, fn, e.e2.e1, Eval(p, fn, e.e1, st, fuel).st, fuel)
  }

  lemma CommaMeaning(p: Prog, fn: Fun, e: Expr, st: Store, fuel: nat)
    requires e.Comma?
    ensures Eval(p, fn, e, st, fuel) == EvalComma(p, fn, e, st, fuel)
  {}

  lemma BinaryMeaning(p: Prog, fn: Fun, e: Expr, st: Store, fuel: nat)
    requires e.Bin?
    ensures Eval(p, fn, e, st, fuel) == EvalBin(p, fn, e, st, fuel)
  {}

  lemma MeantIsMeaning(p: Prog, fn: Fun, e: Expr, st: Store, fuel: nat)
    requires Sound(p, fn, e, st, fuel)
    ensures var m := Meant(p, fn, e, st, fuel);
            Eval(p, fn, e, st, fuel) == if m.0.Some? then Val(m.0.value, m.1) else Fault
  {
    hide BinMeaning, Eval;
    var ra := Eval(p, fn, e.e1, st, fuel);
    CommaMeaning(p, fn, e.e2, ra.st, fuel);
    BinaryMeaning(p, fn, e, st, fuel);
  }

  /** The operands are in place, and the operator comes next. */
  predicate OperandsIn(fn: Fun, e: Expr, s: State, u: State, a: int, g: int, b: int, st: Store, clear: bool) {
    && Kept(fn, s, u) && Rel(fn, u, st) && |u.stk| == |s.stk| + (if clear then 2 else 3)
    && u.stk[|s.stk|] == a && Top(u) == b && (!clear ==> u.stk[|s.stk| + 1] == g)
  }

  lemma SpoiledOperands(p: Prog, img: Image, good: iset<nat>, e: Expr, pc: nat, s: State, st: Store, fuel: nat)
    returns (n: nat, u: State)
    requires Ready(p, img, good, s, st, pc) && Sound(p, p[s.fb], e, st, fuel)
    requires Clean(e.e1, good) && Clean(e.e2.e1, good) && Clean(e.e2.e2, good)
    requires At(CodeOf(img, s), pc, CBin(p, e, pc))
    ensures Run(img, s, n) == u && u.pc == pc + ExprLen(p, e, false) - 1
    ensures u.pc < |CodeOf(img, s)| && CodeOf(img, s)[u.pc] == Alu2(EquivOp(e.tok))
    ensures var ra := Eval(p, p[s.fb], e.e1, st, fuel);
            var rg := Eval(p, p[s.fb], e.e2.e1, ra.st, fuel);
            var rb := Eval(p, p[s.fb], e.e2.e2, rg.st, fuel);
            OperandsIn(p[s.fb], e, s, u, ra.v, rg.v, rb.v, rb.st, LeftClears(p, p[s.fb], e, st, fuel))
  {
    hide Run, At, CExpr, Eval, Clean, Clears, Rel, ExprLen;
    BinLen(p, e);
    var fn, code, i := p[s.fb], CodeOf(img, s), Alu2(EquivOp(e.tok));
    var pg := pc + ExprLen(p, e.e1, false);
    var pb := pg + ExprLen(p, e.e2.e1, true);
    CommaCode(p, e.e2, pg);
    var g, b := CExpr(p, e.e2.e1, true, pg), CExpr(p, e.e2.e2, false, pb);
    AtSplit(code, pc, CExpr(p, e.e1, false, pc), (g + b) + [i]);
    AtSplit(code, pg, g + b, [i]);
    AtSplit(code, pg, g, b);
    AtOne(code, pb + |b|, i);
    var ra := Eval(p, fn, e.e1, st, fuel);
    var rg := Eval(p, fn, e.e2.e1, ra.st, fuel);
    n, u := ExprSim(p, img, good, e.e1, false, pc, s, st, fuel);
    var m, v := ExprSim(p, img, good, e.e2.e1, true, pg, u, ra.st, fuel);
    Compose(img, s, n, u, m, v);
    KeptTrans(fn, s, u, v);
    assert v.stk[|s.stk|] == ra.v;
    var k, w := ExprSim(p, img, good, e.e2.e2, false, pb, v, rg.st, fuel);
    Compose(img, s, n + m, v, k, w);
    KeptTrans(fn, s, v, w);
    assert w.stk[|s.stk|] == ra.v && w.stk[|v.stk| - 1] == v.stk[|v.stk| - 1];
    n, u := n + m + k, w;
  }

  lemma BinLen(p: Prog, e: Expr)
    requires e.Bin? && e.e2.Comma?
    ensures ExprLen(p, e, false) == ExprLen(p, e.e1, false) + ExprLen(p, e.e2.e1, true) + ExprLen(p, e.e2.e2, false) + 1
  {}

  lemma CommaCode(p: Prog, e: Expr, pc: nat)
    requires e.Comma?
    ensures CExpr(p, e, false, pc)
            == CExpr(p, e.e1, true, pc) + CExpr(p, e.e2, false, pc + ExprLen(p, e.e1, true))
    ensures ExprLen(p, e, false) == ExprLen(p, e.e1, true) + ExprLen(p, e.e2, false)
  {
    assert CExpr(p, e, false, pc) == CComma(p, e, false, pc);
  }

  /** The comma's dropping becomes the left operand: unless g clears, the machine computes g op b and leaves a
      behind. */
  lemma CommaSpoilsOperand(p: Prog, img: Image, good: iset<nat>, e: Expr, pc: nat, s: State, st: Store, fuel: nat)
    returns (n: nat, t: State)
    requires Ready(p, img, good, s, st, pc) && Sound(p, p[s.fb], e, st, fuel)
    requires Clean(e.e1, good) && Clean(e.e2.e1, good) && Clean(e.e2.e2, good)
    requires At(CodeOf(img, s), pc, CBin(p, e, pc))
    ensures Run(img, s, n) == t
    ensures var fn, clear := p[s.fb], LeftClears(p, p[s.fb], e, st, fuel);
            var m, v := Meant(p, fn, e, st, fuel), Spoiled(p, fn, e, st, fuel);
            var got := if clear then m.0 else v;
            && Eval(p, fn, e, st, fuel) == (if m.0.Some? then Val(m.0.value, m.1) else Fault)
            && if got.None? then t.trap
               else
                 && t.pc == pc + ExprLen(p, e, false) && Kept(fn, s, t) && Rel(fn, t, m.1)
                 && |t.stk| == |s.stk| + (if clear then 1 else 2) && Top(t) == got.value
  {
    hide Run, At, CExpr, Eval, Clean, Clears, Rel, BinMeaning;
    var fn := p[s.fb];
    MeantIsMeaning(p, fn, e, st, fuel);
    var u;
    n, u := SpoiledOperands(p, img, good, e, pc, s, st, fuel);
    var i := Alu2(EquivOp(e.tok));
    var left := u.stk[|u.stk| - 2];
    OperatorsAgree(e.tok, left, Top(u));
    Advance(img, s, n, u, i);
    t := Exec1(img, u, i);
    n := n + 1;
    if !t.trap {
      Retop(fn, s, u, t, Meant(p, fn, e, st, fuel).1);
    }
  }

  /** A call of a void function `x = a op (g, b);` on values vs, x global, that has a value but is spoiled. */
  ghost predicate SpoiledBody(p: Prog, good: iset<nat>, f: nat, vs: seq<int>, glob: seq<int>, fuel: nat) {
    && f < |p| && p[f].isVoid && |vs| == p[f].nargs
    && p[f].body.ExprS? && p[f].body.e.Assign? && p[f].body.e.x.Global?
    && var e, st := p[f].body.e.e, Store(glob, ArgMap(vs));
       && Sound(p, p[f], e, st, fuel) && Clean(e.e1, good) && Clean(e.e2.e1, good) && Clean(e.e2.e2, good)
       && Meant(p, p[f], e, st, fuel).0.Some? && p[f].body.e.x.k < |Meant(p, p[f], e, st, fuel).1.glob|
       && Spoiled(p, p[f], e, st, fuel).Some? && !LeftClears(p, p[f], e, st, fuel)
  }

  /** Where the source stores a op b, the machine stores g op b. */
  lemma SpoiledCall(p: Prog, img: Image, good: iset<nat>, f: nat, vs: seq<int>, s: State, fuel: nat)
    requires Compiled(p, img, good) && SpoiledBody(p, good, f, vs, s.glob, fuel) && img[f] == PlainBlock(p, p[f])
    requires ArgsOnTop(s, vs) && !s.trap
    ensures var k, e, st := p[f].body.e.x.k, p[f].body.e.e, Store(s.glob, ArgMap(vs));
            var m, v := Meant(p, p[f], e, st, fuel), Spoiled(p, p[f], e, st, fuel);
            && Meaning(p, f, vs, s.glob, fuel) == NoVal(Store(m.1.glob[k := m.0.value], map[]))
            && exists t :: Reaches(img, Enter(img, s, f), t)
                           && BackIn(s, t, s.stk[..|s.stk| - |vs|], m.1.glob[k := v.value])
  {
    hide Run, At, Eval, Clean, Sound, Meant, Spoiled, LeftClears, CExpr, ExprLen;
    var fn, u, st := p[f], Enter(img, s, f), Store(s.glob, ArgMap(vs));
    var x, e := p[f].body.e.x, p[f].body.e.e;
    SpoiledShape(p, fn, x, e, st, fuel);
    AtWhole(BodyCode(p, fn), [RetOf(fn.isVoid), End]);
    AtSplit(CodeOf(img, u), 0, CBin(p, e, 0), [PopI(OperandOf(x))]);
    AtOne(CodeOf(img, u), |CBin(p, e, 0)|, PopI(OperandOf(x)));
    var n, t := CommaSpoilsOperand(p, img, good, e, 0, u, st, fuel);
    n, t := PopSim(p, img, good, u, n, t, Meant(p, fn, e, st, fuel).1, x);
    n, t := LeaveSim(p, img, f, s, n, t, |vs|);
    assert Reaches(img, u, t);
  }

  lemma SpoiledShape(p: Prog, fn: Fun, x: Var, e: Expr, st: Store, fuel: nat)
    requires fn.body == ExprS(Assign(x, e)) && Sound(p, fn, e, st, fuel)
    ensures e.Bin? && BodyCode(p, fn) == CBin(p, e, 0) + [PopI(OperandOf(x))]
    ensures StmtLen(p, fn.body) == |CBin(p, e, 0)| + 1 && |CBin(p, e, 0)| == ExprLen(p, e, false)
    ensures var m := Meant(p, fn, e, st, fuel);
            Exec(p, fn, fn.body, st, fuel)
            == if m.0.None? then OFault
               else if Assignable(fn, m.1, x) then Normal(Update(fn, m.1, x, m.0.value)) else OUndef
  {
    hide BinMeaning, Update, Assignable;
    MeantIsMeaning(p, fn, e, st, fuel);
    var a := Assign(x, e);
    assert Eval(p, fn, a, st, fuel) == EvalAssign(p, fn, a, st, fuel);
    assert CExpr(p, e, false, 0) == CBin(p, e, 0);
    assert CExpr(p, a, true, 0) == CAssign(p, a, true, 0) == CBin(p, e, 0) + [PopI(OperandOf(x))];
  }

  // ----- unbraced loop bodies -----

  /** From every store in `inv` the conditions are not 0 and lead back into `inv`, as long as they come to an end. */
  ghost predicate KeepTrue(p: Prog, fn: Fun, c: Expr, d: Expr, inv: iset<Store>) {
    forall st, fuel: nat {:trigger Eval(p, fn, c, st, fuel)} :: st in inv ==>
      var r := Eval(p, fn, c, st, fuel);
      r.Timeout? || (r.Val? && r.v != 0 &&
        var q := Eval(p, fn, d, r.st, fuel);
        q.Timeout? || (q.Val? && q.v != 0 && q.st in inv))
  }

  /** `while (c) if (d) { break; }`: the block takes the loop's flag but the label of the if, so that its break never
      leaves the loop, while the source does at once. */
  lemma UnbracedBreakNeverLeaves(p: Prog, img: Image, good: iset<nat>, c: Expr, d: Expr, il: bool, l: Labels, s: State,
      st: Store, inv: iset<Store>, k: nat)
    requires s.pc >= 0 && Ready(p, img, good, s, st, s.pc) && Clean(c, good) && Clean(d, good)
    requires At(CodeOf(img, s), s.pc, CStmt(p, Unbraced(c, d, Break), s.pc, il, l))
    requires st in inv && KeepTrue(p, p[s.fb], c, d, inv)
    ensures var o := Exec(p, p[s.fb], Unbraced(c, d, Break), st, k);
            var r := Eval(p, p[s.fb], c, st, k);
            if r.Val? && Eval(p, p[s.fb], d, r.st, k).Val? then o.Normal? && o.st in inv else o == OTimeout
    ensures !Halted(img, Run(img, s, k))
  {
    hide Run, At, Eval, Clean, CStmt, Rel, KeepTrue, Exec, Embrace, StmtLen, OutPost, Bound;
    var x := Unbraced(c, d, Continue);
    LeavesAtOnce(p, p[s.fb], c, d, st, inv, k);
    GoesRound(p, p[s.fb], c, d, st, inv, k);
    BreakIsContinue(p, c, d, s.pc, il, l, l);
    EmbraceMeans(p, p[s.fb], x, st, k);
    EmbraceStatic(x, good);
    StuckStatic(c, d, good);
    var n, t := BracedSim(p, img, good, Embrace(x), s.pc, l, s, st, k);
    TimeoutGoesOn(img, p[s.fb], s, t, n, k, Tidy(Embrace(x)), s.pc + StmtLen(p, Embrace(x)), l);
    StillGoing(img, s, k, n);
  }

  lemma TimeoutGoesOn(img: Image, fn: Fun, s: State, t: State, n: nat, fuel: nat, tidy: bool, pcEnd: int, l: Labels)
    requires OutPost(img, fn, s, t, n, fuel, OTimeout, tidy, pcEnd, l)
    ensures n >= fuel && !Halted(img, t)
  {}

  lemma {:induction false} StuckStatic(c: Expr, d: Expr, good: iset<nat>)
    requires Clean(c, good) && Clean(d, good)
    ensures CleanS(Unbraced(c, d, Continue), good)
  {
    hide Clean;
    assert CleanS(If(d, Block(Continue)), good);
  }

  /** One turn of such a loop. */
  lemma {:induction false} UnbracedTurn(p: Prog, fn: Fun, c: Expr, d: Expr, y: Stmt, st: Store, fuel: nat)
    requires (y.Break? || y.Continue?) && Eval(p, fn, c, st, fuel).Val? && Eval(p, fn, c, st, fuel).v != 0
    ensures var st1 := Eval(p, fn, c, st, fuel).st;
            var q, x := NeedVal(Eval(p, fn, d, st1, fuel)), Unbraced(c, d, y);
            Exec(p, fn, x, st, fuel) ==
            if !q.Val? then OutOf(q)
            else if q.v == 0 || y.Continue? then (if fuel == 0 then OTimeout else Exec(p, fn, x, q.st, fuel - 1))
            else Normal(q.st)
  {
    hide Eval;
    var x, r := Unbraced(c, d, y), Eval(p, fn, c, st, fuel);
    var q := NeedVal(Eval(p, fn, d, r.st, fuel));
    assert Exec(p, fn, x, st, fuel) == LoopWhile(p, fn, x, st, fuel);
    assert Exec(p, fn, x.s, r.st, fuel) == ExecIf(p, fn, x.s, r.st, fuel);
    if q.Val? {
      assert Exec(p, fn, x.s.s1, q.st, fuel) == if y.Break? then Brk(q.st) else Cnt(q.st);
      if fuel > 0 {
        assert Exec(p, fn, x, q.st, fuel - 1) == LoopWhile(p, fn, x, q.st, fuel - 1);
      }
    }
  }

  lemma {:induction false} UnbracedTimeout(p: Prog, fn: Fun, c: Expr, d: Expr, y: Stmt, st: Store, fuel: nat)
    requires Eval(p, fn, c, st, fuel).Timeout?
    ensures Exec(p, fn, Unbraced(c, d, y), st, fuel) == OTimeout
  {
    hide Eval;
    var x := Unbraced(c, d, y);
    assert Exec(p, fn, x, st, fuel) == LoopWhile(p, fn, x, st, fuel);
  }

  lemma LeavesAtOnce(p: Prog, fn: Fun, c: Expr, d: Expr, st: Store, inv: iset<Store>, fuel: nat)
    requires st in inv && KeepTrue(p, fn, c, d, inv)
    ensures var o := Exec(p, fn, Unbraced(c, d, Break), st, fuel);
            var r := Eval(p, fn, c, st, fuel);
            if r.Val? && Eval(p, fn, d, r.st, fuel).Val? then o.Normal? && o.st in inv else o == OTimeout
  {
    hide Eval, Exec, Unbraced;
    var r := Eval(p, fn, c, st, fuel);
    if r.Timeout? {
      UnbracedTimeout(p, fn, c, d, Break, st, fuel);
    } else {
      UnbracedTurn(p, fn, c, d, Break, st, fuel);
    }
  }

  /** With continue for break the loop goes round for ever. */
  lemma {:induction false} GoesRound(p: Prog, fn: Fun, c: Expr, d: Expr, st: Store, inv: iset<Store>, fuel: nat)
    requires st in inv && KeepTrue(p, fn, c, d, inv)
    ensures Exec(p, fn, Unbraced(c, d, Continue), st, fuel) == OTimeout
    decreases fuel
  {
    hide Eval, Exec, Unbraced;
    var r := Eval(p, fn, c, st, fuel);
    if r.Timeout? {
      UnbracedTimeout(p, fn, c, d, Continue, st, fuel);
    } else {
      UnbracedTurn(p, fn, c, d, Continue, st, fuel);
      var q := Eval(p, fn, d, r.st, fuel);
      if q.Val? && fuel > 0 {
        GoesRound(p, fn, c, d, q.st, inv, fuel - 1);
      }
    }
  }
}
