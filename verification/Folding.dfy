/** Compile-time evaluation of constant expressions, const_int_expr (underc/sourcecode/src/common.cpp), against what
    the compiled code computes. */
module Folding {
  import opened Arith
  import opened Machine
  import opened Source
  import opened Codegen
  import opened SimBase
  import opened Correctness

  /** NotConstant: the tree has a node that is refused. Crash: the host's division faults. */
  datatype Folded = Int(v: int) | NotConstant | Crash

  predicate FoldableTok(t: BinTok) { !(t.MODULO? || t.BIN_AND? || t.BIN_XOR?) }

  function HostBin(t: BinTok, a: int, b: int): Folded
    requires FoldableTok(t)
  {
    match t
    case LSHIFT => Int(ShiftLeft(a, b))
    case RSHIFT => Int(ShiftRight(a, b))
    case STAR => Int(Wrap(a * b))
    case PLUS => Int(Wrap(a + b))
    case MINUS => Int(Wrap(a - b))
    case DIVIDE => if DivideError(a, b) then Crash else Int(TruncDiv(a, b))
    case BIN_OR => Int(Bitwise(OrF, a, b))
    case EQUAL => Int(Truth(a == b))
    case NOT_EQUAL => Int(Truth(a != b))
    case LESS_THAN => Int(Truth(a < b))
    case LEQ => Int(Truth(a <= b))
    case GREATER => Int(Truth(a > b))
    case _ => Int(Truth(a >= b))
  }

  /** Both operands are evaluated first, whatever the operator; `||` and `&&` give 0 or 1. */
  function Fold(e: Expr): Folded
    decreases e
  {
    match e
    case Const(v) => Int(v)
    case Bin(t, a, b) =>
      var x := Fold(a);
      if !x.Int? then x else
        var y := Fold(b);
        if !y.Int? then y else if FoldableTok(t) then HostBin(t, x.v, y.v) else NotConstant
    case LogOr(a, b) =>
      var x := Fold(a);
      if !x.Int? then x else
        var y := Fold(b);
        if !y.Int? then y else Int(Truth(x.v != 0 || y.v != 0))
    case LogAnd(a, b) =>
      var x := Fold(a);
      if !x.Int? then x else
        var y := Fold(b);
        if !y.Int? then y else Int(Truth(x.v != 0 && y.v != 0))
    case _ => NotConstant
  }

  /** What a constant tree is in the source: short-circuited, `||` and `&&` giving the operand that decides. */
  function Lazy(e: Expr): Folded
    decreases e
  {
    match e
    case Const(v) => Int(v)
    case Bin(t, a, b) =>
      var x := Lazy(a);
      if !x.Int? then x else
        var y := Lazy(b);
        if !y.Int? then y else if FoldableTok(t) then HostBin(t, x.v, y.v) else NotConstant
    case LogOr(a, b) => if Lazy(a) == Int(0) then Lazy(b) else Lazy(a)
    case LogAnd(a, b) => if Lazy(a).Int? && Lazy(a).v != 0 then Lazy(b) else Lazy(a)
    case _ => NotConstant
  }

  /** Trees of the forms const_int_expr knows. */
  predicate Foldable(e: Expr)
    decreases e
  {
    match e
    case Const(_) => true
    case Bin(t, a, b) => FoldableTok(t) && Foldable(a) && Foldable(b)
    case LogOr(a, b) => Foldable(a) && Foldable(b)
    case LogAnd(a, b) => Foldable(a) && Foldable(b)
    case _ => false
  }

  predicate Logical(e: Expr) { e.LogOr? || e.LogAnd? }

  /** The forms folding refuses, wherever they stand: names, unary operators, assignments, calls and so on, and the
      operators %, & and ^. */
  predicate Refused(e: Expr)
    decreases e
  {
    match e
    case Const(_) => false
    case Bin(t, a, b) => t == MODULO || t == BIN_AND || t == BIN_XOR || Refused(a) || Refused(b)
    case LogOr(a, b) => Refused(a) || Refused(b)
    case LogAnd(a, b) => Refused(a) || Refused(b)
    case _ => true
  }

  /** A tree folds to a value, or crashes the folding, exactly when none of them is in it; one of them may be hidden
      from the folding only by a crash before it. */
  lemma {:induction false} RefusesExactly(e: Expr)
    ensures Foldable(e) <==> !Refused(e)
    ensures Fold(e).NotConstant? ==> Refused(e)
    ensures Refused(e) ==> Fold(e).NotConstant? || Fold(e).Crash?
    decreases e
  {
    hide HostBin;
    match e
    case Const(_) =>
    case Bin(t, a, b) =>
      RefusesExactly(a);
      RefusesExactly(b);
      if FoldableTok(t) {
        HostIsConstant(t, Fold(a), Fold(b));
      }
    case LogOr(a, b) =>
      RefusesExactly(a);
      RefusesExactly(b);
    case LogAnd(a, b) =>
      RefusesExactly(a);
      RefusesExactly(b);
    case _ =>
  }

  lemma SameOperator(t: BinTok, a: int, b: int)
    requires FoldableTok(t)
    ensures HostBin(t, a, b) == if BinMeaning(t, a, b).Some? then Int(BinMeaning(t, a, b).value) else Crash
  {
    hide Wrap, ShiftLeft, ShiftRight, Bitwise, TruncDiv;
  }

  /** Only trees it knows are folded. */
  lemma {:induction false} FoldedIsFoldable(e: Expr)
    requires Fold(e).Int?
    ensures Foldable(e)
    decreases e
  {
    hide HostBin;
    if !e.Const? {
      FoldedIsFoldable(e.e1);
      FoldedIsFoldable(e.e2);
    }
  }

  /** Every foldable tree, in every program and store, has the lazy value for its meaning. */
  lemma {:induction false} LazyIsMeaning(p: Prog, fn: Fun, e: Expr, st: Store, fuel: nat)
    requires Foldable(e)
    ensures !Lazy(e).NotConstant? && !Fold(e).NotConstant?
    ensures Eval(p, fn, e, st, fuel) == if Lazy(e).Int? then Val(Lazy(e).v, st) else Fault
    decreases e
  {
    hide HostBin, BinMeaning;
    if !e.Const? {
      LazyIsMeaning(p, fn, e.e1, st, fuel);
      LazyIsMeaning(p, fn, e.e2, st, fuel);
      if e.Bin? {
        HostIsConstant(e.tok, Fold(e.e1), Fold(e.e2));
        if Lazy(e.e1).Int? && Lazy(e.e2).Int? {
          SameOperator(e.tok, Lazy(e.e1).v, Lazy(e.e2).v);
        }
        assert Eval(p, fn, e, st, fuel) == EvalBin(p, fn, e, st, fuel);
      } else {
        assert Eval(p, fn, e, st, fuel) == EvalLogic(p, fn, e, st, fuel);
      }
    }
  }

  lemma HostIsConstant(t: BinTok, x: Folded, y: Folded)
    requires FoldableTok(t)
    ensures x.Int? && y.Int? ==> !HostBin(t, x.v, y.v).NotConstant?
  {
    hide Wrap, ShiftLeft, ShiftRight, Bitwise, TruncDiv;
  }

  // ----- when the two values are the same -----

  /** The operand whose value a logical tree takes, however deep; the tree itself when it is not logical. */
  function Deciding(e: Expr): (d: Expr)
    ensures !Logical(d)
    decreases e
  {
    match e
    case LogOr(a, b) => Deciding(if Lazy(a) == Int(0) then b else a)
    case LogAnd(a, b) => Deciding(if Lazy(a).Int? && Lazy(a).v != 0 then b else a)
    case _ => e
  }

  predicate Bit(x: Folded) { x == Int(0) || x == Int(1) }

  /** Operators have only operands that fold to their values; whatever else is run has the truth value it folds to. */
  predicate Truthful(e: Expr)
    decreases e
  {
    match e
    case Const(_) => true
    case Bin(_, a, b) => Truthful(a) && Truthful(b) && (Logical(a) ==> Bit(Lazy(a))) && (Logical(b) ==> Bit(Lazy(b)))
    case LogOr(a, b) => Truthful(a) && (Lazy(a) == Int(0) ==> Truthful(b))
    case LogAnd(a, b) => Truthful(a) && (Lazy(a).Int? && Lazy(a).v != 0 ==> Truthful(b))
    case _ => false
  }

  lemma {:induction false} DecidingValue(e: Expr)
    ensures Lazy(e) == Lazy(Deciding(e))
    decreases e
  {
    match e
    case LogOr(a, b) => DecidingValue(if Lazy(a) == Int(0) then b else a);
    case LogAnd(a, b) => DecidingValue(if Lazy(a).Int? && Lazy(a).v != 0 then b else a);
    case _ =>
  }

  /** A truthful tree that folds at all folds to its truth value, and, under an operator or at the top, to its value
      exactly when it is no logical tree or the operand that decides is 0 or 1. */
  lemma {:induction false} TruthfulFolds(e: Expr)
    requires Truthful(e) && Fold(e).Int?
    ensures Lazy(e).Int? && (Fold(e).v != 0 <==> Lazy(e).v != 0)
    ensures Fold(e) == Lazy(e) <==> (Logical(e) ==> Bit(Lazy(Deciding(e))))
    decreases e
  {
    hide HostBin;
    DecidingValue(e);
    if !e.Const? {
      TruthfulFolds(e.e1);
      if e.Bin? {
        DecidingValue(e.e1);
        DecidingValue(e.e2);
        TruthfulFolds(e.e2);
      } else if Truthful(e.e2) {
        TruthfulFolds(e.e2);
      }
    }
  }

  /** With every logical operand that is run 0 or 1, and more generally whenever the tree is truthful, the folded
      constant is what the source says; its truth value always, its value exactly when the deciding operand allows. */
  lemma FoldIsTruth(p: Prog, fn: Fun, e: Expr, st: Store, fuel: nat)
    requires Truthful(e) && Fold(e).Int?
    ensures var r := Eval(p, fn, e, st, fuel);
            && r.Val? && r.st == st && (r.v != 0 <==> Fold(e).v != 0)
            && (r.v == Fold(e).v <==> (Logical(e) ==> Bit(Lazy(Deciding(e)))))
  {
    hide Eval;
    FoldedIsFoldable(e);
    LazyIsMeaning(p, fn, e, st, fuel);
    TruthfulFolds(e);
  }

  /** Every logical tree in it that is run has a deciding operand of 0 or 1 and no operand that faults unrun. */
  predicate Tame(e: Expr)
    decreases e
  {
    match e
    case Const(_) => true
    case Bin(_, a, b) => Tame(a) && (Lazy(a).Int? ==> Tame(b))
    case LogOr(a, b) => Tame(a) && (if Lazy(a) == Int(0) then Tame(b) else Lazy(a).Int? ==> Fold(b).Int?) && Decided(e)
    case LogAnd(a, b) =>
      Tame(a) && (if Lazy(a).Int? && Lazy(a).v != 0 then Tame(b) else Lazy(a).Int? ==> Fold(b).Int?) && Decided(e)
    case _ => false
  }

  predicate Decided(e: Expr) { Lazy(e).Int? ==> Bit(Lazy(e)) }

  /** The tree and every part of it that is run fold to their meaning. */
  predicate FoldsThroughout(e: Expr)
    decreases e
  {
    && Fold(e) == Lazy(e)
    && match e
       case Const(_) => true
       case Bin(_, a, b) => FoldsThroughout(a) && (Lazy(a).Int? ==> FoldsThroughout(b))
       case LogOr(a, b) => FoldsThroughout(a) && (Lazy(a) == Int(0) ==> FoldsThroughout(b))
       case LogAnd(a, b) => FoldsThroughout(a) && (Lazy(a).Int? && Lazy(a).v != 0 ==> FoldsThroughout(b))
       case _ => false
  }

  lemma {:induction false} TameExactly(e: Expr)
    requires Foldable(e)
    ensures Tame(e) <==> FoldsThroughout(e)
    decreases e
  {
    hide HostBin;
    NeverRefused(e);
    if !e.Const? {
      TameExactly(e.e1);
      TameExactly(e.e2);
      NeverRefused(e.e1);
      NeverRefused(e.e2);
    }
  }

  lemma {:induction false} NeverRefused(e: Expr)
    requires Foldable(e)
    ensures !Fold(e).NotConstant? && !Lazy(e).NotConstant?
    decreases e
  {
    hide HostBin;
    if !e.Const? {
      NeverRefused(e.e1);
      NeverRefused(e.e2);
      if e.Bin? {
        HostIsConstant(e.tok, Fold(e.e1), Fold(e.e2));
        HostIsConstant(e.tok, Lazy(e.e1), Lazy(e.e2));
      }
    }
  }

  /** A tame tree folds to its meaning: the value, or a crash when the source faults. */
  lemma FoldIsMeaning(p: Prog, fn: Fun, e: Expr, st: Store, fuel: nat)
    requires Foldable(e) && Tame(e)
    ensures Eval(p, fn, e, st, fuel) == if Fold(e).Int? then Val(Fold(e).v, st) else Fault
  {
    hide Eval, Tame;
    TameExactly(e);
    LazyIsMeaning(p, fn, e, st, fuel);
  }

  /** Without logical operators a tree is tame. */
  predicate NoLogic(e: Expr)
    decreases e
  {
    match e
    case Bin(_, a, b) => NoLogic(a) && NoLogic(b)
    case _ => !Logical(e)
  }

  lemma {:induction false} NoLogicIsTame(e: Expr)
    requires NoLogic(e) && Foldable(e)
    ensures Tame(e)
    decreases e
  {
    if e.Bin? {
      NoLogicIsTame(e.e1);
      NoLogicIsTame(e.e2);
    }
  }

  /** The operands of every `||` and `&&` fold to 0 or 1. */
  predicate BitOperands(e: Expr)
    decreases e
  {
    match e
    case Bin(_, a, b) => BitOperands(a) && BitOperands(b)
    case LogOr(a, b) => BitOperands(a) && BitOperands(b) && Bit(Fold(a)) && Bit(Fold(b))
    case LogAnd(a, b) => BitOperands(a) && BitOperands(b) && Bit(Fold(a)) && Bit(Fold(b))
    case _ => true
  }

  /** Comparisons and the like under `||` and `&&`: such a tree is tame and truthful, so it folds to its meaning. */
  lemma {:induction false} BitOperandsFold(e: Expr)
    requires BitOperands(e) && Fold(e).Int?
    ensures Tame(e) && Truthful(e) && Lazy(e) == Fold(e) && (Logical(e) ==> Bit(Fold(e)))
    decreases e
  {
    hide HostBin;
    if e.Bin? || Logical(e) {
      BitOperandsFold(e.e1);
      BitOperandsFold(e.e2);
    }
  }

  // ----- crashes that the source does not have -----

  /** A division whose operands fold to ones it cannot take. */
  predicate DividesBadly(t: BinTok, x: Folded, y: Folded) { t.DIVIDE? && x.Int? && y.Int? && DivideError(x.v, y.v) }

  /** A run tree in which, in the order of folding, the first thing to crash is an operand that is not run, or a
      division whose operands fold to other values than theirs. */
  predicate Spurious(e: Expr)
    decreases e
  {
    match e
    case Bin(t, a, b) =>
      && Lazy(e).Int?
      && (Spurious(a) || (Fold(a).Int? && (Spurious(b) || DividesBadly(t, Fold(a), Fold(b)))))
    case LogOr(a, b) =>
      if Lazy(a) == Int(0) then Lazy(b).Int? && (Spurious(a) || (Fold(a).Int? && Spurious(b)))
      else Spurious(a) || (Lazy(a).Int? && Fold(a).Int? && Fold(b).Crash?)
    case LogAnd(a, b) =>
      if Lazy(a).Int? && Lazy(a).v != 0 then Lazy(b).Int? && (Spurious(a) || (Fold(a).Int? && Spurious(b)))
      else Spurious(a) || (Lazy(a).Int? && Fold(a).Int? && Fold(b).Crash?)
    case _ => false
  }

  lemma {:induction false} SpuriousExactly(e: Expr)
    requires Foldable(e)
    ensures Spurious(e) <==> Fold(e).Crash? && Lazy(e).Int?
    decreases e
  {
    hide HostBin;
    if !e.Const? {
      SpuriousExactly(e.e1);
      SpuriousExactly(e.e2);
      NeverRefused(e.e1);
      NeverRefused(e.e2);
      if e.Bin? {
        HostCrashes(e.tok, Fold(e.e1), Fold(e.e2));
        HostCrashes(e.tok, Lazy(e.e1), Lazy(e.e2));
      }
    }
  }

  lemma HostCrashes(t: BinTok, x: Folded, y: Folded)
    requires FoldableTok(t)
    ensures x.Int? && y.Int? ==>
              && (HostBin(t, x.v, y.v).Crash? <==> DividesBadly(t, x, y))
              && !HostBin(t, x.v, y.v).NotConstant?
  {
    hide Wrap, ShiftLeft, ShiftRight, Bitwise, TruncDiv;
  }

  /** Folding crashes the compiler where running would not fault exactly when the tree is spurious. */
  lemma CrashesAlone(p: Prog, fn: Fun, e: Expr, st: Store, fuel: nat)
    requires Foldable(e)
    ensures (Fold(e).Crash? && !Eval(p, fn, e, st, fuel).Fault?) <==> Spurious(e)
  {
    hide Eval, Spurious;
    LazyIsMeaning(p, fn, e, st, fuel);
    SpuriousExactly(e);
  }

  /** There is no short circuit: an operand that faults crashes the compiler even where it would not be run. */
  lemma FoldsBothSides(p: Prog, fn: Fun, e: Expr, st: Store, fuel: nat)
    requires Logical(e) && Foldable(e) && Fold(e.e1).Int? && Fold(e.e2).Crash?
    requires Lazy(e.e1).Int? && (Lazy(e.e1).v == 0 <==> e.LogAnd?)
    ensures Spurious(e) && Fold(e) == Crash && Eval(p, fn, e, st, fuel) == Val(Lazy(e.e1).v, st)
  {
    hide Eval;
    LazyIsMeaning(p, fn, e, st, fuel);
  }

  // ----- under an operator -----

  /** `x + c` with x logical: the tree folds to its meaning exactly when x's deciding operand is 0 or 1. */
  lemma LogicBelowDiffers(p: Prog, fn: Fun, e: Expr, st: Store, fuel: nat)
    requires e.Bin? && e.tok.PLUS? && Logical(e.e1) && Truthful(e.e1) && Fold(e).Int? && Tame(e.e2)
    requires Lazy(Deciding(e.e1)).Int? ==> IsInt32(Lazy(Deciding(e.e1)).v)
    ensures Eval(p, fn, e, st, fuel) == Val(Fold(e).v, st) <==> Bit(Lazy(Deciding(e.e1)))
  {
    hide Eval, Truthful, Tame, Deciding, Wrap;
    var x, c := e.e1, e.e2;
    FoldedIsFoldable(e);
    FoldedIsFoldable(c);
    LazyIsMeaning(p, fn, e, st, fuel);
    DecidingValue(x);
    TruthfulFolds(x);
    TameExactly(c);
    assert Fold(c) == Lazy(c);
    assert Fold(x) == Int(0) || Fold(x) == Int(1);
    assert Fold(e) == Int(Wrap(Fold(x).v + Fold(c).v)) && Lazy(e) == Int(Wrap(Lazy(x).v + Lazy(c).v));
    WrapShift(Fold(x).v, Lazy(x).v, Fold(c).v);
  }

  lemma WrapShift(a: int, b: int, c: int)
    requires IsInt32(a) && IsInt32(b)
    ensures Wrap(a + c) == Wrap(b + c) <==> a == b
  {
    var m, n := (a + c) % TWO32, (b + c) % TWO32;
    assert a + c == TWO32 * ((a + c) / TWO32) + m && b + c == TWO32 * ((b + c) / TWO32) + n;
  }

  // ----- against the compiled code -----

  /** The compiled code of any foldable tree pushes its lazy value, or faults with it. */
  lemma LazyIsPushed(p: Prog, img: Image, good: iset<nat>, e: Expr, pc: nat, s: State, st: Store)
    requires Ready(p, img, good, s, st, pc) && Foldable(e) && At(CodeOf(img, s), pc, CExpr(p, e, false, pc))
    ensures exists t :: Reaches(img, s, t) &&
              if Lazy(e).Int? then t.pc == pc + ExprLen(p, e, false) && |t.stk| == |s.stk| + 1 && Top(t) == Lazy(e).v
              else t.trap
  {
    hide At, CExpr, ExprLen, Run, Rel, Kept, Clean, Foldable, Compiled;
    LazyIsMeaning(p, p[s.fb], e, st, 0);
    FoldableIsClean(e, good);
    ExprCorrect(p, img, good, e, pc, s, st, 0);
  }

  /** A folded constant is what the compiled code pushes, up to its truth value when it is a logical tree. */
  lemma FoldedIsPushed(p: Prog, img: Image, good: iset<nat>, e: Expr, pc: nat, s: State, st: Store)
    requires Ready(p, img, good, s, st, pc) && At(CodeOf(img, s), pc, CExpr(p, e, false, pc))
    requires Truthful(e) && Fold(e).Int?
    ensures exists t :: Reaches(img, s, t) && t.pc == pc + ExprLen(p, e, false) && |t.stk| == |s.stk| + 1
                        && (Top(t) != 0 <==> Fold(e).v != 0)
                        && (Top(t) == Fold(e).v <==> (Logical(e) ==> Bit(Lazy(Deciding(e)))))
  {
    hide At, CExpr, ExprLen, Run, Ready, Truthful, Deciding, Fold, Lazy;
    FoldedIsFoldable(e);
    TruthfulFolds(e);
    LazyIsPushed(p, img, good, e, pc, s, st);
  }

  lemma {:induction false} FoldableIsClean(e: Expr, good: iset<nat>)
    requires Foldable(e)
    ensures Clean(e, good)
    decreases e
  {
    if !e.Const? {
      FoldableIsClean(e.e1, good);
      FoldableIsClean(e.e2, good);
    }
  }
}
