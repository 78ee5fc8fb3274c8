/** What the operators of the engine, of the source language and of the constant folder compute, said on bits, quotients
    and remainders (underc/sourcecode/src/engine.cpp, common.cpp). */
module Operators {
  import opened Arith
  import opened Words
  import opened Machine
  import opened Source
  import opened Codegen
  import opened Simulation
  import opened Folding

  // ----- the sixteen operators -----

  /** What v has to be to be `a op b` on 32-bit words. */
  ghost predicate Computes(op: AluOp2, a: int, b: int, v: int) {
    match op
    case ADD => SameWord(v, a + b)
    case SUB => SameWord(v, a - b)
    case MUL => SameWord(v, a * b)
    case DIV => exists r :: Truncates(a, b, v, r)
    case MOD => exists q :: Truncates(a, b, q, v)
    case AND => forall k: nat :: k < 32 ==> (BitAt(v, k) <==> BitAt(a, k) && BitAt(b, k))
    case OR => forall k: nat :: k < 32 ==> (BitAt(v, k) <==> BitAt(a, k) || BitAt(b, k))
    case XOR => forall k: nat :: k < 32 ==> (BitAt(v, k) <==> BitAt(a, k) != BitAt(b, k))
    case SHL => forall k: nat :: k < 32 ==> (BitAt(v, k) <==> k >= b % 32 && BitAt(a, k - b % 32))
    case SHR => forall k: nat :: BitAt(v, k) <==> BitAt(a, k + b % 32)
    case EQ => v == if a == b then 1 else 0
    case NEQ => v == if a != b then 1 else 0
    case LESS => v == if a < b then 1 else 0
    case GREAT => v == if a > b then 1 else 0
    case LE => v == if a <= b then 1 else 0
    case GE => v == if a >= b then 1 else 0
  }

  lemma ShiftsCompute(a: int, b: int)
    ensures Computes(SHL, a, b, ShiftLeft(a, b)) && Computes(SHR, a, b, ShiftRight(a, b))
  {
    var n: nat := b % 32;
    forall k: nat | k < 32
      ensures BitAt(ShiftLeft(a, b), k) <==> k >= n && BitAt(a, k - n)
    {
      WrapIsSameWord(a * Pow2(n));
      WordBits(ShiftLeft(a, b), a * Pow2(n), k);
      BitsUp(a, n, k);
    }
    forall k: nat
      ensures BitAt(ShiftRight(a, b), k) <==> BitAt(a, k + n)
    {
      BitsDown(a, n, k);
    }
  }

  lemma BitwiseComputes(f: BitFun, a: int, b: int)
    ensures Computes(if f.AndF? then AND else if f.OrF? then OR else XOR, a, b, Bitwise(f, a, b))
  {
    hide Bitwise;
    forall k: nat | k < 32
      ensures BitAt(Bitwise(f, a, b), k) == OnBits(f, BitAt(a, k), BitAt(b, k))
    {
      BitwiseBits(f, a, b, k);
    }
  }

  /** What the engine computes. */
  lemma AluComputes(op: AluOp2, a: int, b: int)
    requires !Alu2Traps(op, a, b)
    ensures Computes(op, a, b, Alu2Of(op, a, b))
  {
    hide Bitwise, ShiftLeft, ShiftRight, BitAt, Wrap, TruncDiv;
    match op
    case ADD => WrapIsSameWord(a + b);
    case SUB => WrapIsSameWord(a - b);
    case MUL => WrapIsSameWord(a * b);
    case DIV => TruncDivTruncates(a, b);
    case MOD => TruncDivTruncates(a, b);
    case AND => BitwiseComputes(AndF, a, b);
    case OR => BitwiseComputes(OrF, a, b);
    case XOR => BitwiseComputes(XorF, a, b);
    case SHL => ShiftsCompute(a, b);
    case SHR => ShiftsCompute(a, b);
    case _ =>
  }

  /** One word at most is `a op b`. */
  lemma ComputesOnce(op: AluOp2, a: int, b: int, v: int, w: int)
    requires Computes(op, a, b, v) && Computes(op, a, b, w) && IsInt32(v) && IsInt32(w)
    requires op.DIV? || op.MOD? ==> b != 0
    ensures v == w
  {
    hide BitAt, SameWord, Truncates;
    match op
    case ADD => SameWordTrans(v, a + b, w); OneWord(v, w);
    case SUB => SameWordTrans(v, a - b, w); OneWord(v, w);
    case MUL => SameWordTrans(v, a * b, w); OneWord(v, w);
    case DIV =>
      var r :| Truncates(a, b, v, r);
      var r' :| Truncates(a, b, w, r');
      TruncatesOnce(a, b, v, r, w, r');
    case MOD =>
      var q :| Truncates(a, b, q, v);
      var q' :| Truncates(a, b, q', w);
      TruncatesOnce(a, b, q, v, q', w);
    case AND => WordsDecide(v, w);
    case OR => WordsDecide(v, w);
    case XOR => WordsDecide(v, w);
    case SHL => WordsDecide(v, w);
    case SHR => WordsDecide(v, w);
    case _ =>
  }

  /** Words go in, a word comes out. */
  lemma StaysWord(op: AluOp2, a: int, b: int)
    requires !Alu2Traps(op, a, b) && IsInt32(a) && IsInt32(b)
    ensures IsInt32(Alu2Of(op, a, b))
  {
    hide Bits, Pow2;
    if op.DIV? {
      QuotientFits(a, b);
    } else if op.MOD? {
      TruncDivTruncates(a, b);
    } else if op.SHR? {
      DownFits(a, b % 32);
    }
  }

  /** The engine traps exactly when there is no such word, and otherwise leaves just that word on the stack. */
  lemma EngineExactly(op: AluOp2, a: int, b: int, v: int)
    requires IsInt32(a) && IsInt32(b) && IsInt32(v)
    ensures !Alu2Traps(op, a, b) && Alu2Of(op, a, b) == v
            <==> Computes(op, a, b, v) && ((op.DIV? || op.MOD?) ==> !DivideError(a, b))
  {
    hide Computes, Alu2Of, IsInt32;
    if !Alu2Traps(op, a, b) {
      AluComputes(op, a, b);
      StaysWord(op, a, b);
      if Computes(op, a, b, v) {
        ComputesOnce(op, a, b, v, Alu2Of(op, a, b));
      }
    }
  }

  /** So does the source language, and so does folding for the operators it knows. */
  lemma MeaningExactly(t: BinTok, a: int, b: int, v: int)
    requires IsInt32(a) && IsInt32(b) && IsInt32(v)
    ensures BinMeaning(t, a, b) == Some(v)
            <==> Computes(EquivOp(t), a, b, v) && (t.DIVIDE? || t.MODULO? ==> !DivideError(a, b))
    ensures FoldableTok(t) ==>
              (HostBin(t, a, b) == Int(v) <==> BinMeaning(t, a, b) == Some(v))
              && (HostBin(t, a, b).Crash? <==> t.DIVIDE? && DivideError(a, b))
  {
    hide Computes, Alu2Of, IsInt32, BinMeaning, HostBin, DivideError;
    OperatorsAgree(t, a, b);
    EngineExactly(EquivOp(t), a, b, v);
    if FoldableTok(t) {
      SameOperator(t, a, b);
    }
  }

  /** The one-word operators: negation modulo 2^32, and 1 for 0 and 0 for anything else. */
  lemma UnaryExactly(a: int)
    ensures IsInt32(Alu1Of(NEG, a)) && SameWord(Alu1Of(NEG, a), -a) && Alu1Of(NOT, a) == if a == 0 then 1 else 0
    ensures UnMeaning(UMINUS, a) == Alu1Of(NEG, a) && UnMeaning(LOG_NOT, a) == Alu1Of(NOT, a)
  {}
}
