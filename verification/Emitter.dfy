/** The code generator at work: instructions emitted one by one into a fixed buffer, jumps to labels that
    are patched when the label is placed (underc/sourcecode/src/code.cpp, engine.cpp). */
module Emitter {
  import opened Machine
  import opened Source
  import opened Codegen
  import opened Placing
  import opened Finish

  /** What stands in the buffer for a jump whose label has no place yet: offset 0. */
  function Raw(i: Instr): Instr {
    if i.Jump? && i.target < 0 then Jump(i.kind, 0) else i
  }

  /** `refs` are the places in the code that wait for label `name`. */
  ghost predicate RefsOf(code: seq<Instr>, name: int, refs: seq<nat>) {
    forall i: nat {:trigger i in refs} :: i in refs <==> i < |code| && Names(code[i], name)
  }

  class Label {
    var offset: int
    var refs: seq<nat>
    ghost const name: int

    constructor (ghost name: int)
      ensures offset == -1 && refs == [] && this.name == name
    {
      offset, refs := -1, [];
      this.name := name;
    }
  }

  class CodeGen {
    const buff: array<Instr>
    var nc: nat

    // The code with the names of unplaced labels still in it, and those labels.
    ghost var sym: seq<Instr>
    ghost var open: set<Label>
    ghost var nextName: int

    constructor (size: nat)
      ensures Valid() && fresh(buff) && buff.Length == size && nc == 0 && sym == [] && open == {} && nextName == RETNAME
    {
      buff := new Instr[size](_ => End);
      nc, sym, open, nextName := 0, [], {}, -1;
    }

    ghost predicate Valid()
      reads this, buff, open
    {
      && nc <= buff.Length && |sym| == nc && nextName < 0
      && (forall i {:trigger sym[i]} :: 0 <= i < nc ==> buff[i] == Raw(sym[i]))
      && (forall i {:trigger sym[i]} :: 0 <= i < nc && sym[i].Jump? ==> sym[i].target > nextName)
      && (forall x {:trigger x in open} :: x in open ==>
            x.offset == -1 && nextName < x.name < 0 && RefsOf(sym, x.name, x.refs))
      && (forall x, y {:trigger x in open, y in open} :: x in open && y in open && x.name == y.name ==> x == y)
    }

    method Emit(i: Instr)
      requires Valid() && nc < buff.Length && (i.Jump? ==> i.target >= 0)
      modifies this, buff
      ensures Valid() && nc == old(nc) + 1 && open == old(open) && nextName == old(nextName)
      ensures sym == old(sym) + [i]
    {
      buff[nc] := i;
      nc, sym := nc + 1, sym + [i];
    }

    method NewLabel() returns (x: Label)
      requires Valid()
      modifies this
      ensures Valid() && fresh(x) && open == old(open) + {x} && nc == old(nc) && sym == old(sym)
      ensures Free(sym, x.name) && x.offset == -1 && x.name < 0
      ensures nextName < old(nextName) && x.name == old(nextName)
    {
      x := new Label(nextName);
      open, nextName := open + {x}, nextName - 1;
    }

    /** `emit(op, NONE, lbl->addr())`. */
    method EmitJump(kind: JumpKind, x: Label)
      requires Valid() && nc < buff.Length && (x in open || x.offset >= 0)
      modifies this, buff, x
      ensures Valid() && nc == old(nc) + 1 && open == old(open) && nextName == old(nextName)
      ensures x.offset == old(x.offset)
      ensures sym == old(sym) + [Jump(kind, if old(x in open) then x.name else x.offset)]
    {
      if x.offset >= 0 {
        Emit(Jump(kind, x.offset));
      } else {
        x.refs := x.refs + [nc];
        buff[nc] := Jump(kind, 0);
        nc, sym := nc + 1, sym + [Jump(kind, x.name)];
      }
    }

    /** Every jump in the list gets its target. */
    method Patch(refs: seq<nat>, to: nat)
      requires forall k {:trigger refs[k]} :: 0 <= k < |refs| ==> refs[k] < buff.Length && buff[refs[k]].Jump?
      modifies buff
      ensures forall i {:trigger buff[i]} :: 0 <= i < buff.Length ==>
                buff[i] == if i in refs then Jump(old(buff[i]).kind, to) else old(buff[i])
    {
      var k := 0;
      while k < |refs|
        invariant 0 <= k <= |refs|
        invariant forall i {:trigger buff[i]} :: 0 <= i < buff.Length ==>
                    buff[i] == if i in refs[..k] then Jump(old(buff[i]).kind, to) else old(buff[i])
      {
        buff[refs[k]] := Jump(buff[refs[k]].kind, to);
        k := k + 1;
        assert refs[..k] == refs[..k - 1] + [refs[k - 1]];
      }
      assert refs[..k] == refs;
    }

    /** Label::here: every jump that waits for the label gets the current offset. */
    method Here(x: Label)
      requires Valid() && x in open
      modifies this, buff, x
      ensures Valid() && nc == old(nc) && open == old(open) - {x} && nextName == old(nextName)
      ensures x.offset == nc && sym == Place(old(sym), x.name, nc)
      ensures x.refs == old(x.refs) && RefsOf(old(sym), x.name, x.refs)
    {
      assert RefsOf(sym, x.name, x.refs);
      x.offset := nc;
      forall k {:trigger x.refs[k]} | 0 <= k < |x.refs|
        ensures x.refs[k] < nc && buff[x.refs[k]].Jump?
      {
        assert x.refs[k] in x.refs;
      }
      Patch(x.refs, nc);
      sym, open := Place(sym, x.name, nc), open - {x};
    }

    /** A word of a switch instruction is filled in after the cases are known. */
    method SetTable(i: nat, block: seq<int>)
      requires Valid() && i < nc && sym[i].JSwitch?
      modifies this, buff
      ensures Valid() && nc == old(nc) && open == old(open) && nextName == old(nextName)
      ensures sym == old(sym)[i := JSwitch(block)]
    {
      buff[i] := JSwitch(block);
      sym := sym[i := JSwitch(block)];
    }

    /** FunctionContext::finalize and CodeGenerator::end_code: the return label has been placed at the end of the
        body; a trailing jump that only goes to the next instruction is taken out, the return label is placed
        once more, and the code with its RETx and end marker leaves the buffer. */
    method FinishFunction(ret: Label, isVoid: bool, ghost raw: seq<Instr>) returns (code: seq<Instr>)
      requires Valid() && nc + 2 <= buff.Length && sym == Place(raw, ret.name, nc) && Settled(sym)
      requires RefsOf(raw, ret.name, ret.refs) && ret.name < 0
      modifies this, buff, ret
      ensures code == Finalized(raw, ret.name) + [RetOf(isVoid), End] && nc == 0
    {
      hide Finalized;
      AllPlaced();
      DropHop(ret, raw);
      ghost var c := buff[..nc];
      buff[nc], buff[nc + 1] := RetOf(isVoid), End;
      assert buff[..nc + 2] == c + [RetOf(isVoid), End];
      code := buff[..nc + 2];
      nc, sym, open := 0, [], {};
    }

    lemma AllPlaced()
      requires Valid() && Settled(sym)
      ensures buff[..nc] == sym
    {
      assert forall i :: 0 <= i < nc ==> buff[i] == sym[i];
    }

    /** A jump at the very end to just past itself is taken out of the buffer and of the label's references, and the
        label placed again. */
    method DropHop(ret: Label, ghost raw: seq<Instr>)
      requires nc + 2 <= buff.Length && |raw| == nc && buff[..nc] == Place(raw, ret.name, nc)
      requires RefsOf(raw, ret.name, ret.refs) && ret.name < 0
      modifies this`nc, buff, ret
      ensures nc <= old(nc) && buff[..nc] == Finalized(raw, ret.name)
    {
      hide Place, RefsOf, Finalized;
      ghost var before, refs := buff[..nc], ret.refs;
      if nc > 0 && buff[nc - 1] == Jump(JMP, nc) {
        ret.refs := Without(ret.refs, nc - 1);
        nc := nc - 1;
        ret.offset := nc;
        RefsJump(raw, ret.name, refs, before);
        forall k {:trigger ret.refs[k]} | 0 <= k < |ret.refs|
          ensures ret.refs[k] < nc && buff[ret.refs[k]].Jump?
        {
          assert ret.refs[k] in ret.refs;
          assert before[ret.refs[k]] == buff[ret.refs[k]];
        }
        Patch(ret.refs, nc);
        Repatched(raw, ret.name, refs, before, buff[..nc]);
      } else {
        NotRepatched(raw, ret.name, before);
      }
    }

    /** What a compiling method leaves alone. */
    twostate predicate Kept()
      reads this
    {
      open == old(open) && nextName <= old(nextName)
    }

    /** UCContext::compile. */
    method Compile(p: Prog, e: Expr, drop: bool)
      requires Valid() && nc + ExprLen(p, e, drop) <= buff.Length
      modifies this, buff
      ensures Valid() && Kept() && nc == old(nc) + ExprLen(p, e, drop)
      ensures sym == old(sym) + CExpr(p, e, drop, old(nc))
      decreases e, 2
    {
      hide Valid, ExprLen, CUn, CBin, CAssign, CIncDec, CCond, CLogic, CComma, CCall;
      assert |CExpr(p, e, drop, nc)| == ExprLen(p, e, drop);
      match e
      case Const(v) => Emit(PushI(Lit(v)));
      case Ref(x) => Emit(PushI(OperandOf(x)));
      case Un(_, _) => CompileOperator(p, e);
      case Bin(_, _, _) => CompileOperator(p, e);
      case Assign(_, _) => CompileAssign(p, e, drop);
      case IncDec(x, incr, post) =>
        CompileIncDec(x, incr, post, drop);
      case Cond(_, _, _) => CompileCond(p, e, drop);
      case LogOr(_, _) => CompileLogic(p, e);
      case LogAnd(_, _) => CompileLogic(p, e);
      case Comma(_, _) => CompileComma(p, e, drop);
      case CallE(f, args) => CompileCall(p, e, drop);
    }

    /** Operators: their operands in order, then one instruction. */
    method CompileOperator(p: Prog, e: Expr)
      requires (e.Un? || e.Bin?) && Valid() && nc + |if e.Un? then CUn(p, e, nc) else CBin(p, e, nc)| <= buff.Length
      modifies this, buff
      ensures Valid() && Kept() && sym == old(sym) + if e.Un? then CUn(p, e, old(nc)) else CBin(p, e, old(nc))
      ensures nc == old(nc) + |if e.Un? then CUn(p, e, old(nc)) else CBin(p, e, old(nc))|
      decreases e, 0
    {
      hide Valid, CExpr, ExprLen;
      if e.Un? {
        Compile(p, e.e, false);
        Emit(Alu1(EquivOp1(e.utok)));
      } else {
        Compile(p, e.e1, false);
        Compile(p, e.e2, false);
        Emit(Alu2(EquivOp(e.tok)));
      }
    }

    method CompileAssign(p: Prog, e: Expr, drop: bool)
      requires e.Assign? && Valid() && nc + |CAssign(p, e, drop, nc)| <= buff.Length
      modifies this, buff
      ensures Valid() && Kept() && sym == old(sym) + CAssign(p, e, drop, old(nc))
      ensures nc == old(nc) + |CAssign(p, e, drop, old(nc))|
      decreases e, 0
    {
      hide Valid, CExpr, ExprLen;
      Compile(p, e.e, false);
      if !drop {
        Emit(Dup);
      }
      Emit(PopI(OperandOf(e.x)));
    }

    method CompileComma(p: Prog, e: Expr, drop: bool)
      requires e.Comma? && Valid() && nc + |CComma(p, e, drop, nc)| <= buff.Length
      modifies this, buff
      ensures Valid() && Kept() && sym == old(sym) + CComma(p, e, drop, old(nc))
      ensures nc == old(nc) + |CComma(p, e, drop, old(nc))|
      decreases e, 0
    {
      hide Valid, CExpr, ExprLen;
      Compile(p, e.e1, true);
      Compile(p, e.e2, drop);
    }

    method CompileIncDec(x: Var, incr: bool, post: bool, drop: bool)
      requires Valid() && nc + |CIncDec(x, incr, post, drop)| <= buff.Length
      modifies this, buff
      ensures Valid() && Kept() && sym == old(sym) + CIncDec(x, incr, post, drop)
      ensures nc == old(nc) + |CIncDec(x, incr, post, drop)|
    {
      if !post {
        Emit(BumpOf(incr, x));
      }
      if !drop {
        Emit(PushI(OperandOf(x)));
      }
      if post {
        Emit(BumpOf(incr, x));
      }
    }

    method CompileCond(p: Prog, e: Expr, drop: bool)
      requires e.Cond? && Valid() && nc + |CCond(p, e, drop, nc)| <= buff.Length
      modifies this, buff
      ensures Valid() && Kept() && sym == old(sym) + CCond(p, e, drop, old(nc))
      ensures nc == old(nc) + |CCond(p, e, drop, old(nc))|
      decreases e, 1
    {
      hide Valid, CExpr, ExprLen, Place, Free, BranchCode, Settled;
      ghost var s0, pc := sym, nc;
      ghost var la := pc + ExprLen(p, e.c, false) + 1;
      ghost var lb := la + ExprLen(p, e.e1, drop) + 1;
      var l1 := NewLabel();
      var l2 := NewLabel();
      CompileFront(p, e, drop, l1, l2);
      Here(l1);
      Compile(p, e.e2, drop);
      Here(l2);
      ExprSettled(p, e.c, false, pc);
      PlaceExpr(p, e.e1, drop, la, l1.name, lb);
      PlaceExpr(p, e.e1, drop, la, l2.name, nc);
      PlaceExpr(p, e.e2, drop, lb, l2.name, nc);
      BranchEmitted(s0, CExpr(p, e.c, false, pc), l1.name, CExpr(p, e.e1, drop, la), CExpr(p, e.e1, drop, la), l2.name,
                    CExpr(p, e.e2, drop, lb), CExpr(p, e.e2, drop, lb), lb, nc);
      assert open == old(open);
      assert sym == s0 + CCond(p, e, drop, pc);
    }

    /** Condition and first arm, with the jumps to both labels. */
    method CompileFront(p: Prog, e: Expr, drop: bool, l1: Label, l2: Label)
      requires e.Cond? && Valid() && nc + ExprLen(p, e.c, false) + ExprLen(p, e.e1, drop) + 2 <= buff.Length
      requires l1 in open && l2 in open
      modifies this, buff, l1, l2
      ensures Valid() && Kept() && nc == old(nc) + ExprLen(p, e.c, false) + ExprLen(p, e.e1, drop) + 2
      ensures sym == old(sym) + CExpr(p, e.c, false, old(nc)) + [Jump(JZ, l1.name)]
                     + CExpr(p, e.e1, drop, old(nc) + ExprLen(p, e.c, false) + 1) + [Jump(JMP, l2.name)]
      decreases e, 0
    {
      hide Valid, CExpr, ExprLen;
      Compile(p, e.c, false);
      EmitJump(JZ, l1);
      Compile(p, e.e1, drop);
      EmitJump(JMP, l2);
    }

    method CompileLogic(p: Prog, e: Expr)
      requires (e.LogOr? || e.LogAnd?) && Valid() && nc + |CLogic(p, e, nc)| <= buff.Length
      modifies this, buff
      ensures Valid() && Kept() && sym == old(sym) + CLogic(p, e, old(nc))
      ensures nc == old(nc) + |CLogic(p, e, old(nc))|
      decreases e, 0
    {
      hide Valid, CExpr, ExprLen, Place, Free;
      ghost var s0, pc := sym, nc;
      ghost var lb := pc + ExprLen(p, e.e1, false) + 1;
      var l1 := NewLabel();
      Compile(p, e.e1, false);
      EmitJump(if e.LogOr? then JNZND else JZND, l1);
      Compile(p, e.e2, false);
      Here(l1);
      ExprSettled(p, e.e1, false, pc);
      ExprSettled(p, e.e2, false, lb);
      LogicEmitted(s0, CExpr(p, e.e1, false, pc), if e.LogOr? then JNZND else JZND, CExpr(p, e.e2, false, lb),
                   l1.name, nc);
    }

    /** Arguments in reverse order, then the call. */
    method CompileCall(p: Prog, e: Expr, drop: bool)
      requires e.CallE? && Valid() && nc + |CCall(p, e, drop, nc)| <= buff.Length
      modifies this, buff
      ensures Valid() && Kept() && sym == old(sym) + CCall(p, e, drop, old(nc))
      ensures nc == old(nc) + |CCall(p, e, drop, old(nc))|
      decreases e, 0
    {
      hide Valid, CExpr, ExprLen;
      var k := |e.args|;
      ghost var s0, pc := sym, nc;
      assert e.args[..k] == e.args;
      while k > 0
        invariant 0 <= k <= |e.args| && Valid() && Kept()
        invariant sym + CArgs(p, e.args[..k], nc) == s0 + CArgs(p, e.args, pc)
        invariant nc + ArgsLen(p, e.args[..k]) == pc + ArgsLen(p, e.args)
      {
        assert e.args[..k][..k - 1] == e.args[..k - 1];
        k := k - 1;
        Compile(p, e.args[k], false);
      }
      assert sym == s0 + CArgs(p, e.args, pc);
      Emit(Call(e.f));
      if drop && e.f < |p| && !p[e.f].isVoid {
        Emit(Drop);
      }
    }
  }

  lemma RefsJump(raw: seq<Instr>, name: int, refs: seq<nat>, before: seq<Instr>)
    requires RefsOf(raw, name, refs) && before == Place(raw, name, |raw|)
    ensures forall i: nat {:trigger i in refs} :: i in refs ==> i < |raw| && before[i].Jump?
  {}

  /** The return label placed again where the jump has been taken out. */
  lemma Repatched(raw: seq<Instr>, name: int, refs: seq<nat>, before: seq<Instr>, after: seq<Instr>)
    requires RefsOf(raw, name, refs) && before == Place(raw, name, |raw|) && |after| == |raw| - 1
    requires before[|after|] == Jump(JMP, |raw|)
    requires forall i {:trigger after[i]} :: 0 <= i < |after| ==>
               after[i] == if i in refs then Jump(before[i].kind, |after|) else before[i]
    ensures after == Finalized(raw, name)
  {
    forall i | 0 <= i < |after|
      ensures after[i] == PlaceI(raw[i], name, |after|)
    {
      assert i in refs <==> Names(raw[i], name);
    }
  }

  lemma NotRepatched(raw: seq<Instr>, name: int, before: seq<Instr>)
    requires before == Place(raw, name, |raw|) && !(raw != [] && before[|raw| - 1] == Jump(JMP, |raw|))
    ensures before == Finalized(raw, name)
  {}

  function Without(refs: seq<nat>, x: nat): (r: seq<nat>)
    ensures forall i: nat :: i in r <==> i in refs && i != x
  {
    if refs == [] then [] else (if refs[0] == x then [] else [refs[0]]) + Without(refs[1..], x)
  }

  /** The table of a switch being compiled. */
  class SwitchBlock {
    var list: seq<int>
    var defaultJmp: int
    const start: nat

    constructor (cg: CodeGen)
      ensures list == [] && defaultJmp == 0 && start == cg.nc
    {
      list, defaultJmp, start := [], 0, cg.nc;
    }

    method AddJump(val: int, cg: CodeGen)
      modifies this
      ensures list == old(list) + [val, cg.nc] && defaultJmp == old(defaultJmp)
    {
      list := list + [val, cg.nc];
    }

    method AddDefault(cg: CodeGen)
      modifies this
      ensures list == old(list) && defaultJmp == cg.nc
    {
      defaultJmp := cg.nc;
    }

    method Construct(cg: CodeGen)
      requires cg.Valid() && start < cg.nc && cg.sym[start].JSwitch?
      modifies this, cg, cg.buff
      ensures cg.Valid() && cg.nc == old(cg.nc) && cg.open == old(cg.open) && cg.nextName == old(cg.nextName)
      ensures cg.sym == old(cg.sym)[start := JSwitch(MakeTable(old(list), old(defaultJmp), cg.nc))]
    {
      if defaultJmp == 0 {
        defaultJmp := cg.nc;
      }
      cg.SetTable(start, [|list| / 2, defaultJmp] + list);
    }
  }
}
