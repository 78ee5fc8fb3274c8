/** The statement actions of the parser: label, break, continue, switch and block stacks around the code
    generator (underc/sourcecode/src/common.cpp, parser.y). */
module Parser {
  import opened Machine
  import opened Source
  import opened Codegen
  import opened Placing
  import opened Emitter
  import opened Finish

  /** Every break and continue has a target when the parser meets it. */
  predicate Legal(s: Stmt, il: bool, b: bool, c: bool)
    decreases s
  {
    match s
    case Seq(x, y) => Legal(x, il, b, c) && Legal(y, LoopFlag(x, il), b, c)
    case Block(x) => Legal(x, false, b || il, c || il)
    case If(_, x) => Legal(x, il, b, c)
    case IfElse(_, x, y) => Legal(x, il, b, c) && Legal(y, LoopFlag(x, il), b, c)
    case While(_, x) => Legal(x, true, b, c)
    case DoWhile(x, _) => Legal(x, true, b, c)
    case For(_, _, _, x) => Legal(x, true, b || il, c || il)
    case Switch(_, arms) => LegalArms(arms, c || il)
    case Break => b
    case Continue => c
    case _ => true
  }

  predicate LegalArms(arms: Arms, c: bool)
    decreases arms
  {
    arms.Arm? ==> Legal(arms.s, false, true, c) && LegalArms(arms.rest, c)
  }

  /** Statements with braces where they need them are legal wherever their own breaks and continues have a target; a
      function's body, when it has none. An unbraced `while (c) break;` is refused. */
  lemma {:induction false} BracedIsLegal(s: Stmt, il: bool, b: bool, c: bool)
    requires Braced(s) && (Escapes(s, true) ==> b) && (Escapes(s, false) ==> c)
    ensures Legal(s, il, b, c)
    decreases s, 0
  {
    match s
    case Seq(x, y) =>
      BracedIsLegal(x, il, b, c);
      BracedIsLegal(y, LoopFlag(x, il), b, c);
    case Block(x) => BracedIsLegal(x, false, b || il, c || il);
    case If(_, x) => BracedIsLegal(x, il, b, c);
    case IfElse(_, x, y) =>
      BracedIsLegal(x, il, b, c);
      BracedIsLegal(y, LoopFlag(x, il), b, c);
    case While(_, x) => BodyIsLegal(x, b, c);
    case DoWhile(x, _) => BodyIsLegal(x, b, c);
    case For(_, _, _, x) => BodyIsLegal(x, b || il, c || il);
    case Switch(_, arms) => ArmsAreLegal(arms, c || il);
    case _ =>
  }

  lemma {:induction false} BodyIsLegal(s: Stmt, b: bool, c: bool)
    requires BracedBody(s)
    ensures Legal(s, true, b, c)
    decreases s, 1
  {
    if s.Block? {
      BracedIsLegal(s.s, false, true, true);
    } else {
      BracedIsLegal(s, true, b, c);
    }
  }

  lemma {:induction false} ArmsAreLegal(arms: Arms, c: bool)
    requires BracedArms(arms) && (ArmsEscape(arms, false) ==> c)
    ensures LegalArms(arms, c)
    decreases arms, 0
  {
    if arms.Arm? {
      BracedIsLegal(arms.s, false, true, c);
      ArmsAreLegal(arms.rest, c);
    }
  }

  /** Refused for want of a target: the label stacks know nothing of a loop before a block opens in it. */
  lemma UnbracedRefused(c: Expr, s: Stmt, il: bool)
    requires s.Break? || s.Continue?
    ensures !Legal(While(c, s), il, false, false) && Legal(While(c, Block(s)), il, false, false)
  {}

  // What a form's own parts are owed, so that the methods below need not look inside their definitions.

  lemma IfParts(p: Prog, s: Stmt, pc: nat, il: bool, l: Labels, b: bool, c: bool)
    requires s.If?
    ensures StmtLen(p, s) == ExprLen(p, s.c, false) + 1 + StmtLen(p, s.s1) && LoopFlag(s, il) == LoopFlag(s.s1, il)
    ensures Legal(s, il, b, c) ==> Legal(s.s1, il, b, c)
    ensures CStmt(p, s, pc, il, l) == CIf(p, s, pc, il, l)
  {}

  lemma ReturnParts(p: Prog, s: Stmt, pc: nat, il: bool, l: Labels)
    requires s.Return?
    ensures var c := if s.res.Some? then CExpr(p, s.res.value, false, pc) else [];
            CStmt(p, s, pc, il, l) == c + [Jump(JMP, l.ret)] && StmtLen(p, s) == |c| + 1
    ensures s.res.Some? ==> StmtLen(p, s) == ExprLen(p, s.res.value, false) + 1
  {
    hide CExpr, ExprLen;
  }

  lemma WhileParts(p: Prog, s: Stmt, pc: nat, il: bool, l: Labels, b: bool, c: bool)
    requires s.While?
    ensures StmtLen(p, s) == ExprLen(p, s.c, false) + 1 + StmtLen(p, s.s) + 1 && !LoopFlag(s, il)
    ensures Legal(s, il, b, c) ==> Legal(s.s, true, b, c)
    ensures CStmt(p, s, pc, il, l) == CWhile(p, s, pc, l)
  {}

  lemma IfElseParts(p: Prog, s: Stmt, pc: nat, il: bool, l: Labels, b: bool, c: bool)
    requires s.IfElse?
    ensures StmtLen(p, s) == ExprLen(p, s.c, false) + 1 + StmtLen(p, s.s1) + 1 + StmtLen(p, s.s2)
    ensures LoopFlag(s, il) == LoopFlag(s.s2, LoopFlag(s.s1, il)) && (LoopFlag(s.s1, il) ==> il)
    ensures Legal(s, il, b, c) ==> Legal(s.s1, il, b, c) && Legal(s.s2, LoopFlag(s.s1, il), b, c)
    ensures CStmt(p, s, pc, il, l) == CIfElse(p, s, pc, il, l)
  {}

  lemma DoParts(p: Prog, s: Stmt, pc: nat, il: bool, l: Labels, b: bool, c: bool)
    requires s.DoWhile?
    ensures StmtLen(p, s) == StmtLen(p, s.s) + ExprLen(p, s.c, false) + 1
    ensures !LoopFlag(s, il) && (Legal(s, il, b, c) ==> Legal(s.s, true, b, c))
    ensures CStmt(p, s, pc, il, l) == CDoWhile(p, s, pc, l)
  {}

  lemma ForParts(p: Prog, s: Stmt, pc: nat, il: bool, l: Labels, b: bool, c: bool)
    requires s.For?
    ensures StmtLen(p, s) == ForLen(p, s.init, s.c, s.inc, StmtLen(p, s.s))
    ensures !LoopFlag(s, il) && (Legal(s, il, b, c) ==> Legal(s.s, true, b || il, c || il))
    ensures CStmt(p, s, pc, il, l) == CFor(p, s, pc, il, l)
  {}

  lemma BlockParts(p: Prog, s: Stmt, pc: nat, il: bool, l: Labels, b: bool, c: bool)
    requires s.Block?
    ensures StmtLen(p, s) == StmtLen(p, s.s)
    ensures !LoopFlag(s, il) && !LoopFlag(s.s, false) && (Legal(s, il, b, c) ==> Legal(s.s, false, b || il, c || il))
    ensures CStmt(p, s, pc, il, l) == CStmt(p, s.s, pc, false, Opened(l, il, pc + StmtLen(p, s.s)))
  {}

  lemma SwitchParts(p: Prog, s: Stmt, pc: nat, il: bool, l: Labels, b: bool, c: bool)
    requires s.Switch?
    ensures StmtLen(p, s) == ExprLen(p, s.e, false) + 1 + ArmsLen(p, s.arms)
    ensures !LoopFlag(s, il) && (Legal(s, il, b, c) ==> LegalArms(s.arms, c || il))
    ensures CStmt(p, s, pc, il, l) == CSwitch(p, s, pc, il, l)
  {}

  datatype BlockFlags = BlockFlags(breakable: bool, continueable: bool, inSwitch: bool)

  ghost function NameOfTop(stack: seq<Label>): int {
    if stack == [] then 0 else stack[|stack| - 1].name
  }

  class ParserState {
    const cg: CodeGen
    var labelStack: seq<Label>
    var breakStack: seq<Label>
    var continueStack: seq<Label>
    var switchStack: seq<SwitchBlock>
    var blockStack: seq<BlockFlags>
    var inLoop: bool
    var inSwitch: bool
    var retLabel: Label

    constructor (cg: CodeGen, retLabel: Label)
      requires cg.Valid() && retLabel in cg.open
      ensures this.cg == cg && this.retLabel == retLabel && Inv() && Stacks() == ([], [], [], [], [])
      ensures !inLoop && !inSwitch
    {
      this.cg, this.retLabel := cg, retLabel;
      labelStack, breakStack, continueStack, switchStack, blockStack := [], [], [], [], [];
      inLoop, inSwitch := false, false;
    }

    ghost predicate Inv()
      reads this, cg, cg.buff, cg.open
    {
      cg.Valid() && AllOpen(cg.open, retLabel, labelStack, breakStack, continueStack)
    }

    ghost function Stacks(): (seq<Label>, seq<Label>, seq<Label>, seq<SwitchBlock>, seq<BlockFlags>)
      reads this
    {
      (labelStack, breakStack, continueStack, switchStack, blockStack)
    }

    /** The jump targets in force, all of them labels without a place yet. */
    ghost function Labs(): Labels
      reads this
    {
      Labels(NameOfTop(labelStack), NameOfTop(breakStack), NameOfTop(continueStack), retLabel.name)
    }

    /** A statement may start here. */
    ghost predicate Ready(p: Prog, s: Stmt)
      reads this, cg, cg.buff, cg.open
    {
      && Inv() && !inSwitch && (inLoop ==> labelStack != [])
      && Legal(s, inLoop, breakStack != [], continueStack != [])
      && cg.nc + StmtLen(p, s) <= cg.buff.Length
    }

    /** A statement has been parsed: its code is in the buffer and every stack is as it was. */
    twostate predicate Parsed(p: Prog, s: Stmt)
      reads this, cg, cg.buff, cg.open
    {
      && Inv() && !inSwitch && inLoop == LoopFlag(s, old(inLoop))
      && Stacks() == old(Stacks()) && retLabel == old(retLabel) && cg.Kept()
      && cg.nc == old(cg.nc) + StmtLen(p, s)
      && cg.sym == old(cg.sym) + CStmt(p, s, old(cg.nc), old(inLoop), old(Labs()))
    }

    /** Labels in force have older names than any label still to come. */
    lemma NamesAbove()
      requires Inv()
      ensures var l, n := Labs(), cg.nextName;
              l.tos > n && l.brk > n && l.cnt > n && l.ret > n && n < 0 && |cg.sym| == cg.nc
    {}

    // ----- label helpers -----

    method PushLabelStack()
      requires cg.Valid()
      modifies this`labelStack, cg
      ensures cg.Valid() && Pushed(old(labelStack), labelStack) && fresh(Last(labelStack))
      ensures cg.open == old(cg.open) + {Last(labelStack)}
      ensures cg.nc == old(cg.nc) && cg.sym == old(cg.sym)
      ensures cg.nextName < old(cg.nextName) == Last(labelStack).name && Free(cg.sym, old(cg.nextName))
    {
      var x := cg.NewLabel();
      labelStack := labelStack + [x];
    }

    /** A jump to a new label on top of the stack, or to the label on top, which goes. */
    method LabelJump(kind: JumpKind, doPush: bool)
      requires cg.Valid() && cg.nc < cg.buff.Length
      requires !doPush ==> labelStack != [] && Last(labelStack).offset >= 0
      modifies this`labelStack, cg, cg.buff, if doPush then {} else {Last(labelStack)}
      ensures cg.Valid() && cg.nc == old(cg.nc) + 1
      ensures doPush ==> Pushed(old(labelStack), labelStack) && fresh(Last(labelStack))
                         && cg.open == old(cg.open) + {Last(labelStack)}
                         && cg.nextName < old(cg.nextName) == Last(labelStack).name
                         && Free(old(cg.sym), old(cg.nextName))
                         && cg.sym == old(cg.sym) + [Jump(kind, Last(labelStack).name)]
      ensures !doPush ==> Pushed(labelStack, old(labelStack)) && cg.Kept()
                          && cg.sym == old(cg.sym) + [Jump(kind, old(Last(labelStack).offset))]
    {
      if doPush {
        PushLabelStack();
      }
      cg.EmitJump(kind, labelStack[|labelStack| - 1]);
      if !doPush {
        labelStack := labelStack[..|labelStack| - 1];
      }
    }

    method LabelHere()
      requires cg.Valid()
      modifies this`labelStack, cg, cg.buff
      ensures cg.Valid() && cg.Kept() && cg.nc == old(cg.nc) && cg.sym == old(cg.sym)
      ensures Pushed(old(labelStack), labelStack) && fresh(Last(labelStack)) && Last(labelStack).offset == cg.nc
      ensures Last(labelStack) !in cg.open
    {
      PushLabelStack();
      PlaceFree(cg.sym, Last(labelStack).name, cg.nc);
      cg.Here(labelStack[|labelStack| - 1]);
    }

    /** Skips the controlled statement when the condition is zero. */
    method DoLoopStart(p: Prog, c: Expr)
      requires cg.Valid() && cg.nc + ExprLen(p, c, false) < cg.buff.Length
      modifies this`labelStack, cg, cg.buff
      ensures cg.Valid() && Pushed(old(labelStack), labelStack) && fresh(Last(labelStack))
      ensures cg.open == old(cg.open) + {Last(labelStack)} && cg.nc == old(cg.nc) + ExprLen(p, c, false) + 1
      ensures cg.nextName < Last(labelStack).name <= old(cg.nextName) && Free(old(cg.sym), Last(labelStack).name)
      ensures cg.sym == old(cg.sym) + CExpr(p, c, false, old(cg.nc)) + [Jump(JZ, Last(labelStack).name)]
    {
      hide CExpr, ExprLen;
      cg.Compile(p, c, false);
      LabelJump(JZ, true);
      FreeConcat(old(cg.sym), CExpr(p, c, false, old(cg.nc)), Last(labelStack).name);
    }

    /** The end of a controlled statement: a jump forward past an else part, or back to a loop's top, or none;
        then the label that skips the statement is placed. */
    method DoLoopEnd(isJump: bool, isForward: bool)
      requires cg.Valid() && labelStack != [] && Last(labelStack) in cg.open
      requires isJump ==> cg.nc < cg.buff.Length
      requires isJump && !isForward ==> |labelStack| >= 2 && Below(labelStack).offset >= 0
      modifies this`labelStack, cg, cg.buff, Last(labelStack),
               if isJump && !isForward then {Below(labelStack)} else {}
      ensures cg.Valid() && cg.nc == old(cg.nc) + if isJump then 1 else 0
      ensures !isJump ==>
                && Pushed(labelStack, old(labelStack)) && cg.open == old(cg.open) - {old(Last(labelStack))}
                && cg.nextName == old(cg.nextName) && cg.sym == Place(old(cg.sym), old(Last(labelStack)).name, cg.nc)
      ensures isJump && isForward ==>
                && |labelStack| == |old(labelStack)|
                && labelStack[..|labelStack| - 1] == old(labelStack)[..|labelStack| - 1]
                && fresh(Last(labelStack))
                && cg.open == old(cg.open) + {Last(labelStack)} - {old(Last(labelStack))}
                && cg.nextName < old(cg.nextName) == Last(labelStack).name && Free(old(cg.sym), old(cg.nextName))
                && cg.sym == Place(old(cg.sym) + [Jump(JMP, Last(labelStack).name)], old(Last(labelStack)).name, cg.nc)
      ensures isJump && !isForward ==>
                && labelStack == old(labelStack)[..|old(labelStack)| - 2]
                && cg.open == old(cg.open) - {old(Last(labelStack))} && cg.nextName <= old(cg.nextName)
                && cg.sym == Place(old(cg.sym) + [Jump(JMP, old(Below(labelStack).offset))],
                                   old(Last(labelStack)).name, cg.nc)
    {
      hide Place;
      var l1 := labelStack[|labelStack| - 1];
      labelStack := labelStack[..|labelStack| - 1];
      if isJump {
        LabelJump(JMP, isForward);
      }
      cg.Here(l1);
    }

    /** The condition of a do-while: back to the top while it holds; break comes here. */
    method DoDoEnd(p: Prog, c: Expr)
      requires cg.Valid() && |labelStack| >= 2 && Last(labelStack) in cg.open && Below(labelStack).offset >= 0
      requires cg.nc + ExprLen(p, c, false) < cg.buff.Length
      modifies this`labelStack, cg, cg.buff, Last(labelStack), Below(labelStack)
      ensures cg.Valid() && labelStack == old(labelStack)[..|old(labelStack)| - 2]
      ensures cg.open == old(cg.open) - {old(Last(labelStack))} && cg.nextName <= old(cg.nextName)
      ensures cg.nc == old(cg.nc) + ExprLen(p, c, false) + 1
      ensures cg.sym == Place(old(cg.sym) + CExpr(p, c, false, old(cg.nc)) + [Jump(JNZ, old(Below(labelStack).offset))],
                              old(Last(labelStack)).name, cg.nc)
    {
      hide Place, CExpr, ExprLen;
      var l1, top := labelStack[|labelStack| - 1], labelStack[|labelStack| - 2];
      labelStack := labelStack[..|labelStack| - 2];
      cg.Compile(p, c, false);
      cg.EmitJump(JNZ, top);
      cg.Here(l1);
    }

    // ----- blocks -----

    /** A block that opens while in_loop is set is the loop's body; one that opens while in_switch is set is
        the switch's. */
    method InitBlock()
      requires cg.Valid() && (inLoop || inSwitch ==> labelStack != [])
      modifies this`labelStack, this`breakStack, this`continueStack, this`blockStack, this`inLoop, this`inSwitch, cg
      ensures cg.Valid() && cg.nc == old(cg.nc) && cg.sym == old(cg.sym) && !inLoop && !inSwitch
      ensures blockStack == old(blockStack) + [BlockFlags(old(inLoop || inSwitch), old(inLoop), old(inSwitch))]
      ensures breakStack
              == if old(inLoop || inSwitch) then old(breakStack) + [old(Last(labelStack))] else old(breakStack)
      ensures labelStack == if old(inSwitch) then old(labelStack)[..|old(labelStack)| - 1] else old(labelStack)
      ensures !old(inLoop) ==> continueStack == old(continueStack) && cg.Kept()
      ensures old(inLoop) ==>
                && Pushed(old(continueStack), continueStack) && fresh(Last(continueStack))
                && cg.open == old(cg.open) + {Last(continueStack)}
                && cg.nextName < old(cg.nextName) == Last(continueStack).name && Free(cg.sym, old(cg.nextName))
    {
      blockStack := blockStack + [BlockFlags(inLoop || inSwitch, inLoop, inSwitch)];
      if inLoop || inSwitch {
        breakStack := breakStack + [labelStack[|labelStack| - 1]];
      }
      if inSwitch {
        labelStack := labelStack[..|labelStack| - 1];
        inSwitch := false;
      }
      if inLoop {
        var x := cg.NewLabel();
        continueStack := continueStack + [x];
        inLoop := false;
      }
    }

    /** A block closes: the switch is finished, then continue is placed. */
    method FinalizeBlock()
      requires cg.Valid() && blockStack != []
      requires blockStack[|blockStack| - 1].breakable ==> breakStack != []
      requires blockStack[|blockStack| - 1].continueable ==> continueStack != [] && Last(continueStack) in cg.open
      requires blockStack[|blockStack| - 1].inSwitch ==>
                 && breakStack != [] && switchStack != [] && Last(breakStack) in cg.open
                 && (continueStack != [] ==> Last(continueStack) != Last(breakStack))
                 && switchStack[|switchStack| - 1].start < cg.nc
                 && cg.sym[switchStack[|switchStack| - 1].start].JSwitch?
      modifies this`breakStack, this`continueStack, this`switchStack, this`blockStack, cg, cg.buff
      modifies if blockStack[|blockStack| - 1].inSwitch then {Last(breakStack)} else {}
      modifies if blockStack[|blockStack| - 1].continueable then {Last(continueStack)} else {}
      modifies if blockStack[|blockStack| - 1].inSwitch then {switchStack[|switchStack| - 1]} else {}
      ensures cg.Valid() && cg.nc == old(cg.nc) && cg.nextName == old(cg.nextName)
      ensures blockStack == old(blockStack)[..|old(blockStack)| - 1]
      ensures var fl := old(blockStack[|blockStack| - 1]);
              && breakStack == (if fl.breakable then old(breakStack)[..|old(breakStack)| - 1] else old(breakStack))
              && continueStack == (if fl.continueable then old(continueStack)[..|old(continueStack)| - 1]
                                   else old(continueStack))
              && switchStack == (if fl.inSwitch then old(switchStack)[..|old(switchStack)| - 1] else old(switchStack))
              && cg.open == old(cg.open) - (if fl.inSwitch then {old(Last(breakStack))} else {})
                            - (if fl.continueable then {old(Last(continueStack))} else {})
              && cg.sym == FinalSym(old(cg.sym), cg.nc, fl,
                                    if fl.inSwitch then old(Last(breakStack)).name else 0,
                                    if fl.inSwitch then old(switchStack[|switchStack| - 1]).start else 0,
                                    if fl.inSwitch then old(switchStack[|switchStack| - 1].list) else [],
                                    if fl.inSwitch then old(switchStack[|switchStack| - 1].defaultJmp) else 0,
                                    if fl.continueable then old(Last(continueStack)).name else 0)
    {
      hide Place;
      var fl := blockStack[|blockStack| - 1];
      blockStack := blockStack[..|blockStack| - 1];
      if fl.inSwitch {
        EndSwitch();
      }
      if fl.continueable {
        var c := continueStack[|continueStack| - 1];
        continueStack := continueStack[..|continueStack| - 1];
        cg.Here(c);
      }
      if fl.breakable {
        breakStack := breakStack[..|breakStack| - 1];
      }
    }

    method EndSwitch()
      requires cg.Valid() && breakStack != [] && switchStack != [] && Last(breakStack) in cg.open
      requires switchStack[|switchStack| - 1].start < cg.nc && cg.sym[switchStack[|switchStack| - 1].start].JSwitch?
      modifies this`switchStack, cg, cg.buff, Last(breakStack), switchStack[|switchStack| - 1]
      ensures cg.Valid() && cg.nc == old(cg.nc) && cg.nextName == old(cg.nextName)
      ensures switchStack == old(switchStack)[..|old(switchStack)| - 1]
      ensures cg.open == old(cg.open) - {Last(breakStack)}
      ensures var sb := old(switchStack)[|old(switchStack)| - 1];
              cg.sym == Place(old(cg.sym), Last(breakStack).name, cg.nc)
                        [sb.start := JSwitch(MakeTable(old(sb.list), old(sb.defaultJmp), cg.nc))]
    {
      cg.Here(breakStack[|breakStack| - 1]);
      var sb := switchStack[|switchStack| - 1];
      switchStack := switchStack[..|switchStack| - 1];
      sb.Construct(cg);
    }

    // ----- jumps -----

    /** break and continue jump to the innermost open label of their kind; without one they are refused. */
    method DoBreakContinue(isBreak: bool) returns (ok: bool)
      requires Inv() && cg.nc < cg.buff.Length
      modifies cg, cg.buff, cg.open
      ensures Inv() && cg.Kept()
      ensures ok == (if isBreak then breakStack != [] else continueStack != [])
      ensures ok ==> cg.nc == old(cg.nc) + 1
                     && cg.sym == old(cg.sym) + [Jump(JMP, if isBreak then Labs().brk else Labs().cnt)]
      ensures !ok ==> cg.nc == old(cg.nc) && cg.sym == old(cg.sym)
    {
      var stack := if isBreak then breakStack else continueStack;
      ok := stack != [];
      if ok {
        cg.EmitJump(JMP, stack[|stack| - 1]);
      }
    }

    method DoReturn(p: Prog, s: Stmt)
      requires s.Return? && Inv() && cg.nc + StmtLen(p, s) <= cg.buff.Length
      modifies cg, cg.buff, retLabel
      ensures Inv() && cg.Kept() && cg.nc == old(cg.nc) + StmtLen(p, s)
      ensures cg.sym == old(cg.sym) + CStmt(p, s, old(cg.nc), old(inLoop), Labs())
    {
      hide CodeGen.Valid, CExpr, ExprLen, StmtLen, CStmt, AllOpen;
      ReturnParts(p, s, cg.nc, inLoop, Labs());
      RetOpen(cg.open, retLabel, labelStack, breakStack, continueStack);
      if s.res.Some? {
        cg.Compile(p, s.res.value, false);
      }
      cg.EmitJump(JMP, retLabel);
    }

    // ----- the grammar of statements -----

    method Statement(p: Prog, s: Stmt)
      requires Ready(p, s)
      modifies this, cg, cg.buff, cg.open
      ensures Parsed(p, s)
      decreases s, 2
    {
      match s
      case Empty =>
      case ExprS(e) => cg.Compile(p, e, true);
      case Seq(a, b) => SeqStmt(p, s);
      case Block(a) => BlockStmt(p, s);
      case If(_, _) => IfStmt(p, s);
      case IfElse(_, _, _) => IfElseStmt(p, s);
      case While(_, _) => WhileStmt(p, s);
      case DoWhile(_, _) => DoStmt(p, s);
      case For(_, _, _, _) => ForStmt(p, s);
      case Switch(_, _) => SwitchStmt(p, s);
      case Break => var _ := DoBreakContinue(true);
      case Continue => var _ := DoBreakContinue(false);
      case Return(_) => DoReturn(p, s);
    }

    method SeqStmt(p: Prog, s: Stmt)
      requires s.Seq? && Ready(p, s)
      modifies this, cg, cg.buff, cg.open
      ensures Parsed(p, s)
      decreases s, 0
    {
      Statement(p, s.s1);
      Statement(p, s.s2);
    }

    method IfStmt(p: Prog, s: Stmt)
      requires s.If? && Ready(p, s)
      modifies this, cg, cg.buff, cg.open
      ensures Parsed(p, s)
      decreases s, 0
    {
      hide CodeGen.Valid, CExpr, ExprLen, Place, Free, StmtLen, LoopFlag, Legal, CStmt, AllOpen;
      NamesAbove();
      ghost var il, s0, pc, l, open := inLoop, cg.sym, cg.nc, Labs(), cg.open;
      IfParts(p, s, pc, il, l, breakStack != [], continueStack != []);
      DoLoopStart(p, s.c);
      StillOpen(open, retLabel, old(labelStack), labelStack, breakStack, continueStack);
      ghost var n := Last(labelStack).name;
      Statement(p, s.s1);
      DoLoopEnd(false, false);
      IfEmitted(p, s, s0, pc, il, l, n);
      assert cg.open == open && labelStack == old(labelStack);
    }

    /** Condition, first arm, and the jump over the second. */
    method IfElseFront(p: Prog, s: Stmt) returns (ghost n: int)
      requires s.IfElse? && Ready(p, s)
      modifies this, cg, cg.buff, cg.open
      ensures Inv() && !inSwitch && inLoop == LoopFlag(s.s1, old(inLoop)) && retLabel == old(retLabel)
      ensures Pushed(old(labelStack), labelStack) && fresh(Last(labelStack))
      ensures breakStack == old(breakStack) && continueStack == old(continueStack)
              && switchStack == old(switchStack) && blockStack == old(blockStack)
      ensures cg.open == old(cg.open) + {Last(labelStack)}
      ensures cg.nextName < Last(labelStack).name < n <= old(cg.nextName)
      ensures Free(old(cg.sym), n) && Free(old(cg.sym), Last(labelStack).name)
      ensures cg.nc == old(cg.nc) + ExprLen(p, s.c, false) + StmtLen(p, s.s1) + 2
      ensures cg.sym == ElseRaw(p, s, old(cg.sym), old(cg.nc), old(inLoop), old(Labs()), n, Last(labelStack).name)
      decreases s, 0
    {
      hide CodeGen.Valid, CExpr, ExprLen, Place, Free, StmtLen, LoopFlag, Legal, CStmt;
      IfElseParts(p, s, cg.nc, inLoop, Labs(), breakStack != [], continueStack != []);
      DoLoopStart(p, s.c);
      n := Last(labelStack).name;
      Statement(p, s.s1);
      ghost var mid := cg.sym;
      DoLoopEnd(true, true);
      FreePrefix(old(cg.sym), mid, Last(labelStack).name);
    }

    method IfElseStmt(p: Prog, s: Stmt)
      requires s.IfElse? && Ready(p, s)
      modifies this, cg, cg.buff, cg.open
      ensures Parsed(p, s)
      decreases s, 1
    {
      hide CodeGen.Valid, Place, Free, StmtLen, LoopFlag, Legal, CStmt, ElseRaw, CIfElse, ExprLen, AllOpen;
      NamesAbove();
      ghost var s0, pc, l := cg.sym, cg.nc, Labs();
      IfElseParts(p, s, pc, inLoop, l, breakStack != [], continueStack != []);
      ghost var n1 := IfElseFront(p, s);
      ghost var n2 := Last(labelStack).name;
      Statement(p, s.s2);
      DoLoopEnd(false, false);
      IfElseEmitted(p, s, s0, pc, old(inLoop), l, n1, n2);
    }

    /** The top of a loop: a label to come back to, the flag for the body's block, the condition. */
    method LoopHead(p: Prog, c: Expr)
      requires Inv() && cg.nc + ExprLen(p, c, false) < cg.buff.Length
      modifies this`labelStack, this`inLoop, cg, cg.buff
      ensures Inv() && inLoop && |labelStack| == |old(labelStack)| + 2
              && labelStack[..|old(labelStack)|] == old(labelStack)
      ensures fresh(Last(labelStack)) && fresh(Below(labelStack)) && Below(labelStack).offset == old(cg.nc)
      ensures Below(labelStack) !in cg.open && cg.open == old(cg.open) + {Last(labelStack)}
      ensures cg.nc == old(cg.nc) + ExprLen(p, c, false) + 1 && cg.nextName < Last(labelStack).name <= old(cg.nextName)
      ensures Free(old(cg.sym), Last(labelStack).name)
      ensures cg.sym == old(cg.sym) + CExpr(p, c, false, old(cg.nc)) + [Jump(JZ, Last(labelStack).name)]
    {
      hide CodeGen.Valid, CExpr, ExprLen, Free;
      LabelHere();
      inLoop := true;
      DoLoopStart(p, c);
      assert labelStack[..|old(labelStack)|] == labelStack[..|old(labelStack)| + 1][..|old(labelStack)|];
    }

    method WhileStmt(p: Prog, s: Stmt)
      requires s.While? && Ready(p, s)
      modifies this, cg, cg.buff, cg.open
      ensures Parsed(p, s)
      decreases s, 0
    {
      hide CodeGen.Valid, CExpr, ExprLen, Place, Free, StmtLen, LoopFlag, Legal, CStmt, AllOpen;
      NamesAbove();
      ghost var il, s0, pc, l, open := inLoop, cg.sym, cg.nc, Labs(), cg.open;
      WhileParts(p, s, pc, il, l, breakStack != [], continueStack != []);
      LoopHead(p, s.c);
      ghost var n := Last(labelStack).name;
      Statement(p, s.s);
      DoLoopEnd(true, false);
      inLoop := false;
      WhileEmitted(p, s, s0, pc, l, n);
      assert cg.open == open && labelStack == old(labelStack);
    }

    method DoCore(p: Prog, s: Stmt) returns (ghost n: int)
      requires s.DoWhile? && Ready(p, s)
      modifies this, cg, cg.buff, cg.open
      ensures Inv() && !inSwitch && Stacks() == old(Stacks()) && retLabel == old(retLabel) && cg.Kept()
      ensures cg.nc == old(cg.nc) + StmtLen(p, s) && Free(old(cg.sym), n) && cg.nextName < n <= old(cg.nextName)
      ensures cg.sym == Place(DoRaw(p, s, old(cg.sym), old(cg.nc), old(Labs()), n), n, cg.nc)
      decreases s, 0
    {
      hide CodeGen.Valid, CExpr, ExprLen, Place, Free, StmtLen, LoopFlag, Legal, CStmt, COpt, OptLen, AllOpen;
      DoParts(p, s, cg.nc, inLoop, Labs(), breakStack != [], continueStack != []);
      LabelHere();
      PushLabelStack();
      assert labelStack[..|old(labelStack)|] == labelStack[..|old(labelStack)| + 1][..|old(labelStack)|];
      inLoop := true;
      StillOpen(old(cg.open), retLabel, old(labelStack), labelStack, breakStack, continueStack);
      n := Last(labelStack).name;
      Statement(p, s.s);
      DoDoEnd(p, s.c);
    }

    method DoStmt(p: Prog, s: Stmt)
      requires s.DoWhile? && Ready(p, s)
      modifies this, cg, cg.buff, cg.open
      ensures Parsed(p, s)
      decreases s, 1
    {
      hide CodeGen.Valid, Place, Free, StmtLen, ExprLen, LoopFlag, Legal, CStmt, DoRaw, CDoWhile, AllOpen;
      NamesAbove();
      ghost var s0, pc, l := cg.sym, cg.nc, Labs();
      DoParts(p, s, pc, inLoop, l, breakStack != [], continueStack != []);
      ghost var n := DoCore(p, s);
      inLoop := false;
      DoEmitted(p, s, s0, pc, l, n);
    }

    method CompileOpt(p: Prog, e: Option<Expr>)
      requires cg.Valid() && cg.nc + OptLen(p, e) <= cg.buff.Length
      modifies cg, cg.buff
      ensures cg.Valid() && cg.Kept() && cg.nc == old(cg.nc) + OptLen(p, e)
      ensures cg.sym == old(cg.sym) + COpt(p, e, old(cg.nc))
    {
      if e.Some? {
        cg.Compile(p, e.value, true);
      }
    }

    /** init_block outside a switch header; m names the continue label it opened, if any. */
    method OpenBlock() returns (ghost m: int)
      requires Inv() && !inSwitch && (inLoop ==> labelStack != [])
      modifies this`labelStack, this`breakStack, this`continueStack, this`blockStack, this`inLoop, this`inSwitch, cg
      ensures Inv() && !inLoop && !inSwitch && cg.nc == old(cg.nc) && cg.sym == old(cg.sym)
      ensures Labs() == Opened(old(Labs()), old(inLoop), m) && labelStack == old(labelStack)
      ensures switchStack == old(switchStack) && |blockStack| == |old(blockStack)| + 1
      ensures blockStack[..|old(blockStack)|] == old(blockStack)
              && blockStack[|old(blockStack)|] == BlockFlags(old(inLoop), old(inLoop), false)
      ensures !old(inLoop) ==> breakStack == old(breakStack) && continueStack == old(continueStack) && cg.Kept()
      ensures old(inLoop) ==>
                && Pushed(old(breakStack), breakStack) && Pushed(old(continueStack), continueStack)
                && fresh(Last(continueStack)) && Last(continueStack).name == m
                && cg.open == old(cg.open) + {Last(continueStack)}
                && cg.nextName < old(cg.nextName) == m && Free(cg.sym, m)
    {
      m := cg.nextName;
      InitBlock();
    }

    /** finalize_block for such a block. */
    method CloseBlock(ghost il: bool, ghost m: int)
      requires cg.Valid() && blockStack != [] && blockStack[|blockStack| - 1] == BlockFlags(il, il, false)
      requires il ==> breakStack != [] && continueStack != [] && Last(continueStack) in cg.open
                      && Last(continueStack).name == m
      modifies this`breakStack, this`continueStack, this`switchStack, this`blockStack, cg, cg.buff
      modifies if il then {Last(continueStack)} else {}
      ensures cg.Valid() && cg.nc == old(cg.nc) && cg.nextName == old(cg.nextName) && switchStack == old(switchStack)
      ensures blockStack == old(blockStack)[..|old(blockStack)| - 1]
      ensures !il ==> breakStack == old(breakStack) && continueStack == old(continueStack) && cg.open == old(cg.open)
                      && cg.sym == old(cg.sym)
      ensures il ==> Pushed(breakStack, old(breakStack)) && Pushed(continueStack, old(continueStack))
                     && cg.open == old(cg.open) - {old(Last(continueStack))} && cg.sym == Place(old(cg.sym), m, cg.nc)
    {
      FinalizeBlock();
    }

    /** Initialiser and loop head. */
    method ForFront(p: Prog, init: Option<Expr>, c: Expr)
      requires Inv() && cg.nc + OptLen(p, init) + ExprLen(p, c, false) < cg.buff.Length
      modifies this`labelStack, this`inLoop, cg, cg.buff
      ensures Inv() && inLoop && |labelStack| == |old(labelStack)| + 2
              && labelStack[..|old(labelStack)|] == old(labelStack)
      ensures fresh(Last(labelStack)) && fresh(Below(labelStack))
              && Below(labelStack).offset == old(cg.nc) + OptLen(p, init)
      ensures Below(labelStack) !in cg.open && cg.open == old(cg.open) + {Last(labelStack)}
      ensures cg.nc == Below(labelStack).offset + ExprLen(p, c, false) + 1
      ensures cg.nextName < Last(labelStack).name <= old(cg.nextName) && Free(old(cg.sym), Last(labelStack).name)
      ensures cg.sym == old(cg.sym) + COpt(p, init, old(cg.nc)) + CExpr(p, c, false, Below(labelStack).offset)
                        + [Jump(JZ, Last(labelStack).name)]
    {
      hide CodeGen.Valid, CExpr, ExprLen, Free, COpt, OptLen;
      CompileOpt(p, init);
      LoopHead(p, c);
      FreePrefix(old(cg.sym), old(cg.sym) + COpt(p, init, old(cg.nc)), Last(labelStack).name);
    }

    /** The body of a for statement, between its block's braces. */
    method ForCore(p: Prog, s: Stmt) returns (ghost n: int)
      requires s.For? && Inv() && !inSwitch && !inLoop && cg.nc + StmtLen(p, s) <= cg.buff.Length
      requires Legal(s.s, true, breakStack != [], continueStack != [])
      modifies this, cg, cg.buff, cg.open
      ensures Inv() && !inSwitch && !inLoop && Stacks() == old(Stacks()) && retLabel == old(retLabel) && cg.Kept()
      ensures cg.nc == old(cg.nc) + StmtLen(p, s) && Free(old(cg.sym), n) && cg.nextName < n <= old(cg.nextName)
      ensures cg.sym == Place(ForRaw(p, s, old(cg.sym), old(cg.nc), old(Labs()), n), n, cg.nc)
      decreases s, 0
    {
      hide CodeGen.Valid, CExpr, ExprLen, Place, Free, StmtLen, LoopFlag, Legal, CStmt, COpt, OptLen, AllOpen;
      ForParts(p, s, cg.nc, inLoop, Labs(), breakStack != [], continueStack != []);
      ForFront(p, s.init, s.c);
      n := Last(labelStack).name;
      Statement(p, s.s);
      CompileOpt(p, s.inc);
      DoLoopEnd(true, false);
      inLoop := false;
      assert Stacks() == old(Stacks()) && cg.open == old(cg.open);
      assert cg.sym == Place(ForRaw(p, s, old(cg.sym), old(cg.nc), old(Labs()), n), n, cg.nc);
    }

    method ForStmt(p: Prog, s: Stmt)
      requires s.For? && Ready(p, s)
      modifies this, cg, cg.buff, cg.open
      ensures Parsed(p, s)
      decreases s, 1
    {
      hide CodeGen.Valid, Place, Free, StmtLen, LoopFlag, Legal, CStmt, ForRaw, ForLen, CFor, AllOpen;
      NamesAbove();
      ghost var il, s0, pc, l := inLoop, cg.sym, cg.nc, Labs();
      ForParts(p, s, pc, il, l, breakStack != [], continueStack != []);
      ghost var m := OpenBlock();
      ghost var n := ForCore(p, s);
      CloseBlock(il, m);
      ForEmitted(p, s, s0, pc, il, l, n, m);
      assert cg.sym == s0 + CStmt(p, s, pc, il, l);
      assert breakStack == old(breakStack) && continueStack == old(continueStack);
      assert cg.open == old(cg.open);
      assert Inv();
    }

    method BlockStmt(p: Prog, s: Stmt)
      requires s.Block? && Ready(p, s)
      modifies this, cg, cg.buff, cg.open
      ensures Parsed(p, s)
      decreases s, 0
    {
      hide CodeGen.Valid, CExpr, ExprLen, Place, Free, StmtLen, LoopFlag, Legal, CStmt, AllOpen;
      NamesAbove();
      ghost var il, s0, pc, l := inLoop, cg.sym, cg.nc, Labs();
      BlockParts(p, s, pc, il, l, breakStack != [], continueStack != []);
      ghost var m := OpenBlock();
      Statement(p, s.s);
      CloseBlock(il, m);
      if il {
        BlockEmitted(p, s.s, s0, pc, l, m);
      }
    }

    /** The head of a switch: a label for break, the value, and an instruction whose table comes later. */
    method DoSwitch(p: Prog, e: Expr)
      requires Inv() && cg.nc + ExprLen(p, e, false) < cg.buff.Length
      modifies this`labelStack, this`switchStack, this`inSwitch, cg, cg.buff
      ensures Inv() && inSwitch && Pushed(old(labelStack), labelStack) && fresh(Last(labelStack))
      ensures cg.open == old(cg.open) + {Last(labelStack)} && cg.nextName < old(cg.nextName) == Last(labelStack).name
      ensures Free(old(cg.sym), Last(labelStack).name)
      ensures |switchStack| == |old(switchStack)| + 1 && switchStack[..|old(switchStack)|] == old(switchStack)
      ensures var sb := switchStack[|old(switchStack)|];
              fresh(sb) && sb.list == [] && sb.defaultJmp == 0 && sb.start == old(cg.nc) + ExprLen(p, e, false)
      ensures cg.nc == old(cg.nc) + ExprLen(p, e, false) + 1
      ensures cg.sym == old(cg.sym) + CExpr(p, e, false, old(cg.nc)) + [JSwitch([])]
    {
      hide CodeGen.Valid, CExpr, ExprLen, Free;
      inSwitch := true;
      PushLabelStack();
      cg.Compile(p, e, false);
      var sb := new SwitchBlock(cg);
      switchStack := switchStack + [sb];
      cg.Emit(JSwitch([]));
    }

    /** `case v:` or `default:` here. */
    method DoCase(lab: Option<int>)
      requires switchStack != []
      modifies switchStack[|switchStack| - 1]
      ensures var sb := switchStack[|switchStack| - 1];
              && sb.list == old(sb.list) + (if lab.Some? then [lab.value, cg.nc] else [])
              && sb.defaultJmp == if lab.None? then cg.nc else old(sb.defaultJmp)
    {
      var sb := switchStack[|switchStack| - 1];
      if lab.Some? {
        sb.AddJump(lab.value, cg);
      } else {
        sb.AddDefault(cg);
      }
    }

    /** The labelled statements of a switch body fill in the block on top of the switch stack. */
    method ArmsStmt(p: Prog, arms: Arms, sb: SwitchBlock)
      requires Inv() && !inSwitch && !inLoop && switchStack != [] && switchStack[|switchStack| - 1] == sb
      requires breakStack != [] && LegalArms(arms, continueStack != []) && cg.nc + ArmsLen(p, arms) <= cg.buff.Length
      modifies this, cg, cg.buff, cg.open, sb
      ensures Inv() && !inSwitch && !inLoop && Stacks() == old(Stacks()) && retLabel == old(retLabel) && cg.Kept()
      ensures cg.nc == old(cg.nc) + ArmsLen(p, arms)
      ensures cg.sym == old(cg.sym) + CArms(p, arms, old(cg.nc), old(Labs()))
      ensures sb.list == old(sb.list) + CaseList(p, arms, old(cg.nc))
      ensures sb.defaultJmp == DefaultJump(p, arms, old(cg.nc), old(sb.defaultJmp))
      decreases arms, 2
    {
      hide CodeGen.Valid, CStmt, StmtLen, Legal;
      if arms.Arm? {
        DoCase(arms.lab);
        Statement(p, arms.s);
        ArmsStmt(p, arms.rest, sb);
      }
    }

    /** From `switch (` to the brace that opens the body; n and m name the labels for break and continue. */
    method SwitchFront(p: Prog, e: Expr) returns (ghost n: int, ghost m: int)
      requires Inv() && (inLoop ==> labelStack != []) && cg.nc + ExprLen(p, e, false) < cg.buff.Length
      modifies this, cg, cg.buff
      ensures Inv() && !inSwitch && !inLoop && retLabel == old(retLabel) && labelStack == old(labelStack)
      ensures Labs() == old(Labs()).(brk := n, cnt := if old(inLoop) then m else old(Labs()).cnt)
      ensures Pushed(old(breakStack), breakStack) && fresh(Last(breakStack)) && Last(breakStack).name == n
      ensures if old(inLoop) then Pushed(old(continueStack), continueStack) && fresh(Last(continueStack))
                                  && Last(continueStack) != Last(breakStack) && Last(continueStack).name == m
                                  && cg.open == old(cg.open) + {Last(breakStack), Last(continueStack)}
              else continueStack == old(continueStack) && cg.open == old(cg.open) + {Last(breakStack)}
      ensures blockStack == old(blockStack) + [BlockFlags(true, old(inLoop), true)]
      ensures |switchStack| == |old(switchStack)| + 1 && switchStack[..|old(switchStack)|] == old(switchStack)
      ensures var sb := switchStack[|old(switchStack)|];
              fresh(sb) && sb.list == [] && sb.defaultJmp == 0 && sb.start == old(cg.nc) + ExprLen(p, e, false)
      ensures cg.nc == old(cg.nc) + ExprLen(p, e, false) + 1
      ensures cg.sym == old(cg.sym) + CExpr(p, e, false, old(cg.nc)) + [JSwitch([])]
      ensures cg.nextName <= m < n <= old(cg.nextName) && (old(inLoop) ==> cg.nextName < m)
      ensures Free(old(cg.sym), n) && (old(inLoop) ==> Free(old(cg.sym), m))
    {
      hide CodeGen.Valid, CExpr, ExprLen, Free;
      DoSwitch(p, e);
      n, m := Last(labelStack).name, cg.nextName;
      InitBlock();
      if old(inLoop) {
        FreePrefix(old(cg.sym), cg.sym, m);
      }
    }

    /** The brace that closes it. */
    method SwitchBack(sb: SwitchBlock, ghost il: bool, ghost n: int, ghost m: int)
      requires cg.Valid() && blockStack != [] && blockStack[|blockStack| - 1] == BlockFlags(true, il, true)
      requires breakStack != [] && Last(breakStack) in cg.open && Last(breakStack).name == n
      requires switchStack != [] && switchStack[|switchStack| - 1] == sb && sb.start < cg.nc
               && cg.sym[sb.start].JSwitch?
      requires il ==> continueStack != [] && Last(continueStack) in cg.open && Last(continueStack).name == m && m != n
      requires !il && continueStack != [] ==> Last(continueStack) != Last(breakStack)
      modifies this`breakStack, this`continueStack, this`switchStack, this`blockStack, cg, cg.buff, sb
      modifies {Last(breakStack)} + if il then {Last(continueStack)} else {}
      ensures cg.Valid() && cg.nc == old(cg.nc) && cg.nextName == old(cg.nextName)
      ensures blockStack == old(blockStack)[..|old(blockStack)| - 1] && Pushed(breakStack, old(breakStack))
      ensures switchStack == old(switchStack)[..|old(switchStack)| - 1]
      ensures if il then Pushed(continueStack, old(continueStack)) else continueStack == old(continueStack)
      ensures cg.open == old(cg.open) - {old(Last(breakStack))} - if il then {old(Last(continueStack))} else {}
      ensures var table := MakeTable(old(sb.list), old(sb.defaultJmp), cg.nc);
              cg.sym == SwitchClosed(old(cg.sym), cg.nc, n, sb.start, table, il, m)
    {
      hide CodeGen.Valid, Place, MakeTable;
      FinalizeBlock();
    }

    method SwitchStmt(p: Prog, s: Stmt)
      requires s.Switch? && Ready(p, s)
      modifies this, cg, cg.buff, cg.open
      ensures Parsed(p, s)
      decreases s, 0
    {
      hide CodeGen.Valid, CExpr, ExprLen, Place, Free, ArmsLen, CArms, CaseList, DefaultJump, LegalArms, StmtLen, CStmt,
           LoopFlag, Legal, SwitchClosed, CSwitch, AllOpen;
      NamesAbove();
      ghost var il, s0, pc, l, open := inLoop, cg.sym, cg.nc, Labs(), cg.open;
      SwitchParts(p, s, pc, il, l, breakStack != [], continueStack != []);
      ghost var n, m := SwitchFront(p, s.e);
      var sb := switchStack[|switchStack| - 1];
      ArmsStmt(p, s.arms, sb);
      assert sb.list == CaseList(p, s.arms, sb.start + 1);
      SwitchEmitted(p, s, s0, pc, il, l, n, m);
      SwitchBack(sb, il, n, m);
      assert cg.open == open && breakStack == old(breakStack) && continueStack == old(continueStack);
    }
  }

  /** From a function's opening brace to its finished code block. */
  method CompileFunction(p: Prog, fn: Fun, size: nat) returns (b: FBlock)
    requires StmtLen(p, fn.body) + 2 <= size && Legal(fn.body, false, false, false)
    ensures b == FinalBlock(p, fn)
  {
    hide CodeGen.Valid, Place, CStmt, StmtLen, Legal, LoopFlag;
    var cg := new CodeGen(size);
    var ret := cg.NewLabel();
    var state := new ParserState(cg, ret);
    state.Statement(p, fn.body);
    ghost var raw := cg.sym;
    cg.Here(ret);
    BodySettled(p, fn);
    var code := cg.FinishFunction(ret, fn.isVoid, raw);
    b := FBlock(code, fn.nlocal, fn.nargs);
  }

  /** No label that can be jumped to has a place yet. */
  ghost predicate AllOpen(open: set<Label>, ret: Label, labels: seq<Label>, breaks: seq<Label>, continues: seq<Label>) {
    && ret in open && (labels != [] ==> labels[|labels| - 1] in open)
    && (forall k {:trigger breaks[k]} :: 0 <= k < |breaks| ==> breaks[k] in open)
    && (forall k {:trigger continues[k]} :: 0 <= k < |continues| ==> continues[k] in open)
  }

  lemma RetOpen(open: set<Label>, ret: Label, labels: seq<Label>, breaks: seq<Label>, continues: seq<Label>)
    requires AllOpen(open, ret, labels, breaks, continues)
    ensures ret in open
  {}

  /** One more open label on top. */
  lemma StillOpen(open: set<Label>, ret: Label, before: seq<Label>, after: seq<Label>, breaks: seq<Label>,
      continues: seq<Label>)
    requires AllOpen(open, ret, before, breaks, continues) && after != []
    ensures AllOpen(open + {Last(after)}, ret, after, breaks, continues)
  {}

  ghost function Last(stack: seq<Label>): Label
    requires stack != []
  {
    stack[|stack| - 1]
  }

  ghost function Below(stack: seq<Label>): Label
    requires |stack| >= 2
  {
    stack[|stack| - 2]
  }

  /** The code after a block has closed at nc. */
  ghost function FinalSym(sym: seq<Instr>, nc: nat, fl: BlockFlags, brk: int, start: nat, list: seq<int>, def: int,
      cnt: int): seq<Instr>
    requires fl.inSwitch ==> start < |sym|
  {
    var tabled := if fl.inSwitch then Place(sym, brk, nc)[start := JSwitch(MakeTable(list, def, nc))] else sym;
    if fl.continueable then Place(tabled, cnt, nc) else tabled
  }

  /** `after` is `before` with one more label on top. */
  ghost predicate Pushed(before: seq<Label>, after: seq<Label>) {
    |after| == |before| + 1 && after[..|before|] == before
  }
}
