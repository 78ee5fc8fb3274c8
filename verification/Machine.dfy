/** The stack engine: instructions, machine state and one step of the execution loop
    (underc/sourcecode/src/engine.cpp). */
module Machine {
  import opened Arith

  /** Where an instruction finds its word. `Lit` is a DIRECT reference to a pool cell that holds a
      constant and that nothing else refers to; `Direct` is a cell of the data segment; `Srel` is an
      offset from baseSP. */
  datatype Operand = Lit(v: int) | Direct(k: nat) | Srel(d: int)

  datatype AluOp1 = NEG | NOT
  datatype AluOp2 = ADD | SUB | MUL | DIV | MOD | AND | OR | XOR | SHL | SHR
                  | EQ | NEQ | LESS | GREAT | LE | GE

  datatype JumpKind = JMP | JZ | JNZ | JZND | JNZND

  datatype Instr =
    | End
    | PushI(o: Operand) | PopI(o: Operand) | IncI(o: Operand) | DecI(o: Operand)
    | Dup | Drop
    | Alu1(op1: AluOp1) | Alu2(op2: AluOp2)
    | Jump(kind: JumpKind, target: int)
    | JSwitch(block: seq<int>)
    | Call(f: nat)
    | Ret | RetI

  datatype FBlock = FBlock(code: seq<Instr>, nlocal: nat, nargs: nat)
  type Image = seq<FBlock>

  datatype Frame = Frame(pc: int, fb: int, base: nat)

  /** `stk` holds the live words of the downward-growing stack, oldest first, so that |stk| stands for
      mSP and `base` for baseSP; `stale` holds the dead words below mSP, nearest first. */
  datatype State = State(pc: int, fb: int, base: nat, stk: seq<int>, stale: seq<int>,
                         fs: seq<Frame>, glob: seq<int>, trap: bool)

  function Tail(s: seq<int>): seq<int> { if s == [] then [] else s[1..] }

  function Push(s: State, v: int): State {
    s.(stk := s.stk + [v], stale := Tail(s.stale))
  }

  function Top(s: State): int
    requires s.stk != []
  {
    s.stk[|s.stk| - 1]
  }

  function Pop(s: State): State
    requires s.stk != []
  {
    s.(stk := s.stk[..|s.stk| - 1], stale := [Top(s)] + s.stale)
  }

  /** The index of the word at baseSP + d. */
  function SlotOf(base: nat, d: int): int { base - 1 - d }

  predicate Readable(s: State, o: Operand) {
    match o
    case Lit(_) => true
    case Direct(k) => k < |s.glob|
    case Srel(d) => 0 <= SlotOf(s.base, d) < |s.stk|
  }

  function Load(s: State, o: Operand): int
    requires Readable(s, o)
  {
    match o
    case Lit(v) => v
    case Direct(k) => s.glob[k]
    case Srel(d) => s.stk[SlotOf(s.base, d)]
  }

  predicate Writable(s: State, o: Operand) { !o.Lit? && Readable(s, o) }

  function StoreTo(s: State, o: Operand, v: int): State
    requires Writable(s, o)
  {
    match o
    case Direct(k) => s.(glob := s.glob[k := v])
    case Srel(d) => s.(stk := s.stk[SlotOf(s.base, d) := v])
  }

  function Alu1Of(op: AluOp1, a: int): int {
    match op
    case NEG => Wrap(-a)
    case NOT => Truth(a == 0)
  }

  predicate Alu2Traps(op: AluOp2, a: int, b: int) { (op.DIV? || op.MOD?) && DivideError(a, b) }

  /** `val=pop(); tos() = tos() op val`: a is the deeper word, b the top one. */
  function Alu2Of(op: AluOp2, a: int, b: int): int
    requires !Alu2Traps(op, a, b)
  {
    match op
    case ADD => Wrap(a + b)
    case SUB => Wrap(a - b)
    case MUL => Wrap(a * b)
    case DIV => TruncDiv(a, b)
    case MOD => a - b * TruncDiv(a, b)
    case AND => Bitwise(AndF, a, b)
    case OR => Bitwise(OrF, a, b)
    case XOR => Bitwise(XorF, a, b)
    case SHL => ShiftLeft(a, b)
    case SHR => ShiftRight(a, b)
    case EQ => Truth(a == b)
    case NEQ => Truth(a != b)
    case LESS => Truth(a < b)
    case GREAT => Truth(a > b)
    case LE => Truth(a <= b)
    case GE => Truth(a >= b)
  }

  /** The search `switch_jump` makes, from entry i of the list on. */
  function SwitchFrom(block: seq<int>, i: nat, left: int, val: int): int
    decreases |block| - i
  {
    if left <= 0 || i + 1 >= |block| then (if |block| > 1 then block[1] else 0)
    else if block[i] == val then block[i + 1]
    else SwitchFrom(block, i + 2, left - 1, val)
  }

  function SwitchTarget(block: seq<int>, val: int): int {
    SwitchFrom(block, 2, if |block| > 0 then block[0] else 0, val)
  }

  function Next(s: State): State { s.(pc := s.pc + 1) }
  function Goto(s: State, pc: int): State { s.(pc := pc) }
  function Trapped(s: State): State { s.(trap := true) }

  /** n words of whatever the stack memory held. */
  function Fresh(stale: seq<int>, n: nat): (r: seq<int>)
    ensures |r| == n
  {
    if n <= |stale| then stale[..n] else stale + seq(n - |stale|, _ => 0)
  }

  function Rest(stale: seq<int>, n: nat): seq<int> { if n <= |stale| then stale[n..] else [] }

  /** start_function: save the return context, enter the callee, make room for its locals. */
  function Enter(img: Image, s: State, f: nat): State
    requires f < |img|
  {
    s.(fs := s.fs + [Frame(s.pc, s.fb, s.base)],
       pc := 0, fb := f, base := |s.stk|,
       stk := s.stk + Fresh(s.stale, img[f].nlocal),
       stale := Rest(s.stale, img[f].nlocal))
  }

  predicate CanLeave(img: Image, s: State)
    requires 0 <= s.fb < |img|
  {
    s.fs != [] && img[s.fb].nargs <= s.base <= |s.stk|
  }

  /** `mSP = baseSP; mSP += nargs`, then end_function and the `ppcode++` that follows it. */
  function Leave(img: Image, s: State): State
    requires 0 <= s.fb < |img| && CanLeave(img, s)
  {
    var cut := s.base - img[s.fb].nargs;
    var fr := s.fs[|s.fs| - 1];
    s.(stk := s.stk[..cut], stale := s.stk[cut..] + s.stale,
       fs := s.fs[..|s.fs| - 1], pc := fr.pc + 1, fb := fr.fb, base := fr.base)
  }

  /** Control is back in the context that started the run (START_FB), or the engine has thrown. */
  predicate Halted(img: Image, s: State) { s.trap || !(0 <= s.fb < |img|) }

  function Exec1(img: Image, s: State, i: Instr): State
    requires !Halted(img, s)
  {
    match i
    case End => Next(s)
    case PushI(o) => if Readable(s, o) then Next(Push(s, Load(s, o))) else Trapped(s)
    case PopI(o) =>
      if s.stk != [] && Writable(Pop(s), o) then Next(StoreTo(Pop(s), o, Top(s))) else Trapped(s)
    case IncI(o) => if Writable(s, o) then Next(StoreTo(s, o, Wrap(Load(s, o) + 1))) else Trapped(s)
    case DecI(o) => if Writable(s, o) then Next(StoreTo(s, o, Wrap(Load(s, o) - 1))) else Trapped(s)
    case Dup => if s.stk != [] then Next(Push(s, Top(s))) else Trapped(s)
    case Drop => if s.stk != [] then Next(Pop(s)) else Trapped(s)
    case Alu1(op) => if s.stk != [] then Next(Push(Pop(s), Alu1Of(op, Top(s)))) else Trapped(s)
    case Alu2(op) =>
      if |s.stk| < 2 || Alu2Traps(op, Top(Pop(s)), Top(s)) then Trapped(s)
      else Next(Push(Pop(Pop(s)), Alu2Of(op, Top(Pop(s)), Top(s))))
    case Jump(kind, t) => ExecJump(s, kind, t)
    case JSwitch(block) => if s.stk != [] then Goto(Pop(s), SwitchTarget(block, Top(s))) else Trapped(s)
    case Call(f) => if f < |img| then Enter(img, s, f) else Trapped(s)
    case Ret => if CanLeave(img, s) then Leave(img, s) else Trapped(s)
    case RetI =>
      if CanLeave(img, s) && s.stk != [] then Push(Leave(img, s), Top(s)) else Trapped(s)
  }

  function ExecJump(s: State, kind: JumpKind, t: int): State {
    if kind.JMP? then Goto(s, t)
    else if s.stk == [] then Trapped(s)
    else match kind
      case JZ => if Top(s) == 0 then Goto(Pop(s), t) else Next(Pop(s))
      case JNZ => if Top(s) != 0 then Goto(Pop(s), t) else Next(Pop(s))
      case JZND => if Top(s) == 0 then Goto(s, t) else Next(Pop(s))
      case _ => if Top(s) != 0 then Goto(s, t) else Next(Pop(s))
  }

  /** One turn of the loop in start_exec. */
  function Step(img: Image, s: State): State {
    if Halted(img, s) then s
    else if 0 <= s.pc < |img[s.fb].code| then Exec1(img, s, img[s.fb].code[s.pc])
    else Trapped(s)
  }

  function Run(img: Image, s: State, n: nat): State
    decreases n
  {
    if n == 0 then s else Run(img, Step(img, s), n - 1)
  }

  lemma {:induction false} RunPlus(img: Image, s: State, m: nat, n: nat)
    ensures Run(img, s, m + n) == Run(img, Run(img, s, m), n)
    decreases m
  {
    if m > 0 {
      RunPlus(img, Step(img, s), m - 1, n);
    }
  }

  lemma {:induction false} HaltedStays(img: Image, s: State, n: nat)
    requires Halted(img, s)
    ensures Run(img, s, n) == s
  {
    if n > 0 {
      HaltedStays(img, s, n - 1);
    }
  }

  // ----- the stack as memory -----

  /** The words of the execution stack, live and dead, oldest first; mSP is after the first |stk| of them. */
  function Memory(s: State): seq<int> { s.stk + s.stale }

  /** Popping only moves mSP: what the word held is still there. Pushing writes one word. */
  lemma StackIsMemory(s: State, v: int)
    ensures s.stk != [] ==> Memory(Pop(s)) == Memory(s) && |Pop(s).stk| == |s.stk| - 1
    ensures Push(s, v).stk == s.stk + [v]
    ensures s.stale != [] ==> Memory(Push(s, v)) == Memory(s)[|s.stk| := v]
  {}

  /** So do entering a function, whose locals start with whatever was there, and leaving one. */
  lemma FramesInMemory(img: Image, s: State, f: nat)
    ensures f < |img| ==> Memory(s) <= Memory(Enter(img, s, f)) && |Enter(img, s, f).stk| == |s.stk| + img[f].nlocal
    ensures f < |img| && img[f].nlocal <= |s.stale| ==> Memory(Enter(img, s, f)) == Memory(s)
    ensures 0 <= s.fb < |img| && CanLeave(img, s) ==>
              Memory(Leave(img, s)) == Memory(s) && |Leave(img, s).stk| == s.base - img[s.fb].nargs
  {}

  /** If the machine is still going after n steps it was still going at every earlier one. */
  lemma {:induction false} StillGoing(img: Image, s: State, m: nat, n: nat)
    requires m <= n && !Halted(img, Run(img, s, n))
    ensures !Halted(img, Run(img, s, m))
  {
    RunPlus(img, s, m, n - m);
    if Halted(img, Run(img, s, m)) {
      HaltedStays(img, Run(img, s, m), n - m);
    }
  }
}
