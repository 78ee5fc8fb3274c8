/** The parts of trees and statements, and the compiler's and the language's static conditions said on them: each holds
    exactly when, or at least whenever, every part of some kind is right. */
module Parts {
  import opened Source
  import opened Codegen
  import opened Definedness

  /** x is e or somewhere in it. */
  predicate Part(x: Expr, e: Expr)
    decreases e, 0
  {
    || x == e
    || match e
       case Un(_, a) => Part(x, a)
       case Bin(_, a, b) => Part(x, a) || Part(x, b)
       case Assign(_, a) => Part(x, a)
       case Cond(c, a, b) => Part(x, c) || Part(x, a) || Part(x, b)
       case LogOr(a, b) => Part(x, a) || Part(x, b)
       case LogAnd(a, b) => Part(x, a) || Part(x, b)
       case Comma(a, b) => Part(x, a) || Part(x, b)
       case CallE(_, args) => PartArgs(x, args)
       case _ => false
  }

  predicate PartArgs(x: Expr, args: seq<Expr>)
    decreases args, 0
  {
    args != [] && (Part(x, args[|args| - 1]) || PartArgs(x, args[..|args| - 1]))
  }

  /** e is one of the expressions statement s is made of. */
  predicate In(e: Expr, s: Stmt)
    decreases s
  {
    match s
    case ExprS(a) => e == a
    case Seq(a, b) => In(e, a) || In(e, b)
    case Block(a) => In(e, a)
    case If(c, a) => e == c || In(e, a)
    case IfElse(c, a, b) => e == c || In(e, a) || In(e, b)
    case While(c, a) => e == c || In(e, a)
    case DoWhile(a, c) => e == c || In(e, a)
    case For(i, c, n, a) => i == Some(e) || e == c || n == Some(e) || In(e, a)
    case Switch(c, arms) => e == c || InArms(e, arms)
    case Return(r) => r == Some(e)
    case _ => false
  }

  predicate InArms(e: Expr, arms: Arms)
    decreases arms
  {
    arms.Arm? && (In(e, arms.s) || InArms(e, arms.rest))
  }

  /** The value of e is thrown away: an expression statement, or the first or third part of a for. */
  predicate Thrown(e: Expr, s: Stmt)
    decreases s
  {
    match s
    case ExprS(a) => e == a
    case Seq(a, b) => Thrown(e, a) || Thrown(e, b)
    case Block(a) => Thrown(e, a)
    case If(_, a) => Thrown(e, a)
    case IfElse(_, a, b) => Thrown(e, a) || Thrown(e, b)
    case While(_, a) => Thrown(e, a)
    case DoWhile(a, _) => Thrown(e, a)
    case For(i, _, n, a) => i == Some(e) || n == Some(e) || Thrown(e, a)
    case Switch(_, arms) => ThrownArms(e, arms)
    case _ => false
  }

  predicate ThrownArms(e: Expr, arms: Arms)
    decreases arms
  {
    arms.Arm? && (Thrown(e, arms.s) || ThrownArms(e, arms.rest))
  }

  /** x is what e comes down to, on some path. */
  predicate Ends(x: Expr, e: Expr)
    decreases e
  {
    match e
    case Comma(_, b) => Ends(x, b)
    case Cond(_, a, b) => Ends(x, a) || Ends(x, b)
    case _ => x == e
  }

  // ----- DROP_VALUE -----

  predicate Ender(x: Expr) { x.Assign? || x.IncDec? || x.CallE? }

  lemma {:induction false} HonoursEnds(e: Expr, x: Expr)
    requires Honours(e) && Ends(x, e)
    ensures Ender(x)
    decreases e
  {
    match e
    case Comma(_, b) => HonoursEnds(b, x);
    case Cond(_, a, b) => HonoursEnds(if Ends(x, a) then a else b, x);
    case _ =>
  }

  /** A path of e that ends in something else, unless it honours the flag. */
  lemma {:induction false} OtherEnd(e: Expr)
    returns (x: Expr)
    ensures Ends(x, e) && (!Honours(e) ==> !Ender(x))
    decreases e
  {
    match e
    case Comma(_, b) => x := OtherEnd(b);
    case Cond(_, a, b) =>
      x := OtherEnd(if Honours(a) then b else a);
    case _ => x := e;
  }

  /** A tree honours DROP_VALUE exactly when every path ends in an assignment, an increment or a call. */
  lemma HonoursExactly(e: Expr)
    ensures Honours(e) <==> forall x :: Ends(x, e) ==> Ender(x)
  {
    hide Honours, Ends, Ender;
    var y := OtherEnd(e);
    forall x | Honours(e) && Ends(x, e)
      ensures Ender(x)
    {
      HonoursEnds(e, x);
    }
  }

  /** What a part must be for the tree to be clean. */
  ghost predicate Neat(x: Expr, good: iset<nat>) { (x.Comma? ==> Honours(x.e1)) && (x.CallE? ==> x.f in good) }

  lemma {:induction false} CleanParts(e: Expr, good: iset<nat>, x: Expr)
    requires Clean(e, good) && Part(x, e)
    ensures Neat(x, good)
    decreases e, 0
  {
    hide Honours;
    if x != e {
      match e
      case Un(_, a) => CleanParts(a, good, x);
      case Bin(_, a, b) => CleanParts(if Part(x, a) then a else b, good, x);
      case Assign(_, a) => CleanParts(a, good, x);
      case Cond(c, a, b) => CleanParts(if Part(x, c) then c else if Part(x, a) then a else b, good, x);
      case LogOr(a, b) => CleanParts(if Part(x, a) then a else b, good, x);
      case LogAnd(a, b) => CleanParts(if Part(x, a) then a else b, good, x);
      case Comma(a, b) => CleanParts(if Part(x, a) then a else b, good, x);
      case CallE(_, args) => CleanArgParts(args, good, x);
      case _ =>
    }
  }

  lemma {:induction false} CleanArgParts(args: seq<Expr>, good: iset<nat>, x: Expr)
    requires CleanArgs(args, good) && PartArgs(x, args)
    ensures Neat(x, good)
    decreases args, 0
  {
    hide Clean, Neat;
    if Part(x, args[|args| - 1]) {
      CleanParts(args[|args| - 1], good, x);
    } else {
      CleanArgParts(args[..|args| - 1], good, x);
    }
  }

  /** A part that is not, unless the tree is clean. */
  lemma {:induction false} UncleanPart(e: Expr, good: iset<nat>)
    returns (x: Expr)
    ensures Part(x, e) && (!Clean(e, good) ==> !Neat(x, good))
    decreases e, 0
  {
    hide Honours;
    x := e;
    if Neat(e, good) {
      match e
      case Un(_, a) => x := UncleanPart(a, good);
      case Bin(_, a, b) => x := UncleanPart(if Clean(a, good) then b else a, good);
      case Assign(_, a) => x := UncleanPart(a, good);
      case Cond(c, a, b) =>
        x := UncleanPart(if !Clean(c, good) then c else if !Clean(a, good) then a else b, good);
      case LogOr(a, b) => x := UncleanPart(if Clean(a, good) then b else a, good);
      case LogAnd(a, b) => x := UncleanPart(if Clean(a, good) then b else a, good);
      case Comma(a, b) => x := UncleanPart(if Clean(a, good) then b else a, good);
      case CallE(_, args) =>
        if args != [] {
          x := UncleanArg(args, good);
        } else {
          assert CleanArgs(args, good);
        }
      case _ =>
    }
  }

  lemma {:induction false} UncleanArg(args: seq<Expr>, good: iset<nat>)
    returns (x: Expr)
    requires args != []
    ensures PartArgs(x, args) && (!CleanArgs(args, good) ==> !Neat(x, good))
    decreases args, 0
  {
    hide Clean, Neat;
    var m := |args| - 1;
    assert args[..0] == [] && CleanArgs([], good);
    if Clean(args[m], good) && m > 0 {
      x := UncleanArg(args[..m], good);
    } else {
      x := UncleanPart(args[m], good);
    }
  }

  /** A tree is clean exactly when every comma's left side honours DROP_VALUE and every call is of a function in
      `good`. */
  lemma CleanExactly(e: Expr, good: iset<nat>)
    ensures Clean(e, good) <==> forall x :: Part(x, e) ==> Neat(x, good)
  {
    hide Clean, Part, Neat;
    var y := UncleanPart(e, good);
    forall x | Clean(e, good) && Part(x, e)
      ensures Neat(x, good)
    {
      CleanParts(e, good, x);
    }
  }

  /** A statement's expressions are clean, and those it throws away honour the flag, when it is clean, and tidy. */
  lemma {:induction false} StatementIn(s: Stmt, good: iset<nat>, e: Expr)
    ensures CleanS(s, good) && In(e, s) ==> Clean(e, good)
    ensures Tidy(s) && Thrown(e, s) ==> Honours(e)
    decreases s
  {
    hide Honours, Clean;
    match s
    case Seq(a, b) =>
      StatementIn(a, good, e);
      StatementIn(b, good, e);
    case Block(a) => StatementIn(a, good, e);
    case If(_, a) => StatementIn(a, good, e);
    case IfElse(_, a, b) =>
      StatementIn(a, good, e);
      StatementIn(b, good, e);
    case While(_, a) => StatementIn(a, good, e);
    case DoWhile(a, _) => StatementIn(a, good, e);
    case For(_, _, _, a) => StatementIn(a, good, e);
    case Switch(_, arms) => ArmsIn(arms, good, e);
    case _ =>
  }

  lemma {:induction false} ArmsIn(arms: Arms, good: iset<nat>, e: Expr)
    ensures CleanArms(arms, good) && InArms(e, arms) ==> Clean(e, good)
    ensures TidyArms(arms) && ThrownArms(e, arms) ==> Honours(e)
    decreases arms
  {
    hide Honours, Clean, CleanS, Tidy;
    if arms.Arm? {
      StatementIn(arms.s, good, e);
      ArmsIn(arms.rest, good, e);
    }
  }

  /** One that is not, when the statement is not. */
  lemma {:induction false} UncleanIn(s: Stmt, good: iset<nat>)
    returns (e: Expr)
    requires !CleanS(s, good)
    ensures In(e, s) && !Clean(e, good)
    decreases s
  {
    hide Clean;
    match s
    case ExprS(a) => e := a;
    case Seq(a, b) => e := UncleanIn(if CleanS(a, good) then b else a, good);
    case Block(a) => e := UncleanIn(a, good);
    case If(c, a) => if Clean(c, good) { e := UncleanIn(a, good); } else { e := c; }
    case IfElse(c, a, b) =>
      if Clean(c, good) { e := UncleanIn(if CleanS(a, good) then b else a, good); } else { e := c; }
    case While(c, a) => if Clean(c, good) { e := UncleanIn(a, good); } else { e := c; }
    case DoWhile(a, c) => if Clean(c, good) { e := UncleanIn(a, good); } else { e := c; }
    case For(i, c, n, a) =>
      if !CleanOpt(i, good) { e := i.value; }
      else if !CleanOpt(n, good) { e := n.value; }
      else if !Clean(c, good) { e := c; }
      else { e := UncleanIn(a, good); }
    case Switch(c, arms) => if Clean(c, good) { e := UncleanInArms(arms, good); } else { e := c; }
    case Return(r) => e := r.value;
  }

  lemma {:induction false} UncleanInArms(arms: Arms, good: iset<nat>)
    returns (e: Expr)
    requires !CleanArms(arms, good)
    ensures InArms(e, arms) && !Clean(e, good)
    decreases arms
  {
    hide Clean, CleanS;
    if CleanS(arms.s, good) {
      e := UncleanInArms(arms.rest, good);
    } else {
      e := UncleanIn(arms.s, good);
    }
  }

  lemma {:induction false} UntidyIn(s: Stmt)
    returns (e: Expr)
    requires !Tidy(s)
    ensures Thrown(e, s) && !Honours(e)
    decreases s
  {
    hide Honours;
    match s
    case ExprS(a) => e := a;
    case Seq(a, b) => e := UntidyIn(if Tidy(a) then b else a);
    case Block(a) => e := UntidyIn(a);
    case If(_, a) => e := UntidyIn(a);
    case IfElse(_, a, b) => e := UntidyIn(if Tidy(a) then b else a);
    case While(_, a) => e := UntidyIn(a);
    case DoWhile(a, _) => e := UntidyIn(a);
    case For(i, _, n, a) =>
      if i.Some? && !Honours(i.value) { e := i.value; }
      else if n.Some? && !Honours(n.value) { e := n.value; }
      else { e := UntidyIn(a); }
    case Switch(_, arms) => e := UntidyInArms(arms);
  }

  lemma {:induction false} UntidyInArms(arms: Arms)
    returns (e: Expr)
    requires !TidyArms(arms)
    ensures ThrownArms(e, arms) && !Honours(e)
    decreases arms
  {
    hide Honours, Tidy;
    if Tidy(arms.s) {
      e := UntidyInArms(arms.rest);
    } else {
      e := UntidyIn(arms.s);
    }
  }

  /** A statement is clean exactly when its expressions are, and tidy exactly when those it throws away honour the
      flag. */
  lemma StatementExactly(s: Stmt, good: iset<nat>)
    ensures CleanS(s, good) <==> forall e :: In(e, s) ==> Clean(e, good)
    ensures Tidy(s) <==> forall e :: Thrown(e, s) ==> Honours(e)
  {
    hide CleanS, In, Clean, Tidy, Thrown, Honours;
    if !CleanS(s, good) {
      var e := UncleanIn(s, good);
    }
    if !Tidy(s) {
      var e := UntidyIn(s);
    }
    forall e
      ensures CleanS(s, good) && In(e, s) ==> Clean(e, good)
      ensures Tidy(s) && Thrown(e, s) ==> Honours(e)
    {
      StatementIn(s, good, e);
    }
  }

  // ----- jumps -----

  /** There is a break, or a continue, anywhere in s. */
  predicate Has(s: Stmt, isBreak: bool)
    decreases s
  {
    match s
    case Seq(a, b) => Has(a, isBreak) || Has(b, isBreak)
    case Block(a) => Has(a, isBreak)
    case If(_, a) => Has(a, isBreak)
    case IfElse(_, a, b) => Has(a, isBreak) || Has(b, isBreak)
    case While(_, a) => Has(a, isBreak)
    case DoWhile(a, _) => Has(a, isBreak)
    case For(_, _, _, a) => Has(a, isBreak)
    case Switch(_, arms) => ArmsHave(arms, isBreak)
    case Break => isBreak
    case Continue => !isBreak
    case _ => false
  }

  predicate ArmsHave(arms: Arms, isBreak: bool)
    decreases arms
  {
    arms.Arm? && (Has(arms.s, isBreak) || ArmsHave(arms.rest, isBreak))
  }

  /** Nothing leaves a statement that has no such jump, nor a loop, nor, by a break, a switch; and a statement without
      jumps needs no braces. */
  lemma {:induction false} EscapesOnlyWith(s: Stmt, isBreak: bool)
    ensures Escapes(s, isBreak) ==> Has(s, isBreak) && !s.While? && !s.DoWhile? && !s.For? && (isBreak ==> !s.Switch?)
    ensures !Has(s, true) && !Has(s, false) ==> Braced(s)
    decreases s, 0
  {
    match s
    case Seq(a, b) =>
      EscapesOnlyWith(a, isBreak);
      EscapesOnlyWith(b, isBreak);
    case Block(a) => EscapesOnlyWith(a, isBreak);
    case If(_, a) => EscapesOnlyWith(a, isBreak);
    case IfElse(_, a, b) =>
      EscapesOnlyWith(a, isBreak);
      EscapesOnlyWith(b, isBreak);
    case While(_, a) => BodyEscapes(a);
    case DoWhile(a, _) => BodyEscapes(a);
    case For(_, _, _, a) => BodyEscapes(a);
    case Switch(_, arms) => ArmsEscapeOnlyWith(arms, isBreak);
    case _ =>
  }

  lemma {:induction false} BodyEscapes(s: Stmt)
    ensures !Has(s, true) && !Has(s, false) ==> BracedBody(s)
    decreases s, 1
  {
    hide Escapes, Has;
    EscapesOnlyWith(s, true);
    EscapesOnlyWith(s, false);
  }

  lemma {:induction false} ArmsEscapeOnlyWith(arms: Arms, isBreak: bool)
    ensures ArmsEscape(arms, isBreak) ==> ArmsHave(arms, isBreak)
    ensures !ArmsHave(arms, true) && !ArmsHave(arms, false) ==> BracedArms(arms)
    decreases arms, 0
  {
    hide Escapes, Has, Braced;
    if arms.Arm? {
      EscapesOnlyWith(arms.s, isBreak);
      ArmsEscapeOnlyWith(arms.rest, isBreak);
    }
  }

  // ----- the checks of Definedness pass -----

  /** A part that can do no harm: it reads locals in `known` only, and calls functions that return a value, with as many
      arguments as they take. */
  predicate Harmless(p: Prog, n: nat, fn: Fun, x: Expr, known: set<int>) {
    match x
    case Ref(v) => Given(n, fn, v, known)
    case IncDec(v, _, _) => Given(n, fn, v, known)
    case Assign(v, _) => Declared(n, fn, v)
    case CallE(f, args) => f < |p| && |args| == p[f].nargs && !p[f].isVoid
    case _ => true
  }

  lemma HarmlessMore(p: Prog, n: nat, fn: Fun, x: Expr, known: set<int>, more: set<int>)
    requires Harmless(p, n, fn, x, known) && known <= more
    ensures Harmless(p, n, fn, x, more)
  {}

  ghost predicate AllHarmless(p: Prog, n: nat, fn: Fun, e: Expr, known: set<int>) {
    forall x :: Part(x, e) ==> Harmless(p, n, fn, x, known)
  }

  /** An expression made of such parts passes. */
  lemma {:induction false} HarmlessPasses(p: Prog, n: nat, fn: Fun, e: Expr, known: set<int>, now: set<int>)
    requires AllHarmless(p, n, fn, e, known) && known <= now
    ensures Used(p, n, fn, e, now)
    decreases e, 1
  {
    assert Part(e, e);
    HarmlessMore(p, n, fn, e, known, now);
    hide Harmless;
    match e
    case Un(_, a) => HarmlessPasses(p, n, fn, a, known, now);
    case Assign(_, a) =>
      HarmlessPasses(p, n, fn, a, known, now);
      PlainPasses(p, n, fn, e, known, now);
    case Bin(_, a, b) => PairPasses(p, n, fn, e, known, now);
    case LogOr(a, b) => PairPasses(p, n, fn, e, known, now);
    case LogAnd(a, b) => PairPasses(p, n, fn, e, known, now);
    case Comma(a, b) => PairPasses(p, n, fn, e, known, now);
    case Cond(c, a, b) =>
      HarmlessPasses(p, n, fn, c, known, now);
      HarmlessPasses(p, n, fn, a, known, Gains(c, now));
      HarmlessPasses(p, n, fn, b, known, Gains(c, now));
    case CallE(_, args) =>
      ArgsPass(p, n, fn, args, known, now);
      PlainPasses(p, n, fn, e, known, now);
    case _ => PlainPasses(p, n, fn, e, known, now);
  }

  lemma PlainPasses(p: Prog, n: nat, fn: Fun, e: Expr, known: set<int>, now: set<int>)
    requires Harmless(p, n, fn, e, now)
    requires e.Assign? ==> Used(p, n, fn, e.e, now)
    requires e.CallE? ==> CheckedArgs(p, n, fn, e.args, now)
    requires e.Const? || e.Ref? || e.IncDec? || e.Assign? || e.CallE?
    ensures Used(p, n, fn, e, now)
  {}

  lemma {:induction false} PairPasses(p: Prog, n: nat, fn: Fun, e: Expr, known: set<int>, now: set<int>)
    requires (e.Bin? || e.LogOr? || e.LogAnd? || e.Comma?) && AllHarmless(p, n, fn, e, known) && known <= now
    ensures Used(p, n, fn, e, now)
    decreases e, 0
  {
    hide Harmless;
    assert AllHarmless(p, n, fn, e.e1, known) && AllHarmless(p, n, fn, e.e2, known);
    HarmlessPasses(p, n, fn, e.e1, known, now);
    HarmlessPasses(p, n, fn, e.e2, known, Gains(e.e1, now));
  }

  lemma {:induction false} ArgsPass(p: Prog, n: nat, fn: Fun, args: seq<Expr>, known: set<int>, now: set<int>)
    requires (forall x :: PartArgs(x, args) ==> Harmless(p, n, fn, x, known)) && known <= now
    ensures CheckedArgs(p, n, fn, args, now)
    decreases args, 0
  {
    hide Harmless;
    if args != [] {
      var m := |args| - 1;
      HarmlessPasses(p, n, fn, args[m], known, now);
      ArgsPass(p, n, fn, args[..m], known, Gains(args[m], now));
    }
  }

  /** Every `return` in s has a value. */
  predicate ReturnsValues(s: Stmt)
    decreases s
  {
    match s
    case Seq(a, b) => ReturnsValues(a) && ReturnsValues(b)
    case Block(a) => ReturnsValues(a)
    case If(_, a) => ReturnsValues(a)
    case IfElse(_, a, b) => ReturnsValues(a) && ReturnsValues(b)
    case While(_, a) => ReturnsValues(a)
    case DoWhile(a, _) => ReturnsValues(a)
    case For(_, _, _, a) => ReturnsValues(a)
    case Switch(_, arms) => ArmsReturnValues(arms)
    case Return(r) => r.Some?
    case _ => true
  }

  predicate ArmsReturnValues(arms: Arms)
    decreases arms
  {
    arms.Arm? ==> ReturnsValues(arms.s) && ArmsReturnValues(arms.rest)
  }

  ghost predicate AllHarmlessS(p: Prog, n: nat, fn: Fun, s: Stmt, known: set<int>) {
    forall e :: In(e, s) ==> AllHarmless(p, n, fn, e, known)
  }

  /** A statement whose expressions are made of such parts, and whose returns have values, passes in a function that
      owes one, whatever its shape. */
  lemma {:induction false} StatementPasses(p: Prog, n: nat, fn: Fun, s: Stmt, known: set<int>, now: set<int>)
    requires AllHarmlessS(p, n, fn, s, known) && ReturnsValues(s) && !fn.isVoid && known <= now
    ensures CheckedS(p, n, fn, s, now)
    decreases s
  {
    hide AllHarmless, Gains, Checked, Valued;
    match s
    case ExprS(e) =>
      assert In(e, s);
      HarmlessPasses(p, n, fn, e, known, now);
    case Seq(a, b) =>
      StatementPasses(p, n, fn, a, known, now);
      StatementPasses(p, n, fn, b, known, Leaves(a, now));
    case Block(a) => StatementPasses(p, n, fn, a, known, now);
    case If(c, a) =>
      assert In(c, s);
      HarmlessPasses(p, n, fn, c, known, now);
      StatementPasses(p, n, fn, a, known, Gains(c, now));
    case IfElse(c, a, b) =>
      assert In(c, s);
      HarmlessPasses(p, n, fn, c, known, now);
      StatementPasses(p, n, fn, a, known, Gains(c, now));
      StatementPasses(p, n, fn, b, known, Gains(c, now));
    case While(c, a) =>
      assert In(c, s);
      HarmlessPasses(p, n, fn, c, known, now);
      StatementPasses(p, n, fn, a, known, Gains(c, now));
    case DoWhile(a, c) =>
      assert In(c, s);
      HarmlessPasses(p, n, fn, c, known, now);
      StatementPasses(p, n, fn, a, known, now);
    case For(_, _, _, _) => ForPasses(p, n, fn, s, known, now);
    case Switch(c, arms) =>
      assert In(c, s);
      HarmlessPasses(p, n, fn, c, known, now);
      ArmsPassAll(p, n, fn, arms, known, Gains(c, now));
    case Return(r) =>
      assert In(r.value, s);
      HarmlessPasses(p, n, fn, r.value, known, now);
    case _ =>
  }

  lemma {:induction false} ForPasses(p: Prog, n: nat, fn: Fun, s: Stmt, known: set<int>, now: set<int>)
    requires s.For? && AllHarmlessS(p, n, fn, s, known) && ReturnsValues(s) && !fn.isVoid && known <= now
    ensures CheckedS(p, n, fn, s, now)
    decreases s, 0
  {
    hide AllHarmless, Gains, Checked, Valued;
    if s.init.Some? {
      assert In(s.init.value, s);
      HarmlessPasses(p, n, fn, s.init.value, known, now);
    }
    var k := GainsOpt(s.init, now);
    assert In(s.c, s);
    HarmlessPasses(p, n, fn, s.c, known, k);
    if s.inc.Some? {
      assert In(s.inc.value, s);
      HarmlessPasses(p, n, fn, s.inc.value, known, Gains(s.c, k));
    }
    StatementPasses(p, n, fn, s.s, known, Gains(s.c, k));
  }

  lemma {:induction false} ArmsPassAll(p: Prog, n: nat, fn: Fun, arms: Arms, known: set<int>, now: set<int>)
    requires (forall e :: InArms(e, arms) ==> AllHarmless(p, n, fn, e, known)) && ArmsReturnValues(arms)
    requires !fn.isVoid && known <= now
    ensures CheckedArms(p, n, fn, arms, now)
    decreases arms
  {
    hide AllHarmless, CheckedS, ReturnsValues;
    if arms.Arm? {
      StatementPasses(p, n, fn, arms.s, known, now);
      ArmsPassAll(p, n, fn, arms.rest, known, now);
    }
  }
}
