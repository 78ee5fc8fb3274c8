/** The object destruction stack and exceptions (underc/sourcecode/src/engine.cpp). */
module Unwind {
  /** A destruction record: the class whose destructor is due, the object, and how many frames were saved when it was
      pushed. The engine does not keep that number, and nothing here computes with it. */
  datatype Record = Record(cls: nat, obj: nat, depth: nat)

  datatype Regs = Regs(op: nat, fb: int, pc: int, base: int, sp: int)

  /** What comes of a popped record: the class has no destructor, or its destructor ran and left the registers
      somewhere, or the entry was no class at all, or the destructor threw. Destructors leave the records that
      were there before them alone. */
  datatype Outcome = NoDestructor | Ran(after: Regs) | BadEntry | Threw(at: Regs)
  type Destructors = Record -> Outcome

  datatype Stack = Stack(ods: seq<Record>, regs: Regs, ran: seq<Record>)

  // ----- do_unwind as a function -----

  predicate OnStack(ods: seq<Record>, p: nat) { exists i :: 0 <= i < |ods| && ods[i].obj == p }

  /** The unwinding loop: `saved` is what the registers were before it. */
  function Popping(s: Stack, p: nat, dtor: Destructors, saved: Regs): Stack
    requires s.ods != []
    decreases |s.ods|, 0
  {
    var n := |s.ods| - 1;
    var rec := s.ods[n];
    var popped := s.(ods := s.ods[..n], regs := s.regs.(op := rec.obj));
    match dtor(rec)
    case BadEntry => popped.(regs := saved)
    case Threw(r) => popped.(regs := r, ran := s.ran + [rec])
    case NoDestructor => Onward(popped, rec, p, dtor, saved)
    case Ran(r) => Onward(popped.(regs := r, ran := s.ran + [rec]), rec, p, dtor, saved)
  }

  function Onward(s: Stack, rec: Record, p: nat, dtor: Destructors, saved: Regs): Stack
    decreases |s.ods|, 1
  {
    if rec.obj != p && s.ods != [] then Popping(s, p, dtor, saved) else s.(regs := saved)
  }

  /** p == 0 asks for everything; a p that is not on the stack for nothing. */
  function Unwound(s: Stack, p: nat, dtor: Destructors): Stack {
    if s.ods == [] || (p != 0 && !OnStack(s.ods, p)) then s else Popping(s, p, dtor, s.regs)
  }

  // ----- what it means -----

  /** Where unwinding down to p stops: the topmost record for p, or the bottom. */
  function StopAt(ods: seq<Record>, p: nat): (k: nat)
    ensures k <= |ods| && (ods != [] ==> k < |ods|)
    ensures forall i :: k < i < |ods| ==> ods[i].obj != p
    ensures k > 0 ==> ods[k].obj == p
  {
    if ods == [] then 0
    else if ods[|ods| - 1].obj == p then |ods| - 1
    else StopAt(ods[..|ods| - 1], p)
  }

  predicate Fine(rec: Record, dtor: Destructors) { dtor(rec).NoDestructor? || dtor(rec).Ran? }
  predicate AllFine(ods: seq<Record>, dtor: Destructors) { forall i :: 0 <= i < |ods| ==> Fine(ods[i], dtor) }

  /** The records whose destructors run when all of `ods` is unwound: newest first. */
  function Due(ods: seq<Record>, dtor: Destructors): seq<Record> {
    if ods == [] then []
    else One(ods[|ods| - 1], dtor) + Due(ods[..|ods| - 1], dtor)
  }

  /** The newest record from k up whose destruction goes wrong, or -1. */
  function FailsAt(ods: seq<Record>, k: nat, dtor: Destructors): (f: int)
    requires k <= |ods|
    ensures f == -1 <==> AllFine(ods[k..], dtor)
    ensures f != -1 ==> k <= f < |ods| && !Fine(ods[f], dtor) && AllFine(ods[f + 1..], dtor)
    decreases |ods|
  {
    if k == |ods| then -1
    else
      var n := |ods| - 1;
      if !Fine(ods[n], dtor) then n
      else
        var f := FailsAt(ods[..n], k, dtor);
        assert ods[k..] == ods[..n][k..] + [ods[n]];
        assert f != -1 ==> ods[f + 1..] == ods[..n][f + 1..] + [ods[n]];
        f
  }

  /** The records above j are gone, each destroyed in its turn. */
  lemma {:induction false} PopTo(s: Stack, p: nat, dtor: Destructors, saved: Regs, j: nat)
    returns (t: Stack)
    requires StopAt(s.ods, p) <= j < |s.ods| && AllFine(s.ods[j + 1..], dtor)
    ensures t.ods == s.ods[..j + 1] && t.ran == s.ran + Due(s.ods[j + 1..], dtor)
    ensures Popping(s, p, dtor, saved) == Popping(t, p, dtor, saved)
    decreases |s.ods|
  {
    hide Popping, Due, StopAt, AllFine, Fine, One;
    var n := |s.ods| - 1;
    if j == n {
      t := s;
      DueNone(s.ods[j + 1..], dtor);
      assert s.ods[..j + 1] == s.ods && s.ran + [] == s.ran;
    } else {
      var rec := s.ods[n];
      FineAt(s.ods, j + 1, n, dtor);
      DueTop(s.ods, j + 1, dtor);
      PopOne(s, p, dtor, saved);
      StopInPrefix(s.ods, n, p);
      var regs := if dtor(rec).Ran? then dtor(rec).after else s.regs.(op := rec.obj);
      FineBelow(s.ods, j + 1, dtor);
      t := PopTo(Stack(s.ods[..n], regs, s.ran + One(rec, dtor)), p, dtor, saved, j);
      assert s.ods[..n][..j + 1] == s.ods[..j + 1];
    }
  }

  /** Unwinding destroys every record down to and including the topmost one for p, newest first, once each, leaves the
      records below alone and puts every register back. An entry that is no class stops it there, registers put back;
      so does a destructor that throws, with the registers as that left them. */
  lemma UnwindExactly(s: Stack, p: nat, dtor: Destructors, saved: Regs)
    requires s.ods != []
    ensures var k := StopAt(s.ods, p);
            var f := FailsAt(s.ods, k, dtor);
            && (f == -1 ==> Popping(s, p, dtor, saved) == Stack(s.ods[..k], saved, s.ran + Due(s.ods[k..], dtor)))
            && (f != -1 && dtor(s.ods[f]).BadEntry? ==>
                  Popping(s, p, dtor, saved) == Stack(s.ods[..f], saved, s.ran + Due(s.ods[f + 1..], dtor)))
            && (f != -1 && dtor(s.ods[f]).Threw? ==>
                  Popping(s, p, dtor, saved)
                  == Stack(s.ods[..f], dtor(s.ods[f]).at, s.ran + Due(s.ods[f + 1..], dtor) + [s.ods[f]]))
  {
    hide Popping, Due, StopAt, FailsAt, AllFine;
    var f := FailsAt(s.ods, StopAt(s.ods, p), dtor);
    if f == -1 {
      UnwindAll(s, p, dtor, saved);
    } else {
      var t := PopTo(s, p, dtor, saved, f);
      PopWrong(t, p, dtor, saved);
      assert t.ods[..f] == s.ods[..f] && t.ods[f] == s.ods[f];
    }
  }

  lemma UnwindAll(s: Stack, p: nat, dtor: Destructors, saved: Regs)
    requires s.ods != [] && AllFine(s.ods[StopAt(s.ods, p)..], dtor)
    ensures var k := StopAt(s.ods, p);
            Popping(s, p, dtor, saved) == Stack(s.ods[..k], saved, s.ran + Due(s.ods[k..], dtor))
  {
    hide Popping, Due, StopAt, AllFine, Fine, One;
    var k := StopAt(s.ods, p);
    FineAt(s.ods, k, k, dtor);
    FineAbove(s.ods, k, dtor);
    var t := PopTo(s, p, dtor, saved, k);
    PopOne(t, p, dtor, saved);
    assert s.ods[k..] == [s.ods[k]] + s.ods[k + 1..] && t.ods[..k] == s.ods[..k] && t.ods[k] == s.ods[k];
    DueConcat([s.ods[k]], s.ods[k + 1..], dtor);
    DueSingle(s.ods[k], dtor);
  }

  /** A last pop that goes wrong. */
  lemma PopWrong(s: Stack, p: nat, dtor: Destructors, saved: Regs)
    requires s.ods != []
    ensures var n := |s.ods| - 1;
            && (dtor(s.ods[n]).BadEntry? ==> Popping(s, p, dtor, saved) == Stack(s.ods[..n], saved, s.ran))
            && (dtor(s.ods[n]).Threw? ==>
                  Popping(s, p, dtor, saved) == Stack(s.ods[..n], dtor(s.ods[n]).at, s.ran + [s.ods[n]]))
  {
    hide Onward;
  }

  lemma FineAt(ods: seq<Record>, k: nat, i: nat, dtor: Destructors)
    requires k <= i < |ods| && AllFine(ods[k..], dtor)
    ensures Fine(ods[i], dtor)
  {
    assert ods[k..][i - k] == ods[i];
  }

  lemma FineAbove(ods: seq<Record>, k: nat, dtor: Destructors)
    requires k < |ods| && AllFine(ods[k..], dtor)
    ensures AllFine(ods[k + 1..], dtor)
  {
    assert ods[k + 1..] == ods[k..][1..];
  }

  lemma DueSingle(rec: Record, dtor: Destructors)
    ensures Due([rec], dtor) == One(rec, dtor)
  {
    assert [rec][..0] == [];
  }

  lemma UnwindDestroys(s: Stack, p: nat, dtor: Destructors, saved: Regs)
    requires s.ods != [] && AllFine(s.ods[StopAt(s.ods, p)..], dtor)
    ensures var k := StopAt(s.ods, p);
            Popping(s, p, dtor, saved) == Stack(s.ods[..k], saved, s.ran + Due(s.ods[k..], dtor))
  {
    hide Popping, Due, StopAt;
    UnwindExactly(s, p, dtor, saved);
  }

  /** A p that is not there changes nothing; 0 goes down to the bottom, or to a record for address 0. */
  lemma UnwoundExactly(s: Stack, p: nat, dtor: Destructors)
    ensures s.ods == [] || (p != 0 && forall i :: 0 <= i < |s.ods| ==> s.ods[i].obj != p) ==> Unwound(s, p, dtor) == s
    ensures s.ods != [] && (p == 0 || exists i :: 0 <= i < |s.ods| && s.ods[i].obj == p) ==>
              Unwound(s, p, dtor) == Popping(s, p, dtor, s.regs)
    ensures AllFine(s.ods, dtor) && (forall i :: 0 <= i < |s.ods| ==> s.ods[i].obj != 0) ==>
              Unwound(s, 0, dtor) == Stack([], s.regs, s.ran + Due(s.ods, dtor))
  {
    hide Popping, Due;
    if s.ods != [] && AllFine(s.ods, dtor) && (forall i :: 0 <= i < |s.ods| ==> s.ods[i].obj != 0) {
      assert s.ods[0..] == s.ods && s.ods[..0] == [];
      UnwindDestroys(s, 0, dtor, s.regs);
    } else if s.ods == [] {
      DueNone(s.ods, dtor);
    }
  }

  function One(rec: Record, dtor: Destructors): seq<Record> { if dtor(rec).NoDestructor? then [] else [rec] }

  lemma PopOne(s: Stack, p: nat, dtor: Destructors, saved: Regs)
    requires s.ods != [] && Fine(s.ods[|s.ods| - 1], dtor)
    ensures var n := |s.ods| - 1;
            var rec := s.ods[n];
            var regs := if dtor(rec).Ran? then dtor(rec).after else s.regs.(op := rec.obj);
            var t := Stack(s.ods[..n], regs, s.ran + One(rec, dtor));
            Popping(s, p, dtor, saved)
            == if rec.obj != p && n > 0 then Popping(t, p, dtor, saved) else Stack(s.ods[..n], saved, t.ran)
  {
    assert s.ran + [] == s.ran;
  }

  lemma FineBelow(ods: seq<Record>, k: nat, dtor: Destructors)
    requires k < |ods| && AllFine(ods[k..], dtor)
    ensures AllFine(ods[..|ods| - 1][k..], dtor)
  {
    assert ods[..|ods| - 1][k..] == ods[k..][..|ods| - 1 - k];
  }

  lemma DueTop(ods: seq<Record>, k: nat, dtor: Destructors)
    requires k < |ods|
    ensures Due(ods[k..], dtor) == One(ods[|ods| - 1], dtor) + Due(ods[..|ods| - 1][k..], dtor)
  {
    assert ods[..|ods| - 1][k..] == ods[k..][..|ods[k..]| - 1];
  }

  lemma DueNone(ods: seq<Record>, dtor: Destructors)
    requires ods == []
    ensures Due(ods, dtor) == []
  {}

  lemma SumOfParts(a: seq<Record>, b: seq<Record>)
    ensures multiset(a + b) == multiset(a) + multiset(b)
  {}

  lemma OneCounts(top: Record, dtor: Destructors, rec: Record)
    ensures multiset(One(top, dtor))[rec] == if dtor(rec).NoDestructor? then 0 else multiset([top])[rec]
  {}

  /** How often a record is due: once for each time it is on the stack and its class has a destructor. */
  lemma {:induction false} DueOnce(ods: seq<Record>, dtor: Destructors, rec: Record)
    ensures multiset(Due(ods, dtor))[rec] == if dtor(rec).NoDestructor? then 0 else multiset(ods)[rec]
  {
    hide One;
    if ods != [] {
      var n := |ods| - 1;
      DueOnce(ods[..n], dtor, rec);
      assert ods == ods[..n] + [ods[n]];
      SumOfParts(ods[..n], [ods[n]]);
      SumOfParts(One(ods[n], dtor), Due(ods[..n], dtor));
      OneCounts(ods[n], dtor, rec);
    }
  }

  /** Newest first: of two records that are due, the one pushed later is destroyed earlier. */
  lemma {:induction false} DueConcat(a: seq<Record>, b: seq<Record>, dtor: Destructors)
    ensures Due(a + b, dtor) == Due(b, dtor) + Due(a, dtor)
    decreases |b|
  {
    if b == [] {
      assert a + b == a;
    } else {
      assert (a + b)[..|a + b| - 1] == a + b[..|b| - 1];
      DueConcat(a, b[..|b| - 1], dtor);
    }
  }

  /** Unwinding in two goes, first to q and then to p further down, is unwinding to p at once. */
  lemma UnwindCompose(s: Stack, p: nat, q: nat, dtor: Destructors)
    requires p != 0 && q != 0 && OnStack(s.ods, q) && AllFine(s.ods, dtor)
    requires OnStack(s.ods[..StopAt(s.ods, q)], p) && StopAt(s.ods, p) < StopAt(s.ods, q)
    ensures Unwound(Unwound(s, q, dtor), p, dtor) == Unwound(s, p, dtor)
  {
    hide Popping, Due, StopAt;
    var k, j := StopAt(s.ods, q), StopAt(s.ods, p);
    FineParts(s.ods, k, dtor);
    FineParts(s.ods, j, dtor);
    FineParts(s.ods[..k], j, dtor);
    UnwindDestroys(s, q, dtor, s.regs);
    UnwindDestroys(s, p, dtor, s.regs);
    var t := Stack(s.ods[..k], s.regs, s.ran + Due(s.ods[k..], dtor));
    StopInPrefix(s.ods, k, p);
    UnwindDestroys(t, p, dtor, s.regs);
    assert s.ods[j..] == s.ods[..k][j..] + s.ods[k..];
    DueConcat(s.ods[..k][j..], s.ods[k..], dtor);
    var i :| 0 <= i < k && s.ods[..k][i].obj == p;
    assert s.ods[i].obj == p;
    assert s.ods[..k][..j] == s.ods[..j];
  }

  lemma FineParts(ods: seq<Record>, k: nat, dtor: Destructors)
    requires k <= |ods| && AllFine(ods, dtor)
    ensures AllFine(ods[..k], dtor) && AllFine(ods[k..], dtor)
  {}

  lemma {:induction false} StopInPrefix(ods: seq<Record>, k: nat, p: nat)
    requires StopAt(ods, p) < k <= |ods|
    ensures StopAt(ods[..k], p) == StopAt(ods, p)
    decreases |ods|
  {
    if k < |ods| {
      StopInPrefix(ods[..|ods| - 1], k, p);
      assert ods[..|ods| - 1][..k] == ods[..k];
    } else {
      assert ods[..k] == ods;
    }
  }

  /** The same in one piece, for the engine. */
  lemma Unwinding(s: Stack, p: nat, dtor: Destructors)
    ensures s.ods == [] || (p != 0 && forall i :: 0 <= i < |s.ods| ==> s.ods[i].obj != p) ==> Unwound(s, p, dtor) == s
    ensures s.ods != [] && (p == 0 || exists i :: 0 <= i < |s.ods| && s.ods[i].obj == p) ==>
              var k := StopAt(s.ods, p);
              var f := FailsAt(s.ods, k, dtor);
              var u := Unwound(s, p, dtor);
              && u.ods == s.ods[..if f == -1 then k else f]
              && u.ran == s.ran + Due(s.ods[if f == -1 then k else f + 1..], dtor)
                          + (if f != -1 && dtor(s.ods[f]).Threw? then [s.ods[f]] else [])
              && u.regs == if f != -1 && dtor(s.ods[f]).Threw? then dtor(s.ods[f]).at else s.regs
  {
    hide Popping, Due, StopAt, FailsAt;
    UnwoundExactly(s, p, dtor);
    if s.ods != [] {
      UnwindExactly(s, p, dtor, s.regs);
    }
  }

  // ----- throwing -----

  type Ty = nat
  const VOIDTYPE: Ty := 0
  const TRYBLOCK: nat := 1

  datatype CatchBlock = CatchBlock(ty: Ty, ip: nat)
  datatype Handler = Handler(fb: int, blocks: seq<CatchBlock>)
  datatype Frame = Frame(pc: int, fb: int, base: int)

  /** The handler a try marker's object points to, and class derivation. */
  datatype World = World(handlerOf: nat -> Handler, inherits: (Ty, Ty) -> bool, dtor: Destructors)

  predicate Takes(w: World, ct: Ty, t: Ty) { ct == t || ct == VOIDTYPE || w.inherits(t, ct) }

  /** The first catch block that takes the type, or the number of blocks. */
  function FirstMatch(w: World, blocks: seq<CatchBlock>, t: Ty): (k: nat)
    ensures k <= |blocks| && (k < |blocks| ==> Takes(w, blocks[k].ty, t))
    ensures forall i :: 0 <= i < k ==> !Takes(w, blocks[i].ty, t)
  {
    if blocks == [] then 0 else if Takes(w, blocks[0].ty, t) then 0 else 1 + FirstMatch(w, blocks[1..], t)
  }

  predicate Catches(w: World, rec: Record, t: Ty) {
    rec.cls == TRYBLOCK && FirstMatch(w, w.handlerOf(rec.obj).blocks, t) < |w.handlerOf(rec.obj).blocks|
  }

  /** The search starts at the bottom of the stack: the oldest try block with a catch block for the type. */
  function Oldest(w: World, ods: seq<Record>, t: Ty): (k: nat)
    ensures k <= |ods| && (k < |ods| ==> Catches(w, ods[k], t))
    ensures forall i :: 0 <= i < k ==> !Catches(w, ods[i], t)
  {
    if ods == [] then 0 else if Catches(w, ods[0], t) then 0 else 1 + Oldest(w, ods[1..], t)
  }

  lemma OldestFrom(w: World, ods: seq<Record>, i: nat, t: Ty)
    requires i < |ods|
    ensures Oldest(w, ods[i..], t) == if Catches(w, ods[i], t) then 0 else 1 + Oldest(w, ods[i + 1..], t)
  {
    assert ods[i..][1..] == ods[i + 1..];
  }

  /** Frames are left until the function that owns the handler is on top. */
  function LeaveTo(owner: int, regs: Regs, fs: seq<Frame>): (r: (Regs, seq<Frame>))
    ensures r.1 <= fs && (r.0.fb == owner || r.1 == [])
    ensures r.0.op == regs.op && r.0.sp == regs.sp
    decreases |fs|
  {
    if regs.fb == owner || fs == [] then (regs, fs)
    else
      var fr := fs[|fs| - 1];
      LeaveTo(owner, regs.(fb := fr.fb, pc := fr.pc, base := fr.base), fs[..|fs| - 1])
  }

  predicate Active(owner: int, fb: int, fs: seq<Frame>) {
    fb == owner || exists i :: 0 <= i < |fs| && fs[i].fb == owner
  }

  /** The function that entered a try block is active for as long as its frame has not been left. */
  lemma EntererActive(w: World, rec: Record, regs: Regs, fs: seq<Frame>)
    requires rec.depth <= |fs|
    requires (if rec.depth == |fs| then regs.fb else fs[rec.depth].fb) == w.handlerOf(rec.obj).fb
    ensures Active(w.handlerOf(rec.obj).fb, regs.fb, fs)
  {}

  lemma {:induction false} LeaveReaches(owner: int, regs: Regs, fs: seq<Frame>)
    requires Active(owner, regs.fb, fs)
    ensures LeaveTo(owner, regs, fs).0.fb == owner
    decreases |fs|
  {
    if regs.fb != owner {
      var fr := fs[|fs| - 1];
      var i :| 0 <= i < |fs| && fs[i].fb == owner;
      assert fr.fb == owner || fs[..|fs| - 1][i].fb == owner;
      LeaveReaches(owner, regs.(fb := fr.fb, pc := fr.pc, base := fr.base), fs[..|fs| - 1]);
    }
  }

  /** The frame resumed is the owner's most recent one: every function left on the way is another. */
  lemma {:induction false} LeaveStopsFirst(owner: int, regs: Regs, fs: seq<Frame>)
    requires Active(owner, regs.fb, fs)
    ensures var (r, rest) := LeaveTo(owner, regs, fs);
            && (rest == fs <==> regs.fb == owner)
            && (rest != fs ==>
                  && r == regs.(fb := owner, pc := fs[|rest|].pc, base := fs[|rest|].base) && fs[|rest|].fb == owner
                  && forall i :: |rest| < i < |fs| ==> fs[i].fb != owner)
    decreases |fs|
  {
    if regs.fb != owner {
      var fr := fs[|fs| - 1];
      var i :| 0 <= i < |fs| && fs[i].fb == owner;
      assert fr.fb == owner || fs[..|fs| - 1][i].fb == owner;
      LeaveStopsFirst(owner, regs.(fb := fr.fb, pc := fr.pc, base := fr.base), fs[..|fs| - 1]);
    }
  }

  /** The frame resumed is the one that entered the try block exactly when its function has not been called again since;
      else it is that of a later call. */
  lemma {:induction false} ResumesEnterer(w: World, rec: Record, regs: Regs, fs: seq<Frame>)
    requires rec.depth <= |fs|
    requires (if rec.depth == |fs| then regs.fb else fs[rec.depth].fb) == w.handlerOf(rec.obj).fb
    ensures var owner := w.handlerOf(rec.obj).fb;
            var rest := LeaveTo(owner, regs, fs).1;
            && (rest == fs[..rec.depth] <==>
                  && (forall i :: rec.depth < i < |fs| ==> fs[i].fb != owner)
                  && (rec.depth < |fs| ==> regs.fb != owner))
            && rec.depth <= |rest| && (if rest == fs then regs.fb else fs[|rest|].fb) == owner
    decreases |fs|
  {
    var owner := w.handlerOf(rec.obj).fb;
    if regs.fb != owner {
      var n := |fs| - 1;
      var fr := fs[n];
      var regs', fs' := regs.(fb := fr.fb, pc := fr.pc, base := fr.base), fs[..n];
      ResumesEnterer(w, rec, regs', fs');
      assert fs'[..rec.depth] == fs[..rec.depth];
    } else {
      assert fs == fs[..rec.depth] ==> |fs| == rec.depth;
    }
  }

  /** Unwinding to the chosen marker stops at that very record exactly when no later record is for the same address. */
  lemma StopsAtMarker(ods: seq<Record>, i: nat)
    requires i < |ods|
    ensures StopAt(ods, ods[i].obj) == i <==> forall j :: i < j < |ods| ==> ods[j].obj != ods[i].obj
  {
    var k := StopAt(ods, ods[i].obj);
    if k > i {
      assert ods[k].obj == ods[i].obj;
    }
  }

  /** The try block section 15.1 of ISO/IEC 14882:1998 asks for: the one entered last. */
  function Nearest(w: World, ods: seq<Record>, t: Ty): (k: nat)
    ensures k <= |ods|
    ensures if exists i :: 0 <= i < |ods| && Catches(w, ods[i], t)
            then k < |ods| && Catches(w, ods[k], t) && forall i :: k < i < |ods| ==> !Catches(w, ods[i], t)
            else k == |ods|
  {
    if ods == [] then 0
    else if Catches(w, ods[|ods| - 1], t) then |ods| - 1
    else
      var k := Nearest(w, ods[..|ods| - 1], t);
      assert forall i :: 0 <= i < |ods| - 1 ==> ods[..|ods| - 1][i] == ods[i];
      if k == |ods| - 1 then |ods| else k
  }

  /** The engine, which looks from the bottom up, lands in the nearest handler exactly when no two live try blocks
      would take the exception. */
  lemma LandsInNearest(w: World, ods: seq<Record>, t: Ty)
    ensures Oldest(w, ods, t) == |ods| <==> Nearest(w, ods, t) == |ods|
    ensures Oldest(w, ods, t) == Nearest(w, ods, t)
            <==> forall i, j :: 0 <= i < j < |ods| ==> !(Catches(w, ods[i], t) && Catches(w, ods[j], t))
  {
    var a, b := Oldest(w, ods, t), Nearest(w, ods, t);
    if a < |ods| {
      assert Catches(w, ods[a], t);
      if exists i, j :: 0 <= i < j < |ods| && Catches(w, ods[i], t) && Catches(w, ods[j], t) {
        var i, j :| 0 <= i < j < |ods| && Catches(w, ods[i], t) && Catches(w, ods[j], t);
        assert a <= i && j <= b;
      }
    }
  }

  lemma NothingThere(ods: seq<Record>, dtor: Destructors)
    ensures ods == [] ==> StopAt(ods, 0) == 0 && ods[..0] == [] && Due(ods[0..], dtor) == []
    ensures (forall i :: 0 <= i < |ods| ==> ods[i].obj != 0) ==> StopAt(ods, 0) == 0
  {}

  lemma MarkerOn(ods: seq<Record>, i: nat)
    requires i < |ods|
    ensures OnStack(ods, ods[i].obj)
  {}

  class Engine {
    var ods: seq<Record>
    var regs: Regs
    var fs: seq<Frame>
    var currExcept: nat
    var thrown: map<nat, Ty>
    var ran: seq<Record>

    function Now(): Stack
      reads this
    {
      Stack(ods, regs, ran)
    }

    method DoUnwind(p: nat, dtor: Destructors)
      modifies this`ods, this`regs, this`ran
      ensures Now() == Unwound(old(Now()), p, dtor)
      ensures old(ods) == [] || (p != 0 && forall i :: 0 <= i < |old(ods)| ==> old(ods)[i].obj != p) ==>
                Now() == old(Now())
      ensures old(ods) != [] && (p == 0 || exists i :: 0 <= i < |old(ods)| && old(ods)[i].obj == p) ==>
                var k := StopAt(old(ods), p);
                var f := FailsAt(old(ods), k, dtor);
                && ods == old(ods)[..if f == -1 then k else f]
                && ran == old(ran) + Due(old(ods)[if f == -1 then k else f + 1..], dtor)
                          + (if f != -1 && dtor(old(ods)[f]).Threw? then [old(ods)[f]] else [])
                && regs == if f != -1 && dtor(old(ods)[f]).Threw? then dtor(old(ods)[f]).at else old(regs)
    {
      hide Popping, StopAt, FailsAt, Due, OnStack;
      Unwinding(Now(), p, dtor);
      if p != 0 {
        var found := Find(p);
        if !found {
          return;
        }
      }
      if |ods| > 0 {
        PopLoop(p, dtor);
      }
    }

    /** Whether there is a record for p at all. */
    method Find(p: nat) returns (found: bool)
      ensures found <==> OnStack(ods, p)
    {
      var i := 0;
      while i < |ods|
        invariant 0 <= i <= |ods| && forall j :: 0 <= j < i ==> ods[j].obj != p
      {
        if ods[i].obj == p {
          return true;
        }
        i := i + 1;
      }
      found := false;
    }

    /** The unwinding loop, and the registers put back after it. */
    method PopLoop(p: nat, dtor: Destructors)
      requires ods != []
      modifies this`ods, this`regs, this`ran
      ensures Now() == Popping(old(Now()), p, dtor, old(regs))
    {
      var saved := regs;
      var going := true;
      while going
        invariant going ==> ods != []
        invariant (if going then Popping(Now(), p, dtor, saved) else Now().(regs := saved))
                  == Popping(old(Now()), p, dtor, saved)
        decreases going, |ods|
      {
        var rec := ods[|ods| - 1];
        ods, regs := ods[..|ods| - 1], regs.(op := rec.obj);
        var o := dtor(rec);
        match o {
          case BadEntry =>
            going := false;
            break;
          case Threw(r) =>
            regs, ran := r, ran + [rec];
            return;
          case Ran(r) => regs, ran := r, ran + [rec];
          case NoDestructor =>
        }
        going := rec.obj != p && |ods| > 0;
      }
      regs := saved;
    }

    method MatchThrownObject(w: World, t: Ty, obj: nat) returns (ip: int)
      modifies this`thrown
      ensures var h := w.handlerOf(obj);
              var k := FirstMatch(w, h.blocks, t);
              if k < |h.blocks| then ip == h.blocks[k].ip && thrown == old(thrown)[obj := t]
              else ip == -1 && thrown == old(thrown)
      ensures var blocks := w.handlerOf(obj).blocks;
              var k := FirstMatch(w, blocks, t);
              && (k < |blocks| ==> blocks[k].ty == t || blocks[k].ty == VOIDTYPE || w.inherits(t, blocks[k].ty))
              && forall i :: 0 <= i < k ==>
                   blocks[i].ty != t && blocks[i].ty != VOIDTYPE && !w.inherits(t, blocks[i].ty)
    {
      var blocks, k := w.handlerOf(obj).blocks, 0;
      while k < |blocks|
        invariant 0 <= k <= |blocks| && thrown == old(thrown)
        invariant FirstMatch(w, blocks, t) == k + FirstMatch(w, blocks[k..], t)
      {
        assert blocks[k..][1..] == blocks[k + 1..];
        if Takes(w, blocks[k].ty, t) {
          thrown := thrown[obj := t];
          return blocks[k].ip;
        }
        k := k + 1;
      }
      ip := -1;
    }

    /** Some function that still runs owns each live handler. */
    ghost predicate OwnersActive(w: World)
      reads this
    {
      forall i {:trigger ods[i]} :: 0 <= i < |ods| && ods[i].cls == TRYBLOCK ==>
        Active(w.handlerOf(ods[i].obj).fb, regs.fb, fs)
    }

    /** The type in flight is the one thrown here, or the one being handled when this is a rethrow. */
    method ThrowException(w: World, t: Ty) returns (ip: int)
      requires t == VOIDTYPE ==> currExcept in thrown
      requires OwnersActive(w) && AllFine(ods, w.dtor)
      modifies this
      ensures var ty := if t == VOIDTYPE then old(thrown)[old(currExcept)] else t;
              var i := Oldest(w, old(ods), ty);
              if i == |old(ods)| then
                var k := StopAt(old(ods), 0);
                && ip == -1 && fs == old(fs) && regs == old(regs)
                && ods == old(ods)[..k] && ran == old(ran) + Due(old(ods)[k..], w.dtor)
                && ((forall j :: 0 <= j < |old(ods)| ==> old(ods)[j].obj != 0) ==> ods == [])
              else
                var obj := old(ods)[i].obj;
                var h := w.handlerOf(obj);
                var k := StopAt(old(ods), obj);
                && ip == h.blocks[FirstMatch(w, h.blocks, ty)].ip
                && currExcept == obj && thrown == old(thrown)[obj := ty]
                && ods == old(ods)[..k] && ran == old(ran) + Due(old(ods)[k..], w.dtor)
                && (regs, fs) == LeaveTo(h.fb, old(regs), old(fs)) && regs.fb == h.fb
    {
      hide Due, LeaveTo, Popping, Onward, StopAt, FailsAt, FirstMatch, AllFine, Active, OnStack, Oldest, Takes;
      var ty := t;
      if t == VOIDTYPE {
        ty := thrown[currExcept];
      } else {
        currExcept := 0;
      }
      NothingThere(ods, w.dtor);
      if |ods| == 0 {
        return -1;
      }
      var i := 0;
      while i < |ods|
        invariant 0 <= i <= |ods| && fs == old(fs) && Now() == old(Now()) && thrown == old(thrown)
        invariant Oldest(w, ods, ty) == i + Oldest(w, ods[i..], ty)
      {
        OldestFrom(w, ods, i, ty);
        if ods[i].cls == TRYBLOCK {
          ip := TryMarker(w, ty, i);
          if ip != -1 {
            return;
          }
        }
        i := i + 1;
      }
      Uncaught(w);
      ip := -1;
    }

    /** Nobody wants it: everything is unwound. */
    method Uncaught(w: World)
      requires ods != [] && AllFine(ods, w.dtor)
      modifies this`ods, this`regs, this`ran
      ensures var k := StopAt(old(ods), 0);
              && regs == old(regs) && ods == old(ods)[..k] && ran == old(ran) + Due(old(ods)[k..], w.dtor)
              && ((forall j :: 0 <= j < |old(ods)| ==> old(ods)[j].obj != 0) ==> ods == [])
    {
      hide Due, StopAt, FailsAt, AllFine, Popping;
      NothingThere(ods, w.dtor);
      FineParts(ods, StopAt(ods, 0), w.dtor);
      DoUnwind(0, w.dtor);
    }

    /** A try block marker: land in it when one of its catch blocks takes the type. */
    method TryMarker(w: World, ty: Ty, i: nat) returns (ip: int)
      requires i < |ods| && ods[i].cls == TRYBLOCK && OwnersActive(w) && AllFine(ods, w.dtor)
      modifies this
      ensures ip == -1 <==> !Catches(w, old(ods)[i], ty)
      ensures ip == -1 ==> fs == old(fs) && Now() == old(Now()) && thrown == old(thrown)
      ensures ip != -1 ==>
                var obj := old(ods)[i].obj;
                var h := w.handlerOf(obj);
                var k := StopAt(old(ods), obj);
                && ip == h.blocks[FirstMatch(w, h.blocks, ty)].ip
                && currExcept == obj && thrown == old(thrown)[obj := ty]
                && ods == old(ods)[..k] && ran == old(ran) + Due(old(ods)[k..], w.dtor)
                && (regs, fs) == LeaveTo(h.fb, old(regs), old(fs)) && regs.fb == h.fb
    {
      hide Due, LeaveTo, Popping, Onward, StopAt, FirstMatch, AllFine, Active, OnStack, Takes;
      currExcept := ods[i].obj;
      ip := MatchThrownObject(w, ty, currExcept);
      if ip != -1 {
        MarkerOn(ods, i);
        FineParts(ods, StopAt(ods, currExcept), w.dtor);
        assert Active(w.handlerOf(ods[i].obj).fb, regs.fb, fs);
        Land(w, currExcept);
      }
    }

    /** Unwind to the marker, then leave functions until the one with the catch block runs. */
    method Land(w: World, obj: nat)
      requires OnStack(ods, obj) && AllFine(ods[StopAt(ods, obj)..], w.dtor)
      requires Active(w.handlerOf(obj).fb, regs.fb, fs)
      modifies this`ods, this`regs, this`ran, this`fs
      ensures var k := StopAt(old(ods), obj);
              && ods == old(ods)[..k] && ran == old(ran) + Due(old(ods)[k..], w.dtor)
              && (regs, fs) == LeaveTo(w.handlerOf(obj).fb, old(regs), old(fs)) && regs.fb == w.handlerOf(obj).fb
    {
      var owner := w.handlerOf(obj).fb;
      UnwindDestroys(Now(), obj, w.dtor, regs);
      DoUnwind(obj, w.dtor);
      LeaveReaches(owner, regs, fs);
      while regs.fb != owner
        modifies this`regs, this`fs
        invariant LeaveTo(owner, regs, fs) == LeaveTo(owner, old(regs), old(fs)) && Active(owner, regs.fb, fs)
        decreases |fs|
      {
        EndFunction(owner);
      }
    }

    method EndFunction(ghost owner: int)
      requires Active(owner, regs.fb, fs) && regs.fb != owner
      modifies this`regs, this`fs
      ensures fs == old(fs)[..|old(fs)| - 1] && Active(owner, regs.fb, fs)
      ensures var fr := old(fs)[|old(fs)| - 1];
              regs == old(regs).(fb := fr.fb, pc := fr.pc, base := fr.base)
    {
      ghost var i :| 0 <= i < |fs| && fs[i].fb == owner;
      var fr := fs[|fs| - 1];
      assert i < |fs| - 1 ==> fs[..|fs| - 1][i].fb == owner;
      fs := fs[..|fs| - 1];
      regs := regs.(fb := fr.fb, pc := fr.pc, base := fr.base);
    }
  }
}
