/** How a thread that hits a breakpoint and the debugger hand an event to each other (DBKKernel/debugger.c): any
    number of threads, one debugger, every interleaving of their steps. */
module DebugEvents {
  /** Where a thread is in breakpointHandler_kernel. */
  datatype Phase = Out | AtGate | Took | Stored | Waiting | Woken | Decided(handled: bool) | Cleared(handled: bool)

  /** Where the debugger is: waiting, between receiving an event and continuing, or in debugger_continueDebugEvent. */
  datatype Debugger = Idle | Handling | Wrote

  datatype Option<T> = None | Some(value: T)

  /** The three auto-reset events, the shared debugger state, and what has happened so far: threads that reported a
      break, those the debugger was told of, its decisions, and what the threads went back with. */
  datatype Sys = Sys(
    threads: map<nat, Phase>, stacks: map<nat, int>,
    canBreak: bool, debugEvent: bool, cont: bool,
    lastStack: Option<nat>, handledLast: bool, dbg: Debugger,
    breaks: seq<nat>, delivered: seq<nat>, decisions: seq<bool>, results: seq<(nat, bool)>)

  datatype Label =
    | Break(t: nat) | TakeGate(t: nat) | Store(t: nat) | Signal(t: nat)
    | TakeContinue(t: nat) | ReadHandled(t: nat) | Clear(t: nat) | Release(t: nat)
    | WaitForEvent | Timeout | GetState | SetState(v: int) | WriteHandled(h: bool) | SetContinue

  function Moved(s: Sys, t: nat, ph: Phase): Sys { s.(threads := s.threads[t := ph]) }

  predicate In(s: Sys, t: nat, ph: Phase) { t in s.threads && s.threads[t] == ph }

  predicate Enabled(s: Sys, l: Label) {
    match l
    case Break(t) => In(s, t, Out)
    case TakeGate(t) => In(s, t, AtGate) && s.canBreak
    case Store(t) => In(s, t, Took)
    case Signal(t) => In(s, t, Stored)
    case TakeContinue(t) => In(s, t, Waiting) && s.cont
    case ReadHandled(t) => In(s, t, Woken)
    case Clear(t) => t in s.threads && s.threads[t].Decided?
    case Release(t) => t in s.threads && s.threads[t].Cleared?
    case WaitForEvent => s.dbg.Idle? && s.debugEvent
    case Timeout => s.dbg.Idle?
    case GetState => true
    case SetState(_) => true
    case WriteHandled(_) => s.dbg.Handling?
    case SetContinue => s.dbg.Wrote?
  }

  function Step(s: Sys, l: Label): Sys
    requires Enabled(s, l)
  {
    match l
    case Break(t) => Moved(s, t, AtGate)
    case TakeGate(t) => Moved(s, t, Took).(canBreak := false)
    case Store(t) => Moved(s, t, Stored).(lastStack := Some(t))
    case Signal(t) => Moved(s, t, Waiting).(debugEvent := true, breaks := s.breaks + [t])
    case TakeContinue(t) => Moved(s, t, Woken).(cont := false)
    case ReadHandled(t) => Moved(s, t, Decided(s.handledLast))
    case Clear(t) => Moved(s, t, Cleared(s.threads[t].handled)).(lastStack := None)
    case Release(t) => Moved(s, t, Out).(canBreak := true, results := s.results + [(t, s.threads[t].handled)])
    case WaitForEvent =>
      s.(debugEvent := false, dbg := Handling,
         delivered := s.delivered + if s.lastStack.Some? then [s.lastStack.value] else [])
    case Timeout => s
    case GetState => s
    case SetState(v) =>
      if s.lastStack.Some? then s.(stacks := s.stacks[s.lastStack.value := v]) else s
    case WriteHandled(h) => s.(handledLast := h, dbg := Wrote, decisions := s.decisions + [h])
    case SetContinue => s.(cont := true, dbg := Idle)
  }

  predicate Start(s: Sys) {
    && (forall t {:trigger s.threads[t]} :: t in s.threads ==> s.threads[t] == Out)
    && s.canBreak && !s.debugEvent && !s.cont && s.lastStack == None && s.dbg.Idle?
    && s.breaks == [] && s.delivered == [] && s.decisions == [] && s.results == []
  }

  /** A run: each label is a step that was enabled when it was taken. */
  predicate IsRun(s: Sys, labels: seq<Label>)
    decreases |labels|
  {
    labels != [] ==> Enabled(s, labels[0]) && IsRun(Step(s, labels[0]), labels[1..])
  }

  function After(s: Sys, labels: seq<Label>): Sys
    requires IsRun(s, labels)
    decreases |labels|
  {
    if labels == [] then s else After(Step(s, labels[0]), labels[1..])
  }

  // ----- the invariant -----

  /** Between taking CanBreak and giving it back. */
  predicate Inside(s: Sys, t: nat) { t in s.threads && !s.threads[t].Out? && !s.threads[t].AtGate? }

  /** The results are the breaks so far with the decisions so far. */
  predicate Paired(s: Sys, k: nat) {
    && |s.results| == k <= |s.breaks| && k <= |s.decisions|
    && forall i :: 0 <= i < k ==> s.results[i] == (s.breaks[i], s.decisions[i])
  }

  /** Nothing is under way beyond the first k breaks. */
  predicate Quiet(s: Sys, k: nat) {
    && !s.debugEvent && !s.cont && s.dbg.Idle? && s.delivered == s.breaks
    && |s.breaks| == |s.decisions| == k && Paired(s, k)
  }

  /** The last break is thread t's and has been decided, and the decision is still in handledLast. */
  predicate Settling(s: Sys, t: nat) {
    && !s.debugEvent && s.dbg.Idle? && s.delivered == s.breaks
    && |s.breaks| == |s.decisions| == |s.results| + 1 && Paired(s, |s.results|)
    && s.breaks[|s.results|] == t && s.handledLast == s.decisions[|s.results|]
  }

  /** What holds while thread t is inside, by how far the hand-off has got. */
  predicate Stage(s: Sys, t: nat)
    requires t in s.threads
  {
    match s.threads[t]
    case Out => false
    case AtGate => false
    case Took => Quiet(s, |s.results|) && s.lastStack == None
    case Stored => Quiet(s, |s.results|) && s.lastStack == Some(t)
    case Waiting =>
      && s.lastStack == Some(t) && |s.breaks| == |s.results| + 1 && s.breaks[|s.results|] == t && Paired(s, |s.results|)
      && ((s.debugEvent && s.dbg.Idle? && !s.cont && s.delivered == s.breaks[..|s.results|]
           && |s.decisions| == |s.results|)
          || (!s.debugEvent && s.dbg.Handling? && !s.cont && s.delivered == s.breaks && |s.decisions| == |s.results|)
          || (!s.debugEvent && s.dbg.Wrote? && !s.cont && s.delivered == s.breaks && |s.decisions| == |s.breaks|
              && s.handledLast == s.decisions[|s.results|])
          || (s.cont && Settling(s, t)))
    case Woken => !s.cont && Settling(s, t) && s.lastStack == Some(t)
    case Decided(h) => !s.cont && Settling(s, t) && s.lastStack == Some(t) && h == s.handledLast
    case Cleared(h) => !s.cont && Settling(s, t) && s.lastStack == None && h == s.handledLast
  }

  ghost predicate Free(s: Sys) {
    s.canBreak && Quiet(s, |s.results|) && s.lastStack == None && forall t {:trigger Inside(s, t)} :: !Inside(s, t)
  }

  ghost predicate HeldBy(s: Sys, t: nat) {
    && !s.canBreak && Inside(s, t) && Stage(s, t)
    && forall u {:trigger Inside(s, u)} :: Inside(s, u) ==> u == t
  }

  ghost predicate Inv(s: Sys) { Free(s) || exists t :: HeldBy(s, t) }

  /** Nobody in the handler, CanBreak set, the debugger idle: whatever the stacks hold. */
  lemma Begins(threads: map<nat, Phase>, stacks: map<nat, int>, last: bool)
    requires forall t :: t in threads ==> threads[t].Out?
    ensures Start(Sys(threads, stacks, true, false, false, None, last, Idle, [], [], [], []))
  {}

  lemma StartInv(s: Sys)
    requires Start(s)
    ensures Inv(s)
  {}

  lemma FreeStep(s: Sys, l: Label)
    requires Free(s) && Enabled(s, l)
    ensures if l.TakeGate? then HeldBy(Step(s, l), l.t) else Free(Step(s, l))
  {
    var s' := Step(s, l);
    assert l.Store? || l.Signal? || l.TakeContinue? || l.ReadHandled? || l.Clear? || l.Release? ==> Inside(s, l.t);
    assert forall u {:trigger Inside(s', u)} :: Inside(s', u) ==> Inside(s, u) || l == TakeGate(u);
  }

  predicate OfThread(l: Label) {
    l.Store? || l.Signal? || l.TakeContinue? || l.ReadHandled? || l.Clear? || l.Release?
  }

  /** Only the thread inside moves on; when it gives CanBreak back, everything is quiet again. */
  lemma ThreadStep(s: Sys, l: Label, t: nat)
    requires HeldBy(s, t) && Enabled(s, l) && OfThread(l)
    ensures l.t == t && if l.Release? then Free(Step(s, l)) else HeldBy(Step(s, l), t)
  {
    assert Inside(s, l.t);
    var s' := Step(s, l);
    assert forall u {:trigger Inside(s', u)} :: Inside(s', u) ==> Inside(s, u);
    if l.Signal? {
      assert s'.breaks[..|s'.results|] == s.breaks;
    }
  }

  /** The debugger, and threads outside, leave it inside. */
  lemma OtherStep(s: Sys, l: Label, t: nat)
    requires HeldBy(s, t) && Enabled(s, l) && !OfThread(l)
    ensures HeldBy(Step(s, l), t)
  {
    var s' := Step(s, l);
    assert !l.TakeGate?;
    assert forall u {:trigger Inside(s', u)} :: Inside(s', u) ==> Inside(s, u);
    if l.WaitForEvent? {
      assert s.breaks == s.breaks[..|s.results|] + [t];
    }
  }

  lemma StepKeeps(s: Sys, l: Label)
    requires Inv(s) && Enabled(s, l)
    ensures Inv(Step(s, l))
  {
    hide Free, HeldBy, Step;
    if Free(s) {
      FreeStep(s, l);
    } else {
      var t :| HeldBy(s, t);
      if OfThread(l) {
        ThreadStep(s, l, t);
      } else {
        OtherStep(s, l, t);
      }
    }
  }

  lemma {:induction false} RunKeeps(s: Sys, labels: seq<Label>)
    requires Inv(s) && IsRun(s, labels)
    ensures Inv(After(s, labels))
    decreases |labels|
  {
    hide Inv, Enabled, Step;
    if labels != [] {
      StepKeeps(s, labels[0]);
      RunKeeps(Step(s, labels[0]), labels[1..]);
    }
  }

  // ----- what follows for every run -----

  /** At most one thread is between taking CanBreak and giving it back, and none while it can be taken. */
  lemma OneInside(s: Sys, labels: seq<Label>, t: nat, u: nat)
    requires Start(s) && IsRun(s, labels)
    ensures var z := After(s, labels);
            && (Inside(z, t) && Inside(z, u) ==> t == u)
            && (z.canBreak <==> forall v {:trigger Inside(z, v)} :: !Inside(z, v))
  {
    StartInv(s);
    RunKeeps(s, labels);
    hide IsRun, After;
    var z := After(s, labels);
    assert Inside(z, t) || !Inside(z, t);
    assert Inside(z, u) || !Inside(z, u);
  }

  /** Each break is delivered once, in order, at most one behind; each thread goes back with the decision on its own
      break. */
  lemma DeliveredOnce(s: Sys, labels: seq<Label>)
    requires Start(s) && IsRun(s, labels)
    ensures var z := After(s, labels);
            && z.delivered <= z.breaks && |z.breaks| <= |z.delivered| + 1 && |z.breaks| <= |z.results| + 1
            && Paired(z, |z.results|)
  {
    StartInv(s);
    RunKeeps(s, labels);
    hide IsRun, After;
    var z := After(s, labels);
    if !Free(z) {
      var t :| HeldBy(z, t);
    }
  }

  /** While the debugger handles an event, what it reads and writes is the stack of the thread it was told of, which
      waits until it is done. */
  lemma HandlingOwnThread(s: Sys, labels: seq<Label>, v: int)
    requires Start(s) && IsRun(s, labels) && After(s, labels).dbg.Handling?
    ensures var z := After(s, labels);
            && z.delivered != [] && z.lastStack == Some(z.delivered[|z.delivered| - 1])
            && In(z, z.lastStack.value, Waiting)
            && Step(z, SetState(v)) == z.(stacks := z.stacks[z.lastStack.value := v])
            && !Enabled(z, TakeContinue(z.lastStack.value))
  {
    StartInv(s);
    RunKeeps(s, labels);
    hide IsRun, After;
    var z := After(s, labels);
    var t :| Free(z) || HeldBy(z, t);
  }

  /** A thread's stack is written only by the debugger, and only while the thread is inside the handler. */
  lemma OwnStackOnly(s: Sys, labels: seq<Label>, l: Label)
    requires Start(s) && IsRun(s, labels) && Enabled(After(s, labels), l)
    ensures var z := After(s, labels);
            && (!l.SetState? || z.lastStack.None? ==> Step(z, l).stacks == z.stacks)
            && (l.SetState? && z.lastStack.Some? ==>
                  Inside(z, z.lastStack.value) && Step(z, l) == z.(stacks := z.stacks[z.lastStack.value := l.v]))
  {
    StartInv(s);
    RunKeeps(s, labels);
    hide IsRun, After, Inv;
    if After(s, labels).lastStack.Some? {
      StackInside(After(s, labels));
    }
  }

  lemma StackInside(s: Sys)
    requires Inv(s) && s.lastStack.Some?
    ensures Inside(s, s.lastStack.value)
  {
    hide Quiet, Settling, Paired;
    var t :| Free(s) || HeldBy(s, t);
  }

  // ----- progress -----

  /** A step that takes some thread's hand-off further: not a new break, a time-out, or a look at the waiting thread. */
  predicate Advances(l: Label) { !(l.Break? || l.Timeout? || l.GetState? || l.SetState?) }

  /** How many such steps thread t's hand-off still needs. */
  function Left(s: Sys, t: nat): nat
    requires t in s.threads
  {
    match s.threads[t]
    case Out => 0
    case AtGate => 10
    case Took => 9
    case Stored => 8
    case Waiting => if s.debugEvent then 7 else if s.dbg.Handling? then 6 else if s.dbg.Wrote? then 5 else 4
    case Woken => 3
    case Decided(_) => 2
    case Cleared(_) => 1
  }

  ghost function AtGates(s: Sys): set<nat> { set t | t in s.threads && s.threads[t].AtGate? }

  /** How many all of them need. */
  ghost function ToDo(s: Sys): nat {
    10 * |AtGates(s)| + if exists t :: Inside(s, t) then (var t :| Inside(s, t); Left(s, t)) else 0
  }

  lemma ToDoHeld(s: Sys, t: nat)
    requires HeldBy(s, t)
    ensures t in s.threads && ToDo(s) == 10 * |AtGates(s)| + Left(s, t)
  {}

  lemma ToDoFree(s: Sys)
    requires Free(s)
    ensures ToDo(s) == 10 * |AtGates(s)|
  {}

  /** A break is one more thread at the gate, taking CanBreak one less. */
  lemma GateMoves(s: Sys, l: Label)
    requires Enabled(s, l)
    ensures |AtGates(Step(s, l))| == |AtGates(s)| + (if l.Break? then 1 else if l.TakeGate? then -1 else 0)
  {
    hide AtGates;
    if l.Break? || l.TakeGate? || OfThread(l) {
      GateOf(s, Step(s, l), l.t);
    } else {
      SameGates(s, Step(s, l));
    }
  }

  lemma SameGates(s: Sys, s': Sys)
    requires s'.threads == s.threads
    ensures AtGates(s') == AtGates(s)
  {}

  lemma GateOf(s: Sys, s': Sys, t: nat)
    requires t in s.threads && t in s'.threads && s'.threads == s.threads[t := s'.threads[t]]
    ensures |AtGates(s')| == |AtGates(s)| - (if s.threads[t].AtGate? then 1 else 0)
                             + (if s'.threads[t].AtGate? then 1 else 0)
  {
    hide AtGates;
    OtherGates(s, s', t);
    OneGate(s, t);
    OneGate(s', t);
  }

  lemma OtherGates(s: Sys, s': Sys, t: nat)
    requires t in s.threads && t in s'.threads && s'.threads == s.threads[t := s'.threads[t]]
    ensures AtGates(s') - {t} == AtGates(s) - {t}
  {}

  lemma OneGate(s: Sys, t: nat)
    requires t in s.threads
    ensures |AtGates(s)| == |AtGates(s) - {t}| + if s.threads[t].AtGate? then 1 else 0
  {
    if s.threads[t].AtGate? {
      assert AtGates(s) == (AtGates(s) - {t}) + {t};
    } else {
      assert AtGates(s) == AtGates(s) - {t};
    }
  }

  /** What a step does for the thread inside. */
  lemma LeftMoves(s: Sys, l: Label, t: nat)
    requires HeldBy(s, t) && Enabled(s, l)
    ensures t in Step(s, l).threads && Left(Step(s, l), t) == Left(s, t) - (if Advances(l) then 1 else 0)
  {
    if OfThread(l) {
      ThreadStep(s, l, t);
    }
    assert !l.TakeGate?;
  }

  /** Every step that advances is one less to do, and every break ten more. */
  lemma StepCounts(s: Sys, l: Label)
    requires Inv(s) && Enabled(s, l)
    ensures ToDo(Step(s, l)) == ToDo(s) + (if l.Break? then 10 else 0) - (if Advances(l) then 1 else 0)
  {
    hide Free, HeldBy, Step, Left, ToDo, AtGates, Enabled;
    GateMoves(s, l);
    if Free(s) {
      ToDoFree(s);
      FreeStep(s, l);
      FreeMoves(s, l);
      if l.TakeGate? {
        ToDoHeld(Step(s, l), l.t);
      } else {
        ToDoFree(Step(s, l));
      }
    } else {
      var t :| HeldBy(s, t);
      ToDoHeld(s, t);
      LeftMoves(s, l, t);
      if OfThread(l) {
        ThreadStep(s, l, t);
      } else {
        OtherStep(s, l, t);
      }
      if OfThread(l) && l.Release? {
        ToDoFree(Step(s, l));
        LastLeft(s, l);
      } else {
        HeldGate(s, l, t);
        ToDoHeld(Step(s, l), t);
      }
    }
  }

  lemma HeldGate(s: Sys, l: Label, t: nat)
    requires HeldBy(s, t) && Enabled(s, l)
    ensures !l.TakeGate?
  {}

  lemma LastLeft(s: Sys, l: Label)
    requires Enabled(s, l) && l.Release?
    ensures Left(s, l.t) == 1
  {}

  lemma FreeMoves(s: Sys, l: Label)
    requires Free(s) && Enabled(s, l)
    ensures Advances(l) ==> l.TakeGate?
    ensures l.TakeGate? ==> l.t in Step(s, l).threads && Left(Step(s, l), l.t) == 9
  {
    assert OfThread(l) ==> Inside(s, l.t);
  }

  function Breaks(labels: seq<Label>): nat
    decreases |labels|
  {
    if labels == [] then 0 else (if labels[0].Break? then 1 else 0) + Breaks(labels[1..])
  }

  function Advancing(labels: seq<Label>): nat
    decreases |labels|
  {
    if labels == [] then 0 else (if Advances(labels[0]) then 1 else 0) + Advancing(labels[1..])
  }

  lemma {:induction false} RunCounts(s: Sys, labels: seq<Label>)
    requires Inv(s) && IsRun(s, labels)
    ensures ToDo(After(s, labels)) == ToDo(s) + 10 * Breaks(labels) - Advancing(labels)
    decreases |labels|
  {
    hide Inv, Enabled, Step, ToDo, Advances;
    if labels != [] {
      StepKeeps(s, labels[0]);
      StepCounts(s, labels[0]);
      RunCounts(Step(s, labels[0]), labels[1..]);
    }
  }

  lemma ToDoNone(s: Sys)
    requires Inv(s)
    ensures ToDo(s) == 0 <==> forall t :: t in s.threads ==> s.threads[t].Out?
  {
    if t :| t in s.threads && !s.threads[t].Out? {
      if Inside(s, t) {
        var u :| HeldBy(s, u);
        ToDoHeld(s, u);
      } else {
        assert t in AtGates(s);
      }
    } else {
      assert AtGates(s) == {};
      AllOut(s);
      ToDoFree(s);
    }
  }

  lemma AllOut(s: Sys)
    requires Inv(s) && forall t :: t in s.threads ==> s.threads[t].Out?
    ensures Free(s)
  {
    var t :| Free(s) || HeldBy(s, t);
  }

  /** Over every run: ten steps take each break from the gate through the debugger and back, no more and no fewer, so
      that what is still to be done is known from the breaks and the steps so far; nothing is left exactly when every
      thread is back. */
  lemma TenSteps(s: Sys, labels: seq<Label>)
    requires Start(s) && IsRun(s, labels)
    ensures var z := After(s, labels);
            && ToDo(z) == 10 * Breaks(labels) - Advancing(labels)
            && (Advancing(labels) == 10 * Breaks(labels) <==> forall t :: t in z.threads ==> z.threads[t].Out?)
  {
    StartInv(s);
    RunKeeps(s, labels);
    RunCounts(s, labels);
    ToDoNone(After(s, labels));
    ToDoNone(s);
  }

  /** Nothing gets stuck: while any thread is in the handler, it, another thread or the debugger can take a step, and
      one that leaves less to do, whatever the debugger decides. */
  lemma NoDeadlock(s: Sys, labels: seq<Label>, t: nat, h: bool)
    returns (l: Label)
    requires Start(s) && IsRun(s, labels)
    requires t in After(s, labels).threads && After(s, labels).threads[t] != Out
    ensures Enabled(After(s, labels), l) && Advances(l) && (l.WriteHandled? ==> l.h == h)
    ensures ToDo(Step(After(s, labels), l)) == ToDo(After(s, labels)) - 1
  {
    StartInv(s);
    RunKeeps(s, labels);
    hide IsRun, After, Step, ToDo;
    l := NextStep(After(s, labels), t, h);
    StepCounts(After(s, labels), l);
  }

  lemma NextStep(z: Sys, t: nat, h: bool)
    returns (l: Label)
    requires Inv(z) && t in z.threads && z.threads[t] != Out
    ensures Enabled(z, l) && Advances(l) && (l.WriteHandled? ==> l.h == h)
  {
    if Free(z) {
      assert !Inside(z, t);
      l := TakeGate(t);
    } else {
      var u :| HeldBy(z, u);
      match z.threads[u]
      case Took => l := Store(u);
      case Stored => l := Signal(u);
      case Waiting =>
        l := if z.debugEvent then WaitForEvent else if z.dbg.Handling? then WriteHandled(h)
             else if z.dbg.Wrote? then SetContinue else TakeContinue(u);
      case Woken => l := ReadHandled(u);
      case Decided(_) => l := Clear(u);
      case Cleared(_) => l := Release(u);
    }
  }

  // ----- what each party did is what the other saw -----

  /** The threads that signalled, and the decisions the debugger made. */
  function Signals(labels: seq<Label>): seq<nat>
    decreases |labels|
  {
    if labels == [] then [] else (if labels[0].Signal? then [labels[0].t] else []) + Signals(labels[1..])
  }

  function Decisions(labels: seq<Label>): seq<bool>
    decreases |labels|
  {
    if labels == [] then [] else (if labels[0].WriteHandled? then [labels[0].h] else []) + Decisions(labels[1..])
  }

  function Waits(labels: seq<Label>): nat
    decreases |labels|
  {
    if labels == [] then 0 else (if labels[0].WaitForEvent? then 1 else 0) + Waits(labels[1..])
  }

  function Releases(labels: seq<Label>): nat
    decreases |labels|
  {
    if labels == [] then 0 else (if labels[0].Release? then 1 else 0) + Releases(labels[1..])
  }

  lemma StepTells(s: Sys, l: Label)
    requires Inv(s) && Enabled(s, l)
    ensures var t := Step(s, l);
            && t.breaks == s.breaks + (if l.Signal? then [l.t] else [])
            && t.decisions == s.decisions + (if l.WriteHandled? then [l.h] else [])
            && |t.delivered| == |s.delivered| + (if l.WaitForEvent? then 1 else 0)
            && |t.results| == |s.results| + (if l.Release? then 1 else 0) && s.results <= t.results
            && forall u :: u in s.threads ==>
                 && u in t.threads
                 && (!s.threads[u].Out? && t.threads[u].Out? ==> l.Release? && t.results[|s.results|].0 == u)
  {
    hide Free, HeldBy;
    if l.WaitForEvent? {
      WaitTells(s);
    }
  }

  lemma WaitTells(s: Sys)
    requires Inv(s) && s.debugEvent
    ensures s.lastStack.Some?
  {}

  lemma Heads(labels: seq<Label>)
    ensures labels == [] ==>
              Signals(labels) == [] && Decisions(labels) == [] && Waits(labels) == 0 && Releases(labels) == 0
    ensures labels != [] ==>
              var l, rest := labels[0], labels[1..];
              && Signals(labels) == (if l.Signal? then [l.t] else []) + Signals(rest)
              && Decisions(labels) == (if l.WriteHandled? then [l.h] else []) + Decisions(rest)
              && Waits(labels) == (if l.WaitForEvent? then 1 else 0) + Waits(rest)
              && Releases(labels) == (if l.Release? then 1 else 0) + Releases(rest)
  {}

  lemma {:induction false} RunTells(s: Sys, labels: seq<Label>)
    requires Inv(s) && IsRun(s, labels)
    ensures var z := After(s, labels);
            && z.breaks == s.breaks + Signals(labels) && z.decisions == s.decisions + Decisions(labels)
            && |z.delivered| == |s.delivered| + Waits(labels) && |z.results| == |s.results| + Releases(labels)
    decreases |labels|
  {
    hide Inv, Enabled, Step, Signals, Decisions, Waits, Releases;
    Heads(labels);
    if labels != [] {
      StepKeeps(s, labels[0]);
      StepTells(s, labels[0]);
      RunTells(Step(s, labels[0]), labels[1..]);
    }
  }

  /** Over every run, the debugger has been told of the first breaks signalled, one for each time it waited
      successfully, and the threads that have gone back are the first that broke, each with the decision made
      for it. */
  lemma HandedOver(s: Sys, labels: seq<Label>)
    requires Start(s) && IsRun(s, labels)
    ensures var z := After(s, labels);
            && Waits(labels) <= |Signals(labels)| && z.delivered == Signals(labels)[..Waits(labels)]
            && Releases(labels) <= |Decisions(labels)| && Releases(labels) <= |Signals(labels)|
            && |z.results| == Releases(labels)
            && forall i :: 0 <= i < Releases(labels) ==> z.results[i] == (Signals(labels)[i], Decisions(labels)[i])
  {
    StartInv(s);
    RunTells(s, labels);
    DeliveredOnce(s, labels);
  }

  lemma {:induction false} Extend(s: Sys, labels: seq<Label>, l: Label)
    requires IsRun(s, labels) && Enabled(After(s, labels), l)
    ensures IsRun(s, labels + [l]) && After(s, labels + [l]) == Step(After(s, labels), l)
    decreases |labels|
  {
    if labels == [] {
      assert [l][1..] == [];
    } else {
      Extend(Step(s, labels[0]), labels[1..], l);
      assert (labels + [l])[1..] == labels[1..] + [l];
    }
  }

  /** A thread that is back has a result since. */
  lemma {:induction false} BackWithResult(s: Sys, t: nat, more: seq<Label>)
    requires Inv(s) && IsRun(s, more) && t in s.threads
    ensures var z := After(s, more);
            && s.results <= z.results && t in z.threads
            && (!s.threads[t].Out? && z.threads[t].Out? ==>
                  exists i :: |s.results| <= i < |z.results| && z.results[i].0 == t)
    decreases |more|
  {
    hide Inv, Enabled, Step;
    if more != [] {
      var u, z := Step(s, more[0]), After(s, more);
      StepKeeps(s, more[0]);
      StepTells(s, more[0]);
      BackWithResult(u, t, more[1..]);
      if !s.threads[t].Out? && u.threads[t].Out? {
        assert z.results[|s.results|] == u.results[|s.results|];
      }
    }
  }

  /** From every state of every run, whatever the debugger decides, the threads in the handler can all go back: as many
      steps as there are to do, and every break has been delivered and every thread has the decision on its own. */
  lemma AllGoBack(s: Sys, labels: seq<Label>, decide: nat -> bool, t: nat)
    returns (more: seq<Label>)
    requires Start(s) && IsRun(s, labels) && t in After(s, labels).threads
    ensures IsRun(s, labels + more) && |more| == ToDo(After(s, labels)) && forall l :: l in more ==> Advances(l)
    ensures var y, z := After(s, labels), After(s, labels + more);
            && (forall u :: u in z.threads ==> z.threads[u].Out?) && z.delivered == z.breaks
            && |z.results| == |z.breaks| == |z.decisions|
            && (forall i :: |y.decisions| <= i < |z.decisions| ==> z.decisions[i] == decide(i))
            && (forall i :: 0 <= i < |z.results| ==> z.results[i] == (z.breaks[i], z.decisions[i]))
            && (!y.threads[t].Out? ==> exists i :: |y.results| <= i < |z.results| && z.results[i].0 == t)
  {
    var y := After(s, labels);
    StartInv(s);
    RunKeeps(s, labels);
    hide IsRun, After, Step, ToDo, Inv, Start;
    more := GoBack(y, decide);
    RunJoins(s, labels, more);
    BackWithResult(y, t, more);
    var z := After(y, more);
    RunKeeps(y, more);
    QuietAtEnd(z);
  }

  lemma QuietAtEnd(z: Sys)
    requires Inv(z) && forall u :: u in z.threads ==> z.threads[u].Out?
    ensures z.delivered == z.breaks && |z.results| == |z.breaks| == |z.decisions| && Paired(z, |z.results|)
  {
    AllOut(z);
  }

  lemma {:induction false} RunJoins(s: Sys, labels: seq<Label>, more: seq<Label>)
    requires IsRun(s, labels) && IsRun(After(s, labels), more)
    ensures IsRun(s, labels + more) && After(s, labels + more) == After(After(s, labels), more)
    decreases |labels|
  {
    hide Enabled, Step;
    if labels == [] {
      assert labels + more == more;
    } else {
      RunJoins(Step(s, labels[0]), labels[1..], more);
      assert (labels + more)[1..] == labels[1..] + more;
    }
  }

  lemma {:induction false} GoBack(y: Sys, decide: nat -> bool)
    returns (more: seq<Label>)
    requires Inv(y)
    ensures IsRun(y, more) && |more| == ToDo(y) && (forall l :: l in more ==> Advances(l)) && Inv(After(y, more))
    ensures var z := After(y, more);
            && (forall u :: u in z.threads ==> z.threads[u].Out?) && |y.decisions| <= |z.decisions|
            && (forall i :: |y.decisions| <= i < |z.decisions| ==> z.decisions[i] == decide(i))
            && z.decisions[..|y.decisions|] == y.decisions
    decreases ToDo(y)
  {
    hide Inv, Enabled, Step, ToDo, Advances;
    ToDoNone(y);
    if ToDo(y) == 0 {
      more := [];
    } else {
      var t :| t in y.threads && !y.threads[t].Out?;
      var l := NextStep(y, t, decide(|y.decisions|));
      StepKeeps(y, l);
      StepCounts(y, l);
      StepTells(y, l);
      var x := Step(y, l);
      var rest := GoBack(x, decide);
      more := [l] + rest;
      assert more[1..] == rest;
      var z := After(x, rest);
      assert z.decisions[..|y.decisions|] == z.decisions[..|x.decisions|][..|y.decisions|];
      if l.WriteHandled? {
        assert z.decisions[|y.decisions|] == z.decisions[..|x.decisions|][|y.decisions|];
      }
    }
  }

  /** The rule that continue is called only for an event is needed: if WaitForContinue is set while no event is under
      way, the next thread that breaks goes back, with whatever decision was made last, without the debugger. */
  lemma {:induction false} EarlyContinueSkips(s: Sys, t: nat)
    returns (waiting: Sys, back: Sys)
    requires Free(s) && In(s, t, AtGate)
    ensures waiting == Step(Step(Step(s.(cont := true), TakeGate(t)), Store(t)), Signal(t))
    ensures Enabled(waiting, TakeContinue(t))
    ensures back == Step(Step(Step(Step(waiting, TakeContinue(t)), ReadHandled(t)), Clear(t)), Release(t))
    ensures back.debugEvent && back.delivered == s.delivered && back.results == s.results + [(t, s.handledLast)]
  {
    waiting := Step(Step(Step(s.(cont := true), TakeGate(t)), Store(t)), Signal(t));
    back := Step(Step(Step(Step(waiting, TakeContinue(t)), ReadHandled(t)), Clear(t)), Release(t));
  }
}
