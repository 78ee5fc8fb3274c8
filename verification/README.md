# A model of the UnderC engine and the DBK driver's algorithms

This project models, in Dafny, the hard parts of two pieces of software in one repository: UnderC, a small C++
compiler with a stack engine and a debugger (`underc/sourcecode/src`, `include/ucri`), and the algorithms of a kernel
debugging driver (`DBKKernel`). Each module says in its head comment which files it is about.

The compiler and its engine:

- `Arith`, `Machine`: 32-bit arithmetic; the engine's instructions, state (live and dead stack words, frames, data
  segment) and one turn of its execution loop. `Words`, `Operators`: what its operators compute, said on bits, quotients
  and remainders.
- `Source`: expression trees and statements as the parser builds them, and what they mean: last-to-first arguments, raw
  operands from `||` and `&&`, first matching `case`, last `default`, faults, and runs that go on for ever (through fuel).
- `Definedness`: checks on the text of a program under which nothing it does is left undefined. `Parts`: the static
  conditions of this model said on the parts of trees and statements.
- `Codegen`: the code a tree turns into, as a value, with the labels a statement stands under; `Placing`: the algebra
  of labels that are named first and placed later; `Emitter`, `Parser`: the classes that really emit (instruction
  buffer, labels with reference lists, switch blocks, the five parser stacks), proved to leave just that code.
- `Binding`: which loop a `break` or `continue` is given to, and exactly when that is the right one. `SimBase`,
  `Simulation`, `Correctness`: running the code follows the meaning of the tree, to the end, into a fault, or for ever.
- `Calling`: what every call that comes back leaves behind, whatever code it ran.
- `Worked`: two programs from their trees to the result on the engine's stack, through all of the above.
- `Finish`, `Peephole`: what `FunctionContext::finalize` does to the end of a function, and when that is sound.
- `Folding`: constants evaluated at compile time. `VirtualTables`: virtual method tables.
- `Unwind`: the object destruction stack and exceptions. `Breakpoints`, `Rebuild`: the debugger half.
- `Persist`: object graphs written as text and read back.

The driver: `Memscan` (the region walk through the page tables' self-map), `DebugEvents` (the hand-off of debug events),
`CriticalSection` (the re-entrant lock), `DebugRegisters` (the guest's view of the debug registers).

## Where the code does not do what it is for

The model keeps the code's behaviour; each of these comes with a lemma that says exactly when it does what is meant.

- A comma whose left side ignores `DROP_VALUE` leaves that value on the stack, and a binary operator then takes it for
  its left operand: `CommaExactly` and `CommaSpoilsOperand` say exactly when, `SpoiledCall` what a call of such a function
  comes to. `Clean` is the condition, asked only of the functions a call can reach.
- `init_block` gives `break` and `continue` to the first block opened after a loop's head. The code is that of the same
  program with braces around every loop body exactly when it is `Bound` (`BoundExactly`), a condition read off the program
  text and the offsets; braces are enough (`BracedIsBound`). `while (c) if (d) { break; }` is never bound: its break is
  compiled as a continue (`BreakIsContinue`), and the loop is not left (`UnbracedBreakNeverLeaves`).
- The return-jump peephole places only the return label again. It is the sound removal of that jump exactly when no
  other jump goes to the end of the function (`FinalIsSqueezed`); a void function that ends in `if (c) return;` runs off
  its end when it does not return (`TrailingIfReturnFails`).
- The search for a handler starts at the oldest try block. It lands where section 15.1 of ISO/IEC 14882:1998 asks
  exactly when no two live try blocks would take the exception (`LandsInNearest`), and resumes the call that entered the
  block exactly when its function has not been called again since (`ResumesEnterer`).
- An override is put into the table only when the name lookup sees the function it overrides: not behind another
  overload in its own class, nor behind a class in between that declares the name otherwise (`OverridesExactly`).
- The lock takes a free section that holds a CPU's number for that CPU's own once another CPU has locked it; a section
  filled with zeros holds that of CPU 0. It is safe exactly when the section starts with the number of none of several
  CPUs (`SafeExactly`).
- Merging a 2 MB page into a region adds 4096 to its size, so the size reaches the next change of protection exactly when
  no 2 MB page is merged after the first block (`GetMemoryRegionData`). The R/W bits above the entry that maps a page are
  not read: a region called writable is one exactly when none of them is clear (`RegionEffective`).
- A thread that waits in the debugger puts its copy of the shown debug registers back on the CPU it wakes up on. The guest
  reads its own last write exactly when that survives (`ReadsLastWrite`); one made there meanwhile is lost
  (`WaitLosesWrite`).
- Compile-time `||` and `&&` give 0 or 1 where the engine keeps the raw operand, and evaluate both sides. All of a tree
  folds to its meaning exactly when it is `Tame` (`TameExactly`); one whose value is not used under an operator needs less
  (`FoldIsTruth`); and folding crashes where the engine does not fault exactly when it is `Spurious` (`CrashesAlone`).

## Model

| member | source | states |
|---|---|---|
| Operators.EngineExactly | underc/sourcecode/src/engine.cpp:993-1011 | for all 32-bit operands the engine leaves v if and only if v is the word that a op b is: congruent modulo 2^32 for + - *, the quotient cut toward zero and the remainder with the dividend's sign for / and %, bit by bit for &, OR and ^, the bits moved by the low five bits of the count for the shifts, 1 or 0 for comparisons; there is one such word at most, and the division error is the only other way |
| Words.TrapsExactly | underc/sourcecode/src/engine.cpp:996-1007 | there is a divide error if and only if there is no such quotient of 32 bits |
| Operators.MeaningExactly | underc/sourcecode/src/common.cpp:1851-1883 | the source's operators, and the folder's where it has them, give that same word |
| Operators.UnaryExactly | underc/sourcecode/src/engine.cpp:992-1003 | negation modulo 2^32, and 1 for 0 and 0 for the rest, in engine and source |
| Machine.StackIsMemory | underc/sourcecode/src/engine.cpp:975-977 | popping leaves the stack's memory as it was and only moves mSP; pushing writes one word |
| Machine.FramesInMemory | underc/sourcecode/src/engine.cpp:718-776 | so does entering a function, whose locals start with the words that were there, and leaving one |
| Correctness.HasMeaning | underc/sourcecode/src/parser.y:891-960 | a program that passes the checks of Definedness (locals given values before they are read, arguments and results as declared, a return on every path that owes one) has a meaning on all arguments and globals: a value if and only if its function is to return one, unless it faults or has not come to its end |
| Correctness.WellFormedHalts | underc/sourcecode/src/engine.cpp:924-934 | for such programs the engine stops if and only if the source run comes to an end |
| Parts.CleanExactly | underc/sourcecode/src/code.cpp:425-729 | a tree is clean if and only if every comma in it has a left side that honours DROP_VALUE and every call is of one of the functions asked about |
| Parts.HonoursExactly | underc/sourcecode/src/code.cpp:425-729 | a tree honours DROP_VALUE if and only if every path through its commas and conditionals ends in an assignment, an increment or a call |
| Parts.StatementExactly | underc/sourcecode/src/code.cpp:425-729 | a statement is clean if and only if its expressions are, and leaves no droppings, as far as its text tells, if and only if the expressions it throws away honour the flag |
| Parts.StatementPasses | underc/sourcecode/src/parser.y:891-960 | every statement, of whatever shape, whose parts read only locals that have values and call only functions that return them passes the checks |
| Worked.FactFromOutside | underc/sourcecode/src/engine.cpp:924-934 | started from outside on a stack with nothing but n, the engine stops with n! modulo 2^32 in its place |
| Worked.FactRuns | underc/sourcecode/src/function.cpp:245-267 | the finished code of a recursive factorial, called with any n below 2^31 from any context, comes back with n! modulo 2^32 on the caller's stack |
| Worked.SumRuns | underc/sourcecode/src/function.cpp:245-267 | that of a loop left by a break, with a comma in its body, with the sum of the numbers up to n |
| Correctness.ExprCorrect | underc/sourcecode/src/code.cpp:425-729 | code compiled from any clean tree, from any state, ends just past itself with the source value pushed, the store equal to the source store and every other stack word, frame and register as it was; a source fault is an engine fault |
| Correctness.CallCorrect | underc/sourcecode/src/engine.cpp:718-776 | a call whose source run comes to an end, nested or recursive, of functions compiled as meant as far as the call can reach, comes back after the CALL with its arguments replaced by the source's result, if any, the store equal to the source store, and the caller's registers, frames and deeper words untouched |
| Calling.CallsReturn | underc/sourcecode/src/engine.cpp:718-776 | every call that comes back, of any function in any image and from any state: whenever the frame stack is first as deep as the caller's again, baseSP, function and frames are the caller's, it goes on after the CALL, and mSP is where it was before the arguments, with one word more if and only if the called function itself returned with RETI |
| Calling.CompiledCallsReturn | underc/sourcecode/src/engine.cpp:1119-1132 | in particular every call of a compiled function that comes back, clean and bound or not, with a meaning in the source or without, finished or not: the extra word is there if and only if the function is not void |
| Calling.RunInside | underc/sourcecode/src/engine.cpp:718-776 | until then the caller's frames and the callee's registers are kept through every call and return on top of them |
| Correctness.HaltsExactly | underc/sourcecode/src/engine.cpp:924-934 | for programs with a meaning, the engine stops if and only if the source run comes to an end |
| Correctness.DroppingsExactly | underc/sourcecode/src/code.cpp:425-729 | compiled with DROP_VALUE a tree leaves its value behind if and only if the path taken ignores the flag |
| Correctness.CommaExactly | underc/sourcecode/src/code.cpp:700-704 | in any function, a comma yields its right value on an otherwise unchanged stack if and only if its left side left nothing |
| Correctness.CommaSpoilsOperand | underc/sourcecode/src/code.cpp:433-443 | in any function and for any clean a, g and b, `a op (g, b)` gives a op b when g clears, else g op b with a left below, or a fault where that faults |
| Correctness.SpoiledCall | underc/sourcecode/src/code.cpp:700-704 | a call of a void function `x = a op (g, b);` whose g does not clear stores g op b where the source stores a op b |
| Correctness.UnbracedBreakNeverLeaves | underc/sourcecode/src/common.cpp:517-585 | `while (c) if (d) { break; }`, with any conditions that stay true as long as they are evaluated, ends in the source and never in the engine |
| Simulation.ExprSim | underc/sourcecode/src/code.cpp:425-729 | the step-by-step simulation behind ExprCorrect, for every form of tree, with and without DROP_VALUE, including faults and runs that do not end |
| Simulation.StmtSim | underc/sourcecode/src/common.cpp:676-845 | any nesting of if, else, while, for, do, switch, break, continue and return that is bound reaches the source's store and exit (fall-through, break, continue or returned value) at the offset the labels say, whatever flag and labels it was compiled with |
| Simulation.BodySim | underc/sourcecode/src/engine.cpp:1119-1132 | a function body run to its RETx removes its frame, its droppings and its arguments, and returns what the body returned |
| Simulation.ArgsSim | underc/sourcecode/src/code.cpp:318-326 | arguments are evaluated last to first and end up with the first on top |
| Simulation.SwitchLands | underc/sourcecode/src/engine.cpp:644-652 | the table search lands on the code of the first arm with the value, else on the last default, else past the switch |
| Binding.BoundExactly | underc/sourcecode/src/common.cpp:517-585 | a statement's code is that of the same statement with braces around every loop body if and only if each break and continue, followed through in_loop and the labels, goes to the exit or the end of the body it belongs to |
| Binding.BracedIsBound | underc/sourcecode/src/common.cpp:517-585 | braces around every loop body that has a break or continue of its own are enough |
| Binding.OnlyEscapesMatter | underc/sourcecode/src/common.cpp:517-585 | a braced statement's code depends on in_loop and the label stacks only through the breaks and continues that leave it |
| Binding.BodyBinds | underc/sourcecode/src/common.cpp:517-585 | a loop body, braced or not, is compiled as if break went to the loop's exit and continue to the body's end if and only if it is bound |
| Binding.BreakIsContinue | underc/sourcecode/src/common.cpp:517-585 | the break of `while (c) if (d) { break; }` is compiled as a continue, whatever the conditions |
| Binding.EmbraceMeans | underc/sourcecode/src/parser.y:891-940 | the braces do not change what a statement means |
| Placing.PlaceStmt | underc/sourcecode/src/code.cpp:127-133 | placing a label in emitted code is generating the code with the label already placed, for every statement |
| Placing.SwitchEmitted | underc/sourcecode/src/code.cpp:158-189 | break label, table and continue label filled in after the arms give the code of the whole switch |
| Emitter.CodeGen.Here | underc/sourcecode/src/code.cpp:127-133 | patching the recorded places gives every jump that waits for the label, and no other instruction, the current offset |
| Emitter.CodeGen.EmitJump | underc/sourcecode/src/code.cpp:135-140 | a jump to a placed label gets its offset; one to an open label is recorded and named |
| Emitter.CodeGen.Compile | underc/sourcecode/src/code.cpp:425-729 | appends exactly the code of the tree and leaves every label that was open as it was |
| Emitter.CodeGen.CompileCall | underc/sourcecode/src/code.cpp:318-377 | the loop over the arguments emits them in reverse order, then the call and the drop of an unwanted result |
| Emitter.SwitchBlock.Construct | underc/sourcecode/src/code.cpp:174-189 | the block holds the number of cases, the default or the end, then the value and offset pairs |
| Emitter.CodeGen.FinishFunction | underc/sourcecode/src/function.cpp:245-267 | editing the buffer and the return label's reference list leaves the finished code, RETx and the end marker |
| Parser.ParserState.DoBreakContinue | underc/sourcecode/src/common.cpp:804-811 | jumps to the innermost open label of its kind, or refuses when there is none |
| Parser.ParserState.DoLoopEnd | underc/sourcecode/src/common.cpp:709-716 | the jump forward or back, the label taken off the stack and placed after it |
| Parser.ParserState.InitBlock | underc/sourcecode/src/common.cpp:517-585 | which stacks a block pushes, given the flags in_loop and in_switch |
| Parser.ParserState.FinalizeBlock | underc/sourcecode/src/common.cpp:610-645 | closing a block finishes its switch, then places its continue label, then drops its break label |
| Parser.ParserState.ForStmt | underc/sourcecode/src/parser.y:929-937 | the actions of a for statement leave its code and restore every stack, with its own block taking the enclosing loop's flag |
| Parser.ParserState.SwitchStmt | underc/sourcecode/src/common.cpp:815-845 | the actions of a switch leave its code, table included, and restore every stack |
| Parser.ParserState.Statement | underc/sourcecode/src/parser.y:891-960 | for every statement: its code is appended, and label, break, continue, switch and block stacks are as before |
| Parser.BracedIsLegal | underc/sourcecode/src/common.cpp:804-811 | a statement with braces where they are needed is accepted wherever its own breaks and continues have a target; a break that is itself the body of a loop is refused (UnbracedRefused) |
| Parser.CompileFunction | underc/sourcecode/src/common.cpp:490-650 | from the opening brace to the code block: the finished code of the function |
| Finish.FinalizedIsSqueezed | underc/sourcecode/src/function.cpp:245-253 | what finalize makes of the code is the code with the last jump taken out and all targets moved along if and only if nothing but returns goes to its end |
| Finish.StmtTargets | underc/sourcecode/src/common.cpp:676-845 | no jump or table entry of a statement goes past its end, except where the labels in force say |
| Finish.ReturnLastIsSafe | underc/sourcecode/src/function.cpp:245-253 | every function whose last statement is a return is finished soundly |
| Peephole.RunMatches | underc/sourcecode/src/function.cpp:245-253 | every run of the plain code is matched by one of the squeezed code, never longer and at least about half as long, through calls in both directions |
| Peephole.FinalIsSqueezed | underc/sourcecode/src/function.cpp:245-267 | the same for a whole function block |
| Peephole.FinalCallCorrect | underc/sourcecode/src/function.cpp:245-267 | calls of finished functions come back as CallCorrect says |
| Peephole.FinalHaltsExactly | underc/sourcecode/src/function.cpp:245-267 | a finished program stops if and only if the source run ends |
| Peephole.UnsafeJumpsPast | underc/sourcecode/src/function.cpp:245-253 | an unsoundly finished function has a jump or table entry past its RETx |
| Peephole.PastTheReturn | underc/sourcecode/src/function.cpp:245-253 | control that goes there runs off the function, where the plain code returns |
| Peephole.TrailingIfReturnUnsafe | underc/sourcecode/src/function.cpp:245-253 | every void function that ends in `if (c) return;` is finished unsafely |
| Peephole.TrailingIfReturnFails | underc/sourcecode/src/function.cpp:245-253 | a call of such a finished function comes back when it returns, and runs off the end of the code when the source falls through to its end |
| Folding.RefusesExactly | underc/sourcecode/src/common.cpp:1851-1883 | folding gives a value or a crash if and only if no refused form is in the tree, but for one that a crash comes before |
| Folding.LazyIsMeaning | underc/sourcecode/src/common.cpp:1851-1883 | every tree the folder knows has, in any program and store, its short-circuited value with raw operands for its meaning, or faults with it |
| Folding.TameExactly | underc/sourcecode/src/common.cpp:1851-1883 | a tree and every part of it that is run fold to their meaning if and only if each logical part that is run is decided by 0 or 1 and has no crashing operand it does not run |
| Folding.FoldIsMeaning | underc/sourcecode/src/common.cpp:1851-1883 | such a tree folds to its meaning: the value, or a crash when the source faults; trees without logical operators are among them (NoLogicIsTame) |
| Folding.BitOperandsFold | underc/sourcecode/src/common.cpp:1869-1870 | so does any tree all of whose logical operands fold to 0 or 1 |
| Folding.FoldIsTruth | underc/sourcecode/src/common.cpp:1869-1870 | with operands of operators exact, a folded tree has its meaning's truth value, and its value if and only if the operand that decides is 0 or 1 |
| Folding.LogicBelowDiffers | underc/sourcecode/src/common.cpp:1869-1870 | x + c with x logical folds to its meaning if and only if the operand that decides x is 0 or 1 |
| Folding.CrashesAlone | underc/sourcecode/src/common.cpp:1858-1859 | folding crashes where running does not fault if and only if, in the order of folding, the first thing to crash is an operand that is not run or a division whose operands fold to other values than theirs |
| Folding.FoldsBothSides | underc/sourcecode/src/common.cpp:1858-1859 | a crashing right side of an OR decided by a non-zero left side, or an AND decided by 0, crashes the folding where the engine keeps the left value |
| Folding.LazyIsPushed | underc/sourcecode/src/common.cpp:1851-1883 | the compiled code of any such tree pushes its meaning or traps |
| Folding.FoldedIsPushed | underc/sourcecode/src/common.cpp:1851-1883 | the folded value of FoldIsTruth's trees is what the compiled code pushes, as truth value always and as value exactly as said there |
| VirtualTables.NearExactly | underc/sourcecode/src/common.cpp:1268-1283 | a name is looked up in the nearest class that declares it at all |
| VirtualTables.OwnScope | underc/sourcecode/src/common.cpp:1304-1325 | a class's scope has just its declarations, each overload under its signature with its last function |
| VirtualTables.FinalExactly | underc/sourcecode/src/class.cpp:61-103 | the final overrider is there if and only if some class of the chain declares the function virtual, and is the last of its declarations |
| VirtualTables.DeclaredCall | underc/sourcecode/src/engine.cpp:278-281 | a call of a function declared by any class of a chain, through that class: its own last declaration is found, called directly if no class up to there has it virtual, and else through a slot that holds the last declaration of the object's whole chain |
| VirtualTables.ClippedTakesFirst | underc/sourcecode/src/common.cpp:1279 | an override whose slot is past 512 overwrites the first slot |
| VirtualTables.ChainTables | underc/sourcecode/src/class.cpp:61-103 | each virtual function of a class has its own slot, and the slot holds the final overrider of section 10.3 of ISO/IEC 14882:1998 |
| VirtualTables.SlotsStay | underc/sourcecode/src/class.cpp:73-79 | a derived class's table extends its base's |
| VirtualTables.VirtualCall | underc/sourcecode/src/engine.cpp:278-281 | a call through any base class of an object's class runs the final overrider |
| VirtualTables.ConstructedCall | underc/sourcecode/src/engine.cpp:1052-1061 | an object constructed by CCALL and called by VCALL at any later point, whatever has been called and constructed between, starts its class's final overrider, as long as no other CCALL was made on it |
| VirtualTables.BasesBuiltPlainly | underc/sourcecode/src/code.cpp:353-363 | the plain calls that construct its base classes are none |
| VirtualTables.NoOverloadsRegular | underc/sourcecode/src/common.cpp:1268-1325 | a chain in which no name has two signatures and no class declares one twice, with fewer than 250 declarations, meets the condition of these results: every override is seen |
| VirtualTables.OverridesExactly | underc/sourcecode/src/common.cpp:1268-1325 | a function takes over the slot of the virtual one it overrides if and only if the lookup sees that one |
| VirtualTables.Staging.SetBaseClass | underc/sourcecode/src/class.cpp:72-79 | the base's finalized table is copied into the shared buffer |
| VirtualTables.Staging.DefineClass | underc/sourcecode/src/class.cpp:184-195 | staged declaration by declaration in the shared buffer, a class ends up with the table above |
| Unwind.UnwindExactly | underc/sourcecode/src/engine.cpp:522-551 | every record down to and including the topmost one for p (or the bottom) is destroyed, newest first, the records below are left and every register is put back; an entry that is no class ends it there with the registers put back, a destructor that throws with the registers as it left them, and the records below stay |
| Unwind.UnwoundExactly | underc/sourcecode/src/engine.cpp:505-520 | a p that is not on the stack, or an empty stack, changes nothing; 0 with no record for address 0 destroys everything |
| Unwind.DueOnce | underc/sourcecode/src/engine.cpp:522-551 | each of those records with a destructor is destroyed exactly as often as it is on the stack |
| Unwind.UnwindCompose | underc/sourcecode/src/engine.cpp:522-551 | unwinding to q and then to p further down is unwinding to p at once |
| Unwind.Engine.DoUnwind | underc/sourcecode/src/engine.cpp:497-552 | the search and the loop leave just those records, destructions and registers, failed destructors included, for every p and for 0 |
| Unwind.Engine.MatchThrownObject | underc/sourcecode/src/engine.cpp:1701-1715 | finds the first catch block of the type, of a type it derives from, or for everything |
| Unwind.Engine.ThrowException | underc/sourcecode/src/engine.cpp:591-628 | lands in the first matching block of the oldest try block that has one, with the records from there up destroyed and the frames above its function left; with none, every record is destroyed, newest first, and the registers are as before |
| Unwind.LandsInNearest | underc/sourcecode/src/engine.cpp:606-620 | that is the nearest handler if and only if no two live try blocks take the exception |
| Unwind.StopsAtMarker | underc/sourcecode/src/engine.cpp:616 | the unwinding stops at the chosen record if and only if no later record has its address |
| Unwind.EntererActive | underc/sourcecode/src/engine.cpp:617 | leaving frames reaches the owner as long as the frame that entered the try block is there |
| Unwind.LeaveStopsFirst | underc/sourcecode/src/engine.cpp:617 | the frame resumed is the owner's most recent one |
| Unwind.ResumesEnterer | underc/sourcecode/src/engine.cpp:617 | it is the one that entered the try block if and only if its function has not been called again since |
| Breakpoints.CreateKeeps | underc/sourcecode/src/breakpoints.cpp:405-418 | setting a breakpoint keeps the original code recoverable |
| Breakpoints.DeleteKeeps | underc/sourcecode/src/breakpoints.cpp:478-482 | so does deleting one, wherever its trap is |
| Breakpoints.StepFollows | underc/sourcecode/src/breakpoints.cpp:515-536 | each step of the patched code is a step of the original code watched at the breakpoints' places, or a trap that puts its breakpoint back, never two of those in a row |
| Breakpoints.RunFollows | underc/sourcecode/src/breakpoints.cpp:515-536 | so is every run with resumes: same machine states, same stops |
| Breakpoints.CreateFollows | underc/sourcecode/src/breakpoints.cpp:405-418 | a breakpoint set at any point of a session is one more place to stop at |
| Breakpoints.DeleteFollows | underc/sourcecode/src/breakpoints.cpp:478-482 | one deleted at any point, its trap moved on or not, is one place fewer |
| Breakpoints.SessionFollows | underc/sourcecode/src/breakpoints.cpp:478-536 | any sequence of turns, settings and deletions goes through the states of the original code watched at the places asked for, with the same stops |
| Breakpoints.BreakpointsTransparent | underc/sourcecode/src/breakpoints.cpp:478-536 | over any such session the machine goes through a prefix of its original run, and undoing every live saved instruction gives the original code |
| Breakpoints.TwoBreakpoints | underc/sourcecode/src/breakpoints.cpp:405-536 | in particular two breakpoints, one that stays and one that does not, set in any program on straight-line instructions that are not next to each other |
| Breakpoints.RearmedExactly | underc/sourcecode/src/breakpoints.cpp:515-536 | a persistent breakpoint is put back by the next instruction if and only if that goes on to the one after it |
| Breakpoints.Debugger.Create | underc/sourcecode/src/breakpoints.cpp:405-418 | the first free id, the instruction saved and replaced |
| Breakpoints.Debugger.Execute | underc/sourcecode/src/breakpoints.cpp:515-536 | what a HALT does to code and table, and whether it stops the run |
| Rebuild.Module.NeedsRebuilding | underc/sourcecode/src/breakpoints.cpp:342-361 | on any graph the walk ends, visits each module it reaches once, leaves the others alone and says whether one of them was stale |
| Rebuild.CheckModules | underc/sourcecode/src/breakpoints.cpp:321-382 | after a reset the modules visited are the least closed set with the root in it, and the answer is whether one's file is newer |
| Persist.ReadWritten | include/ucri/persist.h:189-289 | reading what was written of any value, from any matching state of the two pointer maps, gives it back up to the map and uses just its lines |
| Persist.RoundTrip | include/ucri/persist.h:189-289 | a graph with sharing and cycles comes back isomorphic, and just the objects reachable from the value |
| Persist.AnyGraph | include/ucri/persist.h:189-289 | in particular any finite graph of objects with a text, an array of pointers and a list of pointers, null, shared or cyclic, from any of its objects, with virtual method tables or without |
| Persist.WriteStays | include/ucri/persist.h:189-222 | writing visits nothing outside a closed set |
| Persist.OutStreamer.Stream | include/ucri/persist.h:189-222 | the writer's lines and set of written objects |
| Persist.InStreamer.Stream | include/ucri/persist.h:226-289 | the reader's value, pointer map and new objects, or that the stream does not fit |
| Memscan.SelfMapInverse | DBKKernel/memscan.c:348-408 | address to entry and entry to address undo each other on all canonical addresses and all entries |
| Memscan.EntryOfEntry | DBKKernel/memscan.c:412-423 | the entry for an entry is the entry one level up, for all three levels |
| Memscan.FromPml4e | DBKKernel/memscan.c:628-647 | from a PML4 entry to the address of its 512 GB block and to the first page table entry of the next |
| Memscan.FromPdpte | DBKKernel/memscan.c:591-608 | the same for a page directory pointer entry and 1 GB |
| Memscan.FromPde | DBKKernel/memscan.c:446-471 | the same for a page directory entry and 2 MB |
| Memscan.Visit | DBKKernel/memscan.c:410-650 | one turn of the loop, on whatever level decides the page, against a plain walk of that page that reads the R/W bit of the entry that maps it |
| Memscan.ProtectionExactly | DBKKernel/memscan.c:410-500 | the plain walk of a page, on the entries' bits: not accessible unless every level is present, else writable or not as the entry that maps it says |
| Memscan.EffectiveExactly | DBKKernel/memscan.c:425-500 | a page is reported as the processor treats it, all R/W bits combined, if and only if it is not called writable or no entry above the one that maps it forbids writes; else it is really read-only |
| Memscan.RegionEffective | DBKKernel/memscan.c:425-500 | the same for a region |
| Memscan.GetMemoryRegionData | DBKKernel/memscan.c:360-656 | every byte of the region has the reported protection in the plain walk, and in the processor's if and only if no upper entry over the region clears R/W or it is not called writable; the walk goes on to the next change or the last page; the exact size, which reaches there if and only if no 2 MB page was merged |
| DebugEvents.OneInside | DBKKernel/debugger.c:514-636 | at every point of every run at most one thread is between taking CanBreak and giving it back |
| DebugEvents.DeliveredOnce | DBKKernel/debugger.c:318-352 | each break is delivered once, in order, and each thread goes back with the decision on its own |
| DebugEvents.HandlingOwnThread | DBKKernel/debugger.c:439-512 | while an event is handled the debugger touches the stack of the thread it was told of, which waits |
| DebugEvents.HandedOver | DBKKernel/debugger.c:318-352 | over every run the debugger has been told of just the first breaks signalled, one for each wait that succeeded, and the results are the first breaks with the debugger's own decisions in order |
| DebugEvents.OwnStackOnly | DBKKernel/debugger.c:439-512 | a stack is written only by the debugger, and only that of the thread inside the handler |
| DebugEvents.TenSteps | DBKKernel/debugger.c:514-636 | ten steps take each break from the gate through the debugger and back: what is left to do at any point of any run is ten for each break less the steps taken, and none is left if and only if every thread is back |
| DebugEvents.NoDeadlock | DBKKernel/debugger.c:514-636 | while a thread is in the handler some thread or the debugger can take one of those steps, whatever the debugger decides |
| DebugEvents.AllGoBack | DBKKernel/debugger.c:318-636 | so from every state of every run all threads in the handler can go back, in as many steps as are left, with every break delivered and each thread's own decision |
| DebugEvents.EarlyContinueSkips | DBKKernel/debugger.c:341-352 | continue called with no event under way lets the next thread go by unhandled |
| CriticalSection.EnterFree | DBKKernel/DBKFunc.c:36-58 | csEnter on a free section by a CPU on its own: locked, its number, count 1, interrupts off, the flag from before kept |
| CriticalSection.EnterOwn | DBKKernel/DBKFunc.c:42-48 | csEnter on its own section: the count one up and nothing else of the section |
| CriticalSection.LeaveOwn | DBKKernel/DBKFunc.c:60-78 | csLeave: the count one down, and from the outermost level a free section that names nobody, and the interrupt flag from before the outermost enter |
| CriticalSection.LeaveForeign | DBKKernel/DBKFunc.c:60-78 | csLeave on a section that is free or another's changes nothing |
| CriticalSection.EnterReturns | DBKKernel/DBKFunc.c:36-58 | on every run, whatever the other CPUs do meanwhile, a csEnter that comes back is one level deeper in its own section with interrupts off and the flag from before the outermost enter kept |
| CriticalSection.LeaveReturns | DBKKernel/DBKFunc.c:60-78 | a csLeave comes back after three accesses of its CPU, or six from the outermost level, and no others, one level less deep in its own section, or with the interrupt flag from before the outermost enter |
| CriticalSection.NobodyStuck | DBKKernel/DBKFunc.c:36-78 | from every state of every run each CPU in a csEnter or csLeave can come back from it, once the holder, if there is one, has given the lock up, which it can |
| CriticalSection.LockSafe | DBKKernel/DBKFunc.c:36-78 | over every run one CPU is inside, lockcount is its depth, it runs with interrupts off and the flag saved is the one from before its outermost enter |
| CriticalSection.HolderStep | DBKKernel/DBKFunc.c:60-78 | the step that gives the lock up leaves the interrupt flag as it was before the outermost enter |
| CriticalSection.SafeExactly | DBKKernel/DBKFunc.c:36-58 | the lock keeps all CPUs but one out on every run if and only if the section does not start with the number of one of several CPUs |
| DebugRegisters.OwnersInOrder | DBKKernel/debugger.c:1208-1264 | breakpoints go to registers the guest does not use, in order |
| DebugRegisters.OwnersFill | DBKKernel/debugger.c:1208-1264 | as many are placed as there are both active breakpoints and free registers |
| DebugRegisters.FreeOnlyWhenDone | DBKKernel/debugger.c:1208-1264 | a register with neither enable bit is left without a breakpoint only when every active one has a register before it |
| DebugRegisters.EpilogueEffect | DBKKernel/debugger.c:1199-1280 | a register either enable bit of which the guest has set keeps its address and DR7 fields; one given to a breakpoint has that one's; DR6 and the rest of DR7 are the guest's |
| DebugRegisters.ShownMoved | DBKKernel/debugger.c:692-871 | after an emulated write the guest reads that register back: an address as written, DR7 with the four slots and other bits as written, bit 10 set and GD clear, DR6 with B0 to B3, BD, BS and BT as written and its reserved bits fixed; the real register holds the same, and every other register, shown and real, is as before |
| DebugRegisters.ReadsLastSet | DBKKernel/debugger.c:692-1000 | over any sequence of accesses, interrupts and waits on any number of CPUs, what is shown was set by the last write on that CPU or by the thread that woke up there after it, and is then what was shown where and when that thread went to wait |
| DebugRegisters.ReadsLastWrite | DBKKernel/debugger.c:692-1000 | the guest reads back its own last write if and only if the value its origin left, followed in the event list through the threads that woke up to where they had gone to wait, is that write's; as when the origin is that write itself, which it is when no thread has woken up on that CPU since |
| DebugRegisters.ReadsOrigin | DBKKernel/debugger.c:692-1000 | through any chain of waits, what is shown is what the write found by following the event list left, or what the CPU found there showed at the start |
| DebugRegisters.WaitLosesWrite | DBKKernel/debugger.c:930-1000 | a write made on the CPU a waiting thread goes back to is lost when it does |
| DebugRegisters.GuestKeepsRegisters | DBKKernel/debugger.c:1164-1280 | after any such history, a register that the shown DR7 switches on really holds the shown address and DR7 fields once the epilogue is done, which are those the guest last wrote where its writes survive, the whole of DR7 but for bit 10 and GD |
| DebugRegisters.Processor.MoveToDebugRegister | DBKKernel/debugger.c:817-863 | the same of the code: that register, shown and real, holds the value written, field by field, and all others are as before |
| DebugRegisters.Processor.RestoreFaked | DBKKernel/debugger.c:993-1001 | what is shown becomes the waiting thread's copy; the real registers stay |
| DebugRegisters.Processor.Epilogue | DBKKernel/debugger.c:1199-1280 | the nested search loops compute the allocation |

## Left out

- Floating point, char and short truncation, pointers, arrays, strings, classes and temporaries in the compiler's
  expressions; native calls, CALLN and varargs; the option that inlines one-instruction functions; goto and labels;
  try and catch as statements: expressions are 32-bit ints and statements the structured ones.
- The sizes of the execution stack, the frame stack and the instruction buffer: the engine's stacks are unbounded, and
  that the buffer is long enough is a precondition, since the code does not check it.
- Uninitialised locals and missing return values: the source semantics gives them no meaning, and nothing is claimed but
  that their calls keep the calling discipline (CompiledCallsReturn).
- Correctness.CallCorrect: for clean, bound functions with a meaning; CallsReturn is for all calls, but for the value and
  the words below the caller's arguments, which code that pops too much can overwrite.
- VirtualTables.ConstructedCall: of the engine, only the object pointer, the table pointers and the functions started.
- The operator ~, which the engine and the folder have, and the unsigned and floating-point instructions.
- Correctness.HasMeaning: the checks are sufficient, as definite assignment is; a program that fails them may have a
  meaning all the same. Nothing in the compiler makes them.
- A function with an empty body: the code looks at the word before its buffer; the model takes it not to be a jump.
- What lies past a function's end marker: running there is an engine fault in the model.
- Parser.ParserState.Statement: says nothing about a program that has a break or continue with no loop or switch around
  it, because the parse stops there; DoBreakContinue states the refusal.
- Parser.CompileFunction: takes the parameters and locals as laid out, because add_variable is not modelled.
- Correctness.HaltsExactly: for programs with a meaning at every fuel; for the others there is no source run to compare.
- Unwind.Engine.ThrowException: for destructors that do not throw and markers whose functions still run; DoUnwind states
  what a destructor that throws leaves behind.
- Destructors that push or pop records themselves must leave the stack as they found it; a destructor is one step.
- Breakpoints.BreakpointsTransparent: for breakpoints on instructions that go to the next one, not next to each other, and
  sessions that start with no trap moved on; set_line on a live breakpoint and running out of ids are not modelled.
- Persist.RoundTrip: the stream is a sequence of lines, because the printing of numbers and addresses is not in the file;
  a char pointer is a line of text, so two pointers to one string come back as two strings, as the file says.
- The address arithmetic of m_base and the fixed-size line buffers of the persistence code.
- Memscan.GetMemoryRegionData: pages are taken in 48-bit order, across the gap between the halves of memory; attaching to
  the process and page faults on the tables are not modelled; nor are 1 GB pages, which the code does not know either,
  the user/supervisor and execute-disable bits, and CR0.WP.
- DebugEvents: interrupts above passive level, where the handler returns at once; what the saved stack holds is one number.
- CriticalSection: re-entry between enabling interrupts and clearing `locked` at lines 70-74, and the spinning itself.
- DebugRegisters.ReadsLastWrite: values go straight to and from the register; general purpose registers, the kernel-mode
  ESP case and the decoding of the instruction are left out, and so is the debugger without global debugging. DR7 is the
  fields software can set; that DR6's reserved bits are fixed is the hardware's rule, not the code's. DR6 bits reported by
  the epilogue are computed and never written by the code.
- VirtualTables.ChainTables: imported classes, templates and redeclarations of one signature in one class.
- Rebuild: the cleaning out of macros and type names of a changed module.
- IOCTL dispatch, driver loading, interrupt-table hooks, virtual machine off-loading, the network server, process and
  thread lists, string_imp.cpp, bit-fields, operator overloading and template instantiation: not modelled.
