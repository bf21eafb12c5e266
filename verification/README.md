# Rexy: a verified model of the compiler's core

This project models the parts of the Rexy compiler (`rexc`) and of its package
manager (`rxy`) in which a mistake silently changes what a program does, and proves
what they promise. `dafny verify dfyconfig.toml` checks all of it.

| part | modules | main result |
|---|---|---|
| i386 code generator | `Words`, `Ir`, `IrSemantics`, `I386`, `EmitI386`, `SimBase`, `Simulation`, `Labels`, `Branches`, `Linking`, `Typing`, `TypingExample`, `FrameI386`, `Emitter`, `MatchDispatch`, `CompilerCorrectness` | for well-typed modules over `i32`, `u32` and `bool`, machine code and IR interpreter have the same results, divide errors, static variables, traces of extern calls, and divergence |
| frames and calls on i386, x86_64, arm64 | `Frames`, `Calls`, `Placement` | slots never overlap; what a caller evaluates for a chunk of an argument is what the callee finds for it; in which register or word it travels |
| stack on i386, x86_64, arm64 | `StackCode`, `StackLevel`, `StackProof`, `StackStatements`, `StackModule`, `StackMachine`, `StackEvaluation`, `StackAlignment`, `StackErasure`, `StackSteps`, `StackEmitter` | on every path through every function, nested calls included, the stack pointer is where the emitter thinks it is and comes back; which calls are aligned; the detailed i386 code and this one agree |
| control flow on i386, x86_64, arm64 | `SourceFlow`, `CodeFlow`, `FlowProof`, `ControlFlow`, `TargetsAlike` | with any outcome of its tests, the code of every function makes the calls of its source in their order, leaves loops, branches and matches where the source does, and ends with it |
| symbols and labels | `Paths`, `LabelTree`, `LabelTexts` | a module defines exactly the labels its source tree asks for; as texts they are unique exactly if no two functions and no two statics share a symbol and, on arm64 ELF, no function is named like another label |
| aggregates on the three targets | `Aggregates` | packing and reading a field of a struct, tuple or enum undo each other, exactly when the value survives the field mask |
| integer literals | `Decimals`, `Literals` | acceptance is membership in the range of the type; the emitted moves load the value |
| `defer` and `?` | `DeferSource`, `DeferIr`, `DeferCorrect`, `DeferExact`, `Lowerer` | lowered code runs like a source semantics in which each `defer` guards the rest of its block, exactly where no `?` is decided too early |
| definite assignment | `DefiniteAssignment`, `AssignmentSound`, `AssignmentExact`, `SemaStructure`, `SemaAnalyzer` | no prefix of any run of an accepted function reads a name without a value, given two checkable conditions; where all code can be reached, what is rejected does so in some run |
| types | `Types`, `TypeGrammar`, `TypeParser`, `Unification`, `Layout` | spelling round trip, and which texts are types at all; unification is sound, complete and minimal; layouts are aligned, disjoint and as small as possible; when the three copies of the layout agree |
| generic functions | `Monomorph` | inference finds just the types that make the parameters those of the arguments; the worklist emits all reachable instances exactly if symbols are unique, and every call then names the one it asks for exactly if no ordinary function has its symbol |
| SHA-256 | `Sha256`, `Sha256Numbers`, `Sha256Example`, `SourceTree` | streaming in any pieces gives the digest of FIPS 180-4, whose constants are the roots they should be; the checksum of a directory does not depend on the order of listings |
| versions and dependencies | `Decimals`, `Semver`, `Resolver` | order, what each constraint admits, text; breadth-first resolution is complete, duplicate-free and sorted by distance |

Code that changes state in the compiler is imperative here: classes for the emitter,
the frame builders, the lowering pass, the analyzer, the unifier, the worklist and the
hash state, and methods with the compiler's loops. Each is proved against functions,
and the results above are lemmas about those functions.

## Where code and documentation differ, and what was found

- A `return` expression is finished after the deferred calls have run
  (src/lower_ir.cpp:1504-1511), so it sees what they change. `DeferSource` says so.
- `?` in the condition of a loop, or in the increment of a `for`, is decided once, in front
  of the loop. `DeferExact.LoopHeadCondition` proves that lowering is right there exactly
  without `?`.
- Every `?` is decided in front of its statement (src/lower_ir.cpp:881-932), so that it comes
  before operands to its left that are still to be computed, and is decided even where `&&`
  or `||` should skip it, against docs/ch04-control-flow.md:91-92. Arguments are computed
  from the last to the first, but their `?`s are decided from the first to the last.
  `DeferExact.ExpressionOrder` is exact about all of it.
- The x86_64 emitter counts the bytes it has pushed (src/codegen_x86.cpp:2119-2153) but never
  looks at the counter, so a call inside an operand, a field or another call may meet a
  misaligned stack. `StackAlignment.FunctionMet` says on the source tree which calls do;
  `StackEvaluation.OperandMisalignsCall` is `1 + g()`.
- Duplicate items are looked for by paths (src/sema.cpp:575-584), but the assembler knows
  functions and statics by symbols in which the parts of the path are joined with
  underscores (src/names.hpp:34-49): `LabelTexts.PathsMeet` is a function `b` in a module
  `a` beside a function `a_b`, `LabelTexts.StaticsMeet` the same for statics, and
  `Monomorph.PathsCollide` the same for generic functions.
- On arm64 labels have no leading dot, so that on ELF a function can be named like the label
  of another one or of a string (src/codegen_arm64.cpp:230-236, 1138, 1314-1328).
  `LabelTexts.TextsAreUnique` is exact about both for every target, and
  `LabelTexts.ReturnLabelTaken` and `LabelTexts.StringLabelTaken` are examples.
- The divergence check of definite assignment presupposes exhaustive matches
  (src/sema.cpp:960-961), which is enforced for enums only.
  `AssignmentSound.MatchDivergence` gives the exact condition and
  `AssignmentSound.DishonestMatch` a program that is accepted and reads an unassigned local.
- The analysis rejects programs that are correct: statements behind a diverging one and arms
  that no value reaches are checked like any other; a match that lists all values of a type
  that is no enum joins the state in front of it (src/sema.cpp:1225-1247); what the head of a
  `for` assigns is forgotten behind the loop, and its increment is checked against the state
  in front of the body; a deferred call is checked where it stands. `AssignmentExact` proves
  that nothing else is rejected wrongly and says of each of these what it costs.
- A deferred call is lowered with the names at the exit (src/lower_ir.cpp:1264-1270), so a
  later local can capture a name that was checked as a static, from an inner block too.
  That is harmless if the local has a value: `AssignmentSound.CaptureFails`,
  `AssignmentSound.CapturedLetFails` and `AssignmentSound.DeferredStaticCaptured`.
- Unification of a one-argument `Result` with a two-argument one looks at the payloads
  only (src/types.cpp:664-667): `Unification.UnifySound` is exact about it, with examples
  in `Unification.ArityIsLost`.
- On arm64 a `char` field keeps one byte of four (src/codegen_arm64.cpp:1549-1550):
  `Aggregates.Survives` is the condition in the round trips, and
  `Aggregates.WideCharLosesByte` a value that does not survive.
- Two instances can share a symbol, for example at `*i32` and at a struct `pi32`, and an
  ordinary function can be called `f__i32`: `Monomorph.SymbolsCollide`,
  `Monomorph.OrdinaryNameTaken`. `Monomorph.Monomorphizer.Run` says exactly what that
  costs, and `Monomorph.SymbolsAreUnique` when it cannot happen.
- A struct inside a struct is aligned to its size by the analysis and the standard library
  (src/types.cpp:486-495) and like its fields by the lowering pass
  (src/lower_ir.cpp:234-256): `Layout.NestedCopies` says exactly when sizes agree.
- A caret or tilde term whose counted component is the largest number has an upper bound
  that wraps around: `Semver.OwnVersion`.
- `-0` is not accepted for an unsigned type: see `Literals.Accepted`.
- A caret or tilde term admits pre-releases of the version it excludes: `Semver.CaretAdmits`,
  `Semver.TildeAdmits`.
- resolver.hpp says that cycles are rejected; the code skips names it has seen, and
  `Resolver` follows the code. semver.hpp says that pre-release parts are ignored in the
  order; the code orders by them, and `Semver` follows the code.

## Model

| member | source | states |
|---|---|---|
| CompilerCorrectness.WellTypedCodeIsCorrect | src/codegen_x86.cpp:106-167 | From every entry state, for every well-typed module and all argument values of the declared types, the emitted code halts with a word and a world if and only if the interpreter returns a value encoded by that word and that world; it raises a divide error if and only if the interpreter traps; it never faults; it stops if and only if the interpreter finishes. |
| CompilerCorrectness.CompiledCodeIsCorrect | src/codegen_x86.cpp:510-944 | The same agreement in both directions for every call on which the interpreter never reports ill-formed IR, typed or not. |
| TypingExample.SampleIsTyped | src/sema.cpp:1472-1510 | A recursive function with every kind of statement, loop exits, both logical operators, casts and a match is well typed. |
| Typing.WellTypedNeverWrong | src/sema.cpp:1472-1510 | In a well-typed module no call ever makes the interpreter report ill-formed IR, for any fuel, and results have the declared type. |
| Simulation.SimFunction | src/codegen_x86.cpp:141-167 | A call of an emitted function ends at its return address with the interpreter's result in `%eax`, `%ebp` restored, `%esp` past the return address and everything above the arguments unchanged, or traps or runs on as the interpreter does. |
| Simulation.SimValue | src/codegen_x86.cpp:772-853 | The code of any value leaves it in `%eax` with `%esp` level, and changes memory above the stack pointer only in the slots of names, as the interpreter changes the environment. |
| Simulation.SimBinary | src/codegen_x86.cpp:1103-1165 | Both operands are evaluated left to right with the left one on the stack, and the result is the wrapped integer result, the comparison, or the divide error of the operation. |
| Simulation.SimLogical | src/codegen_x86.cpp:1167-1217 | `&&` and `\|\|` skip the right operand exactly when the left one decides, and leave 0 or 1. |
| Simulation.SimPostfix | src/codegen_x86.cpp:913-944 | Postfix `++` and `--` update the local or static and leave the old value in `%eax`. |
| Simulation.SimArgs | src/codegen_x86.cpp:1231-1238 | Arguments are evaluated from the last to the first, and argument i ends up 4i bytes above the stack pointer. |
| Simulation.SimStmt | src/codegen_x86.cpp:510-607 | Every statement ends as the interpreter says: behind its code, at the label of the loop exit or increment, or at the return label with the value in `%eax`. |
| Simulation.SimIf | src/codegen_x86.cpp:609-630 | `if` runs the branch that the condition selects and nothing of the other. |
| Simulation.SimWhile | src/codegen_x86.cpp:721-741 | `while` repeats as often as the interpreter does; `break` leaves and `continue` tests again. |
| Simulation.SimForLoop | src/codegen_x86.cpp:743-770 | In a `for` loop `continue` goes to the increment, and the increment runs before the next test. |
| Simulation.SimDispatch | src/codegen_x86.cpp:648-675 | The compare chain of a match jumps to the first arm in source order whose pattern is the scrutinee or `_`, and to the end label if there is none. |
| Simulation.SimMatch | src/codegen_x86.cpp:632-685 | A match evaluates its scrutinee once and runs exactly the arm that the dispatch selects. |
| MatchDispatch.DispatchIsTotal | src/codegen_x86.cpp:648-675 | For an enum match that the analysis accepts, the emitted chain reaches, for every tag, the first arm that names the tag or is `_`; the end label is never the target. |
| MatchDispatch.AcceptedFits | src/sema.cpp:1193-1201 | Patterns that draw no diagnostic fit the tag, with the default alone in the last arm, as the compare chain presupposes. |
| MatchDispatch.AcceptedSelects | src/sema.cpp:1176-1229 | Without diagnostics every tag of the enum has a first arm that names it or is `_`. |
| Linking.CompiledIsLinked | src/codegen_x86.cpp:123-128 | The loaded code of a module holds every function, every label once and only entries of its functions if and only if no two functions have one symbol. |
| Linking.ModuleIsWellStructured | src/codegen_x86.cpp:2119-2158 | In the i386 code of any module every branch goes to a label of the module, and every label is defined once if and only if no two functions have one symbol. |
| Labels.StmtLabels | src/codegen_x86.cpp:721-770 | The labels in the code of a statement are distinct and numbered by the counter between its start and end values. |
| Branches.StmtGoes | src/sema.cpp:1284-1294 | If loop depth was checked, the jumps of a statement go to labels that its own code defines, to the labels of the enclosing loop or to the return label. |
| FrameI386.FrameBuilder.AssignSlot | src/codegen_x86.cpp:218-259 | The slots recorded by node are those that the emission order hands out, and no other node's slot changes. |
| Emitter.Emitter.EmitValue | src/codegen_x86.cpp:772-853 | The emitter object appends exactly the code of the value, advances the label counter accordingly and leaves the loop stacks alone. |
| Emitter.Emitter.EmitStatement | src/codegen_x86.cpp:510-607 | The same for statements: branches use the tops of the two loop stacks, and slots come from the frame by node. |
| Emitter.Emitter.EmitFor | src/codegen_x86.cpp:743-770 | Labels are taken before the initializer is emitted, and the loop stacks are pushed for the body only. |
| Emitter.Emitter.EmitMatch | src/codegen_x86.cpp:632-685 | All labels are taken first; the chain ends in a jump to the last default arm or to the end. |
| Emitter.Emitter.EmitModule | src/codegen_x86.cpp:106-131 | The output is the code of all functions in order, which is the code that the correctness theorem is about. |
| I386.CompareMeaning | src/codegen_x86.cpp:1117-1123 | The condition codes chosen for signed and unsigned comparison read the order of the operands off the flags. |
| Words.WordMul | src/codegen_x86.cpp:1130-1133 | The 32-bit product does not depend on whether the operands are read as signed or unsigned. |
| Frames.FrameBuilder.AssignLocalSlot | src/codegen_x86.cpp:261-311 | The slots of all locals in a statement are handed out in one pass, each for as many words as it has chunks, on all three targets. |
| Frames.FrameBuilder.AssignLocalSlots | src/codegen_arm64.cpp:281-329 | The same for statement lists; nothing handed out before changes. |
| Frames.ChunkCell | src/codegen_x86.cpp:1966-1974 | The chunks of a local occupy exactly its words, one each, whether the target counts them up or down. |
| Frames.SlotsAreDisjoint | src/codegen_arm64.cpp:1540-1545 | No two chunks of locals overlap, and all lie in the reserved bytes. |
| Calls.FrameIsDisjoint | src/codegen_x86.cpp:171-327 | On all three targets the chunks of register parameters and of all locals are pairwise disjoint and lie between the frame pointer and the stack pointer behind the prologue; the reserved bytes are a multiple of 16 on the 64-bit targets. |
| Calls.BuildFrame | src/codegen_arm64.cpp:252-279 | The frame consists of the parameter slots, the slots of the locals behind the register parameters, and the bytes to reserve. |
| Calls.BuildParameterSlots | src/codegen_x86.cpp:190-211 | The loop computes the callee's slot of each parameter, which `Placement` states in numbers, and the words that register parameters take. |
| Placement.TakesRegisters | src/codegen_x86.cpp:196-205 | For any chunk counts an argument travels in registers if and only if it has at most two chunks and the six registers of x86_64, or the eight of arm64, still hold them behind those that earlier arguments took; on i386 none does. |
| Placement.ParameterChunk | src/codegen_arm64.cpp:252-279 | Chunk c of a parameter is read from the word behind the register chunks in front of it, below the frame pointer, or from 16 bytes up in steps of 8 on x86_64 and of 16 on arm64, and from 8 bytes up in steps of 4 on i386. |
| Placement.ChunkTravels | src/codegen_x86.cpp:1244-1296 | At the call instruction every chunk is in the register of its number among the register chunks, or in its word from the stack pointer up. |
| Placement.WordParameters | src/codegen_x86.cpp:190-211 | Of arguments of one chunk the first six on x86_64 and the first eight on arm64 travel in registers, and the slot of argument i is the (i+1)-th word below the frame pointer; the others follow from 16 bytes up, and all from 8 bytes up on i386. |
| Placement.WordsTravel | src/codegen_arm64.cpp:1031-1076 | At the call instruction argument i of those is in register i, or in its word on the stack. |
| Calls.CallerPlacesArguments | src/codegen_x86.cpp:1244-1296 | When the call is reached, chunk c of argument i is in its register or at its place on the stack, and what was pushed before is unchanged, whatever evaluation did to registers, locals, statics and memory below the stack pointer. |
| Calls.ArgumentsArrive | src/codegen_arm64.cpp:1031-1076 | For any chunk counts, what the caller evaluated for chunk c of argument i is what the callee reads at the slot of that chunk after its spills, on all three targets. |
| Calls.SpillsRun | src/codegen_x86.cpp:1303-1319 | The register chunks of all parameters end up in their slots and no slot is overwritten. |
| Calls.StackIsBalanced | src/codegen_x86.cpp:1264-1301 | Cleanup restores the stack pointer, and on the 64-bit targets it has moved by a multiple of 16 at the call; that evaluating an argument is level is derived in `StackEvaluation`. |
| Calls.EmitCall | src/codegen_x86.cpp:1244-1301 | The emitted sequence is padding, stack chunks from last to first, register chunks from last to first, and pops in register order. |
| Calls.EmitParameterSpills | src/codegen_arm64.cpp:331-345 | The callee stores exactly the chunks that were planned for registers, in order. |
| StackMachine.ModuleIsLevel | src/codegen_arm64.cpp:227-250 | On all three targets, at every point of every path through any function of a module, with every branch going either way and all calls followed into their callees, the stack pointer is below the caller's by return address, saved frame pointer and the depth summed up by the emitter; on arm64 always by a multiple of 16; at the end stack pointer, frame pointer and everything the caller keeps are as at the entry. |
| StackMachine.PathIsLevel | src/codegen_x86.cpp:141-167 | The induction behind it, over paths with nested runs of callees. |
| StackMachine.InnerPath | src/codegen_x86.cpp:772-853 | A path that enters level code stays inside it until its end; there the stack pointer is back and everything pushed before is still there. |
| StackEvaluation.EvaluationIsLevel | src/codegen_x86.cpp:1058-1101 | Any run through the code of any chunk of any value, calls inside it included, leaves stack and frame pointer as they were and keeps what had been pushed. |
| StackEvaluation.EvaluationIsEval | src/codegen_arm64.cpp:1055-1070 | Such a run is what `Calls` takes for the single step that evaluates an argument chunk. |
| StackEvaluation.CallIsAligned | src/codegen_x86.cpp:1264-1301 | At its call instruction a call is deeper than at its start by a multiple of 16 on the 64-bit targets, so that the call is aligned if and only if its start is. |
| StackEvaluation.OperandMisalignsCall | src/codegen_x86.cpp:1110-1112 | In `1 + g()` on x86_64 the call is reached with 8 bytes on the stack. |
| StackAlignment.FunctionMet | src/codegen_x86.cpp:1246-1301 | On x86_64 all calls in the code of a function meet a depth that is a multiple of 16 if and only if they do on its source tree, where every operand, field or argument that waits counts. |
| StackAlignment.ValueMet | src/codegen_x86.cpp:1058-1101 | The same for every value at any depth, as the induction needs it. |
| StackAlignment.CallsAreAligned | src/codegen_x86.cpp:141-167 | In a module of such functions every call on every path meets a stack pointer that is a multiple of 16, if the function itself was called with one. |
| StackErasure.ModuleSame | src/codegen_x86.cpp:510-944 | Forgetting the operands in the detailed i386 code of any module leaves the stack code of its tree, with the same pushes, labels, branches, branch conditions, calls and label numbers. |
| StackErasure.ValueSame | src/codegen_x86.cpp:772-853 | The same for every value. |
| StackProof.ValueIsLevel | src/codegen_arm64.cpp:591-656 | The code of every value, at any depth, ends at that depth, never goes above it, branches only to labels of its own that are defined once and at the depth of the branch, leaves the arguments of every call on the stack, and on arm64 moves the stack pointer by multiples of 16. |
| StackProof.CallLevel | src/codegen_x86.cpp:1246-1301 | The same for calls: padding, pushes, pops and cleanup cancel out for all argument sizes. |
| StackStatements.StmtIsFlat | src/codegen_arm64.cpp:347-440 | The same for every statement at the level of the frame, with branches out only to the labels of the enclosing loop and of the function's return, at that level. |
| StackStatements.MatchIsFlat | src/codegen_arm64.cpp:463-515 | All arm labels of a match are defined once, at the level of the tests that branch to them. |
| StackModule.FunctionIsSound | src/codegen_arm64.cpp:227-250 | The body of every function starts and ends at the level that the prologue reserved, and every branch of a function stays inside it. |
| StackModule.ModuleLabels | src/codegen_arm64.cpp:1455-1458 | On all three targets every branch of a module has a target, and every label is defined exactly once if and only if no two functions have one symbol. |
| ControlFlow.FunctionFlows | src/codegen_arm64.cpp:227-250 | On all three targets, with any outcome of the tests, the code of every function has one run: it makes the calls of its source in their order and comes to its end, or stops at a test exactly where the source runs out of outcomes. |
| FlowProof.StmtFlows | src/codegen_arm64.cpp:347-440 | From the start of its code every statement makes the calls of its run and comes behind its code, or to the loop's end label after `break`, to its start or increment label after `continue`, or to the return label. |
| FlowProof.ValueFlows | src/codegen_x86.cpp:772-853 | Every value makes its calls in the order of its run and leaves a truth value in the accumulator exactly where the run knows one. |
| FlowProof.LogicalFlows | src/codegen_arm64.cpp:1000-1027 | `&&` comes to its exit behind a false operand and `\|\|` behind a true one, with that truth value; else the right operand decides. |
| FlowProof.CallFlows | src/codegen_arm64.cpp:1031-1076 | The chunks of stack arguments run from the last to the first, then those of register arguments, then the call. |
| FlowProof.IfFlows | src/codegen_arm64.cpp:442-461 | A true condition leads through the first branch, a false one to the other, and both behind the statement. |
| FlowProof.WhileFlows | src/codegen_x86.cpp:721-741 | A false condition and `break` lead behind the loop, the end of the body and `continue` back to the condition. |
| FlowProof.ForLoopFlows | src/codegen_arm64.cpp:563-589 | The same for `for`, where the end of the body and `continue` lead to the increment and from there to the condition. |
| FlowProof.MatchFlows | src/codegen_arm64.cpp:463-510 | A match goes through the arm that the tests choose, or the last default arm, and behind its code. |
| FlowProof.DispatchFlow | src/codegen_x86.cpp:648-675 | The tests come to the label of the first arm that has a fitting pattern, or run through. |
| FlowProof.FallbackIsLast | src/codegen_x86.cpp:655-675 | The jump behind the tests goes to the last arm with a default pattern, or to the end. |
| ControlFlow.ExitsStayInside | src/sema.cpp:1284-1294 | Where loop depth was checked, no run of a function ends in a `break` or `continue`. |
| TargetsAlike.StmtAlike | src/codegen_arm64.cpp:347-440 | Statements whose values are all words make the same run on x86_64 and arm64 as on i386. |
| TargetsAlike.CallIs | src/codegen_x86.cpp:1228-1301 | Whatever travels in registers, arguments of words are computed from the last to the first on every target. |
| LabelTree.ModuleDraws | src/codegen_arm64.cpp:1455-1458 | The code of a module defines the labels that its source tree asks for, numbered in the order of asking, the entries and return labels, and no others. |
| LabelTexts.TextsAreUnique | src/codegen_arm64.cpp:93-98 | For every module, with string literals and statics, the assembler sees every label defined once if and only if no two functions have one symbol, no two statics have one, and, on arm64 ELF, no function is named like a numbered label, a return label or a label of a string or static that the source tree asks for. |
| LabelTexts.EntryApart | src/codegen_x86.cpp:144-147 | The entry of a function and any other label look alike on arm64 ELF only: on x86 labels begin with a dot, on Mach-O function symbols with an underscore. |
| LabelTexts.ReturnLabelTaken | src/codegen_arm64.cpp:230-236 | Functions `g` and `L_return_g` define one label twice on arm64 ELF. |
| LabelTexts.StringLabelTaken | src/codegen_arm64.cpp:1133-1140 | A function `Lstr0` in a module with one string literal defines one label twice on arm64 ELF. |
| LabelTexts.PathsMeet | src/names.hpp:34-49 | A function `b` in a module `a` and a function `a_b` have different paths and define one label twice on every target. |
| LabelTexts.StaticsMeet | src/codegen_x86.cpp:1590-1598 | So do a static `b` in a module `a` and a static `a_b`. |
| LabelTexts.LocalTextsDiffer | src/codegen_arm64.cpp:1314-1328 | No two labels but entries have one text, whether numbered, of returns, strings, statics or their initializers. |
| Paths.JoinPath | src/names.hpp:10-20 | The loop computes the joined path. |
| Paths.CanonicalInjective | src/names.hpp:29-32 | Joined with `::`, paths of identifiers are told apart. |
| Paths.SymbolInjective | src/names.hpp:34-37 | Joined with `_`, paths are told apart if no part has an underscore. |
| StackEmitter.StackEmitter.EmitValue | src/codegen_x86.cpp:772-853 | The emitter object appends exactly the specified code of a value, and its byte counter, which is the real depth of the evaluation stack on x86_64 throughout, is as before. |
| StackEmitter.StackEmitter.MoveStack | src/codegen_x86.cpp:2119-2153 | Every push, pop, padding and cleanup moves the counter with the depth of the output. |
| StackEmitter.StackEmitter.EmitCall | src/codegen_arm64.cpp:1031-1076 | Plans the arguments and emits padding, pushes, pops, call and cleanup as specified, on the three targets. |
| StackEmitter.StackEmitter.EmitStatement | src/codegen_arm64.cpp:347-440 | The statement emitter appends exactly the specified code, of which `FlowProof.StmtFlows` says where it leads; the loop labels that `break` and `continue` take are there. |
| StackEmitter.StackEmitter.EmitMatch | src/codegen_arm64.cpp:463-515 | Labels, tests, fallback jump and arms in source order. |
| StackEmitter.StackEmitter.EmitModule | src/codegen_x86.cpp:123-128 | The output of a module is the code of its functions, and the byte counter is zero between them. |
| Aggregates.StructRoundTrip | src/codegen_x86.cpp:974-1006 | For any list of scalar fields at the offsets of the layout, on each target, building the literal and reading a field gives the value of that field exactly if it survives the mask. |
| Aggregates.EnumRoundTrip | src/codegen_x86.cpp:1008-1056 | The same for the tag and every payload field of every enum variant. |
| Aggregates.WideCharLosesByte | src/codegen_arm64.cpp:1549-1550 | On arm64 a one-field struct with the character U+0101 reads back as U+0001. |
| Aggregates.ReadsBack | src/codegen_arm64.cpp:816-843 | Reading a field of any literal with disjoint fields yields the low bytes of what its expression left, extended by sign or zeros. |
| Aggregates.FieldsFit | src/types.cpp:547-563 | Laid-out scalar fields never straddle a chunk and never share a byte. |
| Aggregates.EmitStructLiteralChunk | src/codegen_x86.cpp:974-996 | One pass over the fields emits the code of one chunk, skipping fields of other chunks. |
| Literals.ParseDecimalMagnitude | src/sema.cpp:54-66 | For digit strings of any length: the number if it fits 64 bits, else nothing, without ever exceeding 64 bits. |
| Literals.CheckIntegerLiteral | src/sema.cpp:2163-2179 | A literal fits exactly if its value is in the range of the type and no minus sign stands on an unsigned type. |
| Literals.EmitIntegerImmediate | src/codegen_arm64.cpp:665-691 | After the emitted `mov`, `movz` and `movk` the register holds the value modulo 2^32 for types up to 32 bits and modulo 2^64 else. |
| Literals.EmitInteger | src/codegen_arm64.cpp:657-663 | Every accepted literal, negative ones included, arrives in the register as its value. |
| Literals.CanonicalDecimalLiteral | src/codegen_arm64.cpp:41-47 | Dropping leading zeros keeps the value and leaves at least one digit. |
| DeferCorrect.LoweringPreservesMeaning | src/lower_ir.cpp:1302-1357 | Without `?` in loop heads, on the right of `&&` or `\|\|`, or behind an operand or argument that is still to be computed, the lowered body of every function returns the same value in the same state as its source, for every meaning of its operations, every start state and every bound on iterations. |
| DeferCorrect.SimStmt | src/lower_ir.cpp:1359-1512 | For every statement inside any stack of open blocks, the lowered code ends as the source does after the cleanup of the blocks that are left. |
| DeferCorrect.SimReturn | src/lower_ir.cpp:1503-1511 | A return decides its `?`s, runs the calls of all open blocks innermost first, and then finishes its expression. |
| DeferCorrect.HoistExpr | src/lower_ir.cpp:881-932 | The statements moved in front decide every `?` in order, left operands first: on an error all open blocks are cleaned up and the error is returned; else the value that is left stands for the rest, and older temporaries are kept. |
| DeferCorrect.RegisterIsFinally | src/lower_ir.cpp:1334-1341 | Registering a call in the innermost scope is the same as guarding the rest of the block with it, for every way of leaving. |
| DeferCorrect.ReturnCleanupRuns | src/lower_ir.cpp:1282-1287 | Return cleanup runs every registered call of every scope once, last registered first. |
| DeferCorrect.LoopCleanupRuns | src/lower_ir.cpp:1291-1300 | Loop-exit cleanup runs the scopes up to and including the nearest loop body and no others. |
| DeferExact.LoopHeadCondition | src/lower_ir.cpp:1456-1482 | For `while` and `for` loops over bodies without jumps, lowering preserves every meaning if and only if there is no `?` in the condition, nor in the increment of a `for`. |
| DeferExact.ExpressionOrder | src/lower_ir.cpp:762-860 | For every expression, with operators, calls of any number of arguments, `&&`, `\|\|` and `?` nested in any way, lowering preserves every meaning if and only if nothing that comes before a `?` is left to be computed and no operator can skip one. |
| DeferExact.Differs | src/lower_ir.cpp:881-932 | Where no operator can skip a `?` and one is decided too early, lowered code and source leave different records of their operations. |
| DeferExact.SkippedFails | src/lower_ir.cpp:764-767 | Where an operator can skip a `?`, there is a meaning for which the lowered code fails and the source does not. |
| Lowerer.Lowerer.EmitScopeCleanup | src/lower_ir.cpp:1273-1278 | Appends the calls of one scope in reverse order. |
| Lowerer.Lowerer.LowerExpr | src/lower_ir.cpp:881-942 | Appends to the pending statements what each `?` moves out, and numbers temporaries with the counter. |
| Lowerer.Lowerer.LowerStatement | src/lower_ir.cpp:1359-1512 | Produces exactly the statement and the pending statements of the lowering functions and restores the scope stack. |
| Lowerer.Lowerer.LowerStatementsInScope | src/lower_ir.cpp:1310-1357 | Lowers a block in a scope of its own: `defer` registers, `unsafe` is inlined with its own scope, pending statements come first, cleanup comes last. |
| AssignmentSound.AcceptedNeverReadsUninitialized | src/sema.cpp:991-1331 | If the analysis reports nothing, matches whose arms all diverge are exhaustive and no local is declared without a value under a name that a deferred call registered at that point mentions, then no prefix of any run, under any choices and iteration counts, reads a local without a value, deferred calls included. |
| AssignmentExact.RejectedExactly | src/sema.cpp:991-1331 | Of the well-structured functions all of whose code can be reached, without deferred calls, and with loops that declare and step by their own variable, the analysis accepts exactly those of which no run reads a name without a value. |
| AssignmentExact.RejectedFails | src/sema.cpp:991-1331 | If such a function is rejected, there is a run that reads the name in one of the diagnostics without a value. |
| AssignmentExact.BitIsExact | src/sema.cpp:972-989 | Behind such code without diagnostics a local is down as possibly uninitialized if and only if some run completes without giving it a value. |
| AssignmentExact.Completes | src/sema.cpp:1225-1247 | The induction: from every state that the analysis allows, a statement without diagnostics that does not diverge completes in some run, and with `x` unassigned if the analysis has it down so. |
| AssignmentExact.Offends | src/sema.cpp:991-1331 | The other half: a statement with diagnostics on names fails at one of them in some run from every state that the analysis allows. |
| AssignmentExact.BothGiveDecides | src/sema.cpp:1225-1247 | A local that both arms of a match assign may be read behind it if the match is on an enum of two variants; on another type of two values the read is rejected although it fails in no run. |
| AssignmentExact.CoveredMatchExactly | src/sema.cpp:1225-1247 | For a match without a default that lists all values of a type that is no enum, the state kept for a local is right if and only if some arm that completes leaves it unassigned. |
| AssignmentExact.CoveredMatchKeepsBits | src/sema.cpp:1225-1247 | Behind any match without a default on a type that is no enum, every local in scope is down as it was in front. |
| AssignmentExact.DeadCodeNeverRuns | src/sema.cpp:915-963 | What stands behind a diverging statement makes no difference to any run. |
| AssignmentExact.InfeasibleArmNeverRuns | src/sema.cpp:1170-1243 | Nor does the body of an arm that comes first for no value. |
| AssignmentExact.LoopHeadForgets | src/sema.cpp:1259-1281 | A local that the initializer of a `for` assigns has a value behind the loop in every run, and is still down as uninitialized. |
| AssignmentExact.StepDecides | src/sema.cpp:1259-1281 | A loop whose body assigns what its increment reads is rejected and fails in no run. |
| AssignmentExact.DeferredReadExactly | src/lower_ir.cpp:1264-1270 | A deferred read in front of the assignment is rejected, and fails if and only if the assigned value cannot be computed or leaves the function. |
| SemaStructure.StructureDecides | src/sema.cpp:991-1331 | A statement draws only diagnostics on names if and only if names are declared once, loop exits stand in loops, default patterns stand alone and last, bindings belong to one pattern, and matches on enums without a default name every variant. |
| SemaStructure.PatternsDecide | src/sema.cpp:1186-1201 | The patterns of a match draw no diagnostic if and only if each is in its place. |
| SemaStructure.ExitsDecide | src/sema.cpp:1284-1294 | The diagnostic for a loop exit outside loops comes if and only if there is such an exit. |
| SemaStructure.AcceptedStaysInLoops | src/sema.cpp:1284-1294 | Without that diagnostic every `break` and `continue` stands in a loop, and no run of the function ends in one. |
| AssignmentSound.UninitializedOnlyFalls | src/sema.cpp:972-989 | Analyzing a statement never turns an initialized local back into an uninitialized one. |
| AssignmentSound.DivergingNeverCompletes | src/sema.cpp:915-963 | A statement that counts as diverging never completes normally, in any run, if its matches are exhaustive where the check relies on it. |
| AssignmentSound.MatchDivergence | src/sema.cpp:943-953 | A match whose arms all diverge never completes if and only if it is exhaustive or its value cannot be computed to the end. |
| AssignmentSound.DishonestMatch | src/sema.cpp:943-953 | A concrete function without diagnostics that reads an unassigned local, because a partial match counts as diverging. |
| AssignmentSound.DeferredStaticCaptured | src/lower_ir.cpp:1264-1270 | A concrete function without diagnostics whose deferred call, run on the way out of an inner block, reads a local of that block instead of the static it was checked against. |
| AssignmentSound.CaptureFails | src/lower_ir.cpp:1272-1287 | Wherever the exit is reached, a deferred read of a static fails if and only if there is now a local of that name and it has no value. |
| AssignmentSound.CapturedLetFails | src/lower_ir.cpp:1272-1287 | Conversely, behind a registered deferred read of a static, a declaration of that name without a value makes every run fail that gets there and leaves the block again, if nothing behind it gives the local a value. |
| AssignmentSound.SafeLoop | src/sema.cpp:1245-1281 | Every iteration starts from at least what was assigned before the loop, whatever way the last one ended. |
| SemaAnalyzer.Analyzer.AnalyzeStatement | src/sema.cpp:991-1331 | The analyzer object returns exactly the state of the locals and adds exactly the diagnostics of the analysis function. |
| SemaAnalyzer.Analyzer.MergeUninitState | src/sema.cpp:972-989 | Behind a join a local is uninitialized if and only if it is so at the end of some branch that gets there; without branches nothing changes. |
| SemaAnalyzer.Analyzer.AnalyzeMatch | src/sema.cpp:1170-1243 | Reports default patterns that are not last or not alone, bindings that are not alone, what the arms report and missing variants; the state before the match takes part in the join unless there is a default arm or an enum with all variants named, which `AssignmentExact` proves to be right. |
| SemaAnalyzer.Analyzer.ReportMissing | src/sema.cpp:1207-1218 | One diagnostic for every variant that no arm names, in order. |
| DefiniteAssignment.Missing | src/sema.cpp:1207-1218 | Nothing is reported if and only if every variant is named by some arm. |
| DefiniteAssignment.DefaultIsLast | src/sema.cpp:1193-1201 | If no pattern draws a diagnostic, a default pattern stands alone in the last arm. |
| DefiniteAssignment.AcceptedPlaced | src/sema.cpp:1186-1217 | In a match without diagnostics no pattern draws one. |
| TypeSpelling.FormatParse | src/types.cpp:192-326 | Parsing the spelling of any valid type of scalars, strings, pointers, slices, vectors, options, results and tuples, of any depth, gives the type back. |
| TypeGrammar.ParseDecides | src/types.cpp:192-275 | A text is parsed to a type if and only if it spells it, form by form. |
| TypeGrammar.SpelledIsValid | src/types.cpp:192-275 | What is parsed is a valid type without user-defined names. |
| TypeGrammar.WordsDecide | src/types.cpp:252-274 | Of the plain words just the eight integer names, `bool`, `char`, `str` and `owned_str` are types; all others are left for user-defined names. |
| TypeSpelling.SpellingSkips | src/types.cpp:38-62 | The angle brackets of a spelling are balanced and never close an enclosing one. |
| TypeSpelling.SplitSpellings | src/types.cpp:64-87 | Splitting a comma-separated list of spellings gives exactly the spellings, whatever commas and brackets they contain. |
| TypeParser.ConsumeGeneric | src/types.cpp:38-62 | The bracket-counting loop finds the text between the outermost brackets exactly when they close at the end of the name. |
| TypeParser.SplitCommaList | src/types.cpp:64-87 | The loop cuts exactly at the commas outside all brackets. |
| TypeParser.ParsePrimitiveType | src/types.cpp:192-275 | The parser with its loops is the parsing function of the round trip. |
| TypeParser.FormatType | src/types.cpp:277-326 | The printer yields the spelling of a valid type and nothing for an invalid one. |
| Unification.UnifySound | src/types.cpp:628-692 | When unification succeeds, its bindings rebuild the actual type if and only if the results in it have the arity of those in the pattern. |
| Unification.ArityIsLost | src/types.cpp:664-667 | Concrete results of different arity for which unification succeeds and substitution yields another type, or leaves a name unbound. |
| Unification.UnifyComplete | src/types.cpp:628-692 | If any substitution that extends the given bindings rebuilds the actual type, unification succeeds with exactly the part of it that the pattern uses. |
| Unification.UnifyDecides | src/types.cpp:628-777 | For equal arities, success is equivalent to the type being an instance of the pattern that extends the bindings. |
| Unification.Bound | src/types.cpp:636-642 | Existing bindings are never changed, even on failure, and only names of the pattern are added. |
| Unification.Unifier.UnifyGenericPattern | src/types.cpp:628-692 | The method that updates its bindings on the way computes the unification function. |
| Layout.LayoutIsCorrect | src/types.cpp:547-563 | Fields are aligned, disjoint and inside the total size, which is a multiple of every field's alignment and less than one alignment beyond the last field. |
| Layout.OffsetsAreLeast | src/types.cpp:547-563 | No field could start earlier behind the field in front of it. |
| Layout.SizeIsLeast | src/types.cpp:547-563 | No smaller size would hold the last field and suit the alignment of every field. |
| Layout.SingleSizes | src/types.cpp:452-497 | Integers take their bits, `bool` one byte, `char` four, all other single values eight, aligned like their size. |
| Layout.EnumLayoutIsCorrect | src/types.cpp:508-545 | In every variant the payload fields are aligned at their final places, disjoint, clear of the four tag bytes and inside the enum. |
| Layout.AlignUpIsLeast | src/types.cpp:499-504 | Rounding up gives the least multiple of the alignment that is not below the value. |
| Layout.ComputeStructLayout | src/sema.cpp:2524-2538 | The analysis computes the total size and alignment of the common layout. |
| Layout.ComputeStructLayouts | src/lower_ir.cpp:310-340 | The lowering pass, with its own size and alignment functions, computes the same size and alignment, and the offsets. |
| Layout.ComputeStructSizeBytes | src/stdlib/stdlib.cpp:92-105 | The standard library computes the same size. |
| Layout.CopiesAgree | src/lower_ir.cpp:200-254 | Size and alignment of a type are the same in the lowering pass as in the type library. |
| Layout.NestedCopies | src/lower_ir.cpp:234-256 | For a struct inside structs, the analysis, the standard library and the lowering pass agree on the sizes of all structs around it if and only if its size is its alignment. |
| Layout.LayoutEnumVariants | src/types.cpp:508-545 | The loops compute the offsets, the payload offset, the size and the alignment of the enum layout. |
| Monomorph.Monomorphizer.Run | src/lower_ir.cpp:121-135 | Within any finite closed set of instances the worklist ends, and what it emits is reachable and has distinct symbols. In every instance that a call asks for, the parameters have the types of the arguments. On success every reachable instance is emitted if and only if the symbols of reachable instances are unique, and every call in the output names one definition, the instance it asks for, if and only if moreover no ordinary function has such a symbol. With unique symbols it succeeds if and only if no reached call fails to infer its types. |
| Monomorph.Monomorphizer.LowerCall | src/lower_ir.cpp:801-823 | A call asks for its instance, inferred from the expected type and the arguments, unless the symbol was asked for before; failure is exactly failed inference. |
| Monomorph.InferDecides | src/lower_ir.cpp:1671-1696 | At equal result arities inference yields a list of types if and only if these, bound to the generic names in their order, make the parameters the types of the arguments, agree with what the expected type binds, and every name is in a parameter or bound by the expected type. |
| Monomorph.ExpectedDecides | src/lower_ir.cpp:1671-1696 | A name that no parameter contains gets what the expected type binds it to; and where that type fits the result, the result gets it. |
| Monomorph.CallFits | src/lower_ir.cpp:801-823 | In the instance that a call asks for, substituting its types into the parameters gives the types of the arguments. |
| Monomorph.PairAt | src/lower_ir.cpp:807-821 | `pair` of parameters `A` and `B`, called with an `i32` and a `bool`, is compiled at `i32` and `bool` as `pair__i32__bool`. |
| Monomorph.SymbolsAreUnique | src/types.cpp:898-921 | If all reachable instances are at scalars and pointers to them and no function has a double underscore in its symbol, symbols are unique if and only if no two reached functions at the same types have paths with one symbol, and no ordinary function is in the way. |
| Monomorph.SymbolsCollide | src/types.cpp:898-921 | A concrete program with two reachable instances that share a symbol. |
| Monomorph.PathsCollide | src/lower_ir.cpp:622-626 | A function `f` in a module `a` and a function `a_f`, both generic and both called at `i32`, share a symbol. |
| Monomorph.PlainPathsApart | src/names.hpp:34-49 | That cannot happen where no part of a path has an underscore. |
| Monomorph.OrdinaryNameTaken | src/lower_ir.cpp:812-815 | A concrete program whose ordinary function `f__i32` has the symbol of a reachable instance. |
| Sha256.Sha256State.Update | src/rxy/hash/sha256.cpp:85-94 | Appends any bytes to the message: whole blocks are in the hash value and counted, the rest waits. |
| Sha256.Sha256State.Final | src/rxy/hash/sha256.cpp:96-124 | For messages under 2^64 bits the output is the digest that the standard defines for everything passed to `Update`, however it was split; both padding cases included. |
| Sha256.Sha256State.Transform | src/rxy/hash/sha256.cpp:42-72 | One block changes the state as section 6.2.2 of FIPS 180-4 says. |
| Sha256Numbers.NumbersAreRoots | src/rxy/hash/sha256.cpp:21-38 | The round constants are the first 32 bits of the fractions of the cube roots of the first 64 primes, the initial values those of the square roots of the first eight. |
| Sha256Example.AbcHash | src/rxy/hash/sha256.cpp:42-124 | The hash of `abc`, worked out round by round, is the one that the standard gives. |
| Sha256Example.AbcBytes | src/rxy/hash/sha256.cpp:108-124 | In the digest the bytes of its words come most significant first. |
| Sha256.PadShape | src/rxy/hash/sha256.cpp:96-107 | The padding of section 5.1.1 ends in the last block if fewer than 56 bytes wait, and takes one more block else. |
| Sha256.Sha256Hex | src/rxy/hash/sha256.cpp:126-140 | The text is the prefix and the digest in lower-case hexadecimal. |
| Sha256.HashFiles | src/rxy/hash/sha256.cpp:178-207 | The hash of a file list is the digest of paths and contents closed by zero bytes, independent of how reads are cut. |
| SourceTree.Sha256DirTree | src/rxy/hash/sha256.cpp:146-207 | The checksum is that of the files found below the root, skipped names left out, in the order of their paths; a symbolic link among them is refused; what is no directory counts as empty. |
| SourceTree.OrderIsLost | src/rxy/hash/sha256.cpp:146-207 | Directories with the same files have the same checksum, in whatever order their entries are listed. |
| SourceTree.SortSorts | src/rxy/hash/sha256.cpp:176 | Sorting arranges the same files by their paths, compared part by part. |
| SourceTree.Collect | src/rxy/hash/sha256.cpp:156-174 | The walk finds exactly the regular files outside skipped names, or a symbolic link. |
| Semver.TotalPreorder | src/rxy/semver/semver.cpp:44-56 | `<` with `==` is a total preorder that ignores build metadata: trichotomy, transitivity, and antisymmetry up to `==`. |
| Semver.OrderIs | src/rxy/semver/semver.cpp:44-56 | Major, minor and patch decide in that order; with equal numbers a release is above its pre-releases, and these are in the order of their texts. |
| Semver.BeforeIs | src/rxy/semver/semver.cpp:44-56 | One text is before another if and only if they agree up to a place where the first ends or has the smaller character. |
| Semver.ComparisonsAdmit | src/rxy/semver/semver.cpp:97-106 | Among releases `>`, `>=`, `<`, `<=` and `=` admit exactly the larger, not smaller, smaller, not larger and equal triples. |
| Semver.PreReleasesAdmit | src/rxy/semver/semver.cpp:97-106 | The same with pre-releases of either side. |
| Semver.CaretAdmits | src/rxy/semver/semver.cpp:107-117 | A caret term admits exactly what is not below it and has the same leading nonzero component and the same to its left, and pre-releases of the next one. |
| Semver.TildeAdmits | src/rxy/semver/semver.cpp:118-123 | A tilde term admits exactly what is not below it and has the same major and minor component, and pre-releases of the next minor one. |
| Semver.TextIs | src/rxy/semver/semver.cpp:36-42 | `1.20.3-rc+x` is the text of its parts. |
| Semver.VersionDecides | src/rxy/semver/semver.cpp:58-93 | A text is read as a version if and only if, without the spaces around it, it is one to three numbers with dots between them, then what is behind the first minus sign in front of the first plus sign, then what is behind that plus sign; missing numbers are zero. |
| Semver.MatchesConvex | src/rxy/semver/semver.cpp:97-133 | Between two versions that satisfy a constraint every version satisfies it. |
| Semver.OwnVersion | src/rxy/semver/semver.cpp:107-123 | A version satisfies its own caret and tilde terms if and only if the component that the upper bound counts is not the largest; else nothing satisfies them. |
| Semver.MatchesEqual | src/rxy/semver/semver.cpp:97-133 | Equal versions satisfy the same constraints. |
| Semver.ResolveHighest | src/rxy/semver/semver.cpp:178-186 | The result is the first match that no other match exceeds, and there is none exactly if nothing matches; what matches is stated operator by operator above. |
| Semver.RoundTrip | src/rxy/semver/semver.cpp:36-93 | Parsing the text of a version gives the version back if and only if its pre-release part has no `+` and the text does not end in a space. |
| Resolver.ResolveGraph | src/rxy/resolver/resolver.cpp:24-91 | Resolution ends even on cycles; it fails exactly if a reachable name cannot be resolved; else it lists each reachable name once, sorted by length of the shortest dependency chain, with the dependencies of each. |
| Resolver.PushDependencies | src/rxy/resolver/resolver.cpp:82-87 | Queueing the unseen dependencies keeps levels sorted and every dependency accounted for. |
| Resolver.WalksEnd | src/rxy/resolver/resolver.cpp:46-88 | When the queue is empty, every chain of dependencies ends at a package found over no longer one. |

## Left out

- Stack overflow: stack pointers and addresses are unbounded integers, and the stack can always grow.
- Assembler text: instructions are a datatype, directives and sections are not modelled, and an assembler resolves labels to their only definition.
- Values of other types in the i386 theorem: 8-, 16- and 64-bit integers, `char`, pointers, indirect loads and stores, strings, static arrays, struct fields and aggregates; their frames, calls and packing are covered separately.
- Extern functions: they may change statics, scratch registers and the stack below the caller, but not call back into the module.
- Ill-formed IR: reading a name without a slot, falling off the end of a function and mismatched operand types count as wrong in the interpreter, and `Typing` rules them out by its own rules. IR validation for unsupported types is not part of this model.
- CompilerCorrectness.WellTypedCodeIsCorrect: requires that every path through a function returns, which the front end does not check; `CompiledCodeIsCorrect` needs no such rule where the interpreter does not report it.
- Value semantics on x86_64 and arm64: registers are wider than the types there and results are not wrapped, so that no such theorem holds. Which way control goes and which calls are made is proved instead, with the outcome of tests left open.
- Aggregate calls as direct arguments: chunk 1 of an unevaluated call cannot be rebuilt by the emitter (src/codegen_x86.cpp:1091-1100); argument chunks are values here. Aggregate returns and nested aggregates are not modelled either.
- Instructions in `StackCode`: all that neither move the stack pointer nor branch count as one. A statement that the arm64 emitter refuses with an exception (src/codegen_arm64.cpp:429-437) has no code here.
- Stores in `StackMachine`: a store may hit any memory but return addresses, saved frame pointers and pushed values of the functions that are running; pointers that are made to point there are not modelled. External callees are taken to give back stack and frame pointer.
- ControlFlow.FunctionFlows: takes callees as events; a truth value is known only behind `&&` and `||`. A statement that the arm64 emitter refuses does nothing on either side.
- TargetsAlike.StmtAlike: is about values of one word, because wider ones have other chunks on i386.
- Linking.ModuleIsWellStructured: speaks of the detailed i386 code; `StackModule.ModuleLabels` is the statement for the three targets.
- StackErasure.ModuleSame: forgets how many bytes of arguments a call has, which the detailed code does not say at the call instruction.
- LabelTexts.TextsAreUnique: requires that `break` and `continue` stand in loops, which the front end checks; extern functions define no label.
- StackAlignment.FunctionMet: is about x86_64; on arm64 the stack pointer moves by multiples of 16 only, and i386 does not ask for more than 4.
- Calls in `DeferSource`: a call of several arguments is a nest of pairs, so that only orders of evaluation that split the arguments again and again in two can be expressed. Deferred calls contain no `?`; uninitialized `let` and indirect assignment are ordinary stores.
- DeferExact.ExpressionOrder: takes the left operand of a logical operator to be lowered first; the source leaves that order to the C++ compiler (src/lower_ir.cpp:765-767), and it matters only where both operands contain `?`, where lowering fails anyway.
- DeferExact.LoopHeadCondition: is exact for bodies of plain statements only, because a body that always leaves the loop hides the difference.
- AssignmentSound.AcceptedNeverReadsUninitialized: does not state that its two conditions are necessary for a whole function, because the offending match or name may be unreachable; where they are reached, `MatchDivergence` and `CaptureFails` are exact, and `CapturedLetFails` is a converse.
- AssignmentExact.RejectedExactly: requires what `Live` says and no deferred calls; each condition is there because the analysis rejects correct programs without it, as the lemmas next to it show. Which name is reported first is not stated where an unknown target is assigned.
- Address-of, types, mutability and visibility in the analysis: only definite assignment, duplicate names, loop depth, missing variants and misplaced patterns produce diagnostics.
- Unification.UnifySound: takes types up to the compiler's equality, which ignores the payload pointer that a two-argument `Result` keeps beside its arguments and that substitution does not update; struct names that contain angle brackets are opaque names.
- Layout of nested structs and enums: the methods take fields of other types; `NestedCopies` is about one struct inside another, because the copies differ there.
- Monomorph.Monomorphizer.Run: takes finiteness of the reachable instances as the existence of a closed finite set; types that were instantiated from generic structs are opaque names.
- SemaAnalyzer.Analyzer.AnalyzeStatement: leaves out the diagnostics of types, mutability and `unsafe`.
- SemaAnalyzer.Analyzer.AnalyzeMatch: reports the bindings of an arm together, behind its patterns.
- Semver.RoundTrip: takes components that are not negative and fit 32 bits. Parsing of constraints would add only easy members. Upper bounds wrap around at 32 bits; the C++ standard leaves that undefined.
- Resolver.ResolveGraph: a package is what its name says, wherever it is requested from; fetching, manifests and messages are not modelled.
- SourceTree.Sha256DirTree: takes directory listings as given; `std::sort` is an insertion sort here, which no contract can tell from another.
- Parsing and tree building, the rest of the semantic analysis, diagnostics texts, the driver, the command line of `rxy`, caches, locks and the network.
