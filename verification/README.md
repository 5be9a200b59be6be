# Moss: a verified model of the bytecode back end

Moss compiles a program through an intermediate representation (IR) to register bytecode, optimizes and
edits that bytecode, stores it in files, and interprets it. This project models these parts in Dafny and
proves what they are for. `dafny verify dfyconfig.toml` checks all of it.

**Code generation.** `Ir` gives programs a big-step meaning with fuel; `Machine` is the interpreter loop and
the `exec` methods of the opcodes; `Codegen` is the code of every construct. The main theorems, in
`CompilerCorrect`, go both ways: code of a program halts, raises or runs forever exactly as the program
completes, fails or diverges, with the same variables, output and exception. They hold for a module in a
frame where the interpreter has bound names already, and for an input behind earlier code; `Sessions` puts
inputs together to interactive mode. STORE_NAME binds a name to a register, so the proofs rest on an
ownership of registers (`Ownership`, `OwnersExist`, `NoAliasing`) that survives loops running the same
opcodes again. `Layout`, `LoopDepth`, `CodegenFacts`, `ExprSimulation`, `StmtBasics`, `SwitchTables` and
`StmtSimulation` hold the simulation; `BreakResolution`, `BreakTargets` and `LoopShape` are about break and
continue. `Numbering` gives the loops of any program the different numbers that the theorems ask for.
`PlainMeaning` is a meaning in which a `for` loop only assigns its variable; `LoopVariables` says when it
agrees with that of `Ir`, which has the register reuse of the generator, and `PlainCode` carries the
theorems over. `Generator` is the generator as the source writes it, a class that appends to a vector, bumps
counters and overwrites addresses, proved to produce the code of `Codegen`.

**Bytecode editing and the scope tree.** `BytecodeEdit` inserts and erases opcodes with relocation;
`SwitchPlaces` says where switches land, and so which edits are safe for code with switches; `BlobTree`
parses bytecode into scopes.

**Optimizer.** `Optimizer`, `ZeroDivision` and `OptimizedCode`: constant folding, dead code and dead branch
elimination keep the meaning of programs, so the compiler theorems hold for optimized programs.
`OptimizedForm` says what is left of a program, and that it is a fixed point.

**Files.** `Serial` and `Checksum`: the reader undoes the writer, and the CRC of section 8 of RFC 1952
guards the body.

**Calls and values.** `CallBinding` binds arguments, `Overloads` keeps overload sets, `Equality` and
`Dictionaries` compare values, `Unpack` distributes a list over variables. The program meaning, the machine and
the optimizer share the operators of `Values`; `OperatorLaws` says what these compute without them, and
`EqualityMeaning` what equality decides.

**Front end.** `Escapes` and `StringScan` are about string literals, `Precedence` and `ExprParser` about the
expression cascade, `Comprehension` about lowering list comprehensions to loops and `ComprehensionCode` about
their code. Printer and parser share one table of levels, scanner and unescaping their own definitions; `Grouping`
says on tokens how expressions group, `LiteralPieces` what literals hold, and `EscapeSequences` what escapes
stand for.

Integers are unbounded; division and remainder truncate toward zero. Addresses are 32-bit where code is
edited, and operands 32 and 64 bits where files are written. A method that works in place in the source is
a method of a class with the same fields, proved to compute a function of its old state; the properties are
lemmas about that function.

Where a property is false of the code, a lemma gives an input and another the exact condition (for
comprehensions and for programs that never notice a reset, one that suffices):

- `eq` on dictionaries is one-sided when keys collide, because `size` counts hash codes
  (vm/values.hpp:832-834): `Equality.EqualSymmetric`, `Equality.EqualityOneSided`.
- A `for` loop that is entered again sets its variable to nil, so that without elements it does override an
  outside value, against the comment at its name store (bytecode/bytecodegen.cpp:1576-1578):
  `LoopVariables.ResetWithoutElements`, `LoopVariables.EntryExactly`; programs that never notice:
  `LoopVariables.ScopedSame`.
- A list comprehension with a collection behind the first that reads its own or a later variable finds it reset
  to nil: `Comprehension.LoweringIsFlatMap`, `Comprehension.ReadingItself`.
- Erasing an opcode that an address points at moves that address to the opcode before it:
  `BytecodeEdit.InsertUndoesErase`, `BytecodeEdit.ErasingATarget`.
- SWITCH is never relocated; exactly the switches that land past an edit go astray:
  `BytecodeEdit.SwitchStepExactly`, `BytecodeEdit.InsertingBeforeASwitch`.
- Folding a division by a literal zero is undefined in C++ while the interpreter raises, even in a branch
  that never runs: `ZeroDivision.OptimizesExactly`, `OptimizedCode.UnreachedDivision`.
- `can_call` accepts a call that gives a parameter twice when it has as many arguments as parameters, and
  then some parameter gets no value: `CallBinding.CanCall`, `CallBinding.RepeatedArgument`.
- A failed attempt at a class call names its last argument `this` for good, so the functions listed before are
  never called: `CallBinding.SearchExactly`, `CallBinding.ClassCallMissed`.
- Strings of more than 2^32 - 64 bytes overrun the reader's buffer: `Serial.TakeFieldBack`, `Serial.GrownFits`.
- Unpacking in a `for` loop without a rest variable drops surplus values, while an assignment raises:
  `Unpack.UnpackConserves`.
- A byte 255 standing alone ends a string literal, being equal to EOF, and a continuation byte after a quote
  swallows it: `StringScan.LoneByteIsEndOfFile`, `StringScan.QuotedSanitized`.
- The reader takes any nonzero byte for a true flag, so not every accepted body is what the writer would
  write: `Serial.EncodeDecode`.
- The bytes of an operand that is cut off by the end of the file do not go into the checksum, so a single flipped
  bit can go unnoticed: `Serial.BurstRefused`, `Serial.FlippedBit`, `Serial.ReadsExactly`.
- A function with a jump in its head, as of a conditional or a lambda among its default values, gets a scope
  that ends before its body: `BlobTree.OwnEndExactly`, `BlobTree.EarlyEnd`, `BlobTree.SharedEnd`.

Some behaviour the model keeps because the code has it: `get_curr_address` of an empty vector is 0; an
assertion evaluates its message before the check; all case values of a switch are evaluated before the
dispatch and a later default replaces an earlier one; subscript 0 of an empty string gives a NUL
character; the switch writer writes its default address with the routine for registers, which has the same
width.

## Model

| member | source | states |
|---|---|---|
| CompilerCorrect.CodeCompletes | bytecode/bytecodegen.cpp:18-1989 | A program that completes, in any number of loop rounds, from any variables bound before it to lower registers: its code runs to its end with the same variables, the same output and the finally stack as it was. The place is a module or an input behind earlier code. |
| CompilerCorrect.CodeFails | bytecode/bytecodegen.cpp:18-1989 | A program that fails: its code raises the same exception, after the same output and with the same variables. |
| CompilerCorrect.CodeLasts | bytecode/bytecodegen.cpp:1518-1598 | A program still running after `fuel` rounds: its code runs for at least `fuel` steps. |
| CompilerCorrect.HaltingCode | bytecode/bytecodegen.cpp:18-1989 | The converse: code that halts belongs to a program that completes, with the values the code computed, at the end of the code and with the finally stack as it was. |
| CompilerCorrect.RaisingCode | bytecode/bytecodegen.cpp:18-1989 | Code that raises belongs to a program that fails with that exception. |
| CompilerCorrect.DivergingCode | bytecode/bytecodegen.cpp:1518-1598 | The code runs forever exactly when the program does. |
| CompilerCorrect.EveryState | bytecode/opcode.cpp:3117-3123 | In every state of every run of generated code the finally stack is as high above its start as there are loops around the current address, and no internal check fails: no register is read before it is written, no break jump is unset, no loop end pops an empty stack. |
| CompilerCorrect.EveryStateInjective | bytecode/opcode.cpp:225-237 | In every state of every run two names are never bound to one register, be they names of the program or names bound before it. |
| CompilerCorrect.TidyStart | vm/interpreter.cpp:119-152 | What that needs of the names bound before a module: different registers below the reserved ones. |
| CompilerCorrect.ModuleIn | bytecode/bytecodegen.hpp:171-175 | The place of a module: no code before it, counters past the reserved registers, the end-of-file marker behind. |
| Sessions.SessionRuns | interface/repl.cpp:36-102 | Interactive mode: inputs that complete or fail one after another leave the machine with the variables and output they mean, those of a failed input included. |
| Sessions.SessionMeans | interface/repl.cpp:36-102 | The converse: a session that gets through its inputs is one whose inputs end, in a state that shows what they mean. |
| Sessions.SessionTidy | interface/repl.cpp:36-102 | An input leaves names and registers in order for the next. |
| Numbering.BlockNumbered | bytecode/bytecodegen.cpp:1542-1598 | The theorems tell loops apart by numbers, as the source does by nodes. Any program is, but for these numbers, one in which no two loops share one. |
| NoAliasing.RunNames | bytecode/opcode.cpp:230-233 | A run of code whose name stores respect an ownership of registers keeps every bound name on a register it owns, and different names on different registers. |
| NoAliasing.BlockBinds | bytecode/bytecodegen.cpp:172-181 | The name stores in the code of a block respect any ownership the block has. |
| OwnersExist.OwnershipExists | bytecode/bytecodegen.hpp:117-143 | Every block with distinct loops has an ownership: the register counters hand out a register to one name at most, and none below the counter at the start. |
| CodegenFacts.ExprPlaced | bytecode/bytecodegen.hpp:117-143 | The counters only grow, the result register of an expression is one taken by that expression, and expressions hold no loop or break opcode. |
| ExprSimulation.SimExpr | bytecode/bytecodegen.cpp:1122-1405 | Running the code of an expression from a matching state computes its value in its result register, keeps every register below the counters, binds and outputs what the expression does, or raises its exception. |
| ExprSimulation.RunBinTail | bytecode/bytecodegen.cpp:18-170 | The four ways to place two operands, constant or not, give the operator the same two values. |
| ExprSimulation.SimShort | bytecode/bytecodegen.cpp:922-945 | `&&` and `||` evaluate the right operand only when the left does not decide, and raise when the left is not a Bool. |
| ExprSimulation.SimTernary | bytecode/bytecodegen.cpp:1313-1336 | The conditional evaluates one branch only and both branches deliver into one register. |
| ExprSimulation.SimSet | bytecode/bytecodegen.cpp:172-181 | Assignment copies the value to a fresh register and binds the name to it. |
| ExprSimulation.SimSetOp | bytecode/bytecodegen.cpp:473-483 | Compound assignment loads the variable before the right side is evaluated, as its meaning says, and rebinds the name. |
| ExprSimulation.SimList | bytecode/bytecodegen.cpp:1144-1165 | A list literal evaluates and pushes its elements in order. |
| StmtSimulation.SimBlock | bytecode/bytecodegen.cpp:1975-1979 | Running the code of a block does what the block means, for every amount of fuel, and leaves through the enclosing break or continue target when the block does. |
| StmtSimulation.SimIf | bytecode/bytecodegen.cpp:1420-1437 | The two patched jumps of if and else select the branch the condition selects. |
| StmtSimulation.SimWhile | bytecode/bytecodegen.cpp:1518-1529 | A while loop, with break to its LOOP_END and continue to its condition. |
| StmtSimulation.SimDoWhile | bytecode/bytecodegen.cpp:1531-1540 | A do-while loop, with continue to its condition. |
| StmtSimulation.SimFor | bytecode/bytecodegen.cpp:1542-1598 | A for loop over a list or a string, the loop variable set to nil first when this loop bound it before. |
| LoopVariables.EntryExactly | bytecode/bytecodegen.cpp:1564-1567 | A loop goes on with the same elements in the same state with its variable set to nil first and without that exactly when it does not still bind the variable to something else than nil, or the collection comes to the same otherwise and the variable is overwritten by the first element or by the collection. |
| LoopVariables.UnreadEntry | bytecode/bytecodegen.cpp:1576-1578 | For a collection that does not mention the variable: exactly when the loop does not still bind it to something else than nil, or there is an element. |
| LoopVariables.ResetWithoutElements | bytecode/bytecodegen.cpp:1576-1578 | The promise at the name store fails otherwise: a loop that bound its variable before and finds no element sets it to nil. |
| LoopVariables.ScopedSame | bytecode/bytecodegen.cpp:1542-1598 | Programs that read loop variables only in bodies of loops that bind them, in which no other loop does, mean the same with and without the reset, for any amount of fuel: outcome, output, exception and all other variables. |
| LoopVariables.RebindingParts | bytecode/bytecodegen.cpp:1542-1598 | Why no other loop may bind the variable there: an input on which the two meanings part. |
| PlainCode.PlainCompletes | bytecode/bytecodegen.cpp:1542-1598 | For such programs the compiler theorems hold for the meaning without the reset: a program that completes has code that runs to its end with the same output and variables, but for those of loops. |
| PlainCode.PlainHalts | bytecode/bytecodegen.cpp:1542-1598 | Code that halts belongs to a program that completes by that meaning. |
| PlainCode.PlainRaises | bytecode/bytecodegen.cpp:1542-1598 | Code that raises belongs to a program that fails with that exception. |
| PlainCode.PlainDiverges | bytecode/bytecodegen.cpp:1542-1598 | The code runs forever exactly when the program never ends by that meaning. |
| StmtSimulation.SimSwitch | bytecode/bytecodegen.cpp:1439-1501 | A switch runs the body of the first case value, in source order, equal to the condition, else the default, else none, and then goes on after the switch. |
| StmtBasics.SimOutput | bytecode/bytecodegen.cpp:1981-1989 | An expression statement outputs its value unless the value is silent. |
| StmtBasics.SilentExactly | bytecode/bytecodegen.cpp:172-181 | Which expressions are silent. |
| StmtBasics.SimAssert | bytecode/bytecodegen.cpp:1877-1892 | An assertion evaluates its message before the check and raises with message and line. |
| StmtBasics.SimRaise | bytecode/bytecodegen.cpp:1407-1410 | A raise statement raises the value of its expression. |
| StmtBasics.SimBreak | bytecode/bytecodegen.cpp:1894-1900 | A patched break or continue jump leads to the enclosing target. |
| SwitchTables.CaseAddrsOwner | bytecode/bytecodegen.cpp:1439-1501 | The address list pairs every case value with the address of its own body. |
| SwitchTables.DefaultAddrCase | bytecode/bytecodegen.cpp:1439-1501 | The default address is that of the last default body, wherever it is written, or the end. |
| SwitchTables.SimTables | bytecode/bytecodegen.cpp:1439-1469 | The two run-time lists hold all case values, evaluated before the dispatch, and all body addresses. |
| SwitchTables.RunSwitch | bytecode/opcode.cpp:2989-3038 | SWITCH jumps to the body of the first equal value, else to the default address. |
| LoopDepth.BlockBalanced | bytecode/bytecodegen.cpp:1518-1598 | The code of a block opens and closes as many loops. |
| BreakResolution.ResolvedBlock | bytecode/bytecodegen.cpp:1503-1516 | After emission every break and continue jump is set exactly when none is outside a loop. |
| BreakResolution.BlockCompletes | bytecode/bytecodegen.cpp:1894-1900 | A block without loose break never ends by break or continue. |
| BreakTargets.ProgramTargets | bytecode/bytecodegen.cpp:1503-1598 | In a whole program every break jump goes to the LOOP_END and every continue jump to the head (in do-while the condition) of its innermost loop, in source order; outer patching retargets none. |
| BreakTargets.StmtTargets | bytecode/bytecodegen.cpp:1503-1516 | The same for one statement in place. |
| LoopShape.ModuleShaped | bytecode/bytecodegen.cpp:1503-1598 | Read off the code alone: every break and continue jump of a module is set and stays in the innermost loop around it, at its depth, with no shallower place in between. |
| LoopShape.ShapedLoop | bytecode/bytecodegen.cpp:1503-1529 | A loop turns the open jumps of its code into its own: a break goes to its LOOP_END, a continue to another place directly in it; the jumps of inner loops stay as they are. |
| Machine.StepDelta | bytecode/opcode.cpp:3117-3123 | One step changes the finally stack by what its opcode says; LOOP_BEGIN and LOOP_END go to the next opcode. |
| Generator.Generate | bytecode/bytecodegen.cpp:1647-1656 | The generator, appending opcodes, counting registers and patching addresses in place, produces exactly the code proved correct. |
| Generator.BytecodeGen.UpdateJmps | bytecode/bytecodegen.cpp:1503-1516 | Patching in place sets the open jumps of a range and nothing else. |
| Generator.BytecodeGen.EmitExpr | bytecode/bytecodegen.cpp:1122-1405 | Emitting an expression appends its code, moves the counters and returns its register. |
| Generator.BytecodeGen.EmitBinTail | bytecode/bytecodegen.cpp:18-170 | The operator variant for constant and other operands; two constants first move one to a register. |
| Generator.BytecodeGen.EmitIf | bytecode/bytecodegen.cpp:1420-1437 | The two forward jumps, back-patched. |
| Generator.BytecodeGen.EmitWhile | bytecode/bytecodegen.cpp:1518-1529 | The head address, the patched exit and the resolved jumps of the body. |
| Generator.BytecodeGen.EmitDoWhile | bytecode/bytecodegen.cpp:1531-1540 | The same with the condition at the end. |
| Generator.BytecodeGen.EmitFor | bytecode/bytecodegen.cpp:1542-1598 | The iterator set-up, the loop and the patched exit. |
| Generator.BytecodeGen.EmitSwitch | bytecode/bytecodegen.cpp:1439-1501 | Values, address table, bodies, and the addresses filled in afterwards. |
| Generator.BytecodeGen.EmitBodies | bytecode/bytecodegen.cpp:1474-1492 | Emitting the bodies overwrites each address constant with the address of its own body and collects the jumps to the end. |
| Generator.BytecodeGen.Output | bytecode/bytecodegen.cpp:1981-1989 | The output opcode, through a register for a constant, none for a silent value. |
| BytecodeEdit.Bytecode.Insert | bytecode/bytecode.cpp:35-45 | Insertion in place: every address at or past the place goes up by one, then the opcode goes in. |
| BytecodeEdit.Bytecode.Erase | bytecode/bytecode.cpp:47-58 | Erasure in place: every address at or past the place goes down by one, by adding the largest unsigned number. |
| BytecodeEdit.Bytecode.UpdateAddresses | bytecode/opcode.hpp:776-783 | The relocation loop over all opcodes. |
| BytecodeEdit.RelocatesAddressOnly | bytecode/opcode.hpp:776-783 | Relocation touches the address operand alone, in exactly the nine opcodes that have one to move; all other operands and opcodes stay. |
| BytecodeEdit.InsertedExactly | bytecode/bytecode.cpp:35-45 | Opcode by opcode, what an insertion before the end leaves: each in its place or one behind, with its address one further if that was not below the place. |
| BytecodeEdit.ErasedExactly | bytecode/bytecode.cpp:47-58 | The same for an erasure; address 0 becomes the largest one. |
| BytecodeEdit.EraseUndoesInsert | bytecode/bytecode.cpp:35-58 | Erasing what was inserted restores code and addresses exactly unless an address wraps around. |
| BytecodeEdit.InsertUndoesErase | bytecode/bytecode.cpp:35-58 | Inserting an erased opcode again restores the code exactly unless an address was the erased place. |
| BytecodeEdit.InsertKeepsRuns | bytecode/bytecode.cpp:35-45 | Inserting an opcode without effect preserves runs, in one or two steps each, as long as the switches reached land at or before the place. |
| BytecodeEdit.SwitchStepExactly | bytecode/opcode.cpp:2989-3038 | A switch is not relocated: after an insertion it lands where its target now is exactly when that is before the place; at the place it meets the inserted opcode, and past it the opcode that was before its target. |
| BytecodeEdit.InsertKeepsOutcomes | bytecode/bytecode.cpp:35-45 | So the new code ends in some way exactly when the old code does, under the same condition. |
| BytecodeEdit.EraseKeepsOutcomes | bytecode/bytecode.cpp:47-58 | The same for erasing an opcode without effect that no address points at. |
| BytecodeEdit.NeutralExactly | bytecode/opcode.cpp:132-142 | Of the modelled opcodes only END has no effect in any state. |
| SwitchPlaces.RunsLandLow | bytecode/opcode.cpp:2989-3038 | A condition on the code: if the default addresses and the constants pushed onto address lists are at most `at` and nothing else writes them, no switch of any run lands past `at`. |
| SwitchPlaces.InsertBehindSwitches | bytecode/bytecode.cpp:35-45 | Insertion at or behind all these addresses keeps how runs end. |
| SwitchPlaces.EraseBehindSwitches | bytecode/bytecode.cpp:47-58 | Erasure too. |
| SwitchPlaces.ModuleBelow | bytecode/bytecodegen.cpp:1439-1501 | Generated code meets the condition when the addresses the generator gives to its switches are at most `at`: its registers for address lists and their constants are used for nothing else. |
| SwitchPlaces.InsertIntoModule | bytecode/bytecodegen.cpp:1439-1501 | Insertion into a generated module, not before a place its switches go to. |
| BytecodeEdit.ErasingATarget | bytecode/opcode.hpp:776-783 | The condition matters: an address equal to the erased place moves to the opcode before it. |
| BytecodeEdit.InsertingBeforeASwitch | bytecode/opcode.hpp:2413-2437 | SWITCH is not relocated: after an insertion its default lands on another opcode. |
| Optimizer.FoldAgrees | midend/transforms/constant_folding.cpp:1-242 | Folding two literals gives the interpreter result, is left out where the interpreter raises, and is undefined exactly where the interpreter raises a division by zero. |
| Optimizer.OptExprKeeps | midend/transforms/constant_folding.cpp:1-242 | A folded expression has the same value and effects. |
| Optimizer.PassesKeep | midend/ir_visitor.cpp:72-81 | One round of the passes on a node keeps its meaning; a deleted node did nothing. |
| Optimizer.OptBlockKeeps | midend/ir_visitor.cpp:12-39 | The optimizer keeps the meaning of every block, for any amount of fuel. |
| Optimizer.TruncateKeeps | midend/transforms/dead_code_elimination.cpp:29-123 | Dropping what follows a break or continue keeps what a body does. |
| OptimizedForm.KeptExactly | midend/transforms/constant_folding.cpp:11-214 | Which operators are folded over two literals, listed by the kinds of the literals. |
| OptimizedForm.OptBlockClean | midend/ir_visitor.cpp:12-81 | An optimized block has nothing left to fold or remove, at any depth: no operator over two foldable literals, no `if` or `while` on false, no `else` beside true, no silenced literal, nothing behind a break or continue. |
| OptimizedForm.FixedExactly | midend/ir_visitor.cpp:12-81 | The optimizer leaves a block as it is exactly when the block has that form. |
| OptimizedForm.OptimizedOnce | midend/ir_visitor.cpp:12-81 | Optimizing twice is optimizing once: the second round of passes on each node reaches the fixed point. |
| ZeroDivision.OptimizesExactly | midend/transforms/constant_folding.cpp:76-92 | The passes are undefined on a block exactly when a statement they visit holds a division or remainder with operands that fold to integers, the right one to zero. |
| ZeroDivision.FoldsExactly | midend/transforms/constant_folding.cpp:1-242 | The same for an expression; otherwise it folds to a literal exactly when it is constant. |
| OptimizedCode.OptimizedHalts | midend/ir_pipeline.cpp:12-25 | Where the passes are defined, code of the optimized program halts only as the original program completes. |
| OptimizedCode.OptimizedRaises | midend/ir_pipeline.cpp:12-25 | It raises only as the original fails. |
| OptimizedCode.OptimizedDiverges | midend/ir_pipeline.cpp:12-25 | It runs forever exactly when the original does. |
| OptimizedCode.UnreachedDivision | midend/transforms/constant_folding.cpp:76-92 | A division by a literal zero in a branch that never runs counts, although the program completes. |
| Comprehension.AsFor | midend/ir.cpp:11-45 | Wrapping loops from the last assignment inward produces the lowered code. |
| Comprehension.LoweringIsFlatMap | midend/ir.cpp:11-45 | The lowered comprehension yields exactly the nested flat-map, first assignment outermost, and changes no other variables, or fails with its first exception, when no collection but the outermost reads its own or a later variable and the outermost does not read one its loop still binds. |
| Comprehension.ReadingItself | bytecode/bytecodegen.cpp:1564-1567 | Otherwise it can fail: the loop variable is reset to nil before the collection is read again. |
| ComprehensionCode.SimCompr | bytecode/bytecodegen.cpp:1159-1164 | The code of a comprehension, the loops and the load of their variable, leaves the flat-map in its register anywhere in a program, or raises the first exception; all but its own variables stay. |
| ComprehensionCode.ComprOutputs | bytecode/bytecodegen.cpp:1159-1164 | As a statement it outputs the flat-map and runs to its end, or raises the first exception without output. |
| OperatorLaws.TypeErrorExactly | bytecode/opcode.cpp:1701-2642 | A binary operator raises a type error exactly for operands outside a table of kinds. |
| OperatorLaws.OtherErrorsExactly | bytecode/opcode.cpp:1834-2642 | When it raises a division by zero or an index error, and that it raises nothing else but key errors of subscripts. |
| OperatorLaws.DivisionExactly | bytecode/opcode.cpp:1834-1966 | Division and remainder truncate: they give q and m exactly when a = b * q + m with m smaller than b in magnitude and of the sign of a or zero. |
| OperatorLaws.LogicBits | bytecode/opcode.cpp:2388-2490 | `and`, `or` and `xor` of integers act on each bit of the two-complement form. |
| OperatorLaws.NotBits | bytecode/opcode.cpp:2728-2745 | `not` of an integer turns each bit. |
| OperatorLaws.BitsDetermine | bytecode/opcode.cpp:2388-2490 | Integers with the same bits are the same, so no other results are left. |
| OperatorLaws.LogicTruth | bytecode/opcode.cpp:2388-2490 | On truth values they are conjunction, disjunction, inequality and negation. |
| OperatorLaws.CompareStrings | bytecode/opcode.cpp:2137-2313 | Strings compare by their first difference, in all four operators. |
| OperatorLaws.StringsOrdered | bytecode/opcode.cpp:2137-2313 | A string is at most another exactly when it is smaller or the same. |
| OperatorLaws.Repeated | bytecode/opcode.cpp:1874-1926 | A string or list times n is n copies, each element at its place in its copy; nothing for a negative n. |
| OperatorLaws.ListSubscript | bytecode/opcode.cpp:2551-2612 | An element is found by the number of elements before it, and by minus one minus the number behind it. |
| OperatorLaws.StringSubscript | bytecode/opcode.cpp:2531-2590 | The same for characters; index 0 of the empty string gives a NUL. |
| OperatorLaws.MemberExactly | bytecode/opcode.cpp:2331-2350 | `in` holds for a string exactly when the other occurs at some position, for a list when some element is equal. |
| OperatorLaws.DictSubscript | bytecode/opcode.cpp:2613-2642 | A dictionary gives the value stored beside a key, wherever that is, and has the key. |
| OperatorLaws.DictMisses | bytecode/opcode.cpp:2613-2642 | A key stored nowhere raises a key error, and is not in the dictionary. |
| OperatorLaws.IterateParts | vm/values.cpp:207-256 | Iterating over joined strings, lists or dictionaries delivers what the parts deliver, in order. |
| OperatorLaws.IterateOne | vm/values.cpp:207-256 | One character delivers itself, one bucket a pair of key and value for each entry. |
| OperatorLaws.IntText | vm/values.hpp:352-354 | An integer is written as its sign and the decimal digits that stand for it, without leading zeros. |
| OperatorLaws.ListText | vm/values.hpp:604-631 | A list is written in brackets with its elements joined by commas. |
| OperatorLaws.DictText | vm/values.hpp:841-868 | A dictionary is written in braces, one `key: value` per entry, with commas between entries and buckets. |
| EqualityMeaning.PlainIdentity | bytecode/opcode.cpp:1984-2020 | A value without dictionaries, nested as deeply as you like, equals itself only. |
| EqualityMeaning.BothWaysExactly | bytecode/opcode.cpp:1984-2049 | With dictionaries: two values equal each other, both ways, exactly when they stand for the same thing, where lists stand for sequences and dictionaries for maps. |
| EqualityMeaning.EqualExactly | bytecode/opcode.cpp:1984-2049 | Without hash collisions equality one way is enough for that. |
| Equality.HashesShared | vm/values.hpp:346-564 | Which keys share a hash code: 1 and true, 0 and false, -1 and nil, and no others but strings. |
| Equality.EqualReflexive | bytecode/opcode.cpp:1984-2049 | Structural equality is reflexive on nested values without floats and objects. |
| Equality.EqualTransitive | bytecode/opcode.cpp:1984-2049 | It is transitive. |
| Equality.EqualDicts | bytecode/opcode.cpp:2021-2046 | For dictionaries it says: as many hash codes, and every entry of the first has an equal entry in the second. |
| Equality.EqualSymmetric | bytecode/opcode.cpp:1984-2049 | It can be turned round exactly when the numbers of entries agree, by counting. |
| Equality.EqualEquivalence | bytecode/opcode.cpp:1984-2049 | On values without hash collisions it is symmetric. |
| Equality.EqualityOneSided | vm/values.hpp:832-834 | `size` counts hash codes: with a collision equality is one-sided. |
| Dictionaries.Eq | bytecode/opcode.cpp:1984-2049 | The loops of `eq` decide the equality the lemmas are about. |
| Dictionaries.DictValue.Push | vm/values.cpp:415-438 | Pushing onto buckets and insertion order, in place. |
| Dictionaries.PushedNewHash | vm/values.cpp:433-437 | A new hash code goes behind all others. |
| Dictionaries.PushedInBucket | vm/values.cpp:419-432 | Otherwise only the bucket of the hash code changes, and it keeps its place. |
| Dictionaries.StoredInPlace | vm/values.cpp:422-432 | In its bucket a known key keeps its place and a new one goes to the end. |
| Dictionaries.PushedFind | vm/values.cpp:415-438 | After a push the key has the new value and every other key the value it had. |
| Dictionaries.PushedFormed | vm/values.cpp:415-438 | A push keeps keys of a bucket unequal and under their hash codes, what the lemmas about equality assume. |
| CallBinding.CanCall | bytecode/opcode.cpp:406-596 | Fails for a class call without an argument to take for `this`, and otherwise succeeds exactly for the accepted calls, with one of two `this` objects and the class dropped: the declarative binding exists or, when a parameter is given twice, all values fit and there are as many arguments as parameters. The result gives every parameter its name and the value of the specification, once each, exactly when no parameter is given twice, and the `this` of a class call behind them; on failure the frame keeps what the treatment of `this` has left. |
| CallBinding.MatchArgs | bytecode/opcode.cpp:468-593 | The tests and loops alone, on the arguments to be matched. |
| CallBinding.AcceptedExactly | bytecode/opcode.cpp:468-593 | What the tests of the matcher decide, for every argument list with positional arguments first. |
| CallBinding.RepeatedTooLong | bytecode/opcode.cpp:547-593 | A call that gives a parameter twice and leaves one to its default ends up with too many arguments. |
| CallBinding.TooMany | bytecode/opcode.cpp:468-480 | The first size test. |
| CallBinding.Place | bytecode/opcode.cpp:482-545 | The loop that edits a copy of the arguments leaves exactly the placed arguments. |
| CallBinding.FillDefaults | bytecode/opcode.cpp:547-582 | The second loop adds the defaults, or fails where one is missing. |
| CallBinding.BindableExactly | bytecode/opcode.cpp:468-593 | The specification in terms of what the matcher tests. |
| CallBinding.BoundComplete | bytecode/opcode.cpp:468-593 | Placed and default arguments fill every parameter once. |
| CallBinding.FindOverload | bytecode/opcode.cpp:717-729 | The backward search, in which every attempt sees the arguments as the one before has left them. |
| CallBinding.SearchExactly | bytecode/opcode.cpp:717-729 | With at most two objects as `this` the search picks the last listed function that can be called exactly when the call is no class call, or there is none, or it is the very last. |
| CallBinding.ClassCallMissed | bytecode/opcode.cpp:425-445 | A class call that only the first of two functions could take is refused: the attempt at the second has named its last argument `this`. |
| CallBinding.PopCallFrame | bytecode/opcode.cpp:1033-1041 | Register `j` and name `j` then hold the value the specification gives parameter `j`; the `this` of a class call goes behind and takes its name from a parameter called so. |
| CallBinding.RepeatedArgument | bytecode/opcode.cpp:468-593 | A call that gives `a` twice and `b` no value is accepted. |
| Overloads.Equals | vm/values.hpp:1367-1391 | `equals` decides equality of signatures, hence is an equivalence: the variadic flag, or the types in any order. |
| Overloads.Frame.CreateFun | bytecode/opcode.cpp:1248-1265 | The new function joins the functions of its name, in a new list or at the end of the shared one, and the name leads to the same functions as the register; other names are untouched. |
| Overloads.Frame.FunBegin | bytecode/opcode.cpp:1281-1302 | The function takes the place of an earlier one with its signature, the list of two collapsing to one function; the name sees the result because a list under a name has at least two functions. |
| Overloads.Frame.SetParam | bytecode/opcode.cpp:1304-1344 | The set opcodes change the newest function only. |
| Overloads.Frame.Declare | bytecode/bytecodegen.cpp:1658-1690 | One declaration, as it is emitted, defines its function in the table of its name; the functions of all other names stay as they are. |
| Overloads.DeclareAll | bytecode/opcode.cpp:1248-1302 | Any sequence of declarations, of any names in any order, adds to the functions a name holds: it then holds one function per signature, the latest, in the order in which the signatures first appeared; undeclared names keep what they have. |
| Overloads.DefineAllTabulates | bytecode/opcode.cpp:1281-1302 | Why: replacing in place keeps the functions pairwise unequal, the latest per signature, in order of first appearance. |
| Serial.LayoutsAgree | bytecode/bytecode_reader.cpp:137-889 | For every opcode the reader reads the operands the writer writes; the known opcodes are the first 137. |
| Serial.TakeFieldBack | bytecode/bytecode_reader.cpp:39-55 | A written operand is read back, whatever follows, exactly unless it is a string the reader has no buffer for. |
| Serial.GrownFits | bytecode/bytecode_reader.cpp:46-50 | Growing the string buffer helps exactly up to 2^32 - 64 bytes; past that the 32-bit size wraps to zero. |
| Serial.RoundTrip | bytecode/bytecode_writer.cpp:60-418 | Reading a written body gives the same opcodes and operands, and the very same program exactly when every break jump is set and every space is anonymous exactly if its name starts with a digit. |
| Serial.ReadBackExact | bytecode/opcode.hpp:796-825 | The same for one opcode. |
| Serial.ByteValue | bytecode/bytecode_writer.cpp:60-62 | The byte of a number is that number. |
| Serial.BytesInOrder | bytecode/bytecode_writer.cpp:25-42 | Words, wide operands and lengths are stored from their least significant byte up. |
| Serial.EncodedExample | bytecode/bytecode_writer.cpp:60-66 | The bytes of an opcode: its number, its operands in order, a true flag as 1, a string behind its length. |
| Serial.Residue | bytecode/bytecode_writer.cpp:420-425 | A body followed by its checksum always leaves 0xDEBB20E3 in the register: the stored checksum is the inverted one. |
| Serial.UniquelyDecodable | bytecode/bytecode_writer.cpp:60-418 | Two programs have the same body exactly when they have the same opcodes and operands. |
| Serial.EncodeDecode | bytecode/bytecode_reader.cpp:137-889 | The other way round: whatever body the reader reads to its end could have been written, and writing what was read gives a body of the same length, the very same one exactly when its flags are stored as 0 or 1. |
| Serial.BurstRefused | bytecode/bytecode_reader.cpp:891-897 | A body that differs from a written one in at most 32 consecutive bits is accepted only if the change cuts the last opcode off and the bytes read completely have the checksum; then it is accepted, unless a cut string overruns its buffer. |
| Serial.FlippedBit | bytecode/bytecode_reader.cpp:12-26 | That happens: for every register there is a JMP_IF_FALSE whose file is accepted with one bit flipped, as a STORE_INT_CONST cut off. |
| Serial.ReadsExactly | bytecode/bytecode_reader.cpp:891-899 | Which files the reader accepts: all opcodes known, strings that fit, and the checksum of the bytes read completely; that the body ends inside an opcode is no error by itself. |
| Serial.WrittenRead | bytecode/bytecode_reader.cpp:120-900 | Reading a written file comes to the written opcodes and operands, and to nothing else. |
| Serial.BytecodeWriter.WriteString | bytecode/bytecode_writer.cpp:37-42 | Length and bytes, with the checksum over both. |
| Serial.BytecodeWriter.WriteFile | bytecode/bytecode_writer.cpp:53-428 | The loop over the opcodes writes the body and its checksum. |
| Serial.BytecodeReader.ReadRaw | bytecode/bytecode_reader.cpp:12-26 | A short read sets the end-of-file flag, leaves the checksum alone and the rest of the data as memory happens to be. |
| Serial.BytecodeReader.ReadString | bytecode/bytecode_reader.cpp:37-54 | A string through the growing buffer; cut off, it has some length and content, and the checksum has seen at most its length. |
| Serial.BytecodeReader.ReadFile | bytecode/bytecode_reader.cpp:120-900 | The loop over the opcodes returns what the body decodes to, the first error, or a checksum mismatch; a body that ends inside an opcode is read with some operands for it and left to the checksum. |
| Checksum.Update | bytecode/bytecode_writer.cpp:14-23 | The loops over bytes and bits compute the checksum register. |
| Checksum.CheckValue | bytecode/bytecode_writer.cpp:14-23 | The checksum of nothing is 0 and that of "123456789" is 0xCBF43926, the check value of the CRC of RFC 1952. |
| Checksum.Chunks | bytecode/bytecode_reader.cpp:12-21 | The register depends on the bytes only, not on how reads and writes cut them. |
| Checksum.FeedInjective | bytecode/bytecode_writer.cpp:18-22 | One byte is injective in the register and in the byte. |
| Checksum.TableDriven | bytecode/bytecode_writer.cpp:18-22 | Eight single steps are one step of the table-driven form of section 8 of RFC 1952. |
| Checksum.FeedWord | bytecode/bytecode_writer.cpp:18-22 | Four bytes are one little-endian word, fed at once. |
| Checksum.BurstDetected | bytecode/bytecode_writer.cpp:14-23 | Bodies of any length that differ only within 32 consecutive bits, wherever they begin, have equal checksums exactly when they are equal. |
| Checksum.FourBytesDetected | bytecode/bytecode_writer.cpp:14-23 | In particular within four consecutive bytes. |
| Checksum.CrcOfBits | bytecode/bytecode_writer.cpp:18-22 | Bytes go into the register as their bits do, the lowest first. |
| Checksum.FiveBytesCollide | bytecode/bytecode_writer.cpp:14-23 | Five bytes are too many: two bodies of five bytes with the same checksum. |
| Escapes.Sanitize | interface/utils.cpp:35-60 | The loop produces the sanitized text. |
| Escapes.UnescapeString | frontend/parser.cpp:1880-1977 | The loop with its index and flag computes the unescaped text, or the first error. |
| Escapes.UnescapeSanitize | interface/utils.cpp:35-60 | Unescaping undoes sanitizing for every byte string, null and control bytes included. |
| EscapeSequences.SanitizedExactly | interface/utils.cpp:35-60 | Which characters are escaped by a letter, which by two upper-case hexadecimal digits, and that all others stay. |
| EscapeSequences.SanitizeParts | interface/utils.cpp:35-60 | Texts are sanitized piece by piece. |
| EscapeSequences.HexEscape | frontend/parser.cpp:1915-1926 | A hexadecimal escape of two digits, in either case, gives the byte with that value, all 256 of them. |
| EscapeSequences.OctalEscape | frontend/parser.cpp:1927-1938 | An octal escape of three digits gives the byte of their value modulo 256. |
| EscapeSequences.UnicodeEscape | frontend/parser.cpp:1939-1960 | Escapes of four and eight digits give the UTF-8 form of their positional value. |
| EscapeSequences.LetterEscape | frontend/parser.cpp:1887-1913 | The one-letter escapes and the bytes they stand for. |
| EscapeSequences.EscapeFails | frontend/parser.cpp:1880-1977 | Which sequences are errors, and which error each is. |
| EscapeSequences.NumberExactly | frontend/parser.cpp:1915-1960 | When the digits of an escape are taken: blanks, a sign, a prefix and digits up to the end or a null byte, nothing else. |
| EscapeSequences.StrtollReads | frontend/parser.cpp:1915-1960 | The number that is read then is the positional value of the digits, with the sign. |
| StringScan.Scanner.Advance | frontend/scanner.cpp:12-50 | Reads one character, its continuation bytes included. |
| StringScan.Scanner.ParseString | frontend/scanner.cpp:364-476 | The loop returns the literal that its specification describes, for one quote and for three, or finds it unterminated. |
| StringScan.Scanner.QuotedString | frontend/scanner.cpp:660-671 | The choice between one and three quotes and the empty string. |
| LiteralPieces.CharExactly | frontend/scanner.cpp:12-50 | A byte and the bytes of the form 10xxxxxx behind it are one character, a byte by itself its code as a signed `char`. |
| LiteralPieces.LiteralOfPieces | frontend/scanner.cpp:364-476 | A literal written from characters, escaped characters, joined lines and, between three quotes, newlines and one or two quotes, scans to what its pieces stand for and ends behind its closing quotes. |
| LiteralPieces.QuotedOfPieces | frontend/scanner.cpp:660-671 | The same from the opening quotes on: one, three, or the empty literal. |
| StringScan.QuotedSanitized | frontend/scanner.cpp:364-476 | A sanitized text of any bytes between quotes scans to itself and ends at the closing quote exactly when the text begins with no UTF-8 continuation byte and has no byte 255 standing alone, and no continuation byte follows the quote (nor, after an empty text, another quote). |
| StringScan.TextScannable | frontend/scanner.cpp:12-50 | Texts without byte 255 that do not begin with a continuation byte, ASCII texts among them, meet the condition on the text. |
| StringScan.LiteralRoundTrip | frontend/parser.cpp:1697-1697 | Sanitize, quote, scan, unescape: under that condition the text comes back and scanning stops at the closing quote. |
| StringScan.LoneByteIsEndOfFile | frontend/scanner.cpp:30-49 | A lone byte 255 is taken for the end of the file. |
| Grouping.Pairs | frontend/parser.cpp:1158-1371 | For all names and operators: `a p b q c` groups to the right when q is in a later method of the cascade, to the left when in an earlier one; within one method to the left, to the right for `^`, and not at all for `in` and `..`. The methods are listed by their operators. |
| Grouping.NotFirst | frontend/parser.cpp:1186-1194 | `not` takes everything that binds tighter than it, and nothing looser. |
| Grouping.NotSecond | frontend/parser.cpp:1186-1194 | Behind an operator that binds looser than `not` it begins an operand, behind the others it is an error. |
| Grouping.Minuses | frontend/parser.cpp:1373-1386 | A minus takes just the operand behind it, on both sides of every operator. |
| Grouping.Prefixes | frontend/parser.cpp:1186-1194 | How `not` and minus nest in each other. |
| Grouping.PlusDropped | frontend/parser.cpp:1373-1386 | A plus before an operand leaves no trace. |
| Grouping.Subscripts | frontend/parser.cpp:1446-1511 | A subscript binds tighter than every operator and prefix. |
| Grouping.Conditionals | frontend/parser.cpp:1142-1156 | The conditional binds looser than every operator and groups to the right. |
| Grouping.Parenthesised | frontend/parser.cpp:1596-1616 | Parentheses override all of this. |
| Grouping.OperatorNames | frontend/parser.cpp:1533-1561 | Every operator but `..` alone in parentheses is an operator name, and so are `not`, `[]` and `()`. |
| Precedence.ParsePrint | frontend/parser.cpp:1142-1237 | Printing any expression with the parentheses its place needs and parsing the tokens gives the expression and reads exactly those tokens, whatever follows that does not continue it. |
| Precedence.PrintShortest | frontend/parser.cpp:1142-1386 | Every text that parses to an expression is at least as long as the printed one, so no parenthesis could be left out. |
| Precedence.LeftChain | frontend/parser.cpp:1319-1358 | At a level that loops to the left, parsing a printed operand goes on with the loop. |
| Precedence.ExpStops | frontend/parser.cpp:1360-1371 | The right operand of `^` takes every `^` that follows. |
| Precedence.NoOperatorName | frontend/parser.cpp:1596-1616 | An expression in parentheses is never taken for an operator name. |
| ExprParser.Parser.ParseLevel | frontend/parser.cpp:1142-1386 | Every method of the cascade computes what its level describes, on any tokens, and terminates. |
| ExprParser.Parser.LeftAssociative | frontend/parser.cpp:1158-1184 | The loop of the seven left-associative methods. |
| ExprParser.Parser.NonAssociative | frontend/parser.cpp:1226-1237 | `in` and `..` take one operator. |
| ExprParser.Parser.TernaryIf | frontend/parser.cpp:1142-1156 | The conditional, right-associative. |
| ExprParser.Parser.UnaryPlusMinus | frontend/parser.cpp:1373-1386 | Unary minus, and unary plus that leaves no trace. |
| ExprParser.Parser.CallAccessSubs | frontend/parser.cpp:1446-1486 | Subscripts, one after another. |
| ExprParser.Parser.ParseConstant | frontend/parser.cpp:1596-1625 | Identifiers and parentheses, with the look-ahead for operator names. |
| ExprParser.PrintAndParse | frontend/parser.cpp:1142-1386 | Printing and parsing any expression returns it and leaves no token. |
| BlobTree.ParseBc | bytecode/bytecode_blob.cpp:56-58 | When brackets nest, the tree has one node per scope-opening opcode, in order; siblings are apart, children inside their parent; a class or space ends at its matching POP_FRAME, a function at the target of the first jump behind it. |
| BlobTree.OwnEndExactly | bytecode/bytecode_blob.cpp:12-22 | That jump is the one over the body exactly when the head of the function, up to its own FUN_BEGIN, has no jump; then the node ends where the function does. Otherwise, jumps of a head staying in it, the node ends before the body begins. |
| BlobTree.TreeEndsOwn | bytecode/bytecode_blob.cpp:12-22 | With no jump in any head, all nodes of functions end where the functions do. |
| BlobTree.EarlyEnd | bytecode/bytecode_blob.cpp:12-22 | A conditional as default value: the function ends at 9, the only tree has it end at 4. |
| BlobTree.BackwardLoops | bytecode/bytecode_blob.cpp:9-22 | A first jump back to its function: the scanning loop comes back to it in every turn. |
| BlobTree.OneTree | bytecode/bytecode_blob.cpp:6-58 | Only one tree has these properties: two trees that cover the same code are equal. |
| BlobTree.ParseRegion | bytecode/bytecode_blob.cpp:9-49 | The scanning loop of one region, which terminates. |
| BlobTree.ParseScope | bytecode/bytecode_blob.cpp:12-46 | One scope, and where scanning goes on. |
| BlobTree.FindPop | bytecode/bytecode_blob.cpp:27-44 | Counting finds the matching POP_FRAME. |
| BlobTree.FindJmp | bytecode/bytecode_blob.cpp:15-21 | The search finds the first jump. |
| BlobTree.SharedEnd | bytecode/bytecode_blob.cpp:12-22 | A function in the head of another one shares its end with it, which is before that of the outer one. |
| BlobTree.NestedHead | bytecode/bytecode_blob.cpp:12-22 | A concrete pair of functions, one in the head of the other, with their ends and the ends of their nodes. |
| BlobTree.ThreeKinds | bytecode/bytecode_blob.cpp:6-58 | A class holding a function that holds a space: the one tree, with kinds and ends. |
| Unpack.Pool.SubscRest | bytecode/opcode.cpp:2675-2711 | Fails exactly with too few values and then stores nothing; otherwise makes the stores of the front, of the back from the end, and of the rest, in this order. |
| Unpack.UnpackConserves | bytecode/opcode.cpp:2675-2711 | With distinct registers every variable gets the value it is due, and in order they hold exactly the list, unless there is no rest variable and there are more values than variables; no other register changes. |
| Unpack.WriteOf | bytecode/opcode.cpp:2683-2701 | The store of each variable, whatever the order in which they are made. |

## Left out

- CompilerCorrect.CodeCompletes: programs of literals, lists, variables, all binary, unary and short-circuit operators but `^`, conditionals, assignment, output, if, switch, while, do-while, for over one variable, break, continue, assert and raise. Not modelled: floats, objects, calls, functions, classes, attributes, subscript assignment, ranges, dictionary literals, multi-variable loops, and names looked up in spilled spaces or outer frames. The module that is bound to `moss` at the start is not a value of this model; any value may stand for it.
- Comprehension.LoweringIsFlatMap: for parts that assign no variables; the condition on what collections read suffices but is not necessary, since what is read may not matter. On failure only exception and output are stated, not the variables.
- CompilerCorrect.EveryState: of the finally stack only its height is modelled; try, catch and finally are lowered with the help of the interpreter's exception tables and are not part of this model.
- ExprSimulation.SimList: lists are values; that two names can share one list which is then changed in place is not modelled.
- StmtBasics.SimOutput: the values that are output are kept, not the text printed for them.
- Optimizer.OptBlockKeeps: the passes rewrite a tree of nodes in place; here they are functions on the tree. The analysis passes are not part of this model.
- BytecodeEdit.Bytecode.Insert: opcodes are values in a sequence; that blobs hold references to the same opcodes is not modelled.
- Equality.EqualEquivalence: no floats, objects, functions or spaces; the hash of a string is a parameter.
- CallBinding.CanCall: the type test, the kinds of values and the values are parameters; diagnostics are reduced to their kind. What `call` does to `this` before and after is not modelled.
- CallBinding.SearchExactly: at most two objects passed as `this`; with three, every attempt drops another one.
- Overloads.Frame.Declare: one frame; functions found in closures or spilled spaces, annotations, documentation and constructors are not modelled.
- Serial.RoundTrip: the header holds only the checksum; file names, time stamps and versions are left out. Ints and floats are their 64 bits, least significant byte first.
- Serial.BytecodeReader.ReadFile: the operands of an opcode that is cut off are any operands of its kind; which of their bytes still come from the file is not said.
- Serial.BytecodeReader.ReadString: a string too long for its buffer is an error here, where the source writes past it.
- Escapes.UnescapeString: the conversion of code points to UTF-8 by the C++ library is a parameter, and its exceptions are not modelled.
- StringScan.Scanner.ParseString: without format strings, and without line and column counters.
- ExprParser.Parser.CallAccessSubs: subscripts only; calls and member access are an error of their own.
- ExprParser.Parser.ParseConstant: identifiers and parentheses only.
- Precedence.ParsePrint: identifiers, operators, conditionals, subscripts and parentheses. Calls, member access, notes, literals other than names, comma ranges, multiple assignment, whitespace and newlines are not part of this model.
- BlobTree.ParseBc: requires that brackets nest and a function's first jump goes forward; otherwise the source can loop forever (`BlobTree.BackwardLoops`).
- Unpack.Pool.SubscRest: casting a value to a list and the assignments to attributes and subscripts around it are not modelled.
- Wrap-around of 64-bit integer arithmetic at run time.
- Generators, imports, modules, converters, formatters, the foreign-function interface, garbage collection, logging and the command line.
- The pass pipeline over blobs (bytecode/optimizer), whose one pass does nothing so far.
