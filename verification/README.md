# Verified models of gopy's compiler back end and codecs

gopy is a port of the CPython compiler and runtime to Go. This project models
four of its parts whose correctness is hard to see from any single function,
and proves what they promise.

**Code generation for patterns and conditions.** `Machine` is an abstract
stack machine for the opcodes involved. Loads, attribute lookups, arithmetic,
comparisons, class checks, stores and statement bodies go through one oracle
that sees the whole history, so equal final states mean equal actions in equal
order. `Expressions` and `Patterns` hold the evaluator and the matcher (the
meaning) next to the specification functions for the emitted code, which keep
the compile-time counters, label supplies and capture lists of the source.
`ExpressionProofs`, `PatternFrames`, `PatternSteps`, `MatchFacts`,
`PatternProofs` and `MatchStatement` prove the code against the meaning, and
`Legality` says from the syntax alone what compiles at all.
`CodeGenerator` is the generator as it runs, methods that append to a buffer
and update a scratch object, proved to leave exactly the specified code.
`InlinedComprehension` and `ComprehensionScopes` treat the saving and restoring
of locals and of the symbol table around an inlined comprehension.

**The assembler back end.** `Bytecode` is the instruction record with the
opcode tables; `Emission`, `Jumps`, `Varint`, `LocationTable` and
`ExceptionTable` are the emitter, the jump passes over an array in place, and
the two tables, each against a reader; `LocationSize` proves the location table
as short as possible. The readers of the two tables are those of
`objects/code_tables.go` and `vm/exctable.go`. `JumpProgress` says when the
jump-resolution loop ends; `JumpDivergence` exhibits a program on which it does
not.

**Codecs.** `ErrorHandlers`, `Utf8`, `Utf7` and `UnicodeEscape` with
`Utf8Proofs`, `Utf7Proofs`, `Utf8Handlers`, which says what every handler makes
of a text, and `Utf7Grammar`, which says what the UTF-7 decoder accepts. Strings
are byte strings in which a lone surrogate takes three bytes, as in the source.

**The printf-to-f-string rewrite.** `PrintfFormat` and `PrintfProofs`.

`dafny verify dfyconfig.toml` checks the whole project.

## What turned out false

- Jumps to one past the last instruction are resolved as jumps to offset 0
  (`Jumps.PastTheEnd`, `Jumps.PastTheEndMisses`). In range, a jump lands if and
  only if its opcode goes the right way (`Jumps.JumpLands`).
- The jump-resolution loop need not end (`JumpDivergence.Diverges`). It ends if
  and only if some round moves all sizes one way (`JumpProgress.SettlesExactly`),
  and always when the targets fit in one byte (`JumpProgress.NarrowStartSettles`).
- The argument of UNPACK_EX cannot hold a starred index of 256 or more
  (`PatternSteps.UnpackExFits`); `PatternProofs.StarsFit` keeps such an index out of
  the sequence patterns that are unpacked, and asks nothing of the others.
- Exception-table numbers of 2^30 and more, and the least signed 32-bit varint,
  do not read back (`ExceptionTable.ItemExact`, `Varint.SignedRoundTrip`).
- unicode-escape loses lone surrogates (`UnicodeEscape.UnicodeEscapeRoundTrip`)
  and refuses an eight-digit escape if and only if its number lies from 0x110000
  up to 2^31 - 1 (`UnicodeEscape.EightDigits`).
- UTF-7 joins a high surrogate directly followed by a low one
  (`Utf7Proofs.Utf7RoundTrip`), and leaves the tilde unshifted, which RFC 2152
  excludes (`Utf7Grammar.DirectIs`).
- The value form of and/or with one operand is refused, the branch form is not
  (`Legality.Compiles`, `Legality.Tests`).

## Model

| member | source | states |
|---|---|---|
| `ExpressionProofs.ExprCorrect` | compile/codegen_expr_op.go:26-304 | Running the value form of any expression (boolean, comparison chain, conditional, unary, binary, attribute, constant) leaves exactly the value of the evaluator on an otherwise unchanged stack, or raises exactly when it does, in the same state: same leaves, same order |
| `ExpressionProofs.JumpIfCorrect` | compile/codegen_jump_if.go:22-121 | The branch form jumps to its label exactly when the truth of the evaluated expression is the requested one and falls through otherwise, with the stack unchanged and in the evaluator's state, for every nesting of not, and/or, conditional and chained comparison |
| `ExpressionProofs.FormsAgree` | compile/codegen_jump_if.go:10-121 | Value form and branch form of one expression, started alike, raise in the same state or arrive in the same state with the branch taken on the truth of the value left by the value form |
| `ExpressionProofs.BoolCorrect` | compile/codegen_expr_op.go:26-50 | Short circuit: the first operand whose truth decides is the result and no later operand is evaluated |
| `ExpressionProofs.ChainCorrect` | compile/codegen_expr_op.go:193-242 | A chained comparison evaluates each operand once, stops at the first false comparison with its result, and leaves nothing else on the stack |
| `ExpressionProofs.JumpChainCorrect` | compile/codegen_jump_if.go:68-105 | The same chain in branch form, including the pop of the middle operand on the way out |
| `ExpressionProofs.JumpOperandsCorrect` | compile/codegen_jump_if.go:29-51 | and/or in branch form: the operands jump to the target or to the end label as their truth demands |
| `Expressions.OperatorNumbers` | compile/codegen_expr_op.go:72-107 | Every operator is sent under its own number of BINARY_OP |
| `Expressions.ComparisonMasks` | compile/codegen_expr_op.go:246-284 | The low bits of a COMPARE_OP argument say for which outcomes of a comparison its answer is true |
| `Legality.ExprEmits` | compile/codegen_expr_op.go:26-304 | The value form of an expression compiles if and only if its syntax is complete: two operands or more for and/or, as many comparators as comparisons, and the same inside |
| `Legality.TestEmits` | compile/codegen_jump_if.go:22-121 | The same for the branch form, which asks less of the operators it looks through |
| `Legality.WellFormedCompiles` | compile/codegen_jump_if.go:22-121 | Every expression that a parser builds compiles in both forms |
| `PatternProofs.PatternCorrect` | compile/codegen_stmt_match.go:239-763 | For every pattern the compiler accepts: the code falls through exactly when the recursive matcher succeeds, with the subject consumed, the scratch items untouched and the captured values below them in the order of the stores; when the matcher fails it enters failPop[k] with exactly k items above the base; when the matcher raises it raises in the same state |
| `PatternProofs.ValueCorrect` | compile/codegen_stmt_match.go:279-293 | PatternCorrect for value patterns: one == comparison, then fall-through or the fail-pop jump |
| `PatternProofs.SingletonCorrect` | compile/codegen_stmt_match.go:297-304 | PatternCorrect for None, True and False: identity, never equality |
| `PatternProofs.AsCorrect` | compile/codegen_stmt_match.go:317-336 | PatternCorrect for as-patterns: the copy under test is consumed and the original becomes the capture |
| `PatternProofs.CaptureCorrect` | compile/codegen_stmt_match.go:342-358 | A capture is rotated below all scratch items and earlier captures, behind the last of them |
| `PatternProofs.GatesCorrect` | compile/codegen_stmt_match.go:394-416 | Type and length tests of a sequence pattern pass exactly for sequences of a fitting length, and fail with one extra item on the stack |
| `PatternProofs.SequenceCorrect` | compile/codegen_stmt_match.go:373-427 | PatternCorrect for sequence patterns, over all three strategies (nothing to bind, indexing, unpacking) |
| `PatternProofs.SubsCorrect` | compile/codegen_stmt_match.go:442-449 | Sub-patterns of an unpacked subject consume their items from the top one by one; a failure in the middle still reaches the right fail-pop label |
| `PatternProofs.ItemsCorrect` | compile/codegen_stmt_match.go:456-482 | The indexing strategy for a wildcard star fetches from the front before the star and from the back after it the same items that unpacking would have given |
| `PatternProofs.MappingCorrect` | compile/codegen_stmt_match.go:535-621 | PatternCorrect for mapping patterns: size test, keys, lookups, values, rest |
| `PatternProofs.LookupCorrect` | compile/codegen_stmt_match.go:551-589 | After the key lookup the values tuple and the keys tuple lie on the subject exactly when all keys are present; missing keys fail, a repeated key raises |
| `PatternProofs.RestCorrect` | compile/codegen_stmt_match.go:598-620 | **rest captures a new dictionary with the matched keys removed and leaves the subject's own dictionary unchanged |
| `PatternProofs.ClassCorrect` | compile/codegen_stmt_match.go:629-679 | PatternCorrect for class patterns: the class is evaluated once, attribute values are matched in order, positional before keyword |
| `PatternProofs.ReorderSettles` | compile/codegen_stmt_match.go:716-734 | Bringing the captures of an alternative into the control order succeeds exactly when it binds the same names; a name is never found above its slot |
| `PatternProofs.ReorderCorrect` | compile/codegen_stmt_match.go:716-734 | The slice surgery on the names and the repeated rotations of the stack perform the same permutation, ending in the control order |
| `PatternProofs.AlternativeCorrect` | compile/codegen_stmt_match.go:699-741 | One alternative either leaves through the end label with its captures in control order above the untouched subject, or comes out of its own ladder with just the subject |
| `PatternProofs.AlternativesCorrect` | compile/codegen_stmt_match.go:699-741 | The alternatives act as the first one that matches |
| `PatternProofs.SinkCorrect` | compile/codegen_stmt_match.go:751-760 | After the end label each capture sinks below the subject, the scratch items and the earlier captures, in control order |
| `PatternProofs.OrCorrect` | compile/codegen_stmt_match.go:688-763 | PatternCorrect for or-patterns |
| `Legality.PatternEmits` | compile/codegen_stmt_match.go:239-763 | A pattern compiles if and only if it is legal by its syntax alone: irrefutable only where that is allowed, one star at most, valid keys without repetition, distinct attributes, no name bound twice or before, alternatives that are two or more and bind the same names |
| `Legality.OrEmits` | compile/codegen_stmt_match.go:688-763 | The same for or-patterns: two alternatives or more, each legal by itself, irrefutable only the last, all binding the names of the first |
| `Legality.KeysEmit` | compile/codegen_stmt_match.go:564-580 | The keys of a mapping pattern compile if and only if each has a key's shape and no two are the same constant |
| `Legality.KeyShapes` | compile/codegen_stmt_match.go:495-525 | The shapes of keys: a constant, an attribute, a negated constant, a sum or difference of a possibly negated constant and a constant |
| `Legality.SameBucketIsClash` | compile/codegen_stmt_match.go:790-919 | Two keys count as repeated if and only if they spell the same number, or are the same string, or None |
| `PatternSteps.FailBranch` | compile/codegen_stmt_match.go:208-215 | A failed test arrives at failPop[k] with exactly the k items pushed since the case's base, a passed one goes on |
| `PatternSteps.LadderStep` | compile/codegen_stmt_match.go:223-234 | Entering the ladder of fail-pop blocks at any k with k items above the base ends at its foot with the base alone |
| `PatternSteps.FailPopStep` | compile/codegen_stmt_match.go:223-234 | Every failure comes out of the ladder at base depth, whatever label it entered by |
| `PatternSteps.RotateStep` | compile/codegen_stmt_match.go:362-369 | The SWAP chain moves the top item below the n-1 items under it and keeps their order |
| `PatternSteps.RepeatRotateStep` | compile/codegen_stmt_match.go:730-732 | k chains in a row move the top k items, in order, below the others |
| `PatternSteps.UnpackExFits` | compile/codegen_stmt_match.go:433-441 | The one-argument encoding of UNPACK_EX splits a long enough subject at the star exactly when the starred index is below 256 |
| `PatternSteps.RestStep` | compile/codegen_stmt_match.go:605-615 | BUILD_MAP, DICT_UPDATE and the deletions leave a fresh dictionary without the keys |
| `PatternFrames.GenPatternAdvances` | compile/codegen_stmt_match.go:239-763 | Compiling a pattern only appends, binds only labels it made itself, extends stores by distinct names and failPop by distinct unbound labels |
| `MatchFacts.MatchKeepsDicts` | compile/codegen_stmt_match.go:598-617 | Matching never changes an existing dictionary: the copies made for **rest are new objects |
| `MatchStatement.MatchCorrect` | compile/codegen_stmt_match.go:65-94 | A match statement runs the body of the first case whose pattern matches and whose guard holds, or none, and ends at the stack height it started with; what raises, raises in the same state |
| `Legality.MatchEmits` | compile/codegen_stmt_match.go:65-172 | A match statement compiles if and only if the subject and all guards do and every pattern is legal, irrefutable only in the last case or under a guard |
| `MatchStatement.CaseCorrect` | compile/codegen_stmt_match.go:100-152 | One case: taken with the statement's stack at the end label, or skipped with the subject back on top when a case follows, names stored in binding order before the guard |
| `MatchStatement.CasesCorrect` | compile/codegen_stmt_match.go:81-86 | A series of refutable cases acts as the first that is taken |
| `MatchStatement.DefaultCorrect` | compile/codegen_stmt_match.go:159-172 | The trailing wildcard case, entered with the statement's stack, runs unless its guard fails |
| `MatchStatement.GenPatternNames` | compile/codegen_stmt_match.go:239-763 | The names left in stores are the names the pattern binds, in source order |
| `CodeGenerator.Compiler.VisitExpr` | compile/codegen_expr_op.go:26-304 | Leaves exactly the code that the specification function for the expression computes from the code before, and reports an error exactly when it has none |
| `CodeGenerator.Compiler.VisitBoolOp` | compile/codegen_expr_op.go:26-50 | The loop over operands emits the specified code |
| `CodeGenerator.Compiler.VisitIfExp` | compile/codegen_expr_op.go:288-304 | Emits the specified code of a conditional expression |
| `CodeGenerator.Compiler.VisitCompare` | compile/codegen_expr_op.go:193-242 | Emits the specified code of a comparison, rejecting empty or uneven operand lists |
| `CodeGenerator.Compiler.VisitChain` | compile/codegen_expr_op.go:208-241 | The loop over the rungs of a chain, then its cleanup, emit the specified code |
| `CodeGenerator.Compiler.CodegenJumpIf` | compile/codegen_jump_if.go:22-121 | Emits the specified code of the branch form |
| `CodeGenerator.Compiler.JumpIfBoolOp` | compile/codegen_jump_if.go:29-51 | The operand loop of the branch form emits the specified code, with a fresh label only where the two targets differ |
| `CodeGenerator.Compiler.JumpIfCompare` | compile/codegen_jump_if.go:68-105 | The comparison chain of the branch form emits the specified code |
| `CodeGenerator.Compiler.EnsureFailPopLabels` | compile/codegen_stmt_match.go:196-202 | Extends failPop by fresh labels up to n and changes nothing else |
| `CodeGenerator.Compiler.JumpToFail` | compile/codegen_stmt_match.go:208-215 | Emits a jump to the label that pops all scratch items and captures |
| `CodeGenerator.Compiler.EmitAndResetFailPop` | compile/codegen_stmt_match.go:223-234 | Emits the ladder from the deepest label down and empties failPop |
| `CodeGenerator.Compiler.PatternRotate` | compile/codegen_stmt_match.go:362-369 | Emits SWAP n down to SWAP 2 |
| `CodeGenerator.Compiler.PatternStoreName` | compile/codegen_stmt_match.go:342-358 | Pops a wildcard; rejects a repeated name; otherwise rotates and records the name |
| `CodeGenerator.Compiler.VisitPattern` | compile/codegen_stmt_match.go:239-336 | Leaves the specified code and context for every pattern kind, or rejects exactly where the specification does |
| `CodeGenerator.Compiler.PatternSubpattern` | compile/codegen_stmt_match.go:266-275 | Allows irrefutable patterns inside and restores the flag |
| `CodeGenerator.Compiler.ScanSequence` | compile/codegen_stmt_match.go:374-388 | One pass finds the star, rejects a second one exactly when there are two, and says whether anything but wildcards occurs |
| `CodeGenerator.Compiler.PatternSequence` | compile/codegen_stmt_match.go:373-427 | Sequence patterns: specified code and context |
| `CodeGenerator.Compiler.PatternSequenceUnpack` | compile/codegen_stmt_match.go:433-450 | Unpacking strategy: specified code and context |
| `CodeGenerator.Compiler.PatternSequenceSubscr` | compile/codegen_stmt_match.go:456-482 | Indexing strategy: specified code and context |
| `CodeGenerator.Compiler.VisitKeys` | compile/codegen_stmt_match.go:564-580 | Keys are visited in order; invalid and duplicate literal keys are rejected exactly as specified |
| `CodeGenerator.Compiler.PatternMapping` | compile/codegen_stmt_match.go:535-621 | Mapping patterns: specified code and context |
| `CodeGenerator.Compiler.PatternClass` | compile/codegen_stmt_match.go:629-679 | Class patterns: specified code and context |
| `CodeGenerator.Compiler.HasRepeatedAttr` | compile/codegen_stmt_match.go:641-647 | True exactly when two keyword attributes are equal |
| `CodeGenerator.Compiler.ReorderStores` | compile/codegen_stmt_match.go:716-734 | Emits the specified rotations or rejects, from the stores of the alternative |
| `CodeGenerator.Compiler.MoveNames` | compile/codegen_stmt_match.go:722-733 | The slice surgery displaces the first names to just behind the slot, and as many rotations are emitted |
| `CodeGenerator.Compiler.PatternAlternatives` | compile/codegen_stmt_match.go:699-745 | Each alternative is compiled in a context of its own; afterwards the context is what it was |
| `CodeGenerator.Compiler.PatternOr` | compile/codegen_stmt_match.go:688-763 | Or-patterns: specified code and context |
| `CodeGenerator.Compiler.SinkCaptures` | compile/codegen_stmt_match.go:751-760 | Rotates and records the captures one by one, rejecting a name already bound |
| `CodeGenerator.Compiler.MatchOneCase` | compile/codegen_stmt_match.go:100-152 | Emits the specified code of one case |
| `CodeGenerator.Compiler.MatchDefaultCase` | compile/codegen_stmt_match.go:159-172 | Emits the specified code of the default case |
| `CodeGenerator.Compiler.MatchInner` | compile/codegen_stmt_match.go:65-94 | Emits the specified code of the whole statement |
| `InlinedComprehension.ComprehensionIsolates` | compile/codegen_comp_inline.go:106-198 | For any list of saved names, any body, any code around the comprehension and any active handlers: the run ends behind its code with the result, or raises to the surrounding handlers, on the same rest of stack, every saved local holding its old value again and every other local what the body left in it |
| `InlinedComprehension.ComprehensionKeepsLocals` | compile/codegen_comp_inline.go:106-198 | From the symbols of a comprehension to the locals: on both exits every name it binds and does not declare nonlocal, and in a class block every name it knows, holds its old slot; every other name it knows holds what the body wrote; no other name changes. The body starts with the private names in fresh cells where they are cells, else unset |
| `InlinedComprehension.CellsInTheirPool` | compile/codegen_comp_inline.go:120-126 | A fresh cell is made among the free variables if and only if the name is free outside |
| `InlinedComprehension.ClearIsolates` | compile/codegen_comp_inline.go:110-128 | The body starts with each saved name unset, or in a fresh empty cell; no other local and no existing cell changed |
| `InlinedComprehension.EnterRun` | compile/codegen_comp_inline.go:130-141 | After the prologue the iterable is on top again, the saved slots below it, and the clean-up handler armed at that depth |
| `InlinedComprehension.RestoreRun` | compile/codegen_comp_inline.go:189-198 | The rotation and the stores put every saved slot back and keep the top item |
| `InlinedComprehension.ExceptionalExit` | compile/codegen_comp_inline.go:174-180 | On the exceptional path the partial result is dropped, the slots restored, and the exception re-raised |
| `InlinedComprehension.StoresUndoClear` | compile/codegen_comp_inline.go:106-198 | Storing in reverse order undoes the saving even for repeated names |
| `InlinedComprehension.Emitter.PushInlinedComprehensionLocals` | compile/codegen_comp_inline.go:106-142 | Emits the specified prologue and records the pushed names in push order |
| `InlinedComprehension.Emitter.PopInlinedComprehensionLocals` | compile/codegen_comp_inline.go:163-184 | Emits both specified exits with the labels where they belong |
| `InlinedComprehension.Emitter.RestoreInlinedComprehensionLocals` | compile/codegen_comp_inline.go:189-198 | Emits the rotation and the stores from the last name to the first |
| `ComprehensionScopes.RevertUndoesTweak` | compile/codegen_comp_inline.go:44-99 | Leaving puts the answer of every name lookup and the set of hidden names back, also when nested comprehensions came in between |
| `ComprehensionScopes.BodySeesItsOwnScope` | compile/codegen_comp_inline.go:44-82 | Inside, every name resolves with the comprehension's scope, but for the two exempted cases |
| `ComprehensionScopes.ViewInside` | compile/codegen_comp_inline.go:44-82 | While the body is compiled a name is hidden if and only if it was before or, outside functions, is private to the comprehension; a name it knows resolves as it says if and only if the scopes differ in how the name is reached, or in a class block; all other names resolve as before |
| `ComprehensionScopes.Unit.TweakInlinedComprehensionScopes` | compile/codegen_comp_inline.go:44-82 | The loop over the symbols leaves the specified overrides and undo record |
| `ComprehensionScopes.Unit.RevertInlinedComprehensionScopes` | compile/codegen_comp_inline.go:88-99 | Applies the undo record |
| `Bytecode.MeasureInstr` | compile/assemble_locations.go:212-224 | The shifting loop computes the size of an instruction: one unit per byte of its 32-bit argument, plus caches, none for POP_BLOCK |
| `Bytecode.WidthAtMostFour` | compile/assemble_locations.go:217-221 | An argument takes one to four units, by its magnitude |
| `Emission.Assembler.EmitInstr` | compile/assemble.go:71-102 | Appends exactly the prefixes of the non-zero high bytes, the opcode unit and the caches |
| `Emission.Assembler.Emit` | compile/assemble.go:54-58 | Appends the encoding of every instruction, in order |
| `Emission.EmissionRoundTrip` | compile/assemble.go:54-102 | Reading the bytes back (gathering EXTENDED_ARG, skipping caches) gives every instruction but POP_BLOCK with its opcode and full 32-bit argument, and the code is two bytes per unit |
| `Emission.CachesAreZero` | compile/assemble.go:97-101 | The cache cells behind an instruction are zero |
| `Emission.StartsAt` | compile/assemble_locations.go:206-224 | Instruction k starts at byte two times the sum of the sizes before it: emission and size function agree |
| `Jumps.ResolveUnconditionalJumps` | compile/assemble_jumps.go:23-42 | In place, every JUMP and JUMP_NO_INTERRUPT gets the direction of its target and nothing else changes |
| `Jumps.RunRound` | compile/assemble_jumps.go:72-103 | One pass in place rewrites every jump from the offsets at the start of the pass, and asks for another exactly when some size changed |
| `Jumps.ResolveJumpOffsets` | compile/assemble_jumps.go:55-107 | When the loop ends, the array holds the result of the first round that changed no size |
| `Jumps.JumpLands` | compile/assemble_jumps.go:72-103 | After the last round a jump with a target in range lands on it, measured in the final code, if and only if its opcode goes in the target's direction (or the target is the next instruction); END_ASYNC_FOR lands five units behind its target |
| `Jumps.UnconditionalJumpsLand` | compile/assemble_jumps.go:23-107 | Both passes together: every JUMP and JUMP_NO_INTERRUPT with a target in range lands on it in the final code |
| `Jumps.OnlyJumpsChange` | compile/assemble_jumps.go:23-107 | Between input and result of both passes: an instruction that is no pseudo jump keeps its opcode, and without a target everything; location and handler stay; a pseudo jump takes the direction of its target, uninterruptible backwards if and only if it was JUMP_NO_INTERRUPT |
| `Jumps.PastTheEnd` | compile/assemble_jumps.go:82-86 | A target just past the last instruction is resolved as the start of the code: where such a jump really lands |
| `Jumps.PastTheEndMisses` | compile/assemble_jumps.go:82-86 | A one-instruction program whose jump to the end misses it |
| `JumpProgress.RoundMonotone` | compile/assemble_jumps.go:64-106 | One round is monotone in the vector of instruction sizes |
| `JumpProgress.SettlesUpward` | compile/assemble_jumps.go:64-106 | Once a round makes no instruction narrower, the loop stops within 3n more rounds |
| `JumpProgress.SettlesDownward` | compile/assemble_jumps.go:64-106 | Once a round makes no instruction wider, the loop stops within 3n more rounds |
| `JumpProgress.SettlesExactly` | compile/assemble_jumps.go:64-106 | The loop ends if and only if some round makes no instruction narrower, and if and only if some round makes none wider |
| `JumpProgress.NarrowStartSettles` | compile/assemble_jumps.go:55-107 | If every jump starts with a target of at most 0xff, the loop ends, within 3n rounds |
| `JumpProgress.ShortCodeSettles` | compile/assemble_jumps.go:55-107 | The loop ends on every sequence of at most 256 instructions whose targets lie inside |
| `JumpProgress.KeepsClimbing` | compile/assemble_jumps.go:64-106 | After a round that narrowed nothing, no later round narrows anything |
| `JumpProgress.KeepsDescending` | compile/assemble_jumps.go:64-106 | After a round that widened nothing, no later round widens anything |
| `JumpDivergence.Diverges` | compile/assemble_jumps.go:23-107 | A program of 515 instructions, six of them jumps, on which the loop never ends: no round ever leaves all sizes unchanged |
| `JumpDivergence.RoundsAlternate` | compile/assemble_jumps.go:64-106 | On that program the rounds alternate between two sets of widths from the second one on |
| `Varint.WriteVarint` | compile/assemble_varint.go:17-24 | Appends the six-bit groups, least significant first |
| `Varint.WriteSignedVarint` | compile/assemble_varint.go:32-40 | Appends the varint of sign bit and magnitude in 32-bit arithmetic |
| `Varint.VarintRoundTrip` | compile/assemble_varint.go:17-24 | The table reader gets back the number and the length of its encoding |
| `Varint.SignedRoundTrip` | compile/assemble_varint.go:32-40 | Every signed 32-bit number reads back, except the least one, which reads as 0 |
| `Varint.SignedShortest` | compile/assemble_varint.go:17-40 | No bytes that read as a number are fewer than the ones written for it |
| `LocationTable.WriteLocationInfoEntry` | compile/assemble_locations.go:102-123 | Appends the entry in the chosen form and moves the line cursor to the entry's line |
| `LocationTable.AssembleEmitLocation` | compile/assemble_locations.go:130-139 | Appends entries of at most eight units that cover the span |
| `LocationTable.AssembleLocationInfo` | compile/assemble_locations.go:162-191 | Appends the specified table: one span per run of equal locations, POP_BLOCK skipped |
| `LocationTable.EntryBack` | compile/assemble_locations.go:102-123 | The reader of objects/code_tables.go gets back the (normalised) location of an entry if and only if its numbers fit their fields |
| `LocationTable.LocationRoundTrip` | compile/assemble_locations.go:162-191 | The reader assigns to every code unit of every instruction but POP_BLOCK that instruction's normalised location, and covers exactly the emitted units |
| `LocationSize.EntryShortest` | compile/assemble_locations.go:102-123 | No entry that reads as the same location is shorter than the one written |
| `LocationSize.FewestEntries` | compile/assemble_locations.go:130-191 | No list of entries that gives every code unit the same location is shorter than the table's |
| `LocationTable.EntriesContiguous` | objects/code_tables.go:97-190 | The decoded ranges follow each other without gap or overlap, whatever the bytes |
| `ExceptionTable.WriteExcItem` | compile/assemble_exceptions.go:20-39 | Appends up to five groups, the first marked |
| `ExceptionTable.ItemBack` | compile/assemble_exceptions.go:20-39 | A number reads back modulo 2^30 |
| `ExceptionTable.ItemExact` | compile/assemble_exceptions.go:20-39 | A 32-bit number reads back as itself if and only if it is below 2^30 |
| `ExceptionTable.WriteExcEntry` | compile/assemble_exceptions.go:46-60 | Appends start, length, target and depth with the flag below it, the depth clamped at zero |
| `ExceptionTable.AssembleExceptionTable` | compile/assemble_exceptions.go:74-103 | Appends one record per maximal run with a valid handler, in byte offsets |
| `ExceptionTable.TableRoundTrip` | compile/assemble_exceptions.go:74-103 | The records decode to the runs, ordered and disjoint |
| `ExceptionTable.SearchIsFirst` | vm/exctable.go:52-98 | The search answers with the first record whose range contains the offset |
| `ExceptionTable.LookupRefinesHandlers` | compile/assemble_exceptions.go:74-103 | Looking up any byte of instruction i finds a record if and only if its handler label is valid, and then with that label's target, depth and flag |
| `ExceptionTable.ItemShortest` | compile/assemble_exceptions.go:20-39 | A number takes as many six-bit groups as it needs |
| `ExceptionTable.OneRecordPerRun` | compile/assemble_exceptions.go:74-103 | The table has one record for every instruction with a handler other than the one before it, and no more |
| `ErrorHandlers.LenientRunes` | codecs/errors.go:213-243 | The loop returns the code points of the lenient reading |
| `ErrorHandlers.TextRoundTrip` | codecs/errors.go:201-243 | Every sequence of code points, lone surrogates included, reads back from its stored form |
| `ErrorHandlers.HandleDecodeError` | codecs/errors.go:143-379 | Each modelled handler, called for bytes that do not decode, answers the specified replacement or raises |
| `ErrorHandlers.HandleEncodeError` | codecs/errors.go:143-379 | Each modelled handler, called for a code point that does not encode, answers the specified bytes or raises |
| `ErrorHandlers.SurrogateEscapeDecode` | codecs/errors.go:363-378 | The loop answers the escaped surrogates of the region, or raises on an ASCII byte or an empty region |
| `ErrorHandlers.BackslashReplaceDecode` | codecs/errors.go:279-285 | The loop answers the \xHH escapes of the region |
| `ErrorHandlers.UnescapableSpan` | codecs/errors.go:349-357 | The loop finds how far the surrogates that cannot be escaped go on |
| `ErrorHandlers.HexSpells` | codecs/errors.go:262-285 | Escapes are written in lower-case hexadecimal digits, as many as asked for, the highest first |
| `Utf8.ScanBytes` | codecs/builtin.go:158-280 | The branches of the decoding loop find the character, or the ill-formed region and its reason |
| `Utf8.DecodeUtf8` | codecs/builtin.go:155-298 | The decoding loop with its handler calls computes the specified text or failure |
| `Utf8.EncodeUtf8` | codecs/builtin.go:116-144 | The encoding loop with its handler calls computes the specified bytes or failure |
| `Utf8.Utf8IncompleteTrail` | codecs/builtin.go:330-362 | The backward walk finds the length of the unfinished sequence at the end |
| `Utf8.DecodeUtf8Incremental` | codecs/builtin.go:312-325 | Decodes all but the unfinished trail and returns the trail |
| `Utf8Proofs.StrictIffWellFormed` | codecs/builtin.go:155-298 | Strict decoding succeeds if and only if the input is a concatenation of the well-formed sequences of Table 3-7, and then returns it unchanged |
| `Utf8Proofs.StrictReturnsScalars` | codecs/builtin.go:155-298 | The decoded text reads as the scalar values of those sequences |
| `Utf8Proofs.ScanIsMaximal` | codecs/builtin.go:174-280 | Every ill-formed region is a maximal subpart: no well-formed sequence starts there, it is one byte or begins one, and nothing longer does |
| `Utf8Proofs.ReplacesMaximalSubparts` | codecs/builtin.go:155-298 | Under replace, decoding gives one U+FFFD per maximal subpart and keeps all well-formed sequences |
| `Utf8Handlers.DecodesPatched` | codecs/builtin.go:155-298 | Under ignore, replace, backslashreplace and surrogateescape decoding keeps the well-formed sequences and gives the handler's answer for every maximal subpart: nothing, U+FFFD, a hexadecimal escape or a surrogate for each byte |
| `Utf8Handlers.StrictFailsAtFirst` | codecs/builtin.go:155-298 | A strict failure names the first maximal subpart, behind well-formed text, and its reason |
| `Utf8Handlers.PassExactly` | codecs/errors.go:302-330 | Under surrogatepass decoding accepts exactly the concatenations of well-formed sequences and three-byte surrogates, and returns them unchanged |
| `Utf8Handlers.EncodesEach` | codecs/builtin.go:116-144 | Encoding writes the UTF-8 form of every scalar and what the handler puts for a surrogate, or fails at the first code point that nothing stands for, with the region the handler blames |
| `Utf8Proofs.SurrogateEscapeRoundTrip` | codecs/builtin.go:116-298 | PEP 383: every byte string decodes under surrogateescape and encodes back to itself |
| `Utf8Proofs.SurrogatePassRoundTrip` | codecs/errors.go:302-330 | Under surrogatepass every string, lone surrogates included, encodes and decodes as itself |
| `Utf8Proofs.IncrementalStep` | codecs/builtin.go:312-325 | One incremental call followed by decoding the rest behind the returned bytes equals decoding everything at once |
| `Utf8Proofs.WellFormedAtOnce` | codecs/builtin.go:312-325 | A well-formed chunk is decoded whole: nothing is held back, whatever the handler |
| `Utf8Proofs.HoldsBackUnfinished` | codecs/builtin.go:312-362 | What is held back is a start byte with fewer continuation bytes than it announces, and every input that ends so gives back exactly that |
| `Utf8Proofs.ChunksDoNotMatter` | codecs/builtin.go:312-362 | However the input is cut into chunks, for every handler: the texts of the pieces make up the text of the whole, and one is refused if and only if the other is |
| `Utf7.EncodeUtf7` | codecs/utf7.go:76-126 | The encoding loop computes the specified bytes |
| `Utf7.EncodeRun` | codecs/utf7.go:97-116 | The inner loops collect a run's code units and strip the padding |
| `Utf7.Decoder.Consume` | codecs/utf7.go:190-216 | Six bits into the accumulator: sixteen make a unit, surrogate pairs are joined |
| `Utf7.Decoder.Turn` | codecs/utf7.go:186-272 | One turn of the loop: the specified step or error |
| `Utf7.Decoder.Run` | codecs/utf7.go:158-286 | The whole decoding loop computes the specified code points or failure |
| `Utf7.DecodeUtf7` | codecs/utf7.go:158-286 | ... and returns them as a string |
| `Utf7Proofs.RunIsChars` | codecs/utf7.go:97-116 | The unpadded base64 of a run is its code units, sixteen bits at a time, filled up with zero bits |
| `Utf7Proofs.RunDecodes` | codecs/utf7.go:186-216 | The decoder takes every unit out of a run and is left with 0, 2 or 4 zero bits |
| `Utf7Proofs.CloseRun` | codecs/utf7.go:117-124 | Where the closing minus is omitted, the following character ends the run by itself |
| `Utf7Proofs.DecodesEncoded` | codecs/utf7.go:76-286 | Decoding an encoded string never calls the handler and gives the string with each high surrogate directly followed by a low one joined |
| `Utf7Proofs.Utf7RoundTrip` | codecs/utf7.go:76-286 | Strict decoding of the encoding gives the string back if and only if no high surrogate in it is directly followed by a low one |
| `Utf7Grammar.StrictExactly` | codecs/utf7.go:158-286 | Strict decoding succeeds if and only if the bytes are a concatenation of pieces of a grammar over bytes and bits, with the code points the grammar gives them; it fails with a reason and a region if and only if they are those of the first offending piece |
| `Utf7Grammar.PieceDecodes` | codecs/utf7.go:158-286 | Under every handler a piece decodes to its meaning: an ASCII character, "+-", or a run of base64 characters that leaves fewer than six bits, all zero |
| `Utf7Grammar.OffenceFails` | codecs/utf7.go:217-283 | What is refused at once, and why: a byte above 127, an ill-formed shift, a partial character, padding that is not zero, a run left open |
| `Utf7Grammar.AlphabetIs` | codecs/utf7.go:59-147 | The base64 characters are those of RFC 4648, each with its place as its value |
| `Utf7Grammar.ShiftCharacters` | codecs/utf7.go:82-124 | Runs are opened by a plus and closed by a minus; the padding that is stripped is the equals sign |
| `Utf7Grammar.DirectIs` | codecs/utf7.go:34-53 | The characters left unshifted are the sets D and O of RFC 2152, white space, and the tilde |
| `Utf7Grammar.ClosesWhenNeeded` | codecs/utf7.go:97-124 | A run goes up to the next character that need not be shifted, and is closed by a minus if and only if it is the last or what follows would be read as part of it |
| `UnicodeEscape.EncodeUnicodeEscape` | codecs/unicode_escape.go:24-48 | The encoding loop computes the specified escapes |
| `UnicodeEscape.ReadHexDigits` | codecs/unicode_escape.go:148-163 | The digit loop computes the value in 32-bit arithmetic, and where it stopped |
| `UnicodeEscape.ReadOne` | codecs/unicode_escape.go:85-210 | The branches of the loop body: simple, octal, numeric and named escapes, and their failures, as specified |
| `UnicodeEscape.ReadNamedEscape` | codecs/unicode_escape.go:179-203 | The search for the closing brace and the lookup of the name |
| `UnicodeEscape.DecodeUnicodeEscape` | codecs/unicode_escape.go:57-212 | The decoding loop with its handler calls computes the specified text or failure |
| `UnicodeEscape.EscapeBack` | codecs/unicode_escape.go:24-212 | The decoder reads every escape the encoder writes as the one character it stands for |
| `UnicodeEscape.EscapeIs` | codecs/unicode_escape.go:24-48 | Printable ASCII stays, four characters have a letter, all others take the shortest numeric form |
| `UnicodeEscape.SimpleEscapes` | codecs/unicode_escape.go:87-123 | Plain characters, the letters behind a backslash, a dropped line feed, unknown escapes, and a backslash at the end |
| `UnicodeEscape.OctalEscape` | codecs/unicode_escape.go:124-136 | One to three octal digits, as many as there are, give their value |
| `UnicodeEscape.NamedEscapes` | codecs/unicode_escape.go:179-203 | A name in braces is looked up; an empty or open one and an unknown one are refused with their regions |
| `UnicodeEscape.ShortEscape` | codecs/unicode_escape.go:138-169 | With fewer digits than asked for the escape is refused up to the first character that is none |
| `UnicodeEscape.ShortDigits` | codecs/unicode_escape.go:138-178 | Two digits behind x and four behind u always give their code point |
| `UnicodeEscape.UnicodeEscapeRoundTrip` | codecs/unicode_escape.go:24-212 | Strict decoding of the encoding gives the text back if and only if the text is well-formed UTF-8 |
| `UnicodeEscape.EightDigits` | codecs/unicode_escape.go:138-178 | For any eight hexadecimal digits behind \U: refused if and only if the number is from 0x110000 up to 2^31 - 1, written as its code point below that, and as U+FFFD from 2^31 on, where it is negative in 32 bits |
| `PrintfFormat.ParseLiteral` | ast/preprocess.go:690-712 | The scan finds the literal text up to the next specification, with %% as % |
| `PrintfFormat.Cursor.ParseFlags` | ast/preprocess.go:814-827 | The flag loop advances the cursor past all flags and records - |
| `PrintfFormat.Cursor.ParseDigits` | ast/preprocess.go:870-885 | The digit loop reads at most two digits and fails on a third |
| `PrintfFormat.Cursor.ParseFormatSpec` | ast/preprocess.go:776-798 | The parsers in sequence compute the specified specification and position |
| `PrintfFormat.OptimizeFormat` | ast/preprocess.go:657-682 | The loop computes the specified pieces, or gives up |
| `PrintfProofs.RewritePreserves` | ast/preprocess.go:657-766 | Whenever there is a rewrite, rendering it equals printf-style formatting for any str, repr and ascii, and its arguments are the given ones, each once, in order |
| `PrintfProofs.RewritesExactly` | ast/preprocess.go:657-885 | There is a rewrite if and only if every conversion is s, r or a with numbers of at most two digits and there are as many as arguments |
| `PrintfProofs.PiecesTidy` | ast/preprocess.go:657-712 | No literal of a rewrite is empty, and none stands beside another |
| `PrintfProofs.SpecAgrees` | ast/preprocess.go:776-885 | The parser accepts exactly the complete specifications with short numbers and reads them as the reference grammar does |
| `PrintfProofs.FormatCharacters` | ast/preprocess.go:776-885 | The flag characters, the digits with their values, the conversions that are rewritten, and the limit on digits |
| `PrintfProofs.SpecTextMeans` | ast/preprocess.go:732-752 | The format specification written for a conversion pads, truncates and aligns as the conversion does |

## Left out

- Expression kinds without a visitor in the modelled files (calls, subscripts, displays, lambdas) are summarised as one load, statement bodies as one opaque instruction.
- Recursion limits, syntax warnings of comparisons, source positions of emitted instructions, constant and name pooling, name mangling, and the 2^30 limit on arguments in the instruction buffer.
- CodeGenerator.Compiler.VisitKeys: duplicate mapping keys are compared exactly for integers, strings, booleans and None; float and complex keys, and integers too big for a float, are not modelled.
- Identity of values is equality of model values; sequence and mapping protocols and truthiness are pure and do not change during a match. POP_JUMP_IF_FALSE after a guard is a truth test, as the interpreter treats it after flow-graph optimisation.
- InlinedComprehension.ComprehensionIsolates: the body of the comprehension is one arbitrary step that keeps the items below its own; its generator loops and the slot numbers of cell and free variables are not part of this model.
- Iteration over Go maps (symbols of a comprehension, saved symbols) is modelled as a sequence in any order; ComprehensionScopes.RevertUndoesTweak asks for distinct names, which the keys of a map are.
- Emission.EmissionRoundTrip: asks for opcodes below 256 other than EXTENDED_ARG, which is what the flow graph leaves; pseudo opcodes would be cut to one byte.
- Jumps.JumpLands, Jumps.UnconditionalJumpsLand: ask for code of fewer than 2^31 - 5 units, so that distances fit in 32 bits; JumpProgress bounds the number of instructions for the same reason.
- ExceptionTable.AssembleExceptionTable: asks for a preserve-lasti flag of 0 or 1 on used handlers, the only values the flow graph stores.
- Varint.VarintRoundTrip: the reader is modelled on unbounded integers; more than ten groups, which no writer here produces, would overflow in the source.
- Line and position iterators built on the decoded location table, and the code object around the three byte strings.
- The codec registry and its locks, custom error handlers, xmlcharrefreplace and namereplace, ASCII, Latin-1, charmap and UTF-16/32 codecs, and the text of error messages.
- UnicodeEscape.DecodeUnicodeEscape: the table of character names is a parameter.
- Base64 and UTF-16 of the Go library are written out from RFC 4648 (section 4) and RFC 2781 (section 2.1).
- PrintfProofs.RewritePreserves: str, repr and ascii are pure, so that it does not matter that an f-string converts each argument before evaluating the next; conversions other than s, r and a are never rewritten and are not rendered.
- Symbol tables, flow-graph passes, the parser, the object runtime, AST bridges and validators, class and annotation code, and floating-point folding.
