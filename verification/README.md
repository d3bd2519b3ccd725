# DISP, verified

DISP is a language with a compiler, an interpreter and a built-in data store, written in Rust under
`compiler/src`. This project models its hardest parts in Dafny and proves what they are meant to guarantee,
for every input, every run or every reachable state.

* **The data store** (`data_store.rs`): the page format with FNV-1a checksums, the write-ahead log, and
  `load`/`commit`/recovery as a machine of small steps with a crash or a failed system call possible anywhere.
  `Bytes`, `Checksum`, `Snapshot`, `PayloadCodec`, `PageCodec`, `ImageIntegrity` and `Wal` hold the formats,
  `StoreRuns` and `StoreSafety` the runs, `StoreEncoder`, `StoreDecoder` and `Store` the imperative code.
* **The 16-bit x86 compiler** (`freestanding.rs`): source semantics (`Source`), machine (`Machine`), code
  generation (`CodeGen`, and `CompilerClass` with the compiler's own fields and updates), slots and linking
  (`Allocation`, `Linking`), and a simulation proof (`Represent`, `Execution`, `Endings`, `CallFrames`,
  `Statements`, `Simulation`, `Reserve`, `Correctness`).
* **The AArch64 compiler** (`freestanding_aarch64.rs`): stack discipline and array isolation in every run
  (`A64Machine`, `A64Code`, `A64Typing`, `A64Statements`, `A64Linking`, `A64Safety`, `A64Runs`). The generator
  annotates each instruction with what is on the stack and in the registers; the annotation is proved to hold
  whenever a run gets there. `CheckedArithmetic` compares the arithmetic of both targets with one specification.
* **The device-tree prelude** of the AArch64 image: a parser of the blob as a specification (`DeviceTree`), the
  emitted register loop (`DeviceTreeWalk`) and its 64-bit addresses at the edge (`DeviceTreeEdge`).
* **Front end**: lexer and formatter (`Lexing`, `LineLexing`, `Formatting`, `FormatterLaws`, `LoneReturns`,
  `Indentation`, and the loops in `Tokenizer` and `FormatterLoop`), `|` patterns (`OrPatterns`), constants
  (`ConstantArithmetic`, `TextOrder`, `Folding`, `FoldingRuns` over the run-time integers of `RuntimeIntegers`,
  `FoldingLaws`, `ConstantKinds`, `FoldingScopes`, `FoldingKeeps`, `FoldingTheorems`, `FoldingGaps`, and the mutable
  evaluator and folder in `ConstantEvaluator`), capabilities (`Effects`), control-flow graphs (`ControlFlow`) and
  package resolution (`Packages`, `PackageDepth`).

`dafny verify dfyconfig.toml` checks everything. Integers are unbounded; every wrap-around, saturation and
width limit of the program is written out. Where a method and a function do the same thing, the function is the
specification and the method is the program's loop or update in place.

## Findings

Properties the program's own documentation or structure suggests, and that do not hold as they stand. Each has
the exact condition under which the code meets it.

* The decoder refuses tables with more than 4096 constraints (`data_store.rs:496`) and the encoder writes them.
  A snapshot survives exactly when every table is within that cap (`ImageIntegrity.CurrentRoundTrip`,
  `StoreSafety.CommittedLoadable`); `ImageIntegrity.OverfullSnapshotIsLost` is a snapshot that is accepted and
  can never be read. From every store at rest with room for it, committing that snapshot returns success and leaves a
  log that cannot be replayed (`StoreSafety.OverfullBricks`), which stops the store for good
  (`StoreSafety.BrickedForever`).
* Folding is documented to come after validation, so that it cannot erase an error (`docs/language/COMPTIME.md:11-13`).
  It does. Compile-time numbers have no width; the running program gives a literal the type `int` (or `u128` beyond
  it) and checks every operation in the type of its operands (`interpreter.rs:7767-7773`, `12171-12283`,
  `12646-12690`, `12835-12985`). A constant is written back as a bare literal (`const_eval.rs:138-169`), so the type
  its annotation gave it and the overflow of its initializer are lost. `9223372036854775807 + 1` as a constant stops
  the program before folding and is a number after it (`FoldingGaps.OverflowErased`); with
  `const limit: i8 = 100`, the test `limit + 28 > 0` stops before and passes after
  (`FoldingGaps.NarrowCheckErased`), and `limit.wrapping_add(28)` is -128 before and 128 after
  (`FoldingGaps.WrappingChanges`). A constant with an annotation, returned, is unchanged if and only if the annotation
  is the type of the literal, leaves it alone or refuses it (`FoldingGaps.AnnotationDecides`); one operation on
  two numbers if and only if the result stays in the type its operands meet in and is written back in that type
  (`FoldingGaps.OperatorDecides`). Programs all of whose constants are like that are unchanged
  (`FoldingTheorems.FoldingKeepsRuns`).
* The device-tree loop rounds the address after a name up without checking for a carry
  (`freestanding_aarch64.rs:924`). Walks of all blobs of a size at a base stay inside the blob if and only if the
  blob ends more than three bytes below the top of the address space or is too short to hold a name
  (`DeviceTreeEdge.WalksStayInside`, with the straying blob in `DeviceTreeEdge.LastStrays`). Under exactly that
  condition the loop is proved to do what it should (`DeviceTreeWalk.Walker.Walk`).
* A carriage return that stands alone is white space to the lexer, which reads a line comment past it, and a line
  break to the formatter (`formatter.rs:27`). `//`, a lone return and `fn f() {}` format to a program with a
  function in it (`LoneReturns.CommentedFunction`). For sources without block comments, formatting keeps the
  tokens if and only if every return inside a line comment is followed on its line only by white space and further
  line comments (`LoneReturns.FormatKeepsTokensExactly`). With block comments that is enough
  (`LoneReturns.QuietFormats`) and not needed: a function that comes back to life can bring a comment that swallows
  the same function further down (`LoneReturns.BlockCompensates`).
* The formatter's brace count takes the literal `'''` for the start of another literal (`formatter.rs:113-137`).
  Without such a literal the count is the lexer's (`Indentation.BracesAreTokens`); on a line with one, and no
  quote behind it, it is right if and only if no brace and no open comment follows
  (`Indentation.QuotedQuoteMisleads`). On `''' {` it is wrong (`Indentation.QuotedQuoteLine`); on `''' {'{'` it takes
  the quoted brace for the one it missed and is right (`Indentation.QuotesCompensate`).
* Flattening `|` patterns gives every alternative its own try at the arm's guard (`expansion.rs:165-196`), so a
  guard that fails for the first matching alternative can pass for a later one (`OrPatterns.GuardRetried`).
  Flattening is right for all values and guards if and only if, behind the first matching alternative of a guarded
  arm, every other matching one binds the same values, for every value that gets to the arm (`OrPatterns.FlatteningSafe`).
* A constant built from other constants can be nested deeper than evaluation goes: it has a value, and the
  expression written back for it has none (`FoldingLaws.NestingOutgrowsDepth`). A written-back constant evaluates
  to itself exactly when its depth and steps are within the limits (`FoldingLaws.ReifiedEvaluates`).
* Package depth is counted along the chain that reaches a package first, so the depth limit depends on the order of
  dependency names (`package.rs:226-371`). `Packages.Resolve` states the exact condition. Of two graphs that differ only
  in which of two names the root gives to which of its dependencies, one resolves and the other is too deep
  (`PackageDepth.NamesDecideDepth`).

## Model

| member | source | states |
|---|---|---|
| `Checksum.Fnv1aDetectsChange` | compiler/src/data_store.rs:178-182 | changing any one byte of any text changes its FNV-1a checksum: each byte step is injective in the byte and in the running hash |
| `PayloadCodec.PayloadRoundTrip` | compiler/src/data_store.rs:205-330 | an encoded payload decodes to its tables in name order exactly when every flag is known to the version and every table is within the constraint cap, and is refused otherwise |
| `PayloadCodec.EncodingIgnoresTableOrder` | compiler/src/data_store.rs:205-330 | the bytes, and whether there are any, depend only on the multiset of tables |
| `PageCodec.DecodePagesOfImage` | compiler/src/data_store.rs:589-658 | the page chain of an image gives back exactly the payload that was cut into it |
| `ImageIntegrity.SnapshotRoundTrip` | compiler/src/data_store.rs:332-375 | for every version and generation, decoding an encoded image returns the snapshot sorted by name exactly when it is readable in that version |
| `ImageIntegrity.CurrentRoundTrip` | compiler/src/data_store.rs:377-380 | current writer and reader agree exactly on snapshots within the constraint cap |
| `ImageIntegrity.ImagesIgnoreTableOrder` | compiler/src/data_store.rs:332-375 | images do not depend on the order of the tables given |
| `ImageIntegrity.OverfullSnapshotIsLost` | compiler/src/data_store.rs:496 | a snapshot the encoder accepts under every generation and the decoder refuses |
| `ImageIntegrity.FormatsDisjoint` | compiler/src/data_store.rs:660-680 | no bytes are both a legacy and a paged image |
| `ImageIntegrity.DecodeRejectsChange` | compiler/src/data_store.rs:570-680 | every one-byte change to every accepted image, of any version, is refused |
| `Wal.WalRoundTrip` | compiler/src/data_store.rs:716-741 | a written log parses to itself |
| `Wal.ParseWalRejectsChange` | compiler/src/data_store.rs:743-790 | every one-byte change to every valid log is refused before any page is written |
| `Wal.CommittedIsImage` | compiler/src/data_store.rs:743-803 | a log applied to any file that agrees with the new image outside its records yields exactly that image |
| `Wal.ReplayLogged` | compiler/src/data_store.rs:743-817 | replaying over the old file, a torn one or the new image itself installs exactly the logged image, and refuses it where it does not decode |
| `Wal.CommitLog` | compiler/src/data_store.rs:716-741 | the log of a commit always fits, parses back, and is consistent with both the old file and the new image |
| `Wal.HeaderPageChanges` | compiler/src/data_store.rs:705-714 | the header page is always among the records, because the generation moves on |
| `StoreSafety.StepKeeps` | compiler/src/data_store.rs:743-907 | every step of every operation, failed call or crash keeps the disk completable to the last committed snapshot |
| `StoreSafety.Atomicity` | compiler/src/data_store.rs:819-907 | in every run the store holds exactly the snapshot of the last renamed log, and every load that returns one returns that one |
| `StoreSafety.CommitKept` | compiler/src/data_store.rs:862-907 | a commit that returned success stays at its place in the committed history |
| `StoreSafety.Durability` | compiler/src/data_store.rs:832-907 | after a successful commit every later successful load returns its snapshot or a later one |
| `StoreSafety.CommittedLoadable` | compiler/src/data_store.rs:832-852 | a committed snapshot can be loaded if and only if every table is within the constraint cap |
| `StoreSafety.BrickedForever` | compiler/src/data_store.rs:819-830 | once the log cannot be replayed every operation fails and the history never grows again |
| `StoreSafety.OverfullBricks` | compiler/src/data_store.rs:862-907 | from every store at rest with room for one more generation there is a run in which one commit returns success and nothing can be loaded or committed again |
| `StoreEncoder.EncodePayloadLoop` | compiler/src/data_store.rs:205-330 | the pushing loops produce the payload of the specification or fail exactly where it does |
| `StoreEncoder.EncodePagesLoop` | compiler/src/data_store.rs:332-375 | the page buffer, filled in place, is the image of the specification |
| `StoreDecoder.DecodePayloadLoop` | compiler/src/data_store.rs:436-560 | the cursor loops accept and return exactly what the parser of the format does |
| `StoreDecoder.DecodePagesLoop` | compiler/src/data_store.rs:589-658 | the walk over the page chain decodes exactly as specified |
| `Store.ChangedPages` | compiler/src/data_store.rs:705-714 | the page-by-page comparison yields exactly the pages that differ, in order |
| `Store.DataStore.ApplyWal` | compiler/src/data_store.rs:743-817 | succeeds exactly when the log replays over the file, which then is the logged image, and leaves the file alone otherwise |
| `Store.DataStore.Install` | compiler/src/data_store.rs:790-817 | writing the records in place and cutting the file produce the committed image |
| `Store.DataStore.RecoverWal` | compiler/src/data_store.rs:819-830 | on success the log is gone and the stored value unchanged; on failure nothing changed and nothing is loadable |
| `Store.DataStore.Load` | compiler/src/data_store.rs:832-852 | answers with the stored value and does not change it |
| `Store.DataStore.PrepareLog` | compiler/src/data_store.rs:862-884 | the bytes a commit writes to the log, or failure exactly where the specification fails |
| `Store.DataStore.Commit` | compiler/src/data_store.rs:862-907 | success stores exactly the snapshot as it reads back; failure leaves the stored value alone |
| `CheckedArithmetic.X86Correct` | compiler/src/freestanding.rs:1279-1419 | for every kind and operands the x86 sequence yields the true result or traps, exactly when it is out of range, the divisor is zero or the minimum is divided by minus one |
| `CheckedArithmetic.A64Correct` | compiler/src/freestanding_aarch64.rs:2033-2141 | the same for the AArch64 sequences |
| `CheckedArithmetic.NegateCorrect` | compiler/src/freestanding.rs:850-967 | negation traps exactly on the minimum |
| `CheckedArithmetic.CompareCorrect` | compiler/src/freestanding.rs:1215-1277 | for every kind and comparison the condition byte the compiler picks, read from the carry, zero, sign and overflow flags of the subtraction in that width, decides the order of the values |
| `Allocation.SlotAt` | compiler/src/freestanding.rs:1555-1574 | every slot is aligned, has its kind and lies in the region handed out |
| `Allocation.SlotsFrame` | compiler/src/freestanding.rs:1576-1619 | the slots of a function are pairwise disjoint and inside the 4096-byte region |
| `Reserve.ParsedFits` | compiler/src/parser.rs:2201-2222 | every expression the parser's nesting limit admits needs at most the stack reserve checked at calls |
| `Linking.LinkReady` | compiler/src/freestanding.rs:566-610 | in the linked program every label is bound once and every function's code, frame and entry are where callers expect them |
| `Simulation.SimExpr` | compiler/src/freestanding.rs:850-967 | compiled expressions yield the value of the source, with memory and stack as before, or stop as the source does |
| `Simulation.SimCall` | compiler/src/freestanding.rs:969-1034 | a call, recursive or not, leaves all slot memory and the stack as before and yields the callee's value, or stops at the stack limit |
| `Simulation.SimStmt` | compiler/src/freestanding.rs:638-804 | every statement, with its loops, jumps and returns, ends where and as the source ends it |
| `Correctness.Refines` | compiler/src/freestanding.rs:566-610 | for every accepted program and amount of fuel the machine run follows the checked big-step semantics with fresh locals per activation |
| `Correctness.NeverStuck` | compiler/src/freestanding.rs:566-610 | no run jumps wild, pops a mismatched entry or pushes past the stack floor |
| `Correctness.StopsOnlyLikeSource` | compiler/src/freestanding.rs:1459-1540 | the machine halts or traps in arithmetic only where the source does, having printed the same |
| `Correctness.StopsLikeSource` | compiler/src/freestanding.rs:1621-1636 | where the source finishes or traps the machine stops the same way, unless the stack limit stops it first with a prefix of the output |
| `Correctness.PrintsLikeSource` | compiler/src/freestanding.rs:806-848 | whatever any run has printed so far, the source prints first too |
| `CompilerClass.Compiler.Compile` | compiler/src/freestanding.rs:504-610 | the compiler's updates of code, labels, scopes and slots accept exactly the programs of the specification and leave exactly its code |
| `CompilerClass.Compiler.CompileStatement` | compiler/src/freestanding.rs:638-770 | one statement appends exactly its code and labels, or fails exactly where it is not accepted |
| `CompilerClass.Compiler.Register` | compiler/src/freestanding.rs:504-564 | every function gets its label and slots before any code is emitted |
| `A64Linking.StorageApart` | compiler/src/freestanding_aarch64.rs:2290-2352 | all scalar and array bindings of all functions lie apart inside the region |
| `A64Linking.ProgramTyped` | compiler/src/freestanding_aarch64.rs:1203-1533 | every instruction generated for an accepted program meets the stack and register annotation it carries |
| `A64Safety.StepKeeps` | compiler/src/freestanding_aarch64.rs:2275-2288 | every instruction keeps the correspondence of stack, open calls, waiting indices and annotations |
| `A64Runs.StackSafety` | compiler/src/freestanding_aarch64.rs:2275-2288 | in every run, however deep the recursion, SP stays 16-byte aligned between floor and top and no access leaves memory |
| `A64Runs.ProgramStackSafety` | compiler/src/freestanding_aarch64.rs:421-632 | the same for the code of every accepted program |
| `A64Runs.PopsMatchPushes` | compiler/src/freestanding_aarch64.rs:2275-2284 | every pop loads what its matching push stored, and the stack was never lower in between |
| `A64Runs.ReturnsMatchCalls` | compiler/src/freestanding_aarch64.rs:2218-2288 | every return resumes behind the innermost open call with the stack as that call left it |
| `A64Runs.LoadsReadElement` | compiler/src/freestanding_aarch64.rs:1492-1524 | every indexed load reads the element whose index was checked last |
| `A64Runs.StoresTouchOneElement` | compiler/src/freestanding_aarch64.rs:1449-1533 | every indexed store, plain or compound, writes exactly the element whose index was checked, and no other byte |
| `A64Runs.IndexDecides` | compiler/src/freestanding_aarch64.rs:1492-1507 | an index outside the array, negative ones included, stops the run with memory unchanged; one inside changes nothing |
| `A64Runs.SlotsApart` | compiler/src/freestanding_aarch64.rs:2409-2427 | different slots, array elements included, never share a byte |
| `DeviceTree.SurveyMeans` | compiler/src/freestanding_aarch64.rs:784-1201 | success means balanced nodes, exactly one console child of the root, usable and at the address returned, and a memory child that holds the whole image |
| `DeviceTree.ToldSurveys` | compiler/src/freestanding_aarch64.rs:784-1201 | conversely, a run of tokens up to the end token that the tree rules accept and complete makes the survey succeed with that console |
| `DeviceTreeWalk.Walker.Walk` | compiler/src/freestanding_aarch64.rs:784-1201 | wherever its addresses cannot carry, the register loop ends, loads only inside the blob, and returns exactly what the specification finds |
| `DeviceTreeWalk.Walker.StringEquals` | compiler/src/freestanding_aarch64.rs:762-777 | the emitted comparison decides equality with a terminated string without reading past the end |
| `DeviceTreeEdge.WalksStayInside` | compiler/src/freestanding_aarch64.rs:920-930 | walks of all blobs of a size at a base stay inside if and only if the rounding after a name cannot carry or no name fits |
| `DeviceTreeEdge.PositionSurveys` | compiler/src/freestanding_aarch64.rs:880-1201 | away from the edge every position of the address loop is a position of the specified walk |
| `DeviceTreeEdge.LastStrays` | compiler/src/freestanding_aarch64.rs:920-930 | a blob at the top of the address space whose first name sends the loop to address zero |
| `Tokenizer.Lexer.Tokenize` | compiler/src/lexer.rs:125-196 | the lexer's loop over its cursor returns exactly the specified tokens or fails exactly where they do |
| `Tokenizer.Lexer.ReadNumber` | compiler/src/lexer.rs:269-329 | digit runs, fractions and exponents are read exactly as far as specified |
| `Tokenizer.Lexer.SkipComment` | compiler/src/lexer.rs:411-452 | nested block comments are left exactly behind their outermost end |
| `LineLexing.LineByLine` | compiler/src/lexer.rs:411-452 | the tokens of a text depend only on the trimmed contents of its lines |
| `FormatterLoop.FormatSource` | compiler/src/formatter.rs:14-64 | the line loop with its depth, blank and comment state produces the specified layout |
| `FormatterLoop.ScanBraces` | compiler/src/formatter.rs:85-146 | the character loop with its flags counts the braces of the specification |
| `FormatterLaws.FormatTwice` | compiler/src/formatter.rs:14-64 | formatting a formatted text within the size limit returns it unchanged |
| `FormatterLaws.LayoutContents` | compiler/src/formatter.rs:26-60 | the output has the trimmed non-empty lines of the source, in order |
| `FormatterLaws.LayoutTokens` | compiler/src/formatter.rs:26-60 | the output lexes like the source with its line endings unified |
| `FormatterLaws.FormatKeepsTokens` | compiler/src/formatter.rs:14-64 | where carriage returns only stand before line feeds the output has the same lines and the same tokens |
| `LoneReturns.QuietFormats` | compiler/src/formatter.rs:27 | formatting keeps the tokens of every source whose line comments hold no return with text behind it |
| `LoneReturns.FormatKeepsTokensExactly` | compiler/src/formatter.rs:27 | for sources without block comments it keeps them if and only if that is so |
| `LoneReturns.LoneReturnChangesTokens` | compiler/src/formatter.rs:27 | any line with tokens put behind `//` and a lone return is comment before formatting and code after it |
| `LoneReturns.CommentedFunction` | compiler/src/formatter.rs:27 | a concrete source for which that happens |
| `Indentation.BracesAreTokens` | compiler/src/formatter.rs:85-146 | on a line that lexes and has no `'''` the formatter counts exactly the brace tokens and ends at the lexer's comment depth |
| `Indentation.IndentationFollowsTokens` | compiler/src/formatter.rs:38-60 | then indentation is the balance of brace tokens so far |
| `LoneReturns.BlockCompensates` | compiler/src/formatter.rs:27 | a source with a block comment behind a lone return that is not quiet and keeps its tokens, so the condition above is not needed there |
| `Indentation.QuotedQuoteMisleads` | compiler/src/formatter.rs:113-137 | behind a `'''` and without another quote the count is right if and only if no brace token and no open comment follows |
| `Indentation.QuotedQuoteLine` | compiler/src/formatter.rs:113-137 | the line `''' {`, whose brace is a token and is not counted |
| `Indentation.QuotesCompensate` | compiler/src/formatter.rs:113-137 | a line with a further quote on which the count is right although a brace follows |
| `OrPatterns.FlatteningMatches` | compiler/src/expansion.rs:566-681 | the first matching alternative binds what left-to-right matching of the original binds, and there is one exactly when the original matches |
| `OrPatterns.AlternativesPlain` | compiler/src/expansion.rs:683-715 | every alternative is flat and binds exactly the names of the original |
| `OrPatterns.Expand` | compiler/src/expansion.rs:566-681 | expansion succeeds exactly on patterns whose alternatives agree on names and whose number stays within the limit |
| `OrPatterns.ExpandArms` | compiler/src/expansion.rs:165-196 | a match is rewritten exactly when all arms stay within the limits, arm by arm in order |
| `OrPatterns.RewrittenChooses` | compiler/src/expansion.rs:165-196 | the rewritten match takes a copy of the first arm with an alternative that matches and passes its guard, with those bindings |
| `OrPatterns.FlatteningChooses` | compiler/src/expansion.rs:165-196 | for given guards the match is unchanged if and only if no arm passed over has a later alternative that would pass |
| `OrPatterns.FlatteningSafe` | compiler/src/expansion.rs:165-196 | it is unchanged for all values and guards if and only if the matching alternatives of guarded arms bind alike |
| `OrPatterns.GuardFreeChooses` | compiler/src/expansion.rs:165-196 | without guards it is always unchanged |
| `OrPatterns.GuardRetried` | compiler/src/expansion.rs:165-196 | a match that flattening changes |
| `ConstantArithmetic.SumDenotes` | compiler/src/const_eval.rs:59-75 | sign-and-magnitude addition is exact and fails exactly when the sum needs more than 128 bits of magnitude |
| `ConstantArithmetic.ProductDenotes` | compiler/src/const_eval.rs:909-918 | the same for products |
| `ConstantArithmetic.QuotientDenotes` | compiler/src/const_eval.rs:919-936 | division truncates toward zero, the remainder takes the dividend's sign, and both fail exactly on zero divisors |
| `ConstantArithmetic.ComparedDenotes` | compiler/src/const_eval.rs:77-84 | comparison of signs and magnitudes is the order of the numbers |
| `FoldingLaws.EvalConstant` | compiler/src/const_eval.rs:764-868 | every value evaluation returns can be written back as an expression |
| `FoldingLaws.ReifiedEvaluates` | compiler/src/const_eval.rs:138-169 | a written-back constant evaluates to that constant, using a number of steps and a depth read off its form, and fails exactly when those exceed the limits |
| `FoldingLaws.NestingOutgrowsDepth` | compiler/src/const_eval.rs:764-788 | a constant whose written-back form is too deep to evaluate |
| `ConstantKinds.EvalWorth` | compiler/src/const_eval.rs:764-990 | evaluation within any limits finds the one value the expression has without limits |
| `ConstantKinds.KeepsExactly` | compiler/src/interpreter.rs:12835-12925 | an annotation leaves a literal as it is, or refuses it, if and only if the number and the type name are in a relation stated by ranges |
| `ConstantKinds.NumbersApply` | compiler/src/interpreter.rs:12171-12283 | an operation of the interpreter on two literals gives the compile-time result, as its literal would read, if and only if result and operands share the type the operands meet in |
| `ConstantKinds.OperationDecides` | compiler/src/interpreter.rs:8040-8077 | the same for every scalar operator on every constant operands, with texts, truth values and unary operators |
| `ConstantKinds.MatchHeld` | compiler/src/const_eval.rs:530-548 | a pattern matches a constant at run time exactly as at compile time, with the same bindings, whatever types its fields have taken on |
| `FoldingScopes.WorthRuns` | compiler/src/const_eval.rs:764-990 | an expression whose operations stay in the types of their literals has its compile-time value in every run that agrees on the constants in scope, and touches nothing |
| `FoldingScopes.MatchBinds` | compiler/src/const_eval.rs:530-548 | a match adds exactly the names of a pattern whose alternatives agree on names |
| `FoldingTheorems.EvaluateListsConstants` | compiler/src/const_eval.rs:549-649 | evaluation records exactly the constants of the program, in order |
| `FoldingTheorems.FoldingKeepsRuns` | compiler/src/const_eval.rs:262-547 | for every program whose constants evaluate, whose initializers compute in the types of their literals and whose annotations keep their constants, the folded program answers exactly like the original, for every host, call, state and amount of fuel and under all shadowing by blocks, loops, parameters, matches and implicit declarations |
| `FoldingGaps.AnnotationDecides` | compiler/src/interpreter.rs:12835-12925 | for every number and type name the program that declares and returns the constant is unchanged by folding if and only if the annotation keeps the number |
| `FoldingGaps.OperatorDecides` | compiler/src/interpreter.rs:12171-12283 | for every operator and two numbers the program that declares the result and returns it is unchanged if and only if the operation stays in the type of its literals |
| `FoldingGaps.OverflowErased` | compiler/src/const_eval.rs:138-169 | a constant one beyond the largest `int` stops the program and, folded, is returned |
| `FoldingGaps.NarrowCheckErased` | compiler/src/const_eval.rs:138-169 | the check of an `i8` constant's width stops the program and is gone after folding |
| `FoldingGaps.WrappingChanges` | compiler/src/interpreter.rs:13008-13040 | a wrapping addition to an `i8` constant wraps before folding and not after |
| `FoldingTheorems.FoldedProgramFree` | compiler/src/const_eval.rs:399-518 | after folding no identifier refers to a constant |
| `ConstantEvaluator.Evaluator.Evaluate` | compiler/src/const_eval.rs:764-990 | evaluation on the stack of scopes returns the specified value and step count and leaves the stack as it was |
| `ConstantEvaluator.Evaluator.VisitStatement` | compiler/src/const_eval.rs:559-642 | a statement changes what the scopes know, the constants and the counters exactly as specified |
| `ConstantEvaluator.Evaluator.Charge` | compiler/src/const_eval.rs:1001-1046 | saturating counters refuse a constant exactly when its true size exceeds the limits |
| `ConstantEvaluator.Evaluator.VisitProgram` | compiler/src/const_eval.rs:217-260 | the constants of a whole program, or failure exactly where specified |
| `ConstantEvaluator.Folder.FoldStatement` | compiler/src/const_eval.rs:314-391 | a statement is rewritten as specified and the scopes know afterwards what they should |
| `ConstantEvaluator.Folder.FoldProgram` | compiler/src/const_eval.rs:262-297 | the whole rewritten program is the folded program of the theorems |
| `Effects.Infer` | compiler/src/effects.rs:106-150 | the loop ends with exactly the capabilities derivable through contract-free callees, the least fixpoint |
| `Effects.Analyze` | compiler/src/effects.rs:106-248 | a program is accepted exactly when every contract covers what its function can do and nothing hides in function values or closures |
| `Effects.ReachedWithin` | compiler/src/effects.rs:106-187 | in an accepted program whatever any chain of calls uses is within the first caller's contract |
| `Effects.NestedSilent` | compiler/src/effects.rs:203-248 | in an accepted program no closure, however deeply nested, uses or calls into a capability |
| `ControlFlow.Invert` | compiler/src/cfg.rs:11-60 | predecessor lists hold exactly the sources of incoming edges, ascending |
| `ControlFlow.Reachable` | compiler/src/cfg.rs:68-77 | the worklist finds exactly the blocks a path from the entry reaches |
| `ControlFlow.UnreachableBlocks` | compiler/src/cfg.rs:78-84 | exactly the other blocks, ascending |
| `ControlFlow.ReversePostorder` | compiler/src/cfg.rs:85-103 | the order lists each reachable block once, and is topological if and only if no cycle is reachable |
| `ControlFlow.HasBackEdge` | compiler/src/cfg.rs:104-119 | true if and only if a cycle is reachable from the entry |
| `Packages.Resolve` | compiler/src/package.rs:106-371 | succeeds if and only if what the root needs is readable, acyclic, unambiguous and within the limits, and then returns exactly those packages with their dependencies; every failure names a defect the graph has |
| `PackageDepth.NamesDecideDepth` | compiler/src/package.rs:226-371 | two graphs with the same packages and edges, one resolvable and one refused as too deep, that differ only in two exchanged dependency names |
| `Packages.FirstChainUnique` | compiler/src/package.rs:226-371 | without cycles a package is reached first along one chain only, so its depth is well defined |

## Left out

- Correctness.Refines: kinds are given in the source syntax; kind inference and the default kinds of literals (`freestanding.rs:1066-1208`) are not modelled.
- Correctness.StopsLikeSource: says nothing of programs the stack limit stops earlier than the source would, beyond their output.
- A64Runs.ProgramStackSafety: the generator is a function on values with names already resolved to bindings; the assembler and scope updates of `ScalarCompiler` are not modelled in place, nor is its agreement with a source semantics.
- A64Runs.StoresTouchOneElement: addresses in array accesses are numbers without 64-bit wrap-around, which the 4096-byte region makes unreachable.
- DeviceTreeWalk.Walker.Walk: excludes exactly the bases and sizes for which `DeviceTreeEdge.WalksStayInside` shows a blob that the loop strays from; what the loop does with memory that is not part of the blob is not modelled.
- Indentation.BracesAreTokens: excludes lines with the literal `'''`; lines with one of them are decided exactly only when no quote follows it, since quotes further on can make up for it, as in `Indentation.QuotesCompensate`.
- LoneReturns.FormatKeepsTokensExactly: is an equivalence for sources without block comments; with them only one direction is stated, in `LoneReturns.QuietFormats`, and `LoneReturns.BlockCompensates` shows that the other fails.
- FoldingTheorems.FoldingKeepsRuns: assignments are not to constants, the alternatives of a pattern bind the same names, and constants of a function differ in name or span, as resolver, type checker and parser ensure. Its condition on kinds is exact for one annotation and for one operation (`FoldingGaps.AnnotationDecides`, `FoldingGaps.OperatorDecides`), not for whole programs, where the uses of a changed constant can hide the change.
- Built-in functions and methods, indexing and floats of a running program: they belong to a host that is a parameter of `FoldingRuns`. Moving a value out of a variable is not modelled there.
- ConstantEvaluator.Folder.FoldProgram: returns rewritten expressions instead of overwriting them.
- Floats, closures, borrows, dereferences, `await`, `spawn`, `?` and data queries in constants and folding.
- Runs in `FoldingRuns` are bounded by fuel for iterations and calls; an endless run is the sequence of its bounded runs. The interpreter's own step budget is not modelled.
- Real file-system calls, locks, path suffixes, temporary names and sync calls of the data store and the package resolver: an abstract disk and a map of manifests stand for them.
- Raw opcode bytes, boot loaders, interrupt and MMU set-up, print routines and strings: instructions are a datatype and output is a trace of values.
- MMIO intrinsics and string output of the AArch64 target.
- The 32-bit and 64-bit x86 targets, which repeat the schemes modelled here with other widths.
- Error messages and spans: an error is one value, and a constant's span is a number.
- Collection of calls and capabilities from the syntax tree in `effects.rs`: analysis starts from the collected call graph.
- Wrap-around of the arm group counter in pattern expansion, and the `Meta` expansions.
- Package hashing, the lock file and the dependency tree listing.
- Token positions, the values of float literals, and Unicode tables, which are parameters of the lexer.
- The parser, type checker, ownership checker and intermediate representation.
- Cryptography, the component host, the process sandbox and the Python tools.
