# tascript, verified

tascript compiles small scripts against a registry of types and rules that a host supplies, and runs them tick by
tick: constants, host-kind slots, inputs and outputs are declared at the top, `Init` runs once and `Run` on every
activation. This project models its front end and interpreter as one pipeline and proves that the pieces fit.

| layer | files |
|---|---|
| bytes to tokens | `Lexing`, `Lexers` |
| tokens to trees | `Parsing` (stops at the first error), `Parsers` (recovers), `Grammar`, `Precedence`, `Unambiguity`, `Printing`, `StatementGrammar`, `ProgramGrammar`, `ParsedTrees` |
| registry | `Registries`, `LiveRegistries`, `RegistryHistory`, `StdMath`, `Rules`, `RuleMeaning`, `WellFormed` |
| trees to resolved programs | `Elaboration` (stops at the first error), `Resolvers` (recovers), `Typing`, `CheckedPrograms`, `AcceptedPrograms`, `Erasure`, `Acceptance`, `AcceptedExactly` |
| running | `Semantics` and `Lifecycle` (on values), `Executables` (mutable), `BigStep`, `Steps`, `CallLaws`, `Scopes`, `Soundness`, `RunSafety`, `Safety`, `TickInputs`, `Reentrancy`, `Effects`, `LoadPhase` |
| all of it | `Pipeline` |
| library arithmetic | `Truncation` |

The same plan recurs. What the source does in place, with recovery after errors, is a class with the source's fields,
and each method is tied to a function on values that stops at the first error: without diagnostics both give the same
result, and otherwise the first diagnostic is that error. Theorems are then proved of the functions, and each of the
three large ones is shown to be exactly a description that does not mention it: the parser is a grammar of derivation
trees for expressions, statements and whole programs; the checker accepts exactly the programs that have a resolution
(which reads back as the program written, and is well typed); the evaluator is a relation with one rule for each form of
expression and statement. What the built-in rules compute is stated in exact arithmetic, and what the public calls do is
stated as laws between calls.

What is assumed of the host is spelled out in `WellFormed`: consistent signatures, type names without dots
(`DotlessTypes`), and functions that return values of the types they were registered with (`HostHonours`). A host is
otherwise arbitrary; its functions depend on a counter of all host calls, so it may keep any state, and answer any
call with a list of calls back into the engine. Compiling needs less than running: its agreement with the checker and its
honesty about errors hold over every registry that registrations can build, as long as type names have no dots.

Where documentation and code differ the model follows the code: an unbound input is reported by Run, not by Init
(`docs/` says Init; evaluator/evaluator.go:219-237 does it at Run), and the README example that passes the result of
`math.max` to an Integer position does not resolve, since no coercion leads from Float to Integer.

## Model

| member | source | states |
|---|---|---|
| Pipeline.CompiledIsSafe | tascript.go:32-52 | Any text that compiles, under any host that keeps the types it declared, through any sequence of public calls with any calls back from rules and sinks: no engine panic is reached, every delivered value has its sink's type, and the guard is down at the end |
| Pipeline.CompiledIsTyped | tascript.go:38-51 | What lexer, parser and resolver accept satisfies the type system, against a registry that is still well formed and only extends the given one |
| Pipeline.CompilesExactly | tascript.go:32-52 | A text compiles to some code and registry exactly if its tokens have a derivation in the grammar and the code is a resolution of the tree the derivation means; neither parser nor checker is mentioned |
| Pipeline.CompiledReadsBack | resolver/resolver.go:41-69 | The code of a text that compiles reads back, node by node, as the program written |
| Pipeline.Builder.Compile | tascript.go:32-52 | A builder compiles once; it yields a fresh executable and a sealed registry exactly when the strict compilation succeeds, and otherwise diagnostics that start with that compilation's error; a syntax error leaves the registry untouched |
| Safety.ConverseSafely | evaluator/evaluator.go:269-531 | For every sequence of Init, Run, bind and slot calls: the invariant holds afterwards, no answer is an engine panic, deliveries are only added and each has its sink's type |
| Safety.CallSafely | executable.go:78-132 | Every public call in every reachable state keeps the invariant between activations (after Init: outputs bound, slots filled at their types, constants and modules in scope) |
| Safety.InitSafe | evaluator/evaluator.go:144-200 | Init, however it ends, keeps the invariant; when it succeeds every output is bound, every slot holds a value of its type and the top scope agrees with the static one |
| Safety.RunSafe | evaluator/evaluator.go:206-225 | A Run, finished, trapped or panicking, keeps every slot filled and every output bound, changes neither constants and modules nor the bindings nor the stage, and never traps on an empty slot |
| Safety.LoadDeclsSafe | evaluator/evaluator.go:163-187 | The load phase reaches no panic, delivers nothing, never empties or retypes a slot, and ends in the scope the declarations describe |
| Safety.SlotsNumbered | resolver/resolver.go:356-432 | Slot indices are 0 to n-1 in source order |
| Safety.PortsDeclared | resolver/resolver.go:253-291 | Every input or output symbol of the final scope is a declared port of that type |
| Soundness.EvalExprSafe | evaluator/evaluator.go:377-410 | A well-typed expression reaches no panic site and yields a canonical value of its node's type; it delivers nothing and unbinds nothing |
| Soundness.EvalArgsSafe | evaluator/evaluator.go:511-531 | Evaluated arguments are named and typed as the rule's parameters |
| Soundness.NestedCallsOk | evaluator/evaluator.go:100-140 | Calls made by the host from inside a rule or sink keep bindings typed and deliver nothing |
| BigStep.EvaluationIsDerivation | evaluator/evaluator.go:377-531 | An expression evaluates to an outcome and a world exactly if a derivation says so, by one rule per form: the operands in order, each from the world before it, up to the first that stops; which values reach the rule; arguments by name; logical operators by their truth table, the right side evaluated exactly when it matters |
| Steps.ExecutionIsDerivation | evaluator/evaluator.go:269-375 | The same for statements: what each form evaluates, which frame entry, cell or delivery it leaves, and how a block runs its statements in order in a frame of its own |
| Steps.RunIsDerivation | evaluator/evaluator.go:206-237 | A Run is one such derivation over a frame holding exactly the inputs; it starts exactly in an initialized program with all inputs bound, and answers and leaves what the derivation says |
| Steps.InitIsDerivation | evaluator/evaluator.go:144-200 | An Init loads the declarations and then derives its body; it is accepted exactly when outputs are bound, nothing stopped and all slots are filled, and the stage says which |
| Steps.LoadIsStatement | evaluator/evaluator.go:163-187 | Loading a constant is a let in the top frame, loading an empty slot an assignment to it, and nothing else loads anything |
| RunSafety.EvalStmtSafe | evaluator/evaluator.go:281-300 | A well-typed statement is safe, keeps the top frame, filled slots and bindings, and leaves the scope in agreement with the static one |
| RunSafety.EvalBlockSafe | evaluator/evaluator.go:269-279 | The same for whole blocks, with the lets of the block dropped at its end |
| RunSafety.EmitSafe | evaluator/evaluator.go:330-354 | An emit sends a value of exactly the output's type to the sink bound to it |
| RunSafety.AssignNameSafe | evaluator/evaluator.go:364-375 | Assignment gives the name its new value and changes no frame but the one whose scope declares the let, and in that one no other entry |
| TickInputs.StmtKeepsInputs | evaluator/evaluator.go:281-300 | No statement of a tick, finished, trapped or panicking, changes what the function's frame holds for an input |
| TickInputs.InputReads | evaluator/env.go:22-30 | At every point an input's name reads what the function's frame holds for it, however deep the block: nothing hides it |
| TickInputs.RunReadsInputs | evaluator/evaluator.go:219-237 | After any number of Run's statements every declared input reads as the value bound to it before the tick |
| CheckedPrograms.CheckExprTyped | resolver/resolver.go:496-644 | A clean expression the checker accepts is well typed in its scope |
| CheckedPrograms.CheckArgsTyped | resolver/resolver.go:660-748 | Accepted arguments: one per parameter, in parameter order, named for it and coerced to its type |
| CheckedPrograms.CheckStmtTyped | resolver/resolver.go:109-180 | An accepted statement is well typed, and the scope it leaves is coherent |
| AcceptedPrograms.CheckDeclsTyped | resolver/resolver.go:41-69 | Accepted declarations are well typed in source order, and registered script types keep the registry well formed |
| AcceptedPrograms.CheckProgramTyped | resolver/resolver.go:41-69 | An accepted clean program is well typed; the registry stays well formed, only gains script types, and the names in scope at the start denote nothing readable |
| Erasure.ExprReadsBack | resolver/resolver.go:496-644 | The resolved form of an accepted expression reads back as it: same literals, operators, operand order, receivers and names, a slot under its name or word and name, with coercions dropped |
| Erasure.CheckedArgsReadBack | resolver/resolver.go:660-748 | Accepted arguments stand in parameter order: the i-th positional one at i, every keyword at the parameter of its name, each used once |
| Erasure.CheckedStmtReadsBack | resolver/resolver.go:109-180 | An accepted statement resolves to itself: target, value, condition, both branches, output and arguments each to their own place |
| Erasure.CheckedBlockReadsBack | resolver/resolver.go:98-107 | Statements resolve one for one, in order |
| Erasure.CheckedDeclsReadBack | resolver/resolver.go:253-432 | Declarations resolve one for one, in order, each with its name, its type as written (an inline one with its fields, registered under the qualified name) and its initializer |
| Erasure.CheckedProgramReadsBack | resolver/resolver.go:41-69 | An accepted program resolves to the program that was written, over any registry that registrations can build |
| Acceptance.ExprsExactly | resolver/resolver.go:496-644 | An expression resolves to a tree exactly if the tree reads back as it, is well typed, and has coercions only around arguments that need one and modules only as receivers |
| Acceptance.BlocksExactly | resolver/resolver.go:98-243 | Statements are accepted exactly if they have such a resolution: nothing else is accepted, and nothing that has one is refused |
| AcceptedExactly.PortExactly | resolver/resolver.go:293-334 | A port type is accepted exactly if it is known, or inline with distinct fields of known types and a name free to be registered |
| AcceptedExactly.ProgramsExactly | resolver/resolver.go:41-69 | A program is accepted exactly if its declarations and bodies have resolutions in source order, each in the scope those above leave; it resolves to just that |
| Resolvers.Resolver.Resolve | resolver/resolver.go:41-69 | Diagnostics are absent exactly when the checker accepts, with its program and registry; otherwise its error is first. Missing arguments number unknown plus repeated keywords; a bad node or error type in the result implies a diagnostic |
| Resolvers.Resolver.CollectDeclaredNames | resolver/resolver.go:73-90 | Collects every symbol the program's declarations will bind |
| Resolvers.Resolver.EnvFromRegistry | resolver/env.go:89-107 | The starting scope holds types, modules, namespaced words and reserved functions, and nothing else |
| Resolvers.Resolver.ResolveStmt | resolver/resolver.go:109-180 | Agrees with the checker on each statement and the scope after it; a bad statement has a diagnostic behind it |
| Resolvers.Resolver.ResolveBlock | resolver/resolver.go:98-107 | The same for statements in order |
| Resolvers.Resolver.ResolveEmit | resolver/resolver.go:187-221 | Agrees with the checker on emit: target, phase, and one argument per field or the value |
| Resolvers.Resolver.EmitTo | resolver/resolver.go:207-221 | An emission outside Run is reported; otherwise the emission carries the output's type and its arguments bound to that type's emit parameters, as the checker has it |
| Resolvers.Resolver.ResolveIf | resolver/resolver.go:223-242 | Agrees with the checker on conditions and both branches |
| Resolvers.Resolver.ResolveAssign | resolver/resolver.go:151-172 | Agrees with the checker on assignment: assignable targets only, value coerced to the target's type |
| Resolvers.Resolver.ResolveTarget | resolver/resolver.go:434-463 | Agrees with the checker on what an assignment may name |
| Resolvers.Resolver.ResolveExpr | resolver/resolver.go:496-644 | Agrees with the checker on every expression; a bad node or the error type implies a diagnostic |
| Resolvers.Resolver.ResolveReceiver | resolver/resolver.go:646-656 | Agrees with the checker on receivers, where alone a module may be named |
| Resolvers.Resolver.ResolveSlotRef | resolver/resolver.go:466-478 | A qualified name resolves to its slot; a dotted name in scope can be nothing else |
| Resolvers.Resolver.ResolveArgs | resolver/resolver.go:660-748 | A valid result has at index i the argument of parameter i, of its type as it stands or through the registered coercion, or of the error type with a diagnostic; missing reports equal unknown plus repeated ones |
| Resolvers.Resolver.ReportMissing | resolver/resolver.go:739-745 | One report for each parameter without an argument |
| Resolvers.Resolver.ResolvePort | resolver/resolver.go:253-291 | Agrees with the checker on inputs and outputs |
| Resolvers.Resolver.ResolvePortType | resolver/resolver.go:293-334 | Agrees with the checker on named and inline types; an inline type is registered under the qualified name, once |
| Resolvers.Resolver.ResolveInlineType | resolver/resolver.go:293-334 | The fields agree with the checker, and the type is entered in the shared registry exactly when they all resolve and the registration succeeds |
| Resolvers.Resolver.ResolveConst | resolver/resolver.go:336-354 | Agrees with the checker on constants |
| Resolvers.Resolver.ResolveKind | resolver/resolver.go:356-432 | Agrees with the checker on host-kind declarations: initializer policy, allowed types, inferred or declared type, and the next slot index |
| Resolvers.Resolver.NewErrorExpr | resolver/resolver.go:489-494 | An error node is made only when a diagnostic exists, so its panic is never reached |
| Executables.Executable.Dispatch | executable.go:64-132 | A public call changes the object's whole state and answers as the value-level state machine does, also when made from inside an activation |
| Executables.Executable.CallBacks | evaluator/evaluator.go:144-155 | The calls a rule or sink makes back change what the semantics of nested calls says, and the guard stays up |
| Executables.Executable.Init | executable.go:111-122 | Runs the load phase and the Init body once; the stage becomes initialized on success and failed otherwise |
| Executables.Executable.Run | executable.go:126-132 | Runs only when initialized |
| Executables.Executable.BindInput | evaluator/evaluator.go:100-121 | Binds a declared input to a value of its type or coerced to it, before Init only; every refusal leaves the state alone |
| Executables.Executable.BindOutput | evaluator/evaluator.go:123-140 | Binds a declared output to a sink of its type, before Init only |
| Executables.Executable.SlotGet | evaluator/evaluator.go:67-76 | Reads a filled slot, outside activations only |
| Executables.Executable.SlotSet | evaluator/evaluator.go:78-98 | Fills a slot with a value of its type or coerced to it, outside activations and not after failure |
| Executables.Executable.FindSlot | executable.go:64-71 | The first slot of that kind and name |
| Executables.Executable.EvalInit | evaluator/evaluator.go:144-200 | The guarded Init over mutable frames and slot array computes the pure semantics' state and answer |
| Executables.Executable.LoadDecls | evaluator/evaluator.go:163-187 | The load loop over the mutable top frame and slots is the fold of the semantics |
| Executables.Executable.EvalRun | evaluator/evaluator.go:206-225 | The guarded tick computes the pure semantics' state and answer; the guard comes down on every path |
| Executables.Executable.EvalExpr | evaluator/evaluator.go:377-410 | Evaluation over linked mutable frames gives the outcome and world of the pure semantics |
| Executables.Executable.EvalLogical | evaluator/evaluator.go:453-483 | Short-circuit evaluation as in the pure semantics |
| Executables.Executable.EvalMethodCall | evaluator/evaluator.go:511-531 | Receiver first, then arguments left to right, then the rule, as in the pure semantics |
| Executables.Executable.EvalStmt | evaluator/evaluator.go:281-300 | Each statement's effect on frames, slots and world is the pure semantics', and only this engine's frames change |
| Executables.Executable.EvalLet | evaluator/evaluator.go:356-362 | Binds the value in the innermost frame only, as the pure semantics does; nothing on a trap |
| Executables.Executable.EvalAssignName | evaluator/evaluator.go:364-375 | Changes exactly the frame that declared the name; a trapped right side changes no frame |
| Executables.Executable.EvalAssignSlot | evaluator/evaluator.go:302-309 | Writes the one cell, after its value is computed; a trapped right side leaves it |
| Executables.Executable.EvalBlock | evaluator/evaluator.go:269-279 | Statements in order until one does not finish |
| Executables.Executable.EvalIf | evaluator/evaluator.go:311-328 | The taken branch in a fresh frame; the other contributes nothing |
| Executables.Executable.EvalEmit | evaluator/evaluator.go:330-354 | The value or record is built first and delivered once |
| Scopes.Env.Get | evaluator/env.go:22-30 | Walking parent pointers finds the innermost binding of the frame chain |
| Scopes.Env.Set | evaluator/env.go:32-35 | Binds in the innermost frame only |
| Scopes.Env.Assign | evaluator/env.go:37-46 | Updates exactly the innermost frame that binds the name, and reports whether there is one |
| Scopes.LookupAssignIn | evaluator/env.go:37-46 | After an assignment the name reads as assigned and every other name as before |
| Scopes.AssignInFrame | evaluator/env.go:37-46 | An assignment changes one entry, the name's in the innermost frame that binds it; every other frame and entry is untouched |
| Reentrancy.NestedIsCall | evaluator/evaluator.go:67-81 | With the guard up a public call changes only the world, as the nested semantics says; Init, Run, slot get and slot set are refused |
| Reentrancy.NestedAreCalls | evaluator/evaluator.go:144-155 | The same for any conversation held inside an activation |
| Reentrancy.GuardDown | evaluator/evaluator.go:206-217 | The guard is down after every outermost call, whatever its end |
| Reentrancy.StageIsFinal | executable.go:111-132 | Between activations a stage other than created never changes |
| Reentrancy.NestedInitMarksFailed | executable.go:116-120 | A nested call changes the stage exactly when it is Init in a program still being initialized, and then to failed |
| Reentrancy.NestedCallsStage | executable.go:111-132 | Any number of nested calls leave the stage alone, unless it is created and one of them is Init |
| Reentrancy.OuterInitOverwrites | executable.go:116-120 | Stages are final only between activations: a well-typed program under a type-keeping host whose load phase calls Init back is marked failed on the way, and its Init ends initialized |
| Effects.StmtLeavesLog | evaluator/evaluator.go:281-375 | Whether it finishes, traps or panics, a statement leaves exactly the slot writes and deliveries of the statements inside it that completed, plus one delivery if what stopped it is an emit whose sink panicked: that one |
| Effects.BlockLeavesLog | evaluator/evaluator.go:269-279 | The same for blocks: a stopped activation is unfinished, not undone, and a trapping statement leaves nothing |
| Effects.RunLeavesLog | evaluator/evaluator.go:206-225 | The same for a Run as the host sees it: slots and deliveries afterwards are those before plus the log; a Run refused under the guard or for an unbound input changes nothing |
| Effects.ShortCircuit | evaluator/evaluator.go:453-483 | Once the first operands of a chain of && or of \|\| decide it, the others contribute neither value, effect nor trap |
| LoadPhase.LoadInOrder | evaluator/evaluator.go:163-187 | Loading declarations is loading the upper ones and then, if that finishes, the lower ones |
| LoadPhase.BelowDoesNotMatter | evaluator/evaluator.go:163-187 | An initial slot value depends on the host's fills and the declarations above only |
| LoadPhase.ConstantsFromAbove | evaluator/evaluator.go:163-187 | So does a constant's: whatever well-typed declarations come below, it has the value it had after those above |
| LoadPhase.LoadKeepsBound | evaluator/evaluator.go:163-187 | Loading well-typed declarations never changes a name the top frame already holds, since none of them is declared again |
| LoadPhase.FilledSlotsSkip | evaluator/evaluator.go:168-180 | The initializer of a slot the host has filled is never evaluated |
| LoadPhase.InitDeliversNothing | resolver/resolver.go:207-209 | Init of a well-typed program delivers nothing, however it ends |
| LoadPhase.InitReadsNoInput | resolver/resolver.go:520-523 | Init ends the same, with the same slots and constants, whatever is bound to the inputs |
| LoadPhase.SlotsAreDistinct | resolver/resolver.go:363-372 | No two slots share kind and name |
| LoadPhase.HandleReachesCell | executable.go:64-71 | The handle for a kind and name and the script's references to that slot reach the same cell |
| CallLaws.SetThenGet | evaluator/evaluator.go:78-98 | A slot set is accepted exactly outside activations and not after a failed Init, for a value of the slot's type or coercible to it, and the slot then reads as that value; a refused one changes nothing |
| CallLaws.SetLeavesOthers | executable.go:78-88 | No other slot reads differently, and nothing but cells changes |
| CallLaws.ReadsTheCell | evaluator/evaluator.go:67-76 | A slot reads as a value exactly outside activations when its cell holds that value |
| CallLaws.UnknownSlot | executable.go:64-71 | An undeclared kind and name refer to no slot |
| CallLaws.BindInputStores | evaluator/evaluator.go:100-121 | A binding is accepted exactly before Init, for a declared input and a value that fits; the input then holds it and no other does |
| CallLaws.BindOutputStores | evaluator/evaluator.go:123-142 | The same for outputs, for a sink of the declared type |
| CallLaws.BoundInputIsRead | evaluator/evaluator.go:227-237 | An input once bound reads as that value in every later Run, at every statement, until somebody binds it anew |
| CallLaws.BoundOutputDelivers | evaluator/evaluator.go:330-354 | Every delivery through an output once bound goes to that sink until somebody binds it anew |
| CallLaws.FreshIsEmpty | evaluator/evaluator.go:34-61 | A fresh program has empty slots, no bindings and no deliveries, its modules in scope, and refuses Run |
| RegistryHistory.ReplayKeepsInv | registry/registry.go:168-238 | After any registrations, accepted or refused: words and type names are disjoint, module-shaped types are exactly the modules, the error type is nowhere, first entries survive, and a sealed registry is final |
| RegistryHistory.StepGrows | registry/registry.go:271-303 | A registration changes no entry that was there |
| RegistryHistory.AcceptedExactly | registry/registry.go:168-457 | A registration is accepted exactly while the registry is open, if it does not mention the error type and its key or name is free; a declaration word must also be an identifier, no keyword nor reserved, and allow known types only |
| RegistryHistory.AcceptedStaysFound | registry/registry.go:271-457 | What was accepted is looked up as it was given, after any registrations that follow |
| WellFormed.AllRulesKeep | registry/std_math.go:116-194 | Every rule of a well-formed registry returns a canonical value of its declared type, the built-in ones by their own definition |
| WellFormed.ArithmeticTyped | registry/std_math.go:116-164 | The arithmetic rules answer with numbers: an Integer exactly for two integers and no /, otherwise a Float; they fail with nothing but division by zero |
| WellFormed.ComparisonTyped | registry/std_math.go:166-194 | Comparison of numbers always gives a Bool |
| RuleMeaning.IntegerSums | registry/std_math.go:101-127 | The default sum, difference, product and negation of integers differ from the exact ones by a multiple of 2^64 |
| RuleMeaning.WrapsToOne | registry/std_math.go:117-124 | Which determines one 64-bit result |
| RuleMeaning.IntegerRemainder | registry/std_math.go:130-134 | The remainder is smaller than the divisor in magnitude, has the sign of the dividend and leaves a multiple of the divisor |
| RuleMeaning.IntegerQuotient | registry/std_math.go:125-129 | A quotient of integers is the float quotient of both converted, in order |
| RuleMeaning.ZeroDivisor | registry/std_math.go:125-134 | Integer arithmetic fails exactly for / and % by zero, as division by zero |
| RuleMeaning.IntegerOrder | registry/std_math.go:166-194 | Each comparison of integers answers the order it is named for, and the other three are the complements |
| RuleMeaning.FloatArithmetic | registry/std_math.go:139-162 | With a float on either side the operator and both operands, in order and converted, reach the float operation; a zero divisor is reported first |
| RuleMeaning.FloatOrder | registry/std_math.go:173-194 | So do comparisons |
| RuleMeaning.StringsJoin | registry/std_math.go:97-99 | Strings are joined left to right |
| RuleMeaning.ScalarEquality | registry/std_math.go:196-202 | Strings and booleans are equal exactly when they are the same |
| RuleMeaning.Negation | registry/std_math.go:112-114 | ! flips a boolean |
| RuleMeaning.HostIsAsked | evaluator/evaluator.go:435-531 | A host rule is asked with its operands in order, and its value, error or panic is the evaluation's |
| StdMath.DefaultRegistry | registry/registry.go:140-166 | The nested registration loops build exactly one table of operators, one coercion and four types, and nothing else |
| StdMath.RegisterNumerics | registry/std_math.go:42-62 | Each operator at all four pairs of numeric types, replacing nothing |
| StdMath.RegisterScalars | registry/std_math.go:64-80 | Equality of strings and booleans, and concatenation of strings |
| StdMath.RegisterUnaries | registry/std_math.go:82-94 | Numeric negation and logical not |
| StdMath.DefaultIsWellFormed | registry/registry.go:140-166 | The default registry meets every assumption the soundness theorems make of a registry |
| LiveRegistries.LiveRegistry.Seal | registry/registry.go:103-103 | Sets the seal and nothing else |
| LiveRegistries.LiveRegistry.RegisterType | registry/registry.go:177-185 | Adds the type, or refuses for the first reason that applies and changes nothing |
| LiveRegistries.LiveRegistry.AddType | registry/registry.go:192-204 | Refuses the error type, a declaration word and a taken name, in that order |
| LiveRegistries.LiveRegistry.RegisterModule | registry/registry.go:292-303 | Adds the module and its module-shaped type together |
| LiveRegistries.LiveRegistry.RegisterCoercion | registry/registry.go:271-284 | Adds the coercion unless sealed, reserved or taken |
| LiveRegistries.LiveRegistry.RegisterBinary | registry/registry.go:305-322 | Adds the rule unless sealed, reserved or taken |
| LiveRegistries.LiveRegistry.RegisterUnary | registry/registry.go:334-350 | Adds the rule unless sealed, reserved or taken |
| LiveRegistries.LiveRegistry.RegisterMember | registry/registry.go:361-377 | Adds the accessor unless sealed, reserved or taken |
| LiveRegistries.LiveRegistry.RegisterCall | registry/registry.go:388-409 | Adds the signature unless sealed, taken, or the error type is its owner, result or a parameter |
| LiveRegistries.LiveRegistry.RegisterDeclKind | registry/registry.go:420-452 | Adds the word unless it is no identifier, a keyword, reserved, taken, or allows an unknown type |
| LiveRegistries.LiveRegistry.RegisterScriptType | registry/registry.go:207-238 | Adds the structural type and an accessor for each field, keeping accessors that are there |
| Grammar.ParserIsGrammar | parser/expr.go:10-34 | Parsing above a precedence succeeds exactly when the stratified grammar has a derivation within the nesting limit that no following operator can extend, and returns that derivation's tree and span |
| Grammar.Complete | parser/expr.go:10-63 | Every such derivation is returned: prefix, binary, group, member, index and call productions, left-associative, keyword arguments last, optional trailing comma |
| Grammar.Sound | parser/expr.go:10-63 | A tree read without error is such a derivation, cut as late as possible |
| Unambiguity.Unique | parser/precedence.go:21-38 | The grammar is unambiguous: two derivations that start together and cannot be extended are equal, whatever their nesting and literals |
| Unambiguity.Spine | parser/precedence.go:21-38 | The shorter of two derivations that start together is on the left spine of the longer |
| Precedence.Grouping | parser/precedence.go:21-38 | Of two binary operators in a row the second groups first exactly if it stands on a higher rung of the ladder \|\| && ==,!= <,>,<=,>= +,- *,/,%; otherwise the first does |
| Precedence.LooserIsPrec | parser/precedence.go:9-38 | The numbers the parser compares order the operators as the ladder does |
| Printing.ParsePrinted | ast/ast.go:313-429 | Parsing the printed tokens of a tree gives its normal form if the text nests within the limit, and an error otherwise |
| Printing.RoundTrip | ast/ast.go:334-429 | Parsing the printed tokens gives the same tree exactly when no prefix expression heads a member access, index or call and the nesting limit is kept |
| Printing.NormIsIdentity | ast/ast.go:334-407 | The normal form of a tree is the tree exactly when its heads are not prefix expressions |
| Printing.PrefixHeadIsLost | ast/ast.go:334-357 | (-a).b is printed as -a.b, which is -(a.b) |
| StatementGrammar.StatementsAreGrammar | parser/stmt.go:41-150 | A statement that ends with its line is read exactly where the grammar of statements has a derivation, and is what that means: target left of =, value right, condition, body and else chain |
| StatementGrammar.BlocksAreGrammar | parser/stmt.go:9-39 | A block is read exactly up to the } that closes a derivation of lines and blank lines, to its statements in order |
| ProgramGrammar.ProgramsAreGrammar | parser/parser.go:81-162 | A script is accepted exactly if all its tokens have a derivation: declarations of their own lines, types with fields, one Run that is not empty and at most one Init; and its tree is what the derivation means |
| ProgramGrammar.FoundType | parser/parser.go:312-375 | Every type read has a derivation: a name, or fields with commas between and blank lines around |
| ParsedTrees.ProgramClean | parser/parser.go:81-162 | A script read without error has no bad node, no missing child, a Run function, and only dot-free names |
| ParsedTrees.ExprClean | parser/expr.go:10-159 | An expression read without error has no bad node |
| Parsers.Parser.Parse | parser/parser.go:81-162 | Ends on every token stream; valid exactly when nothing is reported, and then the program is the strict parser's; otherwise the first of at most 100 diagnostics is the strict parser's error |
| Parsers.Parser.AddDiag | parser/parser.go:73-79 | Counts every diagnostic and keeps the first 100 |
| Parsers.Parser.ParseExpression | parser/expr.go:10-34 | Agrees with the strict parser, restores the nesting counter, which never exceeds 65 |
| Parsers.Parser.ParseOperand | parser/expr.go:161-190 | Literals, names and the choice of prefix production, as the strict parser has them |
| Parsers.Parser.ParsePrefixExpr | parser/expr.go:36-48 | Agrees with the strict parser on prefix expressions |
| Parsers.Parser.ParseInfixExpr | parser/expr.go:50-63 | Agrees with the strict parser on binary operators |
| Parsers.Parser.ParseGroupExpr | parser/expr.go:65-80 | Agrees with the strict parser on parentheses |
| Parsers.Parser.ParseMemberExpr | parser/expr.go:82-91 | Agrees with the strict parser on member access |
| Parsers.Parser.ParseIndexExpr | parser/expr.go:93-108 | Agrees with the strict parser on indexing |
| Parsers.Parser.ParseArguments | parser/expr.go:116-158 | Agrees with the strict parser on argument lists; without a closing parenthesis there is a diagnostic |
| Parsers.Parser.ParseBlock | parser/stmt.go:9-39 | Agrees with the strict parser on blocks, and always moves forward |
| Parsers.Parser.ParseLine | parser/stmt.go:26-35 | One statement and its end, or everything up to where its block can go on |
| Parsers.Parser.ParseStatement | parser/stmt.go:41-53 | Agrees with the strict parser on the choice of statement |
| Parsers.Parser.ParseIfStmt | parser/stmt.go:55-112 | Agrees with the strict parser on if chains; the nesting counter is restored on every path |
| Parsers.Parser.ParseElseClause | parser/stmt.go:93-111 | Agrees with the strict parser on what follows an if block |
| Parsers.Parser.ParseExprOrAssignStmt | parser/stmt.go:114-127 | Agrees with the strict parser on expression and assignment statements |
| Parsers.Parser.ParseLetStmt | parser/stmt.go:129-150 | Agrees with the strict parser on lets |
| Parsers.Parser.ParseTopDecl | parser/parser.go:89-141 | A declaration is added exactly when it has no error; a second Init or Run is refused |
| Parsers.Parser.ParsePortDecl | parser/parser.go:170-201 | Agrees with the strict parser on inputs and outputs |
| Parsers.Parser.ParseInlineTypeExpr | parser/parser.go:312-375 | Agrees with the strict parser on inline types over any newlines and a trailing comma |
| Parsers.Parser.ParseKindDecl | parser/parser.go:214-237 | Agrees with the strict parser on host-kind declarations |
| Parsers.Parser.ParseConstDecl | parser/parser.go:239-265 | Agrees with the strict parser on constants |
| Parsers.Parser.ParseFunctionDecl | parser/parser.go:267-310 | Agrees with the strict parser on functions; only Run may not be empty |
| Parsers.Parser.SyncToNewLine | parser/helpers.go:8-20 | Stops at the first newline from the current token on, or before EOF |
| Parsers.Parser.SyncToStmtEnd | parser/helpers.go:23-46 | Stops at the first place, outside braces opened on the way, before a }, newline or EOF (onto a newline), and never leaves the block: no prefix of what is skipped closes more braces than it opens |
| Parsers.Parser.AdvanceToLBrace | parser/helpers.go:49-57 | Stops at the first {, newline, } or EOF, and finds the { exactly when it is that |
| Parsers.Parser.SkipPeekNewLines | parser/helpers.go:59-63 | The next token is the first that is no newline |
| Lexing.PosCounts | lexer/lexer.go:33-46 | A position's line is one plus the LF, CRLF or lone-CR terminators before it; its column is the distance from the last of them |
| Lexing.TokenPositions | lexer/lexer.go:55-100 | Tokens start at increasing offsets, and each carries the position of its first byte |
| Lexing.NewlineDiscipline | lexer/lexer.go:55-100 | In every token stream a NEWLINE stands outside brackets and neither another NEWLINE nor an ELSE follows it |
| Lexing.NewlinesAreKept | lexer/lexer.go:58-96 | No line end is lost: outside brackets a line ends before a token only where a NEWLINE stands or an ELSE follows, and every NEWLINE is at the first line end after the token before |
| Lexing.OutsideIsZero | lexer/lexer.go:191-212 | The clamped bracket count is zero exactly where, counted from any earlier token on, no more brackets are opened than closed |
| Lexing.NewlineSettles | lexer/lexer.go:75-95 | After a NEWLINE the text is past all newlines, blanks and comments and not at the word else |
| Lexing.OnlyTriviaBetween | lexer/lexer.go:58-92 | Between one token's end and the next one's start there is nothing but blanks, newlines and comments |
| Lexing.FewTokens | lexer/lexer.go:55-234 | Every token takes at least one byte, so EOF comes within as many calls as there are bytes |
| Lexing.EofRepeats | lexer/lexer.go:98-100 | After EOF comes EOF, at the same position |
| Lexing.ScanWord | lexer/lexer.go:102-110 | A word is the longest run of identifier bytes, and a keyword or an identifier by its text |
| Lexing.ScanNumber | lexer/lexer.go:112-132 | A number is the longest run of digits with at most one dot, a float exactly when it has one |
| Lexing.LongestSymbol | lexer/lexer.go:134-233 | Away from words, numbers and strings the token is the longest operator or delimiter written there, if there is one |
| Lexing.KeywordsAreSpelled | token/token.go:77-94 | The keywords are the words of a fixed spelling, each of its own kind; every other word is an identifier |
| Lexing.QuoteRoundTrip | lexer/lexer.go:236-290 | Any NUL-free text, quoted with the five escapes, is one STRING token with that text |
| Lexing.IdentsAreWords | token/token.go:120-130 | Every IDENT token of a stream is an identifier, so none holds a dot |
| Lexers.Lexer.constructor | lexer/lexer.go:19-31 | Starts on the first byte at line 1, column 1 |
| Lexers.Lexer.Advance | lexer/lexer.go:33-46 | Moves one byte and keeps the position that of the byte under the cursor |
| Lexers.Lexer.SkipTrivia | lexer/lexer.go:58-73 | Past blanks and comments, and newlines inside brackets |
| Lexers.Lexer.CollapseNewlines | lexer/lexer.go:77-91 | Past a run of newlines, blank lines and comments |
| Lexers.Lexer.NextToken | lexer/lexer.go:55-234 | The next token, cursor and bracket count are those of the token function |
| Lexers.Lexer.ReadWord | lexer/lexer.go:102-110 | Reads a whole word |
| Lexers.Lexer.ReadNumber | lexer/lexer.go:112-132 | Reads a whole number |
| Lexers.Lexer.ReadOperator | lexer/lexer.go:134-233 | Reads operators, delimiters, strings and illegal bytes, and counts brackets |
| Lexers.Lexer.ReadString | lexer/lexer.go:236-290 | Reads a string: its text, or the first thing wrong with it, never past the end of the line |
| Lexers.Tokenize | lexer/lexer.go:55-100 | Calling the lexer until EOF yields the token stream of the text |
| Truncation.EvalTruncate | stdlib/time.go:162-173 | An error for a bucket that is not positive, exceeds a day or does not divide it; otherwise the start of the time's bucket, wrapped: the start itself exactly when the time is not before the first boundary, MinInt64 + 2^63 mod bucket |
| Truncation.FloorDiv | stdlib/time.go:175-181 | Truncating machine division corrected to the floor, for every divisor but zero, except exactly MinInt64 by -1, which wraps |
| Truncation.OneBucket | stdlib/time.go:159-173 | A time lies in one bucket: the multiple m with m <= t < m + b is unique |
| Truncation.FitsFrom | stdlib/time.go:172-172 | A bucket starts within 64 bits exactly for times from MinInt64 + 2^63 mod bucket on |
| Truncation.NoOverflow | stdlib/time.go:172-172 | From one day above the smallest integer on, no result overflows |
| Truncation.SmallestOverflows | stdlib/time.go:172-172 | At the smallest integer a day's bucket overflows and the result lies after the time |
| Truncation.Idempotent | stdlib/time.go:159-173 | Truncating twice is truncating once |
| Truncation.Monotone | stdlib/time.go:159-173 | Truncation keeps the order of times |
| Truncation.Coarsens | stdlib/time.go:159-173 | Truncating to a bucket and then to a multiple of it is truncating to the multiple |

## Left out

- Diagnostics carry a code, in the parser also a position; their texts, rendering, and the positions of resolver diagnostics are not modelled, and after the first one only their number at the cap and the balance of argument reports.
- Which code (and position) a diagnostic carries is defined by the strict parser and checker, that a script is refused at all also by the grammar and the relation of resolutions; there is no second account of the codes.
- Float arithmetic is uninterpreted: the operations are parameters, and nothing depends on rounding, NaN or formatting. A float prints as a FLOAT token only if its text has a dot (3.0 prints as `3`); Printing.RoundTrip asks for floats whose text reads back.
- Coercions are functions of the value alone and make no calls back into the engine; a host coercion may still panic.
- The texts of panics and stack traces: a recovered panic is one outcome, kept apart only as to whether the engine or the host caused it.
- The value an Init or Run returns to its caller is dropped, as the executable drops it.
- Slot enumeration, stage names, source ranges of bad nodes, and the printing of statements and declarations are formatting only.
- The printer and parser are related at the level of tokens; Lexing.QuoteRoundTrip relates text and tokens for strings only.
- Time components (year, month, weekday), durations, the math module and the example hosts: calls into libraries that are not part of this model.
- Memory identity of values: host objects are opaque values with a type identifier, so mutation inside one is invisible to the engine.
- Lexers.Tokenize: the parser of the source pulls tokens one at a time; here it reads them from the finished stream, past whose end there is EOF forever.
- Pipeline.Builder.Compile: the executable keeps the registry's entries as they were when it was sealed; the seal itself is set on the shared object.
