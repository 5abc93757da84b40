# A verified model of picrin

picrin is a small Scheme implementation in C. This project models its hardest parts in Dafny and proves what they
are for:

- **The compiler and the virtual machine** (`lib/ext/eval.c`, `lib/proc.c`). A program goes through expansion
  (`Identifiers`, `Expansion`), `optimize_beta` and `normalize` (`CoreForms`), `analyze` (`Analyzer`, and in place
  `ScopeMarking`) and `codegen` (`Codegen`, and in place `Emission`), and runs on a stack machine whose contexts point
  into the stack until they are torn off (`LazyMachine`, and in place `Vm`). The meaning of a program is given three
  times: for expanded forms (`Direct`), for normalized forms (`Source`), and by the machines. The proofs go from one to
  the next: `Merging`, `Sharing`, `Frames`, `BetaNormalize`, `Outcomes`, `Redefinition`, `Ordering`, `Errors` and
  `EarlyUses` for the two source passes;
  `Relation`, `Variables`, `Instructions`, `Activation`, `Simulation` from normalized forms to a machine whose frames
  are apart (`HeapMachine`); `Contexts`, `Lockstep`, `Refinement` from there to the stack machine. `Compiler`,
  `Pipeline` and `Evaluate` put them together, for values, errors and endless runs. `WellFormed` is about the emitted
  code as such, `Effects` connects it to the machine, `CallKinds` says what calls become, and `Captures` what is captured.
  `Primitives`, `Arguments` and `Calls` say what procedures and calls compute without the functions that define them.
- **Decimal reading and printing** (`contrib/10.roundtrip`). Algorithm D with built-in rounding (`Limbs`, `Knuth`,
  `Division`, `RoundedDivision`), the framing of a decimal number as one big division (`Shifts`, `Atod`), Grisu digit
  generation (`DigitGeneration`), layout and scanning (`Decimals`, `DecimalLayout`, `DecimalReading`,
  `DecimalRoundTrip`), every spelling of a number (`DecimalTexts`), and all of it together (`DecimalConversion`).
- **Hash tables** (`lib/khash.h`): `Flags`, `Probing`, `RoundUp`, `OpenAddressing`, `Khash`.
- **The garbage collector** (`lib/gc.c`, the bitmap build): `Bitmap`, `PopCount`, `Page`, `ObjectGraph`, `Collector`.
- **Ropes** (`lib/string.c`): `RopeHeap`, `RopeStrings`.
- **Unification** (`contrib/60.logic/logic.scm`): `Unification`.

Code that works in place in the original works in place here: classes with the fields of the C structures, arrays, and
loops with invariants, each method proved against a function or a predicate about values. The main theorems are about
those functions.

Choices made in the model:

- Integers are unbounded where the C code cannot overflow or is proved not to; where width matters it is written out:
  64-bit and 32-bit words in the decimal code, `int` in the hash tables and in Scheme arithmetic, 32-bit vectors in the
  bitmaps. A product by 0x01010101 is written as shifts, and a union of disjoint bits as a sum; `PopCount.TimesIsShifts`
  and `RoundedDivision.OrIsPlus` justify both.
- Evaluation is indexed by call depth; `Timeout` means that the depth was not enough. A statement that holds for every
  depth is a statement about the unbounded code.
- A frame of the source semantics holds names and values side by side; the first binding of a name counts, as in
  `index_local`. Captured variables stand in the order in which they were first captured; all that the proofs use is
  that the order is fixed and without duplicates.
- A global variable that `normalize` has announced, and nothing has set yet, exists without a value.
- In the semantics of expanded forms a definition adds its variable when it is run. Using a variable without a value is
  told from other errors, because it is the one error that the passes may remove.
- A native procedure that comes back through an escape is represented by one procedure, `EscapeWith`, after which every
  live context has been torn off.
- In the ropes a block that is not initialized has arbitrary contents, path compression assigns the fields of the node
  before it gives up the children, and a freed block disappears last.
- Pages are numbered in the order in which they were requested; the newest is searched first.

## Model

| member | source | states |
|---|---|---|
| Pipeline.PipelineCorrect | lib/ext/eval.c:1182-1220 | for every program with pairwise distinct binders that compiles: if evaluating it as written gives a datum, the machine with lazily made contexts halts on the optimized, normalized, analyzed and generated code with that datum |
| Pipeline.PipelineFaults | lib/ext/eval.c:1182-1220 | if evaluating the program as written fails, other than by using a local variable, or assigning one of its own top-level variables, before it has a value, the machine faults |
| Errors.FaultsExact | lib/ext/eval.c:1182-1220 | for every orderly program, which is a property of its text, the machine faults exactly when evaluating the program as written fails, with any error |
| Pipeline.PipelineEndless | lib/ext/eval.c:1182-1220 | if evaluating the program as written runs out of every amount of fuel, the machine is still running after every number of steps |
| Evaluate.Eval | lib/ext/eval.c:1259-1273 | expansion, compilation and execution by the imperative expander, analyzer, code generator and interpreter loop: the expanded program is the program with lexically scoped names; the machine never stops with another value than evaluation of it, never fails where that does not fail, never stops with a value where an orderly program fails, and never stops where evaluation is endless; compilation is refused exactly for assignments to inlined procedures |
| Expansion.ExpandProgram | lib/ext/eval.c:349-361 | the expanded form is the program with every reference replaced by the name of its innermost binder, where a definition counts from its own value on and throughout in inner lambdas; top-level names have the prefix; the binders are pairwise distinct whenever no scope binds an identifier twice and no top-level name looks like a made-up one |
| Expansion.ExpandLambda | lib/ext/eval.c:235-259 | the same for a lambda in any environment; every binder, at any depth, was made between the counter before and the counter after; all are distinct when no scope binds an identifier twice; what the environments around call their identifiers does not change |
| Expansion.Expand | lib/ext/eval.c:292-347 | one environment is expanded from left to right, lambdas are put off in the order of the text, each definition gets the name its environment has for it, each reference the name of its identifier at that point |
| Expansion.ExpandDeferred | lib/ext/eval.c:216-233 | the lambdas put off are expanded in order, and no two of them share a binder |
| Expansion.NameUsed | lib/ext/eval.c:168-179 | a reference gets what its identifier is called here, which changes no name anywhere |
| Expansion.NameDefined | lib/ext/eval.c:261-273 | a definition gives its identifier a name from then on; no other identifier changes its name |
| Identifiers.NameStays | lib/ext/eval.c:76-96 | outermost variables that are given their names change the name of nothing |
| Expansion.OrdinaryName | lib/ext/eval.c:110-114 | a name that does not begin with a dot is never one that the expander makes up |
| Identifiers.Expander.AddIdentifier | lib/ext/eval.c:98-121 | an identifier keeps its name in a scope; a new local one gets a name made at the counter, which advances; a new top-level symbol gets the prefix and leaves the counter |
| Identifiers.Expander.FindIdentifier | lib/ext/eval.c:47-96 | the name in the innermost environment that has one; otherwise the symbol becomes a variable of the outermost environment, and nothing else changes |
| Identifiers.Expander.AddFormals | lib/ext/eval.c:242-249 | names are equal exactly when the formals are, and all were made after the scope was opened |
| Identifiers.UidCount | lib/ext/eval.c:113-114 | whatever the names contain, `.name.N` determines N |
| Identifiers.ApartInTime | lib/ext/eval.c:98-121 | names made in different stretches of an expansion differ |
| Pipeline.OptimizeCorrect | lib/ext/eval.c:363-497 | every program with pairwise distinct binders has the same result before and after `optimize_beta` and `normalize`: equal data, related procedures and stores |
| Pipeline.ErrorsCorrect | lib/ext/eval.c:363-497 | an error before the passes is an error after them, unless it is the use of a local variable, or the assignment to a top-level variable of the program, before it has a value |
| Errors.ErrorsStay | lib/ext/eval.c:363-497 | every error of an orderly program, of whatever kind, is an error after the passes |
| Errors.NoNewErrors | lib/ext/eval.c:363-497 | the passes bring no errors into any program: an error after them comes from an error before them |
| Errors.PlainOrderly | lib/ext/eval.c:363-497 | a program that assigns nothing, has no definitions inside lambdas and mentions local variables only where they are bound is orderly |
| Pipeline.LocalsAre | lib/ext/eval.c:363-497 | the local variables of a program are its binders but for its top-level definitions |
| Errors.ErrorsExact | lib/ext/eval.c:363-497 | an orderly program fails after the passes exactly when it fails before them |
| Errors.OrderlyFaults | lib/ext/eval.c:1182-1220 | the machine faults on an orderly program that fails as written |
| Errors.FaultsFail | lib/ext/eval.c:1182-1220 | when the machine faults on any program, evaluating it as written fails |
| Ordering.Kept | lib/ext/eval.c:420-480 | while code runs whose text defines its variables before it uses them, and calls nothing while a procedure made before uses one that is still without a value, no watched variable is ever used without a value; closures, frames and globals keep that through every call |
| Pipeline.DivergenceCorrect | lib/ext/eval.c:363-497 | a program that is endless before the passes is endless after them |
| Ordering.MutualOrdered | lib/ext/eval.c:427-480 | two procedures of a body that call each other are in order, when both are defined before one is called |
| EarlyUses.EarlyUse | lib/ext/eval.c:427-480 | whatever the expander makes of ((lambda r (define x x))): the read of x is an error before the passes and none after them; the program is not orderly |
| EarlyUses.ReaderExpands | lib/ext/eval.c:232-274 | every expansion of that form gives both occurrences of x one name, other than that of r |
| EarlyUses.EarlyAssignment | lib/ext/eval.c:457-467 | whatever the expander makes of (begin (set! x ()) (define x ())): the assignment is an error before the passes and none after them; the program is not orderly |
| Pipeline.ProgramPreserved | lib/ext/eval.c:363-503 | one program of a session whose top-level names are new: same result, and stores related again, so that the next program can run |
| Pipeline.ProgramForgets | lib/ext/eval.c:457-467 | a program that defines names of the session again behaves as the same program in a memory where those names have no value |
| Pipeline.RedefinitionPreserved | lib/ext/eval.c:457-467 | it is preserved, whatever was defined before, when it defines its names unconditionally and uses none of them, and calls nothing, before all that are used are defined |
| Pipeline.ForgottenFails | lib/ext/eval.c:457-467 | when that program fails in that memory, other than by using a local variable without a value or assigning one of the names, it fails after the passes |
| Pipeline.RedefinitionFails | lib/ext/eval.c:457-467 | `(define x x)` for a defined x has a value before the passes and is an error after them |
| Pipeline.DefineAgain | lib/ext/eval.c:457-467 | giving a variable a new lambda or constant meets the condition of `RedefinitionPreserved` |
| Redefinition.ForgetUnnoticed | lib/ext/eval.c:457-467 | a program that defines its names before use has the same outcome with and without their old values |
| Redefinition.Unnoticed | lib/ext/eval.c:457-467 | the same for every form at the top level, with the set of names still without a value afterwards |
| CoreForms.OptimizeDone | lib/ext/eval.c:363-423 | after optimize_beta no lambda without rest list is called on the spot with as many arguments as it has formals, at any depth |
| BetaNormalize.Sim | lib/ext/eval.c:363-497 | simulation: wherever direct evaluation of a form gives a value, evaluation of the optimized and normalized form gives a related one, in place, defining only its own variables |
| BetaNormalize.RedexEnter | lib/ext/eval.c:394-411 | a call of a lambda on the spot: its arguments are evaluated left to right and assigned as they come, and its body then runs in the frame of the code around it |
| BetaNormalize.SimRedexArgs | lib/ext/eval.c:402-410 | left-to-right order: the chain of definitions in front of the body evaluates as the arguments do, each before the next is evaluated |
| BetaNormalize.FunctorRun | lib/ext/eval.c:385-398 | a functor that only optimizes to a lambda still yields that lambda, in a frame with the same home |
| Outcomes.Settles | lib/ext/eval.c:363-497 | when the optimized form ends, with whatever fuel, direct evaluation ends with enough fuel |
| Outcomes.Faults | lib/ext/eval.c:363-497 | every error of direct evaluation is an error of the optimized form, but the use of a variable that has a place among the locals of the code, and the assignment to an announced global |
| Fuel.SourceMore | lib/proc.c:361-767 | the outcome of an evaluation does not depend on the fuel that is left over |
| CoreForms.HoistedAre | lib/ext/eval.c:442-497 | the locals that `normalize` lists are the defined variables outside inner lambdas |
| Distinct.DistinctProgram | lib/ext/eval.c:363-497 | pairwise distinct binders are enough for every name to have one depth at which all its code finds it |
| ScopeMarking.AnalyzeProgram | lib/ext/eval.c:666-676 | the analyzer, run on scopes whose captures grow in place, returns the analyzed form of the specification |
| ScopeMarking.Analyze | lib/ext/eval.c:617-664 | each form: the analyzed form and the captures left in the chain of scopes are those of the specification |
| ScopeMarking.AnalyzeLambda | lib/ext/eval.c:581-597 | a lambda is analyzed in a scope of its own and keeps the captures collected there |
| ScopeMarking.AnalyzeVar | lib/ext/eval.c:565-579 | local, captured or global, by the distance of the binder |
| ScopeMarking.AnalyzeScope.FindVar | lib/ext/eval.c:544-560 | the distance of the innermost binder, which is marked as captured when it is not this scope |
| ScopeMarking.AnalyzeScope.FindLocalVar | lib/ext/eval.c:521-542 | exactly the formals, the rest list and the locals are found |
| Analyzer.AnalyzeProgramAddressed | lib/ext/eval.c:666-676 | every variable of every program is addressed by the distance of its innermost binder and recorded in that binder's captures |
| Analyzer.AnalyzeAddresses | lib/ext/eval.c:617-664 | the same for every form, in every later state of the scopes |
| Analyzer.FindVarFinds | lib/ext/eval.c:544-560 | the returned depth is the distance of the innermost binder or the outermost depth when unbound, and a binder that is not local ends up holding the name in its captures |
| Analyzer.FindVarGrows | lib/ext/eval.c:544-560 | captures only grow, without duplicates, and hold only names the scope binds |
| Captures.ProgramExact | lib/ext/eval.c:545-597 | every lambda of a program captures exactly those of its variables that lambdas inside it mention |
| Emission.CodegenContext.Codegen | lib/ext/eval.c:1136-1166 | the generator with growing arrays and patched jumps emits exactly what the specification says for every addressed form, and reports failure exactly when the specification has none |
| Emission.CodegenContext.CodegenIf | lib/ext/eval.c:1021-1044 | both jump distances are patched to the starts of their targets |
| Emission.CodegenContext.CodegenLambda | lib/ext/eval.c:997-1019 | the child code object is made in a context of its own and found at the operand of the instruction |
| Emission.CodegenContext.CodegenCall | lib/ext/eval.c:1105-1134 | inlined exactly for a global functor with an inlined name and its argument count; a tail call in tail position |
| Emission.CodegenContext.CodegenStore | lib/ext/eval.c:955-994 | fails exactly for global names of inlined procedures |
| Emission.CodegenContext.CodegenQuote | lib/ext/eval.c:1054-1103 | the constant goes to the table of its type, at the operand of the instruction |
| Emission.CodegenContext.CreateActivation | lib/ext/eval.c:890-907 | one instruction per captured variable: arguments are copied, locals start undefined |
| Emission.CodegenContext.IndexCapture | lib/ext/eval.c:844-858 | the first position in the captures `depth` contexts out, or -1 exactly when there is none |
| Emission.CodegenContext.IndexLocal | lib/ext/eval.c:860-876 | the slot of the first binding, or -1 exactly when there is none |
| Emission.CodegenContext.Destroy | lib/ext/eval.c:760-783 | the code object holds what was emitted and the counts of the scope |
| Emission.CheckSize | lib/ext/eval.c:785-796 | after doubling there is room for one more and the contents are the same |
| Emission.CodegenProgram | lib/ext/eval.c:1168-1178 | the code object of a whole program |
| Emission.CompileProgram | lib/ext/eval.c:1182-1220 | analysis and code generation together return the code object of the specification, or nothing exactly when that fails |
| Codegen.GenExtends | lib/ext/eval.c:1136-1166 | code generation only appends: no instruction or constant emitted earlier changes, patching included |
| Compiler.CompileSucceeds | lib/ext/eval.c:961-968 | compilation succeeds on a program exactly when it assigns no free variable that names an inlined procedure |
| Compiler.GenSucceeds | lib/ext/eval.c:910-1166 | for an addressed form no index is ever missing |
| Simulation.Sim | lib/ext/eval.c:910-1166 | simulation by induction on fuel and form: from a matching frame the emitted code pushes the value, or in tail position returns it to the caller, in a matching store; it faults where evaluation fails, and takes at least as many steps as there was fuel where that runs out |
| Simulation.EnterClosure | lib/proc.c:551-589 | entering a closure builds the frame the source semantics describes: arity check, rest list, locals, capture area |
| Arguments.DirectCall | lib/proc.c:557-569 | a call of a lambda enters its body exactly when there is an argument for every formal, and no more unless there is a rest variable; formal i holds argument i, the rest variable a proper list of the others in order |
| Arguments.SourceCall | lib/proc.c:557-585 | the same for normalized forms, whose locals hold nothing yet |
| Arguments.MachineCall | lib/proc.c:523-590 | the same for the stack machine: the slots of the new frame, its call info, and that nothing below it changes |
| Calls.MachineList | lib/proc.c:557-569 | the machine answers ((lambda r r) . qs) with the list of the constants, however many |
| CallKinds.GenCounts | lib/ext/eval.c:1106-1134 | the code of a form has one instruction for each call outside inner lambdas: its own for the procedures that have one, called with its argument count; a tail call in tail position; a call elsewhere; and no others |
| CallKinds.TailSpace | lib/proc.c:592-622 | a tail call needs no new call info, and leaves on the stack what was below the caller and the frame of the callee |
| Variables.FindFrameDistance | lib/proc.c:448-498 | searching frames by name and climbing contexts by distance arrive at the same place |
| Activation.Prologue | lib/ext/eval.c:890-907 | the activation code fills the capture area with the captured variables in order |
| Builtins.ExecuteIsApply | lib/ext/eval.c:1112-1128 | at the inlined argument count the instruction and the native procedure agree, errors included |
| Primitives.Sum | lib/number.c:59-84 | the sum of two numbers stands for the sum, for all mixtures; it is exact exactly when both are and it fits an int |
| Primitives.Difference | lib/number.c:59-84 | the same for differences |
| Primitives.Product | lib/number.c:59-84 | the same for products |
| Primitives.Undone | lib/number.c:59-84 | subtraction undoes addition |
| Primitives.Comparisons | lib/number.c:86-108 | the five comparisons are those of the numbers, so exactly one of less, equal and greater holds |
| Primitives.Refused | lib/number.c:59-108 | arithmetic and comparisons refuse exactly what is no number |
| Primitives.Sums | lib/number.c:137-172 | the variadic sum stands for the sum of all arguments |
| Primitives.Products | lib/number.c:137-172 | the variadic product for their product |
| Primitives.Differences | lib/number.c:137-172 | the first without the others; one is negated, none is an error |
| Primitives.Chains | lib/number.c:110-135 | a comparison of any number of numbers holds exactly when it does for all neighbours |
| Primitives.Pairs | lib/proc.c:654-673 | car and cdr undo cons |
| Primitives.Unpaired | lib/proc.c:654-691 | a value is a pair exactly when cons made it; of anything else there is no car and no cdr |
| Primitives.Kinds | lib/proc.c:674-698 | the empty list, symbols and pairs are told apart, and not is true of one value |
| Primitives.InjectOnce | lib/ext/eval.c:1056-1104 | different constants are different values |
| Calls.MachineOne | lib/ext/eval.c:1106-1134 | by name, for every constant: the machine answers (car q), (cdr q), (null? q), (symbol? q), (pair? q) and (not q) with what they are for, or faults where there is none |
| Calls.MachineTwo | lib/ext/eval.c:1106-1134 | by name, for all constants: the machine answers (cons p q), the five comparisons, (+ p q), (- p q) and (* p q) with what they are for, or faults for what is no number |
| Compiler.CompilerCorrect | lib/ext/eval.c:910-1166 | compiler correctness on the lazy machine, per program of a session: the value of evaluation in a memory that represents the resulting store, a fault where evaluation fails, and more steps than any fuel where it does not end |
| Compiler.NeverStuck | lib/proc.c:394-767 | no compiled program, ending or not, ever reaches a state without an instruction, with missing operands or with a table index out of range |
| Compiler.Diverges | lib/proc.c:394-767 | a program that does not end keeps the machine running for ever |
| WellFormed.EveryPath | lib/ext/eval.c:910-1134 | on every path of jumps through the code of a form the program counter stays inside the code and operands suffice; code outside tail position leaves exactly one operand more, and reaches no return and no tail call; code in tail position never runs off its end, a return finds one operand and a tail call exactly its operands |
| Effects.StepEffect | lib/proc.c:435-760 | the heights and targets that the typing of code uses are those of the machine, for every instruction that is carried out in its frame |
| Effects.TooFew | lib/proc.c:435-760 | with fewer operands than that the machine is stuck |
| Effects.OperandsServe | lib/proc.c:435-653 | constants, globals and lambdas whose operands are in range do not get it stuck |
| WellFormed.CompiledOk | lib/ext/eval.c:785-1134 | in a compiled program and in all procedures inside it every constant, capture and code-object operand is below its final table length, and the code is typed as in `EveryPath` |
| WellFormed.GenOk | lib/ext/eval.c:910-1134 | the same for each form, relative to the tables before it |
| WellFormed.GenTyped | lib/ext/eval.c:910-1134 | heights can be given to all reachable points of the code of a form; the jump over the second branch of a tail conditional is not reachable |
| Refinement.StepRefines | lib/proc.c:394-767 | one step of the stack machine with contexts into the stack is one step of the machine whose frames are apart, for any code and any state in which contexts are owned |
| Refinement.RunRefines | lib/proc.c:288-328 | the same over whole runs: captured variables behave as single cells, across context creation, return, tail call and full tear-off |
| Contexts.StepReachable | lib/proc.c:288-328 | each context points either into the register area of the one live frame that owns it or at its own storage; every step keeps that |
| Contexts.RunReachable | lib/proc.c:288-328 | so does every run |
| Lockstep.TearOneSync | lib/proc.c:299-316 | tearing off a context is invisible |
| Lockstep.TearAllSync | lib/proc.c:318-328 | a full tear-off, as an escape makes it, is invisible |
| Lockstep.OwnRegister | lib/proc.c:448-498 | an assignment to a captured local reaches its register wherever that is |
| Lockstep.WriteRegSync | lib/proc.c:474-498 | writing a register through its context changes that variable and no other frame |
| Lockstep.LeaveSync | lib/proc.c:618-643 | leaving the top frame keeps the values of its context |
| Vm.Machine.Execute | lib/proc.c:394-767 | the interpreter loop with its stack, call infos and contexts does what the run of the lazy machine does |
| Vm.Machine.Step | lib/proc.c:394-767 | one turn of the loop |
| Vm.RunProgram | lib/proc.c:361-767 | the loop needs nothing but a compiled program and an idle memory |
| Vm.Machine.TailCall | lib/proc.c:592-617 | tear off, operands copied down over the frame, call with the caller's return address |
| Vm.Machine.MoveDown | lib/proc.c:604-610 | the overlapping copy moves the operands unchanged |
| Vm.Machine.Return | lib/proc.c:618-643 | the answer takes the place of the frame |
| Vm.Machine.TearOff | lib/proc.c:299-316 | the registers are copied and the context is switched to the copy |
| Vm.Machine.TearOffAll | lib/proc.c:318-328 | every context of a frame above the base is torn off |
| Vm.Machine.MakeClosure | lib/proc.c:644-652 | one context per frame, made when first needed |
| Vm.Machine.EnterProc | lib/proc.c:523-590 | arity check, rest list and locals of a call, as `Arguments.MachineCall` spells them out |
| RoundedDivision.Quornd | contrib/10.roundtrip/emyg_atod.c:152-316 | exact for every valid call with floor(u/v) below 2^54: it stores round-half-even(u/v) and returns 0 when floor(u/v) is below 2^53, and otherwise round-half-even(u/2v) and returns -1; invalid calls return 1 and store nothing |
| Division.DivideStep | contrib/10.roundtrip/emyg_atod.c:229-268 | one turn of Algorithm D: the quotient digit is exact and the remainder is below the divisor |
| Division.EstimateDigit | contrib/10.roundtrip/emyg_atod.c:231-240 | the estimate is the digit or one more; all intermediate values fit 64 bits |
| Division.MultiplySubtract | contrib/10.roundtrip/emyg_atod.c:242-253 | the window minus the multiple of the divisor, with the borrow out of it |
| Division.AfterSubtract | contrib/10.roundtrip/emyg_atod.c:253-267 | the borrow is out exactly when the estimate was one too large |
| Knuth.FirstEstimate | contrib/10.roundtrip/emyg_atod.c:231-233 | the first estimate is never too small |
| Knuth.CloseEnough | contrib/10.roundtrip/emyg_atod.c:234-240 | after the correction loop the estimate is at most one too large |
| RoundedDivision.QuorndWord | contrib/10.roundtrip/emyg_atod.c:167-210 | division by one word, rounded |
| RoundedDivision.QuorndWords | contrib/10.roundtrip/emyg_atod.c:212-316 | division by several words, rounded |
| RoundedDivision.RoundHalved | contrib/10.roundtrip/emyg_atod.c:271-315 | rounding half of the quotient from the bit lost and the remainder |
| Limbs.RoundHalfEvenMeaning | contrib/10.roundtrip/emyg_atod.c:293-315 | the specified rounding is within half a unit, and even when exactly half a unit away |
| Atod.AtodGuts | contrib/10.roundtrip/emyg_atod.c:442-557 | for every 64-bit mantissa and every exponent in the table the integer and the binary exponent handed to the final scaling are the mantissa times the power of ten, exactly or rounded half to even to 53 bits; other exponents give not-a-number |
| Atod.Framing | contrib/10.roundtrip/emyg_atod.c:442-557 | the shift framing against the definition of the value |
| Shifts.MulByU64 | contrib/10.roundtrip/emyg_atod.c:397-425 | the exact product, with every carry in 64 bits |
| Shifts.SclShiftLeftBy | contrib/10.roundtrip/emyg_atod.c:336-362 | the exact shift, also in place |
| Shifts.U64ShiftLeft | contrib/10.roundtrip/emyg_atod.c:364-381 | the low words of the exact shift |
| Shifts.OneShiftLeft | contrib/10.roundtrip/emyg_atod.c:329-334 | the two words of a shifted word |
| Shifts.BitLength | contrib/10.roundtrip/emyg_atod.c:389-395 | the number of bits of the value |
| DecimalReading.Strtod | contrib/10.roundtrip/emyg_atod.c:603-745 | for every text the mantissa, exponent, sign and end that the reading functions define; the rows below say what these are for every spelling of a number |
| DecimalTexts.ProperReading | contrib/10.roundtrip/emyg_atod.c:603-745 | digits before the point, behind it or both, perhaps an exponent with e or E and with or without a sign: when the digits make a 64-bit word and the exponent an int, what is read is the number that the digits spell, with the written power less the digits behind the point, and reading ends behind the text |
| DecimalTexts.SignedReading | contrib/10.roundtrip/emyg_atod.c:614-618 | spaces and a plus sign in front of any text change nothing but where it ends, a minus sign besides only the sign |
| DecimalTexts.SignedProperReading | contrib/10.roundtrip/emyg_atod.c:603-745 | every spelling of a number with spaces and a sign in front |
| DecimalTexts.SignedRoundTrip | contrib/10.roundtrip/emyg_atod.c:603-745 | every layout of up to 17 digits, with spaces and a sign in front, is read as the same value with that sign, to its end |
| DecimalTexts.WholeExact | contrib/10.roundtrip/emyg_atod.c:645-670 | digits before the point are never lost: the mantissa times ten to the counted zeros is the number, or the text is refused and the number does not fit a word |
| DecimalTexts.SpecialReading | contrib/10.roundtrip/emyg_atod.c:620-639 | nan and inf, in either case, perhaps with .0, are read; the end that is reported is their last character |
| DecimalTexts.DanglingReading | contrib/10.roundtrip/emyg_atod.c:698-733 | an e without digits is left alone; the end is reported right exactly when no sign follows it, or two do |
| DecimalTexts.PowerTooBig | contrib/10.roundtrip/emyg_atod.c:706-724 | an exponent above the largest int refuses the text |
| DecimalTexts.Refused | contrib/10.roundtrip/emyg_atod.c:737-742 | what begins neither with a digit, a point nor a special value is refused, and given back whole |
| DecimalTexts.MixedRight | contrib/10.roundtrip/emyg_atod.c:654-730 | a whole number with an exponent is read as it is written exactly when no zeros were counted, or one digit follows, not behind a minus sign |
| DecimalTexts.MixedExample | contrib/10.roundtrip/emyg_atod.c:654-730 | 1e20 written out, with e10 behind it, is read as 10^39 |
| DecimalTexts.Notation | contrib/10.roundtrip/emyg_dtoa.c:371-436 | numbers from 10^-6 up to 10^21 are laid out without an exponent, all others with one |
| DecimalRoundTrip.RoundTrip | contrib/10.roundtrip/emyg_dtoa.c:371-436 | for every string of up to 17 significant digits and every exponent with a position of magnitude below 1000, reading the layout gives a mantissa and an exponent of exactly the same value, and all of the text is read |
| DecimalRoundTrip.TenTimes | contrib/10.roundtrip/emyg_atod.c:671-697 | 1844674407370955161.6 is read as ten times its whole part |
| DecimalRoundTrip.PartTruncatesIff | contrib/10.roundtrip/emyg_atod.c:671-697 | digits behind the point are truncated to those that fit exactly when the last one read does not overflow after the multiplication by ten |
| DecimalRoundTrip.SameRounding | contrib/10.roundtrip/emyg_atod.c:442-557 | rounding depends on the value, not on how mantissa and exponent share it |
| DecimalConversion.ReadNumber | contrib/10.roundtrip/emyg_atod.c:603-745 | for the text of any number of up to 17 digits in any layout, and for every other spelling whose digits make a word, with spaces and a sign in front: the sign, the end, and the number times its power of ten correctly rounded to 53 bits, or not-a-number exactly when the power is beyond 345 |
| DecimalConversion.PrintAndRead | contrib/10.roundtrip/emyg_dtoa.c:446-454 | digits laid out in a buffer by Prettify, behind a minus sign or not, and read back from it give that sign and the correctly rounded digits * 10^k |
| DecimalLayout.Prettify | contrib/10.roundtrip/emyg_dtoa.c:395-436 | the buffer becomes the layout of its digits times the power of ten, in all five cases |
| DecimalLayout.WriteExponent | contrib/10.roundtrip/emyg_dtoa.c:371-393 | sign and one to three digits of the exponent |
| DigitGeneration.DigitGen | contrib/10.roundtrip/emyg_dtoa.c:282-339 | the digits written, times the power of ten, lie in [Mp-delta, Mp]; of all multiples of that power in the interval none is nearer to W, as long as the table has the entry that is asked for; no multiple of the next power lies in the interval, behind the point none above its lower end; no leading zero, and at most 29 digits |
| DigitGeneration.TableTooShort | contrib/10.roundtrip/emyg_dtoa.c:283-335 | for Mp.f = 0x8555555555555555, Mp.e = -60 and delta = 1 no number with up to nine digits behind the point is in the interval, so an entry past the end of kPow10 is asked for |
| DigitGeneration.GrisuRound | contrib/10.roundtrip/emyg_dtoa.c:259-266 | the last digit stays a digit and the number in the interval; no other choice of the last digit is nearer |
| DigitGeneration.IntegerDigits | contrib/10.roundtrip/emyg_dtoa.c:291-322 | the loop over the integral part |
| DigitGeneration.FractionDigits | contrib/10.roundtrip/emyg_dtoa.c:324-338 | the loop behind the point ends before 64 bits overflow, not one digit too late; up to nine digits the number written is the nearest to W |
| DigitGeneration.FewFractions | contrib/10.roundtrip/emyg_dtoa.c:324-338 | fewer than 19 digits behind the point |
| DigitGeneration.MultiplyRounds | contrib/10.roundtrip/emyg_dtoa.c:108-136 | the product in units of 2^64, rounded half up, in 64 bits, by both forms; the half products and the middle sum are 64-bit words by type, and the last sum is below 2^64 |
| Probing.ProbeAll | lib/khash.h:82-89 | triangular probing modulo a power of two visits every bucket |
| Probing.NoEarlyReturn | lib/khash.h:82-89 | the path is back at its start only after all buckets were seen |
| RoundUp.RoundUpIs | lib/khash.h:38-39 | the smallest power of two not below the argument |
| RoundUp.NextSize | lib/khash.h:153-159 | asking for one bucket less keeps the size, asking for one more doubles it |
| Khash.UpperFits | lib/khash.h:42-42 | the bound is computed without overflow exactly up to 2^23 buckets |
| Khash.UpperIs | lib/khash.h:42-42 | the bound is 0.77 of the buckets, rounded to the nearest integer |
| Khash.Table.Ordered | lib/khash.h:93-196 | size <= n_occupied <= upper_bound < n_buckets once buckets are allocated |
| Khash.Table.Get | lib/khash.h:78-92 | ends, and finds the bucket of the key exactly when the map has the key |
| Khash.Table.Put | lib/khash.h:150-188 | the map gains the key or keeps it; the return code is 0 exactly for a key that was there |
| Khash.Table.FindSite | lib/khash.h:160-176 | the key's own bucket, or the last deleted one on its path, or the empty one that ends it |
| Khash.Table.Del | lib/khash.h:189-196 | the map without that key |
| Khash.Table.Resize | lib/khash.h:93-149 | the same map at the new size without deleted buckets, or no change at all when it would not fit |
| Khash.MoveAll | lib/khash.h:112-138 | the kick-out loop ends and loses and overwrites no entry |
| Khash.PlaceEntry | lib/khash.h:121-136 | the entry in hand is placed on its path; an entry that lived there and was not moved is taken in hand |
| Khash.FindEmpty | lib/khash.h:122-125 | an empty bucket is found on every path |
| Khash.Table.GrowthFits | lib/khash.h:153-159 | the resize that `kh_put` asks for always happens and leaves room |
| Khash.Table.Clear | lib/khash.h:71-77 | the empty map in the same buckets |
| OpenAddressing.AbsentKey | lib/khash.h:84-90 | a path that ends at an empty bucket proves the key absent |
| OpenAddressing.Inserted | lib/khash.h:160-187 | a new key in a free bucket of its path keeps every path |
| OpenAddressing.Removed | lib/khash.h:189-196 | a deleted bucket keeps every path |
| OpenAddressing.KickOut | lib/khash.h:121-136 | exchanging the entry in hand for one not yet moved loses nothing |
| Flags.SetLive | lib/khash.h:30-36 | the flag operations change the state of one bucket and no other |
| Collector.Heap.Collect | lib/gc.c:853-864 | a whole collection: exactly the unreached objects are finalized, each once; the survivors are those reached through strong edges, which are the fields of `ObjectGraph.HoldsIs`, and through tables with live keys; surviving tables keep exactly the entries with live keys; the symbol table keeps exactly the entries with live or no symbols; a page is added exactly when the counted units, and one more, are above 77 percent |
| ObjectGraph.HoldsIs | lib/gc.c:317-454 | for all 17 kinds of objects: the children that the marker goes through are exactly the references in the fields, car and cdr, every element of registers, locals, data, pool and ireps, keys and values of environments and dictionaries, the environment around or else the prefix |
| ObjectGraph.SurvivorsAre | lib/gc.c:801-812 | survivors are as they were, but of tables exactly the entries with live keys are left, in order |
| Collector.ThresholdIs | lib/gc.c:831-833 | the integer threshold in terms of 77 percent |
| Collector.Heap.MarkPhase | lib/gc.c:450-519 | the marked objects are the least set that contains the roots and is closed under strong edges and under "table and key marked, so value marked" |
| Collector.Heap.MarkObject | lib/gc.c:314-448 | everything reachable through strong edges is marked, nothing else, and every weak table met is on the chain once |
| Collector.Heap.ScanWeaks | lib/gc.c:491-518 | one pass along the chain, which may grow behind the scan |
| Collector.Heap.ScanTable | lib/gc.c:503-515 | the values of marked keys in one table are marked |
| Collector.Heap.Sweep | lib/gc.c:789-834 | tables, symbols, pages, threshold |
| Collector.Heap.SweepWeaks | lib/gc.c:800-812 | every table on the chain keeps exactly the entries with marked keys; the chain is emptied |
| Collector.Heap.SweepSymbols | lib/gc.c:814-822 | the symbol table keeps exactly the entries without a symbol and those with a marked one |
| Collector.Heap.SweepPages | lib/gc.c:824-829 | finalizes the unmarked objects of all pages; the counted sum is the units of the survivors plus the excess of the pages' counts |
| Collector.Heap.HeapAlloc | lib/gc.c:718-746 | the new object takes units of no other object, at the first free run of the newest page that has one; nothing is allocated exactly when no page has one |
| Collector.Heap.MoreCore | lib/gc.c:748-764 | one more page without objects |
| Collector.Heap.InitPages | lib/gc.c:836-851 | marks are cleared, and shadows show what is allocated |
| Collector.Heap.NoOverlap | lib/gc.c:718-746 | two objects of the store share no unit |
| ObjectGraph.SurvivorsOk | lib/gc.c:789-834 | no survivor refers to a dead object |
| ObjectGraph.EntryLive | lib/gc.c:491-518 | the value of an entry with a live key in a live table is live |
| Page.HeapPage.SweepPage | lib/gc.c:766-785 | what was not reached is finalized, once each and in order; the returned count is the sum of the survivors' sizes plus 16 for each set bit in an upper half-byte, less 256 for each word whose sum was cut |
| Page.HeapPage.Alloc | lib/gc.c:729-741 | the first free run from `freep` on, or none exactly when there is none |
| Page.FirstFree | lib/gc.c:729-741 | none exactly when every run of that many units, from the start up to before the last place, has a unit in use; otherwise a free run, with every earlier one in use |
| Page.HeapPage.Mark | lib/gc.c:288-299 | one more object is marked |
| Page.HeapPage.IsMarked | lib/gc.c:275-286 | true exactly for marked objects |
| Bitmap.MarkAt | lib/gc.c:239-253 | exactly the bits of the run are set, across words |
| Bitmap.IsMarkedAt | lib/gc.c:255-273 | true exactly when some bit of the run is set |
| PopCount.PopCountIs | lib/gc.c:229-237 | what is returned: the bits, plus sixteen for each in an upper half-byte, cut to eight bits |
| PopCount.PopCountCorrect | lib/gc.c:229-237 | it is the number of bits exactly when the upper half-bytes are all clear or all set |
| PopCount.PopCountWrong | lib/gc.c:229-237 | 0xf0 has four bits and gives 68 |
| PopCount.PageCount | lib/gc.c:766-785 | the count of a page is the number of its set bits exactly when the cuts make up for the bits counted too often |
| Unification.MostGeneral | contrib/60.logic/logic.scm:47-56 | after success the solutions of the new substitution are exactly the solutions of the old one that make the terms equal |
| Unification.FailureSound | contrib/60.logic/logic.scm:47-56 | after failure no solution makes the terms equal |
| Unification.SolutionSucceeds | contrib/60.logic/logic.scm:47-56 | when a solution by finite terms exists, unification ends, within the height of the solved term, and succeeds |
| Unification.UnifyEquates | contrib/60.logic/logic.scm:37-56 | when the result is acyclic, `subst*` makes the terms equal |
| Unification.UnifyComplete | contrib/60.logic/logic.scm:47-56 | some run succeeds with an acyclic substitution exactly when a solution by finite terms exists |
| Unification.AcyclicIffSolvable | contrib/60.logic/logic.scm:37-43 | `subst*` ends on every variable exactly when the substitution has a solution by finite terms |
| Unification.MoreFuel | contrib/60.logic/logic.scm:47-56 | an answer does not depend on the depth allowed |
| Unification.CyclicSuccess | contrib/60.logic/logic.scm:50-52 | a variable and a pair that contains it unify, though no finite term solves them |
| Unification.CyclicDiverges | contrib/60.logic/logic.scm:53-55 | on two such substitutions unification never ends |
| RopeStrings.Memory.Flatten | lib/string.c:170-190 | the buffer gets the text of the rope; no other rope, shared or not, changes its text; every counted reference stays counted |
| RopeStrings.Memory.Str | lib/string.c:269-287 | the address of the string's text with a zero behind it; no string changes what it says |
| RopeStrings.Memory.Decref | lib/string.c:30-43 | gives up one reference; a block is freed only when nothing refers to it, and its own references are given up |
| RopeStrings.Memory.Incref | lib/string.c:24-28 | one more counted reference |
| RopeStrings.Memory.MakeSlice | lib/string.c:79-98 | a slice of a slice borrows from the same owner, so ownership is one deep |
| RopeStrings.Memory.MakeNode | lib/string.c:100-113 | the text is the two texts in a row |
| RopeStrings.Memory.MakeLeaf | lib/string.c:45-62 | a leaf with its own copy of the text |
| RopeStrings.Memory.MakeLit | lib/string.c:64-77 | a leaf whose text stays where it is |
| RopeStrings.Memory.Merge | lib/string.c:126-135 | the text of the two ropes in a row, an empty one left out |
| RopeStrings.Memory.Slice | lib/string.c:137-168 | the text from i to j, for every shape of rope |
| RopeStrings.Memory.StrUpdate | lib/string.c:192-198 | only the target string changes |
| RopeStrings.Memory.StrValue | lib/string.c:200-214 | a string of the given characters |
| RopeStrings.Memory.StrCat | lib/string.c:257-261 | a new string with both texts |
| RopeStrings.Memory.StrSub | lib/string.c:263-267 | a new string with the text from s to e |
| RopeStrings.Memory.Collect | lib/gc.c:535-538 | the string object gives up its rope; no other string changes |
| RopeStrings.Memory.StringSet | lib/string.c:361-381 | one character of the target changes, no other string does; refused exactly when the index is out of range |
| RopeStrings.Memory.StringCopyInPlace | lib/string.c:436-464 | the range of the target is replaced, also when source and target are one; refused exactly for invalid ranges |
| RopeStrings.Memory.StringFill | lib/string.c:466-497 | the range is filled; refused exactly when it is invalid |
| RopeHeap.Freed | lib/string.c:30-43 | giving up the last reference leaves every other rope referenced as counted |
| RopeHeap.Compressing | lib/string.c:180-189 | turning a node into a slice of the buffer keeps its text and the counts |
| ObjectGraph.LiveInStore | lib/gc.c:450-519 | marking stays among the allocated objects |
| Page.HeapPage.EmptyPage | lib/gc.c:729-741 | in a page without objects a smaller request gets the first units |
| Khash.Table.SetVal | lib/khash.h:227-227 | the value of one key changes and nothing else |
| PopCount.TimesIsShifts | lib/gc.c:229-237 | the product with 0x01010101 is the sum of shifts that the model uses |
| RoundedDivision.OrIsPlus | contrib/10.roundtrip/emyg_atod.c:219-227 | for words without common bits the union is the sum that the model uses |
| Compiler.DataRel | lib/proc.c:394-767 | data are represented by themselves, and only by themselves |

## Findings

What the code does not do, with the input that shows it and the exact condition under which it does.

| source | input | what happens | condition |
|---|---|---|---|
| lib/gc.c:229-237 | the word 0xf0 | `popcount32` returns 68 for four set bits: `PopCount.PopCountWrong` | right exactly when the upper half-bytes are all clear or all set (`PopCount.PopCountCorrect`); for a page exactly when the cuts to eight bits make up for the bits counted seventeen times (`PopCount.PageCount`). The sweeper's threshold is therefore compared with the survivors' units plus a known excess (`Page.HeapPage.SweepPage`, `Collector.Heap.Collect`) |
| contrib/10.roundtrip/emyg_atod.c:671-697 | 1844674407370955161.6 | a digit behind the point that overflows after the multiplication by ten is dropped, the multiplication is not: the number is read ten times too large (`DecimalRoundTrip.TenTimes`) | truncated as intended exactly when no such digit is met (`DecimalRoundTrip.PartTruncatesIff`); texts that `Prettify` writes never meet one (`DecimalRoundTrip.RoundTrip`) |
| contrib/10.roundtrip/emyg_atod.c:654-730 | 100000000000000000000e10 | a zero before the point that no longer fits is counted in the variable that then collects the digits of the exponent: the number is read as 10^39 (`DecimalTexts.MixedExample`) | read as written exactly when no zero was counted, or the exponent has one digit and no minus sign (`DecimalTexts.MixedRight`) |
| contrib/10.roundtrip/emyg_atod.c:586-589, 625, 636, 698-733 | nan, and 1e+x | the end that is reported should be behind the last character used; it is the last letter of a special value (`DecimalTexts.SpecialReading`), and the sign of an exponent that is none (`DecimalTexts.DanglingReading`) | right for every number with its digits (`DecimalTexts.ProperReading`), for no special value, and behind an e without digits exactly when no sign follows it, or two do |
| contrib/10.roundtrip/emyg_dtoa.c:283, 335 | Mp.f = 0x8555555555555555, Mp.e = -60, delta = 1 | with ten or more digits behind the point the weight of the distance to W is looked up past the end of `kPow10` (`DigitGeneration.TableTooShort`) | with up to nine the number written is the nearest to W of those in the interval; before the point always (`DigitGeneration.DigitGen`) |
| lib/ext/eval.c:457-467 | `(define x x)` at the top level, x defined | normalization clears the old value before the new one is computed: an error (`Pipeline.RedefinitionFails`) | for every program, the result is that of the program run without the old values (`Pipeline.ProgramForgets`); it is preserved when the program defines its names unconditionally and before it uses them or calls anything (`Pipeline.RedefinitionPreserved`), as with a lambda or a constant (`Pipeline.DefineAgain`) |
| lib/ext/eval.c:427-480 | `((lambda r (define x x)))`, and `(begin (set! x '()) (define x '()))` at the top level | a local variable that is read, or a top-level one that is assigned, before its definition is an error in the program as written and none after normalization, which makes the variable exist from the start: `EarlyUses.EarlyUse`, `EarlyUses.EarlyAssignment`, for whatever the expander makes of these forms | no error of another kind is lost (`Pipeline.ErrorsCorrect`), and none is ever added (`Errors.NoNewErrors`, `Errors.FaultsFail`). A program is orderly (`Errors.Orderly`, read off its text) when in every body each variable is defined before it is mentioned, and nothing is called while a procedure made before uses one that may have no value yet; an orderly program fails after the passes, and on the machine, exactly when it fails as written (`Errors.ErrorsExact`, `Errors.FaultsExact`) |
| contrib/60.logic/logic.scm:47-56 | a variable and a pair that contains it | unification succeeds with a cyclic substitution, and on two such substitutions never ends (`Unification.CyclicSuccess`, `Unification.CyclicDiverges`) | the result solves the terms exactly when it is acyclic, and an acyclic result exists exactly when a solution by finite terms does (`Unification.AcyclicIffSolvable`, `Unification.UnifyComplete`) |
| lib/khash.h:42 | a table of 2^24 buckets | `ac_hash_upper` overflows an `int` | computed exactly up to 2^23 buckets (`Khash.UpperFits`) |

## Left out

- Macro expansion: the expander is modelled on programs without `core#define-macro`, so without identifiers that a
  macro made; their names are only covered by `Identifiers.Expander.AddIdentifier`.
- Expansion.ExpandProgram: names imported under other names (`set-identifier!`) may not be defined by the program; and
  binders are promised to be distinct only when no top-level name looks like a made-up one, which a program in the
  default environment, whose prefix is empty, can arrange.
- Evaluate.Eval: one program in a fresh session, its results compared when they are data. Sessions of several programs
  and procedures as results are covered by `Pipeline.ProgramPreserved` and `Compiler.CompilerCorrect`.
- Pipeline.ErrorsCorrect: sets aside the failures of the findings above by the outcome of the evaluation;
  `Errors.ErrorsStay` does so by the text.
- Pipeline.PipelineFaults: the same; `Errors.OrderlyFaults` goes by the text.
- Errors.Orderly: sufficient for errors to stay. Whether a program that is not orderly ever reaches the early use
  depends on which of its parts are run, which is not decidable.
- Pipeline.RedefinitionPreserved: a condition that can be read off the program; whether a program that does not meet it
  ever uses a forgotten value is not decidable.
- The inlined procedure `/` (OP_DIV), and calls with operand -1, which take the values of a previous call that
  returned several.
- Mutable pairs, vectors, strings and other heap values in the compiled language: values are numbers, characters,
  symbols, immutable pairs and procedures.
- Continuations, dynamic winding and error handlers beyond the tear-off of contexts; native procedures that call back
  into the machine.
- Limits of the value stack and of the call-info stack, operand widths, and direct threading.
- Floating point: a `double` is a real number in `Builtins`; in the decimal code the last step, `scalbn` and the
  conversion to the IEEE format with subnormal results, which are rounded a second time, is not modelled.
- Atod.AtodGuts: the table of powers of five is a parameter that is assumed to hold the words of 5^e.
- RoundedDivision.Quornd: for valid calls the quotient has at least two words and a floor below 2^54, as every caller
  in the file arranges; the code reads `q[1]` whatever the length.
- DigitGeneration.DigitGen: with ten or more digits behind the point the choice of the last digit depends on what lies
  past the end of a table, so nothing is said about its distance to W. Cached powers, the boundaries of `Grisu2`, and
  that the digits are the shortest over all exponents are not modelled.
- DecimalConversion.ReadNumber: the tables of powers of five are a parameter. Of texts whose digits before the point
  need more than a word `DecimalTexts.WholeExact` and `DecimalTexts.MixedRight` say what is read, of digits behind it
  `DecimalRoundTrip.PartTruncatesIff`.
- Primitives.Sum: inexact numbers are real numbers, without rounding.
- Identifiers.Expander.FindIdentifier: symbols only; the unwrapping of identifiers that macros make is left out.
- Khash.Table.Resize: not called with a size past 2^23 buckets, where the bound overflows an `int` (see the findings).
- Khash.Table.Put: not called where the table would have to grow past 2^23 buckets. Key equality is equality; the hash
  function is arbitrary.
- The K&R free-list allocator, `posix_memalign`, C finalizers of user data, and the arena.
- Collector.Heap.HeapAlloc: requests larger than a page, whose size the original subtracts without a check, and the
  sequence of allocation, collection and `heap_morecore` in `pic_obj_alloc`.
- Collector.Heap.MoreCore: the number of units of a new page is a parameter.
- RopeStrings.Memory.Decref: reference counts are at least the references, not equal to them, since `pic_str` keeps a
  count on the buffers it flattens into.
- String comparison, `string-map`, conversion to lists and formatting; character encodings.
- Streams and goals of the logic library beyond unification; variables are numbers and atoms are compared by equality.
- Ports, files, regular expressions, time, and the list, vector and bytevector procedures.
