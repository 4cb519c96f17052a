# Verified model of Nirdosha's static passes and kernels

Nirdosha compiles a small ownership-typed language. Each of its static passes claims something about
every run of every program it accepts. This project models those passes in Dafny, gives the language a
meaning of its own where a claim is about runs, and proves the claims, or proves exactly where they
stop holding. Eight components are covered:

* **The Tier-1 contract checker** (`contract_*.dfy`): a path-sensitive symbolic executor over a
  solver's push/pop stack, and the fixed point over all `validate` blocks. `ContractWalker` is the
  walker as a function, `ContractEval` the stateful walker proved equal to it, `ContractLanguage` the
  meaning of programs, `ContractModelled` which bodies have to get a verdict.
* **The move checker and its free map** (`ownership*.dfy`): an abstract interpretation whose result
  drives the compiler's frees. `OwnershipRun` is a machine that faults when it uses an owning binding it
  has moved out of, or frees one twice or after moving out of it; its bindings have the types that
  `OwnershipTypes` reads off the declarations, not the ones the checker gives them.
* **The parser** (`parser_*.dfy`): precedence climbing, prefix chains, postfix forms, calls, the shared
  nesting counter, and the type syntax. `Spelling` says how expressions are written, with parentheses
  anywhere, and what they mean; the parser is proved to accept exactly that.
* **Gauss-Jordan and the Kalman filter** (`linear`, `gauss`, `kalman*.dfy`): over exact reals, with the
  array code proved against matrix functions. `KalmanEstimate` says what the estimate and its covariance
  are, by the error against a true state and by what any other gain would leave.
* **Effect inference** (`effects*.dfy`): the least fixed point over a recursive call graph, and its
  coverage of runs. `EffectsTable` says tag by tag which operations carry it and where bodies hold them.
* **The type registry** (`types`, `registry`, `affinity.dfy`): variant look-up, substitution, affinity.
* **The knowledge graph** (`impact`, `knowledge*.dfy`): a bounded breadth-first walk, and a state
  machine whose staleness flags must agree with content hashes, with every field's changes accounted for.
* **The rate limiter** (`ratelimit.dfy`): a bounded table of fixed windows.

## What the proofs found

* The contract checker's `Proved` needs call-free contract clauses and four more hypotheses: a truthful
  solver that never answers Unknown, no local that shadows a parameter, no call in the right operand of
  `&&` or `||` (the walker asserts the callee's axiom on both paths, code generation short-circuits), and
  no range-checked binding inside `audited` (code generation drops the guard there). For each of the
  four a lemma gives a program that is reported `Proved` and is wrong. A local called `result` is
  harmless. The summaries change within a pass, although the documentation says a pass sees the
  previous pass's.
* A reported counterexample is genuine for call-free bodies in which each branch of a statement `if`
  returns on all of its paths or on none. The run it stands for returns the reported value, unless that
  value is outside the return type or a `let` stands in a branch that falls through or in a block used
  as a value. Four lemmas give wrong reports: for a call, for a branch that returns on some paths, for
  such a value, and for such a `let`.
* The move checker's documentation calls checking a loop body twice an approximation. It is an exact
  fixed point. Acceptance is unsound for loop conditions that move or give back an affine binding, for
  assignments whose value is passed on, for assignments in an operand that may be skipped, for affine
  bindings that hide an affine one, for types `is_affine` judges wrongly, and for what lies inside a
  binding whose type arguments are unknown; each is a lemma. The last one contradicts the comment that
  the stand-in `box unit` can only reject too much: it tracks every such binding, but takes a box out of
  it to be nothing.
* `is_affine` is exact unless a generic name comes back on the way down with other arguments; it misses
  `Option(Option(box i64))`.
* Effect inference misses a call of a value taken from `acquire`, a call of a parameter that has the
  name of a function, and a `send` through a field.
* The code has six binary precedence levels. `handle` types and references to references print in a
  form the parser refuses. A redundant pair of parentheses is accepted around anything, also around a
  name that is called, borrowed or assigned, and costs nesting.
* A matrix the inversion refuses is within its threshold of a singular one, column by column.
* The rate limiter lets at most `2 * max - 1` calls through in any stretch as long as a window, and that
  bound is reached. Its comment speaks of the last-seen time, the code evicts by window start.
* Refining a locked unit's text leaves it locked, so it is not generated again; editing it unlocks it.
  An edge to a node that does not exist can only come from `add_relation`; with one in reach `impact`
  never gives a complete report. Deleting what is not a node leaves such edges in place.
* No other linear correction leaves a smaller error covariance than the filter's, and the covariance it
  keeps is that of its error.
* The Kalman benchmark ignores the update's return code; it is 0 whatever is measured.

## Model

| member | source | states |
|---|---|---|
| ContractTheorems.ProvedIsHonoured | crates/compiler/src/contract_check.rs:354-427 | if the walker says `Proved`, every run of the function that ends without a trap on arguments meeting every `pre` returns a value of its type meeting every `post`, calls to functions already proved included |
| ContractSimulation.SimStmts | crates/compiler/src/contract_check.rs:627-705 | the walk of a statement list follows every run of it: some solver model satisfies the facts the walk ends with and reads each symbol as the run's value, and a `return` on the way meets every clause |
| ContractSimulation.SimInt | crates/compiler/src/contract_check.rs:778-870 | the term built for an integer expression denotes the value every run computes |
| ContractSimulation.SimBool | crates/compiler/src/contract_check.rs:871-895 | the formula built for a condition is true exactly when every run finds it true |
| ContractSimulation.SimIfStmt | crates/compiler/src/contract_check.rs:668-692 | after an `if` statement the flow reported, and the fact it leaves behind, hold on every run that goes on |
| ContractSimulation.SimCall | crates/compiler/src/contract_check.rs:820-865 | the axiom "pre implies post" of a proved callee holds of the value each call really returns |
| ContractSimulation.SimCheck | crates/compiler/src/contract_check.rs:737-776 | when no clause is found violated at a `return`, the returned value meets all of them |
| ContractEval.Eval.Stmts | crates/compiler/src/contract_check.rs:627-650 | the stateful walk of statements pushes and pops so that the solver's frames below the current one come back unchanged, and reaches the state the walker function says |
| ContractEval.Eval.OneStmt | crates/compiler/src/contract_check.rs:651-705 | the same for one statement |
| ContractEval.Eval.IntExpr | crates/compiler/src/contract_check.rs:778-870 | the same for integer expressions, with the block scopes restored |
| ContractEval.Eval.BoolExpr | crates/compiler/src/contract_check.rs:871-895 | the same for conditions |
| ContractEval.Eval.BlockValue | crates/compiler/src/contract_check.rs:718-735 | the same for a block used as a value |
| ContractEval.Eval.Block | crates/compiler/src/contract_check.rs:707-716 | the same for a block used as a statement: what it learnt is dropped |
| ContractEval.Eval.CheckEach | crates/compiler/src/contract_check.rs:737-776 | each clause is asked about in turn, in a scope with `result`, and the first violation stays |
| ContractEval.CheckFnContract | crates/compiler/src/contract_check.rs:354-427 | the checker as a procedure over a solver and scopes gives the verdict of the walker function |
| ContractValidates.RunValidates | crates/compiler/src/contract_check.rs:222-251 | the passes stop within one more than the number of blocks at a state where every outcome is the one another pass would give and every proof is among the summaries |
| ContractValidates.BlockVerdict | crates/compiler/src/contract_check.rs:226-234 | a block is answered "no such function" exactly when there is none; otherwise its verdict is that on exactly its own clauses: all entries under `pre` and all under `post`, in order and as often as they are written |
| KeyedEntries.EntriesSelect | crates/compiler/src/contract_check.rs:231-232 | filtering the entries by key takes every entry under it, in its place, and nothing else |
| ContractValidates.RunPass | crates/compiler/src/contract_check.rs:222-251 | a pass never removes or changes a summary, and if it promotes nothing its outcomes agree with the summaries it began with |
| ContractValidates.RunBlock | crates/compiler/src/contract_check.rs:816-852 | a block is promoted only if proved from the summaries present and none is there for its function |
| ContractValidates.Promote | crates/compiler/src/contract_check.rs:816-852 | promotion extends the ranking: each summary was earned from strictly earlier ones |
| ContractValidates.PromotedAreHonoured | crates/compiler/src/contract_check.rs:222-251 | every summary is, entry for entry, the contract of a block for its function, and any run of it within any fuel that meets every `pre` entry returns a value of its type that meets every `post` entry |
| ContractValidates.ReportedProofsHold | crates/compiler/src/contract_check.rs:222-251 | the same of every block reported `Proved`: every `e` with `("post", e)` among its entries holds of the value of every run that meets every `e` with `("pre", e)` among them |
| ContractEnds.PromotedEnds | crates/compiler/src/contract_check.rs:816-852 | expanding the calls of a promoted function ends within its rank |
| ContractGenuine.CounterexampleIsGenuine | crates/compiler/src/contract_check.rs:737-776 | a reported counterexample gives arguments of the declared types that meet every `pre`, and a value that violates the reported clause and is the reported result; if each `let` stands in the body or in a branch that returns, the run returns that value exactly when it is within the return type, and traps at the `return` otherwise |
| ContractGenuine.AllReturnWalk | crates/compiler/src/contract_check.rs:627-705 | the walk takes a statement list to return exactly when every path through it does |
| ContractModelled.ModelledIsDecided | crates/compiler/src/contract_check.rs:354-427 | a function over integers whose clauses are conditions over its parameters and `result`, and whose body has no loop and only integer expressions the walker has terms for, calls of functions with a summary included, is proved or refuted, never "not modelled" |
| ContractModelled.UnboundIsReported | crates/compiler/src/contract_check.rs:379-389 | an unbound identifier is reported exactly when a clause names something that is neither a parameter nor `result`, and what is named is exactly that |
| ContractModelled.CallIsKnown | crates/compiler/src/contract_check.rs:820-865 | after a call the facts entail the callee's whole contract: the result is of the return type and, if the arguments meet every `pre`, it meets every `post` |
| ContractLimits.UnknownCountsAsProved | crates/compiler/src/contract_check.rs:757-757 | with a solver that answers Unknown a false contract is reported `Proved` |
| ContractLimits.ShadowingFoolsTheChecker | crates/compiler/src/contract_check.rs:737-756 | a postcondition is evaluated in the scope live at the `return`, so a local that shadows a parameter makes a false contract `Proved` |
| ContractLimits.AuditedFoolsTheChecker | crates/compiler/src/codegen.rs:3584-3587 | range facts assumed inside `audited` are not enforced there, and a false contract is `Proved` |
| ContractLimits.ShortCircuitFoolsTheChecker | crates/compiler/src/codegen.rs:10569-10595 | the axiom of a call in the right operand of `&&` is assumed even when the call is skipped, and a false contract is `Proved` |
| ContractLimits.NestedReturnFoolsTheChecker | crates/compiler/src/contract_check.rs:668-692 | a nested early return whose path fact is dropped yields a counterexample although every run meets the contract |
| ContractLimits.TrappingReturnIsReported | crates/compiler/src/contract_check.rs:737-776 | a returned value is not held to its type, so a counterexample may stand for a run that traps |
| ContractLimits.SlippedLetIsReported | crates/compiler/src/contract_check.rs:668-692 | what a `let` in a branch that falls through asserts is popped, so a counterexample with a result of the right type may stand for a run that traps on the way, while every run that returns meets the contract |
| ContractLimits.WeakContractIsReported | crates/compiler/src/contract_check.rs:820-865 | a callee is known by its proved contract only, so a counterexample may name a value the callee never returns, while every run meets the contract |
| OwnershipTheorems.AcceptedProgramIsSafe | crates/compiler/src/ownership.rs:311-347 | in a program without an ownership error, compiled with its free map, no run of a tame function uses an owning binding it has moved out of, or frees one twice or after moving out of it, for any branch choices, match arms and iteration counts; what owns is decided by the type a binding really has and what it leads to, not by the checker |
| OwnershipSound.AcceptedIsSafe | crates/compiler/src/ownership.rs:168-229 | the same for one function against any free map that contains its own entries |
| OwnershipSound.SimTouch | crates/compiler/src/ownership.rs:567-858 | at every point of an expression the run-time moved set stays inside the checker's |
| OwnershipSound.SimStmts | crates/compiler/src/ownership.rs:360-420 | the same for statement lists, with every listed name really owned where it is freed |
| OwnershipSound.SimWhile | crates/compiler/src/ownership.rs:535-560 | a loop, its condition included, stays inside the state the checker has after it |
| OwnershipSound.SimRounds | crates/compiler/src/ownership.rs:535-560 | so does any number of its iterations, each starting with the condition |
| OwnershipSound.SimMatch | crates/compiler/src/ownership.rs:484-533 | the same whichever arm is taken, when the run binds the payload at its real type, the declared one with the scrutinee's own arguments |
| OwnershipArms.MatchIsTracked | crates/compiler/src/ownership.rs:484-515 | in a well-typed match on any scrutinee every arm's bindings are those really bound, and each whose real type leads to something affine is tracked as affine as far as `is_affine` is right on the types in scope; where the type arguments can be told the types in scope are the real ones |
| OwnershipTypes.KnownArms | crates/compiler/src/ownership.rs:507-515 | with the scrutinee's arguments an arm binds each name at its payload's declared type with each parameter replaced by its own argument |
| OwnershipTypes.UnknownArms | crates/compiler/src/ownership.rs:500-515 | without them, a binding whose real type leads to something affine, through any declarations, gets a type that does |
| OwnershipTypes.ArgumentsTold | crates/compiler/src/ownership.rs:487-499 | the arguments are told for a name and for a call of a function or generic builtin, and are then those of the real type |
| OwnershipTypes.PartIs | crates/compiler/src/ownership.rs:695-716 | what the checker takes to come out of a box or field is what the declaration says, instantiated |
| OwnershipArms.MatchedBoxIsOwned | crates/compiler/src/ownership.rs:484-533 | `match make() { Ok(b) => both(b, b), Err(e) => () }` for `fn make() -> Result(box i64, str)` is refused |
| OwnershipArms.StandInHidesContent | crates/compiler/src/ownership.rs:500-515 | `match w.o { Some(b) => both(*b, *b), None => () }` for `w.o: Option(box box i64)` is accepted and takes the inner box twice |
| OwnershipStraight.StraightIsExact | crates/compiler/src/ownership.rs:567-858 | on code without branches, loops and blocks, where `is_affine` is right and no assigned value is passed on, the checker reports an error exactly when the run faults, and otherwise has moved exactly what the run has |
| OwnershipFrees.ReturnLists | crates/compiler/src/ownership.rs:386-394 | a `return` lists a name once for every scope in which it is bound to something affine that is not moved after the value |
| OwnershipFrees.ScopeEndsList | crates/compiler/src/ownership.rs:372-378 | the end of a block lists, under its own key, exactly what its scope still owns there |
| OwnershipFrees.FunctionEndLists | crates/compiler/src/ownership.rs:319-334 | the end of a function lists what its parameters and its body's own bindings still own |
| OwnershipFrees.ReturnFrees | crates/compiler/src/ownership.rs:386-394 | whatever a run still owns at a `return` is freed there, unless the walk has it moved because another way to that point moves it |
| OwnershipLoops.SecondWalkIsFixedPoint | crates/compiler/src/ownership.rs:535-560 | the state entering the second walk of a loop body is a fixed point of one more iteration and is the state after the loop |
| OwnershipLoops.EveryIterationIsCovered | crates/compiler/src/ownership.rs:535-560 | that state contains the state before every iteration, and an error any iteration would show is shown |
| OwnershipLoops.ErrorsGrow | crates/compiler/src/ownership.rs:143-156 | with more moved beforehand, a walk finds every error it found and frees at the same places |
| OwnershipLoops.AlikeTouch | crates/compiler/src/ownership.rs:567-858 | what a walk does to each moved flag is a monotone function of that flag alone |
| OwnershipChecker.Checker.TouchIdent | crates/compiler/src/ownership.rs:860-874 | the checker object, touching a name, reports an error exactly for a moved affine name, unless silent, and marks it moved when consumed |
| OwnershipChecker.Checker.TouchExpr | crates/compiler/src/ownership.rs:567-858 | the checker object's scopes, errors and free map after an expression are those of the walk function |
| OwnershipChecker.Checker.CheckStmt | crates/compiler/src/ownership.rs:380-418 | the same for a statement |
| OwnershipChecker.Checker.CheckBlock | crates/compiler/src/ownership.rs:372-378 | the same for a block, which returns what its scope still owns |
| OwnershipChecker.Checker.CheckIfBranches | crates/compiler/src/ownership.rs:429-482 | the same for the two branches from one start, merged by "moved on either" |
| OwnershipChecker.Checker.CheckMatchArms | crates/compiler/src/ownership.rs:484-533 | the same for the arms of a match |
| OwnershipChecker.Checker.CheckWhile | crates/compiler/src/ownership.rs:535-560 | the same for a loop: a silent walk, a merge, a reporting walk, a merge; resetting `silent` inside nested loops never changes the verdict |
| OwnershipChecker.CheckFunction | crates/compiler/src/ownership.rs:311-334 | checking a function adds its entries to the free map and an error exactly when its walk uses a moved value |
| OwnershipChecker.RunChecker | crates/compiler/src/ownership.rs:311-347 | the program is accepted exactly when no function's walk uses a moved value |
| OwnershipTheorems.ConditionReadsMoved | crates/compiler/src/ownership.rs:395-400 | the accepted loop `while *b > 0 { b = box 1  take(b) }` reads a moved value on its second test |
| OwnershipTheorems.AssignedValueIsShared | crates/compiler/src/ownership.rs:670-677 | the accepted `take(b = box 1)  take(b)` takes one box twice |
| OwnershipTheorems.ShortCircuitedRefill | crates/compiler/src/ownership.rs:577-580 | an assignment in an operand that is skipped does not give the value back, and an accepted program consumes it twice |
| OwnershipTheorems.HiddenBindingIsFreed | crates/compiler/src/ownership.rs:219-229 | the free map lists bare names, so where an affine binding hides an affine one of the same name an accepted program frees one thing twice |
| OwnershipTheorems.NestedGenericIsTakenTwice | crates/compiler/src/ownership.rs:860-874 | a binding of type `Option(Option(box i64))` is not tracked, so an accepted program takes its box twice |
| Canonical.ReadIffSpelled | crates/compiler/src/parser.rs:1730-1743 | in front of a token that does not continue an expression, the parser gives `e` exactly when the tokens are some grammatical spelling of `e`, with parentheses anywhere, that nests at most 50 deep |
| Canonical.ReadIsSpelled | crates/compiler/src/parser.rs:1928-2057 | whatever follows, what is accepted is a spelling of the tree that is given: operators by level and to the left, assignment to the right, and only names called, borrowed and assigned, only calls spawned |
| RoundTrip.SpelledIsRead | crates/compiler/src/parser.rs:1730-1743 | a spelling reads as what it means, or, if it nests too deep, as the depth error and nothing else |
| RoundTrip.SpellingBack | crates/compiler/src/parser.rs:1968-2057 | the same from any binary level and at any nesting depth |
| RoundTrip.ListBack | crates/compiler/src/parser.rs:2226-2268 | the same for argument and index lists |
| RoundTrip.PrintThenParse | crates/compiler/src/parser.rs:1730-1743 | parsing the canonical print of an expression gives exactly that expression and the rest, or the depth error |
| Canonical.NestsLeast | crates/compiler/src/parser.rs:76-84 | no spelling of a tree nests less, as the parser counts, than the canonical print |
| Canonical.CanonicalPrintIsAccepted | crates/compiler/src/parser.rs:1730-1743 | whatever the parser accepts can be printed, and the print parses back to the same tree within the nesting limit |
| TypeSyntax.TypeRoundTrip | crates/compiler/src/parser.rs:187-326 | parsing the tokens of a type's printed name gives that type and the rest if and only if it contains no `handle`, no error type, no reference to a reference (`&&` is one token) and no dimension past the literal range, and the next token does not extend it |
| TypeSpelling.TypeReadIffSpelled | crates/compiler/src/parser.rs:187-326 | the type parser accepts exactly the ways to write a type, a function type without an arrow and an empty argument list included, and gives that type |
| ParserMachine.Parser.ParseExpression | crates/compiler/src/parser.rs:1730-1743 | the cursor-moving parser agrees with the grammar function and restores the nesting counter on success and on error |
| ParserMachine.Parser.ParseAssignment | crates/compiler/src/parser.rs:1928-1946 | the same for right-associative assignment |
| ParserMachine.Parser.ParseBinary | crates/compiler/src/parser.rs:1968-2057 | the same for each left-associative level |
| ParserMachine.Parser.ParseUnaryLevel | crates/compiler/src/parser.rs:2059-2224 | the same for prefix operators |
| ParserMachine.Parser.ParseCallForm | crates/compiler/src/parser.rs:2226-2267 | the same for calls |
| ParserMachine.Parser.ParsePostfixForm | crates/compiler/src/parser.rs:2269-2295 | the same for indexing and field access |
| ParserMachine.Parser.ParsePrimaryForm | crates/compiler/src/parser.rs:2297-2350 | the same for primaries |
| ParserMachine.Parser.EnterNesting | crates/compiler/src/parser.rs:76-84 | entering one level too many fails and leaves the counter as it was |
| ParserMachine.Parser.ExpectType | crates/compiler/src/parser.rs:187-326 | the cursor-moving type parser agrees with the type grammar |
| Gauss.InverseIsRight | benchmarks/c/kalman.c:53-99 | an inverse that is returned is a right and a left inverse, for every size and every real matrix; there is none if and only if elimination with partial pivoting, stated by what each step does to the rows, comes to a column in which no remaining row has an entry of the threshold or more |
| Gauss.ReduceTracks | benchmarks/c/kalman.c:64-97 | from any column on, the working matrix is the inverse so far times the input and its finished columns are unit columns; the reduction ends with all of them finished or at a column without a pivot |
| Gauss.ColumnEliminates | benchmarks/c/kalman.c:64-97 | the search, swap, division and clearing loop of one column pick the first largest entry and leave exactly the rows of an elimination step |
| Gauss.RefusedIsNearlySingular | benchmarks/c/kalman.c:72-77 | a refused matrix has a column that differs in every entry by less than the threshold from one combination of the columns before it |
| Gauss.SingularIsRefused | benchmarks/c/kalman.c:72-77 | a singular matrix is always refused |
| Gauss.SmallIsRefused | benchmarks/c/kalman.c:72-77 | so is some invertible one |
| KalmanMachine.MatInv | benchmarks/c/kalman.c:53-99 | the array code computes the inverse of `Gauss` in place and returns 0 exactly when there is one |
| KalmanMachine.DoColumn | benchmarks/c/kalman.c:64-97 | one column: pivot search, row swap, scaling, elimination, on both arrays |
| KalmanMachine.FindPivot | benchmarks/c/kalman.c:64-71 | the first row from the diagonal on with the largest entry in absolute value |
| KalmanMachine.MatMul | benchmarks/c/kalman.c:11-22 | the triple loop leaves the matrix product in the output array |
| KalmanMachine.MatTranspose | benchmarks/c/kalman.c:34-40 | the double loop leaves the transpose |
| KalmanSteps.KfPredict | benchmarks/c/kalman.c:102-114 | the array code computes the prediction of `Kalman` |
| KalmanSteps.KfUpdate | benchmarks/c/kalman.c:116-149 | the array code computes the update of `Kalman`, with its return code |
| KalmanSteps.Loop.Step | benchmarks/c/kalman.c:183-195 | an iteration of the benchmark makes one step of the filter; no update in it is ever refused |
| KalmanEstimate.StepError | benchmarks/c/kalman.c:101-149 | when the true state moves by `F` and a disturbance `w` and is measured by `H` with a noise `v`, the error after a step is `(I - K H)(F e + w) - K v` for the error `e` before it, where `K` solves `K (H P H^T + R) = P H^T` |
| KalmanEstimate.StaysExact | benchmarks/c/kalman.c:183-195 | started at the true state and fed noiseless measurements, the filter is at the true state after every step |
| KalmanEstimate.PredictedError | benchmarks/c/kalman.c:101-114 | the predicted error is `F e + w`, and every entry of the predicted covariance is two rows of `F` joined by `P`, plus that of `Q` |
| KalmanEstimate.CorrectedError | benchmarks/c/kalman.c:116-149 | the corrected error is `(I - K H) e - K v`, and the corrected covariance is that of this error when `e` and `v` have covariances `P` and `R` |
| KalmanEstimate.NoBetterGain | benchmarks/c/kalman.c:116-149 | whatever other gain is used, the error it leaves has no smaller variance in any direction |
| KalmanEstimate.RefusedWith | benchmarks/c/kalman.c:131-132 | an update is refused exactly when the matrix with the entries of `H P H^T + R` has no inverse that the elimination accepts |
| Kalman.PredictSymmetric | benchmarks/c/kalman.c:102-114 | prediction keeps the covariance symmetric |
| Kalman.UpdateSymmetric | benchmarks/c/kalman.c:116-149 | so does an update, since the innovation covariance and its inverse are symmetric |
| Kalman.JosephForm | benchmarks/c/kalman.c:116-149 | the short form of the corrected covariance equals the Joseph form |
| Kalman.UpdatePositive | benchmarks/c/kalman.c:116-149 | an update keeps the covariance positive semidefinite |
| Kalman.RunKeepsCovariance | benchmarks/c/kalman.c:183-195 | through any run the covariance stays symmetric and positive semidefinite |
| KalmanBenchmark.TwoMeasurementsAccepted | benchmarks/c/kalman.c:72-77 | two measurements with noise above the threshold always give an innovation the inversion accepts |
| KalmanBenchmark.BenchmarkNeverFails | benchmarks/c/kalman.c:151-199 | the benchmark's filter is never refused, whatever it measures |
| EffectsInfer.InferEffects | crates/compiler/src/effects.rs:77-110 | the loop ends, and a tag is in a function's set exactly when, over calls, the function reaches a body in which an operation stands that carries it, where a call of a local function value reaches every function |
| EffectsTable.ReflectsFn | crates/compiler/src/effects.rs:297-517 | what the pass collects from a body is what stands in it: a tag comes from a `send`, `recv`, `stop`, a handle made, `spawn`, `join`, a builtin or a plugin that carries it, a callee from an expression that may start it |
| EffectsTable.ArmBinds | crates/compiler/src/effects.rs:504-516 | an arm binds each name at the declared payload type of its position |
| EffectsInfer.LeastSolution | crates/compiler/src/effects.rs:82-103 | any state that is closed and justified is that set |
| EffectsInfer.Least | crates/compiler/src/effects.rs:82-103 | it is contained in every closed state |
| EffectsInfer.Round | crates/compiler/src/effects.rs:82-103 | a round either strictly lessens the missing tags or changes nothing and the state is closed |
| EffectsInfer.Walker.WalkExpr | crates/compiler/src/effects.rs:297-517 | the walker adds exactly the meaning of what the expression uses and leaves its scopes as they were |
| EffectsSound.InferredCoversRuns | crates/compiler/src/effects.rs:297-517 | in a program whose targets of `send`, `recv` and `stop` are made on the spot or named, that neither calls nor targets a binding of a struct, enum or parameter type, and that names no local function value like a global, every tag carried by an operation that a well-typed run makes on the handles it really holds, through direct, recursive, spawned and function-value calls, is in the inferred set |
| EffectsLimits.AcquiredCallsAreMissed | crates/compiler/src/effects.rs:509-512 | a function value bound by `Ok(f)` from `acquire` has the type `T` in scope, and the effects of calling it are not inferred |
| EffectsLimits.ShadowedFunctionsAreMissed | crates/compiler/src/effects.rs:308-352 | a parameter named like a function is attributed that function's effects and not those of what it is bound to |
| EffectsLimits.FieldTargetsAreMissed | crates/compiler/src/effects.rs:182-194 | the type of a target that is neither a name nor a constructor is not looked up, so sending through a field has no effect inferred |
| Affinity.AffineIffChain | crates/compiler/src/ast.rs:2321-2356 | where no declaration a type leads to takes type parameters, whatever else is declared, the type is affine exactly when some chain of fields and payloads leads from it to a base affine type, cyclic declarations included |
| Affinity.TidyIsExact | crates/compiler/src/ast.rs:2321-2356 | the same for generic declarations, if a name is entered again on the way down only at a type with the same parts |
| Affinity.ExactlyWhen | crates/compiler/src/ast.rs:2326-2334 | for any declarations, the answer is right if and only if it is yes or no type at which the search is cut off leads to a base affine type |
| Affinity.AffineIffSimpleChain | crates/compiler/src/ast.rs:2321-2356 | for any declarations, a type is reported affine exactly when some chain leads to a base affine type without entering a name twice |
| Affinity.NestedGenericsAreMissed | crates/compiler/src/ast.rs:2326-2334 | `Option(Option(box i64))` leads to a box and is reported not affine; the cut-off falls on a type with other parts |
| Affinity.PartsIff | crates/compiler/src/ast.rs:2326-2356 | the types looked into are exactly the declared field types, or the payload types of all variants, with the type's own arguments put in |
| Affinity.PartsOfInstance | crates/compiler/src/ast.rs:2326-2356 | looking inside an instance of a generic struct and instantiating what is inside give the same |
| Affinity.Search.IsAffineVisiting | crates/compiler/src/ast.rs:2326-2356 | the search with its stack of names answers as the function, and leaves the stack as it was |
| Registry.Build | crates/compiler/src/ast.rs:2205-2262 | the loops fill the tables of declarations and of variant owners |
| Registry.QualifiedReachesItsEnum | crates/compiler/src/ast.rs:2276-2284 | a qualified variant name finds that variant of exactly the enum it names |
| Registry.BareNameFinds | crates/compiler/src/ast.rs:2251-2284 | a bare name finds the variant of that name in the last top-level enum that has one, and none only if there is none |
| Registry.NamespacedEnumsNeverCollide | crates/compiler/src/ast.rs:2205-2262 | an enum in a namespace never changes what a bare variant name finds |
| Registry.InstanceIs | crates/compiler/src/ast.rs:2390-2425 | substituting by the zipped parameters replaces each bare parameter, at any depth, by its own argument, and nothing else |
| Registry.SubstituteTwice | crates/compiler/src/ast.rs:2406-2440 | substituting twice is substituting the composition when nothing is captured |
| Registry.SubstituteNothing | crates/compiler/src/ast.rs:2406-2440 | substituting nothing changes nothing |
| Impact.Run | crates/compiler/src/hi_graph.rs:487-531 | the queue loop returns a complete report, or 500 hits with nothing unreported nearer than any of them, or names a node missing from the table that is within reach; every hit is a node, with the kind and flag of an edge that joins it to a node one step nearer, and flagged hits come first, then by depth |
| Impact.CompleteIsExact | crates/compiler/src/hi_graph.rs:487-531 | a complete report lists exactly the nodes at undirected distance 1 to 5, at that distance |
| Impact.WalkNearest | crates/compiler/src/hi_graph.rs:505-512 | when the walk is abandoned nothing unreported is nearer than the deepest hit |
| Impact.NothingMissingOnRuns | crates/compiler/src/hi_graph.rs:514-519 | on the graph any operations have made, as long as relations were only added between nodes that were there, the walk meets no missing node |
| Impact.CompleteMissesNothing | crates/compiler/src/hi_graph.rs:514-519 | a complete report shows that no missing node is within reach |
| Impact.Expand | crates/compiler/src/hi_graph.rs:497-525 | expanding one node visits all its neighbours and keeps the breadth-first invariant |
| Knowledge.ReachableIsGood | crates/compiler/src/hi_graph.rs:266-327 | after any sequence of operations, requirement links come in twin pairs with the same hash and flag, and an unflagged pair has its code unit's present hash |
| Knowledge.StepGood | crates/compiler/src/hi_graph.rs:408-433 | every single operation keeps that, and every locked unit has the hash it was made at |
| Knowledge.OnlySyncFlags | crates/compiler/src/hi_graph.rs:306-322 | a link becomes stale only when its own code unit is synced |
| Knowledge.OnlyRelatingDangles | crates/compiler/src/hi_graph.rs:710-714 | an operation leaves an edge to nowhere exactly when it relates a node that does not exist |
| Knowledge.OnlyRefiningChangesLockedText | crates/compiler/src/hi_graph.rs:689-705 | the text of a locked unit changes in two ways only: an edit unlocks it; a refinement leaves it locked with the new text, at the hash it was made at, and out of what is generated |
| KnowledgeEffects.WhatChanges | crates/compiler/src/hi_graph.rs:266-879 | for every operation and every node, whether it is there afterwards and what each of its fields is; a synced unit ends with the hash listed last for it |
| KnowledgeEffects.WhichEdges | crates/compiler/src/hi_graph.rs:408-714 | for every operation, which edges are there afterwards, and that a link is made at its unit's present hash and not stale |
| KnowledgeEffects.FlagSays | crates/compiler/src/hi_graph.rs:306-322 | a link made stale says from which hash, the one it was recorded at, to which, one the sync brings for its unit |
| Knowledge.FlaggedOnce | crates/compiler/src/hi_graph.rs:304-322 | the edges a sync counts as flagged are as many as were fresh before it and are stale after it: none is counted for two units |
| Knowledge.CountedBefore | crates/compiler/src/hi_graph.rs:280-284 | if no unit is listed twice, the added and changed units are those without a hash and those with another hash before the sync |
| KnowledgeStore.Store.SyncFile | crates/compiler/src/hi_graph.rs:266-327 | the row-by-row sync makes the state change of the specification and returns its three counts |
| KnowledgeStore.Store.ImpactOf | crates/compiler/src/hi_graph.rs:487-531 | impact over the stored edges, in whatever order they come: it succeeds on every graph without edges to nowhere, and a complete report lists the nodes 1 to 5 steps away |
| KnowledgeStore.Store.Resolve | crates/compiler/src/hi_graph.rs:384-399 | a target resolves to the one code unit it names, or to none |
| KnowledgeStore.Store.LinkRequirement | crates/compiler/src/hi_graph.rs:408-433 | the requirement is recorded even when the target does not resolve; both edges otherwise |
| KnowledgeStore.Store.LockUnitsAfterSync | crates/compiler/src/hi_graph.rs:869-879 | the units with a hash are locked at it, up to the first id that is not a node |
| KnowledgeStore.Store.GeneratableUnits | crates/compiler/src/hi_graph.rs:828-851 | the query returns exactly the confirmed, unwaived, unlocked units with a text |
| RateLimit.RateLimiter.Check | crates/compiled-serve/src/ratelimit.rs:39-63 | one call evicts at most one key, whose window started first, and admits by the key's own window |
| RateLimit.StaysWithinCap | crates/compiled-serve/src/ratelimit.rs:39-63 | through any history the table holds at most the cap |
| RateLimit.LessThanTwiceTheLimit | crates/compiled-serve/src/ratelimit.rs:39-63 | a key that is not evicted gets at most `2 * max - 1` calls through in any half-open interval of a window's length |
| RateLimit.BoundIsReached | crates/compiled-serve/src/ratelimit.rs:39-63 | for every positive limit and window longer than one tick some history reaches that bound |
| RateLimit.NothingDropped | crates/compiled-serve/src/ratelimit.rs:39-63 | with no more distinct keys than the cap the table holds each key's own window |
| RateLimit.AgreesWithUnbounded | crates/compiled-serve/src/ratelimit.rs:39-63 | and every answer is that of an unbounded limiter for that key alone |
| RateLimit.FirstOfEachWindow | crates/compiled-serve/src/ratelimit.rs:39-63 | of the calls in each window of a key exactly the first `max` get through, where a window opens at the first call at least its length after the one before opened |
| RateLimit.WindowIs | crates/compiled-serve/src/ratelimit.rs:52-62 | a key's window is that of its last call; a refused call neither counts nor opens a window |

## Left out

- ContractTheorems.ProvedIsHonoured: partial correctness on mathematical integers; wrap-around of intermediate `i64` arithmetic is not modelled.
- ContractGenuine.CounterexampleIsGenuine: speaks of call-free bodies; the walker knows only the contract of a callee, and `ContractLimits.WeakContractIsReported` shows a report that depends on a call and is wrong.
- OwnershipTheorems.AcceptedProgramIsSafe: frees happen at most once, not exactly once: a value moved in one branch only, or overwritten, is never freed.
- OwnershipTheorems.AcceptedProgramIsSafe: assumes tame functions: bindings, payloads and parts whose real types lead to something affine are judged affine (for payloads `OwnershipArms.MatchIsTracked` says when), loop conditions that, walked again from the loop's state, move and report nothing new, no use of the value of an assignment to an affine name, nothing given back in an operand that may be skipped, no affine binding that hides an affine one, and distinct free-map keys; the lemmas on the excluded programs show why.
- EffectsSound.InferredCoversRuns: that a binding only ever stores values of its declared type is what the type checker promises, and is assumed of the run; the type checker is not modelled.
- Canonical.ReadIffSpelled: names are joined from the tokens between `::`; which characters a token may hold is the lexer's.
- TypeSyntax.TypeRoundTrip: names are paths of identifiers that are not reserved words, as the lexer makes them.
- RateLimit.LessThanTwiceTheLimit: speaks of keys that are not evicted; an evicted key starts a new window at once.
- KalmanMachine.MatInv: the buffers of 16 numbers limit it to matrices of size 4; `Gauss.InverseIsRight` is for every size.
- KalmanMachine.DoColumn: the source works on both arrays row by row in one loop; here each row operation is a procedure applied to one array and then to the other.
- Contract checker: predicate strings and their parse errors, the extra bindings of the extraction pipeline, and expression forms the walker reports as not modelled, other than one representative.
- Contract checker: diagnostics; the solver is an oracle over sequences of facts, truthful but otherwise unknown.
- OwnershipArms.MatchIsTracked: that an arm's variant is one its scrutinee's type declares, and the type of a scrutinee that is neither a name nor a call, are what the type checker promises; it is not modelled.
- ContractModelled.ModelledIsDecided: after a `return` inside a value, or once a violation may have been found, what a block's last expression uses has to be in scope outside the block; the walker may skip the block's `let`s there.
- Ownership: `transact`, sandboxes, reads through `&` after the referent moves, and the builtin tables beyond three return types and the builtins that only read a connection.
- Ownership: the messages of errors; the model keeps whether there is one.
- Parser: `if`, `match` and `transact` expressions, statement sequences, `send`, `recv` and similar forms, the block declarations, annotations and source spans.
- Effects: `transact`; a `db_query` on a Postgres handle is tagged Io as in the code.
- Registry: functions, traits and the other declarations of a program; only structs and enums matter to look-up and affinity.
- Knowledge graph: hashing, full-text search, document ingestion, attributes, positions in files, and the SQL text; ids are a datatype instead of prefixed strings, and the resolution of an `impact` target by bare name.
- Rate limiter: the lock around the table and the system clock; time is an integer that does not decrease.
- Floating point: the numeric kernels are over exact reals with the source's threshold.
- HTTP, identity, the database client, code generation, the command line and the templates: input and output.
