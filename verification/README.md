# Nixie command line: verified models

A Dafny model of the parts of the `nixie` command-line front end whose correctness is not obvious
from one function body: the cube-and-conquer coordinator, the TPTP front end, model counting and
enumeration, the resolution proof checker, DIMACS/QDIMACS, the script and assertion-set
transformations, and the result cache. The SAT/SMT engine itself is not modelled. Wherever the
program asks it, the model takes an oracle that may answer `Unknown` at will but never lies.

`dafny verify dfyconfig.toml` checks everything.

## What is in which file

- **Coordinator** (`distributed.rs`). `Cubes` generates the cubes in loops and proves that they split
  the search space. `Coordinator` is a step system: every critical section, flag access and message
  transfer of the accept loop, the time-out sweep, the aggregator, the connection handlers and the
  workers is one step, so a run is any interleaving; peers may also send arbitrary messages as long as
  what they say about a cube is true. `CoordinatorProofs` holds the inductive invariant,
  `CoordinatorResults` the guarantees over whole runs, `CubeConservation` when exactly a cube is lost.
  `SharedTables` has the locked tables as a class whose methods are the critical sections, and
  `solve_cube`; `CoordinatorRun` executes every run of the step system on that class.
- **TPTP** (`tptp.rs`). `TptpGrammar` is the recursive-descent grammar, `TptpParser` the pushdown parser
  as a class that advances its position and is proved to return what the grammar returns, `TptpLimits`
  the effect of the depth limits. `TptpWalks` and `TptpSmt` are the explicit-stack walks and serializers.
  `FirstOrder` gives the formulas, `SmtMeaning` the S-expressions their first-order semantics over an
  arbitrary domain; `TptpProblem`, `TptpMeaning` and `TptpStatus` carry the translation and the SZS
  status, `TptpSorts` when a script is well sorted. `SexpTokens`, `TptpText` and `TptpReading` say when
  the emitted text is read back by the solver as the commands that were meant, `TptpClaimed` has names
  it reads otherwise.
- **Reading scripts** (`nixie-core/src/smtlib`). `SmtLexer` separates an SMT-LIB text into literals,
  quoted symbols, comments, parentheses and atoms, `SmtSymbols` splits the atoms into the solver's own
  tokens, `SmtReader` takes the commands off them, `SmtPieces` is text written from comments, commands
  and blank lines. Everything about scripts as text is stated over these.
- **Counting** (`model_counter.rs`, `main.rs`). `ModelSpace` counts assignments over declared sorts,
  `ModelCounter` has both enumeration loops on a context with push and pop, `Parity` the XOR constraints.
- **Proof checker** (`proof_checker.rs`): `ProofChecker`.
- **DIMACS** (`dimacs.rs`, `processor.rs`). `DimacsText`, `Dimacs` and `DimacsRoundTrip` parse and print,
  `DimacsSmt` and `DimacsMeaning` translate, `DimacsReading` is what the solver reads in the emitted
  text, `DimacsSat` the route straight to the SAT core.
- **Portfolio** (`portfolio.rs`). `Portfolio` has the form splitter and the orderings, `PortfolioReading`
  compares the forms with the commands the solver reads, `PortfolioMeaning` says what reordering means
  to a solver, `PortfolioSolver` puts both together, `PortfolioRace` is the race of the strategies.
- **Formatter** (`format.rs`). `Format` is the loop, `FormatTokens` the exact condition under which it
  keeps the tokens, `FormatGlue` counts what is lost without quoted symbols.
- **Core minimisation** (`core_min.rs`): `CoreMin`. **Cache** (`cache.rs`): `Cache`.
- `Prelude`, `RustText`, `SmtLib`, `SolverContext`: result types, the standard library's text
  primitives, S-expressions, the oracle.

Code that changes things step by step is modelled by methods with loops or by classes, and tied to
specification functions; the properties are lemmas about those.

## Where the code does not do what one might expect

Each of these has a lemma or method with a failing input, and the exact condition under which the code
is right.

- A handler whose connection closes leaves without giving its cube back. As long as no handler has left,
  every uncompleted cube that is taken is with a live handler or in the channel
  (`CubeConservation.OutstandingUntilSomebodyLeaves`); in general a cube is lost exactly when a step gives
  up its only place (`CubeConservation.NoCubeLostIff`). With one worker that does nothing but what
  `run_worker` does this happens (`CubeConservation.ClosedConnectionLosesCube`), while a handler
  that fails leaves an entry from which the sweep brings the cube back
  (`CubeConservation.FailedConnectionGivesCubeBack`).
- The portfolio counts parentheses inside comments, literals and quoted symbols, so `; (assert false)`
  becomes a command (`PortfolioSolver.CommentedAssertionRevived`). The forms are cut where the solver
  reads commands exactly in the quiet scripts (`PortfolioReading.CutWhereReadIff`), and every script
  without such parentheses is quiet (`PortfolioReading.NothingHiddenIsQuiet`); balanced ones inside a
  command's comment do no harm (`PortfolioReading.BalancedCommentQuiet`).
- Reordering assertions is harmless exactly when no other command stands between two of them
  (`PortfolioSolver.DiversifiedSafeIff`); the source's documentation claims it always is. A `check-sat`
  between two assertions answers for both of them (`PortfolioSolver.CommandOvertaken`).
- TPTP names are printed unquoted. A comment or statement name of several lines, or a name that is no
  simple symbol of the solver's, changes the emitted script: the text has the tokens that were meant
  exactly for plain problems, whose comments are single lines and whose names are simple symbols
  (`TptpReading.TextReadsBackIff`). A comment whose second line is `(assert false)` makes `$false` a
  theorem (`TptpStatus.CommentMakesTheorem`), a name of two words falls apart (`SexpTokens.TwoWordName`),
  a number as in `p(1)` stands where a declaration needs a symbol (`TptpClaimed.NumberNotDeclared`).
- The solver looks up its own operators and constants before what a script declares. Uses of names mean
  what their declarations leave open exactly when none of them is claimed in this way
  (`TptpMeaning.FreelyInterpretedIff`). Otherwise theories decide: `select(store(a,i,v),i) = v` is
  reported as a theorem (`TptpClaimed.ArraysMakeTheorem`), and so is `![RNE,RNA]: RNE != RNA`
  (`TptpClaimed.ConstantsMakeTheorem`, `TptpClaimed.RoundingModes`).
- A TPTP symbol used at two arities is declared at one of them only: all uses are declared exactly
  when no name has two (`TptpSorts.AllUsesDeclaredIffConsistent`), the text of a plain problem is well
  sorted exactly then (`TptpSorts.WellSortedTextIff`), and an axiom that breaks it is
  `TptpSorts.TwoAritiesNotSorted`.
- A cache whose store refuses a write may answer with the older result
  (`Cache.StaleAfterFailedWrite`). It never does so again exactly when the latest answer is the one the
  store was last given (`Cache.RightFromHereOnIff`).
- The formatter glues two string literals at the start of a line with only blanks between them
  (`FormatGlue.TwoLiteralsGlued`) and indents the second line of a quoted symbol anew
  (`FormatGlue.SymbolDistorted`). `FormatTokens.TokensKeptIff` is the exact condition for every script.
- "complete: N model(s) total" is the number of models exactly when each blocked partial assignment fits
  one model that was left (`ModelCounter.ExactIffFitsOne`), as it does whenever every block gives every
  declared constant a value (`ModelCounter.ExactIfFull`), that is, when every printed value could be
  rebuilt (`ModelCounter.PinnedFullIff`); blocking a = true alone counts one model of two
  (`ModelCounter.PartialBlockUndercounts`).
- The proof checker accepts more than proofs. In an accepted proof whose ids are unique, whose parents
  form no cycle, whose derived steps are by resolution, factoring or subsumption, and which avoids the
  least 32-bit integer, every clause follows from the roots it reaches (`ProofChecker.Sound`). Each
  condition is needed: a derived step may name itself as its parent (`ProofChecker.SelfSupportAccepted`),
  an id used twice makes a satisfiable core (`ProofChecker.DuplicateIdUnsound`), an unknown rule and the
  rule `tautology` derive the empty clause from clauses that hold (`ProofChecker.UnknownRuleUnsound`,
  `ProofChecker.TautologyUnsound`), and the least integer is its own negation
  (`ProofChecker.LeastLiteralUnsound`).
- A literal equal to the least 32-bit integer names an SMT-LIB constant that is never declared, and no
  other does (`DimacsMeaning.LiteralDeclaredIff`).
- A second QDIMACS problem line may lower the number of variables below a quantified one
  (`DimacsRoundTrip.LoweredProblemLine`); exactly then what was parsed cannot be read back
  (`DimacsRoundTrip.ParsedQDimacsRoundTripsIff`).

## Model

| member | source | states |
|---|---|---|
| Cubes.GenerateCubes | nixie-cli/src/distributed.rs:216-238 | the loops return min(ceil(log2 numCubes), numVars) literals per cube and two to that power cubes, one for every index, or the single empty cube when there is nothing to split on |
| Cubes.CubesPartition | nixie-cli/src/distributed.rs:216-238 | every valuation of the script's Boolean variables satisfies exactly one generated cube, even when a name is listed twice |
| Cubes.CubesDistinct | nixie-cli/src/distributed.rs:216-238 | no two generated cubes are the same |
| Cubes.CubeIndicesInRange | nixie-cli/src/distributed.rs:216-238 | cubes mention only existing variables, so resolving them in the worker cannot go out of bounds |
| SharedTables.Shared.constructor | nixie-cli/src/distributed.rs:361-384 | the shared tables start with every generated cube available and no worker |
| SharedTables.Shared.Register | nixie-cli/src/distributed.rs:557-573 | registration adds the worker without a cube and touches nothing else |
| SharedTables.Shared.ClearCurrent | nixie-cli/src/distributed.rs:611-622 | a result only clears the owner entry of the worker it came from |
| SharedTables.Shared.Forward | nixie-cli/src/distributed.rs:624-625 | a result reaches the channel once while the aggregator lives, and is dropped afterwards |
| SharedTables.Shared.TakeCube | nixie-cli/src/distributed.rs:628-640 | some cube that was neither assigned nor completed becomes assigned; none is handed out only when there is none |
| SharedTables.Shared.Take | nixie-cli/src/distributed.rs:628-640 | the same section for a given choice of the cube: exactly that one becomes assigned |
| SharedTables.Shared.Record | nixie-cli/src/distributed.rs:643-652 | the owner is recorded in a section of its own, and only for a worker still registered |
| SharedTables.Shared.Unregister | nixie-cli/src/distributed.rs:688-694 | leaving removes the worker and does not give its cube back |
| SharedTables.Shared.Sweep | nixie-cli/src/distributed.rs:459-475 | a timed-out worker is removed and the cube it owned is returned for re-queueing |
| SharedTables.Shared.Requeue | nixie-cli/src/distributed.rs:476-483 | only an uncompleted cube becomes available again |
| SharedTables.Shared.Receive | nixie-cli/src/distributed.rs:395-398 | the aggregator takes the oldest result off the channel |
| SharedTables.Shared.Store | nixie-cli/src/distributed.rs:395-412 | a result completes its cube and says whether it ends the search; unknown ids change nothing |
| SharedTables.Shared.Announce | nixie-cli/src/distributed.rs:405-418 | the aggregator leaves with all_done raised and the channel closed |
| SharedTables.Shared.Aggregate | nixie-cli/src/distributed.rs:395-418 | one turn of the aggregator: sat raises the flag, and it ends exactly on a sat result or when all cubes are completed |
| SharedTables.Shared.Verdict | nixie-cli/src/distributed.rs:502-517 | sat if the flag is up, unsat if every stored result is unsat, unknown otherwise |
| SharedTables.SolveCube | nixie-cli/src/distributed.rs:854-898 | with a sound solver the worker's answer is true of the cube it was sent, and a script that does not load gives no verdict |
| SharedTables.AssumptionsAreTheCube | nixie-cli/src/distributed.rs:869-894 | the asserted assumptions hold in exactly the valuations the cube stands for |
| CoordinatorRun.HandlerSection | nixie-cli/src/distributed.rs:557-694 | the critical section of each handler step, run on the class, changes the tables as the step does |
| CoordinatorRun.TablesStep | nixie-cli/src/distributed.rs:395-694 | likewise for a step of any thread |
| CoordinatorRun.ExecuteRun | nixie-cli/src/distributed.rs:338-517 | every run of the step system can be executed section by section on the class; its final verdict is the one the main thread returned, and is right |
| CoordinatorProofs.InvStep | nixie-cli/src/distributed.rs:395-697 | every step of every thread keeps the whole invariant: unaltered cubes, truthful messages, agreeing flags, single holders, balanced ledger |
| CoordinatorProofs.PhaseStep | nixie-cli/src/distributed.rs:395-418 | the flags, the aggregator and the stored results agree after every step, although a flag is raised outside the lock |
| CoordinatorProofs.ExclusiveStep | nixie-cli/src/distributed.rs:459-665 | an uncompleted cube passes from handler to worker entry to sweep without ever having two holders |
| CoordinatorProofs.LedgerStep | nixie-cli/src/distributed.rs:459-665 | hand-outs minus re-queues stay equal to the assigned flag |
| CoordinatorProofs.InvRun | nixie-cli/src/distributed.rs:338-517 | the invariant holds in every state of every run |
| CoordinatorResults.VerdictCorrect | nixie-cli/src/distributed.rs:492-517 | under every interleaving, with time-outs, late and duplicate results, a final Sat means satisfiable and a final Unsat means unsatisfiable; Unknown only when all cubes are completed, none sat and one undecided |
| CoordinatorResults.AllDoneMeansDecided | nixie-cli/src/distributed.rs:395-418 | all_done is raised only with a stored Sat result or all cubes completed, and found_sat exactly with a stored Sat result |
| CoordinatorResults.CompletedForever | nixie-cli/src/distributed.rs:459-487 | a completed cube stays completed and is never handed out or re-queued again |
| CoordinatorResults.SingleOwner | nixie-cli/src/distributed.rs:602-665 | at most one registered worker owns an uncompleted cube, which is then marked assigned, and hand-outs minus re-queues equal that mark |
| CubeConservation.ConservedStepIff | nixie-cli/src/distributed.rs:459-697 | while the verdict is open a step loses a cube if and only if it gives up the only place from which that cube can be answered for or come back; messages of unknown peers are included |
| CubeConservation.OutstandingUntilSomebodyLeaves | nixie-cli/src/distributed.rs:459-697 | in every run in which no handler has left by a closed connection or a failure, rogue messages and time-outs included, as long as the verdict is open every uncompleted taken cube is with a live handler or in the channel, so none is lost |
| CubeConservation.NoCubeLostIff | nixie-cli/src/distributed.rs:459-697 | and in general, up to any moment of any run with an open verdict no cube was ever lost if and only if no step gave up the only place of one |
| CubeConservation.ClosedConnectionLosesCube | nixie-cli/src/distributed.rs:592-597 | one worker that only does what run_worker does, whose connection closes after it was sent a cube: the cube stays taken and no place is left for it |
| CubeConservation.FailedConnectionGivesCubeBack | nixie-cli/src/distributed.rs:459-487 | a handler that fails instead leaves the worker registered, and after the sweep the cube can be handed out again |
| TptpParser.Parser.ParseFormula | nixie-cli/src/tptp.rs:645-838 | for every input the pushdown parser returns exactly what the recursive-descent grammar returns, ends, and its stack never exceeds the limit by more than five entries |
| TptpParser.FoldOnceRight | nixie-cli/src/tptp.rs:717-838 | popping one continuation, whether it asks for another operand, finishes or fails, agrees with the grammar level it stands for |
| TptpParser.DescendRead | nixie-cli/src/tptp.rs:655-714 | reading a prefix operator, a quantifier, a parenthesis or an atom agrees with the grammar |
| TptpParser.Parser.ParseTerm | nixie-cli/src/tptp.rs:962-1016 | the explicit-stack term reader returns exactly what nested application syntax gives, or the depth error |
| TptpParser.Parser.CloseCalls | nixie-cli/src/tptp.rs:985-1015 | closing parentheses fold the open calls from the innermost outwards |
| TptpParser.Parser.ParseAtomicRelation | nixie-cli/src/tptp.rs:919-955 | an atom, an equality or an inequality, and a complex term in predicate position is read as the grammar says |
| TptpParser.Parser.ParseQuantifierVars | nixie-cli/src/tptp.rs:873-915 | a bracketed variable list with optional sorts and colon |
| TptpParser.Parser.ParseIdentifier | nixie-cli/src/tptp.rs:1029-1067 | a plain or quoted name; a missing closing quote reads to the end of the input |
| TptpLimits.LimitedParse | nixie-cli/src/tptp.rs:163-212 | the limits never change a result: a limited parse is the unlimited one or a depth error |
| TptpWalks.CollectVariables | nixie-cli/src/tptp.rs:91-107 | the stack walk adds exactly the variables of the term |
| TptpWalks.CollectFreeVariables | nixie-cli/src/tptp.rs:264-312 | for every formula the walk with its scope table adds exactly the textbook free variables outside the given bound ones |
| TptpWalks.CollectPredicates | nixie-cli/src/tptp.rs:317-338 | the table afterwards records every predicate used before or in the formula, at one of its arities |
| TptpWalks.CollectFunctions | nixie-cli/src/tptp.rs:341-365 | likewise for functions and constants |
| TptpWalks.CollectFunctionsFromTerm | nixie-cli/src/tptp.rs:368-389 | likewise for one term |
| TptpWalks.ConsistentTable | nixie-cli/src/tptp.rs:317-389 | the table holds exactly the uses if and only if no name is used at two arities |
| TptpSmt.TermToSmtlib2 | nixie-cli/src/tptp.rs:109-141 | the explicit-stack printer emits the text of the recursive printer, byte for byte |
| TptpSmt.FormulaToSmtlib2 | nixie-cli/src/tptp.rs:392-479 | likewise for formulas, including empty and one-element connectives |
| SmtSymbols.SymbolIsOne | nixie-core/src/smtlib/lexer.rs:178-383 | an atom that is a simple symbol is one symbol for the solver's lexer, and one that is a numeral is a numeral |
| SexpTokens.ReadsBackIffSymbols | nixie-cli/src/tptp.rs:109-141 | the solver's lexer finds in the printed text exactly the symbols, numerals and parentheses of the S-expression if and only if every name is a simple symbol |
| SexpTokens.TwoWordName | nixie-cli/src/tptp.rs:1035-1045 | a quoted name of two words is printed as two atoms |
| SexpTokens.PrintInjective | nixie-cli/src/tptp.rs:392-479 | different S-expressions whose names are simple symbols are never printed alike |
| FirstOrder.FormulaCoincidence | nixie-cli/src/tptp.rs:253-261 | truth depends only on the free variables and the symbols used |
| SmtMeaning.TermMeaning | nixie-cli/src/tptp.rs:109-141 | a term's S-expression denotes what the term denotes |
| SmtMeaning.FormulaMeaning | nixie-cli/src/tptp.rs:392-479 | a formula's S-expression is of sort Bool and true exactly when the formula is, in every structure |
| TptpProblem.ClosedText | nixie-cli/src/tptp.rs:490-500 | the emitted text is the universal closure over the formula's own free variables, in sorted order |
| TptpProblem.SortedNames | nixie-cli/src/tptp.rs:490-500 | the names of a set, each once, in order |
| TptpProblem.CollectSymbols | nixie-cli/src/tptp.rs:1222-1238 | the tables and the Skolem names cover exactly the statements' symbols and the goals' free variables |
| TptpProblem.EmitDeclarations | nixie-cli/src/tptp.rs:1254-1287 | every used name is declared once, at an arity it is used at, whatever order the table is iterated in |
| TptpProblem.AssertionText | nixie-cli/src/tptp.rs:1293-1330 | the emitted lines print the formula negated without being closed for a conjecture, as it is for a negated conjecture, closed otherwise, after a comment with name and role |
| TptpProblem.ToSmtlib2 | nixie-cli/src/tptp.rs:1219-1342 | the emitted text is the printed form of a script of the problem: comments, declarations, then one assertion per statement in order; what the solver reads in it is TptpReading.TextReadsBackIff |
| TptpText.ScriptIsPieces | nixie-cli/src/tptp.rs:1219-1342 | that text is a list of comments, commands and blank lines, one after the other |
| SmtPieces.PiecesReadBackIff | nixie-core/src/smtlib/parser/commands.rs:413-441 | such a text has the solver's tokens of its pieces if and only if every comment is one line and every name a simple symbol, and then the solver reads the commands among them one for one |
| TptpReading.FormulaPlain | nixie-cli/src/tptp.rs:392-479 | the names in the S-expression of a formula are simple symbols exactly when those of the formula are |
| TptpReading.PlainScriptIff | nixie-cli/src/tptp.rs:1219-1342 | the whole script is readable exactly when comments and statement names of the problem are single lines and its names simple symbols |
| TptpReading.TextReadsBackIff | nixie-cli/src/tptp.rs:1240-1342 | the solver's lexer finds in the emitted text the tokens that were meant if and only if the problem is plain: comments and statement names of one line, names that are simple symbols; and then the solver reads exactly the commands that were meant |
| TptpReading.CommentInjects | nixie-cli/src/tptp.rs:1087-1103 | with a first comment of two lines, the second being (assert false), the solver reads that assertion and the text has no model, whatever the rest of the problem and the solver's theories are |
| TptpMeaning.ClosureMeaning | nixie-cli/src/tptp.rs:490-500 | the emitted closure is true exactly when the formula holds under all assignments |
| TptpMeaning.ScriptModelIsCounterModel | nixie-cli/src/tptp.rs:1219-1342 | an interpretation satisfying the assertions satisfies the closed axioms and falsifies the closed conjecture |
| TptpMeaning.CounterModelIsScriptModel | nixie-cli/src/tptp.rs:1219-1342 | conversely, naming witnesses for the conjecture's free variables turns a counter-model into one of the script |
| TptpMeaning.FreelyInterpretedIff | nixie-core/src/smtlib/parser/build.rs:35-97 | whatever the solver's theories are, every use of a set of names means what its declaration leaves open, if and only if none of them is an operator or constant the solver looks up before declared names |
| TptpMeaning.ScriptUntouched | nixie-core/src/smtlib/parser/terms.rs:1153-1323 | for a problem without such names the assertions are true with the theories in force exactly when they are without |
| TptpMeaning.TranslationPreservesMeaning | nixie-cli/src/tptp.rs:1219-1342 | over every domain and whatever the solver's theories are, the assertions of a problem whose names have one role each and are not claimed by the solver are satisfiable exactly when the closed axioms with the negated closed conjecture are |
| TptpReading.TextMeansScript | nixie-cli/src/tptp.rs:1240-1342 | for a plain problem, claimed names included, the commands read in the text are satisfiable under the solver's theories exactly when the script is |
| TptpReading.TextPreservesMeaning | nixie-cli/src/processor.rs:540-552 | over every domain and whatever the solver's theories are, the text handed to it for a plain problem without claimed names is satisfiable exactly when the closed axioms with the negated closed conjecture are |
| TptpSorts.AllUsesDeclaredIffConsistent | nixie-cli/src/tptp.rs:1222-1287 | all uses of all symbols are declared if and only if no name has two arities |
| TptpSorts.TwoAritiesNotSorted | nixie-cli/src/tptp.rs:1254-1287 | an axiom that uses one name at two arities is not well sorted under either declaration |
| TptpSorts.WellSortedIff | nixie-cli/src/tptp.rs:1293-1330 | every symbol of every assertion is declared with its arity and every variable bound or a declared constant, if and only if the problem uses no function and no predicate at two arities |
| TptpSorts.WellSortedTextIff | nixie-cli/src/tptp.rs:1240-1342 | and the same of the commands the solver reads in the text of a plain problem |
| TptpStatus.RefutableIffNotEntailed | nixie-cli/src/tptp.rs:1393-1415 | a counter-model exists exactly when the axioms do not entail the conjecture |
| TptpStatus.StatusIsRight | nixie-cli/src/tptp.rs:1393-1415 | for a plain problem with names of one role and arity that the solver does not claim, and an answer that is right about its text if the text is well sorted: Theorem means entailed, CounterSatisfiable means not entailed, and a problem with a conjecture never gets the other two statuses |
| TptpStatus.CommentMakesTheorem | nixie-cli/src/tptp.rs:1240-1250 | with the injecting comment a right answer about the text reports $false as a theorem, which is not entailed; its names have one role and are not claimed, so it is plainness that fails |
| TptpClaimed.ArraysMakeTheorem | nixie-core/src/smtlib/parser/build.rs:35-97 | the conjecture select(store(a,i,v),i) = v is plain with names of one role each and not entailed, but under every theory of arrays its text has no model, and Theorem is reported |
| TptpClaimed.ConstantsMakeTheorem | nixie-core/src/smtlib/parser/terms.rs:1153-1323 | for two names the solver takes for different constants of its own, bound variables of these names are taken for the constants, and the refutable ![x,y]: x != y is reported as a theorem |
| TptpClaimed.RoundingModes | nixie-core/src/smtlib/parser/terms.rs:1153-1323 | RNE and RNA are two such names |
| TptpClaimed.NumberNotDeclared | nixie-core/src/smtlib/parser/commands.rs:96-110 | in the declaration of a constant that is a number, as in p(1), the solver's lexer finds a numeral where the parser asks for a symbol; such a problem is not plain and its text not read as meant |
| ModelSpace.EnumerableDomainSize | nixie-cli/src/model_counter.rs:641-658 | a number is returned exactly when all sorts are Bool or BitVec and the product fits 128 bits, and is then the product of the domain sizes |
| ModelSpace.AssignmentsCount | nixie-cli/src/model_counter.rs:641-658 | that product is the number of assignments to the declared constants |
| ModelSpace.AssignmentsMember | nixie-cli/src/model_counter.rs:641-658 | the counted assignments are all well-sorted ones |
| ModelCounter.BuildEqualities | nixie-cli/src/model_counter.rs:585-613 | either every constant of the model is spelled out or the blocking is given up |
| ModelCounter.SeparateOne | nixie-cli/src/model_counter.rs:585-630 | after blocking one model, models are either found or still allowed, never both |
| ModelCounter.EnumerateModelsBounded | nixie-cli/src/model_counter.rs:490-633 | on every exit the count is that of pairwise different models and at most the cap; exhaustion, including the finite-domain stop, means these are all models |
| ModelCounter.EnumerationHonest | nixie-cli/src/model_counter.rs:664-753 | whatever the exit, the reported lower bound is one, and a result marked exact is the exact count |
| ModelCounter.CountExact | nixie-cli/src/model_counter.rs:241-266 | the count reported is honest in that sense and the assertion stack is as before |
| ModelCounter.CountApproximate | nixie-cli/src/model_counter.rs:278-340 | every route that does not estimate is honest in the same sense and restores the stack |
| ModelCounter.BlockedModels | nixie-cli/src/main.rs:1383-1420 | the remaining models are those extending none of the blocked partial assignments |
| ModelCounter.BlockAndSearch | nixie-cli/src/main.rs:1366-1443 | the loop counts distinct models, at most the cap, and stops as complete only when the blocked assignments cover all models |
| ModelCounter.EnumerateAdditionalModels | nixie-cli/src/main.rs:1326-1458 | the number found never exceeds the number of models; complete means every model extends some blocked partial assignment, and the number is then exact if and only if each of these fits one model that was left, as it is when all of them name every constant; the assertions are restored |
| ModelCounter.ExactIffFitsOne | nixie-cli/src/main.rs:1383-1432 | when the blocks cover all models, their number is the number of models if and only if each fits one model not covered before |
| ModelCounter.ExactIfFull | nixie-cli/src/main.rs:1383-1432 | when every block gives every declared constant a value and the blocks cover all models, their number is the number of models |
| ModelCounter.PinnedFullIff | nixie-cli/src/main.rs:1383-1420 | a block does so exactly when every value of the printed model could be rebuilt |
| ModelCounter.PartialBlockUndercounts | nixie-cli/src/main.rs:1426-1432 | a script with two models on which one partial block covers both and one model is reported as the total |
| Parity.RandomParityTerm | nixie-cli/src/model_counter.rs:829-838 | the XOR chain means: the number of selected true variables is odd exactly if the target says so; no term exactly when nothing is selected |
| Parity.HalfMeet | nixie-cli/src/model_counter.rs:347-390 | over n variables exactly 2^(n-1) assignments satisfy any nonempty parity constraint |
| ProofChecker.Proof.AddStep | nixie-cli/src/proof_checker.rs:50-58 | the steps grow by one; roots and the last empty clause are those of the list |
| ProofChecker.Proof.VerifyResolution | nixie-cli/src/proof_checker.rs:116-163 | accepted exactly when some pivot makes the clause the resolvent of its two parents |
| ProofChecker.Proof.Verify | nixie-cli/src/proof_checker.rs:66-113 | a proof is accepted exactly when all parents exist and every step meets its rule |
| ProofChecker.ResolventFollows | nixie-cli/src/proof_checker.rs:116-163 | a resolvent is true wherever both parents are, when the pivot's negation is another literal |
| ProofChecker.Sound | nixie-cli/src/proof_checker.rs:66-226 | in an accepted proof with unique ids, acyclic parents in any order of listing, literals that have negations, and no derived step but by resolution, factoring or subsumption, every clause follows from the roots reachable from it |
| ProofChecker.EarlierParentsAcyclic | nixie-cli/src/proof_checker.rs:50-58 | a proof whose parents are listed before their children is acyclic |
| ProofChecker.Proof.ExtractUnsatCore | nixie-cli/src/proof_checker.rs:257-282 | the worklist returns exactly the roots reachable from the last empty clause and ends even on cyclic parents |
| ProofChecker.CoreUnsatisfiable | nixie-cli/src/proof_checker.rs:257-282 | the extracted core of such a proof with an empty clause has no model |
| ProofChecker.SelfSupportAccepted | nixie-cli/src/proof_checker.rs:66-113 | a step that is its own parent is accepted and concludes the empty clause from no roots; its parents are not acyclic |
| ProofChecker.LeastLiteralUnsound | nixie-cli/src/proof_checker.rs:130-150 | with the least 32-bit literal a resolvent need not follow, so the literal condition is needed |
| ProofChecker.DuplicateIdUnsound | nixie-cli/src/proof_checker.rs:50-58 | a proof that uses an id twice is accepted with an empty clause whose reachable roots a valuation makes true, and meets every other condition, so unique ids are needed |
| ProofChecker.UnknownRuleUnsound | nixie-cli/src/proof_checker.rs:66-113 | an unknown rule derives the empty clause from a clause that a valuation makes true, so the rules must be restricted |
| ProofChecker.TautologyUnsound | nixie-cli/src/proof_checker.rs:228-254 | the rule tautology derives the empty clause from a clause that every valuation makes true, so it is excluded as well |
| RustText.ParseFormatInt | nixie-cli/src/dimacs.rs:102-108 | a printed 32-bit integer is parsed as itself |
| RustText.ParseFormatNat | nixie-cli/src/dimacs.rs:82-88 | likewise for counts |
| Dimacs.ParseDimacs | nixie-cli/src/dimacs.rs:50-146 | the line loop and the clause loop together return the specified problem or the first error |
| Dimacs.ParseQDimacs | nixie-cli/src/dimacs.rs:326-466 | likewise with quantifier lines |
| Dimacs.WriteDimacs | nixie-cli/src/dimacs.rs:150-170 | comments, the problem line and one line per clause |
| Dimacs.WriteQDimacs | nixie-cli/src/dimacs.rs:470-509 | likewise with one line per quantifier block |
| DimacsText.LinesUnlines | nixie-cli/src/dimacs.rs:57-63 | single lines written one after the other are split off again unchanged |
| DimacsRoundTrip.AcceptedIff | nixie-cli/src/dimacs.rs:112-145 | a problem is accepted exactly when its clauses, each ended by a zero, spell the literal stream, over declared variables and as many as announced; empty clauses included |
| DimacsRoundTrip.LineBreaksIrrelevant | nixie-cli/src/dimacs.rs:93-110 | lines of literals with the same stream can replace each other anywhere without changing the result |
| DimacsRoundTrip.RoundTripIff | nixie-cli/src/dimacs.rs:150-170 | for every problem, parsing what was written gives it back exactly if comments are trimmed single lines and literals and quantified variables are declared |
| DimacsRoundTrip.ParsedIsClean | nixie-cli/src/dimacs.rs:50-146 | whatever is parsed has trimmed comments, declared nonzero literals and machine-size numbers |
| DimacsRoundTrip.ParsedDimacsRoundTrips | nixie-cli/src/dimacs.rs:150-170 | any DIMACS text that parses can be written and parsed to the same problem |
| DimacsRoundTrip.ParsedQDimacsRoundTripsIff | nixie-cli/src/dimacs.rs:326-509 | for QDIMACS exactly when no later problem line undercuts a quantified variable |
| DimacsRoundTrip.LoweredProblemLine | nixie-cli/src/dimacs.rs:326-466 | a text with a quantified variable and a later, smaller problem line is accepted, and what is written for it is not read back |
| DimacsRoundTrip.SmallestLowered | nixie-cli/src/dimacs.rs:326-466 | the smallest such text |
| DimacsSmt.ToSmtlib2 | nixie-cli/src/dimacs.rs:173-215 | the text is the logic, one declaration per variable and the printed S-expression of every clause |
| DimacsSmt.QToSmtlib2 | nixie-cli/src/dimacs.rs:512-556 | the text asserts the one S-expression in which the blocks wrap the matrix, first block outermost |
| DimacsSmt.MatrixText | nixie-cli/src/dimacs.rs:559-598 | no clause, one clause and many clauses each print as their S-expression |
| DimacsMeaning.ClauseMeaning | nixie-cli/src/dimacs.rs:186-210 | a clause's S-expression is true exactly when the clause is |
| DimacsMeaning.ScriptSatisfiableIff | nixie-cli/src/dimacs.rs:173-215 | the assertions are satisfiable exactly when the CNF is, the least 32-bit literal included |
| DimacsMeaning.LiteralDeclaredIff | nixie-cli/src/dimacs.rs:190-206 | every literal of an accepted problem names a declared constant except the least 32-bit integer |
| DimacsMeaning.QbfMeaning | nixie-cli/src/dimacs.rs:534-552 | the nested S-expression is true exactly when the quantified formula is, under matching values of the free variables |
| DimacsMeaning.QbfAgrees | nixie-cli/src/dimacs.rs:534-552 | only the values of unquantified variables matter |
| DimacsMeaning.QScriptSatisfiableIff | nixie-cli/src/dimacs.rs:512-556 | the script is satisfiable exactly when the formula with its unlisted variables existential outermost is true |
| DimacsReading.CnfTextSatisfiableIff | nixie-cli/src/dimacs.rs:173-215 | the solver reads in the emitted text the commands that were meant, and they are satisfiable exactly when the CNF is |
| DimacsReading.QCnfTextSatisfiableIff | nixie-cli/src/dimacs.rs:512-556 | the emitted text has the tokens that were meant if and only if every comment is one line, and is then satisfiable exactly when the quantified formula is true |
| DimacsReading.ParsedScriptReads | nixie-cli/src/dimacs.rs:326-466 | as the text of every problem that was parsed has |
| DimacsSat.SatSatisfiableIff | nixie-cli/src/processor.rs:695-724 | the clauses given to the SAT core, with variable i as i-1, are satisfiable exactly when the CNF is |
| DimacsSat.EmptyClauseUnsatisfiable | nixie-cli/src/dimacs.rs:186-191 | an empty clause makes the problem and its script unsatisfiable |
| DimacsSat.FastPath | nixie-cli/src/processor.rs:686-731 | the verdict is right for the CNF, unsat whenever some clause is empty, and unknown only if the core gave up |
| DimacsSat.RoutesAgree | nixie-cli/src/processor.rs:666-731 | the fast path and the SMT-LIB route agree unless one of them gave up |
| CoreMin.CheckSubset | nixie-cli/src/core_min.rs:34-40 | afterwards the context holds exactly the subset and the answer is the oracle's for it |
| CoreMin.MinimizeCore | nixie-cli/src/core_min.rs:52-112 | whatever the budget or Unknown answers do the core is an unsatisfiable subsequence of the input and the context holds it; with a decisive oracle and no budget stop no assertion of it can be dropped |
| Portfolio.TopLevelForms | nixie-cli/src/portfolio.rs:114-141 | the scanning loop returns the forms of the specification |
| Portfolio.FormsAreForms | nixie-cli/src/portfolio.rs:114-141 | whatever the script, every form split off is opened by its first and closed only by its last character |
| Portfolio.JoinedSplits | nixie-cli/src/portfolio.rs:191-205 | forms written one per line are split off again unchanged |
| Portfolio.Generator.Next | nixie-cli/src/portfolio.rs:99-104 | the generator never reaches the state zero, where it would stay |
| Portfolio.DeterministicShuffle | nixie-cli/src/portfolio.rs:94-109 | in place, a permutation that depends on the seed alone |
| Portfolio.Reverse | nixie-cli/src/portfolio.rs:72-75 | in place, the mirror image |
| Portfolio.SortByLength | nixie-cli/src/portfolio.rs:76-83 | in place, a permutation sorted by byte length in which strings of equal length keep their order |
| Portfolio.ApplyOrdering | nixie-cli/src/portfolio.rs:69-89 | each ordering permutes the assertions as its name says |
| Portfolio.DiversifyScript | nixie-cli/src/portfolio.rs:169-206 | the output is the other forms unchanged in order with the assertions permuted as asked, together where the first one stood, and splitting it gives these forms again; what the solver reads in it is PortfolioSolver.DiversifiedReads |
| PortfolioReading.FormsAreCut | nixie-cli/src/portfolio.rs:114-141 | the forms are exactly the texts between the places where the count of all parentheses leaves and reaches zero |
| PortfolioReading.CutWhereReadIff | nixie-cli/src/portfolio.rs:114-141 | the script is cut exactly where its commands stand for the lexer if and only if it is quiet: parentheses in comments, literals and quoted symbols are balanced where a command begins or ends and complete no pair outside commands |
| PortfolioReading.QuietFormsAreCommands | nixie-cli/src/portfolio.rs:114-141 | in a quiet script that the solver accepts the forms are, one for one, the commands it reads |
| PortfolioReading.NothingHiddenIsQuiet | nixie-cli/src/portfolio.rs:114-141 | a script without parentheses in comments, literals and quoted symbols is quiet |
| PortfolioReading.BalancedCommentQuiet | nixie-cli/src/portfolio.rs:114-141 | a command whose comment holds one pair of parentheses is quiet, although something is hidden in it |
| PortfolioReading.JoinedRead | nixie-cli/src/portfolio.rs:191-205 | commands written one a line are read one by one |
| PortfolioMeaning.ReorderedRunsAlike | nixie-cli/src/portfolio.rs:160-206 | where assertions pass only assertions, every solver for which conjunction commutes gives the same answers and ends in the same state |
| PortfolioMeaning.ReorderingSafeIffUnbroken | nixie-cli/src/portfolio.rs:160-206 | commands see the same number of assertions after any reordering if and only if no command stands between two assertions that are moved |
| PortfolioSolver.AssertFormIsRead | nixie-cli/src/portfolio.rs:144-158 | every form the portfolio takes for an assertion is one for the solver |
| PortfolioSolver.DiversifiedReads | nixie-cli/src/portfolio.rs:169-206 | what the solver reads in a quiet script and in its diversified form, command by command |
| PortfolioSolver.DiversifiedMeansTheSame | nixie-cli/src/portfolio.rs:169-206 | for every commuting solver that reads both texts itself a quiet script with unbroken assertions runs the same diversified |
| PortfolioSolver.DiversifiedSafeIff | nixie-cli/src/portfolio.rs:169-206 | and among the quiet scripts only those with unbroken assertions do |
| PortfolioSolver.CommentedFormRevived | nixie-cli/src/portfolio.rs:114-141 | a form in a comment is dead for the solver and alive among the forms, and such a script is not quiet |
| PortfolioSolver.CommentedAssertionRevived | nixie-cli/src/portfolio.rs:114-206 | of "; (assert false)" and a check-sat the solver reads the check-sat alone, and after diversification the assertion before it |
| PortfolioSolver.CommandOvertaken | nixie-cli/src/portfolio.rs:169-206 | a command between two assertions sees one of them in the script and both after diversification |
| PortfolioRace.InvStep | nixie-cli/src/portfolio.rs:397-431 | every step of every thread keeps: at most one winner, exactly when the flag is up |
| PortfolioRace.SingleWinner | nixie-cli/src/portfolio.rs:397-455 | in every interleaving at most one result is sent, it is that strategy's own answer, and it is the one returned |
| PortfolioRace.FailureMeansAllFailed | nixie-cli/src/portfolio.rs:441-455 | when the channel closes empty, every strategy failed; a thread that bailed out or lost leaves a winner whose message arrives |
| FormatTokens.FormatSmtlibScript | nixie-cli/src/format.rs:254-343 | for every script and indent width the output has the input's tokens if and only if no literal is glued to another, no text distorted and none left open with blanks at the end |
| FormatTokens.TokensKeptIff | nixie-cli/src/format.rs:254-343 | that condition, stated on the script and the width, quoted symbols and unterminated texts included |
| FormatGlue.TokensLost | nixie-cli/src/format.rs:254-343 | without quoted symbols reformatting loses one token per glued literal and no other |
| FormatGlue.UnquotedKeptIff | nixie-cli/src/format.rs:254-343 | without quoted symbols exactly the scripts without glued literals keep their tokens, at every width |
| FormatGlue.TwoLiteralsGlued | nixie-cli/src/format.rs:279-286 | two literals and a blank at the start of a line become one literal |
| FormatGlue.SymbolDistorted | nixie-cli/src/format.rs:287-340 | the second line of a quoted symbol is indented anew, which makes it another symbol |
| Cache.ResultCache.FindLruEntry | nixie-cli/src/cache.rs:124-130 | some entry with the least access time, none only when the memory is empty |
| Cache.ResultCache.InsertWithLruEviction | nixie-cli/src/cache.rs:113-121 | a full memory loses exactly one oldest entry before the new one goes in, so the limit holds |
| Cache.ResultCache.GetEntry | nixie-cli/src/cache.rs:81-110 | a get answers from either level, re-stamps the entry in memory and changes no answer |
| Cache.ResultCache.PutEntry | nixie-cli/src/cache.rs:133-158 | the entry goes into memory under the size limit, and into the store exactly if the store takes it |
| Cache.ResultCache.ClearAll | nixie-cli/src/cache.rs:161-168 | both levels are empty |
| Cache.Perform | nixie-cli/src/cache.rs:81-168 | one call is a step of the two-level contents, keeps the memory within its limit, and a get answers what the contents say |
| Cache.Replay | nixie-cli/src/cache.rs:81-168 | any calls on a cache started over any store, with collision-free hashes: every get answers its input's latest put since the last clear as long as no write is refused, and in general that put while it is in memory and else the latest one that reached the store |
| Cache.GetAnswers | nixie-cli/src/cache.rs:81-110 | after any history, refused writes and evictions included, a get answers the latest put while it has stayed in memory and otherwise the latest stored put |
| Cache.RightFromHereOnIff | nixie-cli/src/cache.rs:81-168 | all later gets answer the latest put, whatever is called in between with writes that succeed, if and only if its answer is the one the store was last given |
| Cache.RefusedPut | nixie-cli/src/cache.rs:133-158 | a stored latest put meets that condition, and a refused one leaves the store as the put before it did |
| Cache.AlwaysBounded | nixie-cli/src/cache.rs:113-121 | in every history the memory stays within its limit, or holds one entry if that is zero |
| Cache.StaleAfterFailedWrite | nixie-cli/src/cache.rs:133-158 | a history with one failed write after which a get returns the older answer |

## Left out

- Sockets, JSON, clocks, sleeping, file systems, process supervision, logging and console output:
  time-outs are nondeterministic steps, the disk is a map, elapsed budgets are parameters.
- The SAT/SMT engine, `TermManager` and `Context` internals: an oracle that may say Unknown stands for them.
- Cubes.GenerateCubes: the floating-point log2 is an integer ceiling logarithm, and the overflow of the
  shift for more than 2^63 cubes is not modelled.
- Coordinator steps are finer than the locks in one place: the sweep holds the worker table while it
  re-queues, the model lets other threads act in between, so it has more runs than the program.
- The aggregator raises all_done and drops its receiver in one step; heartbeat times are not recorded
  because any registered worker may time out at any moment.
- Liveness of the coordinator: nothing is said about runs ending, since a closed connection can strand a cube.
- Character classes of TPTP names (`is_alphanumeric`, `is_uppercase`) are parameters; the texts of error
  messages are replaced by error constructors.
- TPTP statements, comments, annotations, includes and the problem loop (`parse_problem`,
  `parse_statement`): they add no branching to the formula parser. A bound on the depth of the tree:
  left-nested equivalences grow it without growing the stack.
- Several conjectures in one problem, and free variables in a negated conjecture: shared variable names
  would share one Skolem constant.
- ModelCounter.CountApproximate: says nothing about the hashing estimate, which reports 2^n on one exit
  without having established it, nor about confidence values.
- ModelCounter.EnumerateAdditionalModels: says nothing about the model printed first, which is shown before
  the check inside the push; parsing of printed values is an input of the enumeration.
- ProofChecker.Sound: does not cover tautology steps, unknown rules and literals equal to the least 32-bit
  integer, for which it fails as the lemmas on unsound proofs show; the reader of the textual proof format
  is not part of this model.
- Cache.Replay: hash collisions, torn or unreadable files in the store and a clear that fails are excluded.
- SmtLexer: escapes inside literals and the lexical errors they raise are not modelled.
- SmtSymbols: which characters beyond ASCII count as letters or digits
  (`is_alphanumeric`) is a parameter.
- The solver's limit on the nesting of terms it reads, and what its theories say: they are an arbitrary
  structure that overrides the declared meaning of the names the solver claims.
- TptpStatus.StatusIsRight: says nothing about answers to scripts that are not well sorted, nor about
  problems with claimed names; TptpClaimed has what can go wrong there.
- PortfolioSolver.DiversifiedMeansTheSame: says nothing about scripts the solver rejects as a whole, with
  something other than commands at the top level or a command left open.
- Portfolio.TopLevelForms: the 32-bit depth counter is an unbounded integer.
- Portfolio.SortByLength: the library's stable sort is an insertion sort here; both give the one stable order.
- FormatGlue.TokensLost: excludes scripts with quoted symbols, whose contents the formatter does not
  recognise; FormatTokens.TokensKeptIff covers them.
- FormatGlue.UnquotedKeptIff: excludes scripts with quoted symbols; FormatTokens.TokensKeptIff covers them.
- PortfolioRace.SingleWinner: the solver configurations and the time recorded with a result are not modelled.
- Dimacs.ParseDimacs: reading errors of the underlying file and the assignment and model printers are left out.
- DimacsMeaning.QScriptSatisfiableIff: a block without variables is read as quantifying nothing, although
  SMT-LIB asks for at least one variable.
- In debug builds negating the least 32-bit integer stops the program; the wrap-around of release builds
  is modelled.
- Learning, dependency analysis, diagnostics, the language server, the REST server, dashboards, reports and
  benchmark scripts: sorting, truncation and map bookkeeping that would only add easy members.
