# Maelys Datalog, modelled and proved

A Dafny model of the parts of Maelys Datalog that decide something, with proofs of what they are
for. `dafny verify dfyconfig.toml` checks the whole project.

**The engine.** `Datalog` holds the compiled form of a policy, matching and comparisons. `Strata`
is the relaxation that gives every predicate a stratum. `Safety` is rule validation and the join
planner. `Semantics` says what a policy means, in two ways that are proved to agree: a perfect model
built stratum by stratum, and the stable model, a notion without strata. `Evaluation`, `SemiNaive`,
`Aggregates`, `IntroSort` and `Solver` are the join, the delta windows, the aggregates, the in-place
sort and the workspace. `Refusals` says when a literal without a verdict cannot be got past.
`Fixpoint` runs the rounds. Its main result, `Fixpoint.Solve`, is that every
success is the one stable model of the policy over its inputs, and that every refusal is deserved.
`Guards` carries comparisons and arithmetic from the integers to the result of a solve.
`Quota` puts a concrete policy and the ledger it guards on top of that, and `Chains` says how deep a
derivation may go.

**Input transactions.** `DeltaStage` converts and merges changes in a sorted array under a capacity.
`DeltaBackend` is the projection provider with its pending and committed hash. `DeltaBank` is a bank:
stage, solve, then commit or reject bank and provider together. `DeltaRuns` speaks of all runs of a
bank, `DeltaTrace` of the caller that turns moves of positions into changes. `Registry` is the table
of predicates. `DeltaProjection` says which policies the provider accepts and that what it emits is
what they mean, and `DeltaEngine` that provider and native engine agree on every input. `DeltaDriver`
feeds two banks from a journal of two changes for a trace of any length and compares them with the
native engine at every step.

**Text and bytes.** `Abnf` and `AbnfLexer` are the grammar checker of the specification, `AbnfTokens` its
tokens character by character, `Utf8` the recogniser, `Sha256` the streaming hash, `Sha256Laws` its
functions and constants by what they are for, `Sha256Vector` a published digest, `Decimal` the number
printer.

**Measurement.** `Lanes` spreads benchmark facts over predicates, `Telemetry` records requests,
`Report` reads cost profiles. `FactOrder` and `Arithmetic` are shared.

The model follows the code where the code and a wish for it differ:

- Chains.ChainOutcome: the plain path has to see an empty round within its rounds, the stratified path
  also accepts one after the last. The same chain of ten rules is refused alone and solved beside a
  guard that derives nothing.
- DeltaRuns.SnapshotFallsOutOfStep: a snapshot transaction moves generation and position on without
  retaining its facts. `DeltaRuns.LastSuccessDecides` says, over every run, exactly when the bank retains
  what the provider last solved.
- Lanes.StepsMeet: steps of thirteen visit a place twice exactly when thirteen divides the number of
  entries.

Two things look as if they could go wrong and cannot. The provider selects inputs by name alone, which
is the meaning of the policy if and only if no input has that name at another arity; the registry takes
a name at one arity only, so this always holds (`DeltaProjection.RegistryEmission`). A batch may come
back to a position it has moved; the caller goes straight to the key that the position ends with, so
the change is exact for batches of every size (`DeltaTrace.BatchExact`).

## Model

| member | source | states |
|---|---|---|
| `Datalog.MatchFactExact` | src/core/maelys_datalog_solver.c:581-616 | Matching a candidate finds exactly the bindings that ground the atom to it, and the least such extension |
| `Datalog.EvalComparisonExtends` | src/core/maelys_datalog_solver.c:846-1071 | Once a comparison's variables are bound, its outcome (yes, no or fatal) no longer depends on later bindings |
| `Guards.EvaluatesExactly` | src/core/maelys_datalog_solver.c:920-996 | Arithmetic gives the value over the unbounded integers, or none exactly if a variable is no integer or an intermediate result leaves 64 bits |
| `Guards.GuardMeans` | src/core/maelys_datalog_solver.c:868-918 | A comparison is fatal exactly if its values cannot be compared, and otherwise holds exactly if the integers stand in the relation, or the values are equal or not |
| `Guards.GuardedModel` | src/core/maelys_datalog_solver.c:998-1060 | For every guard over any expressions the stable model of a guarded rule holds exactly the inputs for which the guard is true |
| `Guards.SolveGuarded` | src/core/maelys_datalog_solver.c:3035-3320 | The engine lists exactly what the guard lets through, and refuses if it cannot be decided for some input; where it can be decided for every input (a guard of constants: at all), the engine succeeds |
| `Strata.AssignStrata` | src/compiler/maelys_datalog_validate.c:187-272 | The strata found are a stratification and the least one; a cycle is reported if and only if one through negation or an aggregate exists, and the predicate named lies on it; too deep means every stratification needs that many levels |
| `Strata.LastRaisedLeadsToCycle` | src/compiler/maelys_datalog_validate.c:198-254 | Following predecessors from a predicate raised in the extra pass ends on a cycle that admits no stratification |
| `Strata.BadCycleRefutes` | src/compiler/maelys_datalog_validate.c:243-254 | A cycle through a negation or an aggregate rules out every stratification |
| `Safety.ValidateRule` | src/compiler/maelys_datalog_validate.c:50-185 | The clause checks accept a rule if and only if it is safe: everything read is bound and aggregates keep their private variables |
| `Safety.NeverStuck` | src/core/maelys_datalog_solver.c:1463-1501 | For a safe rule, whatever has been planned, some remaining literal can be planned next |
| `Safety.PlanJoin` | src/core/maelys_datalog_solver.c:1503-1657 | The planner always produces a permutation in which each literal finds its variables bound, with the delta literal first and each choice the best by score |
| `Safety.ScoreGrows` | src/core/maelys_datalog_solver.c:1503-1533 | A score is a hundred for an atom, fifty less if derived, twenty for each bound variable and ten for each constant |
| `Safety.AtomsFirst` | src/core/maelys_datalog_solver.c:1503-1533 | Every atom scores above every guard |
| `Semantics.PerfectIsStable` | src/core/maelys_datalog_solver.c:2758-3033 | The model built stratum by stratum is stable: the least interpretation closed under the rules with negation and aggregates read in itself |
| `Semantics.StableIsPerfect` | src/core/maelys_datalog_solver.c:2758-3033 | There is no other stable model, so the result does not depend on the stratification chosen |
| `Aggregates.FactsOrder` | src/core/maelys_datalog_edb.c:26-63 | The fact comparison is a total order: irreflexive, transitive and connected |
| `FactOrder.FirstDifferenceDecides` | src/core/maelys_datalog_edb.c:26-63 | Facts go by predicate, then length, then the first value that differs |
| `FactOrder.ValuesAscend` | src/core/maelys_datalog_edb.c:26-63 | Symbols come before integers and these before booleans, and each kind ascends |
| `FactOrder.Position` | src/core/maelys_datalog_edb.c:108-131 | Binary search finds the first fact not below the one sought, and the fact itself if and only if it is present |
| `FactOrder.SortFacts` | src/core/maelys_datalog_solver.c:543-556 | Insertion by swapping sorts a stratum strictly and keeps its facts |
| `IntroSort.Sort` | src/core/maelys_datalog_sort_internal.h:59-81 | For every total order the array comes out ordered, is a rearrangement, and nothing beyond the given length moves, also when an ordered tail is left in place; the calls open at once are at most the logarithm of the length |
| `IntroSort.Partition` | src/core/maelys_datalog_sort_internal.h:31-58 | Median of three, two-way partition, depth budget and recursion on the shorter part order a stretch and move nothing outside it, with at most logarithmically many calls open at once |
| `IntroSort.Split` | src/core/maelys_datalog_sort_internal.h:39-46 | The scans stay in bounds, both parts are shorter than the whole, and no element of the front is above one of the back |
| `IntroSort.HeapSort` | src/core/maelys_datalog_sort_internal.h:25-30 | The fallback orders a stretch and rearranges nothing else |
| `IntroSort.Sift` | src/core/maelys_datalog_sort_internal.h:15-24 | Sinking a value restores the heap below it and permutes |
| `IntroSort.InsertOne` | src/core/maelys_datalog_sort_internal.h:53-57 | Shifting an element down extends the ordered stretch by one |
| `Aggregates.EvaluateAggregate` | src/core/maelys_datalog_solver.c:2017-2177 | Counts are of distinct projected values, sums over distinct facts, extrema are attained and bound all values, and rejection happens exactly for values or totals out of range |
| `Aggregates.RangesOver` | src/core/maelys_datalog_solver.c:1964-2106 | An aggregate ranges over exactly the facts that fill its source atom and keep to the bindings on its named variables, and takes from each the value of the projected variable |
| `Aggregates.OutcomeInNumbers` | src/core/maelys_datalog_solver.c:2095-2150 | Minimum, maximum and sum are rejected exactly if some value is no integer from 0 to 2147483647 or the sum passes that bound; otherwise a sum is the total, an extremum is attained by a fact and bounds all, and nothing has none |
| `Aggregates.TotalInNumbers` | src/core/maelys_datalog_solver.c:2136-2150 | A total adds up fact by fact |
| `Evaluation.SourceExact` | src/core/maelys_datalog_solver.c:1809-1885 | The candidates offered to a positive literal are exactly the known facts of its predicate, or exactly the newest ones for the delta literal |
| `Evaluation.FrozenExact` | src/core/maelys_datalog_solver.c:1887-1945 | The store consulted for negation and aggregates holds exactly the finished facts of the predicate |
| `Evaluation.ReachExact` | src/core/maelys_datalog_solver.c:2215-2683 | Any safe order of a body reaches exactly the bindings under which every literal holds |
| `SemiNaive.NextRound` | src/core/maelys_datalog_solver.c:2871-2995 | Applying rules with one literal in the newest facts gives exactly what the next full round adds |
| `SemiNaive.SettledIsLimit` | src/core/maelys_datalog_solver.c:2871-2995 | A round that adds nothing is the limit of all rounds |
| `Solver.BuildRanges` | src/core/maelys_datalog_solver.c:231-259 | One pass over sorted inputs gives each predicate exactly its slice |
| `Solver.Workspace.Derive` | src/core/maelys_datalog_solver.c:2487-2683 | The recursive join appends exactly the heads of the bindings reached and comes to no literal it cannot decide, or stops for a genuine overflow or an undecidable literal |
| `Refusals.BlockedIsStuck` | src/core/maelys_datalog_solver.c:2487-2683 | Where all other literals of a body hold and one has no verdict, every safe order comes to it |
| `Refusals.DeltaPassClears` | src/core/maelys_datalog_solver.c:2928-2995 | What blocks a rule for the first time has one of the newest facts in it, so the delta applications find it |
| `Solver.Workspace.FreezeAndAdvance` | src/core/maelys_datalog_solver.c:2719-2756 | Closing a stratum sorts its facts, keeps them, and makes all that is known the frozen part of the next |
| `Fixpoint.RunStratum` | src/core/maelys_datalog_solver.c:2871-3006 | The rounds of a stratum end in its limit, or report that it does not settle in time, or stop with a deserved refusal |
| `Fixpoint.SolveStratified` | src/core/maelys_datalog_solver.c:2758-3033 | All strata in turn give the perfect model within the bounds, or a correct refusal |
| `Fixpoint.SolvePlain` | src/core/maelys_datalog_solver.c:3035-3309 | The same for policies without negation and aggregates, on one stratum |
| `Fixpoint.Solve` | src/core/maelys_datalog_solver.c:3035-3320 | A success lists exactly the derived facts of the one stable model, which fits and in which no literal is without a verdict while all others of its body hold, all strata having settled in time; an overflow means no stable model fits; an undecidable literal is one in the model, under bindings given by literals that hold; a depth failure names a stratum that does not settle within the rounds, under the strata the engine itself uses; a policy is unloadable if and only if every stratification is too deep |
| `Fixpoint.OwnStrataUnique` | src/compiler/maelys_datalog_validate.c:187-272 | The strata a solve uses are determined by the policy |
| `Fixpoint.MustSolve` | src/core/maelys_datalog_solver.c:3035-3320 | When the policy loads, its model fits, no literal is undecidable and every stratum settles in time, no outcome but success is deserved |
| `Fixpoint.MustRefuse` | src/core/maelys_datalog_solver.c:3035-3320 | Where a rule of the model has a literal without a verdict while all its others hold, the solve does not succeed |
| `Chains.ChainOutcome` | src/core/maelys_datalog_solver.c:2928-3006 | A chain of rules is solved if and only if it has at most nine links, or ten beside a guard that makes the engine stratify; otherwise the depth is exceeded |
| `Quota.QuotaDecides` | examples/temporal_quota.c:14-18 | In the stable model of the policy a proposal is allowed below the limit and denied from it on, whether actions are reported by a counter or by a history that is counted |
| `Quota.PolicyLoads` | examples/temporal_quota.c:14-24 | The policy passes validation |
| `Quota.Ledger.Expire` | examples/temporal_quota.c:49-54 | Compaction in place keeps exactly the entries not yet due, in order |
| `Quota.OnlySuccess` | examples/temporal_quota.c:33-42 | With room for two derived facts the engine always decides the policy: no overflow, no undecidable literal, no missing stratum, no round too many |
| `Quota.SettlesInTime` | examples/temporal_quota.c:14-18 | Under every stratification every stratum of the policy settles within the round limit |
| `Quota.Decide` | examples/temporal_quota.c:58-61 | A solve of the policy by the engine allows a proposal if and only if fewer than two actions count |
| `Quota.Ledger.Attempt` | examples/temporal_quota.c:55-64 | An action is recorded exactly if fewer than two count and the action succeeds; otherwise nothing changes; the solve behind it never fails |
| `Quota.QuotaHolds` | examples/temporal_quota.c:47-64 | Over every interleaving with time not running backwards at most two actions count, none that counts is lost or reordered, and ids are distinct |
| `Quota.PlayOn` | examples/temporal_quota.c:47-64 | Any sequence of calls on the ledger object leaves at most two actions counting, none lost or reordered, exactly as the model run says |
| `DeltaStage.Convert` | bench/host_delta.c:42-75 | The first offending record decides the status; otherwise the result is the strictly sorted set of the facts denoted, unknown removals dropped |
| `DeltaStage.AcceptedRecords` | bench/host_delta.c:42-75 | Accepted additions all denote a fact; only a removal may name what nobody declared |
| `DeltaStage.Dedup` | src/core/maelys_datalog_edb.c:88-100 | Squeezing an ordered buffer leaves each fact once, strictly ascending |
| `DeltaStage.PoolPosition` | bench/host_delta.c:76-81 | Binary search in the pool |
| `DeltaStage.AddFact` | bench/host_delta.c:102-108 | Shifting in keeps the pool strictly sorted; refused if and only if the fact is new and the pool is at its limit |
| `DeltaStage.RemoveFact` | bench/host_delta.c:96-101 | Shifting out keeps the pool strictly sorted and takes exactly the fact |
| `DeltaStage.Merge` | bench/host_delta.c:93-109 | Replaying changes succeeds if and only if every set on the way fits; then the pool is the strictly ascending list of removals-then-additions folded over them |
| `DeltaStage.EffectMeans` | bench/host_delta.c:76-117 | What a change adds is there afterwards, even if it also removes it; what it only removes is not; nothing else changes |
| `DeltaStage.UndoneByReverse` | bench/host_delta.c:76-117 | A change is undone by its reverse if and only if it removes only what is there, and adds only what is not there or what it removes |
| `DeltaStage.CheckCounts` | src/core/maelys_datalog_edb.c:615-640 | Counting accepts exactly the sets in which no predicate exceeds its cap |
| `DeltaStage.AscendingUnique` | bench/host_delta.c:189-196 | A set has one canonical list |
| `DeltaBackend.FactHash` | bench/host_delta_backend.c:58-64 | The loops compute the hash of a fact, terminators and arity included |
| `DeltaBackend.TwosComplement` | bench/host_delta_backend.c:60-63 | Negative integers are hashed as their two's complement |
| `DeltaBackend.Output.Emit` | src/runtime/maelys_datalog_runtime.c:262-298 | A fact is taken if and only if its predicate is derived and the grown output fits; the first error sticks |
| `DeltaBackend.Backend.Solve` | bench/host_delta_backend.c:47-75 | A candidate arises if and only if the inputs are few enough, everything selected can be emitted and fits, and no fault is armed; committed state is never touched |
| `DeltaBank.Bank.Stage` | bench/host_delta.c:82-112 | Staging succeeds exactly when all entries convert, every intermediate set fits both capacities and no predicate exceeds its cap; then the pool is the resulting set; retained facts are untouched |
| `DeltaBank.Bank.Solve` | src/runtime/maelys_datalog_runtime.c:650-716 | Staging and provider together: feasible or not, what the provider was given, the derived facts in canonical order, and what its ledger becomes |
| `DeltaBank.Bank.Accept` | bench/host_delta.c:118-126 | Retains the pool of a delta transaction; generation and position move on |
| `DeltaBank.Bank.Seed` | bench/host_delta.c:165-169 | A seeded bank and its provider agree |
| `DeltaBank.Bank.Execute` | bench/host_delta.c:127-146 | Success if and only if the request is admissible, not rejected late and feasible; then facts, generation, position and provider move together; otherwise nothing changes but the provider's count of aborts, and that exactly if staging succeeded |
| `DeltaRuns.FailuresErase` | bench/host_delta.c:298-326 | Every run is, but for the count of aborts, the run of its successful calls alone: failures can be struck out anywhere |
| `DeltaRuns.RunsAreAtomic` | bench/host_delta.c:118-146 | The last state of every run is determined by its successes: facts are their replay, generation grows by one each without wrapping, positions add up, every commit but a leased one is released once |
| `DeltaRuns.SucceedsExactly` | bench/host_delta.c:127-146 | In every run a transaction succeeds exactly if it is for this bank, carries the first generation plus the successes before it and the position its own moves lead to, makes at most two moves while nothing is leased, is not rejected late, and is feasible from the facts replayed so far |
| `DeltaRuns.GenerationsDiffer` | bench/host_delta.c:131-133 | No two successes of a run carry the same generation, so a stale request never succeeds |
| `DeltaRuns.SymbolHash` | bench/host_delta_backend.c:58-64 | A symbol is hashed under its own mark, letter by letter with a terminator |
| `DeltaRuns.AbortsAreCounted` | bench/host_delta_backend.c:80-84 | Over every run the provider counts as aborted, in thirty-two bits, exactly the transactions that were staged and failed |
| `DeltaRuns.LastSuccessDecides` | bench/host_delta_backend.c:47-84 | Over every run, snapshots and deltas mixed, the committed hash is that of the facts last solved, and the bank retains those facts if and only if the last success was a delta transaction or a snapshot of the facts retained before |
| `DeltaRuns.DeltaRunsStayInStep` | bench/host_delta_backend.c:47-84 | In particular, where only delta transactions succeed, bank and provider are never apart |
| `DeltaRuns.SnapshotFallsOutOfStep` | bench/host_delta.c:118-126 | A run of one snapshot transaction from a seeded bank, over a registry and an accepted policy, after which bank and provider differ |
| `DeltaTrace.BuildTrace` | bench/host_delta.c:242-250 | The trace holds the positions of every logical step |
| `DeltaTrace.TouchedAt` | bench/host_delta.c:246-249 | Every second visit takes a position back to its first key, the others to that key of the other half |
| `DeltaTrace.PositionsAre` | bench/host_delta.c:241-250 | The key of a position at a step, in closed form from the moves made so far |
| `DeltaTrace.TermsAgree` | bench/host_delta.c:145-154 | The terms of two facts agree exactly if the keys are the same, agree modulo five or seven, and are both odd or both even |
| `DeltaTrace.NotedCovers` | bench/host_delta.c:231-235 | What one move adds to a change keeps the change equal to the live keys, up to keys it has added itself |
| `DeltaTrace.BatchExact` | bench/host_delta.c:267-273 | From any positions and for a batch of any size, also one that comes back to positions it has moved, the change noted leads exactly from the live keys before to those after |
| `DeltaTrace.Caller.Update` | bench/host_delta.c:231-235 | Counts stay the numbers of positions holding each key, and the support check never fires |
| `DeltaTrace.Caller.Turn` | bench/host_delta.c:269-273 | The loop on counts and positions notes exactly that change, and leaves the positions of the next step |
| `DeltaTrace.Caller.Snapshot` | bench/host_delta.c:224-228 | A snapshot lists exactly the live keys, each once, ascending or descending, and no more than there are positions |
| `DeltaDriver.CatchUp` | bench/host_delta.c:275-278 | One or two journal entries are feasible and lead to the live facts of their step |
| `DeltaDriver.Feed` | bench/host_delta.c:275-288 | A bank that lags by at most one step reads exactly the entries it has not applied, commits the hash of the live facts, and shows them in session, record and result |
| `DeltaDriver.OracleCheck` | bench/host_delta.c:189-223 | Hash, counts, session facts, recorded facts, enumerated results and the query all agree with a native session given the raw occurrences |
| `DeltaDriver.RunCase` | bench/host_delta.c:236-290 | For every trace length, batch size and both paths every comparison of the oracle holds at every step, the banks stand where they should, and the digest is a function of the trace alone |
| `DeltaProjection.SameText` | bench/host_delta_backend.c:44-46 | The loop decides equality of texts |
| `DeltaProjection.Prepare` | bench/host_delta_backend.c:11-39 | Accepts exactly the programs of one rule repeating three different variables, with vocabulary facts only |
| `DeltaProjection.ProjectionIsMeaning` | bench/host_delta_backend.c:11-39 | The stable model of an accepted program is the inputs, the vocabulary and a copy of every input of the body predicate |
| `DeltaProjection.EmissionIsMeaning` | bench/host_delta_backend.c:47-75 | Everything selected is emitted and what is emitted is the model's head predicate, if and only if no input has the selected name at another arity |
| `DeltaProjection.RegistryEmission` | bench/host_delta_backend.c:47-75 | Over the vocabulary of a registry that condition always holds, so an accepted provider emits what its policy means on every input |
| `DeltaProjection.SecondArityMisleads` | src/core/maelys_datalog_predicate_registry.c:46-54 | The registry's refusal of a second arity is needed: over a table without it the provider fails a solve that has a model, or emits a fact the policy does not mean |
| `Registry.Table.Add` | src/core/maelys_datalog_predicate_registry.c:36-64 | A declaration is taken if and only if it is well made, the table is open, and the name is new with room for it or registered with this arity and these roles; names stay different and numbers stay valid |
| `Registry.Table.Find` | src/core/maelys_datalog_predicate_registry.c:125-137 | The scan gives the first entry with this name and arity, or says that there is none |
| `Registry.RolesAre` | src/core/maelys_datalog_predicate_registry.c:18-34 | A predicate can be declared exactly with a name, at most four arguments and one of three roles, queried or not; the role is its kind |
| `Registry.Perform` | src/core/maelys_datalog_predicate_registry.c:36-119 | Any sequence of declarations and freezes on a table ends as the model run says, call by call |
| `Registry.FrozenForGood` | src/core/maelys_datalog_predicate_registry.c:44 | Once frozen, whatever is called, the table no longer changes and every declaration is refused, even of what it holds |
| `Registry.FoundStays` | src/core/maelys_datalog_predicate_registry.c:56-63 | A predicate once found is found under the same number after any further calls |
| `Registry.LookupExact` | src/core/maelys_datalog_predicate_registry.c:125-137 | A predicate is found by its name and its own arity and by nothing else |
| `Registry.EmitsExactly` | src/runtime/maelys_datalog_runtime.c:262-298 | Over a registry exactly the facts of a registered name and arity in the derived role can be emitted |
| `DeltaEngine.ProviderMatchesEngine` | bench/host_delta.c:207-220 | On every input a session holds and under the same limits, the native engine succeeds if and only if the provider's output fits, and both list the same facts in the same order |
| `DeltaEngine.CopiesSettle` | src/core/maelys_datalog_solver.c:3204-3290 | A projection is final after one round, also where the rule reads its own head |
| `Abnf.ValidateTokens` | tools/validate_maelys_datalog_v2_spec.py:91-150 | The loop is the automaton, and returns the names referred to |
| `Abnf.AcceptsExactlyTheGrammar` | tools/validate_maelys_datalog_v2_spec.py:91-150 | A nonempty production is accepted if and only if it derives from the elements grammar with every lower bound at most its upper bound |
| `Abnf.DerivationIsUnique` | tools/validate_maelys_datalog_v2_spec.py:91-150 | A production has at most one derivation |
| `Abnf.ReferencesAreTheLeaves` | tools/validate_maelys_datalog_v2_spec.py:141-150 | The references are the rule names at the leaves of the derivation |
| `Abnf.RepetitionsThatPass` | tools/validate_maelys_datalog_v2_spec.py:108-122 | For any two numbers: a count, either bound alone and none pass, and both exactly if the first is at most the second |
| `Abnf.RepetitionCharacters` | tools/validate_maelys_datalog_v2_spec.py:18 | What passes is digits, with at most one star |
| `AbnfLexer.Tokenize` | tools/validate_maelys_datalog_v2_spec.py:43-88 | The pass over the text gives the lexemes, and refuses unknown text and an empty production |
| `AbnfTokens.LexesExactly` | tools/validate_maelys_datalog_v2_spec.py:43-88 | The lexer gives exactly the one way to read a text as tokens of their written forms, each as long as it can be with only blanks and tabs between, and fails exactly if there is none |
| `AbnfTokens.ReadAsOne` | tools/validate_maelys_datalog_v2_spec.py:16-19 | A text that a blank or the end follows is read as one token of a kind if and only if it is of that form |
| `AbnfTokens.TakesTheLongest` | tools/validate_maelys_datalog_v2_spec.py:16-19 | Wherever some token begins one is taken, and none that begins there is longer |
| `AbnfTokens.LowerFolds` | tools/validate_maelys_datalog_v2_spec.py:141-150 | Capitals become the small letter of the same place, and nothing else changes |
| `AbnfLexer.TokensTile` | tools/validate_maelys_datalog_v2_spec.py:43-88 | Tokens lie at their columns with nothing but blanks between |
| `AbnfLexer.LexCut` | tools/validate_maelys_datalog_v2_spec.py:16-19 | A token followed by a blank or the end is read as the same token |
| `AbnfLexer.LexingRoundTrip` | tools/validate_maelys_datalog_v2_spec.py:43-88 | Values joined by single blanks are read back as the same tokens |
| `Utf8.Validate` | common/maelys_utf8.c:7-59 | Accepted if and only if the data is the encoding of Unicode scalar values (sections 3 and 4 of RFC 3629) |
| `Utf8.EncodingIsUnique` | common/maelys_utf8.c:7-59 | No data encodes two different texts |
| `Utf8.PrefixClosed` | common/maelys_utf8.c:7-59 | After a valid prefix the whole is valid if and only if the rest is |
| `Utf8.LooksTextual` | common/maelys_utf8.c:61-75 | Textual means valid, without a zero character, with at most five control characters per hundred bytes |
| `Utf8.ControlBytesAreCharacters` | common/maelys_utf8.c:66-73 | Counting control bytes counts control characters |
| `Utf8.ControlsCount` | common/maelys_utf8.c:66-73 | Controls are the codes below 32 but for 9, 10 and 13, and 127 |
| `Sha256.Schedule` | common/maelys_sha256.c:40-46 | The schedule array holds the recurrence of section 6.2.2 of FIPS 180-4 |
| `Sha256.Transform` | common/maelys_sha256.c:29-62 | The rounds on shifted variables are the compression of section 6.2.2 |
| `Sha256Laws.ChChooses` | common/maelys_sha256.c:52 | Bit by bit the first argument chooses between the other two (section 4.1.2 of FIPS 180-4) |
| `Sha256Laws.MajIsMajority` | common/maelys_sha256.c:55 | Each bit is as most of the three arguments have it |
| `Sha256Laws.RotrMoves` | common/maelys_sha256.c:6-8 | A rotation takes each bit so many places down, and round at the end |
| `Sha256Laws.RotrTurns` | common/maelys_sha256.c:6-8 | Rotating on to a full turn gives the word back |
| `Sha256Laws.BigSigmaMoves` | common/maelys_sha256.c:51-54 | Which three bits each of the two large mixing functions adds up |
| `Sha256Laws.SmallSigmaMoves` | common/maelys_sha256.c:42-43 | The same for the two small ones, with the bits a shift drops |
| `Sha256Laws.InitialIsSquareRoots` | common/maelys_sha256.c:64-73 | The initial hash is the first 32 bits of the fractions of the square roots of the first eight primes (section 5.3.3) |
| `Sha256Laws.Constants0` | common/maelys_sha256.c:30-39 | Round constants 0 to 15, in numbers |
| `Sha256Laws.CubeRoots0` | common/maelys_sha256.c:30-39 | These numbers are the first 32 bits of the fractions of the cube roots of sixteen primes in turn (section 4.2.2) |
| `Sha256Laws.Constants1` | common/maelys_sha256.c:30-39 | Round constants 16 to 31, in numbers |
| `Sha256Laws.CubeRoots1` | common/maelys_sha256.c:30-39 | These numbers are the first 32 bits of the fractions of the cube roots of sixteen primes in turn (section 4.2.2) |
| `Sha256Laws.Constants2` | common/maelys_sha256.c:30-39 | Round constants 32 to 47, in numbers |
| `Sha256Laws.CubeRoots2` | common/maelys_sha256.c:30-39 | These numbers are the first 32 bits of the fractions of the cube roots of sixteen primes in turn (section 4.2.2) |
| `Sha256Laws.Constants3` | common/maelys_sha256.c:30-39 | Round constants 48 to 63, in numbers |
| `Sha256Laws.CubeRoots3` | common/maelys_sha256.c:30-39 | These numbers are the first 32 bits of the fractions of the cube roots of sixteen primes in turn (section 4.2.2) |
| `Sha256.GapIsLeast` | common/maelys_sha256.c:91-101 | The padding is the least that section 5.1.1 allows |
| `Sha256.StoreBe64` | common/maelys_sha256.c:22-27 | The loop writes the number with its highest byte first |
| `Sha256.NumberReadsBack` | common/maelys_sha256.c:15-27 | Bytes written from a number read back as the number |
| `Sha256.Context.Update` | common/maelys_sha256.c:74-89 | The context stands for the message extended by the data; fewer than 64 bytes stay buffered |
| `Sha256.Context.Final` | common/maelys_sha256.c:91-104 | One or two last blocks give the digest of the padded message |
| `Sha256.HashPieces` | common/maelys_sha256.c:64-104 | Every way of cutting a message gives the same digest, that of the whole |
| `Sha256Vector.DigestOfAbc` | tests/test_maelys_sha256.c:12 | The digest of three letters is the published one, through all sixty-four rounds |
| `Sha256.Hex` | common/maelys_sha256.c:106-120 | Sixty-four lower-case digits from which the digest can be read back |
| `Sha256.HexIsLowercase` | common/maelys_sha256.c:147-155 | Accepts exactly sixty-four lower-case digits |
| `Decimal.Print` | include/maelys/datalog_builders.h:131-140 | Collecting digits and turning them round prints the number |
| `Decimal.DigitsReadBack` | include/maelys/datalog_builders.h:131-140 | Reading the digits gives the number back |
| `Decimal.NoLeadingZero` | include/maelys/datalog_builders.h:131-140 | No number but zero begins with the digit zero |
| `Decimal.ThreeDigitsAByte` | include/maelys/datalog_builders.h:129-132 | A number of k bytes has at most 3k digits |
| `Decimal.MessageFits` | include/maelys/datalog_builders.h:142-164 | The message fits its 256 bytes for words of up to eight bytes |
| `Decimal.MessageNames` | include/maelys/datalog_builders.h:142-164 | The message gives the number of the fact and then that of the term |
| `Lanes.SizesAddUp` | bench/bench_sessions.c:46-54 | Lane sizes add up to the entries |
| `Lanes.CapHolds` | bench/bench_sessions.c:139 | With the computed number of lanes none exceeds the cap |
| `Lanes.LaneCountIsLeast` | bench/bench_sessions.c:139 | So many lanes can hold the entries under the cap, and fewer cannot |
| `Lanes.Slot` | bench/bench_sessions.c:146-149 | The search ends inside the lanes at the slot of the ordinal |
| `Lanes.SlotsAreUnique` | bench/bench_sessions.c:146-149 | Ordinals and slots correspond one to one |
| `Lanes.SlotsAreFilled` | bench/bench_sessions.c:146-149 | Every slot is some ordinal's |
| `Lanes.StepsDiffer` | bench/bench_sessions.c:143-145 | When thirteen does not divide the entries, different steps go to different places |
| `Lanes.StepsReach` | bench/bench_sessions.c:143-145 | And every place is reached, so the steps are a permutation |
| `Lanes.StepsMeet` | bench/bench_sessions.c:143-145 | Otherwise a place is met twice |
| `Telemetry.Recorder.Measure` | bench/python_telemetry.py:99-111 | A request is recorded if and only if there is room, with a positive length and counters that do not fall, whatever the collector reports meanwhile |
| `Telemetry.Recorder.Calibrate` | bench/python_telemetry.py:113-131 | A calibration ends, lasts its budget and is recorded if there is room, also when the clock stands still between polls |
| `Telemetry.Recorder.Report` | bench/python_telemetry.py:66-82 | Collections are kept in turn up to the capacity, the overflow flag is up exactly if more have ended, and an end without a beginning is ignored |
| `Telemetry.Driver.Run` | bench/python_workload.py:138-165 | For every number of samples and warmups the stores are filled exactly; the export is refused if and only if a collection is under way or more have ended than there is room for; an export holds every collection, in turn, and is accepted |
| `Telemetry.Driver.Finish` | bench/python_telemetry.py:133-161 | The refusals of an export, and what is exported otherwise |
| `Telemetry.Validate` | bench/python_telemetry.py:164-205 | The test looks at neighbours only, and accepts exactly the recordings in which every request ends before every later one starts, every calibration is apart from every request of its loop, and every sample is the length of its own request |
| `Telemetry.RowsRise` | bench/python_telemetry.py:176-180 | In what is accepted every request has a length, and neither thread time nor any of four counters falls |
| `Telemetry.MarksAre` | bench/python_telemetry.py:190 | The marks are the multiples of thirty-two below the number of samples, in order |
| `Report.Counts` | bench/report_host_delta.py:14-88 | A profile is accepted if and only if every line can be read, a region is named and the books balance; then every function is charged exactly its cost lines that do not follow a call, and host, provider and a rest that is nowhere negative make up the summary |
| `Report.AtMostLeaves` | bench/report_host_delta.py:72-88 | Charges are within the summary exactly if something that is nowhere negative can be added to make it up |
| `Report.ZerosDoNotCount` | bench/report_host_delta.py:83-84 | Dropping functions without cost loses nothing |
| `Report.SidesAddUp` | bench/report_host_delta.py:178-181 | Host and provider vectors make up the whole |
| `Report.ProviderNames` | bench/report_host_delta.py:95-97 | The provider side is the functions of one prefix |

## Left out

- The text parser, the symbol tables, windows, retained inputs, explanations and proof trees are not modelled.
- Safety.ValidateRule: string filter literals in rule bodies are not modelled; they test bound values and bind nothing.
- Safety.PlanJoin: planner modules supplied from outside are not modelled; `Evaluation.ReachExact` holds for any safe order they return.
- Evaluation.ReachExact: string filter literals are not modelled.
- Aggregates.EvaluateAggregate: the scratch limit on the number of values an aggregate may collect is not modelled.
- Solver.BuildRanges: the tests that a range fits sixteen bits are not modelled; a static assertion of the program keeps the number of inputs below that.
- Solver.Workspace.Derive: string filter literals and their budgets of evaluations and cost are not modelled.
- Guards.SolveGuarded: that a guard of incomparable constants is never reached where there is no input at all is not stated.
- Arithmetic expressions are trees, not nodes shared in a table.
- DeltaStage.Convert: a record stands for the fact it denotes, an undeclared symbol, or the status its validation gives; the order of the checks inside one record is not modelled.
- DeltaBank.Bank.Execute: the busy flag is not modelled, as it is down between calls; interning of new symbols by snapshots and export errors are not modelled.
- DeltaBackend.Backend.Solve: inputs keep their predicate numbers and are compared by name; the texts of symbols serve only for the hash.
- DeltaDriver.OracleCheck: symbols are compared by number, not by the text that both sessions give it.
- Registry.Table.Add: the list of atoms that a registry also holds is not modelled.
- Abnf.ValidateTokens: error texts and columns of errors are not modelled; digits are ASCII.
- The file loop of the grammar checker is not modelled: stripping comments, splitting a line at its equals sign, and refusing files with no, duplicate or unknown rule names.
- Sha256.Hex: reading files is an instance of `Sha256.HashPieces` and has no member of its own; null arguments are not modelled.
- Telemetry.Validate: the version and protocol constants, and the lists of durations by phase, are not modelled.
- Telemetry.Driver.Run: thread time and counters are taken not to fall, and the clock to advance over a request and over some number of polls.
- Report.Counts: splitting lines into fields and separate source files are not modelled.
- Resistance of the hashes to collisions is not a subject here.
