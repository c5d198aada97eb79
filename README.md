# PolicyReporter-FSM in Dafny

A model of the core of a generic deterministic finite automaton (DFA) library written in Go.
An automaton is the 5-tuple (Q, Σ, q0, F, δ) plus a current state.

- Building: states, symbols, accepting states and transitions are inserted without checks.
- Checking: an automaton can check its own structure (first violation only). A rule-based
  validator runs an ordered list of rules and collects every violation.
- Builder: a builder runs the validator and then the structural check before it hands out
  the automaton.
- Processing: an input sequence is fed to the automaton one step at a time, with or without
  a trace.
- Processors: processors wrap that stepping, with a length-keyed cache, a validating
  front, a chain and a registry by name.
- Example: a mod-three automaton computes the remainder of a binary numeral modulo 3.

The model has one module per source file:

| module | file | source |
|---|---|---|
| `Wrappers` | `wrappers.dfy` | `Option`, `Result`, and `Slice` (a Go slice, which may be nil) |
| `Errors` | `errors.dfy` | `fsm/errors.go` |
| `InputSequence` | `input_sequence.dfy` | the input helpers at the end of `fsm/validation.go` |
| `Automaton` | `automaton.dfy` | `fsm/automaton.go` |
| `Validation` | `validation.dfy` | the rest of `fsm/validation.go` |
| `Builder` | `builder.dfy` | `fsm/builder.go` |
| `Processors` | `processors.dfy` | `fsm/processors.go` and `ProcessResult` from `fsm/interfaces.go` |
| `ModThree` | `modthree.dfy` | `examples/modthree.go` |

How the model is built:

- **Classes where Go mutates.** The automaton, the error collector, the validator, the
  builder, the optimized processor, the chain and the registry are classes. Their methods
  change fields under `modifies` frames.
- **One specification function.** `Automaton.Walk` is the fold of one checked step
  (`Automaton.Next`) over an input, stopping at the first failure. Every processing loop
  (`ProcessInput`, `ProcessInputWithTrace`, `StandardProcess`) is proved equal to it.
- **Go zero values.** Where a zero value is read, the zero value of a generic type is an
  explicit parameter: the zero symbol, the zero state, and the zero `ProcessResult` with a
  nil trace. The zero state `Step` returns beside an error is not kept (see "Left out").
- **Error messages.** A message is kept as its format template plus its arguments.
- **Map order.** Where Go reports the first offending element in map iteration order, the
  model may report any offending element.

Where the prose documentation and the code disagree, the model follows the code:

- `ProcessInput` and `ProcessInputWithTrace` check the whole input against Σ before
  resetting. A rejected input leaves the current state untouched and yields a nil trace.
- `FiniteAutomaton.Validate` accepts an empty alphabet.
- The validator's default rules reject an empty alphabet in every configuration.
- The optimized processor keys its cache by input length alone. Two inputs of the same
  length therefore share a cached answer (`ModThree.CacheKeyConflatesEqualLengths`).

## Model

| member | source | states |
|---|---|---|
| Errors.ErrorTypeName | fsm/errors.go:25-40 | the five known kinds have names ending in "Error"; any other value is "UnknownError" |
| Errors.ErrorTypeNameInjective | fsm/errors.go:25-40 | distinct known kinds have distinct names |
| Errors.NewError | fsm/errors.go:86-92 | an automaton error of the given kind and message, with an empty context and no cause |
| Errors.NewErrorWithContext | fsm/errors.go:95-101 | as NewError, carrying exactly the given context |
| Errors.NewErrorWithCause | fsm/errors.go:104-111 | as NewError, wrapping the given cause |
| Errors.WithContext | fsm/errors.go:114-120 | sets one context key, keeps every other key, kind, message and cause; the result still matches the original under Is, both ways |
| Errors.WithCause | fsm/errors.go:123-126 | replaces only the cause |
| Errors.NewValidationError | fsm/errors.go:131-133 | a validation-kind error with the message and an empty context |
| Errors.NewTransitionError | fsm/errors.go:136-141 | a transition-kind error whose context holds exactly the state and the symbol |
| Errors.NewInvalidInputError | fsm/errors.go:144-149 | an invalid-input error whose context holds exactly the symbol and its position |
| Errors.NewInvalidConfigurationError | fsm/errors.go:152-156 | an invalid-configuration error whose context holds exactly the component |
| Errors.KindPredicatesMatchIs | fsm/errors.go:259-280 | each kind predicate holds exactly when the error matches a bare error of that kind under Is; no error has two kinds |
| Errors.NatToString | fsm/errors.go:183-198 | the list number is a non-empty string of decimal digits without a leading zero |
| Errors.DecimalRoundTrip | fsm/errors.go:183-198 | reading back the digits of a list number gives the number |
| Errors.Report | fsm/errors.go:183-198 | no errors give "", one error gives its own text, two or more start with the "Multiple errors occurred:" header (the numbered lines are fixed by ReportOfTwo and ReportAppend) |
| Errors.ReportAppend | fsm/errors.go:183-198 | one more error adds exactly one numbered line to a report of two or more |
| Errors.ReportOfTwo | fsm/errors.go:183-198 | the report of two errors is the header followed by "1. a", a newline and "2. b" |
| Errors.RetryableHandleError | fsm/errors.go:251-256 | an automaton error gains "max_retries" set to the retry count, keeping its kind, message, cause and other context; any other error and nil pass through unchanged |
| Errors.ErrorCollector.constructor | fsm/errors.go:164-168 | a new collector holds no errors |
| Errors.ErrorCollector.Add | fsm/errors.go:171-175 | a non-nil error is appended at the end, and a nil one changes nothing |
| Errors.ErrorCollector.ErrorText | fsm/errors.go:183-198 | no errors give "", one error gives its own text, more start with the header |
| Errors.ErrorCollector.ToError | fsm/errors.go:206-211 | nil exactly when nothing was collected, otherwise the collector itself |
| InputSequence.WithoutZeroAppend | fsm/validation.go:301-317 | filtering distributes over concatenation |
| InputSequence.WithoutZeroContents | fsm/validation.go:301-317 | the result has no zero symbol, is no longer than the input, and keeps every other symbol with its multiplicity |
| InputSequence.WithoutZeroIdempotent | fsm/validation.go:301-317 | sanitizing twice is sanitizing once |
| InputSequence.SanitizeInput | fsm/validation.go:301-317 | the loop returns the input without its zero symbols, in order (nil input gives empty) |
| InputSequence.FirstOutside | fsm/validation.go:320-332 | the least index whose symbol is not in Σ, or none when every symbol is in Σ |
| InputSequence.InputSequenceError | fsm/validation.go:320-332 | no error exactly when the input is non-nil and every symbol is in Σ; a nil input is an invalid-input error at position 0 |
| InputSequence.ValidateInputSequence | fsm/validation.go:320-332 | the loop reports the first out-of-alphabet symbol and its index, and nothing exactly when the input is non-nil and inside Σ |
| Automaton.SetTransition | fsm/automaton.go:161-167 | after adding (from, a, to), δ(from, a) is to, and the rows are the old rows plus from's |
| Automaton.SetTransitionOthers | fsm/automaton.go:161-167 | adding a transition leaves every other entry of δ unchanged |
| Automaton.Walk | fsm/automaton.go:237-253 | a run's trace starts at the start state, has at most one state per symbol plus one, and is complete exactly when no step failed |
| Automaton.WalkOfEmpty | fsm/automaton.go:237-253 | the empty input ends where it started without failure, so ProcessInput accepts it exactly when q0 ∈ F |
| Automaton.WalkIsChain | fsm/automaton.go:212-231 | each traced state is the step of the one before on the matching symbol, and a failure is the failure of the next step |
| Automaton.WalkAfterFailure | fsm/automaton.go:237-253 | after a failed step, further input is never consumed |
| Automaton.WalkExtend | fsm/automaton.go:237-253 | one more symbol extends an unfailed run by one state, or ends the whole run with that step's error |
| Automaton.WalkAppend | fsm/automaton.go:212-231 | feeding s then rest is feeding rest from the state where s ended |
| Automaton.WalkFailsOnlyOnMissingTransition | fsm/automaton.go:212-231 | when every symbol is in Σ, a run can stop only at an undefined transition, with the "no transition defined" error |
| Automaton.WalkOfTotal | fsm/automaton.go:212-231 | with δ total on Q × Σ, every input over Σ runs to the end and never leaves Q |
| Automaton.FiniteAutomaton.constructor | fsm/automaton.go:99-108 | Q, Σ, F and δ start empty, and the current state is the initial state |
| Automaton.FiniteAutomaton.AddState | fsm/automaton.go:112-115 | Q gains the state and nothing else changes; as a set union, repeating or reordering insertions gives the same Q |
| Automaton.FiniteAutomaton.AddStates | fsm/automaton.go:119-124 | Q gains exactly the listed states |
| Automaton.FiniteAutomaton.AddSymbol | fsm/automaton.go:128-131 | Σ gains the symbol |
| Automaton.FiniteAutomaton.AddSymbols | fsm/automaton.go:135-140 | Σ gains exactly the listed symbols |
| Automaton.FiniteAutomaton.AddAcceptingState | fsm/automaton.go:144-147 | F gains the state, even if it is not in Q, and IsAcceptingState then holds for it |
| Automaton.FiniteAutomaton.AddAcceptingStates | fsm/automaton.go:151-156 | F gains exactly the listed states |
| Automaton.FiniteAutomaton.AddTransition | fsm/automaton.go:161-167 | δ(from, a) := to, overwriting an earlier target |
| Automaton.FiniteAutomaton.Reset | fsm/automaton.go:203-207 | the current state becomes the initial state, and nothing else changes |
| Automaton.FiniteAutomaton.Step | fsm/automaton.go:212-231 | a symbol outside Σ fails before any lookup; an undefined transition fails; only a successful step moves the current state, to δ(q, a) |
| Automaton.FiniteAutomaton.ProcessInput | fsm/automaton.go:237-253 | a nil or out-of-alphabet input fails the pre-check with the current state unchanged; otherwise the result and current state are those of the run from q0, accepted only if complete and ending in F |
| Automaton.FiniteAutomaton.ProcessInputWithTrace | fsm/automaton.go:258-276 | as ProcessInput, also returning the states reached: nil after a failed pre-check, the prefix reached after a failed step |
| Automaton.FiniteAutomaton.Validate | fsm/automaton.go:280-309 | nil exactly when q0 ∈ Q, F ⊆ Q and every transition goes from Q on Σ to Q; checks q0 first, then F, then the transitions |
| Validation.CountTransitions | fsm/validation.go:202-215 | the loop counts every (state, symbol) entry of δ |
| Validation.SetTransitionPairs | fsm/automaton.go:161-167 | adding a transition adds its entry to δ's entries and removes none |
| Validation.SetTransitionCount | fsm/validation.go:202-215 | the count rises by one for a new entry and stays the same when a target is overwritten |
| Validation.ReachWithin | fsm/validation.go:228-256 | every state reachable in k steps lies in each successor-closed set that contains q0 |
| Validation.WalkStaysReachable | fsm/validation.go:228-256 | every state of a run from q0 is reachable, the i-th in i steps |
| Validation.VisitRow | fsm/validation.go:239-251 | visiting a row enqueues exactly its new targets, each reachable, and leaves the row's targets all visited |
| Validation.Explore | fsm/validation.go:228-256 | the breadth-first search visits q0, only reachable states, and a successor-closed set |
| Validation.CheckNoUnreachableStates | fsm/validation.go:228-256 | nil exactly when every state of Q is reachable from q0, otherwise an unreachable state of Q is named |
| Validation.RunsPositive | fsm/validation.go:272-298 | a string has at least one field exactly when it has a non-space character |
| Validation.FieldCountAtLeastTwo | fsm/validation.go:272-298 | a string has two or more fields exactly when a space lies between two non-space characters |
| Validation.Utf8LengthBounds | fsm/validation.go:272-298 | a name's byte length is between one and four bytes per character, and one per character for ASCII |
| Validation.NameProblemNone | fsm/validation.go:272-298 | a name passes exactly when it is not blank, is not several words around a plain space, and is at most 50 bytes long |
| Validation.CheckStateNaming | fsm/validation.go:272-298 | nil exactly when every string-kinded state has a valid name, otherwise the error of some offending state |
| Validation.CheckAcceptingStates | fsm/validation.go:146-153 | nil exactly when F ⊆ Q, otherwise an accepting state outside Q is named |
| Validation.CheckTransitionStates | fsm/validation.go:155-167 | nil exactly when every transition's source and target are in Q, otherwise an offending endpoint is named |
| Validation.CheckTransitionSymbols | fsm/validation.go:169-178 | nil exactly when every transition's symbol is in Σ, otherwise an offending symbol is named |
| Validation.CheckCompleteTransitions | fsm/validation.go:217-226 | nil exactly when every (q, a) in Q × Σ has a target other than the zero state, otherwise a missing pair is named |
| Validation.CompletenessRejectsZeroTarget | fsm/validation.go:217-226 | a defined transition whose target is the zero state counts as missing |
| Validation.CheckNoDuplicateTransitions | fsm/validation.go:258-270 | never reports anything, since a map has no duplicate keys |
| Validation.CheckRule | fsm/validation.go:125-298 | each built-in or custom rule passes exactly when its condition holds, otherwise it reports one of that rule's errors |
| Validation.DefaultRules | fsm/validation.go:66-103 | the six structural rules come first, in registration order |
| Validation.DefaultRulesRegistered | fsm/validation.go:66-103 | a rule is registered exactly when it is structural or the configuration asks for it |
| Validation.DefaultConfigRules | fsm/validation.go:38-46 | the default configuration registers exactly the structural rules and the ceilings 1000 states, 100 symbols, 10000 transitions |
| Validation.StrictConfigRules | fsm/validation.go:49-57 | the strict configuration registers the structural rules, the ceilings 100/50/1000, completeness, and the unreachable, duplicate and naming rules |
| Validation.OptionalRulesRegistered | fsm/validation.go:66-103 | a ceiling is registered exactly when its limit is positive, completeness exactly when required, and the strict rules exactly in strict mode |
| Validation.StructuralRulesHold | fsm/validation.go:125-178 | the structural rules pass exactly when FiniteAutomaton.Validate would pass and Σ is non-empty |
| Validation.DefaultRulesAccept | fsm/validation.go:38-103 | a well-formed automaton with a non-empty Σ and sizes within the default ceilings passes every default rule |
| Validation.CollectedEmpty | fsm/validation.go:111-121 | nothing is collected exactly when every rule holds, and at most one error per rule |
| Validation.InputValidator.constructor | fsm/validation.go:66-103 | a new validator holds the configuration's default rules |
| Validation.InputValidator.AddRule | fsm/validation.go:106-108 | a custom rule is appended after every earlier rule |
| Validation.InputValidator.Validate | fsm/validation.go:111-121 | all rules run in order, one error per failing rule is collected, and the result is nil exactly when every rule holds |
| Builder.T | fsm/builder.go:97-99 | the triple carries its three arguments |
| Builder.FoldAppend | fsm/builder.go:56-61 | adding a + b is adding a and then b |
| Builder.FoldUntouched | fsm/builder.go:56-61 | an entry named by no triple keeps its old target |
| Builder.FoldLastWins | fsm/builder.go:56-61 | the last triple for an entry decides its target |
| Builder.FoldDistinct | fsm/builder.go:56-61 | with distinct entries, every triple is in the table as given |
| Builder.FoldCount | fsm/builder.go:56-61 | n triples add at most n entries |
| Builder.StructuralPrefixImpliesWellFormed | fsm/builder.go:65-77 | any rule list starting with the structural rules, once passed, implies FiniteAutomaton.Validate passes and Σ is non-empty |
| Builder.DefaultRulesImplyWellFormed | fsm/builder.go:65-77 | passing the default rules implies passing FiniteAutomaton.Validate, with a non-empty Σ |
| Builder.EmptyAlphabetRejected | fsm/builder.go:65-77 | an automaton with an empty Σ passes FiniteAutomaton.Validate but fails the default validator |
| Builder.AutomatonBuilder.constructor | fsm/builder.go:12-17 | a fresh empty automaton and a validator with the default rules, which start with the structural rules |
| Builder.AutomatonBuilder.WithValidation | fsm/builder.go:20-25 | as the constructor, with the given configuration's rules, which start with the structural rules |
| Builder.AutomatonBuilder.WithStates | fsm/builder.go:29-34 | adds the states and always the initial state |
| Builder.AutomatonBuilder.WithAlphabet | fsm/builder.go:37-40 | Σ gains exactly the listed symbols |
| Builder.AutomatonBuilder.WithAcceptingStates | fsm/builder.go:43-46 | F gains exactly the listed states |
| Builder.AutomatonBuilder.WithTransition | fsm/builder.go:49-52 | sets δ(from, a) := to |
| Builder.AutomatonBuilder.WithTransitions | fsm/builder.go:56-61 | adds the triples in order |
| Builder.AutomatonBuilder.Build | fsm/builder.go:65-77 | succeeds, with the builder's automaton, exactly when every validator rule holds and the automaton is structurally valid, and so, for any builder's validator (structural rules first), exactly when every validator rule holds; a failing validator yields the collected errors |
| Builder.AutomatonBuilder.MustBuild | fsm/builder.go:81-87 | returns the builder's automaton when Build would succeed |
| Processors.StandardOutcomeShape | fsm/processors.go:16-40 | the trace starts at q0, follows δ, ends at the final state, and is complete exactly without error; a failed run is never accepted |
| Processors.StandardProcess | fsm/processors.go:16-40 | the loop's result and error are the run from q0 over the input, with no pre-check (nil is processed as empty) |
| Processors.Int32Wrap | fsm/processors.go:164-168 | a 32-bit signed value congruent to the input modulo 2^32 |
| Processors.CacheKey | fsm/processors.go:164-168 | one character, whose code is the length itself for every length that is a Unicode scalar value (below 0xD800, or 0xE000 to 0x10FFFF) |
| Processors.CacheKeyInjectiveBelowSurrogates | fsm/processors.go:164-168 | lengths below 0xD800 share a key only when equal |
| Processors.CacheKeyCollisions | fsm/processors.go:164-168 | for every length: when its 32-bit rune is negative, a surrogate or past U+10FFFF the key is U+FFFD, and lengths 2^32 apart always share a key |
| Processors.OptimizedProcessor.constructor | fsm/processors.go:129-133 | the cache starts empty |
| Processors.OptimizedProcessor.Process | fsm/processors.go:136-161 | a cached length is answered from the cache without touching the automaton; otherwise standard processing, cached only on success |
| Processors.OptimizedProcessor.ClearCache | fsm/processors.go:171-175 | the cache is emptied and its size is 0 |
| Processors.NewParallelProcessor | fsm/processors.go:48-55 | a worker count of zero or less becomes one, others are kept |
| Processors.ParallelProcessesAsStandard | fsm/processors.go:48-55 | a parallel processor made with any worker count processes one input exactly as the standard processor does, changing nothing else |
| Processors.ProcessWith | fsm/processors.go:116-120 | a standard or parallel processor processes in the standard way, and an optimized one through its cache |
| Processors.ValidatingProcessor.constructor | fsm/processors.go:219-233 | keeps the wrapped processor and the optional validator |
| Processors.ValidatingProcessor.Process | fsm/processors.go:236-245 | a rejected input yields the zero result and an invalid-input error caused by the complaint, touching nothing; otherwise the wrapped processor's outcome |
| Processors.ProcessorChain.constructor | fsm/processors.go:248-257 | keeps the processors in order |
| Processors.ProcessorChain.Process | fsm/processors.go:260-268 | an empty chain is an invalid-configuration error; otherwise the first processor's outcome |
| Processors.ProcessorChain.Add | fsm/processors.go:271-273 | the processor is appended |
| Processors.ProcessorRegistry.constructor | fsm/processors.go:282-293 | "standard" is registered and is the default |
| Processors.ProcessorRegistry.Register | fsm/processors.go:296-298 | adds or replaces the processor under the name, which Get then finds |
| Processors.ProcessorRegistry.Get | fsm/processors.go:301-304 | found exactly when the name is registered, with its processor |
| Processors.ProcessorRegistry.SetDefault | fsm/processors.go:312-314 | GetDefault then returns the processor |
| ModThree.ModThreeTable | examples/modthree.go:48-55 | the six listed triples build exactly the three-row table |
| ModThree.ModThreeWellFormed | examples/modthree.go:39-57 | the mod-three automaton is structurally valid, and δ is total on Q × Σ |
| ModThree.ModThreeSizes | examples/modthree.go:39-57 | three states, two symbols, at most six transitions |
| ModThree.ModThreePassesDefaultRules | examples/modthree.go:39-57 | the mod-three automaton passes every default validation rule |
| ModThree.ModThreeBuilder | examples/modthree.go:39-55 | the builder calls produce exactly the mod-three 5-tuple, with the default validator |
| ModThree.NewModThreeAutomaton | examples/modthree.go:39-57 | Build succeeds and returns a fresh automaton holding the mod-three 5-tuple |
| ModThree.LeadingZero | examples/modthree.go:61-94 | a leading '0' does not change a numeral's value |
| ModThree.ModThreeTracksRemainders | examples/modthree.go:48-55 | each transition takes the state of remainder r on bit b to the state of (2r + b) mod 3 |
| ModThree.RemainderStep | examples/modthree.go:48-55 | one step from the state of v mod 3 on bit b reaches the state of (2v + b) mod 3 |
| ModThree.RemainderWalk | examples/modthree.go:61-94 | on a binary numeral the run never fails, and its i-th state is the remainder of the first i digits |
| ModThree.ModThreeWalk | examples/modthree.go:61-94 | the same for the mod-three automaton itself, so stepping it symbol by symbol ends in the state of the remainder |
| ModThree.Remainder | examples/modthree.go:84-93 | an accepted run ending in S0, S1 or S2 yields that state's remainder; anything else is an error |
| ModThree.ModThree | examples/modthree.go:61-94 | the empty string is an error; a binary numeral yields its value mod 3; any other character is the invalid-input error |
| ModThree.TracedRemainder | examples/modthree.go:116-123 | an accepted run yields no error and, for S0, S1 or S2, that state's remainder |
| ModThree.ModThreeWithTrace | examples/modthree.go:97-126 | as ModThree, and for a binary numeral the trace lists the remainder of each prefix |
| ModThree.StandardModThree | fsm/processors.go:16-40 | standard processing of a binary numeral accepts and ends in the state of its remainder |
| ModThree.CacheKeyConflatesEqualLengths | fsm/processors.go:164-168 | "10" and "01" share a cache key although they end in S2 and S1 |

## Left out

- `fsm/observers.go` and `fsm/factory.go` are not part of this model. Neither is
  `main.go`, nor the test files.
- `ParallelProcessor.ProcessBatch` is left out. Its goroutines, semaphore and wait group are
  concurrency. Its single-input `Process` is modelled (`Processors.ProcessWith`).
- `TracingProcessor` and `LoggingErrorHandler` are left out. They write log output.
  `RetryableErrorHandler` writes nothing and is modelled (`Errors.RetryableHandleError`).
- The read-write mutexes of `FiniteAutomaton` and `OptimizedProcessor` are left out. The
  model is sequential.
- `String()` of the automaton is left out. So is `Error()` of an automaton error, and the
  `fmt` rendering of `%v` and `%d` for generic values. A message is kept as its template and
  arguments. Only the collector's numbered report is rendered (`Errors.Report`).
- `GetInitialState`, `GetCurrentState`, `Errors()` and `Unwrap` are plain field reads.
  `GetCacheSize` (the number of cache entries) and `GetDefault` are one-line accessors used
  inside other contracts. None of them has a contract of its own.
- `FiniteAutomaton.IsAcceptingState`, `FiniteAutomaton.IsCurrentStateAccepting`,
  `ErrorCollector.HasErrors` and `Error.Is` are one-line membership or comparison tests
  with no contract of their own. Their meaning is stated where they are used: by
  `AddAcceptingState`, by the `accepted` results of `ProcessInput`, `ProcessInputWithTrace`
  and `StandardProcess`, by `ErrorCollector.ToError`, and by `Errors.KindPredicatesMatchIs`
  and `Errors.WithContext`.
- `DefaultValidatorConfig` and `StrictValidatorConfig` are constant records. What they
  register is stated by `Validation.DefaultConfigRules` and `Validation.StrictConfigRules`.
- Automaton.FiniteAutomaton.Step: on both failures Go returns the zero value of Q beside the
  error. The model's `Failure` carries only the error. No caller in the core reads that
  value: they read the current state instead.
- `PrintModThreeTrace` prints, and is left out.
- The state naming rule tests the state's run-time kind with reflection. The model replaces
  that with `StateType.name`, which gives a state's text when Q is a string kind.
- Go's `[]rune` conversion of a UTF-8 string is modelled as the identity, because a Dafny
  string is already a sequence of characters. `len` of a name is its UTF-8 byte length
  (`Validation.Utf8Length`).
- A custom rule is modelled as a function of the 5-tuple. The Go rule receives the
  automaton object itself.
- `ValidatingProcessor` and `ProcessorChain` wrap only the leaf processors: standard,
  parallel and optimized. Nesting one wrapper inside another is not modelled.
- Errors.WithContext: modelled on values, returning the updated error. Go mutates the shared
  error object in place and returns that same object. Other references seeing the change is
  not modelled.
- Errors.WithCause: modelled on values, as for `WithContext`.
- Builder.AutomatonBuilder.MustBuild: Go panics when `Build` fails. The model makes success
  a precondition instead.
- Automaton.FiniteAutomaton.Validate: a transition defect reported by the source is the
  first in Go's map iteration order. The model states only that some offending transition
  is named.
- Validation.CheckAcceptingStates: names some offending accepting state, not the first in
  Go's map order.
- Validation.CheckTransitionStates: names some offending endpoint, not the first in map
  order.
- Validation.CheckTransitionSymbols: names some offending symbol, not the first in map
  order.
- Validation.CheckCompleteTransitions: names some missing pair, not the first in map order.
- Validation.CheckNoUnreachableStates: names some unreachable state, not the first in map
  order.
- Validation.CheckStateNaming: names some offending state, not the first in map order.
- ModThree.ModThree: the "not accepted" and "unexpected final state" branches are modelled
  (`ModThree.Remainder`). They cannot be taken, because every state is accepting and δ stays
  inside Q.
