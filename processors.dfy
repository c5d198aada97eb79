/** Processing strategies (fsm/processors.go): standard stepping with a trace, the parallel
    processor's single-input path, a cache keyed by input length, a validating wrapper,
    a chain that defers to its first processor, and a name-to-processor registry. */
module Processors {
  import opened Wrappers
  import opened Errors
  import opened Automaton

  // Message templates
  const ValidationFailedMsg := "input validation failed"
  const EmptyChainMsg := "no processors in chain"

  /** `ProcessResult` (fsm/interfaces.go). The zero result has a nil trace. */
  datatype ProcessResult<Q> = ProcessResult(accepted: bool, trace: Slice<Q>, finalState: Q)

  /** A processor's result together with its error. */
  datatype Outcome<Q, S> = Outcome(result: ProcessResult<Q>, err: Option<Error<Q, S>>)

  /** What standard processing yields: every state reached, ending where the run stopped;
      accepted only when the whole input was consumed in an accepting state. */
  function StandardOutcome<Q, S>(t: FiveTuple<Q, S>, input: seq<S>): Outcome<Q, S> {
    var w := Walk(t, t.initial, input);
    Outcome(ProcessResult(w.failure.None? && Last(w.trace) in t.accepting, Of(w.trace), Last(w.trace)),
            w.failure)
  }

  /** The shape of a standard outcome: the trace starts at q0, follows δ symbol by symbol,
      ends at the final state, and is complete exactly when there is no error; a failed run
      is never accepted. */
  lemma StandardOutcomeShape<Q, S>(t: FiveTuple<Q, S>, input: seq<S>)
    ensures var o := StandardOutcome(t, input); var tr := o.result.trace.items;
      && o.result.trace.Of? && 1 <= |tr| && tr[0] == t.initial
      && o.result.finalState == Last(tr)
      && (o.err.None? <==> |tr| == |input| + 1)
      && (forall i :: 0 <= i < |tr| - 1 ==> Next(t, tr[i], input[i]) == Success(tr[i + 1]))
      && (o.err.Some? ==>
            !o.result.accepted && Next(t, o.result.finalState, input[|tr| - 1]) == Failure(o.err.value))
      && (o.err.None? ==> (o.result.accepted <==> o.result.finalState in t.accepting))
  {
    WalkIsChain(t, t.initial, input);
  }

  /** `StandardProcessor.Process`: reset, then step through the input, recording each new
      state and stopping at the first failing step. Unlike `ProcessInput` there is no
      pre-check, so a nil input is processed as an empty one. */
  method StandardProcess<Q(==), S(==)>(automaton: FiniteAutomaton<Q, S>, input: Slice<S>)
    returns (result: ProcessResult<Q>, err: Option<Error<Q, S>>)
    modifies automaton`currentState
    ensures Outcome(result, err) == StandardOutcome(automaton.Tuple(), input.Items())
    ensures automaton.currentState == result.finalState
  {
    automaton.Reset();
    var trace := [automaton.currentState];
    var s := input.Items();
    for i := 0 to |s|
      invariant Walk(automaton.Tuple(), automaton.initialState, s[..i]) == Run(trace, None)
      invariant automaton.currentState == Last(trace)
    {
      var r := automaton.Step(s[i]);
      WalkExtend(automaton.Tuple(), automaton.initialState, s, i, trace);
      if r.Failure? {
        return ProcessResult(false, Of(trace), automaton.currentState), Some(r.error);
      }
      trace := trace + [r.value];
    }
    assert s[..|s|] == s;
    return ProcessResult(automaton.IsCurrentStateAccepting(), Of(trace), automaton.currentState), None;
  }

  /** Go's conversion of an `int` to `rune`: the low 32 bits, read as a signed number. */
  function Int32Wrap(n: int): (r: int)
    ensures -0x8000_0000 <= r < 0x8000_0000
    ensures (r - n) % 0x1_0000_0000 == 0
  {
    var m := n % 0x1_0000_0000;
    if m >= 0x8000_0000 then m - 0x1_0000_0000 else m
  }

  /** `createCacheKey`: `string(rune(len(input)))`, the one character whose code is the
      length, or U+FFFD when that code is not a Unicode scalar value. */
  function CacheKey(length: nat): (key: string)
    ensures |key| == 1
    ensures length < 0xD800 ==> key[0] as int == length
    ensures 0xE000 <= length < 0x11_0000 ==> key[0] as int == length
  {
    var r := Int32Wrap(length);
    if 0 <= r < 0xD800 || 0xE000 <= r < 0x11_0000 then [r as char] else [0xFFFD as char]
  }

  /** Distinct lengths below the surrogate range get distinct keys. */
  lemma CacheKeyInjectiveBelowSurrogates(n: nat, m: nat)
    requires n < 0xD800 && m < 0xD800
    ensures CacheKey(n) == CacheKey(m) <==> n == m
  {
    if CacheKey(n) == CacheKey(m) {
      assert CacheKey(n)[0] == CacheKey(m)[0];
    }
  }

  /** Every length whose 32-bit rune is not a scalar value (negative, a surrogate, or past
      U+10FFFF) gets the key U+FFFD, and lengths 2^32 apart always share a key. */
  lemma CacheKeyCollisions(n: nat)
    ensures (Int32Wrap(n) < 0 || 0xD800 <= Int32Wrap(n) < 0xE000 || Int32Wrap(n) >= 0x11_0000)
      ==> CacheKey(n) == [0xFFFD as char]
    ensures CacheKey(n) == CacheKey(n + 0x1_0000_0000)
  {
  }

  /** `OptimizedProcessor`: a cache of successful results keyed only by input length. */
  class OptimizedProcessor<Q(==), S(==)> {
    var cache: map<string, ProcessResult<Q>>

    constructor ()
      ensures cache == map[]
    {
      cache := map[];
    }

    /** What `Process` does: a cached length is answered from the cache without touching
        the automaton; otherwise the input is processed in the standard way and the result
        is stored only when there was no error. */
    twostate predicate Served(automaton: FiniteAutomaton<Q, S>, input: Slice<S>,
                              new result: ProcessResult<Q>, new err: Option<Error<Q, S>>)
      reads this, automaton
    {
      var key := CacheKey(|input.Items()|);
      if key in old(cache) then
        && result == old(cache)[key] && err.None?
        && cache == old(cache) && automaton.currentState == old(automaton.currentState)
      else
        && Outcome(result, err) == StandardOutcome(automaton.Tuple(), input.Items())
        && automaton.currentState == result.finalState
        && cache == if err.None? then old(cache)[key := result] else old(cache)
    }

    method Process(automaton: FiniteAutomaton<Q, S>, input: Slice<S>)
      returns (result: ProcessResult<Q>, err: Option<Error<Q, S>>)
      modifies this, automaton`currentState
      ensures Served(automaton, input, result, err)
    {
      var key := CacheKey(|input.Items()|);
      if key in cache {
        return cache[key], None;
      }
      result, err := StandardProcess(automaton, input);
      if err.Some? {
        return;
      }
      cache := cache[key := result];
    }

    method ClearCache()
      modifies this
      ensures cache == map[] && GetCacheSize() == 0
    {
      cache := map[];
    }

    function GetCacheSize(): nat
      reads this
    {
      |cache|
    }
  }

  /** The processors that handle an input themselves. `Parallel` stands for a
      `ParallelProcessor`, whose single-input path is standard processing. */
  datatype Processor<Q(==), S(==)> =
    | Standard
    | Parallel(maxWorkers: int)
    | Optimized(optimizer: OptimizedProcessor<Q, S>)

  /** `NewParallelProcessor`: a worker count of zero or less becomes one. */
  function NewParallelProcessor<Q(==), S(==)>(maxWorkers: int): (p: Processor<Q, S>)
    ensures p.Parallel? && p.maxWorkers >= 1
    ensures maxWorkers > 0 ==> p.maxWorkers == maxWorkers
    ensures maxWorkers <= 0 ==> p.maxWorkers == 1
  {
    Parallel(if maxWorkers <= 0 then 1 else maxWorkers)
  }

  /** A parallel processor, whatever its worker count, processes a single input exactly as
      the standard processor does and changes nothing besides the automaton. */
  twostate lemma ParallelProcessesAsStandard<Q, S>(maxWorkers: int, automaton: FiniteAutomaton<Q, S>,
                                                           input: Slice<S>, new result: ProcessResult<Q>,
                                                           new err: Option<Error<Q, S>>)
    ensures Footprint(NewParallelProcessor<Q, S>(maxWorkers)) == Footprint<Q, S>(Standard) == {}
    ensures Processed(NewParallelProcessor<Q, S>(maxWorkers), automaton, input, result, err)
        <==> Processed(Standard, automaton, input, result, err)
  {
  }

  /** The objects a processor may change besides the automaton. */
  function Footprint<Q(==), S(==)>(p: Processor<Q, S>): set<object> {
    if p.Optimized? then {p.optimizer} else {}
  }

  /** The effect of `p.Process`. */
  twostate predicate Processed<Q, S>(p: Processor<Q, S>, automaton: FiniteAutomaton<Q, S>,
                                             input: Slice<S>, new result: ProcessResult<Q>, new err: Option<Error<Q, S>>)
    reads automaton, Footprint(p)
  {
    match p
    case Optimized(optimizer) => optimizer.Served(automaton, input, result, err)
    case _ =>
      && Outcome(result, err) == StandardOutcome(automaton.Tuple(), input.Items())
      && automaton.currentState == result.finalState
  }

  /** `Process` on any of the processors above. */
  method ProcessWith<Q(==), S(==)>(p: Processor<Q, S>, automaton: FiniteAutomaton<Q, S>, input: Slice<S>)
    returns (result: ProcessResult<Q>, err: Option<Error<Q, S>>)
    modifies automaton`currentState, Footprint(p)
    ensures Processed(p, automaton, input, result, err)
  {
    match p
    case Standard =>
      result, err := StandardProcess(automaton, input);
    case Parallel(_) =>
      result, err := StandardProcess(automaton, input);
    case Optimized(optimizer) =>
      result, err := optimizer.Process(automaton, input);
  }

  /** `ValidatingProcessor`: an optional check on the input in front of another processor. */
  class ValidatingProcessor<Q(==), S(==)> {
    const wrapped: Processor<Q, S>
    const validator: Option<Slice<S> -> Option<Error<Q, S>>>
    /** The zero value of Q, the final state of the zero result. */
    const zero: Q

    constructor (wrapped: Processor<Q, S>, validator: Option<Slice<S> -> Option<Error<Q, S>>>, zero: Q)
      ensures this.wrapped == wrapped && this.validator == validator && this.zero == zero
    {
      this.wrapped := wrapped;
      this.validator := validator;
      this.zero := zero;
    }

    /** The validator's complaint about an input, if there is a validator. */
    function Rejection(input: Slice<S>): Option<Error<Q, S>> {
      if validator.Some? then validator.value(input) else None
    }

    /** A rejected input yields the zero result and an invalid-input error whose cause is
        the complaint, and the wrapped processor is not called; otherwise the wrapped
        processor's result and error are returned unchanged. */
    method Process(automaton: FiniteAutomaton<Q, S>, input: Slice<S>)
      returns (result: ProcessResult<Q>, err: Option<Error<Q, S>>)
      modifies automaton`currentState, Footprint(wrapped)
      ensures Rejection(input).Some? ==>
        && result == ProcessResult(false, Nil, zero)
        && err == Some(NewErrorWithCause(ErrorTypeInvalidInput, Fixed(ValidationFailedMsg),
                                         Rejection(input).value))
        && IsInvalidInputError(err.value)
        && unchanged(automaton) && unchanged(Footprint(wrapped))
      ensures Rejection(input).None? ==> Processed(wrapped, automaton, input, result, err)
    {
      if validator.Some? {
        var complaint := validator.value(input);
        if complaint.Some? {
          return ProcessResult(false, Nil, zero),
                 Some(NewErrorWithCause(ErrorTypeInvalidInput, Fixed(ValidationFailedMsg), complaint.value));
        }
      }
      result, err := ProcessWith(wrapped, automaton, input);
    }
  }

  /** `ProcessorChain`: only the first processor does any processing. */
  class ProcessorChain<Q(==), S(==)> {
    var processors: seq<Processor<Q, S>>
    /** The zero value of Q, the final state of the zero result. */
    const zero: Q

    /** `NewProcessorChain`. */
    constructor (processors: seq<Processor<Q, S>>, zero: Q)
      ensures this.processors == processors && this.zero == zero
    {
      this.processors := processors;
      this.zero := zero;
    }

    method Process(automaton: FiniteAutomaton<Q, S>, input: Slice<S>)
      returns (result: ProcessResult<Q>, err: Option<Error<Q, S>>)
      modifies automaton`currentState, if processors == [] then {} else Footprint(processors[0])
      ensures processors == [] ==>
        && result == ProcessResult(false, Nil, zero)
        && err == Some(NewError(ErrorTypeInvalidConfiguration, Fixed(EmptyChainMsg)))
        && unchanged(automaton)
      ensures processors != [] ==> Processed(processors[0], automaton, input, result, err)
    {
      if processors == [] {
        return ProcessResult(false, Nil, zero), Some(NewError(ErrorTypeInvalidConfiguration, Fixed(EmptyChainMsg)));
      }
      result, err := ProcessWith(processors[0], automaton, input);
    }

    method Add(processor: Processor<Q, S>)
      modifies this`processors
      ensures processors == old(processors) + [processor]
    {
      processors := processors + [processor];
    }
  }

  /** `ProcessorRegistry`: processors by name, and a default one. */
  class ProcessorRegistry<Q(==), S(==)> {
    var processors: map<string, Processor<Q, S>>
    var defaultProcessor: Processor<Q, S>

    /** `NewProcessorRegistry`: a standard processor, registered as "standard" and made
        the default. */
    constructor ()
      ensures processors == map["standard" := Standard] && defaultProcessor == Standard
    {
      processors := map[];
      defaultProcessor := Standard;
      new;
      Register("standard", Standard);
      SetDefault(Standard);
    }

    /** `Register` adds or replaces the processor under a name. */
    method Register(name: string, processor: Processor<Q, S>)
      modifies this`processors
      ensures processors == old(processors)[name := processor]
      ensures Get(name) == Some(processor)
    {
      processors := processors[name := processor];
    }

    /** `Get`: the processor registered under a name, and whether there is one. */
    function Get(name: string): (r: Option<Processor<Q, S>>)
      reads this`processors
      ensures r.Some? <==> name in processors
      ensures r.Some? ==> r.value == processors[name]
    {
      if name in processors then Some(processors[name]) else None
    }

    function GetDefault(): Processor<Q, S>
      reads this`defaultProcessor
    {
      defaultProcessor
    }

    method SetDefault(processor: Processor<Q, S>)
      modifies this`defaultProcessor
      ensures GetDefault() == processor
    {
      defaultProcessor := processor;
    }
  }
}
