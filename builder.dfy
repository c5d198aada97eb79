/** The fluent builder (fsm/builder.go): unchecked declarations in any order, then a build
    step that runs a rule-based validator and the automaton's own structural check. */
module Builder {
  import opened Wrappers
  import opened Errors
  import opened Automaton
  import opened Validation

  /** One entry δ(from, symbol) = to. */
  datatype Transition<Q, S> = Transition(from: Q, symbol: S, to: Q)

  /** `T`: the triple of its arguments, unchanged. */
  function T<Q, S>(from: Q, symbol: S, to: Q): (t: Transition<Q, S>)
    ensures t.from == from && t.symbol == symbol && t.to == to
  {
    Transition(from, symbol, to)
  }

  /** δ after adding the triples one after the other. */
  function FoldTransitions<Q, S>(delta: map<Q, map<S, Q>>, ts: seq<Transition<Q, S>>): map<Q, map<S, Q>>
    decreases |ts|
  {
    if ts == [] then delta
    else
      var t := Last(ts);
      SetTransition(FoldTransitions(delta, ts[..|ts| - 1]), t.from, t.symbol, t.to)
  }

  /** Adding `a` and then `b` is adding `a + b`. */
  lemma {:induction false} FoldAppend<Q, S>(delta: map<Q, map<S, Q>>, a: seq<Transition<Q, S>>, b: seq<Transition<Q, S>>)
    ensures FoldTransitions(delta, a + b) == FoldTransitions(FoldTransitions(delta, a), b)
    decreases |b|
  {
    if b == [] {
      assert a + b == a;
    } else {
      var init := b[..|b| - 1];
      FoldAppend(delta, a, init);
      assert (a + b)[..|a + b| - 1] == a + init;
    }
  }

  /** The triple at position i is the last one for its (from, symbol). */
  ghost predicate LastFor<Q, S>(ts: seq<Transition<Q, S>>, i: int, q: Q, a: S) {
    && 0 <= i < |ts| && ts[i].from == q && ts[i].symbol == a
    && forall j :: i < j < |ts| ==> !(ts[j].from == q && ts[j].symbol == a)
  }

  /** An entry no triple mentions keeps its old value. */
  lemma {:induction false} FoldUntouched<Q, S>(delta: map<Q, map<S, Q>>, ts: seq<Transition<Q, S>>, q: Q, a: S)
    requires forall i :: 0 <= i < |ts| ==> !(ts[i].from == q && ts[i].symbol == a)
    ensures Lookup(FoldTransitions(delta, ts), q, a) == Lookup(delta, q, a)
    decreases |ts|
  {
    if ts != [] {
      var init := ts[..|ts| - 1];
      var t := Last(ts);
      FoldUntouched(delta, init, q, a);
      SetTransitionOthers(FoldTransitions(delta, init), t.from, t.symbol, t.to, q, a);
    }
  }

  /** The last triple for an entry wins. */
  lemma {:induction false} FoldLastWins<Q, S>(delta: map<Q, map<S, Q>>, ts: seq<Transition<Q, S>>, i: int, q: Q, a: S)
    requires LastFor(ts, i, q, a)
    ensures Lookup(FoldTransitions(delta, ts), q, a) == Some(ts[i].to)
    decreases |ts|
  {
    var init := ts[..|ts| - 1];
    var t := Last(ts);
    if i < |ts| - 1 {
      assert LastFor(init, i, q, a);
      FoldLastWins(delta, init, i, q, a);
      SetTransitionOthers(FoldTransitions(delta, init), t.from, t.symbol, t.to, q, a);
    }
  }

  /** When no two triples share an entry, each triple's entry holds its target, whatever
      the order of the triples. */
  lemma FoldDistinct<Q, S>(delta: map<Q, map<S, Q>>, ts: seq<Transition<Q, S>>, i: int)
    requires 0 <= i < |ts|
    requires forall j, k :: 0 <= j < k < |ts| ==> (ts[j].from, ts[j].symbol) != (ts[k].from, ts[k].symbol)
    ensures Lookup(FoldTransitions(delta, ts), ts[i].from, ts[i].symbol) == Some(ts[i].to)
  {
    assert LastFor(ts, i, ts[i].from, ts[i].symbol);
    FoldLastWins(delta, ts, i, ts[i].from, ts[i].symbol);
  }

  /** Each triple adds at most one entry to δ. */
  lemma {:induction false} FoldCount<Q, S>(delta: map<Q, map<S, Q>>, ts: seq<Transition<Q, S>>)
    ensures TransitionCount(FoldTransitions(delta, ts)) <= TransitionCount(delta) + |ts|
    decreases |ts|
  {
    if ts != [] {
      var init := ts[..|ts| - 1];
      FoldCount(delta, init);
      SetTransitionCount(FoldTransitions(delta, init), Last(ts).from, Last(ts).symbol, Last(ts).to);
    }
  }

  /** With the default rules, passing the validator already makes the automaton well
      formed, so the second check in `Build` cannot fail after the first has passed. */
  lemma DefaultRulesImplyWellFormed<Q, S>(config: ValidatorConfig, t: FiveTuple<Q, S>, st: StateType<Q>)
    requires forall i :: 0 <= i < |DefaultRules<Q, S>(config)| ==> Holds(DefaultRules<Q, S>(config)[i], t, st)
    ensures WellFormed(t) && |t.alphabet| > 0
  {
    StructuralPrefixImpliesWellFormed(DefaultRules<Q, S>(config), t, st);
  }

  /** Whenever the structural rules come first, passing every rule makes the automaton well
      formed, so the second check in `Build` cannot fail after the first has passed. */
  lemma StructuralPrefixImpliesWellFormed<Q, S>(rules: seq<Rule<Q, S>>, t: FiveTuple<Q, S>, st: StateType<Q>)
    requires |rules| >= 6 && rules[..6] == StructuralRules()
    requires forall i :: 0 <= i < |rules| ==> Holds(rules[i], t, st)
    ensures WellFormed(t) && |t.alphabet| > 0
  {
    assert forall i :: 0 <= i < 6 ==> rules[i] == StructuralRules<Q, S>()[i];
    StructuralRulesHold(t, st);
  }

  /** An automaton with one state and no symbols passes `FiniteAutomaton.Validate` but
      not the non-empty-alphabet rule, so `Build` rejects it. */
  lemma EmptyAlphabetRejected<Q, S>(t: FiveTuple<Q, S>, st: StateType<Q>)
    requires t.states == {t.initial} && t.alphabet == {} && t.accepting == {} && t.delta == map[]
    ensures WellFormed(t)
    ensures !Holds(NonEmptyAlphabet, t, st)
    ensures NonEmptyAlphabet in DefaultRules<Q, S>(DefaultValidatorConfig())
  {
    assert DefaultRules<Q, S>(DefaultValidatorConfig())[1] == NonEmptyAlphabet;
  }

  /** `AutomatonBuilder`: the automaton under construction and the validator run on it. */
  class AutomatonBuilder<Q(==), S(==)> {
    const automaton: FiniteAutomaton<Q, S>
    const validator: InputValidator<Q, S>

    /** `NewBuilder`: a fresh automaton and a validator with the default configuration. */
    constructor (initialState: Q, stateType: StateType<Q>)
      ensures fresh(automaton) && fresh(validator)
      ensures automaton.Tuple() == FiveTuple({}, {}, initialState, {}, map[])
      ensures automaton.currentState == initialState
      ensures validator.rules == DefaultRules(DefaultValidatorConfig()) && validator.stateType == stateType
      ensures StructuralFirst()
    {
      automaton := new FiniteAutomaton(initialState);
      validator := new InputValidator(DefaultValidatorConfig(), stateType);
    }

    /** `NewBuilderWithValidation`: as `NewBuilder` with a caller-chosen configuration. */
    constructor WithValidation(initialState: Q, config: ValidatorConfig, stateType: StateType<Q>)
      ensures fresh(automaton) && fresh(validator)
      ensures automaton.Tuple() == FiveTuple({}, {}, initialState, {}, map[])
      ensures automaton.currentState == initialState
      ensures validator.rules == DefaultRules(config) && validator.stateType == stateType
      ensures StructuralFirst()
    {
      automaton := new FiniteAutomaton(initialState);
      validator := new InputValidator(config, stateType);
    }

    /** `WithStates` adds the states and always the initial state too. */
    method WithStates(states: seq<Q>)
      modifies automaton`states
      ensures automaton.states == old(automaton.states) + Elements(states) + {automaton.initialState}
    {
      automaton.AddStates(states);
      automaton.AddState(automaton.initialState);
    }

    method WithAlphabet(symbols: seq<S>)
      modifies automaton`alphabet
      ensures automaton.alphabet == old(automaton.alphabet) + Elements(symbols)
    {
      automaton.AddSymbols(symbols);
    }

    method WithAcceptingStates(states: seq<Q>)
      modifies automaton`acceptingStates
      ensures automaton.acceptingStates == old(automaton.acceptingStates) + Elements(states)
    {
      automaton.AddAcceptingStates(states);
    }

    method WithTransition(from: Q, symbol: S, to: Q)
      modifies automaton`transitions
      ensures automaton.transitions == SetTransition(old(automaton.transitions), from, symbol, to)
    {
      automaton.AddTransition(from, symbol, to);
    }

    /** `WithTransitions` adds the triples in order, so a later triple for the same entry
        replaces an earlier one. */
    method WithTransitions(ts: seq<Transition<Q, S>>)
      modifies automaton`transitions
      ensures automaton.transitions == FoldTransitions(old(automaton.transitions), ts)
    {
      for i := 0 to |ts|
        invariant automaton.transitions == FoldTransitions(old(automaton.transitions), ts[..i])
      {
        assert ts[..i + 1][..i] == ts[..i];
        automaton.AddTransition(ts[i].from, ts[i].symbol, ts[i].to);
      }
      assert ts[..|ts|] == ts;
    }

    /** The validator's rules start with the six structural rules, as every validator the
        builder creates does. */
    ghost predicate StructuralFirst()
      reads validator
    {
      |validator.rules| >= 6 && validator.rules[..6] == StructuralRules()
    }

    /** Every rule of the validator holds of the automaton. */
    ghost predicate ValidatorPasses()
      reads automaton, validator
    {
      forall i :: 0 <= i < |validator.rules| ==> Holds(validator.rules[i], automaton.Tuple(), validator.stateType)
    }

    /** `Build`: the validator's collected errors if any rule fails, else the first
        structural violation if `Validate` finds one, else the automaton itself. */
    method Build() returns (r: Result<FiniteAutomaton<Q, S>, Error<Q, S>>)
      ensures r.Success? <==> ValidatorPasses() && WellFormed(automaton.Tuple())
      ensures StructuralFirst() ==> (r.Success? <==> ValidatorPasses())
      ensures r.Success? ==> r.value == automaton
      ensures !ValidatorPasses() ==>
        exists errs :: (&& Collected(validator.rules, automaton.Tuple(), validator.stateType, errs)
                        && errs != [] && r == Failure(CollectorError(errs)))
    {
      var err := validator.Validate(automaton);
      if err.Some? {
        return Failure(err.value);
      }
      if StructuralFirst() {
        StructuralPrefixImpliesWellFormed(validator.rules, automaton.Tuple(), validator.stateType);
      }
      err := automaton.Validate();
      if err.Some? {
        return Failure(err.value);
      }
      return Success(automaton);
    }

    /** `MustBuild`: panics where `Build` fails, so a caller must establish that it
        succeeds. */
    method MustBuild() returns (fa: FiniteAutomaton<Q, S>)
      requires ValidatorPasses() && WellFormed(automaton.Tuple())
      ensures fa == automaton
    {
      var r := Build();
      fa := r.value;
    }
  }
}
