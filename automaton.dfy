/** The finite automaton (Q, Σ, q0, F, δ) with its current state: unchecked insertion,
    checked stepping, batch processing with and without a trace, and the first-violation
    structural check (fsm/automaton.go). */
module Automaton {
  import opened Wrappers
  import opened Errors
  import opened InputSequence

  // Message templates
  const SymbolNotInAlphabetMsg := "symbol not in alphabet: %v"
  const NoTransitionMsg := "no transition defined for state %v with symbol %v"
  const SourceNotInQMsg := "transition from state %v, but state is not in Q"
  const SymbolNotInSigmaMsg := "transition uses symbol %v, but symbol is not in Σ"
  const TargetNotInQMsg := "transition to state %v, but state is not in Q"
  const InitialNotInQMsg := "initial state %v is not in the set of states Q"
  const AcceptingNotInQMsg := "accepting state %v is not in the set of states Q"

  /** The 5-tuple, with δ as the source keeps it: a map from a state to its row of
      symbol-to-target entries. */
  datatype FiveTuple<Q, S> = FiveTuple(states: set<Q>, alphabet: set<S>, initial: Q,
                                       accepting: set<Q>, delta: map<Q, map<S, Q>>)

  /** δ(q, a), when defined. */
  function Lookup<Q, S>(delta: map<Q, map<S, Q>>, q: Q, a: S): Option<Q> {
    if q in delta && a in delta[q] then Some(delta[q][a]) else None
  }

  /** δ after `AddTransition(from, a, to)`: the one entry (from, a) now yields `to`, earlier
      target or not, and every other entry is as it was. */
  function SetTransition<Q, S>(delta: map<Q, map<S, Q>>, from: Q, a: S, to: Q): (r: map<Q, map<S, Q>>)
    ensures r.Keys == delta.Keys + {from}
    ensures Lookup(r, from, a) == Some(to)
  {
    delta[from := (if from in delta then delta[from] else map[])[a := to]]
  }

  /** Setting one entry leaves every other entry of δ as it was. */
  lemma SetTransitionOthers<Q, S>(delta: map<Q, map<S, Q>>, from: Q, a: S, to: Q, q: Q, b: S)
    requires q != from || b != a
    ensures Lookup(SetTransition(delta, from, a, to), q, b) == Lookup(delta, q, b)
  {
  }

  /** What one `Step` on symbol `a` from state `q` yields: the alphabet is checked first,
      then the transition table. */
  function Next<Q, S>(t: FiveTuple<Q, S>, q: Q, a: S): Result<Q, Error<Q, S>> {
    if a !in t.alphabet then
      Failure(PlainError(Message(SymbolNotInAlphabetMsg, [SymbolValue(a)])))
    else match Lookup(t.delta, q, a)
      case None =>
        Failure(PlainError(Message(NoTransitionMsg,
                                   [StateValue(q), SymbolValue(a)])))
      case Some(target) => Success(target)
  }

  /** The outcome of feeding a sequence: the states reached, and the error that stopped the
      run if one did. */
  datatype Run<Q, S> = Run(trace: seq<Q>, failure: Option<Error<Q, S>>)

  /** The fold of `Next` over the input from state `q`, stopping at the first failure. */
  function Walk<Q, S>(t: FiveTuple<Q, S>, q: Q, input: seq<S>): (r: Run<Q, S>)
    ensures 1 <= |r.trace| <= |input| + 1 && r.trace[0] == q
    ensures r.failure.None? <==> |r.trace| == |input| + 1
    decreases |input|
  {
    if input == [] then Run([q], None)
    else
      var prev := Walk(t, q, input[..|input| - 1]);
      if prev.failure.Some? then prev
      else match Next(t, Last(prev.trace), Last(input))
        case Failure(e) => Run(prev.trace, Some(e))
        case Success(target) => Run(prev.trace + [target], None)
  }

  /** The empty input leaves a run at its start state with nothing failed, so processing it
      accepts exactly when q0 ∈ F. */
  lemma WalkOfEmpty<Q, S>(t: FiveTuple<Q, S>, q: Q)
    ensures Walk(t, q, []) == Run([q], None)
  {
  }

  /** The trace is a chain of steps: each state follows from the one before on the matching
      input symbol, and a failure is exactly the failure of the next step. */
  lemma {:induction false} WalkIsChain<Q, S>(t: FiveTuple<Q, S>, q: Q, input: seq<S>)
    ensures var w := Walk(t, q, input);
      forall i :: 0 <= i < |w.trace| - 1 ==> Next(t, w.trace[i], input[i]) == Success(w.trace[i + 1])
    ensures var w := Walk(t, q, input);
      w.failure.Some? ==> Next(t, Last(w.trace), input[|w.trace| - 1]) == Failure(w.failure.value)
    decreases |input|
  {
    if input != [] {
      var init := input[..|input| - 1];
      WalkIsChain(t, q, init);
      var prev := Walk(t, q, init);
      assert forall i :: 0 <= i < |init| ==> init[i] == input[i];
    }
  }

  /** Once a run has failed, further input is never consumed. */
  lemma {:induction false} WalkAfterFailure<Q, S>(t: FiveTuple<Q, S>, q: Q, s: seq<S>, rest: seq<S>)
    requires Walk(t, q, s).failure.Some?
    ensures Walk(t, q, s + rest) == Walk(t, q, s)
    decreases |rest|
  {
    if rest == [] {
      assert s + rest == s;
    } else {
      var init := rest[..|rest| - 1];
      assert (s + rest)[..|s + rest| - 1] == s + init;
      WalkAfterFailure(t, q, s, init);
    }
  }

  /** One more symbol after a run that has not failed: a successful step extends the trace,
      a failed one ends the whole run there. */
  lemma WalkExtend<Q, S>(t: FiveTuple<Q, S>, q: Q, s: seq<S>, i: int, trace: seq<Q>)
    requires 0 <= i < |s| && Walk(t, q, s[..i]) == Run(trace, None)
    ensures var r := Next(t, Last(trace), s[i]);
      && (r.Success? ==> Walk(t, q, s[..i + 1]) == Run(trace + [r.value], None))
      && (r.Failure? ==> Walk(t, q, s) == Run(trace, Some(r.error)))
  {
    assert s[..i + 1][..i] == s[..i];
    if Next(t, Last(trace), s[i]).Failure? {
      WalkAfterFailure(t, q, s[..i + 1], s[i + 1..]);
      assert s[..i + 1] + s[i + 1..] == s;
    }
  }

  /** Feeding `s` and then `rest` is feeding `rest` from where `s` ended. */
  lemma {:induction false} WalkAppend<Q, S>(t: FiveTuple<Q, S>, q: Q, s: seq<S>, rest: seq<S>)
    requires Walk(t, q, s).failure.None?
    ensures var w := Walk(t, q, s); var v := Walk(t, Last(w.trace), rest);
      Walk(t, q, s + rest) == Run(w.trace[..|w.trace| - 1] + v.trace, v.failure)
    decreases |rest|
  {
    var w := Walk(t, q, s);
    if rest == [] {
      assert s + rest == s;
      assert w.trace == w.trace[..|w.trace| - 1] + [Last(w.trace)];
    } else {
      var init := rest[..|rest| - 1];
      assert (s + rest)[..|s + rest| - 1] == s + init;
      assert Last(s + rest) == Last(rest);
      WalkAppend(t, q, s, init);
    }
  }

  /** When every input symbol is in Σ, a run can only stop at an undefined transition. */
  lemma {:induction false} WalkFailsOnlyOnMissingTransition<Q, S>(t: FiveTuple<Q, S>, q: Q, input: seq<S>)
    requires forall i :: 0 <= i < |input| ==> input[i] in t.alphabet
    ensures var w := Walk(t, q, input);
      w.failure.Some? ==>
        (&& Lookup(t.delta, Last(w.trace), input[|w.trace| - 1]).None?
         && w.failure.value == PlainError(Message(NoTransitionMsg,
              [StateValue(Last(w.trace)), SymbolValue(input[|w.trace| - 1])])))
  {
    WalkIsChain(t, q, input);
  }

  /** δ is defined, inside Q, for every state of Q and every symbol of Σ. */
  ghost predicate TotalOn<Q, S>(t: FiveTuple<Q, S>) {
    forall q, a :: q in t.states && a in t.alphabet ==>
      Lookup(t.delta, q, a).Some? && Lookup(t.delta, q, a).value in t.states
  }

  /** A total transition table runs every input over Σ to the end, never leaving Q. */
  lemma {:induction false} WalkOfTotal<Q, S>(t: FiveTuple<Q, S>, q: Q, input: seq<S>)
    requires TotalOn(t) && q in t.states
    requires forall i :: 0 <= i < |input| ==> input[i] in t.alphabet
    ensures Walk(t, q, input).failure.None?
    ensures forall i :: 0 <= i < |Walk(t, q, input).trace| ==> Walk(t, q, input).trace[i] in t.states
    decreases |input|
  {
    if input != [] {
      WalkOfTotal(t, q, input[..|input| - 1]);
    }
  }

  /** The structural conditions `Validate` checks: q0 ∈ Q, F ⊆ Q, and every transition goes
      from a state of Q on a symbol of Σ to a state of Q. Σ may be empty. */
  ghost predicate WellFormed<Q, S>(t: FiveTuple<Q, S>) {
    && t.initial in t.states
    && t.accepting <= t.states
    && forall from :: from in t.delta ==> from in t.states && RowWellFormed(t, from)
  }

  ghost predicate RowWellFormed<Q, S>(t: FiveTuple<Q, S>, from: Q)
    requires from in t.delta
  {
    forall a :: a in t.delta[from] ==> a in t.alphabet && t.delta[from][a] in t.states
  }

  /** The errors `Validate` may report once q0 ∈ Q and F ⊆ Q hold: which transition is
      named depends on map iteration order, so any offending one may be. */
  ghost predicate TransitionDefect<Q, S>(t: FiveTuple<Q, S>, e: Error<Q, S>) {
    || (exists from :: from in t.delta && from !in t.states
          && e == PlainError(Message(SourceNotInQMsg, [StateValue(from)])))
    || (exists from, a :: from in t.delta && from in t.states && a in t.delta[from] && a !in t.alphabet
          && e == PlainError(Message(SymbolNotInSigmaMsg, [SymbolValue(a)])))
    || (exists from, a :: from in t.delta && from in t.states && a in t.delta[from] && a in t.alphabet
          && t.delta[from][a] !in t.states
          && e == PlainError(Message(TargetNotInQMsg, [StateValue(t.delta[from][a])])))
  }

  /** A finite automaton, built by unchecked insertions and run through its current state. */
  class FiniteAutomaton<Q(==), S(==)> {
    var states: set<Q>
    var alphabet: set<S>
    const initialState: Q
    var acceptingStates: set<Q>
    var transitions: map<Q, map<S, Q>>
    var currentState: Q

    /** The 5-tuple the automaton currently holds. */
    function Tuple(): FiveTuple<Q, S>
      reads this`states, this`alphabet, this`acceptingStates, this`transitions
    {
      FiveTuple(states, alphabet, initialState, acceptingStates, transitions)
    }

    /** `New`: empty Q, Σ, F and δ; the current state is the initial state. */
    constructor (initialState: Q)
      ensures states == {} && alphabet == {} && acceptingStates == {} && transitions == map[]
      ensures this.initialState == initialState && currentState == initialState
    {
      this.initialState := initialState;
      states, alphabet, acceptingStates, transitions := {}, {}, {}, map[];
      currentState := initialState;
    }

    method AddState(q: Q)
      modifies this`states
      ensures states == old(states) + {q}
    {
      states := states + {q};
    }

    method AddStates(qs: seq<Q>)
      modifies this`states
      ensures states == old(states) + Elements(qs)
    {
      for i := 0 to |qs|
        invariant states == old(states) + Elements(qs[..i])
      {
        assert Elements(qs[..i + 1]) == Elements(qs[..i]) + {qs[i]};
        states := states + {qs[i]};
      }
      assert qs[..|qs|] == qs;
    }

    method AddSymbol(a: S)
      modifies this`alphabet
      ensures alphabet == old(alphabet) + {a}
    {
      alphabet := alphabet + {a};
    }

    method AddSymbols(symbols: seq<S>)
      modifies this`alphabet
      ensures alphabet == old(alphabet) + Elements(symbols)
    {
      for i := 0 to |symbols|
        invariant alphabet == old(alphabet) + Elements(symbols[..i])
      {
        assert Elements(symbols[..i + 1]) == Elements(symbols[..i]) + {symbols[i]};
        alphabet := alphabet + {symbols[i]};
      }
      assert symbols[..|symbols|] == symbols;
    }

    /** No check that the state is in Q: that is left to validation. */
    method AddAcceptingState(q: Q)
      modifies this`acceptingStates
      ensures acceptingStates == old(acceptingStates) + {q}
      ensures IsAcceptingState(q)
    {
      acceptingStates := acceptingStates + {q};
    }

    method AddAcceptingStates(qs: seq<Q>)
      modifies this`acceptingStates
      ensures acceptingStates == old(acceptingStates) + Elements(qs)
    {
      for i := 0 to |qs|
        invariant acceptingStates == old(acceptingStates) + Elements(qs[..i])
      {
        assert Elements(qs[..i + 1]) == Elements(qs[..i]) + {qs[i]};
        acceptingStates := acceptingStates + {qs[i]};
      }
      assert qs[..|qs|] == qs;
    }

    /** δ(from, a) := to, with no membership checks. */
    method AddTransition(from: Q, a: S, to: Q)
      modifies this`transitions
      ensures transitions == SetTransition(old(transitions), from, a, to)
    {
      var row := if from in transitions then transitions[from] else map[];
      transitions := transitions[from := row[a := to]];
    }

    /** Membership in F, so false for any state never added as accepting. */
    predicate IsAcceptingState(q: Q)
      reads this`acceptingStates
    {
      q in acceptingStates
    }

    predicate IsCurrentStateAccepting()
      reads this`acceptingStates, this`currentState
    {
      currentState in acceptingStates
    }

    method Reset()
      modifies this`currentState
      ensures currentState == initialState
    {
      currentState := initialState;
    }

    /** `Step`: a symbol outside Σ fails before any lookup, an undefined transition fails,
        and only success moves the current state. */
    method Step(a: S) returns (r: Result<Q, Error<Q, S>>)
      modifies this`currentState
      ensures r == Next(Tuple(), old(currentState), a)
      ensures currentState == if r.Success? then r.value else old(currentState)
    {
      if a !in alphabet {
        return Failure(PlainError(Message(SymbolNotInAlphabetMsg, [SymbolValue(a)])));
      }
      if currentState !in transitions || a !in transitions[currentState] {
        return Failure(PlainError(Message(NoTransitionMsg,
                                          [StateValue(currentState), SymbolValue(a)])));
      }
      currentState := transitions[currentState][a];
      return Success(currentState);
    }

    /** `ProcessInput`: the whole input is checked against Σ before anything else; then the
        automaton is reset and stepped symbol by symbol, stopping at the first failure. */
    method ProcessInput(input: Slice<S>, zero: S) returns (accepted: bool, err: Option<Error<Q, S>>)
      modifies this`currentState
      ensures InputSequenceError<Q, S>(input, alphabet, zero).Some? ==>
        !accepted && err == InputSequenceError(input, alphabet, zero) && currentState == old(currentState)
      ensures InputSequenceError<Q, S>(input, alphabet, zero).None? ==>
        var w := Walk(Tuple(), initialState, input.items);
        && err == w.failure && currentState == Last(w.trace)
        && accepted == (w.failure.None? && Last(w.trace) in acceptingStates)
    {
      err := ValidateInputSequence(input, alphabet, zero);
      if err.Some? {
        return false, err;
      }
      Reset();
      var s := input.items;
      ghost var trace := [currentState];
      for i := 0 to |s|
        invariant Walk(Tuple(), initialState, s[..i]) == Run(trace, None)
        invariant currentState == Last(trace)
      {
        var r := Step(s[i]);
        WalkExtend(Tuple(), initialState, s, i, trace);
        if r.Failure? {
          return false, Some(r.error);
        }
        trace := trace + [currentState];
      }
      assert s[..|s|] == s;
      return IsCurrentStateAccepting(), None;
    }

    /** `ProcessInputWithTrace`: as `ProcessInput`, also returning the states reached — nil
        when the input check fails, the prefix reached when a step fails. */
    method ProcessInputWithTrace(input: Slice<S>, zero: S)
      returns (trace: Slice<Q>, accepted: bool, err: Option<Error<Q, S>>)
      modifies this`currentState
      ensures InputSequenceError<Q, S>(input, alphabet, zero).Some? ==>
        trace == Nil && !accepted && err == InputSequenceError(input, alphabet, zero)
        && currentState == old(currentState)
      ensures InputSequenceError<Q, S>(input, alphabet, zero).None? ==>
        var w := Walk(Tuple(), initialState, input.items);
        && trace == Of(w.trace) && err == w.failure && currentState == Last(w.trace)
        && accepted == (w.failure.None? && Last(w.trace) in acceptingStates)
    {
      err := ValidateInputSequence(input, alphabet, zero);
      if err.Some? {
        return Nil, false, err;
      }
      Reset();
      var s := input.items;
      var states := [currentState];
      for i := 0 to |s|
        invariant Walk(Tuple(), initialState, s[..i]) == Run(states, None)
        invariant currentState == Last(states)
      {
        var r := Step(s[i]);
        WalkExtend(Tuple(), initialState, s, i, states);
        if r.Failure? {
          return Of(states), false, Some(r.error);
        }
        states := states + [currentState];
      }
      assert s[..|s|] == s;
      return Of(states), IsCurrentStateAccepting(), None;
    }

    /** `Validate`: reports only the first violation, checking q0 ∈ Q, then F ⊆ Q, then the
        transitions; an empty alphabet passes. */
    method Validate() returns (err: Option<Error<Q, S>>)
      ensures err.None? <==> WellFormed(Tuple())
      ensures initialState !in states ==>
        err == Some(PlainError(Message(InitialNotInQMsg,
                                       [StateValue(initialState)])))
      ensures initialState in states && !(acceptingStates <= states) ==>
        exists q :: q in acceptingStates && q !in states
          && err == Some(PlainError(Message(AcceptingNotInQMsg, [StateValue(q)])))
      ensures initialState in states && acceptingStates <= states && err.Some? ==>
        TransitionDefect(Tuple(), err.value)
    {
      if initialState !in states {
        return Some(PlainError(Message(InitialNotInQMsg,
                                       [StateValue(initialState)])));
      }
      var pending := acceptingStates;
      while pending != {}
        invariant pending <= acceptingStates
        invariant forall q :: q in acceptingStates && q !in pending ==> q in states
        decreases |pending|
      {
        var q :| q in pending;
        if q !in states {
          return Some(PlainError(Message(AcceptingNotInQMsg, [StateValue(q)])));
        }
        pending := pending - {q};
      }
      var froms := transitions.Keys;
      while froms != {}
        invariant froms <= transitions.Keys
        invariant forall from :: from in transitions && from !in froms ==>
          from in states && RowWellFormed(Tuple(), from)
        decreases |froms|
      {
        var from :| from in froms;
        if from !in states {
          return Some(PlainError(Message(SourceNotInQMsg, [StateValue(from)])));
        }
        var row := transitions[from];
        var symbols := row.Keys;
        while symbols != {}
          invariant symbols <= row.Keys
          invariant forall a :: a in row && a !in symbols ==> a in alphabet && row[a] in states
          decreases |symbols|
        {
          var a :| a in symbols;
          if a !in alphabet {
            return Some(PlainError(Message(SymbolNotInSigmaMsg, [SymbolValue(a)])));
          }
          if row[a] !in states {
            return Some(PlainError(Message(TargetNotInQMsg, [StateValue(row[a])])));
          }
          symbols := symbols - {a};
        }
        froms := froms - {from};
      }
      return None;
    }
  }
}
