/** The mod-three example (examples/modthree.go): a three-state automaton over {'0', '1'}
    whose state after reading a binary numeral is the numeral's remainder modulo 3. */
module ModThree {
  import opened Wrappers
  import opened Errors
  import opened Automaton
  import opened InputSequence
  import opened Validation
  import opened Builder
  import opened Processors

  // Message templates
  const NotAcceptedMsg := "input was not accepted by the automaton"
  const UnexpectedStateMsg := "unexpected final state: %v"
  const EmptyInputMsg := "input string cannot be empty"

  const RemainderZero := 0
  const RemainderOne := 1
  const RemainderTwo := 2

  /** `ModThreeState` is a string type. */
  type ModThreeState = string

  const S0: ModThreeState := "S0"
  const S1: ModThreeState := "S1"
  const S2: ModThreeState := "S2"

  /** The zero rune, Go's zero value of the symbol type. */
  const ZeroRune: char := 0 as char

  /** The transition table, in the order the source lists it. */
  function ModThreeTransitions(): seq<Transition<ModThreeState, char>> {
    [T(S0, '0', S0), T(S0, '1', S1),
     T(S1, '0', S2), T(S1, '1', S0),
     T(S2, '0', S1), T(S2, '1', S2)]
  }

  function ModThreeDelta(): map<ModThreeState, map<char, ModThreeState>> {
    map[S0 := map['0' := S0, '1' := S1],
        S1 := map['0' := S2, '1' := S0],
        S2 := map['0' := S1, '1' := S2]]
  }

  /** Q = {S0, S1, S2}, Σ = {'0', '1'}, q0 = S0, F = Q. */
  function ModThreeTuple(): FiveTuple<ModThreeState, char> {
    FiveTuple({S0, S1, S2}, {'0', '1'}, S0, {S0, S1, S2}, ModThreeDelta())
  }

  /** What the rules learn of `ModThreeState`: its zero value is "" and its kind is string,
      so a state's name is the state itself. */
  function ModThreeStateType(): StateType<ModThreeState> {
    StateType("", (q: ModThreeState) => Some(q))
  }

  /** The three state names are distinct. */
  lemma StatesDistinct()
    ensures S0 != S1 && S1 != S2 && S0 != S2
  {
    assert S0[1] != S1[1] && S1[1] != S2[1] && S0[1] != S2[1];
  }

  /** Adding two triples is two `SetTransition`s in order. */
  lemma FoldTwo<Q, S>(delta: map<Q, map<S, Q>>, x: Transition<Q, S>, y: Transition<Q, S>)
    ensures FoldTransitions(delta, [x, y])
      == SetTransition(SetTransition(delta, x.from, x.symbol, x.to), y.from, y.symbol, y.to)
  {
    assert [x, y][..1] == [x] && [x][..0] == [];
    assert FoldTransitions(delta, [x]) == SetTransition(delta, x.from, x.symbol, x.to);
  }

  /** Adding the six triples to an empty table yields exactly the table above. */
  lemma ModThreeTable()
    ensures FoldTransitions(map[], ModThreeTransitions()) == ModThreeDelta()
  {
    StatesDistinct();
    FoldRows(S0, S1, S2, S0, S1, S2, S0, S1, S2);
  }

  /** Two triples for each of three distinct states, on '0' then '1', make the three rows. */
  lemma FoldRows<Q>(p: Q, q: Q, r: Q, p0: Q, p1: Q, q0: Q, q1: Q, r0: Q, r1: Q)
    requires p != q && q != r && p != r
    ensures FoldTransitions(map[], [T(p, '0', p0), T(p, '1', p1), T(q, '0', q0), T(q, '1', q1), T(r, '0', r0), T(r, '1', r1)])
      == map[p := map['0' := p0, '1' := p1], q := map['0' := q0, '1' := q1], r := map['0' := r0, '1' := r1]]
  {
    var e: map<Q, map<char, Q>> := map[];
    var rowP := [T(p, '0', p0), T(p, '1', p1)];
    var rowQ := [T(q, '0', q0), T(q, '1', q1)];
    var rowR := [T(r, '0', r0), T(r, '1', r1)];
    assert [T(p, '0', p0), T(p, '1', p1), T(q, '0', q0), T(q, '1', q1), T(r, '0', r0), T(r, '1', r1)] == (rowP + rowQ) + rowR;
    FoldAppend(e, rowP + rowQ, rowR);
    FoldAppend(e, rowP, rowQ);
    FoldTwo(e, rowP[0], rowP[1]);
    RowOfTwo(e, p, p0, p1);
    var d2 := e[p := map['0' := p0, '1' := p1]];
    FoldTwo(d2, rowQ[0], rowQ[1]);
    RowOfTwo(d2, q, q0, q1);
    var d4 := d2[q := map['0' := q0, '1' := q1]];
    FoldTwo(d4, rowR[0], rowR[1]);
    RowOfTwo(d4, r, r0, r1);
  }

  /** Two transitions out of a state with none yet make its row. */
  lemma RowOfTwo<Q>(delta: map<Q, map<char, Q>>, q: Q, x: Q, y: Q)
    requires q !in delta
    ensures SetTransition(SetTransition(delta, q, '0', x), q, '1', y) == delta[q := map['0' := x, '1' := y]]
  {
  }

  /** q0 ∈ Q, F ⊆ Q, and δ is total on Q × Σ and stays inside Q. */
  lemma ModThreeWellFormed()
    ensures WellFormed(ModThreeTuple()) && TotalOn(ModThreeTuple())
  {
    var t := ModThreeTuple();
    assert t.delta.Keys == {S0, S1, S2};
    forall from | from in t.delta ensures from in t.states && RowWellFormed(t, from) {
      assert t.delta[from].Keys == {'0', '1'};
    }
    ModThreeTotal();
  }

  /** Every state has a transition on every symbol, into Q. */
  lemma ModThreeTotal()
    ensures TotalOn(ModThreeTuple())
  {
    var t := ModThreeTuple();
    ModThreeTracksRemainders();
    forall q, a | q in t.states && a in t.alphabet
      ensures Lookup(t.delta, q, a).Some? && Lookup(t.delta, q, a).value in t.states
    {
      DigitStep(t, q, a);
    }
  }

  lemma DigitStep(t: FiveTuple<ModThreeState, char>, q: ModThreeState, a: char)
    requires TracksRemainders(t) && (q == S0 || q == S1 || q == S2) && (a == '0' || a == '1')
    ensures Next(t, q, a).Success? && (Next(t, q, a).value == S0 || Next(t, q, a).value == S1 || Next(t, q, a).value == S2)
  {
  }

  /** Three states, two symbols, six transitions. */
  lemma ModThreeSizes()
    ensures |ModThreeTuple().states| == 3 && |ModThreeTuple().alphabet| == 2
    ensures TransitionCount(ModThreeTuple().delta) <= 6
  {
    StatesDistinct();
    ModThreeTable();
    FoldCount(map[], ModThreeTransitions());
    var empty: map<ModThreeState, map<char, ModThreeState>> := map[];
    assert Pairs(empty, empty.Keys) == {};
  }

  /** The automaton meets every default rule: it is well formed, Σ is not empty, and
      3 states, 2 symbols and 6 transitions are within the default ceilings. */
  lemma ModThreePassesDefaultRules()
    ensures forall i :: 0 <= i < |DefaultRules<ModThreeState, char>(DefaultValidatorConfig())| ==>
      Holds(DefaultRules<ModThreeState, char>(DefaultValidatorConfig())[i], ModThreeTuple(), ModThreeStateType())
  {
    ModThreeWellFormed();
    ModThreeSizes();
    DefaultRulesAccept(ModThreeTuple(), ModThreeStateType());
  }

  lemma ElementsOfTwo<T>(x: T, y: T)
    ensures {} + Elements([x, y]) == {x, y}
  {
    assert [x, y][1] == y;
  }

  /** Declaring x, y, z as states of an automaton whose initial state is x. */
  lemma StatesOfThree<T>(x: T, y: T, z: T)
    ensures {} + Elements([x, y, z]) + {x} == {x, y, z}
    ensures {} + Elements([x, y, z]) == {x, y, z}
  {
    assert [x, y, z][1] == y && [x, y, z][2] == z;
  }

  /** The builder of `NewModThreeAutomaton` once every declaration is made. */
  method ModThreeBuilder() returns (b: AutomatonBuilder<ModThreeState, char>)
    ensures fresh(b.automaton)
    ensures b.automaton.Tuple() == ModThreeTuple() && b.automaton.currentState == S0
    ensures b.validator.rules == DefaultRules(DefaultValidatorConfig())
    ensures b.validator.stateType == ModThreeStateType()
  {
    b := new AutomatonBuilder(S0, ModThreeStateType());
    var fa := b.automaton;
    StatesOfThree(S0, S1, S2);
    ElementsOfTwo('0', '1');
    b.WithStates([S0, S1, S2]);
    assert fa.states == {S0, S1, S2};
    assert fa.currentState == S0 && fa.transitions == map[];
    b.WithAlphabet(['0', '1']);
    assert fa.alphabet == {'0', '1'};
    assert fa.currentState == S0 && fa.transitions == map[];
    b.WithAcceptingStates([S0, S1, S2]);
    assert fa.acceptingStates == {S0, S1, S2};
    assert fa.currentState == S0 && fa.transitions == map[];
    b.WithTransitions(ModThreeTransitions());
    assert fa.transitions == ModThreeDelta() by {
      ModThreeTable();
    }
  }

  /** `NewModThreeAutomaton`: built through the builder, which accepts it. */
  method NewModThreeAutomaton() returns (fa: FiniteAutomaton<ModThreeState, char>)
    ensures fresh(fa)
    ensures fa.Tuple() == ModThreeTuple() && fa.currentState == S0
  {
    var b := ModThreeBuilder();
    ModThreeWellFormed();
    ModThreePassesDefaultRules();
    fa := b.MustBuild();
  }

  // ---------------------------------------------------------------------------------------
  // Binary numerals

  predicate IsBinary(s: string) {
    forall i :: 0 <= i < |s| ==> s[i] == '0' || s[i] == '1'
  }

  function Bit(c: char): nat {
    if c == '1' then 1 else 0
  }

  /** The value of a binary numeral, most significant digit first. */
  function BinaryValue(s: string): nat
    decreases |s|
  {
    if s == [] then 0 else 2 * BinaryValue(s[..|s| - 1]) + Bit(Last(s))
  }

  /** Leading zeros do not change the value. */
  lemma {:induction false} LeadingZero(s: string)
    ensures BinaryValue(['0'] + s) == BinaryValue(s)
    decreases |s|
  {
    if s != [] {
      var init := s[..|s| - 1];
      assert (['0'] + s)[..|['0'] + s| - 1] == ['0'] + init;
      LeadingZero(init);
    }
  }

  /** The state that stands for a remainder. */
  function StateOf(r: int): ModThreeState {
    if r == 0 then S0 else if r == 1 then S1 else S2
  }

  /** An automaton tracks remainders when, from the state of each remainder r, the digit c
      leads to the state of (2r + c) mod 3. */
  predicate TracksRemainders(t: FiveTuple<ModThreeState, char>) {
    && Next(t, S0, '0') == Success(S0) && Next(t, S0, '1') == Success(S1)
    && Next(t, S1, '0') == Success(S2) && Next(t, S1, '1') == Success(S0)
    && Next(t, S2, '0') == Success(S1) && Next(t, S2, '1') == Success(S2)
  }

  /** The mod-three table tracks remainders. */
  lemma ModThreeTracksRemainders()
    ensures TracksRemainders(ModThreeTuple())
  {
    assert ModThreeTuple().delta == ModThreeDelta();
  }

  /** One step from the state of v mod 3 on a digit reaches the state of (2v + digit) mod 3. */
  lemma RemainderStep(t: FiveTuple<ModThreeState, char>, v: nat, c: char)
    requires TracksRemainders(t) && (c == '0' || c == '1')
    ensures Next(t, StateOf(v % 3), c) == Success(StateOf((2 * v + Bit(c)) % 3))
  {
    var k := v / 3;
    assert 2 * v + Bit(c) == 3 * (2 * k) + (2 * (v % 3) + Bit(c));
  }

  /** The last digit of a binary numeral extends the run from the state of the value of
      the digits before it by the state of the whole value. */
  lemma RemainderWalkStep(t: FiveTuple<ModThreeState, char>, s: string)
    requires TracksRemainders(t) && s != [] && (Last(s) == '0' || Last(s) == '1')
    requires Walk(t, S0, s[..|s| - 1]).failure.None?
    requires Last(Walk(t, S0, s[..|s| - 1]).trace) == StateOf(BinaryValue(s[..|s| - 1]) % 3)
    ensures Walk(t, S0, s) == Run(Walk(t, S0, s[..|s| - 1]).trace + [StateOf(BinaryValue(s) % 3)], None)
  {
    RemainderStep(t, BinaryValue(s[..|s| - 1]), Last(s));
  }

  /** A run over a binary numeral from the state of remainder 0, in an automaton that tracks
      remainders, never fails, and after i digits it is in the state of the value of those
      digits modulo 3. */
  lemma {:induction false} RemainderWalk(t: FiveTuple<ModThreeState, char>, s: string)
    requires TracksRemainders(t) && IsBinary(s)
    ensures Walk(t, S0, s).failure.None?
    ensures forall i :: 0 <= i <= |s| ==> Walk(t, S0, s).trace[i] == StateOf(BinaryValue(s[..i]) % 3)
    decreases |s|
  {
    if s == [] {
      assert s[..0] == [];
    } else {
      var init := s[..|s| - 1];
      RemainderWalk(t, init);
      var prev := Walk(t, S0, init);
      assert Last(prev.trace) == StateOf(BinaryValue(init) % 3) by {
        assert init[..|init|] == init;
      }
      RemainderWalkStep(t, s);
      var w := Walk(t, S0, s);
      forall i | 0 <= i <= |s| ensures w.trace[i] == StateOf(BinaryValue(s[..i]) % 3) {
        if i < |s| {
          assert init[..i] == s[..i];
        } else {
          assert s[..i] == s;
        }
      }
    }
  }

  /** On a binary numeral the mod-three run never fails, and after i digits it is in the
      state of the value of those digits modulo 3. */
  lemma ModThreeWalk(s: string)
    requires IsBinary(s)
    ensures Walk(ModThreeTuple(), S0, s).failure.None?
    ensures forall i :: 0 <= i <= |s| ==> Walk(ModThreeTuple(), S0, s).trace[i] == StateOf(BinaryValue(s[..i]) % 3)
  {
    ModThreeTracksRemainders();
    RemainderWalk(ModThreeTuple(), s);
  }

  /** What `ModThree` makes of an accepted or rejected run ending in `finalState`. */
  function Remainder(accepted: bool, finalState: ModThreeState): (r: (int, Option<Error<ModThreeState, char>>))
    ensures 0 <= r.0 < 3
    ensures r.1.None? <==> accepted && finalState in {S0, S1, S2}
    ensures r.1.None? ==> StateOf(r.0) == finalState
  {
    if !accepted then (RemainderZero, Some(PlainError(Fixed(NotAcceptedMsg))))
    else if finalState == S0 then (RemainderZero, None)
    else if finalState == S1 then (RemainderOne, None)
    else if finalState == S2 then (RemainderTwo, None)
    else (RemainderZero, Some(PlainError(Message(UnexpectedStateMsg, [StateValue(finalState)]))))
  }

  /** `ModThree`: the remainder of a non-empty binary numeral modulo 3; the empty string and
      any string with another character are errors. */
  method ModThree(binaryString: string) returns (r: int, err: Option<Error<ModThreeState, char>>)
    ensures binaryString == [] ==> r == 0 && err == Some(PlainError(Fixed(EmptyInputMsg)))
    ensures binaryString != [] && IsBinary(binaryString) ==> err.None? && r == BinaryValue(binaryString) % 3
    ensures binaryString != [] && !IsBinary(binaryString) ==>
      r == 0 && err.Some? && err == InputSequenceError(Of(binaryString), {'0', '1'}, ZeroRune)
  {
    if binaryString == [] {
      return 0, Some(PlainError(Fixed(EmptyInputMsg)));
    }
    var fa := NewModThreeAutomaton();
    var accepted, e := fa.ProcessInput(Of(binaryString), ZeroRune);
    if IsBinary(binaryString) {
      ModThreeWalk(binaryString);
    }
    if e.Some? {
      return 0, e;
    }
    assert binaryString[..|binaryString|] == binaryString;
    var answer := Remainder(accepted, fa.currentState);
    r, err := answer.0, answer.1;
  }

  /** What `ModThreeWithTrace` makes of a run: a state outside Q leaves the result at 0
      without an error. */
  function TracedRemainder(accepted: bool, finalState: ModThreeState): (r: (int, Option<Error<ModThreeState, char>>))
    ensures 0 <= r.0 < 3
    ensures r.1.None? <==> accepted
    ensures r.1.None? && finalState in {S0, S1, S2} ==> StateOf(r.0) == finalState
  {
    if !accepted then (0, Some(PlainError(Fixed(NotAcceptedMsg))))
    else if finalState == S0 then (0, None)
    else if finalState == S1 then (1, None)
    else if finalState == S2 then (2, None)
    else (0, None)
  }

  /** `ModThreeWithTrace`: as `ModThree`, also returning the states visited, which for a
      binary numeral are the remainders of its successive prefixes. */
  method ModThreeWithTrace(binaryString: string)
    returns (r: int, trace: Slice<ModThreeState>, err: Option<Error<ModThreeState, char>>)
    ensures binaryString == [] ==> r == 0 && trace == Nil && err == Some(PlainError(Fixed(EmptyInputMsg)))
    ensures binaryString != [] && IsBinary(binaryString) ==>
      && err.None? && r == BinaryValue(binaryString) % 3
      && trace.Of? && |trace.items| == |binaryString| + 1
      && forall i :: 0 <= i <= |binaryString| ==> trace.items[i] == StateOf(BinaryValue(binaryString[..i]) % 3)
    ensures binaryString != [] && !IsBinary(binaryString) ==>
      r == 0 && trace == Nil && err.Some? && err == InputSequenceError(Of(binaryString), {'0', '1'}, ZeroRune)
  {
    if binaryString == [] {
      return 0, Nil, Some(PlainError(Fixed(EmptyInputMsg)));
    }
    var fa := NewModThreeAutomaton();
    var accepted, e;
    trace, accepted, e := fa.ProcessInputWithTrace(Of(binaryString), ZeroRune);
    if IsBinary(binaryString) {
      ModThreeWalk(binaryString);
    }
    if e.Some? {
      return 0, trace, e;
    }
    assert binaryString[..|binaryString|] == binaryString;
    var answer := TracedRemainder(accepted, fa.currentState);
    r, err := answer.0, answer.1;
  }

  /** The optimized processor's cache key is the input length only, so "10" and "01" share
      a key although standard processing ends them in different states: whichever is
      processed first is what the other is answered with. */
  lemma CacheKeyConflatesEqualLengths()
    ensures CacheKey(|"10"|) == CacheKey(|"01"|)
    ensures StandardOutcome(ModThreeTuple(), "10").result.finalState == S2
    ensures StandardOutcome(ModThreeTuple(), "01").result.finalState == S1
  {
    assert BinaryValue("10") == 2 by {
      assert "10"[..1] == "1";
      assert "1"[..0] == [];
    }
    assert BinaryValue("01") == 1 by {
      assert "01"[..1] == "0";
      assert "0"[..0] == [];
    }
    assert StateOf(BinaryValue("10") % 3) == S2 && StateOf(BinaryValue("01") % 3) == S1;
    StandardModThree("10");
    StandardModThree("01");
  }

  /** Standard processing of a binary numeral ends in the state of its remainder, and
      accepts it. */
  lemma StandardModThree(s: string)
    requires IsBinary(s)
    ensures StandardOutcome(ModThreeTuple(), s).err.None?
    ensures StandardOutcome(ModThreeTuple(), s).result.accepted
    ensures StandardOutcome(ModThreeTuple(), s).result.finalState == StateOf(BinaryValue(s) % 3)
  {
    ModThreeWalk(s);
    assert s[..|s|] == s;
  }
}
