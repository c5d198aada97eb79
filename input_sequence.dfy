/** Checks and clean-up applied to an input sequence before it is run
    (fsm/validation.go, `SanitizeInput` and `ValidateInputSequence`). */
module InputSequence {
  import opened Wrappers
  import opened Errors

  // Message templates
  const NilInputMsg := "input sequence cannot be nil"
  const SymbolAtPositionMsg := "symbol at position %d is not in alphabet"

  /** The input with every zero-valued symbol dropped, in the original order. */
  function WithoutZero<S(==)>(s: seq<S>, zero: S): seq<S> {
    if s == [] then []
    else WithoutZero(s[..|s| - 1], zero) + (if Last(s) != zero then [Last(s)] else [])
  }

  /** Dropping zeros distributes over concatenation, so the relative order of what is kept
      is the order of the input. */
  lemma {:induction false} WithoutZeroAppend<S>(s: seq<S>, t: seq<S>, zero: S)
    ensures WithoutZero(s + t, zero) == WithoutZero(s, zero) + WithoutZero(t, zero)
    decreases |t|
  {
    if t != [] {
      var t' := t[..|t| - 1];
      assert (s + t)[..|s + t| - 1] == s + t';
      WithoutZeroAppend(s, t', zero);
    } else {
      assert s + t == s;
    }
  }

  /** The result never grows, holds no zero, and keeps every other symbol as often as the
      input has it. */
  lemma {:induction false} WithoutZeroContents<S>(s: seq<S>, zero: S)
    ensures |WithoutZero(s, zero)| <= |s|
    ensures zero !in WithoutZero(s, zero)
    ensures forall x :: x != zero ==> multiset(WithoutZero(s, zero))[x] == multiset(s)[x]
    decreases |s|
  {
    if s != [] {
      var init := s[..|s| - 1];
      WithoutZeroContents(init, zero);
      assert s == init + [Last(s)];
      assert multiset(s) == multiset(init) + multiset{Last(s)};
    }
  }

  /** Sanitising twice is sanitising once. */
  lemma {:induction false} WithoutZeroIdempotent<S>(s: seq<S>, zero: S)
    ensures WithoutZero(WithoutZero(s, zero), zero) == WithoutZero(s, zero)
    decreases |s|
  {
    if s != [] {
      var init := s[..|s| - 1];
      var tail := if Last(s) != zero then [Last(s)] else [];
      WithoutZeroIdempotent(init, zero);
      WithoutZeroAppend(WithoutZero(init, zero), tail, zero);
      if Last(s) != zero {
        assert [Last(s)][..0] == [];
        assert WithoutZero(tail, zero) == tail;
      }
    }
  }

  /** `SanitizeInput`: nil becomes the empty sequence; otherwise the zero-valued symbols are
      removed. */
  method SanitizeInput<S(==)>(input: Slice<S>, zero: S) returns (r: seq<S>)
    ensures r == WithoutZero(input.Items(), zero)
  {
    if input.Nil? {
      return [];
    }
    var s := input.items;
    r := [];
    var i := 0;
    while i < |s|
      invariant 0 <= i <= |s|
      invariant r == WithoutZero(s[..i], zero)
    {
      assert s[..i + 1][..i] == s[..i];
      if s[i] != zero {
        r := r + [s[i]];
      }
      i := i + 1;
    }
    assert s[..|s|] == s;
  }

  /** The smallest position whose symbol is outside the alphabet, if any. */
  function FirstOutside<S(==)>(s: seq<S>, alphabet: set<S>): (r: Option<nat>)
    ensures r.None? <==> forall i :: 0 <= i < |s| ==> s[i] in alphabet
    ensures r.Some? ==> r.value < |s| && s[r.value] !in alphabet
    ensures r.Some? ==> forall j :: 0 <= j < r.value ==> s[j] in alphabet
  {
    if s == [] then None
    else if s[0] !in alphabet then Some(0)
    else match FirstOutside(s[1..], alphabet)
      case None => None
      case Some(k) => Some(k + 1)
  }

  /** What `ValidateInputSequence` reports: nil input is an error at position 0 (carrying the
      zero symbol); otherwise the first symbol outside the alphabet is. */
  function InputSequenceError<Q, S(==)>(input: Slice<S>, alphabet: set<S>, zero: S): (r: Option<Error<Q, S>>)
    ensures r.None? <==> input.Of? && forall i :: 0 <= i < |input.items| ==> input.items[i] in alphabet
    ensures r.Some? ==> IsInvalidInputError(r.value)
    ensures input.Nil? ==> r.Some? && "position" in r.value.context && r.value.context["position"] == IntValue(0)
  {
    if input.Nil? then
      Some(NewInvalidInputError(zero, 0, Fixed(NilInputMsg)))
    else
      match FirstOutside(input.items, alphabet)
      case None => None
      case Some(i) =>
        Some(NewInvalidInputError(input.items[i], i,
          Message(SymbolAtPositionMsg, [IntValue(i)])))
  }

  /** `ValidateInputSequence`: scans the input from the start and stops at the first symbol
      outside the alphabet. */
  method ValidateInputSequence<Q, S(==)>(input: Slice<S>, alphabet: set<S>, zero: S)
    returns (err: Option<Error<Q, S>>)
    ensures err.None? <==> input.Of? && forall i :: 0 <= i < |input.items| ==> input.items[i] in alphabet
    ensures err.Some? && input.Of? ==>
      (exists i :: 0 <= i < |input.items| && input.items[i] !in alphabet
         && (forall j :: 0 <= j < i ==> input.items[j] in alphabet)
         && err.value == NewInvalidInputError(input.items[i], i,
              Message(SymbolAtPositionMsg, [IntValue(i)])))
    ensures err == InputSequenceError(input, alphabet, zero)
  {
    if input.Nil? {
      return Some(NewInvalidInputError(zero, 0, Fixed(NilInputMsg)));
    }
    var s := input.items;
    var i := 0;
    while i < |s|
      invariant 0 <= i <= |s|
      invariant forall j :: 0 <= j < i ==> s[j] in alphabet
    {
      if s[i] !in alphabet {
        err := Some(NewInvalidInputError(s[i], i,
          Message(SymbolAtPositionMsg, [IntValue(i)])));
        assert FirstOutside(s, alphabet) == Some(i);
        return;
      }
      i := i + 1;
    }
    return None;
  }
}
