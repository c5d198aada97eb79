/** The rule-based validator (fsm/validation.go): configuration presets, the built-in rules,
    and an `InputValidator` that runs its rules in order and collects every violation. */
module Validation {
  import opened Wrappers
  import opened Errors
  import opened Automaton

  // Message templates
  const UnreachableMsg := "state %v is unreachable from initial state"
  const BlankNameMsg := "state names cannot be empty or whitespace-only"
  const MultiWordNameMsg := "state name '%s' contains multiple words (consider using underscores)"
  const LongNameMsg := "state name '%s' is too long (max %d characters)"
  const AcceptingOutsideMsg := "accepting state %v is not in the set of states"
  const SourceOutsideMsg := "transition from state %v is not in the set of states"
  const TargetOutsideMsg := "transition to state %v is not in the set of states"
  const SymbolOutsideMsg := "transition symbol %v is not in the alphabet"
  const MissingTransitionMsg := "missing transition from state %v with symbol %v"
  const NoStatesMsg := "automaton must have at least one state"
  const NoSymbolsMsg := "automaton must have at least one symbol in alphabet"
  const InitialOutsideMsg := "initial state %v is not in the set of states"
  const TooManyStatesMsg := "number of states (%d) exceeds maximum allowed (%d)"
  const AlphabetTooLargeMsg := "alphabet size (%d) exceeds maximum allowed (%d)"
  const TooManyTransitionsMsg := "number of transitions (%d) exceeds maximum allowed (%d)"

  const DefaultMaxStates := 1000
  const DefaultMaxAlphabetSize := 100
  const DefaultMaxTransitions := 10000
  const StrictMaxStates := 100
  const StrictMaxAlphabetSize := 50
  const StrictMaxTransitions := 1000
  /** The longest state name accepted in strict mode, in bytes of UTF-8. */
  const MaxStateNameLength := 50

  /** A limit of 0 or less means "no limit". */
  datatype ValidatorConfig = ValidatorConfig(
    strictMode: bool,
    maxStates: int,
    maxAlphabetSize: int,
    maxTransitions: int,
    requireCompleteTransitions: bool)

  function DefaultValidatorConfig(): ValidatorConfig {
    ValidatorConfig(false, DefaultMaxStates, DefaultMaxAlphabetSize, DefaultMaxTransitions, false)
  }

  function StrictValidatorConfig(): ValidatorConfig {
    ValidatorConfig(true, StrictMaxStates, StrictMaxAlphabetSize, StrictMaxTransitions, true)
  }

  /** What the rules need to know about the state type Q at run time: its zero value, and
      the `%v` text of a state when Q is a string kind (None for any other kind). */
  datatype StateType<!Q> = StateType(zero: Q, name: Q -> Option<string>)

  /** A validation rule. `Custom` is a rule added by the caller, seen through the 5-tuple
      it is handed. */
  datatype Rule<!Q, !S> =
    | NonEmptyStates
    | NonEmptyAlphabet
    | InitialStateInStates
    | AcceptingStatesInStates
    | TransitionStatesInStates
    | TransitionSymbolsInAlphabet
    | MaxStates(limit: int)
    | MaxAlphabetSize(limit: int)
    | MaxTransitions(limit: int)
    | CompleteTransitions
    | NoUnreachableStates
    | NoDuplicateTransitions
    | StateNaming
    | Custom(check: FiveTuple<Q, S> -> Option<Error<Q, S>>)

  // ---------------------------------------------------------------------------------------
  // Counting transitions

  /** The (state, symbol) entries of δ in the rows of `keys`. */
  ghost function Pairs<Q, S>(delta: map<Q, map<S, Q>>, keys: set<Q>): set<(Q, S)> {
    set q, a | q in keys && q in delta && a in delta[q] :: (q, a)
  }

  /** The number of (state, symbol) entries of δ. */
  ghost function TransitionCount<Q, S>(delta: map<Q, map<S, Q>>): nat {
    |Pairs(delta, delta.Keys)|
  }

  lemma {:induction false} TaggedCount<Q, S>(q: Q, symbols: set<S>)
    ensures |set a | a in symbols :: (q, a)| == |symbols|
    decreases symbols
  {
    if symbols != {} {
      var a :| a in symbols;
      TaggedCount(q, symbols - {a});
      assert (set b | b in symbols :: (q, b)) == (set b | b in symbols - {a} :: (q, b)) + {(q, a)};
    }
  }

  lemma PairsAddRow<Q, S>(delta: map<Q, map<S, Q>>, keys: set<Q>, q: Q)
    requires q in delta && q !in keys
    ensures |Pairs(delta, keys + {q})| == |Pairs(delta, keys)| + |delta[q]|
  {
    var row := set a | a in delta[q] :: (q, a);
    assert Pairs(delta, keys + {q}) == Pairs(delta, keys) + row;
    assert Pairs(delta, keys) !! row;
    TaggedCount(q, delta[q].Keys);
  }

  /** The count the ceiling rule computes: the sizes of the rows of δ added up. */
  method CountTransitions<Q, S>(delta: map<Q, map<S, Q>>) returns (n: nat)
    ensures n == TransitionCount(delta)
  {
    n := 0;
    var pending := delta.Keys;
    while pending != {}
      invariant pending <= delta.Keys
      invariant n == |Pairs(delta, delta.Keys - pending)|
      decreases |pending|
    {
      var q :| q in pending;
      PairsAddRow(delta, delta.Keys - pending, q);
      assert (delta.Keys - pending) + {q} == delta.Keys - (pending - {q});
      n := n + |delta[q]|;
      pending := pending - {q};
    }
    assert delta.Keys - pending == delta.Keys;
  }

  /** Setting an entry of δ adds that entry to its entries and removes none. */
  lemma SetTransitionPairs<Q, S>(delta: map<Q, map<S, Q>>, from: Q, a: S, to: Q)
    ensures var r := SetTransition(delta, from, a, to);
      Pairs(r, r.Keys) == Pairs(delta, delta.Keys) + {(from, a)}
  {
    var r := SetTransition(delta, from, a, to);
    forall p | p in Pairs(r, r.Keys) ensures p in Pairs(delta, delta.Keys) + {(from, a)} {
      var (q, b) := p;
      if p != (from, a) {
        SetTransitionOthers(delta, from, a, to, q, b);
      }
    }
    forall p | p in Pairs(delta, delta.Keys) ensures p in Pairs(r, r.Keys) {
      var (q, b) := p;
      if p != (from, a) {
        SetTransitionOthers(delta, from, a, to, q, b);
      }
    }
  }

  /** Setting an entry of δ adds one to the count when the entry is new and leaves it
      as it was when an earlier target is overwritten. */
  lemma SetTransitionCount<Q, S>(delta: map<Q, map<S, Q>>, from: Q, a: S, to: Q)
    ensures TransitionCount(SetTransition(delta, from, a, to))
         == TransitionCount(delta) + (if Lookup(delta, from, a).None? then 1 else 0)
  {
    SetTransitionPairs(delta, from, a, to);
    if Lookup(delta, from, a).None? {
      assert (from, a) !in Pairs(delta, delta.Keys);
    } else {
      assert (from, a) in Pairs(delta, delta.Keys);
      assert Pairs(delta, delta.Keys) + {(from, a)} == Pairs(delta, delta.Keys);
    }
  }

  // ---------------------------------------------------------------------------------------
  // Reachability

  /** The targets of all transitions out of the states of X. */
  ghost function Successors<Q, S>(t: FiveTuple<Q, S>, X: set<Q>): set<Q> {
    set q, a | q in X && q in t.delta && a in t.delta[q] :: t.delta[q][a]
  }

  /** The states reachable from q0 in at most k transitions (on any symbol). */
  ghost function Reach<Q, S>(t: FiveTuple<Q, S>, k: nat): set<Q> {
    if k == 0 then {t.initial} else Reach(t, k - 1) + Successors(t, Reach(t, k - 1))
  }

  ghost predicate Reachable<Q, S>(t: FiveTuple<Q, S>, q: Q) {
    exists k: nat :: q in Reach(t, k)
  }

  /** Every transition out of q stays inside C. */
  ghost predicate SuccessorsIn<Q, S>(t: FiveTuple<Q, S>, q: Q, C: set<Q>) {
    q in t.delta ==> forall a :: a in t.delta[q] ==> t.delta[q][a] in C
  }

  /** A set holding q0 and closed under transitions holds every reachable state. */
  lemma {:induction false} ReachWithin<Q, S>(t: FiveTuple<Q, S>, C: set<Q>, k: nat)
    requires t.initial in C
    requires forall q :: q in C ==> SuccessorsIn(t, q, C)
    ensures Reach(t, k) <= C
  {
    if k > 0 {
      ReachWithin(t, C, k - 1);
    }
  }

  /** Every state a run from q0 passes through is reachable; Σ plays no part here. */
  lemma {:induction false} WalkStaysReachable<Q, S>(t: FiveTuple<Q, S>, input: seq<S>)
    ensures var w := Walk(t, t.initial, input);
      forall i :: 0 <= i < |w.trace| ==> w.trace[i] in Reach(t, i)
    decreases |input|
  {
    if input != [] {
      var init := input[..|input| - 1];
      WalkStaysReachable(t, init);
      var prev := Walk(t, t.initial, init);
      if prev.failure.None? {
        var k := |prev.trace| - 1;
        var q := Last(prev.trace);
        var a := Last(input);
        if Next(t, q, a).Success? {
          assert q in Reach(t, k);
          assert t.delta[q][a] in Successors(t, Reach(t, k));
        }
      }
    }
  }

  /** The states the search may ever add: q0 and the targets of δ. */
  ghost function SearchBound<Q, S>(t: FiveTuple<Q, S>): set<Q> {
    {t.initial} + Successors(t, t.delta.Keys)
  }

  /** The targets of a row lie within the search bound, and are reachable when the row's
      state is. */
  lemma RowTargets<Q, S>(t: FiveTuple<Q, S>, current: Q)
    requires current in t.delta
    ensures t.delta[current].Values <= SearchBound(t)
    ensures Reachable(t, current) ==> forall q :: q in t.delta[current].Values ==> Reachable(t, q)
  {
    var row := t.delta[current];
    forall q | q in row.Values ensures q in Successors(t, t.delta.Keys) {
      var a :| a in row && row[a] == q;
    }
    if Reachable(t, current) {
      var k: nat :| current in Reach(t, k);
      forall q | q in row.Values ensures q in Reach(t, k + 1) {
        var a :| a in row && row[a] == q;
        assert q in Successors(t, Reach(t, k));
      }
    }
  }

  lemma ValueInValues<K, V>(m: map<K, V>, k: K)
    requires k in m
    ensures m[k] in m.Values
  {
  }

  /** One dequeued state of the search: every target of its row not yet reached is marked
      and queued, in row iteration order. */
  method VisitRow<Q, S>(t: FiveTuple<Q, S>, current: Q, reached: set<Q>, queue: seq<Q>)
    returns (reached': set<Q>, queue': seq<Q>, ghost added: seq<Q>)
    requires current in t.delta && Reachable(t, current)
    requires reached <= SearchBound(t)
    ensures reached <= reached' <= SearchBound(t)
    ensures |SearchBound(t) - reached'| + |added| == |SearchBound(t) - reached|
    ensures queue' == queue + added
    ensures forall q :: q in added ==> q in reached'
    ensures forall q :: q in reached' && q !in reached ==> q in added && Reachable(t, q)
    ensures SuccessorsIn(t, current, reached')
  {
    ghost var bound := SearchBound(t);
    var row := t.delta[current];
    RowTargets(t, current);
    reached' := reached;
    var found := [];
    var pending := row.Keys;
    while pending != {}
      invariant pending <= row.Keys
      invariant reached <= reached' <= reached + row.Values
      invariant |bound - reached'| + |found| == |bound - reached|
      invariant forall q :: q in found ==> q in reached'
      invariant forall q :: q in reached' && q !in reached ==> q in found
      invariant forall a :: a in row && a !in pending ==> row[a] in reached'
      decreases |pending|
    {
      var a :| a in pending;
      var next := row[a];
      ValueInValues(row, a);
      if next !in reached' {
        assert next in bound - reached';
        assert bound - (reached' + {next}) == (bound - reached') - {next};
        reached' := reached' + {next};
        found := found + [next];
      }
      pending := pending - {a};
    }
    queue', added := queue + found, found;
  }

  /** The breadth-first search from q0: it ends with a set that holds q0, holds only
      reachable states, and is closed under transitions. */
  method Explore<Q, S>(t: FiveTuple<Q, S>) returns (reached: set<Q>)
    ensures t.initial in reached
    ensures forall q :: q in reached ==> Reachable(t, q)
    ensures forall q :: q in reached ==> SuccessorsIn(t, q, reached)
  {
    reached := {t.initial};
    var queue := [t.initial];
    assert t.initial in Reach(t, 0);
    while queue != []
      invariant t.initial in reached && reached <= SearchBound(t)
      invariant forall q :: q in queue ==> q in reached
      invariant forall q :: q in reached ==> Reachable(t, q)
      invariant forall q :: q in reached && q !in queue ==> SuccessorsIn(t, q, reached)
      decreases |SearchBound(t) - reached|, |queue|
    {
      var current := queue[0];
      queue := queue[1..];
      if current in t.delta {
        ghost var reached0, queue0 := reached, queue;
        ghost var added;
        reached, queue, added := VisitRow(t, current, reached, queue);
        forall q | q in reached && q !in queue && q != current
          ensures SuccessorsIn(t, q, reached)
        {
          assert q in reached0 && q !in queue0;
          assert SuccessorsIn(t, q, reached0);
        }
      }
    }
  }

  /** `validateNoUnreachableStates`: the search, then a scan of Q for a state it did not
      reach. */
  ghost predicate AllReachable<Q, S>(t: FiveTuple<Q, S>) {
    forall q :: q in t.states ==> Reachable(t, q)
  }

  /** The errors the reachability rule may report: any state of Q that is not reachable. */
  ghost predicate UnreachableReport<Q, S>(t: FiveTuple<Q, S>, e: Error<Q, S>) {
    exists q :: q in t.states && !Reachable(t, q)
      && e == NewValidationError(Message(UnreachableMsg, [StateValue(q)]))
  }

  method CheckNoUnreachableStates<Q, S>(t: FiveTuple<Q, S>) returns (r: Option<Error<Q, S>>)
    ensures r.None? <==> AllReachable(t)
    ensures r.Some? ==> UnreachableReport(t, r.value)
  {
    var reached := Explore(t);
    var pending := t.states;
    while pending != {}
      invariant pending <= t.states
      invariant forall q :: q in t.states && q !in pending ==> Reachable(t, q)
      decreases |pending|
    {
      var q :| q in pending;
      if q !in reached {
        forall k: nat ensures q !in Reach(t, k) {
          ReachWithin(t, reached, k);
        }
        return Some(NewValidationError(Message(UnreachableMsg, [StateValue(q)])));
      }
      pending := pending - {q};
    }
    return None;
  }

  // ---------------------------------------------------------------------------------------
  // State naming

  /** Go's `unicode.IsSpace`: the Unicode White_Space characters. */
  predicate IsSpace(c: char) {
    var n := c as int;
    || 9 <= n <= 13 || n == 0x20 || n == 0x85 || n == 0xA0 || n == 0x1680
    || 0x2000 <= n <= 0x200A || n == 0x2028 || n == 0x2029 || n == 0x202F || n == 0x205F
    || n == 0x3000
  }

  /** `strings.TrimSpace(s) == ""`. */
  predicate AllSpace(s: string) {
    forall i :: 0 <= i < |s| ==> IsSpace(s[i])
  }

  /** The number of maximal runs of characters that are not separators. */
  function Runs(s: string, sep: char -> bool): nat {
    if s == [] then 0
    else Runs(s[..|s| - 1], sep) + (if !sep(s[|s| - 1]) && (|s| == 1 || sep(s[|s| - 2])) then 1 else 0)
  }

  /** `len(strings.Fields(s))`: the number of maximal runs of non-space characters. */
  function FieldCount(s: string): nat {
    Runs(s, IsSpace)
  }

  /** There is at least one run exactly when some character is not a separator. */
  lemma {:induction false} RunsPositive(s: string, sep: char -> bool)
    ensures Runs(s, sep) >= 1 <==> exists i :: 0 <= i < |s| && !sep(s[i])
    decreases |s|
  {
    if s != [] {
      var init := s[..|s| - 1];
      RunsPositive(init, sep);
      if Runs(init, sep) >= 1 {
        var i :| 0 <= i < |init| && !sep(init[i]);
        assert s[i] == init[i];
      }
      if exists i :: 0 <= i < |s| && !sep(s[i]) {
        var i :| 0 <= i < |s| && !sep(s[i]);
        if i < |init| {
          assert init[i] == s[i];
        }
      }
    }
  }

  /** A separator between two non-separator characters. */
  ghost predicate Split(s: string, sep: char -> bool) {
    exists i, j, k :: 0 <= i < j < k < |s| && !sep(s[i]) && sep(s[j]) && !sep(s[k])
  }

  /** A space between two non-space characters. */
  ghost predicate TwoWords(s: string) {
    Split(s, IsSpace)
  }

  lemma SplitAt(s: string, sep: char -> bool, i: nat, j: nat, k: nat)
    requires i < j < k < |s| && !sep(s[i]) && sep(s[j]) && !sep(s[k])
    ensures Split(s, sep)
  {
  }

  /** Two runs or more show where a separator lies between two non-separator characters. */
  lemma {:induction false} RunsSplitAt(s: string, sep: char -> bool) returns (i: nat, j: nat, k: nat)
    requires Runs(s, sep) >= 2
    ensures i < j < k < |s| && !sep(s[i]) && sep(s[j]) && !sep(s[k])
    decreases |s|
  {
    var init := s[..|s| - 1];
    if Runs(init, sep) >= 2 {
      i, j, k := RunsSplitAt(init, sep);
      assert s[i] == init[i] && s[j] == init[j] && s[k] == init[k];
    } else {
      RunsPositive(init, sep);
      i :| 0 <= i < |init| && !sep(init[i]);
      assert s[i] == init[i] && s[|init| - 1] == init[|init| - 1];
      j, k := |init| - 1, |s| - 1;
    }
  }

  /** Two runs or more show a separator between two non-separator characters. */
  lemma RunsSplit(s: string, sep: char -> bool)
    requires Runs(s, sep) >= 2
    ensures Split(s, sep)
  {
    var i, j, k := RunsSplitAt(s, sep);
    SplitAt(s, sep, i, j, k);
  }

  /** A separator at j between non-separators at i and k gives at least two runs. */
  lemma {:induction false} SplitRunsAt(s: string, sep: char -> bool, i: nat, j: nat, k: nat)
    requires i < j < k < |s| && !sep(s[i]) && sep(s[j]) && !sep(s[k])
    ensures Runs(s, sep) >= 2
    decreases |s|
  {
    var n := |s| - 1;
    var init := s[..n];
    assert init[i] == s[i] && init[j] == s[j];
    if k < n {
      assert init[k] == s[k];
      SplitRunsAt(init, sep, i, j, k);
    } else if !sep(s[n - 1]) {
      assert init[n - 1] == s[n - 1];
      SplitRunsAt(init, sep, i, j, n - 1);
    } else {
      RunsPositive(init, sep);
    }
  }

  /** A separator between two non-separator characters gives at least two runs. */
  lemma SplitRuns(s: string, sep: char -> bool)
    requires Split(s, sep)
    ensures Runs(s, sep) >= 2
  {
    var i, j, k :| 0 <= i < j < k < |s| && !sep(s[i]) && sep(s[j]) && !sep(s[k]);
    SplitRunsAt(s, sep, i, j, k);
  }

  /** Fields splits into two words or more exactly when a space lies between two
      non-space characters. */
  lemma FieldCountAtLeastTwo(s: string)
    ensures FieldCount(s) >= 2 <==> TwoWords(s)
  {
    if FieldCount(s) >= 2 {
      RunsSplit(s, IsSpace);
    }
    if TwoWords(s) {
      SplitRuns(s, IsSpace);
    }
  }

  /** The number of bytes of a character in UTF-8. */
  function Utf8Width(c: char): nat {
    var n := c as int;
    if n < 0x80 then 1 else if n < 0x800 then 2 else if n < 0x10000 then 3 else 4
  }

  /** `len(s)` in Go: the length of the UTF-8 encoding. */
  function Utf8Length(s: string): nat {
    if s == [] then 0 else Utf8Length(s[..|s| - 1]) + Utf8Width(Last(s))
  }

  /** The byte length is between one and four bytes per character, and exactly one per
      character for ASCII text. */
  lemma {:induction false} Utf8LengthBounds(s: string)
    ensures |s| <= Utf8Length(s) <= 4 * |s|
    ensures (forall i :: 0 <= i < |s| ==> s[i] as int < 0x80) ==> Utf8Length(s) == |s|
    decreases |s|
  {
    if s != [] {
      var init := s[..|s| - 1];
      Utf8LengthBounds(init);
      assert forall i :: 0 <= i < |init| ==> init[i] == s[i];
    }
  }

  /** The naming rule's verdict on one name, checked in the source's order: blank, then
      several words, then too long. */
  function NameProblem<Q, S>(name: string): Option<Message<Q, S>> {
    if AllSpace(name) then
      Some(Fixed(BlankNameMsg))
    else if ' ' in name && FieldCount(name) > 1 then
      Some(Message(MultiWordNameMsg, [TextValue(name)]))
    else if Utf8Length(name) > MaxStateNameLength then
      Some(Message(LongNameMsg,
                   [TextValue(name), IntValue(MaxStateNameLength)]))
    else None
  }

  /** A name passes exactly when it has a non-space character, has no space between two
      non-space characters if it contains a plain space, and is at most 50 bytes long. */
  lemma NameProblemNone<Q, S>(name: string)
    ensures NameProblem<Q, S>(name).None? <==>
      && (exists i :: 0 <= i < |name| && !IsSpace(name[i]))
      && !(' ' in name && TwoWords(name))
      && Utf8Length(name) <= MaxStateNameLength
  {
    FieldCountAtLeastTwo(name);
  }

  /** The naming rule's verdict on one state: only string-kinded states are checked. */
  function NamingError<Q, S>(st: StateType<Q>, q: Q): Option<Error<Q, S>> {
    match st.name(q)
    case None => None
    case Some(text) =>
      match NameProblem(text)
      case None => None
      case Some(m) => Some(NewValidationError(m))
  }

  ghost predicate AllNamed<Q, S>(t: FiveTuple<Q, S>, st: StateType<Q>) {
    forall q :: q in t.states ==> NamingError<Q, S>(st, q).None?
  }

  ghost predicate NamingReport<Q, S>(t: FiveTuple<Q, S>, st: StateType<Q>, e: Error<Q, S>) {
    exists q :: q in t.states && NamingError(st, q) == Some(e)
  }

  method CheckStateNaming<Q, S>(t: FiveTuple<Q, S>, st: StateType<Q>) returns (r: Option<Error<Q, S>>)
    ensures r.None? <==> AllNamed(t, st)
    ensures r.Some? ==> NamingReport(t, st, r.value)
  {
    var pending := t.states;
    while pending != {}
      invariant pending <= t.states
      invariant forall q :: q in t.states && q !in pending ==> NamingError<Q, S>(st, q).None?
      decreases |pending|
    {
      var q :| q in pending;
      var e := NamingError<Q, S>(st, q);
      if e.Some? {
        return e;
      }
      pending := pending - {q};
    }
    return None;
  }

  // ---------------------------------------------------------------------------------------
  // The membership, completeness and duplicate rules

  /** The errors the accepting-state rule may report: any state of F outside Q. */
  ghost predicate AcceptingReport<Q, S>(t: FiveTuple<Q, S>, e: Error<Q, S>) {
    exists q :: q in t.accepting && q !in t.states
      && e == NewValidationError(Message(AcceptingOutsideMsg, [StateValue(q)]))
  }

  method CheckAcceptingStates<Q, S>(t: FiveTuple<Q, S>) returns (r: Option<Error<Q, S>>)
    ensures r.None? <==> t.accepting <= t.states
    ensures r.Some? ==> AcceptingReport(t, r.value)
  {
    var pending := t.accepting;
    while pending != {}
      invariant pending <= t.accepting
      invariant forall q :: q in t.accepting && q !in pending ==> q in t.states
      decreases |pending|
    {
      var q :| q in pending;
      if q !in t.states {
        return Some(NewValidationError(Message(AcceptingOutsideMsg, [StateValue(q)])));
      }
      pending := pending - {q};
    }
    return None;
  }

  /** Every transition starts in Q and ends in Q. */
  ghost predicate EndpointsInStates<Q, S>(t: FiveTuple<Q, S>) {
    forall from :: from in t.delta ==>
      from in t.states && forall a :: a in t.delta[from] ==> t.delta[from][a] in t.states
  }

  /** The errors the endpoint rule may report: a source state outside Q, or a target
      outside Q of a row whose source is in Q. */
  ghost predicate EndpointReport<Q, S>(t: FiveTuple<Q, S>, e: Error<Q, S>) {
    || (exists from :: from in t.delta && from !in t.states
          && e == NewValidationError(Message(SourceOutsideMsg, [StateValue(from)])))
    || (exists from, a :: from in t.delta && from in t.states && a in t.delta[from] && t.delta[from][a] !in t.states
          && e == NewValidationError(Message(TargetOutsideMsg,
                                             [StateValue(t.delta[from][a])])))
  }

  method CheckTransitionStates<Q, S>(t: FiveTuple<Q, S>) returns (r: Option<Error<Q, S>>)
    ensures r.None? <==> EndpointsInStates(t)
    ensures r.Some? ==> EndpointReport(t, r.value)
  {
    var froms := t.delta.Keys;
    while froms != {}
      invariant froms <= t.delta.Keys
      invariant forall from :: from in t.delta && from !in froms ==>
        from in t.states && forall a :: a in t.delta[from] ==> t.delta[from][a] in t.states
      decreases |froms|
    {
      var from :| from in froms;
      if from !in t.states {
        return Some(NewValidationError(Message(SourceOutsideMsg, [StateValue(from)])));
      }
      var row := t.delta[from];
      var symbols := row.Keys;
      while symbols != {}
        invariant symbols <= row.Keys
        invariant forall a :: a in row && a !in symbols ==> row[a] in t.states
        decreases |symbols|
      {
        var a :| a in symbols;
        if row[a] !in t.states {
          return Some(NewValidationError(Message(TargetOutsideMsg, [StateValue(row[a])])));
        }
        symbols := symbols - {a};
      }
      froms := froms - {from};
    }
    return None;
  }

  /** Every symbol used by a transition is in Σ. */
  ghost predicate SymbolsInAlphabet<Q, S>(t: FiveTuple<Q, S>) {
    forall from, a :: from in t.delta && a in t.delta[from] ==> a in t.alphabet
  }

  /** The errors the symbol rule may report: any symbol of a transition outside Σ. */
  ghost predicate SymbolReport<Q, S>(t: FiveTuple<Q, S>, e: Error<Q, S>) {
    exists from, a :: from in t.delta && a in t.delta[from] && a !in t.alphabet
      && e == NewValidationError(Message(SymbolOutsideMsg, [SymbolValue(a)]))
  }

  method CheckTransitionSymbols<Q, S>(t: FiveTuple<Q, S>) returns (r: Option<Error<Q, S>>)
    ensures r.None? <==> SymbolsInAlphabet(t)
    ensures r.Some? ==> SymbolReport(t, r.value)
  {
    var froms := t.delta.Keys;
    while froms != {}
      invariant froms <= t.delta.Keys
      invariant forall from, a :: from in t.delta && from !in froms && a in t.delta[from] ==> a in t.alphabet
      decreases |froms|
    {
      var from :| from in froms;
      var row := t.delta[from];
      var symbols := row.Keys;
      while symbols != {}
        invariant symbols <= row.Keys
        invariant forall a :: a in row && a !in symbols ==> a in t.alphabet
        decreases |symbols|
      {
        var a :| a in symbols;
        if a !in t.alphabet {
          return Some(NewValidationError(Message(SymbolOutsideMsg, [SymbolValue(a)])));
        }
        symbols := symbols - {a};
      }
      froms := froms - {from};
    }
    return None;
  }

  /** The completeness rule's notion of a missing entry: no row, no entry, or an entry whose
      target equals the zero value of Q (a lookup of an absent key yields that zero). */
  ghost predicate Missing<Q, S>(t: FiveTuple<Q, S>, zero: Q, q: Q, a: S) {
    Lookup(t.delta, q, a).None? || Lookup(t.delta, q, a) == Some(zero)
  }

  ghost predicate Complete<Q, S>(t: FiveTuple<Q, S>, zero: Q) {
    forall q, a :: q in t.states && a in t.alphabet ==> !Missing(t, zero, q, a)
  }

  /** The errors the completeness rule may report: any missing entry of Q × Σ. */
  ghost predicate MissingReport<Q, S>(t: FiveTuple<Q, S>, zero: Q, e: Error<Q, S>) {
    exists q, a :: q in t.states && a in t.alphabet && Missing(t, zero, q, a)
      && e == NewValidationError(Message(MissingTransitionMsg,
                                         [StateValue(q), SymbolValue(a)]))
  }

  method CheckCompleteTransitions<Q(==), S>(t: FiveTuple<Q, S>, zero: Q) returns (r: Option<Error<Q, S>>)
    ensures r.None? <==> Complete(t, zero)
    ensures r.Some? ==> MissingReport(t, zero, r.value)
  {
    var pending := t.states;
    while pending != {}
      invariant pending <= t.states
      invariant forall q, a :: q in t.states && q !in pending && a in t.alphabet ==> !Missing(t, zero, q, a)
      decreases |pending|
    {
      var q :| q in pending;
      var symbols := t.alphabet;
      while symbols != {}
        invariant symbols <= t.alphabet
        invariant forall a :: a in t.alphabet && a !in symbols ==> !Missing(t, zero, q, a)
        decreases |symbols|
      {
        var a :| a in symbols;
        if q !in t.delta || (if a in t.delta[q] then t.delta[q][a] else zero) == zero {
          return Some(NewValidationError(Message(MissingTransitionMsg,
                                                 [StateValue(q), SymbolValue(a)])));
        }
        symbols := symbols - {a};
      }
      pending := pending - {q};
    }
    return None;
  }

  /** The completeness quirk: a table defined on all of Q×Σ is still rejected when one of
      its targets is the zero value of Q. */
  lemma CompletenessRejectsZeroTarget<Q, S>(t: FiveTuple<Q, S>, zero: Q, q: Q, a: S)
    requires q in t.states && a in t.alphabet && Lookup(t.delta, q, a) == Some(zero)
    ensures !Complete(t, zero)
  {
    assert Missing(t, zero, q, a);
  }

  /** The duplicate-transition rule replays each row into a fresh map and looks for a symbol
      seen twice with different targets; a row is itself a map, so that never happens. */
  method CheckNoDuplicateTransitions<Q(==), S>(t: FiveTuple<Q, S>) returns (r: Option<Error<Q, S>>)
    ensures r.None?
  {
    var froms := t.delta.Keys;
    while froms != {}
      invariant froms <= t.delta.Keys
      decreases |froms|
    {
      var from :| from in froms;
      var row := t.delta[from];
      var seen: map<S, Q> := map[];
      var symbols := row.Keys;
      while symbols != {}
        invariant symbols <= row.Keys
        invariant forall b :: b in seen ==> b in row && seen[b] == row[b]
        decreases |symbols|
      {
        var a :| a in symbols;
        if a in seen && seen[a] != row[a] {
          // whatever was recorded for a symbol is that row's own target
          assert false;
        }
        seen := seen[a := row[a]];
        symbols := symbols - {a};
      }
      froms := froms - {from};
    }
    return None;
  }

  // ---------------------------------------------------------------------------------------
  // Rules

  /** When a rule passes. */
  ghost predicate Holds<Q, S>(rule: Rule<Q, S>, t: FiveTuple<Q, S>, st: StateType<Q>) {
    match rule
    case NonEmptyStates => |t.states| > 0
    case NonEmptyAlphabet => |t.alphabet| > 0
    case InitialStateInStates => t.initial in t.states
    case AcceptingStatesInStates => t.accepting <= t.states
    case TransitionStatesInStates => EndpointsInStates(t)
    case TransitionSymbolsInAlphabet => SymbolsInAlphabet(t)
    case MaxStates(limit) => |t.states| <= limit
    case MaxAlphabetSize(limit) => |t.alphabet| <= limit
    case MaxTransitions(limit) => TransitionCount(t.delta) <= limit
    case CompleteTransitions => Complete(t, st.zero)
    case NoUnreachableStates => AllReachable(t)
    case NoDuplicateTransitions => true
    case StateNaming => AllNamed(t, st)
    case Custom(check) => check(t).None?
  }

  /** The errors a failing rule may report. Where the source reports the first offending
      element in map iteration order, any offending element may be named. */
  ghost predicate Reports<Q, S>(rule: Rule<Q, S>, t: FiveTuple<Q, S>, st: StateType<Q>, e: Error<Q, S>) {
    match rule
    case NonEmptyStates =>
      e == NewValidationError(Fixed(NoStatesMsg))
    case NonEmptyAlphabet =>
      e == NewValidationError(Fixed(NoSymbolsMsg))
    case InitialStateInStates =>
      e == NewValidationError(Message(InitialOutsideMsg, [StateValue(t.initial)]))
    case AcceptingStatesInStates => AcceptingReport(t, e)
    case TransitionStatesInStates => EndpointReport(t, e)
    case TransitionSymbolsInAlphabet => SymbolReport(t, e)
    case MaxStates(limit) =>
      e == NewValidationError(Message(TooManyStatesMsg,
                                      [IntValue(|t.states|), IntValue(limit)]))
    case MaxAlphabetSize(limit) =>
      e == NewValidationError(Message(AlphabetTooLargeMsg,
                                      [IntValue(|t.alphabet|), IntValue(limit)]))
    case MaxTransitions(limit) =>
      e == NewValidationError(Message(TooManyTransitionsMsg,
                                      [IntValue(TransitionCount(t.delta)), IntValue(limit)]))
    case CompleteTransitions => MissingReport(t, st.zero, e)
    case NoUnreachableStates => UnreachableReport(t, e)
    case NoDuplicateTransitions => false
    case StateNaming => NamingReport(t, st, e)
    case Custom(check) => check(t) == Some(e)
  }

  /** Running one rule: nil exactly when it holds, otherwise one of its errors. */
  method CheckRule<Q(==), S(==)>(rule: Rule<Q, S>, t: FiveTuple<Q, S>, st: StateType<Q>)
    returns (r: Option<Error<Q, S>>)
    ensures r.None? <==> Holds(rule, t, st)
    ensures r.Some? ==> Reports(rule, t, st, r.value)
  {
    match rule
    case NonEmptyStates =>
      r := if |t.states| == 0 then Some(NewValidationError(Fixed(NoStatesMsg))) else None;
    case NonEmptyAlphabet =>
      r := if |t.alphabet| == 0
           then Some(NewValidationError(Fixed(NoSymbolsMsg)))
           else None;
    case InitialStateInStates =>
      r := if t.initial !in t.states
           then Some(NewValidationError(Message(InitialOutsideMsg, [StateValue(t.initial)])))
           else None;
    case AcceptingStatesInStates =>
      r := CheckAcceptingStates(t);
    case TransitionStatesInStates =>
      r := CheckTransitionStates(t);
    case TransitionSymbolsInAlphabet =>
      r := CheckTransitionSymbols(t);
    case MaxStates(limit) =>
      r := if |t.states| > limit
           then Some(NewValidationError(Message(TooManyStatesMsg,
                                                [IntValue(|t.states|), IntValue(limit)])))
           else None;
    case MaxAlphabetSize(limit) =>
      r := if |t.alphabet| > limit
           then Some(NewValidationError(Message(AlphabetTooLargeMsg,
                                                [IntValue(|t.alphabet|), IntValue(limit)])))
           else None;
    case MaxTransitions(limit) =>
      var total := CountTransitions(t.delta);
      r := if total > limit
           then Some(NewValidationError(Message(TooManyTransitionsMsg,
                                                [IntValue(total), IntValue(limit)])))
           else None;
    case CompleteTransitions =>
      r := CheckCompleteTransitions(t, st.zero);
    case NoUnreachableStates =>
      r := CheckNoUnreachableStates(t);
    case NoDuplicateTransitions =>
      r := CheckNoDuplicateTransitions(t);
    case StateNaming =>
      r := CheckStateNaming(t, st);
    case Custom(check) =>
      r := check(t);
  }

  /** The six rules every validator starts with, in registration order. */
  function StructuralRules<Q, S>(): seq<Rule<Q, S>> {
    [NonEmptyStates, NonEmptyAlphabet, InitialStateInStates, AcceptingStatesInStates,
     TransitionStatesInStates, TransitionSymbolsInAlphabet]
  }

  /** The rules `NewInputValidator` registers for a configuration: the structural rules,
      then each ceiling whose limit is positive, then completeness if required, then the
      strict-mode rules. */
  function DefaultRules<Q, S>(config: ValidatorConfig): (rules: seq<Rule<Q, S>>)
    ensures |rules| >= 6 && rules[..6] == StructuralRules()
  {
    StructuralRules() + OptionalRules(config)
  }

  function OptionalRules<Q, S>(config: ValidatorConfig): seq<Rule<Q, S>> {
    (if config.maxStates > 0 then [MaxStates(config.maxStates)] else [])
    + (if config.maxAlphabetSize > 0 then [MaxAlphabetSize(config.maxAlphabetSize)] else [])
    + (if config.maxTransitions > 0 then [MaxTransitions(config.maxTransitions)] else [])
    + (if config.requireCompleteTransitions then [CompleteTransitions] else [])
    + (if config.strictMode then [NoUnreachableStates, NoDuplicateTransitions, StateNaming] else [])
  }

  /** The optional rules a configuration asks for: a ceiling exactly when its limit is
      positive (with that limit), completeness exactly when required, and the three
      strict-mode rules exactly in strict mode. */
  predicate OptionalHas<Q, S>(config: ValidatorConfig, x: Rule<Q, S>) {
    || (config.maxStates > 0 && x == MaxStates(config.maxStates))
    || (config.maxAlphabetSize > 0 && x == MaxAlphabetSize(config.maxAlphabetSize))
    || (config.maxTransitions > 0 && x == MaxTransitions(config.maxTransitions))
    || (config.requireCompleteTransitions && x == CompleteTransitions)
    || (config.strictMode && (x == NoUnreachableStates || x == NoDuplicateTransitions || x == StateNaming))
  }

  /** A rule is registered by default exactly when it is structural or the configuration asks
      for it. */
  lemma DefaultRulesRegistered<Q, S>(config: ValidatorConfig, x: Rule<Q, S>)
    ensures x in DefaultRules(config) <==> x in StructuralRules() || OptionalHas(config, x)
  {
    OptionalRulesRegistered(config, x);
    assert x in DefaultRules(config) <==> x in StructuralRules() || x in OptionalRules(config);
  }

  /** The default configuration registers the structural rules and the three default
      ceilings, nothing else. */
  lemma DefaultConfigRules<Q, S>()
    ensures DefaultRules<Q, S>(DefaultValidatorConfig())
      == StructuralRules() + [MaxStates(1000), MaxAlphabetSize(100), MaxTransitions(10000)]
  {
  }

  /** The strict configuration registers the structural rules, the three strict ceilings,
      completeness, and the three strict-mode rules. */
  lemma StrictConfigRules<Q, S>()
    ensures DefaultRules<Q, S>(StrictValidatorConfig())
      == StructuralRules() + [MaxStates(100), MaxAlphabetSize(50), MaxTransitions(1000), CompleteTransitions,
                              NoUnreachableStates, NoDuplicateTransitions, StateNaming]
  {
  }

  /** An optional rule is registered exactly when the configuration asks for it. */
  lemma OptionalRulesRegistered<Q, S>(config: ValidatorConfig, x: Rule<Q, S>)
    ensures x in OptionalRules(config) <==> OptionalHas(config, x)
  {
    var a: seq<Rule<Q, S>> := if config.maxStates > 0 then [MaxStates(config.maxStates)] else [];
    var b: seq<Rule<Q, S>> := if config.maxAlphabetSize > 0 then [MaxAlphabetSize(config.maxAlphabetSize)] else [];
    var c: seq<Rule<Q, S>> := if config.maxTransitions > 0 then [MaxTransitions(config.maxTransitions)] else [];
    var d: seq<Rule<Q, S>> := if config.requireCompleteTransitions then [CompleteTransitions] else [];
    var e: seq<Rule<Q, S>> := if config.strictMode then [NoUnreachableStates, NoDuplicateTransitions, StateNaming] else [];
    assert OptionalRules(config) == a + b + c + d + e;
    assert x in a + b + c + d + e <==> x in a || x in b || x in c || x in d || x in e;
    assert x in e <==> config.strictMode && (x == NoUnreachableStates || x == NoDuplicateTransitions || x == StateNaming);
  }

  /** The structural rules all pass exactly when the automaton is well formed in the sense
      of `FiniteAutomaton.Validate` and, in addition, Σ is not empty. */
  lemma StructuralRulesHold<Q, S>(t: FiveTuple<Q, S>, st: StateType<Q>)
    ensures (forall i :: 0 <= i < 6 ==> Holds(StructuralRules()[i], t, st))
      <==> WellFormed(t) && |t.alphabet| > 0
  {
    var rules := StructuralRules<Q, S>();
    if forall i :: 0 <= i < 6 ==> Holds(rules[i], t, st) {
      assert Holds(rules[2], t, st) && Holds(rules[3], t, st);
      assert Holds(rules[4], t, st) && Holds(rules[5], t, st);
      assert Holds(rules[1], t, st);
    }
    if WellFormed(t) && |t.alphabet| > 0 {
      assert t.initial in t.states;
    }
  }

  /** A well-formed automaton with a non-empty alphabet and sizes within the default
      ceilings meets every default rule. */
  lemma DefaultRulesAccept<Q, S>(t: FiveTuple<Q, S>, st: StateType<Q>)
    requires WellFormed(t) && |t.alphabet| > 0
    requires |t.states| <= DefaultMaxStates && |t.alphabet| <= DefaultMaxAlphabetSize
    requires TransitionCount(t.delta) <= DefaultMaxTransitions
    ensures forall i :: 0 <= i < |DefaultRules<Q, S>(DefaultValidatorConfig())| ==>
      Holds(DefaultRules<Q, S>(DefaultValidatorConfig())[i], t, st)
  {
    var rules := DefaultRules<Q, S>(DefaultValidatorConfig());
    StructuralRulesHold(t, st);
    DefaultConfigRules<Q, S>();
    forall i | 0 <= i < |rules| ensures Holds(rules[i], t, st) {
      if i < 6 {
        assert rules[i] == StructuralRules<Q, S>()[i];
      }
    }
  }

  /** The errors collected from running `rules` in order: one per failing rule, each one of
      that rule's errors. */
  ghost predicate Collected<Q, S>(rules: seq<Rule<Q, S>>, t: FiveTuple<Q, S>, st: StateType<Q>,
                                  errs: seq<Error<Q, S>>)
    decreases |rules|
  {
    if rules == [] then errs == []
    else if Holds(Last(rules), t, st) then Collected(rules[..|rules| - 1], t, st, errs)
    else |errs| > 0 && Reports(Last(rules), t, st, Last(errs))
         && Collected(rules[..|rules| - 1], t, st, errs[..|errs| - 1])
  }

  /** Nothing is collected exactly when every rule holds. */
  lemma {:induction false} CollectedEmpty<Q, S>(rules: seq<Rule<Q, S>>, t: FiveTuple<Q, S>, st: StateType<Q>,
                                                errs: seq<Error<Q, S>>)
    requires Collected(rules, t, st, errs)
    ensures errs == [] <==> forall i :: 0 <= i < |rules| ==> Holds(rules[i], t, st)
    ensures |errs| <= |rules|
    decreases |rules|
  {
    if rules != [] {
      var init := rules[..|rules| - 1];
      assert forall i :: 0 <= i < |init| ==> init[i] == rules[i];
      if Holds(Last(rules), t, st) {
        CollectedEmpty(init, t, st, errs);
      } else {
        CollectedEmpty(init, t, st, errs[..|errs| - 1]);
      }
    }
  }

  /** `InputValidator`: a configuration and an ordered list of rules. */
  class InputValidator<Q(==), S(==)> {
    const config: ValidatorConfig
    const stateType: StateType<Q>
    var rules: seq<Rule<Q, S>>

    /** `NewInputValidator`. */
    constructor (config: ValidatorConfig, stateType: StateType<Q>)
      ensures this.config == config && this.stateType == stateType
      ensures rules == DefaultRules(config)
    {
      this.config := config;
      this.stateType := stateType;
      rules := DefaultRules(config);
    }

    /** `AddRule` appends, so the new rule runs after all earlier ones. */
    method AddRule(rule: Rule<Q, S>)
      modifies this`rules
      ensures rules == old(rules) + [rule]
    {
      rules := rules + [rule];
    }

    /** `Validate` runs every rule in order, collects each error, and returns nil when none
        failed and the collector otherwise. */
    method Validate(automaton: FiniteAutomaton<Q, S>) returns (err: Option<Error<Q, S>>)
      ensures err.None? <==> forall i :: 0 <= i < |rules| ==> Holds(rules[i], automaton.Tuple(), stateType)
      ensures exists errs :: (&& Collected(rules, automaton.Tuple(), stateType, errs)
        && err == (if errs == [] then None else Some(CollectorError(errs))))
    {
      var t := automaton.Tuple();
      var collector := new ErrorCollector<Q, S>();
      for i := 0 to |rules|
        invariant Collected(rules[..i], t, stateType, collector.errors)
      {
        var e := CheckRule(rules[i], t, stateType);
        ghost var before := collector.errors;
        collector.Add(e);
        assert rules[..i + 1][..i] == rules[..i];
        if e.Some? {
          assert collector.errors[..|collector.errors| - 1] == before;
        }
      }
      assert rules[..|rules|] == rules;
      CollectedEmpty(rules, t, stateType, collector.errors);
      err := collector.ToError();
    }
  }
}
