/** Error kinds, structured automaton errors and the collect-then-report error list
    (fsm/errors.go). */
module Errors {
  import opened Wrappers

  /** `ErrorType` is a Go `int`; the five named kinds are the constants 0 to 4. */
  type ErrorType = int

  const ErrorTypeValidation: ErrorType := 0
  const ErrorTypeTransition: ErrorType := 1
  const ErrorTypeInvalidInput: ErrorType := 2
  const ErrorTypeInvalidConfiguration: ErrorType := 3
  const ErrorTypeInternal: ErrorType := 4

  /** The fixed name of each kind; any other number is "UnknownError". */
  function ErrorTypeName(et: ErrorType): (name: string)
    ensures name == "UnknownError" <==> !(ErrorTypeValidation <= et <= ErrorTypeInternal)
    ensures ErrorTypeValidation <= et <= ErrorTypeInternal ==> |name| > 5 && name[|name| - 5..] == "Error"
  {
    if et == ErrorTypeValidation then "ValidationError"
    else if et == ErrorTypeTransition then "TransitionError"
    else if et == ErrorTypeInvalidInput then "InvalidInputError"
    else if et == ErrorTypeInvalidConfiguration then "InvalidConfigurationError"
    else if et == ErrorTypeInternal then "InternalError"
    else "UnknownError"
  }

  /** Distinct kinds have distinct names. */
  lemma ErrorTypeNameInjective(a: ErrorType, b: ErrorType)
    requires ErrorTypeName(a) == ErrorTypeName(b)
    requires ErrorTypeValidation <= a <= ErrorTypeInternal
    ensures a == b
  {
    assert |ErrorTypeName(0)| == 15 && |ErrorTypeName(1)| == 15 && |ErrorTypeName(2)| == 17;
    assert |ErrorTypeName(3)| == 25 && |ErrorTypeName(4)| == 13;
    assert ErrorTypeName(0)[0] != ErrorTypeName(1)[0];
  }

  /** A value placed in a message or a context map (Go's `interface{}` there). */
  datatype Value<Q, S> =
    | StateValue(state: Q)
    | SymbolValue(symbol: S)
    | IntValue(number: int)
    | TextValue(text: string)

  /** A message as handed to `fmt.Sprintf`: the format string and its arguments. */
  datatype Message<Q, S> = Message(template: string, args: seq<Value<Q, S>>)

  /** A message without formatted values. */
  function Fixed<Q, S>(text: string): Message<Q, S> {
    Message(text, [])
  }

  /** The errors the core produces: an `*AutomatonError`, an error made by `fmt.Errorf`, or
      an `*ErrorCollector` returned as an error. */
  datatype Error<Q, S> =
    | AutomatonError(kind: ErrorType, message: Message<Q, S>,
                     context: map<string, Value<Q, S>>, cause: Option<Error<Q, S>>)
    | PlainError(message: Message<Q, S>)
    | CollectorError(errors: seq<Error<Q, S>>)
  {
    /** `AutomatonError.Is`: the target matches when it is an automaton error of the same
        kind; message, context and cause play no part. */
    predicate Is(target: Error<Q, S>)
      requires AutomatonError?
    {
      target.AutomatonError? && target.kind == kind
    }
  }

  function NewError<Q, S>(kind: ErrorType, message: Message<Q, S>): (e: Error<Q, S>)
    ensures e.AutomatonError? && e.kind == kind && e.message == message
    ensures e.context == map[] && e.cause == None
  {
    AutomatonError(kind, message, map[], None)
  }

  function NewErrorWithContext<Q, S>(kind: ErrorType, message: Message<Q, S>,
                                     context: map<string, Value<Q, S>>): (e: Error<Q, S>)
    ensures e.AutomatonError? && e.kind == kind && e.message == message
    ensures e.context == context && e.cause == None
  {
    AutomatonError(kind, message, context, None)
  }

  function NewErrorWithCause<Q, S>(kind: ErrorType, message: Message<Q, S>,
                                   cause: Error<Q, S>): (e: Error<Q, S>)
    ensures e.AutomatonError? && e.kind == kind && e.message == message
    ensures e.context == map[] && e.cause == Some(cause)
  {
    AutomatonError(kind, message, map[], Some(cause))
  }

  /** `WithContext`: sets or overwrites one key and leaves every other part of the error. */
  function WithContext<Q, S>(e: Error<Q, S>, key: string, value: Value<Q, S>): (r: Error<Q, S>)
    requires e.AutomatonError?
    ensures r.AutomatonError? && r.kind == e.kind && r.message == e.message && r.cause == e.cause
    ensures r.context.Keys == e.context.Keys + {key} && r.context[key] == value
    ensures forall k :: k in e.context && k != key ==> r.context[k] == e.context[k]
    ensures e.Is(r) && r.Is(e)
  {
    e.(context := e.context[key := value])
  }

  /** `WithCause`: replaces the cause and leaves every other part of the error. */
  function WithCause<Q, S>(e: Error<Q, S>, cause: Error<Q, S>): (r: Error<Q, S>)
    requires e.AutomatonError?
    ensures r.AutomatonError? && r.kind == e.kind && r.message == e.message
    ensures r.context == e.context && r.cause == Some(cause)
  {
    e.(cause := Some(cause))
  }

  function NewValidationError<Q, S>(message: Message<Q, S>): (e: Error<Q, S>)
    ensures IsValidationError(e) && e.message == message && e.context == map[] && e.cause == None
  {
    NewError(ErrorTypeValidation, message)
  }

  /** A transition error whose context holds exactly "state" and "symbol". */
  function NewTransitionError<Q, S>(state: Q, symbol: S, message: Message<Q, S>): (e: Error<Q, S>)
    ensures IsTransitionError(e) && e.message == message && e.cause == None
    ensures e.context.Keys == {"state", "symbol"}
    ensures e.context["state"] == StateValue(state) && e.context["symbol"] == SymbolValue(symbol)
  {
    NewErrorWithContext(ErrorTypeTransition, message,
                        map["state" := StateValue(state), "symbol" := SymbolValue(symbol)])
  }

  /** An invalid-input error whose context holds exactly "symbol" and "position". */
  function NewInvalidInputError<Q, S>(symbol: S, position: int, message: Message<Q, S>): (e: Error<Q, S>)
    ensures IsInvalidInputError(e) && e.message == message && e.cause == None
    ensures e.context.Keys == {"symbol", "position"}
    ensures e.context["symbol"] == SymbolValue(symbol) && e.context["position"] == IntValue(position)
  {
    NewErrorWithContext(ErrorTypeInvalidInput, message,
                        map["symbol" := SymbolValue(symbol), "position" := IntValue(position)])
  }

  /** An invalid-configuration error whose context holds exactly "component". */
  function NewInvalidConfigurationError<Q, S>(component: string, message: Message<Q, S>): (e: Error<Q, S>)
    ensures e.AutomatonError? && e.kind == ErrorTypeInvalidConfiguration && e.message == message
    ensures e.context.Keys == {"component"} && e.context["component"] == TextValue(component)
  {
    NewErrorWithContext(ErrorTypeInvalidConfiguration, message, map["component" := TextValue(component)])
  }

  predicate IsValidationError<Q, S>(e: Error<Q, S>) {
    e.AutomatonError? && e.kind == ErrorTypeValidation
  }

  predicate IsTransitionError<Q, S>(e: Error<Q, S>) {
    e.AutomatonError? && e.kind == ErrorTypeTransition
  }

  predicate IsInvalidInputError<Q, S>(e: Error<Q, S>) {
    e.AutomatonError? && e.kind == ErrorTypeInvalidInput
  }

  /** The kind predicates agree with `Is` against a bare error of that kind, and no error
      satisfies two of them. */
  lemma KindPredicatesMatchIs<Q, S>(e: Error<Q, S>, m: Message<Q, S>)
    ensures IsValidationError(e) <==> e.AutomatonError? && e.Is(NewError(ErrorTypeValidation, m))
    ensures IsTransitionError(e) <==> e.AutomatonError? && e.Is(NewError(ErrorTypeTransition, m))
    ensures IsInvalidInputError(e) <==> e.AutomatonError? && e.Is(NewError(ErrorTypeInvalidInput, m))
    ensures !(IsValidationError(e) && IsTransitionError(e))
    ensures !(IsTransitionError(e) && IsInvalidInputError(e))
    ensures !(IsValidationError(e) && IsInvalidInputError(e))
  {
  }

  // ---------------------------------------------------------------------------------------
  // Decimal numerals and the combined report of an ErrorCollector

  function DecimalDigit(d: nat): (c: char)
    requires d < 10
    ensures '0' <= c <= '9' && c as int - '0' as int == d
  {
    "0123456789"[d]
  }

  /** `%d` of a natural number: decimal digits, no leading zero. */
  function NatToString(n: nat): (s: string)
    ensures |s| >= 1 && forall i :: 0 <= i < |s| ==> '0' <= s[i] <= '9'
    ensures |s| > 1 ==> s[0] != '0'
    decreases n
  {
    if n < 10 then [DecimalDigit(n)] else NatToString(n / 10) + [DecimalDigit(n % 10)]
  }

  /** The number a string of decimal digits denotes. */
  function DecimalValue(s: string): nat
    requires forall i :: 0 <= i < |s| ==> '0' <= s[i] <= '9'
  {
    if s == [] then 0 else 10 * DecimalValue(s[..|s| - 1]) + (s[|s| - 1] as int - '0' as int)
  }

  /** Reading the numeral back gives the number, so distinct numbers get distinct labels. */
  lemma {:induction false} DecimalRoundTrip(n: nat)
    ensures DecimalValue(NatToString(n)) == n
    decreases n
  {
    if n >= 10 {
      var s := NatToString(n);
      DecimalRoundTrip(n / 10);
      assert s[..|s| - 1] == NatToString(n / 10);
    }
  }

  const MultipleErrorsHeader: string := "Multiple errors occurred:\n"

  /** One numbered line "k. message" of the report. */
  function NumberedLine(k: nat, message: string): string {
    NatToString(k) + ". " + message
  }

  /** The lines "1. m1" to "n. mn", joined by newlines. */
  function NumberedLines(messages: seq<string>): string
    requires |messages| >= 1
  {
    if |messages| == 1 then NumberedLine(1, messages[0])
    else NumberedLines(messages[..|messages| - 1]) + "\n" + NumberedLine(|messages|, Last(messages))
  }

  /** `ErrorCollector.Error()` given the text of each collected error. The contract below
      fixes the empty, single and header cases; the full numbered rendering of two or more
      messages is given by `ReportOfTwo` and, one line at a time, by `ReportAppend`. */
  function Report(messages: seq<string>): (r: string)
    ensures messages == [] ==> r == ""
    ensures |messages| == 1 ==> r == messages[0]
    ensures |messages| >= 2 ==> |r| > |MultipleErrorsHeader| && r[..|MultipleErrorsHeader|] == MultipleErrorsHeader
  {
    if |messages| == 0 then ""
    else if |messages| == 1 then messages[0]
    else MultipleErrorsHeader + NumberedLines(messages)
  }

  /** Collecting one more error (beyond the second) adds exactly one numbered line at the end. */
  lemma ReportAppend(messages: seq<string>, m: string)
    requires |messages| >= 2
    ensures Report(messages + [m]) == Report(messages) + "\n" + NumberedLine(|messages| + 1, m)
  {
    var ms := messages + [m];
    assert ms[..|ms| - 1] == messages;
    var lines, line := NumberedLines(messages), NumberedLine(|messages| + 1, m);
    assert Report(ms) == MultipleErrorsHeader + (lines + "\n" + line);
    assert Report(messages) == MultipleErrorsHeader + lines;
  }

  /** Two errors are reported under the header, numbered from 1. */
  lemma ReportOfTwo(a: string, b: string)
    ensures Report([a, b]) == MultipleErrorsHeader + "1. " + a + "\n" + "2. " + b
  {
    var one, two := NumberedLine(1, a), NumberedLine(2, b);
    assert one == "1. " + a by {
      assert NatToString(1) == [DecimalDigit(1)] == "1";
    }
    assert two == "2. " + b by {
      assert NatToString(2) == [DecimalDigit(2)] == "2";
    }
    assert Report([a, b]) == MultipleErrorsHeader + (one + "\n" + two) by {
      assert [a, b][..1] == [a];
      assert NumberedLines([a, b]) == one + "\n" + two;
    }
    Regroup(MultipleErrorsHeader, "1. ", a, "\n", "2. ", b);
  }

  lemma Regroup<T>(h: seq<T>, p: seq<T>, a: seq<T>, n: seq<T>, q: seq<T>, b: seq<T>)
    ensures h + (p + a + n + (q + b)) == h + p + a + n + q + b
  {
  }

  /** `RetryableErrorHandler.HandleError`: an automaton error gains the context entry
      "max_retries"; any other error, and nil, pass through unchanged. */
  function RetryableHandleError<Q, S>(maxRetries: int, err: Option<Error<Q, S>>): (r: Option<Error<Q, S>>)
    ensures r.Some? <==> err.Some?
    ensures err.Some? && err.value.AutomatonError? ==>
      && r.value.AutomatonError? && r.value.Is(err.value)
      && r.value.message == err.value.message && r.value.cause == err.value.cause
      && r.value.context.Keys == err.value.context.Keys + {"max_retries"}
      && r.value.context["max_retries"] == IntValue(maxRetries)
    ensures (err.None? || !err.value.AutomatonError?) ==> r == err
  {
    if err.Some? && err.value.AutomatonError? then Some(WithContext(err.value, "max_retries", IntValue(maxRetries)))
    else err
  }

  /** Every collected error through a text function. */
  function Describe<Q, S>(errors: seq<Error<Q, S>>, describe: Error<Q, S> -> string): (r: seq<string>)
    ensures |r| == |errors| && forall i :: 0 <= i < |errors| ==> r[i] == describe(errors[i])
  {
    seq(|errors|, i requires 0 <= i < |errors| => describe(errors[i]))
  }

  /** `ErrorCollector`: a list of errors gathered one by one and reported together. */
  class ErrorCollector<Q, S> {
    var errors: seq<Error<Q, S>>

    constructor ()
      ensures errors == []
    {
      errors := [];
    }

    /** `Add` ignores nil and otherwise appends at the end. */
    method Add(err: Option<Error<Q, S>>)
      modifies this
      ensures errors == if err.Some? then old(errors) + [err.value] else old(errors)
    {
      if err.Some? {
        errors := errors + [err.value];
      }
    }

    predicate HasErrors()
      reads this
    {
      |errors| > 0
    }

    /** `Error()`: the combined message, given how a single error renders
        (the rendering of an `AutomatonError` is not part of this model). */
    function ErrorText(describe: Error<Q, S> -> string): (r: string)
      reads this
      ensures errors == [] ==> r == ""
      ensures |errors| == 1 ==> r == describe(errors[0])
      ensures |errors| >= 2 ==> |r| > |MultipleErrorsHeader| && r[..|MultipleErrorsHeader|] == MultipleErrorsHeader
    {
      Report(Describe(errors, describe))
    }

    /** `ToError`: nil when nothing was collected, otherwise the collector itself. */
    function ToError(): (r: Option<Error<Q, S>>)
      reads this
      ensures r.None? <==> !HasErrors()
      ensures r.Some? ==> r.value == CollectorError(errors)
    {
      if HasErrors() then Some(CollectorError(errors)) else None
    }
  }
}
