/** The pipeline stage that runs every validator registered for a request before its
    handler, and answers with all-400 validation errors instead of calling the handler
    when any validator objects (src/Million.Application/Common/Behaviors/ValidationBehavior.cs).
    A validator is a function from the request to its failures, a null failure being None;
    the rest of the pipeline is `next`, a function that yields the handler's result. */
module ValidationBehavior {
  import opened Common
  import opened Results

  /** The failures' messages with the null failures dropped (`Where(f => f != null).Select(f => f.ErrorMessage)`). */
  function Present(failures: seq<Option<string>>): (messages: seq<string>)
    ensures |messages| <= |failures|
    ensures forall m :: m in messages <==> Some(m) in failures
  {
    if |failures| == 0 then []
    else if failures[0].Some? then [failures[0].value] + Present(failures[1..])
    else Present(failures[1..])
  }

  /** One component of a FluentValidation rule: its message when the value fails it, nothing
      otherwise. Every component of a rule runs, so a value can fail several. */
  function Rule(fails: bool, message: string): (r: seq<string>)
    ensures fails ==> r == [message]
    ensures !fails ==> r == []
  {
    if fails then [message] else []
  }

  /** `NotEmpty().WithMessage(required).MaximumLength(max).WithMessage(tooLong)` on a text: the
      first message iff the text is blank, the second iff it is longer than `max`, nothing else. */
  function RequiredText(value: string, max: nat, required: string, tooLong: string): (r: seq<string>)
    ensures required in r <==> IsBlank(value) || (required == tooLong && Utf16Length(value) > max)
    ensures tooLong in r <==> Utf16Length(value) > max || (required == tooLong && IsBlank(value))
    ensures forall m :: m in r ==> m == required || m == tooLong
    ensures |r| <= 2
  {
    Rule(IsBlank(value), required) + Rule(Utf16Length(value) > max, tooLong)
  }

  /** A validator's messages as the failures it reports, none of them null. */
  function AsFailures(messages: seq<string>): (r: seq<Option<string>>)
    ensures |r| == |messages| && forall i :: 0 <= i < |r| ==> r[i] == Some(messages[i])
  {
    seq(|messages|, i requires 0 <= i < |messages| => Some(messages[i]))
  }

  /** Every validator's messages for the request, validator after validator (`SelectMany`). */
  function Failures<Req>(validators: seq<Req -> seq<Option<string>>>, request: Req): (messages: seq<string>)
    ensures forall m :: m in messages <==> exists k :: 0 <= k < |validators| && Some(m) in validators[k](request)
  {
    if |validators| == 0 then []
    else Present(validators[0](request)) + Failures(validators[1..], request)
  }

  /** `Handle`: with no validators, or when none objects, the handler's result unchanged;
      otherwise one validation error per message, and the handler is not consulted. */
  function Handle<Req, T>(validators: seq<Req -> seq<Option<string>>>, request: Req, next: () -> Result<T>): (r: Result<T>)
    ensures Failures(validators, request) == [] ==> r == next()
    ensures Failures(validators, request) != [] ==> r == ValidationErrors(Failures(validators, request))
  {
    if |validators| == 0 then next()
    else
      var failures := Failures(validators, request);
      if |failures| > 0 then ValidationErrors(failures) else next()
  }

  // ---------------------------------------------------------------------------

  /** The messages of several validators are those of each, in validator order. */
  lemma {:induction false} FailuresAppend<Req>(first: seq<Req -> seq<Option<string>>>, second: seq<Req -> seq<Option<string>>>, request: Req)
    ensures Failures(first + second, request) == Failures(first, request) + Failures(second, request)
  {
    if |first| > 0 {
      assert (first + second)[0] == first[0];
      assert (first + second)[1..] == first[1..] + second;
      FailuresAppend(first[1..], second, request);
    } else {
      assert first + second == second;
    }
  }

  /** A validator that reports no null failure contributes its failures exactly. */
  lemma {:induction false} PresentAll(failures: seq<Option<string>>, messages: seq<string>)
    requires |failures| == |messages|
    requires forall i :: 0 <= i < |failures| ==> failures[i] == Some(messages[i])
    ensures Present(failures) == messages
  {
    if |failures| > 0 {
      PresentAll(failures[1..], messages[1..]);
    }
  }

  /** No message is collected exactly when no validator reports a (non-null) failure. */
  lemma {:induction false} NoFailuresIff<Req>(validators: seq<Req -> seq<Option<string>>>, request: Req)
    ensures Failures(validators, request) == [] <==>
      forall i :: 0 <= i < |validators| ==> Present(validators[i](request)) == []
  {
    if |validators| > 0 {
      NoFailuresIff(validators[1..], request);
      assert forall i :: 1 <= i < |validators| ==> validators[i] == validators[1..][i - 1];
    }
  }

  /** Without validators the stage returns the handler's result unchanged. */
  lemma NoValidatorsPassThrough<Req, T>(request: Req, next: () -> Result<T>)
    ensures Handle([], request, next) == next()
  {
  }

  /** When anything is collected, the result is the same whatever the handler would have answered
      (it is never called), it holds one error per message in order, and it reports status 400. */
  lemma {:induction false} ShortCircuit<Req, T>(validators: seq<Req -> seq<Option<string>>>, request: Req, next: () -> Result<T>, other: () -> Result<T>)
    requires Failures(validators, request) != []
    ensures Handle(validators, request, next) == Handle(validators, request, other)
    ensures Handle(validators, request, next) == ValidationErrors(Failures(validators, request))
    ensures GetStatusCode(Handle(validators, request, next)) == 400
  {
    assert |validators| > 0;
    ValidationErrorsStatus(Failures(validators, request), ValidationErrors<T>(Failures(validators, request)));
  }

  /** The same errors are produced for a plain `Result` and for a `Result<T>` response. */
  lemma SameErrorsForEveryShape<Req, T>(validators: seq<Req -> seq<Option<string>>>, request: Req, next: () -> Result<()>, nextValue: () -> Result<T>)
    requires Failures(validators, request) != []
    ensures Handle(validators, request, next).Errors() == Handle(validators, request, nextValue).Errors()
  {
  }
}
