/**
 * The server action of src/lib/actions.ts: it awaits `generatePuzzle`, checks
 * that what came back is truthy and has a string `puzzle`, and turns every
 * failure, thrown or not, into an `{error}` value. Nothing escapes it.
 */
module Actions {
  import opened Js
  import Schema
  import GeneratePuzzle

  /** What the action resolves to: the generated result, or `{error: message}`. */
  datatype ActionResult<+T> = Generated(result: T) | ErrorResult(error: string)

  const InvalidFormatMessage: string := "The AI generated an invalid puzzle format. Please try again."
  const UnknownErrorMessage: string := "An unknown error occurred while generating the puzzle."

  /** The message taken from a caught value: `e.message` for an Error, else the fallback. */
  function CaughtMessage(e: Thrown, fallback: string): string
  {
    match e
    case ErrorInstance(m) => m
    case NonError(_) => fallback
  }

  /**
   * `handleGeneratePuzzleAction`, given how the awaited `generatePuzzle(input)`
   * completed. A result is passed on only when it is an object whose `puzzle`
   * is a string (a non-object is either falsy or has no `puzzle` property);
   * no other field is looked at.
   */
  function HandleGeneratePuzzleAction(call: Completion<Value>): (r: ActionResult<Value>)
    ensures r.Generated? <==> call.Returned? && call.value.Obj? && Prop(call.value, "puzzle").Str?
    ensures r.Generated? ==> r.result == call.value
    ensures call.Returned? && !r.Generated? ==> r == ErrorResult(InvalidFormatMessage)
    ensures call.Threw? && call.thrown.ErrorInstance? ==> r == ErrorResult(call.thrown.message)
    ensures call.Threw? && call.thrown.NonError? ==> r == ErrorResult(UnknownErrorMessage)
  {
    match call
    case Returned(result) =>
      if !Truthy(result) || !Prop(result, "puzzle").Str? then ErrorResult(InvalidFormatMessage)
      else Generated(result)
    case Threw(e) => ErrorResult(CaughtMessage(e, UnknownErrorMessage))
  }

  /** Only the `puzzle` field decides: two results that agree on it are routed alike. */
  lemma OnlyPuzzleFieldInspected(a: Value, b: Value)
    requires a.Obj? && b.Obj? && Prop(a, "puzzle") == Prop(b, "puzzle")
    ensures HandleGeneratePuzzleAction(Returned(a)).Generated? == HandleGeneratePuzzleAction(Returned(b)).Generated?
  {
  }

  lemma FormatMessageOpening()
    ensures InvalidFormatMessage[0] == 'T'
  {
    var a, b := "The AI generated an invalid puzzle format.", " Please try again.";
    assert InvalidFormatMessage == a + b;
    assert (a + b)[0] == a[0];
  }

  /** A validation error's text is never the action's format message. */
  lemma ValidationMessageIsNotFormatMessage(e: Schema.SchemaError)
    ensures Schema.ErrorMessage(e) != InvalidFormatMessage
  {
    var m := Schema.ErrorMessage(e);
    assert m[0] == "Schema validation failed"[0];
    FormatMessageOpening();
  }

  /**
   * Composed with the real flow, the action's own format check never fires:
   * the flow already validated the output, so a passed-on result always
   * parses as a puzzle, and an output that fails the schema reaches the UI
   * as the flow's validation message, never as the action's format message.
   */
  lemma FlowMakesFormatCheckRedundant(prompt: GeneratePuzzle.GeneratePuzzleInput -> Completion<Value>, input: Value)
    ensures var r := HandleGeneratePuzzleAction(GeneratePuzzle.GeneratePuzzle(prompt, input));
            (r.Generated? ==> GeneratePuzzle.ParseOutput(r.result).Success?)
            && (r.Generated? <==> GeneratePuzzle.GeneratePuzzle(prompt, input).Returned?)
    ensures var parsed := GeneratePuzzle.ParseInput(input);
            parsed.Success? && prompt(parsed.value).Returned?
            && GeneratePuzzle.ParseOutput(prompt(parsed.value).value).Failure? ==>
              var r := HandleGeneratePuzzleAction(GeneratePuzzle.GeneratePuzzle(prompt, input));
              && r == ErrorResult(Schema.ErrorMessage(GeneratePuzzle.ParseOutput(prompt(parsed.value).value).error))
              && r != ErrorResult(InvalidFormatMessage)
  {
    var parsed := GeneratePuzzle.ParseInput(input);
    if parsed.Success? && prompt(parsed.value).Returned? {
      var out := GeneratePuzzle.ParseOutput(prompt(parsed.value).value);
      if out.Failure? {
        ValidationMessageIsNotFormatMessage(out.error);
      }
    }
  }

  /** A prompt that produces no output (`output!` on null) reaches the UI as the "expected object" message. */
  lemma NullOutputReported(input: Value)
    requires GeneratePuzzle.ParseInput(input).Success?
    ensures HandleGeneratePuzzleAction(GeneratePuzzle.GeneratePuzzle(_ => Returned(Null), input))
            == ErrorResult(Schema.ErrorMessage(Schema.NotAnObject))
  {
  }
}
