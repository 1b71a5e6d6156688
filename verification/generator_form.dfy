/**
 * The generator form (src/components/puzzle-generator-form.tsx): its value
 * schema and defaults, the submit handler's routing of the server action's
 * outcome into loading, error and puzzle updates, and the effect that copies
 * externally set parameters into the form and submits them.
 */
module GeneratorForm {
  import opened Js
  import opened Actions

  /** Form values, and the parameters the page keeps for the last puzzle. */
  datatype Params = Params(puzzleType: string, difficulty: string)

  const PuzzleTypes: seq<string> := ["Riddle", "Logic Puzzle", "Math Problem", "Word Scramble", "Analogy Puzzle"]
  const Difficulties: seq<string> := ["Easy", "Medium", "Hard"]

  const DefaultValues: Params := Params("", "Medium")

  const UnexpectedErrorMessage: string := "An unexpected error occurred."

  /**
   * formSchema: the keys that fail, in declaration order. `puzzleType` needs
   * at least one character; `difficulty` must be one of the three levels.
   */
  function ValidateForm(values: Params): (r: seq<string>)
    ensures |r| == 0 <==> |values.puzzleType| >= 1 && values.difficulty in Difficulties
    ensures "puzzleType" in r <==> values.puzzleType == ""
    ensures "difficulty" in r <==> values.difficulty !in Difficulties
  {
    (if |values.puzzleType| < 1 then ["puzzleType"] else [])
    + (if values.difficulty in Difficulties then [] else ["difficulty"])
  }

  /** The defaults are rejected until a puzzle type is chosen; any menu choice is accepted. */
  lemma DefaultsNeedPuzzleType()
    ensures ValidateForm(DefaultValues) == ["puzzleType"]
    ensures forall t, d :: t in PuzzleTypes && d in Difficulties ==> ValidateForm(Params(t, d)) == []
  {
  }

  /** One state update the form asks of the page, in the order it asks them. */
  datatype Effect<+D> =
    | SetLoading(loading: bool)
    | SetError(error: Option<string>)
    | PuzzleGenerated(data: D, params: Params)

  /**
   * `onSubmit`, given how the awaited server action completed: loading on,
   * error cleared, then exactly one of an error message or the new puzzle
   * with the submitted values, and loading off on every path.
   */
  function OnSubmit<D>(values: Params, call: Completion<ActionResult<D>>): (r: seq<Effect<D>>)
    ensures |r| == 4 && r[0] == SetLoading(true) && r[1] == SetError(None) && r[3] == SetLoading(false)
    ensures r[2].PuzzleGenerated? <==> call.Returned? && call.value.Generated?
    ensures r[2].PuzzleGenerated? ==> r[2] == PuzzleGenerated(call.value.result, values)
    ensures call.Returned? && call.value.ErrorResult? ==> r[2] == SetError(Some(call.value.error))
    ensures call.Threw? && call.thrown.ErrorInstance? ==> r[2] == SetError(Some(call.thrown.message))
    ensures call.Threw? && call.thrown.NonError? ==> r[2] == SetError(Some(UnexpectedErrorMessage))
  {
    var outcome :=
      match call
      case Returned(ErrorResult(m)) => SetError(Some(m))
      case Returned(Generated(result)) => PuzzleGenerated(result, values)
      case Threw(e) => SetError(Some(CaughtMessage(e, UnexpectedErrorMessage)));
    [SetLoading(true), SetError(None), outcome, SetLoading(false)]
  }

  /** `form.handleSubmit(onSubmit)`: the handler runs only for values the schema accepts. */
  function HandleSubmit<D>(values: Params, call: Completion<ActionResult<D>>): (r: seq<Effect<D>>)
    ensures r == [] <==> |ValidateForm(values)| > 0
    ensures r != [] ==> r == OnSubmit(values, call)
  {
    if |ValidateForm(values)| == 0 then OnSubmit(values, call) else []
  }

  /** What the parameters effect leaves in the form, and what it submits. */
  datatype ParamsEffect = ParamsEffect(formValues: Params, submitted: Option<Params>)

  /**
   * The effect on `currentParams`: when they are set and differ from the form
   * in type or difficulty, copy them into the form and submit them; otherwise
   * do nothing.
   */
  function SyncParams(form: Params, current: Option<Params>): (r: ParamsEffect)
    ensures r.submitted.Some? <==> current.Some? && current.value != form
    ensures r.submitted.Some? ==> r.submitted.value == current.value && r.formValues == current.value
    ensures r.submitted.None? ==> r.formValues == form
    ensures current.Some? ==> r.formValues == current.value
  {
    match current
    case None => ParamsEffect(form, None)
    case Some(p) =>
      if form.puzzleType != p.puzzleType || form.difficulty != p.difficulty then
        ParamsEffect(p, Some(p))
      else ParamsEffect(form, None)
  }

  /** Running the effect again on what it left behind submits nothing: it cannot loop. */
  lemma SyncParamsSettles(form: Params, current: Option<Params>)
    ensures SyncParams(SyncParams(form, current).formValues, current).submitted.None?
    ensures SyncParams(SyncParams(form, current).formValues, current).formValues
            == SyncParams(form, current).formValues
  {
  }

  /**
   * The effect calls `onSubmit` directly, not through `handleSubmit`, so
   * parameters the form schema would reject are submitted all the same.
   */
  lemma SyncParamsSkipsSchema()
    ensures var p := Params("", "Extreme");
            SyncParams(DefaultValues, Some(p)).submitted == Some(p) && ValidateForm(p) == ["puzzleType", "difficulty"]
  {
  }
}
