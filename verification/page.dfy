/**
 * The home page (src/app/page.tsx): its four state slots, the callbacks it
 * hands to the form and to the puzzle card, and which panel it shows. The
 * puzzle data type `D` is left generic: the page only stores and forwards it.
 */
module HomePage {
  import opened Js
  import opened Actions
  import opened GeneratorForm

  datatype PageState<D> = PageState(
    puzzleData: Option<D>,
    isLoading: bool,
    error: Option<string>,
    currentParams: Option<Params>)

  /** The page as it first renders: no puzzle, not loading, no error, no parameters. */
  function Initial<D>(): PageState<D>
  {
    PageState(None, false, None, None)
  }

  /** On first render no panel shows, and the parameters effect submits nothing whatever the form holds. */
  lemma InitialPageIsQuiet<D>(form: Params)
    ensures VisiblePanel(Initial<D>()) == NoPanel
    ensures SyncParams(form, Initial<D>().currentParams) == ParamsEffect(form, None)
  {
  }

  /** `onPuzzleGenerated`: keep the puzzle and remember the values that produced it. */
  function OnPuzzleGenerated<D>(s: PageState<D>, data: D, params: Params): (r: PageState<D>)
    ensures r.puzzleData == Some(data) && r.currentParams == Some(params)
    ensures r.isLoading == s.isLoading && r.error == s.error
  {
    s.(puzzleData := Some(data), currentParams := Some(params))
  }

  /**
   * `onRegenerate` as written: with parameters set, store a value-equal copy
   * of them and clear the puzzle; without parameters, change nothing.
   */
  function OnRegenerate<D>(s: PageState<D>): (r: PageState<D>)
    ensures s.currentParams.None? ==> r == s
    ensures s.currentParams.Some? ==> r.puzzleData.None? && r.currentParams == s.currentParams
    ensures r.isLoading == s.isLoading && r.error == s.error
  {
    match s.currentParams
    case None => s
    case Some(p) => s.(currentParams := Some(Params(p.puzzleType, p.difficulty)), puzzleData := None)
  }

  /** One state update asked for by the form. */
  function Apply<D>(s: PageState<D>, e: Effect<D>): PageState<D>
  {
    match e
    case SetLoading(b) => s.(isLoading := b)
    case SetError(m) => s.(error := m)
    case PuzzleGenerated(data, params) => OnPuzzleGenerated(s, data, params)
  }

  function ApplyAll<D>(s: PageState<D>, es: seq<Effect<D>>): PageState<D>
    decreases |es|
  {
    if |es| == 0 then s else ApplyAll(Apply(s, es[0]), es[1..])
  }

  predicate ShowsLoading<D>(s: PageState<D>)
  {
    s.isLoading
  }

  predicate ShowsError<D>(s: PageState<D>)
  {
    TruthyText(s.error) && !s.isLoading
  }

  predicate ShowsPuzzle<D>(s: PageState<D>)
  {
    s.puzzleData.Some? && !s.isLoading && !TruthyText(s.error)
  }

  datatype Panel = LoadingPanel | ErrorPanel | PuzzlePanel | NoPanel

  /**
   * The single panel under the form. Each of the page's three render
   * conditions holds exactly when its panel is the one chosen, so no two of
   * them hold together.
   */
  function VisiblePanel<D>(s: PageState<D>): (p: Panel)
    ensures p == LoadingPanel <==> ShowsLoading(s)
    ensures p == ErrorPanel <==> ShowsError(s)
    ensures p == PuzzlePanel <==> ShowsPuzzle(s)
  {
    if s.isLoading then LoadingPanel
    else if TruthyText(s.error) then ErrorPanel
    else if s.puzzleData.Some? then PuzzlePanel
    else NoPanel
  }

  /** The form's submit, played on the page. */
  function SubmitOnPage<D>(s: PageState<D>, values: Params, call: Completion<ActionResult<D>>): PageState<D>
  {
    ApplyAll(s, OnSubmit(values, call))
  }

  /**
   * While the action is outstanding the loading panel shows. Afterwards
   * loading is off; a success shows the new puzzle and remembers the values;
   * a failure keeps the old puzzle and parameters and records the message,
   * which is shown unless it is empty.
   */
  lemma SubmitOutcome<D>(s: PageState<D>, values: Params, call: Completion<ActionResult<D>>)
    ensures VisiblePanel(ApplyAll(s, OnSubmit(values, call)[..2])) == LoadingPanel
    ensures var r := SubmitOnPage(s, values, call);
            && !r.isLoading
            && (call.Returned? && call.value.Generated? ==>
                  r == PageState(Some(call.value.result), false, None, Some(values))
                  && VisiblePanel(r) == PuzzlePanel)
            && (!(call.Returned? && call.value.Generated?) ==>
                  r.puzzleData == s.puzzleData && r.currentParams == s.currentParams
                  && r.error.Some? && (r.error.value != "" ==> VisiblePanel(r) == ErrorPanel))
            && (call.Returned? && call.value.ErrorResult? ==> r.error == Some(call.value.error))
            && (call.Threw? ==> r.error == Some(CaughtMessage(call.thrown, UnexpectedErrorMessage)))
  {
    var es := OnSubmit(values, call);
    var s1 := Apply(s, es[0]);
    var s2 := Apply(s1, es[1]);
    var s3 := Apply(s2, es[2]);
    var s4 := Apply(s3, es[3]);
    assert ApplyAll(s2, []) == s2;
    assert ApplyAll(s, es[..2]) == s2 by {
      assert es[..2][1..] == [es[1]] && [es[1]][1..] == [];
    }
    assert ApplyAll(s3, es[3..]) == s4 by {
      assert es[3..][1..] == [];
    }
    assert ApplyAll(s2, es[2..]) == s4 by {
      assert es[2..][0] == es[2] && es[2..][1..] == es[3..];
    }
    assert ApplyAll(s1, es[1..]) == s4 by {
      assert es[1..][0] == es[1] && es[1..][1..] == es[2..];
    }
  }

  /**
   * An `Error` with an empty message leaves the error slot falsy, so the page
   * goes back to showing whatever puzzle it showed before the submit.
   */
  lemma EmptyMessageShowsStalePuzzle<D>(s: PageState<D>, values: Params, previous: D)
    requires s.puzzleData == Some(previous)
    ensures VisiblePanel(SubmitOnPage(s, values, Threw(ErrorInstance("")))) == PuzzlePanel
    ensures SubmitOnPage(s, values, Threw(ErrorInstance(""))).puzzleData == Some(previous)
  {
    SubmitOutcome(s, values, Threw(ErrorInstance("")));
  }

  /** The page together with the form's current values. */
  datatype App<D> = App(page: PageState<D>, form: Params)

  /**
   * A successful submit of the form's values, followed by the parameters
   * effect it triggers: the new puzzle shows, the form already holds the
   * remembered parameters, and nothing is submitted again.
   */
  function GenerateFromForm<D>(a: App<D>, data: D): (r: (App<D>, Option<Params>))
    ensures r.0.page.puzzleData == Some(data) && r.0.page.currentParams == Some(a.form)
    ensures r.0.form == a.form
    ensures r.1.None?
    ensures VisiblePanel(r.0.page) == PuzzlePanel
  {
    SubmitOutcome(a.page, a.form, Returned(Generated(data)));
    var page := SubmitOnPage(a.page, a.form, Returned(Generated(data)));
    var sync := SyncParams(a.form, page.currentParams);
    (App(page, sync.formValues), sync.submitted)
  }

  /**
   * "Try Another Puzzle" as written: `onRegenerate` followed by the
   * parameters effect it triggers.
   */
  function RegenerateAsWritten<D>(a: App<D>): (r: (App<D>, Option<Params>))
    ensures a.page.currentParams.None? ==> r == (a, None)
    ensures a.page.currentParams.Some? ==> r.0.page.puzzleData.None?
    ensures r.1.Some? <==> a.page.currentParams.Some? && a.page.currentParams.value != a.form
  {
    var page := OnRegenerate(a.page);
    var sync := SyncParams(a.form, page.currentParams);
    (App(page, sync.formValues), sync.submitted)
  }

  /**
   * Regenerating right after a generation from the form submits nothing: the
   * copied parameters equal the form's values, so the effect's guard is
   * false. The puzzle is cleared and, with no error or loading, the page
   * shows no panel at all.
   */
  lemma RegenerateAfterGenerateDoesNotResubmit<D>(a: App<D>, data: D)
    ensures var generated := GenerateFromForm(a, data).0;
            var r := RegenerateAsWritten(generated);
            && r.1.None?
            && r.0.page.puzzleData.None?
            && VisiblePanel(r.0.page) == NoPanel
  {
    var generated := GenerateFromForm(a, data).0;
    SubmitOutcome(a.page, a.form, Returned(Generated(data)));
    assert generated.page.error == None && !generated.page.isLoading;
  }

  /**
   * "Try Another Puzzle" as intended: with parameters set, clear the puzzle
   * and submit those parameters; without parameters, change nothing.
   */
  function Regenerate<D>(a: App<D>): (r: (App<D>, Option<Params>))
    ensures a.page.currentParams.None? ==> r == (a, None)
    ensures a.page.currentParams.Some? ==>
              r.0.page.puzzleData.None? && r.1 == a.page.currentParams
              && r.0.page.currentParams == a.page.currentParams
  {
    match a.page.currentParams
    case None => (a, None)
    case Some(p) => (App(OnRegenerate(a.page), p), Some(p))
  }

  /**
   * With the intended regenerate, a generation followed by "Try Another
   * Puzzle" and a successful resubmission shows the new puzzle, generated
   * from the same parameters.
   */
  lemma RegenerateShowsNewPuzzle<D>(a: App<D>, first: D, second: D)
    ensures var generated := GenerateFromForm(a, first).0;
            var (regen, submitted) := Regenerate(generated);
            && submitted == Some(a.form)
            && var page := SubmitOnPage(regen.page, submitted.value, Returned(Generated(second)));
               page.puzzleData == Some(second) && page.currentParams == Some(a.form)
               && VisiblePanel(page) == PuzzlePanel
  {
    var generated := GenerateFromForm(a, first).0;
    var regen := Regenerate(generated).0;
    SubmitOutcome(regen.page, a.form, Returned(Generated(second)));
  }
}
