/**
 * Puzzle generation flow (src/ai/flows/generate-puzzle.ts): the input and
 * output object schemas, and `generatePuzzle`, which validates its input,
 * hands it to the prompt (an oracle here: the generative backend), validates
 * the prompt's output and returns it unchanged.
 */
module GeneratePuzzle {
  import opened Js
  import opened Schema

  datatype GeneratePuzzleInput = GeneratePuzzleInput(puzzleType: string, difficulty: Option<string>)

  datatype GeneratePuzzleOutput = GeneratePuzzleOutput(
    title: string,
    puzzle: string,
    solution: string,
    hints: Option<seq<string>>,
    difficulty: string)

  const InputShape: Shape := [
    Field("puzzleType", Required(StringKind)),
    Field("difficulty", Optional(StringKind))
  ]

  const OutputShape: Shape := [
    Field("title", Required(StringKind)),
    Field("puzzle", Required(StringKind)),
    Field("solution", Required(StringKind)),
    Field("hints", Optional(StringArrayKind)),
    Field("difficulty", Required(StringKind))
  ]

  /** Every item of an array value is a string. */
  predicate AllStrings(v: Value)
  {
    v.Arr? && forall i :: 0 <= i < |v.items| ==> v.items[i].Str?
  }

  lemma InputConformance(v: Value)
    ensures Conforms(InputShape, v) <==>
              v.Obj? && Prop(v, "puzzleType").Str?
              && (Prop(v, "difficulty") == Undefined || Prop(v, "difficulty").Str?)
  {
    assert FieldHolds(InputShape[0], v) <==> Prop(v, "puzzleType").Str?;
    assert FieldHolds(InputShape[1], v) <==> Prop(v, "difficulty") == Undefined || Prop(v, "difficulty").Str?;
  }

  lemma OutputConformance(v: Value)
    ensures Conforms(OutputShape, v) <==>
              v.Obj? && Prop(v, "title").Str? && Prop(v, "puzzle").Str? && Prop(v, "solution").Str?
              && Prop(v, "difficulty").Str?
              && (Prop(v, "hints") == Undefined || AllStrings(Prop(v, "hints")))
  {
    assert FieldHolds(OutputShape[0], v) <==> Prop(v, "title").Str?;
    assert FieldHolds(OutputShape[1], v) <==> Prop(v, "puzzle").Str?;
    assert FieldHolds(OutputShape[2], v) <==> Prop(v, "solution").Str?;
    assert FieldHolds(OutputShape[3], v) <==> Prop(v, "hints") == Undefined || AllStrings(Prop(v, "hints"));
    assert FieldHolds(OutputShape[4], v) <==> Prop(v, "difficulty").Str?;
  }

  function EncodeInput(x: GeneratePuzzleInput): Value
  {
    Obj(map["puzzleType" := Str(x.puzzleType)]
        + OptionalEntry("difficulty", if x.difficulty.Some? then Some(Str(x.difficulty.value)) else None))
  }

  function EncodeOutput(x: GeneratePuzzleOutput): Value
  {
    Obj(map["title" := Str(x.title), "puzzle" := Str(x.puzzle), "solution" := Str(x.solution),
            "difficulty" := Str(x.difficulty)]
        + OptionalEntry("hints", if x.hints.Some? then Some(StringsValue(x.hints.value)) else None))
  }

  /** What an encoded request reads as, key by key. */
  lemma EncodedInputReads(x: GeneratePuzzleInput)
    ensures Prop(EncodeInput(x), "puzzleType") == Str(x.puzzleType)
    ensures Prop(EncodeInput(x), "difficulty") == if x.difficulty.Some? then Str(x.difficulty.value) else Undefined
  {
  }

  /** What an encoded puzzle reads as, key by key. */
  lemma EncodedOutputReads(x: GeneratePuzzleOutput)
    ensures Prop(EncodeOutput(x), "title") == Str(x.title)
    ensures Prop(EncodeOutput(x), "puzzle") == Str(x.puzzle)
    ensures Prop(EncodeOutput(x), "solution") == Str(x.solution)
    ensures Prop(EncodeOutput(x), "difficulty") == Str(x.difficulty)
    ensures Prop(EncodeOutput(x), "hints") == if x.hints.Some? then StringsValue(x.hints.value) else Undefined
  {
  }

  /** Agreement on the five puzzle keys, one key at a time. */
  lemma OutputAgreement(v: Value, w: Value)
    requires Prop(v, "title") == Prop(w, "title")
    requires Prop(v, "puzzle") == Prop(w, "puzzle")
    requires Prop(v, "solution") == Prop(w, "solution")
    requires Prop(v, "hints") == Prop(w, "hints")
    requires Prop(v, "difficulty") == Prop(w, "difficulty")
    ensures AgreeOn(OutputShape, v, w)
  {
    forall i | 0 <= i < |OutputShape|
      ensures Prop(v, OutputShape[i].key) == Prop(w, OutputShape[i].key)
    {
      assert i == 0 || i == 1 || i == 2 || i == 3 || i == 4;
    }
  }

  /**
   * GeneratePuzzleInputSchema: an object whose `puzzleType` is a string (the
   * empty string included: there is no minimum length) and whose `difficulty`
   * is absent or a string.
   */
  function ParseInput(v: Value): (r: Result<GeneratePuzzleInput, SchemaError>)
    ensures r.Success? <==>
              v.Obj? && Prop(v, "puzzleType").Str?
              && (Prop(v, "difficulty") == Undefined || Prop(v, "difficulty").Str?)
    ensures r.Success? ==> AgreeOn(InputShape, EncodeInput(r.value), v)
    ensures r.Failure? && v.Obj? ==> r.error.InvalidFields?
  {
    InputConformance(v);
    match Validate(InputShape, v)
    case Some(e) => Failure(e)
    case None =>
      var x := GeneratePuzzleInput(Prop(v, "puzzleType").s, OptionalText(Prop(v, "difficulty")));
      EncodedInputReads(x);
      Success(x)
  }

  /**
   * GeneratePuzzleOutputSchema: `title`, `puzzle`, `solution` and `difficulty`
   * are strings; `hints` is absent or an array of strings (possibly empty).
   */
  function ParseOutput(v: Value): (r: Result<GeneratePuzzleOutput, SchemaError>)
    ensures r.Success? <==>
              v.Obj? && Prop(v, "title").Str? && Prop(v, "puzzle").Str? && Prop(v, "solution").Str?
              && Prop(v, "difficulty").Str?
              && (Prop(v, "hints") == Undefined || AllStrings(Prop(v, "hints")))
    ensures r.Success? ==> AgreeOn(OutputShape, EncodeOutput(r.value), v)
    ensures r.Failure? && v.Obj? ==> r.error.InvalidFields?
  {
    OutputConformance(v);
    match Validate(OutputShape, v)
    case Some(e) => Failure(e)
    case None =>
      var hints := Prop(v, "hints");
      var out := GeneratePuzzleOutput(
        Prop(v, "title").s, Prop(v, "puzzle").s, Prop(v, "solution").s,
        if hints.Arr? then Some(ValueStrings(hints.items)) else None,
        Prop(v, "difficulty").s);
      assert hints.Arr? ==> StringsValue(ValueStrings(hints.items)) == hints;
      EncodedOutputReads(out);
      OutputAgreement(EncodeOutput(out), v);
      Success(out)
  }

  lemma InputRoundTrip(x: GeneratePuzzleInput)
    ensures ParseInput(EncodeInput(x)) == Success(x)
  {
  }

  lemma OutputRoundTrip(x: GeneratePuzzleOutput)
    ensures ParseOutput(EncodeOutput(x)) == Success(x)
  {
    EncodedOutputReads(x);
    if x.hints.Some? {
      StringsRoundTrip(x.hints.value);
    }
    assert ParseOutput(EncodeOutput(x)).Success?;
  }

  /**
   * `generatePuzzle`: the flow over the two schemas above. An invalid input and an
   * output that fails the output schema are thrown as validation errors; a
   * failure of the prompt call itself propagates; otherwise the prompt's
   * output is returned unchanged.
   */
  function GeneratePuzzle(prompt: GeneratePuzzleInput -> Completion<Value>, input: Value): (r: Completion<Value>)
    ensures ParseInput(input).Failure? ==> r == Threw(ErrorInstance(ErrorMessage(ParseInput(input).error)))
    ensures ParseInput(input).Success? && prompt(ParseInput(input).value).Threw? ==>
              r == prompt(ParseInput(input).value)
    ensures ParseInput(input).Success? && prompt(ParseInput(input).value).Returned?
            && ParseOutput(prompt(ParseInput(input).value).value).Failure? ==>
              r == Threw(ErrorInstance(ErrorMessage(ParseOutput(prompt(ParseInput(input).value).value).error)))
    ensures r.Returned? <==>
              ParseInput(input).Success? && prompt(ParseInput(input).value).Returned?
              && ParseOutput(prompt(ParseInput(input).value).value).Success?
    ensures r.Returned? ==> r == prompt(ParseInput(input).value)
  {
    Flow(ParseInput, ParseOutput, prompt, input)
  }

  /** With an invalid input the prompt is never consulted: the outcome does not depend on it. */
  lemma InvalidInputSkipsPrompt(p: GeneratePuzzleInput -> Completion<Value>, q: GeneratePuzzleInput -> Completion<Value>, input: Value)
    requires ParseInput(input).Failure?
    ensures GeneratePuzzle(p, input) == GeneratePuzzle(q, input)
  {
  }

  /** A missing or non-string `puzzleType` is rejected, and the error names it. */
  lemma PuzzleTypeRequired(v: Value)
    requires v.Obj? && !Prop(v, "puzzleType").Str?
    ensures ParseInput(v).Failure?
    ensures ParseInput(v).error.InvalidFields? && "puzzleType" in ParseInput(v).error.keys
  {
    BadFieldNamed(InputShape, v, 0);
  }

  /** Any required output field that is missing or not a string is rejected, and the error names it. */
  lemma RequiredOutputFieldNamed(v: Value, key: string)
    requires key in {"title", "puzzle", "solution", "difficulty"}
    requires v.Obj? && !Prop(v, key).Str?
    ensures ParseOutput(v).Failure?
    ensures ParseOutput(v).error.InvalidFields? && key in ParseOutput(v).error.keys
  {
    var i := if key == "title" then 0 else if key == "puzzle" then 1 else if key == "solution" then 2 else 4;
    assert OutputShape[i].key == key && !FieldHolds(OutputShape[i], v);
    BadFieldNamed(OutputShape, v, i);
  }

  /** The empty puzzle type is a valid input: the schema sets no minimum length. */
  lemma EmptyPuzzleTypeAccepted()
    ensures ParseInput(Obj(map["puzzleType" := Str("")])) == Success(GeneratePuzzleInput("", None))
  {
  }

  /** An easy riddle request is well formed. */
  lemma RiddleRequestValid(request: Value)
    requires request == Obj(map["puzzleType" := Str("Riddle"), "difficulty" := Str("Easy")])
    ensures ParseInput(request) == Success(GeneratePuzzleInput("Riddle", Some("Easy")))
  {
  }

  /** A puzzle object without hints is well formed, and its hints read as absent. */
  lemma EchoPuzzleValid(echo: Value)
    requires echo == Obj(map["title" := Str("The Echo"), "puzzle" := Str("..."),
                             "solution" := Str("An echo"), "difficulty" := Str("Easy")])
    ensures ParseOutput(echo).Success? && ParseOutput(echo).value.hints == None
  {
    assert Prop(echo, "title").Str? && Prop(echo, "puzzle").Str? && Prop(echo, "solution").Str?;
    assert Prop(echo, "difficulty").Str? && Prop(echo, "hints") == Undefined;
  }

  /** An easy riddle request answered with a puzzle that has no hints returns that puzzle unchanged. */
  lemma RiddleWithoutHints(echo: Value, request: Value)
    requires echo == Obj(map["title" := Str("The Echo"), "puzzle" := Str("..."),
                             "solution" := Str("An echo"), "difficulty" := Str("Easy")])
    requires request == Obj(map["puzzleType" := Str("Riddle"), "difficulty" := Str("Easy")])
    ensures GeneratePuzzle(_ => Returned(echo), request) == Returned(echo)
  {
    RiddleRequestValid(request);
    EchoPuzzleValid(echo);
  }
}
