/**
 * Answer checking flow (src/ai/flows/check-answer-flow.ts): the input and
 * output object schemas, and `checkAnswer`, which validates its input, hands
 * it to the prompt (an oracle here: the generative backend that judges
 * the answer), validates the prompt's output and returns it unchanged.
 */
module CheckAnswer {
  import opened Js
  import opened Schema

  datatype CheckAnswerInput = CheckAnswerInput(
    originalPuzzle: string,
    originalSolution: string,
    userAnswer: string,
    puzzleType: Option<string>,
    difficulty: Option<string>)

  /** `confidenceScore` is a number; a real stands in for the IEEE double. */
  datatype CheckAnswerOutput = CheckAnswerOutput(
    isCorrect: bool,
    isPartiallyCorrect: bool,
    feedback: string,
    confidenceScore: Option<real>)

  const InputShape: Shape := [
    Field("originalPuzzle", Required(StringKind)),
    Field("originalSolution", Required(StringKind)),
    Field("userAnswer", Required(StringKind)),
    Field("puzzleType", Optional(StringKind)),
    Field("difficulty", Optional(StringKind))
  ]

  const OutputShape: Shape := [
    Field("isCorrect", Required(BoolKind)),
    Field("isPartiallyCorrect", Required(BoolKind)),
    Field("feedback", Required(StringKind)),
    Field("confidenceScore", Optional(UnitIntervalKind))
  ]

  /** An optional string field: absent (undefined) or a string. */
  predicate OptionalString(v: Value)
  {
    v == Undefined || v.Str?
  }

  /** An optional score: absent (undefined) or a number in [0, 1], both ends included. */
  predicate OptionalScore(v: Value)
  {
    v == Undefined || (v.Num? && 0.0 <= v.n && v.n <= 1.0)
  }

  lemma InputConformance(v: Value)
    ensures Conforms(InputShape, v) <==>
              v.Obj? && Prop(v, "originalPuzzle").Str? && Prop(v, "originalSolution").Str?
              && Prop(v, "userAnswer").Str?
              && OptionalString(Prop(v, "puzzleType")) && OptionalString(Prop(v, "difficulty"))
  {
    assert FieldHolds(InputShape[0], v) <==> Prop(v, "originalPuzzle").Str?;
    assert FieldHolds(InputShape[1], v) <==> Prop(v, "originalSolution").Str?;
    assert FieldHolds(InputShape[2], v) <==> Prop(v, "userAnswer").Str?;
    assert FieldHolds(InputShape[3], v) <==> OptionalString(Prop(v, "puzzleType"));
    assert FieldHolds(InputShape[4], v) <==> OptionalString(Prop(v, "difficulty"));
  }

  lemma OutputConformance(v: Value)
    ensures Conforms(OutputShape, v) <==>
              v.Obj? && Prop(v, "isCorrect").Bool? && Prop(v, "isPartiallyCorrect").Bool?
              && Prop(v, "feedback").Str? && OptionalScore(Prop(v, "confidenceScore"))
  {
    assert FieldHolds(OutputShape[0], v) <==> Prop(v, "isCorrect").Bool?;
    assert FieldHolds(OutputShape[1], v) <==> Prop(v, "isPartiallyCorrect").Bool?;
    assert FieldHolds(OutputShape[2], v) <==> Prop(v, "feedback").Str?;
    assert FieldHolds(OutputShape[3], v) <==> OptionalScore(Prop(v, "confidenceScore"));
  }

  function TextEntry(key: string, t: Option<string>): map<string, Value>
  {
    OptionalEntry(key, if t.Some? then Some(Str(t.value)) else None)
  }

  function EncodeInput(x: CheckAnswerInput): Value
  {
    Obj(map["originalPuzzle" := Str(x.originalPuzzle), "originalSolution" := Str(x.originalSolution),
            "userAnswer" := Str(x.userAnswer)]
        + TextEntry("puzzleType", x.puzzleType) + TextEntry("difficulty", x.difficulty))
  }

  function EncodeOutput(x: CheckAnswerOutput): Value
  {
    Obj(map["isCorrect" := Bool(x.isCorrect), "isPartiallyCorrect" := Bool(x.isPartiallyCorrect),
            "feedback" := Str(x.feedback)]
        + OptionalEntry("confidenceScore", if x.confidenceScore.Some? then Some(Num(x.confidenceScore.value)) else None))
  }

  /** What an encoded request reads as, key by key. */
  lemma EncodedInputReads(x: CheckAnswerInput)
    ensures Prop(EncodeInput(x), "originalPuzzle") == Str(x.originalPuzzle)
    ensures Prop(EncodeInput(x), "originalSolution") == Str(x.originalSolution)
    ensures Prop(EncodeInput(x), "userAnswer") == Str(x.userAnswer)
    ensures Prop(EncodeInput(x), "puzzleType") == if x.puzzleType.Some? then Str(x.puzzleType.value) else Undefined
    ensures Prop(EncodeInput(x), "difficulty") == if x.difficulty.Some? then Str(x.difficulty.value) else Undefined
  {
  }

  /** Agreement on the five request keys, one key at a time. */
  lemma InputAgreement(v: Value, w: Value)
    requires Prop(v, "originalPuzzle") == Prop(w, "originalPuzzle")
    requires Prop(v, "originalSolution") == Prop(w, "originalSolution")
    requires Prop(v, "userAnswer") == Prop(w, "userAnswer")
    requires Prop(v, "puzzleType") == Prop(w, "puzzleType")
    requires Prop(v, "difficulty") == Prop(w, "difficulty")
    ensures AgreeOn(InputShape, v, w)
  {
    forall i | 0 <= i < |InputShape|
      ensures Prop(v, InputShape[i].key) == Prop(w, InputShape[i].key)
    {
      assert i == 0 || i == 1 || i == 2 || i == 3 || i == 4;
    }
  }

  /**
   * CheckAnswerInputSchema: `originalPuzzle`, `originalSolution` and
   * `userAnswer` are strings (possibly empty); `puzzleType` and `difficulty`
   * are absent or strings.
   */
  function ParseInput(v: Value): (r: Result<CheckAnswerInput, SchemaError>)
    ensures r.Success? <==>
              v.Obj? && Prop(v, "originalPuzzle").Str? && Prop(v, "originalSolution").Str?
              && Prop(v, "userAnswer").Str?
              && OptionalString(Prop(v, "puzzleType")) && OptionalString(Prop(v, "difficulty"))
    ensures r.Success? ==> AgreeOn(InputShape, EncodeInput(r.value), v)
    ensures r.Failure? && v.Obj? ==> r.error.InvalidFields?
  {
    InputConformance(v);
    match Validate(InputShape, v)
    case Some(e) => Failure(e)
    case None =>
      var x := CheckAnswerInput(
        Prop(v, "originalPuzzle").s, Prop(v, "originalSolution").s, Prop(v, "userAnswer").s,
        OptionalText(Prop(v, "puzzleType")), OptionalText(Prop(v, "difficulty")));
      EncodedInputReads(x);
      InputAgreement(EncodeInput(x), v);
      Success(x)
  }

  /** What an encoded verdict reads as, key by key. */
  lemma EncodedOutputReads(x: CheckAnswerOutput)
    ensures Prop(EncodeOutput(x), "isCorrect") == Bool(x.isCorrect)
    ensures Prop(EncodeOutput(x), "isPartiallyCorrect") == Bool(x.isPartiallyCorrect)
    ensures Prop(EncodeOutput(x), "feedback") == Str(x.feedback)
    ensures Prop(EncodeOutput(x), "confidenceScore") ==
              if x.confidenceScore.Some? then Num(x.confidenceScore.value) else Undefined
  {
  }

  /** Agreement on the four verdict keys, one key at a time. */
  lemma OutputAgreement(v: Value, w: Value)
    requires Prop(v, "isCorrect") == Prop(w, "isCorrect")
    requires Prop(v, "isPartiallyCorrect") == Prop(w, "isPartiallyCorrect")
    requires Prop(v, "feedback") == Prop(w, "feedback")
    requires Prop(v, "confidenceScore") == Prop(w, "confidenceScore")
    ensures AgreeOn(OutputShape, v, w)
  {
    forall i | 0 <= i < |OutputShape|
      ensures Prop(v, OutputShape[i].key) == Prop(w, OutputShape[i].key)
    {
      assert i == 0 || i == 1 || i == 2 || i == 3;
    }
  }

  /**
   * CheckAnswerOutputSchema: `isCorrect` and `isPartiallyCorrect` are
   * booleans, `feedback` is a string, `confidenceScore` is absent or a number
   * in [0, 1]. Nothing relates the two booleans.
   */
  function ParseOutput(v: Value): (r: Result<CheckAnswerOutput, SchemaError>)
    ensures r.Success? <==>
              v.Obj? && Prop(v, "isCorrect").Bool? && Prop(v, "isPartiallyCorrect").Bool?
              && Prop(v, "feedback").Str? && OptionalScore(Prop(v, "confidenceScore"))
    ensures r.Success? ==> AgreeOn(OutputShape, EncodeOutput(r.value), v)
    ensures r.Success? && r.value.confidenceScore.Some? ==>
              0.0 <= r.value.confidenceScore.value <= 1.0
    ensures r.Failure? && v.Obj? ==> r.error.InvalidFields?
  {
    OutputConformance(v);
    match Validate(OutputShape, v)
    case Some(e) => Failure(e)
    case None =>
      var score := Prop(v, "confidenceScore");
      var x := CheckAnswerOutput(
        Prop(v, "isCorrect").b, Prop(v, "isPartiallyCorrect").b, Prop(v, "feedback").s,
        if score.Num? then Some(score.n) else None);
      EncodedOutputReads(x);
      OutputAgreement(EncodeOutput(x), v);
      Success(x)
  }

  lemma InputRoundTrip(x: CheckAnswerInput)
    ensures ParseInput(EncodeInput(x)) == Success(x)
  {
    EncodedInputReads(x);
    assert ParseInput(EncodeInput(x)).Success?;
  }

  lemma OutputRoundTrip(x: CheckAnswerOutput)
    requires x.confidenceScore.Some? ==> 0.0 <= x.confidenceScore.value <= 1.0
    ensures ParseOutput(EncodeOutput(x)) == Success(x)
  {
    EncodedOutputReads(x);
    assert ParseOutput(EncodeOutput(x)).Success?;
  }

  /**
   * `checkAnswer`: the flow over the two schemas above. An invalid input and an
   * output that fails the output schema are thrown as validation errors; a
   * failure of the prompt call itself propagates; otherwise the prompt's
   * output is returned unchanged.
   */
  function CheckAnswer(prompt: CheckAnswerInput -> Completion<Value>, input: Value): (r: Completion<Value>)
    ensures ParseInput(input).Failure? ==> r == Threw(ErrorInstance(ErrorMessage(ParseInput(input).error)))
    ensures ParseInput(input).Success? && prompt(ParseInput(input).value).Threw? ==>
              r == prompt(ParseInput(input).value)
    ensures ParseInput(input).Success? && prompt(ParseInput(input).value).Returned?
            && ParseOutput(prompt(ParseInput(input).value).value).Failure? ==>
              r == Threw(ErrorInstance(ErrorMessage(ParseOutput(prompt(ParseInput(input).value).value).error)))
    ensures r.Returned? <==>
              ParseInput(input).Success? && prompt(ParseInput(input).value).Returned?
              && ParseOutput(prompt(ParseInput(input).value).value).Success?
    ensures r.Returned? ==> r == prompt(ParseInput(input).value)
  {
    Flow(ParseInput, ParseOutput, prompt, input)
  }

  /** With an invalid input the prompt is never consulted: the outcome does not depend on it. */
  lemma InvalidInputSkipsPrompt(p: CheckAnswerInput -> Completion<Value>, q: CheckAnswerInput -> Completion<Value>, input: Value)
    requires ParseInput(input).Failure?
    ensures CheckAnswer(p, input) == CheckAnswer(q, input)
  {
  }

  /** Each of the three required strings, when missing or mistyped, rejects the input and is named. */
  lemma RequiredInputFieldNamed(v: Value, key: string)
    requires key in {"originalPuzzle", "originalSolution", "userAnswer"}
    requires v.Obj? && !Prop(v, key).Str?
    ensures ParseInput(v).Failure?
    ensures ParseInput(v).error.InvalidFields? && key in ParseInput(v).error.keys
  {
    var i := if key == "originalPuzzle" then 0 else if key == "originalSolution" then 1 else 2;
    assert InputShape[i].key == key && !FieldHolds(InputShape[i], v);
    BadFieldNamed(InputShape, v, i);
  }

  /**
   * The prompt text asks that a correct answer also be marked partially
   * correct, but the output schema does not enforce it: an output with
   * `isCorrect` true and `isPartiallyCorrect` false is accepted.
   */
  lemma CorrectWithoutPartialValid(out: Value)
    requires out == Obj(map["isCorrect" := Bool(true), "isPartiallyCorrect" := Bool(false), "feedback" := Str("")])
    ensures ParseOutput(out) == Success(CheckAnswerOutput(true, false, "", None))
  {
    assert Prop(out, "isCorrect") == Bool(true) && Prop(out, "isPartiallyCorrect") == Bool(false);
    assert Prop(out, "feedback") == Str("") && Prop(out, "confidenceScore") == Undefined;
  }

  /** Such an output is returned by the flow for any well-formed request. */
  lemma CorrectWithoutPartialAccepted(out: Value, input: Value)
    requires out == Obj(map["isCorrect" := Bool(true), "isPartiallyCorrect" := Bool(false), "feedback" := Str("")])
    requires ParseInput(input).Success?
    ensures CheckAnswer(_ => Returned(out), input) == Returned(out)
  {
    CorrectWithoutPartialValid(out);
  }

  /** A confidence score is accepted exactly when it lies in [0, 1]. */
  lemma ConfidenceScoreBounds(v: Value, c: real)
    requires v.Obj? && Prop(v, "isCorrect").Bool? && Prop(v, "isPartiallyCorrect").Bool? && Prop(v, "feedback").Str?
    requires Prop(v, "confidenceScore") == Num(c)
    ensures ParseOutput(v).Success? <==> 0.0 <= c <= 1.0
    ensures c < 0.0 || c > 1.0 ==> ParseOutput(v).error == InvalidFields(["confidenceScore"])
  {
    OutputConformance(v);
    if c < 0.0 || c > 1.0 {
      var tail := OutputShape[3..];
      assert tail == [Field("confidenceScore", Optional(UnitIntervalKind))];
      assert Issues(tail[1..], v) == [];
      assert Issues(tail, v) == ["confidenceScore"];
      assert FieldHolds(OutputShape[2], v) && OutputShape[2..][1..] == tail;
      assert Issues(OutputShape[2..], v) == ["confidenceScore"];
      assert FieldHolds(OutputShape[1], v) && OutputShape[1..][1..] == OutputShape[2..];
      assert Issues(OutputShape[1..], v) == ["confidenceScore"];
      assert FieldHolds(OutputShape[0], v);
    }
  }

  /** The piano riddle's request is well formed. */
  lemma PianoRequestValid(request: Value)
    requires request == Obj(map["originalPuzzle" := Str("What has keys but no locks?"),
                                "originalSolution" := Str("A piano"), "userAnswer" := Str("a keyboard")])
    ensures ParseInput(request).Success?
  {
    assert Prop(request, "originalPuzzle").Str? && Prop(request, "originalSolution").Str?;
    assert Prop(request, "userAnswer").Str?;
    assert Prop(request, "puzzleType") == Undefined && Prop(request, "difficulty") == Undefined;
  }

  /** A partially correct verdict with a score inside the interval is well formed. */
  lemma PartialVerdictValid(verdict: Value)
    requires verdict == Obj(map["isCorrect" := Bool(false), "isPartiallyCorrect" := Bool(true),
                                "feedback" := Str("Close! Think of a musical instrument."),
                                "confidenceScore" := Num(0.6)])
    ensures ParseOutput(verdict).Success? && ParseOutput(verdict).value.confidenceScore == Some(0.6)
  {
    assert Prop(verdict, "isCorrect") == Bool(false) && Prop(verdict, "isPartiallyCorrect") == Bool(true);
    assert Prop(verdict, "feedback").Str? && Prop(verdict, "confidenceScore") == Num(0.6);
  }

  /** Checking "a keyboard" against "A piano" returns the backend's partial verdict unchanged. */
  lemma PianoRiddleVerdict(verdict: Value, request: Value)
    requires verdict == Obj(map["isCorrect" := Bool(false), "isPartiallyCorrect" := Bool(true),
                                "feedback" := Str("Close! Think of a musical instrument."),
                                "confidenceScore" := Num(0.6)])
    requires request == Obj(map["originalPuzzle" := Str("What has keys but no locks?"),
                                "originalSolution" := Str("A piano"), "userAnswer" := Str("a keyboard")])
    ensures CheckAnswer(_ => Returned(verdict), request) == Returned(verdict)
  {
    PianoRequestValid(request);
    PartialVerdictValid(verdict);
  }
}
