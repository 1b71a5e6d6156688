# PuzzlePal core, modelled in Dafny

PuzzlePal is a small web application that asks a generative-AI backend to
write brain-teaser puzzles and to judge a user's answer. Most of it is React
rendering. This project models the logic around that rendering:

- **Schemas and flows** (`generate_puzzle.dfy`, `check_answer.dfy`, `schema.dfy`).
  The four zod object schemas are validators over a JSON-like `Js.Value`.
  Each validator returns a typed record or a `SchemaError`. That error either
  says the value is not an object or names the bad fields. `generatePuzzle`
  and `checkAnswer` are one generic flow (`Schema.Flow`) over their two
  schemas. The flow validates the input. It then calls the prompt, which is
  a function parameter standing in for the backend. Finally it validates
  the prompt's output and returns it unchanged.
- **Result normalisation** (`actions.dfy`). The server action turns every
  outcome of `generatePuzzle` into an `ActionResult`. That is either the
  result or `{error}`, and nothing is thrown.
- **UI state machines** (`puzzle_display.dfy`, `generator_form.dfy`, `page.dfy`).
  These cover the puzzle card's hint reveal and solution toggle, and its
  difficulty badge and description line. They also cover the form's schema,
  its defaults and its submit routing. The submit handler is modelled as the
  list of state updates it asks for. Last come the form's parameters effect
  and the page's callbacks and panel choice.
- `js.dfy` holds the JavaScript run-time notions the others share: values,
  truthiness, thrown values and call completions.

Where the code's comments or prompt text promise more than the code does, the
model follows the code:

- No string field in the two flow schemas has a minimum length. So the flow
  accepts an empty `puzzleType`, `title`, `feedback` and so on. Only the
  form's own schema requires a non-empty puzzle type.
- The rule "isCorrect implies isPartiallyCorrect" appears only in the prompt
  text. The output schema accepts an output that breaks it
  (`CheckAnswer.CorrectWithoutPartialAccepted`).
- The comment on `onRegenerate` says it triggers a new generation. After a
  generation from the form it does not (see Findings).

## Model

| member | source | states |
|---|---|---|
| `Schema.Issues` | src/ai/flows/generate-puzzle.ts:15-32 | the fields an object violates are listed, each names a declared field that fails, and the list is empty exactly when every declared field holds |
| `Schema.Validate` | src/ai/flows/generate-puzzle.ts:54-59 | a value passes a flow schema exactly when it is an object whose declared fields all hold; a non-object gets its own error, and a failing object's error names at least one field |
| `Schema.BadFieldNamed` | src/ai/flows/generate-puzzle.ts:54-59 | every declared field an object violates is named in the validation error |
| `GeneratePuzzle.InputConformance` | src/ai/flows/generate-puzzle.ts:15-23 | the generic shape check for the input schema is the same as: object, string `puzzleType`, `difficulty` absent or a string |
| `GeneratePuzzle.OutputConformance` | src/ai/flows/generate-puzzle.ts:26-32 | the generic shape check for the output schema is the same as: four string fields, and `hints` absent or an array of strings |
| `GeneratePuzzle.ParseInput` | src/ai/flows/generate-puzzle.ts:15-23 | input is accepted iff `puzzleType` is a string (possibly empty) and `difficulty` is absent or a string; the parsed record reads back as the same field values |
| `GeneratePuzzle.ParseOutput` | src/ai/flows/generate-puzzle.ts:26-32 | output is accepted iff `title`, `puzzle`, `solution` and `difficulty` are strings and `hints` is absent or an array of strings (empty allowed); the parsed record reads back as the same field values |
| `GeneratePuzzle.InputRoundTrip` | src/ai/flows/generate-puzzle.ts:15-24 | every typed input, written as an object, parses back to itself |
| `GeneratePuzzle.OutputRoundTrip` | src/ai/flows/generate-puzzle.ts:26-33 | every typed output, with or without hints, written as an object parses back to itself |
| `GeneratePuzzle.PuzzleTypeRequired` | src/ai/flows/generate-puzzle.ts:16-18 | a missing or non-string `puzzleType` is rejected and the error names it |
| `GeneratePuzzle.RequiredOutputFieldNamed` | src/ai/flows/generate-puzzle.ts:27-31 | a missing or mistyped `title`, `puzzle`, `solution` or `difficulty` is rejected and the error names that field |
| `GeneratePuzzle.EmptyPuzzleTypeAccepted` | src/ai/flows/generate-puzzle.ts:16-18 | the empty puzzle type passes the input schema |
| `Schema.Flow` | src/ai/flows/generate-puzzle.ts:54-63 | an invalid input throws an Error carrying its validation message; a prompt failure propagates as is; an output that fails the output schema throws an Error carrying that validation message; otherwise the prompt's output for the parsed input is returned unchanged |
| `GeneratePuzzle.GeneratePuzzle` | src/ai/flows/generate-puzzle.ts:35-63 | an invalid input throws its validation Error; a prompt failure propagates as is; an output failing the schema throws its validation Error; otherwise the result is returned, and it is exactly the prompt's output for the parsed input |
| `GeneratePuzzle.InvalidInputSkipsPrompt` | src/ai/flows/generate-puzzle.ts:54-63 | for an invalid input the outcome does not depend on the prompt at all |
| `GeneratePuzzle.RiddleRequestValid` | src/ai/flows/generate-puzzle.ts:15-23 | the request for an easy riddle parses to that type and difficulty |
| `GeneratePuzzle.EchoPuzzleValid` | src/ai/flows/generate-puzzle.ts:26-32 | a puzzle with the four required strings and no hints is valid, and its hints read as absent |
| `GeneratePuzzle.RiddleWithoutHints` | src/ai/flows/generate-puzzle.ts:35-37 | that request answered with that puzzle returns the puzzle unchanged |
| `CheckAnswer.InputConformance` | src/ai/flows/check-answer-flow.ts:15-21 | the generic shape check for the input schema is the same as: three strings, `puzzleType` and `difficulty` absent or strings |
| `CheckAnswer.OutputConformance` | src/ai/flows/check-answer-flow.ts:24-29 | the generic shape check for the output schema is the same as: two booleans, a string, and a score absent or in [0, 1] |
| `CheckAnswer.ParseInput` | src/ai/flows/check-answer-flow.ts:15-21 | input is accepted iff `originalPuzzle`, `originalSolution` and `userAnswer` are strings and `puzzleType`/`difficulty` are absent or strings |
| `CheckAnswer.ParseOutput` | src/ai/flows/check-answer-flow.ts:24-29 | output is accepted iff `isCorrect` and `isPartiallyCorrect` are booleans, `feedback` is a string and `confidenceScore` is absent or in [0, 1]; a parsed score lies in [0, 1] |
| `CheckAnswer.InputRoundTrip` | src/ai/flows/check-answer-flow.ts:15-22 | every typed request, written as an object, parses back to itself |
| `CheckAnswer.OutputRoundTrip` | src/ai/flows/check-answer-flow.ts:24-30 | every typed verdict whose score is in [0, 1], written as an object, parses back to itself |
| `CheckAnswer.CheckAnswer` | src/ai/flows/check-answer-flow.ts:32-91 | an invalid input throws its validation Error; a prompt failure propagates as is; a verdict failing the schema throws its validation Error; otherwise the verdict is returned, and it is exactly the prompt's output |
| `CheckAnswer.InvalidInputSkipsPrompt` | src/ai/flows/check-answer-flow.ts:81-91 | for an invalid input the outcome does not depend on the prompt at all |
| `CheckAnswer.RequiredInputFieldNamed` | src/ai/flows/check-answer-flow.ts:16-18 | a missing or mistyped `originalPuzzle`, `originalSolution` or `userAnswer` is rejected and named |
| `CheckAnswer.CorrectWithoutPartialValid` | src/ai/flows/check-answer-flow.ts:24-29 | a verdict with `isCorrect` true and `isPartiallyCorrect` false passes the output schema |
| `CheckAnswer.CorrectWithoutPartialAccepted` | src/ai/flows/check-answer-flow.ts:81-91 | for any well-formed request the flow returns such a verdict unchanged |
| `CheckAnswer.ConfidenceScoreBounds` | src/ai/flows/check-answer-flow.ts:28 | with the other fields valid, a score is accepted iff 0 <= c <= 1, and an out-of-range score is the only field reported |
| `CheckAnswer.PianoRequestValid` | src/ai/flows/check-answer-flow.ts:15-21 | a request with the three required strings and no optional fields is valid |
| `CheckAnswer.PartialVerdictValid` | src/ai/flows/check-answer-flow.ts:24-29 | a partial verdict with score 0.6 is valid and keeps its score |
| `CheckAnswer.PianoRiddleVerdict` | src/ai/flows/check-answer-flow.ts:32-34 | that request answered with that verdict comes back unchanged |
| `Actions.HandleGeneratePuzzleAction` | src/lib/actions.ts:5-18 | a result is passed on unchanged iff it is an object with a string `puzzle`; any other returned value gives the fixed invalid-format error; a thrown Error gives its message; anything else thrown gives the unknown-error message |
| `Actions.OnlyPuzzleFieldInspected` | src/lib/actions.ts:9 | two object results with the same `puzzle` field are routed alike |
| `Actions.ValidationMessageIsNotFormatMessage` | src/lib/actions.ts:11-16 | no validation error's text equals the action's invalid-format message |
| `Actions.FlowMakesFormatCheckRedundant` | src/lib/actions.ts:8-13 | composed with the real flow, the action passes a result on iff the flow returned, and every passed-on result satisfies the full output schema; an output failing the schema reaches the UI as its validation message, never as the invalid-format message |
| `Actions.NullOutputReported` | src/lib/actions.ts:8-16 | a prompt that produces a null output reaches the UI as the "expected object" validation message |
| `PuzzleDisplay.OnPuzzleDataChanged` | src/components/puzzle-display.tsx:22-26 | after new puzzle data the solution is hidden, no hint is revealed, the index is 0, and this state is consistent with every puzzle |
| `PuzzleDisplay.ShowHint` | src/components/puzzle-display.tsx:28-33 | with a hint left it appends exactly the next hint and advances the index by one; with none left (or no hints) it changes nothing; it keeps the prefix invariant and never touches the solution flag |
| `PuzzleDisplay.ToggleSolution` | src/components/puzzle-display.tsx:97 | the solution flag flips and the hint state is unchanged |
| `PuzzleDisplay.RemainingHints` | src/components/puzzle-display.tsx:35-36 | in a consistent state the count is the number of hidden hints, never negative, and positive exactly when a hint click would change the state |
| `PuzzleDisplay.HintButtonIffHiddenHint` | src/components/puzzle-display.tsx:78 | "Get Hint" is offered exactly while some hint is still hidden |
| `PuzzleDisplay.HintsSectionIffHints` | src/components/puzzle-display.tsx:63 | in a consistent state the hints section shows exactly when the puzzle has hints |
| `PuzzleDisplay.ToggleTwiceIsIdentity` | src/components/puzzle-display.tsx:97 | toggling the solution twice restores the state |
| `PuzzleDisplay.RunKeepsHintsConsistent` | src/components/puzzle-display.tsx:17-33 | any sequence of hint and solution clicks keeps the revealed hints equal to the first `currentHintIndex` hints, with the index within bounds |
| `PuzzleDisplay.RunSolutionParity` | src/components/puzzle-display.tsx:97 | after any clicks the solution is shown iff its initial flag was flipped an odd number of times |
| `PuzzleDisplay.HintClicksReveal` | src/components/puzzle-display.tsx:28-33 | n hint clicks from k revealed hints reveal exactly the first min(k + n, number of hints) hints; extra clicks do nothing |
| `PuzzleDisplay.ToLower` | src/components/puzzle-display.tsx:44-45 | `toLowerCase` keeps the length, leaves no upper-case letter, keeps each character the same letter up to case, and leaves a string without upper-case letters unchanged |
| `PuzzleDisplay.ToLowerMatches` | src/components/puzzle-display.tsx:44-45 | lower-casing a string gives a lower-case word exactly when the two are equal ignoring letter case |
| `PuzzleDisplay.BadgeVariantFor` | src/components/puzzle-display.tsx:43-46 | the badge is "secondary" iff the difficulty is "easy" in any case, "default" iff it is "medium" in any case, and "destructive" for every other string |
| `PuzzleDisplay.FormDifficultyBadges` | src/components/puzzle-display.tsx:43-46 | Easy, Medium and Hard get secondary, default and destructive |
| `PuzzleDisplay.Leading` | src/components/puzzle-display.tsx:51 | `substring(0, 50)` is a prefix of the puzzle of length min(50, length) |
| `PuzzleDisplay.ShowsDescription` | src/components/puzzle-display.tsx:51 | the description is hidden exactly when the title is the puzzle's first min(50, length) characters; a title over 50 characters always shows it |
| `GeneratorForm.ValidateForm` | src/components/puzzle-generator-form.tsx:31-34 | the form values pass iff the puzzle type has at least one character and the difficulty is Easy, Medium or Hard; each failing field is reported |
| `GeneratorForm.DefaultsNeedPuzzleType` | src/components/puzzle-generator-form.tsx:53-56 | the defaults fail only on `puzzleType`; every menu choice passes |
| `GeneratorForm.OnSubmit` | src/components/puzzle-generator-form.tsx:59-75 | loading goes on and the error is cleared first; then exactly one of: the returned error message, the thrown Error's message, the fixed unexpected-error message, or the puzzle with the submitted values; loading goes off on every path |
| `GeneratorForm.HandleSubmit` | src/components/puzzle-generator-form.tsx:107 | the submit handler runs iff the values pass the form schema |
| `GeneratorForm.SyncParams` | src/components/puzzle-generator-form.tsx:77-100 | it submits iff parameters are set and differ from the form in type or difficulty; it then submits exactly those parameters, copied into the form first; otherwise the form is unchanged |
| `GeneratorForm.SyncParamsSettles` | src/components/puzzle-generator-form.tsx:91-98 | running the effect again on what it left submits nothing and changes nothing |
| `GeneratorForm.SyncParamsSkipsSchema` | src/components/puzzle-generator-form.tsx:98 | the effect submits parameters the form schema rejects |
| `HomePage.InitialPageIsQuiet` | src/app/page.tsx:11-14 | on first render no panel shows, and the parameters effect submits nothing and leaves the form as it is |
| `HomePage.OnPuzzleGenerated` | src/app/page.tsx:24-27 | the puzzle is stored and the parameters become the submitted values; loading and error are untouched |
| `HomePage.OnRegenerate` | src/app/page.tsx:48-54 | with parameters set the puzzle is cleared and the parameters stay value-equal; without parameters nothing changes |
| `HomePage.VisiblePanel` | src/app/page.tsx:32-45 | each of the loading, error and puzzle conditions holds exactly when its panel is the one shown, so no two show together |
| `HomePage.SubmitOutcome` | src/app/page.tsx:23-45 | the loading panel shows during the call; afterwards a success shows the new puzzle with the submitted parameters and no error, and a failure keeps the old puzzle and parameters and shows a non-empty message |
| `HomePage.EmptyMessageShowsStalePuzzle` | src/app/page.tsx:38-45 | an Error with an empty message leaves the previous puzzle on screen |
| `HomePage.GenerateFromForm` | src/app/page.tsx:24-27 | a successful generation shows the puzzle, remembers the form's values, and the effect it triggers submits nothing |
| `HomePage.RegenerateAsWritten` | src/app/page.tsx:48-54 | regenerate plus the effect it triggers clears the puzzle and submits iff the remembered parameters differ from the form |
| `HomePage.RegenerateAfterGenerateDoesNotResubmit` | src/app/page.tsx:48-54 | right after a generation from the form, regenerate submits nothing and leaves the page with no panel |
| `HomePage.Regenerate` | src/app/page.tsx:50 | with parameters set, the puzzle is cleared and exactly those parameters are submitted; without parameters nothing changes |
| `HomePage.RegenerateShowsNewPuzzle` | src/app/page.tsx:50 | generate, intended regenerate, then a successful resubmission shows the new puzzle for the same parameters |

## Findings

| source | as written | input that shows it | evidently intended | confidence | as-written member | corrected member |
|---|---|---|---|---|---|---|
| src/app/page.tsx:48-54 | `onRegenerate` stores a value-equal copy of the parameters and clears the puzzle. The form's effect submits only when the parameters differ in value from the form (src/components/puzzle-generator-form.tsx:78-79). | Generate any puzzle from the form, then press "Try Another Puzzle". The form already holds those values, so nothing is submitted and the page shows no panel. | The comment at src/app/page.tsx:50 says regenerate triggers a new generation with the same parameters. | high; not executed | `HomePage.RegenerateAsWritten`, `HomePage.RegenerateAfterGenerateDoesNotResubmit` | `HomePage.Regenerate`, `HomePage.RegenerateShowsNewPuzzle` |

## Left out

- The generative backend, meaning the prompt definitions and the Handlebars templates. It is a function parameter (`prompt`) of each flow. The evaluation rules in the prompt text are not computable.
- Zod internals. The wording of validation errors is a placeholder (`Schema.ErrorMessage`). Unknown keys are not stripped from a returned output (the flow returns the prompt's value as is). Coercion is not modelled.
- genkit's output validation inside `defineFlow`. It is modelled after the flows' declared `outputSchema`; the library code itself is not part of this model.
- Nothing in src/lib/actions.ts or the modelled UI calls `checkAnswer`: the only server action is `handleGeneratePuzzleAction`. The answer-check flow is modelled on its own, with no caller.
- `console.log` and `console.error` in src/lib/actions.ts: output only.
- async/await, React rendering and re-render scheduling, and effect-dependency identity. Each event is one sequential state update. An effect runs after every update of the parameters.
- The stale read of `currentHintIndex` when hint clicks are batched. This is a concern of React's update batching.
- `confidenceScore` is a real, not an IEEE double; NaN and rounding are not modelled.
- Actions.HandleGeneratePuzzleAction: the input it forwards is not modelled. It takes the completion of the awaited `generatePuzzle` call, so every branch stays reachable.
- GeneratorForm.OnSubmit: the form routes on the tag of `ActionResult`, not on the presence of an `error` key. The two differ only for a success object that carries its own `error` key.
- PuzzleDisplay.ToLower: only the ASCII letters are lower-cased; `toLowerCase` also maps every other upper-case character in Unicode.
- PuzzleDisplay.BadgeVariantFor: lower-casing maps only the ASCII letters. Among the other characters, only U+0130 and U+212A lower-case into ASCII letters. Neither can produce "easy" or "medium": U+0130 yields two characters, and U+212A yields "k".
- PuzzleDisplay.Leading: `substring(0, 50)` counts UTF-16 code units, but the model counts characters. The two differ only for characters outside the Basic Multilingual Plane.
- PuzzleDisplay.ShowsDescription: `substring` counts UTF-16 code units, but the model counts characters. The two differ only for characters outside the Basic Multilingual Plane.
- src/components/site-header.tsx and src/app/layout.tsx: markup and metadata only. All JSX layout and styling is left out too.
