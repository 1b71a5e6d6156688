/**
 * The puzzle card's own state and decisions (src/components/puzzle-display.tsx),
 * separated from rendering: hint reveal, the solution toggle, the reset when
 * a new puzzle arrives, the "Get Hint" and hints-section conditions, the
 * difficulty badge and the description line.
 */
module PuzzleDisplay {
  import opened GeneratePuzzle

  /** The three `useState` slots of the component. */
  datatype HintState = HintState(showSolution: bool, revealedHints: seq<string>, currentHintIndex: nat)

  /** A click on one of the card's two state-changing buttons. */
  datatype Click = HintClick | SolutionClick

  /** The puzzle's hints; absent hints read as none. */
  function HintList(data: GeneratePuzzleOutput): seq<string>
  {
    if data.hints.Some? then data.hints.value else []
  }

  /** The revealed hints are exactly the first `currentHintIndex` hints of the puzzle. */
  predicate HintsConsistent(data: GeneratePuzzleOutput, s: HintState)
  {
    s.currentHintIndex <= |HintList(data)| && s.revealedHints == HintList(data)[..s.currentHintIndex]
  }

  /**
   * The effect run whenever `puzzleData` changes: whatever was shown before,
   * the solution is hidden and no hint is revealed, which is consistent with
   * any puzzle.
   */
  function OnPuzzleDataChanged(s: HintState): (r: HintState)
    ensures !r.showSolution && r.revealedHints == [] && r.currentHintIndex == 0
    ensures forall data :: HintsConsistent(data, r)
  {
    HintState(false, [], 0)
  }

  /**
   * `handleShowHint`: when hints exist and one is left, reveal the next one;
   * otherwise nothing changes. The solution flag is never touched.
   */
  function ShowHint(data: GeneratePuzzleOutput, s: HintState): (r: HintState)
    ensures r.showSolution == s.showSolution
    ensures s.currentHintIndex < |HintList(data)| ==>
              r.revealedHints == s.revealedHints + [HintList(data)[s.currentHintIndex]]
              && r.currentHintIndex == s.currentHintIndex + 1
    ensures s.currentHintIndex >= |HintList(data)| ==> r == s
    ensures HintsConsistent(data, s) ==> HintsConsistent(data, r)
  {
    if data.hints.Some? && s.currentHintIndex < |data.hints.value| then
      var hs := data.hints.value;
      assert hs[..s.currentHintIndex + 1] == hs[..s.currentHintIndex] + [hs[s.currentHintIndex]];
      s.(revealedHints := s.revealedHints + [hs[s.currentHintIndex]],
         currentHintIndex := s.currentHintIndex + 1)
    else s
  }

  /** The "Show/Hide Solution" button: flip the flag, leave the hints alone. */
  function ToggleSolution(s: HintState): (r: HintState)
    ensures r.showSolution == !s.showSolution
    ensures r.revealedHints == s.revealedHints && r.currentHintIndex == s.currentHintIndex
  {
    s.(showSolution := !s.showSolution)
  }

  predicate HasHints(data: GeneratePuzzleOutput)
  {
    data.hints.Some? && |data.hints.value| > 0
  }

  /**
   * `remainingHints`: hints not yet revealed, or 0 for a puzzle without hints.
   * For a consistent state it is never negative and is positive exactly when
   * a hint click would reveal something.
   */
  function RemainingHints(data: GeneratePuzzleOutput, s: HintState): (r: int)
    ensures HintsConsistent(data, s) ==> r >= 0 && r == |HintList(data)| - |s.revealedHints|
    ensures HintsConsistent(data, s) ==> (r > 0 <==> ShowHint(data, s) != s)
  {
    if HasHints(data) then |data.hints.value| - s.currentHintIndex else 0
  }

  /** The "Get Hint" button is offered when hints remain. */
  predicate OffersHintButton(data: GeneratePuzzleOutput, s: HintState)
  {
    RemainingHints(data, s) > 0
  }

  /** The hints section is rendered when the puzzle has hints and some are revealed or remain. */
  predicate ShowsHintsSection(data: GeneratePuzzleOutput, s: HintState)
  {
    HasHints(data) && (|s.revealedHints| > 0 || RemainingHints(data, s) > 0)
  }

  /** The button is offered exactly while some hint of the puzzle is still hidden. */
  lemma HintButtonIffHiddenHint(data: GeneratePuzzleOutput, s: HintState)
    requires HintsConsistent(data, s)
    ensures OffersHintButton(data, s) <==> |s.revealedHints| < |HintList(data)|
  {
  }

  /** In a consistent state the hints section is shown exactly when the puzzle has hints. */
  lemma HintsSectionIffHints(data: GeneratePuzzleOutput, s: HintState)
    requires HintsConsistent(data, s)
    ensures ShowsHintsSection(data, s) <==> HasHints(data)
  {
  }

  lemma ToggleTwiceIsIdentity(s: HintState)
    ensures ToggleSolution(ToggleSolution(s)) == s
  {
  }

  function Step(data: GeneratePuzzleOutput, s: HintState, c: Click): HintState
  {
    match c
    case HintClick => ShowHint(data, s)
    case SolutionClick => ToggleSolution(s)
  }

  /** The state after the given clicks, in order. */
  function Run(data: GeneratePuzzleOutput, s: HintState, clicks: seq<Click>): HintState
    decreases |clicks|
  {
    if |clicks| == 0 then s else Run(data, Step(data, s, clicks[0]), clicks[1..])
  }

  /** Any sequence of clicks keeps the revealed hints a prefix of the puzzle's hints. */
  lemma {:induction false} RunKeepsHintsConsistent(data: GeneratePuzzleOutput, s: HintState, clicks: seq<Click>)
    requires HintsConsistent(data, s)
    ensures HintsConsistent(data, Run(data, s, clicks))
    decreases |clicks|
  {
    if |clicks| > 0 {
      var next := Step(data, s, clicks[0]);
      assert HintsConsistent(data, next);
      RunKeepsHintsConsistent(data, next, clicks[1..]);
    }
  }

  /** The number of solution clicks in a click sequence. */
  function SolutionClicks(clicks: seq<Click>): nat
  {
    if |clicks| == 0 then 0 else (if clicks[0] == SolutionClick then 1 else 0) + SolutionClicks(clicks[1..])
  }

  /** The solution is shown after a run exactly when the flag was flipped an odd number of times. */
  lemma {:induction false} RunSolutionParity(data: GeneratePuzzleOutput, s: HintState, clicks: seq<Click>)
    ensures Run(data, s, clicks).showSolution == (s.showSolution != (SolutionClicks(clicks) % 2 == 1))
    decreases |clicks|
  {
    if |clicks| > 0 {
      RunSolutionParity(data, Step(data, s, clicks[0]), clicks[1..]);
    }
  }

  function HintClicks(n: nat): seq<Click>
  {
    seq(n, _ => HintClick)
  }

  function Min(a: int, b: int): int
  {
    if a <= b then a else b
  }

  /**
   * From a state with `k` hints revealed, `n` hint clicks reveal the first
   * min(k + n, number of hints) hints: the surplus clicks do nothing.
   */
  lemma {:induction false} HintClicksReveal(data: GeneratePuzzleOutput, s: HintState, n: nat)
    requires HintsConsistent(data, s)
    ensures var k := Min(s.currentHintIndex + n, |HintList(data)|);
            Run(data, s, HintClicks(n)) == HintState(s.showSolution, HintList(data)[..k], k)
    decreases n
  {
    if n > 0 {
      var next := ShowHint(data, s);
      assert HintClicks(n)[0] == HintClick && HintClicks(n)[1..] == HintClicks(n - 1);
      HintClicksReveal(data, next, n - 1);
      if s.currentHintIndex >= |HintList(data)| {
        assert next == s;
      }
    } else {
      assert HintList(data)[..s.currentHintIndex] == s.revealedHints;
    }
  }

  /** The badge colour variants used for the difficulty. */
  datatype BadgeVariant = Secondary | Default | Destructive

  predicate IsUpper(c: char)
  {
    'A' <= c <= 'Z'
  }

  /** Lower-casing of one character; only the ASCII letters are mapped. */
  function LowerChar(c: char): char
  {
    if IsUpper(c) then (c as int + 32) as char else c
  }

  /**
   * `toLowerCase` on ASCII letters: same length, no upper-case letter left,
   * each character the same letter up to case, and a string with no
   * upper-case letter is unchanged.
   */
  function ToLower(s: string): (r: string)
    ensures |r| == |s|
    ensures forall i :: 0 <= i < |r| ==> !IsUpper(r[i]) && SameUpToCase(s[i], r[i])
    ensures forall i :: 0 <= i < |s| && !IsUpper(s[i]) ==> r[i] == s[i]
    ensures (forall i :: 0 <= i < |s| ==> !IsUpper(s[i])) ==> r == s
  {
    seq(|s|, i requires 0 <= i < |s| => LowerChar(s[i]))
  }

  /**
   * The difficulty badge: "secondary" for "easy" and "default" for "medium",
   * in any letter case, and "destructive" for every other string.
   */
  function BadgeVariantFor(difficulty: string): (r: BadgeVariant)
    ensures r == Secondary <==> EqualsIgnoringCase(difficulty, "easy")
    ensures r == Default <==> EqualsIgnoringCase(difficulty, "medium")
    ensures r == Destructive <==>
              !EqualsIgnoringCase(difficulty, "easy") && !EqualsIgnoringCase(difficulty, "medium")
  {
    ToLowerMatches(difficulty, "easy");
    ToLowerMatches(difficulty, "medium");
    if ToLower(difficulty) == "easy" then Secondary
    else if ToLower(difficulty) == "medium" then Default
    else Destructive
  }

  /** Lower-casing a non-empty string lower-cases its head and then its tail. */
  lemma ToLowerCons(a: string)
    requires |a| > 0
    ensures ToLower(a) == [LowerChar(a[0])] + ToLower(a[1..])
  {
    var r, t := ToLower(a), ToLower(a[1..]);
    assert forall i :: 1 <= i < |a| ==> r[i] == t[i - 1];
  }

  /** Two characters are the same letter up to ASCII case. */
  predicate SameUpToCase(x: char, y: char)
  {
    x == y || (IsUpper(x) && y as int == x as int + 32) || (IsUpper(y) && x as int == y as int + 32)
  }

  /** Case-insensitive equality, character by character. */
  predicate EqualsIgnoringCase(a: string, b: string)
    decreases |a|
  {
    |a| == |b| && (|a| == 0 || (SameUpToCase(a[0], b[0]) && EqualsIgnoringCase(a[1..], b[1..])))
  }

  /** Lower-casing `a` yields the lower-case word `b` exactly when `a` equals `b` ignoring case. */
  lemma {:induction false} ToLowerMatches(a: string, b: string)
    requires forall i :: 0 <= i < |b| ==> !IsUpper(b[i])
    ensures ToLower(a) == b <==> EqualsIgnoringCase(a, b)
    decreases |a|
  {
    if |a| > 0 && |a| == |b| {
      ToLowerMatches(a[1..], b[1..]);
      ToLowerCons(a);
      assert b == [b[0]] + b[1..];
      assert LowerChar(a[0]) == b[0] <==> SameUpToCase(a[0], b[0]);
    }
  }

  /** The three form difficulties map to three different variants. */
  lemma FormDifficultyBadges()
    ensures BadgeVariantFor("Easy") == Secondary
    ensures BadgeVariantFor("Medium") == Default
    ensures BadgeVariantFor("Hard") == Destructive
  {
    assert ToLower("Easy") == "easy";
    assert ToLower("Medium") == "medium";
    assert ToLower("Hard") == "hard";
  }

  /** `puzzle.substring(0, 50)`: the first 50 characters, or all of a shorter puzzle. */
  function Leading(s: string, n: nat): (r: string)
    ensures |r| == Min(n, |s|)
    ensures r <= s
  {
    if |s| <= n then s else s[..n]
  }

  /**
   * The "A brain teaser for you!" line is hidden exactly when the title is
   * the puzzle's first min(50, |puzzle|) characters; a title longer than 50
   * characters always shows it.
   */
  predicate ShowsDescription(data: GeneratePuzzleOutput): (r: bool)
    ensures !r <==> data.title <= data.puzzle && |data.title| == Min(50, |data.puzzle|)
    ensures |data.title| > 50 ==> r
  {
    assert data.title <= data.puzzle && |data.title| == Min(50, |data.puzzle|) ==>
             data.title == data.puzzle[..|data.title|];
    data.title != Leading(data.puzzle, 50)
  }
}
