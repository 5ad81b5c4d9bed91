/**
 * The display rules of one column's cell on the web board
 * (src/components/WordInputCell.jsx): the background looked up by feedback
 * type, the hint text, the upper-casing of typed text, the locked text and
 * the colour of the feedback message.
 */
module WebWordInputCell {
  import opened Text
  import opened Optional
  import opened Rules
  import opened HintMask
  import opened WordFamilies

  /** `FEEDBACK_COLORS`, keyed by feedback type. */
  const FeedbackColors: map<string, string> := map[
    "correct" := "#22c55e",
    "related" := "#facc15",
    "incorrect" := "#f87171",
    "prefix_missing" := "#38bdf8",
    "default" := "#ffffff"]

  const DefaultColor: string := "#ffffff"

  /** The two colours of the feedback message. */
  const MutedText: string := "#6b7280"
  const StrongText: string := "#1f2933"

  /** The background of every verdict type, with the default's colour besides. */
  lemma FeedbackColorsTable()
    ensures FeedbackColors.Keys == {"correct", "related", "incorrect", "prefix_missing", "default"}
    ensures FeedbackColors["default"] == DefaultColor
  {
  }

  /**
   * `feedback ? FEEDBACK_COLORS[feedback.type] : FEEDBACK_COLORS.default`;
   * `None` stands for the `undefined` an unlisted type looks up.
   */
  function Background(feedback: Option<Feedback>): (color: Option<string>)
    ensures feedback.None? ==> color == Some(DefaultColor)
    ensures feedback.Some? ==>
      (color.Some? <==> feedback.value.kind in FeedbackColors) &&
      (color.Some? ==> color.value == FeedbackColors[feedback.value.kind])
  {
    match feedback
    case None => Some(FeedbackColors["default"])
    case Some(fb) => if fb.kind in FeedbackColors then Some(FeedbackColors[fb.kind]) else None
  }

  /** The four verdict types have four distinct colours, none of them the default. */
  lemma VerdictColorsDistinct(v: Verdict, w: Verdict, m: string, n: string)
    ensures Background(Some(Feedback(TypeName(v), m))).Some?
    ensures Background(Some(Feedback(TypeName(v), m))) != Some(DefaultColor)
    ensures Background(Some(Feedback(TypeName(v), m))) == Background(Some(Feedback(TypeName(w), n)))
      <==> TypeName(v) == TypeName(w)
  {
  }

  /**
   * The hint text: the mask when a letter is revealed, the cell is empty and
   * `correctAnswer` is a non-empty string, else `null`.
   */
  function Hint(revealed: seq<int>, value: string, correctAnswer: Option<string>): (hint: Option<string>)
    ensures hint.Some? <==> |revealed| > 0 && value == "" && correctAnswer.Some? && correctAnswer.value != ""
    ensures hint.Some? ==> hint.value == Mask(correctAnswer.value, revealed)
    ensures hint.Some? ==> |hint.value| == 2 * |correctAnswer.value| - 1
  {
    if |revealed| > 0 && value == "" && correctAnswer.Some? && correctAnswer.value != "" then
      MaskShape(correctAnswer.value, revealed);
      Some(Mask(correctAnswer.value, revealed))
    else None
  }

  /** `onChange(e.target.value.toUpperCase())`: what the cell hands to the board. */
  function OnChange(typed: string): (passed: string)
    ensures |passed| == |typed|
    ensures forall i :: 0 <= i < |typed| ==> passed[i] == UpperChar(typed[i])
    ensures forall i :: 0 <= i < |passed| ==> !IsLower(passed[i])
    ensures Upper(passed) == passed
  {
    Upper(typed)
  }

  /**
   * Upper-casing in the cell never changes a grade: the board grades what it
   * is handed exactly as it would grade the text as typed.
   */
  lemma OnChangeGradesAlike(typed: string, f: Family, s: Slot, tier: Tier)
    ensures Classify(OnChange(typed), f, s, tier) == Classify(typed, f, s, tier)
  {
    UpperTrim(Upper(typed));
    UpperIdempotent(typed);
    UpperTrim(typed);
    ClassifyNormalized(OnChange(typed), typed, f, s, tier);
  }

  /** `correctAnswer || value`: the text of a disabled cell. */
  function LockedText(correctAnswer: Option<string>, value: string): (text: string)
    ensures correctAnswer.Some? && correctAnswer.value != "" ==> text == correctAnswer.value
    ensures correctAnswer.None? || correctAnswer.value == "" ==> text == value
  {
    match correctAnswer
    case Some(answer) => if answer != "" then answer else value
    case None => value
  }

  /** The colour of the feedback message: muted exactly on the default background. */
  function MessageColor(feedback: Option<Feedback>): (color: string)
    ensures color == MutedText <==> Background(feedback) == Some(DefaultColor)
  {
    if Background(feedback) == Some(FeedbackColors["default"]) then MutedText else StrongText
  }

  /**
   * The message is muted exactly when there is no feedback or its type is
   * the `default` key itself; a verdict's message never is.
   */
  lemma MessageColorMutedIff(feedback: Option<Feedback>)
    ensures MessageColor(feedback) == MutedText <==> feedback.None? || feedback.value.kind == "default"
  {
  }
}
