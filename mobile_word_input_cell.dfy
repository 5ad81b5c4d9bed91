/**
 * The display rules of one column's cell on the mobile board
 * (components/WordInputCell.js): the colours picked from the feedback
 * entry, the hint line and the text of a locked cell.
 */
module MobileWordInputCell {
  import opened Optional
  import opened Rules
  import opened HintMask

  /** `FEEDBACK_COLORS`. */
  const Green: string := "#4CAF50"
  const Yellow: string := "#FFC107"
  const Red: string := "#F44336"
  const Blue: string := "#2196F3"
  const Default: string := "#FFFFFF"

  /** The text colours. */
  const White: string := "#FFFFFF"
  const Dark: string := "#333333"

  /** The border colour of a cell without feedback. */
  const Grey: string := "#E0E0E0"

  /** The four `type` strings the switch has a case for. */
  predicate KnownKind(kind: string) {
    kind == "correct" || kind == "related" || kind == "incorrect" || kind == "prefix_missing"
  }

  /** `getBackgroundColor()`: a switch on the feedback type, `DEFAULT` without feedback. */
  function BackgroundColor(feedback: Option<Feedback>): (color: string)
    ensures color == Default <==> feedback.None? || !KnownKind(feedback.value.kind)
    ensures feedback.Some? ==> (color == Green <==> feedback.value.kind == "correct")
    ensures feedback.Some? ==> (color == Yellow <==> feedback.value.kind == "related")
    ensures feedback.Some? ==> (color == Red <==> feedback.value.kind == "incorrect")
    ensures feedback.Some? ==> (color == Blue <==> feedback.value.kind == "prefix_missing")
  {
    match feedback
    case None => Default
    case Some(fb) =>
      if fb.kind == "correct" then Green
      else if fb.kind == "related" then Yellow
      else if fb.kind == "incorrect" then Red
      else if fb.kind == "prefix_missing" then Blue
      else Default
  }

  /** `getTextColor()`. */
  function TextColor(feedback: Option<Feedback>): (color: string)
    ensures color == White || color == Dark
    ensures color == White <==>
      feedback.Some? && (feedback.value.kind == "correct" || feedback.value.kind == "prefix_missing")
  {
    if feedback.None? then Dark
    else if feedback.value.kind == "correct" || feedback.value.kind == "prefix_missing" then White
    else Dark
  }

  /** `getBorderColor()`, also the colour of the feedback message. */
  function BorderColor(feedback: Option<Feedback>): (color: string)
    ensures color == Grey <==> feedback.None?
    ensures feedback.Some? ==> color == BackgroundColor(feedback)
  {
    if feedback.None? then Grey else BackgroundColor(feedback)
  }

  /** `borderWidth: feedback ? 3 : 1`. */
  function BorderWidth(feedback: Option<Feedback>): (width: nat)
    ensures width == 3 <==> feedback.Some?
    ensures width == 1 <==> feedback.None?
  {
    if feedback.Some? then 3 else 1
  }

  /**
   * The colour of a known feedback type identifies the type: two entries
   * with the same background have the same type.
   */
  lemma BackgroundIdentifiesKind(a: Feedback, b: Feedback)
    requires KnownKind(a.kind) && KnownKind(b.kind)
    requires BackgroundColor(Some(a)) == BackgroundColor(Some(b))
    ensures a.kind == b.kind
  {
  }

  /** Every verdict a board produces has a coloured, non-default background. */
  lemma VerdictColored(v: Verdict, message: string)
    ensures BackgroundColor(Some(Feedback(TypeName(v), message))) != Default
  {
  }

  /**
   * `revealedLetters && revealedLetters.length > 0 && !value && correctAnswerForHint`:
   * some letter is revealed, the cell is empty and there is an answer to hint.
   */
  predicate ShowsHint(revealed: seq<int>, value: string, answerForHint: string) {
    |revealed| > 0 && value == "" && answerForHint != ""
  }

  /** The hint line under the cell, when it is shown. */
  function HintLine(revealed: seq<int>, value: string, answerForHint: string): (line: Option<string>)
    ensures line.Some? <==> ShowsHint(revealed, value, answerForHint)
    ensures line.Some? ==> line.value == "Hint: " + Mask(answerForHint, revealed)
    ensures line.Some? ==>
      |line.value| == |"Hint: "| + 2 * |answerForHint| - 1 &&
      forall i :: 0 <= i < |answerForHint| ==>
        line.value[|"Hint: "| + 2 * i] == if i in revealed then answerForHint[i] else '_'
  {
    if ShowsHint(revealed, value, answerForHint) then
      MaskShape(answerForHint, revealed);
      Some("Hint: " + Mask(answerForHint, revealed))
    else None
  }

  /** `correctAnswer || value`: a locked cell shows the answer when there is one. */
  function LockedText(correctAnswer: Option<string>, value: string): (text: string)
    ensures correctAnswer.Some? && correctAnswer.value != "" ==> text == correctAnswer.value
    ensures correctAnswer.None? || correctAnswer.value == "" ==> text == value
  {
    match correctAnswer
    case Some(answer) => if answer != "" then answer else value
    case None => value
  }
}
