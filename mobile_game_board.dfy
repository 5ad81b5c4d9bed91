/**
 * The mobile board (components/GameBoard.js): the round state and the
 * handlers the buttons and cells call. React's setters are sequential
 * assignments to the fields; every random pick is an index the caller
 * supplies.
 */
module MobileGameBoard {
  import opened Text
  import opened Optional
  import opened WordFamilies
  import opened Rules
  import MobileWordInputCell

  /** The mobile wording of the verdicts. */
  const CorrectMessage: string := "Correct!"
  const OtherColumnMessage: string := "This word belongs in a different column"
  const NotPrimaryMessage: string := "Valid derivation, but not the primary "
  const PrefixMessage: string := "This word needs a negative prefix (un-, dis-, il-, im-)"
  const IncorrectMessage: string := "Not a valid derivation"

  /** The message stored with each verdict. */
  function Message(v: Verdict, s: Slot): string {
    match v
    case Correct => CorrectMessage
    case Related(true) => OtherColumnMessage
    case Related(false) => NotPrimaryMessage + Lower(PartOfSpeech(s))
    case PrefixMissing => PrefixMessage
    case Incorrect => IncorrectMessage
  }

  /** The feedback entry a verdict is stored as. */
  function FeedbackFor(v: Verdict, s: Slot): Feedback {
    Feedback(TypeName(v), Message(v, s))
  }

  /** Different verdicts are worded differently, so a message tells its verdict. */
  lemma MessageIdentifiesVerdict(v: Verdict, w: Verdict, s: Slot)
    requires Message(v, s) == Message(w, s)
    ensures v == w
  {
    // The five messages have five different lengths.
    assert |Message(v, s)| == |Message(w, s)|;
  }

  /**
   * The `forEach` over the columns: the verdict and message of every column,
   * and whether every column is correct.
   */
  method Evaluate(inputs: map<Slot, string>, f: Family, tier: Tier)
    returns (newFeedback: map<Slot, Feedback>, allCorrect: bool)
    requires Total(inputs)
    ensures Total(newFeedback)
    ensures forall s: Slot :: newFeedback[s] == FeedbackFor(Classify(inputs[s], f, s, tier), s)
    ensures allCorrect <==> AllCorrect(inputs, f)
  {
    newFeedback := map[];
    allCorrect := true;
    var index := 0;
    while index < |PartKeys|
      invariant 0 <= index <= |PartKeys|
      invariant forall s :: s in newFeedback <==> s in PartKeys[..index]
      invariant forall s :: s in newFeedback ==> newFeedback[s] == FeedbackFor(Classify(inputs[s], f, s, tier), s)
      invariant allCorrect <==> forall s :: s in PartKeys[..index] ==> SlotCorrect(inputs[s], f, s)
    {
      var key := PartKeys[index];
      assert PartKeys[..index + 1] == PartKeys[..index] + [key];
      var userAnswer := Upper(Trim(inputs[key]));
      var correctAnswer := Upper(Form(f, key));
      if userAnswer != correctAnswer {
        allCorrect := false;
      }
      newFeedback := newFeedback[key := FeedbackFor(Classify(inputs[key], f, key, tier), key)];
      index := index + 1;
    }
    assert PartKeys[..index] == PartKeys;
    PartKeysComplete();
  }

  /**
   * One column of a round in progress: its revealed list is in bounds and
   * without repeats, its feedback entry, if any, is the grade of the input
   * now in its cell, and in a won round it is graded and answered with its
   * form.
   */
  ghost predicate ColumnOk(t: Tier, f: Family, inputs: map<Slot, string>, feedback: map<Slot, Feedback>,
                           won: bool, revealed: map<Slot, seq<int>>, s: Slot)
    requires Total(inputs) && Total(revealed)
  {
    && RevealedOk(revealed[s], |Form(f, s)|)
    && (s in feedback ==> feedback[s] == FeedbackFor(Classify(inputs[s], f, s, t), s))
    && (won ==> s in feedback && SlotCorrect(inputs[s], f, s))
  }

  /** Every column of the round is well formed. */
  ghost predicate ColumnsOk(t: Tier, f: Family, inputs: map<Slot, string>, feedback: map<Slot, Feedback>,
                            won: bool, revealed: map<Slot, seq<int>>)
    requires Total(inputs) && Total(revealed)
  {
    forall s: Slot :: ColumnOk(t, f, inputs, feedback, won, revealed, s)
  }

  /** A fresh round, with empty cells, no feedback and nothing revealed, is well formed. */
  lemma FreshColumnsOk(t: Tier, f: Family)
    ensures Total(EmptyInputs) && Total(NoneRevealed)
    ensures ColumnsOk(t, f, EmptyInputs, map[], false, NoneRevealed)
  {
    EmptyRecordsTotal();
    forall s: Slot ensures ColumnOk(t, f, EmptyInputs, map[], false, NoneRevealed, s) {
      assert NoneRevealed[s] == [];
    }
  }

  /**
   * Typing into a column of a round not yet won, and dropping that column's
   * feedback, keeps every column well formed.
   */
  lemma EditKeepsColumnsOk(t: Tier, f: Family, inputs: map<Slot, string>, feedback: map<Slot, Feedback>,
                           revealed: map<Slot, seq<int>>, part: Slot, value: string)
    requires Total(inputs) && Total(revealed)
    requires ColumnsOk(t, f, inputs, feedback, false, revealed)
    ensures Total(inputs[part := value])
    ensures ColumnsOk(t, f, inputs[part := value], feedback - {part}, false, revealed)
  {
    var inputs' := inputs[part := value];
    forall s: Slot ensures ColumnOk(t, f, inputs', feedback - {part}, false, revealed, s) {
      assert ColumnOk(t, f, inputs, feedback, false, revealed, s);
    }
  }

  /**
   * Grading every column of a round not yet won, and winning it exactly when
   * every column is correct, leaves every column well formed.
   */
  lemma GradingKeepsColumnsOk(t: Tier, f: Family, inputs: map<Slot, string>, feedback: map<Slot, Feedback>,
                              revealed: map<Slot, seq<int>>, newFeedback: map<Slot, Feedback>, won: bool)
    requires Total(inputs) && Total(revealed)
    requires ColumnsOk(t, f, inputs, feedback, false, revealed)
    requires Total(newFeedback)
    requires forall s: Slot :: newFeedback[s] == FeedbackFor(Classify(inputs[s], f, s, t), s)
    requires won <==> AllCorrect(inputs, f)
    ensures ColumnsOk(t, f, inputs, newFeedback, won, revealed)
  {
    forall s: Slot ensures ColumnOk(t, f, inputs, newFeedback, won, revealed, s) {
      assert ColumnOk(t, f, inputs, feedback, false, revealed, s);
    }
  }

  /** Every revealed list of a well-formed round is in bounds and without repeats. */
  lemma ColumnsRevealedOk(t: Tier, f: Family, inputs: map<Slot, string>, feedback: map<Slot, Feedback>,
                          won: bool, revealed: map<Slot, seq<int>>)
    requires Total(inputs) && Total(revealed)
    requires ColumnsOk(t, f, inputs, feedback, won, revealed)
    ensures forall s: Slot :: RevealedOk(revealed[s], |Form(f, s)|)
  {
    forall s: Slot ensures RevealedOk(revealed[s], |Form(f, s)|) {
      assert ColumnOk(t, f, inputs, feedback, won, revealed, s);
    }
  }

  /** Revealing letters within bounds and without repeats keeps every column well formed. */
  lemma RevealKeepsColumnsOk(t: Tier, f: Family, inputs: map<Slot, string>, feedback: map<Slot, Feedback>,
                             won: bool, revealed: map<Slot, seq<int>>, revealed': map<Slot, seq<int>>)
    requires Total(inputs) && Total(revealed) && Total(revealed')
    requires ColumnsOk(t, f, inputs, feedback, won, revealed)
    requires forall s: Slot :: RevealedOk(revealed'[s], |Form(f, s)|)
    ensures ColumnsOk(t, f, inputs, feedback, won, revealed')
  {
    forall s: Slot ensures ColumnOk(t, f, inputs, feedback, won, revealed', s) {
      assert ColumnOk(t, f, inputs, feedback, won, revealed, s);
    }
  }

  class GameBoard {
    var difficulty: Option<Tier>
    var currentFamily: Option<Family>
    var inputs: map<Slot, string>
    var feedback: map<Slot, Feedback>
    var gameWon: bool
    var round: nat
    var score: nat
    var revealedLetters: map<Slot, seq<int>>

    /**
     * The board's invariant: every column has an input and a revealed list;
     * a family is on the board only with a tier and comes from that tier;
     * each revealed list is in bounds and without repeats; every feedback
     * entry is the grade of the input now in its cell; a won round has all
     * four columns correct.
     */
    ghost predicate Valid()
      reads this
    {
      && Total(inputs)
      && Total(revealedLetters)
      && round >= 1
      && (currentFamily.None? ==> feedback == map[] && !gameWon)
      && (currentFamily.Some? ==>
            && difficulty.Some?
            && currentFamily.value in Families(difficulty.value)
            && ColumnsOk(difficulty.value, currentFamily.value, inputs, feedback, gameWon, revealedLetters))
    }

    /** The initial state: no tier chosen, round 1, score 0. */
    constructor ()
      ensures Valid()
      ensures difficulty == None && currentFamily == None
      ensures inputs == EmptyInputs && feedback == map[] && !gameWon
      ensures round == 1 && score == 0 && revealedLetters == NoneRevealed
    {
      difficulty := None;
      currentFamily := None;
      inputs := EmptyInputs;
      feedback := map[];
      gameWon := false;
      round := 1;
      score := 0;
      revealedLetters := NoneRevealed;
      EmptyRecordsTotal();
    }

    /**
     * `startNewRound`: the family at `pick` in the current tier, with empty
     * inputs, no feedback and nothing revealed.
     */
    method StartNewRound(pick: nat)
      requires Valid()
      requires difficulty.Some? && pick < |Families(difficulty.value)|
      modifies this
      ensures Valid()
      ensures difficulty == old(difficulty)
      ensures currentFamily == Some(Families(difficulty.value)[pick])
      ensures inputs == EmptyInputs && feedback == map[] && !gameWon && revealedLetters == NoneRevealed
      ensures round == old(round) && score == old(score)
    {
      var families := Families(difficulty.value);
      currentFamily := Some(families[pick]);
      inputs := EmptyInputs;
      feedback := map[];
      gameWon := false;
      revealedLetters := NoneRevealed;
      FreshColumnsOk(difficulty.value, families[pick]);
    }

    /**
     * A difficulty button, then the effect that starts the first round of the
     * tier once a tier is set and no family is on the board.
     */
    method SelectDifficulty(t: Tier, pick: nat)
      requires Valid() && difficulty.None?
      requires pick < |Families(t)|
      modifies this
      ensures Valid()
      ensures difficulty == Some(t) && currentFamily == Some(Families(t)[pick])
      ensures inputs == EmptyInputs && feedback == map[] && !gameWon && revealedLetters == NoneRevealed
      ensures round == old(round) && score == old(score)
    {
      difficulty := Some(t);
      if currentFamily.None? {
        StartNewRound(pick);
      }
    }

    /** `handleNext`: one more round, a new family from the same tier. */
    method HandleNext(pick: nat)
      requires Valid() && currentFamily.Some? && difficulty.Some?
      requires pick < |Families(difficulty.value)|
      modifies this
      ensures Valid()
      ensures round == old(round) + 1 && score == old(score) && difficulty == old(difficulty)
      ensures currentFamily == Some(Families(difficulty.value)[pick])
      ensures inputs == EmptyInputs && feedback == map[] && !gameWon && revealedLetters == NoneRevealed
    {
      round := round + 1;
      StartNewRound(pick);
    }

    /** `handleBack`: back to the difficulty screen, round 1 and score 0. */
    method HandleBack()
      requires Valid()
      modifies this
      ensures Valid()
      ensures difficulty == None && currentFamily == None
      ensures inputs == EmptyInputs && feedback == map[] && !gameWon
      ensures round == 1 && score == 0 && revealedLetters == NoneRevealed
    {
      difficulty := None;
      currentFamily := None;
      inputs := EmptyInputs;
      feedback := map[];
      gameWon := false;
      round := 1;
      score := 0;
      revealedLetters := NoneRevealed;
      EmptyRecordsTotal();
    }

    /**
     * `handleInputChange`: ignored once the round is won; otherwise the typed
     * text is stored as it is and only that column's feedback is dropped.
     */
    method HandleInputChange(part: Slot, value: string)
      requires Valid()
      modifies this
      ensures Valid()
      ensures old(gameWon) ==> unchanged(this)
      ensures !old(gameWon) ==>
        && inputs == old(inputs)[part := value]
        && feedback == old(feedback) - {part}
        && difficulty == old(difficulty) && currentFamily == old(currentFamily)
        && gameWon == old(gameWon) && round == old(round) && score == old(score)
        && revealedLetters == old(revealedLetters)
    {
      if gameWon {
        return;
      }
      if currentFamily.Some? {
        EditKeepsColumnsOk(difficulty.value, currentFamily.value, inputs, feedback, revealedLetters, part, value);
      }
      inputs := inputs[part := value];
      feedback := feedback - {part};
    }

    /**
     * `checkAnswers`: refused once won or while a column is blank; otherwise
     * every column is graded, and four correct columns win the round and
     * score one point.
     */
    method CheckAnswers()
      requires Valid() && currentFamily.Some?
      modifies this
      ensures Valid()
      ensures old(gameWon) || AnyBlank(old(inputs)) ==> unchanged(this)
      ensures currentFamily == old(currentFamily) && difficulty == old(difficulty)
      ensures !old(gameWon) && !AnyBlank(old(inputs)) ==>
        && Total(feedback)
        && (forall s: Slot :: feedback[s] == FeedbackFor(Classify(inputs[s], currentFamily.value, s, difficulty.value), s))
        && (gameWon <==> AllCorrect(inputs, currentFamily.value))
        && score == old(score) + (if AllCorrect(inputs, currentFamily.value) then 1 else 0)
        && inputs == old(inputs) && round == old(round) && revealedLetters == old(revealedLetters)
    {
      if gameWon {
        return;
      }
      if AnyBlank(inputs) {
        return;
      }
      var newFeedback, allCorrect := Evaluate(inputs, currentFamily.value, difficulty.value);
      GradingKeepsColumnsOk(difficulty.value, currentFamily.value, inputs, feedback, revealedLetters, newFeedback, allCorrect);
      feedback := newFeedback;
      if allCorrect {
        gameWon := true;
        score := score + 1;
      }
    }

    /** `resetRound`: the same family again, from empty cells. */
    method ResetRound()
      requires Valid()
      modifies this
      ensures Valid()
      ensures inputs == EmptyInputs && feedback == map[] && !gameWon && revealedLetters == NoneRevealed
      ensures difficulty == old(difficulty) && currentFamily == old(currentFamily)
      ensures round == old(round) && score == old(score)
    {
      inputs := EmptyInputs;
      feedback := map[];
      gameWon := false;
      revealedLetters := NoneRevealed;
      EmptyRecordsTotal();
      if currentFamily.Some? {
        FreshColumnsOk(difficulty.value, currentFamily.value);
      }
    }

    /**
     * `showHint`: one more letter of one column still wrong, chosen by the
     * two picks, or nothing.
     */
    method ShowHint(slotPick: nat, posPick: nat)
      requires Valid()
      requires currentFamily.Some? ==>
        HintPicksInRange(inputs, currentFamily.value, revealedLetters, slotPick, posPick)
      modifies this
      ensures Valid()
      ensures difficulty == old(difficulty) && currentFamily == old(currentFamily)
      ensures inputs == old(inputs) && feedback == old(feedback) && gameWon == old(gameWon)
      ensures round == old(round) && score == old(score)
      ensures currentFamily.None? ==> unchanged(this)
      ensures currentFamily.Some? ==>
        revealedLetters == ApplyHint(old(revealedLetters),
          NextHint(old(inputs), currentFamily.value, old(revealedLetters), slotPick, posPick))
    {
      if currentFamily.None? {
        return;
      }
      var f := currentFamily.value;
      var hint := ChooseHint(inputs, f, revealedLetters, slotPick, posPick);
      ColumnsRevealedOk(difficulty.value, f, inputs, feedback, gameWon, revealedLetters);
      ApplyHintKeepsRevealedOk(inputs, f, revealedLetters, slotPick, posPick);
      RevealKeepsColumnsOk(difficulty.value, f, inputs, feedback, gameWon, revealedLetters,
        ApplyHint(revealedLetters, hint));
      if hint.Some? {
        var (hintField, positionToReveal) := hint.value;
        revealedLetters := revealedLetters[hintField := revealedLetters[hintField] + [positionToReveal]];
      }
    }

    /** The invariant of one column of the round on the board. */
    lemma ColumnAt(key: Slot)
      requires Valid() && currentFamily.Some?
      ensures ColumnOk(difficulty.value, currentFamily.value, inputs, feedback, gameWon, revealedLetters, key)
    {
    }

    /** The `feedback` prop of a column's cell. */
    function CellFeedback(key: Slot): Option<Feedback>
      reads this
    {
      if key in feedback then Some(feedback[key]) else None
    }

    /**
     * The background of a column's cell: never blue, since the board never
     * grades an answer as missing its prefix, and coloured exactly when the
     * column has feedback.
     */
    function CellBackground(key: Slot): (color: string)
      reads this
      requires Valid()
      ensures color != MobileWordInputCell.Blue
      ensures color != MobileWordInputCell.Default <==> key in feedback
    {
      if key in feedback then
        var f := currentFamily.value;
        ColumnAt(key);
        PrefixMissingUnreachable(inputs[key], f, key, difficulty.value);
        MobileWordInputCell.VerdictColored(Classify(inputs[key], f, key, difficulty.value),
          Message(Classify(inputs[key], f, key, difficulty.value), key));
        MobileWordInputCell.BackgroundColor(CellFeedback(key))
      else MobileWordInputCell.BackgroundColor(CellFeedback(key))
    }

    /** The text colour of a column's cell: white exactly on a correct column's feedback. */
    function CellTextColor(key: Slot): (color: string)
      reads this
      requires Valid()
      ensures color == MobileWordInputCell.White <==>
        key in feedback && SlotCorrect(inputs[key], currentFamily.value, key)
    {
      if key in feedback then
        var f := currentFamily.value;
        ColumnAt(key);
        PrefixMissingUnreachable(inputs[key], f, key, difficulty.value);
        ClassifyCorrectIff(inputs[key], f, key, difficulty.value);
        MobileWordInputCell.TextColor(CellFeedback(key))
      else MobileWordInputCell.TextColor(CellFeedback(key))
    }

    /**
     * The text of a locked cell: cells lock once the round is won, and then
     * show the column's form, which is the player's answer up to case and
     * surrounding whitespace.
     */
    function CellLockedText(key: Slot): (text: string)
      reads this
      requires Valid() && currentFamily.Some?
      ensures gameWon ==> text == Form(currentFamily.value, key)
      ensures gameWon ==> Upper(text) == Upper(Trim(inputs[key]))
    {
      var f := currentFamily.value;
      CatalogChecked(difficulty.value);
      ColumnAt(key);
      MobileWordInputCell.LockedText(if gameWon then Some(Form(f, key)) else None, inputs[key])
    }

    /**
     * Whether a column's cell shows its hint line (`correctAnswerForHint` is
     * the column's form): exactly when the cell is empty and has a revealed
     * letter, so never once the round is won.
     */
    function CellShowsHint(key: Slot): (shown: bool)
      reads this
      requires Valid() && currentFamily.Some?
      ensures shown <==> |revealedLetters[key]| > 0 && inputs[key] == ""
      ensures gameWon ==> !shown
    {
      var f := currentFamily.value;
      CatalogChecked(difficulty.value);
      assert Form(f, key) != [];
      ColumnAt(key);
      if gameWon then
        assert SlotCorrect(inputs[key], f, key);
        assert inputs[key] != "";
        MobileWordInputCell.ShowsHint(revealedLetters[key], inputs[key], Form(f, key))
      else MobileWordInputCell.ShowsHint(revealedLetters[key], inputs[key], Form(f, key))
    }
  }

  /**
   * Once a column has had every letter of its form revealed, a hint that
   * picks that column adds nothing: each column takes at most as many
   * hints as its form has letters.
   */
  lemma HintsExhaustColumn(board: GameBoard, key: Slot)
    requires board.Valid() && board.currentFamily.Some?
    ensures |board.revealedLetters[key]| <= |Form(board.currentFamily.value, key)|
    ensures |board.revealedLetters[key]| == |Form(board.currentFamily.value, key)| ==>
      AvailablePositions(|Upper(Form(board.currentFamily.value, key))|, board.revealedLetters[key]) == []
  {
    board.ColumnAt(key);
    FullyRevealed(board.revealedLetters[key], |Form(board.currentFamily.value, key)|);
  }
}
