/**
 * The game rules both boards share (components/GameBoard.js and
 * src/components/GameBoard.jsx): grading one column's answer, the
 * "all four filled" guard, the win condition, and the choice of the next
 * hint letter. Only the wording of the feedback differs between the two
 * boards, so each board keeps its own messages and this module keeps the
 * verdicts.
 */
module Rules {
  import opened Text
  import opened Optional
  import opened WordFamilies

  /**
   * The grade of one column. `Related(otherColumn)` is the yellow verdict;
   * `otherColumn` picks between the "different column" and the "valid
   * derivation" messages.
   */
  datatype Verdict = Correct | Related(otherColumn: bool) | PrefixMissing | Incorrect

  /** One entry of the `feedback` object: its `type` string and its `message`. */
  datatype Feedback = Feedback(kind: string, message: string)

  /** The `type` string each verdict is stored under. */
  function TypeName(v: Verdict): string {
    match v
    case Correct => "correct"
    case Related(_) => "related"
    case PrefixMissing => "prefix_missing"
    case Incorrect => "incorrect"
  }

  /** A JavaScript object keyed by the four column names, every key present. */
  predicate Total<T>(m: map<Slot, T>) {
    forall s: Slot :: s in m
  }

  /** `PARTS_OF_SPEECH[index]`: the label of a column. */
  function PartOfSpeech(s: Slot): string {
    match s
    case Noun => "NOUN"
    case Verb => "VERB"
    case Adjective => "ADJECTIVE"
    case Adverb => "ADVERB"
  }

  /** `{ noun: '', verb: '', adjective: '', adverb: '' }`. */
  const EmptyInputs: map<Slot, string> := map[Noun := "", Verb := "", Adjective := "", Adverb := ""]

  /** `{ noun: [], verb: [], adjective: [], adverb: [] }`. */
  const NoneRevealed: map<Slot, seq<int>> := map[Noun := [], Verb := [], Adjective := [], Adverb := []]

  /** The two empty records have every column. */
  lemma EmptyRecordsTotal()
    ensures Total(EmptyInputs) && Total(NoneRevealed)
    ensures forall s: Slot :: EmptyInputs[s] == "" && NoneRevealed[s] == []
  {
    forall s: Slot ensures s in EmptyInputs && s in NoneRevealed {
      match s
      case Noun =>
      case Verb =>
      case Adjective =>
      case Adverb =>
    }
  }

  /** `inputs[key].trim().toUpperCase()`, the answer as it is graded. */
  function Answer(input: string): string {
    Upper(Trim(input))
  }

  /** The column's input, trimmed and upper-cased, equals its upper-cased form. */
  predicate SlotCorrect(input: string, f: Family, s: Slot) {
    Answer(input) == Upper(Form(f, s))
  }

  /** The answer equals the upper-cased form of some column other than `s`. */
  predicate BelongsToOtherPart(answer: string, f: Family, s: Slot) {
    exists other :: other in PartKeys && other != s && Upper(Form(f, other)) == answer
  }

  /**
   * The classification of one column, as both boards write it: equal to the
   * form, else related (other column or mere derivation), else on the hardest
   * tier with a prefixed family the root test, else incorrect.
   */
  function Classify(input: string, f: Family, s: Slot, tier: Tier): Verdict {
    var answer := Answer(input);
    if answer == Upper(Form(f, s)) then Correct else ClassifyWrong(answer, f, s, tier)
  }

  /** The grade of an answer that is not the column's form. */
  function ClassifyWrong(answer: string, f: Family, s: Slot, tier: Tier): Verdict {
    if IsRelatedWord(answer, f) then Related(BelongsToOtherPart(answer, f, s))
    else if tier == Level3 && f.requiresPrefix.Some? then
      var root := Upper(f.root);
      if Contains(answer, root) || Contains(root, answer) then PrefixMissing else Incorrect
    else Incorrect
  }

  /** `!inputs[key].trim()` for some column: the Check handler returns early with the Incomplete alert. */
  predicate AnyBlank(inputs: map<Slot, string>)
    requires Total(inputs)
  {
    exists s :: s in PartKeys && IsBlank(inputs[s])
  }

  /** Every column is answered with its form: the round is won. */
  predicate AllCorrect(inputs: map<Slot, string>, f: Family)
    requires Total(inputs)
  {
    forall s: Slot :: SlotCorrect(inputs[s], f, s)
  }

  /** Every column is graded `Correct`: the boards' own test for a won round. */
  predicate AllGradedCorrect(inputs: map<Slot, string>, f: Family, tier: Tier)
    requires Total(inputs)
  {
    forall s: Slot :: Classify(inputs[s], f, s, tier) == Correct
  }

  // ---------------------------------------------------------------------
  // Properties of the classification

  /** A column is graded correct exactly when its normalised input is its upper-cased form. */
  lemma ClassifyCorrectIff(input: string, f: Family, s: Slot, tier: Tier)
    ensures Classify(input, f, s, tier) == Correct <==> SlotCorrect(input, f, s)
  {
  }

  /**
   * The prefix-missing verdict can never be given: its root test is already
   * part of `isRelatedWord`, which the classification tries first on the
   * same, already normalised, answer.
   */
  lemma {:induction false} PrefixMissingUnreachable(input: string, f: Family, s: Slot, tier: Tier)
    ensures Classify(input, f, s, tier) != PrefixMissing
  {
    var answer := Answer(input);
    NormalizeIdempotent(input);
    assert Trim(Upper(answer)) == answer;
    RootTestIff(answer, Upper(f.root));
  }

  /** So the tier never changes a verdict. */
  lemma ClassifyTierIndependent(input: string, f: Family, s: Slot, t: Tier, t': Tier)
    ensures Classify(input, f, s, t) == Classify(input, f, s, t')
  {
    PrefixMissingUnreachable(input, f, s, t);
    PrefixMissingUnreachable(input, f, s, t');
  }

  /** The graded answer is already trimmed and upper-cased. */
  lemma AnswerNormalized(input: string)
    ensures Upper(Trim(Answer(input))) == Answer(input)
    ensures Trim(Upper(Answer(input))) == Answer(input)
  {
    NormalizeIdempotent(input);
    UpperTrim(Answer(input));
    UpperIdempotent(Trim(input));
  }

  /** Testing the graded answer for relatedness is testing the raw input. */
  lemma AnswerRelatedIff(input: string, f: Family)
    ensures IsRelatedWord(Answer(input), f) == IsRelatedWord(input, f)
  {
    AnswerNormalized(input);
    IsRelatedWordNormalized(Answer(input), input, f, f);
  }

  /** An answer is graded incorrect exactly when it is not related to the family at all. */
  lemma IncorrectIff(input: string, f: Family, s: Slot, tier: Tier)
    ensures Classify(input, f, s, tier) == Incorrect <==> !IsRelatedWord(input, f)
  {
    PrefixMissingUnreachable(input, f, s, tier);
    AnswerRelatedIff(input, f);
    if SlotCorrect(input, f, s) {
      var form := Form(f, s);
      FormRelated(f, s);
      UpperTrim(form);
      UpperIdempotent(form);
      TrimIdempotent(Upper(form));
      UpperTrim(Upper(form));
      assert Upper(Trim(Answer(input))) == Upper(Trim(form)) by {
        AnswerNormalized(input);
      }
      IsRelatedWordNormalized(Answer(input), form, f, f);
    }
  }

  /**
   * A wrong answer gets the "different column" message exactly when it is
   * another column's form (such an answer is always related).
   */
  lemma OtherColumnIff(input: string, f: Family, s: Slot, tier: Tier)
    ensures Classify(input, f, s, tier) == Related(true) <==>
      !SlotCorrect(input, f, s) && BelongsToOtherPart(Answer(input), f, s)
  {
    var answer := Answer(input);
    if !SlotCorrect(input, f, s) && BelongsToOtherPart(answer, f, s) {
      var other :| other in PartKeys && other != s && Upper(Form(f, other)) == answer;
      TrimShape(answer);
      ContainsUpper(answer, Trim(answer));
      UpperIdempotent(Trim(input));
      SubstringOfFormRelated(answer, f, other);
    }
  }

  /**
   * A wrong answer gets the "valid derivation" message exactly when it is
   * related to the family but is no column's form.
   */
  lemma DerivationIff(input: string, f: Family, s: Slot, tier: Tier)
    ensures Classify(input, f, s, tier) == Related(false) <==>
      !SlotCorrect(input, f, s) && !BelongsToOtherPart(Answer(input), f, s) && IsRelatedWord(input, f)
  {
    IncorrectIff(input, f, s, tier);
    PrefixMissingUnreachable(input, f, s, tier);
  }

  /** Grading ignores case and surrounding whitespace. */
  lemma ClassifyNormalized(input: string, input': string, f: Family, s: Slot, tier: Tier)
    requires Upper(Trim(input)) == Upper(Trim(input'))
    ensures Classify(input, f, s, tier) == Classify(input', f, s, tier)
  {
  }

  /** Typing a form in any case, with any surrounding whitespace, grades correct. */
  lemma FormAnyCaseCorrect(input: string, f: Family, s: Slot, tier: Tier)
    requires Upper(Trim(input)) == Upper(Trim(Form(f, s)))
    requires Trimmed(Form(f, s))
    ensures Classify(input, f, s, tier) == Correct
  {
    TrimFixed(Form(f, s));
  }

  /**
   * Every column is answered with its form exactly when every column is
   * graded `Correct`, on any tier.
   */
  lemma AllCorrectIff(inputs: map<Slot, string>, f: Family, tier: Tier)
    requires Total(inputs)
    ensures AllCorrect(inputs, f) <==> AllGradedCorrect(inputs, f, tier)
  {
  }

  /**
   * Filling in a well-formed family's own forms, in any case, passes the
   * blank guard and wins the round.
   */
  lemma FormsWin(inputs: map<Slot, string>, f: Family)
    requires WellFormed(f)
    requires Total(inputs)
    requires forall s: Slot :: Upper(inputs[s]) == Upper(Form(f, s))
    ensures AllCorrect(inputs, f)
    ensures !AnyBlank(inputs)
  {
    forall s: Slot
      ensures SlotCorrect(inputs[s], f, s) && !IsBlank(inputs[s])
    {
      UpperTrimCaseInsensitive(inputs[s], Form(f, s));
      TrimFixed(Form(f, s));
    }
  }

  /** So every catalog record can be won by typing its forms. */
  lemma CatalogFormsWin(inputs: map<Slot, string>, t: Tier, i: nat)
    requires i < |Families(t)|
    requires Total(inputs)
    requires forall s: Slot :: Upper(inputs[s]) == Upper(Form(Families(t)[i], s))
    ensures AllCorrect(inputs, Families(t)[i])
    ensures !AnyBlank(inputs)
  {
    var f := Families(t)[i];
    CatalogChecked(t);
    assert f in Families(t);
    FormsWin(inputs, f);
  }

  // ---------------------------------------------------------------------
  // Worked examples

  lemma BeautyTypedInLowerCase()
    ensures Upper("beauty") == Upper(Beauty.noun)
    ensures Upper("beautify") == Upper(Beauty.verb)
    ensures Upper("beautiful") == Upper(Beauty.adjective)
    ensures Upper("beautifully") == Upper(Beauty.adverb)
  {
    assert Upper("beauty") == "BEAUTY" == Upper("BEAUTY");
    assert Upper("beautify") == "BEAUTIFY" == Upper("BEAUTIFY");
    assert Upper("beautiful") == "BEAUTIFUL" == Upper("BEAUTIFUL");
    assert Upper("beautifully") == "BEAUTIFULLY" == Upper("BEAUTIFULLY");
  }

  /** Typing all four BEAUTY forms in lower case passes the blank guard and wins. */
  lemma BeautyInLowerCaseWins()
    ensures var inputs := map[Noun := "beauty", Verb := "beautify",
                              Adjective := "beautiful", Adverb := "beautifully"];
      Total(inputs) && AllCorrect(inputs, Beauty) && !AnyBlank(inputs)
  {
    var inputs := map[Noun := "beauty", Verb := "beautify",
                      Adjective := "beautiful", Adverb := "beautifully"];
    BeautyTypedInLowerCase();
    forall s: Slot ensures s in inputs && Upper(inputs[s]) == Upper(Form(Beauty, s)) {
      match s
      case Noun =>
      case Verb =>
      case Adjective =>
      case Adverb =>
    }
    BeautyShape();
    FormsWin(inputs, Beauty);
  }

  /** The adjective typed in the noun column belongs to another column. */
  lemma BeautifulAsNoun()
    ensures Classify("BEAUTIFUL", Beauty, Noun, Level1) == Related(true)
  {
    TrimFixed("BEAUTIFUL");
    assert Answer("BEAUTIFUL") == "BEAUTIFUL";
    assert Adjective in PartKeys;
    OtherColumnIff("BEAUTIFUL", Beauty, Noun, Level1);
  }

  /**
   * The bare root typed in the prefixed adjective column of PATIENCE is not
   * reported as a missing prefix: PATIENT is the verb's form, so it belongs
   * to another column.
   */
  lemma PatientAsAdjective()
    ensures Classify("PATIENT", Patience, Adjective, Level3) == Related(true)
  {
    TrimFixed("PATIENT");
    assert Answer("PATIENT") == "PATIENT";
    assert Verb in PartKeys;
    OtherColumnIff("PATIENT", Patience, Adjective, Level3);
  }

  /**
   * A word with a letter absent from the root and every form, missing a
   * letter the root and every form have, is unrelated to the family.
   */
  lemma UnrelatedByLetters(word: string, f: Family, c: char, d: char)
    requires c in Trim(Upper(word)) && d !in Trim(Upper(word))
    requires c !in Upper(f.root) && d in Upper(f.root)
    requires forall s: Slot :: c !in Upper(Form(f, s)) && d in Upper(Form(f, s))
    ensures !IsRelatedWord(word, f)
  {
    var w := Trim(Upper(word));
    MissingCharNotContained(Upper(f.root), w, c);
    MissingCharNotContained(w, Upper(f.root), d);
    forall s: Slot
      ensures !Contains(Upper(Form(f, s)), w) && !Contains(w, Upper(Form(f, s)))
    {
      MissingCharNotContained(Upper(Form(f, s)), w, c);
      MissingCharNotContained(w, Upper(Form(f, s)), d);
    }
    IsRelatedWordIff(word, f);
  }

  lemma NonsenseNormalized()
    ensures Trim(Upper("xyz123")) == "XYZ123"
  {
    assert Upper("xyz123") == "XYZ123";
    TrimFixed("XYZ123");
  }

  /** No `X`, in either case, at position `i` of `w` or after it. */
  predicate LacksXFrom(w: string, i: nat)
    decreases |w| - i
  {
    i >= |w| || (w[i] != 'X' && w[i] != 'x' && LacksXFrom(w, i + 1))
  }

  lemma {:induction false} LacksXFromMeans(w: string, i: nat)
    requires LacksXFrom(w, i)
    ensures forall j :: i <= j < |w| ==> w[j] != 'X' && w[j] != 'x'
    decreases |w| - i
  {
    if i < |w| {
      LacksXFromMeans(w, i + 1);
    }
  }

  /**
   * The letter facts behind "xyz123" being unrelated to a record: a
   * non-empty root without X whose capitalised initial comes before X,
   * and four forms without X that each contain that initial.
   */
  predicate LacksXSharesInitial(f: Family) {
    && f.root != []
    && var d := UpperChar(f.root[0]);
    && 'A' <= d < 'X'
    && LacksXFrom(f.root, 0)
    && LacksXFrom(f.noun, 0) && d in f.noun
    && LacksXFrom(f.verb, 0) && d in f.verb
    && LacksXFrom(f.adjective, 0) && d in f.adjective
    && LacksXFrom(f.adverb, 0) && d in f.adverb
  }

  lemma BeautyLacksX() ensures LacksXSharesInitial(Beauty) {
    assert LacksXFrom("beauty", 0) && LacksXFrom("BEAUTY", 0) && LacksXFrom("BEAUTIFY", 0) && LacksXFrom("BEAUTIFUL", 0) && LacksXFrom("BEAUTIFULLY", 0);
    assert "BEAUTY"[0] == 'B' && "BEAUTIFY"[0] == 'B' && "BEAUTIFUL"[0] == 'B' && "BEAUTIFULLY"[0] == 'B';
  }
  lemma InformationLacksX() ensures LacksXSharesInitial(Information) {
    assert LacksXFrom("inform", 0) && LacksXFrom("INFORMATION", 0) && LacksXFrom("INFORM", 0) && LacksXFrom("INFORMATIVE", 0) && LacksXFrom("INFORMATIVELY", 0);
    assert "INFORMATION"[0] == 'I' && "INFORM"[0] == 'I' && "INFORMATIVE"[0] == 'I' && "INFORMATIVELY"[0] == 'I';
  }
  lemma CompetitionLacksX() ensures LacksXSharesInitial(Competition) {
    assert LacksXFrom("compete", 0) && LacksXFrom("COMPETITION", 0) && LacksXFrom("COMPETE", 0) && LacksXFrom("COMPETITIVE", 0) && LacksXFrom("COMPETITIVELY", 0);
    assert "COMPETITION"[0] == 'C' && "COMPETE"[0] == 'C' && "COMPETITIVE"[0] == 'C' && "COMPETITIVELY"[0] == 'C';
  }
  lemma SuccessLacksX() ensures LacksXSharesInitial(Success) {
    assert LacksXFrom("succeed", 0) && LacksXFrom("SUCCESS", 0) && LacksXFrom("SUCCEED", 0) && LacksXFrom("SUCCESSFUL", 0) && LacksXFrom("SUCCESSFULLY", 0);
    assert "SUCCESS"[0] == 'S' && "SUCCEED"[0] == 'S' && "SUCCESSFUL"[0] == 'S' && "SUCCESSFULLY"[0] == 'S';
  }
  lemma DecisionLacksX() ensures LacksXSharesInitial(Decision) {
    assert LacksXFrom("decide", 0) && LacksXFrom("DECISION", 0) && LacksXFrom("DECIDE", 0) && LacksXFrom("DECISIVE", 0) && LacksXFrom("DECISIVELY", 0);
    assert "DECISION"[0] == 'D' && "DECIDE"[0] == 'D' && "DECISIVE"[0] == 'D' && "DECISIVELY"[0] == 'D';
  }
  lemma ProtectionLacksX() ensures LacksXSharesInitial(Protection) {
    assert LacksXFrom("protect", 0) && LacksXFrom("PROTECTION", 0) && LacksXFrom("PROTECT", 0) && LacksXFrom("PROTECTIVE", 0) && LacksXFrom("PROTECTIVELY", 0);
    assert "PROTECTION"[0] == 'P' && "PROTECT"[0] == 'P' && "PROTECTIVE"[0] == 'P' && "PROTECTIVELY"[0] == 'P';
  }
  lemma EducationLacksX() ensures LacksXSharesInitial(Education) {
    assert LacksXFrom("educate", 0) && LacksXFrom("EDUCATION", 0) && LacksXFrom("EDUCATE", 0) && LacksXFrom("EDUCATIONAL", 0) && LacksXFrom("EDUCATIONALLY", 0);
    assert "EDUCATION"[0] == 'E' && "EDUCATE"[0] == 'E' && "EDUCATIONAL"[0] == 'E' && "EDUCATIONALLY"[0] == 'E';
  }
  lemma CreationLacksX() ensures LacksXSharesInitial(Creation) {
    assert LacksXFrom("create", 0) && LacksXFrom("CREATION", 0) && LacksXFrom("CREATE", 0) && LacksXFrom("CREATIVE", 0) && LacksXFrom("CREATIVELY", 0);
    assert "CREATION"[0] == 'C' && "CREATE"[0] == 'C' && "CREATIVE"[0] == 'C' && "CREATIVELY"[0] == 'C';
  }
  lemma ApplicationLacksX() ensures LacksXSharesInitial(Application) {
    assert LacksXFrom("apply", 0) && LacksXFrom("APPLICATION", 0) && LacksXFrom("APPLY", 0) && LacksXFrom("APPLICABLE", 0) && LacksXFrom("APPLICABLY", 0);
    assert "APPLICATION"[0] == 'A' && "APPLY"[0] == 'A' && "APPLICABLE"[0] == 'A' && "APPLICABLY"[0] == 'A';
  }
  lemma StrengthLacksX() ensures LacksXSharesInitial(Strength) {
    assert LacksXFrom("strong", 0) && LacksXFrom("STRENGTH", 0) && LacksXFrom("STRENGTHEN", 0) && LacksXFrom("STRONG", 0) && LacksXFrom("STRONGLY", 0);
    assert "STRENGTH"[0] == 'S' && "STRENGTHEN"[0] == 'S' && "STRONG"[0] == 'S' && "STRONGLY"[0] == 'S';
  }
  lemma DepthLacksX() ensures LacksXSharesInitial(Depth) {
    assert LacksXFrom("deep", 0) && LacksXFrom("DEPTH", 0) && LacksXFrom("DEEPEN", 0) && LacksXFrom("DEEP", 0) && LacksXFrom("DEEPLY", 0);
    assert "DEPTH"[0] == 'D' && "DEEPEN"[0] == 'D' && "DEEP"[0] == 'D' && "DEEPLY"[0] == 'D';
  }
  lemma ManagementLacksX() ensures LacksXSharesInitial(Management) {
    assert LacksXFrom("manage", 0) && LacksXFrom("MANAGEMENT", 0) && LacksXFrom("MANAGE", 0) && LacksXFrom("MANAGEABLE", 0) && LacksXFrom("MANAGEABLY", 0);
    assert "MANAGEMENT"[0] == 'M' && "MANAGE"[0] == 'M' && "MANAGEABLE"[0] == 'M' && "MANAGEABLY"[0] == 'M';
  }
  lemma KnowledgeLacksX() ensures LacksXSharesInitial(Knowledge) {
    assert LacksXFrom("know", 0) && LacksXFrom("KNOWLEDGE", 0) && LacksXFrom("KNOW", 0) && LacksXFrom("KNOWLEDGEABLE", 0) && LacksXFrom("KNOWLEDGEABLY", 0);
    assert "KNOWLEDGE"[0] == 'K' && "KNOW"[0] == 'K' && "KNOWLEDGEABLE"[0] == 'K' && "KNOWLEDGEABLY"[0] == 'K';
  }
  lemma WidthLacksX() ensures LacksXSharesInitial(Width) {
    assert LacksXFrom("wide", 0) && LacksXFrom("WIDTH", 0) && LacksXFrom("WIDEN", 0) && LacksXFrom("WIDE", 0) && LacksXFrom("WIDELY", 0);
    assert "WIDTH"[0] == 'W' && "WIDEN"[0] == 'W' && "WIDE"[0] == 'W' && "WIDELY"[0] == 'W';
  }
  lemma LengthLacksX() ensures LacksXSharesInitial(Length) {
    assert LacksXFrom("long", 0) && LacksXFrom("LENGTH", 0) && LacksXFrom("LENGTHEN", 0) && LacksXFrom("LONG", 0) && LacksXFrom("LENGTHILY", 0);
    assert "LENGTH"[0] == 'L' && "LENGTHEN"[0] == 'L' && "LONG"[0] == 'L' && "LENGTHILY"[0] == 'L';
  }
  lemma ArgumentLacksX() ensures LacksXSharesInitial(Argument) {
    assert LacksXFrom("argue", 0) && LacksXFrom("ARGUMENT", 0) && LacksXFrom("ARGUE", 0) && LacksXFrom("ARGUABLE", 0) && LacksXFrom("ARGUABLY", 0);
    assert "ARGUMENT"[0] == 'A' && "ARGUE"[0] == 'A' && "ARGUABLE"[0] == 'A' && "ARGUABLY"[0] == 'A';
  }
  lemma PatienceLacksX() ensures LacksXSharesInitial(Patience) {
    assert LacksXFrom("patient", 0) && LacksXFrom("PATIENCE", 0) && LacksXFrom("PATIENT", 0) && LacksXFrom("IMPATIENT", 0) && LacksXFrom("IMPATIENTLY", 0);
    assert "PATIENCE"[0] == 'P' && "PATIENT"[0] == 'P' && "IMPATIENT"[2] == 'P' && "IMPATIENTLY"[2] == 'P';
  }
  lemma ImpossibilityLacksX() ensures LacksXSharesInitial(Impossibility) {
    assert LacksXFrom("possible", 0) && LacksXFrom("IMPOSSIBILITY", 0) && LacksXFrom("POSSIBLY", 0) && LacksXFrom("IMPOSSIBLE", 0) && LacksXFrom("IMPOSSIBLY", 0);
    assert "IMPOSSIBILITY"[2] == 'P' && "POSSIBLY"[0] == 'P' && "IMPOSSIBLE"[2] == 'P' && "IMPOSSIBLY"[2] == 'P';
  }
  lemma DisagreementLacksX() ensures LacksXSharesInitial(Disagreement) {
    assert LacksXFrom("agree", 0) && LacksXFrom("DISAGREEMENT", 0) && LacksXFrom("DISAGREE", 0) && LacksXFrom("DISAGREEABLE", 0) && LacksXFrom("DISAGREEABLY", 0);
    assert "DISAGREEMENT"[3] == 'A' && "DISAGREE"[3] == 'A' && "DISAGREEABLE"[3] == 'A' && "DISAGREEABLY"[3] == 'A';
  }
  lemma UnhappinessLacksX() ensures LacksXSharesInitial(Unhappiness) {
    assert LacksXFrom("happy", 0) && LacksXFrom("UNHAPPINESS", 0) && LacksXFrom("UNHAPPY", 0) && LacksXFrom("UNHAPPILY", 0);
    assert "UNHAPPINESS"[2] == 'H' && "UNHAPPY"[2] == 'H' && "UNHAPPILY"[2] == 'H';
  }
  lemma IllegalityLacksX() ensures LacksXSharesInitial(Illegality) {
    assert LacksXFrom("legal", 0) && LacksXFrom("ILLEGALITY", 0) && LacksXFrom("ILLEGALIZE", 0) && LacksXFrom("ILLEGAL", 0) && LacksXFrom("ILLEGALLY", 0);
    assert "ILLEGALITY"[1] == 'L' && "ILLEGALIZE"[1] == 'L' && "ILLEGAL"[1] == 'L' && "ILLEGALLY"[1] == 'L';
  }
  lemma IrregularityLacksX() ensures LacksXSharesInitial(Irregularity) {
    assert LacksXFrom("regular", 0) && LacksXFrom("IRREGULARITY", 0) && LacksXFrom("IRREGULARIZE", 0) && LacksXFrom("IRREGULAR", 0) && LacksXFrom("IRREGULARLY", 0);
    assert "IRREGULARITY"[1] == 'R' && "IRREGULARIZE"[1] == 'R' && "IRREGULAR"[1] == 'R' && "IRREGULARLY"[1] == 'R';
  }
  lemma DiscomfortLacksX() ensures LacksXSharesInitial(Discomfort) {
    assert LacksXFrom("comfort", 0) && LacksXFrom("DISCOMFORT", 0) && LacksXFrom("UNCOMFORTABLE", 0) && LacksXFrom("UNCOMFORTABLY", 0);
    assert "DISCOMFORT"[3] == 'C' && "UNCOMFORTABLE"[2] == 'C' && "UNCOMFORTABLY"[2] == 'C';
  }
  lemma InjusticeLacksX() ensures LacksXSharesInitial(Injustice) {
    assert LacksXFrom("just", 0) && LacksXFrom("INJUSTICE", 0) && LacksXFrom("UNJUST", 0) && LacksXFrom("UNJUSTLY", 0);
    assert "INJUSTICE"[2] == 'J' && "UNJUST"[2] == 'J' && "UNJUSTLY"[2] == 'J';
  }

  lemma Level1LacksX(i: nat)
    requires i < |Level1Families|
    ensures LacksXSharesInitial(Level1Families[i])
  {
    if i == 0 { BeautyLacksX(); }
    else if i == 1 { InformationLacksX(); }
    else if i == 2 { CompetitionLacksX(); }
    else if i == 3 { SuccessLacksX(); }
    else if i == 4 { DecisionLacksX(); }
    else if i == 5 { ProtectionLacksX(); }
    else if i == 6 { EducationLacksX(); }
    else { CreationLacksX(); }
  }

  lemma Level2LacksX(i: nat)
    requires i < |Level2Families|
    ensures LacksXSharesInitial(Level2Families[i])
  {
    if i == 0 { ApplicationLacksX(); }
    else if i == 1 { StrengthLacksX(); }
    else if i == 2 { DepthLacksX(); }
    else if i == 3 { ManagementLacksX(); }
    else if i == 4 { KnowledgeLacksX(); }
    else if i == 5 { WidthLacksX(); }
    else if i == 6 { LengthLacksX(); }
    else { ArgumentLacksX(); }
  }

  lemma Level3LacksX(i: nat)
    requires i < |Level3Families|
    ensures LacksXSharesInitial(Level3Families[i])
  {
    if i == 0 { PatienceLacksX(); }
    else if i == 1 { ImpossibilityLacksX(); }
    else if i == 2 { DisagreementLacksX(); }
    else if i == 3 { UnhappinessLacksX(); }
    else if i == 4 { IllegalityLacksX(); }
    else if i == 5 { IrregularityLacksX(); }
    else if i == 6 { DiscomfortLacksX(); }
    else { InjusticeLacksX(); }
  }

  /** Every catalog record lacks `X` and shares its root's initial with every form. */
  lemma CatalogLacksX(t: Tier, i: nat)
    requires i < |Families(t)|
    ensures LacksXSharesInitial(Families(t)[i])
  {
    match t
    case Level1 => Level1LacksX(i);
    case Level2 => Level2LacksX(i);
    case Level3 => Level3LacksX(i);
  }

  /**
   * "xyz123" is unrelated to such a record: it has the X the record lacks,
   * and lacks the initial the root and every form share.
   */
  lemma NonsenseUnrelatedTo(f: Family)
    requires LacksXSharesInitial(f)
    ensures !IsRelatedWord("xyz123", f)
  {
    var d := UpperChar(f.root[0]);
    NonsenseNormalized();
    assert "XYZ123"[0] == 'X';
    assert d !in "XYZ123" by {
      forall i | 0 <= i < |"XYZ123"| ensures "XYZ123"[i] != d {
        assert "XYZ123"[i] >= 'X' || "XYZ123"[i] < 'A';
      }
    }
    LacksXFromMeans(f.root, 0);
    UpperContainsCapital(f.root, 'X');
    assert Upper(f.root)[0] == d;
    forall s: Slot
      ensures 'X' !in Upper(Form(f, s)) && d in Upper(Form(f, s))
    {
      LacksXFromMeans(Form(f, s), 0);
      UpperContainsCapital(Form(f, s), 'X');
      UpperContainsCapital(Form(f, s), d);
    }
    UnrelatedByLetters("xyz123", f, 'X', d);
  }

  /** "xyz123" is unrelated to every record of the catalog. */
  lemma NonsenseUnrelated(t: Tier, i: nat)
    requires i < |Families(t)|
    ensures !IsRelatedWord("xyz123", Families(t)[i])
  {
    CatalogLacksX(t, i);
    NonsenseUnrelatedTo(Families(t)[i]);
  }

  /** So it is graded incorrect in every column of every record, on every tier. */
  lemma NonsenseIncorrect(t: Tier, i: nat, s: Slot, tier: Tier)
    requires i < |Families(t)|
    ensures Classify("xyz123", Families(t)[i], s, tier) == Incorrect
  {
    NonsenseUnrelated(t, i);
    IncorrectIff("xyz123", Families(t)[i], s, tier);
  }

  // ---------------------------------------------------------------------
  // Hints

  /** Columns listed in `PART_KEYS` order, each at most once. */
  predicate InPartOrder(keys: seq<Slot>) {
    forall j, k :: 0 <= j < k < |keys| ==> Rank(keys[j]) < Rank(keys[k])
  }

  /** `r` is `keys` with some entries left out: what is kept stays in the order of `keys`. */
  predicate Subsequence(r: seq<Slot>, keys: seq<Slot>) {
    r == [] || (keys != [] && ((r[0] == keys[0] && Subsequence(r[1..], keys[1..])) || Subsequence(r, keys[1..])))
  }

  /** The columns of `keys` whose answer is still wrong, in the order of `keys`. */
  function IncompleteAmong(inputs: map<Slot, string>, f: Family, keys: seq<Slot>): (r: seq<Slot>)
    requires Total(inputs)
    ensures forall s :: s in r <==> s in keys && !SlotCorrect(inputs[s], f, s)
    ensures |r| <= |keys|
    ensures Subsequence(r, keys)
    ensures InPartOrder(keys) ==> InPartOrder(r)
  {
    if keys == [] then []
    else
      var rest := IncompleteAmong(inputs, f, keys[1..]);
      if SlotCorrect(inputs[keys[0]], f, keys[0]) then rest
      else
        PrependInPartOrder(keys, rest);
        [keys[0]] + rest
  }

  /** Putting the first of `keys` before a list drawn from the rest of `keys` keeps the order. */
  lemma PrependInPartOrder(keys: seq<Slot>, rest: seq<Slot>)
    requires keys != []
    requires forall s :: s in rest ==> s in keys[1..]
    ensures InPartOrder(keys) && InPartOrder(rest) ==> InPartOrder([keys[0]] + rest)
  {
    if InPartOrder(keys) && InPartOrder(rest) {
      forall j | 0 <= j < |rest|
        ensures Rank(keys[0]) < Rank(rest[j])
      {
        assert rest[j] in keys[1..];
        var i :| 0 <= i < |keys| - 1 && keys[1..][i] == rest[j];
        assert keys[i + 1] == rest[j];
      }
    }
  }

  /**
   * `PART_KEYS.filter(key => answer !== form)`: the columns still wrong, in
   * `PART_KEYS` order, each once.
   */
  function IncompleteSlots(inputs: map<Slot, string>, f: Family): (r: seq<Slot>)
    requires Total(inputs)
    ensures forall s :: s in r <==> !SlotCorrect(inputs[s], f, s)
    ensures InPartOrder(r) && Subsequence(r, PartKeys)
    ensures r == [] <==> AllCorrect(inputs, f)
  {
    PartKeysComplete();
    PartKeysInOrder();
    var r := IncompleteAmong(inputs, f, PartKeys);
    assert r != [] ==> r[0] in r;
    r
  }

  lemma PartKeysInOrder()
    ensures InPartOrder(PartKeys)
  {
  }

  /**
   * Two lists in `PART_KEYS` order with the same members are equal: a list
   * in that order is fixed by which columns it holds.
   */
  lemma {:induction false} PartOrderUnique(a: seq<Slot>, b: seq<Slot>)
    requires InPartOrder(a) && InPartOrder(b)
    requires forall s :: s in a <==> s in b
    ensures a == b
    decreases |a|
  {
    assert a != [] ==> a[0] in b;
    assert b != [] ==> b[0] in a;
    if a != [] && b != [] {
      assert Rank(a[0]) == Rank(b[0]);
      assert a[0] == b[0];
      TailMembers(a);
      TailMembers(b);
      PartOrderUnique(a[1..], b[1..]);
      assert a == [a[0]] + a[1..] && b == [b[0]] + b[1..];
    }
  }

  /** In a list in `PART_KEYS` order, the tail holds exactly the members other than the head. */
  lemma TailMembers(a: seq<Slot>)
    requires a != [] && InPartOrder(a)
    ensures forall s :: s in a[1..] <==> s in a && s != a[0]
  {
    forall s ensures s in a[1..] <==> s in a && s != a[0] {
      if s in a[1..] {
        var j :| 0 <= j < |a| - 1 && a[1..][j] == s;
        assert a[j + 1] == s;
        assert Rank(a[0]) < Rank(a[j + 1]);
      }
      if s in a && s != a[0] {
        var i :| 0 <= i < |a| && a[i] == s;
        assert a[1..][i - 1] == s;
      }
    }
  }

  /**
   * The filter is the one list, in `PART_KEYS` order, of exactly the columns
   * still wrong.
   */
  lemma IncompleteSlotsUnique(inputs: map<Slot, string>, f: Family, cols: seq<Slot>)
    requires Total(inputs)
    requires InPartOrder(cols)
    requires forall s :: s in cols <==> !SlotCorrect(inputs[s], f, s)
    ensures cols == IncompleteSlots(inputs, f)
  {
    PartOrderUnique(cols, IncompleteSlots(inputs, f));
  }

  /** The positions `0 <= i < n` that `revealed` does not list, in increasing order. */
  function AvailablePositions(n: nat, revealed: seq<int>): (r: seq<nat>)
    ensures forall i: int :: i in r <==> 0 <= i < n && i !in revealed
    ensures forall j, k :: 0 <= j < k < |r| ==> r[j] < r[k]
  {
    if n == 0 then []
    else
      var prior := AvailablePositions(n - 1, revealed);
      assert forall j :: 0 <= j < |prior| ==> prior[j] < n - 1 by {
        forall j | 0 <= j < |prior| ensures prior[j] < n - 1 {
          assert prior[j] in prior;
        }
      }
      prior + if n - 1 in revealed then [] else [n - 1]
  }

  /** One more position either is revealed or is appended to the list. */
  lemma AvailableStep(i: nat, revealed: seq<int>)
    ensures AvailablePositions(i + 1, revealed) ==
      AvailablePositions(i, revealed) + if i in revealed then [] else [i]
  {
  }

  /** The loop both boards use to list the positions not yet revealed. */
  method CollectAvailable(n: nat, revealed: seq<int>) returns (positions: seq<nat>)
    ensures positions == AvailablePositions(n, revealed)
  {
    positions := [];
    var i := 0;
    while i < n
      invariant i <= n
      invariant positions == AvailablePositions(i, revealed)
    {
      AvailableStep(i, revealed);
      if i !in revealed {
        positions := positions + [i];
      }
      i := i + 1;
    }
  }

  /** A revealed list for a form of length `n`: in bounds and without repeats. */
  predicate RevealedOk(revealed: seq<int>, n: nat) {
    && (forall j :: 0 <= j < |revealed| ==> 0 <= revealed[j] < n)
    && (forall j, k :: 0 <= j < k < |revealed| ==> revealed[j] != revealed[k])
  }

  /** The caller's random choices are indices into the lists they pick from. */
  predicate HintPicksInRange(inputs: map<Slot, string>, f: Family, revealed: map<Slot, seq<int>>,
                             slotPick: nat, posPick: nat)
    requires Total(inputs) && Total(revealed)
  {
    var incomplete := IncompleteSlots(inputs, f);
    incomplete != [] ==>
      && slotPick < |incomplete|
      && var field := incomplete[slotPick];
         var available := AvailablePositions(|Upper(Form(f, field))|, revealed[field]);
         available != [] ==> posPick < |available|
  }

  /**
   * The hint choice: a column still wrong (picked by `slotPick`) and a
   * position of its form not yet revealed (picked by `posPick`), or none.
   */
  function NextHint(inputs: map<Slot, string>, f: Family, revealed: map<Slot, seq<int>>,
                    slotPick: nat, posPick: nat): Option<(Slot, nat)>
    requires Total(inputs) && Total(revealed)
    requires HintPicksInRange(inputs, f, revealed, slotPick, posPick)
  {
    var incomplete := IncompleteSlots(inputs, f);
    if incomplete == [] then None
    else
      var field := incomplete[slotPick];
      var available := AvailablePositions(|Upper(Form(f, field))|, revealed[field]);
      if available == [] then None else Some((field, available[posPick]))
  }

  /** Appending the chosen position to the chosen column's list. */
  function ApplyHint(revealed: map<Slot, seq<int>>, hint: Option<(Slot, nat)>): map<Slot, seq<int>>
    requires Total(revealed)
  {
    match hint
    case None => revealed
    case Some((s, p)) => revealed[s := revealed[s] + [p]]
  }

  /**
   * The steps both boards take to pick a hint: the columns still wrong, the
   * one `slotPick` names, the positions of its upper-cased form not yet
   * revealed, and the one `posPick` names.
   */
  method ChooseHint(inputs: map<Slot, string>, f: Family, revealed: map<Slot, seq<int>>,
                    slotPick: nat, posPick: nat) returns (hint: Option<(Slot, nat)>)
    requires Total(inputs) && Total(revealed)
    requires HintPicksInRange(inputs, f, revealed, slotPick, posPick)
    ensures hint == NextHint(inputs, f, revealed, slotPick, posPick)
  {
    var incompleteFields := IncompleteSlots(inputs, f);
    if |incompleteFields| == 0 {
      return None;
    }
    var hintField := incompleteFields[slotPick];
    var correctAnswer := Upper(Form(f, hintField));
    var availablePositions := CollectAvailable(|correctAnswer|, revealed[hintField]);
    if |availablePositions| == 0 {
      return None;
    }
    hint := Some((hintField, availablePositions[posPick]));
  }

  /**
   * No hint is given exactly when every column is correct, or when the
   * chosen column has every position of its form revealed already (even if
   * other columns still have hidden letters).
   */
  lemma NextHintNoneIff(inputs: map<Slot, string>, f: Family, revealed: map<Slot, seq<int>>,
                        slotPick: nat, posPick: nat)
    requires Total(inputs) && Total(revealed)
    requires HintPicksInRange(inputs, f, revealed, slotPick, posPick)
    ensures NextHint(inputs, f, revealed, slotPick, posPick).None? <==>
      AllCorrect(inputs, f) ||
      var field := IncompleteSlots(inputs, f)[slotPick];
      forall i :: 0 <= i < |Form(f, field)| ==> i in revealed[field]
  {
    var incomplete := IncompleteSlots(inputs, f);
    if incomplete != [] {
      var field := incomplete[slotPick];
      AvailableEmptyIff(|Upper(Form(f, field))|, revealed[field]);
    }
  }

  /** No position is available exactly when every position below `n` is revealed. */
  lemma AvailableEmptyIff(n: nat, revealed: seq<int>)
    ensures AvailablePositions(n, revealed) == [] <==> forall i :: 0 <= i < n ==> i in revealed
  {
    var available := AvailablePositions(n, revealed);
    if available != [] {
      assert available[0] in available;
    } else {
      forall i | 0 <= i < n ensures i in revealed {
        assert i !in available;
      }
    }
  }

  /**
   * A hint, when given, is a position inside the form of a column that is
   * still wrong, and one that column has not had revealed yet.
   */
  lemma NextHintFresh(inputs: map<Slot, string>, f: Family, revealed: map<Slot, seq<int>>,
                      slotPick: nat, posPick: nat)
    requires Total(inputs) && Total(revealed)
    requires HintPicksInRange(inputs, f, revealed, slotPick, posPick)
    ensures match NextHint(inputs, f, revealed, slotPick, posPick)
      case None => true
      case Some((s, p)) => !SlotCorrect(inputs[s], f, s) && p < |Form(f, s)| && p !in revealed[s]
  {
    var incomplete := IncompleteSlots(inputs, f);
    if incomplete != [] {
      var field := incomplete[slotPick];
      assert field in incomplete;
      var available := AvailablePositions(|Upper(Form(f, field))|, revealed[field]);
      if available != [] {
        assert available[posPick] in available;
      }
    }
  }

  /** Applying a hint keeps every revealed list in bounds and free of repeats. */
  lemma ApplyHintKeepsRevealedOk(inputs: map<Slot, string>, f: Family, revealed: map<Slot, seq<int>>,
                                 slotPick: nat, posPick: nat)
    requires Total(inputs) && Total(revealed)
    requires HintPicksInRange(inputs, f, revealed, slotPick, posPick)
    requires forall s: Slot :: RevealedOk(revealed[s], |Form(f, s)|)
    ensures var r := ApplyHint(revealed, NextHint(inputs, f, revealed, slotPick, posPick));
      Total(r) && forall s: Slot :: RevealedOk(r[s], |Form(f, s)|)
  {
    var hint := NextHint(inputs, f, revealed, slotPick, posPick);
    NextHintFresh(inputs, f, revealed, slotPick, posPick);
    if hint.Some? {
      var (field, p) := hint.value;
      AppendKeepsRevealedOk(revealed[field], |Form(f, field)|, p);
    }
  }

  /** Appending a fresh in-bounds position keeps a revealed list in bounds and free of repeats. */
  lemma AppendKeepsRevealedOk(revealed: seq<int>, n: nat, p: nat)
    requires RevealedOk(revealed, n)
    requires p < n && p !in revealed
    ensures RevealedOk(revealed + [p], n)
  {
  }

  /**
   * A revealed list that is in bounds and free of repeats and as long as the
   * form covers every position: the column has nothing left to reveal. So a
   * column receives at most as many hints as its form has letters.
   */
  lemma {:induction false} FullyRevealed(revealed: seq<int>, n: nat)
    requires RevealedOk(revealed, n)
    ensures |revealed| <= n
    ensures |revealed| == n ==> AvailablePositions(n, revealed) == []
  {
    var all := Range(n);
    var listed := set x | x in revealed;
    DistinctCount(revealed);
    SubsetSize(listed, all);
    if |revealed| == n && AvailablePositions(n, revealed) != [] {
      var p := AvailablePositions(n, revealed)[0];
      assert p in AvailablePositions(n, revealed);
      SubsetSize(listed, all - {p});
      assert false;
    }
  }

  /** The positions `0 <= i < n` as a set of `n` elements. */
  function Range(n: nat): (r: set<int>)
    ensures forall i :: i in r <==> 0 <= i < n
    ensures |r| == n
  {
    if n == 0 then {} else Range(n - 1) + {n - 1}
  }

  lemma SubsetSize(a: set<int>, b: set<int>)
    requires a <= b
    ensures |a| <= |b|
  {
    assert b == a + (b - a);
  }

  /** A list without repeats has as many distinct elements as entries. */
  lemma {:induction false} DistinctCount(revealed: seq<int>)
    requires forall j, k :: 0 <= j < k < |revealed| ==> revealed[j] != revealed[k]
    ensures |set x | x in revealed| == |revealed|
  {
    if revealed != [] {
      var rest := revealed[..|revealed| - 1];
      DistinctCount(rest);
      var last := revealed[|revealed| - 1];
      assert revealed == rest + [last];
      assert (set x | x in revealed) == (set x | x in rest) + {last};
      assert last !in rest;
    }
  }
}
