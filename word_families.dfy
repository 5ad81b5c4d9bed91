/**
 * The word-family catalog and the loose relatedness test the game grades
 * wrong answers with (data/wordFamilies.js).
 */
module WordFamilies {
  import opened Text
  import opened Optional

  /** The four columns of the board, in the order `PART_KEYS` lists them. */
  datatype Slot = Noun | Verb | Adjective | Adverb

  const PartKeys: seq<Slot> := [Noun, Verb, Adjective, Adverb]

  /** The position of a column in `PART_KEYS`. */
  function Rank(s: Slot): (r: nat)
    ensures r < |PartKeys| && PartKeys[r] == s
  {
    match s
    case Noun => 0
    case Verb => 1
    case Adjective => 2
    case Adverb => 3
  }

  /** `PART_KEYS` lists every column, each once. */
  lemma PartKeysComplete()
    ensures forall s: Slot :: s in PartKeys
    ensures forall j, k :: 0 <= j < k < |PartKeys| ==> PartKeys[j] != PartKeys[k]
  {
    forall s: Slot ensures s in PartKeys {
      match s
      case Noun => assert PartKeys[0] == s;
      case Verb => assert PartKeys[1] == s;
      case Adjective => assert PartKeys[2] == s;
      case Adverb => assert PartKeys[3] == s;
    }
  }

  /** The three difficulty tiers `level1`, `level2`, `level3`. */
  datatype Tier = Level1 | Level2 | Level3

  /**
   * One record of the catalog: the four canonical forms, the root shown to
   * the player, an optional note and, on the hardest tier, the column whose
   * form carries a negative prefix.
   */
  datatype Family = Family(
    noun: string,
    verb: string,
    adjective: string,
    adverb: string,
    root: string,
    note: Option<string>,
    requiresPrefix: Option<Slot>)

  /** `family[key]`: the canonical form of one column. */
  function Form(f: Family, s: Slot): string {
    match s
    case Noun => f.noun
    case Verb => f.verb
    case Adjective => f.adjective
    case Adverb => f.adverb
  }

  const Beauty: Family :=
    Family("BEAUTY", "BEAUTIFY", "BEAUTIFUL", "BEAUTIFULLY", "beauty", None, None)

  const Information: Family :=
    Family("INFORMATION", "INFORM", "INFORMATIVE", "INFORMATIVELY", "inform", None, None)

  const Competition: Family :=
    Family("COMPETITION", "COMPETE", "COMPETITIVE", "COMPETITIVELY", "compete", None, None)

  const Success: Family :=
    Family("SUCCESS", "SUCCEED", "SUCCESSFUL", "SUCCESSFULLY", "succeed", None, None)

  const Decision: Family :=
    Family("DECISION", "DECIDE", "DECISIVE", "DECISIVELY", "decide", None, None)

  const Protection: Family :=
    Family("PROTECTION", "PROTECT", "PROTECTIVE", "PROTECTIVELY", "protect", None, None)

  const Education: Family :=
    Family("EDUCATION", "EDUCATE", "EDUCATIONAL", "EDUCATIONALLY", "educate", None, None)

  const Creation: Family :=
    Family("CREATION", "CREATE", "CREATIVE", "CREATIVELY", "create", None, None)

  const Level1Families: seq<Family> := [Beauty, Information, Competition, Success, Decision, Protection, Education, Creation]

  const Application: Family :=
    Family("APPLICATION", "APPLY", "APPLICABLE", "APPLICABLY", "apply", Some("Change Y to I"), None)

  const Strength: Family :=
    Family("STRENGTH", "STRENGTHEN", "STRONG", "STRONGLY", "strong", Some("Internal change"), None)

  const Depth: Family :=
    Family("DEPTH", "DEEPEN", "DEEP", "DEEPLY", "deep", Some("Adjective → Verb"), None)

  const Management: Family :=
    Family("MANAGEMENT", "MANAGE", "MANAGEABLE", "MANAGEABLY", "manage", Some("Multiple forms possible"), None)

  const Knowledge: Family :=
    Family("KNOWLEDGE", "KNOW", "KNOWLEDGEABLE", "KNOWLEDGEABLY", "know", Some("Irregular form"), None)

  const Width: Family :=
    Family("WIDTH", "WIDEN", "WIDE", "WIDELY", "wide", Some("Internal change"), None)

  const Length: Family :=
    Family("LENGTH", "LENGTHEN", "LONG", "LENGTHILY", "long", Some("Irregular form"), None)

  const Argument: Family :=
    Family("ARGUMENT", "ARGUE", "ARGUABLE", "ARGUABLY", "argue", Some("Drop E"), None)

  const Level2Families: seq<Family> := [Application, Strength, Depth, Management, Knowledge, Width, Length, Argument]

  const Patience: Family :=
    Family("PATIENCE", "PATIENT", "IMPATIENT", "IMPATIENTLY", "patient", Some("Requires negative prefix"), Some(Adjective))

  const Impossibility: Family :=
    Family("IMPOSSIBILITY", "POSSIBLY", "IMPOSSIBLE", "IMPOSSIBLY", "possible", Some("Requires negative prefix"), Some(Adjective))

  const Disagreement: Family :=
    Family("DISAGREEMENT", "DISAGREE", "DISAGREEABLE", "DISAGREEABLY", "agree", Some("Requires negative prefix"), Some(Verb))

  const Unhappiness: Family :=
    Family("UNHAPPINESS", "UNHAPPY", "UNHAPPY", "UNHAPPILY", "happy", Some("Requires negative prefix"), Some(Adjective))

  const Illegality: Family :=
    Family("ILLEGALITY", "ILLEGALIZE", "ILLEGAL", "ILLEGALLY", "legal", Some("Requires negative prefix"), Some(Adjective))

  const Irregularity: Family :=
    Family("IRREGULARITY", "IRREGULARIZE", "IRREGULAR", "IRREGULARLY", "regular", Some("Requires negative prefix"), Some(Adjective))

  const Discomfort: Family :=
    Family("DISCOMFORT", "DISCOMFORT", "UNCOMFORTABLE", "UNCOMFORTABLY", "comfort", Some("Requires negative prefix"), Some(Adjective))

  const Injustice: Family :=
    Family("INJUSTICE", "INJUSTICE", "UNJUST", "UNJUSTLY", "just", Some("Requires negative prefix"), Some(Adjective))

  const Level3Families: seq<Family> := [Patience, Impossibility, Disagreement, Unhappiness, Illegality, Irregularity, Discomfort, Injustice]

  /** `WORD_FAMILIES[tier]`. */
  function Families(t: Tier): seq<Family> {
    match t
    case Level1 => Level1Families
    case Level2 => Level2Families
    case Level3 => Level3Families
  }

  /** The result of `getAllDerivations`: one list of accepted forms per column. */
  datatype Derivations = Derivations(
    nouns: seq<string>,
    verbs: seq<string>,
    adjectives: seq<string>,
    adverbs: seq<string>)

  function GetAllDerivations(f: Family): Derivations {
    Derivations([f.noun], [f.verb], [f.adjective], [f.adverb])
  }

  /** The column a list of `getAllDerivations` belongs to. */
  function DerivationsOf(d: Derivations, s: Slot): seq<string> {
    match s
    case Noun => d.nouns
    case Verb => d.verbs
    case Adjective => d.adjectives
    case Adverb => d.adverbs
  }

  // ---------------------------------------------------------------------
  // isRelatedWord

  /** The root test: the word contains the root, or the root contains the word's first `|root|` letters. */
  predicate RootTest(word: string, root: string) {
    Contains(word, root) || Contains(root, Take(word, |root|))
  }

  /** The test against one upper-cased family form `fw`. */
  predicate FormTest(word: string, fw: string) {
    word == fw || Contains(fw, word) || Contains(word, Take(fw, Min(|word|, |fw|)))
  }

  function Min(a: nat, b: nat): nat {
    if a <= b then a else b
  }

  /** `[noun, verb, adjective, adverb].map(w => w.toUpperCase())`. */
  function FamilyWords(f: Family): seq<string> {
    [Upper(f.noun), Upper(f.verb), Upper(f.adjective), Upper(f.adverb)]
  }

  /** `isRelatedWord(word, family)`, as written. */
  predicate IsRelatedWord(word: string, f: Family) {
    var normalizedWord := Trim(Upper(word));
    var root := Upper(f.root);
    RootTest(normalizedWord, root) ||
    exists fw :: fw in FamilyWords(f) && FormTest(normalizedWord, fw)
  }

  /**
   * What the test amounts to: the normalised word and the upper-cased root,
   * or one upper-cased form, are substrings one of the other.
   */
  predicate SubstringRelated(word: string, f: Family) {
    var w := Trim(Upper(word));
    Contains(w, Upper(f.root)) || Contains(Upper(f.root), w) ||
    exists s: Slot :: Contains(Upper(Form(f, s)), w) || Contains(w, Upper(Form(f, s)))
  }

  /** The root test holds exactly when word and root are substrings one of the other. */
  lemma RootTestIff(word: string, root: string)
    ensures RootTest(word, root) <==> Contains(word, root) || Contains(root, word)
  {
    if |word| <= |root| {
      assert Take(word, |root|) == word;
    } else {
      var p := Take(word, |root|);
      if Contains(root, p) {
        ContainsSameLength(root, p);
        PrefixContained(root, word);
      }
      if Contains(root, word) {
        ContainsShorter(root, word);
      }
    }
  }

  /**
   * The third disjunct of the form test holds exactly when the word is a
   * prefix of the form or contains the form.
   */
  lemma ThirdDisjunctIff(word: string, fw: string)
    ensures Contains(word, Take(fw, Min(|word|, |fw|))) <==> IsPrefix(word, fw) || Contains(word, fw)
  {
    var p := Take(fw, Min(|word|, |fw|));
    if |word| <= |fw| {
      if Contains(word, p) {
        ContainsSameLength(word, p);
      }
      if IsPrefix(word, fw) {
        ContainsSelf(word);
      }
      if Contains(word, fw) {
        ContainsShorter(word, fw);
        ContainsSameLength(word, fw);
        ContainsSelf(word);
      }
    } else {
      assert p == fw;
    }
  }

  /** The form test holds exactly when word and form are substrings one of the other. */
  lemma FormTestIff(word: string, fw: string)
    ensures FormTest(word, fw) <==> Contains(fw, word) || Contains(word, fw)
  {
    ThirdDisjunctIff(word, fw);
    if word == fw {
      ContainsSelf(fw);
    }
    if IsPrefix(word, fw) {
      PrefixContained(word, fw);
    }
  }

  /** The form tests, for an already normalised word `w`, as a substring relation. */
  lemma FormTestsIff(w: string, f: Family)
    ensures (exists fw :: fw in FamilyWords(f) && FormTest(w, fw)) <==>
      exists s: Slot :: Contains(Upper(Form(f, s)), w) || Contains(w, Upper(Form(f, s)))
  {
    if fw :| fw in FamilyWords(f) && FormTest(w, fw) {
      FormTestIff(w, fw);
      var s: Slot :=
        if fw == Upper(f.noun) then Noun
        else if fw == Upper(f.verb) then Verb
        else if fw == Upper(f.adjective) then Adjective
        else Adverb;
      assert fw == Upper(Form(f, s));
    }
    if s: Slot :| Contains(Upper(Form(f, s)), w) || Contains(w, Upper(Form(f, s))) {
      var fw := Upper(Form(f, s));
      assert fw in FamilyWords(f);
      FormTestIff(w, fw);
    }
  }

  /** `isRelatedWord` is the substring relation between the word and the family's root and forms. */
  lemma IsRelatedWordIff(word: string, f: Family)
    ensures IsRelatedWord(word, f) <==> SubstringRelated(word, f)
  {
    var w := Trim(Upper(word));
    RootTestIff(w, Upper(f.root));
    FormTestsIff(w, f);
  }

  /**
   * Only the trimmed, upper-cased word matters, and the family is only
   * looked at through its upper-cased root and forms.
   */
  lemma IsRelatedWordNormalized(word: string, word': string, f: Family, f': Family)
    requires Upper(Trim(word)) == Upper(Trim(word'))
    requires Upper(f.root) == Upper(f'.root)
    requires forall s: Slot :: Upper(Form(f, s)) == Upper(Form(f', s))
    ensures IsRelatedWord(word, f) == IsRelatedWord(word', f')
  {
    UpperTrim(word);
    UpperTrim(word');
    assert FamilyWords(f) == FamilyWords(f') by {
      assert Upper(Form(f, Noun)) == Upper(Form(f', Noun));
      assert Upper(Form(f, Verb)) == Upper(Form(f', Verb));
      assert Upper(Form(f, Adjective)) == Upper(Form(f', Adjective));
      assert Upper(Form(f, Adverb)) == Upper(Form(f', Adverb));
    }
  }

  /** A word that contains the root (after trimming, ignoring case) is related. */
  lemma ContainsRootRelated(word: string, f: Family)
    requires Contains(Upper(Trim(word)), Upper(f.root))
    ensures IsRelatedWord(word, f)
  {
    UpperTrim(word);
    RootTestIff(Trim(Upper(word)), Upper(f.root));
  }

  /** A word that is a substring of the root (after trimming, ignoring case) is related. */
  lemma SubstringOfRootRelated(word: string, f: Family)
    requires Contains(Upper(f.root), Upper(Trim(word)))
    ensures IsRelatedWord(word, f)
  {
    UpperTrim(word);
    RootTestIff(Trim(Upper(word)), Upper(f.root));
  }

  /** The empty word is a substring of every root, so it is related to every family. */
  lemma EmptyWordRelated(f: Family)
    ensures IsRelatedWord("", f)
  {
    ContainsEmpty(Upper(f.root));
    SubstringOfRootRelated("", f);
  }

  /** Every family's own root is related to it. */
  lemma RootRelated(f: Family)
    ensures IsRelatedWord(f.root, f)
  {
    TrimShape(f.root);
    ContainsUpper(f.root, Trim(f.root));
    SubstringOfRootRelated(f.root, f);
  }

  /** Every substring of a form (after trimming, ignoring case) is related. */
  lemma SubstringOfFormRelated(word: string, f: Family, s: Slot)
    requires Contains(Upper(Form(f, s)), Upper(Trim(word)))
    ensures IsRelatedWord(word, f)
  {
    UpperTrim(word);
    IsRelatedWordIff(word, f);
  }

  /** A word containing a form (after trimming, ignoring case) is related. */
  lemma ContainsFormRelated(word: string, f: Family, s: Slot)
    requires Contains(Upper(Trim(word)), Upper(Form(f, s)))
    ensures IsRelatedWord(word, f)
  {
    UpperTrim(word);
    IsRelatedWordIff(word, f);
  }

  /** Each of the four forms is related to its family. */
  lemma FormRelated(f: Family, s: Slot)
    ensures IsRelatedWord(Form(f, s), f)
  {
    TrimShape(Form(f, s));
    ContainsUpper(Form(f, s), Trim(Form(f, s)));
    SubstringOfFormRelated(Form(f, s), f, s);
  }

  /**
   * `getAllDerivations` lists exactly the family's form in each column, and
   * every derivation it lists is related to the family.
   */
  lemma DerivationsAreForms(f: Family, s: Slot)
    ensures DerivationsOf(GetAllDerivations(f), s) == [Form(f, s)]
    ensures forall d :: d in DerivationsOf(GetAllDerivations(f), s) ==> IsRelatedWord(d, f)
  {
    FormRelated(f, s);
  }

  // ---------------------------------------------------------------------
  // The catalog's invariants

  /** One of the four forms contains the upper-cased root. */
  predicate RootInSomeForm(f: Family) {
    var r := Upper(f.root);
    Contains(f.noun, r) || Contains(f.verb, r) || Contains(f.adjective, r) || Contains(f.adverb, r)
  }

  /** All four forms are non-empty and, like the root, carry no surrounding whitespace. */
  predicate WellFormed(f: Family) {
    && Trimmed(f.root)
    && forall s: Slot :: Form(f, s) != [] && Trimmed(Form(f, s))
  }

  /** The root, upper-cased to `r`, sits at offset `k` of the form of column `s`. */
  lemma RootAt(f: Family, s: Slot, r: string, k: nat)
    requires Upper(f.root) == r
    requires k <= |Form(f, s)| && IsPrefix(r, Form(f, s)[k..])
    ensures RootInSomeForm(f)
  {
  }

  /**
   * Every tier lists eight records; exactly the hardest tier's records name
   * a prefixed column, and that column is the adjective or the verb.
   */
  lemma TierShape(t: Tier)
    ensures |Families(t)| == 8
    ensures forall f :: f in Families(t) ==> (f.requiresPrefix.Some? <==> t == Level3)
    ensures forall f :: f in Families(t) && f.requiresPrefix.Some? ==>
      f.requiresPrefix.value == Adjective || f.requiresPrefix.value == Verb
  {
    match t
    case Level1 => Level1Unprefixed();
    case Level2 => Level2Unprefixed();
    case Level3 => Level3Prefixed();
  }

  lemma Level1Unprefixed()
    ensures forall f :: f in Level1Families ==> f.requiresPrefix.None?
  {
  }

  lemma Level2Unprefixed()
    ensures forall f :: f in Level2Families ==> f.requiresPrefix.None?
  {
  }

  lemma Level3Prefixed()
    ensures forall f :: f in Level3Families ==>
      f.requiresPrefix == Some(Adjective) || f.requiresPrefix == Some(Verb)
  {
  }

  // One record at a time: the root's position inside one of its forms, and
  // the shape of its strings. (Checking several records in one proof is
  // beyond the solver's budget.)

  lemma BeautyRoot() ensures RootInSomeForm(Beauty) { RootAt(Beauty, Noun, "BEAUTY", 0); }
  lemma BeautyShape() ensures WellFormed(Beauty) { }
  lemma InformationRoot() ensures RootInSomeForm(Information) { RootAt(Information, Verb, "INFORM", 0); }
  lemma InformationShape() ensures WellFormed(Information) { }
  lemma CompetitionRoot() ensures RootInSomeForm(Competition) { RootAt(Competition, Verb, "COMPETE", 0); }
  lemma CompetitionShape() ensures WellFormed(Competition) { }
  lemma SuccessRoot() ensures RootInSomeForm(Success) { RootAt(Success, Verb, "SUCCEED", 0); }
  lemma SuccessShape() ensures WellFormed(Success) { }
  lemma DecisionRoot() ensures RootInSomeForm(Decision) { RootAt(Decision, Verb, "DECIDE", 0); }
  lemma DecisionShape() ensures WellFormed(Decision) { }
  lemma ProtectionRoot() ensures RootInSomeForm(Protection) { RootAt(Protection, Verb, "PROTECT", 0); }
  lemma ProtectionShape() ensures WellFormed(Protection) { }
  lemma EducationRoot() ensures RootInSomeForm(Education) { RootAt(Education, Verb, "EDUCATE", 0); }
  lemma EducationShape() ensures WellFormed(Education) { }
  lemma CreationRoot() ensures RootInSomeForm(Creation) { RootAt(Creation, Verb, "CREATE", 0); }
  lemma CreationShape() ensures WellFormed(Creation) { }

  lemma Level1Roots()
    ensures forall f :: f in Level1Families ==> RootInSomeForm(f)
  {
    BeautyRoot(); InformationRoot(); CompetitionRoot(); SuccessRoot(); DecisionRoot(); ProtectionRoot(); EducationRoot(); CreationRoot();
  }

  lemma Level1Shapes()
    ensures forall f :: f in Level1Families ==> WellFormed(f)
  {
    BeautyShape(); InformationShape(); CompetitionShape(); SuccessShape(); DecisionShape(); ProtectionShape(); EducationShape(); CreationShape();
  }

  lemma ApplicationRoot() ensures RootInSomeForm(Application) { RootAt(Application, Verb, "APPLY", 0); }
  lemma ApplicationShape() ensures WellFormed(Application) { }
  lemma StrengthRoot() ensures RootInSomeForm(Strength) { RootAt(Strength, Adjective, "STRONG", 0); }
  lemma StrengthShape() ensures WellFormed(Strength) { }
  lemma DepthRoot() ensures RootInSomeForm(Depth) { RootAt(Depth, Adjective, "DEEP", 0); }
  lemma DepthShape() ensures WellFormed(Depth) { }
  lemma ManagementRoot() ensures RootInSomeForm(Management) { RootAt(Management, Verb, "MANAGE", 0); }
  lemma ManagementShape() ensures WellFormed(Management) { }
  lemma KnowledgeRoot() ensures RootInSomeForm(Knowledge) { RootAt(Knowledge, Verb, "KNOW", 0); }
  lemma KnowledgeShape() ensures WellFormed(Knowledge) { }
  lemma WidthRoot() ensures RootInSomeForm(Width) { RootAt(Width, Adjective, "WIDE", 0); }
  lemma WidthShape() ensures WellFormed(Width) { }
  lemma LengthRoot() ensures RootInSomeForm(Length) { RootAt(Length, Adjective, "LONG", 0); }
  lemma LengthShape() ensures WellFormed(Length) { }
  lemma ArgumentRoot() ensures RootInSomeForm(Argument) { RootAt(Argument, Verb, "ARGUE", 0); }
  lemma ArgumentShape() ensures WellFormed(Argument) { }

  lemma Level2Roots()
    ensures forall f :: f in Level2Families ==> RootInSomeForm(f)
  {
    ApplicationRoot(); StrengthRoot(); DepthRoot(); ManagementRoot(); KnowledgeRoot(); WidthRoot(); LengthRoot(); ArgumentRoot();
  }

  lemma Level2Shapes()
    ensures forall f :: f in Level2Families ==> WellFormed(f)
  {
    ApplicationShape(); StrengthShape(); DepthShape(); ManagementShape(); KnowledgeShape(); WidthShape(); LengthShape(); ArgumentShape();
  }

  lemma PatienceRoot() ensures RootInSomeForm(Patience) { RootAt(Patience, Verb, "PATIENT", 0); }
  lemma PatienceShape() ensures WellFormed(Patience) { }
  lemma ImpossibilityRoot() ensures RootInSomeForm(Impossibility) { RootAt(Impossibility, Adjective, "POSSIBLE", 2); }
  lemma ImpossibilityShape() ensures WellFormed(Impossibility) { }
  lemma DisagreementRoot() ensures RootInSomeForm(Disagreement) { RootAt(Disagreement, Verb, "AGREE", 3); }
  lemma DisagreementShape() ensures WellFormed(Disagreement) { }
  lemma UnhappinessRoot() ensures RootInSomeForm(Unhappiness) { RootAt(Unhappiness, Adjective, "HAPPY", 2); }
  lemma UnhappinessShape() ensures WellFormed(Unhappiness) { }
  lemma IllegalityRoot() ensures RootInSomeForm(Illegality) { RootAt(Illegality, Adjective, "LEGAL", 2); }
  lemma IllegalityShape() ensures WellFormed(Illegality) { }
  lemma IrregularityRoot() ensures RootInSomeForm(Irregularity) { RootAt(Irregularity, Adjective, "REGULAR", 2); }
  lemma IrregularityShape() ensures WellFormed(Irregularity) { }
  lemma DiscomfortRoot() ensures RootInSomeForm(Discomfort) { RootAt(Discomfort, Noun, "COMFORT", 3); }
  lemma DiscomfortShape() ensures WellFormed(Discomfort) { }
  lemma InjusticeRoot() ensures RootInSomeForm(Injustice) { RootAt(Injustice, Adjective, "JUST", 2); }
  lemma InjusticeShape() ensures WellFormed(Injustice) { }

  lemma Level3Roots()
    ensures forall f :: f in Level3Families ==> RootInSomeForm(f)
  {
    PatienceRoot(); ImpossibilityRoot(); DisagreementRoot(); UnhappinessRoot(); IllegalityRoot(); IrregularityRoot(); DiscomfortRoot(); InjusticeRoot();
  }

  lemma Level3Shapes()
    ensures forall f :: f in Level3Families ==> WellFormed(f)
  {
    PatienceShape(); ImpossibilityShape(); DisagreementShape(); UnhappinessShape(); IllegalityShape(); IrregularityShape(); DiscomfortShape(); InjusticeShape();
  }

  /** In every record the upper-cased root is a substring of one of its forms, and the record is well formed. */
  lemma CatalogChecked(t: Tier)
    ensures forall f :: f in Families(t) ==> RootInSomeForm(f)
    ensures forall f :: f in Families(t) ==> WellFormed(f)
  {
    match t
    case Level1 => Level1Roots(); Level1Shapes();
    case Level2 => Level2Roots(); Level2Shapes();
    case Level3 => Level3Roots(); Level3Shapes();
  }
}
