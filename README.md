# Derivation Dash word families, in Dafny

Derivation Dash is a word-formation game. The player picks a difficulty tier
and is shown the root of a word family, for example `beauty`. They must then
fill four columns with the family's noun, verb, adjective and adverb. "Check"
grades every column:

- green when it is correct;
- yellow when it is a related word in the wrong column or a derivation that is not the main form;
- red when it is incorrect.

The design also names a blue grade for the hardest tier: an answer that
contains the root but lacks the negative prefix. The code never gives it
(see below).

"Hint" reveals one letter of a column that is still wrong. The game has two
front ends, a React Native board and a web board. Both share the catalog
and the relatedness test in `data/wordFamilies.js`.

This project models that core:

- `text.dfy` (module `Text`): the JavaScript string operations the rules use, restricted to ASCII. These are `toUpperCase`, `toLowerCase`, `trim`, `includes` and `substring(0, n)`.
- `word_families.dfy` (module `WordFamilies`): the 24-record catalog, `getAllDerivations` and `isRelatedWord`. It also proves the catalog's invariants record by record.
- `rules.dfy` (module `Rules`): what both boards compute alike. That is the grade of one column, the "all four filled" guard, the win condition, the columns still wrong, and the positions a hint may reveal.
- `hint_mask.dfy` (module `HintMask`): the masked hint text both cells render.
- `mobile_game_board.dfy`, `web_game_board.dfy`: each board as a class.
  - The fields are the React state, and the handlers are methods.
  - Each method's contract states the new state.
  - The class invariant says that every feedback entry is the grade of the input now in its cell, that every revealed list is in bounds without repeats, and that a won round has four correct columns.
  - Each board keeps its own feedback wording.
- `mobile_word_input_cell.dfy`, `web_word_input_cell.dfy`: each cell's colours, hint line, locked text and, on the web, the upper-casing of typed text.
- `render_order.dfy` (module `RenderOrder`): the order in which a board's body declares and reads its first bindings during a render. It shows that the web board's effect reads `startNewRound` before its declaration.

`Math.random()` becomes an index chosen by the caller. Each random pick
(`slotPick`, `posPick`, `pick`) must lie inside the list it picks from,
and a method requires this only on the path where the code reaches the pick.

The hardest tier is meant to flag a missing negative prefix in blue: for
example, `PATIENT` typed into the adjective column of the PATIENCE family.
The model follows the code, which does not do this. In the code,
`isRelatedWord` is tried first. `PATIENT` is that family's verb, so it is graded yellow with
the "different column" message (`Rules.PatientAsAdjective`). More generally,
`Rules.PrefixMissingUnreachable` shows that no input is ever graded
`prefix_missing`. Any answer that passes the prefix test has already passed
the relatedness test.

## Model

| member | source | states |
|---|---|---|
| Text.UpperChar | data/wordFamilies.js:217 | a lower-case ASCII letter becomes the upper-case letter 32 code points below it; any other character is unchanged; whitespace stays whitespace |
| Text.LowerChar | components/GameBoard.js:117 | an upper-case ASCII letter becomes the lower-case letter 32 code points above it; any other character is unchanged |
| Text.Upper | data/wordFamilies.js:217-218 | `toUpperCase` keeps the length and maps every character through `UpperChar` |
| Text.Lower | components/GameBoard.js:117 | `toLowerCase` keeps the length and maps every character through `LowerChar` |
| Text.Trim | data/wordFamilies.js:217 | `trim` never lengthens a string (its shape is in `TrimShape`) |
| Text.Take | data/wordFamilies.js:221 | `substring(0, n)` is the first `min(n, length)` characters, so it is a prefix of the string |
| Text.TrimStartShape | data/wordFamilies.js:217 | dropping leading whitespace leaves a suffix that starts with a non-space, and every dropped character is whitespace |
| Text.TrimEndShape | data/wordFamilies.js:217 | dropping trailing whitespace leaves a prefix that ends with a non-space, and every dropped character is whitespace |
| Text.TrimRemovesOnlySpace | data/wordFamilies.js:217 | the trim is the original with a run of whitespace cut from each end and nothing else changed: it sits at offset `k` of the original, and everything before `k` or after its end is whitespace |
| Text.TrimShape | data/wordFamilies.js:217 | the trim has no whitespace at either end and is a substring of the original |
| Text.TrimFixed | data/wordFamilies.js:217 | a string without surrounding whitespace is its own trim |
| Text.TrimIdempotent | components/GameBoard.js:86 | trimming twice is trimming once |
| Text.UpperTrimStart | data/wordFamilies.js:217 | upper-casing commutes with dropping leading whitespace |
| Text.UpperTrimEnd | data/wordFamilies.js:217 | upper-casing commutes with dropping trailing whitespace |
| Text.UpperTrim | data/wordFamilies.js:217 | `toUpperCase().trim()` (the relatedness test) and `trim().toUpperCase()` (the boards) give the same string |
| Text.UpperIdempotent | src/components/GameBoard.jsx:54 | upper-casing twice is upper-casing once |
| Text.CaseRoundTrip | components/GameBoard.js:117 | lower-casing undoes upper-casing on lower-case letters, and the other way round |
| Text.UpperContainsCapital | data/wordFamilies.js:217 | a capital is in the upper-cased word exactly when the word has it in either case |
| Text.NormalizeIdempotent | data/wordFamilies.js:217 | normalising the boards' answer again inside `isRelatedWord` changes nothing |
| Text.NormalizeOfNormalized | data/wordFamilies.js:217 | normalising the boards' answer gives the same word as normalising the raw input |
| Text.UpperTrimCaseInsensitive | components/GameBoard.js:86 | inputs equal up to case give the same answer |
| Text.ContainsSelf | data/wordFamilies.js:221 | every string `includes` itself |
| Text.ContainsEmpty | data/wordFamilies.js:221 | every string `includes` the empty string |
| Text.PrefixContained | data/wordFamilies.js:221 | a prefix is a substring |
| Text.ContainsShorter | data/wordFamilies.js:221 | a substring is no longer than the string that contains it |
| Text.ContainsSameLength | data/wordFamilies.js:235 | a substring as long as its container is the container |
| Text.ContainsTransitive | data/wordFamilies.js:221 | a substring of a substring is a substring |
| Text.ContainsUpper | data/wordFamilies.js:217-221 | upper-casing both strings keeps `includes` |
| Text.MissingCharNotContained | data/wordFamilies.js:221 | a needle with a character the haystack lacks is not included |
| WordFamilies.PartKeysComplete | src/components/GameBoard.jsx:6 | `PART_KEYS` lists each of the four columns exactly once |
| WordFamilies.Rank | src/components/GameBoard.jsx:6 | each column's index in `PART_KEYS` |
| WordFamilies.Families | data/wordFamilies.js:4-203 | the catalog's three tiers (`TierShape`, `CatalogChecked`) |
| WordFamilies.GetAllDerivations | data/wordFamilies.js:206-213 | one list per column holding its form (`DerivationsAreForms`) |
| WordFamilies.IsRelatedWord | data/wordFamilies.js:216-238 | the relatedness test (`IsRelatedWordIff`, `IsRelatedWordNormalized`) |
| WordFamilies.RootTestIff | data/wordFamilies.js:221 | the root test holds exactly when the normalised word and the root are substrings of each other, in either direction |
| WordFamilies.ThirdDisjunctIff | data/wordFamilies.js:236 | the third disjunct holds exactly when the word is a prefix of the form or contains it |
| WordFamilies.FormTestIff | data/wordFamilies.js:233-237 | the test against one form holds exactly when word and form are substrings of each other |
| WordFamilies.FormTestsIff | data/wordFamilies.js:226-237 | for a normalised word, some upper-cased form passes the form test exactly when word and that form are substrings of each other |
| WordFamilies.IsRelatedWordIff | data/wordFamilies.js:216-238 | `isRelatedWord` holds exactly when the normalised word is a substring of the root or a form, or contains one, in either direction |
| WordFamilies.IsRelatedWordNormalized | data/wordFamilies.js:217-231 | the verdict depends only on the upper-cased trimmed word and the upper-cased root and forms |
| WordFamilies.ContainsRootRelated | data/wordFamilies.js:221-223 | a word containing the root is related |
| WordFamilies.SubstringOfRootRelated | data/wordFamilies.js:221-223 | a word inside the root is related |
| WordFamilies.EmptyWordRelated | data/wordFamilies.js:221 | the empty word is related to every family, because every string includes `""` |
| WordFamilies.RootRelated | data/wordFamilies.js:221 | the root itself is related |
| WordFamilies.SubstringOfFormRelated | data/wordFamilies.js:233-235 | a word inside any form is related |
| WordFamilies.ContainsFormRelated | data/wordFamilies.js:233-236 | a word containing any form is related |
| WordFamilies.FormRelated | data/wordFamilies.js:233-234 | each of the four forms is related to its family |
| WordFamilies.DerivationsAreForms | data/wordFamilies.js:206-213 | `getAllDerivations` lists exactly the one canonical form per column, and each is related |
| WordFamilies.RootAt | data/wordFamilies.js:5-202 | a root found at a given offset of a form witnesses `RootInSomeForm` |
| WordFamilies.TierShape | data/wordFamilies.js:5-202 | every tier has eight records; only the hardest tier's records name a prefixed column, always the adjective or the verb |
| WordFamilies.CatalogChecked | data/wordFamilies.js:5-202 | in every record the upper-cased root occurs in one of the forms; the root and forms carry no surrounding whitespace; the forms are non-empty |
| Rules.EmptyRecordsTotal | components/GameBoard.js:15-20 | the initial `inputs` and `revealedLetters` records have all four keys, holding `''` and `[]` |
| Rules.AnyBlank | components/GameBoard.js:75 | some column is empty after trimming (`FormsWin` shows the forms pass it) |
| Rules.AllCorrect | components/GameBoard.js:90-97 | every column's answer is its form (`AllCorrectIff`) |
| Rules.BelongsToOtherPart | components/GameBoard.js:102-105 | the answer is another column's form (`OtherColumnIff`) |
| Rules.Classify | components/GameBoard.js:85-142 | the grade of one column (`ClassifyCorrectIff`, `IncorrectIff`, `OtherColumnIff`, `DerivationIff`, `PrefixMissingUnreachable`, `ClassifyNormalized`) |
| Rules.ClassifyWrong | components/GameBoard.js:96-142 | the grade of an answer that is not the form (`IncorrectIff`, `OtherColumnIff`, `DerivationIff`, `PrefixMissingUnreachable`) |
| Rules.ClassifyCorrectIff | components/GameBoard.js:86-95 | a column is graded `correct` exactly when its trimmed, upper-cased input equals its upper-cased form |
| Rules.PrefixMissingUnreachable | components/GameBoard.js:120-128 | no input is ever graded `prefix_missing`: the root test passes whenever the prefix test would |
| Rules.ClassifyTierIndependent | components/GameBoard.js:120 | the tier never changes a verdict |
| Rules.AnswerNormalized | data/wordFamilies.js:217 | the graded answer is already trimmed and upper-cased |
| Rules.AnswerRelatedIff | components/GameBoard.js:100 | testing the graded answer for relatedness is the same as testing the raw input |
| Rules.IncorrectIff | components/GameBoard.js:96-142 | a column is graded `incorrect` exactly when its input is unrelated to the family |
| Rules.OtherColumnIff | components/GameBoard.js:100-112 | a wrong answer gets the "different column" message exactly when it is another column's form |
| Rules.DerivationIff | components/GameBoard.js:113-118 | a wrong answer gets the "valid derivation" message exactly when it is related and is no column's form |
| Rules.ClassifyNormalized | components/GameBoard.js:86 | grading ignores case and surrounding whitespace |
| Rules.FormAnyCaseCorrect | components/GameBoard.js:86-90 | typing a form in any case, with any surrounding whitespace, grades `correct` |
| Rules.AllCorrectIff | components/GameBoard.js:90-97 | every column answered with its form is the same as every column graded `correct` |
| Rules.FormsWin | components/GameBoard.js:75-97 | typing the four forms, in any case, passes the blank guard and answers every column correctly |
| Rules.CatalogFormsWin | data/wordFamilies.js:5-202 | every catalog record can be won by typing its forms |
| Rules.BeautyTypedInLowerCase | data/wordFamilies.js:6-12 | the lower-case BEAUTY forms upper-case to the catalog's forms |
| Rules.BeautyInLowerCaseWins | components/GameBoard.js:75-97 | typing `beauty`, `beautify`, `beautiful`, `beautifully` passes the guard and wins |
| Rules.BeautifulAsNoun | components/GameBoard.js:100-112 | `BEAUTIFUL` in the noun column is graded yellow with the "different column" message |
| Rules.PatientAsAdjective | components/GameBoard.js:100-112 | on the hardest tier, `PATIENT` in the PATIENCE adjective column is graded yellow with the "different column" message, not blue |
| Rules.UnrelatedByLetters | data/wordFamilies.js:216-238 | a word with a letter absent from the root and every form, and lacking a letter they all have, is unrelated |
| Rules.NonsenseNormalized | data/wordFamilies.js:217 | `xyz123` normalises to `XYZ123` |
| Rules.LacksXFromMeans | data/wordFamilies.js:5-202 | the letter scan used on the catalog finds no `X` or `x` from its start position on |
| Rules.CatalogLacksX | data/wordFamilies.js:5-202 | every record's root and forms lack `X` in both cases, and every form contains the root's upper-cased initial, which comes before `X` |
| Rules.NonsenseUnrelatedTo | data/wordFamilies.js:216-238 | a word normalising to `XYZ123` is unrelated to any record with those letter facts |
| Rules.NonsenseUnrelated | data/wordFamilies.js:216-238 | `xyz123` is unrelated to every record of every tier |
| Rules.NonsenseIncorrect | components/GameBoard.js:136-141 | `xyz123` is graded `incorrect` in every column of every record, on every tier |
| Rules.IncompleteAmong | components/GameBoard.js:165-169 | the filter keeps exactly the listed columns whose answer is wrong, never more than it is given, as a subsequence of the list it is given (`Subsequence`), and so keeps `PART_KEYS` order when given a list in that order |
| Rules.IncompleteSlots | components/GameBoard.js:165-171 | the incomplete columns are exactly the wrong ones, a subsequence of `PART_KEYS` in its order with each column once, and there are none exactly when the round is won (`IncompleteSlotsUnique`: no other list has these properties) |
| Rules.PrependInPartOrder | components/GameBoard.js:165-169 | keeping the head of a list in `PART_KEYS` order in front of a kept tail keeps the order |
| Rules.PartKeysInOrder | src/components/GameBoard.jsx:6 | `PART_KEYS` is in its own order |
| Rules.TailMembers | components/GameBoard.js:165-169 | in a list in `PART_KEYS` order the head does not come back in the tail |
| Rules.PartOrderUnique | components/GameBoard.js:165-169 | two lists in `PART_KEYS` order with the same members are equal |
| Rules.IncompleteSlotsUnique | components/GameBoard.js:165-169 | any list of exactly the wrong columns in `PART_KEYS` order is the filter's result |
| Rules.AvailablePositions | components/GameBoard.js:179-184 | the positions below the length that are not revealed yet, each once, in increasing order |
| Rules.CollectAvailable | components/GameBoard.js:179-184 | the loop builds exactly `AvailablePositions` |
| Rules.ChooseHint | components/GameBoard.js:164-189 | the filter, the random column, the position loop and the random position both handlers run choose exactly the hint `NextHint` describes, which is fresh and in a wrong column (`NextHintFresh`) |
| Rules.NextHint | components/GameBoard.js:164-189 | the hint the handlers choose (`NextHintNoneIff`, `NextHintFresh`, and `ChooseHint` computes it) |
| Rules.ApplyHint | components/GameBoard.js:191-194 | appending the hint's position to its column (`ApplyHintKeepsRevealedOk`) |
| Rules.NextHintNoneIff | components/GameBoard.js:171-186 | no hint is given exactly when every column is correct or the chosen column is fully revealed |
| Rules.AvailableEmptyIff | components/GameBoard.js:186 | no position is available exactly when every position is revealed |
| Rules.NextHintFresh | components/GameBoard.js:174-189 | a hint picks a wrong column and a position inside its form that is not revealed yet |
| Rules.ApplyHintKeepsRevealedOk | components/GameBoard.js:191-194 | applying a hint keeps every revealed list in bounds and free of repeats |
| Rules.AppendKeepsRevealedOk | components/GameBoard.js:193 | appending a fresh in-bounds position keeps a list in bounds and free of repeats |
| Rules.FullyRevealed | components/GameBoard.js:180-186 | a revealed list never outgrows its form; once it is as long as the form, no position is left |
| Rules.Range | components/GameBoard.js:180 | the positions `0 <= i < n` form a set of `n` elements |
| Rules.SubsetSize | components/GameBoard.js:180-186 | a subset is no larger than its superset |
| Rules.DistinctCount | components/GameBoard.js:193 | a list without repeats has as many distinct elements as entries |
| HintMask.Token | components/WordInputCell.js:93 | the letter at a revealed position, `_` elsewhere (`Tokens`) |
| HintMask.Join | components/WordInputCell.js:94 | `join(' ')` (`JoinSingles`) |
| HintMask.Mask | components/WordInputCell.js:92-94 | the masked answer (`MaskShape`, `MaskUncoversExactlyRevealed`) |
| HintMask.Tokens | components/WordInputCell.js:92-94 | one token per letter of the answer: the letter at a revealed position, `_` elsewhere |
| HintMask.JoinSingles | components/WordInputCell.js:94 | joining one-character tokens with spaces puts token `i` at position `2i` and spaces between |
| HintMask.MaskShape | components/WordInputCell.js:92-94 | the mask is `2n-1` characters, with the letter or `_` at even positions and spaces at odd ones |
| HintMask.MaskOfEmpty | src/components/WordInputCell.jsx:24-26 | the mask of the empty answer is empty |
| HintMask.MaskUncoversExactlyRevealed | src/components/WordInputCell.jsx:24-26 | for an answer without `_`, a letter shows exactly at the revealed positions |
| MobileWordInputCell.BackgroundColor | components/WordInputCell.js:28-43 | green, yellow, red or blue exactly for `correct`, `related`, `incorrect` or `prefix_missing`; the default colour without feedback or for any other type |
| MobileWordInputCell.TextColor | components/WordInputCell.js:45-50 | white exactly on `correct` and `prefix_missing` feedback, dark otherwise |
| MobileWordInputCell.BorderColor | components/WordInputCell.js:52-55 | grey exactly without feedback, else the background colour |
| MobileWordInputCell.BorderWidth | components/WordInputCell.js:65 | 3 exactly with feedback, 1 without |
| MobileWordInputCell.BackgroundIdentifiesKind | components/WordInputCell.js:28-43 | the four known types have four different backgrounds |
| MobileWordInputCell.VerdictColored | components/WordInputCell.js:28-43 | every verdict's type gets a non-default background |
| MobileWordInputCell.HintLine | components/WordInputCell.js:90-95 | shown exactly when a letter is revealed, the cell is empty and there is a form; then it is exactly `Hint: ` followed by the mask of the form |
| MobileWordInputCell.LockedText | components/WordInputCell.js:68-71 | a locked cell shows the answer when there is a non-empty one, else the value |
| WebWordInputCell.FeedbackColorsTable | src/components/WordInputCell.jsx:1-7 | the colour table has the four verdict types and `default` |
| WebWordInputCell.Background | src/components/WordInputCell.jsx:20 | the default colour without feedback; otherwise the table's colour for the type, or nothing for an unlisted type |
| WebWordInputCell.VerdictColorsDistinct | src/components/WordInputCell.jsx:1-7 | each verdict type has a non-default colour, and two types share a colour only when they are the same type |
| WebWordInputCell.Hint | src/components/WordInputCell.jsx:22-27 | a hint exactly when a letter is revealed, the cell is empty and there is a non-empty answer; then the mask of length `2n-1` |
| WebWordInputCell.OnChange | src/components/WordInputCell.jsx:42 | the text handed to the board is the typed text with each character upper-cased in place: same length, no lower-case letter |
| WebWordInputCell.OnChangeGradesAlike | src/components/WordInputCell.jsx:42 | upper-casing what is typed never changes its grade in any column |
| WebWordInputCell.LockedText | src/components/WordInputCell.jsx:32-35 | a locked cell shows the answer when there is a non-empty one, else the value |
| WebWordInputCell.MessageColor | src/components/WordInputCell.jsx:52-54 | muted exactly on the default background |
| WebWordInputCell.MessageColorMutedIff | src/components/WordInputCell.jsx:52-54 | the message is muted exactly without feedback or for the type `default` |
| MobileGameBoard.Message | components/GameBoard.js:90-141 | each verdict's message (`MessageIdentifiesVerdict`) |
| MobileGameBoard.FeedbackFor | components/GameBoard.js:90-141 | the verdict's type with its message (`MessageIdentifiesVerdict`, `Evaluate`) |
| MobileGameBoard.MessageIdentifiesVerdict | components/GameBoard.js:90-141 | different verdicts get different messages |
| MobileGameBoard.Evaluate | components/GameBoard.js:82-144 | the loop stores every column's grade and message, and `allCorrect` holds exactly when every column is correct |
| MobileGameBoard.FreshColumnsOk | components/GameBoard.js:33-37 | a fresh round (empty cells, no feedback, nothing revealed) satisfies the column invariant |
| MobileGameBoard.EditKeepsColumnsOk | components/GameBoard.js:56-69 | typing into a column and dropping its feedback keeps the column invariant |
| MobileGameBoard.GradingKeepsColumnsOk | components/GameBoard.js:146-151 | storing every column's grade, and winning exactly when all are correct, keeps the column invariant |
| MobileGameBoard.ColumnsRevealedOk | components/GameBoard.js:176 | under the invariant every revealed list is in bounds and free of repeats |
| MobileGameBoard.RevealKeepsColumnsOk | components/GameBoard.js:191-194 | in-bounds, repeat-free revealed lists keep the column invariant |
| MobileGameBoard.GameBoard.constructor | components/GameBoard.js:13-20 | no tier, no family, empty cells, no feedback, round 1, score 0, nothing revealed |
| MobileGameBoard.GameBoard.StartNewRound | components/GameBoard.js:29-38 | the picked record of the current tier, with empty cells, no feedback, not won, nothing revealed; round and score kept |
| MobileGameBoard.GameBoard.SelectDifficulty | components/GameBoard.js:22-27 | a tier button followed by the effect: the tier is set and its first round starts |
| MobileGameBoard.GameBoard.HandleNext | components/GameBoard.js:40-43 | the round counter goes up by one and a new round starts in the same tier |
| MobileGameBoard.GameBoard.HandleBack | components/GameBoard.js:45-54 | back to the initial state: no tier, round 1, score 0 |
| MobileGameBoard.GameBoard.HandleInputChange | components/GameBoard.js:56-69 | nothing changes once won; otherwise the text is stored as typed and only that column's feedback is dropped |
| MobileGameBoard.GameBoard.CheckAnswers | components/GameBoard.js:71-152 | nothing changes once won or while a column is blank; otherwise every column gets its grade, and the round is won and scores one point exactly when all four are correct |
| MobileGameBoard.GameBoard.ResetRound | components/GameBoard.js:154-159 | the same record from empty cells, no feedback, nothing revealed |
| MobileGameBoard.GameBoard.ShowHint | components/GameBoard.js:161-195 | without a family nothing changes; otherwise the revealed lists become those after `NextHint`, and nothing else changes |
| MobileGameBoard.GameBoard.ColumnAt | components/GameBoard.js:13-20 | the invariant holds for each single column |
| MobileGameBoard.GameBoard.CellBackground | components/GameBoard.js:294 | a cell is never blue, and it is coloured exactly when its column has feedback |
| MobileGameBoard.GameBoard.CellTextColor | components/GameBoard.js:294 | the text is white exactly on a graded, correct column |
| MobileGameBoard.GameBoard.CellLockedText | components/GameBoard.js:295-296 | once won a locked cell shows the form, which equals the player's answer up to case and whitespace |
| MobileGameBoard.GameBoard.CellShowsHint | components/GameBoard.js:298-299 | the hint line shows exactly when the cell is empty and has a revealed letter, so never once won |
| MobileGameBoard.HintsExhaustColumn | components/GameBoard.js:176-186 | a column never has more revealed letters than its form; once all are revealed, a hint on it adds nothing |
| WebGameBoard.Message | src/components/GameBoard.jsx:78-104 | each verdict's message (`MessageIdentifiesVerdict`) |
| WebGameBoard.FeedbackFor | src/components/GameBoard.jsx:78-104 | the verdict's type with its message (`MessageIdentifiesVerdict`, `Evaluate`) |
| WebGameBoard.MessageIdentifiesVerdict | src/components/GameBoard.jsx:78-104 | different verdicts get different messages |
| WebGameBoard.Evaluate | src/components/GameBoard.jsx:70-106 | the loop stores every column's grade and message, and `allCorrect` holds exactly when every column is correct |
| WebGameBoard.FreshColumnsOk | src/components/GameBoard.jsx:34-38 | a fresh round satisfies the column invariant |
| WebGameBoard.EditKeepsColumnsOk | src/components/GameBoard.jsx:52-60 | typing into a column and dropping its feedback keeps the column invariant |
| WebGameBoard.GradingKeepsColumnsOk | src/components/GameBoard.jsx:108-114 | storing every column's grade, and winning exactly when all are correct, keeps the column invariant |
| WebGameBoard.ColumnsRevealedOk | src/components/GameBoard.jsx:132 | under the invariant every revealed list is in bounds and free of repeats |
| WebGameBoard.RevealKeepsColumnsOk | src/components/GameBoard.jsx:139-142 | in-bounds, repeat-free revealed lists keep the column invariant |
| WebGameBoard.EmptyInputsUpper | src/components/GameBoard.jsx:18 | empty cells count as upper-case text |
| WebGameBoard.StoreUpperKeepsInputsUpper | src/components/GameBoard.jsx:54 | storing `value.toUpperCase()` keeps every input upper-case |
| WebGameBoard.AnswerOfUpperText | src/components/GameBoard.jsx:74 | on stored upper-case text the check's `toUpperCase` changes nothing: the answer is the trimmed input |
| WebGameBoard.GameBoard.constructor | src/components/GameBoard.jsx:16-23 | no tier, no family, empty cells, no feedback, round 1, score 0, nothing revealed |
| WebGameBoard.GameBoard.StartNewRound | src/components/GameBoard.jsx:31-39 | the picked record of the current tier, with empty cells, no feedback, not won, nothing revealed |
| WebGameBoard.GameBoard.SelectDifficulty | src/components/GameBoard.jsx:25-29 | a tier button followed by the effect: the tier is set and its first round starts |
| WebGameBoard.GameBoard.HandleNext | src/components/GameBoard.jsx:145-148 | the round counter goes up by one and a new round starts |
| WebGameBoard.GameBoard.HandleBack | src/components/GameBoard.jsx:41-50 | back to the initial state: no tier, round 1, score 0 |
| WebGameBoard.GameBoard.HandleInputChange | src/components/GameBoard.jsx:52-60 | nothing changes once won; otherwise the upper-cased text is stored and only that column's feedback is dropped |
| WebGameBoard.GameBoard.HandleCheck | src/components/GameBoard.jsx:62-115 | nothing changes once won or while a column is blank; otherwise every column gets its grade, and the round is won and scores one point exactly when all four are correct |
| WebGameBoard.GameBoard.HandleReset | src/components/GameBoard.jsx:117-122 | the same record from empty cells, no feedback, nothing revealed |
| WebGameBoard.GameBoard.HandleHint | src/components/GameBoard.jsx:124-143 | without a family nothing changes; otherwise the revealed lists become those after `NextHint`, and nothing else changes |
| WebGameBoard.GameBoard.ColumnAt | src/components/GameBoard.jsx:16-23 | the invariant holds for each single column |
| WebGameBoard.GameBoard.CellBackground | src/components/GameBoard.jsx:207 | always a colour from the table, never the prefix colour, and the default colour exactly when the column has no feedback |
| WebGameBoard.GameBoard.CellMessageColor | src/components/GameBoard.jsx:207 | a graded column's message is in the strong colour |
| WebGameBoard.GameBoard.CellLockedText | src/components/GameBoard.jsx:208-209 | once won a locked cell shows the form, which equals the player's answer up to case and whitespace |
| WebGameBoard.GameBoard.CellHint | src/components/GameBoard.jsx:209-210 | as wired, the hint line is never shown |
| WebGameBoard.GameBoard.CellHintIntended | src/components/GameBoard.jsx:209-210 | with the form as the answer to hint, the line shows exactly when the cell is empty and has a revealed letter, and it is the form's mask |
| WebGameBoard.RevealedHintNotShown | src/components/GameBoard.jsx:209-210 | an empty cell with a revealed letter shows no hint as wired, but would show one with the form passed |
| WebGameBoard.HintsExhaustColumn | src/components/GameBoard.jsx:132-137 | a column never has more revealed letters than its form; once all are revealed, a hint on it adds nothing |
| RenderOrder.Declared | src/components/GameBoard.jsx:16-39 | a binding is declared exactly when the body has a declaration of it |
| RenderOrder.RenderIff | src/components/GameBoard.jsx:16-39 | a render completes exactly when no step reads a binding before the body declares it |
| RenderOrder.WebBoardThrows | src/components/GameBoard.jsx:25-31 | the web effect's dependency list reads `startNewRound` before its `const`, so the first render throws |
| RenderOrder.WebBoardIntendedRenders | src/components/GameBoard.jsx:25-39 | with the effect after the declaration, every read follows its declaration and the render completes |
| RenderOrder.MobileBoardRenders | components/GameBoard.js:22-38 | the mobile body, whose effect lists only `difficulty`, renders |

The per-record lemmas in `word_families.dfy` (`BeautyRoot`, `BeautyShape`
and so on, and `Level1Roots` through `Level3Shapes`) are the steps of
`CatalogChecked` and `TierShape`. They check one record, or one tier, at a
time. In the same way `BeautyLacksX` through `InjusticeLacksX` and
`Level1LacksX` through `Level3LacksX` in `rules.dfy` are the steps of
`CatalogLacksX`.

## Findings

| source | as written | input that shows it | evidently intended | confidence | as-written member | corrected member |
|---|---|---|---|---|---|---|
| src/components/GameBoard.jsx:209-210 | each cell gets `correctAnswer` only once the round is won, and the cell's hint needs both an empty value and a `correctAnswer`; a won round has no empty cell, so revealed letters are never displayed | a fresh round, press Hint once: the chosen cell is empty and has one revealed letter, and no hint line appears | pass the column's form as the answer to hint, as the mobile board does with `correctAnswerForHint` (components/GameBoard.js:299) | high, not executed | WebGameBoard.GameBoard.CellHint | WebGameBoard.GameBoard.CellHintIntended |
| src/components/GameBoard.jsx:25-31 | the effect's dependency list `[difficulty, currentFamily, startNewRound]` is evaluated during the render, before `const startNewRound` on line 31 has run | the first render of the web board: reading `startNewRound` in its temporal dead zone throws a ReferenceError | declare `startNewRound` before the effect, or list only `[difficulty]` as the mobile board does (components/GameBoard.js:27) | high, not executed | RenderOrder.WebBoardThrows | RenderOrder.WebBoardIntendedRenders |

## Left out

- I/O is left out: `Alert.alert` and `window.alert` messages, rendering, styles, layout and screen size.
- `server.js` and `App.js` are not part of this model.
- `Math.random()` is not modelled; each random pick is an index the caller passes.
- React's batching and re-rendering are not modelled. Setters are sequential field assignments. The mobile `setScore(score + 1)` and `setRound(round + 1)` read state from the same render, so they have the same effect as the functional form here.
- The web effect (src/components/GameBoard.jsx:25-29) names `startNewRound` in its dependency list before the `const` that declares it. That is the second finding above. The board class runs the effect in the intended order, after the declarations.
- Strings are ASCII only: `toUpperCase`, `toLowerCase` and `trim` are modelled on ASCII letters and ASCII whitespace, and Unicode case mapping and Unicode spaces are not.
- The catalog's `note` text is kept as data. Nothing in the core reads it except the render.
- The legend of colours and the button layout are not modelled.
- MobileGameBoard.GameBoard.SelectDifficulty and WebGameBoard.GameBoard.SelectDifficulty require that no tier is chosen yet, because the difficulty buttons only exist on that screen.
- MobileGameBoard.GameBoard.CheckAnswers and WebGameBoard.GameBoard.HandleCheck require a family on the board. The code reads `currentFamily[key]` unguarded, and the Check button only exists while a family is shown.
- MobileGameBoard.GameBoard.StartNewRound, MobileGameBoard.GameBoard.HandleNext and their web counterparts require a chosen tier, because the code only reaches them with one.
- Text.Trim: its contract gives only the length bound. The shape of the result is stated by `Text.TrimShape`, `Text.TrimStartShape`, `Text.TrimEndShape` and `Text.TrimRemovesOnlySpace`: no surrounding whitespace, and only whitespace removed from each end.
