/**
 * The hint line both input cells render (components/WordInputCell.js and
 * src/components/WordInputCell.jsx): one token per letter of the answer,
 * the letter itself at a revealed position and `_` elsewhere, joined by
 * single spaces.
 */
module HintMask {

  /** `revealedLetters.includes(i) ? answer[i] : '_'`. */
  function Token(answer: string, revealed: seq<int>, i: nat): string
    requires i < |answer|
  {
    if i in revealed then [answer[i]] else "_"
  }

  /** `Array.from({ length: answer.length }, (_, i) => ...)`. */
  function Tokens(answer: string, revealed: seq<int>): (r: seq<string>)
    ensures |r| == |answer|
    ensures forall i :: 0 <= i < |r| ==> r[i] == Token(answer, revealed, i)
  {
    seq(|answer|, i requires 0 <= i < |answer| => Token(answer, revealed, i))
  }

  /** `parts.join(sep)`. */
  function Join(parts: seq<string>, sep: string): string
  {
    if |parts| == 0 then ""
    else if |parts| == 1 then parts[0]
    else parts[0] + sep + Join(parts[1..], sep)
  }

  /** The hint mask of `answer` with the positions `revealed` uncovered. */
  function Mask(answer: string, revealed: seq<int>): string {
    Join(Tokens(answer, revealed), " ")
  }

  /**
   * One-character tokens joined by single spaces: the tokens sit at the even
   * offsets and a space at every odd one.
   */
  lemma {:induction false} JoinSingles(parts: seq<string>)
    requires |parts| >= 1
    requires forall i :: 0 <= i < |parts| ==> |parts[i]| == 1
    ensures |Join(parts, " ")| == 2 * |parts| - 1
    ensures forall i :: 0 <= i < |parts| ==> Join(parts, " ")[2 * i] == parts[i][0]
    ensures forall i :: 0 <= i < |parts| - 1 ==> Join(parts, " ")[2 * i + 1] == ' '
  {
    if |parts| > 1 {
      var rest := parts[1..];
      JoinSingles(rest);
      var j := Join(parts, " ");
      assert j == parts[0] + " " + Join(rest, " ");
      forall i | 0 < i < |parts|
        ensures j[2 * i] == parts[i][0]
      {
        assert j[2 * i] == Join(rest, " ")[2 * (i - 1)];
      }
      forall i | 0 < i < |parts| - 1
        ensures j[2 * i + 1] == ' '
      {
        assert j[2 * i + 1] == Join(rest, " ")[2 * (i - 1) + 1];
      }
    }
  }

  /**
   * For an answer of `n >= 1` letters the mask has `2n - 1` characters:
   * letter `i` or `_` at offset `2i`, a space between consecutive tokens.
   */
  lemma MaskShape(answer: string, revealed: seq<int>)
    requires |answer| >= 1
    ensures |Mask(answer, revealed)| == 2 * |answer| - 1
    ensures forall i :: 0 <= i < |answer| ==>
      Mask(answer, revealed)[2 * i] == if i in revealed then answer[i] else '_'
    ensures forall i :: 0 <= i < |answer| - 1 ==> Mask(answer, revealed)[2 * i + 1] == ' '
  {
    var tokens := Tokens(answer, revealed);
    JoinSingles(tokens);
    forall i | 0 <= i < |answer|
      ensures Mask(answer, revealed)[2 * i] == if i in revealed then answer[i] else '_'
    {
      assert tokens[i] == Token(answer, revealed, i);
    }
  }

  /** The mask of an empty answer is the empty string. */
  lemma MaskOfEmpty(revealed: seq<int>)
    ensures Mask("", revealed) == ""
  {
  }

  /**
   * A position that shows its letter in the mask of an answer without
   * underscores is a revealed position: the mask uncovers exactly the
   * revealed letters.
   */
  lemma MaskUncoversExactlyRevealed(answer: string, revealed: seq<int>, i: nat)
    requires i < |answer|
    requires '_' !in answer
    ensures |Mask(answer, revealed)| == 2 * |answer| - 1
    ensures Mask(answer, revealed)[2 * i] != '_' <==> i in revealed
  {
    MaskShape(answer, revealed);
    assert answer[i] in answer;
  }
}
