/**
 * Answer checking with feedback: the reply is parsed according to the
 * card kind, checked by the card's own rule, and answered with a
 * feedback line.
 */
module AnswerValidator {
  import opened Text
  import opened Models
  import opened InputParser
  import IntSort

  /** A card of one of the three kinds, or any other object handed to the validator. */
  datatype CardInput = Card(content: Content) | UnknownCard

  const CorrectFeedback: string := "✅ Correct!"
  const UnknownTypeFeedback: string := "❌ Unknown flashcard type"
  const ErrorFeedback: string := "❌ Error checking answer"

  /** One-character strings for a list of letters, ready for ", ".join. */
  function LetterStrings(letters: seq<char>): (r: seq<string>)
    ensures |r| == |letters|
    ensures forall k :: 0 <= k < |letters| ==> r[k] == [letters[k]]
  {
    if letters == [] then [] else [[letters[0]]] + LetterStrings(letters[1..])
  }

  function CheckTwoSidedAnswer(front: string, back: string, userInput: string): (r: (bool, string))
    ensures r.0 == CheckTwoSided(back, userInput)
    ensures r.0 ==> r.1 == CorrectFeedback
    ensures !r.0 ==> r.1 == "❌ Incorrect. The answer is: " + back
  {
    if CheckTwoSided(back, userInput) then (true, CorrectFeedback)
    else (false, "❌ Incorrect. The answer is: " + back)
  }

  function CheckFillInBlankAnswer(text: string, answers: seq<string>, caseSensitive: bool, userInput: string): (r: (bool, string))
    ensures r.0 == CheckFillIn(answers, caseSensitive, FillInBlankAnswers(userInput, BlankCount(text)))
    ensures r.0 ==> r.1 == CorrectFeedback
    ensures !r.0 ==> r.1 == "❌ Incorrect. The correct answers are: " + Join(", ", answers)
  {
    var userAnswers := FillInBlankAnswers(userInput, BlankCount(text));
    if CheckFillIn(answers, caseSensitive, userAnswers) then (true, CorrectFeedback)
    else (false, "❌ Incorrect. The correct answers are: " + Join(", ", answers))
  }

  /** The wrong-answer line: "answer" or "answers", then the correct letters. */
  function MultipleChoiceHint(letters: seq<char>): string {
    "❌ Incorrect. The correct answer" + (if |letters| > 1 then "s" else "") + ": "
      + Join(", ", LetterStrings(letters))
  }

  function CheckMultipleChoiceAnswer(options: seq<string>, correctIndices: seq<int>, userInput: string): (r: (bool, string))
    ensures var selected := MultipleChoiceIndices(userInput, |options|);
      r.0 == CheckMultipleChoice(correctIndices, selected)
    ensures r.0 ==> r.1 == CorrectFeedback
    ensures !r.0 && CorrectLetters(correctIndices).Some? ==> r.1 == MultipleChoiceHint(CorrectLetters(correctIndices).value)
    ensures !r.0 && CorrectLetters(correctIndices).None? ==> r.1 == ErrorFeedback
  {
    var selected := MultipleChoiceIndices(userInput, |options|);
    if CheckMultipleChoice(correctIndices, selected) then (true, CorrectFeedback)
    else
      match CorrectLetters(correctIndices)
      case Some(letters) => (false, MultipleChoiceHint(letters))
      case None => (false, ErrorFeedback)
  }

  /** The dispatch on the card kind. */
  function CheckAnswer(card: CardInput, userInput: string): (r: (bool, string))
    ensures card.UnknownCard? ==> r == (false, UnknownTypeFeedback)
    ensures r.0 <==> r.1 == CorrectFeedback
    ensures card.Card? && card.content.TwoSided? ==>
      r.0 == CheckTwoSided(card.content.back, userInput)
    ensures card.Card? && card.content.FillInTheBlank? ==>
      r.0 == CheckFillIn(card.content.answers, card.content.caseSensitive,
                         FillInBlankAnswers(userInput, BlankCount(card.content.textWithBlanks)))
    ensures card.Card? && card.content.MultipleChoice? ==>
      r.0 == CheckMultipleChoice(card.content.correctIndices, MultipleChoiceIndices(userInput, |card.content.options|))
  {
    match card
    case UnknownCard => (false, UnknownTypeFeedback)
    case Card(TwoSided(front, back)) => CheckTwoSidedAnswer(front, back, userInput)
    case Card(FillInTheBlank(text, answers, cs)) => CheckFillInBlankAnswer(text, answers, cs, userInput)
    case Card(MultipleChoice(_, options, correct, _)) => CheckMultipleChoiceAnswer(options, correct, userInput)
  }

  // ---------------------------------------------------------------------
  // The expected reply is accepted
  // ---------------------------------------------------------------------

  /** The back of a two-sided card is accepted, in any letter case and with surrounding blanks. */
  lemma TwoSidedBackAccepted(front: string, back: string)
    ensures CheckAnswer(Card(TwoSided(front, back)), back) == (true, CorrectFeedback)
    ensures CheckAnswer(Card(TwoSided(front, back)), Upper(back)).0
  {
    TwoSidedTolerance(back, back);
  }

  /**
   * A fill-in card whose text has one marker per expected answer accepts
   * the expected answers typed with commas between them.
   */
  lemma FillInAnswersAccepted(text: string, answers: seq<string>, caseSensitive: bool)
    requires |answers| >= 1 && BlankCount(text) == |answers|
    requires forall k :: 0 <= k < |answers| ==> PlainAnswer(answers[k])
    ensures CheckAnswer(Card(FillInTheBlank(text, answers, caseSensitive)), Join(",", answers)) == (true, CorrectFeedback)
  {
    CommaJoinedRoundTrip(answers);
  }

  /** The letters of a set of option indices, as the learner would type them. */
  function TypedLetters(indices: seq<int>): (s: string)
    requires forall k :: 0 <= k < |indices| ==> 0 <= indices[k] < 26
    ensures |s| == |indices|
    ensures forall k :: 0 <= k < |indices| ==> s[k] as int == 65 + indices[k]
  {
    if indices == [] then [] else [(65 + indices[0]) as char] + TypedLetters(indices[1..])
  }

  lemma TypedLettersPrepared(s: string)
    requires forall k :: 0 <= k < |s| ==> IsAsciiUpper(s[k])
    ensures Prepared(s) == s
  {
    assert Upper(s) == s;
    assert IsStripped(s);
    StripOfStripped(s);
  }

  lemma TypedLettersNamed(order: seq<int>, n: int)
    requires n <= 26
    requires forall k :: 0 <= k < |order| ==> 0 <= order[k] < n
    ensures forall i :: NamedByLetter(TypedLetters(order), n, i) <==> i in order
  {
    var s := TypedLetters(order);
    forall i ensures NamedByLetter(s, n, i) <==> i in order {
      if i in order {
        var k :| 0 <= k < |order| && order[k] == i;
        assert NamesLetter(s[k], n, i);
      }
    }
  }

  /** Typed letters select exactly the options they name. */
  lemma TypedLettersSelect(order: seq<int>, n: int)
    requires n <= 26
    requires forall k :: 0 <= k < |order| ==> 0 <= order[k] < n
    ensures forall i :: i in MultipleChoiceIndices(TypedLetters(order), n) <==> i in order
  {
    var s := TypedLetters(order);
    TypedLettersUpper(order);
    TypedLettersPrepared(s);
    TypedLettersNamed(order, n);
    SelectedByLetters(s, n, order);
    forall i ensures i in MultipleChoiceIndices(s, n) <==> i in order {
      assert i in MultipleChoiceIndices(s, n) <==> Selected(Prepared(s), n, i);
    }
  }

  lemma TypedLettersUpper(order: seq<int>)
    requires forall k :: 0 <= k < |order| ==> 0 <= order[k] < 26
    ensures forall k :: 0 <= k < |order| ==> IsAsciiUpper(TypedLetters(order)[k])
  {
    var s := TypedLetters(order);
    forall k | 0 <= k < |order| ensures IsAsciiUpper(s[k]) {
      assert 65 <= s[k] as int < 91;
    }
  }

  lemma SelectedByLetters(s: string, n: int, order: seq<int>)
    requires forall i :: NamedByLetter(s, n, i) <==> i in order
    requires order == [] ==> s == []
    ensures forall i :: Selected(s, n, i) <==> i in order
  {
    if order != [] {
      assert NamedByLetter(s, n, order[0]);
    }
  }

  /**
   * A multiple-choice card with at most 26 options accepts its correct
   * letters typed in any order, provided no correct index is listed twice.
   */
  lemma CorrectLettersAccepted(question: string, options: seq<string>, correct: seq<int>, allowMultiple: bool, order: seq<int>)
    requires |options| <= 26 && IntSort.Distinct(correct)
    requires forall k :: 0 <= k < |correct| ==> 0 <= correct[k] < |options|
    requires multiset(order) == multiset(correct)
    requires forall k :: 0 <= k < |order| ==> 0 <= order[k] < |options|
    ensures CheckAnswer(Card(MultipleChoice(question, options, correct, allowMultiple)), TypedLetters(order)).0
  {
    var n := |options|;
    TypedLettersSelect(order, n);
    var selected := MultipleChoiceIndices(TypedLetters(order), n);
    IntSort.SortDistinct(correct);
    var sorted := IntSort.Sort(correct);
    assert forall i :: i in sorted <==> i in selected by {
      forall i ensures i in sorted <==> i in selected {
        assert i in sorted <==> i in multiset(sorted);
        assert i in order <==> i in multiset(order);
      }
    }
    IntSort.StrictlySortedSameElements(selected, sorted);
  }
}
