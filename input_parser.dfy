/**
 * Turning a learner's typed reply into the shape each card kind checks:
 * a list of blank answers, or a sorted list of option indices.
 */
module InputParser {
  import opened Text
  import IntSort

  // ---------------------------------------------------------------------
  // Fill-in-the-blank replies
  // ---------------------------------------------------------------------

  /** The separators tried, in this order. */
  const Separators: seq<char> := [',', ';', '|', '\n']

  /** The first separator from position i of the list on that occurs in the input. */
  function FirstSeparatorFrom(input: string, i: nat): (r: Option<char>)
    requires i <= |Separators|
    ensures r.None? <==> forall k :: i <= k < |Separators| ==> Separators[k] !in input
    ensures r.Some? ==> exists k :: i <= k < |Separators| && Separators[k] == r.value && r.value in input &&
                          forall j :: i <= j < k ==> Separators[j] !in input
    decreases |Separators| - i
  {
    if i == |Separators| then None
    else if Separators[i] in input then Some(Separators[i])
    else FirstSeparatorFrom(input, i + 1)
  }

  function StripAll(parts: seq<string>): (r: seq<string>)
    ensures |r| == |parts|
    ensures forall k :: 0 <= k < |parts| ==> r[k] == Strip(parts[k])
  {
    seq(|parts|, k requires 0 <= k < |parts| => Strip(parts[k]))
  }

  /** The stripped fields of the reply: split on the first separator present, else the whole reply. */
  function Fields(input: string): (r: seq<string>)
    ensures |r| >= 1
  {
    match FirstSeparatorFrom(input, 0)
    case None => [Strip(input)]
    case Some(sep) => StripAll(SplitOn(input, sep))
  }

  /** The list extended with empty answers until it has at least n entries. */
  function PadTo(xs: seq<string>, n: int): (r: seq<string>)
    ensures |r| == (if n > |xs| then n else |xs|)
    ensures forall k :: 0 <= k < |r| ==> r[k] == (if k < |xs| then xs[k] else "")
    decreases n - |xs|
  {
    if |xs| >= n then xs else PadTo(xs + [""], n)
  }

  /**
   * The blank answers: the fields, padded with empty answers up to
   * `expectedCount`, then cut to the Python slice [:expectedCount].
   */
  function FillInBlankAnswers(input: string, expectedCount: int): (r: seq<string>)
    ensures expectedCount >= 0 ==> |r| == expectedCount
    ensures expectedCount < 0 ==> |r| == SliceEnd(|Fields(input)|, expectedCount)
    ensures forall k :: 0 <= k < |r| ==> r[k] == (if k < |Fields(input)| then Fields(input)[k] else "")
  {
    var padded := PadTo(Fields(input), expectedCount);
    padded[..SliceEnd(|padded|, expectedCount)]
  }

  method ParseFillInBlankAnswer(userInput: string, expectedCount: int) returns (answers: seq<string>)
    ensures answers == FillInBlankAnswers(userInput, expectedCount)
  {
    answers := [Strip(userInput)];
    var i := 0;
    while i < |Separators|
      invariant 0 <= i <= |Separators|
      invariant FirstSeparatorFrom(userInput, i) == FirstSeparatorFrom(userInput, 0)
      invariant answers == [Strip(userInput)]
    {
      var sep := Separators[i];
      if sep in userInput {
        answers := StripAll(SplitOn(userInput, sep));
        break;
      }
      i := i + 1;
    }
    ghost var fields := answers;
    assert fields == Fields(userInput);
    while |answers| < expectedCount
      invariant PadTo(answers, expectedCount) == PadTo(fields, expectedCount)
      decreases expectedCount - |answers|
    {
      answers := answers + [""];
    }
    answers := answers[..SliceEnd(|answers|, expectedCount)];
  }

  /** When the reply has exactly as many fields as blanks, the answers are the fields. */
  lemma ExactFieldCount(input: string)
    ensures FillInBlankAnswers(input, |Fields(input)|) == Fields(input)
  {
  }

  lemma StripAllOfStripped(parts: seq<string>)
    requires forall k :: 0 <= k < |parts| ==> IsStripped(parts[k])
    ensures StripAll(parts) == parts
  {
    forall k | 0 <= k < |parts| ensures Strip(parts[k]) == parts[k] {
      StripOfStripped(parts[k]);
    }
  }

  /** With no separator in the reply, the first answer is the whole reply, stripped. */
  lemma NoSeparatorSingleField(input: string)
    requires forall k :: 0 <= k < |Separators| ==> Separators[k] !in input
    ensures Fields(input) == [Strip(input)]
  {
  }

  /** Every parsed answer is stripped. */
  lemma AnswersAreStripped(input: string, expectedCount: int)
    ensures forall k :: 0 <= k < |FillInBlankAnswers(input, expectedCount)| ==>
              IsStripped(FillInBlankAnswers(input, expectedCount)[k])
  {
    var r := FillInBlankAnswers(input, expectedCount);
    forall k | 0 <= k < |r| ensures IsStripped(r[k]) {
      if k < |Fields(input)| {
        match FirstSeparatorFrom(input, 0)
        case None => StripProperties(input);
        case Some(sep) => StripProperties(SplitOn(input, sep)[k]);
      }
    }
  }

  predicate PlainAnswer(a: string) {
    IsStripped(a) && forall k :: 0 <= k < |Separators| ==> Separators[k] !in a
  }

  lemma CommaInJoin(answers: seq<string>)
    requires |answers| >= 2
    ensures ',' in Join(",", answers)
  {
    var text := Join(",", answers);
    assert text == answers[0] + "," + Join(",", answers[1..]);
    assert text[|answers[0]|] == ',';
  }

  lemma SingleFieldRoundTrip(a: string)
    requires PlainAnswer(a)
    ensures Fields(a) == [a]
  {
    assert FirstSeparatorFrom(a, 0).None?;
    StripOfStripped(a);
  }

  lemma CommaFieldsRoundTrip(answers: seq<string>)
    requires |answers| >= 2
    requires forall k :: 0 <= k < |answers| ==> PlainAnswer(answers[k])
    ensures Fields(Join(",", answers)) == answers
  {
    var text := Join(",", answers);
    CommaInJoin(answers);
    assert FirstSeparatorFrom(text, 0) == Some(',');
    assert forall k :: 0 <= k < |answers| ==> ',' !in answers[k] by {
      forall k | 0 <= k < |answers| ensures ',' !in answers[k] {
        assert PlainAnswer(answers[k]);
        assert Separators[0] == ',';
      }
    }
    SplitOnJoin(answers, ',');
    StripAllOfStripped(answers);
  }

  /** Typing the expected answers separated by commas parses back to exactly those answers. */
  lemma CommaJoinedRoundTrip(answers: seq<string>)
    requires |answers| >= 1
    requires forall k :: 0 <= k < |answers| ==> PlainAnswer(answers[k])
    ensures FillInBlankAnswers(Join(",", answers), |answers|) == answers
  {
    if |answers| == 1 {
      SingleFieldRoundTrip(answers[0]);
    } else {
      CommaFieldsRoundTrip(answers);
    }
    ExactFieldCount(Join(",", answers));
  }

  // ---------------------------------------------------------------------
  // Multiple-choice replies
  // ---------------------------------------------------------------------

  /** ord(c) - ord('A'): the option a letter names. */
  function LetterIndex(c: char): int {
    c as int - 65
  }

  /** int(c) - 1: the option a digit names. */
  function DigitIndex(c: char): int
    requires IsDigit(c)
  {
    (c as int - '0' as int) - 1
  }

  predicate NamesLetter(c: char, optionCount: int, i: int) {
    IsAlpha(c) && LetterIndex(c) == i && 0 <= i < optionCount
  }

  predicate NamesDigit(c: char, optionCount: int, i: int) {
    IsDigit(c) && DigitIndex(c) == i && 0 <= i < optionCount
  }

  /** Some character of u names option i by its letter. */
  predicate NamedByLetter(u: string, optionCount: int, i: int) {
    exists k :: 0 <= k < |u| && NamesLetter(u[k], optionCount, i)
  }

  /** Some character of u names option i by its number. */
  predicate NamedByDigit(u: string, optionCount: int, i: int) {
    exists k :: 0 <= k < |u| && NamesDigit(u[k], optionCount, i)
  }

  /** The letter loop: valid option letters, each once, in order of first appearance. */
  function LetterPicks(u: string, optionCount: int): seq<int> {
    if u == [] then []
    else
      var p := LetterPicks(u[..|u| - 1], optionCount);
      var c := u[|u| - 1];
      if IsAlpha(c) && 0 <= LetterIndex(c) < optionCount && LetterIndex(c) !in p then p + [LetterIndex(c)]
      else p
  }

  /** The digit loop: valid option numbers, each once, in order of first appearance. */
  function DigitPicks(u: string, optionCount: int): seq<int> {
    if u == [] then []
    else
      var p := DigitPicks(u[..|u| - 1], optionCount);
      var c := u[|u| - 1];
      if IsDigit(c) && 0 <= DigitIndex(c) < optionCount && DigitIndex(c) !in p then p + [DigitIndex(c)]
      else p
  }

  lemma {:induction false} LetterPicksProperties(u: string, optionCount: int)
    ensures IntSort.Distinct(LetterPicks(u, optionCount))
    ensures forall i :: i in LetterPicks(u, optionCount) <==> NamedByLetter(u, optionCount, i)
    decreases |u|
  {
    if u != [] {
      var n := |u| - 1;
      LetterPicksProperties(u[..n], optionCount);
      assert forall k :: 0 <= k < n ==> u[..n][k] == u[k];
      forall i ensures NamedByLetter(u, optionCount, i) <==> NamedByLetter(u[..n], optionCount, i) || NamesLetter(u[n], optionCount, i) {
        if NamedByLetter(u, optionCount, i) {
          var k :| 0 <= k < |u| && NamesLetter(u[k], optionCount, i);
          if k < n { assert NamesLetter(u[..n][k], optionCount, i); }
        }
      }
    }
  }

  lemma {:induction false} DigitPicksProperties(u: string, optionCount: int)
    ensures IntSort.Distinct(DigitPicks(u, optionCount))
    ensures forall i :: i in DigitPicks(u, optionCount) <==> NamedByDigit(u, optionCount, i)
    decreases |u|
  {
    if u != [] {
      var n := |u| - 1;
      DigitPicksProperties(u[..n], optionCount);
      assert forall k :: 0 <= k < n ==> u[..n][k] == u[k];
      forall i ensures NamedByDigit(u, optionCount, i) <==> NamedByDigit(u[..n], optionCount, i) || NamesDigit(u[n], optionCount, i) {
        if NamedByDigit(u, optionCount, i) {
          var k :| 0 <= k < |u| && NamesDigit(u[k], optionCount, i);
          if k < n { assert NamesDigit(u[..n][k], optionCount, i); }
        }
      }
    }
  }

  /** The reply as the parser reads it: upper-cased, then stripped. */
  function Prepared(input: string): string {
    Strip(Upper(input))
  }

  /** Letters win; digits are read only when no valid letter was found. */
  function Picks(u: string, optionCount: int): seq<int> {
    var letters := LetterPicks(u, optionCount);
    if letters != [] then letters else DigitPicks(u, optionCount)
  }

  /** The options a reply names, by letter when any letter is valid and by digit otherwise. */
  ghost predicate Selected(u: string, optionCount: int, i: int) {
    if exists j :: NamedByLetter(u, optionCount, j)
    then NamedByLetter(u, optionCount, i)
    else NamedByDigit(u, optionCount, i)
  }

  lemma PicksProperties(u: string, optionCount: int)
    ensures IntSort.Distinct(Picks(u, optionCount))
    ensures forall i :: i in Picks(u, optionCount) <==> Selected(u, optionCount, i)
  {
    LetterPicksProperties(u, optionCount);
    DigitPicksProperties(u, optionCount);
    var letters := LetterPicks(u, optionCount);
    assert letters != [] ==> letters[0] in letters && NamedByLetter(u, optionCount, letters[0]);
    if exists j :: NamedByLetter(u, optionCount, j) {
      var j :| NamedByLetter(u, optionCount, j);
      assert j in letters;
    }
  }

  /**
   * The selected option indices: sorted, without repetitions, within
   * range, and exactly the options the prepared reply selects.
   */
  function MultipleChoiceIndices(input: string, optionCount: int): (r: seq<int>)
    ensures IntSort.StrictlySorted(r)
    ensures forall i :: i in r <==> Selected(Prepared(input), optionCount, i)
    ensures forall i :: i in r ==> 0 <= i < optionCount
  {
    var p := Picks(Prepared(input), optionCount);
    PicksProperties(Prepared(input), optionCount);
    IntSort.SortDistinct(p);
    var r := IntSort.Sort(p);
    assert forall i :: i in r <==> i in multiset(p);
    r
  }

  /** The letter loop of the parser over the prepared reply. */
  method CollectLetters(u: string, optionCount: int) returns (selected: seq<int>)
    ensures selected == LetterPicks(u, optionCount)
  {
    selected := [];
    var i := 0;
    while i < |u|
      invariant 0 <= i <= |u|
      invariant selected == LetterPicks(u[..i], optionCount)
    {
      var c := u[i];
      assert u[..i + 1][..i] == u[..i] && u[..i + 1][i] == c;
      if IsAlpha(c) {
        var index := c as int - 'A' as int;
        if 0 <= index < optionCount && index !in selected {
          selected := selected + [index];
        }
      }
      i := i + 1;
    }
    assert u[..i] == u;
  }

  /** The digit loop of the parser over the prepared reply. */
  method CollectDigits(u: string, optionCount: int) returns (selected: seq<int>)
    ensures selected == DigitPicks(u, optionCount)
  {
    selected := [];
    var i := 0;
    while i < |u|
      invariant 0 <= i <= |u|
      invariant selected == DigitPicks(u[..i], optionCount)
    {
      var c := u[i];
      assert u[..i + 1][..i] == u[..i] && u[..i + 1][i] == c;
      if IsDigit(c) {
        var index := (c as int - '0' as int) - 1;
        if 0 <= index < optionCount && index !in selected {
          selected := selected + [index];
        }
      }
      i := i + 1;
    }
    assert u[..i] == u;
  }

  method ParseMultipleChoiceAnswer(userInput: string, optionCount: int) returns (indices: seq<int>)
    ensures indices == MultipleChoiceIndices(userInput, optionCount)
  {
    var u := Prepared(userInput);
    var selected := CollectLetters(u, optionCount);
    if selected == [] {
      selected := CollectDigits(u, optionCount);
    }
    indices := IntSort.Sort(selected);
  }
}
