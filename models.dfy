/**
 * The flashcard records: three card kinds sharing the spaced-repetition
 * and bookkeeping fields, their question rendering and their answer
 * checks.  Timestamps are whole days; the ease factor is a real number.
 */
module Models {
  import opened Text
  import IntSort

  datatype FlashcardType = TwoSidedType | FillInBlankType | MultipleChoiceType

  /** The enum's string value, as stored in the database. */
  function TypeName(t: FlashcardType): string {
    match t
    case TwoSidedType => "two_sided"
    case FillInBlankType => "fill_in_blank"
    case MultipleChoiceType => "multiple_choice"
  }

  /** The enum member whose value is `name`, if any. */
  function ParseType(name: string): (r: Option<FlashcardType>)
    ensures r.Some? ==> TypeName(r.value) == name
  {
    if name == "two_sided" then Some(TwoSidedType)
    else if name == "fill_in_blank" then Some(FillInBlankType)
    else if name == "multiple_choice" then Some(MultipleChoiceType)
    else None
  }

  lemma ParseTypeName(t: FlashcardType)
    ensures ParseType(TypeName(t)) == Some(t)
  {
  }

  datatype DifficultyLevel = VeryEasy | Easy | Medium | Hard | VeryHard

  function DifficultyName(d: DifficultyLevel): string {
    match d
    case VeryEasy => "very_easy"
    case Easy => "easy"
    case Medium => "medium"
    case Hard => "hard"
    case VeryHard => "very_hard"
  }

  /** The kind-specific part of a card. */
  datatype Content =
    | TwoSided(front: string, back: string)
    | FillInTheBlank(textWithBlanks: string, answers: seq<string>, caseSensitive: bool)
    | MultipleChoice(question: string, options: seq<string>, correctIndices: seq<int>, allowMultiple: bool)
  {
    function Type(): FlashcardType {
      match this
      case TwoSided(_, _) => TwoSidedType
      case FillInTheBlank(_, _, _) => FillInBlankType
      case MultipleChoice(_, _, _, _) => MultipleChoiceType
    }
  }

  datatype Flashcard = Flashcard(
    id: Option<string>,
    title: Option<string>,
    content: Content,
    dueDate: int,
    difficulty: DifficultyLevel,
    repetitionCount: int,
    easeFactor: real,
    intervalDays: int,
    tags: seq<string>,
    metadata: map<string, string>,
    createdAt: int,
    updatedAt: int,
    timesCorrect: int,
    timesIncorrect: int)

  /** A card built with every optional field at its declared default, on day `now`. */
  function NewFlashcard(content: Content, title: Option<string>, tags: seq<string>,
                        metadata: map<string, string>, now: int): (c: Flashcard)
    ensures c.content == content && c.title == title && c.tags == tags && c.metadata == metadata
    ensures c.id.None?
    ensures c.dueDate == now && c.createdAt == now && c.updatedAt == now
    ensures c.difficulty == Medium && c.repetitionCount == 0 && c.easeFactor == 2.5 && c.intervalDays == 1
    ensures c.timesCorrect == 0 && c.timesIncorrect == 0
  {
    Flashcard(None, title, content, now, Medium, 0, 2.5, 1, tags, metadata, now, now, 0, 0)
  }

  // ---------------------------------------------------------------------
  // Two-sided cards
  // ---------------------------------------------------------------------

  /** An answer as the two-sided check compares it: lower-cased, then stripped. */
  function Normalized(s: string): string {
    Strip(Lower(s))
  }

  function CheckTwoSided(back: string, answer: string): bool {
    Normalized(answer) == Normalized(back)
  }

  /** The check ignores case and surrounding whitespace, and is symmetric. */
  lemma TwoSidedTolerance(back: string, answer: string)
    ensures CheckTwoSided(back, Upper(answer)) == CheckTwoSided(back, answer)
    ensures CheckTwoSided(back, Strip(answer)) == CheckTwoSided(back, answer)
    ensures CheckTwoSided(back, answer) == CheckTwoSided(answer, back)
    ensures CheckTwoSided(back, back)
  {
    LowerOfUpper(answer);
    StripLowerCommute(answer);
    StripIdempotent(Lower(answer));
  }

  /** Stripping before or after lower-casing gives the same string. */
  lemma StripLowerCommute(s: string)
    ensures Lower(Strip(s)) == Strip(Lower(s))
  {
    LowerStripLeft(s);
    LowerStripRight(StripLeft(s));
  }

  lemma LowerCharSpace(c: char)
    ensures IsSpace(LowerChar(c)) == IsSpace(c)
  {
  }

  lemma {:induction false} LowerStripLeft(s: string)
    ensures Lower(StripLeft(s)) == StripLeft(Lower(s))
    decreases |s|
  {
    if s != [] {
      LowerCharSpace(s[0]);
      if IsSpace(s[0]) {
        LowerStripLeft(s[1..]);
      }
    }
  }

  lemma LowerInit(s: string)
    requires s != []
    ensures Lower(s)[..|s| - 1] == Lower(s[..|s| - 1])
  {
  }

  lemma {:induction false} LowerStripRight(s: string)
    ensures Lower(StripRight(s)) == StripRight(Lower(s))
    decreases |s|
  {
    if s != [] {
      var n := |s| - 1;
      LowerCharSpace(s[n]);
      if IsSpace(s[n]) {
        LowerStripRight(s[..n]);
        LowerInit(s);
      }
    }
  }

  // ---------------------------------------------------------------------
  // Fill-in-the-blank cards
  // ---------------------------------------------------------------------

  const Blank: string := "{blank}"
  const BlankShown: string := "_____"

  /** One answer as the fill-in check compares it. */
  function Canonical(s: string, caseSensitive: bool): string {
    if caseSensitive then Strip(s) else Strip(Lower(s))
  }

  /** One user answer matches one expected answer. */
  predicate Agree(user: string, expected: string, caseSensitive: bool) {
    Canonical(user, caseSensitive) == Canonical(expected, caseSensitive)
  }

  /** Every answer of a list in canonical form. */
  function CanonicalAll(xs: seq<string>, caseSensitive: bool): (r: seq<string>)
    ensures |r| == |xs|
    ensures forall i :: 0 <= i < |xs| ==> r[i] == Canonical(xs[i], caseSensitive)
  {
    if xs == [] then [] else [Canonical(xs[0], caseSensitive)] + CanonicalAll(xs[1..], caseSensitive)
  }

  /** The pairwise comparison: false on a count mismatch, else every pair must agree. */
  function CheckFillIn(answers: seq<string>, caseSensitive: bool, user: seq<string>): (r: bool)
    ensures r <==> |user| == |answers| &&
                   forall i :: 0 <= i < |user| ==> Agree(user[i], answers[i], caseSensitive)
  {
    var cu := CanonicalAll(user, caseSensitive);
    var ca := CanonicalAll(answers, caseSensitive);
    assert |user| == |answers| && cu != ca ==> exists i :: 0 <= i < |user| && cu[i] != ca[i];
    |user| == |answers| && cu == ca
  }

  /** Number of non-overlapping "{blank}" markers. */
  function BlankCount(text: string): nat {
    Count(text, Blank)
  }

  function FillInQuestion(text: string): string {
    Replace(text, Blank, BlankShown)
  }

  /** Every marker is shown as five underscores and none survives. */
  lemma FillInQuestionShowsBlanks(text: string)
    ensures !Contains(FillInQuestion(text), Blank)
    ensures |FillInQuestion(text)| == |text| - 2 * BlankCount(text)
    ensures BlankCount(text) > 0 ==> Contains(FillInQuestion(text), BlankShown)
    ensures BlankCount(text) == 0 ==> FillInQuestion(text) == text
  {
    ReplaceRemoves(text, Blank, BlankShown);
    ReplaceLength(text, Blank, BlankShown);
    CountPositiveIff(text, Blank);
    if BlankCount(text) > 0 {
      ReplaceIntroduces(text, Blank, BlankShown);
    } else {
      ReplaceAbsent(text, Blank, BlankShown);
    }
  }

  // ---------------------------------------------------------------------
  // Multiple-choice cards
  // ---------------------------------------------------------------------

  /**
   * Whether `code` is a Unicode scalar value, the codes a `char` holds.
   * Python's chr() also accepts the surrogates 0xD800..0xDFFF and returns a
   * lone surrogate for them; the model counts those as failures.
   */
  predicate IsCharCode(code: int) {
    0 <= code < 0xD800 || 0xE000 <= code < 0x11_0000
  }

  /** chr(65 + i): the option letter A, B, C, ... for index i. */
  function OptionLetter(i: int): (r: Option<char>)
    ensures r.Some? <==> IsCharCode(65 + i)
    ensures r.Some? ==> r.value as int == 65 + i
  {
    if IsCharCode(65 + i) then Some((65 + i) as char) else None
  }

  /** The letters of the correct options, in the stored order; None where some code is not a scalar value. */
  function CorrectLetters(indices: seq<int>): (r: Option<seq<char>>)
    ensures r.Some? <==> forall k :: 0 <= k < |indices| ==> IsCharCode(65 + indices[k])
    ensures r.Some? ==> |r.value| == |indices| &&
                        forall k :: 0 <= k < |indices| ==> r.value[k] as int == 65 + indices[k]
  {
    if indices == [] then Some([])
    else
      match (OptionLetter(indices[0]), CorrectLetters(indices[1..]))
      case (Some(c), Some(rest)) =>
        assert forall k :: 1 <= k < |indices| ==> indices[k] == indices[1..][k - 1];
        Some([c] + rest)
      case (_, _) =>
        assert forall k :: 1 <= k < |indices| ==> indices[k] == indices[1..][k - 1];
        None
  }

  /** "A. first", "B. second", ...: one line per option, lettered by position. */
  function OptionLines(options: seq<string>): (r: Option<seq<string>>)
    ensures r.Some? <==> forall k :: 0 <= k < |options| ==> OptionLetter(k).Some?
    ensures r.Some? ==>
      && |r.value| == |options|
      && forall k :: 0 <= k < |options| ==>
           OptionLetter(k).Some? && r.value[k] == [OptionLetter(k).value] + ". " + options[k]
  {
    if options == [] then Some([])
    else
      var n := |options| - 1;
      match (OptionLines(options[..n]), OptionLetter(n))
      case (Some(init), Some(c)) => Some(init + [[c] + ". " + options[n]])
      case (_, _) => None
  }

  function MultipleChoiceQuestion(question: string, options: seq<string>): (r: Option<string>)
    ensures r.Some? <==> OptionLines(options).Some?
    ensures r.Some? ==> r.value == question + "\n\n" + Join("\n", OptionLines(options).value)
  {
    match OptionLines(options)
    case Some(lines) => Some(question + "\n\n" + Join("\n", lines))
    case None => None
  }

  /** sorted(selected) == sorted(correct). */
  function CheckMultipleChoice(correct: seq<int>, selected: seq<int>): (r: bool)
    ensures r <==> multiset(selected) == multiset(correct)
  {
    IntSort.SortEqualIff(selected, correct);
    IntSort.Sort(selected) == IntSort.Sort(correct)
  }

  /** The text shown to the learner; None when an option letter cannot be formed. */
  function GetQuestion(c: Content): (r: Option<string>)
    ensures c.TwoSided? ==> r == Some(c.front)
    ensures c.FillInTheBlank? ==> r == Some(FillInQuestion(c.textWithBlanks)) && !Contains(r.value, Blank)
    ensures c.MultipleChoice? ==> r == MultipleChoiceQuestion(c.question, c.options)
  {
    match c
    case TwoSided(front, _) => Some(front)
    case FillInTheBlank(text, _, _) =>
      FillInQuestionShowsBlanks(text);
      Some(FillInQuestion(text))
    case MultipleChoice(q, options, _, _) => MultipleChoiceQuestion(q, options)
  }

  // ---------------------------------------------------------------------
  // Construction from a stored document
  // ---------------------------------------------------------------------

  datatype Result<T> = Success(value: T) | Failure(error: string)

  /**
   * Build a card from a stored document whose "type" entry is `typeTag`
   * (None when the entry is missing).  `build` stands for the record
   * validation of the remaining fields for the chosen kind: it fails, as
   * the record constructor's validation error does, when a required field
   * is missing or has the wrong type.
   */
  function CreateFlashcardFromDict(typeTag: Option<string>, build: FlashcardType -> Result<Flashcard>): (r: Result<Flashcard>)
    ensures typeTag.Some? && ParseType(typeTag.value).Some? ==> r == build(ParseType(typeTag.value).value)
    ensures typeTag.None? || ParseType(typeTag.value).None? ==>
      r == Failure("Unknown flashcard type: " + (if typeTag.None? then "None" else typeTag.value))
    ensures r.Success? ==> typeTag.Some? && ParseType(typeTag.value).Some?
  {
    match typeTag
    case None => Failure("Unknown flashcard type: " + "None")
    case Some(name) =>
      match ParseType(name)
      case Some(t) => build(t)
      case None => Failure("Unknown flashcard type: " + name)
  }
}
