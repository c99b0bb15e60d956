/**
 * What every word-type generator shares: the filter deciding which forms
 * become cards, the fill-in-the-gap card (sentence from the language
 * model, stem/suffix split, masked sentence), the two-sided and
 * multiple-choice card builders, and the loop that turns a table of forms
 * into gap cards.
 */
module BaseGenerator {
  import opened Text
  import opened Models
  import opened Suffixes
  import opened TextProcessor
  import opened InputParser
  import opened AnswerValidator

  /**
   * The example-sentence generator, from (dictionary form, target form,
   * form description, word type) to a sentence; its output is opaque.
   */
  type Llm = (string, string, string, string) -> string

  // ---------------------------------------------------------------------
  // should_create_flashcard
  // ---------------------------------------------------------------------

  /** A form is worth a card when it is not blank and differs, ignoring case, from the dictionary form. */
  predicate ShouldCreateFlashcard(form: string, dictionaryForm: string) {
    form != [] && Strip(form) != [] && Lower(form) != Lower(dictionaryForm)
  }

  /**
   * No card for an empty or whitespace-only form, nor for the dictionary
   * form in any capitalisation; an accepted form is non-blank and differs
   * from the dictionary form.
   */
  lemma ShouldCreateRules(form: string, dictionaryForm: string)
    ensures ShouldCreateFlashcard(form, dictionaryForm) <==>
      Strip(form) != [] && Lower(form) != Lower(dictionaryForm)
    ensures !ShouldCreateFlashcard(dictionaryForm, dictionaryForm)
    ensures !ShouldCreateFlashcard(Upper(dictionaryForm), dictionaryForm)
    ensures ShouldCreateFlashcard(form, dictionaryForm) ==> form != dictionaryForm && exists k :: 0 <= k < |form| && !IsSpace(form[k])
  {
    if ShouldCreateFlashcard(form, dictionaryForm) {
      StripEmptyIff(form);
    }
    if Strip(form) != [] {
      StripProperties(form);
    }
    assert Strip([]) == [];
    LowerOfUpper(dictionaryForm);
  }

  // ---------------------------------------------------------------------
  // Card builders
  // ---------------------------------------------------------------------

  function TwoSidedCard(front: string, back: string, tags: seq<string>, title: string, now: int): (c: Flashcard)
    ensures c.content == TwoSided(front, back) && c.tags == tags && c.title == Some(title)
  {
    NewFlashcard(TwoSided(front, back), Some(title), tags, map[], now)
  }

  function MultipleChoiceCard(question: string, options: seq<string>, correctIndices: seq<int>,
                              tags: seq<string>, title: string, now: int): (c: Flashcard)
    ensures c.content == MultipleChoice(question, options, correctIndices, false)
    ensures c.tags == tags && c.title == Some(title)
  {
    NewFlashcard(MultipleChoice(question, options, correctIndices, false), Some(title), tags, map[], now)
  }

  /** A card guarded by a condition: the one-card list when it holds, otherwise no card. */
  function CardIf(condition: bool, card: Flashcard): (r: seq<Flashcard>)
    ensures |r| == if condition then 1 else 0
    ensures forall k :: 0 <= k < |r| ==> r[k] == card
  {
    if condition then [card] else []
  }

  /** The card record around a masked sentence; an empty key stands for None and falls back to the description. */
  function GapCardFrom(textWithBlanks: string, suffix: string, dictionaryForm: string, formDescription: string,
                       tags: seq<string>, grammaticalKey: string, now: int): Flashcard
  {
    NewFlashcard(
      FillInTheBlank(textWithBlanks, [suffix], false),
      Some(dictionaryForm + " - " + formDescription + " (gap fill)"),
      tags + ["fill_in_gap", "suffix"],
      map["form_description" := formDescription, "dictionary_form" := dictionaryForm,
          "grammatical_key" := if grammaticalKey != [] then grammaticalKey else formDescription],
      now)
  }

  /**
   * create_fill_in_gap_card, with the intended masking of the first
   * occurrence of the target form.  The single expected answer is the
   * suffix, which completes the stem to the target form.
   */
  function FillInGapCard(llm: Llm, dictionaryForm: string, targetForm: string, formDescription: string,
                         wordType: string, tags: seq<string>, grammaticalKey: string, now: int): (c: Flashcard)
    ensures c.content.FillInTheBlank? && |c.content.answers| == 1 && !c.content.caseSensitive
    ensures SplitStem(dictionaryForm, targetForm).0 + c.content.answers[0] == targetForm
    ensures Contains(c.content.textWithBlanks, Models.Blank)
    ensures c.tags == tags + ["fill_in_gap", "suffix"]
    ensures c.title == Some(dictionaryForm + " - " + formDescription + " (gap fill)")
    ensures "grammatical_key" in c.metadata &&
      c.metadata["grammatical_key"] == (if grammaticalKey != [] then grammaticalKey else formDescription)
  {
    var sentence := llm(dictionaryForm, targetForm, formDescription, wordType);
    var split := SplitStem(dictionaryForm, targetForm);
    FinishShowsBlank(sentence, ReplaceFirst(sentence, targetForm, split.0 + Models.Blank), targetForm, split.0);
    GapCardFrom(SentenceWithBlank(sentence, targetForm, split.0), split.1, dictionaryForm, formDescription,
                tags, grammaticalKey, now)
  }

  /** create_fill_in_gap_card as written: the sentence is masked by a replace-all. */
  function FillInGapCardAsWritten(llm: Llm, dictionaryForm: string, targetForm: string, formDescription: string,
                                  wordType: string, tags: seq<string>, grammaticalKey: string, now: int): Flashcard
  {
    var sentence := llm(dictionaryForm, targetForm, formDescription, wordType);
    var split := SplitStem(dictionaryForm, targetForm);
    GapCardFrom(SentenceWithBlankAsWritten(sentence, targetForm, split.0), split.1, dictionaryForm, formDescription,
                tags, grammaticalKey, now)
  }

  /** A form a learner can type as one answer: no whitespace, no brace, no answer separator. */
  predicate TypableForm(form: string) {
    forall k :: 0 <= k < |form| ==> !IsSpace(form[k]) && form[k] != '{' && form[k] !in Separators
  }

  lemma TypableSuffix(stem: string, suffix: string)
    requires TypableForm(stem + suffix)
    ensures TypableForm(stem) && TypableForm(suffix) && PlainAnswer(suffix)
  {
    assert forall k :: 0 <= k < |stem| ==> stem[k] == (stem + suffix)[k];
    assert forall k :: 0 <= k < |suffix| ==> suffix[k] == (stem + suffix)[|stem| + k];
    assert forall k :: 0 <= k < |Separators| ==> Separators[k] !in suffix;
  }

  /**
   * With a generated sentence free of braces and a typable target form,
   * the intended gap card has exactly one blank and accepts the suffix
   * typed by the learner.
   */
  lemma GapCardAcceptsSuffix(llm: Llm, dictionaryForm: string, targetForm: string, formDescription: string,
                             wordType: string, tags: seq<string>, grammaticalKey: string, now: int)
    requires '{' !in llm(dictionaryForm, targetForm, formDescription, wordType)
    requires targetForm != [] && TypableForm(targetForm)
    ensures var c := FillInGapCard(llm, dictionaryForm, targetForm, formDescription, wordType, tags, grammaticalKey, now);
      && BlankCount(c.content.textWithBlanks) == 1
      && CheckAnswer(Card(c.content), SplitStem(dictionaryForm, targetForm).1) == (true, CorrectFeedback)
  {
    var sentence := llm(dictionaryForm, targetForm, formDescription, wordType);
    var split := SplitStem(dictionaryForm, targetForm);
    TypableSuffix(split.0, split.1);
    SentenceWithBlankHasOneBlank(sentence, targetForm, split.0);
    var c := FillInGapCard(llm, dictionaryForm, targetForm, formDescription, wordType, tags, grammaticalKey, now);
    FillInAnswersAccepted(c.content.textWithBlanks, [split.1], false);
    assert Join(",", [split.1]) == split.1;
  }

  /**
   * As written, a sentence that holds the target form twice gets two
   * blanks for a card with one answer, so no reply is ever accepted.
   */
  lemma GapCardAsWrittenRejectsAll(llm: Llm, dictionaryForm: string, targetForm: string, formDescription: string,
                                   wordType: string, tags: seq<string>, grammaticalKey: string, now: int,
                                   a: string, b: string, c: string, reply: string)
    requires llm(dictionaryForm, targetForm, formDescription, wordType) == a + targetForm + b + targetForm + c
    requires targetForm != [] && TypableForm(targetForm)
    requires targetForm[0] !in a && targetForm[0] !in b && targetForm[0] !in c
    requires '{' !in a + targetForm + b + targetForm + c
    ensures var card := FillInGapCardAsWritten(llm, dictionaryForm, targetForm, formDescription, wordType, tags, grammaticalKey, now);
      && BlankCount(card.content.textWithBlanks) == 2
      && CheckAnswer(Card(card.content), reply).0 == false
  {
    var split := SplitStem(dictionaryForm, targetForm);
    TypableSuffix(split.0, split.1);
    AsWrittenTwoOccurrences(a, b, c, targetForm, split.0);
  }

  /**
   * On a sentence that holds the target form at most once, the card the
   * code builds is the card of the intended masking.
   */
  lemma GapCardAgreesOnSingleOccurrence(llm: Llm, dictionaryForm: string, targetForm: string, formDescription: string,
                                        wordType: string, tags: seq<string>, grammaticalKey: string, now: int)
    requires targetForm != [] && Count(llm(dictionaryForm, targetForm, formDescription, wordType), targetForm) <= 1
    ensures FillInGapCardAsWritten(llm, dictionaryForm, targetForm, formDescription, wordType, tags, grammaticalKey, now)
         == FillInGapCard(llm, dictionaryForm, targetForm, formDescription, wordType, tags, grammaticalKey, now)
  {
    var sentence := llm(dictionaryForm, targetForm, formDescription, wordType);
    SingleOccurrenceAgrees(sentence, targetForm, SplitStem(dictionaryForm, targetForm).0);
  }

  // ---------------------------------------------------------------------
  // The common loop: one gap card per accepted form of a table
  // ---------------------------------------------------------------------

  /** One entry of a generator's form table with the description, key and tags it gets. */
  datatype FormSlot = FormSlot(form: string, description: string, key: string, tags: seq<string>)

  /** The slots whose form passes the filter, in table order. */
  function Kept(slots: seq<FormSlot>, dictionaryForm: string): (r: seq<FormSlot>)
    ensures |r| <= |slots|
    ensures forall s :: s in r <==> s in slots && ShouldCreateFlashcard(s.form, dictionaryForm)
  {
    if slots == [] then []
    else
      var last := slots[|slots| - 1];
      assert slots == slots[..|slots| - 1] + [last];
      Kept(slots[..|slots| - 1], dictionaryForm) + (if ShouldCreateFlashcard(last.form, dictionaryForm) then [last] else [])
  }

  function SlotCard(llm: Llm, dictionaryForm: string, wordType: string, s: FormSlot, now: int): Flashcard {
    FillInGapCard(llm, dictionaryForm, s.form, s.description, wordType, s.tags, s.key, now)
  }

  /** The gap cards of a form table: one per kept slot, in order. */
  function GapCards(llm: Llm, dictionaryForm: string, wordType: string, slots: seq<FormSlot>, now: int): (r: seq<Flashcard>)
    ensures |r| == |Kept(slots, dictionaryForm)| <= |slots|
    ensures forall k :: 0 <= k < |r| ==> r[k] == SlotCard(llm, dictionaryForm, wordType, Kept(slots, dictionaryForm)[k], now)
  {
    var kept := Kept(slots, dictionaryForm);
    seq(|kept|, k requires 0 <= k < |kept| => SlotCard(llm, dictionaryForm, wordType, kept[k], now))
  }

  lemma GapCardsStep(llm: Llm, dictionaryForm: string, wordType: string, slots: seq<FormSlot>, i: nat, now: int)
    requires i < |slots|
    ensures GapCards(llm, dictionaryForm, wordType, slots[..i + 1], now) ==
      GapCards(llm, dictionaryForm, wordType, slots[..i], now) +
      (if ShouldCreateFlashcard(slots[i].form, dictionaryForm) then [SlotCard(llm, dictionaryForm, wordType, slots[i], now)] else [])
  {
    assert slots[..i + 1][..i] == slots[..i];
    assert slots[..i + 1][i] == slots[i];
  }

  /** for entry in table: if should_create_flashcard(...): append(create_fill_in_gap_card(...)) */
  method GapCardsFor(llm: Llm, dictionaryForm: string, wordType: string, slots: seq<FormSlot>, now: int)
    returns (flashcards: seq<Flashcard>)
    ensures flashcards == GapCards(llm, dictionaryForm, wordType, slots, now)
  {
    flashcards := [];
    for i := 0 to |slots|
      invariant flashcards == GapCards(llm, dictionaryForm, wordType, slots[..i], now)
    {
      GapCardsStep(llm, dictionaryForm, wordType, slots, i, now);
      if ShouldCreateFlashcard(slots[i].form, dictionaryForm) {
        var flashcard := FillInGapCard(llm, dictionaryForm, slots[i].form, slots[i].description, wordType,
                                       slots[i].tags, slots[i].key, now);
        flashcards := flashcards + [flashcard];
      }
    }
    assert slots[..|slots|] == slots;
  }

  /** Every gap card of a table is a fill-in card for one kept form, with the tags of its slot. */
  lemma GapCardsShape(llm: Llm, dictionaryForm: string, wordType: string, slots: seq<FormSlot>, now: int)
    ensures var r := GapCards(llm, dictionaryForm, wordType, slots, now);
      forall k :: 0 <= k < |r| ==>
        && r[k].content.FillInTheBlank?
        && exists s :: s in slots && ShouldCreateFlashcard(s.form, dictionaryForm) && r[k].tags == s.tags + ["fill_in_gap", "suffix"]
  {
    var kept := Kept(slots, dictionaryForm);
    var r := GapCards(llm, dictionaryForm, wordType, slots, now);
    forall k | 0 <= k < |r|
      ensures r[k].content.FillInTheBlank?
      ensures exists s :: s in slots && ShouldCreateFlashcard(s.form, dictionaryForm) && r[k].tags == s.tags + ["fill_in_gap", "suffix"]
    {
      var s := kept[k];
      assert s in kept;
      assert r[k] == SlotCard(llm, dictionaryForm, wordType, s, now);
      assert s in slots && ShouldCreateFlashcard(s.form, dictionaryForm) && r[k].tags == s.tags + ["fill_in_gap", "suffix"];
    }
  }

  predicate AllFillIn(cards: seq<Flashcard>) {
    forall k :: 0 <= k < |cards| ==> cards[k].content.FillInTheBlank?
  }

  /** Gap cards are fill-in cards, at most one per slot. */
  lemma GapCardsFillIn(llm: Llm, dictionaryForm: string, wordType: string, slots: seq<FormSlot>, now: int)
    ensures AllFillIn(GapCards(llm, dictionaryForm, wordType, slots, now))
    ensures |GapCards(llm, dictionaryForm, wordType, slots, now)| <= |slots|
  {
    var kept := Kept(slots, dictionaryForm);
    var r := GapCards(llm, dictionaryForm, wordType, slots, now);
    forall k | 0 <= k < |r| ensures r[k].content.FillInTheBlank? {
      assert r[k] == SlotCard(llm, dictionaryForm, wordType, kept[k], now);
    }
  }

  lemma AllFillInAppend(a: seq<Flashcard>, b: seq<Flashcard>)
    requires AllFillIn(a) && AllFillIn(b)
    ensures AllFillIn(a + b)
  {
    forall k | 0 <= k < |a + b| ensures (a + b)[k].content.FillInTheBlank? {
      if k < |a| {
        assert (a + b)[k] == a[k];
      } else {
        assert (a + b)[k] == b[k - |a|];
      }
    }
  }

  /** The base class's generator is abstract: calling it raises NotImplementedError. */
  datatype Outcome<T> = Done(value: T) | Raised(error: string)

  function BaseGenerate(): (r: Outcome<seq<Flashcard>>)
    ensures r.Raised? && r.error == "Subclasses must implement generate_flashcards_from_grammar"
  {
    Raised("Subclasses must implement generate_flashcards_from_grammar")
  }
}
