/**
 * Cards for a noun: a gap card per accepted singular form, then per
 * accepted plural form, then the gender and animacy cards.
 */
module NounGenerator {
  import opened Text
  import opened Models
  import opened BaseGenerator

  /** The analysed noun; each case table is an insertion-ordered (case, form) list. */
  datatype Noun = Noun(
    dictionaryForm: string,
    gender: string,
    animacy: bool,
    singular: seq<(string, string)>,
    plural: seq<(string, string)>,
    englishTranslation: string)

  /** "<CASE> <number>" as description and key, tagged with the number and the case. */
  function CaseSlots(forms: seq<(string, string)>, number: string): (r: seq<FormSlot>)
    ensures |r| == |forms|
  {
    seq(|forms|, k requires 0 <= k < |forms| =>
      FormSlot(forms[k].1, Upper(forms[k].0) + " " + number, Upper(forms[k].0) + " " + number,
               ["russian", "noun", number, forms[k].0, "grammar"]))
  }

  method GenerateSingularForms(llm: Llm, noun: Noun, dictionaryForm: string, now: int) returns (flashcards: seq<Flashcard>)
    ensures flashcards == GapCards(llm, dictionaryForm, "noun", CaseSlots(noun.singular, "singular"), now)
  {
    flashcards := GapCardsFor(llm, dictionaryForm, "noun", CaseSlots(noun.singular, "singular"), now);
  }

  method GeneratePluralForms(llm: Llm, noun: Noun, dictionaryForm: string, now: int) returns (flashcards: seq<Flashcard>)
    ensures flashcards == GapCards(llm, dictionaryForm, "noun", CaseSlots(noun.plural, "plural"), now)
  {
    flashcards := GapCardsFor(llm, dictionaryForm, "noun", CaseSlots(noun.plural, "plural"), now);
  }

  function AnimacyText(animacy: bool): string {
    if animacy then "animate" else "inanimate"
  }

  /** The gender card, whose answer is the noun's gender, and the animacy card. */
  function PropertyFlashcards(noun: Noun, dictionaryForm: string, now: int): (r: seq<Flashcard>)
    ensures |r| == 2 && r[0].content.TwoSided? && r[1].content.TwoSided?
    ensures r[0].content.back == noun.gender
    ensures r[1].content.back == AnimacyText(noun.animacy)
  {
    [TwoSidedCard("What is the gender of '" + dictionaryForm + "'?", noun.gender,
                  ["russian", "noun", "gender", "grammar"], dictionaryForm + " - gender", now),
     TwoSidedCard("Is '" + dictionaryForm + "' animate or inanimate?", AnimacyText(noun.animacy),
                  ["russian", "noun", "animacy", "grammar"], dictionaryForm + " - animacy", now)]
  }

  /** The animacy card accepts the reply "animate" exactly when the noun is animate. */
  lemma AnimacyAnswer(animacy: bool)
    ensures CheckTwoSided(AnimacyText(animacy), "animate") <==> animacy
    ensures CheckTwoSided(AnimacyText(animacy), "inanimate") <==> !animacy
  {
    PlainWord("animate");
    PlainWord("inanimate");
    assert |"animate"| != |"inanimate"|;
  }

  /** A lower-case word without spaces is its own normal form. */
  lemma PlainWord(w: string)
    requires w != [] && forall k :: 0 <= k < |w| ==> IsAsciiLower(w[k])
    ensures Normalized(w) == w
  {
    LowerFixed(w);
    assert IsStripped(w);
    StripOfStripped(w);
  }

  function NounCards(llm: Llm, noun: Noun, now: int): seq<Flashcard> {
    GapCards(llm, noun.dictionaryForm, "noun", CaseSlots(noun.singular, "singular"), now)
    + GapCards(llm, noun.dictionaryForm, "noun", CaseSlots(noun.plural, "plural"), now)
    + PropertyFlashcards(noun, noun.dictionaryForm, now)
  }

  /**
   * One gap card per accepted singular form, then per accepted plural
   * form, and the two property cards last.
   */
  lemma NounCardsShape(llm: Llm, noun: Noun, now: int)
    ensures var r := NounCards(llm, noun, now);
      && |r| == |Kept(CaseSlots(noun.singular, "singular"), noun.dictionaryForm)|
              + |Kept(CaseSlots(noun.plural, "plural"), noun.dictionaryForm)| + 2
      && |r| <= |noun.singular| + |noun.plural| + 2
      && r[|r| - 2..] == PropertyFlashcards(noun, noun.dictionaryForm, now)
  {
    var a := GapCards(llm, noun.dictionaryForm, "noun", CaseSlots(noun.singular, "singular"), now);
    var b := GapCards(llm, noun.dictionaryForm, "noun", CaseSlots(noun.plural, "plural"), now);
    var p := PropertyFlashcards(noun, noun.dictionaryForm, now);
    assert NounCards(llm, noun, now) == a + b + p;
    assert (a + b + p)[|a| + |b|..] == p;
  }

  /**
   * Singular gap cards, plural gap cards, then the two property cards;
   * a form gets a card exactly when it passes the filter.
   */
  method GenerateFlashcardsFromGrammar(llm: Llm, noun: Noun, wordType: string, now: int) returns (flashcards: seq<Flashcard>)
    ensures flashcards == NounCards(llm, noun, now)
  {
    flashcards := [];
    var dictionaryForm := noun.dictionaryForm;
    var singular := GenerateSingularForms(llm, noun, dictionaryForm, now);
    flashcards := flashcards + singular;
    var plural := GeneratePluralForms(llm, noun, dictionaryForm, now);
    flashcards := flashcards + plural;
    var properties := PropertyFlashcards(noun, dictionaryForm, now);
    flashcards := flashcards + properties;
  }
}
