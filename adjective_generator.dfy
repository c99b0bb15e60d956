/**
 * Cards for an adjective: gap cards for the masculine, feminine, neuter
 * and plural case tables, then the short forms, then comparative and
 * superlative cards.
 */
module AdjectiveGenerator {
  import opened Text
  import opened Models
  import opened BaseGenerator

  /** The analysed adjective; an absent optional form is "". */
  datatype Adjective = Adjective(
    dictionaryForm: string,
    masculine: seq<(string, string)>,
    feminine: seq<(string, string)>,
    neuter: seq<(string, string)>,
    plural: seq<(string, string)>,
    shortFormMasculine: string,
    shortFormFeminine: string,
    shortFormNeuter: string,
    shortFormPlural: string,
    comparative: string,
    superlative: string)

  /** "<CASE> <gender>" as description and key, tagged with the gender and the case. */
  function GenderSlots(forms: seq<(string, string)>, gender: string): (r: seq<FormSlot>)
    ensures |r| == |forms|
  {
    seq(|forms|, k requires 0 <= k < |forms| =>
      FormSlot(forms[k].1, Upper(forms[k].0) + " " + gender, Upper(forms[k].0) + " " + gender,
               ["russian", "adjective", gender, forms[k].0, "grammar"]))
  }

  const ShortGenders: seq<string> := ["masculine", "feminine", "neuter", "plural"]

  /** The four short forms in the order masculine, feminine, neuter, plural, keyed "short <gender>". */
  function ShortSlots(adjective: Adjective): (r: seq<FormSlot>)
    ensures |r| == 4
    ensures forall k :: 0 <= k < 4 ==> r[k].key == "short " + ShortGenders[k]
  {
    var forms := [adjective.shortFormMasculine, adjective.shortFormFeminine,
                  adjective.shortFormNeuter, adjective.shortFormPlural];
    seq(4, k requires 0 <= k < 4 =>
      FormSlot(forms[k], "short " + ShortGenders[k], "short " + ShortGenders[k],
               ["russian", "adjective", "short_form", ShortGenders[k], "grammar"]))
  }

  method GenerateMasculineForms(llm: Llm, adjective: Adjective, dictionaryForm: string, now: int) returns (flashcards: seq<Flashcard>)
    ensures flashcards == GapCards(llm, dictionaryForm, "adjective", GenderSlots(adjective.masculine, "masculine"), now)
  {
    flashcards := GapCardsFor(llm, dictionaryForm, "adjective", GenderSlots(adjective.masculine, "masculine"), now);
  }

  method GenerateFeminineForms(llm: Llm, adjective: Adjective, dictionaryForm: string, now: int) returns (flashcards: seq<Flashcard>)
    ensures flashcards == GapCards(llm, dictionaryForm, "adjective", GenderSlots(adjective.feminine, "feminine"), now)
  {
    flashcards := GapCardsFor(llm, dictionaryForm, "adjective", GenderSlots(adjective.feminine, "feminine"), now);
  }

  method GenerateNeuterForms(llm: Llm, adjective: Adjective, dictionaryForm: string, now: int) returns (flashcards: seq<Flashcard>)
    ensures flashcards == GapCards(llm, dictionaryForm, "adjective", GenderSlots(adjective.neuter, "neuter"), now)
  {
    flashcards := GapCardsFor(llm, dictionaryForm, "adjective", GenderSlots(adjective.neuter, "neuter"), now);
  }

  method GeneratePluralForms(llm: Llm, adjective: Adjective, dictionaryForm: string, now: int) returns (flashcards: seq<Flashcard>)
    ensures flashcards == GapCards(llm, dictionaryForm, "adjective", GenderSlots(adjective.plural, "plural"), now)
  {
    flashcards := GapCardsFor(llm, dictionaryForm, "adjective", GenderSlots(adjective.plural, "plural"), now);
  }

  method GenerateShortForms(llm: Llm, adjective: Adjective, dictionaryForm: string, now: int) returns (flashcards: seq<Flashcard>)
    ensures flashcards == GapCards(llm, dictionaryForm, "adjective", ShortSlots(adjective), now)
  {
    flashcards := GapCardsFor(llm, dictionaryForm, "adjective", ShortSlots(adjective), now);
  }

  /** Python's `s and s.strip()`: present and not blank. */
  predicate NonBlank(s: string) {
    s != [] && Strip(s) != []
  }

  /** The one-card list for a comparison form that is present, otherwise no card. */
  function DegreeCard(degree: string, form: string, dictionaryForm: string, now: int): (r: seq<Flashcard>)
    ensures |r| == (if NonBlank(form) then 1 else 0)
    ensures forall k :: 0 <= k < |r| ==> r[k].content.TwoSided? && r[k].content.back == form
  {
    if NonBlank(form) then
      [TwoSidedCard("What is the " + degree + " form of '" + dictionaryForm + "'?", form,
                    ["russian", "adjective", degree, "grammar"], dictionaryForm + " - " + degree, now)]
    else []
  }

  /** A comparative card exists iff the comparative is not blank, likewise the superlative, in that order. */
  function ComparisonFlashcards(adjective: Adjective, dictionaryForm: string, now: int): (r: seq<Flashcard>)
    ensures |r| == (if NonBlank(adjective.comparative) then 1 else 0) + (if NonBlank(adjective.superlative) then 1 else 0)
    ensures forall k :: 0 <= k < |r| ==> r[k].content.TwoSided?
    ensures NonBlank(adjective.comparative) ==> r[0].content.back == adjective.comparative
    ensures NonBlank(adjective.superlative) ==> r[|r| - 1].content.back == adjective.superlative
  {
    DegreeCard("comparative", adjective.comparative, dictionaryForm, now)
    + DegreeCard("superlative", adjective.superlative, dictionaryForm, now)
  }

  function AdjectiveCards(llm: Llm, adjective: Adjective, now: int): seq<Flashcard> {
    var d := adjective.dictionaryForm;
    GapCards(llm, d, "adjective", GenderSlots(adjective.masculine, "masculine"), now)
    + GapCards(llm, d, "adjective", GenderSlots(adjective.feminine, "feminine"), now)
    + GapCards(llm, d, "adjective", GenderSlots(adjective.neuter, "neuter"), now)
    + GapCards(llm, d, "adjective", GenderSlots(adjective.plural, "plural"), now)
    + GapCards(llm, d, "adjective", ShortSlots(adjective), now)
    + ComparisonFlashcards(adjective, d, now)
  }

  /** At most four short-form cards, each keyed "short <gender>". */
  lemma {:induction false} ShortFormCards(llm: Llm, adjective: Adjective, now: int)
    ensures var r := GapCards(llm, adjective.dictionaryForm, "adjective", ShortSlots(adjective), now);
      && |r| <= 4
      && forall k :: 0 <= k < |r| ==>
           exists j :: 0 <= j < 4 && r[k].metadata["grammatical_key"] == "short " + ShortGenders[j]
  {
    var slots := ShortSlots(adjective);
    var kept := Kept(slots, adjective.dictionaryForm);
    var r := GapCards(llm, adjective.dictionaryForm, "adjective", slots, now);
    forall k | 0 <= k < |r|
      ensures exists j :: 0 <= j < 4 && r[k].metadata["grammatical_key"] == "short " + ShortGenders[j]
    {
      assert kept[k] in kept;
      var j :| 0 <= j < 4 && slots[j] == kept[k];
      assert kept[k].key == "short " + ShortGenders[j];
      assert r[k].metadata["grammatical_key"] == "short " + ShortGenders[j];
    }
  }

  /**
   * The gap cards of the five tables in order, then the comparison cards:
   * the list ends with the comparison cards and is no longer than the
   * forms plus four short forms plus two.
   */
  lemma AdjectiveCardsShape(llm: Llm, adjective: Adjective, now: int)
    ensures var r := AdjectiveCards(llm, adjective, now);
      var c := ComparisonFlashcards(adjective, adjective.dictionaryForm, now);
      && |r| <= |adjective.masculine| + |adjective.feminine| + |adjective.neuter| + |adjective.plural| + 4 + 2
      && r[|r| - |c|..] == c
  {
    var d := adjective.dictionaryForm;
    var g := GapCards(llm, d, "adjective", GenderSlots(adjective.masculine, "masculine"), now)
      + GapCards(llm, d, "adjective", GenderSlots(adjective.feminine, "feminine"), now)
      + GapCards(llm, d, "adjective", GenderSlots(adjective.neuter, "neuter"), now)
      + GapCards(llm, d, "adjective", GenderSlots(adjective.plural, "plural"), now)
      + GapCards(llm, d, "adjective", ShortSlots(adjective), now);
    var c := ComparisonFlashcards(adjective, d, now);
    assert AdjectiveCards(llm, adjective, now) == g + c;
    assert (g + c)[|g|..] == c;
  }

  /** Masculine, feminine, neuter, plural, short-form gap cards, then the comparison cards. */
  method GenerateFlashcardsFromGrammar(llm: Llm, adjective: Adjective, wordType: string, now: int) returns (flashcards: seq<Flashcard>)
    ensures flashcards == AdjectiveCards(llm, adjective, now)
  {
    flashcards := [];
    var dictionaryForm := adjective.dictionaryForm;
    var masculine := GenerateMasculineForms(llm, adjective, dictionaryForm, now);
    flashcards := flashcards + masculine;
    var feminine := GenerateFeminineForms(llm, adjective, dictionaryForm, now);
    flashcards := flashcards + feminine;
    var neuter := GenerateNeuterForms(llm, adjective, dictionaryForm, now);
    flashcards := flashcards + neuter;
    var plural := GeneratePluralForms(llm, adjective, dictionaryForm, now);
    flashcards := flashcards + plural;
    var short := GenerateShortForms(llm, adjective, dictionaryForm, now);
    flashcards := flashcards + short;
    flashcards := flashcards + ComparisonFlashcards(adjective, dictionaryForm, now);
  }
}
