/**
 * Cards for a pronoun: gap cards chosen by its declension pattern
 * (noun-like, adjective-like or special), then the property cards.
 */
module PronounGenerator {
  import opened Text
  import opened Models
  import opened BaseGenerator

  /** The analysed pronoun; an absent field is "" or an empty table. */
  datatype Pronoun = Pronoun(
    dictionaryForm: string,
    pronounType: string,
    declensionPattern: string,
    person: string,
    number: string,
    gender: string,
    singular: seq<(string, string)>,
    plural: seq<(string, string)>,
    masculine: seq<(string, string)>,
    feminine: seq<(string, string)>,
    neuter: seq<(string, string)>,
    pluralAdjectiveLike: seq<(string, string)>,
    englishTranslation: string)

  /** A singular personal form's description: person and gender when both are known. */
  function SingularDescription(c: string, person: string, gender: string): (r: string)
    ensures person != [] && gender != [] ==> r == Upper(c) + " (" + person + " person, " + gender + ")"
    ensures person != [] && gender == [] ==> r == Upper(c) + " (" + person + " person)"
    ensures person == [] ==> r == Upper(c) + " singular"
  {
    var personDesc := if person != [] then person + " person" else "";
    var genderDesc := if gender != [] then gender else "";
    if personDesc != [] && genderDesc != [] then Upper(c) + " (" + personDesc + ", " + genderDesc + ")"
    else if personDesc != [] then Upper(c) + " (" + personDesc + ")"
    else Upper(c) + " singular"
  }

  function PluralDescription(c: string, person: string): (r: string)
    ensures person != [] ==> r == Upper(c) + " (" + person + " person)"
    ensures person == [] ==> r == Upper(c) + " plural"
  {
    var personDesc := if person != [] then person + " person" else "";
    if personDesc != [] then Upper(c) + " (" + personDesc + ")" else Upper(c) + " plural"
  }

  /** Personal forms of one number, keyed "<CASE> case". */
  function PersonalSlots(pronoun: Pronoun, forms: seq<(string, string)>, number: string): (r: seq<FormSlot>)
    ensures |r| == |forms|
    ensures forall k :: 0 <= k < |r| ==> r[k].form == forms[k].1 && r[k].key == Upper(forms[k].0) + " case"
  {
    seq(|forms|, k requires 0 <= k < |forms| =>
      FormSlot(forms[k].1,
               if number == "singular" then SingularDescription(forms[k].0, pronoun.person, pronoun.gender)
               else PluralDescription(forms[k].0, pronoun.person),
               Upper(forms[k].0) + " case",
               ["russian", "pronoun", "personal", forms[k].0, number]))
  }

  /** Gendered forms: "<CASE> <gender>" as description and key, tagged with the pronoun type. */
  function GenderSlots(pronoun: Pronoun, forms: seq<(string, string)>, gender: string): (r: seq<FormSlot>)
    ensures |r| == |forms|
    ensures forall k :: 0 <= k < |r| ==> r[k].form == forms[k].1 && r[k].key == Upper(forms[k].0) + " " + gender
  {
    seq(|forms|, k requires 0 <= k < |forms| =>
      FormSlot(forms[k].1, Upper(forms[k].0) + " " + gender, Upper(forms[k].0) + " " + gender,
               ["russian", "pronoun", pronoun.pronounType, forms[k].0, gender]))
  }

  function NounLikeCards(llm: Llm, pronoun: Pronoun, d: string, now: int): seq<Flashcard> {
    GapCards(llm, d, "pronoun", PersonalSlots(pronoun, pronoun.singular, "singular"), now)
    + GapCards(llm, d, "pronoun", PersonalSlots(pronoun, pronoun.plural, "plural"), now)
  }

  function AdjectiveLikeCards(llm: Llm, pronoun: Pronoun, d: string, now: int): seq<Flashcard> {
    GapCards(llm, d, "pronoun", GenderSlots(pronoun, pronoun.masculine, "masculine"), now)
    + GapCards(llm, d, "pronoun", GenderSlots(pronoun, pronoun.feminine, "feminine"), now)
    + GapCards(llm, d, "pronoun", GenderSlots(pronoun, pronoun.neuter, "neuter"), now)
    + GapCards(llm, d, "pronoun", GenderSlots(pronoun, pronoun.pluralAdjectiveLike, "plural"), now)
  }

  function MeaningCard(pronoun: Pronoun, d: string, now: int): (c: Flashcard)
    ensures c.content.TwoSided? && c.content.back == pronoun.englishTranslation
  {
    TwoSidedCard("What is the English meaning of '" + d + "'?", pronoun.englishTranslation,
                 ["russian", "pronoun", pronoun.pronounType, "translation"], d + " - meaning", now)
  }

  /** Noun-like when singular forms exist, else adjective-like when masculine forms exist, else a meaning card. */
  function SpecialCards(llm: Llm, pronoun: Pronoun, d: string, now: int): seq<Flashcard> {
    if pronoun.singular != [] then NounLikeCards(llm, pronoun, d, now)
    else if pronoun.masculine != [] then AdjectiveLikeCards(llm, pronoun, d, now)
    else [MeaningCard(pronoun, d, now)]
  }

  /**
   * A special pronoun with no singular and no masculine table yields
   * exactly its meaning card; with a singular table it is treated as
   * noun-like, so every card is a gap card keyed by case.
   */
  lemma {:induction false} SpecialFallsBack(llm: Llm, pronoun: Pronoun, d: string, now: int)
    ensures pronoun.singular == [] && pronoun.masculine == [] ==>
      var r := SpecialCards(llm, pronoun, d, now);
      r == [MeaningCard(pronoun, d, now)]
    ensures pronoun.singular != [] ==>
      var r := SpecialCards(llm, pronoun, d, now);
      |r| <= |pronoun.singular| + |pronoun.plural| && forall k :: 0 <= k < |r| ==> r[k].content.FillInTheBlank?
  {
    if pronoun.singular != [] {
      var sing := PersonalSlots(pronoun, pronoun.singular, "singular");
      var plur := PersonalSlots(pronoun, pronoun.plural, "plural");
      GapCardsFillIn(llm, d, "pronoun", sing, now);
      GapCardsFillIn(llm, d, "pronoun", plur, now);
      AllFillInAppend(GapCards(llm, d, "pronoun", sing, now), GapCards(llm, d, "pronoun", plur, now));
    }
  }

  method GenerateNounLikeForms(llm: Llm, pronoun: Pronoun, dictionaryForm: string, now: int) returns (flashcards: seq<Flashcard>)
    ensures flashcards == NounLikeCards(llm, pronoun, dictionaryForm, now)
  {
    var singular := GapCardsFor(llm, dictionaryForm, "pronoun", PersonalSlots(pronoun, pronoun.singular, "singular"), now);
    var plural := GapCardsFor(llm, dictionaryForm, "pronoun", PersonalSlots(pronoun, pronoun.plural, "plural"), now);
    flashcards := singular + plural;
  }

  method GenerateAdjectiveLikeForms(llm: Llm, pronoun: Pronoun, dictionaryForm: string, now: int) returns (flashcards: seq<Flashcard>)
    ensures flashcards == AdjectiveLikeCards(llm, pronoun, dictionaryForm, now)
  {
    flashcards := GapCardsFor(llm, dictionaryForm, "pronoun", GenderSlots(pronoun, pronoun.masculine, "masculine"), now);
    var feminine := GapCardsFor(llm, dictionaryForm, "pronoun", GenderSlots(pronoun, pronoun.feminine, "feminine"), now);
    flashcards := flashcards + feminine;
    var neuter := GapCardsFor(llm, dictionaryForm, "pronoun", GenderSlots(pronoun, pronoun.neuter, "neuter"), now);
    flashcards := flashcards + neuter;
    var plural := GapCardsFor(llm, dictionaryForm, "pronoun", GenderSlots(pronoun, pronoun.pluralAdjectiveLike, "plural"), now);
    flashcards := flashcards + plural;
  }

  method GenerateSpecialForms(llm: Llm, pronoun: Pronoun, dictionaryForm: string, now: int) returns (flashcards: seq<Flashcard>)
    ensures flashcards == SpecialCards(llm, pronoun, dictionaryForm, now)
  {
    if pronoun.singular != [] {
      flashcards := GenerateNounLikeForms(llm, pronoun, dictionaryForm, now);
    } else if pronoun.masculine != [] {
      flashcards := GenerateAdjectiveLikeForms(llm, pronoun, dictionaryForm, now);
    } else {
      flashcards := [MeaningCard(pronoun, dictionaryForm, now)];
    }
  }

  const PatternDescriptions: seq<(string, string)> := [
    ("noun_like", "Declines like a noun (personal pronouns)"),
    ("adjective_like", "Declines like an adjective (demonstrative, possessive pronouns)"),
    ("special", "Has a special/irregular declension pattern")]

  /** The explanation of a declension pattern, or the pattern itself when it is not one of the three. */
  function DeclensionText(pattern: string): string {
    DictGet(PatternDescriptions, pattern, pattern)
  }

  lemma DeclensionLookup(pattern: string)
    ensures forall k :: 0 <= k < |PatternDescriptions| && pattern == PatternDescriptions[k].0 ==>
      DeclensionText(pattern) == PatternDescriptions[k].1
    ensures (forall k :: 0 <= k < |PatternDescriptions| ==> pattern != PatternDescriptions[k].0) ==>
      DeclensionText(pattern) == pattern
  {
    assert DistinctKeys(PatternDescriptions);
    forall k | 0 <= k < |PatternDescriptions| && pattern == PatternDescriptions[k].0
      ensures DeclensionText(pattern) == PatternDescriptions[k].1
    {
      DictGetDistinct(PatternDescriptions, pattern, pattern, k);
    }
  }

  /**
   * Type, translation and declension cards always; the person-and-number
   * card when both are known; the gender card when the gender is known.
   */
  function PropertyFlashcards(pronoun: Pronoun, d: string, now: int): (r: seq<Flashcard>)
    ensures |r| == 3 + (if pronoun.person != [] && pronoun.number != [] then 1 else 0) + (if pronoun.gender != [] then 1 else 0)
    ensures forall k :: 0 <= k < |r| ==> r[k].content.TwoSided?
    ensures r[0].content.back == Title(pronoun.pronounType)
    ensures r[1].content.back == pronoun.englishTranslation
    ensures r[2].content.back == DeclensionText(pronoun.declensionPattern)
    ensures pronoun.person != [] && pronoun.number != [] ==>
      r[3].content.back == Title(pronoun.person) + " person, " + pronoun.number
    ensures pronoun.gender != [] ==> r[|r| - 1].content.back == Title(pronoun.gender)
  {
    var first := FixedPropertyCards(pronoun, d, now);
    var person := CardIf(pronoun.person != [] && pronoun.number != [], PersonCard(pronoun, d, now));
    var gender := CardIf(pronoun.gender != [], GenderCard(pronoun, d, now));
    assert (first + person + gender)[..3] == first;
    first + person + gender
  }

  /** The type, meaning and declension cards every pronoun gets. */
  function FixedPropertyCards(pronoun: Pronoun, d: string, now: int): (r: seq<Flashcard>)
    ensures |r| == 3 && forall k :: 0 <= k < 3 ==> r[k].content.TwoSided?
    ensures r[0].content.back == Title(pronoun.pronounType)
    ensures r[1].content.back == pronoun.englishTranslation
    ensures r[2].content.back == DeclensionText(pronoun.declensionPattern)
  {
    [TwoSidedCard("What type of pronoun is '" + d + "'?", Title(pronoun.pronounType),
                  ["russian", "pronoun", "type", "grammar"], d + " - pronoun type", now),
     TwoSidedCard("What does '" + d + "' mean in English?", pronoun.englishTranslation,
                  ["russian", "pronoun", "translation"], d + " - translation", now),
     TwoSidedCard("How does '" + d + "' decline?", DeclensionText(pronoun.declensionPattern),
                  ["russian", "pronoun", "declension", "grammar"], d + " - declension pattern", now)]
  }

  function PersonCard(pronoun: Pronoun, d: string, now: int): (c: Flashcard)
    ensures c.content == TwoSided("What person and number is '" + d + "'?", Title(pronoun.person) + " person, " + pronoun.number)
  {
    TwoSidedCard("What person and number is '" + d + "'?", Title(pronoun.person) + " person, " + pronoun.number,
                 ["russian", "pronoun", "personal", "grammar"], d + " - person and number", now)
  }

  function GenderCard(pronoun: Pronoun, d: string, now: int): (c: Flashcard)
    ensures c.content == TwoSided("What gender is '" + d + "'?", Title(pronoun.gender))
  {
    TwoSidedCard("What gender is '" + d + "'?", Title(pronoun.gender),
                 ["russian", "pronoun", "gender", "grammar"], d + " - gender", now)
  }

  function FormCards(llm: Llm, pronoun: Pronoun, now: int): seq<Flashcard> {
    var d := pronoun.dictionaryForm;
    if pronoun.declensionPattern == "noun_like" then NounLikeCards(llm, pronoun, d, now)
    else if pronoun.declensionPattern == "adjective_like" then AdjectiveLikeCards(llm, pronoun, d, now)
    else SpecialCards(llm, pronoun, d, now)
  }

  function PronounCards(llm: Llm, pronoun: Pronoun, now: int): seq<Flashcard> {
    FormCards(llm, pronoun, now) + PropertyFlashcards(pronoun, pronoun.dictionaryForm, now)
  }

  /** The property cards close the list, after the gap cards of the selected pattern. */
  lemma PronounCardsShape(llm: Llm, pronoun: Pronoun, now: int)
    ensures var r := PronounCards(llm, pronoun, now);
      var p := PropertyFlashcards(pronoun, pronoun.dictionaryForm, now);
      && 3 <= |p| <= |r|
      && r[|r| - |p|..] == p
      && r[..|r| - |p|] == FormCards(llm, pronoun, now)
  {
    var f := FormCards(llm, pronoun, now);
    var p := PropertyFlashcards(pronoun, pronoun.dictionaryForm, now);
    assert (f + p)[|f|..] == p;
    assert (f + p)[..|f|] == f;
  }

  /** Pattern-selected gap cards, then the property cards. */
  method GenerateFlashcardsFromGrammar(llm: Llm, pronoun: Pronoun, wordType: string, now: int) returns (flashcards: seq<Flashcard>)
    ensures flashcards == PronounCards(llm, pronoun, now)
  {
    var dictionaryForm := pronoun.dictionaryForm;
    if pronoun.declensionPattern == "noun_like" {
      flashcards := GenerateNounLikeForms(llm, pronoun, dictionaryForm, now);
    } else if pronoun.declensionPattern == "adjective_like" {
      flashcards := GenerateAdjectiveLikeForms(llm, pronoun, dictionaryForm, now);
    } else {
      flashcards := GenerateSpecialForms(llm, pronoun, dictionaryForm, now);
    }
    flashcards := flashcards + PropertyFlashcards(pronoun, dictionaryForm, now);
  }
}
