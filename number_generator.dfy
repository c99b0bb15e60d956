/**
 * Cards for a numeral: gap cards chosen by which form tables it has
 * (gendered "one"-type, compound, thousands, simple case tables, or a
 * meaning card), then the translation and noun-agreement cards.
 */
module NumberGenerator {
  import opened Text
  import opened Models
  import opened BaseGenerator

  /** The analysed numeral; an absent table is empty. */
  datatype Numeral = Numeral(
    dictionaryForm: string,
    masculine: seq<(string, string)>,
    feminine: seq<(string, string)>,
    neuter: seq<(string, string)>,
    singular: seq<(string, string)>,
    plural: seq<(string, string)>,
    compoundForms: seq<(string, string)>,
    nounAgreement: seq<(string, string)>,
    englishTranslation: string)

  /** Case forms keyed "<CASE> <qualifier>" (description and key alike), tagged `group`, the case and `extra`. */
  function CaseSlots(forms: seq<(string, string)>, qualifier: string, group: string, extra: seq<string>): (r: seq<FormSlot>)
    ensures |r| == |forms|
    ensures forall k :: 0 <= k < |r| ==> r[k].form == forms[k].1 && r[k].key == Upper(forms[k].0) + " " + qualifier
  {
    seq(|forms|, k requires 0 <= k < |forms| =>
      FormSlot(forms[k].1, Upper(forms[k].0) + " " + qualifier, Upper(forms[k].0) + " " + qualifier,
               ["russian", "number", group, forms[k].0] + extra))
  }

  /** Compound forms: "<form name> (compound)", keyed by the form name itself. */
  function CompoundSlots(forms: seq<(string, string)>): (r: seq<FormSlot>)
    ensures |r| == |forms|
    ensures forall k :: 0 <= k < |r| ==> r[k].form == forms[k].1 && r[k].key == forms[k].0
  {
    seq(|forms|, k requires 0 <= k < |forms| =>
      FormSlot(forms[k].1, forms[k].0 + " (compound)", forms[k].0,
               ["russian", "number", "compound", forms[k].0]))
  }

  function OneTypeCards(llm: Llm, n: Numeral, d: string, now: int): seq<Flashcard> {
    GapCards(llm, d, "number", CaseSlots(n.masculine, "masculine", "one", ["masculine"]), now)
    + GapCards(llm, d, "number", CaseSlots(n.feminine, "feminine", "one", ["feminine"]), now)
    + GapCards(llm, d, "number", CaseSlots(n.neuter, "neuter", "one", ["neuter"]), now)
  }

  function SimpleCaseCards(llm: Llm, n: Numeral, d: string, now: int): seq<Flashcard> {
    GapCards(llm, d, "number", CaseSlots(n.singular, "case", "simple_case", []), now)
  }

  function ThousandsCards(llm: Llm, n: Numeral, d: string, now: int): seq<Flashcard> {
    GapCards(llm, d, "number", CaseSlots(n.singular, "singular", "thousands", ["singular"]), now)
    + GapCards(llm, d, "number", CaseSlots(n.plural, "plural", "thousands", ["plural"]), now)
  }

  function CompoundCards(llm: Llm, n: Numeral, d: string, now: int): seq<Flashcard> {
    GapCards(llm, d, "number", CompoundSlots(n.compoundForms), now)
  }

  function MeaningCard(n: Numeral, d: string, now: int): (c: Flashcard)
    ensures c.content.TwoSided? && c.content.back == n.englishTranslation
  {
    TwoSidedCard("What is the English meaning of '" + d + "'?", n.englishTranslation,
                 ["russian", "number", "special", "translation"], d + " - meaning", now)
  }

  function SpecialCards(llm: Llm, n: Numeral, d: string, now: int): seq<Flashcard> {
    if n.singular != [] then SimpleCaseCards(llm, n, d, now)
    else if n.masculine != [] then OneTypeCards(llm, n, d, now)
    else [MeaningCard(n, d, now)]
  }

  method GenerateOneTypeForms(llm: Llm, n: Numeral, dictionaryForm: string, now: int) returns (flashcards: seq<Flashcard>)
    ensures flashcards == OneTypeCards(llm, n, dictionaryForm, now)
  {
    flashcards := GapCardsFor(llm, dictionaryForm, "number", CaseSlots(n.masculine, "masculine", "one", ["masculine"]), now);
    var feminine := GapCardsFor(llm, dictionaryForm, "number", CaseSlots(n.feminine, "feminine", "one", ["feminine"]), now);
    flashcards := flashcards + feminine;
    var neuter := GapCardsFor(llm, dictionaryForm, "number", CaseSlots(n.neuter, "neuter", "one", ["neuter"]), now);
    flashcards := flashcards + neuter;
  }

  method GenerateSimpleCaseForms(llm: Llm, n: Numeral, dictionaryForm: string, now: int) returns (flashcards: seq<Flashcard>)
    ensures flashcards == SimpleCaseCards(llm, n, dictionaryForm, now)
  {
    flashcards := GapCardsFor(llm, dictionaryForm, "number", CaseSlots(n.singular, "case", "simple_case", []), now);
  }

  method GenerateThousandsForms(llm: Llm, n: Numeral, dictionaryForm: string, now: int) returns (flashcards: seq<Flashcard>)
    ensures flashcards == ThousandsCards(llm, n, dictionaryForm, now)
  {
    flashcards := GapCardsFor(llm, dictionaryForm, "number", CaseSlots(n.singular, "singular", "thousands", ["singular"]), now);
    var plural := GapCardsFor(llm, dictionaryForm, "number", CaseSlots(n.plural, "plural", "thousands", ["plural"]), now);
    flashcards := flashcards + plural;
  }

  method GenerateCompoundForms(llm: Llm, n: Numeral, dictionaryForm: string, now: int) returns (flashcards: seq<Flashcard>)
    ensures flashcards == CompoundCards(llm, n, dictionaryForm, now)
  {
    flashcards := GapCardsFor(llm, dictionaryForm, "number", CompoundSlots(n.compoundForms), now);
  }

  method GenerateSpecialForms(llm: Llm, n: Numeral, dictionaryForm: string, now: int) returns (flashcards: seq<Flashcard>)
    ensures flashcards == SpecialCards(llm, n, dictionaryForm, now)
  {
    if n.singular != [] {
      flashcards := GenerateSimpleCaseForms(llm, n, dictionaryForm, now);
    } else if n.masculine != [] {
      flashcards := GenerateOneTypeForms(llm, n, dictionaryForm, now);
    } else {
      flashcards := [MeaningCard(n, dictionaryForm, now)];
    }
  }

  /** "case: pattern" entries joined by "; ". */
  function AgreementText(agreement: seq<(string, string)>): (r: string) {
    Join("; ", seq(|agreement|, k requires 0 <= k < |agreement| => agreement[k].0 + ": " + agreement[k].1))
  }

  /** Every agreement rule appears in the agreement text as "case: pattern". */
  lemma AgreementTextListsRules(agreement: seq<(string, string)>)
    ensures forall k :: 0 <= k < |agreement| ==>
      Contains(AgreementText(agreement), agreement[k].0 + ": " + agreement[k].1)
  {
    var parts := seq(|agreement|, k requires 0 <= k < |agreement| => agreement[k].0 + ": " + agreement[k].1);
    forall k | 0 <= k < |agreement| ensures Contains(AgreementText(agreement), agreement[k].0 + ": " + agreement[k].1) {
      JoinContainsPart("; ", parts, k);
    }
  }

  /** The translation card always, the agreement card when agreement rules are known. */
  function PropertyFlashcards(n: Numeral, d: string, now: int): (r: seq<Flashcard>)
    ensures |r| == if n.nounAgreement != [] then 2 else 1
    ensures forall k :: 0 <= k < |r| ==> r[k].content.TwoSided?
    ensures r[0].content.back == n.englishTranslation
    ensures n.nounAgreement != [] ==> r[1].content.back == AgreementText(n.nounAgreement)
  {
    [TwoSidedCard("What does '" + d + "' mean in English?", n.englishTranslation,
                  ["russian", "number", "translation"], d + " - translation", now)]
    + CardIf(n.nounAgreement != [],
             TwoSidedCard("How do nouns agree with '" + d + "' in different cases?", AgreementText(n.nounAgreement),
                          ["russian", "number", "agreement", "grammar"], d + " - noun agreement", now))
  }

  /** Which form tables decide the gap cards, checked in the source's order. */
  function FormCards(llm: Llm, n: Numeral, now: int): seq<Flashcard> {
    var d := n.dictionaryForm;
    if n.masculine != [] || n.feminine != [] || n.neuter != [] then OneTypeCards(llm, n, d, now)
    else if n.compoundForms != [] then CompoundCards(llm, n, d, now)
    else if n.singular != [] && n.plural != [] then ThousandsCards(llm, n, d, now)
    else if n.singular != [] then SimpleCaseCards(llm, n, d, now)
    else SpecialCards(llm, n, d, now)
  }

  /**
   * The special branch is reached only without gendered, compound and
   * singular tables, so there it always falls through to the meaning
   * card: a numeral with none of those tables gets exactly that card
   * before its property cards.
   */
  lemma {:induction false} NoFormsMeansMeaningCard(llm: Llm, n: Numeral, now: int)
    requires n.masculine == [] && n.feminine == [] && n.neuter == []
    requires n.compoundForms == [] && n.singular == []
    ensures FormCards(llm, n, now) == [MeaningCard(n, n.dictionaryForm, now)]
    ensures FormCards(llm, n, now)[0].content.back == n.englishTranslation
  {
    assert FormCards(llm, n, now) == SpecialCards(llm, n, n.dictionaryForm, now);
  }

  function NumberCards(llm: Llm, n: Numeral, now: int): seq<Flashcard> {
    FormCards(llm, n, now) + PropertyFlashcards(n, n.dictionaryForm, now)
  }

  /** The property cards close the list, after the gap cards the form tables select. */
  lemma NumberCardsShape(llm: Llm, n: Numeral, now: int)
    ensures var r := NumberCards(llm, n, now);
      var p := PropertyFlashcards(n, n.dictionaryForm, now);
      && 1 <= |p| <= |r|
      && r[|r| - |p|..] == p
      && r[..|r| - |p|] == FormCards(llm, n, now)
  {
    var f := FormCards(llm, n, now);
    var p := PropertyFlashcards(n, n.dictionaryForm, now);
    assert (f + p)[|f|..] == p;
    assert (f + p)[..|f|] == f;
  }

  /** Table-selected gap cards, then the property cards. */
  method GenerateFlashcardsFromGrammar(llm: Llm, n: Numeral, wordType: string, now: int) returns (flashcards: seq<Flashcard>)
    ensures flashcards == NumberCards(llm, n, now)
  {
    var dictionaryForm := n.dictionaryForm;
    if n.masculine != [] || n.feminine != [] || n.neuter != [] {
      flashcards := GenerateOneTypeForms(llm, n, dictionaryForm, now);
    } else if n.compoundForms != [] {
      flashcards := GenerateCompoundForms(llm, n, dictionaryForm, now);
    } else if n.singular != [] && n.plural != [] {
      flashcards := GenerateThousandsForms(llm, n, dictionaryForm, now);
    } else if n.singular != [] {
      flashcards := GenerateSimpleCaseForms(llm, n, dictionaryForm, now);
    } else {
      flashcards := GenerateSpecialForms(llm, n, dictionaryForm, now);
    }
    flashcards := flashcards + PropertyFlashcards(n, dictionaryForm, now);
  }
}
