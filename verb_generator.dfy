/**
 * Cards for a verb: the aspect question (and the aspect-pair questions
 * when a pair is known), the conjugation type, then gap cards for the
 * present, past and future tables and the imperative.
 */
module VerbGenerator {
  import opened Text
  import opened Models
  import opened BaseGenerator

  /** The analysed verb; an absent form is "". */
  datatype Verb = Verb(
    dictionaryForm: string,
    aspect: string,
    aspectPair: string,
    conjugation: string,
    presentFirstSingular: string, presentSecondSingular: string, presentThirdSingular: string,
    presentFirstPlural: string, presentSecondPlural: string, presentThirdPlural: string,
    pastMasculine: string, pastFeminine: string, pastNeuter: string, pastPlural: string,
    futureFirstSingular: string, futureSecondSingular: string, futureThirdSingular: string,
    futureFirstPlural: string, futureSecondPlural: string, futureThirdPlural: string,
    imperativeSingular: string, imperativePlural: string)

  const AspectOptions: seq<string> := ["perfective", "imperfective"]

  /** `aspect_options.index(aspect.lower())`: None stands for the ValueError of an unknown aspect. */
  function AspectIndex(aspect: string): (r: Option<nat>)
    ensures r.Some? <==> Lower(aspect) in AspectOptions
    ensures r.Some? ==> r.value < |AspectOptions| && AspectOptions[r.value] == Lower(aspect)
  {
    if Lower(aspect) == AspectOptions[0] then Some(0)
    else if Lower(aspect) == AspectOptions[1] then Some(1)
    else None
  }

  /** Python's `s and s.strip()`: present and not blank. */
  predicate NonBlank(s: string) {
    s != [] && Strip(s) != []
  }

  function AspectCard(dictionaryForm: string, index: nat, now: int): Flashcard {
    MultipleChoiceCard("What is the aspect of '" + dictionaryForm + "'?", AspectOptions, [index],
                       ["russian", "verb", "aspect", "grammar", "multiple_choice"],
                       dictionaryForm + " - aspect (multiple choice)", now)
  }

  /**
   * The two pair questions: which verb is perfective, which is
   * imperfective.  Both list the dictionary form and the pair once each,
   * and each has one correct option naming the right verb: the perfective
   * question picks the dictionary form exactly when the verb is
   * perfective, the imperfective question picks the other one.
   */
  function AspectPairFlashcards(verb: Verb, dictionaryForm: string, now: int): (r: seq<Flashcard>)
    ensures |r| == 2 && r[0].content.MultipleChoice? && r[1].content.MultipleChoice?
    ensures r[0].content.options == r[1].content.options
    ensures multiset(r[0].content.options) == multiset{dictionaryForm, verb.aspectPair}
    ensures r[0].content.correctIndices == [0] && r[1].content.correctIndices == [1]
    ensures r[0].content.options[0] == (if Lower(verb.aspect) == "perfective" then dictionaryForm else verb.aspectPair)
    ensures r[1].content.options[1] == (if Lower(verb.aspect) == "perfective" then verb.aspectPair else dictionaryForm)
  {
    var options := if Lower(verb.aspect) == "perfective" then [dictionaryForm, verb.aspectPair]
                   else [verb.aspectPair, dictionaryForm];
    var tags := ["russian", "verb", "aspect_pair", "grammar", "multiple_choice"];
    [MultipleChoiceCard("Which verb is the PERFECTIVE form?", options, [0], tags,
                        dictionaryForm + " - aspect pair comparison", now),
     MultipleChoiceCard("Which verb is the IMPERFECTIVE form?", options, [1], tags,
                        dictionaryForm + " - aspect pair comparison (imperfective)", now)]
  }

  /** The aspect question, then the pair questions when the pair is not blank. */
  function AspectFlashcards(verb: Verb, dictionaryForm: string, index: nat, now: int): seq<Flashcard> {
    [AspectCard(dictionaryForm, index, now)]
    + (if NonBlank(verb.aspectPair) then AspectPairFlashcards(verb, dictionaryForm, now) else [])
  }

  function ConjugationFlashcards(verb: Verb, dictionaryForm: string, now: int): (r: seq<Flashcard>)
    ensures |r| == 1 && r[0].content.TwoSided? && r[0].content.back == verb.conjugation
  {
    [TwoSidedCard("What conjugation type is '" + dictionaryForm + "'?", verb.conjugation,
                  ["russian", "verb", "conjugation", "grammar"], dictionaryForm + " - conjugation", now)]
  }

  const PersonPronouns: seq<string> := ["я", "ты", "он/она/оно", "мы", "вы", "они"]
  const PersonNames: seq<string> := ["first person singular", "second person singular", "third person singular",
                                     "first person plural", "second person plural", "third person plural"]
  const PastPronouns: seq<string> := ["он", "она", "оно", "они"]
  const PastGenders: seq<string> := ["masculine", "feminine", "neuter", "plural"]

  /** Six personal forms of one tense: "<tense> tense for <pronoun>", keyed "<tense> <person>". */
  function PersonSlots(tense: string, forms: seq<string>): (r: seq<FormSlot>)
    requires |forms| == 6
    ensures |r| == 6
    ensures forall k :: 0 <= k < 6 ==> r[k].form == forms[k] && r[k].key == tense + " " + PersonNames[k]
  {
    seq(6, k requires 0 <= k < 6 =>
      FormSlot(forms[k], tense + " tense for " + PersonPronouns[k], tense + " " + PersonNames[k],
               ["russian", "verb", tense, "grammar"]))
  }

  function PresentForms(verb: Verb): seq<string> {
    [verb.presentFirstSingular, verb.presentSecondSingular, verb.presentThirdSingular,
     verb.presentFirstPlural, verb.presentSecondPlural, verb.presentThirdPlural]
  }

  function FutureForms(verb: Verb): seq<string> {
    [verb.futureFirstSingular, verb.futureSecondSingular, verb.futureThirdSingular,
     verb.futureFirstPlural, verb.futureSecondPlural, verb.futureThirdPlural]
  }

  /** The four past forms: "past tense for <pronoun>", keyed "past <gender>". */
  function PastSlots(verb: Verb): (r: seq<FormSlot>)
    ensures |r| == 4
    ensures forall k :: 0 <= k < 4 ==> r[k].key == "past " + PastGenders[k]
  {
    var forms := [verb.pastMasculine, verb.pastFeminine, verb.pastNeuter, verb.pastPlural];
    seq(4, k requires 0 <= k < 4 =>
      FormSlot(forms[k], "past tense for " + PastPronouns[k], "past " + PastGenders[k],
               ["russian", "verb", "past", "grammar"]))
  }

  method GeneratePresentTenseFlashcards(llm: Llm, verb: Verb, dictionaryForm: string, now: int) returns (flashcards: seq<Flashcard>)
    ensures flashcards == GapCards(llm, dictionaryForm, "verb", PersonSlots("present", PresentForms(verb)), now)
  {
    flashcards := GapCardsFor(llm, dictionaryForm, "verb", PersonSlots("present", PresentForms(verb)), now);
  }

  method GeneratePastTenseFlashcards(llm: Llm, verb: Verb, dictionaryForm: string, now: int) returns (flashcards: seq<Flashcard>)
    ensures flashcards == GapCards(llm, dictionaryForm, "verb", PastSlots(verb), now)
  {
    flashcards := GapCardsFor(llm, dictionaryForm, "verb", PastSlots(verb), now);
  }

  method GenerateFutureTenseFlashcards(llm: Llm, verb: Verb, dictionaryForm: string, now: int) returns (flashcards: seq<Flashcard>)
    ensures flashcards == GapCards(llm, dictionaryForm, "verb", PersonSlots("future", FutureForms(verb)), now)
  {
    flashcards := GapCardsFor(llm, dictionaryForm, "verb", PersonSlots("future", FutureForms(verb)), now);
  }

  /** The gap card for one imperative form, filed under `key`. */
  function ImperativeCard(llm: Llm, dictionaryForm: string, form: string, description: string, key: string, now: int): (c: Flashcard)
    requires key != []
    ensures c.content.FillInTheBlank?
    ensures "grammatical_key" in c.metadata && c.metadata["grammatical_key"] == key
  {
    FillInGapCard(llm, dictionaryForm, form, description, "verb", ["russian", "verb", "imperative", "grammar"], key, now)
  }

  /** The card for an imperative form when it passes the filter, otherwise nothing. */
  function ImperativeIf(llm: Llm, dictionaryForm: string, form: string, description: string, key: string, now: int): (r: seq<Flashcard>)
    requires key != []
    ensures |r| == if ShouldCreateFlashcard(form, dictionaryForm) then 1 else 0
    ensures forall k :: 0 <= k < |r| ==> r[k] == ImperativeCard(llm, dictionaryForm, form, description, key, now)
  {
    if ShouldCreateFlashcard(form, dictionaryForm) then [ImperativeCard(llm, dictionaryForm, form, description, key, now)] else []
  }

  const SingularImperativeKey: string := "imperative singular"
  const PluralImperativeKey: string := "imperative plural"

  /** A card per accepted imperative form, singular first, keyed "imperative <number>". */
  function ImperativeFlashcards(llm: Llm, verb: Verb, dictionaryForm: string, now: int): (r: seq<Flashcard>)
    ensures |r| == (if ShouldCreateFlashcard(verb.imperativeSingular, dictionaryForm) then 1 else 0)
                 + (if ShouldCreateFlashcard(verb.imperativePlural, dictionaryForm) then 1 else 0)
    ensures ShouldCreateFlashcard(verb.imperativeSingular, dictionaryForm) ==>
      r[0] == ImperativeCard(llm, dictionaryForm, verb.imperativeSingular, "singular imperative", SingularImperativeKey, now)
    ensures ShouldCreateFlashcard(verb.imperativePlural, dictionaryForm) ==>
      r[|r| - 1] == ImperativeCard(llm, dictionaryForm, verb.imperativePlural, "plural imperative", PluralImperativeKey, now)
  {
    ImperativeIf(llm, dictionaryForm, verb.imperativeSingular, "singular imperative", SingularImperativeKey, now)
    + ImperativeIf(llm, dictionaryForm, verb.imperativePlural, "plural imperative", PluralImperativeKey, now)
  }

  method GenerateImperativeFlashcards(llm: Llm, verb: Verb, dictionaryForm: string, now: int) returns (flashcards: seq<Flashcard>)
    ensures flashcards == ImperativeFlashcards(llm, verb, dictionaryForm, now)
  {
    flashcards := [];
    if verb.imperativeSingular != [] && ShouldCreateFlashcard(verb.imperativeSingular, dictionaryForm) {
      flashcards := flashcards + [ImperativeCard(llm, dictionaryForm, verb.imperativeSingular, "singular imperative", SingularImperativeKey, now)];
    }
    ghost var singular := flashcards;
    assert singular == ImperativeIf(llm, dictionaryForm, verb.imperativeSingular, "singular imperative", SingularImperativeKey, now);
    if verb.imperativePlural != [] && ShouldCreateFlashcard(verb.imperativePlural, dictionaryForm) {
      flashcards := flashcards + [ImperativeCard(llm, dictionaryForm, verb.imperativePlural, "plural imperative", PluralImperativeKey, now)];
    }
    assert flashcards == singular + ImperativeIf(llm, dictionaryForm, verb.imperativePlural, "plural imperative", PluralImperativeKey, now);
  }

  /** The cards after the aspect cards: conjugation, then the tense tables and the imperative. */
  function TenseCards(llm: Llm, verb: Verb, now: int): seq<Flashcard> {
    var d := verb.dictionaryForm;
    ConjugationFlashcards(verb, d, now)
    + GapCards(llm, d, "verb", PersonSlots("present", PresentForms(verb)), now)
    + GapCards(llm, d, "verb", PastSlots(verb), now)
    + GapCards(llm, d, "verb", PersonSlots("future", FutureForms(verb)), now)
    + ImperativeFlashcards(llm, verb, d, now)
  }

  /** The aspect cards, or the ValueError an aspect other than perfective/imperfective raises. */
  function AspectOutcome(verb: Verb, dictionaryForm: string, now: int): Outcome<seq<Flashcard>> {
    match AspectIndex(verb.aspect)
    case None => Raised("ValueError")
    case Some(index) => Done(AspectFlashcards(verb, dictionaryForm, index, now))
  }

  method GenerateAspectFlashcards(verb: Verb, dictionaryForm: string, now: int) returns (result: Outcome<seq<Flashcard>>)
    ensures result == AspectOutcome(verb, dictionaryForm, now)
  {
    var index := AspectIndex(verb.aspect);
    if index.None? {
      return Raised("ValueError");
    }
    var flashcards := [AspectCard(dictionaryForm, index.value, now)];
    if verb.aspectPair != [] && Strip(verb.aspectPair) != [] {
      flashcards := flashcards + AspectPairFlashcards(verb, dictionaryForm, now);
    }
    assert flashcards == AspectFlashcards(verb, dictionaryForm, index.value, now);
    result := Done(flashcards);
  }

  /** The whole card list; the aspect's ValueError propagates. */
  function VerbCards(llm: Llm, verb: Verb, now: int): Outcome<seq<Flashcard>> {
    match AspectOutcome(verb, verb.dictionaryForm, now)
    case Raised(e) => Raised(e)
    case Done(aspectCards) => Done(aspectCards + TenseCards(llm, verb, now))
  }

  /**
   * Generation fails exactly when the aspect is neither perfective nor
   * imperfective; otherwise the first card asks for the aspect with the
   * verb's own aspect as its one correct option, and at most
   * 1 + 2 + 1 + 6 + 4 + 6 + 2 cards are made.
   */
  lemma VerbCardsShape(llm: Llm, verb: Verb, now: int)
    ensures VerbCards(llm, verb, now).Raised? <==> Lower(verb.aspect) !in AspectOptions
    ensures var o := VerbCards(llm, verb, now);
      o.Done? ==>
        && 0 < |o.value| <= 22
        && o.value[0].content.MultipleChoice?
        && o.value[0].content.options == AspectOptions
        && |o.value[0].content.correctIndices| == 1
        && 0 <= o.value[0].content.correctIndices[0] < 2
        && AspectOptions[o.value[0].content.correctIndices[0]] == Lower(verb.aspect)
  {
    match AspectIndex(verb.aspect)
    case None =>
    case Some(index) =>
      var a := AspectFlashcards(verb, verb.dictionaryForm, index, now);
      var t := TenseCards(llm, verb, now);
      assert |a| <= 3;
      assert |t| <= 1 + 6 + 4 + 6 + 2;
      assert (a + t)[0] == a[0];
  }

  /** Aspect cards, conjugation, present, past, future and imperative cards, in that order. */
  method GenerateFlashcardsFromGrammar(llm: Llm, verb: Verb, wordType: string, now: int) returns (result: Outcome<seq<Flashcard>>)
    ensures result == VerbCards(llm, verb, now)
  {
    var dictionaryForm := verb.dictionaryForm;
    var aspect := GenerateAspectFlashcards(verb, dictionaryForm, now);
    if aspect.Raised? {
      return Raised(aspect.error);
    }
    var rest := ConjugationFlashcards(verb, dictionaryForm, now);
    var present := GeneratePresentTenseFlashcards(llm, verb, dictionaryForm, now);
    rest := rest + present;
    var past := GeneratePastTenseFlashcards(llm, verb, dictionaryForm, now);
    rest := rest + past;
    var future := GenerateFutureTenseFlashcards(llm, verb, dictionaryForm, now);
    rest := rest + future;
    var imperative := GenerateImperativeFlashcards(llm, verb, dictionaryForm, now);
    rest := rest + imperative;
    result := Done(aspect.value + rest);
  }
}
