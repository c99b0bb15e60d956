/**
 * The front door of card generation: dispatch on the kind of analysed
 * word to its generator, and save a batch of cards for a user.
 */
module FlashcardGenerator {
  import opened Text
  import opened Models
  import opened BaseGenerator
  import NG = NounGenerator
  import AG = AdjectiveGenerator
  import VG = VerbGenerator
  import PG = PronounGenerator
  import NuG = NumberGenerator

  /** The analysed word handed to the dispatcher; anything else is `Unknown`. */
  datatype GrammarObject =
    | NounObject(noun: NG.Noun)
    | AdjectiveObject(adjective: AG.Adjective)
    | VerbObject(verb: VG.Verb)
    | PronounObject(pronoun: PG.Pronoun)
    | NumberObject(numeral: NuG.Numeral)
    | Unknown

  // ---------------------------------------------------------------------
  // Dispatch
  // ---------------------------------------------------------------------

  /** The positional parameters (after self) each generator's signature accepts. */
  function PositionalCapacity(obj: GrammarObject): nat {
    match obj
    case NounObject(_) => 2
    case AdjectiveObject(_) => 2
    case VerbObject(_) => 3
    case PronounObject(_) => 2
    case NumberObject(_) => 3
    case Unknown => 0
  }

  /** The arguments the dispatcher passes: the object, word type, sentences and user id. */
  const PassedArguments: nat := 4

  /**
   * The cards a generator produces for the object when called with the
   * object and the word type; an exception it raises is caught and gives
   * no cards, and an unknown kind of object gives none either.
   */
  function GeneratedCards(llm: Llm, obj: GrammarObject, now: int): seq<Flashcard> {
    match obj
    case NounObject(n) => NG.NounCards(llm, n, now)
    case AdjectiveObject(a) => AG.AdjectiveCards(llm, a, now)
    case VerbObject(v) => (match VG.VerbCards(llm, v, now) case Done(cards) => cards case Raised(_) => [])
    case PronounObject(p) => PG.PronounCards(llm, p, now)
    case NumberObject(n) => NuG.NumberCards(llm, n, now)
    case Unknown => []
  }

  /**
   * generate_flashcards_from_grammar as written: the call passes four
   * positional arguments, and a generator accepting fewer raises a
   * TypeError, which the dispatcher catches.
   */
  function GeneratedCardsAsWritten(llm: Llm, obj: GrammarObject, now: int): (r: seq<Flashcard>)
    ensures r == []
  {
    if obj.Unknown? || PassedArguments > PositionalCapacity(obj) then []
    else GeneratedCards(llm, obj, now)
  }

  /** Called with the object and the word type, a noun gets at least its two property cards. */
  lemma NounGetsCards(llm: Llm, noun: NG.Noun, now: int)
    ensures |GeneratedCards(llm, NounObject(noun), now)| >= 2
  {
    NG.NounCardsShape(llm, noun, now);
  }

  /** A pronoun gets at least its three property cards. */
  lemma PronounGetsCards(llm: Llm, pronoun: PG.Pronoun, now: int)
    ensures |GeneratedCards(llm, PronounObject(pronoun), now)| >= 3
  {
    PG.PronounCardsShape(llm, pronoun, now);
  }

  /** A numeral gets at least one card. */
  lemma NumberGetsCards(llm: Llm, numeral: NuG.Numeral, now: int)
    ensures |GeneratedCards(llm, NumberObject(numeral), now)| >= 1
  {
    NuG.NumberCardsShape(llm, numeral, now);
  }

  /** A verb gets no cards exactly when its aspect is invalid, which makes its generator raise. */
  lemma VerbGetsCardsIffValidAspect(llm: Llm, verb: VG.Verb, now: int)
    ensures GeneratedCards(llm, VerbObject(verb), now) == [] <==> Lower(verb.aspect) !in VG.AspectOptions
  {
    VG.VerbCardsShape(llm, verb, now);
  }

  /**
   * The dispatcher with the call corrected to pass the object and the
   * word type only; a verb generator's ValueError is caught and gives no
   * cards.
   */
  method GenerateFlashcardsFromGrammar(llm: Llm, obj: GrammarObject, wordType: string, now: int) returns (flashcards: seq<Flashcard>)
    ensures flashcards == GeneratedCards(llm, obj, now)
  {
    flashcards := [];
    match obj {
      case NounObject(n) =>
        flashcards := NG.GenerateFlashcardsFromGrammar(llm, n, wordType, now);
      case AdjectiveObject(a) =>
        flashcards := AG.GenerateFlashcardsFromGrammar(llm, a, wordType, now);
      case VerbObject(v) =>
        var outcome := VG.GenerateFlashcardsFromGrammar(llm, v, wordType, now);
        if outcome.Done? {
          flashcards := outcome.value;
        }
      case PronounObject(p) =>
        flashcards := PG.GenerateFlashcardsFromGrammar(llm, p, wordType, now);
      case NumberObject(n) =>
        flashcards := NuG.GenerateFlashcardsFromGrammar(llm, n, wordType, now);
      case Unknown =>
    }
  }

  // ---------------------------------------------------------------------
  // Saving
  // ---------------------------------------------------------------------

  /**
   * The database's add: the id it reports for a card stored for a user,
   * or None when the insert failed (the store catches its own errors).
   */
  type AddFlashcard = (Flashcard, int) -> Option<string>

  /** Python truthiness of the returned id. */
  predicate Truthy(id: Option<string>) {
    id.Some? && id.value != []
  }

  /** The number of cards whose save reports a non-empty id. */
  function SavedCount(userId: int, flashcards: seq<Flashcard>, add: AddFlashcard): (n: nat)
    ensures n <= |flashcards|
    ensures n == |flashcards| <==> forall k :: 0 <= k < |flashcards| ==> Truthy(add(flashcards[k], userId))
    ensures n == 0 <==> forall k :: 0 <= k < |flashcards| ==> !Truthy(add(flashcards[k], userId))
  {
    if flashcards == [] then 0
    else
      var prefix := flashcards[..|flashcards| - 1];
      var last := flashcards[|flashcards| - 1];
      assert forall k :: 0 <= k < |prefix| ==> prefix[k] == flashcards[k];
      SavedCount(userId, prefix, add) + (if Truthy(add(last, userId)) then 1 else 0)
  }

  /** The fields every stored card declares (the common card record). */
  const BaseFlashcardFields: seq<string> := [
    "id", "type", "title", "due_date", "difficulty", "repetition_count", "ease_factor",
    "interval_days", "tags", "metadata", "created_at", "updated_at", "times_correct", "times_incorrect"]

  /**
   * The fields a stored card of kind `t` declares: the common ones and its
   * kind's own.  Assigning any other attribute raises ValueError.
   */
  function FlashcardFields(t: FlashcardType): seq<string> {
    BaseFlashcardFields +
      match t
      case TwoSidedType => ["front", "back"]
      case FillInBlankType => ["text_with_blanks", "answers", "case_sensitive"]
      case MultipleChoiceType => ["question", "options", "correct_indices", "allow_multiple"]
  }

  /** `flashcard.user_id = user_id` succeeds only on a model whose declared fields include it. */
  predicate CanSetUserId(fields: seq<string>) {
    "user_id" in fields
  }

  /**
   * save_flashcards_to_database as written, for a card model declaring
   * `fields`: each iteration first assigns the user id; when that raises,
   * the error is logged and the loop moves on without saving the card.
   */
  method SaveFlashcardsToDatabaseAsWritten(fields: seq<string>, userId: int, flashcards: seq<Flashcard>, add: AddFlashcard)
    returns (savedCount: nat)
    ensures savedCount == (if CanSetUserId(fields) then SavedCount(userId, flashcards, add) else 0)
  {
    savedCount := 0;
    for i := 0 to |flashcards|
      invariant savedCount == (if CanSetUserId(fields) then SavedCount(userId, flashcards[..i], add) else 0)
    {
      assert flashcards[..i + 1][..i] == flashcards[..i];
      if CanSetUserId(fields) {
        var id := add(flashcards[i], userId);
        if Truthy(id) {
          savedCount := savedCount + 1;
        }
      }
    }
    assert flashcards[..|flashcards|] == flashcards;
  }

  /**
   * No kind of stored card declares user_id, so the as-written save
   * reports 0 however many cards the store would have accepted.
   */
  lemma AsWrittenSavesNothing(t: FlashcardType, userId: int, flashcards: seq<Flashcard>, add: AddFlashcard)
    ensures !CanSetUserId(FlashcardFields(t))
    ensures (if CanSetUserId(FlashcardFields(t)) then SavedCount(userId, flashcards, add) else 0) == 0
  {
    var fields := FlashcardFields(t);
    assert forall k :: 0 <= k < |fields| ==> fields[k] != "user_id";
  }

  /**
   * save_flashcards_to_database with the user id handed to the store
   * alongside the card: every card is tried, a failed save is skipped, and
   * the count is the number of saves that reported an id.
   */
  method SaveFlashcardsToDatabase(userId: int, flashcards: seq<Flashcard>, add: AddFlashcard) returns (savedCount: nat)
    ensures savedCount == SavedCount(userId, flashcards, add)
    ensures savedCount <= |flashcards|
  {
    savedCount := 0;
    for i := 0 to |flashcards|
      invariant savedCount == SavedCount(userId, flashcards[..i], add)
    {
      assert flashcards[..i + 1][..i] == flashcards[..i];
      var id := add(flashcards[i], userId);
      if Truthy(id) {
        savedCount := savedCount + 1;
      }
    }
    assert flashcards[..|flashcards|] == flashcards;
  }
}
