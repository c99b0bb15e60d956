# flashgram_bot learning core in Dafny

flashgram_bot is a Telegram bot for learning Russian. It analyses a word's grammar and turns every inflected form into flashcards. It asks the learner those cards on a spaced-repetition schedule and checks the typed replies. This project models the bot's learning core and proves properties about it:

- **Spaced repetition** (`algorithm.dfy`, `scheduler.dfy`)
  - The simplified SM-2 update, which takes a correct/incorrect outcome.
  - The per-card priority score.
  - The stable highest-score-first selection of a session's cards.
  - The session statistics.
  - The repository's design description speaks of a four-grade answer quality. The code implements only a binary correct/incorrect update, and this model follows the code.
- **Cards and answers** (`models.dfy`, `input_parser.dfy`, `answer_validator.dfy`, `sorting.dfy`)
  - The three card kinds: two-sided, fill-in-the-blank and multiple choice.
  - Their question rendering and their answer checks.
  - Building a card from a stored dictionary.
  - Parsing the learner's typed reply.
  - The validator that picks the right check and writes the feedback.
- **Text handling** (`text.dfy`, `suffix_extractor.dfy`, `text_processor.dfy`, `text_cleaner.dfy`, `markdown_escaper.dfy`, `russian_text_extractor.dfy`, `form_analyzer.dfy`)
  - The Python string built-ins the code relies on.
  - The stem/ending split.
  - Cleaning sentences for Telegram.
  - Masking the target form with `{blank}`.
  - Markdown escaping.
  - Extracting Russian words.
  - Descriptions of grammatical forms.
- **Card generation** (`base_generator.dfy`, `noun_generator.dfy`, `adjective_generator.dfy`, `verb_generator.dfy`, `pronoun_generator.dfy`, `number_generator.dfy`, `flashcard_generator.dfy`)
  - Which forms of a noun, adjective, verb, pronoun or numeral become cards, in what order, and with which tags, keys and correct options.
  - The dispatcher over word kinds.
  - Saving a batch of cards.
- **Per-user state** (`session_manager.dfy`, `config_manager.dfy`, `bulk_text_processor.dfy`)
  - The session records: learning, editing and regeneration modes, and a chat history capped at 20 messages.
  - The validated user settings.
  - The bulk-processing job tables.

How the model is written:
- Mutable records kept in dictionaries are Dafny classes with `modifies` clauses:
  - `UserSession` and `SessionManager`;
  - `UserConfig` and `ConfigManager`;
  - `BulkTextProcessor`.
- Loops that build lists are methods with loop invariants, each proved equal to a specification function. The functions' properties are proved as lemmas.
- Pure decision logic is written as functions.
- Values the code reads from its environment are parameters:
  - the language model's example sentence is a function `llm`;
  - the current time is `now`, in whole days for cards and whole seconds for bulk jobs;
  - job identifiers are passed in;
  - the database's insert is a function `add`.

## Model

| member | source | states |
|---|---|---|
| SpacedRepetition.TruncToInt | app/flashcards/spaced_repetition/algorithm.py:35 | Python's int() on a float: the result is the integer next to x on the side of zero (floor for x ≥ 0, ceiling below) |
| SpacedRepetition.CalculateNextReview | app/flashcards/spaced_repetition/algorithm.py:25-51 | due date = now + new interval, always a representable day; ease ≥ 1.3; a wrong answer gives interval 1 and ease max(1.3, ease − 0.2); a right answer gives ease max(1.3, ease + 0.1) and interval 1 at repetition 0, 6 at repetition 1, int(interval × ease) from then on; when that due date overflows the calendar or timedelta, the fallback (tomorrow, 1, 2.5) |
| SpacedRepetition.CorrectNeverShrinks | app/flashcards/spaced_repetition/algorithm.py:34-35 | from repetition 2 on, with ease ≥ 1 and interval ≥ 0, a correct answer never gives a shorter interval, unless the fallback is returned |
| SpacedRepetition.OverflowFallsBack | app/flashcards/spaced_repetition/algorithm.py:43-51 | interval 10^9 days at ease 2.5 on a correct third review overflows the due date, and the fallback (tomorrow, 1, 2.5) is returned |
| SpacedRepetition.GetDifficultyAdjustment | app/flashcards/spaced_repetition/algorithm.py:63-72 | the adjustment lies in [−0.3, 0.3] and is never the −0.8 the docstring advertises |
| ReviewScheduler.DifficultyWeight | app/flashcards/spaced_repetition/scheduler.py:47-54 | every difficulty level weighs between 10 and 100 points |
| ReviewScheduler.Bonus | app/flashcards/spaced_repetition/scheduler.py:54-66 | the due-date-independent part of the score (weight, +50 low ease, +30 new, +25 more wrong than right) lies in 10..205 |
| ReviewScheduler.PriorityScore | app/flashcards/spaced_repetition/scheduler.py:35-68 | a due card scores at least 1010, a card not yet due between 10 and 205, so due cards always outrank the others |
| ReviewScheduler.Scores | app/flashcards/spaced_repetition/scheduler.py:27 | the sort keys: one score per card, position by position |
| ReviewScheduler.PriorityOrder | app/flashcards/spaced_repetition/scheduler.py:27 | a permutation of the card positions in which each position precedes the next (higher score, or equal score and earlier position) |
| ReviewScheduler.PrioritizeFlashcardsForSession | app/flashcards/spaced_repetition/scheduler.py:14-29 | returns min(len, target_count) cards (Python slice length, negative counts included), the k-th being the k-th card of the priority order |
| ReviewScheduler.PrioritizedIsSortedAndStable | app/flashcards/spaced_repetition/scheduler.py:27-29 | the session is in non-increasing score order and cards with equal scores keep their input order |
| ReviewScheduler.PrioritizedIsTopSelection | app/flashcards/spaced_repetition/scheduler.py:27-29 | no input card is taken twice, and a card left out scores no higher than any card taken |
| ReviewScheduler.DueCardsFirst | app/flashcards/spaced_repetition/scheduler.py:41-44 | in the session every due card comes before every card not yet due |
| ReviewScheduler.CountOf | app/flashcards/spaced_repetition/scheduler.py:95-108 | a counter never exceeds the number of cards |
| ReviewScheduler.LevelCount | app/flashcards/spaced_repetition/scheduler.py:113-115 | the number of cards at one difficulty level is at most the number of cards |
| ReviewScheduler.DistributionCounts | app/flashcards/spaced_repetition/scheduler.py:113-118 | the histogram holds exactly the levels that occur, each mapped to its number of cards |
| ReviewScheduler.StatisticsStep | app/flashcards/spaced_repetition/scheduler.py:95-115 | one more card adds exactly its own contribution to every counter, to the ease sum and to the histogram |
| ReviewScheduler.GetSessionStatistics | app/flashcards/spaced_repetition/scheduler.py:74-120 | total = number of cards; every counter, the histogram and the average ease equal their specification over all cards; empty input gives zeros and an empty histogram |
| ReviewScheduler.StatisticsBounds | app/flashcards/spaced_repetition/scheduler.py:95-108 | overdue ≤ due now ≤ total, new ≤ total, difficult ≤ total |
| ReviewScheduler.DistributionCoversAll | app/flashcards/spaced_repetition/scheduler.py:113-118 | the five level counts add up to the number of cards |
| Models.ParseType | app/flashcards/models.py:6-10 | a recognised type string is the value of the enum member returned |
| Models.NewFlashcard | app/flashcards/models.py:20-47 | every optional field takes its declared default: no id, due and created today, medium difficulty, 0 repetitions, ease 2.5, interval 1, zero statistics |
| Models.TwoSidedTolerance | app/flashcards/models.py:63-65 | the two-sided check ignores the answer's case and surrounding whitespace, is symmetric, and accepts the back itself |
| Models.StripLowerCommute | app/flashcards/models.py:65 | lower-casing then stripping equals stripping then lower-casing |
| Models.CanonicalAll | app/flashcards/models.py:85-91 | each answer in canonical form, position by position |
| Models.CheckFillIn | app/flashcards/models.py:80-92 | true iff the counts agree and every user answer matches the expected answer at the same position (stripped, and lower-cased unless case_sensitive) |
| Models.FillInQuestionShowsBlanks | app/flashcards/models.py:76-96 | no "{blank}" survives the question text; the length drops by 2 per blank; "_____" appears iff a blank did; text without blanks is unchanged |
| Models.OptionLetter | app/flashcards/models.py:111-121 | chr(65 + i): defined exactly when 65 + i is a Unicode scalar value (0..0x10FFFF without the surrogates), and then has that code |
| Models.CorrectLetters | app/flashcards/models.py:119-121 | the letter of each correct index, in the stored order; undefined iff some index gives no scalar value |
| Models.OptionLines | app/flashcards/models.py:109-111 | one line per option, "<letter>. <option>", lettered by position |
| Models.MultipleChoiceQuestion | app/flashcards/models.py:107-113 | the question, a blank line, then the option lines joined by newlines |
| Models.CheckMultipleChoice | app/flashcards/models.py:115-117 | correct iff the selection and the correct indices are equal as multisets |
| Models.GetQuestion | app/flashcards/models.py:59-113 | the front for a two-sided card; for a fill-in card the text with every "{blank}" shown as "_____", so no marker is left; the lettered question for a multiple-choice card |
| Models.CreateFlashcardFromDict | app/flashcards/models.py:126-137 | a document whose type names one of the three kinds gives exactly what that kind's record validation gives, success or validation failure; any other type (or none) fails with "Unknown flashcard type: <type>"; success implies a known type |
| IntSort.Insert | app/flashcards/models.py:117 | inserting into a sorted list keeps it sorted and adds exactly that element |
| IntSort.Sort | app/flashcards/models.py:117 | sorted(): ascending and a permutation of the input |
| IntSort.SortedUnique | app/flashcards/models.py:117 | two sorted lists with the same multiset are equal |
| IntSort.SortEqualIff | app/flashcards/models.py:117 | sorted(a) == sorted(b) iff a and b are equal as multisets |
| IntSort.SortDistinct | app/flashcards/validators/input_parser.py:46 | sorting a list without repetitions gives a strictly increasing list |
| IntSort.StrictlySortedSameElements | app/flashcards/validators/input_parser.py:46 | two strictly increasing lists with the same elements are equal |
| IntSort.InsertIndex | app/flashcards/spaced_repetition/scheduler.py:27 | placing a new, later position after all entries that precede it keeps the order a permutation in priority order |
| IntSort.StableOrder | app/flashcards/spaced_repetition/scheduler.py:27 | sorted(range(n), key=score, reverse=True): every position once, higher scores first, ties in input order |
| InputParser.FirstSeparatorFrom | app/flashcards/validators/input_parser.py:12-18 | the first separator of the list , ; \| newline (from a position on) that occurs in the reply, and None iff none occurs |
| InputParser.StripAll | app/flashcards/validators/input_parser.py:17 | every part stripped, position by position |
| InputParser.Fields | app/flashcards/validators/input_parser.py:13-18 | a reply always gives at least one field |
| InputParser.PadTo | app/flashcards/validators/input_parser.py:21-22 | the list keeps its entries and is extended with "" up to length n |
| InputParser.FillInBlankAnswers | app/flashcards/validators/input_parser.py:9-24 | exactly expected_count answers (Python slice length for a negative count), the k-th being the k-th field or "" past the last field |
| InputParser.ParseFillInBlankAnswer | app/flashcards/validators/input_parser.py:9-24 | the separator loop, the padding loop and the final slice compute FillInBlankAnswers |
| InputParser.StripAllOfStripped | app/flashcards/validators/input_parser.py:17 | stripping already stripped parts changes nothing |
| InputParser.AnswersAreStripped | app/flashcards/validators/input_parser.py:13-22 | every parsed answer is stripped |
| InputParser.CommaInJoin | app/flashcards/validators/input_parser.py:16 | two or more answers joined by commas contain a comma |
| InputParser.SingleFieldRoundTrip | app/flashcards/validators/input_parser.py:13 | a stripped reply without separators is its own single field |
| InputParser.CommaFieldsRoundTrip | app/flashcards/validators/input_parser.py:15-18 | two or more plain answers joined by commas split back into exactly those answers |
| InputParser.CommaJoinedRoundTrip | app/flashcards/validators/input_parser.py:9-24 | typing the expected answers separated by commas parses back to exactly those answers |
| InputParser.LetterPicksProperties | app/flashcards/validators/input_parser.py:32-36 | the letter loop picks each option at most once, and exactly the options some letter names |
| InputParser.DigitPicksProperties | app/flashcards/validators/input_parser.py:39-44 | the digit loop picks each option at most once, and exactly the options some digit names |
| InputParser.PicksProperties | app/flashcards/validators/input_parser.py:32-44 | the picks are distinct and are the letter-named options when any letter is valid, else the digit-named ones |
| InputParser.MultipleChoiceIndices | app/flashcards/validators/input_parser.py:26-46 | strictly increasing, within [0, option_count), and exactly the options the upper-cased, stripped reply selects |
| InputParser.CollectLetters | app/flashcards/validators/input_parser.py:32-36 | the letter loop computes LetterPicks |
| InputParser.CollectDigits | app/flashcards/validators/input_parser.py:39-44 | the digit loop computes DigitPicks |
| InputParser.ParseMultipleChoiceAnswer | app/flashcards/validators/input_parser.py:26-46 | the parser returns MultipleChoiceIndices |
| AnswerValidator.LetterStrings | app/flashcards/validators/answer_validator.py:68-69 | each correct letter as its own one-character string, in order |
| AnswerValidator.CheckTwoSidedAnswer | app/flashcards/validators/answer_validator.py:39-43 | correctness is the card's own two-sided check; "✅ Correct!" when right, else the back is shown |
| AnswerValidator.CheckFillInBlankAnswer | app/flashcards/validators/answer_validator.py:45-57 | the reply is parsed into exactly as many answers as the text has blanks and checked pairwise; the feedback lists the correct answers when wrong |
| AnswerValidator.CheckMultipleChoiceAnswer | app/flashcards/validators/answer_validator.py:59-72 | the parsed selection is compared with the correct indices as multisets; wrong replies are told the correct letters ("answers" for more than one), and a letter code that is not a scalar value ends in the error feedback |
| AnswerValidator.CheckAnswer | app/flashcards/validators/answer_validator.py:17-37 | dispatch on the card kind; an unknown object gives (False, "❌ Unknown flashcard type"); the verdict is true iff the feedback is "✅ Correct!" |
| AnswerValidator.TwoSidedBackAccepted | app/flashcards/validators/answer_validator.py:39-43 | a two-sided card accepts its own back, also typed in upper case |
| AnswerValidator.FillInAnswersAccepted | app/flashcards/validators/answer_validator.py:45-57 | a fill-in card with one blank per answer accepts its answers typed with commas between them |
| AnswerValidator.TypedLetters | app/flashcards/models.py:119-121 | the letters A.. of a list of option indices, in order |
| AnswerValidator.TypedLettersPrepared | app/flashcards/validators/input_parser.py:28 | upper-casing and stripping leaves a string of capital letters unchanged |
| AnswerValidator.TypedLettersNamed | app/flashcards/validators/input_parser.py:32-36 | the typed letters name exactly the listed options |
| AnswerValidator.TypedLettersSelect | app/flashcards/validators/input_parser.py:26-46 | the parser selects exactly the options whose letters were typed |
| AnswerValidator.TypedLettersUpper | app/flashcards/validators/input_parser.py:33 | the typed letters are capital ASCII letters |
| AnswerValidator.SelectedByLetters | app/flashcards/validators/input_parser.py:39 | when letters name the options, the digit loop is skipped and the letter-named options are the selection |
| AnswerValidator.CorrectLettersAccepted | app/flashcards/validators/answer_validator.py:59-66 | a card with at most 26 options and no repeated correct index accepts its correct letters typed in any order |
| Suffixes.CommonPrefixLength | app/my_graph/utils/suffix_extractor.py:19-27 | the longest common prefix: both strings agree below it and differ at it (or one ends there) |
| Suffixes.SplitStem | app/my_graph/utils/suffix_extractor.py:11-45 | stem + suffix = inflected form on every branch, and the suffix is non-empty iff the inflected form is |
| Suffixes.SplitStemRules | app/my_graph/utils/suffix_extractor.py:29-43 | a shared prefix shorter than 2 gives a stem of min(2, len − 1) (0 for the empty word); a partial overlap is the stem; a total overlap leaves the last character as suffix; a stem taken from the overlap matches the dictionary form ignoring case |
| Suffixes.SharedPrefix | app/my_graph/utils/suffix_extractor.py:42 | strings agreeing on a prefix agree on every shorter prefix |
| Suffixes.SplitExample | app/my_graph/utils/suffix_extractor.py:41-43 | "книгу" against "книга" splits into "книг" and "у" |
| Suffixes.ExtractSuffix | app/my_graph/utils/suffix_extractor.py:11-45 | the scanning loop and the three branches compute SplitStem, so stem + suffix = inflected form |
| Suffixes.PrefixLengthUnique | app/my_graph/utils/suffix_extractor.py:23-27 | the position where the scan stops is the common prefix length |
| TextProcessor.CleanSentenceForTelegram | app/my_graph/sentence_generation/text_processor.py:11-39 | the second copy of the cleaner computes the same Clean as the shared one: stripped, with no double space |
| TextProcessor.EndPunctuation | app/my_graph/sentence_generation/text_processor.py:68-72 | the word's last character when it is one of . , ! ?, else nothing |
| TextProcessor.FirstMatchFrom | app/my_graph/sentence_generation/text_processor.py:57-66 | the first word (from a position on) equal to the target form after lower-casing and dropping . , ! ?; None iff no such word |
| TextProcessor.CreateSentenceWithBlank | app/my_graph/sentence_generation/text_processor.py:45-82 | the literal replace, the word scan and the appended fallback compute SentenceWithBlankAsWritten, and the result always contains "{blank}" |
| TextProcessor.AppendedShowsBlank | app/my_graph/sentence_generation/text_processor.py:79-80 | the appended fallback "<sentence> (<stem>{blank})" contains the marker |
| TextProcessor.FinishShowsBlank | app/my_graph/sentence_generation/text_processor.py:55-80 | whatever the literal replacement gave, the final sentence contains "{blank}" |
| TextProcessor.MaskedShowsBlank | app/my_graph/sentence_generation/text_processor.py:51 | the masked word stem + "{blank}" contains the marker |
| TextProcessor.LiteralMatchAsWritten | app/my_graph/sentence_generation/text_processor.py:51-55 | as written, a literal occurrence of the form makes the result the replace-all of the form by stem + "{blank}" |
| TextProcessor.LiteralMatch | app/my_graph/sentence_generation/text_processor.py:51-55 | intended: a literal occurrence makes the result the sentence with its first occurrence of the form replaced by stem + "{blank}" and everything else kept |
| TextProcessor.FirstReplacementShows | app/my_graph/sentence_generation/text_processor.py:52-55 | replacing the first literal occurrence yields a text showing the marker |
| TextProcessor.MaskedInMiddle | app/my_graph/sentence_generation/text_processor.py:52 | a text with the masked word anywhere in it contains the marker |
| TextProcessor.NoMatchAppends | app/my_graph/sentence_generation/text_processor.py:78-80 | with no literal and no word match, both versions append " (<stem>{blank})" to the sentence |
| TextProcessor.WordMatchMasks | app/my_graph/sentence_generation/text_processor.py:55-76 | without a literal match, both versions mask the first matching word (keeping its closing punctuation) and join the words with single spaces |
| TextProcessor.JoinShowsMask | app/my_graph/sentence_generation/text_processor.py:74-75 | joining words one of which is a masked word gives a text containing the marker |
| TextProcessor.NoBraceNoBlank | app/flashcards/models.py:94-96 | a text without "{" has no "{blank}" marker |
| TextProcessor.JoinCountOnce | app/my_graph/sentence_generation/text_processor.py:74-75 | joining brace-free words around one masked word gives exactly one marker |
| TextProcessor.SentenceWithBlankHasOneBlank | app/my_graph/sentence_generation/text_processor.py:45-82 | intended: with no brace in the sentence or stem, the result has exactly one "{blank}", on each of the three paths |
| TextProcessor.ReplaceAllCount | app/my_graph/sentence_generation/text_processor.py:52 | as written, the replace-all leaves one marker per occurrence of the form |
| TextProcessor.AsWrittenBlankCount | app/my_graph/sentence_generation/text_processor.py:51-55 | as written, a sentence containing the form gets as many markers as the form has occurrences |
| TextProcessor.AsWrittenTwoOccurrences | app/my_graph/sentence_generation/text_processor.py:51-55 | a sentence with two separate occurrences of the form gets two markers as written and one as intended |
| TextProcessor.AsWrittenMasksTwice | app/my_graph/sentence_generation/text_processor.py:51-55 | "У дома стоит домашний кот." with form "дома" gets two markers as written, one as intended |
| TextProcessor.SingleOccurrenceAgrees | app/my_graph/sentence_generation/text_processor.py:45-82 | with the form occurring at most once, replace-all masking and first-occurrence masking give the same sentence |
| Text.LowerChar | app/my_graph/utils/suffix_extractor.py:16-17 | str.lower() on one character: never an upper-case letter, and letters stay letters |
| Text.UpperChar | app/flashcards/validators/input_parser.py:28 | str.upper() on one character: never a lower-case letter, and letters stay letters |
| Text.Lower | app/my_graph/utils/suffix_extractor.py:16-17 | str.lower(): same length, lower-cased character by character |
| Text.Upper | app/flashcards/validators/input_parser.py:28 | str.upper(): same length, upper-cased character by character |
| Text.LowerOfUpper | app/flashcards/models.py:65 | lower-casing after upper-casing equals lower-casing |
| Text.StripLeft | app/flashcards/models.py:65 | drops exactly the leading whitespace: a suffix of the input, all dropped characters whitespace, not starting with whitespace |
| Text.StripRight | app/flashcards/models.py:65 | drops exactly the trailing whitespace: a prefix of the input, all dropped characters whitespace, not ending with whitespace |
| Text.StripProperties | app/flashcards/validators/input_parser.py:13 | str.strip() gives a stripped string, and the input is dropped-whitespace + result + dropped-whitespace |
| Text.StripOfStripped | app/flashcards/validators/input_parser.py:17 | a stripped string is its own strip |
| Text.StripIdempotent | app/common/text_processing/text_cleaner.py:43 | stripping twice equals stripping once |
| Text.StripEmptyIff | app/my_graph/generators/base_generator.py:62-66 | the strip is empty exactly for all-whitespace strings (Python truthiness of s.strip()) |
| Text.ContainsChar | app/my_graph/sentence_generation/text_processor.py:36 | `[c] in s` holds iff the character occurs in s |
| Text.CountPositiveIff | app/flashcards/models.py:96 | str.count of a non-empty pattern is positive iff the pattern occurs |
| Text.ReplaceLength | app/flashcards/models.py:78 | str.replace changes the length by (|rep| − |pat|) per counted occurrence |
| Text.ReplaceAbsent | app/my_graph/sentence_generation/text_processor.py:52 | str.replace without an occurrence returns the input |
| Text.ReplaceIntroduces | app/flashcards/models.py:78 | when the pattern occurs, the replacement occurs in the result |
| Text.ReplaceRemoves | app/flashcards/models.py:78 | after replacing "{blank}"-like patterns by "_____"-like text, no occurrence of the pattern is left |
| Text.ContainsTrans | app/my_graph/sentence_generation/text_processor.py:55 | containment is transitive |
| Text.CountOnce | app/flashcards/models.py:96 | a + pat + b holds pat exactly once when pat's first character occurs in neither a nor b |
| Text.ReplaceSkip | app/my_graph/sentence_generation/text_processor.py:52 | replacement passes unchanged over a prefix lacking the pattern's first character |
| Text.FirstOccurrence | app/my_graph/sentence_generation/text_processor.py:52 | the leftmost position where the pattern occurs |
| Text.ReplaceFirstShape | app/my_graph/sentence_generation/text_processor.py:52 | replacing the first occurrence cuts out exactly that occurrence and puts the replacement in its place |
| Text.ReplaceFirstAbsent | app/my_graph/sentence_generation/text_processor.py:52 | without an occurrence, replacing the first one changes nothing |
| Text.MapCharsAppend | app/common/text_processing/text_cleaner.py:36-37 | the character map distributes over concatenation |
| Text.LookupSnoc | app/common/text_processing/text_cleaner.py:36-37 | one more table entry acts on a character's image as one more replace |
| Text.ReplaceMapChars | app/common/text_processing/text_cleaner.py:36-37 | one more replace after the character map of the earlier entries is the character map of the whole table |
| Text.ReplaceEachIsMapChars | app/common/text_processing/text_cleaner.py:36-37 | the chain of single-character replaces equals replacing each character by its table image |
| Text.MapCharsIdentity | app/common/text_processing/text_cleaner.py:36-37 | a string with none of the table's characters is mapped to itself |
| Text.SliceEnd | app/flashcards/validators/input_parser.py:24 | the length of the Python slice xs[:n], negative n included |
| Text.SplitOn | app/flashcards/validators/input_parser.py:17 | str.split(sep) with one-character sep: at least one field, no field contains sep |
| Text.JoinContainsPart | app/my_graph/sentence_generation/text_processor.py:75 | every part occurs in the joined string |
| Text.JoinSplitOn | app/flashcards/validators/input_parser.py:17 | joining the fields of a split with the separator gives back the input |
| Text.SplitOnJoin | app/flashcards/validators/input_parser.py:17 | splitting separator-free parts joined by the separator gives back the parts |
| Text.JoinAvoids | app/my_graph/sentence_generation/text_processor.py:75 | a character in neither the separator nor any part is absent from the join |
| Text.WordLength | app/my_graph/sentence_generation/text_processor.py:57 | the length of the leading run of non-whitespace |
| Text.Words | app/my_graph/sentence_generation/text_processor.py:57 | str.split() with no argument: every word is non-empty |
| Text.WordsChars | app/my_graph/sentence_generation/text_processor.py:57 | every character of every word comes from the input |
| Text.DictGet | app/my_graph/utils/form_analyzer.py:86 | dict.get(key, default) on an insertion-ordered table: the first entry with the key, else the default |
| Text.TitleFrom | app/my_graph/generators/pronoun_generator.py:184 | str.title() from a given state: same length |
| Text.Title | app/my_graph/generators/pronoun_generator.py:184 | str.title(): same length, first character upper-cased |
| FormAnalyzer.CaseNameLookup | app/my_graph/utils/form_analyzer.py:29-38 | a case whose lower-cased form is a known abbreviation is spelt out in full; any other case passes through unchanged |
| FormAnalyzer.NounFormDescription | app/my_graph/utils/form_analyzer.py:27-41 | the noun description is always stripped |
| FormAnalyzer.NounCaseAlone | app/my_graph/utils/form_analyzer.py:38-41 | a known case with no number is exactly its full name |
| FormAnalyzer.NounNoNumber | app/my_graph/utils/form_analyzer.py:39-41 | with no number the trailing space is stripped away |
| FormAnalyzer.NamesStripped | app/my_graph/utils/form_analyzer.py:29-36 | no full case name has surrounding whitespace |
| FormAnalyzer.StripRightSpace | app/my_graph/utils/form_analyzer.py:41 | stripping a stripped text with one trailing space gives the text |
| FormAnalyzer.AdjectiveFormDescription | app/my_graph/utils/form_analyzer.py:43-61 | "plural" takes precedence over the gender; a gender gives "<case> <gender>"; neither gives "<case> form" |
| FormAnalyzer.VerbFormLookup | app/my_graph/utils/form_analyzer.py:63-86 | a known key (matched exactly) gets its table description; any other key comes back unchanged |
| FormAnalyzer.VerbFormKeysDistinct | app/my_graph/utils/form_analyzer.py:65-84 | the 18 verb-form keys are pairwise distinct |
| FormAnalyzer.GetFormDescription | app/my_graph/utils/form_analyzer.py:12-22 | dispatch on the word type: noun, adjective and verb rules, and "<case> form" for any other word type |
| Cleaning.TableShape | app/common/text_processing/text_cleaner.py:19-33 | every pattern of the table is one problematic character and no replacement contains one, so the replacements act character by character |
| Cleaning.TablePatterns | app/common/text_processing/text_cleaner.py:19-33 | each of the 13 patterns is a single problematic character |
| Cleaning.TableImages | app/common/text_processing/text_cleaner.py:19-33 | no replacement text contains a problematic character |
| Cleaning.LookupClean | app/common/text_processing/text_cleaner.py:36-37 | the image of any character under the table has no problematic character |
| Cleaning.MapCharsClean | app/common/text_processing/text_cleaner.py:36-37 | after the replacements no problematic character is left |
| Cleaning.Collapse | app/common/text_processing/text_cleaner.py:40-41 | collapsing runs of spaces never lengthens the text, empties only the empty text, and keeps whether it starts with a space |
| Cleaning.CollapseNoDouble | app/common/text_processing/text_cleaner.py:40-41 | a collapsed text has no double space |
| Cleaning.CollapseChars | app/common/text_processing/text_cleaner.py:40-41 | every character of a collapsed text comes from the input |
| Cleaning.CollapseFixed | app/common/text_processing/text_cleaner.py:40-41 | a text without a double space is its own collapse |
| Cleaning.ReplaceHead | app/common/text_processing/text_cleaner.py:41 | one round of replacing "  " by " " keeps whether the text starts with a space |
| Cleaning.CollapseOfReplace | app/common/text_processing/text_cleaner.py:40-41 | one round of the loop body does not change what the text collapses to |
| Cleaning.CleanProperties | app/common/text_processing/text_cleaner.py:8-43 | the output contains none of the 13 mapped characters, no double space, and no leading or trailing whitespace |
| Cleaning.CleanIdempotent | app/common/text_processing/text_cleaner.py:8-43 | cleaning a cleaned sentence changes nothing |
| Cleaning.CleanSentenceForTelegram | app/common/text_processing/text_cleaner.py:8-43 | the replace loop, the double-space loop and the strip compute Clean |
| MarkdownEscaper.Escape | app/common/text_processing/markdown_escaper.py:8-25 | escaping never shortens the text |
| MarkdownEscaper.EscapeLength | app/common/text_processing/markdown_escaper.py:21-23 | output length = input length + number of special characters |
| MarkdownEscaper.EscapeHead | app/common/text_processing/markdown_escaper.py:22-23 | escaped text never starts with a special character: each one is preceded by its backslash |
| MarkdownEscaper.UnescapeEscape | app/common/text_processing/markdown_escaper.py:8-25 | removing the backslash before each special character gives the input back, so no two texts escape alike |
| MarkdownEscaper.EscapePlain | app/common/text_processing/markdown_escaper.py:21-25 | text without special characters is returned unchanged |
| MarkdownEscaper.BackslashKept | app/common/text_processing/markdown_escaper.py:19 | an existing backslash is copied, not escaped |
| MarkdownEscaper.EscapeAppend | app/common/text_processing/markdown_escaper.py:22-23 | escaping distributes over concatenation |
| MarkdownEscaper.LookupEscape | app/common/text_processing/markdown_escaper.py:22-23 | the table maps a listed character to backslash + character and leaves any other character alone |
| MarkdownEscaper.MapCharsEscape | app/common/text_processing/markdown_escaper.py:22-23 | mapping each character through the table is Escape |
| MarkdownEscaper.TableIsCharTable | app/common/text_processing/markdown_escaper.py:19-23 | no replacement mentions a later pattern, so the replaces act character by character |
| MarkdownEscaper.EscapeMarkdown | app/common/text_processing/markdown_escaper.py:8-25 | the loop of 18 replaces computes Escape |
| RussianWords.RunEnd | app/common/text_processing/russian_text_extractor.py:18 | the end of the run of [а-яё] letters starting at a position: all letters up to it, none at it |
| RussianWords.HyphenatedEnd | app/common/text_processing/russian_text_extractor.py:18 | the greedy end after every "-letters" group that follows a run stays within the text |
| RussianWords.HyphenatedSpan | app/common/text_processing/russian_text_extractor.py:18 | extending a match by the hyphen groups that follow keeps it a hyphenated word |
| RussianWords.FindHyphenatedWords | app/common/text_processing/russian_text_extractor.py:18-19 | every match of the pattern is lower-case Cyrillic letters joined by single hyphens, starting and ending with a letter |
| RussianWords.FindHyphenatedNone | app/common/text_processing/russian_text_extractor.py:18-19 | text without a letter of the class has no match |
| RussianWords.LongWords | app/common/text_processing/russian_text_extractor.py:22 | exactly the words of length ≥ 3 are kept |
| RussianWords.Dedup | app/common/text_processing/russian_text_extractor.py:25-30 | de-duplication keeps exactly the words of the input |
| RussianWords.IndexOf | app/common/text_processing/russian_text_extractor.py:25-30 | the position of a word's first occurrence |
| RussianWords.IndexOfUnique | app/common/text_processing/russian_text_extractor.py:25-30 | an occurrence with no earlier one is the first occurrence |
| RussianWords.IndexOfPrefix | app/common/text_processing/russian_text_extractor.py:25-30 | a word's first occurrence is the same in a prefix that contains it |
| RussianWords.DedupProperties | app/common/text_processing/russian_text_extractor.py:25-30 | the result has no repeats and lists words in the order of their first occurrence |
| RussianWords.DedupLongStep | app/common/text_processing/russian_text_extractor.py:27-30 | one more word is appended iff it is long and not yet seen |
| RussianWords.ExtractedWordsProperties | app/common/text_processing/russian_text_extractor.py:7-32 | the words are distinct, of length ≥ 3, hyphenated lower-case Cyrillic, in first-occurrence order, and include every long match |
| RussianWords.NoRussianNoWords | app/common/text_processing/russian_text_extractor.py:18-19 | text with no Russian letter in either case gives [] |
| RussianWords.ExtractRussianWords | app/common/text_processing/russian_text_extractor.py:7-32 | the comprehension and the seen-set loop compute ExtractedWords |
| BulkJobs.WordRunEnd | app/my_graph/bulk_text_processor.py:47 | the end of the run of letters and hyphens starting at a position |
| BulkJobs.LastLetterEnd | app/my_graph/bulk_text_processor.py:47 | backtracking from the run's end stops just after its last letter, past no other letter |
| BulkJobs.FindBulkWords | app/my_graph/bulk_text_processor.py:47-50 | every match starts and ends with a Cyrillic letter and has only letters and hyphens in between |
| BulkJobs.FindBulkNone | app/my_graph/bulk_text_processor.py:50 | text without a Cyrillic letter has no match |
| BulkJobs.BulkWordsProperties | app/my_graph/bulk_text_processor.py:44-61 | the extracted words are distinct, of length ≥ 3, matches of the pattern, in first-occurrence order, and include every long match |
| BulkJobs.NoRussianNoBulkWords | app/my_graph/bulk_text_processor.py:47-61 | text with no Russian letter in either case yields [] |
| BulkJobs.ExtractRussianWords | app/my_graph/bulk_text_processor.py:44-61 | the filtering loop with its seen-set computes BulkWords |
| BulkJobs.ProgressBounds | app/my_graph/bulk_text_processor.py:186-188 | progress is 0 with no words, lies in [0, 100] while processed ≤ total, and is 100 when all words are processed |
| BulkJobs.Find | app/my_graph/bulk_text_processor.py:181 | dict.get: a job is found iff its id is in the table, and it is a table entry with that id |
| BulkJobs.FindDistinct | app/my_graph/bulk_text_processor.py:181 | in a table with distinct ids, each entry is found by its own id |
| BulkJobs.Remove | app/my_graph/bulk_text_processor.py:237 | del: exactly the other jobs remain, and ids stay distinct |
| BulkJobs.UserReports | app/my_graph/bulk_text_processor.py:208-220 | exactly the reports of that user's jobs |
| BulkJobs.NewestFirst | app/my_graph/bulk_text_processor.py:222-223 | a permutation of the reports ordered by creation time, newest first |
| BulkJobs.StaleIds | app/my_graph/bulk_text_processor.py:231-234 | exactly the ids of jobs that finished before the cut-off |
| BulkJobs.KeepRecent | app/my_graph/bulk_text_processor.py:227-237 | exactly the jobs not finished before the cut-off remain, in table order |
| BulkJobs.RemoveAllMembers | app/my_graph/bulk_text_processor.py:236-237 | deleting a list of ids leaves exactly the jobs whose id is not listed |
| BulkJobs.RemoveAllIsWithout | app/my_graph/bulk_text_processor.py:236-237 | deleting listed ids one after another leaves the unlisted jobs in their table order |
| BulkJobs.WithoutRemove | app/my_graph/bulk_text_processor.py:237 | one `del`, then filtering out the remaining ids, equals filtering out all of them |
| BulkJobs.RemoveAllDistinct | app/my_graph/bulk_text_processor.py:236-237 | deleting ids keeps the ids of the table distinct |
| BulkJobs.RemoveStaleIsKeepRecent | app/my_graph/bulk_text_processor.py:231-237 | in a table with distinct ids, deleting the stale ids one by one leaves exactly KeepRecent: the same jobs in the same table order |
| BulkJobs.CleanupResult | app/my_graph/bulk_text_processor.py:227-237 | after the deletions the finished table is KeepRecent, its ids stay distinct and are drawn from the old table |
| BulkJobs.RemoveAllSnoc | app/my_graph/bulk_text_processor.py:236-237 | deleting one more id is one more del on the table |
| BulkJobs.BulkTextProcessor.constructor | app/my_graph/bulk_text_processor.py:40-42 | both job tables start empty |
| BulkJobs.BulkTextProcessor.GetJobStatus | app/my_graph/bulk_text_processor.py:179-202 | None iff the id is in neither table; otherwise the report of that job, with progress 0 when it has no words |
| BulkJobs.BulkTextProcessor.StatusOfListedJob | app/my_graph/bulk_text_processor.py:179-202 | every job in either table reports itself |
| BulkJobs.BulkTextProcessor.StartBulkProcessing | app/my_graph/bulk_text_processor.py:63-75 | a pending job with zero counters and total = number of extracted words is added to the active table under the given fresh id, and its status is then reported |
| BulkJobs.BulkTextProcessor.CompleteJob | app/my_graph/bulk_text_processor.py:154-162 | the job becomes completed with its card count and finish time and moves from the active to the finished table |
| BulkJobs.BulkTextProcessor.FailJob | app/my_graph/bulk_text_processor.py:168-177 | the job becomes failed with its error and finish time and moves from the active to the finished table |
| BulkJobs.BulkTextProcessor.Finish | app/my_graph/bulk_text_processor.py:159-162 | the job is appended to the finished table and deleted from the active one, ids staying distinct and the tables disjoint |
| BulkJobs.BulkTextProcessor.GetUserJobs | app/my_graph/bulk_text_processor.py:204-225 | exactly the reports of the user's jobs in either table, newest first |
| BulkJobs.BulkTextProcessor.CleanupOldJobs | app/my_graph/bulk_text_processor.py:227-238 | the active table is untouched, and the finished table becomes exactly KeepRecent of the old one for the cut-off now − max_age_hours × 3600: the recent jobs, in their table order |
| Sessions.Window | app/my_telegram/session/session_manager.py:58-64 | the last 20 messages when the history grew past 20, otherwise the history unchanged |
| Sessions.WindowOfAppend | app/my_telegram/session/session_manager.py:58-64 | appending to the cut history and cutting again keeps the same 20 messages as cutting the full record |
| Sessions.UserSession.constructor | app/my_telegram/session/session_manager.py:10-31 | a new session has every mode off, no cards, zero score and an empty history |
| Sessions.UserSession.ClearLearningState | app/my_telegram/session/session_manager.py:33-39 | learning state reset; editing, regeneration and history untouched |
| Sessions.UserSession.ClearEditingState | app/my_telegram/session/session_manager.py:41-44 | editing state reset; everything else untouched |
| Sessions.UserSession.ClearRegenerationState | app/my_telegram/session/session_manager.py:46-49 | regeneration state reset; everything else untouched |
| Sessions.UserSession.ClearConversationHistory | app/my_telegram/session/session_manager.py:66-68 | history emptied; everything else untouched |
| Sessions.UserSession.ClearAllStates | app/my_telegram/session/session_manager.py:51-56 | the state of a new session |
| Sessions.UserSession.AddMessageToHistory | app/my_telegram/session/session_manager.py:58-64 | the history becomes the window of old history + [message]: at most 20 entries, the new message last; other state untouched |
| Sessions.UserSession.GetConversationHistory | app/my_telegram/session/session_manager.py:70-72 | a copy of the history |
| Sessions.SessionManager.constructor | app/my_telegram/session/session_manager.py:78-79 | no sessions |
| Sessions.SessionManager.GetSession | app/my_telegram/session/session_manager.py:81-93 | the stored session when there is one, with the table unchanged; otherwise a fresh default session filed under the user |
| Sessions.SessionManager.ClearSession | app/my_telegram/session/session_manager.py:95-108 | the user's entry is removed; true iff it existed |
| Sessions.SessionManager.IsInLearningMode | app/my_telegram/session/session_manager.py:110-113 | the session's learning flag; a known user's table is left exactly as it was and the flag is the stored one; a first-time user gets a fresh default session filed under them, nothing else changes, and the answer is false |
| Sessions.SessionManager.IsInEditingMode | app/my_telegram/session/session_manager.py:115-118 | the session's editing flag; a known user's table is left exactly as it was and the flag is the stored one; a first-time user gets a fresh default session filed under them, nothing else changes, and the answer is false |
| Sessions.SessionManager.IsInRegeneratingMode | app/my_telegram/session/session_manager.py:120-123 | the session's regeneration flag; a known user's table is left exactly as it was and the flag is the stored one; a first-time user gets a fresh default session filed under them, nothing else changes, and the answer is false |
| Sessions.LearningModeAfterStart | app/my_telegram/session/session_manager.py:110-143 | after starting a learning session for a user, the learning-mode query answers true |
| Sessions.EditingModeAfterStart | app/my_telegram/session/session_manager.py:115-161 | after starting to edit a card, the editing-mode query answers true |
| Sessions.RegeneratingModeAfterStart | app/my_telegram/session/session_manager.py:120-179 | after starting to regenerate a card, the regeneration-mode query answers true |
| Sessions.QueryKeepsOthers | app/my_telegram/session/session_manager.py:81-113 | a mode query for one user leaves another user's session object and its flags as they were |
| Sessions.SessionManager.StartLearningSession | app/my_telegram/session/session_manager.py:125-143 | every state cleared, then learning on with the given cards, zero score and no current card; other users' sessions untouched |
| Sessions.SessionManager.StartEditingSession | app/my_telegram/session/session_manager.py:145-161 | editing on for the card; the session's learning, regeneration and history kept (defaults for a new user); other users untouched |
| Sessions.SessionManager.StartRegeneratingSession | app/my_telegram/session/session_manager.py:163-179 | regeneration on for the card; learning, editing and history kept (defaults for a new user); other users untouched |
| Sessions.SessionManager.GetActiveSessionsCount | app/my_telegram/session/session_manager.py:181-183 | the number of users with a session |
| Sessions.SessionManager.GetLearningSessionsCount | app/my_telegram/session/session_manager.py:185-187 | the number of learners, never more than the number of sessions |
| Sessions.SubsetSize | app/my_telegram/session/session_manager.py:185-187 | a subset is no larger than its superset |
| Config.SettingNamesListed | app/my_telegram/session/config_manager.py:79-85 | the three names known to get_setting are exactly model, confirm_flashcards and cards_per_session |
| Config.Decimal | app/my_telegram/session/config_manager.py:61 | str(n) is a non-empty string of ASCII digits |
| Config.DecimalValue | app/my_telegram/session/config_manager.py:61 | the digits of str(n) spell n |
| Config.ParseDecimal | app/my_telegram/session/config_manager.py:61 | int(str(n)) == n |
| Config.ParseUnsigned | app/my_telegram/session/config_manager.py:61 | a plain digit string parses to the number it spells |
| Config.Decode | app/my_telegram/session/config_manager.py:39-68 | an unknown setting name is always refused |
| Config.ConfirmAcceptsWords | app/my_telegram/session/config_manager.py:43-54 | confirm_flashcards accepts exactly a bool or one of true/yes/1/on, false/no/0/off in any letter case, and maps the words to True and False |
| Config.CardsPerSessionRange | app/my_telegram/session/config_manager.py:55-66 | a number is accepted iff it lies in 1..10000, text iff it parses to 1..100; an accepted count always lies in 1..10000 |
| Config.CardsPerSessionFromText | app/my_telegram/session/config_manager.py:59-64 | every count 1..100 typed in decimal is accepted as that count |
| Config.TextCapIsLower | app/my_telegram/session/config_manager.py:56-64 | a count in 101..10000 is accepted as a number but refused when typed as text |
| Config.UserConfig.constructor | app/my_telegram/session/config_manager.py:10-19 | defaults gpt-4o, no confirmation, 20 cards: every setting reads as its default |
| Config.UserConfig.GetSetting | app/my_telegram/session/config_manager.py:70-85 | a value exactly for the three setting names, None otherwise |
| Config.UserConfig.ToDict | app/my_telegram/session/config_manager.py:21-27 | the three settings in order, each paired with the value get_setting returns |
| Config.UserConfig.UpdateSetting | app/my_telegram/session/config_manager.py:29-68 | true iff the value is valid for the name; then the setting reads back as the decoded value; other settings never change; nothing changes on failure |
| Config.UserConfig.ApplyUpdate | app/my_telegram/session/config_manager.py:39-68 | the branch for each setting name changes only that field, and only when the value is accepted |
| Config.ConfigManager.constructor | app/my_telegram/session/config_manager.py:91-92 | no configurations |
| Config.ConfigManager.GetConfig | app/my_telegram/session/config_manager.py:94-106 | the stored configuration with the table unchanged, or a fresh default one filed under the user |
| Config.ConfigManager.UpdateSetting | app/my_telegram/session/config_manager.py:108-131 | accepted iff the value validates, and then the setting reads back as the decoded value; the user's other settings keep their values (the defaults for a new user); a rejected value changes no field; the table only gains the user; other users' configurations untouched |
| Config.ConfigManager.GetSetting | app/my_telegram/session/config_manager.py:133-144 | the user's setting, None for an unknown name; a known user's table and configuration are left as they were; a new user gets a default configuration and the default value (20 cards) |
| Config.ConfigManager.GetAllSettings | app/my_telegram/session/config_manager.py:146-156 | the user's three settings; a known user's table is left as it was; a new user gets a default configuration and the three defaults |
| Config.ConfigManager.GetAvailableSettings | app/my_telegram/session/config_manager.py:158-168 | one non-empty description for each of the three setting names, in order |
| Config.UpdateThenRead | app/my_telegram/session/config_manager.py:108-144 | an accepted update reads back as the decoded value; a rejected one reads as the value before (the default for a new user); an unknown name reads as None |
| Config.UpdateKeepsOtherSetting | app/my_telegram/session/config_manager.py:108-144 | updating one setting leaves every other setting of the user reading the same |
| BaseGenerator.ShouldCreateRules | app/my_graph/generators/base_generator.py:62-66 | a form gets a card iff it is not blank and differs, ignoring case, from the dictionary form; the dictionary form in any capitalisation gets none |
| BaseGenerator.TwoSidedCard | app/my_graph/generators/base_generator.py:53-60 | a two-sided card with the given sides, tags and title |
| BaseGenerator.MultipleChoiceCard | app/my_graph/generators/verb_generator.py:42-48 | a single-answer multiple-choice card with the given question, options, correct indices, tags and title |
| BaseGenerator.CardIf | app/my_graph/generators/pronoun_generator.py:215-232 | the card when the guarding field is set, no card otherwise |
| BaseGenerator.FillInGapCard | app/my_graph/generators/base_generator.py:21-51 | a case-insensitive fill-in card whose one answer is the suffix completing the stem to the target form, whose text shows a blank, with the gap-fill tags, title and grammatical key (falling back to the description) |
| BaseGenerator.TypableSuffix | app/my_graph/generators/base_generator.py:32 | the suffix of a typable form is itself a single typable answer |
| BaseGenerator.GapCardAcceptsSuffix | app/my_graph/generators/base_generator.py:21-51 | with the first occurrence masked, the card has exactly one blank and accepts the suffix |
| BaseGenerator.GapCardAsWrittenRejectsAll | app/my_graph/generators/base_generator.py:35-43 | as written, a sentence holding the target form twice gets two blanks and every reply is rejected |
| BaseGenerator.GapCardAgreesOnSingleOccurrence | app/my_graph/generators/base_generator.py:21-51 | on a sentence holding the target form at most once, the card the code builds equals the card of the first-occurrence masking |
| BaseGenerator.Kept | app/my_graph/generators/base_generator.py:62-66 | exactly the table entries whose form passes should_create_flashcard |
| BaseGenerator.GapCards | app/my_graph/generators/noun_generator.py:30-47 | one gap card per kept form, in table order |
| BaseGenerator.GapCardsStep | app/my_graph/generators/noun_generator.py:33-46 | each loop step appends a card exactly when the form passes the filter |
| BaseGenerator.GapCardsFor | app/my_graph/generators/noun_generator.py:30-47 | the filtering loop over a form table computes GapCards |
| BaseGenerator.GapCardsShape | app/my_graph/generators/base_generator.py:39-51 | every generated card is a fill-in card for a kept form, tagged with its slot's tags plus fill_in_gap and suffix |
| BaseGenerator.GapCardsFillIn | app/my_graph/generators/base_generator.py:39-51 | gap cards are all fill-in cards, at most one per table entry |
| BaseGenerator.AllFillInAppend | app/my_graph/generators/noun_generator.py:14-28 | concatenating lists of fill-in cards keeps them all fill-in |
| BaseGenerator.BaseGenerate | app/my_graph/generators/base_generator.py:68-70 | the base generator always raises NotImplementedError with its message |
| NounGenerator.GenerateSingularForms | app/my_graph/generators/noun_generator.py:30-47 | one gap card per accepted singular form, described and keyed "<CASE> singular" |
| NounGenerator.GeneratePluralForms | app/my_graph/generators/noun_generator.py:49-66 | one gap card per accepted plural form, described and keyed "<CASE> plural" |
| NounGenerator.PropertyFlashcards | app/my_graph/generators/noun_generator.py:68-91 | two two-sided cards, answered by the noun's gender and by animate/inanimate |
| NounGenerator.AnimacyAnswer | app/my_graph/generators/noun_generator.py:82-89 | the animacy card accepts "animate" iff the noun is animate and "inanimate" iff it is not |
| NounGenerator.NounCardsShape | app/my_graph/generators/noun_generator.py:14-28 | as many cards as accepted singular and plural forms plus two, the property cards last |
| NounGenerator.GenerateFlashcardsFromGrammar | app/my_graph/generators/noun_generator.py:14-28 | singular gap cards, then plural gap cards, then the property cards |
| AdjectiveGenerator.ShortSlots | app/my_graph/generators/adjective_generator.py:107-118 | the four short forms in the order masculine, feminine, neuter, plural, keyed "short <gender>" |
| AdjectiveGenerator.GenerateMasculineForms | app/my_graph/generators/adjective_generator.py:31-48 | one gap card per accepted masculine form, keyed "<CASE> masculine" |
| AdjectiveGenerator.GenerateFeminineForms | app/my_graph/generators/adjective_generator.py:50-67 | one gap card per accepted feminine form, keyed "<CASE> feminine" |
| AdjectiveGenerator.GenerateNeuterForms | app/my_graph/generators/adjective_generator.py:69-86 | one gap card per accepted neuter form, keyed "<CASE> neuter" |
| AdjectiveGenerator.GeneratePluralForms | app/my_graph/generators/adjective_generator.py:88-105 | one gap card per accepted plural form, keyed "<CASE> plural" |
| AdjectiveGenerator.GenerateShortForms | app/my_graph/generators/adjective_generator.py:107-131 | one gap card per accepted short form |
| AdjectiveGenerator.DegreeCard | app/my_graph/generators/adjective_generator.py:137-144 | a two-sided card answered by the form iff the form is present and not blank |
| AdjectiveGenerator.ComparisonFlashcards | app/my_graph/generators/adjective_generator.py:133-157 | a comparative card iff the comparative is not blank, then a superlative card iff the superlative is not blank, each answered by that form |
| AdjectiveGenerator.ShortFormCards | app/my_graph/generators/adjective_generator.py:107-131 | at most four short-form cards, each keyed "short <gender>" |
| AdjectiveGenerator.AdjectiveCardsShape | app/my_graph/generators/adjective_generator.py:14-29 | no more cards than forms plus four short forms plus two, the comparison cards last |
| AdjectiveGenerator.GenerateFlashcardsFromGrammar | app/my_graph/generators/adjective_generator.py:14-29 | the gap cards of the five tables in order, then the comparison cards |
| PronounGenerator.SingularDescription | app/my_graph/generators/pronoun_generator.py:41-49 | "<CASE> (<person> person, <gender>)", "<CASE> (<person> person)" or "<CASE> singular" according to which of person and gender are known |
| PronounGenerator.PluralDescription | app/my_graph/generators/pronoun_generator.py:66-67 | "<CASE> (<person> person)" when the person is known, otherwise "<CASE> plural" |
| PronounGenerator.PersonalSlots | app/my_graph/generators/pronoun_generator.py:38-78 | one slot per case of the table, for its form, keyed "<CASE> case" |
| PronounGenerator.GenderSlots | app/my_graph/generators/pronoun_generator.py:88-148 | one slot per case of the table, for its form, keyed "<CASE> <gender>" |
| PronounGenerator.MeaningCard | app/my_graph/generators/pronoun_generator.py:166-173 | a two-sided card answered by the English translation |
| PronounGenerator.SpecialFallsBack | app/my_graph/generators/pronoun_generator.py:152-175 | a special pronoun without singular and masculine tables gets exactly the meaning card; with a singular table only gap cards, at most one per singular or plural form |
| PronounGenerator.GenerateNounLikeForms | app/my_graph/generators/pronoun_generator.py:32-80 | gap cards of the singular table, then of the plural table |
| PronounGenerator.GenerateAdjectiveLikeForms | app/my_graph/generators/pronoun_generator.py:82-150 | gap cards of the masculine, feminine, neuter and plural tables in that order |
| PronounGenerator.GenerateSpecialForms | app/my_graph/generators/pronoun_generator.py:152-175 | noun-like when a singular table exists, else adjective-like when a masculine table exists, else the meaning card |
| PronounGenerator.DeclensionLookup | app/my_graph/generators/pronoun_generator.py:200-208 | a known pattern reads as its description; any other pattern reads as itself |
| PronounGenerator.PropertyFlashcards | app/my_graph/generators/pronoun_generator.py:177-234 | type, translation and declension cards always, then a person-and-number card iff both are known, then a gender card iff the gender is known, with the title-cased answers |
| PronounGenerator.FixedPropertyCards | app/my_graph/generators/pronoun_generator.py:181-212 | the type card (title-cased type), the translation card and the declension card |
| PronounGenerator.PersonCard | app/my_graph/generators/pronoun_generator.py:215-222 | the card answered "<Person> person, <number>" |
| PronounGenerator.GenderCard | app/my_graph/generators/pronoun_generator.py:225-232 | the card answered by the title-cased gender |
| PronounGenerator.PronounCardsShape | app/my_graph/generators/pronoun_generator.py:14-30 | the pattern's gap cards first, the property cards (at least three) last |
| PronounGenerator.GenerateFlashcardsFromGrammar | app/my_graph/generators/pronoun_generator.py:14-30 | the gap cards chosen by the declension pattern, then the property cards |
| NumberGenerator.CaseSlots | app/my_graph/generators/number_generator.py:54-163 | one slot per case of a table, for its form, keyed "<CASE> <qualifier>" |
| NumberGenerator.CompoundSlots | app/my_graph/generators/number_generator.py:173-186 | one slot per compound form, keyed by the form's name |
| NumberGenerator.MeaningCard | app/my_graph/generators/number_generator.py:203-208 | a two-sided card answered by the English translation |
| NumberGenerator.GenerateOneTypeForms | app/my_graph/generators/number_generator.py:48-102 | gap cards of the masculine, feminine and neuter tables in that order |
| NumberGenerator.GenerateSimpleCaseForms | app/my_graph/generators/number_generator.py:104-125 | gap cards of the singular table keyed "<CASE> case" |
| NumberGenerator.GenerateThousandsForms | app/my_graph/generators/number_generator.py:127-165 | gap cards of the singular table, then of the plural table |
| NumberGenerator.GenerateCompoundForms | app/my_graph/generators/number_generator.py:167-188 | gap cards of the compound forms |
| NumberGenerator.GenerateSpecialForms | app/my_graph/generators/number_generator.py:190-211 | simple-case cards when a singular table exists, else one-type cards when a masculine table exists, else the meaning card |
| NumberGenerator.AgreementTextListsRules | app/my_graph/generators/number_generator.py:229-235 | every agreement rule appears in the agreement text as "case: pattern" |
| NumberGenerator.PropertyFlashcards | app/my_graph/generators/number_generator.py:213-244 | the translation card, then an agreement card iff agreement rules are known |
| NumberGenerator.NoFormsMeansMeaningCard | app/my_graph/generators/number_generator.py:39-41 | the special branch is reached only without gendered, compound and singular tables, and then yields exactly the meaning card |
| NumberGenerator.NumberCardsShape | app/my_graph/generators/number_generator.py:14-46 | the gap cards the tables select first, the property cards last |
| NumberGenerator.GenerateFlashcardsFromGrammar | app/my_graph/generators/number_generator.py:14-46 | gap cards chosen by which tables exist, in the source's order of tests, then the property cards |
| VerbGenerator.AspectIndex | app/my_graph/generators/verb_generator.py:39-40 | list.index: an index iff the lower-cased aspect is perfective or imperfective, and that index names it; None stands for the ValueError |
| VerbGenerator.AspectPairFlashcards | app/my_graph/generators/verb_generator.py:57-99 | two multiple-choice cards over the same two options (the verb and its pair); the perfective question's answer, option 0, is the verb iff it is perfective, and the imperfective question's answer, option 1, is the other one |
| VerbGenerator.ConjugationFlashcards | app/my_graph/generators/verb_generator.py:101-114 | one two-sided card answered by the conjugation type |
| VerbGenerator.PersonSlots | app/my_graph/generators/verb_generator.py:120-138 | six slots for the six personal forms, keyed "<tense> <person>" |
| VerbGenerator.PastSlots | app/my_graph/generators/verb_generator.py:148-164 | four slots for the past forms, keyed "past <gender>" |
| VerbGenerator.GeneratePresentTenseFlashcards | app/my_graph/generators/verb_generator.py:116-142 | one gap card per accepted present form |
| VerbGenerator.GeneratePastTenseFlashcards | app/my_graph/generators/verb_generator.py:144-168 | one gap card per accepted past form |
| VerbGenerator.GenerateFutureTenseFlashcards | app/my_graph/generators/verb_generator.py:170-196 | one gap card per accepted future form |
| VerbGenerator.ImperativeCard | app/my_graph/generators/verb_generator.py:205-212 | a fill-in card filed under the given imperative key |
| VerbGenerator.ImperativeIf | app/my_graph/generators/verb_generator.py:203-213 | the card iff the imperative form passes the filter |
| VerbGenerator.ImperativeFlashcards | app/my_graph/generators/verb_generator.py:198-228 | a singular card iff the singular imperative passes the filter, then a plural card iff the plural one does |
| VerbGenerator.GenerateImperativeFlashcards | app/my_graph/generators/verb_generator.py:198-228 | the two guarded appends compute ImperativeFlashcards |
| VerbGenerator.GenerateAspectFlashcards | app/my_graph/generators/verb_generator.py:34-55 | ValueError for an unknown aspect; otherwise the aspect question, then the pair questions iff the pair is not blank |
| VerbGenerator.VerbCardsShape | app/my_graph/generators/verb_generator.py:15-55 | generation fails iff the aspect is neither perfective nor imperfective; otherwise at most 22 cards, the first asking for the aspect with the verb's own aspect as its one correct option |
| VerbGenerator.GenerateFlashcardsFromGrammar | app/my_graph/generators/verb_generator.py:15-32 | aspect cards, conjugation, present, past, future and imperative cards in that order; an aspect error propagates |
| FlashcardGenerator.GeneratedCardsAsWritten | app/my_graph/flashcard_generator.py:49-76 | as written, every kind of word yields [] (each generator accepts at most three positional arguments and is passed four; the TypeError is caught) |
| FlashcardGenerator.NounGetsCards | app/my_graph/flashcard_generator.py:50-53 | with the call corrected, a noun gets at least its two property cards |
| FlashcardGenerator.PronounGetsCards | app/my_graph/flashcard_generator.py:62-65 | with the call corrected, a pronoun gets at least its three property cards |
| FlashcardGenerator.NumberGetsCards | app/my_graph/flashcard_generator.py:66-69 | with the call corrected, a numeral gets at least one card |
| FlashcardGenerator.VerbGetsCardsIffValidAspect | app/my_graph/flashcard_generator.py:58-74 | a verb gets no cards iff its aspect is neither perfective nor imperfective (the raised error is caught) |
| FlashcardGenerator.GenerateFlashcardsFromGrammar | app/my_graph/flashcard_generator.py:29-76 | dispatch on the kind of word to its generator, an unknown kind or a raised error giving [] |
| FlashcardGenerator.SavedCount | app/my_graph/flashcard_generator.py:88-106 | at most the number of cards; all of them iff every save reports an id, none iff no save does |
| FlashcardGenerator.SaveFlashcardsToDatabaseAsWritten | app/my_graph/flashcard_generator.py:88-106 | on a card model that does not declare user_id the count is 0; otherwise it is SavedCount |
| FlashcardGenerator.AsWrittenSavesNothing | app/my_graph/flashcard_generator.py:93 | none of the three stored card kinds declares user_id, so the as-written save always reports 0 |
| FlashcardGenerator.SaveFlashcardsToDatabase | app/my_graph/flashcard_generator.py:88-106 | with the user id handed to the store, the number of saves that reported an id, at most the number of cards |

## Left out

- Telegram transport, handlers and keyboards, the language-model calls, and the MongoDB layer are not part of this model. The example sentence is the parameter `llm`, and the store's insert is the parameter `add`. The flashcard service and `app/flashcards/database.py` are not part of this model.
- The asynchronous bulk worker `_process_job_async` and the `asyncio.create_task` launch are not modelled. Only the job's creation and its final move to the finished table are modelled. `uuid4()` and `datetime.utcnow()` are parameters.
- Time is a whole number: days for cards and scheduling, seconds for bulk jobs. `timedelta`, `.days` truncation of partial days and ISO-format strings are not modelled. Ordering jobs by `created_at` strings is modelled as ordering by the number.
- Floating point: ease factors, scores, progress and the average ease are exact `real`s. Binary rounding of `ease ± 0.1/0.2` and `round(progress, 1)` are not modelled.
- Exception fallbacks that are modelled: `calculate_next_review`'s `(now + 1, 1, 2.5)` when the due date overflows `timedelta` or the calendar (SpacedRepetition.CalculateNextReview); the answer validator's "❌ Error checking answer" when `chr` cannot form a correct option's letter, that is, when 65 + i is negative or beyond 0x10FFFF (AnswerValidator.CheckMultipleChoiceAnswer; the surrogate range is the exception listed below); the verb generator's ValueError.
- Exception fallbacks that are not modelled, because the modelled operations cannot raise on the values the model represents:
  - the priority score's `0.0`: card dates are day numbers here, while in the code only a comparison of an offset-aware due date with the naive `datetime.now()` could raise;
  - `FormAnalyzer`'s "grammatical form": its branches only look strings up in tables;
  - `extract_suffix`'s middle split: it only lower-cases and slices strings.
- SpacedRepetition.CalculateNextReview: `now` is a day before 31 December 9999. On that last day even the fallback's `now + 1 day` overflows and the exception leaves the function, which the model does not represent.
- Models.OptionLetter: Python's `chr` accepts the surrogate codes 0xD800..0xDFFF and returns a lone surrogate, which a Dafny `char` cannot hold. The model treats 65 + i in that range (indices 55231..57278) as a `chr` failure. This reaches Models.CorrectLetters, Models.OptionLines, Models.MultipleChoiceQuestion and Models.GetQuestion, which give None for a card with 55 232 or more options where the code formats the question.
- CheckMultipleChoiceAnswer (AnswerValidator.CheckMultipleChoiceAnswer): for a wrong reply on a card with a correct index in 55231..57278 the model returns "❌ Error checking answer", while the code lists the surrogate as the correct letter; the cause is the Models.OptionLetter line above.
- InputParser.ParseMultipleChoiceAnswer: `isdigit` is modelled for the ASCII digits only, and `isalpha` for the ASCII and basic Cyrillic letters. In the code, when a reply names no option by letter, a decimal digit of another script (such as "٣") names an option through `int()`, and a digit that is not decimal (such as "²") makes `int()` raise. `check_answer` then returns `(False, "❌ Error checking answer")`, where the model's AnswerValidator.CheckMultipleChoiceAnswer treats the character as naming nothing and gives the wrong-answer hint. Any other letter sits at code point 170 or above, so both ignore it unless the card has more than a hundred options.
- FillInGapCard: BaseGenerator.FillInGapCard masks only the first occurrence of the target form. This is the corrected masking of the second row under "## Findings". Through BaseGenerator.SlotCard it is what every generator's gap cards use, including the verb generator's imperative cards. The code as written masks every occurrence. That behaviour is BaseGenerator.FillInGapCardAsWritten, which BaseGenerator.GapCardAsWrittenRejectsAll shows gives an unanswerable card when the form occurs twice. BaseGenerator.GapCardAgreesOnSingleOccurrence proves the two build the same card whenever the sentence holds the form at most once.
- CreateFlashcardFromDict: the record validation of the remaining fields is the parameter `build`, which may fail; which fields each kind requires and which types it coerces is not modelled.
- ReviewScheduler.GetSessionStatistics: models the path where `card.difficulty.value` succeeds. A model that stores the enum's plain string (`use_enum_values`) makes that attribute access raise. Then the code returns `{"total": n, "error": …}`, which is not modelled.
- `FormAnalyzer.extract_metadata_from_grammar_obj` is not part of this model: nothing calls it, and it inspects arbitrary objects by reflection (`hasattr`).
- Letter case and character classes: `str.lower`/`str.upper` are modelled for ASCII and the Russian alphabet (including Ё/ё) only. `str.isspace` uses Python's whitespace set, and `isdigit` covers ASCII digits.
- `app/grammar/russian.py` defines only the noun model. The adjective, verb, pronoun and numeral records are reconstructed from the fields their generators read. An absent optional string is "", and an absent table is empty, which have the same truthiness as `None` in every test the generators make.
- Python dictionaries are insertion-ordered lists of (key, value) pairs. A card's `metadata` is a string map. A chat message is a (role, content) pair rather than a free-form dictionary.
- Config.Decode: `True` given for `cards_per_session` is stored as the integer 1, which is the value it compares as. The model's ParseInt reads ASCII digits only; Python's `int()` also accepts the decimal digits of other scripts (`int("٥٠") == 50`), which the model refuses, so such a text count is rejected here and accepted by the code.
- The verb generator's `generated_sentences` argument and the dispatcher's `user_id` argument are accepted but unused, as they are in the code.
- Models are values: a session's `flashcards.copy()` and `get_conversation_history()`'s copy are sequence values. Aliasing of the card objects inside them is not modelled.
- Sessions.SessionManager.GetLearningSessionsCount: the contract states only the bound by the number of sessions. The exact count is the size of `LearningUsers()`, which is the function's body.

## Findings

| source | as written | input that shows it | evidently intended | confidence | as-written member | corrected member |
|---|---|---|---|---|---|---|
| app/my_graph/flashcard_generator.py:50-74 | every generator is called with four positional arguments (object, word type, sentences, user id); the noun, adjective and pronoun generators accept two and the verb and number generators three, so each call raises TypeError, which is caught, and the result is always [] | any noun, e.g. one with a gender and an animacy: the corrected call yields at least its two property cards, the written call none | call each generator with the object and the word type | not executed | FlashcardGenerator.GeneratedCardsAsWritten | FlashcardGenerator.GenerateFlashcardsFromGrammar, FlashcardGenerator.NounGetsCards |
| app/my_graph/sentence_generation/text_processor.py:52 | `sentence.replace(target_form, stem + "{blank}")` masks every occurrence of the form, including inside other words, while the gap card carries a single answer; a reply for one blank never matches two blanks, so the card can never be answered correctly | sentence "У дома стоит домашний кот." with form "дома" and stem "дом": two "{blank}" markers, one answer | mask only the first occurrence, giving exactly one blank that the suffix fills | not executed | TextProcessor.AsWrittenMasksTwice, BaseGenerator.GapCardAsWrittenRejectsAll | TextProcessor.SentenceWithBlankHasOneBlank, BaseGenerator.GapCardAcceptsSuffix |
| app/my_graph/flashcard_generator.py:93 | `flashcard.user_id = user_id` assigns a field the card model does not declare; the model raises ValueError, the loop logs it and skips the save, so the count is always 0 | any non-empty list of cards that the store would accept | hand the user id to the store with the card, counting each save that returns an id | not executed | FlashcardGenerator.SaveFlashcardsToDatabaseAsWritten, FlashcardGenerator.AsWrittenSavesNothing | FlashcardGenerator.SaveFlashcardsToDatabase |
