/**
 * Preparing the generated example sentence for a gap card: the sentence
 * is cleaned for Telegram, and the target word form is masked as its stem
 * followed by the "{blank}" marker.
 */
module TextProcessor {
  import opened Text
  import Cleaning
  import Models

  const Blank: string := Models.Blank

  /** The second copy of the cleaner; it behaves exactly as the shared one. */
  method CleanSentenceForTelegram(sentence: string) returns (cleaned: string)
    ensures cleaned == Cleaning.Clean(sentence)
    ensures IsStripped(cleaned) && !Contains(cleaned, "  ")
  {
    cleaned := Cleaning.CleanSentenceForTelegram(sentence);
    Cleaning.CleanProperties(sentence);
  }

  // ---------------------------------------------------------------------
  // Matching a word of the sentence against the target form
  // ---------------------------------------------------------------------

  const Punctuation: seq<(string, string)> := [(".", ""), (",", ""), ("!", ""), ("?", "")]

  /** A word equals the target when lower-cased and stripped of . , ! ? */
  predicate WordMatches(word: string, targetForm: string) {
    ReplaceEach(Lower(word), Punctuation) == Lower(targetForm)
  }

  /** The punctuation mark the word ends with, if it ends with one of . , ! ? */
  function EndPunctuation(word: string): (r: string)
    ensures r == [] || (word != [] && r == [word[|word| - 1]] && word[|word| - 1] in ".,!?")
  {
    if word != [] && word[|word| - 1] in ".,!?" then [word[|word| - 1]] else []
  }

  /** The masked word: stem, marker, and the word's closing punctuation. */
  function MaskWord(word: string, stem: string): string {
    stem + Blank + EndPunctuation(word)
  }

  /** The first index at or after k of a word matching the target. */
  function FirstMatchFrom(words: seq<string>, targetForm: string, k: nat): (r: Option<nat>)
    ensures r.Some? ==> k <= r.value < |words| && WordMatches(words[r.value], targetForm)
    ensures r.Some? ==> forall j :: k <= j < r.value ==> !WordMatches(words[j], targetForm)
    ensures r.None? ==> forall j :: k <= j < |words| ==> !WordMatches(words[j], targetForm)
    decreases |words| - k
  {
    if k >= |words| then None
    else if WordMatches(words[k], targetForm) then Some(k)
    else FirstMatchFrom(words, targetForm, k + 1)
  }

  /**
   * The rest of the procedure once the literal replacement has produced
   * `first`: keep it if it shows the marker, else mask the first matching
   * word, else append the masked stem in parentheses.
   */
  function Finish(sentence: string, first: string, targetForm: string, stem: string): string {
    if Contains(first, Blank) then first
    else
      var words := Words(sentence);
      var m := FirstMatchFrom(words, targetForm, 0);
      var joined := if m.Some? then Join(" ", words[m.value := MaskWord(words[m.value], stem)]) else first;
      if !Contains(joined, Blank) then sentence + " (" + stem + Blank + ")" else joined
  }

  /** The procedure as written: every literal occurrence of the form is masked. */
  function SentenceWithBlankAsWritten(sentence: string, targetForm: string, stem: string): string {
    Finish(sentence, Replace(sentence, targetForm, stem + Blank), targetForm, stem)
  }

  /** The intended procedure: only the first literal occurrence is masked. */
  function SentenceWithBlank(sentence: string, targetForm: string, stem: string): string {
    Finish(sentence, ReplaceFirst(sentence, targetForm, stem + Blank), targetForm, stem)
  }

  /**
   * The masking as the code performs it: a literal replace of every
   * occurrence, then a scan of the words that stops at the first match,
   * then the appended fallback.
   */
  method CreateSentenceWithBlank(sentence: string, targetForm: string, stem: string) returns (r: string)
    ensures r == SentenceWithBlankAsWritten(sentence, targetForm, stem)
    ensures Contains(r, Blank)
  {
    var maskedWord := stem + Blank;
    r := Replace(sentence, targetForm, maskedWord);
    if !Contains(r, Blank) {
      var words := Words(sentence);
      var i := 0;
      while i < |words|
        invariant 0 <= i <= |words|
        invariant FirstMatchFrom(words, targetForm, 0) == FirstMatchFrom(words, targetForm, i)
        invariant r == Replace(sentence, targetForm, maskedWord)
      {
        if WordMatches(words[i], targetForm) {
          words := words[i := MaskWord(words[i], stem)];
          r := Join(" ", words);
          break;
        }
        i := i + 1;
      }
      if !Contains(r, Blank) {
        r := sentence + " (" + stem + Blank + ")";
      }
    }
    FinishShowsBlank(sentence, Replace(sentence, targetForm, maskedWord), targetForm, stem);
  }

  // ---------------------------------------------------------------------
  // What the procedure guarantees
  // ---------------------------------------------------------------------

  lemma AppendedShowsBlank(sentence: string, stem: string)
    ensures Contains(sentence + " (" + stem + Blank + ")", Blank)
  {
    ContainsPrefix(Blank, []);
    ContainsMiddle(sentence + " (" + stem, Blank, ")", Blank);
  }

  /** A first replacement that shows the marker is the result. */
  lemma KeepsFirst(sentence: string, targetForm: string, stem: string)
    requires Contains(ReplaceFirst(sentence, targetForm, stem + Blank), Blank)
    ensures SentenceWithBlank(sentence, targetForm, stem) == ReplaceFirst(sentence, targetForm, stem + Blank)
  {
  }

  /** Whatever happened before, the final sentence shows the marker. */
  lemma FinishShowsBlank(sentence: string, first: string, targetForm: string, stem: string)
    ensures Contains(Finish(sentence, first, targetForm, stem), Blank)
  {
    AppendedShowsBlank(sentence, stem);
  }

  lemma MaskedShowsBlank(stem: string)
    ensures Contains(stem + Blank, Blank)
  {
    ContainsPrefix(Blank, []);
    ContainsAppend(stem, Blank + [], Blank);
    assert Blank + [] == Blank;
  }

  /** A literal occurrence of the form means every occurrence becomes stem + marker. */
  lemma LiteralMatchAsWritten(sentence: string, targetForm: string, stem: string)
    requires Contains(sentence, targetForm)
    ensures SentenceWithBlankAsWritten(sentence, targetForm, stem) == Replace(sentence, targetForm, stem + Blank)
  {
    ReplaceIntroduces(sentence, targetForm, stem + Blank);
    MaskedShowsBlank(stem);
    ContainsTrans(Replace(sentence, targetForm, stem + Blank), stem + Blank, Blank);
  }

  /** A literal occurrence of the form means its first occurrence becomes stem + marker. */
  lemma LiteralMatch(sentence: string, targetForm: string, stem: string)
    requires Contains(sentence, targetForm)
    ensures var i := FirstOccurrence(sentence, targetForm);
      SentenceWithBlank(sentence, targetForm, stem) ==
        sentence[..i] + (stem + Blank) + sentence[i + |targetForm|..]
  {
    ReplaceFirstShape(sentence, targetForm, stem + Blank);
    FirstReplacementShows(sentence, targetForm, stem);
    KeepsFirst(sentence, targetForm, stem);
  }

  lemma FirstReplacementShows(sentence: string, targetForm: string, stem: string)
    requires Contains(sentence, targetForm)
    ensures Contains(ReplaceFirst(sentence, targetForm, stem + Blank), Blank)
  {
    var i := FirstOccurrence(sentence, targetForm);
    ReplaceFirstShape(sentence, targetForm, stem + Blank);
    MaskedInMiddle(sentence[..i], stem, sentence[i + |targetForm|..]);
  }

  lemma MaskedInMiddle(a: string, stem: string, rest: string)
    ensures Contains(a + (stem + Blank) + rest, Blank)
  {
    MaskedShowsBlank(stem);
    ContainsMiddle(a, stem + Blank, rest, Blank);
  }

  lemma Regroup(a: string, b: string, c: string, d: string)
    ensures a + (b + c) + d == a + b + c + d
  {
  }

  /** Without a literal or word match, the masked stem is appended in parentheses. */
  lemma NoMatchAppends(sentence: string, targetForm: string, stem: string)
    requires !Contains(sentence, targetForm) && !Contains(sentence, Blank)
    requires FirstMatchFrom(Words(sentence), targetForm, 0).None?
    ensures SentenceWithBlankAsWritten(sentence, targetForm, stem) == sentence + " (" + stem + Blank + ")"
    ensures SentenceWithBlank(sentence, targetForm, stem) == sentence + " (" + stem + Blank + ")"
  {
    ReplaceAbsent(sentence, targetForm, stem + Blank);
    ReplaceFirstAbsent(sentence, targetForm, stem + Blank);
  }

  /** Without a literal match, the first word equal to the form up to case and punctuation is masked. */
  lemma WordMatchMasks(sentence: string, targetForm: string, stem: string)
    requires !Contains(sentence, targetForm) && !Contains(sentence, Blank)
    requires FirstMatchFrom(Words(sentence), targetForm, 0).Some?
    ensures
      var words := Words(sentence);
      var i := FirstMatchFrom(words, targetForm, 0).value;
      && SentenceWithBlankAsWritten(sentence, targetForm, stem) == Join(" ", words[i := MaskWord(words[i], stem)])
      && SentenceWithBlank(sentence, targetForm, stem) == Join(" ", words[i := MaskWord(words[i], stem)])
  {
    ReplaceAbsent(sentence, targetForm, stem + Blank);
    ReplaceFirstAbsent(sentence, targetForm, stem + Blank);
    var words := Words(sentence);
    var i := FirstMatchFrom(words, targetForm, 0).value;
    var masked := words[i := MaskWord(words[i], stem)];
    JoinShowsMask(masked, i, stem, EndPunctuation(words[i]));
  }

  lemma {:induction false} JoinShowsMask(parts: seq<string>, i: nat, stem: string, punct: string)
    requires i < |parts| && parts[i] == stem + Blank + punct
    ensures Contains(Join(" ", parts), Blank)
    decreases |parts|
  {
    if i == 0 {
      MaskedShowsBlank(stem);
      ContainsAppendLeft(stem + Blank, punct, Blank);
      if |parts| > 1 {
        ContainsAppendLeft(parts[0], " " + Join(" ", parts[1..]), Blank);
        assert Join(" ", parts) == parts[0] + (" " + Join(" ", parts[1..]));
      }
    } else {
      JoinShowsMask(parts[1..], i - 1, stem, punct);
      ContainsAppend(parts[0] + " ", Join(" ", parts[1..]), Blank);
    }
  }

  // ---------------------------------------------------------------------
  // Counting markers
  // ---------------------------------------------------------------------

  lemma NoBraceNoBlank(s: string)
    requires '{' !in s
    ensures Models.BlankCount(s) == 0 && !Contains(s, Blank)
  {
    CountNone(s, Blank);
    CountPositiveIff(s, Blank);
  }

  /** Joined parts hold one marker when exactly one part holds one and nothing else has a brace. */
  lemma {:induction false} JoinCountOnce(parts: seq<string>, i: nat, x: string, y: string)
    requires i < |parts| && parts[i] == x + Blank + y && '{' !in x && '{' !in y
    requires forall j :: 0 <= j < |parts| && j != i ==> '{' !in parts[j]
    ensures Count(Join(" ", parts), Blank) == 1
    decreases |parts|
  {
    if i == 0 {
      if |parts| == 1 {
        CountOnce(x, Blank, y);
      } else {
        var rest := Join(" ", parts[1..]);
        JoinAvoids(" ", parts[1..], '{');
        assert Join(" ", parts) == x + Blank + (y + " " + rest);
        CountOnce(x, Blank, y + " " + rest);
      }
    } else {
      var rest := Join(" ", parts[1..]);
      JoinCountOnce(parts[1..], i - 1, x, y);
      assert Join(" ", parts) == (parts[0] + " ") + rest;
      CountSkip(parts[0] + " ", rest, Blank);
    }
  }

  /**
   * With no brace in the sentence or the stem, the intended procedure
   * leaves exactly one marker, whichever of its three paths it takes.
   */
  lemma SentenceWithBlankHasOneBlank(sentence: string, targetForm: string, stem: string)
    requires '{' !in sentence && '{' !in stem
    ensures Models.BlankCount(SentenceWithBlank(sentence, targetForm, stem)) == 1
  {
    NoBraceNoBlank(sentence);
    if Contains(sentence, targetForm) {
      LiteralMatch(sentence, targetForm, stem);
      var i := FirstOccurrence(sentence, targetForm);
      var a := sentence[..i];
      var b := sentence[i + |targetForm|..];
      assert '{' !in a + stem by {
        assert forall k :: 0 <= k < |a| ==> a[k] == sentence[k];
      }
      assert '{' !in b by {
        assert forall k :: 0 <= k < |b| ==> b[k] == sentence[i + |targetForm| + k];
      }
      Regroup(a, stem, Blank, b);
      CountOnce(a + stem, Blank, b);
    } else {
      var words := Words(sentence);
      var m := FirstMatchFrom(words, targetForm, 0);
      if m.Some? {
        WordMatchMasks(sentence, targetForm, stem);
        WordsChars(sentence, '{');
        var punct := EndPunctuation(words[m.value]);
        assert '{' !in punct;
        JoinCountOnce(words[m.value := MaskWord(words[m.value], stem)], m.value, stem, punct);
      } else {
        NoMatchAppends(sentence, targetForm, stem);
        assert sentence + " (" + stem + Blank + ")" == (sentence + " (" + stem) + Blank + ")";
        CountOnce(sentence + " (" + stem, Blank, ")");
      }
    }
  }

  // ---------------------------------------------------------------------
  // The sentence that shows the defect of the literal replace
  // ---------------------------------------------------------------------

  const HomeSentence: string := "У дома стоит домашний кот."

  /**
   * The literal replace-all leaves one marker per occurrence of the form:
   * with no brace in the sentence or the stem, the marker count equals
   * the count of the form.
   */
  lemma {:induction false} ReplaceAllCount(s: string, form: string, stem: string)
    requires form != [] && '{' !in s && '{' !in stem
    ensures Count(Replace(s, form, stem + Blank), Blank) == Count(s, form)
    decreases |s|
  {
    var rep := stem + Blank;
    if |s| < |form| {
      CountNone(s, Blank);
    } else if s[..|form|] == form {
      var t := s[|form|..];
      assert '{' !in t by { assert forall k :: 0 <= k < |t| ==> t[k] == s[|form| + k]; }
      ReplaceAllCount(t, form, stem);
      assert Replace(s, form, rep) == stem + (Blank + Replace(t, form, rep));
      CountSkip(stem, Blank + Replace(t, form, rep), Blank);
      CountHead(Blank, Replace(t, form, rep));
    } else {
      var t := s[1..];
      ReplaceAllCount(t, form, stem);
      assert Replace(s, form, rep) == [s[0]] + Replace(t, form, rep);
      CountSkip([s[0]], Replace(t, form, rep), Blank);
    }
  }

  /** As written, the marker count is the number of occurrences of the form, not one. */
  lemma AsWrittenBlankCount(sentence: string, targetForm: string, stem: string)
    requires targetForm != [] && Contains(sentence, targetForm)
    requires '{' !in sentence && '{' !in stem
    ensures Models.BlankCount(SentenceWithBlankAsWritten(sentence, targetForm, stem)) == Count(sentence, targetForm)
  {
    LiteralMatchAsWritten(sentence, targetForm, stem);
    ReplaceAllCount(sentence, targetForm, stem);
  }

  /** A sentence with two separate occurrences of the form gets two markers. */
  lemma AsWrittenTwoOccurrences(a: string, b: string, c: string, form: string, stem: string)
    requires form != [] && form[0] !in a && form[0] !in b && form[0] !in c
    requires '{' !in a + form + b + form + c && '{' !in stem
    ensures Models.BlankCount(SentenceWithBlankAsWritten(a + form + b + form + c, form, stem)) == 2
    ensures Models.BlankCount(SentenceWithBlank(a + form + b + form + c, form, stem)) == 1
  {
    var s := a + form + b + form + c;
    assert s == a + (form + (b + (form + c)));
    CountNone(c, form);
    CountHead(form, c);
    CountSkip(b, form + c, form);
    CountHead(form, b + (form + c));
    CountSkip(a, form + (b + (form + c)), form);
    CountPositiveIff(s, form);
    AsWrittenBlankCount(s, form, stem);
    SentenceWithBlankHasOneBlank(s, form, stem);
  }

  /** When the form occurs at most once, the written and the intended masking give the same sentence. */
  lemma SingleOccurrenceAgrees(sentence: string, targetForm: string, stem: string)
    requires targetForm != [] && Count(sentence, targetForm) <= 1
    ensures SentenceWithBlankAsWritten(sentence, targetForm, stem) == SentenceWithBlank(sentence, targetForm, stem)
  {
    ReplaceSingle(sentence, targetForm, stem + Blank);
  }

  /**
   * "дома" (genitive of "дом") also occurs inside "домашний", so the
   * replace-all masks two places while the card expects one answer; the
   * intended procedure masks one.
   */
  lemma AsWrittenMasksTwice()
    ensures Models.BlankCount(SentenceWithBlankAsWritten(HomeSentence, "дома", "дом")) == 2
    ensures Models.BlankCount(SentenceWithBlank(HomeSentence, "дома", "дом")) == 1
  {
    assert HomeSentence == "У " + "дома" + " стоит " + "дома" + "шний кот.";
    AsWrittenTwoOccurrences("У ", " стоит ", "шний кот.", "дома", "дом");
  }
}
