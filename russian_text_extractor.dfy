/**
 * Picking the Russian words out of free text: lower-case, find the runs of
 * Cyrillic letters, keep words of three or more letters, and drop repeats
 * while keeping the order in which words first appear.
 */
module RussianWords {
  import opened Text

  /** The character class [а-яё]. */
  predicate RussianLetter(c: char) {
    ('а' <= c <= 'я') || c == 'ё'
  }

  // ---------------------------------------------------------------------
  // re.findall(r'[а-яё]+(?:-[а-яё]+)*', s)
  // ---------------------------------------------------------------------

  /** The end of the run of letters starting at j. */
  function RunEnd(s: string, j: nat): (e: nat)
    requires j <= |s|
    ensures j <= e <= |s|
    ensures forall k :: j <= k < e ==> RussianLetter(s[k])
    ensures e == |s| || !RussianLetter(s[e])
    decreases |s| - j
  {
    if j < |s| && RussianLetter(s[j]) then RunEnd(s, j + 1) else j
  }

  /** Starting at the end of a letter run, the end after every "-letters" group that follows. */
  function HyphenatedEnd(s: string, j: nat): (e: nat)
    requires j <= |s|
    ensures j <= e <= |s|
    decreases |s| - j
  {
    if j + 1 < |s| && s[j] == '-' && RussianLetter(s[j + 1]) then HyphenatedEnd(s, RunEnd(s, j + 1))
    else j
  }

  /** Letters, optionally joined by single hyphens: what the pattern matches. */
  predicate HyphenatedWord(w: string) {
    && w != [] && RussianLetter(w[0]) && RussianLetter(w[|w| - 1])
    && (forall k :: 0 <= k < |w| ==> RussianLetter(w[k]) || w[k] == '-')
    && (forall k :: 0 <= k < |w| - 1 && w[k] == '-' ==> w[k + 1] != '-')
  }

  /** The text between a run's start i and a hyphenated end is a hyphenated word. */
  lemma {:induction false} HyphenatedSpan(s: string, i: nat, j: nat)
    requires i < j <= |s| && HyphenatedWord(s[i..j])
    ensures HyphenatedWord(s[i..HyphenatedEnd(s, j)])
    decreases |s| - j
  {
    if j + 1 < |s| && s[j] == '-' && RussianLetter(s[j + 1]) {
      var e := RunEnd(s, j + 1);
      var w := s[i..e];
      assert w[..j - i] == s[i..j];
      forall k | 0 <= k < |w| - 1 && w[k] == '-' ensures w[k + 1] != '-' {
        if k < j - i - 1 {
          assert w[k] == s[i..j][k] && w[k + 1] == s[i..j][k + 1];
        }
      }
      HyphenatedSpan(s, i, e);
    }
  }

  function FindHyphenated(s: string, i: nat): (r: seq<string>)
    requires i <= |s|
    decreases |s| - i
  {
    if i == |s| then []
    else if RussianLetter(s[i]) then
      var e := HyphenatedEnd(s, RunEnd(s, i));
      [s[i..e]] + FindHyphenated(s, e)
    else FindHyphenated(s, i + 1)
  }

  lemma {:induction false} FindHyphenatedWords(s: string, i: nat)
    requires i <= |s|
    ensures forall k :: 0 <= k < |FindHyphenated(s, i)| ==> HyphenatedWord(FindHyphenated(s, i)[k])
    decreases |s| - i
  {
    if i < |s| {
      if RussianLetter(s[i]) {
        var run := RunEnd(s, i);
        var e := HyphenatedEnd(s, run);
        assert HyphenatedWord(s[i..run]);
        HyphenatedSpan(s, i, run);
        FindHyphenatedWords(s, e);
      } else {
        FindHyphenatedWords(s, i + 1);
      }
    }
  }

  /** Text without a Russian letter has no matches. */
  lemma {:induction false} FindHyphenatedNone(s: string, i: nat)
    requires i <= |s| && forall k :: 0 <= k < |s| ==> !RussianLetter(s[k])
    ensures FindHyphenated(s, i) == []
    decreases |s| - i
  {
    if i < |s| {
      FindHyphenatedNone(s, i + 1);
    }
  }

  // ---------------------------------------------------------------------
  // Length filter and order-preserving de-duplication
  // ---------------------------------------------------------------------

  /** [w for w in words if len(w) >= 3] */
  function LongWords(words: seq<string>): (r: seq<string>)
    ensures forall w :: w in r <==> w in words && |w| >= 3
  {
    if words == [] then []
    else
      var last := words[|words| - 1];
      assert words == words[..|words| - 1] + [last];
      LongWords(words[..|words| - 1]) + (if |last| >= 3 then [last] else [])
  }

  /** Each word kept the first time it is seen, in input order. */
  function Dedup(xs: seq<string>): (r: seq<string>)
    ensures forall w :: w in r <==> w in xs
  {
    if xs == [] then []
    else
      var last := xs[|xs| - 1];
      var d := Dedup(xs[..|xs| - 1]);
      assert xs == xs[..|xs| - 1] + [last];
      if last in d then d else d + [last]
  }

  predicate DistinctWords(r: seq<string>) {
    forall a, b :: 0 <= a < b < |r| ==> r[a] != r[b]
  }

  /** Position of the first occurrence of w in xs. */
  function IndexOf(xs: seq<string>, w: string): (k: nat)
    requires w in xs
    ensures k < |xs| && xs[k] == w && w !in xs[..k]
  {
    if xs[0] == w then 0
    else
      assert w in xs[1..];
      var k := 1 + IndexOf(xs[1..], w);
      assert xs[..k] == [xs[0]] + xs[1..][..k - 1];
      k
  }

  /** An occurrence with no earlier one is the first occurrence. */
  lemma IndexOfUnique(xs: seq<string>, w: string, k: nat)
    requires k < |xs| && xs[k] == w && w !in xs[..k]
    ensures IndexOf(xs, w) == k
  {
    var j := IndexOf(xs, w);
    assert forall t :: 0 <= t < k ==> xs[..k][t] == xs[t];
    assert forall t :: 0 <= t < j ==> xs[..j][t] == xs[t];
  }

  lemma IndexOfPrefix(xs: seq<string>, w: string, n: nat)
    requires n <= |xs| && w in xs[..n]
    ensures IndexOf(xs, w) == IndexOf(xs[..n], w)
  {
    var k := IndexOf(xs[..n], w);
    assert xs[..n][..k] == xs[..k];
    IndexOfUnique(xs, w, k);
  }

  /** No repeats, and words appear in the order of their first occurrence. */
  lemma {:induction false} DedupProperties(xs: seq<string>)
    ensures DistinctWords(Dedup(xs))
    ensures forall a, b :: 0 <= a < b < |Dedup(xs)| ==> IndexOf(xs, Dedup(xs)[a]) < IndexOf(xs, Dedup(xs)[b])
    decreases |xs|
  {
    if xs != [] {
      var n := |xs| - 1;
      var init := xs[..n];
      var last := xs[n];
      var d := Dedup(init);
      DedupProperties(init);
      forall w | w in d ensures IndexOf(xs, w) == IndexOf(init, w) && IndexOf(xs, w) < n {
        IndexOfPrefix(xs, w, n);
      }
      var r := Dedup(xs);
      if last !in d {
        assert r == d + [last];
        assert last !in init;
        assert xs[..n] == init;
        IndexOfUnique(xs, last, n);
        forall a, b | 0 <= a < b < |r|
          ensures IndexOf(xs, r[a]) < IndexOf(xs, r[b])
        {
          assert r[a] == d[a] && r[a] in d;
          if b < |d| {
            assert r[b] == d[b] && r[b] in d;
          }
        }
      } else {
        assert r == d;
      }
    }
  }

  /** One more word: kept when long and not seen, ignored otherwise. */
  lemma DedupLongStep(words: seq<string>, i: nat)
    requires i < |words|
    ensures Dedup(LongWords(words[..i + 1])) ==
      var d := Dedup(LongWords(words[..i]));
      if |words[i]| >= 3 && words[i] !in d then d + [words[i]] else d
  {
    var pre := words[..i + 1];
    assert pre[..|pre| - 1] == words[..i];
    assert pre[|pre| - 1] == words[i];
    var l := LongWords(words[..i]);
    if |words[i]| >= 3 {
      var m := l + [words[i]];
      assert LongWords(pre) == m;
      assert m[..|m| - 1] == l;
      assert m[|m| - 1] == words[i];
    } else {
      assert LongWords(pre) == l;
    }
  }

  /** The words the extractor returns: matches, long enough, each once. */
  function ExtractedWords(text: string): seq<string> {
    Dedup(LongWords(FindHyphenated(Lower(text), 0)))
  }

  /**
   * The extracted words are distinct hyphenated lower-case Russian words of
   * at least three characters, in first-occurrence order, and every long
   * match is among them.
   */
  lemma ExtractedWordsProperties(text: string)
    ensures var r := ExtractedWords(text);
      var matches := FindHyphenated(Lower(text), 0);
      && DistinctWords(r)
      && (forall w :: w in r <==> w in matches && |w| >= 3)
      && (forall k :: 0 <= k < |r| ==> |r[k]| >= 3 && HyphenatedWord(r[k]))
      && (forall a, b :: 0 <= a < b < |r| ==> IndexOf(LongWords(matches), r[a]) < IndexOf(LongWords(matches), r[b]))
  {
    var matches := FindHyphenated(Lower(text), 0);
    FindHyphenatedWords(Lower(text), 0);
    DedupProperties(LongWords(matches));
    var r := ExtractedWords(text);
    forall k | 0 <= k < |r| ensures |r[k]| >= 3 && HyphenatedWord(r[k]) {
      assert r[k] in r;
      var j :| 0 <= j < |matches| && matches[j] == r[k];
    }
  }

  /** Text with no Cyrillic letter of the class, in either case, gives no words. */
  lemma NoRussianNoWords(text: string)
    requires forall k :: 0 <= k < |text| ==> !RussianLetter(LowerChar(text[k]))
    ensures ExtractedWords(text) == []
  {
    FindHyphenatedNone(Lower(text), 0);
  }

  /**
   * The length filter as a comprehension, then a scan that keeps a word
   * the first time it is seen.
   */
  method ExtractRussianWords(text: string) returns (uniqueWords: seq<string>)
    ensures uniqueWords == ExtractedWords(text)
  {
    var words := FindHyphenated(Lower(text), 0);
    var meaningfulWords := LongWords(words);
    uniqueWords := [];
    var seen: set<string> := {};
    for i := 0 to |meaningfulWords|
      invariant uniqueWords == Dedup(meaningfulWords[..i])
      invariant forall w :: w in seen <==> w in uniqueWords
    {
      var word := meaningfulWords[i];
      assert meaningfulWords[..i + 1][..i] == meaningfulWords[..i];
      assert meaningfulWords[..i + 1][i] == word;
      if word !in seen {
        uniqueWords := uniqueWords + [word];
        seen := seen + {word};
      }
    }
    assert meaningfulWords[..|meaningfulWords|] == meaningfulWords;
  }
}
