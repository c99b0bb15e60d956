/**
 * Splitting an inflected Russian word into the stem shared with its
 * dictionary form and the ending the learner has to supply.
 */
module Suffixes {
  import opened Text

  /** Length of the longest common prefix of a and b. */
  function CommonPrefixLength(a: string, b: string): (n: nat)
    ensures n <= |a| && n <= |b|
    ensures a[..n] == b[..n]
    ensures n == |a| || n == |b| || a[n] != b[n]
  {
    if a == [] || b == [] || a[0] != b[0] then 0
    else 1 + CommonPrefixLength(a[1..], b[1..])
  }

  /** Where the stem ends, following the three rules for short, total and partial overlaps. */
  function StemLength(common: nat, len: nat): nat
    requires common <= len
  {
    if common < 2 then (if len >= 3 then 2 else if len >= 1 then len - 1 else 0)
    else if common >= len then len - 1
    else common
  }

  /**
   * The (stem, suffix) pair for an inflected form.  The overlap with the
   * dictionary form is measured after lower-casing both words.
   */
  function SplitStem(dictionaryForm: string, inflectedForm: string): (r: (string, string))
    ensures r.0 + r.1 == inflectedForm
    ensures r.1 != [] <==> inflectedForm != []
  {
    var common := CommonPrefixLength(Lower(dictionaryForm), Lower(inflectedForm));
    var k := StemLength(common, |inflectedForm|);
    assert inflectedForm == inflectedForm[..k] + inflectedForm[k..];
    (inflectedForm[..k], inflectedForm[k..])
  }

  /** The stem lengths the three rules give, and the stem agrees with the dictionary form ignoring case. */
  lemma SplitStemRules(dictionaryForm: string, inflectedForm: string)
    ensures
      var common := CommonPrefixLength(Lower(dictionaryForm), Lower(inflectedForm));
      var stem := SplitStem(dictionaryForm, inflectedForm).0;
      && (common < 2 ==> |stem| == (if |inflectedForm| >= 3 then 2 else if inflectedForm != [] then |inflectedForm| - 1 else 0))
      && (2 <= common < |inflectedForm| ==> |stem| == common)
      && (common >= 2 && common >= |inflectedForm| ==> |SplitStem(dictionaryForm, inflectedForm).1| == 1)
      && (common >= 2 ==> |stem| <= |dictionaryForm| && Lower(stem) == Lower(dictionaryForm)[..|stem|])
  {
    var common := CommonPrefixLength(Lower(dictionaryForm), Lower(inflectedForm));
    var stem := SplitStem(dictionaryForm, inflectedForm).0;
    if common >= 2 {
      LowerPrefix(inflectedForm, |stem|);
      SharedPrefix(Lower(dictionaryForm), Lower(inflectedForm), common, |stem|);
    }
  }

  lemma LowerPrefix(s: string, k: nat)
    requires k <= |s|
    ensures Lower(s[..k]) == Lower(s)[..k]
  {
  }

  lemma SharedPrefix(a: string, b: string, n: nat, k: nat)
    requires k <= n <= |a| && n <= |b| && a[..n] == b[..n]
    ensures a[..k] == b[..k]
  {
    assert a[..k] == a[..n][..k];
    assert b[..k] == b[..n][..k];
  }

  /** The lemmatiser's split of "книгу" against "книга": stem "книг", ending "у". */
  lemma SplitExample()
    ensures SplitStem("книга", "книгу") == ("книг", "у")
  {
    assert Lower("книга") == "книга";
    assert Lower("книгу") == "книгу";
    assert CommonPrefixLength("а", "у") == 0;
    assert CommonPrefixLength("книга", "книгу") == 4;
    assert StemLength(4, 5) == 4;
    assert "книгу"[..4] == "книг" && "книгу"[4..] == "у";
  }

  /**
   * The common prefix is counted by a scan that stops at the first
   * difference; the stem and suffix are the slices SplitStem describes.
   */
  method ExtractSuffix(dictionaryForm: string, inflectedForm: string) returns (stem: string, suffix: string)
    ensures (stem, suffix) == SplitStem(dictionaryForm, inflectedForm)
    ensures stem + suffix == inflectedForm
  {
    var dictLower := Lower(dictionaryForm);
    var inflectedLower := Lower(inflectedForm);
    var commonLength := 0;
    var minLength := if |dictLower| < |inflectedLower| then |dictLower| else |inflectedLower|;
    var i := 0;
    while i < minLength
      invariant 0 <= i <= minLength && commonLength == i
      invariant dictLower[..i] == inflectedLower[..i]
    {
      if dictLower[i] == inflectedLower[i] {
        commonLength := commonLength + 1;
      } else {
        break;
      }
      i := i + 1;
    }
    assert commonLength == CommonPrefixLength(dictLower, inflectedLower) by {
      PrefixLengthUnique(dictLower, inflectedLower, commonLength);
    }
    var n := |inflectedForm|;
    if commonLength < 2 {
      var safeStemLength := SliceEnd(n, if 2 < n - 1 then 2 else n - 1);
      stem := inflectedForm[..safeStemLength];
      suffix := inflectedForm[safeStemLength..];
    } else if commonLength >= n {
      stem := if n > 1 then inflectedForm[..n - 1] else inflectedForm;
      suffix := if n > 1 then inflectedForm[n - 1..] else [];
    } else {
      stem := inflectedForm[..commonLength];
      suffix := inflectedForm[commonLength..];
    }
  }

  /** A prefix length at which the strings agree up to and differ at (or one ends) is the common one. */
  lemma {:induction false} PrefixLengthUnique(a: string, b: string, k: nat)
    requires k <= |a| && k <= |b| && a[..k] == b[..k]
    requires k == |a| || k == |b| || a[k] != b[k]
    ensures k == CommonPrefixLength(a, b)
    decreases k
  {
    if k > 0 {
      assert a[0] == a[..k][0] && b[0] == b[..k][0];
      assert a[1..][..k - 1] == a[..k][1..] && b[1..][..k - 1] == b[..k][1..];
      PrefixLengthUnique(a[1..], b[1..], k - 1);
    } else if a != [] && b != [] {
      assert a[0] != b[0];
    }
  }
}
