/**
 * Human-readable descriptions of grammatical forms: case abbreviations
 * spelt out for nouns and adjectives, and a fixed table for verb forms.
 */
module FormAnalyzer {
  import opened Text

  const CaseNames: seq<(string, string)> := [
    ("nom", "nominative"), ("gen", "genitive"), ("dat", "dative"),
    ("acc", "accusative"), ("ins", "instrumental"), ("pre", "prepositional")]

  /** The case as spelt out, or as given when its lower-cased abbreviation is not known. */
  function CaseName(c: string): string {
    DictGet(CaseNames, Lower(c), c)
  }

  /** Known abbreviations are matched case-insensitively; anything else passes through. */
  lemma CaseNameLookup(c: string)
    ensures forall k :: 0 <= k < |CaseNames| && Lower(c) == CaseNames[k].0 ==> CaseName(c) == CaseNames[k].1
    ensures (forall k :: 0 <= k < |CaseNames| ==> Lower(c) != CaseNames[k].0) ==> CaseName(c) == c
  {
    assert DistinctKeys(CaseNames);
    forall k | 0 <= k < |CaseNames| && Lower(c) == CaseNames[k].0 ensures CaseName(c) == CaseNames[k].1 {
      DictGetDistinct(CaseNames, Lower(c), c, k);
    }
  }

  /** "<case name> <number>", stripped; an absent number is "". */
  function NounFormDescription(c: string, number: string): (r: string)
    ensures IsStripped(r)
  {
    StripProperties(CaseName(c) + " " + number);
    Strip(CaseName(c) + " " + number)
  }

  /** A known case with no number is just its full name. */
  lemma NounCaseAlone(c: string, k: nat)
    requires k < |CaseNames| && Lower(c) == CaseNames[k].0
    ensures NounFormDescription(c, "") == CaseNames[k].1
  {
    CaseNameLookup(c);
    NamesStripped();
    NounNoNumber(c);
  }

  lemma NounNoNumber(c: string)
    requires IsStripped(CaseName(c))
    ensures NounFormDescription(c, "") == CaseName(c)
  {
    assert CaseName(c) + " " + "" == CaseName(c) + " ";
    StripRightSpace(CaseName(c));
  }

  lemma NamesStripped()
    ensures forall k :: 0 <= k < |CaseNames| ==> IsStripped(CaseNames[k].1)
  {
    forall k | 0 <= k < |CaseNames| ensures IsStripped(CaseNames[k].1) {
      var n := CaseNames[k].1;
      assert n[0] != ' ' && !IsSpace(n[0]) && !IsSpace(n[|n| - 1]);
    }
  }

  lemma StripRightSpace(s: string)
    requires IsStripped(s)
    ensures Strip(s + " ") == s
  {
    assert (s + " ")[..|s|] == s;
    StripOfStripped(s);
  }

  /** "plural" wins over the gender; with neither, "<case name> form". */
  function AdjectiveFormDescription(c: string, number: string, gender: string): (r: string)
    ensures number == "plural" ==> r == CaseName(c) + " plural"
    ensures number != "plural" && gender != [] ==> r == CaseName(c) + " " + gender
    ensures number != "plural" && gender == [] ==> r == CaseName(c) + " form"
  {
    var caseName := CaseName(c);
    if number == "plural" then caseName + " plural"
    else if gender != [] then caseName + " " + gender
    else caseName + " form"
  }

  /** The gender does not matter once the number is plural. */
  lemma AdjectivePluralIgnoresGender(c: string, g1: string, g2: string)
    ensures AdjectiveFormDescription(c, "plural", g1) == AdjectiveFormDescription(c, "plural", g2)
  {
  }

  const VerbForms: seq<(string, string)> := [
    ("present_first_singular", "present tense, 1st person singular (я)"),
    ("present_second_singular", "present tense, 2nd person singular (ты)"),
    ("present_third_singular", "present tense, 3rd person singular (он/она/оно)"),
    ("present_first_plural", "present tense, 1st person plural (мы)"),
    ("present_second_plural", "present tense, 2nd person plural (вы)"),
    ("present_third_plural", "present tense, 3rd person plural (они)"),
    ("past_masculine", "past tense, masculine (он)"),
    ("past_feminine", "past tense, feminine (она)"),
    ("past_neuter", "past tense, neuter (оно)"),
    ("past_plural", "past tense, plural (они)"),
    ("future_first_singular", "future tense, 1st person singular (я)"),
    ("future_second_singular", "future tense, 2nd person singular (ты)"),
    ("future_third_singular", "future tense, 3rd person singular (он/она/оно)"),
    ("future_first_plural", "future tense, 1st person plural (мы)"),
    ("future_second_plural", "future tense, 2nd person plural (вы)"),
    ("future_third_plural", "future tense, 3rd person plural (они)"),
    ("imperative_singular", "imperative, singular"),
    ("imperative_plural", "imperative, plural")]

  function VerbFormDescription(formKey: string): string {
    DictGet(VerbForms, formKey, formKey)
  }

  /** The table's description for a known key (matched exactly); any other key comes back unchanged. */
  lemma VerbFormLookup(formKey: string)
    ensures forall k :: 0 <= k < |VerbForms| && formKey == VerbForms[k].0 ==> VerbFormDescription(formKey) == VerbForms[k].1
    ensures (forall k :: 0 <= k < |VerbForms| ==> formKey != VerbForms[k].0) ==> VerbFormDescription(formKey) == formKey
  {
    VerbFormKeysDistinct();
    forall k | 0 <= k < |VerbForms| && formKey == VerbForms[k].0 ensures VerbFormDescription(formKey) == VerbForms[k].1 {
      DictGetDistinct(VerbForms, formKey, formKey, k);
    }
  }

  lemma VerbFormKeysDistinct()
    ensures DistinctKeys(VerbForms)
  {
    KeysDistinctFrom(0, |VerbForms|);
  }

  /** The keys at positions lo..hi-1 differ from every later key. */
  lemma KeysDistinctFrom(lo: nat, hi: nat)
    requires lo <= hi <= |VerbForms|
    ensures forall i, j :: lo <= i < hi && i < j < |VerbForms| ==> VerbForms[i].0 != VerbForms[j].0
  {
  }

  /** Dispatch on the word type; every other word type reads "<case> form". */
  function GetFormDescription(wordType: string, c: string, number: string, gender: string): (r: string)
    ensures wordType == "noun" ==> r == NounFormDescription(c, number) && IsStripped(r)
    ensures wordType == "adjective" ==> r == AdjectiveFormDescription(c, number, gender)
    ensures wordType == "verb" ==> r == VerbFormDescription(c)
    ensures wordType !in {"noun", "adjective", "verb"} ==> r == c + " form"
  {
    if wordType == "noun" then NounFormDescription(c, number)
    else if wordType == "adjective" then AdjectiveFormDescription(c, number, gender)
    else if wordType == "verb" then VerbFormDescription(c)
    else c + " form"
  }
}
