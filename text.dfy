/**
 * String primitives with the semantics of the Python built-ins the
 * application relies on: str.lower/upper/strip/split/replace/count/join
 * and the `in` test on strings.  Strings are sequences of Unicode scalar
 * values, as Python strings are.
 */
module Text {

  datatype Option<T> = None | Some(value: T)

  // ---------------------------------------------------------------------
  // Character classes
  // ---------------------------------------------------------------------

  /** Python's str.isspace() for one character (the complete Unicode set). */
  predicate IsSpace(c: char) {
    c == ' ' || ('\U{9}' <= c <= '\U{D}') || ('\U{1C}' <= c <= '\U{1F}')
    || c == '\U{85}' || c == '\U{A0}' || c == '\U{1680}'
    || ('\U{2000}' <= c <= '\U{200A}') || c == '\U{2028}' || c == '\U{2029}'
    || c == '\U{202F}' || c == '\U{205F}' || c == '\U{3000}'
  }

  predicate IsAsciiUpper(c: char) { 'A' <= c <= 'Z' }
  predicate IsAsciiLower(c: char) { 'a' <= c <= 'z' }
  predicate IsDigit(c: char) { '0' <= c <= '9' }

  /** Upper-case basic Cyrillic: Ѐ..Џ (U+0400..U+040F) and А..Я (U+0410..U+042F). */
  predicate IsCyrillicUpper(c: char) { '\U{400}' <= c <= '\U{42F}' }
  /** Lower-case basic Cyrillic: а..я (U+0430..U+044F) and ѐ..џ (U+0450..U+045F). */
  predicate IsCyrillicLower(c: char) { '\U{430}' <= c <= '\U{45F}' }

  /** Letters as str.isalpha() sees them, restricted to Latin and basic Cyrillic. */
  predicate IsAlpha(c: char) {
    IsAsciiUpper(c) || IsAsciiLower(c) || IsCyrillicUpper(c) || IsCyrillicLower(c)
  }

  /** str.lower() on one character (ASCII and basic Cyrillic). */
  function LowerChar(c: char): (r: char)
    ensures !IsAsciiUpper(r) && !IsCyrillicUpper(r)
    ensures IsAlpha(c) <==> IsAlpha(r)
  {
    if IsAsciiUpper(c) then (c as int + 32) as char
    else if '\U{410}' <= c <= '\U{42F}' then (c as int + 0x20) as char
    else if '\U{400}' <= c <= '\U{40F}' then (c as int + 0x50) as char
    else c
  }

  /** str.upper() on one character (ASCII and basic Cyrillic). */
  function UpperChar(c: char): (r: char)
    ensures !IsAsciiLower(r) && !IsCyrillicLower(r)
    ensures IsAlpha(c) <==> IsAlpha(r)
  {
    if IsAsciiLower(c) then (c as int - 32) as char
    else if '\U{430}' <= c <= '\U{44F}' then (c as int - 0x20) as char
    else if '\U{450}' <= c <= '\U{45F}' then (c as int - 0x50) as char
    else c
  }

  function Lower(s: string): (r: string)
    ensures |r| == |s|
    ensures forall i :: 0 <= i < |s| ==> r[i] == LowerChar(s[i])
  {
    if s == [] then [] else [LowerChar(s[0])] + Lower(s[1..])
  }

  function Upper(s: string): (r: string)
    ensures |r| == |s|
    ensures forall i :: 0 <= i < |s| ==> r[i] == UpperChar(s[i])
  {
    if s == [] then [] else [UpperChar(s[0])] + Upper(s[1..])
  }

  /** Text with no upper-case letter is its own lower case. */
  lemma LowerFixed(s: string)
    requires forall k :: 0 <= k < |s| ==> !IsAsciiUpper(s[k]) && !IsCyrillicUpper(s[k])
    ensures Lower(s) == s
  {
  }

  /** Lower-casing forgets an earlier upper-casing: "ДОМ".lower() == "дом".lower(). */
  lemma LowerOfUpper(s: string)
    ensures Lower(Upper(s)) == Lower(s)
  {
    forall i | 0 <= i < |s| ensures Lower(Upper(s))[i] == Lower(s)[i] {
      var c := s[i];
      assert Upper(s)[i] == UpperChar(c);
    }
  }

  // ---------------------------------------------------------------------
  // strip()
  // ---------------------------------------------------------------------

  function StripLeft(s: string): (r: string)
    ensures |r| <= |s| && r == s[|s| - |r|..]
    ensures r == [] || !IsSpace(r[0])
    ensures forall i :: 0 <= i < |s| - |r| ==> IsSpace(s[i])
  {
    if s != [] && IsSpace(s[0]) then StripLeft(s[1..]) else s
  }

  function StripRight(s: string): (r: string)
    ensures |r| <= |s| && r == s[..|r|]
    ensures r == [] || !IsSpace(r[|r| - 1])
    ensures forall i :: |r| <= i < |s| ==> IsSpace(s[i])
  {
    if s != [] && IsSpace(s[|s| - 1]) then StripRight(s[..|s| - 1]) else s
  }

  /** str.strip(): the input without its leading and trailing whitespace. */
  function Strip(s: string): (r: string)
  {
    StripRight(StripLeft(s))
  }

  predicate IsStripped(s: string) {
    s == [] || (!IsSpace(s[0]) && !IsSpace(s[|s| - 1]))
  }

  lemma StripProperties(s: string)
    ensures IsStripped(Strip(s))
    ensures |Strip(s)| <= |s|
    ensures
      var k := |s| - |StripLeft(s)|;
      k + |Strip(s)| <= |s| && s == s[..k] + Strip(s) + s[k + |Strip(s)|..]
  {
    var l := StripLeft(s);
    var r := StripRight(l);
    var k := |s| - |l|;
    SliceOfSuffix(s, k, |r|);
    ThreeParts(s, k, |r|);
    if r != [] {
      assert r[0] == l[0];
    }
  }

  lemma SliceOfSuffix(s: string, k: nat, n: nat)
    requires k + n <= |s|
    ensures s[k..][..n] == s[k..k + n]
  {
  }

  lemma ThreeParts(s: string, k: nat, n: nat)
    requires k + n <= |s|
    ensures s == s[..k] + s[k..k + n] + s[k + n..]
  {
  }

  lemma StripOfStripped(s: string)
    requires IsStripped(s)
    ensures Strip(s) == s
  {
    if s != [] {
      assert StripLeft(s) == s;
      assert StripRight(s) == s;
    }
  }

  lemma StripIdempotent(s: string)
    ensures Strip(Strip(s)) == Strip(s)
  {
    StripProperties(s);
    StripOfStripped(Strip(s));
  }

  /** Python truthiness of `s.strip()`: false exactly for all-whitespace strings. */
  lemma StripEmptyIff(s: string)
    ensures Strip(s) == [] <==> forall i :: 0 <= i < |s| ==> IsSpace(s[i])
  {
    var l := StripLeft(s);
    if l != [] {
      assert !IsSpace(l[0]);
      assert StripRight(l) != [];
      assert s[|s| - |l|] == l[0];
    }
  }

  // ---------------------------------------------------------------------
  // `in`, count() and replace()
  // ---------------------------------------------------------------------

  /** Python's `pat in s` for strings. */
  predicate Contains(s: string, pat: string)
    decreases |s|
  {
    if pat == [] then true
    else if |s| < |pat| then false
    else s[..|pat|] == pat || Contains(s[1..], pat)
  }

  lemma ContainsChar(s: string, c: char)
    ensures Contains(s, [c]) <==> c in s
  {
    if s != [] {
      ContainsChar(s[1..], c);
      assert s == [s[0]] + s[1..];
    }
  }

  /** s.count(pat) for a non-empty pattern: non-overlapping, left to right. */
  function Count(s: string, pat: string): nat
    requires pat != []
    decreases |s|
  {
    if |s| < |pat| then 0
    else if s[..|pat|] == pat then 1 + Count(s[|pat|..], pat)
    else Count(s[1..], pat)
  }

  lemma {:induction false} CountPositiveIff(s: string, pat: string)
    requires pat != []
    ensures Count(s, pat) > 0 <==> Contains(s, pat)
    decreases |s|
  {
    if |s| >= |pat| && s[..|pat|] != pat {
      CountPositiveIff(s[1..], pat);
    }
  }

  /** s.replace(pat, rep) for a non-empty pattern. */
  function ReplaceNonEmpty(s: string, pat: string, rep: string): string
    requires pat != []
    decreases |s|
  {
    if |s| < |pat| then s
    else if s[..|pat|] == pat then rep + ReplaceNonEmpty(s[|pat|..], pat, rep)
    else [s[0]] + ReplaceNonEmpty(s[1..], pat, rep)
  }

  /** rep inserted before every character and at the end: "ab".replace("", "x") == "xaxbx". */
  function InsertEverywhere(s: string, rep: string): string
  {
    if s == [] then rep else rep + [s[0]] + InsertEverywhere(s[1..], rep)
  }

  /** Python's s.replace(pat, rep), including the empty pattern. */
  function Replace(s: string, pat: string, rep: string): string
  {
    if pat == [] then InsertEverywhere(s, rep) else ReplaceNonEmpty(s, pat, rep)
  }

  lemma {:induction false} ReplaceLength(s: string, pat: string, rep: string)
    requires pat != []
    ensures |ReplaceNonEmpty(s, pat, rep)| == |s| + Count(s, pat) * (|rep| - |pat|)
    decreases |s|
  {
    if |s| < |pat| {
    } else if s[..|pat|] == pat {
      var t := s[|pat|..];
      ReplaceLength(t, pat, rep);
      OneMoreTimes(Count(t, pat), |rep| - |pat|);
    } else {
      ReplaceLength(s[1..], pat, rep);
    }
  }

  lemma OneMoreTimes(c: int, d: int)
    ensures (1 + c) * d == d + c * d
  {
  }

  lemma {:induction false} ReplaceAbsent(s: string, pat: string, rep: string)
    requires pat != [] && !Contains(s, pat)
    ensures Replace(s, pat, rep) == s
    decreases |s|
  {
    if |s| >= |pat| {
      assert s[..|pat|] != pat && !Contains(s[1..], pat);
      ReplaceAbsent(s[1..], pat, rep);
      assert ReplaceNonEmpty(s, pat, rep) == [s[0]] + ReplaceNonEmpty(s[1..], pat, rep);
      assert s == [s[0]] + s[1..];
    }
  }

  /** The replacement text is present in the result whenever the pattern was present in the input. */
  lemma {:induction false} ReplaceIntroduces(s: string, pat: string, rep: string)
    requires Contains(s, pat)
    ensures Contains(Replace(s, pat, rep), rep)
    decreases |s|
  {
    if pat == [] {
      if s == [] {
        ContainsPrefix(rep, []);
      } else {
        ContainsPrefix(rep, [s[0]] + InsertEverywhere(s[1..], rep));
        assert InsertEverywhere(s, rep) == rep + ([s[0]] + InsertEverywhere(s[1..], rep));
      }
    } else if s[..|pat|] == pat {
      ContainsPrefix(rep, ReplaceNonEmpty(s[|pat|..], pat, rep));
    } else {
      ReplaceIntroduces(s[1..], pat, rep);
      ContainsCons(s[0], ReplaceNonEmpty(s[1..], pat, rep), rep);
    }
  }

  /**
   * If the result of a replacement starts with q, and q avoids the
   * replacement's first character, the input started with q too.
   */
  lemma {:induction false} ReplacePrefixFromInput(t: string, pat: string, rep: string, q: string)
    requires pat != [] && rep != [] && rep[0] !in q
    ensures
      var r := ReplaceNonEmpty(t, pat, rep);
      |q| <= |r| && r[..|q|] == q ==> |q| <= |t| && t[..|q|] == q
    decreases |q|
  {
    var r := ReplaceNonEmpty(t, pat, rep);
    if q != [] && |t| >= |pat| {
      if t[..|pat|] == pat {
        assert r == rep + ReplaceNonEmpty(t[|pat|..], pat, rep);
        assert r[0] == rep[0];
      } else {
        var r1 := ReplaceNonEmpty(t[1..], pat, rep);
        assert r == [t[0]] + r1;
        ReplacePrefixFromInput(t[1..], pat, rep, q[1..]);
        if |q| <= |r| && r[..|q|] == q {
          assert r1[..|q| - 1] == q[1..];
          assert t[..|q|] == [t[0]] + t[1..][..|q| - 1];
        }
      }
    }
  }

  /** A pattern cannot start inside a prefix that lacks its first character. */
  lemma {:induction false} ContainsSkip(a: string, b: string, pat: string)
    requires pat != [] && pat[0] !in a && Contains(a + b, pat)
    ensures Contains(b, pat)
    decreases |a|
  {
    if a == [] {
      assert a + b == b;
    } else {
      assert (a + b)[0] == a[0];
      assert (a + b)[1..] == a[1..] + b;
      ContainsSkip(a[1..], b, pat);
    }
  }

  /**
   * After s.replace(pat, rep) no occurrence of pat is left, provided rep
   * does not mention pat's first character and pat's tail does not
   * mention rep's first character (as with "{blank}" and "_____").
   */
  lemma {:induction false} ReplaceRemoves(s: string, pat: string, rep: string)
    requires pat != [] && rep != [] && pat[0] !in rep && rep[0] !in pat[1..]
    ensures !Contains(Replace(s, pat, rep), pat)
    decreases |s|
  {
    var r := ReplaceNonEmpty(s, pat, rep);
    if |s| < |pat| {
    } else if s[..|pat|] == pat {
      ReplaceRemoves(s[|pat|..], pat, rep);
      if Contains(r, pat) {
        ContainsSkip(rep, ReplaceNonEmpty(s[|pat|..], pat, rep), pat);
      }
    } else {
      var r1 := ReplaceNonEmpty(s[1..], pat, rep);
      ReplaceRemoves(s[1..], pat, rep);
      assert r == [s[0]] + r1;
      if |r| >= |pat| && r[..|pat|] == pat {
        assert r[1..|pat|] == r1[..|pat| - 1];
        assert pat[1..] == pat[..|pat|][1..];
        ReplacePrefixFromInput(s[1..], pat, rep, pat[1..]);
        assert false;
      }
      assert r[1..] == r1;
    }
  }

  lemma ContainsPrefix(pat: string, rest: string)
    ensures Contains(pat + rest, pat)
  {
    if pat != [] {
      assert (pat + rest)[..|pat|] == pat;
    }
  }

  lemma ContainsCons(c: char, s: string, pat: string)
    requires Contains(s, pat)
    ensures Contains([c] + s, pat)
  {
    if pat != [] {
      assert ([c] + s)[1..] == s;
    }
  }

  lemma {:induction false} ContainsAppend(a: string, b: string, pat: string)
    requires Contains(b, pat)
    ensures Contains(a + b, pat)
    decreases |a|
  {
    if a != [] {
      ContainsAppend(a[1..], b, pat);
      assert a + b == [a[0]] + (a[1..] + b);
      ContainsCons(a[0], a[1..] + b, pat);
    } else {
      assert a + b == b;
    }
  }

  lemma {:induction false} ContainsAppendLeft(a: string, b: string, pat: string)
    requires Contains(a, pat)
    ensures Contains(a + b, pat)
    decreases |a|
  {
    if pat != [] {
      if a[..|pat|] == pat {
        assert (a + b)[..|pat|] == pat;
      } else {
        ContainsAppendLeft(a[1..], b, pat);
        assert (a + b)[1..] == a[1..] + b;
      }
    }
  }

  lemma ContainsMiddle(a: string, t: string, b: string, pat: string)
    ensures Contains(t, pat) ==> Contains(a + t + b, pat)
  {
    if Contains(t, pat) {
      ContainsAppend(a, t, pat);
      ContainsAppendLeft(a + t, b, pat);
    }
  }

  /** Containment is transitive. */
  lemma {:induction false} ContainsTrans(a: string, b: string, c: string)
    requires Contains(a, b) && Contains(b, c)
    ensures Contains(a, c)
    decreases |a|
  {
    if b == [] {
      assert c == [];
    } else if a[..|b|] == b {
      assert a == b + a[|b|..];
      ContainsAppendLeft(b, a[|b|..], c);
    } else {
      ContainsTrans(a[1..], b, c);
      assert a == [a[0]] + a[1..];
      ContainsCons(a[0], a[1..], c);
    }
  }

  /** No occurrence of pat starts inside a prefix lacking pat's first character. */
  lemma {:induction false} CountSkip(a: string, b: string, pat: string)
    requires pat != [] && pat[0] !in a
    ensures Count(a + b, pat) == Count(b, pat)
    decreases |a|
  {
    if a == [] {
      assert a + b == b;
    } else {
      assert (a + b)[0] == a[0];
      assert (a + b)[1..] == a[1..] + b;
      if |a + b| >= |pat| {
        assert (a + b)[..|pat|][0] == a[0];
      }
      CountSkip(a[1..], b, pat);
    }
  }

  lemma CountNone(s: string, pat: string)
    requires pat != [] && pat[0] !in s
    ensures Count(s, pat) == 0
  {
    CountSkip(s, [], pat);
    assert s + [] == s;
  }

  lemma CountHead(pat: string, b: string)
    requires pat != []
    ensures Count(pat + b, pat) == 1 + Count(b, pat)
  {
    assert (pat + b)[..|pat|] == pat;
    assert (pat + b)[|pat|..] == b;
  }

  /**
   * a + pat + b holds pat exactly once when pat's first character occurs
   * neither in a nor in b.
   */
  lemma CountOnce(a: string, pat: string, b: string)
    requires pat != [] && pat[0] !in a && pat[0] !in b
    ensures Count(a + pat + b, pat) == 1
  {
    assert a + pat + b == a + (pat + b);
    CountSkip(a, pat + b, pat);
    CountHead(pat, b);
    CountNone(b, pat);
  }

  /** Replacement passes unchanged over a prefix lacking the pattern's first character. */
  lemma {:induction false} ReplaceSkip(a: string, b: string, pat: string, rep: string)
    requires pat != [] && pat[0] !in a
    ensures Replace(a + b, pat, rep) == a + Replace(b, pat, rep)
    decreases |a|
  {
    if a != [] {
      assert (a + b)[0] == a[0];
      assert (a + b)[1..] == a[1..] + b;
      ReplaceSkip(a[1..], b, pat, rep);
      if |a + b| >= |pat| {
        assert (a + b)[..|pat|][0] == a[0];
      }
      assert a + Replace(b, pat, rep) == [a[0]] + (a[1..] + Replace(b, pat, rep));
    } else {
      assert a + b == b;
    }
  }

  lemma ReplaceHeadMatch(pat: string, b: string, rep: string)
    requires pat != []
    ensures Replace(pat + b, pat, rep) == rep + Replace(b, pat, rep)
  {
    assert (pat + b)[..|pat|] == pat;
    assert (pat + b)[|pat|..] == b;
  }

  /** s.replace(pat, rep, 1): only the leftmost occurrence is replaced. */
  function ReplaceFirst(s: string, pat: string, rep: string): string
    decreases |s|
  {
    if pat == [] then rep + s
    else if |s| < |pat| then s
    else if s[..|pat|] == pat then rep + s[|pat|..]
    else [s[0]] + ReplaceFirst(s[1..], pat, rep)
  }

  /** Where the leftmost occurrence of pat starts. */
  function FirstOccurrence(s: string, pat: string): (i: nat)
    requires Contains(s, pat)
    ensures i + |pat| <= |s| && s[i..i + |pat|] == pat
    decreases |s|
  {
    if pat == [] || s[..|pat|] == pat then 0
    else 1 + FirstOccurrence(s[1..], pat)
  }

  /** With an occurrence present, the first one is cut out and rep put in its place. */
  lemma {:induction false} ReplaceFirstShape(s: string, pat: string, rep: string)
    requires Contains(s, pat)
    ensures var i := FirstOccurrence(s, pat);
      ReplaceFirst(s, pat, rep) == s[..i] + rep + s[i + |pat|..]
    decreases |s|
  {
    if pat == [] {
      assert s[..0] == [] && s[0..] == s;
    } else if s[..|pat|] == pat {
      assert s[..0] == [];
    } else {
      var t := s[1..];
      ReplaceFirstShape(t, pat, rep);
      var j := FirstOccurrence(t, pat);
      assert t[j + |pat|..] == s[j + 1 + |pat|..];
      assert [s[0]] + t[..j] == s[..j + 1];
    }
  }

  /** Without an occurrence nothing is replaced. */
  lemma {:induction false} ReplaceFirstAbsent(s: string, pat: string, rep: string)
    requires !Contains(s, pat)
    ensures ReplaceFirst(s, pat, rep) == s
    decreases |s|
  {
    if |s| >= |pat| {
      ReplaceFirstAbsent(s[1..], pat, rep);
      assert s == [s[0]] + s[1..];
    }
  }

  /** With at most one occurrence, replacing every occurrence is replacing the first. */
  lemma {:induction false} ReplaceSingle(s: string, pat: string, rep: string)
    requires pat != [] && Count(s, pat) <= 1
    ensures Replace(s, pat, rep) == ReplaceFirst(s, pat, rep)
    decreases |s|
  {
    if |s| >= |pat| {
      if s[..|pat|] == pat {
        CountPositiveIff(s[|pat|..], pat);
        ReplaceAbsent(s[|pat|..], pat, rep);
      } else {
        ReplaceSingle(s[1..], pat, rep);
      }
    }
  }

  // ---------------------------------------------------------------------
  // Single-character replacement is a character-by-character map
  // ---------------------------------------------------------------------

  /**
   * The image of one character under a table of single-character
   * replacements: the replacement of the first entry whose pattern is
   * that character, or the character itself.
   */
  function Lookup(c: char, table: seq<(string, string)>): string
  {
    if table == [] then [c]
    else if table[0].0 == [c] then table[0].1
    else Lookup(c, table[1..])
  }

  /** Every character of s replaced by its image under the table. */
  function MapChars(s: string, table: seq<(string, string)>): string
  {
    if s == [] then [] else Lookup(s[0], table) + MapChars(s[1..], table)
  }

  lemma {:induction false} MapCharsAppend(a: string, b: string, table: seq<(string, string)>)
    ensures MapChars(a + b, table) == MapChars(a, table) + MapChars(b, table)
    decreases |a|
  {
    if a != [] {
      MapCharsAppend(a[1..], b, table);
      assert (a + b)[0] == a[0];
      assert (a + b)[1..] == a[1..] + b;
      assert MapChars(a + b, table) == Lookup(a[0], table) + MapChars(a[1..] + b, table);
    } else {
      assert a + b == b;
    }
  }

  /** The sequential replacements s.replace(p0, r0).replace(p1, r1)... */
  function ReplaceEach(s: string, table: seq<(string, string)>): string
    decreases |table|
  {
    if table == [] then s
    else
      var last := table[|table| - 1];
      Replace(ReplaceEach(s, table[..|table| - 1]), last.0, last.1)
  }

  /** Single-character patterns, and no replacement mentions a later pattern. */
  ghost predicate CharTable(table: seq<(string, string)>) {
    && (forall i :: 0 <= i < |table| ==> |table[i].0| == 1)
    && (forall i, j :: 0 <= i < j < |table| ==> table[j].0[0] !in table[i].1)
  }

  lemma {:induction false} ReplaceCharAppend(a: string, b: string, c: char, rep: string)
    ensures Replace(a + b, [c], rep) == Replace(a, [c], rep) + Replace(b, [c], rep)
    decreases |a|
  {
    if a != [] {
      ReplaceCharAppend(a[1..], b, c, rep);
      assert (a + b)[1..] == a[1..] + b;
      assert (a + b)[..1] == a[..1];
      if a[..1] == [c] {
        assert Replace(a + b, [c], rep) == rep + Replace(a[1..] + b, [c], rep);
        assert Replace(a, [c], rep) == rep + Replace(a[1..], [c], rep);
      } else {
        assert Replace(a + b, [c], rep) == [a[0]] + Replace(a[1..] + b, [c], rep);
        assert Replace(a, [c], rep) == [a[0]] + Replace(a[1..], [c], rep);
      }
    } else {
      assert a + b == b;
      assert Replace(a, [c], rep) == [];
    }
  }

  lemma ReplaceCharAbsent(s: string, c: char, rep: string)
    requires c !in s
    ensures Replace(s, [c], rep) == s
  {
    ContainsChar(s, c);
    ReplaceAbsent(s, [c], rep);
  }

  lemma {:induction false} LookupSnoc(c: char, table: seq<(string, string)>)
    requires |table| > 0 && CharTable(table)
    ensures
      var init := table[..|table| - 1];
      var last := table[|table| - 1];
      Lookup(c, table) == Replace(Lookup(c, init), last.0, last.1)
    decreases |table|
  {
    var init := table[..|table| - 1];
    var last := table[|table| - 1];
    var p := last.0[0];
    assert last.0 == [p];
    if |table| == 1 {
      assert init == [];
      assert Lookup(c, init) == [c];
      assert [c][..1] == [c] && [c][1..] == [];
      assert ReplaceNonEmpty([], last.0, last.1) == [];
      if c == p {
        assert Replace([c], last.0, last.1) == last.1 + ReplaceNonEmpty([], last.0, last.1);
      } else {
        assert Lookup(c, table) == Lookup(c, []);
        assert Replace([c], last.0, last.1) == [c] + ReplaceNonEmpty([], last.0, last.1);
      }
    } else if table[0].0 == [c] {
      assert init[0] == table[0];
      assert p !in table[0].1;
      ReplaceCharAbsent(table[0].1, p, last.1);
    } else {
      var tail := table[1..];
      assert tail[..|tail| - 1] == init[1..];
      assert init[0] == table[0];
      assert CharTable(tail) by {
        forall i, j | 0 <= i < j < |tail| ensures tail[j].0[0] !in tail[i].1 {
          assert tail[j] == table[j + 1] && tail[i] == table[i + 1];
        }
      }
      LookupSnoc(c, tail);
    }
  }

  lemma {:induction false} ReplaceMapChars(s: string, table: seq<(string, string)>)
    requires |table| > 0 && CharTable(table)
    ensures
      var last := table[|table| - 1];
      Replace(MapChars(s, table[..|table| - 1]), last.0, last.1) == MapChars(s, table)
    decreases |s|
  {
    var init := table[..|table| - 1];
    var last := table[|table| - 1];
    assert last.0 == [last.0[0]];
    if s != [] {
      ReplaceMapChars(s[1..], table);
      ReplaceCharAppend(Lookup(s[0], init), MapChars(s[1..], init), last.0[0], last.1);
      LookupSnoc(s[0], table);
    }
  }

  lemma MapCharsEmptyTable(s: string)
    ensures MapChars(s, []) == s
  {
    if s != [] {
      MapCharsEmptyTable(s[1..]);
      assert s == [s[0]] + s[1..];
    }
  }

  /** Sequential single-character replacements act character by character. */
  lemma {:induction false} ReplaceEachIsMapChars(s: string, table: seq<(string, string)>)
    requires CharTable(table)
    ensures ReplaceEach(s, table) == MapChars(s, table)
    decreases |table|
  {
    if table == [] {
      MapCharsEmptyTable(s);
    } else {
      var init := table[..|table| - 1];
      assert CharTable(init);
      ReplaceEachIsMapChars(s, init);
      ReplaceMapChars(s, table);
    }
  }

  /** A character outside the table's patterns is left alone. */
  lemma LookupMiss(c: char, table: seq<(string, string)>)
    requires forall i :: 0 <= i < |table| ==> table[i].0 != [c]
    ensures Lookup(c, table) == [c]
  {
    if table != [] {
      LookupMiss(c, table[1..]);
    }
  }

  /** A string none of whose characters is a pattern is mapped to itself. */
  lemma MapCharsIdentity(s: string, table: seq<(string, string)>)
    requires forall k, i :: 0 <= k < |s| && 0 <= i < |table| ==> table[i].0 != [s[k]]
    ensures MapChars(s, table) == s
  {
    if s != [] {
      LookupMiss(s[0], table);
      MapCharsIdentity(s[1..], table);
      assert s == [s[0]] + s[1..];
    }
  }

  // ---------------------------------------------------------------------
  // Slices
  // ---------------------------------------------------------------------

  /** The length of the Python slice xs[:n] of a list of length len (n may be negative). */
  function SliceEnd(len: nat, n: int): (e: nat)
    ensures e <= len
    ensures n >= 0 ==> e == (if n < len then n else len)
    ensures n < 0 ==> e == (if len + n > 0 then len + n else 0)
  {
    if n >= 0 then (if n < len then n else len)
    else if len + n > 0 then len + n else 0
  }

  // ---------------------------------------------------------------------
  // split() and join()
  // ---------------------------------------------------------------------

  /** s.split(sep) for a one-character separator: keeps empty fields. */
  function SplitOn(s: string, sep: char): (r: seq<string>)
    ensures |r| >= 1
    ensures forall i :: 0 <= i < |r| ==> sep !in r[i]
  {
    if s == [] then [[]]
    else if s[0] == sep then [[]] + SplitOn(s[1..], sep)
    else
      var t := SplitOn(s[1..], sep);
      [[s[0]] + t[0]] + t[1..]
  }

  /** sep.join(parts). */
  function Join(sep: string, parts: seq<string>): string
  {
    if parts == [] then []
    else if |parts| == 1 then parts[0]
    else parts[0] + sep + Join(sep, parts[1..])
  }

  /** Every part survives a join: it occurs in the joined string. */
  lemma {:induction false} JoinContainsPart(sep: string, parts: seq<string>, k: nat)
    requires k < |parts|
    ensures Contains(Join(sep, parts), parts[k])
    decreases |parts|
  {
    if |parts| == 1 {
      ContainsPrefix(parts[0], []);
      assert parts[0] + [] == parts[0];
    } else if k == 0 {
      ContainsPrefix(parts[0], sep + Join(sep, parts[1..]));
      assert parts[0] + sep + Join(sep, parts[1..]) == parts[0] + (sep + Join(sep, parts[1..]));
    } else {
      JoinContainsPart(sep, parts[1..], k - 1);
      ContainsAppend(parts[0] + sep, Join(sep, parts[1..]), parts[k]);
    }
  }

  /** Splitting on a character and joining with it again gives back the input. */
  lemma {:induction false} JoinSplitOn(s: string, sep: char)
    ensures Join([sep], SplitOn(s, sep)) == s
    decreases |s|
  {
    if s == [] {
    } else if s[0] == sep {
      JoinSplitOn(s[1..], sep);
      assert s == [sep] + s[1..];
    } else {
      var t := SplitOn(s[1..], sep);
      JoinSplitOn(s[1..], sep);
      assert s == [s[0]] + s[1..];
      if |t| == 1 {
      } else {
        assert ([[s[0]] + t[0]] + t[1..])[1..] == t[1..];
      }
    }
  }

  /** Splitting text that starts with a separator-free chunk glues the chunk to the first field. */
  lemma {:induction false} SplitOnPrefix(a: string, rest: string, sep: char)
    requires sep !in a
    ensures var t := SplitOn(rest, sep);
      SplitOn(a + rest, sep) == [a + t[0]] + t[1..]
    decreases |a|
  {
    if a == [] {
      var t := SplitOn(rest, sep);
      assert a + rest == rest && a + t[0] == t[0];
      assert t == [t[0]] + t[1..];
    } else {
      SplitOnPrefix(a[1..], rest, sep);
      var t := SplitOn(rest, sep);
      var u := SplitOn(a[1..] + rest, sep);
      assert (a + rest)[1..] == a[1..] + rest;
      assert (a + rest)[0] == a[0];
      assert SplitOn(a + rest, sep) == [[a[0]] + u[0]] + u[1..];
      assert u[0] == a[1..] + t[0] && u[1..] == t[1..];
      assert [a[0]] + (a[1..] + t[0]) == a + t[0];
    }
  }

  /** Joining separator-free parts and splitting again gives back the parts. */
  lemma {:induction false} SplitOnJoin(parts: seq<string>, sep: char)
    requires |parts| >= 1
    requires forall i :: 0 <= i < |parts| ==> sep !in parts[i]
    ensures SplitOn(Join([sep], parts), sep) == parts
    decreases |parts|
  {
    if |parts| == 1 {
      SplitOnPrefix(parts[0], [], sep);
      assert parts[0] + [] == parts[0];
    } else {
      var j := Join([sep], parts[1..]);
      SplitOnJoin(parts[1..], sep);
      assert Join([sep], parts) == parts[0] + ([sep] + j);
      SplitOnPrefix(parts[0], [sep] + j, sep);
      assert ([sep] + j)[1..] == j;
      var t := SplitOn([sep] + j, sep);
      assert t == [[]] + SplitOn(j, sep);
      assert parts[0] + t[0] == parts[0];
      assert t[1..] == parts[1..];
      assert parts == [parts[0]] + parts[1..];
    }
  }

  /** A character in neither the separator nor any part is not in the joined string. */
  lemma {:induction false} JoinAvoids(sep: string, parts: seq<string>, c: char)
    requires c !in sep && forall j :: 0 <= j < |parts| ==> c !in parts[j]
    ensures c !in Join(sep, parts)
    decreases |parts|
  {
    if |parts| > 1 {
      JoinAvoids(sep, parts[1..], c);
    }
  }

  /** Number of leading characters that are not whitespace. */
  function WordLength(s: string): (n: nat)
    ensures n <= |s|
    ensures forall i :: 0 <= i < n ==> !IsSpace(s[i])
    ensures n == |s| || IsSpace(s[n])
  {
    if s == [] || IsSpace(s[0]) then 0 else 1 + WordLength(s[1..])
  }

  /** s.split() with no argument: the maximal runs of non-whitespace. */
  function Words(s: string): (r: seq<string>)
    ensures forall i :: 0 <= i < |r| ==> r[i] != []
    decreases |s|
  {
    if s == [] then []
    else if IsSpace(s[0]) then Words(s[1..])
    else
      var n := WordLength(s);
      [s[..n]] + Words(s[n..])
  }

  /** Every character of every word comes from the input. */
  lemma {:induction false} WordsChars(s: string, c: char)
    requires c !in s
    ensures forall j :: 0 <= j < |Words(s)| ==> c !in Words(s)[j]
    decreases |s|
  {
    if s != [] {
      if IsSpace(s[0]) {
        WordsChars(s[1..], c);
      } else {
        var n := WordLength(s);
        WordsChars(s[n..], c);
        assert Words(s) == [s[..n]] + Words(s[n..]);
        assert forall j :: 1 <= j < |Words(s)| ==> Words(s)[j] == Words(s[n..])[j - 1];
      }
    }
  }

  // ---------------------------------------------------------------------
  // dict.get(key, default) on an insertion-ordered table; str.title()
  // ---------------------------------------------------------------------

  /** The value of the first entry with the key, or the default. */
  function DictGet(table: seq<(string, string)>, key: string, default: string): (r: string)
    ensures forall i :: 0 <= i < |table| && table[i].0 == key ==>
      (forall j :: 0 <= j < i ==> table[j].0 != key) ==> r == table[i].1
    ensures (forall i :: 0 <= i < |table| ==> table[i].0 != key) ==> r == default
  {
    if table == [] then default
    else if table[0].0 == key then table[0].1
    else
      assert forall i :: 1 <= i < |table| ==> table[i] == table[1..][i - 1];
      DictGet(table[1..], key, default)
  }

  predicate DistinctKeys(table: seq<(string, string)>) {
    forall i, j :: 0 <= i < j < |table| ==> table[i].0 != table[j].0
  }

  /** With distinct keys, a key's entry is its value. */
  lemma DictGetDistinct(table: seq<(string, string)>, key: string, default: string, i: nat)
    requires DistinctKeys(table) && i < |table| && table[i].0 == key
    ensures DictGet(table, key, default) == table[i].1
  {
  }

  /**
   * str.title(): a letter following a letter is lower-cased, any other
   * letter upper-cased; letters are the alphabets IsAlpha knows.
   */
  function TitleFrom(s: string, afterLetter: bool): (r: string)
    ensures |r| == |s|
  {
    if s == [] then []
    else
      [if afterLetter then LowerChar(s[0]) else UpperChar(s[0])] + TitleFrom(s[1..], IsAlpha(s[0]))
  }

  function Title(s: string): (r: string)
    ensures |r| == |s|
    ensures s != [] ==> r[0] == UpperChar(s[0])
  {
    TitleFrom(s, false)
  }
}
