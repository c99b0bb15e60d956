/**
 * Escaping Telegram Markdown: each markup character is preceded by a
 * backslash, one character class at a time.
 */
module MarkdownEscaper {
  import opened Text

  const SpecialChars: seq<char> :=
    ['_', '*', '[', ']', '(', ')', '~', '`', '>', '#', '+', '-', '=', '|', '{', '}', '.', '!']

  predicate Special(c: char) {
    c in SpecialChars
  }

  /** One replacement per special character, in list order: c becomes backslash + c. */
  const EscapeTable: seq<(string, string)> := EscapeTableOf(SpecialChars)

  function EscapeTableOf(cs: seq<char>): seq<(string, string)> {
    seq(|cs|, i requires 0 <= i < |cs| => ([cs[i]], ['\\', cs[i]]))
  }

  /** Every special character preceded by a backslash; every other character kept. */
  function Escape(s: string): (r: string)
    ensures |r| >= |s|
  {
    if s == [] then []
    else (if Special(s[0]) then ['\\', s[0]] else [s[0]]) + Escape(s[1..])
  }

  /** The number of special characters in s. */
  function SpecialCount(s: string): nat {
    if s == [] then 0 else (if Special(s[0]) then 1 else 0) + SpecialCount(s[1..])
  }

  /** Removes a backslash that stands before a special character. */
  function Unescape(e: string): string
    decreases |e|
  {
    if e == [] then []
    else if |e| >= 2 && e[0] == '\\' && Special(e[1]) then [e[1]] + Unescape(e[2..])
    else [e[0]] + Unescape(e[1..])
  }

  /** The output grows by exactly one backslash per special character. */
  lemma {:induction false} EscapeLength(s: string)
    ensures |Escape(s)| == |s| + SpecialCount(s)
    decreases |s|
  {
    if s != [] {
      EscapeLength(s[1..]);
    }
  }

  /** Escaped text never starts with a special character: one is always preceded by its backslash. */
  lemma EscapeHead(s: string)
    ensures Escape(s) != [] ==> !Special(Escape(s)[0])
  {
    assert '\\' !in SpecialChars;
  }

  /** Unescaping gives the original text back, so no two texts escape alike. */
  lemma {:induction false} UnescapeEscape(s: string)
    ensures Unescape(Escape(s)) == s
    decreases |s|
  {
    if s != [] {
      var rest := Escape(s[1..]);
      UnescapeEscape(s[1..]);
      EscapeHead(s[1..]);
      if Special(s[0]) {
        assert Escape(s) == ['\\', s[0]] + rest;
        assert (['\\', s[0]] + rest)[2..] == rest;
      } else {
        assert Escape(s) == [s[0]] + rest;
        assert ([s[0]] + rest)[1..] == rest;
        if rest != [] {
          assert ([s[0]] + rest)[1] == rest[0];
        }
      }
      assert s == [s[0]] + s[1..];
    }
  }

  /** Text without special characters, backslashes included, is left as it is. */
  lemma {:induction false} EscapePlain(s: string)
    requires forall k :: 0 <= k < |s| ==> !Special(s[k])
    ensures Escape(s) == s
    decreases |s|
  {
    if s != [] {
      EscapePlain(s[1..]);
      assert s == [s[0]] + s[1..];
    }
  }

  /** Existing backslashes are copied, not doubled. */
  lemma BackslashKept(a: string, b: string)
    ensures Escape(a + "\\" + b) == Escape(a) + "\\" + Escape(b)
  {
    assert '\\' !in SpecialChars;
    assert a + "\\" + b == a + ("\\" + b);
    EscapeAppend(a, "\\" + b);
    assert ("\\" + b)[1..] == b;
    assert Escape("\\" + b) == "\\" + Escape(b);
  }

  lemma {:induction false} EscapeAppend(a: string, b: string)
    ensures Escape(a + b) == Escape(a) + Escape(b)
    decreases |a|
  {
    if a != [] {
      EscapeAppend(a[1..], b);
      assert (a + b)[0] == a[0];
      assert (a + b)[1..] == a[1..] + b;
    } else {
      assert a + b == b;
    }
  }

  // ---------------------------------------------------------------------
  // The replace loop computes Escape
  // ---------------------------------------------------------------------

  lemma {:induction false} LookupEscape(c: char, cs: seq<char>)
    ensures Lookup(c, EscapeTableOf(cs)) == if c in cs then ['\\', c] else [c]
    decreases |cs|
  {
    if cs != [] {
      LookupEscape(c, cs[1..]);
      assert EscapeTableOf(cs)[1..] == EscapeTableOf(cs[1..]);
      assert [cs[0]] == [c] <==> cs[0] == c;
      assert c in cs <==> c == cs[0] || c in cs[1..];
    }
  }

  lemma {:induction false} MapCharsEscape(s: string)
    ensures MapChars(s, EscapeTable) == Escape(s)
    decreases |s|
  {
    if s != [] {
      LookupEscape(s[0], SpecialChars);
      MapCharsEscape(s[1..]);
    }
  }

  lemma TableIsCharTable()
    ensures CharTable(EscapeTable)
  {
    forall i, j | 0 <= i < j < |EscapeTable| ensures EscapeTable[j].0[0] !in EscapeTable[i].1 {
      assert EscapeTable[i].1 == ['\\', SpecialChars[i]];
      assert SpecialChars[i] != SpecialChars[j];
    }
  }

  /** Each special character in turn is replaced everywhere by backslash + character. */
  method EscapeMarkdown(text: string) returns (escaped: string)
    ensures escaped == Escape(text)
  {
    escaped := text;
    for i := 0 to |SpecialChars|
      invariant escaped == ReplaceEach(text, EscapeTable[..i])
    {
      assert EscapeTable[..i + 1][..i] == EscapeTable[..i];
      escaped := Replace(escaped, [SpecialChars[i]], ['\\', SpecialChars[i]]);
    }
    assert EscapeTable[..|SpecialChars|] == EscapeTable;
    TableIsCharTable();
    ReplaceEachIsMapChars(text, EscapeTable);
    MapCharsEscape(text);
  }
}
