/**
 * Making a generated sentence safe to send with Telegram's Markdown:
 * quoting and markup characters are dropped or replaced, runs of spaces
 * collapse to one, and surrounding whitespace is removed.
 */
module Cleaning {
  import opened Text

  /** The replacements, applied in this order. */
  const ProblematicChars: seq<(string, string)> := [
    ("\"", ""), ("'", ""), ("«", ""), ("»", ""), ("_", " "), ("*", ""), ("`", ""),
    ("[", "("), ("]", ")"), ("{", "("), ("}", ")"), ("|", " "), ("\\", "")
  ]

  /** A character the table replaces. */
  predicate Problematic(c: char) {
    exists i :: 0 <= i < |ProblematicChars| && ProblematicChars[i].0 == [c]
  }

  /** Each pattern is one problematic character, and no replacement contains one. */
  lemma TableShape()
    ensures CharTable(ProblematicChars)
    ensures forall i :: 0 <= i < |ProblematicChars| ==>
      |ProblematicChars[i].0| == 1 && Problematic(ProblematicChars[i].0[0])
    ensures forall i, k :: 0 <= i < |ProblematicChars| && 0 <= k < |ProblematicChars[i].1| ==>
      !Problematic(ProblematicChars[i].1[k])
  {
    TablePatterns();
    TableImages();
  }

  lemma TablePatterns()
    ensures forall i :: 0 <= i < |ProblematicChars| ==>
      |ProblematicChars[i].0| == 1 && Problematic(ProblematicChars[i].0[0])
  {
    forall i | 0 <= i < |ProblematicChars|
      ensures |ProblematicChars[i].0| == 1 && Problematic(ProblematicChars[i].0[0])
    {
      assert ProblematicChars[i].0 == [ProblematicChars[i].0[0]];
    }
  }

  lemma TableImages()
    ensures forall i, k :: 0 <= i < |ProblematicChars| && 0 <= k < |ProblematicChars[i].1| ==>
      !Problematic(ProblematicChars[i].1[k])
  {
    forall i | 0 <= i < |ProblematicChars|
      ensures ProblematicChars[i].1 in ["", " ", "(", ")"]
    {
    }
    assert !Problematic(' ') && !Problematic('(') && !Problematic(')');
  }

  /** The image of any character under the table contains no problematic character. */
  lemma {:induction false} LookupClean(c: char, table: seq<(string, string)>)
    requires forall i :: 0 <= i < |table| ==> |table[i].0| == 1 && Problematic(table[i].0[0])
    requires forall i, k :: 0 <= i < |table| && 0 <= k < |table[i].1| ==> !Problematic(table[i].1[k])
    requires Problematic(c) ==> exists i :: 0 <= i < |table| && table[i].0 == [c]
    ensures forall k :: 0 <= k < |Lookup(c, table)| ==> !Problematic(Lookup(c, table)[k])
    decreases |table|
  {
    if table != [] && table[0].0 != [c] {
      if exists i :: 0 <= i < |table| && table[i].0 == [c] {
        var i :| 0 <= i < |table| && table[i].0 == [c];
        assert table[1..][i - 1] == table[i];
      }
      LookupClean(c, table[1..]);
    }
  }

  lemma {:induction false} MapCharsClean(s: string)
    ensures forall k :: 0 <= k < |MapChars(s, ProblematicChars)| ==> !Problematic(MapChars(s, ProblematicChars)[k])
    decreases |s|
  {
    if s != [] {
      TableShape();
      LookupClean(s[0], ProblematicChars);
      MapCharsClean(s[1..]);
    }
  }

  // ---------------------------------------------------------------------
  // Collapsing runs of spaces
  // ---------------------------------------------------------------------

  /** Every run of two or more ' ' shortened to a single ' '. */
  function Collapse(s: string): (r: string)
    ensures |r| <= |s|
    ensures r == [] <==> s == []
    ensures r != [] ==> (r[0] == ' ' <==> s[0] == ' ')
  {
    if s == [] then []
    else if |s| >= 2 && s[0] == ' ' && s[1] == ' ' then Collapse(s[1..])
    else [s[0]] + Collapse(s[1..])
  }

  lemma {:induction false} CollapseNoDouble(s: string)
    ensures !Contains(Collapse(s), "  ")
    decreases |s|
  {
    if s != [] {
      CollapseNoDouble(s[1..]);
      if !(|s| >= 2 && s[0] == ' ' && s[1] == ' ') {
        var r := Collapse(s[1..]);
        assert Collapse(s) == [s[0]] + r;
        assert ([s[0]] + r)[1..] == r;
        if |[s[0]] + r| >= 2 {
          assert ([s[0]] + r)[..2] == [s[0], r[0]];
        }
      }
    }
  }

  lemma {:induction false} CollapseChars(s: string)
    ensures forall k :: 0 <= k < |Collapse(s)| ==> Collapse(s)[k] in s
    decreases |s|
  {
    if s != [] {
      CollapseChars(s[1..]);
      forall k | 0 <= k < |Collapse(s)| ensures Collapse(s)[k] in s {
        if !(|s| >= 2 && s[0] == ' ' && s[1] == ' ') && k > 0 {
          assert Collapse(s)[k] == Collapse(s[1..])[k - 1];
        }
      }
    }
  }

  lemma {:induction false} CollapseFixed(s: string)
    requires !Contains(s, "  ")
    ensures Collapse(s) == s
    decreases |s|
  {
    if s != [] {
      if |s| >= 2 {
        assert s[..2] != "  ";
        CollapseFixed(s[1..]);
      }
      assert s == [s[0]] + s[1..];
    }
  }

  /** s.replace("  ", " ") starts with a space exactly when s does. */
  lemma ReplaceHead(s: string)
    ensures var r := Replace(s, "  ", " ");
      (r != [] && r[0] == ' ') <==> (s != [] && s[0] == ' ')
  {
    if |s| >= 2 {
      if s[..2] == "  " {
        assert s[0] == ' ';
      }
    }
  }

  /** One round of s.replace("  ", " ") does not change what the runs collapse to. */
  lemma {:induction false} CollapseOfReplace(s: string)
    ensures Collapse(Replace(s, "  ", " ")) == Collapse(s)
    decreases |s|
  {
    if |s| >= 2 {
      var r := Replace(s, "  ", " ");
      if s[..2] == "  " {
        var x := Replace(s[2..], "  ", " ");
        assert r == " " + x;
        CollapseOfReplace(s[2..]);
        ReplaceHead(s[2..]);
        assert (" " + x)[1..] == x;
        assert s[1..][1..] == s[2..];
        assert s[1..] == " " + s[2..];
      } else {
        var x := Replace(s[1..], "  ", " ");
        assert r == [s[0]] + x;
        CollapseOfReplace(s[1..]);
        ReplaceHead(s[1..]);
        assert ([s[0]] + x)[1..] == x;
      }
    }
  }

  // ---------------------------------------------------------------------
  // The cleaner
  // ---------------------------------------------------------------------

  /** The cleaned sentence: characters mapped, spaces collapsed, then stripped. */
  function Clean(sentence: string): string {
    Strip(Collapse(MapChars(sentence, ProblematicChars)))
  }

  /** Clean output has no markup character, no double space and no surrounding whitespace. */
  lemma CleanProperties(s: string)
    ensures forall k :: 0 <= k < |Clean(s)| ==> !Problematic(Clean(s)[k])
    ensures !Contains(Clean(s), "  ")
    ensures IsStripped(Clean(s))
  {
    var m := MapChars(s, ProblematicChars);
    var c := Collapse(m);
    MapCharsClean(s);
    CollapseChars(m);
    CollapseNoDouble(m);
    StripProperties(c);
    var k := |c| - |StripLeft(c)|;
    var t := Strip(c);
    assert c == c[..k] + t + c[k + |t|..];
    forall j | 0 <= j < |t| ensures !Problematic(t[j]) {
      assert t[j] == c[k + j];
    }
    ContainsMiddle(c[..k], t, c[k + |t|..], "  ");
  }

  /** Cleaning an already cleaned sentence changes nothing. */
  lemma CleanIdempotent(s: string)
    ensures Clean(Clean(s)) == Clean(s)
  {
    var c := Clean(s);
    CleanProperties(s);
    TableShape();
    MapCharsIdentity(c, ProblematicChars);
    CollapseFixed(c);
    StripOfStripped(c);
  }

  /**
   * The replacements run one pattern at a time over the whole sentence,
   * then "  " is replaced by " " until none is left, then the result is
   * stripped.
   */
  method CleanSentenceForTelegram(sentence: string) returns (cleaned: string)
    ensures cleaned == Clean(sentence)
  {
    cleaned := sentence;
    for i := 0 to |ProblematicChars|
      invariant cleaned == ReplaceEach(sentence, ProblematicChars[..i])
    {
      assert ProblematicChars[..i + 1][..i] == ProblematicChars[..i];
      cleaned := Replace(cleaned, ProblematicChars[i].0, ProblematicChars[i].1);
    }
    assert ProblematicChars[..|ProblematicChars|] == ProblematicChars;
    TableShape();
    ReplaceEachIsMapChars(sentence, ProblematicChars);
    ghost var mapped := cleaned;
    while Contains(cleaned, "  ")
      invariant Collapse(cleaned) == Collapse(mapped)
      decreases |cleaned|
    {
      CollapseOfReplace(cleaned);
      ReplaceLength(cleaned, "  ", " ");
      CountPositiveIff(cleaned, "  ");
      cleaned := Replace(cleaned, "  ", " ");
    }
    CollapseFixed(cleaned);
    cleaned := Strip(cleaned);
  }
}
