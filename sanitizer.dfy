/** `remove_invalid_chars` of kml.py: escapes the characters that may not appear
    inside a KML element's text. The source runs a series of single-character
    `str.replace` calls; the model keeps that series and proves it equal to one
    per-character substitution. */
module Sanitizer {
  import opened Text

  /** `str.replace(c, rep)` for a one-character pattern: every `c`, left to right. */
  function ReplaceAll(s: string, c: char, rep: string): (r: string)
    ensures c !in s ==> r == s
    ensures rep == [c] ==> r == s
  {
    if s == [] then [] else (if s[0] == c then rep else [s[0]]) + ReplaceAll(s[1..], c, rep)
  }

  /** The replacement dictionary, in its insertion order; `&` is handled before it. */
  const InvalidChars: seq<(char, string)> :=
    [('<', "&lt;"), ('>', "&gt;"), ('"', "&quot;"), ('\t', "    "), ('\n', "")]

  /** The replacements of `table` applied one after the other, first entry first. */
  function ReplaceEach(s: string, table: seq<(char, string)>): string
    decreases |table|
  {
    if table == [] then s else ReplaceEach(ReplaceAll(s, table[0].0, table[0].1), table[1..])
  }

  /** The whole series the source performs: `&` first, then the dictionary in order. */
  function Sequential(s: string): string
  {
    ReplaceEach(ReplaceAll(s, '&', "&amp;"), InvalidChars)
  }

  /** What one input character becomes in the output. */
  function EscapeChar(c: char): string
  {
    if c == '&' then "&amp;"
    else if c == '<' then "&lt;"
    else if c == '>' then "&gt;"
    else if c == '"' then "&quot;"
    else if c == '\t' then "    "
    else if c == '\n' then ""
    else [c]
  }

  /** The reference definition: each character replaced independently, order kept. */
  function Escaped(s: string): string
  {
    if s == [] then [] else EscapeChar(s[0]) + Escaped(s[1..])
  }

  /** The characters the sanitizer rewrites. */
  predicate IsSpecial(c: char)
  {
    c == '&' || c == '<' || c == '>' || c == '"' || c == '\t' || c == '\n'
  }

  method RemoveInvalidChars(xmlstring: string) returns (cleanstring: string)
    ensures cleanstring == Escaped(xmlstring)
  {
    cleanstring := ReplaceAll(xmlstring, '&', "&amp;");
    var i := 0;
    while i < |InvalidChars|
      invariant 0 <= i <= |InvalidChars|
      invariant ReplaceEach(cleanstring, InvalidChars[i..]) == Sequential(xmlstring)
    {
      assert InvalidChars[i..][1..] == InvalidChars[i + 1..];
      cleanstring := ReplaceAll(cleanstring, InvalidChars[i].0, InvalidChars[i].1);
      i := i + 1;
    }
    assert InvalidChars[i..] == [];
    SequentialIsPerCharacter(xmlstring);
  }

  lemma {:induction false} ReplaceAllAppend(a: string, b: string, c: char, rep: string)
    ensures ReplaceAll(a + b, c, rep) == ReplaceAll(a, c, rep) + ReplaceAll(b, c, rep)
    decreases |a|
  {
    if a != [] {
      assert (a + b)[0] == a[0];
      assert (a + b)[1..] == a[1..] + b;
      ReplaceAllAppend(a[1..], b, c, rep);
    } else {
      assert a + b == b;
    }
  }

  lemma {:induction false} ReplaceEachAppend(a: string, b: string, table: seq<(char, string)>)
    ensures ReplaceEach(a + b, table) == ReplaceEach(a, table) + ReplaceEach(b, table)
    decreases |table|
  {
    if table != [] {
      var (c, rep) := table[0];
      ReplaceAllAppend(a, b, c, rep);
      ReplaceEachAppend(ReplaceAll(a, c, rep), ReplaceAll(b, c, rep), table[1..]);
    }
  }

  lemma ReplaceAllChar(x: char, c: char, rep: string)
    ensures ReplaceAll([x], c, rep) == if x == c then rep else [x]
  {
    assert [x][1..] == [];
  }

  /** The five dictionary replacements, in insertion order. */
  function DictReplacements(t: string): string
  {
    ReplaceAll(ReplaceAll(ReplaceAll(ReplaceAll(ReplaceAll(t, '<', "&lt;"), '>', "&gt;"), '"', "&quot;"), '\t', "    "), '\n', "")
  }

  lemma SequentialUnrolled(s: string)
    ensures Sequential(s) == DictReplacements(ReplaceAll(s, '&', "&amp;"))
  {
    var t0 := ReplaceAll(s, '&', "&amp;");
    var t1 := ReplaceAll(t0, '<', "&lt;");
    var t2 := ReplaceAll(t1, '>', "&gt;");
    var t3 := ReplaceAll(t2, '"', "&quot;");
    var t4 := ReplaceAll(t3, '\t', "    ");
    var t5 := ReplaceAll(t4, '\n', "");
    var rest1 := [('>', "&gt;"), ('"', "&quot;"), ('\t', "    "), ('\n', "")];
    var rest2 := [('"', "&quot;"), ('\t', "    "), ('\n', "")];
    var rest3 := [('\t', "    "), ('\n', "")];
    var rest4 := [('\n', "")];
    assert InvalidChars[1..] == rest1 && rest1[1..] == rest2 && rest2[1..] == rest3;
    assert rest3[1..] == rest4 && rest4[1..] == [];
    assert ReplaceEach(t5, []) == t5;
    assert ReplaceEach(t4, rest4) == t5;
    assert ReplaceEach(t3, rest3) == t5;
    assert ReplaceEach(t2, rest2) == t5;
    assert ReplaceEach(t1, rest1) == t5;
    assert ReplaceEach(t0, InvalidChars) == t5;
  }

  /** A text holding none of the dictionary's characters is left alone by it. */
  lemma DictReplacementsAbsent(t: string)
    requires '<' !in t && '>' !in t && '"' !in t && '\t' !in t && '\n' !in t
    ensures DictReplacements(t) == t
  {
  }

  lemma DictChar(c: char)
    requires c != '&'
    ensures DictReplacements([c]) == EscapeChar(c)
  {
    var t1 := ReplaceAll([c], '<', "&lt;");
    ReplaceAllChar(c, '<', "&lt;");
    if c == '<' {
      DictReplacementsAbsent(t1);
    } else {
      assert t1 == [c];
      var t2 := ReplaceAll(t1, '>', "&gt;");
      ReplaceAllChar(c, '>', "&gt;");
      if c == '>' {
        assert '"' !in t2 && '\t' !in t2 && '\n' !in t2;
      } else {
        assert t2 == [c];
        var t3 := ReplaceAll(t2, '"', "&quot;");
        ReplaceAllChar(c, '"', "&quot;");
        if c == '"' {
          assert '\t' !in t3 && '\n' !in t3;
        } else {
          assert t3 == [c];
          ReplaceAllChar(c, '\t', "    ");
          ReplaceAllChar(c, '\n', "");
        }
      }
    }
  }

  lemma DictAmpersand()
    ensures DictReplacements("&amp;") == "&amp;"
  {
    DictReplacementsAbsent("&amp;");
  }

  lemma SequentialChar(c: char)
    ensures Sequential([c]) == EscapeChar(c)
  {
    SequentialUnrolled([c]);
    ReplaceAllChar(c, '&', "&amp;");
    if c == '&' {
      DictAmpersand();
    } else {
      DictChar(c);
    }
  }

  /** Because no replacement introduces a character that an earlier one handled,
      the series of `str.replace` calls equals the per-character substitution. */
  lemma {:induction false} SequentialIsPerCharacter(s: string)
    ensures Sequential(s) == Escaped(s)
    decreases |s|
  {
    if s != [] {
      var head, tail := [s[0]], s[1..];
      assert s == head + tail;
      ReplaceAllAppend(head, tail, '&', "&amp;");
      ReplaceEachAppend(ReplaceAll(head, '&', "&amp;"), ReplaceAll(tail, '&', "&amp;"), InvalidChars);
      SequentialChar(s[0]);
      SequentialIsPerCharacter(tail);
    }
  }

  lemma {:induction false} EscapedAppend(a: string, b: string)
    ensures Escaped(a + b) == Escaped(a) + Escaped(b)
    decreases |a|
  {
    if a == [] {
      assert a + b == b;
    } else {
      assert (a + b)[0] == a[0];
      assert (a + b)[1..] == a[1..] + b;
      EscapedAppend(a[1..], b);
    }
  }

  /** The output never holds a raw `<`, `>`, `"`, tab or newline. */
  lemma {:induction false} EscapedHasNoInvalidChars(s: string)
    ensures '<' !in Escaped(s) && '>' !in Escaped(s) && '"' !in Escaped(s)
    ensures '\t' !in Escaped(s) && '\n' !in Escaped(s)
    decreases |s|
  {
    if s != [] {
      EscapedHasNoInvalidChars(s[1..]);
      EscapeCharClean(s[0]);
      NotInAppend(EscapeChar(s[0]), Escaped(s[1..]));
    }
  }

  lemma EscapeCharClean(c: char)
    ensures var e := EscapeChar(c);
      '<' !in e && '>' !in e && '"' !in e && '\t' !in e && '\n' !in e
  {
  }

  lemma NotInAppend<T>(a: seq<T>, b: seq<T>)
    ensures forall x :: x !in a && x !in b ==> x !in a + b
  {
  }

  /** Text without any of `& < > " \t \n` passes through unchanged. */
  lemma {:induction false} EscapedIdentity(s: string)
    requires forall i :: 0 <= i < |s| ==> !IsSpecial(s[i])
    ensures Escaped(s) == s
    decreases |s|
  {
    if s != [] {
      EscapedIdentity(s[1..]);
      assert s == [s[0]] + s[1..];
    }
  }

  /** Not idempotent: an escaped ampersand is escaped again. */
  lemma EscapedNotIdempotent()
    ensures Escaped("&") == "&amp;"
    ensures Escaped(Escaped("&")) == "&amp;amp;"
    ensures Escaped(Escaped("&")) != Escaped("&")
  {
    assert Escaped("&") == EscapeChar('&') + Escaped([]);
    EscapedAppend("&", "amp;");
    assert "&amp;" == "&" + "amp;";
    EscapedIdentity("amp;");
  }

  /** The entity starting at index `i` of `r`, if any. */
  predicate EntityAt(r: string, i: int)
  {
    OccursAt(r, "&amp;", i) || OccursAt(r, "&lt;", i) || OccursAt(r, "&gt;", i) || OccursAt(r, "&quot;", i)
  }

  lemma EntityAtShift(e: string, r: string, i: int)
    requires 0 <= i < |r|
    requires EntityAt(r, i)
    ensures EntityAt(e + r, |e| + i)
  {
    var s := e + r;
    forall x: string | OccursAt(r, x, i) ensures OccursAt(s, x, |e| + i) {
      assert s[|e| + i..|e| + i + |x|] == r[i..i + |x|];
    }
  }

  /** Every `&` in the output begins one of the entities the sanitizer writes. */
  lemma {:induction false} EscapedAmpersandsStartEntities(s: string)
    ensures forall i :: 0 <= i < |Escaped(s)| && Escaped(s)[i] == '&' ==> EntityAt(Escaped(s), i)
    decreases |s|
  {
    if s != [] {
      var e, rest := EscapeChar(s[0]), Escaped(s[1..]);
      var r := Escaped(s);
      assert r == e + rest;
      EscapedAmpersandsStartEntities(s[1..]);
      forall i | 0 <= i < |r| && r[i] == '&' ensures EntityAt(r, i) {
        if i < |e| {
          assert e[i] == '&';
          assert i == 0 && (e == "&amp;" || e == "&lt;" || e == "&gt;" || e == "&quot;");
          assert r[0..|e|] == e;
        } else {
          assert rest[i - |e|] == '&';
          EntityAtShift(e, rest, i - |e|);
        }
      }
    }
  }
}
