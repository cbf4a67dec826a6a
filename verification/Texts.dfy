/** White space at the ends of a text, in ASCII. */
module Texts {

  predicate IsSpace(c: char) {
    '\t' <= c <= '\r' || '\U{1C}' <= c <= ' '
  }

  function Strip(s: string): string {
    if s == [] then []
    else if IsSpace(s[0]) then Strip(s[1..])
    else if IsSpace(s[|s| - 1]) then Strip(s[..|s| - 1])
    else s
  }

  /** Blank, tab, line feed, vertical tab, form feed, carriage return, and the four
      information separators. */
  predicate WhiteSpace(c: char) {
    c == ' ' || c == '\t' || c == '\n' || c == '\U{0B}' || c == '\U{0C}' || c == '\r' || '\U{1C}' <= c <= '\U{1F}'
  }

  /** `s` is `core` between white space, and `core` neither begins nor ends with any. */
  ghost predicate Stripped(s: string, core: string, before: string, after: string) {
    && s == before + core + after
    && (forall k :: 0 <= k < |before| ==> WhiteSpace(before[k]))
    && (forall k :: 0 <= k < |after| ==> WhiteSpace(after[k]))
    && (core != "" ==> !WhiteSpace(core[0]) && !WhiteSpace(core[|core| - 1]))
  }

  lemma StrippedAfter(s: string, c: char, core: string, before: string, after: string)
    requires Stripped(s, core, before, after) && WhiteSpace(c)
    ensures Stripped([c] + s, core, [c] + before, after)
  {
    assert [c] + (before + core + after) == [c] + before + core + after;
  }

  lemma StrippedBefore(s: string, c: char, core: string, before: string, after: string)
    requires Stripped(s, core, before, after) && WhiteSpace(c)
    ensures Stripped(s + [c], core, before, after + [c])
  {
    assert before + core + after + [c] == before + core + (after + [c]);
  }

  lemma SpaceIsWhiteSpace(c: char)
    ensures IsSpace(c) <==> WhiteSpace(c)
  {
  }

  /** Stripping takes off exactly the white space at both ends. */
  lemma {:induction false} StripExactly(s: string) returns (before: string, after: string)
    ensures Stripped(s, Strip(s), before, after)
  {
    before, after := "", "";
    if s == "" { return; }
    var n := |s| - 1;
    SpaceIsWhiteSpace(s[0]);
    SpaceIsWhiteSpace(s[n]);
    if IsSpace(s[0]) {
      before, after := StripExactly(s[1..]);
      StrippedAfter(s[1..], s[0], Strip(s), before, after);
      before := [s[0]] + before;
      assert s == [s[0]] + s[1..];
    } else if IsSpace(s[n]) {
      before, after := StripExactly(s[..n]);
      StrippedBefore(s[..n], s[n], Strip(s), before, after);
      after := after + [s[n]];
      assert s == s[..n] + [s[n]];
    } else {
      assert "" + s + "" == s;
    }
  }
}
