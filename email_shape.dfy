/**
  The shape check that the "notify me" form applies to a typed address:
  the regular expression  ^[^\s@]+@[^\s@]+\.[^\s@]+$  of pages/index.tsx.

  Three views of it are given and proved to agree:
  - MatchesShape: the language of the expression, as a split into three
    non-empty runs of characters outside [\s@], joined by "@" and ".";
  - WellFormedAddress: a direct characterisation (no whitespace, exactly one
    "@", not in first place, and a "." strictly inside the part after it);
  - ShapeTest: an executable test built on IndexOf.
*/
module EmailShape {
  import opened Wrappers

  /** The characters of ECMAScript's `\s` class: the WhiteSpace code points
      (tab, vertical tab, form feed, space, no-break space, zero-width no-break
      space and every other space separator) and the LineTerminator ones. */
  predicate IsWhitespace(c: char) {
    c == '\t' || c == '\n' || c == '\U{000B}' || c == '\U{000C}' || c == '\r'
    || c == ' ' || c == '\U{00A0}' || c == '\U{1680}'
    || ('\U{2000}' <= c <= '\U{200A}')
    || c == '\U{2028}' || c == '\U{2029}' || c == '\U{202F}' || c == '\U{205F}'
    || c == '\U{3000}' || c == '\U{FEFF}'
  }

  /** A character of the class [^\s@]. Note that "." belongs to it. */
  predicate IsAddressChar(c: char) {
    !IsWhitespace(c) && c != '@'
  }

  predicate NoWhitespace(s: string) {
    forall k :: 0 <= k < |s| ==> !IsWhitespace(s[k])
  }

  /** A match of [^\s@]+ : a non-empty run of address characters. */
  predicate IsRun(s: string) {
    |s| > 0 && forall k :: 0 <= k < |s| ==> IsAddressChar(s[k])
  }

  /** s splits as a "@" b "." c with each of a, b, c a run of [^\s@]+. */
  ghost predicate ShapePieces(s: string, a: string, b: string, c: string) {
    IsRun(a) && IsRun(b) && IsRun(c) && s == a + "@" + b + "." + c
  }

  /** The language of ^[^\s@]+@[^\s@]+\.[^\s@]+$ (the anchors make the match
      cover the whole string). */
  ghost predicate MatchesShape(s: string) {
    exists a, b, c :: ShapePieces(s, a, b, c)
  }

  /** The domain part has a "." that is neither its first nor its last character. */
  predicate HasInnerDot(d: string) {
    exists k :: 0 < k < |d| - 1 && d[k] == '.'
  }

  /** Position i holds the only "@" of s. */
  ghost predicate OnlyAtSignAt(s: string, i: int) {
    forall k :: 0 <= k < |s| && s[k] == '@' ==> k == i
  }

  /** Direct characterisation of the accepted addresses. */
  ghost predicate WellFormedAddress(s: string) {
    NoWhitespace(s)
    && exists i :: 0 < i < |s| && s[i] == '@' && OnlyAtSignAt(s, i) && HasInnerDot(s[i + 1..])
  }

  /** The position of the first occurrence of x in s, if any. */
  function IndexOf(s: string, x: char): (r: Option<nat>)
    ensures r.None? <==> x !in s
    ensures r.Some? ==> r.value < |s| && s[r.value] == x && x !in s[..r.value]
  {
    if s == [] then None
    else if s[0] == x then Some(0)
    else
      match IndexOf(s[1..], x)
      case None => None
      case Some(k) =>
        assert s[1..][..k] == s[1..k + 1];
        Some(k + 1)
  }

  /** The executable form of `/^[^\s@]+@[^\s@]+\.[^\s@]+$/.test(s)`: it finds
      the first "@" and checks the rest, which decides exactly the direct
      characterisation. */
  function ShapeTest(s: string): (r: bool)
    ensures r <==> WellFormedAddress(s)
  {
    match IndexOf(s, '@')
    case None => false
    case Some(i) => 0 < i && NoWhitespace(s) && '@' !in s[i + 1..] && HasInnerDot(s[i + 1..])
  }

  /** Every character of a piece, read back at its offset inside the joined string. */
  lemma JoinedAt(a: string, b: string, c: string, k: int)
    requires 0 <= k < |a + "@" + b + "." + c|
    ensures var s := a + "@" + b + "." + c;
      s[k] == (if k < |a| then a[k]
               else if k == |a| then '@'
               else if k < |a| + 1 + |b| then b[k - |a| - 1]
               else if k == |a| + 1 + |b| then '.'
               else c[k - |a| - |b| - 2])
  {
  }

  /** Every match of the regular expression satisfies the direct characterisation. */
  lemma MatchesShapeWellFormed(s: string)
    requires MatchesShape(s)
    ensures WellFormedAddress(s)
  {
    var a, b, c :| ShapePieces(s, a, b, c);
    var i := |a|;
    var j := |a| + 1 + |b|;
    forall k | 0 <= k < |s|
      ensures !IsWhitespace(s[k])
      ensures s[k] == '@' ==> k == i
    {
      JoinedAt(a, b, c, k);
    }
    JoinedAt(a, b, c, i);
    JoinedAt(a, b, c, j);
    assert s[i + 1..][|b|] == s[j];
    assert OnlyAtSignAt(s, i);
  }

  /** A stretch of a whitespace-free string that avoids its only "@" is a run of [^\s@]+. */
  lemma SliceIsRun(s: string, i: int, lo: int, hi: int)
    requires NoWhitespace(s) && OnlyAtSignAt(s, i)
    requires 0 <= lo < hi <= |s| && (i < lo || hi <= i)
    ensures IsRun(s[lo..hi])
  {
  }

  /** Every string satisfying the direct characterisation matches the regular expression. */
  lemma WellFormedMatchesShape(s: string)
    requires WellFormedAddress(s)
    ensures MatchesShape(s)
  {
    var i :| 0 < i < |s| && s[i] == '@' && OnlyAtSignAt(s, i) && HasInnerDot(s[i + 1..]);
    var k :| 0 < k < |s[i + 1..]| - 1 && s[i + 1..][k] == '.';
    var j := i + 1 + k;
    assert s[j] == '.';
    SliceIsRun(s, i, 0, i);
    SliceIsRun(s, i, i + 1, j);
    SliceIsRun(s, i, j + 1, |s|);
    var a, b, c := s[0..i], s[i + 1..j], s[j + 1..|s|];
    assert s == a + "@" + b + "." + c by {
      assert s == s[0..i] + [s[i]] + s[i + 1..j] + [s[j]] + s[j + 1..|s|];
    }
    assert ShapePieces(s, a, b, c);
  }

  /** The language of the regular expression is the direct characterisation. */
  lemma MatchesShapeIffWellFormed(s: string)
    ensures MatchesShape(s) <==> WellFormedAddress(s)
  {
    if MatchesShape(s) {
      MatchesShapeWellFormed(s);
    }
    if WellFormedAddress(s) {
      WellFormedMatchesShape(s);
    }
  }

  /** The executable test accepts exactly the language of the regular expression. */
  lemma ShapeTestCorrect(s: string)
    ensures ShapeTest(s) <==> MatchesShape(s)
  {
    MatchesShapeIffWellFormed(s);
  }

  /** Sample inputs: "a@b.c" is accepted; "maria@" (nothing after the "@"),
      "not-an-email" (no "@"), "   " (whitespace only) and "" are rejected. */
  lemma ShapeExamples()
    ensures MatchesShape("a@b.c")
    ensures MatchesShape("maria@example.com")
    ensures !MatchesShape("maria@")
    ensures !MatchesShape("not-an-email")
    ensures !MatchesShape("   ")
    ensures !MatchesShape("")
  {
    assert ShapePieces("a@b.c", "a", "b", "c");
    assert ShapePieces("maria@example.com", "maria", "example", "com");
    MatchesShapeIffWellFormed("maria@");
    MatchesShapeIffWellFormed("not-an-email");
    MatchesShapeIffWellFormed("   ");
    MatchesShapeIffWellFormed("");
    assert "not-an-email"[0] != '@';
    assert IsWhitespace("   "[0]);
  }
}
