/** The string operations the search predicate relies on: Kotlin's
    `CharSequence.isBlank()` and `CharSequence.contains(other)`. */
module Text {

  /** The code points Kotlin's `Char.isWhitespace()` accepts on the JVM,
      one by one: the ASCII control whitespace (tab to carriage return, the
      four information separators), the Unicode space separators (Zs), the
      line separator (Zl) and the paragraph separator (Zp). */
  const WhitespaceCodePoints: set<int> :=
    {0x09, 0x0A, 0x0B, 0x0C, 0x0D, 0x1C, 0x1D, 0x1E, 0x1F, 0x20, 0xA0, 0x1680,
     0x2000, 0x2001, 0x2002, 0x2003, 0x2004, 0x2005, 0x2006, 0x2007, 0x2008,
     0x2009, 0x200A, 0x2028, 0x2029, 0x202F, 0x205F, 0x3000}

  /** `Char.isWhitespace()`: Java's `Character.isWhitespace` or Java's
      `Character.isSpaceChar`, tested by ranges of code points. */
  function IsWhitespace(c: char): (r: bool)
    ensures r <==> c as int in WhitespaceCodePoints
  {
    var n := c as int;
    (0x09 <= n <= 0x0D) || (0x1C <= n <= 0x20) || n == 0xA0 || n == 0x1680
    || (0x2000 <= n <= 0x200A) || n == 0x2028 || n == 0x2029 || n == 0x202F
    || n == 0x205F || n == 0x3000
  }

  /** `isBlank()`, which tests the characters index by index: true exactly
      when every character of `s` is whitespace (so also for ""). */
  function IsBlank(s: string): (r: bool)
    ensures r <==> forall c :: c in s ==> IsWhitespace(c)
  {
    forall i :: 0 <= i < |s| ==> IsWhitespace(s[i])
  }

  /** `t` occurs in `s` starting at index `i`. */
  predicate OccursAt(s: string, t: string, i: int) {
    0 <= i && i + |t| <= |s| && s[i..i + |t|] == t
  }

  /** `s.contains(t)`, as a left-to-right scan over the start positions: it
      finds `t` exactly when `t` occurs somewhere in `s`. */
  function Contains(s: string, t: string): (r: bool)
    ensures r <==> exists i :: OccursAt(s, t, i)
    decreases |s|
  {
    if |t| > |s| then
      NoRoomNoOccurrence(s, t);
      false
    else if s[..|t|] == t then
      assert OccursAt(s, t, 0);
      true
    else
      OccursAfterFirst(s, t);
      Contains(s[1..], t)
  }

  /** A needle longer than the text occurs nowhere in it. */
  lemma NoRoomNoOccurrence(s: string, t: string)
    requires |t| > |s|
    ensures !exists i :: OccursAt(s, t, i)
  {
  }

  /** When `t` does not start `s`, it occurs in `s` exactly when it occurs in
      `s` without its first character, one position further on. */
  lemma OccursAfterFirst(s: string, t: string)
    requires |t| <= |s| && s[..|t|] != t
    ensures (exists i :: OccursAt(s, t, i)) <==> (exists j :: OccursAt(s[1..], t, j))
  {
    if exists j :: OccursAt(s[1..], t, j) {
      var j :| OccursAt(s[1..], t, j);
      assert s[j + 1..j + 1 + |t|] == s[1..][j..j + |t|];
      assert OccursAt(s, t, j + 1);
    }
    if exists i :: OccursAt(s, t, i) {
      var i :| OccursAt(s, t, i);
      assert i != 0;
      assert s[1..][i - 1..i - 1 + |t|] == s[i..i + |t|];
      assert OccursAt(s[1..], t, i - 1);
    }
  }
}
