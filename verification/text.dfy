/**
 * The few Python string operations the scraper relies on, over `seq<char>`:
 * the character classes `\d` and `\s`, `str.replace(pattern, "")` and
 * `str.strip()`.
 */
module PyText {

  /** `\d` of a `str` pattern, restricted to the ASCII digits. */
  predicate IsDigit(c: char) {
    '0' <= c <= '9'
  }

  /**
   * `str.isspace()`, which is also the class `\s` of a `str` pattern and the
   * set `str.strip()` removes: ASCII 9-13 and 28-32, NEL, NO-BREAK SPACE,
   * OGHAM SPACE MARK, U+2000-U+200A, the line and paragraph separators,
   * NARROW NO-BREAK SPACE, MEDIUM MATHEMATICAL SPACE and IDEOGRAPHIC SPACE.
   */
  predicate IsSpace(c: char) {
    || '\t' <= c <= '\r'
    || '\U{1C}' <= c <= ' '
    || c == '\U{85}'
    || c == '\U{A0}'
    || c == '\U{1680}'
    || '\U{2000}' <= c <= '\U{200A}'
    || c == '\U{2028}'
    || c == '\U{2029}'
    || c == '\U{202F}'
    || c == '\U{205F}'
    || c == '\U{3000}'
  }

  lemma SpaceIsNotDigit(c: char)
    requires IsSpace(c)
    ensures !IsDigit(c)
  {
  }

  predicate AllDigits(s: string) {
    forall k :: 0 <= k < |s| ==> IsDigit(s[k])
  }

  predicate AllSpaces(s: string) {
    forall k :: 0 <= k < |s| ==> IsSpace(s[k])
  }

  /** `piece` occurs in `s` starting at index `i`. */
  predicate OccursAt(s: string, i: nat, piece: string) {
    i + |piece| <= |s| && forall k :: 0 <= k < |piece| ==> s[i + k] == piece[k]
  }

  /** `pattern` occurs somewhere in `s`. */
  predicate Occurs(s: string, pattern: string) {
    exists i: nat :: i <= |s| && OccursAt(s, i, pattern)
  }

  lemma OccursAtOne(s: string, i: nat, c: char)
    requires i < |s|
    ensures OccursAt(s, i, [c]) <==> s[i] == c
  {
    if OccursAt(s, i, [c]) {
      assert s[i + 0] == [c][0];
    }
    if s[i] == c {
      assert forall k :: 0 <= k < 1 ==> s[i + k] == [c][k];
    }
  }

  /**
   * `s.replace(pattern, "")`: scanning left to right, every occurrence of
   * `pattern` that does not overlap an earlier removed one is deleted. An
   * empty pattern leaves `s` unchanged, as in Python.
   */
  function RemoveAll(s: string, pattern: string): (r: string)
    ensures |r| <= |s|
    ensures multiset(r) <= multiset(s)
    decreases |s|
  {
    if |pattern| == 0 || |s| == 0 then s
    else if OccursAt(s, 0, pattern) then
      assert s == s[..|pattern|] + s[|pattern|..];
      RemoveAll(s[|pattern|..], pattern)
    else
      assert s == [s[0]] + s[1..];
      [s[0]] + RemoveAll(s[1..], pattern)
  }

  /** Removing a single character removes every copy of it. */
  lemma {:induction false} RemoveCharGone(s: string, c: char)
    ensures c !in RemoveAll(s, [c])
    decreases |s|
  {
    if |s| > 0 {
      RemoveCharGone(s[1..], c);
      OccursAtOne(s, 0, c);
    }
  }

  /** Removing a single character distributes over concatenation. */
  lemma {:induction false} RemoveCharConcat(a: string, b: string, c: char)
    ensures RemoveAll(a + b, [c]) == RemoveAll(a, [c]) + RemoveAll(b, [c])
    decreases |a|
  {
    if |a| > 0 {
      assert (a + b)[1..] == a[1..] + b;
      OccursAtOne(a + b, 0, c);
      OccursAtOne(a, 0, c);
      RemoveCharConcat(a[1..], b, c);
    } else {
      assert a + b == b;
    }
  }

  /** Removing a character that does not occur changes nothing. */
  lemma {:induction false} RemoveAbsentChar(s: string, c: char)
    requires c !in s
    ensures RemoveAll(s, [c]) == s
    decreases |s|
  {
    if |s| > 0 {
      OccursAtOne(s, 0, c);
      assert s == [s[0]] + s[1..];
      RemoveAbsentChar(s[1..], c);
    }
  }

  /**
   * Removing `c` from `lead + sep + rest`, where only the one-character (or
   * empty) `sep` may be `c`, drops `sep` exactly when it is `c`.
   */
  lemma RemoveCharBetween(lead: string, sep: string, rest: string, c: char)
    requires c !in lead && c !in rest && |sep| <= 1
    ensures RemoveAll(lead + sep + rest, [c]) == lead + (if sep == [c] then [] else sep) + rest
  {
    RemoveCharConcat(lead + sep, rest, c);
    RemoveCharConcat(lead, sep, c);
    RemoveAbsentChar(lead, c);
    RemoveAbsentChar(rest, c);
    if sep == [c] {
      OccursAtOne(sep, 0, c);
    } else if |sep| == 1 {
      assert c !in sep;
      RemoveAbsentChar(sep, c);
    }
  }

  /** Removing a pattern that does not occur changes nothing. */
  lemma {:induction false} RemoveAbsentPattern(s: string, pattern: string)
    requires !Occurs(s, pattern)
    ensures RemoveAll(s, pattern) == s
    decreases |s|
  {
    if |pattern| > 0 && |s| > 0 {
      assert !OccursAt(s, 0, pattern);
      if Occurs(s[1..], pattern) {
        var i: nat :| i <= |s[1..]| && OccursAt(s[1..], i, pattern);
        assert s[1..][i..i + |pattern|] == s[i + 1..i + 1 + |pattern|];
        assert OccursAt(s, i + 1, pattern);
        assert false;
      }
      RemoveAbsentPattern(s[1..], pattern);
      assert s == [s[0]] + s[1..];
    }
  }

  /**
   * A pattern whose second character appears nowhere in `prefix` (and differs
   * from its first) occurs in `prefix + pattern` only at the end, so removing
   * it gives back `prefix`.
   */
  lemma {:induction false} RemoveTrailingPattern(prefix: string, pattern: string)
    requires |pattern| >= 2 && pattern[0] != pattern[1]
    requires pattern[1] !in prefix
    ensures RemoveAll(prefix + pattern, pattern) == prefix
    decreases |prefix|
  {
    var s := prefix + pattern;
    if |prefix| == 0 {
      assert s == pattern;
      assert OccursAt(s, 0, pattern);
      assert s[|pattern|..] == [];
    } else {
      var tail := prefix[1..] + pattern;
      assert s[1..] == tail;
      assert tail[0] != pattern[1] by {
        if |prefix| >= 2 {
          assert tail[0] == prefix[1];
        }
      }
      assert !OccursAt(s, 0, pattern) by {
        assert s[0 + 1] == tail[0];
      }
      assert pattern[1] !in prefix[1..];
      RemoveTrailingPattern(prefix[1..], pattern);
      assert RemoveAll(s, pattern) == [s[0]] + RemoveAll(tail, pattern);
      assert prefix == [prefix[0]] + prefix[1..];
    }
  }

  /** A pattern starting with a character `s` lacks does not occur in `s`. */
  lemma AbsentFirstChar(s: string, pattern: string)
    requires |pattern| > 0 && pattern[0] !in s
    ensures !Occurs(s, pattern)
  {
    forall i: nat | i <= |s|
      ensures !OccursAt(s, i, pattern)
    {
      if i < |s| {
        assert s[i] in s;
      }
    }
  }

  /** The first index at or after `i` whose character is not whitespace, or `|s|`. */
  function SkipSpaces(s: string, i: nat): (j: nat)
    requires i <= |s|
    ensures i <= j <= |s|
    ensures forall k :: i <= k < j ==> IsSpace(s[k])
    ensures j == |s| || !IsSpace(s[j])
    decreases |s| - i
  {
    if i < |s| && IsSpace(s[i]) then SkipSpaces(s, i + 1) else i
  }

  /**
   * Scanning back from `j`, no further than `lo`: the index just past the
   * last character that is not whitespace, or `lo`.
   */
  function BackSpaces(s: string, lo: nat, j: nat): (i: nat)
    requires lo <= j <= |s|
    ensures lo <= i <= j
    ensures forall k :: i <= k < j ==> IsSpace(s[k])
    ensures i == lo || !IsSpace(s[i - 1])
    decreases j
  {
    if j > lo && IsSpace(s[j - 1]) then BackSpaces(s, lo, j - 1) else j
  }

  /** Neither end of `s` is whitespace. */
  predicate Unpadded(s: string) {
    |s| == 0 || (!IsSpace(s[0]) && !IsSpace(s[|s| - 1]))
  }

  /** `s.strip()`: neither end of the result is whitespace. */
  function Strip(s: string): (r: string)
    ensures |r| <= |s|
    ensures Unpadded(r)
  {
    var a := SkipSpaces(s, 0);
    var b := BackSpaces(s, a, |s|);
    assert b > a ==> s[a..b][0] == s[a] && s[a..b][b - a - 1] == s[b - 1];
    s[a..b]
  }

  /**
   * `Strip(s)` is the infix of `s` that starts after its leading whitespace
   * and ends before its trailing whitespace.
   */
  lemma StripInfix(s: string)
    ensures var a := SkipSpaces(s, 0);
      var r := Strip(s);
      && a + |r| <= |s|
      && r == s[a..a + |r|]
      && (forall k :: 0 <= k < a ==> IsSpace(s[k]))
      && (forall k :: a + |r| <= k < |s| ==> IsSpace(s[k]))
  {
    var a := SkipSpaces(s, 0);
    var b := BackSpaces(s, a, |s|);
    assert Strip(s) == s[a..b];
  }

  /** Every character of `Strip(s)` is a character of `s`. */
  lemma StripKeeps(s: string, c: char)
    requires c in Strip(s)
    ensures c in s
  {
    var r := Strip(s);
    var a := SkipSpaces(s, 0);
    StripInfix(s);
    var k :| 0 <= k < |r| && r[k] == c;
    assert s[a + k] == c;
  }

  /** `Strip(s)` holds no character that `s` lacks. */
  lemma StripAddsNothing(s: string, c: char)
    requires c !in s
    ensures c !in Strip(s)
  {
    if c in Strip(s) {
      StripKeeps(s, c);
    }
  }

  /** A string with no whitespace at either end is its own `strip()`. */
  lemma StripUntouched(s: string)
    requires Unpadded(s)
    ensures Strip(s) == s
  {
  }

  /** `strip()` is idempotent. */
  lemma StripIdempotent(s: string)
    ensures Strip(Strip(s)) == Strip(s)
  {
    StripUntouched(Strip(s));
  }
}
