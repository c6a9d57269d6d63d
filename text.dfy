/**
 * The few pieces of Python's `str` behaviour that the feed extractor relies on:
 * `lower()`, substring tests, `startswith`/`endswith`, `replace(p, '')`,
 * `strip()`, `str(n)` for naturals and the lexicographic order `<=` of strings.
 */
module Text {

  // ---------------------------------------------------------------------------
  // Case mapping

  /** The capital letters this model folds: ASCII A-Z and Cyrillic U+0400..U+042F. */
  predicate IsUpper(c: char) {
    ('A' <= c <= 'Z') || ('\U{0400}' <= c <= '\U{042F}')
  }

  /** A character this case map neither folds nor produces by folding. */
  predicate IsCaseless(c: char) {
    !IsUpper(c) && !('a' <= c <= 'z') && !('\U{0430}' <= c <= '\U{045F}')
  }

  /** `str.lower()` on one character, for ASCII A-Z and Cyrillic U+0400..U+042F only. */
  function LowerChar(c: char): (r: char)
    ensures !IsUpper(r)
    ensures !IsUpper(c) ==> r == c
    ensures IsCaseless(r) ==> r == c
  {
    if 'A' <= c <= 'Z' then (c as int + 32) as char
    else if '\U{0410}' <= c <= '\U{042F}' then (c as int + 32) as char
    else if '\U{0400}' <= c <= '\U{040F}' then (c as int + 80) as char
    else c
  }

  /** `str.lower()`, character by character; what it keeps and what it folds is stated below. */
  function Lower(s: string): (r: string)
    ensures |r| == |s|
    ensures forall i :: 0 <= i < |s| ==> r[i] == LowerChar(s[i])
  {
    seq(|s|, i requires 0 <= i < |s| => LowerChar(s[i]))
  }

  /** No character of `s` is a capital letter: `s` is a fixed point of Lower. */
  predicate IsLowered(s: string) {
    forall i :: 0 <= i < |s| ==> !IsUpper(s[i])
  }

  /** Lower leaves no capital and is idempotent. */
  lemma LowerIsLowered(s: string)
    ensures IsLowered(Lower(s))
    ensures Lower(Lower(s)) == Lower(s)
  {
  }

  /** Lower touches only capitals: other characters stay in place, and a string without capitals is unchanged. */
  lemma LowerKeepsNonCapitals(s: string)
    ensures forall i :: 0 <= i < |s| && !IsUpper(s[i]) ==> Lower(s)[i] == s[i]
    ensures IsLowered(s) ==> Lower(s) == s
    ensures forall i :: 0 <= i < |s| && IsUpper(s[i]) ==> Lower(s)[i] != s[i]
  {
  }

  // ---------------------------------------------------------------------------
  // Prefixes, suffixes, substrings

  /** Concatenation regroups freely; stated once so that proofs need not rediscover it. */
  lemma ConcatAssoc<T>(a: seq<T>, b: seq<T>, c: seq<T>)
    ensures a + (b + c) == (a + b) + c
  {
  }

  predicate StartsWith(s: string, p: string) {
    |p| <= |s| && s[..|p|] == p
  }

  predicate EndsWith(s: string, p: string) {
    |p| <= |s| && s[|s| - |p|..] == p
  }

  /** `p` occurs in `s` starting at index `i`. */
  predicate OccursAt(s: string, p: string, i: nat) {
    i + |p| <= |s| && s[i..i + |p|] == p
  }

  /** Python's `p in s` for strings. */
  predicate Contains(s: string, p: string) {
    exists i: nat :: i <= |s| && OccursAt(s, p, i)
  }

  /** If `a + b` occurs in `s`, so does `b`. */
  lemma ContainsSuffixOf(s: string, a: string, b: string)
    requires Contains(s, a + b)
    ensures Contains(s, b)
  {
    var i: nat :| i <= |s| && OccursAt(s, a + b, i);
    assert s[i + |a|..i + |a| + |b|] == (a + b)[|a|..];
    assert OccursAt(s, b, i + |a|);
  }

  /** A one-character string occurs in `s` exactly when the character does. */
  lemma ContainsChar(s: string, c: char)
    ensures Contains(s, [c]) <==> c in s
  {
    if c in s {
      var i :| 0 <= i < |s| && s[i] == c;
      assert OccursAt(s, [c], i);
    }
    if Contains(s, [c]) {
      var i: nat :| i <= |s| && OccursAt(s, [c], i);
      assert s[i] == s[i..i + 1][0];
    }
  }

  // ---------------------------------------------------------------------------
  // Deleting substrings: `s.replace(p, '')`

  /**
   * Python's `s.replace(p, '')` for a non-empty `p`: scans left to right and
   * deletes every non-overlapping occurrence of `p`.
   */
  function RemoveAll(s: string, p: string): (r: string)
    requires |p| > 0
    ensures |r| <= |s|
    ensures forall i :: 0 <= i < |r| ==> r[i] in s
    decreases |s|
  {
    if |s| < |p| then s
    else if s[..|p|] == p then RemoveAll(s[|p|..], p)
    else [s[0]] + RemoveAll(s[1..], p)
  }

  /** Removing a pattern with a character absent from `s` leaves `s` as it is. */
  lemma {:induction false} RemoveAllAbsent(s: string, p: string, k: nat)
    requires |p| > 0 && k < |p| && p[k] !in s
    ensures RemoveAll(s, p) == s
    decreases |s|
  {
    if |s| < |p| {
    } else {
      assert s[..|p|][k] == s[k];
      assert s[..|p|] != p;
      RemoveAllAbsent(s[1..], p, k);
      assert s == [s[0]] + s[1..];
    }
  }

  /** Deletes every occurrence of the character `c`. */
  function DeleteChar(s: string, c: char): (r: string)
    ensures c !in r
    ensures forall x :: x in r <==> x in s && x != c
  {
    if s == [] then []
    else (if s[0] == c then [] else [s[0]]) + DeleteChar(s[1..], c)
  }

  /** `s.replace(c, '')` for a one-character pattern is DeleteChar. */
  lemma {:induction false} RemoveSingleIsDelete(s: string, c: char)
    ensures RemoveAll(s, [c]) == DeleteChar(s, c)
    decreases |s|
  {
    if s != [] {
      RemoveSingleIsDelete(s[1..], c);
      assert s[..1] == [s[0]];
    }
  }

  lemma {:induction false} DeleteAbsent(s: string, c: char)
    requires c !in s
    ensures DeleteChar(s, c) == s
  {
    if s != [] {
      DeleteAbsent(s[1..], c);
      assert s == [s[0]] + s[1..];
    }
  }

  lemma {:induction false} DeleteAppend(a: string, b: string, c: char)
    ensures DeleteChar(a + b, c) == DeleteChar(a, c) + DeleteChar(b, c)
  {
    if a != [] {
      DeleteAppend(a[1..], b, c);
      assert (a + b)[1..] == a[1..] + b;
    } else {
      assert a + b == b;
    }
  }

  /** Deleting two characters gives the same string in either order. */
  lemma {:induction false} DeleteCommutes(s: string, a: char, b: char)
    ensures DeleteChar(DeleteChar(s, a), b) == DeleteChar(DeleteChar(s, b), a)
  {
    if s != [] {
      var head := if s[0] == a then [] else [s[0]];
      DeleteAppend(head, DeleteChar(s[1..], a), b);
      var head' := if s[0] == b then [] else [s[0]];
      DeleteAppend(head', DeleteChar(s[1..], b), a);
      DeleteCommutes(s[1..], a, b);
    }
  }

  /** Lower-casing commutes with deleting a caseless character. */
  lemma {:induction false} LowerDeleteCommute(s: string, c: char)
    requires IsCaseless(c)
    ensures Lower(DeleteChar(s, c)) == DeleteChar(Lower(s), c)
  {
    if s != [] {
      LowerDeleteCommute(s[1..], c);
      assert Lower(s) == [LowerChar(s[0])] + Lower(s[1..]);
      var head := if s[0] == c then [] else [s[0]];
      assert DeleteChar(s, c) == head + DeleteChar(s[1..], c);
      assert Lower(head + DeleteChar(s[1..], c)) == Lower(head) + Lower(DeleteChar(s[1..], c));
      assert LowerChar(s[0]) == c <==> s[0] == c;
    }
  }

  /** `s.replace(a, b)` for single characters, position by position. */
  function ReplaceChar(s: string, a: char, b: char): (r: string)
    ensures |r| == |s|
    ensures forall i :: 0 <= i < |s| ==> r[i] == (if s[i] == a then b else s[i])
  {
    seq(|s|, i requires 0 <= i < |s| => if s[i] == a then b else s[i])
  }

  /**
   * No `a` is left (unless `b` is `a`), a string without `a` is unchanged,
   * replacing twice is replacing once, and every `b` of the result is an
   * `a` or a `b` of the input.
   */
  lemma ReplaceCharFacts(s: string, a: char, b: char)
    ensures a != b ==> a !in ReplaceChar(s, a, b)
    ensures a !in s ==> ReplaceChar(s, a, b) == s
    ensures ReplaceChar(ReplaceChar(s, a, b), a, b) == ReplaceChar(s, a, b)
    ensures forall i :: 0 <= i < |s| && ReplaceChar(s, a, b)[i] == b ==> s[i] == a || s[i] == b
  {
    var r := ReplaceChar(s, a, b);
    if a != b {
      assert forall i :: 0 <= i < |r| ==> r[i] != a;
    }
  }

  // ---------------------------------------------------------------------------
  // strip()

  /** The characters Python's `str.isspace()` accepts. */
  predicate IsSpace(c: char) {
    ('\t' <= c <= '\r') || ('\U{001C}' <= c <= ' ') || c == '\U{0085}' || c == '\U{00A0}'
    || c == '\U{1680}' || ('\U{2000}' <= c <= '\U{200A}') || c == '\U{2028}' || c == '\U{2029}'
    || c == '\U{202F}' || c == '\U{205F}' || c == '\U{3000}'
  }

  /** The first index at or after `i` that holds a non-space, or `|s|`. */
  function SkipSpaces(s: string, i: nat): (k: nat)
    requires i <= |s|
    ensures i <= k <= |s|
    ensures forall j :: i <= j < k ==> IsSpace(s[j])
    ensures k < |s| ==> !IsSpace(s[k])
    decreases |s| - i
  {
    if i == |s| || !IsSpace(s[i]) then i else SkipSpaces(s, i + 1)
  }

  /** The end of `s[lo..j]` once trailing spaces are dropped. */
  function DropTrailingSpaces(s: string, lo: nat, j: nat): (e: nat)
    requires lo <= j <= |s|
    ensures lo <= e <= j
    ensures forall k :: e <= k < j ==> IsSpace(s[k])
    ensures e > lo ==> !IsSpace(s[e - 1])
    decreases j
  {
    if j == lo || !IsSpace(s[j - 1]) then j else DropTrailingSpaces(s, lo, j - 1)
  }

  /** Where the text `strip()` keeps begins and ends. */
  function StripBounds(s: string): (w: (nat, nat))
    ensures w.0 <= w.1 <= |s|
    ensures forall k :: 0 <= k < w.0 ==> IsSpace(s[k])
    ensures forall k :: w.1 <= k < |s| ==> IsSpace(s[k])
    ensures w.0 < |s| ==> w.0 < w.1 && !IsSpace(s[w.0]) && !IsSpace(s[w.1 - 1])
  {
    var a := SkipSpaces(s, 0);
    var b := DropTrailingSpaces(s, a, |s|);
    assert a < |s| ==> b > a;
    (a, b)
  }

  /** `str.strip()`: drops leading and trailing whitespace. */
  function Strip(s: string): (r: string)
    ensures (forall k :: 0 <= k < |s| ==> IsSpace(s[k])) <==> r == []
    ensures r != [] ==> !IsSpace(r[0]) && !IsSpace(r[|r| - 1])
    ensures (s == [] || (!IsSpace(s[0]) && !IsSpace(s[|s| - 1]))) ==> r == s
    ensures forall i :: 0 <= i < |r| ==> r[i] in s
    ensures exists a, b ::
              0 <= a <= b <= |s| && r == s[a..b]
              && (forall k :: 0 <= k < a ==> IsSpace(s[k])) && (forall k :: b <= k < |s| ==> IsSpace(s[k]))
  {
    var (a, b) := StripBounds(s);
    StripWindow(s, a, b);
    s[a..b]
  }

  /**
   * The window `s[a..b]` between a run of leading and a run of trailing
   * whitespace, with a non-space at each end unless it is empty, is what
   * `strip()` promises.
   */
  lemma StripWindow(s: string, a: nat, b: nat)
    requires a <= b <= |s|
    requires forall k :: 0 <= k < a ==> IsSpace(s[k])
    requires forall k :: b <= k < |s| ==> IsSpace(s[k])
    requires a < |s| ==> a < b && !IsSpace(s[a]) && !IsSpace(s[b - 1])
    ensures (forall k :: 0 <= k < |s| ==> IsSpace(s[k])) <==> s[a..b] == []
    ensures s[a..b] != [] ==> !IsSpace(s[a..b][0]) && !IsSpace(s[a..b][b - a - 1])
    ensures (s == [] || (!IsSpace(s[0]) && !IsSpace(s[|s| - 1]))) ==> s[a..b] == s
    ensures forall i :: 0 <= i < b - a ==> s[a..b][i] in s
  {
    SliceIn(s, a, b);
    if a < |s| {
      assert s[a..b][0] == s[a] && s[a..b][b - a - 1] == s[b - 1];
    }
  }

  /** Every character of a slice is a character of the whole. */
  lemma SliceIn(s: string, a: nat, b: nat)
    requires a <= b <= |s|
    ensures forall i :: 0 <= i < b - a ==> s[a..b][i] in s
  {
    forall i | 0 <= i < b - a
      ensures s[a..b][i] in s
    {
      assert s[a..b][i] == s[a + i];
    }
  }

  // ---------------------------------------------------------------------------
  // str(n) for naturals

  function DigitChar(d: nat): (c: char)
    requires d < 10
    ensures '0' <= c <= '9'
  {
    ('0' as int + d) as char
  }

  /** The decimal value of a string of digits. */
  function DigitsValue(s: string): nat
    requires forall i :: 0 <= i < |s| ==> '0' <= s[i] <= '9'
  {
    if s == [] then 0
    else DigitsValue(s[..|s| - 1]) * 10 + (s[|s| - 1] as int - '0' as int)
  }

  /** `str(n)` for a natural number: its decimal digits, with no leading zero. */
  function NatToString(n: nat): (r: string)
    ensures |r| >= 1
    ensures forall i :: 0 <= i < |r| ==> '0' <= r[i] <= '9'
    ensures n == 0 ==> r == "0"
    ensures n > 0 ==> r[0] != '0'
    decreases n
  {
    if n < 10 then [DigitChar(n)] else NatToString(n / 10) + [DigitChar(n % 10)]
  }

  /** Reading the digits of `str(n)` back gives `n`. */
  lemma {:induction false} NatToStringRoundTrip(n: nat)
    ensures DigitsValue(NatToString(n)) == n
    decreases n
  {
    var r := NatToString(n);
    if n >= 10 {
      NatToStringRoundTrip(n / 10);
      assert r[..|r| - 1] == NatToString(n / 10);
    }
  }

  // ---------------------------------------------------------------------------
  // Lexicographic order of strings (Python's `<=` on `str`)

  predicate StrLe(a: string, b: string)
    decreases |a|
  {
    a == [] || (b != [] && (a[0] < b[0] || (a[0] == b[0] && StrLe(a[1..], b[1..]))))
  }

  lemma {:induction false} StrLeTotal(a: string, b: string)
    ensures StrLe(a, b) || StrLe(b, a)
    decreases |a|
  {
    if a != [] && b != [] && a[0] == b[0] {
      StrLeTotal(a[1..], b[1..]);
    }
  }

  lemma {:induction false} StrLeTransitive(a: string, b: string, c: string)
    requires StrLe(a, b) && StrLe(b, c)
    ensures StrLe(a, c)
    decreases |a|
  {
    if a != [] && a[0] == b[0] && b[0] == c[0] {
      StrLeTransitive(a[1..], b[1..], c[1..]);
    }
  }
}
