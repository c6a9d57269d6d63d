/** `normalize_name` (parser.py:13-15): the key of the estimate cache. */
module Normalize {
  import opened Text

  /** "б/к" (tubeless), the first domain-specific marker the key drops. */
  const TubelessMark: string := "\U{0431}/\U{043A}"
  /** "др" (abbreviation of "other"), the second domain-specific marker. */
  const OtherMark: string := "\U{0434}\U{0440}"

  /** The name lower-cased, then with spaces, hyphens, slashes, "б/к" and "др" deleted, in that order. */
  function NormalizeName(name: string): string {
    RemoveAll(RemoveAll(RemoveAll(RemoveAll(RemoveAll(Lower(name), " "), "-"), "/"), TubelessMark), OtherMark)
  }

  /** The separator-free, lower-cased core the last two steps start from. */
  function Separated(name: string): string {
    DeleteChar(DeleteChar(DeleteChar(Lower(name), ' '), '-'), '/')
  }

  lemma {:induction false} SeparatedIsFirstSteps(name: string)
    ensures RemoveAll(RemoveAll(RemoveAll(Lower(name), " "), "-"), "/") == Separated(name)
  {
    RemoveSingleIsDelete(Lower(name), ' ');
    RemoveSingleIsDelete(DeleteChar(Lower(name), ' '), '-');
    RemoveSingleIsDelete(DeleteChar(DeleteChar(Lower(name), ' '), '-'), '/');
  }

  /**
   * The "б/к" step never changes anything: every '/' is already gone by then,
   * so the key equals the one without that step.
   */
  lemma TubelessStepIsNoOp(name: string)
    ensures RemoveAll(Separated(name), TubelessMark) == Separated(name)
    ensures NormalizeName(name) == RemoveAll(Separated(name), OtherMark)
  {
    SeparatedIsFirstSteps(name);
    RemoveAllAbsent(Separated(name), TubelessMark, 1);
  }

  /** The key is lower-case and holds no space, hyphen or slash. */
  lemma NormalizeNameShape(name: string)
    ensures IsLowered(NormalizeName(name))
    ensures ' ' !in NormalizeName(name) && '-' !in NormalizeName(name) && '/' !in NormalizeName(name)
  {
    TubelessStepIsNoOp(name);
    var k := NormalizeName(name);
    forall i | 0 <= i < |k|
      ensures !IsUpper(k[i]) && k[i] != ' ' && k[i] != '-' && k[i] != '/'
    {
      assert k[i] in Separated(name);
    }
  }

  lemma DeleteTwice(s: string, c: char)
    ensures DeleteChar(DeleteChar(s, c), c) == DeleteChar(s, c)
  {
    DeleteAbsent(DeleteChar(s, c), c);
  }

  /** Dropping spaces, hyphens or slashes from a name does not change its key. */
  lemma NormalizeIgnoresSeparator(name: string, c: char)
    requires c == ' ' || c == '-' || c == '/'
    ensures NormalizeName(DeleteChar(name, c)) == NormalizeName(name)
  {
    var l := Lower(name);
    LowerDeleteCommute(name, c);
    TubelessStepIsNoOp(name);
    TubelessStepIsNoOp(DeleteChar(name, c));
    if c == ' ' {
      DeleteTwice(l, ' ');
    } else if c == '-' {
      DeleteCommutes(l, '-', ' ');
      DeleteTwice(DeleteChar(l, ' '), '-');
    } else {
      DeleteCommutes(l, '/', ' ');
      DeleteCommutes(DeleteChar(l, ' '), '/', '-');
      DeleteTwice(DeleteChar(DeleteChar(l, ' '), '-'), '/');
    }
  }

  /** Names that differ only in letter case share a key. */
  lemma NormalizeIgnoresCase(name: string)
    ensures NormalizeName(Lower(name)) == NormalizeName(name)
  {
    LowerIsLowered(name);
  }

  /** A lower-case name without separators is its own separator-free core. */
  lemma SeparatedFixed(s: string)
    requires IsLowered(s) && ' ' !in s && '-' !in s && '/' !in s
    ensures Separated(s) == s
  {
    assert Lower(s) == s;
    DeleteAbsent(s, ' ');
    DeleteAbsent(s, '-');
    DeleteAbsent(s, '/');
  }

  /** Deleting "др" from "ддрр" in one pass leaves "др". */
  lemma OtherMarkPass(s: string)
    requires s == "\U{0434}\U{0434}\U{0440}\U{0440}"
    ensures RemoveAll(s, OtherMark) == OtherMark
  {
    assert s[..2] != OtherMark by {
      assert s[..2][1] != OtherMark[1];
    }
    var t := s[1..];
    assert t[..2] == OtherMark;
    var u := t[2..];
    assert RemoveAll(u, OtherMark) == u;
    assert RemoveAll(t, OtherMark) == u;
    assert [s[0]] + u == OtherMark;
  }

  /**
   * A single `replace` pass can create a new "др": the key of "ддрр" is "др",
   * so a key may still contain the marker and is not always a fixed point.
   */
  lemma OtherMarkCanSurvive(s: string)
    requires s == "\U{0434}\U{0434}\U{0440}\U{0440}"
    ensures NormalizeName(s) == OtherMark
  {
    TubelessStepIsNoOp(s);
    assert IsLowered(s);
    SeparatedFixed(s);
    OtherMarkPass(s);
  }
}
