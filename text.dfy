/**
 * Whitespace trimming as done by Python's `str.strip()` with no argument:
 * the longest run of whitespace is removed from the left end, then from the
 * right end. Whitespace is the set of code points `str.isspace()` accepts.
 */
module Text {

  /** The characters Python's `str.strip()` removes by default. */
  predicate IsWhitespace(c: char)
  {
    var n := c as int;
    || 9 <= n <= 13        // \t \n \v \f \r
    || 28 <= n <= 32       // the four information separators and ' '
    || n == 0x85 || n == 0xA0 || n == 0x1680
    || 0x2000 <= n <= 0x200A
    || n == 0x2028 || n == 0x2029 || n == 0x202F || n == 0x205F || n == 0x3000
  }

  /** Every character of `s` is whitespace (also true of the empty string). */
  ghost predicate AllWhitespace(s: string)
  {
    forall i :: 0 <= i < |s| ==> IsWhitespace(s[i])
  }

  /** `lstrip()`. */
  function TrimLeft(s: string): string
  {
    if s != [] && IsWhitespace(s[0]) then TrimLeft(s[1..]) else s
  }

  /** `lstrip()` removes the longest whitespace prefix. */
  lemma {:induction false} TrimLeftSpec(s: string)
    ensures var r := TrimLeft(s);
            && |r| <= |s| && r == s[|s| - |r|..]
            && AllWhitespace(s[..|s| - |r|])
            && (r == [] || !IsWhitespace(r[0]))
  {
    if s != [] && IsWhitespace(s[0]) {
      TrimLeftSpec(s[1..]);
      var r := TrimLeft(s[1..]);
      assert s[..|s| - |r|] == [s[0]] + s[1..][..|s| - 1 - |r|];
    }
  }

  /** `rstrip()`. */
  function TrimRight(s: string): string
  {
    if s != [] && IsWhitespace(s[|s| - 1]) then TrimRight(s[..|s| - 1]) else s
  }

  /** `rstrip()` removes the longest whitespace suffix. */
  lemma {:induction false} TrimRightSpec(s: string)
    ensures var r := TrimRight(s);
            && |r| <= |s| && r == s[..|r|]
            && AllWhitespace(s[|r|..])
            && (r == [] || !IsWhitespace(r[|r| - 1]))
  {
    if s != [] && IsWhitespace(s[|s| - 1]) {
      TrimRightSpec(s[..|s| - 1]);
      var r := TrimRight(s[..|s| - 1]);
      assert s[|r|..] == s[..|s| - 1][|r|..] + [s[|s| - 1]];
    }
  }

  /** `s` neither starts nor ends with whitespace. */
  predicate Unpadded(s: string)
  {
    s == [] || (!IsWhitespace(s[0]) && !IsWhitespace(s[|s| - 1]))
  }

  /**
   * `r` is the slice of `s` starting at `lo`, with only whitespace outside it,
   * and `r` neither starts nor ends with whitespace.
   */
  ghost predicate StripAt(r: string, s: string, lo: int)
  {
    && 0 <= lo <= |s| - |r| && r == s[lo..lo + |r|]
    && AllWhitespace(s[..lo]) && AllWhitespace(s[lo + |r|..])
    && Unpadded(r)
  }

  /** `r` is `s` with only whitespace cut from either end: the defining property of `strip()`. */
  ghost predicate IsStripOf(r: string, s: string)
  {
    exists lo :: StripAt(r, s, lo)
  }

  /** `strip()`: `lstrip()`, then `rstrip()`. */
  function Strip(s: string): (r: string)
    ensures |r| <= |s|
  {
    TrimLeftSpec(s);
    TrimRightSpec(TrimLeft(s));
    TrimRight(TrimLeft(s))
  }

  /** What `strip()` returns: the strip of `s`, which is empty exactly when `s` is all whitespace. */
  lemma StripSpec(s: string)
    ensures IsStripOf(Strip(s), s)
    ensures Strip(s) == [] <==> AllWhitespace(s)
  {
    var t := TrimLeft(s);
    var r := TrimRight(t);
    TrimLeftSpec(s);
    TrimRightSpec(t);
    var lo := |s| - |t|;
    assert r == s[lo..lo + |r|];
    assert s[lo + |r|..] == t[|r|..];
    assert StripAt(r, s, lo);
    StripAtEmpty(s, r, lo);
  }

  /** Trimming leaves no whitespace at either end. */
  lemma StripUnpads(s: string)
    ensures Unpadded(Strip(s))
  {
    StripSpec(s);
    var lo :| StripAt(Strip(s), s, lo);
  }

  /** A non-empty strip begins at the first non-whitespace character of `s`. */
  lemma StripAtStart(s: string, r1: string, lo1: int, r2: string, lo2: int)
    requires StripAt(r1, s, lo1) && StripAt(r2, s, lo2) && r1 != [] && r2 != []
    ensures lo1 == lo2
  {
    assert s[lo1] == r1[0] && s[lo2] == r2[0];
  }

  /** A non-empty strip ends at the last non-whitespace character of `s`. */
  lemma StripAtEnd(s: string, r1: string, lo1: int, r2: string, lo2: int)
    requires StripAt(r1, s, lo1) && StripAt(r2, s, lo2) && r1 != [] && r2 != []
    ensures lo1 + |r1| == lo2 + |r2|
  {
    assert s[lo1 + |r1| - 1] == r1[|r1| - 1] && s[lo2 + |r2| - 1] == r2[|r2| - 1];
  }

  /** A strip is empty exactly when `s` is all whitespace. */
  lemma StripAtEmpty(s: string, r: string, lo: int)
    requires StripAt(r, s, lo)
    ensures r == [] <==> AllWhitespace(s)
  {
    if r == [] {
      assert s == s[..lo] + s[lo..];
    } else {
      assert r[0] == s[lo];
    }
  }

  /** Only one string is a strip of `s`, so `IsStripOf` defines `Strip` completely. */
  lemma StripUnique(s: string, r1: string, r2: string)
    requires IsStripOf(r1, s) && IsStripOf(r2, s)
    ensures r1 == r2
  {
    var lo1 :| StripAt(r1, s, lo1);
    var lo2 :| StripAt(r2, s, lo2);
    StripAtEmpty(s, r1, lo1);
    StripAtEmpty(s, r2, lo2);
    if r1 != [] && r2 != [] {
      StripAtStart(s, r1, lo1, r2, lo2);
      StripAtEnd(s, r1, lo1, r2, lo2);
    }
  }

  /** A string with no whitespace at either end is its own strip. */
  lemma StripUnpadded(s: string)
    requires Unpadded(s)
    ensures Strip(s) == s
  {
    assert StripAt(s, s, 0) by {
      assert s == s[0..0 + |s|] && s[..0] == [] && s[0 + |s|..] == [];
    }
    StripSpec(s);
    StripUnique(s, Strip(s), s);
  }

  /** Stripping a stripped string changes nothing. */
  lemma StripIdempotent(s: string)
    ensures Strip(Strip(s)) == Strip(s)
  {
    StripUnpads(s);
    StripUnpadded(Strip(s));
  }
}
