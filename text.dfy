/**
 * String helpers used by the telemetry extractor: Python's `str.strip()`,
 * `str.lower()`, `str.capitalize()`, the namespace stripping
 * `tag.split("}")[-1]`, and the substring test `pat in s`.
 */
module Text {

  /** Python's `str.isspace()` for one code point. */
  predicate IsSpace(c: char)
  {
    var n := c as int;
    (9 <= n <= 13) || (28 <= n <= 32) || n == 0x85 || n == 0xA0 || n == 0x1680
    || (0x2000 <= n <= 0x200A) || n == 0x2028 || n == 0x2029 || n == 0x202F
    || n == 0x205F || n == 0x3000
  }

  predicate AllSpace(s: string)
  {
    forall i :: 0 <= i < |s| ==> IsSpace(s[i])
  }

  /** Leading whitespace removed: what is dropped is all whitespace, what is kept starts with a non-space. */
  function TrimStart(s: string): (r: string)
    ensures |r| <= |s| && r == s[|s| - |r|..]
    ensures AllSpace(s[..|s| - |r|])
    ensures r != [] ==> !IsSpace(r[0])
    decreases |s|
  {
    if s != [] && IsSpace(s[0]) then TrimStart(s[1..]) else s
  }

  /** Trailing whitespace removed. */
  function TrimEnd(s: string): (r: string)
    ensures |r| <= |s| && r == s[..|r|]
    ensures AllSpace(s[|r|..])
    ensures r != [] ==> !IsSpace(r[|r| - 1])
    decreases |s|
  {
    if s != [] && IsSpace(s[|s| - 1]) then
      var r := TrimEnd(s[..|s| - 1]);
      assert s[|r|..] == s[..|s| - 1][|r|..] + [s[|s| - 1]];
      r
    else s
  }

  /** `r` is the infix of `s` starting at `i`, and everything around it is whitespace. */
  predicate StrippedAt(s: string, r: string, i: int)
  {
    0 <= i <= |s| - |r| && r == s[i..i + |r|] && AllSpace(s[..i]) && AllSpace(s[i + |r|..])
  }

  /** Python's `s.strip()`: the infix of `s` left once whitespace is removed at both ends. */
  function Strip(s: string): (r: string)
    ensures exists i :: StrippedAt(s, r, i)
    ensures r != [] ==> !IsSpace(r[0]) && !IsSpace(r[|r| - 1])
  {
    var t := TrimStart(s);
    var r := TrimEnd(t);
    StrippedAtSuffixPrefix(s, t, r);
    r
  }

  /** Whitespace cut from the front of `s` to leave `t`, then from the back of `t` to leave `r`. */
  lemma StrippedAtSuffixPrefix(s: string, t: string, r: string)
    requires |t| <= |s| && t == s[|s| - |t|..] && AllSpace(s[..|s| - |t|])
    requires |r| <= |t| && r == t[..|r|] && AllSpace(t[|r|..])
    requires t != [] ==> !IsSpace(t[0])
    ensures StrippedAt(s, r, |s| - |t|)
    ensures r != [] ==> !IsSpace(r[0])
  {
    var i := |s| - |t|;
    assert s[i..i + |r|] == t[..|r|];
    assert s[i + |r|..] == t[|r|..];
  }

  /** A string is blank (`not s.strip()`) exactly when every character is whitespace. */
  lemma {:induction false} StripBlankIffAllSpace(s: string)
    ensures Strip(s) == [] <==> AllSpace(s)
  {
    var r := Strip(s);
    if r == [] {
      var i :| StrippedAt(s, r, i);
      forall k | 0 <= k < |s| ensures IsSpace(s[k]) {
        if k < i { assert s[..i][k] == s[k]; } else { assert s[i..][k - i] == s[k]; }
      }
    } else {
      var i :| StrippedAt(s, r, i);
      assert s[i] == r[0];
    }
  }

  /** Stripping twice is stripping once. */
  lemma {:induction false} StripIdempotent(s: string)
    ensures Strip(Strip(s)) == Strip(s)
  {
    var r := Strip(s);
    if r != [] {
      TrimStartNoop(r);
      TrimEndNoop(r);
    }
  }

  lemma TrimStartNoop(s: string)
    requires s != [] && !IsSpace(s[0])
    ensures TrimStart(s) == s
  {
  }

  lemma TrimEndNoop(s: string)
    requires s != [] && !IsSpace(s[|s| - 1])
    ensures TrimEnd(s) == s
  {
  }

  /** ASCII lower-casing of one character. */
  function LowerChar(c: char): char
  {
    if 'A' <= c <= 'Z' then (c as int + 32) as char else c
  }

  /** ASCII upper-casing of one character. */
  function UpperChar(c: char): char
  {
    if 'a' <= c <= 'z' then (c as int - 32) as char else c
  }

  /** Python's `s.lower()`, restricted to the ASCII letters. */
  function Lower(s: string): (r: string)
    ensures |r| == |s|
    ensures forall i :: 0 <= i < |s| ==> r[i] == LowerChar(s[i])
  {
    seq(|s|, i requires 0 <= i < |s| => LowerChar(s[i]))
  }

  /** Python's `a.lower() == b.lower()`, restricted to the ASCII letters. */
  predicate SameIgnoringCase(a: string, b: string)
    decreases |a|
  {
    |a| == |b| && (a == [] || (LowerChar(a[0]) == LowerChar(b[0]) && SameIgnoringCase(a[1..], b[1..])))
  }

  /** Comparing character by character ignoring case is comparing the lower-cased strings. */
  lemma {:induction false} SameIgnoringCaseIffLower(a: string, b: string)
    ensures SameIgnoringCase(a, b) <==> Lower(a) == Lower(b)
    decreases |a|
  {
    if |a| == |b| && a != [] {
      SameIgnoringCaseIffLower(a[1..], b[1..]);
      assert Lower(a) == [LowerChar(a[0])] + Lower(a[1..]);
      assert Lower(b) == [LowerChar(b[0])] + Lower(b[1..]);
    }
  }

  /** Python's `s.capitalize()`, restricted to the ASCII letters: first character upper, the rest lower. */
  function Capitalize(s: string): (r: string)
    ensures |r| == |s|
    ensures s != [] ==> r[0] == UpperChar(s[0]) && r[1..] == Lower(s[1..])
  {
    if s == [] then [] else [UpperChar(s[0])] + Lower(s[1..])
  }

  /** A string without upper-case ASCII letters is its own lower-case form. */
  lemma LowerNoUpper(s: string)
    requires forall i :: 0 <= i < |s| ==> !('A' <= s[i] <= 'Z')
    ensures Lower(s) == s
  {
  }

  /** Capitalising a string whose tail is already lower-case only raises its first letter. */
  lemma CapitalizeLowerTail(c: char, rest: string)
    requires Lower(rest) == rest
    ensures Capitalize([c] + rest) == [UpperChar(c)] + rest
  {
    assert ([c] + rest)[1..] == rest;
  }

  /** Capitalising a lower-case string only recases it: lower-casing the result gives the string back. */
  lemma CapitalizeRecases(s: string)
    ensures Lower(s) == s ==> Lower(Capitalize(s)) == s
  {
    if s != [] && Lower(s) == s {
      var r := Capitalize(s);
      assert Lower(r)[0] == LowerChar(UpperChar(s[0])) == s[0] by {
        assert LowerChar(s[0]) == s[0];
      }
      forall i | 1 <= i < |r| ensures Lower(r)[i] == s[i] {
        assert r[i] == Lower(s[1..])[i - 1] == LowerChar(s[i]);
        assert LowerChar(s[i]) == s[i];
      }
    }
  }

  /** Index of the last `}` among the first `n` characters of `tag`, or -1 when there is none. */
  function LastBrace(tag: string, n: nat): (i: int)
    requires n <= |tag|
    ensures -1 <= i < n
    ensures i >= 0 ==> tag[i] == '}'
    ensures forall j :: i < j < n ==> tag[j] != '}'
    decreases n
  {
    if n == 0 then -1 else if tag[n - 1] == '}' then n - 1 else LastBrace(tag, n - 1)
  }

  /**
   * `tag.split("}")[-1]`: the part of an ElementTree tag after the last `}`,
   * i.e. the local name once a `{namespace}` prefix is removed.
   */
  function LocalName(tag: string): string
  {
    tag[LastBrace(tag, |tag|) + 1..]
  }

  /**
   * The local name is the suffix of the tag that follows its last `}`: it
   * contains no `}`, and it is the whole tag when the tag has no `}`.
   */
  lemma LocalNameSpec(tag: string)
    ensures var r := LocalName(tag);
      && |r| <= |tag| && r == tag[|tag| - |r|..]
      && '}' !in r
      && (|r| < |tag| ==> tag[|tag| - |r| - 1] == '}')
  {
  }

  /** Python's `pat in s` for strings. */
  predicate Contains(s: string, pat: string)
    decreases |s|
  {
    |pat| <= |s| && (s[..|pat|] == pat || Contains(s[1..], pat))
  }

  /** `pat` occurs in `s` at position `i`. */
  predicate OccursAt(s: string, pat: string, i: int)
  {
    0 <= i <= |s| - |pat| && s[i..i + |pat|] == pat
  }

  /** `Contains` holds exactly when `pat` occurs at some position of `s`. */
  lemma {:induction false} ContainsIffOccurs(s: string, pat: string)
    ensures Contains(s, pat) <==> exists i :: OccursAt(s, pat, i)
    decreases |s|
  {
    if |pat| <= |s| && s[..|pat|] != pat {
      ContainsIffOccurs(s[1..], pat);
      if exists i :: OccursAt(s, pat, i) {
        var i :| OccursAt(s, pat, i);
        assert i != 0;
        assert s[1..][i - 1..i - 1 + |pat|] == pat;
        assert OccursAt(s[1..], pat, i - 1);
      }
      if Contains(s[1..], pat) {
        var j :| OccursAt(s[1..], pat, j);
        assert s[j + 1..j + 1 + |pat|] == pat;
        assert OccursAt(s, pat, j + 1);
      }
    } else if |pat| <= |s| {
      assert OccursAt(s, pat, 0);
    }
  }
}
