/**
 * String operations of Python's `str` that the system relies on: case mapping,
 * substring search, `split`, `strip`, `replace` and slicing.
 * Case mapping covers ASCII and the Latin-1 letters used in Portuguese names;
 * white space is Python's full set.
 */
module Text {

  predicate IsUpperLetter(c: char) {
    ('A' <= c <= 'Z') || ('\U{00C0}' <= c <= '\U{00DE}' && c != '\U{00D7}')
  }

  predicate IsLowerLetter(c: char) {
    ('a' <= c <= 'z') || ('\U{00E0}' <= c <= '\U{00FE}' && c != '\U{00F7}')
  }

  function LowerChar(c: char): char {
    if IsUpperLetter(c) then (c as int + 32) as char else c
  }

  function UpperChar(c: char): char {
    if IsLowerLetter(c) then (c as int - 32) as char else c
  }

  /** `s.lower()` */
  function Lower(s: string): (r: string)
    ensures |r| == |s|
    ensures forall i :: 0 <= i < |s| ==> r[i] == LowerChar(s[i])
  {
    seq(|s|, i requires 0 <= i < |s| => LowerChar(s[i]))
  }

  /** `s.upper()` */
  function Upper(s: string): (r: string)
    ensures |r| == |s|
    ensures forall i :: 0 <= i < |s| ==> r[i] == UpperChar(s[i])
  {
    seq(|s|, i requires 0 <= i < |s| => UpperChar(s[i]))
  }

  /** Upper-casing twice is upper-casing once. */
  lemma UpperIdempotent(s: string)
    ensures Upper(Upper(s)) == Upper(s)
  {
    forall i | 0 <= i < |s|
      ensures Upper(Upper(s))[i] == Upper(s)[i]
    {
      var c := s[i];
      assert Upper(s)[i] == UpperChar(c);
      assert !IsLowerLetter(UpperChar(c));
    }
  }

  /** `p in s` for strings: p occurs in s as a contiguous run. */
  predicate IsSubstring(p: string, s: string)
    decreases |s|
  {
    p <= s || (|s| > 0 && IsSubstring(p, s[1..]))
  }

  lemma {:induction false} ShortNotSubstring(p: string, s: string)
    requires |s| < |p|
    ensures !IsSubstring(p, s)
    decreases |s|
  {
    if |s| > 0 {
      ShortNotSubstring(p, s[1..]);
    }
  }

  /** A string that contains no `c` at all has no occurrence of the one-char string `[c]`. */
  lemma {:induction false} CharNotSubstring(c: char, s: string)
    requires c !in s
    ensures !IsSubstring([c], s)
    decreases |s|
  {
    if |s| > 0 {
      assert s[0] != c;
      CharNotSubstring(c, s[1..]);
    }
  }

  /** An occurrence in a prefix is an occurrence in the whole string. */
  lemma {:induction false} SubstringOfPrefix(p: string, s: string, n: nat)
    requires n <= |s|
    requires IsSubstring(p, s[..n])
    ensures IsSubstring(p, s)
    decreases n
  {
    if p <= s[..n] {
      assert s[..n] <= s;
    } else {
      assert s[..n][1..] == s[1..][..n - 1];
      SubstringOfPrefix(p, s[1..], n - 1);
    }
  }

  /** Truncating a string cannot create an occurrence. */
  lemma SliceToKeepsAbsence(p: string, s: string, n: int)
    requires !IsSubstring(p, s)
    ensures !IsSubstring(p, SliceTo(s, n))
  {
    if IsSubstring(p, SliceTo(s, n)) {
      SubstringOfPrefix(p, s, |SliceTo(s, n)|);
    }
  }

  function CountChar(s: string, c: char): nat {
    if s == [] then 0 else (if s[0] == c then 1 else 0) + CountChar(s[1..], c)
  }

  /** `s.split(sep)` for a one-character separator. */
  function Split(s: string, sep: char): (parts: seq<string>)
    ensures |parts| >= 1
    decreases |s|
  {
    if s == [] then [[]]
    else
      var rest := Split(s[1..], sep);
      if s[0] == sep then [[]] + rest else [[s[0]] + rest[0]] + rest[1..]
  }

  /** `sep.join(parts)` */
  function Join(parts: seq<string>, sep: char): string
    requires |parts| >= 1
  {
    if |parts| == 1 then parts[0] else parts[0] + [sep] + Join(parts[1..], sep)
  }

  /** Splitting gives one more part than there are separators. */
  lemma {:induction false} SplitCount(s: string, sep: char)
    ensures |Split(s, sep)| == CountChar(s, sep) + 1
    decreases |s|
  {
    if s != [] {
      SplitCount(s[1..], sep);
    }
  }

  /** No part of a split contains the separator. */
  lemma {:induction false} SplitPartsFree(s: string, sep: char)
    ensures forall i :: 0 <= i < |Split(s, sep)| ==> sep !in Split(s, sep)[i]
    decreases |s|
  {
    if s != [] {
      SplitPartsFree(s[1..], sep);
    }
  }

  /** Joining the parts with the separator gives the string back. */
  lemma {:induction false} SplitJoin(s: string, sep: char)
    ensures Join(Split(s, sep), sep) == s
    decreases |s|
  {
    if s != [] {
      var rest := Split(s[1..], sep);
      SplitJoin(s[1..], sep);
      if s[0] == sep {
        assert ([[]] + rest)[1..] == rest;
      } else {
        var parts := [[s[0]] + rest[0]] + rest[1..];
        if |rest| == 1 {
          assert parts == [[s[0]] + rest[0]];
        } else {
          assert parts[1..] == rest[1..];
          assert Join(rest, sep) == rest[0] + [sep] + Join(rest[1..], sep);
        }
      }
    }
  }

  /** The characters Python's `str.isspace` accepts, which are the ones `strip()` removes. */
  predicate IsSpace(c: char) {
    c == ' ' || ('\t' <= c <= '\r') || ('\U{001C}' <= c <= '\U{001F}') || c == '\U{0085}' || c == '\U{00A0}'
    || c == '\U{1680}' || ('\U{2000}' <= c <= '\U{200A}') || c == '\U{2028}' || c == '\U{2029}'
    || c == '\U{202F}' || c == '\U{205F}' || c == '\U{3000}'
  }

  function StripLeft(s: string): string
    decreases |s|
  {
    if s != [] && IsSpace(s[0]) then StripLeft(s[1..]) else s
  }

  function StripRight(s: string): string
    decreases |s|
  {
    if s != [] && IsSpace(s[|s| - 1]) then StripRight(s[..|s| - 1]) else s
  }

  /** `s.strip()` */
  function Strip(s: string): string {
    StripRight(StripLeft(s))
  }

  lemma {:induction false} StripLeftTrims(s: string)
    ensures StripLeft(s) == [] || !IsSpace(StripLeft(s)[0])
    ensures |StripLeft(s)| <= |s| && StripLeft(s) == s[|s| - |StripLeft(s)|..]
    ensures s == [] || !IsSpace(s[0]) ==> StripLeft(s) == s
    decreases |s|
  {
    if s != [] && IsSpace(s[0]) {
      StripLeftTrims(s[1..]);
    }
  }

  lemma {:induction false} StripRightTrims(s: string)
    ensures StripRight(s) == [] || !IsSpace(StripRight(s)[|StripRight(s)| - 1])
    ensures StripRight(s) <= s
    ensures s == [] || !IsSpace(s[|s| - 1]) ==> StripRight(s) == s
    decreases |s|
  {
    if s != [] && IsSpace(s[|s| - 1]) {
      StripRightTrims(s[..|s| - 1]);
    }
  }

  /**
   * `strip()` leaves neither leading nor trailing white space, and leaves a
   * string that has neither unchanged.
   */
  lemma StripTrims(s: string)
    ensures Strip(s) == [] || (!IsSpace(Strip(s)[0]) && !IsSpace(Strip(s)[|Strip(s)| - 1]))
    ensures s == [] || (!IsSpace(s[0]) && !IsSpace(s[|s| - 1])) ==> Strip(s) == s
  {
    var l := StripLeft(s);
    StripLeftTrims(s);
    StripRightTrims(l);
    if Strip(s) != [] {
      assert Strip(s)[0] == l[0];
    }
  }

  /** `s.replace(pat, rep)`: every non-overlapping occurrence, scanning left to right. */
  function ReplaceAll(s: string, pat: string, rep: string): string
    requires pat != []
    decreases |s|
  {
    if |s| < |pat| then s
    else if pat <= s then rep + ReplaceAll(s[|pat|..], pat, rep)
    else [s[0]] + ReplaceAll(s[1..], pat, rep)
  }

  /** `s.replace(pat, rep, 1)`: only the first occurrence. */
  function ReplaceFirst(s: string, pat: string, rep: string): string
    requires pat != []
    decreases |s|
  {
    if |s| < |pat| then s
    else if pat <= s then rep + s[|pat|..]
    else [s[0]] + ReplaceFirst(s[1..], pat, rep)
  }

  /** Removing a pattern never lengthens a string, and when it does not shorten it the pattern was absent. */
  lemma {:induction false} RemoveAllShrinks(s: string, pat: string)
    requires pat != []
    ensures |ReplaceAll(s, pat, "")| <= |s|
    ensures |ReplaceAll(s, pat, "")| == |s| ==> !IsSubstring(pat, s) && ReplaceAll(s, pat, "") == s
    decreases |s|
  {
    if |s| < |pat| {
      ShortNotSubstring(pat, s);
    } else if pat <= s {
      RemoveAllShrinks(s[|pat|..], pat);
    } else {
      RemoveAllShrinks(s[1..], pat);
      assert ReplaceAll(s, pat, "") == [s[0]] + ReplaceAll(s[1..], pat, "");
      if |ReplaceAll(s, pat, "")| == |s| {
        assert s == [s[0]] + s[1..];
      }
    }
  }

  /** Removing a pattern only deletes characters: every character of the result was in the input. */
  lemma {:induction false} RemoveAllKeepsChars(s: string, pat: string, c: char)
    requires pat != []
    requires c in ReplaceAll(s, pat, "")
    ensures c in s
    decreases |s|
  {
    if |s| < |pat| {
    } else if pat <= s {
      assert ReplaceAll(s, pat, "") == ReplaceAll(s[|pat|..], pat, "");
      RemoveAllKeepsChars(s[|pat|..], pat, c);
    } else {
      var rest := ReplaceAll(s[1..], pat, "");
      assert ReplaceAll(s, pat, "") == [s[0]] + rest;
      if c != s[0] {
        assert c in rest;
        RemoveAllKeepsChars(s[1..], pat, c);
      }
    }
  }

  /** Removing a one-character pattern removes every copy of that character. */
  lemma {:induction false} RemoveCharRemovesAll(s: string, c: char)
    ensures c !in ReplaceAll(s, [c], "")
    decreases |s|
  {
    if |s| >= 1 {
      RemoveCharRemovesAll(s[1..], c);
      if [c] <= s {
        assert ReplaceAll(s, [c], "") == ReplaceAll(s[1..], [c], "");
      } else {
        assert s[0] != c;
      }
    }
  }

  /** Python's `s[:n]` for any integer n (a negative n counts from the end). */
  function SliceTo(s: string, n: int): (r: string)
    ensures |r| <= |s| && r == s[..|r|]
  {
    if n >= 0 then s[..if n <= |s| then n else |s|]
    else if -n <= |s| then s[..|s| + n]
    else []
  }

  /** Python's `s[n:]` for any integer n (a negative n counts from the end). */
  function SliceFrom(s: string, n: int): (r: string)
    ensures |r| <= |s|
  {
    if n >= 0 then s[if n <= |s| then n else |s|..]
    else if -n <= |s| then s[|s| + n..]
    else s
  }
}
