/**
 * PostgreSQL's `LIKE` and `ILIKE` pattern matching: `%` matches any run of
 * characters, `_` any single character, `\` makes the next pattern character
 * literal (the default escape, since no ESCAPE clause is given), and every
 * other character matches itself.
 */
module Like {
  import opened Text

  /** The characters with a meaning in a pattern: the two wildcards and the escape. */
  predicate IsWildcard(c: char) {
    c == '%' || c == '_' || c == '\\'
  }

  predicate WildcardFree(q: string) {
    forall i :: 0 <= i < |q| ==> !IsWildcard(q[i])
  }

  /**
   * `t LIKE p`.  A pattern ending in a lone `\` is an error in PostgreSQL;
   * here it matches nothing, and ContainsWellEscaped shows that the patterns
   * the endpoints build never end that way.
   */
  predicate Like(t: string, p: string)
    decreases |p|, |t|
  {
    if p == [] then t == []
    else if p[0] == '%' then Like(t, p[1..]) || (t != [] && Like(t[1..], p))
    else if p[0] == '\\' then |p| >= 2 && t != [] && p[1] == t[0] && Like(t[1..], p[2..])
    else t != [] && (p[0] == '_' || p[0] == t[0]) && Like(t[1..], p[1..])
  }

  /** `t ILIKE p`: LIKE after folding both sides to lower case. */
  predicate ILike(t: string, p: string) {
    Like(Lower(t), Lower(p))
  }

  /** The pattern built from user input by `f"%{s}%"`. */
  function Contains(s: string): (p: string)
    ensures |p| == |s| + 2 && p[0] == '%' && p[|p| - 1] == '%'
  {
    "%" + s + "%"
  }

  /** Read left to right, every escape in p is followed by the character it escapes. */
  predicate WellEscaped(p: string)
    decreases |p|
  {
    if p == [] then true
    else if p[0] == '\\' then |p| >= 2 && WellEscaped(p[2..])
    else WellEscaped(p[1..])
  }

  /** Whatever the input, `s || '%'` does not end in a lone escape: a final `\` of s escapes the `%`. */
  lemma {:induction false} SuffixWellEscaped(s: string)
    ensures WellEscaped(s + "%")
    decreases |s|
  {
    if s != [] {
      if s[0] == '\\' && |s| >= 2 {
        assert (s + "%")[2..] == s[2..] + "%";
        SuffixWellEscaped(s[2..]);
      } else if s[0] != '\\' {
        assert (s + "%")[1..] == s[1..] + "%";
        SuffixWellEscaped(s[1..]);
      } else {
        assert (s + "%")[2..] == [];
      }
    }
  }

  /** The patterns `f"%{s}%"` never make PostgreSQL raise, for any input s. */
  lemma ContainsWellEscaped(s: string)
    ensures WellEscaped(Contains(s))
  {
    assert Contains(s)[1..] == s + "%";
    SuffixWellEscaped(s);
  }

  lemma {:induction false} PercentMatchesAll(t: string)
    ensures Like(t, "%")
    decreases |t|
  {
    if t != [] {
      PercentMatchesAll(t[1..]);
    }
  }

  /** For a q free of wildcards and escapes, `t LIKE q || '%'` holds exactly when q is a prefix of t. */
  lemma {:induction false} PrefixPattern(t: string, q: string)
    requires WildcardFree(q)
    ensures Like(t, q + "%") <==> q <= t
    decreases |q|
  {
    if q == [] {
      assert q + "%" == "%";
      PercentMatchesAll(t);
    } else {
      assert (q + "%")[1..] == q[1..] + "%";
      if t != [] {
        PrefixPattern(t[1..], q[1..]);
        assert q <= t <==> (q[0] == t[0] && q[1..] <= t[1..]);
      }
    }
  }

  /** For a q free of wildcards and escapes, `t LIKE '%' || q || '%'` is the substring test. */
  lemma {:induction false} ContainsPattern(t: string, q: string)
    requires WildcardFree(q)
    ensures Like(t, Contains(q)) <==> IsSubstring(q, t)
    decreases |t|
  {
    assert Contains(q)[1..] == q + "%";
    PrefixPattern(t, q);
    if t != [] {
      ContainsPattern(t[1..], q);
    }
  }

  lemma LowerKeepsWildcardFree(q: string)
    requires WildcardFree(q)
    ensures WildcardFree(Lower(q))
  {
  }

  /**
   * The endpoints' substring filters: for input without `%`, `_` or `\`,
   * `column ILIKE '%input%'` holds exactly when the lower-cased input occurs in
   * the lower-cased column.
   */
  lemma ILikeContains(column: string, input: string)
    requires WildcardFree(input)
    ensures ILike(column, Contains(input)) <==> IsSubstring(Lower(input), Lower(column))
  {
    assert Lower(Contains(input)) == Contains(Lower(input));
    ContainsPattern(Lower(column), Lower(input));
  }

  /** User input is not escaped, so `_` in a filter matches any character. */
  lemma UnderscoreIsWildcard()
    ensures ILike("Abc", Contains("a_c"))
    ensures !IsSubstring("a_c", "abc")
  {
    assert Lower("Abc") == "abc";
    assert Lower(Contains("a_c")) == "%a_c%";
    assert Like("abc", "a_c%") by {
      assert Like("", "%") by { PercentMatchesAll(""); }
    }
    assert !IsSubstring("a_c", "abc") by {
      assert !("a_c" <= "abc");
      assert "abc"[1..] == "bc";
      ShortNotSubstring("a_c", "bc");
    }
  }

  /**
   * A backslash in the input escapes the next character: the filter `a\b`
   * matches the text "ab" and not the text `a\b` that holds the backslash.
   */
  lemma BackslashEscapes()
    ensures ILike("ab", Contains("a\\b"))
    ensures !ILike("a\\b", Contains("a\\b"))
  {
    assert Lower("ab") == "ab";
    assert Lower("a\\b") == "a\\b";
    assert Lower(Contains("a\\b")) == "%a\\b%";
    assert Like("ab", "a\\b%") by {
      assert "a\\b%"[2..] == "b%";
      assert "b%"[1..] == "%";
      PercentMatchesAll("");
    }
    assert !Like("a\\b", "%a\\b%") by {
      var q := "a\\b%";
      assert "%a\\b%"[1..] == q && q[1..] == "\\b%";
      assert "a\\b"[1..] == "\\b" && "\\b"[1..] == "b" && "b"[1..] == "";
      assert !Like("", q) && !Like("b", q) && !Like("\\b", q) && !Like("a\\b", q);
      assert !Like("", "%a\\b%");
      assert !Like("b", "%a\\b%");
      assert !Like("\\b", "%a\\b%");
    }
  }
}
