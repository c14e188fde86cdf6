/** The pattern language of SQL `LIKE` and `ILIKE`, as the predicates of the
    where-clause use it: `%` matches any run of characters, `_` matches exactly
    one, and the default escape character `\` makes the next character literal.
    `ILIKE` compares after ASCII lower-casing of both sides. */
module Patterns {

  /** ASCII lower-casing of one character; every other character is unchanged. */
  function LowerChar(c: char): char
  {
    if 'A' <= c <= 'Z' then (c as int - 'A' as int + 'a' as int) as char else c
  }

  function Lower(s: string): (r: string)
    ensures |r| == |s|
    ensures forall i :: 0 <= i < |s| ==> r[i] == LowerChar(s[i])
  {
    seq(|s|, i requires 0 <= i < |s| => LowerChar(s[i]))
  }

  /** `x LIKE p`. A pattern that ends in a lone escape character is rejected by
      the store; here it simply matches nothing. */
  predicate Like(x: string, p: string)
    decreases |x| + |p|
  {
    if |p| == 0 then |x| == 0
    else if p[0] == '%' then Like(x, p[1..]) || (|x| > 0 && Like(x[1..], p))
    else if p[0] == '\\' then |p| >= 2 && |x| > 0 && x[0] == p[1] && Like(x[1..], p[2..])
    else |x| > 0 && (p[0] == '_' || x[0] == p[0]) && Like(x[1..], p[1..])
  }

  /** `x ILIKE p`. */
  predicate ILike(x: string, p: string)
  {
    Like(Lower(x), Lower(p))
  }

  /** The pattern `%s%` that the where-clause builds around a user's term. */
  function Surround(s: string): (r: string)
    ensures |r| == |s| + 2 && r[0] == '%' && r[|r| - 1] == '%'
    ensures r[1..|r| - 1] == s
  {
    "%" + s + "%"
  }

  /** `s` contains none of the characters `LIKE` gives a meaning to. */
  predicate Literal(s: string)
  {
    forall i :: 0 <= i < |s| ==> s[i] != '%' && s[i] != '_' && s[i] != '\\'
  }

  /** `s` occurs in `x` as a contiguous substring. */
  predicate Contains(x: string, s: string)
  {
    exists i :: 0 <= i <= |x| && s <= x[i..]
  }

  lemma {:induction false} PercentMatchesAll(x: string)
    ensures Like(x, "%")
    decreases |x|
  {
    if |x| > 0 {
      PercentMatchesAll(x[1..]);
    }
  }

  /** For a literal `s`, the pattern `s%` is exactly a prefix test. */
  lemma {:induction false} PrefixPattern(x: string, s: string)
    requires Literal(s)
    ensures Like(x, s + "%") <==> s <= x
    decreases |s|
  {
    if |s| == 0 {
      assert s + "%" == "%";
      PercentMatchesAll(x);
    } else {
      assert (s + "%")[0] == s[0];
      assert (s + "%")[1..] == s[1..] + "%";
      assert Literal(s[1..]) by {
        forall i | 0 <= i < |s[1..]| ensures s[1..][i] != '%' && s[1..][i] != '_' && s[1..][i] != '\\' {
          assert s[1..][i] == s[i + 1];
        }
      }
      if |x| > 0 {
        PrefixPattern(x[1..], s[1..]);
        assert s <= x <==> s[0] == x[0] && s[1..] <= x[1..];
      }
    }
  }

  /** A leading `%` lets the rest of the pattern match any suffix of `x`. */
  lemma {:induction false} LeadingPercent(x: string, q: string)
    ensures Like(x, "%" + q) <==> exists i :: 0 <= i <= |x| && Like(x[i..], q)
    decreases |x|
  {
    var p := "%" + q;
    assert p[1..] == q;
    if |x| == 0 {
      assert x[0..] == x;
    } else {
      LeadingPercent(x[1..], q);
      assert x[0..] == x;
      if Like(x, p) {
        if !Like(x, q) {
          assert Like(x[1..], p);
          var j :| 0 <= j <= |x[1..]| && Like(x[1..][j..], q);
          assert x[1..][j..] == x[j + 1..];
        }
      }
      if exists i :: 0 <= i <= |x| && Like(x[i..], q) {
        var i :| 0 <= i <= |x| && Like(x[i..], q);
        if i > 0 {
          assert x[1..][i - 1..] == x[i..];
        }
      }
    }
  }

  /** For a literal term, `%s%` is exactly a substring test. */
  lemma SurroundIsSubstring(x: string, s: string)
    requires Literal(s)
    ensures Like(x, Surround(s)) <==> Contains(x, s)
  {
    assert Surround(s) == "%" + (s + "%");
    LeadingPercent(x, s + "%");
    forall i | 0 <= i <= |x|
      ensures Like(x[i..], s + "%") <==> s <= x[i..]
    {
      PrefixPattern(x[i..], s);
    }
  }

  /** `ILIKE '%s%'` with a literal term is a case-insensitive (ASCII) substring test. */
  lemma ILikeSurroundIsSubstring(x: string, s: string)
    requires Literal(s)
    ensures ILike(x, Surround(s)) <==> Contains(Lower(x), Lower(s))
  {
    assert Lower(Surround(s)) == Surround(Lower(s));
    assert Literal(Lower(s));
    SurroundIsSubstring(Lower(x), Lower(s));
  }

  /** The term is not escaped: an `_` typed by the user is a wildcard, so a
      search for `a_c` matches a name that does not contain `a_c`. */
  lemma UnescapedWildcardMatchesNonSubstring()
    ensures ILike("abc", Surround("a_c"))
    ensures !Contains(Lower("abc"), Lower("a_c"))
  {
    assert Lower("abc") == "abc";
    assert Lower(Surround("a_c")) == "%a_c%";
    assert "%a_c%"[1..] == "a_c%";
    assert Like("abc", "a_c%") by {
      assert "abc"[1..] == "bc";
      assert "a_c%"[1..] == "_c%";
      assert "bc"[1..] == "c";
      assert "_c%"[1..] == "c%";
      assert "c"[1..] == "";
      assert "c%"[1..] == "%";
      PercentMatchesAll("");
    }
    assert Lower("a_c") == "a_c";
    forall i | 0 <= i <= 3 ensures !("a_c" <= "abc"[i..]) {
      if i == 0 {
        assert "abc"[0..][1] == 'b';
      }
    }
  }
}
