/** The free-text search: escaping of the LIKE wildcards in the term, and the
    PostgREST `or` filter that matches it against three columns. */
module Search {
  import opened Wrappers

  /** The two LIKE wildcards, `%` (any run of characters) and `_` (any one
      character). */
  predicate IsWildcard(c: char) {
    c == '%' || c == '_'
  }

  /** How many wildcards `s` holds. */
  function Wildcards(s: string): (n: nat)
    ensures n <= |s|
  {
    if s == [] then 0 else (if IsWildcard(s[0]) then 1 else 0) + Wildcards(s[1..])
  }

  /** The search term with a backslash put before every `%` and every `_`, as
      `replace(/[%_]/g, '\\$&')` does. No other character is touched, a
      backslash included. */
  function Escape(s: string): (r: string)
    ensures |r| == |s| + Wildcards(s)
    ensures Wildcards(s) == 0 ==> r == s
    ensures r != [] ==> !IsWildcard(r[0])
  {
    if s == [] then []
    else (if IsWildcard(s[0]) then ['\\', s[0]] else [s[0]]) + Escape(s[1..])
  }

  /** `Wildcards(s)` is zero exactly when no character of `s` is a wildcard,
      so a term with neither `%` nor `_` is left as it is. */
  lemma {:induction false} NoWildcardsIff(s: string)
    ensures Wildcards(s) == 0 <==> forall i :: 0 <= i < |s| ==> !IsWildcard(s[i])
  {
    if s != [] {
      NoWildcardsIff(s[1..]);
      assert forall i :: 1 <= i < |s| ==> s[i] == s[1..][i - 1];
    }
  }

  /** Removes the backslash in front of each `%` and `_`; the reading of an
      escaped term back. */
  function Unescape(r: string): (s: string)
    ensures |s| <= |r|
  {
    if r == [] then []
    else if |r| >= 2 && r[0] == '\\' && IsWildcard(r[1]) then [r[1]] + Unescape(r[2..])
    else [r[0]] + Unescape(r[1..])
  }

  /** Removing the inserted backslashes gives the search term back. */
  lemma {:induction false} UnescapeEscape(s: string)
    ensures Unescape(Escape(s)) == s
  {
    if s != [] {
      var rest := Escape(s[1..]);
      UnescapeEscape(s[1..]);
      if IsWildcard(s[0]) {
        assert Escape(s) == ['\\', s[0]] + rest;
        assert (['\\', s[0]] + rest)[2..] == rest;
      } else {
        assert Escape(s) == [s[0]] + rest;
        assert ([s[0]] + rest)[1..] == rest;
        assert s[0] == '\\' && rest != [] ==> !IsWildcard(rest[0]);
      }
    }
  }

  /** Distinct search terms stay distinct once escaped. */
  lemma EscapeInjective(a: string, b: string)
    requires Escape(a) == Escape(b)
    ensures a == b
  {
    UnescapeEscape(a);
    UnescapeEscape(b);
  }

  /** Escaping works character by character, so it distributes over
      concatenation. */
  lemma {:induction false} EscapeAppend(a: string, b: string)
    ensures Escape(a + b) == Escape(a) + Escape(b)
  {
    if a == [] {
      assert a + b == b;
    } else {
      var head := if IsWildcard(a[0]) then ['\\', a[0]] else [a[0]];
      assert (a + b)[0] == a[0];
      assert (a + b)[1..] == a[1..] + b;
      EscapeAppend(a[1..], b);
      calc {
        Escape(a + b);
        head + Escape(a[1..] + b);
        head + (Escape(a[1..]) + Escape(b));
        (head + Escape(a[1..])) + Escape(b);
      }
    }
  }

  /** One element of a LIKE pattern as PostgreSQL reads it with `\` as the
      escape character. */
  datatype PatternToken = Literal(c: char) | AnyChar | AnyRun

  /** The reading of an escaped term on its own, without the `*…*` around it
      in the filter: `\` makes the next character literal, an unescaped `%` or
      `_` is a wildcard, everything else is itself. A trailing lone `\`, which
      PostgreSQL rejects in a whole pattern and which escapes the closing
      wildcard inside the filter, is read here as itself. */
  function Tokens(p: string): (t: seq<PatternToken>)
    ensures |t| <= |p|
  {
    if p == [] then []
    else if p[0] == '\\' && |p| >= 2 then [Literal(p[1])] + Tokens(p[2..])
    else if p[0] == '%' then [AnyRun] + Tokens(p[1..])
    else if p[0] == '_' then [AnyChar] + Tokens(p[1..])
    else [Literal(p[0])] + Tokens(p[1..])
  }

  /** Each character of `s` taken literally. */
  function Literals(s: string): (t: seq<PatternToken>)
    ensures |t| == |s|
    ensures forall i :: 0 <= i < |s| ==> t[i] == Literal(s[i])
  {
    if s == [] then [] else [Literal(s[0])] + Literals(s[1..])
  }

  /** For a term without backslashes, PostgreSQL's LIKE reading of the escaped
      term on its own is each character of the term as a literal. This is not
      a literal match of the filter as sent: PostgREST turns every `*` of an
      `ilike` value into `%`, and a `,` or parenthesis in the term splits the
      `or` list; `StarNotEscaped` shows the first. */
  lemma {:induction false} EscapeIsLiteral(s: string)
    requires forall i :: 0 <= i < |s| ==> s[i] != '\\'
    ensures Tokens(Escape(s)) == Literals(s)
  {
    if s != [] {
      var rest := Escape(s[1..]);
      EscapeIsLiteral(s[1..]);
      if IsWildcard(s[0]) {
        assert Escape(s) == ['\\', s[0]] + rest;
        assert (['\\', s[0]] + rest)[2..] == rest;
      } else {
        assert Escape(s) == [s[0]] + rest;
        assert ([s[0]] + rest)[1..] == rest;
      }
    }
  }

  /** Backslashes are not escaped, so one in the term can cancel the escape of
      the wildcard after it: the term `\%` becomes `\\%`, which reads as a
      literal backslash followed by a live `%` wildcard. */
  lemma BackslashCancelsEscape()
    ensures Escape("\\%") == "\\\\%"
    ensures Tokens(Escape("\\%")) == [Literal('\\'), AnyRun]
  {
    assert Escape("\\%") == ['\\'] + Escape("%");
    assert Escape("%") == ['\\', '%'] + Escape("");
    assert Tokens("\\\\%") == [Literal('\\')] + Tokens("%");
  }

  /** A `*` is not escaped: the term `a*b` is sent as `a*b`, whose `*` PostgREST
      reads as the `%` wildcard inside an `ilike` value. */
  lemma StarNotEscaped()
    ensures Escape("a*b") == "a*b"
  {
    NoWildcardsIff("a*b");
  }

  /** The `ilike` condition of one column on the pattern `*term*`; PostgREST
      reads `*` as the `%` wildcard. */
  function Clause(column: string, term: string): (c: string)
    ensures |c| == |column| + |term| + 9
  {
    column + ".ilike.*" + term + "*"
  }

  /** Length of the filter text around the three copies of the term. */
  const FilterOverhead: int := 52

  /** The filter text for an already escaped term, as getJobs.ts's template
      string writes it. */
  function FilterText(t: string): (f: string)
  {
    "title.ilike.*" + t + "*,company.ilike.*" + t + "*,description.ilike.*" + t + "*"
  }

  /** The filter the search adds, if any. An absent or empty search is falsy
      and adds none; otherwise the escaped term is matched, case-insensitively
      and anywhere, against `title`, `company` or `description`. */
  function SearchFilter(search: Option<string>): (f: Option<string>)
    ensures f.None? <==> search.None? || search.value == []
    ensures f.Some? ==> var t := Escape(search.value);
      f.value == Clause("title", t) + "," + Clause("company", t) + "," + Clause("description", t)
  {
    if search.None? || search.value == [] then None
    else
      var t := Escape(search.value);
      FilterIsClauses(t);
      Some(FilterText(t))
  }

  /** The filter text is the three clauses joined by commas. */
  lemma FilterIsClauses(t: string)
    ensures FilterText(t) == Clause("title", t) + "," + Clause("company", t) + "," + Clause("description", t)
  {
    var i := ".ilike.*";
    assert "title.ilike.*" == "title" + i;
    assert "*,company.ilike.*" == "*" + "," + "company" + i;
    assert "*,description.ilike.*" == "*" + "," + "description" + i;
    calc {
      FilterText(t);
      "title.ilike.*" + t + "*,company.ilike.*" + t + "*,description.ilike.*" + t + "*";
      ("title" + i) + t + ("*" + "," + "company" + i) + t + ("*" + "," + "description" + i) + t + "*";
      ("title" + i + t + "*") + "," + ("company" + i + t + "*") + "," + ("description" + i + t + "*");
    }
  }

  /** The escaped term sits right after `title.ilike.*`, and the filter's
      length is fixed by it. */
  lemma FilterLayout(t: string)
    ensures |FilterText(t)| == 3 * |t| + FilterOverhead
    ensures FilterText(t)[..13] == "title.ilike.*"
    ensures FilterText(t)[13..13 + |t|] == t
  {
    var head := "title.ilike.*";
    var rest := "*,company.ilike.*" + t + "*,description.ilike.*" + t + "*";
    var f := FilterText(t);
    assert f == head + t + rest;
    assert |head| == 13;
    assert f[..13] == head;
    assert f[13..13 + |t|] == t;
  }

  /** Reads the search term back out of a filter. */
  function FilterTerm(f: string): (s: Option<string>)
  {
    if |f| < FilterOverhead || (|f| - FilterOverhead) % 3 != 0 then None
    else
      var k := (|f| - FilterOverhead) / 3;
      Some(Unescape(f[13..13 + k]))
  }

  /** The filter determines the search term: reading it back gives the term. */
  lemma FilterTermRecovers(s: string)
    requires s != []
    ensures FilterTerm(SearchFilter(Some(s)).value) == Some(s)
  {
    FilterLayout(Escape(s));
    UnescapeEscape(s);
  }

  /** Different non-empty searches give different filters. */
  lemma FilterInjective(a: string, b: string)
    requires a != [] && b != []
    requires SearchFilter(Some(a)) == SearchFilter(Some(b))
    ensures a == b
  {
    FilterTermRecovers(a);
    FilterTermRecovers(b);
  }

  /** `50% off` is searched for as `50\% off`. */
  lemma EscapePercentExample()
    ensures Escape("50% off") == "50\\% off"
  {
    assert Escape(" off") == " off" by {
      assert Wildcards(" off") == 0 by {
        assert Wildcards("") == 0;
      }
    }
    calc {
      Escape("50% off");
      "5" + Escape("0% off");
      "5" + ("0" + Escape("% off"));
      "5" + ("0" + ("\\%" + Escape(" off")));
    }
  }
}
