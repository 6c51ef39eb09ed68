/**
 * The SQLite dialect's identifier quoter (QuotedTableName in sqlite.go).
 *
 * A schema name and a table name are joined with no separator. An empty join
 * quotes to the empty string; any other join becomes a SQL delimited
 * identifier: a double quote, then every rune of the join with whitespace and
 * ';' dropped and '"' doubled, then a closing double quote.
 *
 * Quoted is the specification, QuotedTableName the loop that builds the same
 * string rune by rune; the lemmas state what a reader of the quoted name can
 * rely on: its shape, which runes it can never contain, that it has no lone
 * quote, that unquoting it gives back the filtered input, and its length.
 */
module SqliteQuoting {
  import opened Wrappers
  import Unicode

  /** The SQL delimiter for identifiers. */
  const Quote: char := '"'

  /** The statement terminator, which the quoter drops. */
  const Terminator: char := ';'

  /** A rune that survives quoting (possibly doubled): neither whitespace nor ';'. */
  predicate Kept(c: char) {
    !Unicode.IsSpace(c) && c != Terminator
  }

  /** Reference definition: the runes of `s` that survive quoting, in their original order. */
  function Filter(s: string): (r: string)
    ensures |r| <= |s|
    ensures forall c :: c in r ==> Kept(c)
    ensures forall c :: c in s && Kept(c) ==> c in r
  {
    if s == [] then ""
    else if Kept(s[0]) then [s[0]] + Filter(s[1..])
    else Filter(s[1..])
  }

  /** What one rune of the identifier becomes between the delimiters. */
  function EscapeRune(c: char): string {
    if Unicode.IsSpace(c) then ""
    else if c == Quote then [Quote, Quote]
    else if c == Terminator then ""
    else [c]
  }

  /**
   * What one rune becomes: nothing when it is whitespace or `;`, two quotes
   * when it is a quote, itself otherwise; so it never yields a rune other
   * than itself.
   */
  lemma EscapeRuneCases(c: char)
    ensures EscapeRune(c) == [] <==> !Kept(c)
    ensures c == Quote ==> EscapeRune(c) == [Quote, Quote]
    ensures Kept(c) && c != Quote ==> EscapeRune(c) == [c]
    ensures forall i :: 0 <= i < |EscapeRune(c)| ==> EscapeRune(c)[i] == c
  {
  }

  /** The text between the delimiters: every rune of `s` escaped, in order. */
  function Escape(s: string): string {
    if s == [] then "" else EscapeRune(s[0]) + Escape(s[1..])
  }

  /** Specification of QuotedTableName. */
  function Quoted(schemaName: string, tableName: string): (r: string)
    ensures r == "" <==> schemaName + tableName == ""
    ensures r != "" ==> 2 <= |r| && r[0] == Quote && r[|r| - 1] == Quote
  {
    var ident := schemaName + tableName;
    if ident == "" then "" else [Quote] + Escape(ident) + [Quote]
  }

  /** The text between the outer delimiters of a non-empty quoted name. */
  function Interior(q: string): string
    requires 2 <= |q|
  {
    q[1..|q| - 1]
  }

  /**
   * The runes of a quoted name as a SQL lexer reads them: every '"' must be
   * the first of a `""` pair. A lone '"' would end the identifier early.
   */
  predicate PairedQuotes(t: string)
    decreases |t|
  {
    if t == [] then true
    else if t[0] != Quote then PairedQuotes(t[1..])
    else 2 <= |t| && t[1] == Quote && PairedQuotes(t[2..])
  }

  /** Inverse of the escaping: collapse each `""` to '"'; None on a lone '"'. */
  function Unescape(t: string): Option<string>
    decreases |t|
  {
    if t == [] then Some("")
    else if t[0] != Quote then
      match Unescape(t[1..])
      case Some(u) => Some([t[0]] + u)
      case None => None
    else if 2 <= |t| && t[1] == Quote then
      match Unescape(t[2..])
      case Some(u) => Some([Quote] + u)
      case None => None
    else None
  }

  /** Reads a delimited identifier back: strip the delimiters, then unescape. */
  function Unquote(q: string): Option<string> {
    if 2 <= |q| && q[0] == Quote && q[|q| - 1] == Quote then Unescape(Interior(q)) else None
  }

  /**
   * QuotedTableName: a builder that starts with the opening quote, takes the
   * runes of the joined name one by one (skipping whitespace and ';', doubling
   * '"', copying anything else) and ends with the closing quote.
   */
  method QuotedTableName(schemaName: string, tableName: string) returns (r: string)
    ensures r == Quoted(schemaName, tableName)
  {
    var ident := schemaName + tableName;
    if ident == "" {
      return "";
    }
    var sb := [Quote];
    for i := 0 to |ident|
      invariant sb == [Quote] + Escape(ident[..i])
    {
      var c := ident[i];
      EscapeAppend(ident[..i], [c]);
      assert ident[..i + 1] == ident[..i] + [c];
      if Unicode.IsSpace(c) {
        continue;
      } else if c == Quote {
        sb := sb + [Quote, Quote];
      } else if c == Terminator {
        continue;
      } else {
        sb := sb + [c];
      }
    }
    assert ident[..|ident|] == ident;
    sb := sb + [Quote];
    r := sb;
  }

  /** Escaping distributes over concatenation: the builder can work rune by rune. */
  lemma {:induction false} EscapeAppend(a: string, b: string)
    ensures Escape(a + b) == Escape(a) + Escape(b)
  {
    if a == [] {
      assert a + b == b;
    } else {
      assert (a + b)[0] == a[0];
      assert (a + b)[1..] == a[1..] + b;
      EscapeAppend(a[1..], b);
    }
  }

  /** Escaping emits only runes that survive quoting. */
  lemma {:induction false} EscapeKeptOnly(s: string)
    ensures forall c :: c in Escape(s) ==> Kept(c)
  {
    if s != [] {
      EscapeKeptOnly(s[1..]);
    }
  }

  /** The escaped text has no lone quote. */
  lemma {:induction false} EscapePaired(s: string)
    ensures PairedQuotes(Escape(s))
  {
    if s != [] {
      EscapePaired(s[1..]);
      var c, t := s[0], Escape(s[1..]);
      if c == Quote {
        var e := Escape(s);
        assert e == [Quote, Quote] + t;
        assert e[2..] == t;
      } else if Kept(c) {
        assert EscapeRune(c) == [c];
        var e := Escape(s);
        assert e == [c] + t;
        assert e[0] == c && e[1..] == t;
      } else {
        assert Escape(s) == t;
      }
    }
  }

  /** Round trip on the interior: unescaping the escaped text gives the filtered input. */
  lemma {:induction false} UnescapeEscape(s: string)
    ensures Unescape(Escape(s)) == Some(Filter(s))
  {
    if s != [] {
      UnescapeEscape(s[1..]);
      var c, t := s[0], Escape(s[1..]);
      var e := Escape(s);
      if c == Quote {
        assert e == [Quote, Quote] + t;
        assert e[2..] == t;
      } else if Kept(c) {
        assert e == [c] + t;
        assert e[1..] == t;
      } else {
        assert e == t;
      }
    }
  }

  /**
   * The other direction: a text without whitespace or ';' that unescapes to
   * `x` is exactly what escaping `x` produces, so every such well-formed
   * interior is the quoter's output for some name.
   */
  lemma {:induction false} EscapeUnescape(t: string, x: string)
    requires forall c :: c in t ==> Kept(c)
    requires Unescape(t) == Some(x)
    ensures Escape(x) == t
    decreases |t|
  {
    if t != [] {
      if t[0] != Quote {
        var u := Unescape(t[1..]).value;
        assert forall c :: c in t[1..] ==> c in t;
        EscapeUnescape(t[1..], u);
        assert t[0] in t;
        assert EscapeRune(t[0]) == [t[0]];
        assert x == [t[0]] + u;
        assert x[1..] == u;
        assert t == [t[0]] + t[1..];
      } else {
        var u := Unescape(t[2..]).value;
        assert forall c :: c in t[2..] ==> c in t;
        EscapeUnescape(t[2..], u);
        assert x == [Quote] + u;
        assert x[1..] == u;
        assert t == [Quote, Quote] + t[2..];
      }
    }
  }

  /** The lexer's predicate and the decoder agree on which texts are well formed. */
  lemma {:induction false} UnescapeDefinedIff(t: string)
    ensures Unescape(t).Some? <==> PairedQuotes(t)
    decreases |t|
  {
    if t != [] {
      if t[0] != Quote {
        UnescapeDefinedIff(t[1..]);
      } else if 2 <= |t| && t[1] == Quote {
        UnescapeDefinedIff(t[2..]);
      }
    }
  }

  /** Dropped runes do not matter: escaping the filtered input gives the same text. */
  lemma {:induction false} EscapeFilter(s: string)
    ensures Escape(Filter(s)) == Escape(s)
  {
    if s != [] {
      EscapeFilter(s[1..]);
      if Kept(s[0]) {
        var f := Filter(s);
        assert f == [s[0]] + Filter(s[1..]);
        assert f[0] == s[0] && f[1..] == Filter(s[1..]);
      }
    }
  }

  /** Each surviving '"' costs two runes, every other surviving rune one. */
  lemma {:induction false} EscapeLength(s: string)
    ensures |Escape(s)| == |Filter(s)| + multiset(s)[Quote]
  {
    if s != [] {
      EscapeLength(s[1..]);
      assert s == [s[0]] + s[1..];
      assert multiset(s) == multiset([s[0]]) + multiset(s[1..]);
    }
  }

  /** A name made only of runes that need no escaping is copied verbatim. */
  lemma {:induction false} EscapePlain(s: string)
    requires forall c :: c in s ==> Kept(c) && c != Quote
    ensures Escape(s) == s
  {
    if s != [] {
      assert forall c :: c in s[1..] ==> c in s;
      EscapePlain(s[1..]);
      assert s[0] in s;
      assert EscapeRune(s[0]) == [s[0]];
      assert s == [s[0]] + s[1..];
    }
  }

  /** Neither whitespace nor ';' can appear anywhere in a quoted name. */
  lemma QuotedExcludes(schemaName: string, tableName: string)
    ensures forall k :: 0 <= k < |Quoted(schemaName, tableName)| ==>
      !Unicode.IsSpace(Quoted(schemaName, tableName)[k]) && Quoted(schemaName, tableName)[k] != Terminator
  {
    var ident := schemaName + tableName;
    if ident != "" {
      EscapeKeptOnly(ident);
      var r := Quoted(schemaName, tableName);
      forall k | 0 <= k < |r|
        ensures Kept(r[k])
      {
        if 0 < k < |r| - 1 {
          assert r[k] == Escape(ident)[k - 1];
        }
      }
    }
  }

  /** Between the outer delimiters of a non-empty quoted name every '"' is doubled. */
  lemma QuotedNoLoneQuote(schemaName: string, tableName: string)
    requires schemaName + tableName != ""
    ensures PairedQuotes(Interior(Quoted(schemaName, tableName)))
  {
    var ident := schemaName + tableName;
    EscapePaired(ident);
    assert Interior(Quoted(schemaName, tableName)) == Escape(ident);
  }

  /**
   * Round trip: reading the quoted name back as a SQL delimited identifier
   * gives exactly the joined input with whitespace and ';' removed.
   */
  lemma QuotedRoundTrip(schemaName: string, tableName: string)
    requires schemaName + tableName != ""
    ensures Unquote(Quoted(schemaName, tableName)) == Some(Filter(schemaName + tableName))
  {
    var ident := schemaName + tableName;
    UnescapeEscape(ident);
    assert Interior(Quoted(schemaName, tableName)) == Escape(ident);
  }

  /** Length law: two delimiters, one rune per kept non-quote rune, two per '"'. */
  lemma QuotedLength(schemaName: string, tableName: string)
    requires schemaName + tableName != ""
    ensures |Quoted(schemaName, tableName)|
      == 2 + |Filter(schemaName + tableName)| + multiset(schemaName + tableName)[Quote]
  {
    EscapeLength(schemaName + tableName);
  }

  /**
   * Two non-empty names quote to the same identifier exactly when they agree
   * once whitespace and ';' are removed.
   */
  lemma QuotedSameIff(s1: string, t1: string, s2: string, t2: string)
    requires s1 + t1 != "" && s2 + t2 != ""
    ensures Quoted(s1, t1) == Quoted(s2, t2) <==> Filter(s1 + t1) == Filter(s2 + t2)
  {
    QuotedRoundTrip(s1, t1);
    QuotedRoundTrip(s2, t2);
    EscapeFilter(s1 + t1);
    EscapeFilter(s2 + t2);
  }

  /** A name with no whitespace, ';' or '"' is simply wrapped in quotes. */
  lemma QuotedPlain(schemaName: string, tableName: string)
    requires schemaName + tableName != ""
    requires forall c :: c in schemaName + tableName ==> Kept(c) && c != Quote
    ensures Quoted(schemaName, tableName) == [Quote] + schemaName + tableName + [Quote]
  {
    EscapePlain(schemaName + tableName);
  }

  /** Worked case: the space inside a schema name is removed. */
  lemma QuotedDropsSpace()
    ensures Quoted("my db", "t") == "\"mydbt\""
  {
    assert "my db" + "t" == "my" + [' '] + "dbt";
    EscapeAppend("my" + [' '], "dbt");
    EscapeAppend("my", [' ']);
    assert Escape([' ']) == "";
    EscapePlain("my");
    EscapePlain("dbt");
  }

  /** Worked case: an embedded quote comes out doubled. */
  lemma QuotedDoublesQuote()
    ensures Quoted("", "a\"b") == "\"a\"\"b\""
  {
    assert "" + "a\"b" == "a" + [Quote] + "b";
    EscapeAppend("a" + [Quote], "b");
    EscapeAppend("a", [Quote]);
    assert Escape([Quote]) == [Quote, Quote];
    EscapePlain("a");
    EscapePlain("b");
  }

  /** Worked case: a statement terminator in a table name is dropped. */
  lemma QuotedDropsTerminator()
    ensures Quoted("t", ";x") == "\"tx\""
  {
    assert "t" + ";x" == "t" + [Terminator] + "x";
    EscapeAppend("t" + [Terminator], "x");
    EscapeAppend("t", [Terminator]);
    assert Escape([Terminator]) == "";
    EscapePlain("t");
    EscapePlain("x");
  }
}
