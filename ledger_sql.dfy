/**
 * The SQLite dialect's ledger statements (CreateSQL and InsertSQL in
 * sqlite.go): two fixed texts, each with one slot where the ledger table's
 * name is spliced in verbatim, as `fmt.Sprintf` does with a single `%s`.
 *
 * The ledger table has four columns, declared by LedgerColumns below. The
 * lemmas show that both fixed texts are renderings of that one declaration:
 * the CREATE TABLE statement defines the four columns in order, and the
 * INSERT statement lists the same four names in the same order with one
 * positional placeholder each.
 */
module SqliteLedger {
  import opened Wrappers

  /** One column of the ledger table as the CREATE TABLE statement declares it. */
  datatype Column = Column(name: string, sqlType: string, notNull: bool, default: Option<string>)

  /** The ledger's columns, in declaration order. */
  const LedgerColumns: seq<Column> := [
    Column("id", "TEXT", true, None),
    Column("checksum", "TEXT", true, Some("''")),
    Column("execution_time_in_millis", "INTEGER", true, Some("0")),
    Column("applied_at", "DATETIME", false, None)
  ]

  /** The SQL placeholder for a positional parameter. */
  const Placeholder: char := '?'

  /**
   * The text before and after the table name in the CREATE TABLE statement:
   * the source's raw string, one source line per line below (tabs and line
   * breaks included), cut at its words.
   */
  const CreateHead: string := "\n\t\t" + "CREATE TABLE IF NOT EXISTS "
  const CreateTail: string :=
    " (\n"
    + "\t\t\t" + ("id" + " " + "TEXT" + " NOT NULL") + ",\n"
    + "\t\t\t" + ("checksum" + " " + "TEXT" + " NOT NULL" + " DEFAULT " + "''") + ",\n"
    + "\t\t\t" + ("execution_time_in_millis" + " " + "INTEGER" + " NOT NULL" + " DEFAULT " + "0") + ",\n"
    + "\t\t\t" + ("applied_at" + " " + "DATETIME") + "\n"
    + "\t\t);"

  /** The text before and after the table name in the INSERT statement, cut the same way. */
  const InsertHead: string := "\n\t\t" + "INSERT INTO "
  const InsertTail: string :=
    "\n"
    + ColumnsLine
    + "\t\tVALUES\n"
    + ValuesLine
    + "\t\t"

  /** The INSERT statement's column list and its VALUES tuple, one source line each. */
  const ColumnsLine: string :=
    "\t\t( " + "id" + ", " + "checksum" + ", " + "execution_time_in_millis" + ", " + "applied_at" + " )\n"
  const ValuesLine: string := "\t\t( " + "?" + ", " + "?" + ", " + "?" + ", " + "?" + " )\n"

  /** `s` holds `w` starting at index `i`. */
  predicate OccursAt(s: string, w: string, i: nat) {
    i + |w| <= |s| && s[i..i + |w|] == w
  }

  /** The number of positional placeholders in `s`. */
  function PlaceholderCount(s: string): nat {
    if s == [] then 0
    else (if s[0] == Placeholder then 1 else 0) + PlaceholderCount(s[1..])
  }

  /** `s` holds no positional placeholder. */
  predicate NoPlaceholder(s: string) {
    forall i | 0 <= i < |s| :: s[i] != Placeholder
  }

  /** The column names of a table declaration, in order. */
  function Names(cols: seq<Column>): (r: seq<string>)
    ensures |r| == |cols|
    ensures forall i :: 0 <= i < |cols| ==> r[i] == cols[i].name
  {
    if cols == [] then [] else [cols[0].name] + Names(cols[1..])
  }

  /** A column definition as it appears in CREATE TABLE. */
  function Definition(c: Column): string {
    c.name + " " + c.sqlType
    + (if c.notNull then " NOT NULL" else "")
    + (match c.default case Some(d) => " DEFAULT " + d case None => "")
  }

  /** Each column's definition, on its own indented line. */
  function DefinitionLines(cols: seq<Column>): (r: seq<string>)
    ensures |r| == |cols|
  {
    if cols == [] then [] else ["\t\t\t" + Definition(cols[0])] + DefinitionLines(cols[1..])
  }

  /** `n` positional placeholders. */
  function PlaceholderList(n: nat): (r: seq<string>)
    ensures |r| == n
    ensures forall i :: 0 <= i < n ==> r[i] == [Placeholder]
  {
    if n == 0 then [] else [[Placeholder]] + PlaceholderList(n - 1)
  }

  /** The parts separated by `sep`. */
  function Join(parts: seq<string>, sep: string): string {
    if |parts| == 0 then ""
    else if |parts| == 1 then parts[0]
    else parts[0] + sep + Join(parts[1..], sep)
  }

  /**
   * Inverse of splicing a name between `head` and `tail`: the text between
   * them, or None when `s` does not have that shape.
   */
  function Unsplice(s: string, head: string, tail: string): Option<string> {
    if |head| + |tail| <= |s| && s[..|head|] == head && s[|s| - |tail|..] == tail
    then Some(s[|head|..|s| - |tail|])
    else None
  }

  /**
   * CreateSQL: the idempotent CREATE TABLE IF NOT EXISTS statement for the
   * ledger; the table name follows the keywords verbatim and can be read
   * back from the statement.
   */
  function CreateSQL(tableName: string): (r: string)
    ensures OccursAt(r, "CREATE TABLE IF NOT EXISTS " + tableName, 3)
    ensures Unsplice(r, CreateHead, CreateTail) == Some(tableName)
  {
    UnspliceSplice(CreateHead, tableName, CreateTail);
    Occurs("\n\t\t", "CREATE TABLE IF NOT EXISTS " + tableName, CreateTail);
    CreateHead + tableName + CreateTail
  }

  /**
   * InsertSQL: the INSERT INTO statement for one ledger row; the table name
   * follows the keywords verbatim and can be read back from the statement.
   */
  function InsertSQL(tableName: string): (r: string)
    ensures OccursAt(r, "INSERT INTO " + tableName, 3)
    ensures Unsplice(r, InsertHead, InsertTail) == Some(tableName)
  {
    UnspliceSplice(InsertHead, tableName, InsertTail);
    Occurs("\n\t\t", "INSERT INTO " + tableName, InsertTail);
    InsertHead + tableName + InsertTail
  }

  /** Different table names give different statements. */
  lemma StatementsDistinguishTables(a: string, b: string)
    requires a != b
    ensures CreateSQL(a) != CreateSQL(b)
    ensures InsertSQL(a) != InsertSQL(b)
  {
  }

  /**
   * The INSERT statement adds exactly one placeholder per ledger column, four
   * in all, to whatever the table name itself holds.
   */
  lemma InsertPlaceholderCount(tableName: string)
    ensures PlaceholderCount(InsertSQL(tableName)) == PlaceholderCount(tableName) + |LedgerColumns|
    ensures PlaceholderCount(InsertSQL(tableName)) == PlaceholderCount(tableName) + 4
  {
    InsertHeadNoPlaceholder();
    InsertTailPlaceholders();
    CountAppend(InsertHead, tableName);
    CountAppend(InsertHead + tableName, InsertTail);
  }

  /**
   * The CREATE TABLE statement defines exactly the ledger's columns, in
   * declaration order, with their types, NOT NULL markers and defaults.
   */
  lemma CreateDefinesLedgerColumns()
    ensures CreateTail == " (\n" + Join(DefinitionLines(LedgerColumns), ",\n") + "\n\t\t);"
  {
    var d := DefinitionLines(LedgerColumns);
    LedgerDefinitionLines();
    Join4(d[0], d[1], d[2], d[3], ",\n");
    assert "\n\t\t);" == "\n" + "\t\t);";
    RegroupLines(" (\n", "\t\t\t",
      "id" + " " + "TEXT" + " NOT NULL",
      "checksum" + " " + "TEXT" + " NOT NULL" + " DEFAULT " + "''",
      "execution_time_in_millis" + " " + "INTEGER" + " NOT NULL" + " DEFAULT " + "0",
      "applied_at" + " " + "DATETIME",
      ",\n", "\n", "\t\t);");
  }

  /**
   * The INSERT statement names the ledger's columns in declaration order and
   * binds them to one placeholder each.
   */
  lemma InsertBindsLedgerColumns()
    ensures ColumnsLine == "\t\t( " + Join(Names(LedgerColumns), ", ") + " )\n"
    ensures ValuesLine == "\t\t( " + Join(PlaceholderList(|LedgerColumns|), ", ") + " )\n"
  {
    InsertColumnsLine();
    InsertValuesLine();
  }

  // Helper lemmas. The facts about literal texts are kept to a few short
  // strings each, so that the verifier compares them character by character
  // cheaply.

  lemma Occurs(pre: string, w: string, post: string)
    ensures OccursAt(pre + w + post, w, |pre|)
  {
    assert (pre + w + post)[|pre|..|pre| + |w|] == w;
  }

  lemma UnspliceSplice(head: string, name: string, tail: string)
    ensures Unsplice(head + name + tail, head, tail) == Some(name)
  {
    var s := head + name + tail;
    assert s[..|head|] == head;
    assert s[|s| - |tail|..] == tail;
    assert s[|head|..|s| - |tail|] == name;
  }

  lemma {:induction false} CountAppend(a: string, b: string)
    ensures PlaceholderCount(a + b) == PlaceholderCount(a) + PlaceholderCount(b)
  {
    if a != [] {
      assert (a + b)[0] == a[0];
      assert (a + b)[1..] == a[1..] + b;
      CountAppend(a[1..], b);
    } else {
      assert a + b == b;
    }
  }

  lemma {:induction false} CountNone(s: string)
    requires NoPlaceholder(s)
    ensures PlaceholderCount(s) == 0
  {
    if s != [] {
      assert s[0] != Placeholder;
      CountNone(s[1..]);
    }
  }

  lemma Join4(a: string, b: string, c: string, d: string, sep: string)
    ensures Join([a, b, c, d], sep) == (a + sep) + (b + sep) + (c + sep) + d
  {
    assert [a, b, c, d][1..] == [b, c, d];
    assert [b, c, d][1..] == [c, d];
    assert [c, d][1..] == [d];
    assert Join([c, d], sep) == c + sep + d;
    assert Join([b, c, d], sep) == b + sep + (c + sep + d);
  }

  /** Joining texts without placeholders, with a separator without one, adds none. */
  lemma {:induction false} JoinNoPlaceholder(parts: seq<string>, sep: string)
    requires forall k | 0 <= k < |parts| :: NoPlaceholder(parts[k])
    requires NoPlaceholder(sep)
    ensures NoPlaceholder(Join(parts, sep))
  {
    if |parts| > 1 {
      JoinNoPlaceholder(parts[1..], sep);
      var rest := Join(parts[1..], sep);
      var r := parts[0] + sep + rest;
      forall i | 0 <= i < |r|
        ensures r[i] != Placeholder
      {
        if i < |parts[0]| {
          assert r[i] == parts[0][i];
        } else if i < |parts[0]| + |sep| {
          assert r[i] == sep[i - |parts[0]|];
        } else {
          assert r[i] == rest[i - |parts[0]| - |sep|];
        }
      }
    }
  }

  /** Joining `n` placeholders with a separator that holds none gives `n` placeholders. */
  lemma {:induction false} JoinPlaceholderCount(n: nat, sep: string)
    requires NoPlaceholder(sep)
    ensures PlaceholderCount(Join(PlaceholderList(n), sep)) == n
  {
    if n == 1 {
      assert PlaceholderList(1) == [[Placeholder]];
      assert [Placeholder][1..] == [];
    } else if n > 1 {
      var ps := PlaceholderList(n);
      assert ps[1..] == PlaceholderList(n - 1);
      JoinPlaceholderCount(n - 1, sep);
      CountNone(sep);
      CountAppend([Placeholder], sep);
      CountAppend([Placeholder] + sep, Join(ps[1..], sep));
      assert [Placeholder][1..] == [];
    }
  }

  lemma InsertHeadNoPlaceholder()
    ensures PlaceholderCount(InsertHead) == 0
  {
    assert NoPlaceholder(InsertHead);
    CountNone(InsertHead);
  }

  lemma InsertTailPlaceholders()
    ensures PlaceholderCount(InsertTail) == 4
  {
    ColumnsLineNoPlaceholder();
    ValuesLinePlaceholders();
    assert NoPlaceholder("\n") && NoPlaceholder("\t\tVALUES\n") && NoPlaceholder("\t\t");
    CountNone("\n");
    CountNone("\t\tVALUES\n");
    CountNone("\t\t");
    CountAppend("\n", ColumnsLine);
    CountAppend("\n" + ColumnsLine, "\t\tVALUES\n");
    CountAppend("\n" + ColumnsLine + "\t\tVALUES\n", ValuesLine);
    CountAppend("\n" + ColumnsLine + "\t\tVALUES\n" + ValuesLine, "\t\t");
  }

  lemma ColumnsLineNoPlaceholder()
    ensures PlaceholderCount(ColumnsLine) == 0
  {
    InsertColumnsLine();
    LedgerNames();
    var names := Names(LedgerColumns);
    forall k | 0 <= k < |names|
      ensures NoPlaceholder(names[k])
    {
      assert NoPlaceholder(LedgerColumns[k].name);
    }
    assert NoPlaceholder(", ");
    JoinNoPlaceholder(names, ", ");
    var j := Join(names, ", ");
    assert NoPlaceholder("\t\t( ") && NoPlaceholder(" )\n");
    CountNone(j);
    CountNone("\t\t( ");
    CountNone(" )\n");
    CountAppend("\t\t( ", j);
    CountAppend("\t\t( " + j, " )\n");
  }

  lemma ValuesLinePlaceholders()
    ensures PlaceholderCount(ValuesLine) == 4
  {
    InsertValuesLine();
    assert NoPlaceholder(", ");
    JoinPlaceholderCount(4, ", ");
    var j := Join(PlaceholderList(4), ", ");
    assert NoPlaceholder("\t\t( ") && NoPlaceholder(" )\n");
    CountNone("\t\t( ");
    CountNone(" )\n");
    CountAppend("\t\t( ", j);
    CountAppend("\t\t( " + j, " )\n");
  }

  lemma LedgerNames()
    ensures Names(LedgerColumns) == ["id", "checksum", "execution_time_in_millis", "applied_at"]
  {
  }

  lemma LedgerDefinitionLines()
    ensures DefinitionLines(LedgerColumns) == [
      "\t\t\t" + ("id" + " " + "TEXT" + " NOT NULL"),
      "\t\t\t" + ("checksum" + " " + "TEXT" + " NOT NULL" + " DEFAULT " + "''"),
      "\t\t\t" + ("execution_time_in_millis" + " " + "INTEGER" + " NOT NULL" + " DEFAULT " + "0"),
      "\t\t\t" + ("applied_at" + " " + "DATETIME")]
  {
    var cs := LedgerColumns;
    assert cs[1..][1..][1..][1..] == [];
    assert Definition(cs[0]) == "id" + " " + "TEXT" + " NOT NULL";
    assert Definition(cs[1]) == "checksum" + " " + "TEXT" + " NOT NULL" + " DEFAULT " + "''";
    assert Definition(cs[2]) == "execution_time_in_millis" + " " + "INTEGER" + " NOT NULL" + " DEFAULT " + "0";
    assert Definition(cs[3]) == "applied_at" + " " + "DATETIME";
    assert DefinitionLines(cs[1..][1..][1..]) == ["\t\t\t" + Definition(cs[3])];
    assert DefinitionLines(cs[1..][1..]) == ["\t\t\t" + Definition(cs[2]), "\t\t\t" + Definition(cs[3])];
  }

  lemma InsertColumnsLine()
    ensures ColumnsLine == "\t\t( " + Join(Names(LedgerColumns), ", ") + " )\n"
  {
    LedgerNames();
    Join4("id", "checksum", "execution_time_in_millis", "applied_at", ", ");
    Regroup4("\t\t( ", "id", "checksum", "execution_time_in_millis", "applied_at", ", ", " )\n");
  }

  lemma InsertValuesLine()
    ensures ValuesLine == "\t\t( " + Join(PlaceholderList(|LedgerColumns|), ", ") + " )\n"
  {
    assert PlaceholderList(4) == ["?", "?", "?", "?"];
    Join4("?", "?", "?", "?", ", ");
    Regroup4("\t\t( ", "?", "?", "?", "?", ", ", " )\n");
  }

  /** Associativity of `+` on strings, stated once so that the literal constants are never unfolded to regroup them. */
  lemma Regroup4(open: string, a: string, b: string, c: string, d: string, sep: string, close: string)
    ensures open + a + sep + b + sep + c + sep + d + close
      == open + ((a + sep) + (b + sep) + (c + sep) + d) + close
  {
  }

  /** Associativity of `+` on strings for the four-line column block, for the same reason as `Regroup4`. */
  lemma RegroupLines(open: string, indent: string, d0: string, d1: string, d2: string, d3: string,
                     sep: string, nl: string, close: string)
    ensures open + indent + d0 + sep + indent + d1 + sep + indent + d2 + sep + indent + d3 + nl + close
      == open + ((indent + d0 + sep) + (indent + d1 + sep) + (indent + d2 + sep) + (indent + d3)) + (nl + close)
  {
  }
}
